/**
 * The four block sweeps of getGene.py, over Exon objects. assignBlocks and
 * assignBlocksReverse stamp every exon with its block number and display
 * start and record the block in the owning transcript; the two
 * annotation variants repeat the merge over annotated exons only and
 * change nothing.
 */
module Blocks {
  import opened Structs
  import opened BlockSpec

  /** The transcripts that own the exons of a list. */
  function Owners(exonList: seq<Exon>): set<Transcript>
  {
    set e | e in exonList :: e.tran
  }

  /** The block numbers carried by t's exons among the first m of the list. */
  function BlocksOf(exonList: seq<Exon>, ids: seq<nat>, t: Transcript, m: nat): set<nat>
    requires m <= |exonList| && m <= |ids|
  {
    if m == 0 then {}
    else BlocksOf(exonList, ids, t, m - 1) + (if exonList[m - 1].tran == t then {ids[m - 1]} else {})
  }

  /** Block b is in t's set exactly when one of t's exons before index m lies in block b. */
  lemma {:induction false} BlocksOfExactly(exonList: seq<Exon>, ids: seq<nat>, t: Transcript, m: nat, b: nat)
    requires m <= |exonList| && m <= |ids|
    ensures b in BlocksOf(exonList, ids, t, m) <==> exists i :: 0 <= i < m && exonList[i].tran == t && ids[i] == b
  {
    if m > 0 {
      BlocksOfExactly(exonList, ids, t, m - 1, b);
    }
  }

  /** The exons of the list whose transcript comes from the annotations, in list order. */
  function AnnotatedExons(exonList: seq<Exon>): (r: seq<Exon>)
    ensures |r| <= |exonList|
  {
    if exonList == [] then []
    else
      var e := exonList[|exonList| - 1];
      AnnotatedExons(exonList[..|exonList| - 1]) + (if e.tran.annot then [e] else [])
  }

  /** Exactly the annotated exons are kept. */
  lemma {:induction false} AnnotatedExonsExactly(exonList: seq<Exon>, x: Exon)
    ensures x in AnnotatedExons(exonList) <==> x in exonList && x.tran.annot
  {
    if exonList != [] {
      var pre := exonList[..|exonList| - 1];
      AnnotatedExonsExactly(pre, x);
      assert exonList == pre + [exonList[|exonList| - 1]];
    }
  }

  /** c holds the exons' intervals, in list order. */
  ghost predicate Spans(c: seq<Span>, exonList: seq<Exon>)
  {
    |c| == |exonList| && forall i :: 0 <= i < |c| ==> c[i] == Span(exonList[i].start, exonList[i].end)
  }

  /** o is the mirrored view of the exons' intervals: (start, end) becomes (-end, -start). */
  ghost predicate Mirrors(o: seq<Span>, exonList: seq<Exon>)
  {
    |o| == |exonList| && forall i :: 0 <= i < |o| ==> o[i] == Span(-exonList[i].end, -exonList[i].start)
  }

  lemma MirrorsOriented(exonList: seq<Exon>)
    ensures Mirrors(Oriented(Reverse, SpansOf(exonList)), exonList)
  {
  }

  /** Exon e carries block number b and display start a. */
  ghost predicate Bears(e: Exon, b: nat, a: int)
    reads e
  {
    e.block == Some(b) && e.adjStart == Some(a)
  }

  /** Exons before index m carry their block numbers from ids and their display starts from adj. */
  ghost predicate Stamped(exonList: seq<Exon>, m: nat, ids: seq<nat>, adj: seq<int>)
    reads set e | e in exonList
  {
    forall i {:trigger Bears(exonList[i], ids[i], adj[i])} ::
      0 <= i < m && i < |exonList| && i < |ids| && i < |adj| ==> Bears(exonList[i], ids[i], adj[i])
  }

  /** Each transcript holds its starting blocks plus those of its exons before index m. */
  ghost predicate Recorded(exonList: seq<Exon>, m: nat, ids: seq<nat>, start: map<Transcript, set<nat>>)
    reads Owners(exonList)
  {
    m <= |exonList| && m <= |ids| &&
    forall t :: t in Owners(exonList) ==> t in start && t.blocks == start[t] + BlocksOf(exonList, ids, t, m)
  }

  /**
   * The stamping step of the inner loops of assignBlocks and
   * assignBlocksReverse, at exon i: the exon gets its block number and
   * display start, and its transcript gains the block.
   */
  method StampExon(exonList: seq<Exon>, i: nat, myExon: Exon, blockNo: nat, adjStart: int,
                   ghost ids: seq<nat>, ghost adj: seq<int>, ghost start: map<Transcript, set<nat>>)
    requires Distinct(exonList) && i < |exonList| && myExon == exonList[i]
    requires i < |ids| && i < |adj| && ids[i] == blockNo && adj[i] == adjStart
    requires Stamped(exonList, i, ids, adj) && Recorded(exonList, i, ids, start)
    modifies myExon`block, myExon`adjStart, myExon.tran`blocks
    ensures Stamped(exonList, i + 1, ids, adj) && Recorded(exonList, i + 1, ids, start)
  {
    DistinctNotBefore(exonList, i);
    assert forall j :: 0 <= j < i ==> exonList[..i][j] != myExon;
    myExon.block := Some(blockNo);
    myExon.tran.blocks := myExon.tran.blocks + {blockNo};
    myExon.adjStart := Some(adjStart);
  }

  /**
   * One pass of the inner loop of assignBlocks, at exon i of the block
   * opened at first: widens the block end to the exon's end and stamps the
   * exon.
   */
  method JoinExon(exonList: seq<Exon>, i: nat, myExon: Exon, first: nat, blockStart: int, blockEnd: int, blockNo: nat, adjust: int,
                  ghost c: seq<Span>, ghost last: nat, ghost ids: seq<nat>, ghost adj: seq<int>,
                  ghost start: map<Transcript, set<nat>>)
    returns (blockEnd': int)
    requires Distinct(exonList) && Spans(c, exonList) && BlockRun(c, ids, adj, first, last, blockNo, adjust)
    requires first <= i < |exonList| && myExon == exonList[i] && myExon.start <= blockEnd
    requires blockStart == exonList[first].start
    requires i <= last && blockEnd == MaxEnd(c, first, i)
    requires Stamped(exonList, i, ids, adj) && Recorded(exonList, i, ids, start)
    modifies myExon`block, myExon`adjStart, myExon.tran`blocks
    ensures i < last && blockEnd' == MaxEnd(c, first, i + 1)
    ensures Stamped(exonList, i + 1, ids, adj) && Recorded(exonList, i + 1, ids, start)
  {
    assert c[i].start == myExon.start;
    MaxEndStep(c, first, i);
    blockEnd' := blockEnd;
    if myExon.end > blockEnd' {
      blockEnd' := myExon.end;
    }
    StampExon(exonList, i, myExon, blockNo, myExon.start - blockStart + adjust, ids, adj, start);
  }

  /**
   * The inner loop of assignBlocks: from exon first, which opens block
   * blockNo, on, widens the block end to each exon's end and stamps every
   * exon that starts no later than the block end so far. It stops exactly
   * where the block does and returns that index and the block's end.
   */
  method StampBlock(exonList: seq<Exon>, first: nat, blockStart: int, blockEnd0: int, blockNo: nat, adjust: int,
                    ghost c: seq<Span>, ghost last: nat, ghost ids: seq<nat>, ghost adj: seq<int>,
                    ghost start: map<Transcript, set<nat>>)
    returns (exonIx: nat, blockEnd: int)
    requires Distinct(exonList) && Spans(c, exonList) && BlockRun(c, ids, adj, first, last, blockNo, adjust)
    requires exonList[first].start <= exonList[first].end
    requires blockStart == exonList[first].start && blockEnd0 == exonList[first].end
    requires Stamped(exonList, first, ids, adj) && Recorded(exonList, first, ids, start)
    modifies (set e | e in exonList)`block, (set e | e in exonList)`adjStart, Owners(exonList)`blocks
    ensures exonIx == last && blockEnd == MaxEnd(c, first, last)
    ensures Stamped(exonList, last, ids, adj) && Recorded(exonList, last, ids, start)
  {
    exonIx := first;
    blockEnd := blockEnd0;

    while exonIx < |exonList| && exonList[exonIx].start <= blockEnd
      invariant first <= exonIx <= last
      invariant blockEnd == MaxEnd(c, first, exonIx)
      invariant Stamped(exonList, exonIx, ids, adj) && Recorded(exonList, exonIx, ids, start)
      decreases |exonList| - exonIx
    {
      var myExon := exonList[exonIx];
      blockEnd := JoinExon(exonList, exonIx, myExon, first, blockStart, blockEnd, blockNo, adjust, c, last, ids, adj, start);
      exonIx := exonIx + 1;
    }
    assert exonIx < |c| ==> c[exonIx].start == exonList[exonIx].start;
    RunStops(c, ids, adj, first, last, blockNo, adjust, exonIx);
  }

  /**
   * One pass of the outer loop of assignBlocks: exon exonIx opens block
   * blockNo; its exons are stamped, the block is appended to blocks and
   * its width added to the running boundary.
   */
  method MergeBlock(exonList: seq<Exon>, exonIx: nat, blockNo: nat, adjust: int, blocks: seq<Block>,
                    ghost c: seq<Span>, ghost ext: seq<Span>, ghost ids: seq<nat>, ghost adj: seq<int>,
                    ghost start: map<Transcript, set<nat>>)
    returns (exonIx': nat, adjust': int, blocks': seq<Block>)
    requires Distinct(exonList) && Spans(c, exonList) && WellFormed(c) && Layout(c, 0, ext, ids, adj)
    requires Opens(c, ext, ids, exonIx, blockNo)
    requires blocks == MakeBlocks(Forward, ext[..blockNo], 0) && adjust == SumWidths(ext[..blockNo])
    requires Stamped(exonList, exonIx, ids, adj) && Recorded(exonList, exonIx, ids, start)
    modifies (set e | e in exonList)`block, (set e | e in exonList)`adjStart, Owners(exonList)`blocks
    ensures exonIx < exonIx' <= |exonList| && blockNo < |ext|
    ensures blocks' == MakeBlocks(Forward, ext[..blockNo + 1], 0) && adjust' == SumWidths(ext[..blockNo + 1])
    ensures exonIx' < |exonList| ==> Opens(c, ext, ids, exonIx', blockNo + 1)
    ensures exonIx' == |exonList| ==> blockNo + 1 == |ext|
    ensures Stamped(exonList, exonIx', ids, adj) && Recorded(exonList, exonIx', ids, start)
  {
    var blockStart := exonList[exonIx].start;
    var blockEnd := exonList[exonIx].end;
    ghost var last := BlockScan(c, 0, ext, ids, adj, exonIx, blockNo, adjust, exonIx);
    exonIx', blockEnd := StampBlock(exonList, exonIx, blockStart, blockEnd, blockNo, adjust, c, last, ids, adj, start);
    adjust' := adjust + blockEnd - blockStart + 1;
    NextBlock(Forward, ext, blockNo, 0, blockStart, blockEnd, adjust');
    blocks' := blocks + [Block(blockStart, blockEnd, adjust', false)];
  }

  /**
   * assignBlocks: exonList sorted by ascending start. Every exon is stamped
   * with its block number and display start, and each transcript gains the
   * numbers of the blocks its exons fall in.
   */
  method AssignBlocks(exonList: seq<Exon>) returns (blocks: seq<Block>)
    requires Distinct(exonList)
    requires WellFormed(SpansOf(exonList))
    modifies (set e | e in exonList)`block, (set e | e in exonList)`adjStart, Owners(exonList)`blocks
    ensures blocks == BlockList(Forward, SpansOf(exonList), 0)
    ensures forall i :: 0 <= i < |exonList| ==>
              exonList[i].block == Some(BlockIds(Forward, SpansOf(exonList))[i]) &&
              exonList[i].adjStart == Some(AdjStarts(Forward, SpansOf(exonList), 0)[i])
    ensures forall t :: t in Owners(exonList) ==>
              t.blocks == old(t.blocks) + BlocksOf(exonList, BlockIds(Forward, SpansOf(exonList)), t, |exonList|)
  {
    ghost var c := SpansOf(exonList);
    ghost var ext, ids, adj := Sweep(c).extents, Sweep(c).ids, AdjSeq(c, 0);
    ghost var start := map t | t in Owners(exonList) :: t.blocks;
    var adjust := 0;
    var blockNo := 0;
    var exonIx := 0;
    blocks := [];
    if exonList != [] {
      FirstOpens(c, 0, ext, ids, adj);
    }

    while exonIx < |exonList|
      invariant exonIx <= |exonList| && blockNo == |blocks| <= |ext|
      invariant blocks == MakeBlocks(Forward, ext[..blockNo], 0) && adjust == SumWidths(ext[..blockNo])
      invariant exonIx < |exonList| ==> Opens(c, ext, ids, exonIx, blockNo)
      invariant exonIx == |exonList| ==> blockNo == |ext|
      invariant Stamped(exonList, exonIx, ids, adj) && Recorded(exonList, exonIx, ids, start)
      decreases |exonList| - exonIx
    {
      exonIx, adjust, blocks := MergeBlock(exonList, exonIx, blockNo, adjust, blocks, c, ext, ids, adj, start);
      blockNo := blockNo + 1;
    }
    assert ext[..blockNo] == ext;
    forall i | 0 <= i < |exonList|
      ensures exonList[i].block == Some(ids[i]) && exonList[i].adjStart == Some(adj[i])
    {
      assert Bears(exonList[i], ids[i], adj[i]);
    }
  }

  /**
   * One pass of the inner loop of assignBlocksReverse, at exon i of the
   * block opened at first: lowers the block end to the exon's start and
   * stamps the exon. Over the mirrored intervals o the running block end is
   * -blockEnd.
   */
  method JoinExonReverse(exonList: seq<Exon>, i: nat, myExon: Exon, first: nat, blockStart: int, blockEnd: int, blockNo: nat, adjust: int,
                         ghost o: seq<Span>, ghost last: nat, ghost ids: seq<nat>, ghost adj: seq<int>,
                         ghost start: map<Transcript, set<nat>>)
    returns (blockEnd': int)
    requires Distinct(exonList) && Mirrors(o, exonList) && BlockRun(o, ids, adj, first, last, blockNo, adjust)
    requires first <= i < |exonList| && myExon == exonList[i] && myExon.end >= blockEnd
    requires blockStart == exonList[first].end
    requires i <= last && -blockEnd == MaxEnd(o, first, i)
    requires Stamped(exonList, i, ids, adj) && Recorded(exonList, i, ids, start)
    modifies myExon`block, myExon`adjStart, myExon.tran`blocks
    ensures i < last && -blockEnd' == MaxEnd(o, first, i + 1)
    ensures Stamped(exonList, i + 1, ids, adj) && Recorded(exonList, i + 1, ids, start)
  {
    assert o[i] == Span(-myExon.end, -myExon.start) && o[first].start == -blockStart;
    MaxEndStep(o, first, i);
    blockEnd' := blockEnd;
    if myExon.start < blockEnd' {
      blockEnd' := myExon.start;
    }
    StampExon(exonList, i, myExon, blockNo, blockStart - myExon.end + adjust, ids, adj, start);
  }

  /**
   * The inner loop of assignBlocksReverse: from exon first on, lowers the
   * block end to each exon's start and stamps every exon that ends no
   * earlier than the block end so far. Over the mirrored intervals o this is
   * the forward inner loop, with the block [-blockStart, -blockEnd].
   */
  method StampBlockReverse(exonList: seq<Exon>, first: nat, blockStart: int, blockEnd0: int, blockNo: nat, adjust: int,
                           ghost o: seq<Span>, ghost last: nat, ghost ids: seq<nat>, ghost adj: seq<int>,
                           ghost start: map<Transcript, set<nat>>)
    returns (exonIx: nat, blockEnd: int)
    requires Distinct(exonList) && Mirrors(o, exonList) && BlockRun(o, ids, adj, first, last, blockNo, adjust)
    requires exonList[first].start <= exonList[first].end
    requires blockStart == exonList[first].end && blockEnd0 == exonList[first].start
    requires Stamped(exonList, first, ids, adj) && Recorded(exonList, first, ids, start)
    modifies (set e | e in exonList)`block, (set e | e in exonList)`adjStart, Owners(exonList)`blocks
    ensures exonIx == last && -blockEnd == MaxEnd(o, first, last)
    ensures Stamped(exonList, last, ids, adj) && Recorded(exonList, last, ids, start)
  {
    exonIx := first;
    blockEnd := blockEnd0;

    while exonIx < |exonList| && exonList[exonIx].end >= blockEnd
      invariant first <= exonIx <= last
      invariant -blockEnd == MaxEnd(o, first, exonIx)
      invariant Stamped(exonList, exonIx, ids, adj) && Recorded(exonList, exonIx, ids, start)
      decreases |exonList| - exonIx
    {
      var myExon := exonList[exonIx];
      blockEnd := JoinExonReverse(exonList, exonIx, myExon, first, blockStart, blockEnd, blockNo, adjust, o, last, ids, adj, start);
      exonIx := exonIx + 1;
    }
    assert exonIx < |o| ==> o[exonIx].start == -exonList[exonIx].end;
    RunStops(o, ids, adj, first, last, blockNo, adjust, exonIx);
  }

  /**
   * One pass of the outer loop of assignBlocksReverse: exon exonIx opens
   * block blockNo; its exons are stamped, the block (highest end, lowest
   * start) is appended to blocks and its width added to the running
   * boundary.
   */
  method MergeBlockReverse(exonList: seq<Exon>, exonIx: nat, blockNo: nat, adjust: int, blocks: seq<Block>,
                           ghost o: seq<Span>, ghost ext: seq<Span>, ghost ids: seq<nat>, ghost adj: seq<int>,
                           ghost start: map<Transcript, set<nat>>)
    returns (exonIx': nat, adjust': int, blocks': seq<Block>)
    requires Distinct(exonList) && Mirrors(o, exonList) && WellFormed(o) && Layout(o, 0, ext, ids, adj)
    requires Opens(o, ext, ids, exonIx, blockNo)
    requires blocks == MakeBlocks(Reverse, ext[..blockNo], 0) && adjust == SumWidths(ext[..blockNo])
    requires Stamped(exonList, exonIx, ids, adj) && Recorded(exonList, exonIx, ids, start)
    modifies (set e | e in exonList)`block, (set e | e in exonList)`adjStart, Owners(exonList)`blocks
    ensures exonIx < exonIx' <= |exonList| && blockNo < |ext|
    ensures blocks' == MakeBlocks(Reverse, ext[..blockNo + 1], 0) && adjust' == SumWidths(ext[..blockNo + 1])
    ensures exonIx' < |exonList| ==> Opens(o, ext, ids, exonIx', blockNo + 1)
    ensures exonIx' == |exonList| ==> blockNo + 1 == |ext|
    ensures Stamped(exonList, exonIx', ids, adj) && Recorded(exonList, exonIx', ids, start)
  {
    var blockStart := exonList[exonIx].end;
    var blockEnd := exonList[exonIx].start;
    assert o[exonIx] == Span(-blockStart, -blockEnd);
    ghost var last := BlockScan(o, 0, ext, ids, adj, exonIx, blockNo, adjust, exonIx);
    exonIx', blockEnd := StampBlockReverse(exonList, exonIx, blockStart, blockEnd, blockNo, adjust, o, last, ids, adj, start);
    adjust' := adjust + blockStart - blockEnd + 1;
    NextBlock(Reverse, ext, blockNo, 0, blockStart, blockEnd, adjust');
    blocks' := blocks + [Block(blockStart, blockEnd, adjust', false)];
  }

  /**
   * The loops of assignBlocksReverse, seen over the mirrored intervals o of
   * the exons: the blocks, block numbers and display starts are those of
   * the forward sweep of o.
   */
  method SweepMirrored(exonList: seq<Exon>, ghost o: seq<Span>) returns (blocks: seq<Block>)
    requires Distinct(exonList) && Mirrors(o, exonList) && WellFormed(o)
    modifies (set e | e in exonList)`block, (set e | e in exonList)`adjStart, Owners(exonList)`blocks
    ensures blocks == MakeBlocks(Reverse, Sweep(o).extents, 0)
    ensures forall i :: 0 <= i < |exonList| ==>
              exonList[i].block == Some(Sweep(o).ids[i]) && exonList[i].adjStart == Some(AdjSeq(o, 0)[i])
    ensures forall t :: t in Owners(exonList) ==>
              t.blocks == old(t.blocks) + BlocksOf(exonList, Sweep(o).ids, t, |exonList|)
  {
    ghost var ext, ids, adj := Sweep(o).extents, Sweep(o).ids, AdjSeq(o, 0);
    ghost var start := map t | t in Owners(exonList) :: t.blocks;
    var adjust := 0;
    var blockNo := 0;
    var exonIx := 0;
    blocks := [];
    if exonList != [] {
      FirstOpens(o, 0, ext, ids, adj);
    }

    while exonIx < |exonList|
      invariant exonIx <= |exonList| && blockNo == |blocks| <= |ext|
      invariant blocks == MakeBlocks(Reverse, ext[..blockNo], 0) && adjust == SumWidths(ext[..blockNo])
      invariant exonIx < |exonList| ==> Opens(o, ext, ids, exonIx, blockNo)
      invariant exonIx == |exonList| ==> blockNo == |ext|
      invariant Stamped(exonList, exonIx, ids, adj) && Recorded(exonList, exonIx, ids, start)
      decreases |exonList| - exonIx
    {
      exonIx, adjust, blocks := MergeBlockReverse(exonList, exonIx, blockNo, adjust, blocks, o, ext, ids, adj, start);
      blockNo := blockNo + 1;
    }
    assert ext[..blockNo] == ext;
    forall i | 0 <= i < |exonList|
      ensures exonList[i].block == Some(ids[i]) && exonList[i].adjStart == Some(adj[i])
    {
      assert Bears(exonList[i], ids[i], adj[i]);
    }
  }

  /**
   * assignBlocksReverse: exonList sorted by descending end. Blocks are
   * numbered from the 5' end of a reverse-strand transcript; each block
   * record holds (highest end, lowest start) and the running boundary.
   */
  method AssignBlocksReverse(exonList: seq<Exon>) returns (blocks: seq<Block>)
    requires Distinct(exonList)
    requires WellFormed(SpansOf(exonList))
    modifies (set e | e in exonList)`block, (set e | e in exonList)`adjStart, Owners(exonList)`blocks
    ensures blocks == BlockList(Reverse, SpansOf(exonList), 0)
    ensures forall i :: 0 <= i < |exonList| ==>
              exonList[i].block == Some(BlockIds(Reverse, SpansOf(exonList))[i]) &&
              exonList[i].adjStart == Some(AdjStarts(Reverse, SpansOf(exonList), 0)[i])
    ensures forall t :: t in Owners(exonList) ==>
              t.blocks == old(t.blocks) + BlocksOf(exonList, BlockIds(Reverse, SpansOf(exonList)), t, |exonList|)
  {
    MirrorsOriented(exonList);
    OrientedWellFormed(Reverse, SpansOf(exonList));
    blocks := SweepMirrored(exonList, Oriented(Reverse, SpansOf(exonList)));
  }

  /** The filtering loop of annotationBlocks: the exons of annotated transcripts, in list order. */
  method FilterAnnotated(exonList: seq<Exon>) returns (annotExons: seq<Exon>)
    ensures annotExons == AnnotatedExons(exonList)
    ensures forall x :: x in annotExons <==> x in exonList && x.tran.annot
  {
    annotExons := [];
    for i := 0 to |exonList|
      invariant annotExons == AnnotatedExons(exonList[..i])
    {
      assert exonList[..i + 1][..i] == exonList[..i];
      if exonList[i].tran.annot {
        annotExons := annotExons + [exonList[i]];
      }
    }
    assert exonList[..|exonList|] == exonList;
    forall x ensures x in annotExons <==> x in exonList && x.tran.annot {
      AnnotatedExonsExactly(exonList, x);
    }
  }

  /**
   * The inner loop of annotationBlocks: from exon first, which opens a
   * block, on, widens the block end to each exon's end while the exons start
   * no later than it; stops where the block does.
   */
  method ScanAnnotated(annotExons: seq<Exon>, first: nat, blockEnd0: int, ghost c: seq<Span>, ghost last: nat,
                       ghost ids: seq<nat>, ghost adj: seq<int>, ghost b: nat, ghost origin: int)
    returns (exonIx: nat, blockEnd: int)
    requires Spans(c, annotExons) && BlockRun(c, ids, adj, first, last, b, origin)
    requires annotExons[first].start <= annotExons[first].end && blockEnd0 == annotExons[first].end
    ensures exonIx == last && blockEnd == MaxEnd(c, first, last)
  {
    exonIx := first;
    blockEnd := blockEnd0;
    while exonIx < |annotExons| && annotExons[exonIx].start <= blockEnd
      invariant first <= exonIx <= last
      invariant blockEnd == MaxEnd(c, first, exonIx)
      decreases |annotExons| - exonIx
    {
      var myExon := annotExons[exonIx];
      assert c[exonIx] == Span(myExon.start, myExon.end);
      MaxEndStep(c, first, exonIx);
      if myExon.end > blockEnd {
        blockEnd := myExon.end;
      }
      exonIx := exonIx + 1;
    }
    assert exonIx < |c| ==> c[exonIx].start == annotExons[exonIx].start;
    RunStops(c, ids, adj, first, last, b, origin, exonIx);
  }

  /** The inner loop of annotationBlocksReverse, seen over the mirrored intervals o. */
  method ScanAnnotatedReverse(annotExons: seq<Exon>, first: nat, blockEnd0: int, ghost o: seq<Span>, ghost last: nat,
                              ghost ids: seq<nat>, ghost adj: seq<int>, ghost b: nat, ghost origin: int)
    returns (exonIx: nat, blockEnd: int)
    requires Mirrors(o, annotExons) && BlockRun(o, ids, adj, first, last, b, origin)
    requires annotExons[first].start <= annotExons[first].end && blockEnd0 == annotExons[first].start
    ensures exonIx == last && -blockEnd == MaxEnd(o, first, last)
  {
    exonIx := first;
    blockEnd := blockEnd0;
    while exonIx < |annotExons| && annotExons[exonIx].end >= blockEnd
      invariant first <= exonIx <= last
      invariant -blockEnd == MaxEnd(o, first, exonIx)
      decreases |annotExons| - exonIx
    {
      var myExon := annotExons[exonIx];
      assert o[exonIx] == Span(-myExon.end, -myExon.start);
      MaxEndStep(o, first, exonIx);
      if myExon.start < blockEnd {
        blockEnd := myExon.start;
      }
      exonIx := exonIx + 1;
    }
    assert exonIx < |o| ==> o[exonIx].start == -annotExons[exonIx].end;
    RunStops(o, ids, adj, first, last, b, origin, exonIx);
  }

  /**
   * One pass of the outer loop of annotationBlocks (strand Forward) or
   * annotationBlocksReverse (strand Reverse): exon exonIx opens block
   * blockNo; the block is scanned, appended to blocks and its width added
   * to the running boundary.
   */
  method MergeAnnotated(strand: Strand, annotExons: seq<Exon>, exonIx: nat, blockNo: nat, adjust: int, blocks: seq<Block>,
                        ghost base: int, ghost o: seq<Span>, ghost ext: seq<Span>, ghost ids: seq<nat>, ghost adj: seq<int>)
    returns (exonIx': nat, adjust': int, blocks': seq<Block>)
    requires o == Oriented(strand, SpansOf(annotExons)) && WellFormed(o) && Layout(o, base, ext, ids, adj)
    requires Opens(o, ext, ids, exonIx, blockNo)
    requires blocks == MakeBlocks(strand, ext[..blockNo], base) && adjust == base + SumWidths(ext[..blockNo])
    ensures exonIx < exonIx' <= |annotExons| && blockNo < |ext|
    ensures blocks' == MakeBlocks(strand, ext[..blockNo + 1], base) && adjust' == base + SumWidths(ext[..blockNo + 1])
    ensures exonIx' < |annotExons| ==> Opens(o, ext, ids, exonIx', blockNo + 1)
    ensures exonIx' == |annotExons| ==> blockNo + 1 == |ext|
  {
    ghost var last := BlockScan(o, base, ext, ids, adj, exonIx, blockNo, adjust, exonIx);
    var blockStart, blockEnd;
    if strand == Forward {
      blockStart := annotExons[exonIx].start;
      blockEnd := annotExons[exonIx].end;
      exonIx', blockEnd := ScanAnnotated(annotExons, exonIx, blockEnd, o, last, ids, adj, blockNo, adjust);
      adjust' := adjust + blockEnd - blockStart + 1;
    } else {
      MirrorsOriented(annotExons);
      blockStart := annotExons[exonIx].end;
      blockEnd := annotExons[exonIx].start;
      assert o[exonIx] == Span(-blockStart, -blockEnd);
      exonIx', blockEnd := ScanAnnotatedReverse(annotExons, exonIx, blockEnd, o, last, ids, adj, blockNo, adjust);
      adjust' := adjust + blockStart - blockEnd + 1;
    }
    NextBlock(strand, ext, blockNo, base, blockStart, blockEnd, adjust');
    blocks' := blocks + [Block(blockStart, blockEnd, adjust', false)];
  }

  /** The outer loop shared by annotationBlocks and annotationBlocksReverse, from the running boundary base. */
  method SweepAnnotated(strand: Strand, annotExons: seq<Exon>, base: int) returns (blocks: seq<Block>)
    requires WellFormed(SpansOf(annotExons))
    ensures blocks == BlockList(strand, SpansOf(annotExons), base)
  {
    var adjust := base;
    var blockNo := 0;
    var exonIx := 0;
    blocks := [];
    ghost var o := Oriented(strand, SpansOf(annotExons));
    OrientedWellFormed(strand, SpansOf(annotExons));
    ghost var ext, ids, adj := Sweep(o).extents, Sweep(o).ids, AdjSeq(o, base);
    if annotExons != [] {
      FirstOpens(o, base, ext, ids, adj);
    }

    while exonIx < |annotExons|
      invariant exonIx <= |annotExons| && blockNo == |blocks| <= |ext|
      invariant blocks == MakeBlocks(strand, ext[..blockNo], base) && adjust == base + SumWidths(ext[..blockNo])
      invariant exonIx < |annotExons| ==> Opens(o, ext, ids, exonIx, blockNo)
      invariant exonIx == |annotExons| ==> blockNo == |ext|
      decreases |annotExons| - exonIx
    {
      exonIx, adjust, blocks := MergeAnnotated(strand, annotExons, exonIx, blockNo, adjust, blocks, base, o, ext, ids, adj);
      blockNo := blockNo + 1;
    }
    assert ext[..blockNo] == ext;
  }

  /**
   * annotationBlocks: the block merge of assignBlocks over the exons of
   * annotated transcripts only, with the running boundary starting at the
   * display start of the first of them. No exon or transcript is changed.
   * With no annotated exon the first one cannot be read (IndexError); when
   * that exon has no display start yet, the first addition to the running
   * boundary fails (TypeError).
   */
  method AnnotationBlocks(exonList: seq<Exon>) returns (r: Result<seq<Block>, PyError>)
    requires WellFormed(SpansOf(AnnotatedExons(exonList)))
    ensures var annots := AnnotatedExons(exonList);
      if annots == [] then r == Failure(IndexError)
      else if annots[0].adjStart == None then r == Failure(TypeError)
      else r == Success(BlockList(Forward, SpansOf(annots), annots[0].adjStart.value))
    ensures r.Success? ==> 0 < |r.value| <= |AnnotatedExons(exonList)|
  {
    var annotExons := FilterAnnotated(exonList);
    if annotExons == [] {
      return Failure(IndexError);
    }
    if annotExons[0].adjStart == None {
      // None + int is raised at the first update of the running boundary; nothing is written before it
      return Failure(TypeError);
    }
    var blocks := SweepAnnotated(Forward, annotExons, annotExons[0].adjStart.value);
    BlockIdsContiguous(Forward, SpansOf(annotExons), annotExons[0].adjStart.value);
    return Success(blocks);
  }

  /**
   * annotationBlocksReverse: the mirrored merge of assignBlocksReverse over
   * the exons of annotated transcripts only (sorted by descending end),
   * with the running boundary starting at the display start of the first
   * of them. No exon or transcript is changed.
   */
  method AnnotationBlocksReverse(exonList: seq<Exon>) returns (r: Result<seq<Block>, PyError>)
    requires WellFormed(SpansOf(AnnotatedExons(exonList)))
    ensures var annots := AnnotatedExons(exonList);
      if annots == [] then r == Failure(IndexError)
      else if annots[0].adjStart == None then r == Failure(TypeError)
      else r == Success(BlockList(Reverse, SpansOf(annots), annots[0].adjStart.value))
    ensures r.Success? ==> 0 < |r.value| <= |AnnotatedExons(exonList)|
  {
    var annotExons := FilterAnnotated(exonList);
    if annotExons == [] {
      return Failure(IndexError);
    }
    if annotExons[0].adjStart == None {
      return Failure(TypeError);
    }
    var blocks := SweepAnnotated(Reverse, annotExons, annotExons[0].adjStart.value);
    BlockIdsContiguous(Reverse, SpansOf(annotExons), annotExons[0].adjStart.value);
    return Success(blocks);
  }
}
