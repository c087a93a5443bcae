/**
 * orderTranscripts of getGene.py, over Transcript objects: it gives each
 * transcript its tranIx (its row in the plot) along a greedy
 * nearest-neighbour tour of the region sets, and returns the row labels.
 */
module Ordering {
  import opened Structs
  import opened OrderSpec

  /** The region sets of the transcripts, in list order. */
  function RegionSets(tranList: seq<Transcript>): (r: seq<set<nat>>)
    reads (set t | t in tranList)`regions
    ensures |r| == |tranList|
    ensures forall i :: 0 <= i < |tranList| ==> r[i] == tranList[i].regions
  {
    if tranList == [] then []
    else RegionSets(tranList[..|tranList| - 1]) + [tranList[|tranList| - 1].regions]
  }

  /** The positions of the transcripts that already have an index. */
  function Indexed(tranList: seq<Transcript>): (r: set<nat>)
    reads (set t | t in tranList)`tranIx
    ensures forall i :: i in r <==> 0 <= i < |tranList| && tranList[i].tranIx.Some?
  {
    if tranList == [] then {}
    else
      var n := |tranList| - 1;
      Indexed(tranList[..n]) + (if tranList[n].tranIx.Some? then {n} else {})
  }

  /**
   * The inner `for myTran in tranList` loop: the earliest transcript without
   * an index whose region set is closest to that of tranList[cur], or None
   * when every transcript has an index.
   */
  method NextClosest(tranList: seq<Transcript>, cur: nat) returns (best: Option<nat>)
    requires cur < |tranList|
    ensures best == ScanBest(RegionSets(tranList), cur, Indexed(tranList), |tranList|)
  {
    ghost var ds, visited := Dists(RegionSets(tranList), cur), Indexed(tranList);
    var curRegions := tranList[cur].regions;
    var bestDiff := 0;
    best := None;
    for i := 0 to |tranList|
      invariant best == FirstMin(ds, visited, i) && Tracks(best, bestDiff, ds)
    {
      assert (tranList[i].tranIx == None) == (i !in visited);
      if tranList[i].tranIx == None {               // not indexed yet
        var myRegions := tranList[i].regions;
        var diff := Dist(curRegions, myRegions);  // len(symmetric_difference)
        assert diff == ds[i];
        if best.None? || diff < bestDiff {
          best, bestDiff := Some(i), diff;
        }
      }
    }
  }

  /** bestDiff is the distance of the best candidate so far, if there is one. */
  ghost predicate Tracks(best: Option<nat>, bestDiff: int, ds: seq<nat>)
  {
    best.Some? ==> best.value < |ds| && bestDiff == ds[best.value]
  }

  /**
   * The head of the loop body of orderTranscripts: the label of
   * tranList[cur] (its ID when annotated, else its name), and tranList[cur]
   * gets index ix; no other transcript changes.
   */
  method Stamp(tranList: seq<Transcript>, cur: nat, ix: nat) returns (name: string)
    requires Distinct(tranList) && cur < |tranList|
    modifies (set t | t in tranList)`tranIx
    ensures name == tranList[cur].Label() && tranList[cur].tranIx == Some(ix)
    ensures forall i :: 0 <= i < |tranList| && i != cur ==> tranList[i].tranIx == old(tranList[i].tranIx)
  {
    var tran := tranList[cur];
    if !tran.annot {
      name := tran.name;
    } else {
      name := tran.id;
    }
    forall i | 0 <= i < |tranList| && i != cur
      ensures tranList[i] != tran
    {
      DistinctAt(tranList, i, cur);
    }
    tran.tranIx := Some(ix);
  }

  /** Once the transcripts hold the indices Stamped gives, those indexed are the ones on path or in done. */
  lemma IndexedAfter(tranList: seq<Transcript>, before: seq<Option<nat>>, path: seq<nat>, done: set<nat>)
    requires |before| == |tranList| && Positions(|tranList|, path)
    requires forall i :: 0 <= i < |tranList| ==> (before[i].Some? <==> i in done)
    requires forall i :: i in done ==> i < |tranList|
    requires forall i :: 0 <= i < |tranList| ==> tranList[i].tranIx == Stamped(before, path)[i]
    ensures Indexed(tranList) == Visited(path) + done
  {
    StampedAt(before, path);
    IndexedIs(tranList, path, done);
  }

  /** Indexed, read off membership. */
  lemma IndexedIs(tranList: seq<Transcript>, path: seq<nat>, done: set<nat>)
    requires forall i :: 0 <= i < |tranList| ==> (tranList[i].tranIx.Some? <==> i in path || i in done)
    requires forall k :: 0 <= k < |path| ==> path[k] < |tranList|
    requires forall i :: i in done ==> i < |tranList|
    ensures Indexed(tranList) == Visited(path) + done
  {
  }

  /** A list of positions below n with no position twice. */
  predicate Positions(n: nat, path: seq<nat>)
  {
    (forall k :: 0 <= k < |path| ==> path[k] < n) &&
    (forall j, k :: 0 <= j < k < |path| ==> path[j] != path[k])
  }

  /** The tranIx values, starting from before, once each path[k] has been given index k in turn. */
  function Stamped(before: seq<Option<nat>>, path: seq<nat>): (r: seq<Option<nat>>)
    requires forall k :: 0 <= k < |path| ==> path[k] < |before|
    ensures |r| == |before|
  {
    if path == [] then before
    else Stamped(before, path[..|path| - 1])[path[|path| - 1] := Some(|path| - 1)]
  }

  /**
   * Along a path without repeats, path[k] ends with index k and every
   * position off the path keeps its value; so a position holds an index
   * exactly when it is on the path or held one before.
   */
  lemma {:induction false} StampedAt(before: seq<Option<nat>>, path: seq<nat>)
    requires Positions(|before|, path)
    ensures forall k :: 0 <= k < |path| ==> Stamped(before, path)[path[k]] == Some(k)
    ensures forall i :: 0 <= i < |before| && i !in path ==> Stamped(before, path)[i] == before[i]
    ensures forall i :: 0 <= i < |before| ==> (Stamped(before, path)[i].Some? <==> i in path || before[i].Some?)
  {
    if path != [] {
      var pre := path[..|path| - 1];
      StampedAt(before, pre);
      forall i | 0 <= i < |before| && i !in path
        ensures Stamped(before, path)[i] == before[i]
      {
        assert i !in pre;
      }
      forall i | 0 <= i < |before| && i in path
        ensures Stamped(before, path)[i].Some?
      {
        var k :| 0 <= k < |path| && path[k] == i;
        if k < |path| - 1 {
          assert pre[k] == i;
        }
      }
    }
  }

  /**
   * A repeat-free path through every position, one entry per position,
   * leaves each position with an index below n and no index twice: the
   * stamped tranIx values are a permutation of 0..n-1.
   */
  lemma {:induction false} FullPathStampsPermutation(before: seq<Option<nat>>, path: seq<nat>)
    requires Positions(|before|, path) && |path| == |before|
    requires forall i :: 0 <= i < |before| ==> i in path
    ensures forall i :: 0 <= i < |before| ==> Stamped(before, path)[i].Some? && Stamped(before, path)[i].value < |before|
    ensures forall i, j :: 0 <= i < j < |before| ==> Stamped(before, path)[i] != Stamped(before, path)[j]
  {
    var st := Stamped(before, path);
    StampedAt(before, path);
    forall i | 0 <= i < |before|
      ensures st[i].Some? && st[i].value < |before| && path[st[i].value] == i
    {
      var k :| 0 <= k < |path| && path[k] == i;
      assert st[path[k]] == Some(k);
    }
  }

  /** FullPathStampsPermutation, read off the transcripts' tranIx fields. */
  lemma FreshOrderStamps(tranList: seq<Transcript>, before: seq<Option<nat>>, path: seq<nat>)
    requires |before| == |tranList| && Positions(|before|, path) && |path| == |before|
    requires path != [] && path[0] == 0
    requires forall i :: 0 <= i < |before| ==> i in path
    requires forall i :: 0 <= i < |tranList| ==> tranList[i].tranIx == Stamped(before, path)[i]
    ensures tranList[0].tranIx == Some(0)
    ensures forall i :: 0 <= i < |tranList| ==> tranList[i].tranIx.Some? && tranList[i].tranIx.value < |tranList|
    ensures forall i, j :: 0 <= i < j < |tranList| ==> tranList[i].tranIx != tranList[j].tranIx
  {
    StampedAt(before, path);
    FullPathStampsPermutation(before, path);
  }

  /** The labels of the transcripts at the positions in path, in path order. */
  function Labels(tranList: seq<Transcript>, path: seq<nat>): (r: seq<string>)
    requires forall k :: 0 <= k < |path| ==> path[k] < |tranList|
    ensures |r| == |path| && forall k :: 0 <= k < |path| ==> r[k] == tranList[path[k]].Label()
  {
    if path == [] then []
    else Labels(tranList, path[..|path| - 1]) + [tranList[path[|path| - 1]].Label()]
  }

  /**
   * The part of one round of orderTranscripts that writes: along the
   * partial tour path, whose last entry cur is the current transcript and
   * whose earlier entries already hold their indices and labels, cur gets
   * index |path| - 1 and its label is appended.
   */
  method Visit(tranList: seq<Transcript>, ghost path: seq<nat>, ghost before: seq<Option<nat>>, cur: nat, tranIx: nat,
               tranNames: seq<string>) returns (tranNames': seq<string>)
    requires Distinct(tranList) && |before| == |tranList| && PathOk(|tranList|, path)
    requires cur == path[|path| - 1] && tranIx == |path| - 1
    requires tranNames == Labels(tranList, path[..tranIx])
    requires forall i :: 0 <= i < |tranList| ==> tranList[i].tranIx == Stamped(before, path[..tranIx])[i]
    modifies (set t | t in tranList)`tranIx
    ensures tranNames' == Labels(tranList, path)
    ensures forall i :: 0 <= i < |tranList| ==> tranList[i].tranIx == Stamped(before, path)[i]
  {
    var name := Stamp(tranList, cur, tranIx);
    tranNames' := tranNames + [name];
  }

  /**
   * The scan at the end of one round of orderTranscripts, once cur, the last
   * transcript of the partial tour path, has its index: it picks the next
   * transcript among those neither on path nor indexed beforehand.
   */
  method Pick(tranList: seq<Transcript>, ghost path: seq<nat>, ghost before: seq<Option<nat>>, ghost done: set<nat>,
              cur: nat) returns (bestTran: Option<nat>)
    requires |before| == |tranList| && PathOk(|tranList|, path) && cur == path[|path| - 1]
    requires forall i :: 0 <= i < |tranList| ==> (before[i].Some? <==> i in done)
    requires forall i :: i in done ==> i < |tranList|
    requires forall i :: 0 <= i < |tranList| ==> tranList[i].tranIx == Stamped(before, path)[i]
    ensures bestTran == ScanBest(RegionSets(tranList), cur, Visited(path) + done, |tranList|)
  {
    IndexedAfter(tranList, before, path, done);
    bestTran := NextClosest(tranList, cur);
  }

  /**
   * One round of orderTranscripts: cur, the last transcript of the partial
   * tour path, gets its index and label (Visit), then the scan picks the
   * next transcript among those neither on path nor indexed beforehand.
   */
  method Round(tranList: seq<Transcript>, ghost path: seq<nat>, ghost before: seq<Option<nat>>, ghost done: set<nat>,
               cur: nat, tranIx: nat, tranNames: seq<string>) returns (tranNames': seq<string>, bestTran: Option<nat>)
    requires Distinct(tranList) && |before| == |tranList| && PathOk(|tranList|, path)
    requires forall i :: 0 <= i < |tranList| ==> (before[i].Some? <==> i in done)
    requires forall i :: i in done ==> i < |tranList|
    requires cur == path[|path| - 1] && tranIx == |path| - 1
    requires tranNames == Labels(tranList, path[..tranIx])
    requires forall i :: 0 <= i < |tranList| ==> tranList[i].tranIx == Stamped(before, path[..tranIx])[i]
    modifies (set t | t in tranList)`tranIx
    ensures tranNames' == Labels(tranList, path)
    ensures forall i :: 0 <= i < |tranList| ==> tranList[i].tranIx == Stamped(before, path)[i]
    ensures RegionSets(tranList) == old(RegionSets(tranList))
    ensures bestTran == ScanBest(old(RegionSets(tranList)), cur, Visited(path) + done, |tranList|)
  {
    tranNames' := Visit(tranList, path, before, cur, tranIx, tranNames);
    bestTran := Pick(tranList, path, before, done, cur);
  }

  /**
   * The `while True` loop of orderTranscripts from transcript 0: it runs
   * rounds along the greedy tour until the scan finds nothing, and ends
   * with the tour's labels and with each transcript on the tour stamped
   * with its place.
   */
  method Rounds(tranList: seq<Transcript>, ghost before: seq<Option<nat>>, ghost done: set<nat>)
    returns (tranNames: seq<string>, ghost path: seq<nat>)
    requires Distinct(tranList) && tranList != [] && |before| == |tranList|
    requires forall i :: 0 <= i < |tranList| ==> (before[i].Some? <==> i in done)
    requires forall i :: i in done ==> i < |tranList|
    requires forall i :: 0 <= i < |tranList| ==> tranList[i].tranIx == before[i]
    modifies (set t | t in tranList)`tranIx
    ensures PathOk(|tranList|, path) && path == GreedyOrder(RegionSets(tranList), done)
    ensures tranNames == Labels(tranList, path)
    ensures forall i :: 0 <= i < |tranList| ==> tranList[i].tranIx == Stamped(before, path)[i]
  {
    ghost var rs := RegionSets(tranList);
    ghost var n := |tranList|;
    path := [0];
    tranNames := [];
    var curTran := 0;
    var tranIx := 0;
    while true
      invariant PathOk(n, path) && Tour(rs, done, path) == GreedyOrder(rs, done)
      invariant curTran == path[|path| - 1] && tranIx == |path| - 1
      invariant RegionSets(tranList) == rs
      invariant tranNames == Labels(tranList, path[..tranIx])
      invariant forall i :: 0 <= i < n ==> tranList[i].tranIx == Stamped(before, path[..tranIx])[i]
      decreases Unvisited(n, path)
    {
      var bestTran;
      tranNames, bestTran := Round(tranList, path, before, done, curTran, tranIx, tranNames);
      if bestTran.None? {                           // every transcript has its index
        assert Tour(rs, done, path) == path;
        return;
      }
      TourMoves(rs, done, path, bestTran.value);
      ghost var prev := path;
      path := path + [bestTran.value];
      curTran := bestTran.value;
      tranIx := tranIx + 1;
      assert path[..tranIx] == prev;
    }
  }

  /**
   * orderTranscripts. An empty list fails on tranList[0] (IndexError).
   * Otherwise, with done the transcripts indexed beforehand, the k-th
   * transcript of the greedy tour gets tranIx k, every other transcript
   * keeps its tranIx, and the k-th returned label is the tour's k-th
   * transcript's label (its ID when annotated, else its name). When no
   * transcript was indexed beforehand, the tranIx values end as a
   * permutation of 0..N-1 with tranList[0] at 0.
   */
  method OrderTranscripts(tranList: seq<Transcript>) returns (r: Result<seq<string>, PyError>)
    requires Distinct(tranList)
    modifies (set t | t in tranList)`tranIx
    ensures tranList == [] ==> r == Failure(IndexError)
    ensures tranList != [] ==>
      var t := GreedyOrder(RegionSets(tranList), old(Indexed(tranList)));
      r.Success? && |r.value| == |t| &&
      (forall k :: 0 <= k < |t| ==> r.value[k] == tranList[t[k]].Label() && tranList[t[k]].tranIx == Some(k)) &&
      (forall i :: 0 <= i < |tranList| && i !in t ==> tranList[i].tranIx == old(tranList[i].tranIx))
    ensures tranList != [] && old(Indexed(tranList)) == {} ==>
      tranList[0].tranIx == Some(0) &&
      (forall i :: 0 <= i < |tranList| ==> tranList[i].tranIx.Some? && tranList[i].tranIx.value < |tranList|) &&
      (forall i, j :: 0 <= i < j < |tranList| ==> tranList[i].tranIx != tranList[j].tranIx)
  {
    if |tranList| == 0 {
      return Failure(IndexError);
    }
    ghost var n := |tranList|;
    ghost var done := Indexed(tranList);
    ghost var before := seq(n, i requires 0 <= i < n reads tranList => tranList[i].tranIx);
    var tranNames;
    ghost var path;
    tranNames, path := Rounds(tranList, before, done);
    StampedAt(before, path);
    if done == {} {
      FreshGreedyOrderCovers(RegionSets(tranList));
      FreshOrderStamps(tranList, before, path);
    }
    return Success(tranNames);
  }
}
