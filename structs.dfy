/**
 * The records the isoform browser works on: transcripts, their exons, and
 * the display blocks computed from them, together with the small result
 * types used to report the exceptions Python would raise.
 */
module Structs {

  datatype Option<+T> = None | Some(value: T)

  datatype Result<+R, +E> = Success(value: R) | Failure(error: E)

  /** The Python exceptions the core can raise on bad input. */
  datatype PyError =
    | IndexError         // indexing the first element of an empty list
    | KeyError           // removing a member that is not in a set
    | TypeError          // arithmetic on an unset (None) coordinate
    | ZeroDivisionError  // distance between two empty coverage vectors

  /** A genomic interval [start, end], both ends inclusive. */
  datatype Span = Span(start: int, end: int)

  /**
   * A plot block: a genomic range with no gap in exon coverage, and the
   * right-hand x coordinate of the block in display space.
   */
  datatype Block = Block(start: int, end: int, boundary: int, annot: bool)

  /** A transcript, annotated or built from a read cluster. */
  class Transcript {
    const name: string
    const id: string        // stable ID; used as the label of annotated transcripts
    const annot: bool       // does the transcript come from the annotations?
    const start: int
    const end: int
    var exons: seq<Exon>
    var tranIx: Option<nat> // display row, unset until ordered
    var blocks: set<nat>    // blocks where this transcript has exons
    var regions: set<nat>   // regions where this transcript has exons

    constructor (name: string, id: string, annot: bool, start: int, end: int)
      ensures this.name == name && this.id == id && this.annot == annot
      ensures this.start == start && this.end == end
      ensures exons == [] && tranIx == None && blocks == {} && regions == {}
    {
      this.name := name;
      this.id := id;
      this.annot := annot;
      this.start := start;
      this.end := end;
      exons := [];
      tranIx := None;
      blocks := {};
      regions := {};
    }

    /** The label the ordering reports for this transcript. */
    function Label(): string
    {
      if annot then id else name
    }
  }

  /** An exon, with a (non-owning) reference to its transcript. */
  class Exon {
    const tran: Transcript
    const name: string
    const start: int
    const end: int
    var block: Option<nat>    // block number where this exon resides
    var adjStart: Option<int> // start of the exon in display coordinates

    constructor (tran: Transcript, name: string, start: int, end: int)
      ensures this.tran == tran && this.name == name
      ensures this.start == start && this.end == end
      ensures block == None && adjStart == None
    {
      this.tran := tran;
      this.name := name;
      this.start := start;
      this.end := end;
      block := None;
      adjStart := None;
    }
  }

  /** No object occurs twice in the list: each differs from all before it. */
  predicate Distinct<T(==)>(s: seq<T>)
  {
    s == [] || (s[|s| - 1] !in s[..|s| - 1] && Distinct(s[..|s| - 1]))
  }

  /** In a list without repeats, no element occurs before its own position. */
  lemma {:induction false} DistinctNotBefore<T>(s: seq<T>, i: nat)
    requires Distinct(s) && i < |s|
    ensures s[i] !in s[..i]
  {
    var n := |s| - 1;
    if i < n {
      DistinctNotBefore(s[..n], i);
      assert s[..n][..i] == s[..i];
    }
  }

  /** In a list without repeats, different positions hold different objects. */
  lemma DistinctAt<T>(s: seq<T>, i: nat, j: nat)
    requires Distinct(s) && i < |s| && j < |s| && i != j
    ensures s[i] != s[j]
  {
    if i < j {
      DistinctNotBefore(s, j);
      assert s[..j][i] == s[i];
    } else {
      DistinctNotBefore(s, i);
      assert s[..i][j] == s[j];
    }
  }

  /** The genomic intervals of a list of exons, in list order. */
  function SpansOf(exons: seq<Exon>): (r: seq<Span>)
    ensures |r| == |exons|
    ensures forall i :: 0 <= i < |exons| ==> r[i] == Span(exons[i].start, exons[i].end)
  {
    seq(|exons|, i requires 0 <= i < |exons| => Span(exons[i].start, exons[i].end))
  }

  /** The exon intervals of every transcript, in list order. */
  function ExonSpans(tranList: seq<Transcript>): (r: seq<seq<Span>>)
    reads (set t | t in tranList)`exons
    ensures |r| == |tranList|
    ensures forall i :: 0 <= i < |tranList| ==> r[i] == SpansOf(tranList[i].exons)
  {
    if tranList == [] then []
    else ExonSpans(tranList[..|tranList| - 1]) + [SpansOf(tranList[|tranList| - 1].exons)]
  }

  /** A subset of a finite set is no larger than the set. */
  lemma {:induction false} SubsetCard(x: set<nat>, y: set<nat>)
    requires x <= y
    ensures |x| <= |y|
    decreases |y|
  {
    if y != {} {
      var e :| e in y;
      SubsetCard(x - {e}, y - {e});
    }
  }
}
