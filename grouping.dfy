/**
 * groupTran of getGene.py up to the clustering: it picks the transcripts
 * that do not come from the annotations, finds their leftmost start and
 * rightmost end, turns each into a coverage flag list, fills the pairwise
 * distance matrix and clamps the number of clusterings to run.
 */
module Grouping {
  import opened Structs
  import opened Coverage

  /** The transcripts that do not come from the annotations, in list order. */
  function NonAnnotated(ts: seq<Transcript>): seq<Transcript>
  {
    if ts == [] then []
    else NonAnnotated(ts[..|ts| - 1]) + (if ts[|ts| - 1].annot then [] else [ts[|ts| - 1]])
  }

  /** NonAnnotated keeps exactly the transcripts of ts that are not annotated. */
  lemma {:induction false} NonAnnotatedIsFilter(ts: seq<Transcript>)
    ensures |NonAnnotated(ts)| <= |ts|
    ensures forall k :: 0 <= k < |NonAnnotated(ts)| ==> NonAnnotated(ts)[k] in ts && !NonAnnotated(ts)[k].annot
    ensures forall k :: 0 <= k < |ts| && !ts[k].annot ==> ts[k] in NonAnnotated(ts)
  {
    if ts != [] {
      var n := |ts| - 1;
      NonAnnotatedIsFilter(ts[..n]);
      var r := NonAnnotated(ts);
      forall k | 0 <= k < |r|
        ensures r[k] in ts && !r[k].annot
      {
        if k < |NonAnnotated(ts[..n])| {
          assert r[k] == NonAnnotated(ts[..n])[k];
          assert r[k] in ts[..n];
        }
      }
      forall k | 0 <= k < |ts| && !ts[k].annot
        ensures ts[k] in r
      {
        if k < n {
          assert ts[k] == ts[..n][k];
        }
      }
    }
  }

  /** The leftmost start of a non-empty list of transcripts, kept as groupTran's minVal keeps it. */
  function MinStart(ts: seq<Transcript>): int
    requires ts != []
  {
    if |ts| == 1 then ts[0].start
    else
      var m := MinStart(ts[..|ts| - 1]);
      if m > ts[|ts| - 1].start then ts[|ts| - 1].start else m
  }

  /** minVal is the least start: no transcript starts before it, and one starts at it. */
  lemma {:induction false} MinStartIsLeast(ts: seq<Transcript>)
    requires ts != []
    ensures forall k :: 0 <= k < |ts| ==> MinStart(ts) <= ts[k].start
    ensures exists k :: 0 <= k < |ts| && MinStart(ts) == ts[k].start
  {
    if |ts| > 1 {
      var n := |ts| - 1;
      MinStartIsLeast(ts[..n]);
      var k :| 0 <= k < n && MinStart(ts[..n]) == ts[..n][k].start;
      if MinStart(ts) == ts[n].start {
        assert MinStart(ts) == ts[n].start;
      } else {
        assert MinStart(ts) == ts[k].start;
      }
    } else {
      assert MinStart(ts) == ts[0].start;
    }
  }

  /** The rightmost end of the transcripts, kept as groupTran's maxVal keeps it, from 0. */
  function MaxTranEnd(ts: seq<Transcript>): int
  {
    if ts == [] then 0
    else
      var m := MaxTranEnd(ts[..|ts| - 1]);
      if m < ts[|ts| - 1].end then ts[|ts| - 1].end else m
  }

  /** maxVal is at least 0 and every end, and it is 0 or some transcript's end. */
  lemma {:induction false} MaxTranEndIsGreatest(ts: seq<Transcript>)
    ensures MaxTranEnd(ts) >= 0 && forall k :: 0 <= k < |ts| ==> ts[k].end <= MaxTranEnd(ts)
    ensures MaxTranEnd(ts) == 0 || exists k :: 0 <= k < |ts| && MaxTranEnd(ts) == ts[k].end
  {
    if ts != [] {
      var n := |ts| - 1;
      MaxTranEndIsGreatest(ts[..n]);
      if MaxTranEnd(ts) != ts[n].end && MaxTranEnd(ts) != 0 {
        var k :| 0 <= k < n && MaxTranEnd(ts[..n]) == ts[..n][k].end;
        assert MaxTranEnd(ts) == ts[k].end;
      }
    }
  }

  /**
   * The first loop of groupTran: the non-annotated transcripts, their
   * leftmost start (None while there is none, where Python holds infinity)
   * and their rightmost end (0 when there is none).
   */
  method MatchRange(tranList: seq<Transcript>) returns (matchTran: seq<Transcript>, minVal: Option<int>, maxVal: int)
    ensures matchTran == NonAnnotated(tranList)
    ensures minVal == if matchTran == [] then None else Some(MinStart(matchTran))
    ensures maxVal == MaxTranEnd(matchTran)
  {
    matchTran, minVal, maxVal := [], None, 0;
    for i := 0 to |tranList|
      invariant matchTran == NonAnnotated(tranList[..i])
      invariant minVal == if matchTran == [] then None else Some(MinStart(matchTran))
      invariant maxVal == MaxTranEnd(matchTran)
    {
      var tran := tranList[i];
      assert tranList[..i + 1][..i] == tranList[..i];
      if !tran.annot {
        ghost var prev := matchTran;
        ghost var next := prev + [tran];
        assert next[..|next| - 1] == prev;
        assert MaxTranEnd(next) == if maxVal < tran.end then tran.end else maxVal;
        assert prev != [] ==> MinStart(next) == if minVal.value > tran.start then tran.start else minVal.value;
        if maxVal < tran.end {
          maxVal := tran.end;
        }
        if minVal.None? || minVal.value > tran.start {
          minVal := Some(tran.start);
        }
        matchTran := matchTran + [tran];
      }
    }
    assert tranList[..|tranList|] == tranList;
  }

  /** The flag list of every transcript: its exons shifted by minVal and painted over maxVal - minVal flags. */
  function Coverages(spans: seq<seq<Span>>, minVal: int, maxVal: int): (r: seq<seq<bool>>)
    ensures |r| == |spans|
    ensures forall k :: 0 <= k < |spans| ==> r[k] == ToBoolean(GetExon(spans[k], minVal), maxVal - minVal)
  {
    seq(|spans|, k requires 0 <= k < |spans| => ToBoolean(GetExon(spans[k], minVal), maxVal - minVal))
  }

  /** Two different transcripts without a single covered offset: calcDis divides by zero on them. */
  predicate EmptyPair(bools: seq<seq<bool>>)
  {
    exists i, j :: 0 <= j < i < |bools| && Count(bools[i]) == 0 && Count(bools[j]) == 0
  }

  /**
   * m is the distance matrix of the flag lists: square, symmetric, zero on
   * the diagonal, and calcDis of the two transcripts everywhere else.
   */
  ghost predicate IsDistanceMatrix(m: array2<real>, bools: seq<seq<bool>>)
    reads m
  {
    m.Length0 == |bools| && m.Length1 == |bools| &&
    (forall i, j :: 0 <= i < |bools| && 0 <= j < |bools| ==> m[i, j] == m[j, i]) &&
    (forall i :: 0 <= i < |bools| ==> m[i, i] == 0.0) &&
    (forall i, j :: 0 <= i < |bools| && 0 <= j < |bools| && i != j ==> CalcDis(bools[i], bools[j]) == Success(m[i, j]))
  }

  /**
   * One row of the lower triangle: matrix[cur][0:cur] = [calcDis(cur, i) for
   * i in range(cur)]. It fails, leaving the row as it was, when a calcDis
   * divides by zero.
   */
  method FillRow(matrix: array2<real>, bools: seq<seq<bool>>, cur: nat) returns (ok: bool)
    requires matrix.Length0 == matrix.Length1 == |bools| && cur < |bools|
    modifies matrix
    ensures ok <==> forall i :: 0 <= i < cur ==> CalcDis(bools[cur], bools[i]).Success?
    ensures ok ==> forall i :: 0 <= i < cur ==> CalcDis(bools[cur], bools[i]) == Success(matrix[cur, i])
    ensures forall i, j :: 0 <= i < |bools| && 0 <= j < |bools| && !(ok && i == cur && j < cur) ==>
              matrix[i, j] == old(matrix[i, j])
  {
    var row: seq<real> := [];
    for i := 0 to cur
      invariant |row| == i && forall k :: 0 <= k < i ==> CalcDis(bools[cur], bools[k]) == Success(row[k])
    {
      var d := CalcDis(bools[cur], bools[i]);
      if d.Failure? {
        return false;
      }
      row := row + [d.value];
    }
    for i := 0 to cur
      invariant forall k :: 0 <= k < i ==> matrix[cur, k] == row[k]
      invariant forall a, b :: 0 <= a < |bools| && 0 <= b < |bools| && !(a == cur && b < i) ==>
                  matrix[a, b] == old(matrix[a, b])
    {
      matrix[cur, i] := row[i];
    }
    return true;
  }

  /**
   * Steps (1) and (2) of the distance matrix: all zeros, then the lower
   * triangle row by row. It fails exactly when two transcripts have no
   * covered offset.
   */
  method LowerTriangle(bools: seq<seq<bool>>) returns (matrix: array2<real>, ok: bool)
    ensures fresh(matrix) && matrix.Length0 == |bools| && matrix.Length1 == |bools|
    ensures ok <==> !EmptyPair(bools)
    ensures ok ==> forall i, j :: 0 <= j < i < |bools| ==> CalcDis(bools[i], bools[j]) == Success(matrix[i, j])
    ensures ok ==> forall i, j :: 0 <= i <= j < |bools| ==> matrix[i, j] == 0.0
  {
    var n := |bools|;
    matrix := new real[n, n]((i, j) => 0.0);
    var cur := 1;
    while cur < n
      invariant 1 <= cur && (cur <= n || cur == 1)
      invariant forall i, j :: 0 <= j < i < cur ==> CalcDis(bools[i], bools[j]) == Success(matrix[i, j])
      invariant forall i, j :: 0 <= i < n && 0 <= j < n && !(j < i < cur) ==> matrix[i, j] == 0.0
      invariant !exists i, j :: 0 <= j < i < cur && Count(bools[i]) == 0 && Count(bools[j]) == 0
    {
      ok := FillRow(matrix, bools, cur);
      if !ok {
        var i :| 0 <= i < cur && CalcDis(bools[cur], bools[i]).Failure?;
        assert Count(bools[cur]) == 0 && Count(bools[i]) == 0;
        return;
      }
      forall i | 0 <= i < cur
        ensures Count(bools[cur]) > 0 || Count(bools[i]) > 0
      {
        assert CalcDis(bools[cur], bools[i]).Success?;
      }
      cur := cur + 1;
    }
    ok := true;
  }

  /** Step (3): matrix + matrix.T, a new matrix. */
  method AddTranspose(matrix: array2<real>) returns (m: array2<real>)
    requires matrix.Length0 == matrix.Length1
    ensures fresh(m) && m.Length0 == matrix.Length0 && m.Length1 == matrix.Length1
    ensures forall i, j :: 0 <= i < m.Length0 && 0 <= j < m.Length1 ==> m[i, j] == matrix[i, j] + matrix[j, i]
  {
    var n := matrix.Length0;
    m := new real[n, n];
    for i := 0 to n
      invariant forall a, b :: 0 <= a < i && 0 <= b < n ==> m[a, b] == matrix[a, b] + matrix[b, a]
    {
      for j := 0 to n
        invariant forall a, b :: 0 <= a < i && 0 <= b < n ==> m[a, b] == matrix[a, b] + matrix[b, a]
        invariant forall b :: 0 <= b < j ==> m[i, b] == matrix[i, b] + matrix[b, i]
      {
        m[i, j] := matrix[i, j] + matrix[j, i];
      }
    }
  }

  /**
   * The distance matrix of groupTran. It fails with ZeroDivisionError
   * exactly when two transcripts have no covered offset; otherwise it is
   * symmetric, zero on the diagonal and calcDis everywhere else.
   */
  method DistanceMatrix(bools: seq<seq<bool>>) returns (r: Result<array2<real>, PyError>)
    ensures r.Failure? <==> EmptyPair(bools)
    ensures r.Failure? ==> r.error == ZeroDivisionError
    ensures r.Success? ==> fresh(r.value) && IsDistanceMatrix(r.value, bools)
  {
    var matrix, ok := LowerTriangle(bools);
    if !ok {
      return Failure(ZeroDivisionError);
    }
    var m := AddTranspose(matrix);
    var n := |bools|;
    forall i, j | 0 <= i < n && 0 <= j < n && i != j
      ensures CalcDis(bools[i], bools[j]) == Success(m[i, j])
    {
      if j < i {
        assert m[i, j] == matrix[i, j] + 0.0;
      } else {
        CalcDisSymmetric(bools[i], bools[j]);
        assert m[i, j] == 0.0 + matrix[j, i];
      }
    }
    return Success(m);
  }

  /** What groupTran hands to the clustering: the names, the distance matrix and the number of clusterings. */
  datatype Grouping = Grouping(names: seq<string>, distances: array2<real>, clusterNum: int)

  /** The names of the transcripts, in list order. */
  function Names(ts: seq<Transcript>): (r: seq<string>)
    ensures |r| == |ts| && forall k :: 0 <= k < |ts| ==> r[k] == ts[k].name
  {
    seq(|ts|, k requires 0 <= k < |ts| => ts[k].name)
  }

  /** df['exons'] and df['boolean']: each transcript's shifted exons, painted into flags. */
  method CoverageLists(matchTran: seq<Transcript>, minVal: int, maxVal: int) returns (bools: seq<seq<bool>>)
    ensures bools == Coverages(ExonSpans(matchTran), minVal, maxVal)
  {
    bools := [];
    for k := 0 to |matchTran|
      invariant |bools| == k
      invariant forall i :: 0 <= i < k ==> bools[i] == ToBoolean(GetExon(SpansOf(matchTran[i].exons), minVal), maxVal - minVal)
    {
      var exons := GetExon(SpansOf(matchTran[k].exons), minVal);
      bools := bools + [ToBoolean(exons, maxVal - minVal)];
    }
  }

  /**
   * groupTran up to the clustering. With no non-annotated transcript the
   * result is None. Otherwise the distances are those of the coverage flag
   * lists over [minVal, maxVal] (failing with ZeroDivisionError exactly when
   * two transcripts cover nothing there), and cluster_num is cut down to the
   * number of transcripts.
   */
  method GroupTran(tranList: seq<Transcript>, clusterNum: int) returns (r: Result<Option<Grouping>, PyError>)
    ensures var matchTran := NonAnnotated(tranList);
      if matchTran == [] then r == Success(None)
      else
        var bools := Coverages(ExonSpans(matchTran), MinStart(matchTran), MaxTranEnd(matchTran));
        (r.Failure? <==> EmptyPair(bools)) &&
        (r.Failure? ==> r.error == ZeroDivisionError) &&
        (r.Success? ==>
          r.value.Some? &&
          r.value.value.names == Names(matchTran) &&
          IsDistanceMatrix(r.value.value.distances, bools) &&
          r.value.value.clusterNum == (if |matchTran| < clusterNum then |matchTran| else clusterNum) &&
          r.value.value.clusterNum <= |matchTran|)
  {
    var matchTran, minVal, maxVal := MatchRange(tranList);
    if |matchTran| == 0 {
      return Success(None);
    }
    var bools := CoverageLists(matchTran, minVal.value, maxVal);
    var matrix := DistanceMatrix(bools);
    if matrix.Failure? {
      return Failure(matrix.error);
    }
    var n := clusterNum;
    if |matchTran| < n {
      n := |matchTran|;
    }
    return Success(Some(Grouping(Names(matchTran), matrix.value, n)));
  }

  /** The offsets in [0, width] that some exon covers. */
  function CoveredOffsets(exons: seq<Span>, width: nat): set<nat>
  {
    set x: nat | x <= width && Covered(exons, x)
  }

  /**
   * When every exon lies within [minVal, maxVal] and starts no later than
   * it ends, the distance groupTran puts between two transcripts is the
   * Jaccard distance of the offsets their exons cover: one less the size of
   * the intersection over the size of the union.
   */
  lemma GroupDistanceIsJaccard(spans: seq<seq<Span>>, minVal: int, maxVal: int, i: nat, j: nat)
    requires minVal <= maxVal && i < |spans| && j < |spans|
    requires forall k, e :: 0 <= k < |spans| && 0 <= e < |spans[k]| ==>
               minVal <= spans[k][e].start <= spans[k][e].end <= maxVal
    ensures CalcDis(Coverages(spans, minVal, maxVal)[i], Coverages(spans, minVal, maxVal)[j]) ==
            Jaccard(CoveredOffsets(GetExon(spans[i], minVal), maxVal - minVal),
                    CoveredOffsets(GetExon(spans[j], minVal), maxVal - minVal))
  {
    var bools := Coverages(spans, minVal, maxVal);
    var width := maxVal - minVal;
    var ei, ej := GetExon(spans[i], minVal), GetExon(spans[j], minVal);
    forall e | 0 <= e < |ei| ensures 0 <= ei[e].start <= ei[e].end <= width {
      assert minVal <= spans[i][e].start <= spans[i][e].end <= maxVal;
    }
    forall e | 0 <= e < |ej| ensures 0 <= ej[e].start <= ej[e].end <= width {
      assert minVal <= spans[j][e].start <= spans[j][e].end <= maxVal;
    }
    ToBooleanTrueSet(ei, width);
    ToBooleanTrueSet(ej, width);
    assert bools[i] == ToBoolean(ei, width) && bools[j] == ToBoolean(ej, width);
    assert TrueSet(bools[i]) == CoveredOffsets(ei, width);
    assert TrueSet(bools[j]) == CoveredOffsets(ej, width);
    CalcDisIsJaccard(bools[i], bools[j]);
  }
}
