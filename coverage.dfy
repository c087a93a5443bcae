/**
 * The structural distance of groupTran in getGene.py: getExon shifts exon
 * coordinates so the leftmost transcript starts at offset 0, toBoolean
 * paints each transcript's exons into a list of flags, and calcDis compares
 * two such lists. Python's slice assignment is modelled as Python does it,
 * including its index clamping and the growth of the list when a slice
 * runs past the end. Float division is modelled on exact reals.
 */
module Coverage {
  import opened Structs

  /** getExon: each exon's start and end, less minVal. */
  function GetExon(exons: seq<Span>, minVal: int): (r: seq<Span>)
    ensures |r| == |exons|
    ensures forall i :: 0 <= i < |exons| ==> r[i] == Span(exons[i].start - minVal, exons[i].end - minVal)
  {
    seq(|exons|, i requires 0 <= i < |exons| => Span(exons[i].start - minVal, exons[i].end - minVal))
  }

  /** Shifting back undoes getExon, and the shift keeps every exon's length. */
  lemma GetExonRoundTrip(exons: seq<Span>, minVal: int)
    ensures GetExon(GetExon(exons, minVal), -minVal) == exons
    ensures forall i :: 0 <= i < |exons| ==>
              GetExon(exons, minVal)[i].end - GetExon(exons, minVal)[i].start == exons[i].end - exons[i].start
  {
    assert forall i :: 0 <= i < |exons| ==> GetExon(GetExon(exons, minVal), -minVal)[i] == exons[i];
  }

  /** [v for x in range(n)]: n copies of v, none when n is not positive. */
  function Repeat(v: bool, n: int): (r: seq<bool>)
    ensures |r| == (if n < 0 then 0 else n) && forall i :: 0 <= i < |r| ==> r[i] == v
  {
    if n <= 0 then [] else seq(n, _ => v)
  }

  /** How Python turns a slice bound i into a position in a list of length len. */
  function SliceBound(i: int, len: nat): (r: nat)
    ensures r <= len
    ensures 0 <= i <= len ==> r == i
    ensures i > len ==> r == len
  {
    if i < 0 then (if i + len < 0 then 0 else i + len)
    else if i > len then len
    else i
  }

  /** lst[i:j] = v, for a slice with step 1: the slice, clamped, is replaced by v. */
  function SliceAssign(lst: seq<bool>, i: int, j: int, v: seq<bool>): (r: seq<bool>)
  {
    var lo := SliceBound(i, |lst|);
    var hi := if SliceBound(j, |lst|) < lo then lo else SliceBound(j, |lst|);
    lst[..lo] + v + lst[hi..]
  }

  /** One iteration of toBoolean: booleanTran[a:b + 1] = [True ...] for exon (a, b). */
  function Paint(lst: seq<bool>, e: Span): seq<bool>
  {
    SliceAssign(lst, e.start, e.end + 1, Repeat(true, e.end + 1 - e.start))
  }

  /** toBoolean: width flags, all False, then each exon painted in list order. */
  function ToBoolean(exons: seq<Span>, width: int): (r: seq<bool>)
  {
    if exons == [] then Repeat(false, width)
    else Paint(ToBoolean(exons[..|exons| - 1], width), exons[|exons| - 1])
  }

  /** Offset x lies in one of the exons (both ends included). */
  predicate Covered(exons: seq<Span>, x: int)
  {
    exists k :: 0 <= k < |exons| && exons[k].start <= x <= exons[k].end
  }

  /** Some exon ends exactly at width, one past the last flag. */
  predicate EndsAtWidth(exons: seq<Span>, width: int)
  {
    exists k :: 0 <= k < |exons| && exons[k].end == width
  }

  /**
   * Painting one exon that lies within [0, width] onto a list of width or
   * width + 1 flags: the exon's offsets become True, the others keep their
   * flag, and the list grows by one exactly when the exon ends at width
   * while the list has only width flags.
   */
  lemma PaintFacts(lst: seq<bool>, e: Span, width: nat)
    requires |lst| == width || |lst| == width + 1
    requires 0 <= e.start <= e.end <= width
    ensures |Paint(lst, e)| == if e.end == width then width + 1 else |lst|
    ensures forall x :: 0 <= x < |lst| ==> (Paint(lst, e)[x] <==> (e.start <= x <= e.end || lst[x]))
    ensures |Paint(lst, e)| > |lst| ==> Paint(lst, e)[|lst|]
  {
    var v := Repeat(true, e.end + 1 - e.start);
    var lo := SliceBound(e.start, |lst|);
    var hi := if SliceBound(e.end + 1, |lst|) < lo then lo else SliceBound(e.end + 1, |lst|);
    var r := lst[..lo] + v + lst[hi..];
    assert Paint(lst, e) == r;
    assert |r| == lo + |v| + (|lst| - hi);
    assert lo == e.start && |v| == e.end + 1 - e.start;
    if e.end < width {
      assert hi == e.end + 1;
    } else if |lst| == width {
      assert hi == width;
    } else {
      assert hi == width + 1;
    }
    forall x | 0 <= x < |r|
      ensures r[x] == if x < lo then lst[x] else if x < lo + |v| then true else lst[x - lo - |v| + hi]
    {
    }
  }

  /** An exon ends at width among exons exactly when it does among all but the last, or the last does. */
  lemma EndsAtWidthLast(exons: seq<Span>, width: int)
    requires exons != []
    ensures EndsAtWidth(exons, width) <==>
              EndsAtWidth(exons[..|exons| - 1], width) || exons[|exons| - 1].end == width
  {
    var n := |exons| - 1;
    var pre := exons[..n];
    if EndsAtWidth(pre, width) {
      var k :| 0 <= k < n && pre[k].end == width;
      assert exons[k] == pre[k];
    }
    if EndsAtWidth(exons, width) && exons[n].end != width {
      var k :| 0 <= k < |exons| && exons[k].end == width;
      assert k < n && pre[k] == exons[k];
    }
  }

  /** x is covered by exons exactly when it is covered by all but the last, or by the last. */
  lemma CoveredLast(exons: seq<Span>, x: int)
    requires exons != []
    ensures Covered(exons, x) <==>
              Covered(exons[..|exons| - 1], x) || exons[|exons| - 1].start <= x <= exons[|exons| - 1].end
  {
    var n := |exons| - 1;
    var pre := exons[..n];
    if Covered(pre, x) {
      var k :| 0 <= k < n && pre[k].start <= x <= pre[k].end;
      assert exons[k] == pre[k];
    }
    if Covered(exons, x) && !(exons[n].start <= x <= exons[n].end) {
      var k :| 0 <= k < |exons| && exons[k].start <= x <= exons[k].end;
      assert k < n && pre[k] == exons[k];
    }
  }

  /**
   * toBoolean over exons that lie within [0, width] (width = max - min)
   * has width flags, or width + 1 when an exon ends at width: the slice
   * up to b + 1 then runs one past the list and Python grows it.
   */
  lemma {:induction false} ToBooleanLength(exons: seq<Span>, width: nat)
    requires forall k :: 0 <= k < |exons| ==> 0 <= exons[k].start <= exons[k].end <= width
    ensures |ToBoolean(exons, width)| == if EndsAtWidth(exons, width) then width + 1 else width
  {
    if exons != [] {
      var n := |exons| - 1;
      ToBooleanLength(exons[..n], width);
      PaintFacts(ToBoolean(exons[..n], width), exons[n], width);
      EndsAtWidthLast(exons, width);
    }
  }

  /**
   * toBoolean over exons that lie within [0, width]: the flag at offset x
   * is True exactly when x lies in an exon.
   */
  lemma {:induction false} ToBooleanCoverage(exons: seq<Span>, width: nat)
    requires forall k :: 0 <= k < |exons| ==> 0 <= exons[k].start <= exons[k].end <= width
    ensures var r := ToBoolean(exons, width);
      forall x :: 0 <= x < |r| ==> (r[x] <==> Covered(exons, x))
  {
    if exons != [] {
      var n := |exons| - 1;
      var pre, e := exons[..n], exons[n];
      ToBooleanCoverage(pre, width);
      ToBooleanLength(pre, width);
      var lst := ToBoolean(pre, width);
      PaintFacts(lst, e, width);
      var r := ToBoolean(exons, width);
      forall x | 0 <= x < |r|
        ensures r[x] <==> Covered(exons, x)
      {
        CoveredLast(exons, x);
      }
    }
  }

  /** sum(flags): the number of True flags. */
  function Count(v: seq<bool>): nat
  {
    if v == [] then 0 else Count(v[..|v| - 1]) + (if v[|v| - 1] then 1 else 0)
  }

  /** [a and b for a, b in zip(v1, v2)]: zip stops at the shorter list. */
  function ZipAnd(v1: seq<bool>, v2: seq<bool>): (r: seq<bool>)
    ensures |r| == if |v1| < |v2| then |v1| else |v2|
  {
    var n := if |v1| < |v2| then |v1| else |v2|;
    seq(n, i requires 0 <= i < n => v1[i] && v2[i])
  }

  /** The offsets whose flag is True. */
  function TrueSet(v: seq<bool>): set<nat>
  {
    set i: nat | i < |v| && v[i]
  }

  lemma {:induction false} CountIsCard(v: seq<bool>)
    ensures Count(v) == |TrueSet(v)|
  {
    if v != [] {
      var n := |v| - 1;
      CountIsCard(v[..n]);
      assert TrueSet(v) == TrueSet(v[..n]) + (if v[n] then {n} else {});
      assert n !in TrueSet(v[..n]);
    }
  }

  /** The True offsets of the zipped list are those True in both lists. */
  lemma ZipAndTrueSet(v1: seq<bool>, v2: seq<bool>)
    ensures TrueSet(ZipAnd(v1, v2)) == TrueSet(v1) * TrueSet(v2)
  {
  }

  /** Inclusion-exclusion for two finite sets. */
  lemma {:induction false} UnionInter(a: set<nat>, b: set<nat>)
    ensures |a + b| + |a * b| == |a| + |b|
    decreases |a|
  {
    if a != {} {
      var x :| x in a;
      var a' := a - {x};
      UnionInter(a', b);
      if x in b {
        assert a + b == a' + b;
        assert a * b == (a' * b) + {x};
      } else {
        assert a + b == (a' + b) + {x};
        assert a * b == a' * b;
      }
    }
  }

  /** The real number n / d. */
  function Fraction(n: int, d: int): real
    requires d != 0
  {
    (n as real) / (d as real)
  }

  lemma FractionInUnit(n: int, d: int)
    requires 0 <= n <= d && d > 0
    ensures 0.0 <= Fraction(n, d) <= 1.0
  {
    var q := Fraction(n, d);
    assert q * (d as real) == n as real;
  }

  /**
   * calcDis: with s1, s2 the numbers of True flags and ov the number of
   * offsets True in both, the distance (s1 + s2 - 2 ov) / (s1 + s2 - ov).
   * The division fails (ZeroDivisionError) exactly when neither list has a
   * True flag; otherwise the distance lies in [0, 1].
   */
  function CalcDis(v1: seq<bool>, v2: seq<bool>): (r: Result<real, PyError>)
    ensures r.Failure? <==> Count(v1) == 0 && Count(v2) == 0
    ensures r.Failure? ==> r.error == ZeroDivisionError
    ensures r.Success? ==> 0.0 <= r.value <= 1.0
  {
    var s1, s2, ov := Count(v1), Count(v2), Count(ZipAnd(v1, v2));
    CountIsCard(v1);
    CountIsCard(v2);
    CountIsCard(ZipAnd(v1, v2));
    ZipAndTrueSet(v1, v2);
    assert TrueSet(v1) * TrueSet(v2) <= TrueSet(v1) && TrueSet(v1) * TrueSet(v2) <= TrueSet(v2);
    SubsetCard(TrueSet(v1) * TrueSet(v2), TrueSet(v1));
    SubsetCard(TrueSet(v1) * TrueSet(v2), TrueSet(v2));
    if s1 + s2 - ov == 0 then Failure(ZeroDivisionError)
    else
      FractionInUnit(s1 + s2 - 2 * ov, s1 + s2 - ov);
      Success(Fraction(s1 + s2 - 2 * ov, s1 + s2 - ov))
  }

  /**
   * The Jaccard distance of two sets of offsets, one less the size of the
   * intersection over the size of the union, undefined for two empty sets.
   */
  function Jaccard(a: set<nat>, b: set<nat>): Result<real, PyError>
  {
    if a + b == {} then Failure(ZeroDivisionError) else Success(Fraction(|a + b| - |a * b|, |a + b|))
  }

  /**
   * calcDis is the Jaccard distance of the True offsets; it fails exactly
   * when the union is empty.
   */
  lemma CalcDisIsJaccard(v1: seq<bool>, v2: seq<bool>)
    ensures CalcDis(v1, v2) == Jaccard(TrueSet(v1), TrueSet(v2))
  {
    var a, b := TrueSet(v1), TrueSet(v2);
    var s1: int, s2: int, ov: int := Count(v1), Count(v2), Count(ZipAnd(v1, v2));
    CountIsCard(v1);
    CountIsCard(v2);
    CountIsCard(ZipAnd(v1, v2));
    ZipAndTrueSet(v1, v2);
    UnionInter(a, b);
    var u, i := |a + b|, |a * b|;
    assert s1 + s2 - ov == u && s1 + s2 - 2 * ov == u - i;
    assert CalcDis(v1, v2) == if u == 0 then Failure(ZeroDivisionError) else Success(Fraction(u - i, u));
    assert a + b == {} <==> u == 0;
  }

  /** calcDis does not depend on the order of its arguments. */
  lemma CalcDisSymmetric(v1: seq<bool>, v2: seq<bool>)
    ensures CalcDis(v1, v2) == CalcDis(v2, v1)
  {
    CalcDisIsJaccard(v1, v2);
    CalcDisIsJaccard(v2, v1);
    assert TrueSet(v1) + TrueSet(v2) == TrueSet(v2) + TrueSet(v1);
    assert TrueSet(v1) * TrueSet(v2) == TrueSet(v2) * TrueSet(v1);
  }

  lemma FractionExtremes(n: int, d: int)
    requires d > 0
    ensures Fraction(n, d) == 0.0 <==> n == 0
    ensures Fraction(n, d) == 1.0 <==> n == d
  {
    assert Fraction(n, d) * (d as real) == n as real;
  }

  /** calcDis is 0 exactly when both lists have the same True offsets (and some). */
  lemma CalcDisZero(v1: seq<bool>, v2: seq<bool>)
    requires Count(v1) > 0 || Count(v2) > 0
    ensures CalcDis(v1, v2) == Success(0.0) <==> TrueSet(v1) == TrueSet(v2)
  {
    var a, b := TrueSet(v1), TrueSet(v2);
    CalcDisIsJaccard(v1, v2);
    CountIsCard(v1);
    CountIsCard(v2);
    assert a + b != {};
    var u, i := |a + b|, |a * b|;
    assert CalcDis(v1, v2) == Success(Fraction(u - i, u));
    FractionExtremes(u - i, u);
    if u == i {
      SameCardSubset(a * b, a + b);
    }
    if a == b {
      assert a + b == a * b;
    }
  }

  /** calcDis is 1 exactly when the lists share no True offset (and have some). */
  lemma CalcDisOne(v1: seq<bool>, v2: seq<bool>)
    requires Count(v1) > 0 || Count(v2) > 0
    ensures CalcDis(v1, v2) == Success(1.0) <==> TrueSet(v1) * TrueSet(v2) == {}
  {
    var a, b := TrueSet(v1), TrueSet(v2);
    CalcDisIsJaccard(v1, v2);
    CountIsCard(v1);
    CountIsCard(v2);
    assert a + b != {};
    var u, i := |a + b|, |a * b|;
    assert CalcDis(v1, v2) == Success(Fraction(u - i, u));
    FractionExtremes(u - i, u);
  }

  /** A subset with as many members as the whole set is the whole set. */
  lemma {:induction false} SameCardSubset(x: set<nat>, y: set<nat>)
    requires x <= y && |x| == |y|
    ensures x == y
    decreases |y|
  {
    if y != {} {
      var e :| e in y;
      assert y == (y - {e}) + {e};
      if e !in x {
        SubsetCard(x, y - {e});
      } else {
        assert x == (x - {e}) + {e};
        SameCardSubset(x - {e}, y - {e});
      }
    }
  }

  /**
   * For exons within [0, width], toBoolean's True offsets are exactly the
   * covered offsets, so calcDis on two transcripts' flag lists is the
   * Jaccard distance of the sets of offsets their exons cover.
   */
  lemma ToBooleanTrueSet(exons: seq<Span>, width: nat)
    requires forall k :: 0 <= k < |exons| ==> 0 <= exons[k].start <= exons[k].end <= width
    ensures TrueSet(ToBoolean(exons, width)) == set x: nat | x <= width && Covered(exons, x)
  {
    ToBooleanCoverage(exons, width);
    ToBooleanLength(exons, width);
    var r := ToBoolean(exons, width);
    forall x: nat | x <= width && Covered(exons, x)
      ensures x < |r|
    {
      if x == width {
        var k :| 0 <= k < |exons| && exons[k].start <= x <= exons[k].end;
        assert exons[k].end == width;
      }
    }
  }
}
