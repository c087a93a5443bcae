/**
 * reduceNameLength of getGene.py: a name of 30 characters or more is cut
 * down to its first and third '|'-separated fields, or, when it has fewer
 * than three fields, to its first 25 characters.
 */
module Names {

  const SEP: char := '|'
  /** Names this long or longer are shortened. */
  const LONG_NAME: nat := 30
  /** The length kept when a long name has fewer than three fields. */
  const KEPT_PREFIX: nat := 25

  /** s contains no separator. */
  predicate NoSep(s: string)
  {
    forall k :: 0 <= k < |s| ==> s[k] != SEP
  }

  /** str.split('|'): the fields between separators, always at least one, none containing a separator. */
  function Split(s: string): (r: seq<string>)
    ensures r != []
    ensures forall k :: 0 <= k < |r| ==> NoSep(r[k])
  {
    if s == [] then [[]]
    else
      var rest := Split(s[1..]);
      if s[0] == SEP then [[]] + rest
      else [[s[0]] + rest[0]] + rest[1..]
  }

  /** '|'.join(fields). */
  function Join(fields: seq<string>): string
    requires fields != []
  {
    if |fields| == 1 then fields[0] else fields[0] + [SEP] + Join(fields[1..])
  }

  /** Joining the fields of a split gives back the string. */
  lemma {:induction false} JoinSplit(s: string)
    ensures Join(Split(s)) == s
  {
    if s != [] {
      var rest := Split(s[1..]);
      JoinSplit(s[1..]);
      if s[0] == SEP {
        JoinEmptyFirst(rest);
      } else {
        JoinGlued(s[0], rest);
      }
      assert [s[0]] + s[1..] == s;
    }
  }

  /** An empty first field contributes only its separator. */
  lemma JoinEmptyFirst(fields: seq<string>)
    requires fields != []
    ensures Join([[]] + fields) == [SEP] + Join(fields)
  {
    assert ([[]] + fields)[1..] == fields;
  }

  /** A character glued to the front of the first field comes first in the join. */
  lemma JoinGlued(c: char, fields: seq<string>)
    requires fields != []
    ensures Join([[c] + fields[0]] + fields[1..]) == [c] + Join(fields)
  {
    if |fields| > 1 {
      assert ([[c] + fields[0]] + fields[1..])[1..] == fields[1..];
    }
  }

  /** Splitting a join of separator-free fields gives back the fields. */
  lemma {:induction false} SplitJoin(fields: seq<string>)
    requires fields != [] && forall k :: 0 <= k < |fields| ==> NoSep(fields[k])
    ensures Split(Join(fields)) == fields
  {
    if |fields| == 1 {
      SplitField(fields[0], []);
      assert fields[0] + [] == fields[0] && Split([]) == [[]];
    } else {
      var tail := Join(fields[1..]);
      SplitJoin(fields[1..]);
      SplitField(fields[0], [SEP] + tail);
      assert Join(fields) == fields[0] + ([SEP] + tail);
      assert ([SEP] + tail)[1..] == tail;
      assert Split([SEP] + tail) == [[]] + fields[1..];
      assert fields[0] + [] == fields[0];
      assert fields == [fields[0]] + fields[1..];
    }
  }

  /** Splitting a separator-free field followed by t: the field is glued to the first field of t. */
  lemma {:induction false} SplitField(f: string, t: string)
    requires NoSep(f)
    ensures Split(f + t) == [f + Split(t)[0]] + Split(t)[1..]
    decreases |f|
  {
    if f != [] {
      assert (f + t)[1..] == f[1..] + t;
      SplitField(f[1..], t);
      assert [f[0]] + (f[1..] + Split(t)[0]) == f + Split(t)[0];
    } else {
      assert f + t == t;
      assert f + Split(t)[0] == Split(t)[0];
      assert Split(t) == [Split(t)[0]] + Split(t)[1..];
    }
  }

  /** The joined string is at least as long as its first field. */
  lemma {:induction false} JoinLength(fields: seq<string>)
    requires fields != []
    ensures |Join(fields)| >= |fields[0]|
    ensures |fields| >= 3 ==> |Join(fields)| >= |fields[0]| + |fields[1]| + |fields[2]| + 2
  {
    if |fields| > 1 {
      JoinLength(fields[1..]);
    }
  }

  /** The new name of one name, as the body of reduceNameLength's loop computes it. */
  function ReduceName(name: string): string
  {
    if |name| >= LONG_NAME then
      var fields := Split(name);
      if |fields| >= 3 then Join([fields[0], fields[2]])   // splitList[2] raises IndexError otherwise
      else name[..KEPT_PREFIX]
    else name
  }

  /**
   * A short name is kept. A long name with at least three fields becomes its
   * first and third fields, joined by one separator, and is strictly
   * shorter; a long name with fewer fields becomes its first 25 characters.
   */
  lemma ReduceNameFacts(name: string)
    ensures |name| < LONG_NAME ==> ReduceName(name) == name
    ensures |name| >= LONG_NAME && |Split(name)| >= 3 ==>
      Split(ReduceName(name)) == [Split(name)[0], Split(name)[2]] && |ReduceName(name)| < |name|
    ensures |name| >= LONG_NAME && |Split(name)| < 3 ==>
      |ReduceName(name)| == KEPT_PREFIX && ReduceName(name) <= name
  {
    var fields := Split(name);
    if |name| >= LONG_NAME && |fields| >= 3 {
      var pair := [fields[0], fields[2]];
      SplitJoin(pair);
      JoinSplit(name);
      JoinLength(fields);
      assert Join(pair) == fields[0] + [SEP] + fields[2];
    }
  }

  /** reduceNameLength: the new list has one reduced name per name, in order. */
  method ReduceNameLength(tranNames: seq<string>) returns (newTranNames: seq<string>)
    ensures |newTranNames| == |tranNames|
    ensures forall k :: 0 <= k < |tranNames| ==> newTranNames[k] == ReduceName(tranNames[k])
  {
    newTranNames := [];
    for k := 0 to |tranNames|
      invariant |newTranNames| == k
      invariant forall i :: 0 <= i < k ==> newTranNames[i] == ReduceName(tranNames[i])
    {
      var name := tranNames[k];
      if |name| >= LONG_NAME {
        var splitList := Split(name);
        if |splitList| >= 3 {
          newTranNames := newTranNames + [Join([splitList[0], splitList[2]])];
        } else {
          newTranNames := newTranNames + [name[..KEPT_PREFIX]];
        }
      } else {
        newTranNames := newTranNames + [name];
      }
    }
  }
}
