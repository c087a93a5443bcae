/**
 * What findRegions computes, stated on plain genomic intervals.
 *
 * Every exon gives an opening event at its start and a closing event at its
 * end, tagged with the index of its transcript. The events are sorted by
 * position (a stable sort: equal positions keep their list order) and swept
 * left to right. Whenever the sweep jumps more than MIN_REGION_SIZE past the
 * current position, the region being built is closed: every transcript
 * open at that moment is tagged with the region's number, the counter moves
 * on (only if some transcript was open), and the current position moves to
 * the event.
 */
module RegionSpec {
  import opened Structs

  /** Gaps of at most this many bases do not start a new region. */
  const MIN_REGION_SIZE: int := 50

  /** An exon edge: position, whether it is the exon's end, and the transcript's index. */
  datatype Event = Event(posit: int, isEnd: bool, tranIx: nat)

  // ----- The event list -----

  /** The events of one transcript's exons, in exon order: start, then end, for each exon. */
  function TranEvents(ix: nat, exons: seq<Span>): (r: seq<Event>)
    ensures |r| == 2 * |exons|
    ensures forall k :: 0 <= k < |r| ==> r[k].tranIx == ix
  {
    if exons == [] then []
    else
      var e := exons[|exons| - 1];
      TranEvents(ix, exons[..|exons| - 1]) + [Event(e.start, false, ix), Event(e.end, true, ix)]
  }

  /** The events of all transcripts, transcript by transcript. */
  function Events(spans: seq<seq<Span>>): (r: seq<Event>)
    ensures forall k :: 0 <= k < |r| ==> r[k].tranIx < |spans|
  {
    if spans == [] then []
    else Events(spans[..|spans| - 1]) + TranEvents(|spans| - 1, spans[|spans| - 1])
  }
  /** The events of the first i + 1 transcripts: those of the first i, then transcript i's. */
  lemma EventsSnoc(spans: seq<seq<Span>>, i: nat)
    requires i < |spans|
    ensures Events(spans[..i + 1]) == Events(spans[..i]) + TranEvents(i, spans[i])
  {
    assert spans[..i + 1][..i] == spans[..i];
  }


  /** No events at all exactly when no transcript has an exon. */
  lemma {:induction false} EventsEmpty(spans: seq<seq<Span>>)
    ensures Events(spans) == [] <==> forall i :: 0 <= i < |spans| ==> spans[i] == []
  {
    if spans != [] {
      var pre := spans[..|spans| - 1];
      EventsEmpty(pre);
      assert forall i :: 0 <= i < |pre| ==> pre[i] == spans[i];
    }
  }

  // ----- The stable sort by position -----

  predicate SortedByPos(s: seq<Event>)
  {
    forall i, j :: 0 <= i < j < |s| ==> s[i].posit <= s[j].posit
  }

  /** The events at position p, in list order. */
  function At(s: seq<Event>, p: int): (r: seq<Event>)
    ensures |r| <= |s|
  {
    if s == [] then []
    else At(s[..|s| - 1], p) + (if s[|s| - 1].posit == p then [s[|s| - 1]] else [])
  }

  /** Insert e into a sorted list after every event at or before its position. */
  function Insert(e: Event, t: seq<Event>): (r: seq<Event>)
    ensures |r| == |t| + 1
  {
    if t == [] || t[|t| - 1].posit <= e.posit then t + [e]
    else Insert(e, t[..|t| - 1]) + [t[|t| - 1]]
  }

  /** Insertion sort by position, taking the events in list order. */
  function SortByPos(s: seq<Event>): (r: seq<Event>)
    ensures |r| == |s|
  {
    if s == [] then [] else Insert(s[|s| - 1], SortByPos(s[..|s| - 1]))
  }

  /** Inserting keeps the list sorted; the events after e are all beyond it. */
  lemma {:induction false} InsertSorted(e: Event, t: seq<Event>)
    requires SortedByPos(t)
    ensures SortedByPos(Insert(e, t))
    ensures forall x :: x in Insert(e, t) <==> x in t || x == e
  {
    if !(t == [] || t[|t| - 1].posit <= e.posit) {
      var pre, last := t[..|t| - 1], t[|t| - 1];
      InsertSorted(e, pre);
      var r := Insert(e, t);
      assert r == Insert(e, pre) + [last];
      forall i, j | 0 <= i < j < |r| ensures r[i].posit <= r[j].posit {
        if j == |r| - 1 {
          assert r[i] in Insert(e, pre);
          assert r[i] in pre || r[i] == e;
        }
      }
    }
  }

  lemma AtAppend(s: seq<Event>, t: seq<Event>, p: int)
    ensures At(s + t, p) == At(s, p) + At(t, p)
    decreases |t|
  {
    if t != [] {
      assert (s + t)[..|s + t| - 1] == s + t[..|t| - 1];
      AtAppend(s, t[..|t| - 1], p);
    } else {
      assert s + t == s;
    }
  }

  /** Inserting e adds e at the end of the events at its own position and changes no other position. */
  lemma {:induction false} InsertAt(e: Event, t: seq<Event>, p: int)
    ensures At(Insert(e, t), p) == At(t, p) + (if e.posit == p then [e] else [])
  {
    if !(t == [] || t[|t| - 1].posit <= e.posit) {
      var pre, last := t[..|t| - 1], t[|t| - 1];
      var ins := Insert(e, pre);
      var mine := if e.posit == p then [e] else [];
      var lastAt := if last.posit == p then [last] else [];
      InsertAt(e, pre, p);
      assert (ins + [last])[..|ins|] == ins;
      assert At(Insert(e, t), p) == At(pre, p) + mine + lastAt;
      assert At(t, p) == At(pre, p) + lastAt;
      // last lies beyond e, so at most one of them is at p
      if e.posit == p {
        assert lastAt == [];
        assert At(pre, p) + mine + lastAt == At(pre, p) + mine;
      } else {
        assert At(pre, p) + mine + lastAt == At(pre, p) + lastAt;
      }
    } else {
      AtAppend(t, [e], p);
    }
  }

  /**
   * The sort Python's list.sort performs: the result is ordered by position,
   * and at every position the events keep their original order (stability).
   */
  lemma {:induction false} SortByPosStable(s: seq<Event>)
    ensures SortedByPos(SortByPos(s))
    ensures forall p :: At(SortByPos(s), p) == At(s, p)
  {
    if s != [] {
      var pre, e := s[..|s| - 1], s[|s| - 1];
      SortByPosStable(pre);
      InsertSorted(e, SortByPos(pre));
      forall p ensures At(SortByPos(s), p) == At(s, p) {
        InsertAt(e, SortByPos(pre), p);
      }
    }
  }

  /** The sort keeps exactly the events it was given. */
  lemma {:induction false} SortByPosInput(s: seq<Event>)
    ensures forall x :: x in SortByPos(s) <==> x in s
  {
    if s != [] {
      var pre := s[..|s| - 1];
      SortByPosInput(pre);
      SortByPosStable(pre);
      InsertSorted(s[|s| - 1], SortByPos(pre));
      assert s == pre + [s[|s| - 1]];
    }
  }

  /** Every sorted event names one of the transcripts. */
  lemma SortedEventsInRange(spans: seq<seq<Span>>)
    ensures forall k :: 0 <= k < |SortByPos(Events(spans))| ==> SortByPos(Events(spans))[k].tranIx < |spans|
  {
    var raw := Events(spans);
    SortByPosInput(raw);
    forall k | 0 <= k < |SortByPos(raw)|
      ensures SortByPos(raw)[k].tranIx < |spans|
    {
      assert SortByPos(raw)[k] in raw;
    }
  }

  // ----- The sweep -----

  /** The sweep's variables: curPos, curTranSet, region, and the region ids each transcript has received. */
  datatype SweepState = SweepState(curPos: int, open: set<nat>, region: nat, tags: seq<set<nat>>)

  /** The state before the first event: n transcripts, none tagged, the position at the first event. */
  function Start(first: int, n: nat): (s: SweepState)
    ensures |s.tags| == n && s.open == {} && s.region == 0
  {
    SweepState(first, {}, 0, seq(n, _ => {}))
  }

  /** Every transcript in open gets region id r added to its tags. */
  function TagAll(tags: seq<set<nat>>, open: set<nat>, r: nat): (t: seq<set<nat>>)
    ensures |t| == |tags|
  {
    seq(|tags|, i requires 0 <= i < |tags| => if i in open then tags[i] + {r} else tags[i])
  }

  /**
   * The first half of an event: a jump of more than MIN_REGION_SIZE past
   * curPos closes the current region, tagging the open transcripts and
   * advancing the counter if any is open, and moves the position.
   */
  function Advance(s: SweepState, posit: int): (r: SweepState)
    ensures r.open == s.open && |r.tags| == |s.tags|
  {
    if posit > s.curPos + MIN_REGION_SIZE then
      if |s.open| > 0 then SweepState(posit, s.open, s.region + 1, TagAll(s.tags, s.open, s.region))
      else s.(curPos := posit)
    else s
  }

  /**
   * The second half: the event opens or closes its transcript. Closing a
   * transcript that is not open fails (Python's KeyError); ok is then false.
   */
  function Apply(s: SweepState, ev: Event): (r: (SweepState, bool))
    ensures |r.0.tags| == |s.tags|
  {
    if !ev.isEnd then (s.(open := s.open + {ev.tranIx}), true)
    else if ev.tranIx in s.open then (s.(open := s.open - {ev.tranIx}), true)
    else (s, false)
  }

  /** One event; on a KeyError the tags written by its first half stay. */
  function Tick(s: SweepState, ev: Event): (r: (SweepState, bool))
    ensures |r.0.tags| == |s.tags|
  {
    Apply(Advance(s, ev.posit), ev)
  }

  /** The sweep over a list of events; it stops at the first failing event. */
  function Run(s: SweepState, evs: seq<Event>): (r: (SweepState, bool))
    ensures |r.0.tags| == |s.tags|
  {
    if evs == [] then (s, true)
    else
      var (s', ok) := Run(s, evs[..|evs| - 1]);
      if ok then Tick(s', evs[|evs| - 1]) else (s', false)
  }

  /** What findRegions leaves behind for the event list evs (already sorted) and n transcripts. */
  function FindRegionsSpec(evs: seq<Event>, n: nat): (SweepState, bool)
    requires evs != []
  {
    Run(Start(evs[0].posit, n), evs)
  }

  /** Once the sweep has failed, later events change nothing. */
  lemma {:induction false} RunStopsAtFailure(s: SweepState, evs: seq<Event>, m: nat)
    requires m <= |evs| && !Run(s, evs[..m]).1
    ensures Run(s, evs) == Run(s, evs[..m])
    decreases |evs| - m
  {
    if m < |evs| {
      assert evs[..m + 1][..m] == evs[..m];
      RunStopsAtFailure(s, evs, m + 1);
    } else {
      assert evs[..m] == evs;
    }
  }

  // ----- Invariants of the sweep -----

  /**
   * Well-kept sweep state for n transcripts: open transcripts are valid
   * indices, every region id handed out is below the counter, and every id
   * below the counter was handed to at least one transcript.
   */
  ghost predicate Good(s: SweepState, n: nat)
  {
    |s.tags| == n &&
    (forall i :: i in s.open ==> i < n) &&
    (forall i, r :: 0 <= i < n && r in s.tags[i] ==> r < s.region) &&
    (forall r :: 0 <= r < s.region ==> Handed(s.tags, r))
  }

  /** Region id r went to at least one transcript. */
  ghost predicate Handed(tags: seq<set<nat>>, r: nat)
  {
    exists i :: 0 <= i < |tags| && r in tags[i]
  }

  /** Closing a region with a non-empty open set keeps the state Good with the counter one higher. */
  lemma CloseGood(s: SweepState, n: nat)
    requires Good(s, n) && |s.open| > 0
    ensures Good(s.(tags := TagAll(s.tags, s.open, s.region), region := s.region + 1), n)
    ensures forall i :: 0 <= i < n ==> s.tags[i] <= TagAll(s.tags, s.open, s.region)[i]
  {
    var t := TagAll(s.tags, s.open, s.region);
    var j :| j in s.open;
    assert s.region in t[j];
    forall r | 0 <= r < s.region + 1
      ensures Handed(t, r)
    {
      if r < s.region {
        assert Handed(s.tags, r);
        var i :| 0 <= i < |s.tags| && r in s.tags[i];
        assert r in t[i];
      }
    }
  }

  lemma TickGood(s: SweepState, ev: Event, n: nat)
    requires Good(s, n) && ev.tranIx < n
    ensures Good(Tick(s, ev).0, n)
    ensures forall i :: 0 <= i < n ==> s.tags[i] <= Tick(s, ev).0.tags[i]
  {
    if ev.posit > s.curPos + MIN_REGION_SIZE && |s.open| > 0 {
      CloseGood(s, n);
    }
  }

  /**
   * Over events whose transcript indices are below n, the sweep keeps Good
   * and tags only grow: every region id a transcript receives is below the
   * final counter, and each id below the counter went to some transcript.
   */
  lemma {:induction false} RunGood(s: SweepState, evs: seq<Event>, n: nat)
    requires Good(s, n) && forall k :: 0 <= k < |evs| ==> evs[k].tranIx < n
    ensures Good(Run(s, evs).0, n)
    ensures forall i :: 0 <= i < n ==> s.tags[i] <= Run(s, evs).0.tags[i]
  {
    if evs != [] {
      var pre := evs[..|evs| - 1];
      RunGood(s, pre, n);
      if Run(s, pre).1 {
        TickGood(Run(s, pre).0, evs[|evs| - 1], n);
      }
    }
  }

  /**
   * findRegions' postcondition on the transcripts: every region id a
   * transcript ends with is below the final counter, and no region is
   * empty: each id below the counter belongs to some transcript.
   */
  lemma RegionIdsBelowCounter(evs: seq<Event>, n: nat)
    requires evs != [] && forall k :: 0 <= k < |evs| ==> evs[k].tranIx < n
    ensures var s := FindRegionsSpec(evs, n).0;
      |s.tags| == n &&
      (forall i, r :: 0 <= i < n && r in s.tags[i] ==> r < s.region) &&
      (forall r :: 0 <= r < s.region ==> Handed(s.tags, r))
  {
    RunGood(Start(evs[0].posit, n), evs, n);
  }

  /**
   * The region counter moves exactly at a jump of more than MIN_REGION_SIZE
   * with at least one transcript open, and then by one; the transcripts
   * tagged are exactly the open ones.
   */
  lemma CounterMovesOnlyWhenOpen(s: SweepState, ev: Event)
    ensures var (s', _) := Tick(s, ev);
      var closes := ev.posit > s.curPos + MIN_REGION_SIZE && s.open != {};
      s'.region == (if closes then s.region + 1 else s.region) &&
      |s'.tags| == |s.tags| &&
      (forall i :: 0 <= i < |s.tags| ==>
        s'.tags[i] == (if closes && i in s.open then s.tags[i] + {s.region} else s.tags[i]))
  {
    if ev.posit > s.curPos + MIN_REGION_SIZE && s.open != {} {
      assert |s.open| > 0;
    }
  }

  // ----- Worked examples -----

  /**
   * A transcript whose only exon is [100, 120] is never tagged: the sweep
   * never jumps past the first position, and there is no final close after
   * the last event.
   */
  lemma ShortTranscriptUntagged()
    ensures var evs := SortByPos(Events([[Span(100, 120)]]));
      evs == [Event(100, false, 0), Event(120, true, 0)] &&
      FindRegionsSpec(evs, 1) == (SweepState(100, {}, 0, [{}]), true)
  {
    var spans := [[Span(100, 120)]];
    assert spans[..0] == [];
    assert [Span(100, 120)][..0] == [];
    var evs := [Event(100, false, 0), Event(120, true, 0)];
    assert Events(spans) == evs;
    assert evs[..1][..0] == [];
    assert SortByPos(evs[..1]) == [Event(100, false, 0)];
    var s0 := Start(100, 1);
    assert s0.tags == [{}];
    assert evs[..1] == [Event(100, false, 0)];
    assert Run(s0, evs[..1]) == (s0.(open := {0}), true);
  }

  /** The events of one transcript with the exons [100, 200] and [150, 250], in exon order. */
  lemma OverlappingEvents()
    ensures Events([[Span(100, 200), Span(150, 250)]]) ==
      [Event(100, false, 0), Event(200, true, 0), Event(150, false, 0), Event(250, true, 0)]
  {
    var exons := [Span(100, 200), Span(150, 250)];
    var spans := [exons];
    assert spans[..0] == [];
    assert exons[..1] == [Span(100, 200)] && exons[..1][..0] == [];
    assert TranEvents(0, exons[..1]) == [Event(100, false, 0), Event(200, true, 0)];
  }

  /** Sorting those events moves the second start before the first end. */
  lemma OverlappingSorted()
    ensures SortByPos([Event(100, false, 0), Event(200, true, 0), Event(150, false, 0), Event(250, true, 0)]) ==
      [Event(100, false, 0), Event(150, false, 0), Event(200, true, 0), Event(250, true, 0)]
  {
    var raw := [Event(100, false, 0), Event(200, true, 0), Event(150, false, 0), Event(250, true, 0)];
    assert raw[..3][..2] == raw[..2] && raw[..2][..1] == raw[..1] && raw[..1][..0] == [];
    assert SortByPos(raw[..1]) == [Event(100, false, 0)];
    assert SortByPos(raw[..2]) == [Event(100, false, 0), Event(200, true, 0)];
    assert raw[..3][2] == Event(150, false, 0);
    assert [Event(100, false, 0), Event(200, true, 0)][..1] == [Event(100, false, 0)];
    assert SortByPos(raw[..3]) == [Event(100, false, 0), Event(150, false, 0), Event(200, true, 0)];
  }

  /** The sweep over the sorted events tags the transcript with region 0 at 200, then fails at 250. */
  lemma OverlappingRun()
    ensures FindRegionsSpec([Event(100, false, 0), Event(150, false, 0), Event(200, true, 0), Event(250, true, 0)], 1) ==
      (SweepState(200, {}, 1, [{0}]), false)
  {
    var e1, e2, e3, e4 := Event(100, false, 0), Event(150, false, 0), Event(200, true, 0), Event(250, true, 0);
    var s0 := Start(100, 1);
    assert s0.tags == [{}];
    var s1 := s0.(open := {0});
    var s3 := SweepState(200, {}, 1, [{0}]);
    RunSnoc(s0, [], e1);
    assert Run(s0, [e1]) == (s1, true) by { assert [] + [e1] == [e1]; }
    RunSnoc(s0, [e1], e2);
    assert Run(s0, [e1, e2]) == (s1, true) by { assert [e1] + [e2] == [e1, e2]; }
    RunSnoc(s0, [e1, e2], e3);
    assert TagAll([{}], {0}, 0) == [{0}];
    assert s1.open - {0} == {};
    assert Run(s0, [e1, e2, e3]) == (s3, true) by { assert [e1, e2] + [e3] == [e1, e2, e3]; }
    RunSnoc(s0, [e1, e2, e3], e4);
    assert [e1, e2, e3] + [e4] == [e1, e2, e3, e4];
  }

  /** The sweep over one more event: the sweep so far, then that event unless it already failed. */
  lemma RunSnoc(s: SweepState, pre: seq<Event>, e: Event)
    ensures Run(s, pre + [e]) == if Run(s, pre).1 then Tick(Run(s, pre).0, e) else (Run(s, pre).0, false)
  {
    assert (pre + [e])[..|pre|] == pre;
  }

  /**
   * A transcript with the overlapping exons [100, 200] and [150, 250]: its
   * index is opened twice but the open set holds it once, so the second
   * close fails (KeyError), after the transcript was tagged with region 0.
   */
  lemma OverlappingExonsFail()
    ensures var evs := SortByPos(Events([[Span(100, 200), Span(150, 250)]]));
      evs == [Event(100, false, 0), Event(150, false, 0), Event(200, true, 0), Event(250, true, 0)] &&
      FindRegionsSpec(evs, 1) == (SweepState(200, {}, 1, [{0}]), false)
  {
    OverlappingEvents();
    OverlappingSorted();
    OverlappingRun();
  }
}
