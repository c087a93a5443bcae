/**
 * findRegions of getGene.py, over Transcript objects: builds the event list,
 * sorts it, sweeps it and adds region ids to each transcript's regions set.
 */
module Regions {
  import opened Structs
  import opened RegionSpec

  /**
   * The body of `for ix in curTranSet`: each transcript whose index is in
   * open gets region added to its regions set; no other transcript changes.
   */
  method TagOpen(tranList: seq<Transcript>, open: set<nat>, region: nat)
    requires Distinct(tranList) && forall i :: i in open ==> i < |tranList|
    modifies (set t | t in tranList)`regions
    ensures forall i :: 0 <= i < |tranList| ==>
              tranList[i].regions == old(tranList[i].regions) + (if i in open then {region} else {})
  {
    var todo := open;
    while todo != {}
      invariant todo <= open
      invariant forall i :: 0 <= i < |tranList| ==>
                  tranList[i].regions == old(tranList[i].regions) + (if i in open - todo then {region} else {})
      decreases todo
    {
      var ix :| ix in todo;
      forall i | 0 <= i < |tranList| && i != ix
        ensures tranList[i] != tranList[ix]
      {
        DistinctAt(tranList, i, ix);
      }
      tranList[ix].regions := tranList[ix].regions + {region};
      todo := todo - {ix};
    }
  }

  /** The inner loop that builds breaks: the start and end events of one transcript's exons, in exon order. */
  method ExonEvents(tranIx: nat, exons: seq<Exon>) returns (edges: seq<Event>)
    ensures edges == TranEvents(tranIx, SpansOf(exons))
  {
    ghost var sp := SpansOf(exons);
    edges := [];
    for k := 0 to |exons|
      invariant edges == TranEvents(tranIx, sp[..k])
    {
      var exon := exons[k];
      assert sp[..k + 1][..k] == sp[..k] && sp[..k + 1][k] == Span(exon.start, exon.end);
      edges := edges + [Event(exon.start, false, tranIx), Event(exon.end, true, tranIx)];
    }
    assert sp[..|exons|] == sp;
  }

  /** The loops that build breaks: for each transcript, for each exon, its start and end events. */
  method BuildEvents(tranList: seq<Transcript>) returns (breaks: seq<Event>)
    ensures breaks == Events(ExonSpans(tranList))
  {
    var spans := ExonSpans(tranList);
    breaks := [];
    for tranIx := 0 to |tranList|
      invariant breaks == Events(spans[..tranIx])
    {
      var edges := ExonEvents(tranIx, tranList[tranIx].exons);
      EventsSnoc(spans, tranIx);
      breaks := breaks + edges;
    }
    assert spans[..|tranList|] == spans;
  }

  /**
   * The region-closing part of the sweep loop of findRegions: a jump of
   * more than MIN_REGION_SIZE tags the open transcripts (if there are any),
   * advances the counter and moves curPos. Each transcript's regions set
   * stays its original set orig[i] plus its tags.
   */
  method AdvanceTo(tranList: seq<Transcript>, posit: int, curPos: int, curTranSet: set<nat>, region: nat,
                   ghost tags: seq<set<nat>>, ghost orig: seq<set<nat>>)
    returns (curPos': int, region': nat, ghost tags': seq<set<nat>>)
    requires Distinct(tranList) && |tags| == |tranList| == |orig|
    requires forall i :: i in curTranSet ==> i < |tranList|
    requires forall i :: 0 <= i < |tranList| ==> tranList[i].regions == orig[i] + tags[i]
    modifies (set t | t in tranList)`regions
    ensures Advance(SweepState(curPos, curTranSet, region, tags), posit) == SweepState(curPos', curTranSet, region', tags')
    ensures forall i :: 0 <= i < |tranList| ==> tranList[i].regions == orig[i] + tags'[i]
  {
    curPos', region', tags' := curPos, region, tags;
    if posit > curPos + MIN_REGION_SIZE {       // this is a new region
      if |curTranSet| > 0 {
        TagOpen(tranList, curTranSet, region);
        tags' := TagAll(tags, curTranSet, region);
        region' := region + 1;
      }
      curPos' := posit;
    }
  }

  /**
   * The sweep loop of findRegions over the sorted event list breaks, whose
   * transcript indices are all valid. With no event, reading the first one
   * fails (IndexError) and nothing changes.
   */
  method SweepEvents(tranList: seq<Transcript>, breaks: seq<Event>) returns (r: Result<nat, PyError>)
    requires Distinct(tranList) && forall k :: 0 <= k < |breaks| ==> breaks[k].tranIx < |tranList|
    modifies (set t | t in tranList)`regions
    ensures if breaks == [] then
        r == Failure(IndexError) && forall i :: 0 <= i < |tranList| ==> tranList[i].regions == old(tranList[i].regions)
      else
        var (s, ok) := FindRegionsSpec(breaks, |tranList|);
        r == (if ok then Success(s.region) else Failure(KeyError)) &&
        forall i :: 0 <= i < |tranList| ==> tranList[i].regions == old(tranList[i].regions) + s.tags[i]
  {
    if |breaks| == 0 {
      return Failure(IndexError);
    }
    var curPos := breaks[0].posit;
    var curTranSet: set<nat> := {};
    var region := 0;
    ghost var n := |tranList|;
    ghost var s0 := Start(curPos, n);
    ghost var tags := s0.tags;
    ghost var orig := seq(n, i requires 0 <= i < n reads tranList => tranList[i].regions);

    for ix := 0 to |breaks|
      invariant Run(s0, breaks[..ix]) == (SweepState(curPos, curTranSet, region, tags), true)
      invariant |tags| == n && forall i :: i in curTranSet ==> i < n
      invariant forall i :: 0 <= i < n ==> tranList[i].regions == orig[i] + tags[i]
    {
      assert breaks[..ix + 1][..ix] == breaks[..ix];
      var posit, isEnd, tranIx := breaks[ix].posit, breaks[ix].isEnd, breaks[ix].tranIx;
      ghost var before := SweepState(curPos, curTranSet, region, tags);
      curPos, region, tags := AdvanceTo(tranList, posit, curPos, curTranSet, region, tags, orig);
      if !isEnd {                                // exon start
        curTranSet := curTranSet + {tranIx};
      } else if tranIx in curTranSet {           // exon end
        curTranSet := curTranSet - {tranIx};
      } else {
        assert Tick(before, breaks[ix]) == (SweepState(curPos, curTranSet, region, tags), false);
        RunStopsAtFailure(s0, breaks, ix + 1);
        return Failure(KeyError);
      }
      assert Tick(before, breaks[ix]) == (SweepState(curPos, curTranSet, region, tags), true);
    }
    assert breaks[..|breaks|] == breaks;
    return Success(region);
  }

  /**
   * findRegions. With no exon at all, reading the first event fails
   * (IndexError) and nothing changes. Otherwise the transcripts gain exactly
   * the region ids the sweep of the stably sorted events hands them; a close
   * of a transcript that is not open fails (KeyError), leaving the tags
   * written so far. On success the result is the final region counter.
   */
  method FindRegions(tranList: seq<Transcript>) returns (r: Result<nat, PyError>)
    requires Distinct(tranList)
    modifies (set t | t in tranList)`regions
    ensures var evs := SortByPos(Events(old(ExonSpans(tranList))));
      if evs == [] then
        r == Failure(IndexError) && forall i :: 0 <= i < |tranList| ==> tranList[i].regions == old(tranList[i].regions)
      else
        var (s, ok) := FindRegionsSpec(evs, |tranList|);
        r == (if ok then Success(s.region) else Failure(KeyError)) &&
        forall i :: 0 <= i < |tranList| ==> tranList[i].regions == old(tranList[i].regions) + s.tags[i]
  {
    ghost var spans := ExonSpans(tranList);
    var breaks := BuildEvents(tranList);
    breaks := SortByPos(breaks);               // list.sort(key=position): stable
    SortedEventsInRange(spans);
    r := SweepEvents(tranList, breaks);
  }
}
