/**
 Rate-limited publication of durable sample counters. Each record carries the
 increments since the record before. Over any run they add up to what was counted,
 also for the one counter that the no-change guard does not look at, as long as no
 report moves that counter alone.
 */
module Publication {
  import opened Results

  datatype Counters = Counters(games: int, samples: int, policyOnly: int, policyFirst: int, enriched: int, written: int)

  const ZERO := Counters(0, 0, 0, 0, 0, 0)

  function Minus(a: Counters, b: Counters): Counters
  {
    Counters(a.games - b.games, a.samples - b.samples, a.policyOnly - b.policyOnly,
             a.policyFirst - b.policyFirst, a.enriched - b.enriched, a.written - b.written)
  }

  function Plus(a: Counters, b: Counters): Counters
  {
    Counters(a.games + b.games, a.samples + b.samples, a.policyOnly + b.policyOnly,
             a.policyFirst + b.policyFirst, a.enriched + b.enriched, a.written + b.written)
  }

  /** The sums of the published increments. */
  function Sum(records: seq<Counters>): Counters
  {
    if records == [] then ZERO else Plus(Sum(records[..|records|-1]), records[|records|-1])
  }

  predicate AtMost(a: Counters, b: Counters)
  {
    a.games <= b.games && a.samples <= b.samples && a.policyOnly <= b.policyOnly
    && a.policyFirst <= b.policyFirst && a.enriched <= b.enriched && a.written <= b.written
  }

  /** A durable report; absent fields fall back to others. */
  datatype Report = Report(games: int, samples: int, retained: Option<int>, salvaged: Option<int>,
                           policyPublished: Option<int>, enriched: Option<int>, written: Option<int>)

  function Or(o: Option<int>, fallback: int): int { if o.Some? then o.value else fallback }

  /** The counters a report stands for. */
  function Read(r: Report, c: Counters): Counters
  {
    var policyOnly := Or(r.retained, Or(r.salvaged, c.policyOnly));
    Counters(r.games, r.samples, policyOnly, Or(r.policyPublished, policyOnly), Or(r.enriched, c.enriched), Or(r.written, r.samples))
  }

  predicate Acceptable(r: Report, c: Counters)
  {
    var n := Read(r, c);
    && c.games <= n.games && c.samples <= n.samples && c.policyOnly <= n.policyOnly <= n.samples
    && (r.retained.None? ==> n.policyOnly - c.policyOnly <= n.samples - c.samples)
    && c.policyFirst <= n.policyFirst && c.enriched <= n.enriched && c.written <= n.written
    && 0 <= n.enriched <= n.policyFirst <= n.samples <= n.written
    && n.policyOnly <= n.policyFirst - n.enriched
  }

  datatype State = State(counters: Counters, emitted: Counters, lastEmit: Option<real>, records: seq<Counters>)

  /** The guard compares five of the six counters. */
  predicate SameCompared(a: Counters, b: Counters)
  {
    a.games == b.games && a.samples == b.samples && a.enriched == b.enriched && a.written == b.written && a.policyOnly == b.policyOnly
  }

  predicate Unchanged(s: State) { SameCompared(s.counters, s.emitted) }

  function Flushed(s: State, now: real, force: bool, interval: real): State
  {
    if Unchanged(s) then s
    else if !force && s.lastEmit.Some? && now - s.lastEmit.value < interval then s
    else State(s.counters, s.counters, Some(now), s.records + [Minus(s.counters, s.emitted)])
  }

  function Progressed(s: State, r: Report, now: real, interval: real): State
    requires Acceptable(r, s.counters)
  {
    Flushed(s.(counters := Read(r, s.counters)), now, false, interval)
  }

  // Which reports are accepted.

  /** Totals that can be true together. */
  predicate Consistent(n: Counters)
  {
    0 <= n.enriched <= n.policyFirst <= n.samples <= n.written && n.policyOnly <= n.samples && n.policyOnly <= n.policyFirst - n.enriched
  }

  predicate IsFull(r: Report) { r.retained.Some? && r.policyPublished.Some? && r.enriched.Some? && r.written.Some? }

  function Totals(r: Report): Counters
    requires IsFull(r)
  {
    Counters(r.games, r.samples, r.retained.value, r.policyPublished.value, r.enriched.value, r.written.value)
  }

  /** A full report is accepted exactly when its totals are consistent and none is less than before, and then it is what is counted. */
  lemma FullReportsAreCounted(r: Report, c: Counters)
    requires IsFull(r)
    ensures Acceptable(r, c) <==> Consistent(Totals(r)) && AtMost(c, Totals(r))
    ensures Read(r, c) == Totals(r)
  {
  }

  /** The same report with nothing left out: what is missing stands as it was, or equals what it cannot fall short of. */
  function Completed(r: Report, c: Counters): Report
  {
    var policyOnly := if r.retained.Some? then r.retained.value else if r.salvaged.Some? then r.salvaged.value else c.policyOnly;
    Report(r.games, r.samples, Some(policyOnly), None,
           Some(if r.policyPublished.Some? then r.policyPublished.value else policyOnly),
           Some(if r.enriched.Some? then r.enriched.value else c.enriched),
           Some(if r.written.Some? then r.written.value else r.samples))
  }

  /** Any report is accepted like its completion, except that salvaged rows must be among the new samples. */
  lemma PartialReportsAreCompleted(r: Report, c: Counters)
    ensures var full := Completed(r, c);
      && Read(r, c) == Read(full, c)
      && (Acceptable(r, c) <==>
            Acceptable(full, c) && (r.retained.None? && r.salvaged.Some? ==> r.salvaged.value - c.policyOnly <= r.samples - c.samples))
  {
  }

  class PublicationProgress {
    const interval: real
    var counters: Counters
    var emitted: Counters
    var lastEmit: Option<real>
    var records: seq<Counters>

    function Contents(): State
      reads this
    {
      State(counters, emitted, lastEmit, records)
    }

    constructor (interval: real)
      ensures this.interval == interval && Contents() == State(ZERO, ZERO, None, [])
    {
      this.interval := interval;
      counters, emitted, lastEmit, records := ZERO, ZERO, None, [];
    }

    method Progress(r: Report, now: real) returns (ok: bool)
      modifies this
      ensures ok <==> Acceptable(r, old(counters))
      ensures Contents() == if ok then Progressed(old(Contents()), r, now, interval) else old(Contents())
    {
      if !Acceptable(r, counters) {
        return false;
      }
      counters := Read(r, counters);
      Flush(now, false);
      return true;
    }

    method Flush(now: real, force: bool)
      modifies this
      ensures Contents() == Flushed(old(Contents()), now, force, interval)
    {
      if Unchanged(Contents()) {
        return;
      }
      if !force && lastEmit.Some? && now - lastEmit.value < interval {
        return;
      }
      records := records + [Minus(counters, emitted)];
      emitted := counters;
      lastEmit := Some(now);
    }

    method Finish(now: real)
      modifies this
      ensures Contents() == Flushed(old(Contents()), now, true, interval)
    {
      Flush(now, true);
    }
  }

  // Runs of reports.

  datatype Event = Event(report: Report, now: real)

  /** Reports that would move a counter backwards are refused. */
  function Run(s: State, events: seq<Event>, interval: real): State
  {
    if events == [] then s
    else
      var before, e := Run(s, events[..|events|-1], interval), events[|events|-1];
      if Acceptable(e.report, before.counters) then Progressed(before, e.report, e.now, interval) else before
  }

  predicate Inv(s: State)
  {
    && Sum(s.records) == s.emitted && AtMost(s.emitted, s.counters) && AtMost(ZERO, s.counters)
    && s.counters.enriched <= s.counters.policyFirst <= s.counters.samples <= s.counters.written
    && s.counters.policyOnly <= s.counters.policyFirst - s.counters.enriched
  }

  lemma FlushKeepsInv(s: State, now: real, force: bool, interval: real)
    requires Inv(s)
    ensures Inv(Flushed(s, now, force, interval))
  {
    var d := Minus(s.counters, s.emitted);
    assert (s.records + [d])[..|s.records|] == s.records;
  }

  lemma {:induction false} RunKeepsInv(s: State, events: seq<Event>, interval: real)
    requires Inv(s)
    ensures Inv(Run(s, events, interval)) && AtMost(s.counters, Run(s, events, interval).counters)
  {
    if events != [] {
      var k := |events| - 1;
      var before := Run(s, events[..k], interval);
      RunKeepsInv(s, events[..k], interval);
      if Acceptable(events[k].report, before.counters) {
        FlushKeepsInv(before.(counters := Read(events[k].report, before.counters)), events[k].now, false, interval);
      }
    }
  }

  function Start(): State { State(ZERO, ZERO, None, []) }

  /**
   After a run and its finish, the published increments of every compared counter add up
   to its final value. Those of the policy-first counter do so exactly when it has not
   moved since the last record, or another counter has.
   */
  lemma PublishedTotals(events: seq<Event>, now: real, interval: real)
    ensures var s := Run(Start(), events, interval);
      var sum := Sum(Flushed(s, now, true, interval).records);
      && sum.games == s.counters.games && sum.samples == s.counters.samples && sum.policyOnly == s.counters.policyOnly
      && sum.enriched == s.counters.enriched && sum.written == s.counters.written
      && (sum.policyFirst == s.counters.policyFirst <==> (!Unchanged(s) || s.counters.policyFirst == s.emitted.policyFirst))
  {
    RunKeepsInv(Start(), events, interval);
    FlushKeepsInv(Run(Start(), events, interval), now, true, interval);
  }

  // What the reports alone decide.

  /** The counters after the reports, whatever was published when. */
  function Count(events: seq<Event>): Counters
  {
    if events == [] then ZERO
    else
      var before, r := Count(events[..|events|-1]), events[|events|-1].report;
      if Acceptable(r, before) then Read(r, before) else before
  }

  lemma {:induction false} RunCounts(events: seq<Event>, interval: real)
    ensures Run(Start(), events, interval).counters == Count(events)
  {
    hide Acceptable, Read;
    if events != [] {
      RunCounts(events[..|events|-1], interval);
    }
  }

  lemma {:induction false} CountGrows(events: seq<Event>, k: nat)
    requires k <= |events|
    ensures AtMost(Count(events[..k]), Count(events))
  {
    var m := |events| - 1;
    if k <= m {
      CountGrows(events[..m], k);
      assert events[..m][..k] == events[..k];
    } else {
      assert events[..k] == events;
    }
  }

  /** The last moves of the policy-first counter come without a move of any compared counter. */
  ghost predicate MovesLate(events: seq<Event>)
  {
    exists k :: 0 <= k <= |events| && IsLate(events, k)
  }

  ghost predicate IsLate(events: seq<Event>, k: nat)
    requires k <= |events|
  {
    var c := Count(events[..k]);
    SameCompared(c, Count(events)) && c.policyFirst != Count(events).policyFirst
  }

  /** Every accepted report that moves the policy-first counter also moves the sample counter. */
  ghost predicate MovesWithSamples(events: seq<Event>)
  {
    forall k :: 0 <= k < |events| ==> MovesTogether(Count(events[..k]), events[k].report)
  }

  predicate MovesTogether(c: Counters, r: Report)
  {
    Acceptable(r, c) && Read(r, c).policyFirst != c.policyFirst ==> Read(r, c).samples != c.samples
  }

  lemma LastReport(events: seq<Event>)
    requires events != []
    ensures var before, r := Count(events[..|events|-1]), events[|events|-1].report;
      && AtMost(before, Count(events))
      && (MovesTogether(before, r) && before.policyFirst != Count(events).policyFirst ==> before.samples != Count(events).samples)
  {
  }

  lemma {:induction false} TogetherIsNotLate(events: seq<Event>, k: nat)
    requires MovesWithSamples(events) && k <= |events|
    ensures !IsLate(events, k)
  {
    hide Count, MovesTogether;
    var m := |events| - 1;
    if k <= m {
      assert forall j :: 0 <= j < m ==> events[..m][..j] == events[..j];
      assert events[..m][..k] == events[..k];
      assert MovesTogether(Count(events[..m]), events[m].report);
      LastReport(events);
      CountGrows(events[..m], k);
      TogetherIsNotLate(events[..m], k);
    } else {
      assert events[..k] == events;
    }
  }

  /** What was published last is what was counted after some of the reports. */
  ghost predicate PublishedAfter(events: seq<Event>, interval: real, k: nat)
  {
    k <= |events| && Run(Start(), events, interval).emitted == Count(events[..k])
  }

  lemma {:induction false} PublishedAfterSome(events: seq<Event>, interval: real) returns (k: nat)
    ensures PublishedAfter(events, interval, k)
  {
    if events == [] {
      return 0;
    }
    var m := |events| - 1;
    RunCounts(events, interval);
    RunCounts(events[..m], interval);
    assert events[..|events|] == events;
    if Run(Start(), events, interval).emitted == Count(events) {
      return |events|;
    }
    k := PublishedAfterSome(events[..m], interval);
    assert events[..m][..k] == events[..k];
  }

  /**
   After the finish all six totals are complete, at every pace of publication, unless the
   policy-first counter moves late. It never does where every report that moves it also
   moves the sample counter.
   */
  lemma TotalsAreComplete(events: seq<Event>, now: real, interval: real)
    ensures var final := Flushed(Run(Start(), events, interval), now, true, interval);
      (!MovesLate(events) ==> Sum(final.records) == final.counters == Count(events))
    ensures MovesWithSamples(events) ==> !MovesLate(events)
  {
    var s := Run(Start(), events, interval);
    RunCounts(events, interval);
    RunKeepsInv(Start(), events, interval);
    FlushKeepsInv(s, now, true, interval);
    var k := PublishedAfterSome(events, interval);
    assert Unchanged(s) && s.emitted.policyFirst != s.counters.policyFirst ==> IsLate(events, k);
    if MovesWithSamples(events) {
      forall j | 0 <= j <= |events| ensures !IsLate(events, j) { TogetherIsNotLate(events, j); }
    }
  }

  /** Publication without a rate limit: no clock runs backwards and no interval is waited for. */
  ghost predicate Prompt(events: seq<Event>, interval: real)
  {
    interval <= 0.0 && forall i, j :: 0 <= i < j < |events| ==> events[i].now <= events[j].now
  }

  /** Then what was published is from the first time the compared counters were what they are now. */
  ghost predicate PublishedFirst(s: State, events: seq<Event>)
  {
    && Unchanged(s)
    && (s.lastEmit.Some? ==> events != [] && s.lastEmit.value <= events[|events|-1].now)
    && forall k :: 0 <= k <= |events| && SameCompared(Count(events[..k]), s.counters) ==> s.emitted.policyFirst <= Count(events[..k]).policyFirst
  }

  /** One report: either the compared counters stay and nothing is published, or all is. */
  lemma PromptStep(s: State, e: Event, interval: real)
    requires Unchanged(s) && interval <= 0.0 && (s.lastEmit.Some? ==> s.lastEmit.value <= e.now)
    ensures var next := if Acceptable(e.report, s.counters) then Progressed(s, e.report, e.now, interval) else s;
      && AtMost(s.counters, next.counters)
      && (next.lastEmit.Some? ==> next.lastEmit.value <= e.now)
      && (if SameCompared(s.counters, next.counters) then next.emitted == s.emitted else next.emitted == next.counters)
  {
    hide Minus;
  }

  lemma MarksAreBelow(events: seq<Event>, interval: real)
    ensures var s := Run(Start(), events, interval); s.emitted.policyFirst <= s.counters.policyFirst
  {
    RunKeepsInv(Start(), events, interval);
  }

  lemma {:induction false} PromptPublishes(events: seq<Event>, interval: real)
    requires Prompt(events, interval)
    ensures PublishedFirst(Run(Start(), events, interval), events)
  {
    hide Acceptable, Progressed, Count, Inv;
    RunCounts(events, interval);
    assert events[..|events|] == events;
    if events != [] {
      var m := |events| - 1;
      RunCounts(events[..m], interval);
      PromptPublishes(events[..m], interval);
      var before, s := Run(Start(), events[..m], interval), Run(Start(), events, interval);
      assert before.lastEmit.Some? ==> before.lastEmit.value <= events[m].now;
      PromptStep(before, events[m], interval);
      MarksAreBelow(events, interval);
      forall k | 0 <= k <= |events| && SameCompared(Count(events[..k]), s.counters)
        ensures s.emitted.policyFirst <= Count(events[..k]).policyFirst
      {
        if k <= m {
          assert events[..m][..k] == events[..k];
          CountGrows(events[..m], k);
        }
      }
    }
  }

  /** So without a rate limit the policy-first total is complete exactly when that counter does not move late. */
  lemma PromptTotals(events: seq<Event>, now: real, interval: real)
    requires Prompt(events, interval)
    ensures var final := Flushed(Run(Start(), events, interval), now, true, interval);
      Sum(final.records).policyFirst == Count(events).policyFirst <==> !MovesLate(events)
  {
    TotalsAreComplete(events, now, interval);
    PromptPublishes(events, interval);
    RunCounts(events, interval);
    RunKeepsInv(Start(), events, interval);
    if k :| 0 <= k <= |events| && IsLate(events, k) {
      CountGrows(events, k);
    }
  }

  /** A run in which the last policy-first sample is never published. */
  lemma PolicyFirstCanBeMissed()
    ensures var events := [Event(Report(1, 10, None, None, Some(4), None, None), 0.0),
                           Event(Report(1, 10, None, None, Some(5), None, None), 9.0)];
      var s := Run(Start(), events, 1.0);
      s.counters.policyFirst == 5 && Sum(Flushed(s, 10.0, true, 1.0).records).policyFirst == 4
  {
    var first := Event(Report(1, 10, None, None, Some(4), None, None), 0.0);
    var second := Event(Report(1, 10, None, None, Some(5), None, None), 9.0);
    var d := Counters(1, 10, 0, 4, 0, 10);
    FirstIsPublished(first.report, d);
    SecondIsNot(second.report, d, Counters(1, 10, 0, 5, 0, 10));
    SumOfOne(d);
    hide Progressed, Flushed, Acceptable;
    TwoEvents(Start(), first, second, 1.0);
  }

  lemma TwoEvents(s: State, first: Event, second: Event, interval: real)
    requires Acceptable(first.report, s.counters)
    requires Acceptable(second.report, Progressed(s, first.report, first.now, interval).counters)
    ensures Run(s, [first, second], interval)
      == Progressed(Progressed(s, first.report, first.now, interval), second.report, second.now, interval)
  {
    hide Progressed, Acceptable;
    assert [first, second][..1] == [first] && [first][..0] == [];
    assert Run(s, [], interval) == s;
    assert Run(s, [first], interval) == Progressed(s, first.report, first.now, interval);
  }

  /** One game of ten samples, this many of them published policy first, nothing else said. */
  predicate Reports(r: Report, policyFirst: int)
  {
    r.games == 1 && r.samples == 10 && r.retained.None? && r.salvaged.None? && r.enriched.None? && r.written.None?
    && r.policyPublished.Some? && r.policyPublished.value == policyFirst
  }

  lemma FirstIsPublished(r: Report, d: Counters)
    requires Reports(r, 4) && d == Counters(1, 10, 0, 4, 0, 10)
    ensures Acceptable(r, ZERO) && Progressed(Start(), r, 0.0, 1.0) == State(d, d, Some(0.0), [d])
  {
    assert Acceptable(r, ZERO) && Read(r, ZERO) == d;
    EmitsFirst(d);
    var s := Start();
    assert s.counters == ZERO && s.(counters := d) == State(d, ZERO, None, []);
    hide *;
    assert Progressed(s, r, 0.0, 1.0) == Flushed(s.(counters := Read(r, s.counters)), 0.0, false, 1.0) by {
      ProgressIsFlush(s, r);
    }
  }

  lemma ProgressIsFlush(s: State, r: Report)
    requires Acceptable(r, s.counters)
    ensures Progressed(s, r, 0.0, 1.0) == Flushed(s.(counters := Read(r, s.counters)), 0.0, false, 1.0)
  {
  }

  lemma SecondIsNot(q: Report, d: Counters, e: Counters)
    requires Reports(q, 5) && d == Counters(1, 10, 0, 4, 0, 10) && e == Counters(1, 10, 0, 5, 0, 10)
    ensures Acceptable(q, d) && Progressed(State(d, d, Some(0.0), [d]), q, 9.0, 1.0) == State(e, d, Some(0.0), [d])
    ensures Flushed(State(e, d, Some(0.0), [d]), 10.0, true, 1.0) == State(e, d, Some(0.0), [d])
  {
    assert Read(q, d) == e;
    assert Unchanged(State(e, d, Some(0.0), [d]));
    hide Read, Minus;
  }

  /** The first flush always emits what there is. */
  lemma EmitsFirst(d: Counters)
    requires d.games != 0
    ensures Flushed(State(d, ZERO, None, []), 0.0, false, 1.0) == State(d, d, Some(0.0), [d])
  {
    assert Minus(d, ZERO) == d;
    assert [] + [d] == [d];
  }

  lemma SumOfOne(d: Counters)
    ensures Sum([d]) == d
  {
    assert [d][..0] == [] && Sum([]) == ZERO;
    hide Sum;
    assert Plus(ZERO, d) == d;
  }
}
