/** The pause gate makes progress: what each poll and each run must do. */
module PauseProgress {
  // The safety results say what may happen at most. Here a live request with its waiting
  // acknowledgement is adopted, cohorts that enter park, an idle poll then reports ready,
  // the ending acknowledgement releases, and the token is published once all have woken.

  import opened Results
  import opened PauseGate

  /** The acknowledgement answers this worker and this token, and is no older than the request. */
  predicate Answers(w: Worker, ack: Payload, token: string, since: int)
  {
    && ack.schemaVersion == Present(1) && ack.protocol == Present("coordinator-pause-v1") && ack.token == Present(token)
    && ack.gpuId == Present(w.gpuId) && ack.targetWorker == Present(w.name) && ack.targetPid == Present(w.pid)
    && ack.ackNs.Present? && since <= ack.ackNs.value
  }

  predicate SaysOver(ack: Payload)
  {
    ack.state == Present("released") || ack.state == Present("recovered") || ack.state == Present("draining")
  }

  /** The request is for this worker's GPU and run, and its owner's heartbeat is recent. */
  predicate Asks(w: Worker, request: Payload, now: int, l: Lease)
  {
    && request.schemaVersion == Present(1) && request.protocol == Present("coordinator-pause-v1") && request.gpuId == Present(w.gpuId)
    && (request.state == Present("requested") || request.state == Present("active"))
    && request.token == Present(l.token) && 8 <= |l.token| <= 128
    && request.pid == Present(l.ownerPid) && l.ownerPid > 0 && request.requestedNs == Present(l.requestedNs) && l.requestedNs > 0
    && request.heartbeatNs.Present? && l.requestedNs <= request.heartbeatNs.value
    && request.heartbeatNs.value <= now <= request.heartbeatNs.value + w.staleNs
    && (request.runId.Absent? || request.runId == Present(w.runId)) && (request.family.Absent? || request.family == Present(w.family))
  }

  predicate Open(s: System) { !s.gate.closed && s.gate.lease.None? && s.gate.releasing.None? }

  /** A poll of an open gate holds a lease afterwards exactly when that lease is asked for and awaited. */
  lemma AdoptsExactly(w: Worker, s: System, i: Inputs, l: Lease)
    requires Inv(s) && Open(s) && !i.stopAtStart
    ensures Step(w, s, PollNow(i)).gate.lease == Some(l) <==>
      Asks(w, i.request, i.now, l) && i.ack.state == Present("waiting") && Answers(w, i.ack, l.token, l.requestedNs)
  {
  }

  /** A poll that holds a lease ends it exactly when its acknowledgement says so. */
  lemma EndsExactly(w: Worker, s: System, i: Inputs, l: Lease)
    requires Inv(s) && s.gate.lease == Some(l) && !i.stopAtStart
    ensures var after := Step(w, s, PollNow(i));
      if SaysOver(i.ack) && Answers(w, i.ack, l.token, l.requestedNs)
      then after.gate.lease.None? && after.gate.releasing == Some(l) && Report(w, s, PollNow(i)) == Resuming(Some(l.token), s.gate.lastResumed)
      else after.gate.lease == Some(l)
    ensures Step(w, s, PollNow(i)).waiting == s.waiting
  {
  }

  /** A recent cancellation of a lease that nobody holds is confirmed at once, and nothing else is. */
  lemma ConfirmsExactly(w: Worker, s: System, i: Inputs, token: string)
    requires Inv(s) && Open(s) && !i.stopAtStart
    ensures s.gate.lastResumed != Some(token) ==>
      (Step(w, s, PollNow(i)).gate.lastResumed == Some(token) <==>
        && SaysOver(i.ack) && 8 <= |token| <= 128 && i.ack.ackNs.Present? && i.ack.ackNs.value > 0
        && Answers(w, i.ack, token, i.ack.ackNs.value) && i.ack.ackNs.value <= i.now <= i.ack.ackNs.value + w.staleNs
        && (i.ack.runId.Absent? || i.ack.runId == Present(w.runId)) && (i.ack.family.Absent? || i.ack.family == Present(w.family)))
  {
  }

  /** With every live cohort parked and inference idle a poll reports ready, for the lease it holds. */
  lemma ReadyWhenParked(w: Worker, s: System, i: Inputs, l: Lease)
    requires Inv(s) && s.gate.lease == Some(l) && s.waiting == s.gate.live != {}
    requires i.idle && !i.stopAtStart && !i.stopAtEnd && !(SaysOver(i.ack) && Answers(w, i.ack, l.token, l.requestedNs))
    ensures Report(w, s, PollNow(i)) == Quiescing(l.token, l.ownerPid, l.requestedNs, true, true, true, s.gate.live, {})
  {
    EndsExactly(w, s, i, l);
    hide MatchingAck, EndsLease, Answers, SaysOver;
    assert s.gate.live - s.gate.parked == {};
  }

  /** A cohort comes by or finishes, without a stop. */
  predicate Quiet(e: Event)
  {
    match e
    case Enter(_, stop) => !stop
    case Wake(_, stop) => !stop
    case Finish(_) => true
    case PollNow(_) => false
    case Close => false
  }

  /** Some event of the run is the cohort coming to its checkpoint or finishing. */
  predicate Settles(events: seq<Event>, cohort: int)
  {
    exists i :: 0 <= i < |events| && (events[i] == Enter(cohort, false) || events[i] == Finish(cohort))
  }

  lemma SettlesOneMore(events: seq<Event>, c: int)
    requires events != []
    ensures var k := |events| - 1; Settles(events, c) <==> Settles(events[..k], c) || events[k] == Enter(c, false) || events[k] == Finish(c)
  {
    var k := |events| - 1;
    if i :| 0 <= i < k && (events[i] == Enter(c, false) || events[i] == Finish(c)) { assert events[..k][i] == events[i]; }
  }

  predicate IsSettled(s: System, c: int) { c in s.gate.live ==> c in s.waiting }

  lemma QuietStep(w: Worker, s: System, e: Event, l: Lease)
    requires Inv(s) && s.gate.lease == Some(l) && Quiet(e)
    ensures var after := Step(w, s, e);
      && after.gate.lease == Some(l) && after.gate.live <= s.gate.live
      && (forall c :: IsSettled(s, c) ==> IsSettled(after, c))
      && (e.Enter? || e.Finish? ==> IsSettled(after, e.cohort))
      && (forall c :: c in s.gate.live && c !in after.gate.live ==> e == Finish(c))
  {
  }

  /** Under a lease every live cohort that comes to its checkpoint parks there; those that finish are no longer live. */
  lemma {:induction false} CohortsPark(w: Worker, s: System, events: seq<Event>, l: Lease)
    requires Inv(s) && s.gate.lease == Some(l) && forall i :: 0 <= i < |events| ==> Quiet(events[i])
    ensures var after := Run(w, s, events);
      && Inv(after) && after.gate.lease == Some(l) && after.gate.live <= s.gate.live
      && (forall c :: c in s.gate.live && (c in s.waiting || Settles(events, c)) ==> IsSettled(after, c))
      && (forall c :: c in s.gate.live && c !in after.gate.live ==> Finish(c) in events)
  {
    hide Step, Inv, Quiet, IsSettled;
    if events == [] {
      NothingSettles(s);
    } else {
      var k := |events| - 1;
      CohortsPark(w, s, events[..k], l);
      assert events == events[..k] + [events[k]];
      assert Quiet(events[k]);
      QuietStep(w, Run(w, s, events[..k]), events[k], l);
      StepKeepsInv(w, Run(w, s, events[..k]), events[k]);
      forall c | c in s.gate.live && (c in s.waiting || Settles(events, c))
        ensures IsSettled(Run(w, s, events), c)
      {
        SettlesOneMore(events, c);
      }
    }
  }

  lemma NothingSettles(s: System)
    ensures forall c :: !Settles([], c)
    ensures forall c :: c in s.waiting ==> IsSettled(s, c)
  {
  }

  /**
   The way to the GPU: once a lease is held, and each live cohort has come to its checkpoint
   or finished, with one at least left, the next idle poll reports ready.
   */
  lemma PauseIsReached(w: Worker, s: System, events: seq<Event>, l: Lease, i: Inputs)
    requires Inv(s) && s.gate.lease == Some(l) && forall k :: 0 <= k < |events| ==> Quiet(events[k])
    requires forall c :: c in s.gate.live ==> c in s.waiting || Settles(events, c)
    requires exists c :: c in s.gate.live && Finish(c) !in events
    requires i.idle && !i.stopAtStart && !i.stopAtEnd && !(SaysOver(i.ack) && Answers(w, i.ack, l.token, l.requestedNs))
    ensures var d := Report(w, Run(w, s, events), PollNow(i));
      d.Quiescing? && d.ready && d.token == l.token && d.ownerPid == l.ownerPid && d.unparked == {}
  {
    CohortsPark(w, s, events, l);
    var after := Run(w, s, events);
    hide Run, Settles, Quiet, Answers, SaysOver;
    var c :| c in s.gate.live && Finish(c) !in events;
    assert c in after.gate.live;
    forall x | x in after.gate.live ensures x in after.waiting { assert IsSettled(after, x); }
    assert after.waiting == after.gate.live by { WaitingIsLive(after); }
    ReadyWhenParked(w, after, i, l);
  }

  lemma WaitingIsLive(s: System)
    requires Inv(s)
    ensures s.waiting <= s.gate.live
  {
  }

  /**
   And back: a poll that reads the ending acknowledgement gives the lease up, everyone who
   wakes leaves, and once all have woken the next poll publishes the token.
   */
  lemma ReleaseIsReached(w: Worker, s: System, ending: Inputs, events: seq<Event>, l: Lease, i: Inputs)
    requires Inv(s) && s.gate.lease == Some(l) && !ending.stopAtStart && SaysOver(ending.ack) && Answers(w, ending.ack, l.token, l.requestedNs)
    requires (forall k :: 0 <= k < |events| ==> !events[k].Close? && !events[k].PollNow?) && !i.stopAtStart
    requires forall c :: c in s.waiting ==> Wakes(events, c)
    ensures var after := Run(w, Step(w, s, PollNow(ending)), events);
      && after.waiting == {} && after.gate.lease.None?
      && Report(w, after, PollNow(i)) == Resuming(None, Some(l.token))
  {
    EndsExactly(w, s, ending, l);
    StepKeepsInv(w, s, PollNow(ending));
    var released := Step(w, s, PollNow(ending));
    hide Step, Answers, SaysOver, Report, Wakes;
    ReleaseCompletes(w, released, events, l);
    PollAfterRelease(w, released, events, l, i);
    NobodyWaits(w, released, events);
    HeldOrReleased(Run(w, released, events));
  }

  lemma NobodyWaits(w: Worker, s: System, events: seq<Event>)
    requires var after := Run(w, s, events); after.waiting <= s.waiting && forall c :: c in after.waiting ==> !Wakes(events, c)
    requires forall c :: c in s.waiting ==> Wakes(events, c)
    ensures Run(w, s, events).waiting == {}
  {
    var after := Run(w, s, events);
    hide Run, Wakes;
    forall c ensures c !in after.waiting { assert c in after.waiting ==> c in s.waiting; }
  }

  lemma HeldOrReleased(s: System)
    requires Inv(s) && s.gate.releasing.Some?
    ensures s.gate.lease.None?
  {
  }

  /** Until then a poll names the lease and the cohorts that are still missing, and does not report ready. */
  lemma MissingAreNamed(w: Worker, s: System, i: Inputs, l: Lease)
    requires Inv(s) && s.gate.lease == Some(l) && !i.stopAtStart && !(SaysOver(i.ack) && Answers(w, i.ack, l.token, l.requestedNs))
    ensures var d := Report(w, s, PollNow(i));
      && d.Quiescing? && d.token == l.token && d.ownerPid == l.ownerPid && d.requestedNs == l.requestedNs
      && d.parked == s.waiting && d.unparked == s.gate.live - s.waiting
      && (d.ready <==> s.waiting == s.gate.live != {} && i.idle && !i.stopAtEnd)
  {
    EndsExactly(w, s, i, l);
    hide MatchingAck, EndsLease, Answers, SaysOver;
  }

  /** A stop frees the cohort that sees it, and a poll that sees it closes the gate for good. */
  lemma StopFrees(w: Worker, s: System, c: int, i: Inputs)
    requires Inv(s) && i.stopAtStart
    ensures c !in Step(w, s, Wake(c, true)).waiting
    ensures Step(w, s, PollNow(i)).gate.closed && Step(w, s, Close).gate.closed && Report(w, s, PollNow(i)) == Nothing
  {
  }

  /** Synchronize runs in exactly those polls that find everyone parked and idle for the first time since somebody moved. */
  lemma SynchronizesExactly(w: Worker, s: System, i: Inputs)
    requires Inv(s)
    ensures var after := Step(w, s, PollNow(i));
      RunsSynchronize(w, s.gate, PollNow(i)) <==>
        after.gate.lease.Some? && s.waiting == s.gate.live != {} && i.idle && !s.gate.synchronized
    ensures forall c :: !Step(w, s, Finish(c)).gate.synchronized || c in s.waiting
  {
    hide RequestedLease, UnadoptedRelease, MatchingAck, EndsLease;
  }

  /** A gate starts open, and without a lease a poll reports nothing but the token resumed last. */
  lemma OpenReports(w: Worker, s: System, i: Inputs, cohorts: set<int>)
    requires Inv(s) && Open(s) && !i.stopAtStart
    ensures Inv(Start(cohorts)) && Open(Start(cohorts)) && Start(cohorts).waiting == {} && Start(cohorts).gate.live == cohorts
    ensures var after := Step(w, s, PollNow(i));
      after.gate.lease.None? ==>
        Report(w, s, PollNow(i)) == if after.gate.lastResumed.Some? then Resuming(None, after.gate.lastResumed) else Nothing
  {
    hide UnadoptedRelease, MatchingAck;
  }
}
