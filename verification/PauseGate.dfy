/** The gate at which actors park for the GPU. */
module PauseGate {
  // Every block that the code runs under its lock is one atomic step. A run is any
  // interleaving of the steps of the producers and of the one polling thread.

  import opened Results

  datatype Lease = Lease(token: string, ownerPid: int, requestedNs: int)

  /** A field of a JSON object: missing, of an unexpected kind, or usable. */
  datatype Field<T(==)> = Absent | Malformed | Present(value: T)

  /** The coordinator's request and acknowledgement files, as the gate reads them. */
  datatype Payload = Payload(schemaVersion: Field<int>, protocol: Field<string>, token: Field<string>, gpuId: Field<int>,
                             targetWorker: Field<string>, targetPid: Field<int>, ackNs: Field<int>, state: Field<string>,
                             pid: Field<int>, requestedNs: Field<int>, heartbeatNs: Field<int>,
                             runId: Field<string>, family: Field<string>)

  /** What the gate knows about its own worker. */
  datatype Worker = Worker(gpuId: int, name: string, pid: int, runId: string, family: string, staleNs: int)

  const PROTOCOL := "coordinator-pause-v1"

  predicate Is<T(==)>(field: Field<T>, value: T) { field == Present(value) }

  /** payload.get(name, own) == own: a missing field matches. */
  predicate AgreesWith(field: Field<string>, own: string) { field.Absent? || field == Present(own) }

  predicate GoodToken(field: Field<string>)
  {
    field.Present? && 8 <= |field.value| <= 128
  }

  predicate Fresh(w: Worker, stamp: int, now: int)
  {
    0 <= now - stamp <= w.staleNs
  }

  predicate MatchingAck(w: Worker, ack: Payload, lease: Lease)
  {
    && Is(ack.schemaVersion, 1) && Is(ack.protocol, PROTOCOL) && Is(ack.token, lease.token)
    && Is(ack.gpuId, w.gpuId) && Is(ack.targetWorker, w.name) && Is(ack.targetPid, w.pid)
    && ack.ackNs.Present? && ack.ackNs.value >= lease.requestedNs
  }

  predicate EndsLease(ack: Payload)
  {
    Is(ack.state, "released") || Is(ack.state, "recovered") || Is(ack.state, "draining")
  }

  predicate LiveRequest(w: Worker, request: Payload, now: int)
  {
    && Is(request.schemaVersion, 1) && Is(request.protocol, PROTOCOL) && Is(request.gpuId, w.gpuId)
    && (Is(request.state, "requested") || Is(request.state, "active"))
    && GoodToken(request.token)
    && request.pid.Present? && request.pid.value > 0
    && request.requestedNs.Present? && request.requestedNs.value > 0
    && request.heartbeatNs.Present? && request.heartbeatNs.value >= request.requestedNs.value
    && Fresh(w, request.heartbeatNs.value, now)
    && AgreesWith(request.runId, w.runId) && AgreesWith(request.family, w.family)
  }

  function RequestedLease(w: Worker, ack: Payload, request: Payload, now: int): Option<Lease>
  {
    if !LiveRequest(w, request, now) then None
    else
      var lease := Lease(request.token.value, request.pid.value, request.requestedNs.value);
      if Is(ack.state, "waiting") && MatchingAck(w, ack, lease) then Some(lease) else None
  }

  /** A cancellation that arrived before any producer adopted the lease. */
  function UnadoptedRelease(w: Worker, ack: Payload, now: int): Option<string>
  {
    if !(EndsLease(ack) && GoodToken(ack.token) && ack.ackNs.Present? && ack.ackNs.value > 0
         && Fresh(w, ack.ackNs.value, now) && AgreesWith(ack.runId, w.runId) && AgreesWith(ack.family, w.family))
    then None
    else if MatchingAck(w, ack, Lease(ack.token.value, 0, ack.ackNs.value)) then Some(ack.token.value)
    else None
  }

  // The gate's fields, and its steps as functions on them.

  datatype Gate = Gate(live: set<int>, parked: set<int>, lease: Option<Lease>, releasing: Option<Lease>,
                       lastResumed: Option<string>, synchronized: bool, closed: bool)

  /** What a poll reports. */
  datatype Details =
    | Nothing
    | Resuming(releasing: Option<string>, lastResumed: Option<string>)
    | Quiescing(token: string, ownerPid: int, requestedNs: int, ready: bool, idle: bool, synchronized: bool,
                parked: set<int>, unparked: set<int>)

  /** A poll's inputs: the two files, the clock, and what its callbacks answer. */
  datatype Inputs = Inputs(ack: Payload, request: Payload, now: int, stopAtStart: bool, idle: bool, stopAtEnd: bool)

  datatype Polled = Polled(gate: Gate, details: Details, ranSynchronize: bool)

  function Closed(g: Gate): Gate
  {
    g.(closed := true, lease := None, releasing := None, synchronized := false)
  }

  /** The wait loop's test, and what follows until the lock is given up. */
  function Pass(g: Gate, cohort: int, stop: bool): Gate
  {
    if g.lease.Some? && !g.closed && !stop then g.(parked := g.parked + {cohort})
    else if cohort in g.parked then g.(parked := g.parked - {cohort}, synchronized := false)
    else g
  }

  /** Whether the pass ends in waiting. */
  predicate Waits(g: Gate, stop: bool) { g.lease.Some? && !g.closed && !stop }

  function Finished(g: Gate, cohort: int): Gate
  {
    g.(live := g.live - {cohort}, parked := g.parked - {cohort}, synchronized := false)
  }

  function ResumingDetails(g: Gate): Details
  {
    Resuming(if g.releasing.Some? then Some(g.releasing.value.token) else None, g.lastResumed)
  }

  function Adopt(w: Worker, g: Gate, i: Inputs): Gate
  {
    if g.lease.None? then g.(lease := RequestedLease(w, i.ack, i.request, i.now), synchronized := false) else g
  }

  /** A poll that holds a lease: release it, or measure quiescence. */
  function PollHolding(w: Worker, g: Gate, lease: Lease, i: Inputs): Polled
  {
    if MatchingAck(w, i.ack, lease) && EndsLease(i.ack) then
      var released := g.(lease := None, releasing := Some(lease), synchronized := false);
      Polled(released, ResumingDetails(released), false)
    else
      var allParked := g.live != {} && g.parked == g.live;
      var idle := allParked && i.idle;
      var runs := idle && !g.synchronized;
      var measured := if runs then g.(synchronized := true) else g;
      var ready := idle && measured.synchronized && !i.stopAtEnd;
      Polled(measured,
             Quiescing(lease.token, lease.ownerPid, lease.requestedNs, ready, idle, measured.synchronized, g.parked, g.live - g.parked),
             runs)
  }

  function Poll(w: Worker, g: Gate, i: Inputs): Polled
  {
    if g.closed || i.stopAtStart then Polled(Closed(g), Nothing, false)
    else if g.releasing.Some? then
      if g.parked != {} then Polled(g, ResumingDetails(g), false)
      else
        var resumed := g.(lastResumed := Some(g.releasing.value.token), releasing := None);
        Polled(resumed, ResumingDetails(resumed), false)
    else if g.lease.None? && UnadoptedRelease(w, i.ack, i.now).Some? then
      var resumed := g.(lastResumed := UnadoptedRelease(w, i.ack, i.now));
      Polled(resumed, ResumingDetails(resumed), false)
    else
      var adopted := Adopt(w, g, i);
      if adopted.lease.None? then
        Polled(adopted, if adopted.lastResumed.Some? then ResumingDetails(adopted) else Nothing, false)
      else PollHolding(w, adopted, adopted.lease.value, i)
  }

  /** The object itself: each method is one block that the code runs under its lock. */
  class ActorPauseGate {
    const worker: Worker
    var live: set<int>
    var parked: set<int>
    var lease: Option<Lease>
    var releasing: Option<Lease>
    var lastResumedToken: Option<string>
    var synchronized: bool
    var closed: bool

    function State(): Gate
      reads this
    {
      Gate(live, parked, lease, releasing, lastResumedToken, synchronized, closed)
    }

    constructor (worker: Worker, cohorts: seq<int>)
      ensures this.worker == worker
      ensures State() == Initial(set c | c in cohorts)
    {
      this.worker := worker;
      live := set c | c in cohorts;
      parked, lease, releasing, lastResumedToken, synchronized, closed := {}, None, None, None, false, false;
    }

    /** checkpoint, from entry or from a wake-up until it waits or returns. */
    method Checkpoint(cohort: int, entering: bool, stop: bool) returns (waits: bool)
      modifies this
      ensures entering && cohort !in old(live) ==> State() == old(State()) && !waits
      ensures !(entering && cohort !in old(live)) ==>
        State() == Pass(old(State()), cohort, stop) && waits == Waits(old(State()), stop)
    {
      waits := false;
      if entering && cohort !in live {
        return;
      }
      if lease.Some? && !closed && !stop {
        parked := parked + {cohort};
        waits := true;
      } else if cohort in parked {
        parked := parked - {cohort};
        synchronized := false;
      }
    }

    method Finish(cohort: int)
      modifies this
      ensures State() == Finished(old(State()), cohort)
    {
      live := live - {cohort};
      parked := parked - {cohort};
      synchronized := false;
    }

    method Close()
      modifies this
      ensures State() == Closed(old(State()))
    {
      closed := true;
      lease := None;
      releasing := None;
      synchronized := false;
    }

    method PollOnce(i: Inputs) returns (details: Details, ranSynchronize: bool)
      modifies this
      ensures Polled(State(), details, ranSynchronize) == Poll(worker, old(State()), i)
    {
      ranSynchronize := false;
      if closed || i.stopAtStart {
        Close();
        return Nothing, false;
      }
      if releasing.Some? {
        if parked != {} {
          return ResumingDetails(State()), false;
        }
        lastResumedToken := Some(releasing.value.token);
        releasing := None;
        return ResumingDetails(State()), false;
      }
      if lease.None? {
        var released := UnadoptedRelease(worker, i.ack, i.now);
        if released.Some? {
          lastResumedToken := released;
          return ResumingDetails(State()), false;
        }
        lease := RequestedLease(worker, i.ack, i.request, i.now);
        synchronized := false;
      }
      if lease.None? {
        return if lastResumedToken.Some? then ResumingDetails(State()) else Nothing, false;
      }
      var held := lease.value;
      if MatchingAck(worker, i.ack, held) && EndsLease(i.ack) {
        lease := None;
        releasing := Some(held);
        synchronized := false;
        return ResumingDetails(State()), false;
      }
      var allParked := live != {} && parked == live;
      var idle := allParked && i.idle;
      if idle && !synchronized {
        ranSynchronize := true;
        synchronized := true;
      }
      var ready := idle && synchronized && !i.stopAtEnd;
      details := Quiescing(held.token, held.ownerPid, held.requestedNs, ready, idle, synchronized, parked, live - parked);
    }
  }

  function Initial(cohorts: set<int>): Gate
  {
    Gate(cohorts, {}, None, None, None, false, false)
  }

  // Runs.

  datatype Event =
    | Enter(cohort: int, stop: bool)
    | Wake(cohort: int, stop: bool)
    | Finish(cohort: int)
    | PollNow(inputs: Inputs)
    | Close

  /**
   The gate, the cohorts inside checkpoint's wait, and when things last happened: the
   parked set changed, a lease was adopted, synchronize ran.
   */
  datatype System = System(gate: Gate, waiting: set<int>, clock: nat, parkedAt: nat, adoptedAt: nat, synchronizedAt: nat)

  /** A cohort's thread is in one place: it wakes only from waiting and calls only when it is not. */
  predicate Enabled(s: System, e: Event)
  {
    match e
    case Enter(c, _) => c !in s.waiting
    case Wake(c, _) => c in s.waiting
    case Finish(c) => c !in s.waiting
    case PollNow(_) => true
    case Close => true
  }

  function GateAfter(w: Worker, g: Gate, e: Event): Gate
  {
    match e
    case Enter(c, stop) => if c in g.live then Pass(g, c, stop) else g
    case Wake(c, stop) => Pass(g, c, stop)
    case Finish(c) => Finished(g, c)
    case PollNow(i) => Poll(w, g, i).gate
    case Close => Closed(g)
  }

  function WaitingAfter(s: System, e: Event): set<int>
  {
    match e
    case Enter(c, stop) => if c in s.gate.live && Waits(s.gate, stop) then s.waiting + {c} else s.waiting
    case Wake(c, stop) => if Waits(s.gate, stop) then s.waiting else s.waiting - {c}
    case Finish(_) => s.waiting
    case PollNow(_) => s.waiting
    case Close => s.waiting
  }

  predicate RunsSynchronize(w: Worker, g: Gate, e: Event)
  {
    e.PollNow? && Poll(w, g, e.inputs).ranSynchronize
  }

  function Step(w: Worker, s: System, e: Event): System
  {
    if !Enabled(s, e) then s
    else
      var g := GateAfter(w, s.gate, e);
      var now := s.clock + 1;
      System(g, WaitingAfter(s, e), now,
             if g.parked != s.gate.parked then now else s.parkedAt,
             if g.lease.Some? && g.lease != s.gate.lease then now else s.adoptedAt,
             if RunsSynchronize(w, s.gate, e) then now else s.synchronizedAt)
  }

  function Run(w: Worker, s: System, events: seq<Event>): System
  {
    if events == [] then s else Step(w, Run(w, s, events[..|events|-1]), events[|events|-1])
  }

  function Start(cohorts: set<int>): System { System(Initial(cohorts), {}, 0, 0, 0, 0) }

  /** What every step keeps. */
  predicate Inv(s: System)
  {
    var g := s.gate;
    && s.waiting == g.parked && g.parked <= g.live
    && !(g.lease.Some? && g.releasing.Some?)
    && (g.parked != {} ==> g.lease.Some? || g.releasing.Some? || g.closed)
    && (g.closed ==> g.lease.None? && g.releasing.None?)
    && (g.synchronized ==> g.lease.Some? && g.live != {} && g.parked == g.live)
    && (g.synchronized ==> s.parkedAt < s.synchronizedAt)
    && (g.synchronized ==> s.adoptedAt < s.synchronizedAt)
    && s.parkedAt <= s.clock && s.adoptedAt <= s.clock && s.synchronizedAt <= s.clock
  }

  lemma StepKeepsInv(w: Worker, s: System, e: Event)
    requires Inv(s)
    ensures Inv(Step(w, s, e))
  {
    hide RequestedLease, UnadoptedRelease, MatchingAck, EndsLease;
  }

  lemma {:induction false} RunKeepsInv(w: Worker, s: System, events: seq<Event>)
    requires Inv(s)
    ensures Inv(Run(w, s, events))
  {
    if events != [] {
      RunKeepsInv(w, s, events[..|events|-1]);
      StepKeepsInv(w, Run(w, s, events[..|events|-1]), events[|events|-1]);
    }
  }

  // Safety of readiness.

  /** The report a step publishes. */
  function Report(w: Worker, s: System, e: Event): Details
  {
    if e.PollNow? then Poll(w, s.gate, e.inputs).details else Nothing
  }

  predicate ReportsReady(d: Details) { d.Quiescing? && d.ready }

  /**
   Whenever a poll reports ready, in any run from the start: the gate holds exactly the
   reported lease, every live cohort is inside its wait, inference was idle, and
   synchronize ran after the last change of the parked set and after adoption.
   */
  lemma ReadyIsSafe(w: Worker, cohorts: set<int>, events: seq<Event>, e: Event)
    ensures var s := Run(w, Start(cohorts), events);
      var after := Step(w, s, e);
      var d := Report(w, s, e);
      ReportsReady(d) ==>
        && after.gate.lease == Some(Lease(d.token, d.ownerPid, d.requestedNs))
        && after.waiting == after.gate.live != {} && after.gate.parked == after.gate.live
        && e.inputs.idle && d.unparked == {}
        && after.parkedAt < after.synchronizedAt && after.adoptedAt < after.synchronizedAt
  {
    RunKeepsInv(w, Start(cohorts), events);
    var s := Run(w, Start(cohorts), events);
    StepKeepsInv(w, s, e);
    hide RequestedLease, UnadoptedRelease, MatchingAck, EndsLease, Run, Inv;
    if ReportsReady(Report(w, s, e)) {
      ReadyStep(w, s, e);
    }
  }

  lemma ReadyStep(w: Worker, s: System, e: Event)
    requires Inv(s) && ReportsReady(Report(w, s, e))
    ensures var after, d := Step(w, s, e), Report(w, s, e);
      && after.gate.synchronized && e.inputs.idle && d.unparked == {}
      && after.gate.lease == Some(Lease(d.token, d.ownerPid, d.requestedNs))
      && after.gate.parked == after.gate.live != {}
      && Inv(after)
      && after.waiting == after.gate.live
      && after.parkedAt < after.synchronizedAt && after.adoptedAt < after.synchronizedAt
  {
    StepKeepsInv(w, s, e);
    hide RequestedLease, UnadoptedRelease, MatchingAck, EndsLease;
  }

  // No cohort escapes.

  /** What may free a parked cohort: stop, close, or an acknowledgement that ends this very lease. */
  predicate Frees(w: Worker, lease: Lease, cohort: int, e: Event)
  {
    match e
    case Enter(_, _) => false
    case Wake(who, stop) => stop && who == cohort
    case Finish(_) => false
    case PollNow(i) => i.stopAtStart || (MatchingAck(w, i.ack, lease) && EndsLease(i.ack))
    case Close => true
  }

  /** The lease is held and the cohort is in its wait. */
  predicate Held(s: System, lease: Lease, cohort: int)
  {
    s.gate.lease == Some(lease) && cohort in s.waiting
  }

  /**
   As long as nothing frees it, a cohort that has parked under a lease stays parked, and the
   lease stays. The request file may vanish, change or go stale meanwhile, and other
   cohorts may be freed.
   */
  lemma {:induction false} NoCohortEscapes(w: Worker, s: System, events: seq<Event>, lease: Lease, cohort: int)
    requires Inv(s) && Held(s, lease, cohort)
    requires forall i :: 0 <= i < |events| ==> !Frees(w, lease, cohort, events[i])
    ensures Held(Run(w, s, events), lease, cohort)
  {
    if events != [] {
      var k := |events| - 1;
      NoCohortEscapes(w, s, events[..k], lease, cohort);
      RunKeepsInv(w, s, events[..k]);
      HeldStep(w, Run(w, s, events[..k]), events[k], lease, cohort);
    }
  }

  lemma HeldStep(w: Worker, s: System, e: Event, lease: Lease, cohort: int)
    requires Inv(s) && Held(s, lease, cohort) && !Frees(w, lease, cohort, e)
    ensures Held(Step(w, s, e), lease, cohort)
  {
    hide RequestedLease, UnadoptedRelease, MatchingAck, EndsLease;
  }

  /** The event that freed the cohort: it is of the kind that does, and until then the cohort was held. */
  ghost predicate IsCause(w: Worker, s: System, events: seq<Event>, lease: Lease, cohort: int, i: nat)
  {
    && i < |events| && Frees(w, lease, cohort, events[i])
    && forall j :: 0 <= j <= i ==> Held(Run(w, s, events[..j]), lease, cohort)
  }

  /** Whenever a run ends with a cohort out of its wait, one event of it freed that cohort, held until then. */
  lemma EscapeHasCause(w: Worker, s: System, events: seq<Event>, lease: Lease, cohort: int) returns (i: nat)
    requires Inv(s) && Held(s, lease, cohort) && cohort !in Run(w, s, events).waiting
    ensures IsCause(w, s, events, lease, cohort, i)
  {
    hide Frees, Inv, Step, Run;
    i := FirstFreeing(w, s, events, lease, cohort);
    forall j | 0 <= j <= i
      ensures Held(Run(w, s, events[..j]), lease, cohort)
    {
      NoCohortEscapes(w, s, events[..j], lease, cohort);
    }
  }

  lemma FirstFreeing(w: Worker, s: System, events: seq<Event>, lease: Lease, cohort: int) returns (i: nat)
    requires Inv(s) && Held(s, lease, cohort) && cohort !in Run(w, s, events).waiting
    ensures i < |events| && Frees(w, lease, cohort, events[i]) && forall j :: 0 <= j < i ==> !Frees(w, lease, cohort, events[j])
  {
    hide Frees, Inv, Step, Run;
    i := 0;
    while i < |events| && !Frees(w, lease, cohort, events[i])
      invariant i <= |events| && forall j :: 0 <= j < i ==> !Frees(w, lease, cohort, events[j])
    {
      i := i + 1;
    }
    if i == |events| {
      NoCohortEscapes(w, s, events, lease, cohort);
    }
  }

  // Hand-over from one lease to the next.

  /** A lease appears only when nothing is held or being released and nobody is parked. */
  lemma AdoptionIsClean(w: Worker, s: System, e: Event)
    requires Inv(s)
    ensures var after := Step(w, s, e);
      after.gate.lease.Some? && after.gate.lease != s.gate.lease ==>
        && s.gate.lease.None? && s.gate.releasing.None? && s.gate.parked == {} && !s.gate.closed
        && e.PollNow? && LiveRequest(w, e.inputs.request, e.inputs.now)
        && MatchingAck(w, e.inputs.ack, after.gate.lease.value) && Is(e.inputs.ack.state, "waiting")
  {
    hide UnadoptedRelease, LiveRequest, MatchingAck, EndsLease;
  }

  /**
   A token is published as resumed only by a poll that finds nobody parked: either the
   token of the lease being released, or one that was never adopted.
   */
  lemma ResumedAfterUnparking(w: Worker, s: System, e: Event)
    requires Inv(s)
    ensures var after := Step(w, s, e);
      after.gate.lastResumed != s.gate.lastResumed ==>
        && s.gate.parked == {} && after.gate.parked == {} && s.gate.lease.None? && after.gate.releasing.None?
        && after.gate.lastResumed.Some?
        && (s.gate.releasing.Some? ==> s.gate.releasing.value.token == after.gate.lastResumed.value)
        && (s.gate.releasing.None? ==> e.PollNow? && EndsLease(e.inputs.ack) && Is(e.inputs.ack.token, after.gate.lastResumed.value))
  {
    hide RequestedLease, EndsLease;
  }

  predicate Vacant(s: System) { s.gate.parked == {} && s.gate.lease.None? && s.gate.releasing.None? }

  /** Between two different leases of a run lies a moment with nobody parked and nothing held. */
  lemma {:induction false} LeasesDoNotTouch(w: Worker, s: System, events: seq<Event>, l: Lease)
    requires Inv(s) && s.gate.lease == Some(l)
    requires Run(w, s, events).gate.lease.Some? && Run(w, s, events).gate.lease != Some(l)
    ensures exists k :: 0 <= k <= |events| && Vacant(Run(w, s, events[..k]))
  {
    assert events != [];
    var k := |events| - 1;
    var before := Run(w, s, events[..k]);
    RunKeepsInv(w, s, events[..k]);
    AdoptionIsClean(w, before, events[k]);
    if before.gate.lease == Run(w, s, events).gate.lease {
      LeasesDoNotTouch(w, s, events[..k], l);
      var j :| 0 <= j <= k && Vacant(Run(w, s, events[..k][..j]));
      assert events[..k][..j] == events[..j];
    } else {
      assert Vacant(before);
    }
  }

  // A release completes.

  /** The cohorts that some event of the run wakes. */
  predicate Wakes(events: seq<Event>, cohort: int)
  {
    exists i :: 0 <= i < |events| && events[i].Wake? && events[i].cohort == cohort
  }

  lemma ReleasingStep(w: Worker, s: System, e: Event, l: Lease)
    requires Inv(s) && s.gate.releasing == Some(l) && !e.Close? && !(e.PollNow? && e.inputs.stopAtStart)
    ensures var after := Step(w, s, e);
      && after.waiting <= s.waiting
      && (e.Wake? ==> e.cohort !in after.waiting)
      && (after.gate.releasing == Some(l) || (s.gate.parked == {} && after.gate.releasing.None? && after.gate.lastResumed == Some(l.token)))
  {
    hide RequestedLease, UnadoptedRelease, MatchingAck, EndsLease;
  }

  /**
   While a lease is being released nobody parks anew, and everyone who wakes leaves. So
   once each parked cohort has woken, and no earlier, a poll publishes the token.
   */
  lemma {:induction false} ReleaseCompletes(w: Worker, s: System, events: seq<Event>, l: Lease)
    requires Inv(s) && s.gate.releasing == Some(l)
    requires forall i :: 0 <= i < |events| ==> !events[i].Close? && !events[i].PollNow?
    ensures var after := Run(w, s, events);
      && Inv(after) && after.gate.releasing == Some(l) && after.waiting <= s.waiting
      && (forall c :: c in after.waiting ==> !Wakes(events, c))
  {
    if events != [] {
      var k := |events| - 1;
      ReleaseCompletes(w, s, events[..k], l);
      var before, after := Run(w, s, events[..k]), Run(w, s, events);
      ReleasingStep(w, before, events[k], l);
      StepKeepsInv(w, before, events[k]);
      assert after.gate.releasing == Some(l) by { OnlyPollsResume(w, before, events[k]); }
      forall c | c in after.waiting
        ensures !Wakes(events, c)
      {
        assert !Wakes(events[..k], c);
        WakesOneMore(events, c);
      }
    }
  }

  lemma WakesOneMore(events: seq<Event>, c: int)
    requires events != []
    ensures var k := |events| - 1; Wakes(events, c) <==> Wakes(events[..k], c) || (events[k].Wake? && events[k].cohort == c)
  {
    var k := |events| - 1;
    if i :| 0 <= i < k && events[i].Wake? && events[i].cohort == c { assert events[..k][i] == events[i]; }
  }

  lemma OnlyPollsResume(w: Worker, s: System, e: Event)
    requires !e.Close? && !e.PollNow?
    ensures Step(w, s, e).gate.releasing == s.gate.releasing
  {
  }

  /** The poll after the last cohort has woken publishes the token, and an earlier one does not. */
  lemma PollAfterRelease(w: Worker, s: System, events: seq<Event>, l: Lease, i: Inputs)
    requires Inv(s) && s.gate.releasing == Some(l) && !i.stopAtStart
    requires forall i :: 0 <= i < |events| ==> !events[i].Close? && !events[i].PollNow?
    ensures var d := Report(w, Run(w, s, events), PollNow(i));
      && d.Resuming?
      && (d.releasing.None? <==> Run(w, s, events).gate.parked == {})
      && (d.releasing.None? ==> d.lastResumed == Some(l.token))
    ensures (forall c :: c in s.waiting ==> Wakes(events, c)) ==>
      Report(w, Run(w, s, events), PollNow(i)) == Resuming(None, Some(l.token))
  {
    ReleaseCompletes(w, s, events, l);
    var after := Run(w, s, events);
    if forall c :: c in s.waiting ==> Wakes(events, c) {
      forall c ensures c !in after.waiting {
        assert c in after.waiting ==> c in s.waiting;
      }
      assert after.gate.parked == {};
    }
  }

  /** After close or stop every wake-up leaves, and nothing is adopted again. */
  lemma ClosedStaysClosed(w: Worker, s: System, e: Event)
    requires Inv(s) && s.gate.closed
    ensures var after := Step(w, s, e);
      && after.gate.closed && after.gate.lease.None? && after.waiting <= s.waiting
      && (e.Wake? ==> e.cohort !in after.waiting)
      && !ReportsReady(Report(w, s, e))
  {
  }
}
