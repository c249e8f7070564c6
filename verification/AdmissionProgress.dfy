/** Admission makes progress: what arrivals, services and the drain must achieve. */
module AdmissionProgress {
  // The bounds alone would let a service refuse everybody. Here a request that fits is
  // accepted, one that nothing disturbs is served, and a drain ends.

  import opened Results
  import opened Sets
  import opened Admission

  /** The requests that have neither finished nor been turned away. */
  function Live(s: System): set<Id>
  {
    set id | id in s.requests && !s.requests[id].phase.Finished? && !s.requests[id].phase.Rejected?
  }

  lemma LiveIsActive(s: System)
    ensures Live(s) == Those(s.requests, Active)
  {
    forall id ensures id in Live(s) <==> id in Those(s.requests, Active) {}
  }

  /** An arrival is accepted exactly when the service runs and fewer requests are live than slots and queue places. */
  lemma ArrivalsAreAccepted(l: Limits, s: System, id: Id)
    requires Inv(l, s) && id !in s.requests
    ensures var after := Step(l, s, Arrive(id));
      if !s.shared.stopping && |Live(s)| < l.maxConcurrency + l.maxQueued
      then In(after, id, Waiting(false)) && Live(after) == Live(s) + {id} && after.shared.free == s.shared.free
      else after == s
  {
    LiveIsActive(s);
  }

  /** The states differ in this one request at most. */
  predicate OnlyBesides(s: System, t: System, id: Id)
  {
    s.shared == t.shared && s.snapshot == t.snapshot && s.down == t.down
    && (forall other :: other in s.requests && other != id ==> other in t.requests && t.requests[other] == s.requests[other])
    && (forall other :: other in t.requests && other != id ==> other in s.requests)
  }

  lemma RunThen(l: Limits, s: System, events: seq<Event>, e: Event)
    ensures Run(l, s, []) == s
    ensures Run(l, s, events + [e]) == var t := Run(l, s, events); if Enabled(t, e) then Step(l, t, e) else t
  {
    assert (events + [e])[..|events|] == events;
    hide Step, Enabled;
  }

  function Service(id: Id): seq<Event> { [Arrive(id)] + [Grant(id)] + [Decide(id, false)] + [Depart(id)] + [Start(id, false, false)] }

  /** A request for which there is room and that nothing disturbs is served, and leaves the service as it was. */
  lemma RequestsAreServed(l: Limits, s: System, id: Id)
    requires Inv(l, s) && id !in s.requests && !s.shared.stopping && s.shared.free > 0 && |Live(s)| < l.maxConcurrency + l.maxQueued
    ensures var running, after := Run(l, s, Service(id)), Run(l, s, Service(id) + [Complete(id)]);
      && In(running, id, Running) && id in running.shared.jobs && !running.shared.jobs[id] && running.shared.free == s.shared.free - 1
      && OnlyBesides(s, after, id) && In(after, id, Finished) && after.requests[id].releases == 1
  {
    LiveIsActive(s);
    InvFacts(l, s, id);
    RunThen(l, s, [], Arrive(id));
    RunThen(l, s, [Arrive(id)], Grant(id));
    RunThen(l, s, [Arrive(id)] + [Grant(id)], Decide(id, false));
    RunThen(l, s, [Arrive(id)] + [Grant(id)] + [Decide(id, false)], Depart(id));
    RunThen(l, s, [Arrive(id)] + [Grant(id)] + [Decide(id, false)] + [Depart(id)], Start(id, false, false));
    RunThen(l, s, Service(id), Complete(id));
    assert [] + [Arrive(id)] == [Arrive(id)];
    assert s.shared.jobs[id := false] - {id} == s.shared.jobs;
    hide Inv, Live, Those, Run;
  }

  /** A new service is open, with every slot free. */
  lemma NewServiceServes(l: Limits, id: Id)
    requires l.maxConcurrency > 0
    ensures In(Run(l, Initial(l), Service(id)), id, Running) && Run(l, Initial(l), Service(id)).shared.free == l.maxConcurrency - 1
    ensures !Initial(l).down && Initial(l).shared.jobs == map[]
  {
    InitialInv(l);
    assert Live(Initial(l)) == {};
    RequestsAreServed(l, Initial(l), id);
  }

  /** The wait ends with a failure; the slot may have come in the same moment. */
  function Vain(id: Id, granted: bool): seq<Event>
  {
    [Arrive(id)] + (if granted then [Grant(id)] else []) + [Decide(id, true)] + [Depart(id)]
  }

  /** A request that waits in vain gives back its place, and any slot. */
  lemma VainRequestsLeave(l: Limits, s: System, id: Id, granted: bool)
    requires Inv(l, s) && id !in s.requests && !s.shared.stopping && |Live(s)| < l.maxConcurrency + l.maxQueued
    requires granted ==> s.shared.free > 0
    ensures var after := Run(l, s, Vain(id, granted)); OnlyBesides(s, after, id) && In(after, id, Rejected)
  {
    LiveIsActive(s);
    assert s.shared.requests < l.maxConcurrency + l.maxQueued;
    hide *;
    ArrivesAndWaits(l, s, id, granted);
    var first := [Arrive(id)] + (if granted then [Grant(id)] else []);
    var t := Run(l, s, first);
    GivesUp(l, s, t, id, granted);
    RunThen(l, s, first, Decide(id, true));
    RunThen(l, s, first + [Decide(id, true)], Depart(id));
    VainIs(id, granted);
  }

  lemma VainIs(id: Id, granted: bool)
    ensures Vain(id, granted) == [Arrive(id)] + (if granted then [Grant(id)] else []) + [Decide(id, true)] + [Depart(id)]
  {
  }

  /** The request waits, with a slot or without; nothing else has changed. */
  predicate WaitsBesides(s: System, t: System, id: Id, granted: bool)
  {
    && In(t, id, Waiting(granted)) && t.snapshot == s.snapshot && t.down == s.down
    && t.shared == s.shared.(requests := s.shared.requests + 1, waiting := s.shared.waiting + 1, free := s.shared.free - One(granted))
    && (forall other :: other in s.requests && other != id ==> other in t.requests && t.requests[other] == s.requests[other])
    && (forall other :: other in t.requests && other != id ==> other in s.requests)
  }

  lemma ArrivesAndWaits(l: Limits, s: System, id: Id, granted: bool)
    requires Inv(l, s) && id !in s.requests && !s.shared.stopping && s.shared.requests < l.maxConcurrency + l.maxQueued
    requires granted ==> s.shared.free > 0
    ensures WaitsBesides(s, Run(l, s, [Arrive(id)] + (if granted then [Grant(id)] else [])), id, granted)
  {
    RunThen(l, s, [], Arrive(id));
    RunThen(l, s, [Arrive(id)], Grant(id));
    assert [] + [Arrive(id)] == [Arrive(id)] && [Arrive(id)] + [] == [Arrive(id)];
    hide Inv, Run;
  }

  lemma GivesUp(l: Limits, s: System, t: System, id: Id, granted: bool)
    requires WaitsBesides(s, t, id, granted)
    ensures Enabled(t, Decide(id, true)) && Enabled(Step(l, t, Decide(id, true)), Depart(id))
    ensures var after := Step(l, Step(l, t, Decide(id, true)), Depart(id)); OnlyBesides(s, after, id) && In(after, id, Rejected)
  {
  }

  /** An admission that comes too late, or finds the service stopping or refusing, gives its slot back at once. */
  lemma LateIsReleased(l: Limits, s: System, id: Id, expired: bool, refused: bool)
    requires Inv(l, s) && In(s, id, Admitted)
    ensures var after := Step(l, s, Start(id, expired, refused));
      if s.shared.stopping || expired || refused
      then In(after, id, Finished) && after.shared == s.shared.(free := s.shared.free + 1, requests := s.shared.requests - 1)
      else In(after, id, Running) && after.shared == s.shared.(jobs := s.shared.jobs[id := false])
  {
    InvFacts(l, s, id);
    hide Inv;
  }

  /** A client that goes away has its job cancelled and nothing else changed. */
  lemma AbandoningCancels(l: Limits, s: System, id: Id)
    requires Inv(l, s) && In(s, id, Running)
    ensures id in s.shared.jobs
    ensures Step(l, s, Abandon(id)) == s.(shared := s.shared.(jobs := s.shared.jobs[id := true]))
  {
    InvFacts(l, s, id);
    hide Inv;
  }

  // The drain.

  lemma StopCancelsAll(l: Limits, s: System)
    requires Inv(l, s) && !s.shared.stopping
    ensures var after := Step(l, s, Stop);
      && Enabled(s, Stop) && after.shared.stopping && after.shared.jobs.Keys == s.shared.jobs.Keys == after.snapshot
      && (forall id :: id in after.shared.jobs ==> after.shared.jobs[id]) && Inv(l, after)
  {
    StepKeepsInv(l, s, Stop);
    hide Inv;
  }

  lemma CompletedIsGone(l: Limits, s: System, e: Event, id: Id)
    requires Inv(l, s) && e == Complete(id)
    ensures Enabled(s, e) ==> id !in Step(l, s, e).shared.jobs
    ensures !Enabled(s, e) ==> id !in s.shared.jobs
  {
    InvFacts(l, s, id);
    hide Inv;
    assert id in s.requests ==> (id in s.shared.jobs <==> s.requests[id].phase.Running?);
  }

  /** Once stopped, a job whose worker has returned is gone for good. */
  lemma {:induction false} ReturnedIsGone(l: Limits, s: System, events: seq<Event>, id: Id)
    requires Inv(l, s) && s.shared.stopping && Complete(id) in events
    ensures id !in Run(l, s, events).shared.jobs
  {
    hide Inv, Step, Enabled;
    var k := |events| - 1;
    var before := Run(l, s, events[..k]);
    RunKeepsInv(l, s, events[..k]);
    NoJobAfterStop(l, s, events[..k]);
    assert events == events[..k] + [events[k]];
    if events[k] == Complete(id) {
      CompletedIsGone(l, before, events[k], id);
    } else {
      ReturnedIsGone(l, s, events[..k], id);
      if Enabled(before, events[k]) {
        StoppedStep(l, before, events[k]);
        assert id !in before.shared.jobs.Keys;
      }
    }
  }

  /** A drain ends: after the stop, once each running worker has returned, the service can be and is shut down. */
  lemma DrainEnds(l: Limits, s: System, events: seq<Event>)
    requires Inv(l, s) && !s.shared.stopping && !s.down
    requires forall id :: id in s.shared.jobs ==> Complete(id) in events
    requires forall i :: 0 <= i < |events| ==> events[i] != ShutDown
    ensures var after := Run(l, Step(l, s, Stop), events);
      Enabled(after, ShutDown) && Step(l, after, ShutDown).down && after.shared.jobs == map[]
  {
    StopCancelsAll(l, s);
    var stopped := Step(l, s, Stop);
    NoJobAfterStop(l, stopped, events);
    NotDownYet(l, stopped, events);
    var after := Run(l, stopped, events);
    forall id
      ensures id !in after.shared.jobs.Keys
    {
      assert id in after.shared.jobs.Keys ==> id in s.shared.jobs.Keys;
      if id in s.shared.jobs.Keys { ReturnedIsGone(l, stopped, events, id); }
    }
    assert after.shared.jobs == map[];
    hide Inv, Run;
  }

  lemma {:induction false} NotDownYet(l: Limits, s: System, events: seq<Event>)
    requires !s.down && forall i :: 0 <= i < |events| ==> events[i] != ShutDown
    ensures !Run(l, s, events).down
  {
    if events != [] {
      NotDownYet(l, s, events[..|events|-1]);
    }
  }
}
