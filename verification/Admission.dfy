/** Admission of analysis requests: a bounded queue, slots, native jobs, a drain. */
module Admission {
  // Every stretch of the code between two awaits is one atomic step; requests interleave in
  // any order, and native jobs outlive their clients.

  import opened Results
  import opened Sets

  type Id = int

  datatype Limits = Limits(maxConcurrency: nat, maxQueued: nat)

  /** The application's state: counters, the semaphore's value, running jobs and their cancellations. */
  datatype Shared = Shared(requests: int, waiting: int, free: int, jobs: map<Id, bool>, stopping: bool)

  /** An admission's own flags. */
  datatype Ticket = Ticket(started: bool, released: bool)

  // The steps on the shared state.

  predicate Accepts(l: Limits, s: Shared)
  {
    !s.stopping && s.requests < l.maxConcurrency + l.maxQueued
  }

  function Reserved(s: Shared): Shared { s.(requests := s.requests + 1, waiting := s.waiting + 1) }

  /** The end of the wait: the reservation is handed to an admission, or given back with any slot. */
  function LeftQueue(s: Shared, handedOff: bool, granted: bool): Shared
  {
    if handedOff then s.(waiting := s.waiting - 1)
    else s.(waiting := s.waiting - 1, requests := s.requests - 1, free := s.free + if granted then 1 else 0)
  }

  function Released(s: Shared, t: Ticket): Shared
  {
    if t.released then s else s.(requests := s.requests - 1, free := s.free + 1)
  }

  /** Starting either submits the job or releases the admission at once. */
  predicate Submits(s: Shared, expired: bool, refused: bool) { !s.stopping && !expired && !refused }

  function StartedBy(s: Shared, t: Ticket, id: Id, expired: bool, refused: bool): Shared
  {
    if Submits(s, expired, refused) then s.(jobs := s.jobs[id := false]) else Released(s, t)
  }

  function Completed(s: Shared, t: Ticket, id: Id): Shared
  {
    Released(s.(jobs := s.jobs - {id}), t)
  }

  function Cancelled(s: Shared, id: Id): Shared
  {
    if id in s.jobs then s.(jobs := s.jobs[id := true]) else s
  }

  function Stopped(s: Shared): Shared
  {
    s.(stopping := true, jobs := map i | i in s.jobs :: true)
  }

  /** The application object. */
  class Application {
    const limits: Limits
    var analysisRequests: int
    var analysisWaiting: int
    var slots: int
    var jobs: map<Id, bool>
    var stopping: bool

    function State(): Shared
      reads this
    {
      Shared(analysisRequests, analysisWaiting, slots, jobs, stopping)
    }

    constructor (limits: Limits)
      ensures this.limits == limits && State() == Shared(0, 0, limits.maxConcurrency, map[], false)
    {
      this.limits := limits;
      analysisRequests, analysisWaiting, slots, jobs, stopping := 0, 0, limits.maxConcurrency, map[], false;
    }

    method Reserve() returns (result: Result<()>)
      modifies this
      ensures result.Success? <==> Accepts(limits, old(State()))
      ensures State() == if result.Success? then Reserved(old(State())) else old(State())
      ensures result.Failure? ==> result.error == if old(stopping) then "service_unavailable" else "service_busy"
    {
      if stopping {
        return Failure("service_unavailable");
      }
      if analysisRequests >= limits.maxConcurrency + limits.maxQueued {
        return Failure("service_busy");
      }
      analysisRequests := analysisRequests + 1;
      analysisWaiting := analysisWaiting + 1;
      return Success(());
    }

    method LeaveQueue(handedOff: bool, granted: bool)
      modifies this
      ensures State() == LeftQueue(old(State()), handedOff, granted)
    {
      analysisWaiting := analysisWaiting - 1;
      if !handedOff {
        analysisRequests := analysisRequests - 1;
        if granted {
          slots := slots + 1;
        }
      }
    }

    /** The drain's first block: no await separates the flag from the snapshot. */
    method Stop() returns (snapshot: set<Id>)
      modifies this
      ensures State() == Stopped(old(State())) && snapshot == old(jobs).Keys
    {
      stopping := true;
      snapshot := jobs.Keys;
      jobs := map i | i in jobs :: true;
    }
  }

  class AdmissionTicket {
    const app: Application
    const id: Id
    var started: bool
    var released: bool

    function Flags(): Ticket
      reads this
    {
      Ticket(started, released)
    }

    constructor (app: Application, id: Id)
      ensures this.app == app && this.id == id && Flags() == Ticket(false, false)
    {
      this.app, this.id := app, id;
      started, released := false, false;
    }

    method Release()
      modifies this, app
      ensures app.State() == Released(old(app.State()), old(Flags())) && Flags() == old(Flags()).(released := true)
    {
      if !released {
        released := true;
        app.analysisRequests := app.analysisRequests - 1;
        app.slots := app.slots + 1;
      }
    }

    /** The start of the bounded run, up to its first await. */
    method Start(expired: bool, refused: bool) returns (submitted: bool)
      modifies this, app
      ensures submitted == Submits(old(app.State()), expired, refused)
      ensures app.State() == StartedBy(old(app.State()), old(Flags()), id, expired, refused)
      ensures Flags() == Ticket(true, old(released) || !submitted)
    {
      started := true;
      submitted := false;
      if app.stopping || expired || refused {
        Release();
      } else {
        app.jobs := app.jobs[id := false];
        submitted := true;
      }
    }

    /** The callback on native completion. */
    method Complete()
      modifies this, app
      ensures app.State() == Completed(old(app.State()), old(Flags()), id) && Flags() == old(Flags()).(released := true)
    {
      app.jobs := app.jobs - {id};
      Release();
    }

    /** The response's last block: release unless the run has taken over. */
    method CloseResponse()
      modifies this, app
      ensures old(started) ==> app.State() == old(app.State()) && Flags() == old(Flags())
      ensures !old(started) ==> app.State() == Released(old(app.State()), old(Flags())) && Flags() == old(Flags()).(released := true)
    {
      if !started {
        Release();
      }
    }
  }

  // Runs.

  /** Where a request stands. Its acquire task may hold a slot before the request knows. */
  datatype Phase =
    | Waiting(granted: bool)
    | Leaving(failed: bool, granted: bool)
    | Admitted
    | Running
    | Finished
    | Rejected

  datatype Request = Request(phase: Phase, ticket: Ticket, releases: nat)

  /** The shared state, every request that was accepted, the drain's snapshot, and whether the service is down. */
  datatype System = System(shared: Shared, requests: map<Id, Request>, snapshot: set<Id>, down: bool)

  datatype Event =
    | Arrive(id: Id)
    | Grant(id: Id)
    | Decide(id: Id, failed: bool)
    | Interrupt(id: Id)
    | Depart(id: Id)
    | Start(id: Id, expired: bool, refused: bool)
    | CloseResponse(id: Id)
    | Abandon(id: Id)
    | Complete(id: Id)
    | Stop
    | ShutDown

  predicate In(s: System, id: Id, p: Phase) { id in s.requests && s.requests[id].phase == p }

  predicate Was(s: System, id: Id, which: Request -> bool) { id in s.requests && which(s.requests[id]) }

  /**
   Arrive needs a new request. Grant: the acquire task obtains a free slot. Decide: the
   wait ends; going on needs the slot. Interrupt: a cancellation reaches the cleanup.
   Depart: the cleanup has finished. CloseResponse: the stream's response is finished or
   torn down, before or after its run has started. Complete: the native worker returns.
   */
  predicate Enabled(s: System, e: Event)
  {
    match e
    case Arrive(id) => id !in s.requests
    case Grant(id) => In(s, id, Waiting(false)) && s.shared.free > 0
    case Decide(id, failed) => id in s.requests && s.requests[id].phase.Waiting? && (failed || s.requests[id].phase.granted)
    case Interrupt(id) => id in s.requests && s.requests[id].phase.Leaving?
    case Depart(id) => id in s.requests && s.requests[id].phase.Leaving?
    case Start(id, _, _) => In(s, id, Admitted)
    case CloseResponse(id) => In(s, id, Admitted) || In(s, id, Running) || In(s, id, Finished)
    case Abandon(id) => In(s, id, Running)
    case Complete(id) => In(s, id, Running)
    case Stop => !s.shared.stopping
    case ShutDown => s.shared.stopping && !s.down && s.snapshot !! s.shared.jobs.Keys
  }

  function Set(s: System, shared: Shared, id: Id, r: Request): System
  {
    s.(shared := shared, requests := s.requests[id := r])
  }

  /** A release counts when the flag lets it through. */
  function ReleasedRequest(r: Request): Request
  {
    Request(Finished, r.ticket.(released := true), r.releases + if r.ticket.released then 0 else 1)
  }

  function Step(l: Limits, s: System, e: Event): System
    requires Enabled(s, e)
  {
    match e
    case Arrive(id) =>
      if Accepts(l, s.shared) then Set(s, Reserved(s.shared), id, Request(Waiting(false), Ticket(false, false), 0)) else s
    case Grant(id) => Set(s, s.shared.(free := s.shared.free - 1), id, s.requests[id].(phase := Waiting(true)))
    case Decide(id, failed) => Set(s, s.shared, id, s.requests[id].(phase := Leaving(failed, s.requests[id].phase.granted)))
    case Interrupt(id) => Set(s, s.shared, id, s.requests[id].(phase := s.requests[id].phase.(failed := true)))
    case Depart(id) =>
      var p := s.requests[id].phase;
      Set(s, LeftQueue(s.shared, !p.failed, p.granted), id, s.requests[id].(phase := if p.failed then Rejected else Admitted))
    case Start(id, expired, refused) =>
      var r := s.requests[id];
      var started := r.(ticket := r.ticket.(started := true));
      Set(s, StartedBy(s.shared, r.ticket, id, expired, refused), id,
          if Submits(s.shared, expired, refused) then started.(phase := Running) else ReleasedRequest(started))
    case CloseResponse(id) =>
      var r := s.requests[id];
      if r.ticket.started then s else Set(s, Released(s.shared, r.ticket), id, ReleasedRequest(r))
    case Abandon(id) => s.(shared := Cancelled(s.shared, id))
    case Complete(id) => Set(s, Completed(s.shared, s.requests[id].ticket, id), id, ReleasedRequest(s.requests[id]))
    case Stop => System(Stopped(s.shared), s.requests, s.shared.jobs.Keys, s.down)
    case ShutDown => s.(down := true)
  }

  // Conservation.

  predicate Holds(r: Request)
  {
    match r.phase
    case Waiting(granted) => granted
    case Leaving(_, granted) => granted
    case Admitted => true
    case Running => true
    case Finished => false
    case Rejected => false
  }

  predicate Queued(r: Request) { r.phase.Waiting? || r.phase.Leaving? }

  predicate Active(r: Request) { !r.phase.Finished? && !r.phase.Rejected? }

  predicate ValidRequest(id: Id, r: Request, jobs: map<Id, bool>)
  {
    && (r.phase.Leaving? ==> r.phase.failed || r.phase.granted)
    && (id in jobs <==> r.phase.Running?)
    && (r.ticket.started ==> r.phase.Running? || r.phase.Finished?)
    && (r.phase.Running? ==> r.ticket.started)
    && (r.phase.Finished? <==> r.ticket.released)
    && r.releases == (if r.ticket.released then 1 else 0)
  }

  /** What every step keeps. */
  ghost predicate Inv(l: Limits, s: System)
  {
    && s.shared.free >= 0
    && s.shared.free + |Those(s.requests, Holds)| == l.maxConcurrency
    && s.shared.waiting == |Those(s.requests, Queued)|
    && s.shared.requests == |Those(s.requests, Active)| <= l.maxConcurrency + l.maxQueued
    && (forall id :: id in s.requests ==> ValidRequest(id, s.requests[id], s.shared.jobs))
    && s.shared.jobs.Keys <= s.requests.Keys
    && (s.shared.stopping ==> s.shared.jobs.Keys <= s.snapshot && forall id :: id in s.shared.jobs ==> s.shared.jobs[id])
    && (s.down ==> s.shared.stopping && s.shared.jobs == map[])
  }

  lemma CountsAfter(s: System, id: Id, r: Request)
    ensures var after := s.requests[id := r];
      && |Those(after, Holds)| == |Those(s.requests, Holds)| - One(Was(s, id, Holds)) + One(Holds(r))
      && |Those(after, Queued)| == |Those(s.requests, Queued)| - One(Was(s, id, Queued)) + One(Queued(r))
      && |Those(after, Active)| == |Those(s.requests, Active)| - One(Was(s, id, Active)) + One(Active(r))
  {
    ThoseUpdate(s.requests, id, r, Holds);
    ThoseUpdate(s.requests, id, r, Queued);
    ThoseUpdate(s.requests, id, r, Active);
  }

  /** The counters move with one request, and its own record stays consistent. */
  ghost predicate Balanced(s: System, id: Id, shared: Shared, r: Request)
  {
    && shared.free == s.shared.free + One(Was(s, id, Holds)) - One(Holds(r))
    && shared.waiting == s.shared.waiting - One(Was(s, id, Queued)) + One(Queued(r))
    && shared.requests == s.shared.requests - One(Was(s, id, Active)) + One(Active(r))
    && ValidRequest(id, r, shared.jobs)
    && (forall i :: i != id ==> (i in shared.jobs <==> i in s.shared.jobs))
    && (forall i :: i != id && i in s.shared.jobs && i in shared.jobs ==> shared.jobs[i] == s.shared.jobs[i])
    && shared.stopping == s.shared.stopping
  }

  lemma BalancedKeepsInv(l: Limits, s: System, id: Id, shared: Shared, r: Request)
    requires Inv(l, s) && Balanced(s, id, shared, r)
    requires shared.free >= 0 && shared.requests <= l.maxConcurrency + l.maxQueued
    requires shared.stopping ==> id in shared.jobs ==> id in s.shared.jobs && shared.jobs[id]
    ensures Inv(l, Set(s, shared, id, r))
  {
    CountsAfter(s, id, r);
    hide Holds, Queued, Active, Those;
    var after := Set(s, shared, id, r);
    forall i | i in after.requests
      ensures ValidRequest(i, after.requests[i], after.shared.jobs)
    {
      if i != id { assert ValidRequest(i, s.requests[i], s.shared.jobs); }
    }
    forall i | i in shared.jobs.Keys
      ensures i in after.requests.Keys
    {
      assert i == id || i in s.shared.jobs.Keys;
    }
    if shared.stopping {
      forall i | i in shared.jobs.Keys
        ensures i in s.snapshot && shared.jobs[i]
      {
        assert i in s.shared.jobs.Keys;
      }
    }
    if s.down {
      assert forall i :: i !in shared.jobs;
    }
  }

  lemma QueueStepKeepsInv(l: Limits, s: System, e: Event)
    requires Inv(l, s) && Enabled(s, e)
    requires e.Arrive? || e.Grant? || e.Decide? || e.Interrupt? || e.Depart?
    ensures Inv(l, Step(l, s, e))
  {
    hide Inv;
    InvFacts(l, s, e.id);
    match e {
      case Arrive(id) =>
        if Accepts(l, s.shared) {
          BalancedKeepsInv(l, s, id, Reserved(s.shared), Request(Waiting(false), Ticket(false, false), 0));
        }
      case Grant(id) =>
        BalancedKeepsInv(l, s, id, s.shared.(free := s.shared.free - 1), s.requests[id].(phase := Waiting(true)));
      case Decide(id, failed) =>
        BalancedKeepsInv(l, s, id, s.shared, s.requests[id].(phase := Leaving(failed, s.requests[id].phase.granted)));
      case Interrupt(id) =>
        BalancedKeepsInv(l, s, id, s.shared, s.requests[id].(phase := s.requests[id].phase.(failed := true)));
      case Depart(id) =>
        var p := s.requests[id].phase;
        BalancedKeepsInv(l, s, id, LeftQueue(s.shared, !p.failed, p.granted),
                         s.requests[id].(phase := if p.failed then Rejected else Admitted));
    }
  }

  lemma InvFacts(l: Limits, s: System, id: Id)
    requires Inv(l, s)
    ensures id in s.requests ==> ValidRequest(id, s.requests[id], s.shared.jobs)
    ensures id !in s.requests ==> id !in s.shared.jobs
    ensures s.shared.free >= 0 && s.shared.requests <= l.maxConcurrency + l.maxQueued
    ensures s.shared.stopping && id in s.shared.jobs ==> s.shared.jobs[id]
  {
    assert id in s.shared.jobs.Keys <==> id in s.shared.jobs;
  }

  lemma RunStepKeepsInv(l: Limits, s: System, e: Event)
    requires Inv(l, s) && Enabled(s, e)
    requires e.Start? || e.CloseResponse? || e.Complete?
    ensures Inv(l, Step(l, s, e))
  {
    hide Inv;
    InvFacts(l, s, e.id);
    match e {
      case Start(id, expired, refused) =>
        var r := s.requests[id];
        var started := r.(ticket := r.ticket.(started := true));
        BalancedKeepsInv(l, s, id, StartedBy(s.shared, r.ticket, id, expired, refused),
                         if Submits(s.shared, expired, refused) then started.(phase := Running) else ReleasedRequest(started));
      case CloseResponse(id) =>
        var r := s.requests[id];
        if !r.ticket.started {
          BalancedKeepsInv(l, s, id, Released(s.shared, r.ticket), ReleasedRequest(r));
        }
      case Complete(id) =>
        BalancedKeepsInv(l, s, id, Completed(s.shared, s.requests[id].ticket, id), ReleasedRequest(s.requests[id]));
    }
  }

  lemma DrainStepKeepsInv(l: Limits, s: System, e: Event)
    requires Inv(l, s) && Enabled(s, e)
    requires e.Abandon? || e.Stop? || e.ShutDown?
    ensures Inv(l, Step(l, s, e))
  {
    hide Those, Holds, Queued, Active;
    match e {
      case Abandon(id) =>
        var jobs := Cancelled(s.shared, id).jobs;
        assert jobs.Keys == s.shared.jobs.Keys;
        forall i | i in s.requests ensures ValidRequest(i, s.requests[i], jobs) {}
      case Stop =>
        var jobs := Stopped(s.shared).jobs;
        assert jobs.Keys == s.shared.jobs.Keys;
        forall i | i in s.requests ensures ValidRequest(i, s.requests[i], jobs) {}
      case ShutDown =>
        assert forall i :: i in s.shared.jobs.Keys ==> i in s.snapshot;
        assert forall i :: i !in s.shared.jobs.Keys;
        assert s.shared.jobs == map[];
    }
  }

  lemma StepKeepsInv(l: Limits, s: System, e: Event)
    requires Inv(l, s) && Enabled(s, e)
    ensures Inv(l, Step(l, s, e))
  {
    hide Inv, Step, Enabled;
    match e {
      case Arrive(_) => QueueStepKeepsInv(l, s, e);
      case Grant(_) => QueueStepKeepsInv(l, s, e);
      case Decide(_, _) => QueueStepKeepsInv(l, s, e);
      case Interrupt(_) => QueueStepKeepsInv(l, s, e);
      case Depart(_) => QueueStepKeepsInv(l, s, e);
      case Start(_, _, _) => RunStepKeepsInv(l, s, e);
      case CloseResponse(_) => RunStepKeepsInv(l, s, e);
      case Complete(_) => RunStepKeepsInv(l, s, e);
      case _ => DrainStepKeepsInv(l, s, e);
    }
  }

  /** Events that are not enabled do not happen. */
  function Run(l: Limits, s: System, events: seq<Event>): System
  {
    if events == [] then s
    else
      var before := Run(l, s, events[..|events|-1]);
      if Enabled(before, events[|events|-1]) then Step(l, before, events[|events|-1]) else before
  }

  function Initial(l: Limits): System
  {
    System(Shared(0, 0, l.maxConcurrency, map[], false), map[], {}, false)
  }

  lemma InitialInv(l: Limits)
    ensures Inv(l, Initial(l))
  {
    assert Those(map[], Holds) == {} && Those(map[], Queued) == {} && Those(map[], Active) == {};
  }

  lemma {:induction false} RunKeepsInv(l: Limits, s: System, events: seq<Event>)
    requires Inv(l, s)
    ensures Inv(l, Run(l, s, events))
  {
    hide Inv, Step, Enabled;
    if events != [] {
      var k := |events| - 1;
      RunKeepsInv(l, s, events[..k]);
      if Enabled(Run(l, s, events[..k]), events[k]) {
        StepKeepsInv(l, Run(l, s, events[..k]), events[k]);
      }
    }
  }

  /**
   At every moment of every run: free slots and held slots make up the concurrency
   limit, the counters count exactly the live and the queued requests within their
   bound, and no more jobs run than slots are held.
   */
  lemma SlotsAreConserved(l: Limits, events: seq<Event>)
    ensures var s := Run(l, Initial(l), events);
      && 0 <= s.shared.free == l.maxConcurrency - |Those(s.requests, Holds)|
      && s.shared.requests == |Those(s.requests, Active)| <= l.maxConcurrency + l.maxQueued
      && s.shared.waiting == |Those(s.requests, Queued)|
      && |s.shared.jobs| <= l.maxConcurrency
      && ((forall id :: id in s.requests ==> !Active(s.requests[id])) ==>
            s.shared.free == l.maxConcurrency && s.shared.requests == s.shared.waiting == 0)
  {
    InitialInv(l);
    RunKeepsInv(l, Initial(l), events);
    var s := Run(l, Initial(l), events);
    JobsHoldSlots(l, s);
    if forall id :: id in s.requests ==> !Active(s.requests[id]) {
      assert Those(s.requests, Holds) == {} && Those(s.requests, Active) == {} && Those(s.requests, Queued) == {};
    }
  }

  lemma JobsHoldSlots(l: Limits, s: System)
    requires Inv(l, s)
    ensures |s.shared.jobs| <= |Those(s.requests, Holds)| <= l.maxConcurrency
  {
    var jobs, held := s.shared.jobs.Keys, Those(s.requests, Holds);
    forall id | id in jobs
      ensures id in held
    {
      assert id in s.requests.Keys;
    }
    assert held == jobs + (held - jobs);
    assert |s.shared.jobs| == |jobs|;
  }

  // One release per admission.

  predicate HasAdmission(p: Phase) { p.Admitted? || p.Running? }

  /** A request that has been admitted and may have finished since. */
  predicate InService(r: Request)
  {
    || (HasAdmission(r.phase) && r.releases == 0 && !r.ticket.released)
    || (r.phase.Finished? && r.releases == 1 && r.ticket.released)
  }

  lemma ServiceStep(l: Limits, s: System, e: Event, id: Id)
    requires Inv(l, s) && Enabled(s, e) && id in s.requests && InService(s.requests[id])
    ensures id in Step(l, s, e).requests && InService(Step(l, s, e).requests[id])
    ensures s.requests[id].phase.Running? && e != Complete(id) ==> Step(l, s, e).requests[id] == s.requests[id]
  {
    hide Those, Holds, Queued, Active;
    assert ValidRequest(id, s.requests[id], s.shared.jobs);
  }

  /**
   From its admission on, a request is either still served with its slot unreleased, or
   it has finished with exactly one release, whatever order its response, its deadline,
   its client and its worker act in.
   */
  lemma {:induction false} AdmissionReleasesOnce(l: Limits, s: System, events: seq<Event>, id: Id)
    requires Inv(l, s) && id in s.requests && HasAdmission(s.requests[id].phase)
    ensures var after := Run(l, s, events);
      id in after.requests && InService(after.requests[id])
  {
    if events == [] {
      assert ValidRequest(id, s.requests[id], s.shared.jobs);
    } else {
      var k := |events| - 1;
      AdmissionReleasesOnce(l, s, events[..k], id);
      RunKeepsInv(l, s, events[..k]);
      if Enabled(Run(l, s, events[..k]), events[k]) {
        ServiceStep(l, Run(l, s, events[..k]), events[k], id);
      }
    }
  }

  /** Once its job is submitted, a request keeps its slot until the native worker returns. */
  lemma {:induction false} SlotOutlivesClient(l: Limits, s: System, events: seq<Event>, id: Id)
    requires Inv(l, s) && In(s, id, Running)
    requires forall i :: 0 <= i < |events| ==> events[i] != Complete(id)
    ensures In(Run(l, s, events), id, Running) && id in Run(l, s, events).shared.jobs
    ensures Run(l, s, events).requests[id].releases == 0
  {
    RunKeepsInv(l, s, events);
    assert ValidRequest(id, s.requests[id], s.shared.jobs);
    if events != [] {
      var k := |events| - 1;
      SlotOutlivesClient(l, s, events[..k], id);
      RunKeepsInv(l, s, events[..k]);
      var before := Run(l, s, events[..k]);
      assert ValidRequest(id, before.requests[id], before.shared.jobs);
      if Enabled(before, events[k]) {
        ServiceStep(l, before, events[k], id);
      }
      assert ValidRequest(id, Run(l, s, events).requests[id], Run(l, s, events).shared.jobs);
    }
  }

  // Shutdown.

  /** No job is submitted after the snapshot. */
  lemma {:induction false} NoJobAfterStop(l: Limits, s: System, events: seq<Event>)
    requires Inv(l, s) && s.shared.stopping
    ensures var after := Run(l, s, events);
      after.shared.stopping && after.snapshot == s.snapshot && after.shared.jobs.Keys <= s.shared.jobs.Keys
  {
    if events != [] {
      var k := |events| - 1;
      NoJobAfterStop(l, s, events[..k]);
      RunKeepsInv(l, s, events[..k]);
      var before := Run(l, s, events[..k]);
      if Enabled(before, events[k]) {
        StoppedStep(l, before, events[k]);
        assert Run(l, s, events).shared.jobs.Keys <= before.shared.jobs.Keys;
      }
    }
  }

  lemma StoppedStep(l: Limits, s: System, e: Event)
    requires Inv(l, s) && Enabled(s, e) && s.shared.stopping
    ensures var after := Step(l, s, e);
      after.shared.stopping && after.snapshot == s.snapshot && after.shared.jobs.Keys <= s.shared.jobs.Keys
  {
    hide Inv, Those, Holds, Queued, Active;
  }

  /**
   The service is shut down only while no native job runs, and none starts afterwards.
   The drain waits for nothing but the native jobs: it may go on exactly when none runs.
   */
  lemma ShutDownIsQuiet(l: Limits, events: seq<Event>)
    ensures var s := Run(l, Initial(l), events);
      && (s.down ==> s.shared.jobs == map[])
      && (s.shared.stopping && !s.down ==> (Enabled(s, ShutDown) <==> s.shared.jobs == map[]))
      && (s.shared.stopping ==> forall id :: id in s.shared.jobs ==> s.shared.jobs[id])
  {
    InitialInv(l);
    RunKeepsInv(l, Initial(l), events);
    var s := Run(l, Initial(l), events);
    if s.shared.stopping && s.snapshot !! s.shared.jobs.Keys {
      assert forall id :: id in s.shared.jobs.Keys ==> id in s.snapshot;
      assert forall id :: id !in s.shared.jobs.Keys;
      assert s.shared.jobs == map[];
    }
    if s.shared.jobs == map[] {
      assert s.shared.jobs.Keys == {};
    }
  }
}
