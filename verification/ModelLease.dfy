/** The model manager of the service: one shared model, swapped only when idle. */
module ModelLease {
  // Every block under the manager's lock is one atomic step; loading and closing models
  // happen between them.

  import opened Results
  import opened Sets

  type Thread = int

  /** A published pointer: whether it names a champion, and which checkpoint. */
  datatype Manifest = Manifest(champion: bool, identity: int)

  datatype Model = Model(id: int, identity: int)

  /** What a refresh finds: the pointer's signature, the manifest unless reading fails, and whether it loads. */
  datatype Publication = Publication(signature: Option<int>, manifest: Option<Manifest>, loads: bool, newId: int)

  /** The result of one refresh. */
  datatype Attempt = Attempt(candidate: Option<Model>, failed: bool, pointer: Option<int>)

  function Refresh(current: Option<Model>, pointer: Option<int>, p: Publication): Attempt
  {
    if current.Some? && p.signature.Some? && p.signature == pointer then Attempt(None, false, pointer)
    else if p.manifest.None? || !p.manifest.value.champion then Attempt(None, true, pointer)
    else if current.Some? && current.value.identity == p.manifest.value.identity then Attempt(None, false, p.signature)
    else if !p.loads then Attempt(None, true, pointer)
    else Attempt(Some(Model(p.newId, p.manifest.value.identity)), false, p.signature)
  }

  /** The manager's fields. */
  datatype Manager = Manager(active: int, loading: bool, current: Option<Model>, pointer: Option<int>, failing: bool, closed: bool)

  // The blocks under the lock.

  function Entered(m: Manager): Manager
  {
    if m.closed then m
    else if m.active == 0 then m.(loading := true)
    else m.(active := m.active + 1)
  }

  function Loaded(m: Manager, a: Attempt): Manager
  {
    var swapped :=
      if a.candidate.Some? then m.(current := a.candidate, failing := false)
      else if a.failed then m.(failing := true)
      else m;
    var ended := swapped.(loading := false, pointer := a.pointer);
    if ended.current.None? then ended else ended.(active := ended.active + 1)
  }

  function Left(m: Manager): Manager { m.(active := m.active - 1) }

  function Closing(m: Manager): Manager { m.(closed := true) }

  function Drained(m: Manager): Manager { m.(current := None) }

  class AtomicModelManager {
    var active: int
    var loading: bool
    var current: Option<Model>
    var pointerSignature: Option<int>
    var failing: bool
    var closed: bool

    function State(): Manager
      reads this
    {
      Manager(active, loading, current, pointerSignature, failing, closed)
    }

    constructor ()
      ensures State() == Manager(0, false, None, None, false, false)
    {
      active, loading, current, pointerSignature, failing, closed := 0, false, None, None, false, false;
    }

    /** lease, once no load is in progress: fail, become the loader, or share the current model. */
    method Enter() returns (result: Result<Option<Model>>)
      requires !loading && (active != 0 && !closed ==> current.Some?)
      modifies this
      ensures State() == Entered(old(State()))
      ensures result.Failure? <==> old(closed)
      ensures result.Success? ==> result.value == if old(active) == 0 then None else old(current)
    {
      if closed {
        return Failure("model manager is closed");
      }
      if active == 0 {
        loading := true;
        return Success(None);
      }
      active := active + 1;
      return Success(current);
    }

    /** The second block of a lease that refreshed: swap, and share what is current. */
    method FinishLoad(p: Publication) returns (result: Result<Model>, retired: Option<Model>)
      requires loading
      modifies this
      ensures var attempt := Refresh(old(current), old(pointerSignature), p);
        && State() == Loaded(old(State()), attempt)
        && retired == (if attempt.candidate.Some? then old(current) else None)
        && (result.Success? <==> State().current.Some?)
        && (result.Success? ==> Some(result.value) == State().current)
    {
      var attempt := Refresh(current, pointerSignature, p);
      pointerSignature := attempt.pointer;
      retired := None;
      if attempt.candidate.Some? {
        retired := current;
        current := attempt.candidate;
        failing := false;
      } else if attempt.failed {
        failing := true;
      }
      loading := false;
      if current.None? {
        return Failure("no model could be loaded"), retired;
      }
      active := active + 1;
      return Success(current.value), retired;
    }

    method Leave()
      modifies this
      ensures State() == Left(old(State()))
    {
      active := active - 1;
    }

    method BeginClose()
      modifies this
      ensures State() == Closing(old(State()))
    {
      closed := true;
    }

    method TakeCurrent() returns (taken: Option<Model>)
      requires active == 0 && !loading
      modifies this
      ensures State() == Drained(old(State())) && taken == old(current)
    {
      taken := current;
      current := None;
    }
  }

  // Runs.

  /** Where a thread is: leasing threads load, close what they retired, and hold; closing threads drain. */
  datatype Place =
    | Loading
    | Retiring(model: Model, retired: Model)
    | Holding(model: Model)
    | Gone
    | Failed
    | Draining
    | Disposing(taken: Model)
    | Closed

  /** The manager, every thread that has called it, all models ever loaded, and how often each was closed. */
  datatype System = System(manager: Manager, threads: map<Thread, Place>, loaded: set<Model>, closes: map<Model, nat>)

  datatype Event =
    | Enter(thread: Thread)
    | FinishLoad(thread: Thread, publication: Publication)
    | CloseRetired(thread: Thread)
    | Leave(thread: Thread)
    | BeginClose(thread: Thread)
    | TakeCurrent(thread: Thread)
    | CloseTaken(thread: Thread)

  predicate At(s: System, t: Thread, p: Place) { t in s.threads && s.threads[t] == p }

  /** A loaded bundle is a new object. */
  predicate NewModel(s: System, p: Publication)
  {
    forall m :: m in s.loaded ==> m.id != p.newId
  }

  predicate Enabled(s: System, e: Event)
  {
    match e
    case Enter(t) => t !in s.threads && !s.manager.loading
    case FinishLoad(t, p) => At(s, t, Loading) && NewModel(s, p)
    case CloseRetired(t) => t in s.threads && s.threads[t].Retiring?
    case Leave(t) => t in s.threads && s.threads[t].Holding?
    case BeginClose(t) => t !in s.threads
    case TakeCurrent(t) => At(s, t, Draining) && s.manager.active == 0 && !s.manager.loading
    case CloseTaken(t) => t in s.threads && s.threads[t].Disposing?
  }

  function ClosesOf(s: System, m: Model): nat { if m in s.closes then s.closes[m] else 0 }

  function OneMoreClose(s: System, m: Model): map<Model, nat> { s.closes[m := ClosesOf(s, m) + 1] }

  /** Where a thread stands after its first block. */
  function PlaceAfterEnter(m: Manager): Place
  {
    if m.closed then Failed else if m.active == 0 then Loading
    else if m.current.Some? then Holding(m.current.value) else Failed
  }

  function PlaceAfterLoad(m: Manager, a: Attempt): Place
  {
    if a.candidate.Some? then
      if m.current.Some? then Retiring(a.candidate.value, m.current.value) else Holding(a.candidate.value)
    else if m.current.Some? then Holding(m.current.value)
    else Failed
  }

  function Step(s: System, e: Event): System
    requires Enabled(s, e)
  {
    var m := s.manager;
    match e
    case Enter(t) => s.(manager := Entered(m), threads := s.threads[t := PlaceAfterEnter(m)])
    case FinishLoad(t, p) =>
      var a := Refresh(m.current, m.pointer, p);
      s.(manager := Loaded(m, a), threads := s.threads[t := PlaceAfterLoad(m, a)],
         loaded := if a.candidate.Some? then s.loaded + {a.candidate.value} else s.loaded)
    case CloseRetired(t) =>
      s.(threads := s.threads[t := Holding(s.threads[t].model)], closes := OneMoreClose(s, s.threads[t].retired))
    case Leave(t) => s.(manager := Left(m), threads := s.threads[t := Gone])
    case BeginClose(t) => s.(manager := Closing(m), threads := s.threads[t := Draining])
    case TakeCurrent(t) =>
      s.(manager := Drained(m), threads := s.threads[t := if m.current.Some? then Disposing(m.current.value) else Closed])
    case CloseTaken(t) => s.(threads := s.threads[t := Closed], closes := OneMoreClose(s, s.threads[t].taken))
  }

  // What every step keeps.

  predicate Leases(p: Place) { p.Retiring? || p.Holding? }

  predicate IsLoading(p: Place) { p.Loading? }

  predicate HasDrained(p: Place) { p.Disposing? || p.Closed? }

  predicate IsClosing(p: Place) { p.Draining? || HasDrained(p) }

  /** The thread is about to close this model. */
  predicate WillClose(p: Place, m: Model)
  {
    (p.Retiring? && p.retired == m) || (p.Disposing? && p.taken == m)
  }

  function Closers(m: Model): Place -> bool { p => WillClose(p, m) }

  /** A loaded model is exactly one of: current, about to be closed by one thread, closed once. */
  ghost predicate Accounted(s: System, m: Model)
  {
    One(s.manager.current == Some(m)) + |Those(s.threads, Closers(m))| + ClosesOf(s, m) == 1
  }

  ghost predicate ThreadInv(s: System, p: Place)
  {
    && (Leases(p) ==> s.manager.current == Some(p.model))
    && (p.Retiring? ==> p.retired in s.loaded)
    && (p.Disposing? ==> p.taken in s.loaded)
    && (IsClosing(p) ==> s.manager.closed)
    && (HasDrained(p) ==> !s.manager.loading && s.manager.active == 0 && s.manager.current.None?)
  }

  ghost predicate Counts(s: System)
  {
    && s.manager.active == |Those(s.threads, Leases)|
    && One(s.manager.loading) == |Those(s.threads, IsLoading)|
    && (s.manager.loading ==> s.manager.active == 0)
    && (s.manager.active > 0 ==> s.manager.current.Some?)
  }

  ghost predicate Inv(s: System)
  {
    && Counts(s)
    && (s.manager.current.Some? ==> s.manager.current.value in s.loaded)
    && (forall t :: t in s.threads ==> ThreadInv(s, s.threads[t]))
    && (forall m :: m in s.loaded ==> Accounted(s, m))
    && (forall m :: m in s.closes ==> m in s.loaded)
  }

  lemma CountedThread(threads: map<Thread, Place>, t: Thread, which: Place -> bool)
    requires t in threads && which(threads[t])
    ensures |Those(threads, which)| > 0
  {
    assert t in Those(threads, which);
  }

  lemma NobodyCloses(s: System, m: Model)
    requires Inv(s) && m !in s.loaded
    ensures |Those(s.threads, Closers(m))| == 0 && ClosesOf(s, m) == 0
  {
    forall t | t in s.threads
      ensures !WillClose(s.threads[t], m)
    {
      assert ThreadInv(s, s.threads[t]);
    }
    assert Those(s.threads, Closers(m)) == {};
  }

  predicate InPlace(s: System, t: Thread, which: Place -> bool) { t in s.threads && which(s.threads[t]) }

  /** One thread moves; the manager and the tallies move with it. */
  ghost predicate Consistent(s: System, after: System, t: Thread, p: Place)
  {
    && after.threads == s.threads[t := p]
    && after.manager.active == s.manager.active - One(InPlace(s, t, Leases)) + One(Leases(p))
    && One(after.manager.loading) == One(s.manager.loading) - One(InPlace(s, t, IsLoading)) + One(IsLoading(p))
    && (after.manager.loading ==> after.manager.active == 0)
    && (after.manager.active > 0 ==> after.manager.current.Some?)
    && (after.manager.current.Some? ==> after.manager.current.value in after.loaded)
    && ThreadInv(after, p)
    && (forall m :: m in s.loaded ==> m in after.loaded)
    && (forall m :: m in after.closes ==> m in after.loaded)
    && (forall m :: m in after.loaded ==> Moved(s, after, t, p, m))
    && (forall u :: u != t && u in s.threads && ThreadInv(s, s.threads[u]) ==> ThreadInv(after, s.threads[u]))
  }

  /** The model's account balances: what leaves one place arrives in another. */
  ghost predicate Moved(s: System, after: System, t: Thread, p: Place, m: Model)
  {
    One(after.manager.current == Some(m)) + One(WillClose(p, m)) + ClosesOf(after, m)
      == One(s.manager.current == Some(m)) + One(InPlace(s, t, Closers(m))) + ClosesOf(s, m) + One(m !in s.loaded)
  }

  lemma ConsistentKeepsInv(s: System, after: System, t: Thread, p: Place)
    requires Inv(s) && Consistent(s, after, t, p)
    ensures Inv(after)
  {
    ThoseUpdate(s.threads, t, p, Leases);
    ThoseUpdate(s.threads, t, p, IsLoading);
    hide Those, ThreadInv, Leases, IsLoading, WillClose;
    forall u | u in after.threads
      ensures ThreadInv(after, after.threads[u])
    {
      if u != t { assert ThreadInv(s, s.threads[u]); }
    }
    forall m | m in after.loaded
      ensures Accounted(after, m)
    {
      assert Moved(s, after, t, p, m);
      ThoseUpdate(s.threads, t, p, Closers(m));
      assert Closers(m)(p) == WillClose(p, m);
      if m in s.loaded {
        assert Accounted(s, m);
      } else {
        NobodyCloses(s, m);
        assert s.manager.current != Some(m);
      }
    }
  }

  lemma NoLeases(s: System)
    requires Inv(s) && s.manager.active == 0
    ensures forall t :: t in s.threads ==> !Leases(s.threads[t])
  {
    forall t | t in s.threads
      ensures !Leases(s.threads[t])
    {
      if Leases(s.threads[t]) { CountedThread(s.threads, t, Leases); }
    }
  }

  lemma LeaseStepKeepsInv(s: System, e: Event)
    requires Inv(s) && Enabled(s, e)
    requires e.Enter? || e.CloseRetired? || e.Leave?
    ensures Inv(Step(s, e))
  {
    hide Those, Refresh;
    var t := e.thread;
    if t in s.threads { assert ThreadInv(s, s.threads[t]); }
    if InPlace(s, t, Leases) { CountedThread(s.threads, t, Leases); }
    ConsistentKeepsInv(s, Step(s, e), t, Step(s, e).threads[t]);
  }

  lemma LoadStepKeepsInv(s: System, t: Thread, p: Publication)
    requires Inv(s) && Enabled(s, FinishLoad(t, p))
    ensures Inv(Step(s, FinishLoad(t, p)))
  {
    CountedThread(s.threads, t, IsLoading);
    NoLeases(s);
    hide Those;
    var after := Step(s, FinishLoad(t, p));
    assert ThreadInv(s, s.threads[t]);
    forall u | u in s.threads ensures !HasDrained(s.threads[u]) { assert ThreadInv(s, s.threads[u]); }
    ConsistentKeepsInv(s, after, t, after.threads[t]);
  }

  lemma CloseStepKeepsInv(s: System, e: Event)
    requires Inv(s) && Enabled(s, e)
    requires e.BeginClose? || e.TakeCurrent? || e.CloseTaken?
    ensures Inv(Step(s, e))
  {
    NoLeasesIfDrained(s);
    hide Those;
    var t := e.thread;
    if t in s.threads { assert ThreadInv(s, s.threads[t]); }
    if e.TakeCurrent? { NoLeases(s); }
    ConsistentKeepsInv(s, Step(s, e), t, Step(s, e).threads[t]);
  }

  lemma NoLeasesIfDrained(s: System)
    requires Inv(s)
    ensures s.manager.active == 0 ==> forall t :: t in s.threads ==> !Leases(s.threads[t])
  {
    if s.manager.active == 0 { NoLeases(s); }
  }

  lemma StepKeepsInv(s: System, e: Event)
    requires Inv(s) && Enabled(s, e)
    ensures Inv(Step(s, e))
  {
    hide Inv, Step, Enabled;
    match e {
      case FinishLoad(t, p) => LoadStepKeepsInv(s, t, p);
      case Enter(_) => LeaseStepKeepsInv(s, e);
      case CloseRetired(_) => LeaseStepKeepsInv(s, e);
      case Leave(_) => LeaseStepKeepsInv(s, e);
      case _ => CloseStepKeepsInv(s, e);
    }
  }

  /** Events that are not enabled do not happen. */
  function Run(s: System, events: seq<Event>): System
  {
    if events == [] then s
    else
      var before := Run(s, events[..|events|-1]);
      if Enabled(before, events[|events|-1]) then Step(before, events[|events|-1]) else before
  }

  function Initial(): System { System(Manager(0, false, None, None, false, false), map[], {}, map[]) }

  lemma InitialInv()
    ensures Inv(Initial())
  {
    assert Those(map[], Leases) == {} && Those(map[], IsLoading) == {};
  }

  lemma {:induction false} RunKeepsInv(s: System, events: seq<Event>)
    requires Inv(s)
    ensures Inv(Run(s, events))
  {
    hide Inv, Step, Enabled;
    if events != [] {
      var before := Run(s, events[..|events|-1]);
      RunKeepsInv(s, events[..|events|-1]);
      if Enabled(before, events[|events|-1]) { StepKeepsInv(before, events[|events|-1]); }
    }
  }

  /**
   At every moment of every run: all leases hold the one current model, which nobody has
   closed or is about to close; no model has been closed twice; and a load is in progress
   only while there is no lease.
   */
  lemma LeasesAreSafe(events: seq<Event>)
    ensures var s := Run(Initial(), events);
      && (forall t :: t in s.threads && Leases(s.threads[t]) ==>
            s.manager.current == Some(s.threads[t].model) && ClosesOf(s, s.threads[t].model) == 0)
      && (forall t, u :: t in s.threads && Leases(s.threads[t]) && u in s.threads ==> !WillClose(s.threads[u], s.threads[t].model))
      && (forall m :: ClosesOf(s, m) <= 1)
      && (s.manager.loading ==> forall t :: t in s.threads ==> !Leases(s.threads[t]))
  {
    InitialInv();
    RunKeepsInv(Initial(), events);
    var s := Run(Initial(), events);
    NoLeasesIfDrained(s);
    hide Those;
    forall t | t in s.threads && Leases(s.threads[t])
      ensures s.manager.current == Some(s.threads[t].model) && ClosesOf(s, s.threads[t].model) == 0
    {
      assert ThreadInv(s, s.threads[t]);
      assert Accounted(s, s.threads[t].model);
    }
    forall t, u | t in s.threads && Leases(s.threads[t]) && u in s.threads
      ensures !WillClose(s.threads[u], s.threads[t].model)
    {
      assert ThreadInv(s, s.threads[t]);
      assert Accounted(s, s.threads[t].model);
      if WillClose(s.threads[u], s.threads[t].model) { CountedThread(s.threads, u, Closers(s.threads[t].model)); }
    }
    forall m
      ensures ClosesOf(s, m) <= 1
    {
      if m in s.loaded { assert Accounted(s, m); }
    }
  }

  /** A refresh that yields no new model leaves the current one in place, and still leases it. */
  lemma FailedPublicationKeepsModel(s: System, t: Thread, p: Publication)
    requires Inv(s) && Enabled(s, FinishLoad(t, p)) && s.manager.current.Some?
    requires p.manifest.None? || !p.manifest.value.champion || !p.loads
    ensures var after := Step(s, FinishLoad(t, p));
      after.manager.current == s.manager.current && after.threads[t] == Holding(s.manager.current.value)
  {
  }

  /** Otherwise the lease holds a model of the published checkpoint, unless the signature was unchanged. */
  lemma GoodPublicationIsServed(s: System, t: Thread, p: Publication)
    requires Inv(s) && Enabled(s, FinishLoad(t, p))
    requires p.manifest.Some? && p.manifest.value.champion && p.loads
    requires !(p.signature.Some? && p.signature == s.manager.pointer)
    ensures var place := Step(s, FinishLoad(t, p)).threads[t];
      Leases(place) && place.model.identity == p.manifest.value.identity
  {
  }

  // What a refresh remembers.

  /** The pointer is the one that was dealt with last. */
  predicate Known(s: System, p: Publication)
  {
    s.manager.current.Some? && p.signature.Some? && p.signature == s.manager.pointer
  }

  /** The publication names a champion that is current already, or that loads. */
  predicate Usable(s: System, p: Publication)
  {
    p.manifest.Some? && p.manifest.value.champion
    && (p.loads || (s.manager.current.Some? && s.manager.current.value.identity == p.manifest.value.identity))
  }

  /** A usable publication is remembered; any other is forgotten, to be tried again, and reported as failing until one loads. */
  lemma RefreshRemembers(s: System, t: Thread, p: Publication)
    requires Inv(s) && Enabled(s, FinishLoad(t, p))
    ensures var after := Step(s, FinishLoad(t, p)).manager;
      && after.pointer == (if !Known(s, p) && Usable(s, p) then p.signature else s.manager.pointer)
      && (after.failing <==> (!Known(s, p) && !Usable(s, p)) || (s.manager.failing && after.current == s.manager.current))
  {
    hide Inv;
    if s.manager.current.Some? { NewIsDifferent(s, t, p); }
  }

  lemma NewIsDifferent(s: System, t: Thread, p: Publication)
    requires Inv(s) && Enabled(s, FinishLoad(t, p)) && s.manager.current.Some?
    ensures s.manager.current.value.id != p.newId
  {
  }

  /** Leases that come and go do not forget it. */
  lemma {:induction false} PointerStays(s: System, events: seq<Event>)
    requires forall i :: 0 <= i < |events| ==> !events[i].FinishLoad? && !events[i].TakeCurrent?
    ensures Run(s, events).manager.pointer == s.manager.pointer && Run(s, events).manager.current == s.manager.current
    ensures Run(s, events).loaded == s.loaded
  {
    if events != [] {
      PointerStays(s, events[..|events|-1]);
    }
  }

  /** So a publication is loaded once: as long as its pointer is unchanged the next refresh keeps the model, even if reading it would fail. */
  lemma LoadedOnce(s: System, t: Thread, p: Publication, events: seq<Event>, u: Thread, q: Publication)
    requires Inv(s) && Enabled(s, FinishLoad(t, p)) && !Known(s, p) && Usable(s, p) && p.signature.Some? && q.signature == p.signature
    requires forall i :: 0 <= i < |events| ==> !events[i].FinishLoad? && !events[i].TakeCurrent?
    requires Enabled(Run(Step(s, FinishLoad(t, p)), events), FinishLoad(u, q))
    ensures var before := Run(Step(s, FinishLoad(t, p)), events);
      var after := Step(before, FinishLoad(u, q));
      && before.manager.current.Some? && before.manager.current.value.identity == p.manifest.value.identity
      && after.manager.current == before.manager.current && after.loaded == before.loaded && after.threads[u] == Holding(before.manager.current.value)
  {
    RefreshRemembers(s, t, p);
    PointerStays(Step(s, FinishLoad(t, p)), events);
    hide Inv, Run;
  }

  /** And one that failed is tried again, although its pointer is the same. */
  lemma FailedIsRetried(s: System, t: Thread, p: Publication, events: seq<Event>, u: Thread, q: Publication)
    requires Inv(s) && Enabled(s, FinishLoad(t, p)) && !Known(s, p) && !Usable(s, p) && s.manager.current.Some? && q.signature == p.signature
    requires forall i :: 0 <= i < |events| ==> !events[i].FinishLoad? && !events[i].TakeCurrent?
    requires q.manifest.Some? && q.manifest.value.champion && q.loads
    requires Enabled(Run(Step(s, FinishLoad(t, p)), events), FinishLoad(u, q))
    ensures var place := Step(Run(Step(s, FinishLoad(t, p)), events), FinishLoad(u, q)).threads[u];
      Leases(place) && place.model.identity == q.manifest.value.identity
  {
    RefreshRemembers(s, t, p);
    PointerStays(Step(s, FinishLoad(t, p)), events);
    hide Inv, Run;
  }

  /** A new manager is open: the first lease loads what is published. */
  lemma FirstLeaseLoads(t: Thread, p: Publication)
    requires p.manifest.Some? && p.manifest.value.champion && p.loads
    ensures !Initial().manager.failing && Enabled(Initial(), Enter(t)) && Enabled(Step(Initial(), Enter(t)), FinishLoad(t, p))
    ensures var after := Step(Step(Initial(), Enter(t)), FinishLoad(t, p));
      && after.threads[t] == Holding(Model(p.newId, p.manifest.value.identity)) && !after.manager.failing && after.manager.active == 1
  {
  }

  predicate SomeCloseReturned(s: System) { exists t :: t in s.threads && HasDrained(s.threads[t]) }

  lemma ClosedStep(s: System, e: Event)
    requires Inv(s) && Enabled(s, e) && SomeCloseReturned(s)
    ensures SomeCloseReturned(Step(s, e))
    ensures e.Enter? ==> Step(s, e).threads[e.thread] == Failed
    ensures Step(s, e).loaded == s.loaded
  {
    var t :| t in s.threads && HasDrained(s.threads[t]);
    assert ThreadInv(s, s.threads[t]);
    if e.FinishLoad? { CountedThread(s.threads, e.thread, IsLoading); }
    assert t in Step(s, e).threads && HasDrained(Step(s, e).threads[t]);
  }

  /**
   Once a close has drained the manager, in every continuation: there is no lease, no load
   and no current model, nothing is loaded, and every model ever loaded has been closed
   once or is being closed by the thread that drained it.
   */
  lemma {:induction false} ClosedForGood(s: System, events: seq<Event>)
    requires Inv(s) && SomeCloseReturned(s)
    ensures var after := Run(s, events);
      && SomeCloseReturned(after) && after.loaded == s.loaded
      && after.manager.current.None? && !after.manager.loading && after.manager.active == 0
      && (forall t :: t in after.threads ==> !Leases(after.threads[t]))
      && (forall m :: m in after.loaded ==> |Those(after.threads, Closers(m))| + ClosesOf(after, m) == 1)
  {
    RunKeepsInv(s, events);
    if events != [] {
      var k := |events| - 1;
      ClosedForGood(s, events[..k]);
      RunKeepsInv(s, events[..k]);
      if Enabled(Run(s, events[..k]), events[k]) { ClosedStep(Run(s, events[..k]), events[k]); }
    }
    var after := Run(s, events);
    DrainedFacts(after);
  }

  lemma DrainedFacts(s: System)
    requires Inv(s) && SomeCloseReturned(s)
    ensures s.manager.current.None? && !s.manager.loading && s.manager.active == 0
    ensures forall t :: t in s.threads ==> !Leases(s.threads[t])
    ensures forall m :: m in s.loaded ==> |Those(s.threads, Closers(m))| + ClosesOf(s, m) == 1
  {
    var t :| t in s.threads && HasDrained(s.threads[t]);
    assert ThreadInv(s, s.threads[t]);
    NoLeases(s);
    hide Those;
    forall m | m in s.loaded
      ensures |Those(s.threads, Closers(m))| + ClosesOf(s, m) == 1
    {
      assert Accounted(s, m);
    }
  }
}
