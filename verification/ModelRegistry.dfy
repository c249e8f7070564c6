/**
 The registry of loaded models that cohorts of actors share: a bounded table in order of
 last acquisition, with a pin count per model. A model is open exactly while it is in
 the table, and nobody's model is evicted while it is pinned.
 */
module ModelRegistry {
  import opened Results

  type Key = int
  type Model = int

  datatype Entry = Entry(key: Key, model: Model, pins: nat)

  /** The least recently acquired comes first. */
  type Table = seq<Entry>

  predicate Has(table: Table, key: Key)
  {
    exists i :: 0 <= i < |table| && table[i].key == key
  }

  function Position(table: Table, key: Key): (i: nat)
    requires Has(table, key)
    ensures i < |table| && table[i].key == key
  {
    if table[|table|-1].key == key then |table| - 1 else Position(table[..|table|-1], key)
  }

  /** The first entry without a pin. */
  function FirstUnpinned(table: Table): (r: Option<nat>)
    ensures r.Some? ==> r.value < |table| && table[r.value].pins == 0 && forall i :: 0 <= i < r.value ==> table[i].pins > 0
    ensures r.None? ==> forall i :: 0 <= i < |table| ==> table[i].pins > 0
  {
    if table == [] then None
    else
      var k := |table| - 1;
      var before := FirstUnpinned(table[..k]);
      if before.Some? then before else if table[k].pins == 0 then Some(k) else None
  }

  function Without(table: Table, i: nat): (r: Table)
    requires i < |table|
    ensures |r| == |table| - 1
    ensures forall j :: 0 <= j < |r| ==> r[j] == table[if j < i then j else j + 1]
  {
    table[..i] + table[i+1..]
  }

  datatype Outcome = MustWait | LoadFailed | Acquired(model: Model)

  /** One pass of acquire: what it answers, the table it leaves, and the entry it closed. */
  datatype Pass = Pass(outcome: Outcome, table: Table, evicted: Option<Entry>)

  /** The model is in the table: it moves to the end with one more pin. */
  function Pinned(table: Table, key: Key): Pass
    requires Has(table, key)
  {
    var i := Position(table, key);
    Pass(Acquired(table[i].model), Without(table, i) + [table[i].(pins := table[i].pins + 1)], None)
  }

  /** There is room: the model is loaded, or the table stays as it is. */
  function Inserted(table: Table, key: Key, bundle: Model, loads: bool, evicted: Option<Entry>): Pass
  {
    if loads then Pass(Acquired(bundle), table + [Entry(key, bundle, 1)], evicted) else Pass(LoadFailed, table, evicted)
  }

  function Acquire(table: Table, capacity: nat, key: Key, bundle: Model, loads: bool): Pass
  {
    if Has(table, key) then Pinned(table, key)
    else if |table| < capacity then Inserted(table, key, bundle, loads, None)
    else
      match FirstUnpinned(table)
      case None => Pass(MustWait, table, None)
      case Some(i) => Inserted(Without(table, i), key, bundle, loads, Some(table[i]))
  }

  /** Releasing an absent model or one without a pin is an error. */
  function Release(table: Table, key: Key): Option<Table>
  {
    if !Has(table, key) || table[Position(table, key)].pins == 0 then None
    else
      var i := Position(table, key);
      Some(table[i := table[i].(pins := table[i].pins - 1)])
  }

  class SharedModelRegistry {
    const capacity: nat
    var entries: Table

    constructor (capacity: nat)
      requires capacity > 0
      ensures this.capacity == capacity && entries == []
    {
      this.capacity := capacity;
      entries := [];
    }

    /** acquire under its lock, from entry or wake-up until it waits or returns. */
    method TryAcquire(key: Key, bundle: Model, loads: bool) returns (outcome: Outcome, closed: seq<Model>)
      modifies this
      ensures Pass(outcome, entries, Acquire(old(entries), capacity, key, bundle, loads).evicted)
        == Acquire(old(entries), capacity, key, bundle, loads)
      ensures closed == match Acquire(old(entries), capacity, key, bundle, loads).evicted
                        case None => []
                        case Some(e) => [e.model]
    {
      closed := [];
      if !Has(entries, key) {
        if |entries| >= capacity {
          var unused := FirstUnpinned(entries);
          if unused.None? {
            return MustWait, closed;
          }
          closed := [entries[unused.value].model];
          entries := Without(entries, unused.value);
        }
        if !loads {
          return LoadFailed, closed;
        }
        entries := entries + [Entry(key, bundle, 1)];
        return Acquired(bundle), closed;
      }
      var i := Position(entries, key);
      var entry := entries[i];
      entries := Without(entries, i) + [entry.(pins := entry.pins + 1)];
      return Acquired(entry.model), closed;
    }

    method Unpin(key: Key) returns (ok: bool)
      modifies this
      ensures ok <==> Release(old(entries), key).Some?
      ensures entries == if ok then Release(old(entries), key).value else old(entries)
    {
      if !Has(entries, key) || entries[Position(entries, key)].pins == 0 {
        return false;
      }
      var i := Position(entries, key);
      entries := entries[i := entries[i].(pins := entries[i].pins - 1)];
      return true;
    }

    method Close() returns (ok: bool, closed: seq<Model>)
      modifies this
      ensures ok <==> forall i :: 0 <= i < |old(entries)| ==> old(entries)[i].pins == 0
      ensures ok ==> entries == [] && |closed| == |old(entries)| && forall i :: 0 <= i < |closed| ==> closed[i] == old(entries)[i].model
      ensures !ok ==> entries == old(entries) && closed == []
    {
      closed := [];
      if exists i :: 0 <= i < |entries| && entries[i].pins != 0 {
        return false, closed;
      }
      for i := 0 to |entries|
        invariant entries == old(entries)
        invariant |closed| == i && forall j :: 0 <= j < i ==> closed[j] == entries[j].model
      {
        closed := closed + [entries[i].model];
      }
      entries := [];
      return true, closed;
    }
  }

  // Runs.

  /** A model that a cohort has acquired and not released. */
  datatype Hold = Hold(key: Key, model: Model)

  /** The table, what is held, the models ever opened and closed, and when each key was last acquired. */
  datatype System = System(table: Table, holds: seq<Hold>, everOpen: set<Model>, closed: set<Model>, last: map<Key, nat>, clock: nat)

  /** Some cohort tries to acquire, some hold is released, or the registry is closed. */
  datatype Event = TryAcquire(key: Key, bundle: Model, loads: bool) | Unpin(hold: nat) | Close

  predicate Enabled(s: System, e: Event)
  {
    match e
    case TryAcquire(_, bundle, _) => bundle !in s.everOpen
    case Unpin(i) => i < |s.holds|
    case Close => true
  }

  predicate Opens(s: System, p: Pass, bundle: Model) { p.outcome == Acquired(bundle) && bundle !in s.everOpen }

  function ModelsOf(table: Table): set<Model>
  {
    set i | 0 <= i < |table| :: table[i].model
  }

  predicate AllUnpinned(table: Table) { forall i :: 0 <= i < |table| ==> table[i].pins == 0 }

  function Step(capacity: nat, s: System, e: Event): System
    requires Enabled(s, e)
  {
    match e
    case TryAcquire(key, bundle, loads) =>
      var p := Acquire(s.table, capacity, key, bundle, loads);
      System(p.table,
             if p.outcome.Acquired? then s.holds + [Hold(key, p.outcome.model)] else s.holds,
             if Opens(s, p, bundle) then s.everOpen + {bundle} else s.everOpen,
             if p.evicted.Some? then s.closed + {p.evicted.value.model} else s.closed,
             if p.outcome.Acquired? then s.last[key := s.clock] else s.last,
             s.clock + 1)
    case Unpin(i) =>
      var released := Release(s.table, s.holds[i].key);
      if released.None? then s else s.(table := released.value, holds := s.holds[..i] + s.holds[i+1..])
    case Close =>
      if AllUnpinned(s.table) then s.(table := [], closed := s.closed + ModelsOf(s.table)) else s
  }

  /** Outstanding acquisitions of a key: acquires minus releases. */
  function Outstanding(holds: seq<Hold>, key: Key): nat
  {
    if holds == [] then 0
    else Outstanding(holds[..|holds|-1], key) + (if holds[|holds|-1].key == key then 1 else 0)
  }

  lemma {:induction false} OutstandingWithout(holds: seq<Hold>, i: nat, key: Key)
    requires i < |holds|
    ensures Outstanding(holds, key) == Outstanding(holds[..i] + holds[i+1..], key) + (if holds[i].key == key then 1 else 0)
  {
    var k := |holds| - 1;
    if i == k {
      assert holds[..i] + holds[i+1..] == holds[..k];
    } else {
      var rest := holds[..i] + holds[i+1..];
      assert rest[..k-1] == holds[..k][..i] + holds[..k][i+1..];
      OutstandingWithout(holds[..k], i, key);
    }
  }

  lemma OutstandingMore(holds: seq<Hold>, h: Hold, key: Key)
    ensures Outstanding(holds + [h], key) == Outstanding(holds, key) + (if h.key == key then 1 else 0)
  {
    assert (holds + [h])[..|holds|] == holds;
  }

  /** A hold's entry is in the table, with the very model that was handed out. */
  ghost predicate Served(table: Table, h: Hold)
  {
    exists i :: 0 <= i < |table| && table[i].key == h.key && table[i].model == h.model
  }

  ghost predicate Distinct(table: Table)
  {
    forall i, j :: 0 <= i < j < |table| ==> table[i].key != table[j].key && table[i].model != table[j].model
  }

  /** The table is in order of last acquisition. */
  ghost predicate Recency(table: Table, last: map<Key, nat>, clock: nat)
  {
    && (forall i :: 0 <= i < |table| ==> table[i].key in last && last[table[i].key] < clock)
    && (forall i, j :: 0 <= i < j < |table| ==> last[table[i].key] < last[table[j].key])
  }

  /** What every step keeps. */
  ghost predicate Inv(capacity: nat, s: System)
  {
    && |s.table| <= capacity && Distinct(s.table) && Recency(s.table, s.last, s.clock)
    && (forall i :: 0 <= i < |s.table| ==> s.table[i].pins == Outstanding(s.holds, s.table[i].key))
    && (forall h :: h in s.holds ==> Served(s.table, h))
    && (forall m :: m in ModelsOf(s.table) <==> m in s.everOpen && m !in s.closed)
    && s.closed <= s.everOpen
  }

  /** An entry acquired now goes last. */
  lemma RecencyAppend(table: Table, e: Entry, last: map<Key, nat>, clock: nat)
    requires Recency(table, last, clock) && forall i :: 0 <= i < |table| ==> table[i].key != e.key
    ensures Recency(table + [e], last[e.key := clock], clock + 1)
  {
  }

  lemma RecencyWithout(table: Table, i: nat, last: map<Key, nat>, clock: nat)
    requires Recency(table, last, clock) && i < |table|
    ensures Recency(Without(table, i), last, clock)
  {
  }

  lemma DistinctWithout(table: Table, i: nat)
    requires Distinct(table) && i < |table|
    ensures Distinct(Without(table, i))
    ensures forall j :: 0 <= j < |table| - 1 ==> Without(table, i)[j].key != table[i].key && Without(table, i)[j].model != table[i].model
  {
  }

  lemma DistinctAppend(table: Table, e: Entry)
    requires Distinct(table) && forall j :: 0 <= j < |table| ==> table[j].key != e.key && table[j].model != e.model
    ensures Distinct(table + [e])
  {
  }

  lemma InTable(table: Table, i: nat)
    requires i < |table|
    ensures table[i].model in ModelsOf(table) && Has(table, table[i].key)
  {
  }

  /** The table with an unpinned entry evicted and its model closed. */
  function Evict(s: System, i: nat): System
    requires i < |s.table|
  {
    s.(table := Without(s.table, i), closed := s.closed + {s.table[i].model})
  }

  lemma ModelsWithout(table: Table, i: nat)
    requires i < |table|
    requires Distinct(table)
    ensures forall m :: m in ModelsOf(Without(table, i)) <==> m in ModelsOf(table) && m != table[i].model
  {
    var rest := Without(table, i);
    forall m | m in ModelsOf(table) && m != table[i].model
      ensures m in ModelsOf(rest)
    {
      var j :| 0 <= j < |table| && table[j].model == m;
      assert rest[if j < i then j else j - 1].model == m;
    }
  }

  /** An unpinned entry serves nobody. */
  lemma {:induction false} UnpinnedServesNobody(holds: seq<Hold>, key: Key)
    requires Outstanding(holds, key) == 0
    ensures forall h :: h in holds ==> h.key != key
  {
    if holds != [] {
      UnpinnedServesNobody(holds[..|holds|-1], key);
      assert holds == holds[..|holds|-1] + [holds[|holds|-1]];
    }
  }

  lemma ServedWithout(table: Table, i: nat, h: Hold)
    requires i < |table| && Served(table, h) && h.key != table[i].key
    ensures Served(Without(table, i), h)
  {
    var rest := Without(table, i);
    var j :| 0 <= j < |table| && table[j].key == h.key && table[j].model == h.model;
    var k := if j < i then j else j - 1;
    assert rest[k] == table[j];
  }

  lemma EvictKeepsInv(capacity: nat, s: System, i: nat)
    requires Inv(capacity, s) && i < |s.table| && s.table[i].pins == 0
    ensures Inv(capacity, Evict(s, i))
    ensures |Evict(s, i).table| < capacity
    ensures forall key :: !Has(s.table, key) ==> !Has(Evict(s, i).table, key)
  {
    ModelsWithout(s.table, i);
    UnpinnedServesNobody(s.holds, s.table[i].key);
    InTable(s.table, i);
    RecencyWithout(s.table, i, s.last, s.clock);
    DistinctWithout(s.table, i);
    hide ModelsOf, Distinct, Recency;
    forall h | h in s.holds
      ensures Served(Without(s.table, i), h)
    {
      ServedWithout(s.table, i, h);
    }
  }

  function Insert(s: System, key: Key, bundle: Model): System
  {
    System(s.table + [Entry(key, bundle, 1)], s.holds + [Hold(key, bundle)], s.everOpen + {bundle}, s.closed,
           s.last[key := s.clock], s.clock + 1)
  }

  lemma ServedAppend(table: Table, e: Entry, h: Hold)
    ensures Served(table, h) ==> Served(table + [e], h)
    ensures h == Hold(e.key, e.model) ==> Served(table + [e], h)
  {
    var more := table + [e];
    if Served(table, h) {
      var j :| 0 <= j < |table| && table[j].key == h.key && table[j].model == h.model;
      assert more[j] == table[j];
    }
    if h == Hold(e.key, e.model) { assert more[|table|] == e; }
  }

  lemma {:induction false} NotServedNotHeld(table: Table, holds: seq<Hold>, key: Key)
    requires !Has(table, key) && forall h :: h in holds ==> Served(table, h)
    ensures Outstanding(holds, key) == 0
  {
    if holds != [] {
      var k := |holds| - 1;
      NotServedNotHeld(table, holds[..k], key);
      assert Served(table, holds[k]);
    }
  }

  lemma ModelsAppend(table: Table, e: Entry)
    ensures ModelsOf(table + [e]) == ModelsOf(table) + {e.model}
  {
    var more := table + [e];
    forall m | m in ModelsOf(table) + {e.model}
      ensures m in ModelsOf(more)
    {
      if m == e.model { assert more[|table|].model == m; }
      else {
        var j :| 0 <= j < |table| && table[j].model == m;
        assert more[j].model == m;
      }
    }
  }

  lemma InsertKeepsInv(capacity: nat, s: System, key: Key, bundle: Model)
    requires Inv(capacity, s) && !Has(s.table, key) && |s.table| < capacity && bundle !in s.everOpen
    ensures Inv(capacity, Insert(s, key, bundle))
  {
    var e := Entry(key, bundle, 1);
    var after := Insert(s, key, bundle);
    NotServedNotHeld(s.table, s.holds, key);
    ModelsAppend(s.table, e);
    forall i | 0 <= i < |s.table|
      ensures s.table[i].model in s.everOpen && s.table[i].key != key
    {
      InTable(s.table, i);
    }
    RecencyAppend(s.table, e, s.last, s.clock);
    DistinctAppend(s.table, e);
    hide ModelsOf, Distinct, Recency;
    forall i | 0 <= i < |after.table|
      ensures after.table[i].pins == Outstanding(after.holds, after.table[i].key)
    {
      OutstandingMore(s.holds, Hold(key, bundle), after.table[i].key);
    }
    forall h | h in after.holds
      ensures Served(after.table, h)
    {
      assert h in s.holds || h == Hold(key, bundle);
      ServedAppend(s.table, e, h);
    }
  }

  lemma ServedMoved(table: Table, i: nat, h: Hold)
    requires i < |table| && Served(table, h)
    ensures Served(Without(table, i) + [table[i].(pins := table[i].pins + 1)], h)
  {
    var moved := Without(table, i) + [table[i].(pins := table[i].pins + 1)];
    var j :| 0 <= j < |table| && table[j].key == h.key && table[j].model == h.model;
    var k := if j < i then j else if j == i then |table| - 1 else j - 1;
    assert moved[k].key == h.key && moved[k].model == h.model;
  }

  lemma PinKeepsInv(capacity: nat, s: System, key: Key, bundle: Model, loads: bool)
    requires Inv(capacity, s) && Has(s.table, key) && bundle !in s.everOpen
    ensures Inv(capacity, Step(capacity, s, TryAcquire(key, bundle, loads)))
  {
    var i := Position(s.table, key);
    var e := s.table[i];
    var moved := e.(pins := e.pins + 1);
    var after := Step(capacity, s, TryAcquire(key, bundle, loads));
    assert after.table == Without(s.table, i) + [moved];
    InTable(s.table, i);
    assert e.model != bundle;
    ModelsWithout(s.table, i);
    ModelsAppend(Without(s.table, i), moved);
    RecencyWithout(s.table, i, s.last, s.clock);
    DistinctWithout(s.table, i);
    RecencyAppend(Without(s.table, i), moved, s.last, s.clock);
    DistinctAppend(Without(s.table, i), moved);
    hide ModelsOf, Position, Distinct, Recency;
    forall j | 0 <= j < |after.table|
      ensures after.table[j].pins == Outstanding(after.holds, after.table[j].key)
    {
      OutstandingMore(s.holds, Hold(key, e.model), after.table[j].key);
    }
    forall h | h in after.holds
      ensures Served(after.table, h)
    {
      if h in s.holds { ServedMoved(s.table, i, h); } else { assert h == Hold(key, e.model); ServedAppend(Without(s.table, i), moved, h); }
    }
  }

  lemma AcquireKeepsInv(capacity: nat, s: System, key: Key, bundle: Model, loads: bool)
    requires Inv(capacity, s) && bundle !in s.everOpen && capacity > 0
    ensures Inv(capacity, Step(capacity, s, TryAcquire(key, bundle, loads)))
  {
    if Has(s.table, key) {
      PinKeepsInv(capacity, s, key, bundle, loads);
    } else if |s.table| < capacity {
      InsertKeepsInv(capacity, s, key, bundle);
    } else if FirstUnpinned(s.table).Some? {
      var i := FirstUnpinned(s.table).value;
      EvictKeepsInv(capacity, s, i);
      InsertKeepsInv(capacity, Evict(s, i), key, bundle);
    }
  }

  lemma UnpinKeepsInv(capacity: nat, s: System, i: nat)
    requires Inv(capacity, s) && i < |s.holds|
    ensures Inv(capacity, Step(capacity, s, Unpin(i)))
    ensures Release(s.table, s.holds[i].key).Some?
  {
    var h := s.holds[i];
    assert Served(s.table, h);
    var p := Position(s.table, h.key);
    var rest := s.holds[..i] + s.holds[i+1..];
    OutstandingWithout(s.holds, i, h.key);
    var after := Step(capacity, s, Unpin(i));
    assert after.table == s.table[p := s.table[p].(pins := s.table[p].pins - 1)];
    assert forall j :: 0 <= j < |s.table| ==> after.table[j].key == s.table[j].key && after.table[j].model == s.table[j].model;
    assert ModelsOf(after.table) == ModelsOf(s.table) by { SameModels(s.table, after.table); }
    hide ModelsOf, Position;
    forall j | 0 <= j < |after.table|
      ensures after.table[j].pins == Outstanding(rest, after.table[j].key)
    {
      OutstandingWithout(s.holds, i, after.table[j].key);
    }
    forall g | g in rest
      ensures Served(after.table, g)
    {
      assert g in s.holds;
      assert Served(s.table, g);
      var j :| 0 <= j < |s.table| && s.table[j].key == g.key && s.table[j].model == g.model;
      assert after.table[j].key == g.key && after.table[j].model == g.model;
    }
  }

  lemma SameModels(a: Table, b: Table)
    requires |a| == |b| && forall j :: 0 <= j < |a| ==> a[j].model == b[j].model
    ensures ModelsOf(a) == ModelsOf(b)
  {
    forall m ensures m in ModelsOf(a) <==> m in ModelsOf(b) {
      if j :| 0 <= j < |a| && a[j].model == m { assert b[j].model == m; }
      if j :| 0 <= j < |b| && b[j].model == m { assert a[j].model == m; }
    }
  }

  lemma CloseKeepsInv(capacity: nat, s: System)
    requires Inv(capacity, s)
    ensures Inv(capacity, Step(capacity, s, Close))
    ensures AllUnpinned(s.table) ==> s.holds == [] && Step(capacity, s, Close).closed == s.everOpen
  {
    if AllUnpinned(s.table) {
      if s.holds != [] {
        var h := s.holds[0];
        assert h in s.holds && Served(s.table, h);
        UnpinnedServesNobody(s.holds, h.key);
      }
      assert ModelsOf([]) == {};
      forall m | m in s.everOpen ensures m in s.closed + ModelsOf(s.table) {}
    }
  }

  lemma StepKeepsInv(capacity: nat, s: System, e: Event)
    requires Inv(capacity, s) && Enabled(s, e) && capacity > 0
    ensures Inv(capacity, Step(capacity, s, e))
  {
    hide Inv, Step;
    match e {
      case TryAcquire(key, bundle, loads) => AcquireKeepsInv(capacity, s, key, bundle, loads);
      case Unpin(i) => UnpinKeepsInv(capacity, s, i);
      case Close => CloseKeepsInv(capacity, s);
    }
  }

  function Run(capacity: nat, s: System, events: seq<Event>): System
  {
    if events == [] then s
    else
      var before := Run(capacity, s, events[..|events|-1]);
      if Enabled(before, events[|events|-1]) then Step(capacity, before, events[|events|-1]) else before
  }

  function Initial(): System { System([], [], {}, {}, map[], 0) }

  lemma {:induction false} RunKeepsInv(capacity: nat, s: System, events: seq<Event>)
    requires Inv(capacity, s) && capacity > 0
    ensures Inv(capacity, Run(capacity, s, events))
  {
    hide Inv, Step, Enabled;
    if events != [] {
      var before := Run(capacity, s, events[..|events|-1]);
      RunKeepsInv(capacity, s, events[..|events|-1]);
      if Enabled(before, events[|events|-1]) { StepKeepsInv(capacity, before, events[|events|-1]); }
    }
  }

  /**
   At every moment of every run the table is within its bound, each pin count is the
   number of acquisitions not yet released, every held model is open, and the open models
   are exactly those in the table.
   */
  lemma RegistryIsSafe(capacity: nat, events: seq<Event>)
    requires capacity > 0
    ensures var s := Run(capacity, Initial(), events);
      && |s.table| <= capacity
      && (forall i :: 0 <= i < |s.table| ==> s.table[i].pins == Outstanding(s.holds, s.table[i].key))
      && (forall m :: m in ModelsOf(s.table) <==> m in s.everOpen && m !in s.closed)
      && (forall h :: h in s.holds ==> h.model in s.everOpen && h.model !in s.closed)
  {
    assert Inv(capacity, Initial());
    RunKeepsInv(capacity, Initial(), events);
    var s := Run(capacity, Initial(), events);
    forall h | h in s.holds
      ensures h.model in s.everOpen && h.model !in s.closed
    {
      assert Served(s.table, h);
      var i :| 0 <= i < |s.table| && s.table[i].key == h.key && s.table[i].model == h.model;
      InTable(s.table, i);
    }
  }

  /**
   An acquire that finds no room evicts the model nobody holds whose last acquisition is
   oldest. It waits exactly when the table is full, the model is not in it, and every
   entry is held by some cohort.
   */
  lemma EvictsOldestUnheld(capacity: nat, s: System, key: Key, bundle: Model, loads: bool)
    requires Inv(capacity, s)
    ensures var p := Acquire(s.table, capacity, key, bundle, loads);
      && (p.outcome.MustWait? <==> (|s.table| == capacity && !Has(s.table, key)
            && forall i :: 0 <= i < |s.table| ==> Outstanding(s.holds, s.table[i].key) > 0))
      && (p.evicted.Some? ==>
            && |s.table| == capacity && !Has(s.table, key)
            && Outstanding(s.holds, p.evicted.value.key) == 0
            && (forall h :: h in s.holds ==> h.model != p.evicted.value.model)
            && (forall i :: 0 <= i < |s.table| && Outstanding(s.holds, s.table[i].key) == 0 ==>
                  s.last[p.evicted.value.key] <= s.last[s.table[i].key]))
  {
    var p := Acquire(s.table, capacity, key, bundle, loads);
    if p.evicted.Some? {
      var i := FirstUnpinned(s.table).value;
      UnpinnedServesNobody(s.holds, s.table[i].key);
      forall h | h in s.holds
        ensures h.model != s.table[i].model
      {
        assert Served(s.table, h);
      }
    }
  }

  /** Closing succeeds exactly when nothing is held, and leaves every model closed. */
  lemma CloseNeedsNoHolds(capacity: nat, s: System)
    requires Inv(capacity, s)
    ensures AllUnpinned(s.table) <==> s.holds == []
    ensures s.holds == [] ==> Step(capacity, s, Close).table == [] && Step(capacity, s, Close).closed == s.everOpen
  {
    CloseKeepsInv(capacity, s);
  }

  predicate InTableAs(table: Table, key: Key, model: Model) { exists i :: 0 <= i < |table| && table[i].key == key && table[i].model == model }

  /**
   What an acquire achieves: a model in the table is handed out again, a missing one is
   loaded and handed out if there is room or somebody to evict, and otherwise, or when the
   load fails, nobody holds anything more.
   */
  lemma AcquireServes(capacity: nat, s: System, key: Key, bundle: Model, loads: bool)
    requires Inv(capacity, s) && Enabled(s, TryAcquire(key, bundle, loads))
    ensures var after := Step(capacity, s, TryAcquire(key, bundle, loads));
      var room := |s.table| < capacity || exists i :: 0 <= i < |s.table| && s.table[i].pins == 0;
      if Has(s.table, key) then
        && |after.holds| == |s.holds| + 1 && after.holds[..|s.holds|] == s.holds && after.holds[|s.holds|].key == key
        && InTableAs(s.table, key, after.holds[|s.holds|].model) && after.everOpen == s.everOpen && after.closed == s.closed
      else if room && loads then
        && after.holds == s.holds + [Hold(key, bundle)] && InTableAs(after.table, key, bundle) && after.everOpen == s.everOpen + {bundle}
      else after.holds == s.holds && after.everOpen == s.everOpen && !Has(after.table, key) && (!room ==> after.table == s.table)
  {
    hide Inv, ModelsOf;
    if Has(s.table, key) {
      OpenAlready(capacity, s, key, bundle);
    } else if |s.table| >= capacity && FirstUnpinned(s.table).Some? {
      KeyStaysOut(s.table, FirstUnpinned(s.table).value, key);
    }
    var p := Acquire(s.table, capacity, key, bundle, loads);
    if p.outcome == Acquired(bundle) && !Has(s.table, key) {
      assert p.table[|p.table|-1] == Entry(key, bundle, 1);
    }
  }

  lemma OpenAlready(capacity: nat, s: System, key: Key, bundle: Model)
    requires Inv(capacity, s) && Has(s.table, key) && bundle !in s.everOpen
    ensures s.table[Position(s.table, key)].model != bundle
  {
    assert s.table[Position(s.table, key)].model in ModelsOf(s.table);
  }

  lemma KeyStaysOut(table: Table, i: nat, key: Key)
    requires i < |table| && !Has(table, key)
    ensures !Has(Without(table, i), key)
  {
    var r := Without(table, i);
    forall j | 0 <= j < |r| ensures r[j].key != key { assert r[j] == table[if j < i then j else j + 1]; }
  }
}
