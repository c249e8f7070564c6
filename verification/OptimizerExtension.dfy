/**
 Extending a saved optimizer with new parameters. Saved moments are stored under numeric
 ids that differ between the two optimizers; seen through parameter names, nothing that
 was learned changes.
 */
module OptimizerExtension {
  import opened Results
  import opened Sequences

  type Name = int
  type Id = int
  type Moment = int

  /** How one group of parameters is routed. */
  datatype Route = Route(name: int, algorithm: int, weightDecay: int, names: seq<Name>)

  /** A named routing contract: the optimizer's configuration and its groups. */
  datatype Contract = Contract(configuration: int, groups: seq<Route>)

  /** A saved group: its settings, and one id per routed name. */
  datatype Group = Group(settings: int, params: seq<Id>)

  datatype State = State(moments: map<Id, Moment>, groups: seq<Group>)

  /** The names that are not added, in order. */
  function Without(names: seq<Name>, added: set<Name>): seq<Name>
  {
    if names == [] then []
    else
      var k := |names| - 1;
      Without(names[..k], added) + (if names[k] in added then [] else [names[k]])
  }

  lemma {:induction false} WithoutMembers(names: seq<Name>, added: set<Name>)
    ensures forall n :: n in Without(names, added) <==> n in names && n !in added
  {
    if names != [] {
      var k := |names| - 1;
      WithoutMembers(names[..k], added);
      assert names == names[..k] + [names[k]];
    }
  }

  function IdOf(names: seq<Name>, params: seq<Id>, n: Name): (id: Id)
    requires n in names && |names| == |params|
    ensures exists i :: 0 <= i < |names| && names[i] == n && params[i] == id
  {
    var k := |names| - 1;
    if names[k] == n then params[k]
    else
      assert names == names[..k] + [names[k]];
      IdOf(names[..k], params[..k], n)
  }

  /** A parameter that both optimizers know, with its two ids. */
  datatype Slot = Slot(name: Name, oldId: Id, newId: Id)

  /** The conditions on one group. */
  predicate GroupFits(from: Route, to: Route, sg: Group, tg: Group, added: set<Name>)
  {
    && from.name == to.name && from.algorithm == to.algorithm && from.weightDecay == to.weightDecay
    && Without(to.names, added) == from.names
    && |from.names| == |sg.params| && |to.names| == |tg.params|
    && Distinct(from.names) && Distinct(to.names)
  }

  function SlotAt(from: Route, to: Route, sg: Group, tg: Group, added: set<Name>, i: nat): Slot
    requires GroupFits(from, to, sg, tg, added) && i < |from.names|
  {
    WithoutMembers(to.names, added);
    Slot(from.names[i], sg.params[i], IdOf(to.names, tg.params, from.names[i]))
  }

  function GroupSlots(from: Route, to: Route, sg: Group, tg: Group, added: set<Name>): (s: seq<Slot>)
    requires GroupFits(from, to, sg, tg, added)
    ensures |s| == |from.names| && forall i :: 0 <= i < |s| ==> s[i] == SlotAt(from, to, sg, tg, added, i)
  {
    seq(|from.names|, i requires 0 <= i < |from.names| => SlotAt(from, to, sg, tg, added, i))
  }

  /** The two optimizers, group by group. */
  datatype Pairing = Pairing(source: seq<Route>, target: seq<Route>, saved: seq<Group>, built: seq<Group>, added: set<Name>)

  predicate SameLength(p: Pairing) { |p.source| == |p.target| == |p.saved| == |p.built| }

  predicate FitsAt(p: Pairing, g: nat)
    requires SameLength(p) && g < |p.source|
  {
    GroupFits(p.source[g], p.target[g], p.saved[g], p.built[g], p.added)
  }

  predicate FitsUpTo(p: Pairing, n: nat)
    requires SameLength(p) && n <= |p.source|
  {
    forall g :: 0 <= g < n ==> FitsAt(p, g)
  }

  function SlotsOf(p: Pairing, g: nat): seq<Slot>
    requires SameLength(p) && g < |p.source| && FitsAt(p, g)
  {
    GroupSlots(p.source[g], p.target[g], p.saved[g], p.built[g], p.added)
  }

  /** The common parameters of the first n groups. */
  function Slots(p: Pairing, n: nat): seq<Slot>
    requires SameLength(p) && n <= |p.source| && FitsUpTo(p, n)
  {
    if n == 0 then [] else Slots(p, n - 1) + SlotsOf(p, n - 1)
  }

  function NamesIn(names: seq<Name>): set<Name>
  {
    set i | 0 <= i < |names| :: names[i]
  }

  function AddedBy(p: Pairing, n: nat): set<Name>
    requires SameLength(p) && n <= |p.source|
  {
    if n == 0 then {} else AddedBy(p, n - 1) + (NamesIn(p.target[n-1].names) - NamesIn(p.source[n-1].names))
  }

  predicate DistinctOldIds(slots: seq<Slot>)
  {
    forall i, j :: 0 <= i < j < |slots| ==> slots[i].oldId != slots[j].oldId
  }

  predicate Covers(slots: seq<Slot>, id: Id)
  {
    exists i :: 0 <= i < |slots| && slots[i].oldId == id
  }

  /** What an extension accepts: the same routing, no duplicate, nothing uncovered. */
  ghost predicate Compatible(source: Contract, target: Contract, saved: State, built: seq<Group>, added: set<Name>)
  {
    var p := Pairing(source.groups, target.groups, saved.groups, built, added);
    && source.configuration == target.configuration
    && SameLength(p) && FitsUpTo(p, |p.source|)
    && DistinctOldIds(Slots(p, |p.source|))
    && (forall id :: id in saved.moments ==> Covers(Slots(p, |p.source|), id))
    && AddedBy(p, |p.source|) == added
  }

  /** The moments of the slots, moved to their new ids. */
  function Moved(slots: seq<Slot>, moments: map<Id, Moment>): map<Id, Moment>
  {
    if slots == [] then map[]
    else
      var k := |slots| - 1;
      var before := Moved(slots[..k], moments);
      if slots[k].oldId in moments then before[slots[k].newId := moments[slots[k].oldId]] else before
  }

  function OldIds(slots: seq<Slot>): set<Id>
  {
    set i | 0 <= i < |slots| :: slots[i].oldId
  }

  /** The loop over one group's parameters. */
  method MoveMoments(from: Route, to: Route, sg: Group, tg: Group, added: set<Name>, ghost before: seq<Slot>,
                     moments: map<Id, Moment>, state0: map<Id, Moment>, covered0: set<Id>)
    returns (result: Result<map<Id, Moment>>, covered: set<Id>)
    requires GroupFits(from, to, sg, tg, added)
    requires state0 == Moved(before, moments) && DistinctOldIds(before) && covered0 == OldIds(before)
    ensures result.Success? <==> DistinctOldIds(before + GroupSlots(from, to, sg, tg, added))
    ensures result.Success? ==>
      result.value == Moved(before + GroupSlots(from, to, sg, tg, added), moments)
      && covered == OldIds(before + GroupSlots(from, to, sg, tg, added))
  {
    var state := state0;
    covered := covered0;
    ghost var own := GroupSlots(from, to, sg, tg, added);
    GroupSizes(from, to, sg, tg, added);
    hide *;
    ghost var done := before;
    for i := 0 to |from.names|
      invariant done == before + own[..i]
      invariant state == Moved(done, moments) && covered == OldIds(done) && DistinctOldIds(done)
    {
      SlotIs(from, to, sg, tg, added, i);
      var oldId, newId := sg.params[i], IdOf(to.names, tg.params, from.names[i]);
      ghost var slot := own[i];
      OneMoreSlot(done, slot, moments);
      ThenSlot(before, own, i);
      done := done + [slot];
      if oldId in covered {
        NotDistinct(before + own, |done|);
        return Failure("auxiliary upgrade found duplicate optimizer ids"), covered;
      }
      covered := covered + {oldId};
      if oldId in moments {
        state := state[newId := moments[oldId]];
      }
    }
    assert own[..|own|] == own;
    result := Success(state);
  }

  lemma ThenSlot(before: seq<Slot>, own: seq<Slot>, i: nat)
    requires i < |own|
    ensures before + own[..i] + [own[i]] == before + own[..i+1] == (before + own)[..|before| + i + 1]
  {
  }

  lemma GroupSizes(from: Route, to: Route, sg: Group, tg: Group, added: set<Name>)
    requires GroupFits(from, to, sg, tg, added)
    ensures |from.names| == |sg.params| && |to.names| == |tg.params|
  {
  }

  lemma SlotIs(from: Route, to: Route, sg: Group, tg: Group, added: set<Name>, i: nat)
    requires GroupFits(from, to, sg, tg, added) && i < |from.names|
    ensures |from.names| == |sg.params| && |to.names| == |tg.params|
    ensures from.names[i] in to.names && from.names[i] !in added
    ensures GroupSlots(from, to, sg, tg, added)[i] == Slot(from.names[i], sg.params[i], IdOf(to.names, tg.params, from.names[i]))
  {
    WithoutMembers(to.names, added);
    var name := from.names[i];
    assert name in Without(to.names, added);
  }

  /** One group of the outer loop. */
  method ExtendGroup(p: Pairing, g: nat, moments: map<Id, Moment>, state0: map<Id, Moment>, covered0: set<Id>)
    returns (result: Result<map<Id, Moment>>, covered: set<Id>)
    requires SameLength(p) && g < |p.source| && FitsUpTo(p, g)
    requires state0 == Moved(Slots(p, g), moments) && DistinctOldIds(Slots(p, g)) && covered0 == OldIds(Slots(p, g))
    ensures result.Success? <==> FitsUpTo(p, g + 1) && DistinctOldIds(Slots(p, g + 1))
    ensures result.Success? ==> result.value == Moved(Slots(p, g + 1), moments) && covered == OldIds(Slots(p, g + 1))
  {
    hide Moved, DistinctOldIds, OldIds, GroupFits;
    if !GroupFits(p.source[g], p.target[g], p.saved[g], p.built[g], p.added) {
      assert !FitsAt(p, g);
      return Failure("auxiliary upgrade rerouted an optimizer group"), covered0;
    }
    assert FitsAt(p, g);
    result, covered := MoveMoments(p.source[g], p.target[g], p.saved[g], p.built[g], p.added, Slots(p, g), moments, state0, covered0);
  }

  lemma {:induction false} NotDistinctLater(p: Pairing, n: nat, m: nat)
    requires SameLength(p) && n <= m <= |p.source| && FitsUpTo(p, m) && !DistinctOldIds(Slots(p, n))
    ensures !DistinctOldIds(Slots(p, m))
  {
    if n < m {
      NotDistinctLater(p, n, m - 1);
      assert Slots(p, m)[..|Slots(p, m - 1)|] == Slots(p, m - 1);
      NotDistinct(Slots(p, m), |Slots(p, m - 1)|);
    }
  }

  lemma OneMoreSlot(slots: seq<Slot>, s: Slot, moments: map<Id, Moment>)
    ensures Moved(slots + [s], moments) ==
      if s.oldId in moments then Moved(slots, moments)[s.newId := moments[s.oldId]] else Moved(slots, moments)
    ensures OldIds(slots + [s]) == OldIds(slots) + {s.oldId}
    ensures DistinctOldIds(slots + [s]) <==> DistinctOldIds(slots) && s.oldId !in OldIds(slots)
  {
    var more := slots + [s];
    assert more[..|slots|] == slots;
    forall id ensures id in OldIds(more) <==> id in OldIds(slots) + {s.oldId} {
      if id == s.oldId { assert more[|slots|].oldId == id; }
      if i :| 0 <= i < |slots| && slots[i].oldId == id { assert more[i].oldId == id; }
    }
    if DistinctOldIds(more) {
      forall i | 0 <= i < |slots| ensures slots[i].oldId != s.oldId { assert more[i].oldId != more[|slots|].oldId; }
      forall i, j | 0 <= i < j < |slots| ensures slots[i].oldId != slots[j].oldId { assert more[i].oldId != more[j].oldId; }
    }
  }

  lemma NotDistinct(slots: seq<Slot>, n: nat)
    requires n <= |slots| && !DistinctOldIds(slots[..n])
    ensures !DistinctOldIds(slots)
  {
  }

  /** The groups of the result: the saved settings over the new ids. */
  function Regrouped(saved: seq<Group>, built: seq<Group>): (groups: seq<Group>)
    requires |saved| == |built|
    ensures |groups| == |saved|
    ensures forall g :: 0 <= g < |groups| ==> groups[g].settings == saved[g].settings && groups[g].params == built[g].params
  {
    seq(|saved|, g requires 0 <= g < |saved| => Group(saved[g].settings, built[g].params))
  }

  lemma CoveredIds(slots: seq<Slot>, moments: map<Id, Moment>)
    ensures moments.Keys <= OldIds(slots) <==> forall id :: id in moments ==> Covers(slots, id)
  {
    forall id ensures id in OldIds(slots) <==> Covers(slots, id) {}
    if moments.Keys <= OldIds(slots) {
      forall id | id in moments ensures Covers(slots, id) { assert id in moments.Keys; }
    }
    if forall id :: id in moments ==> Covers(slots, id) {
      forall id | id in moments.Keys ensures id in OldIds(slots) { assert id in moments; }
    }
  }

  /** The code's function. It accepts exactly the compatible extensions. */
  method ExtendOptimizer(saved: State, source: Option<Contract>, target: Option<Contract>, built: seq<Group>, added: set<Name>)
    returns (result: Result<State>)
    ensures result.Success? <==> source.Some? && target.Some? && Compatible(source.value, target.value, saved, built, added)
    ensures result.Success? ==>
      var p := Pairing(source.value.groups, target.value.groups, saved.groups, built, added);
      result.value == State(Moved(Slots(p, |p.source|), saved.moments), Regrouped(saved.groups, built))
  {
    if source.None? || target.None? {
      return Failure("auxiliary upgrade needs named optimizer routing contracts");
    }
    if source.value.configuration != target.value.configuration {
      return Failure("auxiliary upgrade changed optimizer configuration");
    }
    var p := Pairing(source.value.groups, target.value.groups, saved.groups, built, added);
    if !SameLength(p) {
      return Failure("auxiliary upgrade changed optimizer groups");
    }
    hide Moved, DistinctOldIds, OldIds, GroupFits, Slots, Covers;
    var state: map<Id, Moment> := map[];
    var covered: set<Id> := {};
    var coveredNew: set<Name> := {};
    NothingYet(p, saved.moments);
    for g := 0 to |p.source|
      invariant FitsUpTo(p, g) && state == Moved(Slots(p, g), saved.moments)
      invariant DistinctOldIds(Slots(p, g)) && covered == OldIds(Slots(p, g))
      invariant coveredNew == AddedBy(p, g)
    {
      var extended, more := ExtendGroup(p, g, saved.moments, state, covered);
      if extended.Failure? {
        if FitsUpTo(p, |p.source|) { NotDistinctLater(p, g + 1, |p.source|); }
        return Failure(extended.error);
      }
      state, covered := extended.value, more;
      coveredNew := coveredNew + (NamesIn(p.target[g].names) - NamesIn(p.source[g].names));
    }
    CoveredIds(Slots(p, |p.source|), saved.moments);
    if !(saved.moments.Keys <= covered) || coveredNew != added {
      return Failure("auxiliary upgrade optimizer coverage differs");
    }
    result := Success(State(state, Regrouped(saved.groups, built)));
  }

  lemma NothingYet(p: Pairing, moments: map<Id, Moment>)
    requires SameLength(p)
    ensures Slots(p, 0) == [] && Moved([], moments) == map[] && OldIds([]) == {} && DistinctOldIds([])
  {
  }

  // What the result means by name.

  /** A target optimizer numbers its parameters without repetition and names each once. */
  ghost predicate WellNumbered(p: Pairing)
    requires SameLength(p)
  {
    forall g, h, i, j :: Numbered(p, g, i) && Numbered(p, h, j) && p.built[g].params[i] == p.built[h].params[j] ==> g == h && i == j
  }

  predicate Numbered(p: Pairing, g: int, i: int)
  {
    0 <= g < |p.built| && 0 <= i < |p.built[g].params|
  }

  predicate DistinctNewIds(slots: seq<Slot>)
  {
    forall i, j :: 0 <= i < j < |slots| ==> slots[i].newId != slots[j].newId
  }

  /** With distinct new ids each slot's moment is found under its new id, and nothing else is there. */
  lemma {:induction false} MovedLookup(slots: seq<Slot>, moments: map<Id, Moment>, k: nat)
    requires DistinctNewIds(slots) && k < |slots|
    ensures var m := Moved(slots, moments);
      && (slots[k].newId in m <==> slots[k].oldId in moments)
      && (slots[k].oldId in moments ==> m[slots[k].newId] == moments[slots[k].oldId])
  {
    var n := |slots| - 1;
    if k < n {
      MovedLookup(slots[..n], moments, k);
      assert slots[k].newId != slots[n].newId;
    } else {
      MovedElsewhere(slots[..n], moments, slots[n].newId);
    }
  }

  lemma {:induction false} MovedElsewhere(slots: seq<Slot>, moments: map<Id, Moment>, id: Id)
    requires forall i :: 0 <= i < |slots| ==> slots[i].newId != id
    ensures id !in Moved(slots, moments)
  {
    if slots != [] { MovedElsewhere(slots[..|slots|-1], moments, id); }
  }

  /** Every saved moment whose id some slot covers is moved, and none is merged with another. */
  lemma {:induction false} MovedSize(slots: seq<Slot>, moments: map<Id, Moment>)
    requires DistinctNewIds(slots) && DistinctOldIds(slots)
    ensures |Moved(slots, moments)| == |moments.Keys * OldIds(slots)|
  {
    if slots == [] {
      assert moments.Keys * OldIds(slots) == {};
    } else {
      var n := |slots| - 1;
      var s := slots[n];
      MovedSize(slots[..n], moments);
      assert slots == slots[..n] + [s];
      OneMoreSlot(slots[..n], s, moments);
      MovedElsewhere(slots[..n], moments, s.newId);
      hide Moved, OldIds, DistinctOldIds, DistinctNewIds;
      OneMoreCommon(moments, OldIds(slots[..n]), s.oldId);
    }
  }

  lemma OneMoreCommon(moments: map<Id, Moment>, ids: set<Id>, id: Id)
    requires id !in ids
    ensures |moments.Keys * (ids + {id})| == |moments.Keys * ids| + (if id in moments then 1 else 0)
  {
    if id in moments {
      assert moments.Keys * (ids + {id}) == moments.Keys * ids + {id};
    } else {
      assert moments.Keys * (ids + {id}) == moments.Keys * ids;
    }
  }

  /** Where a slot comes from: a parameter of some group that is not added. */
  ghost predicate ComesFrom(p: Pairing, s: Slot, g: int, j: int)
    requires SameLength(p)
  {
    Numbered(p, g, j) && j < |p.target[g].names| && p.target[g].names[j] == s.name
    && p.built[g].params[j] == s.newId && s.name !in p.added
  }

  lemma SlotOrigin(p: Pairing, g: nat, i: nat)
    requires SameLength(p) && g < |p.source| && FitsAt(p, g) && i < |p.source[g].names|
    ensures exists j :: ComesFrom(p, SlotsOf(p, g)[i], g, j)
    ensures SlotsOf(p, g)[i].name == p.source[g].names[i]
  {
    SlotIs(p.source[g], p.target[g], p.saved[g], p.built[g], p.added, i);
    var j :| 0 <= j < |p.target[g].names| && p.target[g].names[j] == p.source[g].names[i]
             && p.built[g].params[j] == IdOf(p.target[g].names, p.built[g].params, p.source[g].names[i]);
    assert ComesFrom(p, SlotsOf(p, g)[i], g, j);
  }

  lemma {:induction false} SlotOrigins(p: Pairing, n: nat, k: nat)
    requires SameLength(p) && n <= |p.source| && FitsUpTo(p, n) && k < |Slots(p, n)|
    ensures exists g, j :: 0 <= g < n && ComesFrom(p, Slots(p, n)[k], g, j)
  {
    var before := Slots(p, n - 1);
    if k < |before| {
      SlotOrigins(p, n - 1, k);
      var g, j :| 0 <= g < n - 1 && ComesFrom(p, before[k], g, j);
      assert ComesFrom(p, Slots(p, n)[k], g, j);
    } else {
      SlotOrigin(p, n - 1, k - |before|);
      var j :| ComesFrom(p, SlotsOf(p, n - 1)[k - |before|], n - 1, j);
      assert ComesFrom(p, Slots(p, n)[k], n - 1, j);
    }
  }

  lemma GroupNewIdsDistinct(p: Pairing, g: nat)
    requires SameLength(p) && g < |p.source| && FitsAt(p, g) && WellNumbered(p)
    ensures DistinctNewIds(SlotsOf(p, g))
  {
    var own := SlotsOf(p, g);
    forall i, j | 0 <= i < j < |own|
      ensures own[i].newId != own[j].newId
    {
      SlotOrigin(p, g, i);
      SlotOrigin(p, g, j);
      var x :| ComesFrom(p, own[i], g, x);
      var y :| ComesFrom(p, own[j], g, y);
      assert p.source[g].names[i] != p.source[g].names[j];
      assert Numbered(p, g, x) && Numbered(p, g, y);
    }
  }

  lemma {:induction false} NewIdsDistinct(p: Pairing, n: nat)
    requires SameLength(p) && n <= |p.source| && FitsUpTo(p, n) && WellNumbered(p)
    ensures DistinctNewIds(Slots(p, n))
  {
    if n > 0 {
      var before, own := Slots(p, n - 1), SlotsOf(p, n - 1);
      NewIdsDistinct(p, n - 1);
      GroupNewIdsDistinct(p, n - 1);
      forall i, j | 0 <= i < |before| && 0 <= j < |own|
        ensures before[i].newId != own[j].newId
      {
        SlotOrigins(p, n - 1, i);
        SlotOrigin(p, n - 1, j);
        var g, x :| 0 <= g < n - 1 && ComesFrom(p, before[i], g, x);
        var y :| ComesFrom(p, own[j], n - 1, y);
        assert Numbered(p, g, x) && Numbered(p, n - 1, y);
      }
      hide Slots;
      assert Slots(p, n) == before + own by { SlotsGrow(p, n); }
    }
  }

  lemma SlotsGrow(p: Pairing, n: nat)
    requires SameLength(p) && 0 < n <= |p.source| && FitsUpTo(p, n)
    ensures Slots(p, n) == Slots(p, n - 1) + SlotsOf(p, n - 1)
  {
  }

  /**
   By name, nothing changes: each parameter that both optimizers know keeps exactly its
   moment, or its lack of one; an added parameter has none; and no saved moment is
   dropped or merged with another.
   */
  lemma LearnedStateIsKept(source: Contract, target: Contract, saved: State, built: seq<Group>, added: set<Name>)
    requires Compatible(source, target, saved, built, added)
    requires WellNumbered(Pairing(source.groups, target.groups, saved.groups, built, added))
    ensures var p := Pairing(source.groups, target.groups, saved.groups, built, added);
      var slots := Slots(p, |p.source|);
      var moments := Moved(slots, saved.moments);
      && (forall k :: 0 <= k < |slots| ==>
            && (slots[k].newId in moments <==> slots[k].oldId in saved.moments)
            && (slots[k].newId in moments ==> moments[slots[k].newId] == saved.moments[slots[k].oldId]))
      && (forall g, j :: Numbered(p, g, j) && j < |p.target[g].names| && p.target[g].names[j] in added ==>
            p.built[g].params[j] !in moments)
      && |moments| == |saved.moments|
  {
    var p := Pairing(source.groups, target.groups, saved.groups, built, added);
    var n := |p.source|;
    var slots := Slots(p, n);
    NewIdsDistinct(p, n);
    forall k | 0 <= k < |slots|
      ensures slots[k].newId in Moved(slots, saved.moments) <==> slots[k].oldId in saved.moments
      ensures slots[k].oldId in saved.moments ==> Moved(slots, saved.moments)[slots[k].newId] == saved.moments[slots[k].oldId]
    {
      MovedLookup(slots, saved.moments, k);
    }
    forall g, j | Numbered(p, g, j) && j < |p.target[g].names| && p.target[g].names[j] in added
      ensures p.built[g].params[j] !in Moved(slots, saved.moments)
    {
      AddedHasNoSlot(p, n, g, j);
      MovedElsewhere(slots, saved.moments, p.built[g].params[j]);
    }
    MovedSize(slots, saved.moments);
    CoveredIds(slots, saved.moments);
    assert saved.moments.Keys * OldIds(slots) == saved.moments.Keys;
  }

  lemma AddedHasNoSlot(p: Pairing, n: nat, g: int, j: int)
    requires SameLength(p) && n <= |p.source| && FitsUpTo(p, n) && WellNumbered(p)
    requires Numbered(p, g, j) && j < |p.target[g].names| && p.target[g].names[j] in p.added
    ensures forall k :: 0 <= k < |Slots(p, n)| ==> Slots(p, n)[k].newId != p.built[g].params[j]
  {
    forall k | 0 <= k < |Slots(p, n)|
      ensures Slots(p, n)[k].newId != p.built[g].params[j]
    {
      SlotOrigins(p, n, k);
      var h, i :| 0 <= h < n && ComesFrom(p, Slots(p, n)[k], h, i);
    }
  }

  // What is compatible.

  /** Nothing is rerouted: each group keeps its name, algorithm, weight decay and parameters, and gains added ones only. */
  lemma NothingIsRerouted(source: Contract, target: Contract, saved: State, built: seq<Group>, added: set<Name>, g: nat, n: Name)
    requires Compatible(source, target, saved, built, added) && g < |source.groups|
    ensures source.configuration == target.configuration && |target.groups| == |source.groups| == |saved.groups| == |built|
    ensures var was, becomes := source.groups[g], target.groups[g];
      && was.name == becomes.name && was.algorithm == becomes.algorithm && was.weightDecay == becomes.weightDecay
      && |was.names| == |saved.groups[g].params| && |becomes.names| == |built[g].params|
      && (n in was.names <==> n in becomes.names && n !in added)
    ensures n in added ==> exists h :: 0 <= h < |target.groups| && n in target.groups[h].names && n !in source.groups[h].names
  {
    var p := Pairing(source.groups, target.groups, saved.groups, built, added);
    assert FitsAt(p, g);
    WithoutMembers(target.groups[g].names, added);
    AddedIs(p, |p.source|, n);
    hide Slots, Covers, DistinctOldIds, Without;
  }

  lemma {:induction false} AddedIs(p: Pairing, n: nat, name: Name)
    requires SameLength(p) && n <= |p.source|
    ensures name in AddedBy(p, n) <==> exists h :: 0 <= h < n && name in p.target[h].names && name !in p.source[h].names
  {
    if n > 0 {
      AddedIs(p, n - 1, name);
      var h := n - 1;
      assert name in p.target[h].names && name !in p.source[h].names <==> name in NamesIn(p.target[h].names) - NamesIn(p.source[h].names);
    }
  }

  /** A saved optimizer whose contract fits it: names and ids are distinct, and every moment belongs to a parameter. */
  ghost predicate Sound(source: Contract, saved: State)
  {
    && |source.groups| == |saved.groups|
    && (forall g :: 0 <= g < |source.groups| ==> Distinct(source.groups[g].names) && |source.groups[g].names| == |saved.groups[g].params|)
    && (forall g, h, i, j ::
          0 <= g < |saved.groups| && 0 <= h < |saved.groups| && 0 <= i < |saved.groups[g].params| && 0 <= j < |saved.groups[h].params| ==>
            g != h || i != j ==> saved.groups[g].params[i] != saved.groups[h].params[j])
    && (forall id :: id in saved.moments ==> IsIn(saved.groups, |saved.groups|, id))
  }

  predicate IsIn(groups: seq<Group>, n: nat, id: Id)
    requires n <= |groups|
  {
    exists g :: 0 <= g < n && id in groups[g].params
  }

  lemma {:induction false} WithoutNothing(names: seq<Name>)
    ensures Without(names, {}) == names
  {
    if names != [] {
      WithoutNothing(names[..|names|-1]);
      assert names == names[..|names|-1] + [names[|names|-1]];
    }
  }

  lemma IsInOneMore(groups: seq<Group>, n: nat, id: Id)
    requires 0 < n <= |groups|
    ensures IsIn(groups, n, id) <==> IsIn(groups, n - 1, id) || id in groups[n-1].params
  {
  }

  lemma {:induction false} SlotsCoverIds(p: Pairing, n: nat)
    requires SameLength(p) && n <= |p.source| && FitsUpTo(p, n)
    ensures forall id :: Covers(Slots(p, n), id) <==> IsIn(p.saved, n, id)
  {
    if n > 0 {
      SlotsCoverIds(p, n - 1);
      assert FitsAt(p, n - 1);
      var before, own := Slots(p, n - 1), SlotsOf(p, n - 1);
      var params, all: seq<Slot> := p.saved[n-1].params, before + own;
      forall id
        ensures Covers(all, id) <==> IsIn(p.saved, n, id)
      {
        IsInOneMore(p.saved, n, id);
        if id in params {
          var i :| 0 <= i < |params| && params[i] == id;
          assert all[|before| + i].oldId == id;
        }
        if i :| 0 <= i < |before| && before[i].oldId == id { assert all[i] == before[i]; }
        if i :| 0 <= i < |all| && all[i].oldId == id {
          if i < |before| { assert Covers(before, id); } else { assert own[i - |before|].oldId == params[i - |before|]; }
        }
      }
    }
  }

  lemma {:induction false} SlotsAreDistinct(source: Contract, saved: State, p: Pairing, n: nat)
    requires Sound(source, saved) && p == Pairing(source.groups, source.groups, saved.groups, saved.groups, {})
    requires n <= |p.source| && FitsUpTo(p, n)
    ensures DistinctOldIds(Slots(p, n))
  {
    if n > 0 {
      SlotsAreDistinct(source, saved, p, n - 1);
      SlotsCoverIds(p, n - 1);
      assert FitsAt(p, n - 1);
      var before, own := Slots(p, n - 1), SlotsOf(p, n - 1);
      var params := p.saved[n-1].params;
      forall i | 0 <= i < |own|
        ensures own[i].oldId == params[i] && !Covers(before, own[i].oldId)
      {
        assert !IsIn(p.saved, n - 1, params[i]);
      }
    }
  }

  lemma {:induction false} NothingAdded(p: Pairing, n: nat)
    requires SameLength(p) && n <= |p.source| && p.source == p.target
    ensures AddedBy(p, n) == {}
  {
    if n > 0 { NothingAdded(p, n - 1); }
  }

  /** An optimizer is a compatible extension of itself. */
  lemma SameOptimizerIsCompatible(source: Contract, saved: State)
    requires Sound(source, saved)
    ensures Compatible(source, source, saved, saved.groups, {})
  {
    var p := Pairing(source.groups, source.groups, saved.groups, saved.groups, {});
    forall g | 0 <= g < |p.source| ensures FitsAt(p, g) { WithoutNothing(p.source[g].names); }
    SlotsAreDistinct(source, saved, p, |p.source|);
    SlotsCoverIds(p, |p.source|);
    NothingAdded(p, |p.source|);
    hide Slots, DistinctOldIds;
  }
}
