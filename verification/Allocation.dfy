/**
 The adaptive plan of arena pairs, by largest remainder and extra cycles. Every cell
 is covered first, then pairs go nine to one to pie cells. Plans only grow, never pass
 the budget, and a finished plan passes the summary's validation.
 */
module Allocation {
  import opened Results

  /** Cells are compared by name; a pie cell weighs nine. */
  datatype Cell = Cell(name: int, pie: bool)

  datatype Config = Config(cells: seq<Cell>, maxPairs: nat, minimumPairs: nat, cycle: nat)

  predicate Distinct(cells: seq<Cell>)
  {
    forall i, j :: 0 <= i < j < |cells| ==> cells[i].name != cells[j].name
  }

  /** What the arena configuration guarantees. */
  predicate ValidConfig(c: Config) { c.cells != [] && Distinct(c.cells) && c.cycle > 0 }

  function Budget(c: Config): nat { |c.cells| * c.maxPairs }

  function ExtraCap(c: Config): nat { Budget(c) / 2 }

  function InitialPairs(c: Config): nat { if c.minimumPairs > c.cycle then c.minimumPairs else c.cycle }

  type Targets = map<Cell, int>

  function Total(t: Targets, cells: seq<Cell>): int
    requires forall c :: c in cells ==> c in t
  {
    if cells == [] then 0 else Total(t, cells[..|cells|-1]) + t[cells[|cells|-1]]
  }

  // Largest remainder.

  function CellWeight(c: Cell): nat { if c.pie then 9 else 1 }

  function TotalWeight(cells: seq<Cell>): nat
  {
    if cells == [] then 0 else TotalWeight(cells[..|cells|-1]) + CellWeight(cells[|cells|-1])
  }

  /** requested * weight / total, split into its floor and what is left over. */
  function Floor(requested: nat, total: nat, c: Cell): nat
    requires total > 0
  {
    requested * CellWeight(c) / total
  }

  function Remainder(requested: nat, total: nat, c: Cell): nat
    requires total > 0
  {
    requested * CellWeight(c) % total
  }

  function Floors(requested: nat, total: nat, cells: seq<Cell>): nat
    requires total > 0
  {
    if cells == [] then 0 else Floors(requested, total, cells[..|cells|-1]) + Floor(requested, total, cells[|cells|-1])
  }

  function Remainders(requested: nat, total: nat, cells: seq<Cell>): nat
    requires total > 0
  {
    if cells == [] then 0 else Remainders(requested, total, cells[..|cells|-1]) + Remainder(requested, total, cells[|cells|-1])
  }

  lemma QuotaSplits(requested: nat, total: nat, w: nat)
    requires total > 0
    ensures requested * w == total * (requested * w / total) + requested * w % total
    ensures requested * w % total < total
  {
  }

  lemma {:induction false} QuotasSplit(requested: nat, total: nat, cells: seq<Cell>)
    requires total > 0
    ensures requested * TotalWeight(cells) == total * Floors(requested, total, cells) + Remainders(requested, total, cells)
  {
    if cells != [] {
      var k := |cells| - 1;
      QuotasSplit(requested, total, cells[..k]);
      QuotaSplits(requested, total, CellWeight(cells[k]));
      Spread(requested, TotalWeight(cells[..k]), CellWeight(cells[k]));
      Spread(total, Floors(requested, total, cells[..k]), Floor(requested, total, cells[k]));
    }
  }

  lemma Spread(a: int, x: int, y: int)
    ensures a * (x + y) == a * x + a * y
  {
  }

  /** The cells with a fractional quota. */
  function Fractional(requested: nat, total: nat, cells: seq<Cell>): nat
    requires total > 0
  {
    if cells == [] then 0
    else Fractional(requested, total, cells[..|cells|-1]) + (if Remainder(requested, total, cells[|cells|-1]) > 0 then 1 else 0)
  }

  lemma {:induction false} RemaindersBound(requested: nat, total: nat, cells: seq<Cell>)
    requires total > 0
    ensures Remainders(requested, total, cells) <= Fractional(requested, total, cells) * (total - 1)
  {
    if cells != [] {
      var k := |cells| - 1;
      RemaindersBound(requested, total, cells[..k]);
      QuotaSplits(requested, total, CellWeight(cells[k]));
      var f := Fractional(requested, total, cells[..k]);
      assert (f + 1) * (total - 1) == f * (total - 1) + (total - 1);
    }
  }

  /** What the floors leave over is at most the number of fractional quotas. */
  lemma LeftoverFits(requested: nat, cells: seq<Cell>)
    requires TotalWeight(cells) > 0
    ensures var total := TotalWeight(cells);
      Floors(requested, total, cells) <= requested <= Floors(requested, total, cells) + Fractional(requested, total, cells)
  {
    var total := TotalWeight(cells);
    var floors, rems, f := Floors(requested, total, cells), Remainders(requested, total, cells), Fractional(requested, total, cells);
    QuotasSplit(requested, total, cells);
    RemaindersBound(requested, total, cells);
    Sandwich(requested, total, floors, rems, f);
  }

  lemma Sandwich(requested: nat, total: nat, floors: nat, rems: nat, f: nat)
    requires total > 0 && requested * total == total * floors + rems && rems <= f * (total - 1)
    ensures floors <= requested <= floors + f
  {
    assert total * (requested - floors) == requested * total - total * floors;
    Factors(requested - floors, f, total);
    assert f * (total - 1) <= f * total;
  }

  lemma Factors(x: int, f: int, t: int)
    requires t > 0
    ensures 0 <= t * x ==> 0 <= x
    ensures t * x <= f * t ==> x <= f
  {
    if x < 0 { assert t * x < 0; }
    if x > f { assert t * x == t * f + t * (x - f); }
  }

  // The order in which leftovers are handed out.

  predicate Before(requested: nat, total: nat, a: Cell, b: Cell)
    requires total > 0
  {
    Remainder(requested, total, a) > Remainder(requested, total, b)
    || (Remainder(requested, total, a) == Remainder(requested, total, b) && a.name < b.name)
  }

  function Insert(requested: nat, total: nat, sorted: seq<Cell>, c: Cell): seq<Cell>
    requires total > 0
  {
    if sorted == [] || Before(requested, total, sorted[|sorted|-1], c) then sorted + [c]
    else Insert(requested, total, sorted[..|sorted|-1], c) + [sorted[|sorted|-1]]
  }

  /** The cells by falling remainder, ties by name. */
  function Ordered(requested: nat, total: nat, cells: seq<Cell>): seq<Cell>
    requires total > 0
  {
    if cells == [] then []
    else Insert(requested, total, Ordered(requested, total, cells[..|cells|-1]), cells[|cells|-1])
  }

  ghost predicate InOrder(requested: nat, total: nat, s: seq<Cell>)
    requires total > 0
  {
    forall i, j :: 0 <= i < j < |s| ==> Before(requested, total, s[i], s[j])
  }

  lemma {:induction false} InsertMembers(requested: nat, total: nat, s: seq<Cell>, c: Cell)
    requires total > 0
    ensures forall d :: d in Insert(requested, total, s, c) <==> d in s || d == c
  {
    hide Before;
    if s != [] && !Before(requested, total, s[|s|-1], c) {
      InsertMembers(requested, total, s[..|s|-1], c);
      assert s == s[..|s|-1] + [s[|s|-1]];
    }
  }

  lemma BeforeTotal(requested: nat, total: nat, a: Cell, b: Cell)
    requires total > 0 && a.name != b.name
    ensures Before(requested, total, a, b) <==> !Before(requested, total, b, a)
  {
  }

  lemma {:induction false} InsertInOrder(requested: nat, total: nat, s: seq<Cell>, c: Cell)
    requires total > 0 && InOrder(requested, total, s) && forall i :: 0 <= i < |s| ==> s[i].name != c.name
    ensures InOrder(requested, total, Insert(requested, total, s, c))
  {
    var k := |s| - 1;
    if s == [] {
    } else if Before(requested, total, s[k], c) {
      forall i | 0 <= i < |s|
        ensures Before(requested, total, s[i], c)
      {
        assert i < k ==> Before(requested, total, s[i], s[k]);
      }
    } else {
      BeforeTotal(requested, total, s[k], c);
      InsertInOrder(requested, total, s[..k], c);
      InsertMembers(requested, total, s[..k], c);
      var before := Insert(requested, total, s[..k], c);
      hide Before, Insert;
      forall i | 0 <= i < |before|
        ensures Before(requested, total, before[i], s[k])
      {
        assert before[i] in before;
        if before[i] != c {
          var j :| 0 <= j < k && s[j] == before[i];
        }
      }
    }
  }

  lemma {:induction false} InsertFractional(requested: nat, total: nat, s: seq<Cell>, c: Cell)
    requires total > 0
    ensures Fractional(requested, total, Insert(requested, total, s, c)) ==
      Fractional(requested, total, s) + (if Remainder(requested, total, c) > 0 then 1 else 0)
  {
    hide Remainder, Before;
    var r := Insert(requested, total, s, c);
    if s != [] && !Before(requested, total, s[|s|-1], c) {
      InsertFractional(requested, total, s[..|s|-1], c);
      assert r[..|r|-1] == Insert(requested, total, s[..|s|-1], c);
    } else {
      assert r[..|r|-1] == s;
    }
  }

  lemma {:induction false} OrderedFacts(requested: nat, total: nat, cells: seq<Cell>)
    requires total > 0 && Distinct(cells)
    ensures InOrder(requested, total, Ordered(requested, total, cells))
    ensures forall c :: c in Ordered(requested, total, cells) <==> c in cells
    ensures Fractional(requested, total, Ordered(requested, total, cells)) == Fractional(requested, total, cells)
  {
    hide Remainder, Before, Insert;
    if cells != [] {
      var k := |cells| - 1;
      var before := Ordered(requested, total, cells[..k]);
      OrderedFacts(requested, total, cells[..k]);
      assert cells == cells[..k] + [cells[k]];
      forall i | 0 <= i < |before|
        ensures before[i].name != cells[k].name
      {
        assert before[i] in before;
        var j :| 0 <= j < k && cells[j] == before[i];
      }
      InsertInOrder(requested, total, before, cells[k]);
      InsertMembers(requested, total, before, cells[k]);
      InsertFractional(requested, total, before, cells[k]);
    }
  }

  /** The fractional quotas come first. */
  lemma FractionalFirst(requested: nat, total: nat, s: seq<Cell>, k: nat)
    requires total > 0 && InOrder(requested, total, s) && k < |s| && k < Fractional(requested, total, s)
    ensures Remainder(requested, total, s[k]) > 0
  {
    if Remainder(requested, total, s[k]) == 0 { ZerosLast(requested, total, s, k); }
  }

  lemma {:induction false} ZerosLast(requested: nat, total: nat, s: seq<Cell>, k: nat)
    requires total > 0 && InOrder(requested, total, s) && k < |s| && Remainder(requested, total, s[k]) == 0
    ensures Fractional(requested, total, s) <= k
  {
    var m := |s| - 1;
    if m == k {
      FractionalBound(requested, total, s[..m]);
    } else {
      ZerosLast(requested, total, s[..m], k);
      assert Before(requested, total, s[k], s[m]);
    }
  }

  lemma {:induction false} FractionalBound(requested: nat, total: nat, s: seq<Cell>)
    requires total > 0
    ensures Fractional(requested, total, s) <= |s|
  {
    if s != [] { FractionalBound(requested, total, s[..|s|-1]); }
  }

  lemma {:induction false} TotalUpdate(t: Targets, cells: seq<Cell>, c: Cell, x: int)
    requires Distinct(cells) && (forall d :: d in cells ==> d in t) && c in cells
    ensures Total(t[c := x], cells) == Total(t, cells) + x - t[c]
  {
    var k := |cells| - 1;
    if cells[k] == c {
      TotalElsewhere(t, cells[..k], c, x);
    } else {
      assert c in cells[..k];
      TotalUpdate(t, cells[..k], c, x);
    }
  }

  lemma {:induction false} TotalElsewhere(t: Targets, cells: seq<Cell>, c: Cell, x: int)
    requires (forall d :: d in cells ==> d in t) && c !in cells
    ensures Total(t[c := x], cells) == Total(t, cells)
  {
    if cells != [] {
      assert cells[|cells|-1] in cells;
      TotalElsewhere(t, cells[..|cells|-1], c, x);
    }
  }

  lemma {:induction false} TotalOfFloors(requested: nat, total: nat, t: Targets, cells: seq<Cell>)
    requires total > 0 && forall c :: c in cells ==> c in t && t[c] == Floor(requested, total, c)
    ensures Total(t, cells) == Floors(requested, total, cells)
  {
    if cells != [] { TotalOfFloors(requested, total, t, cells[..|cells|-1]); }
  }

  lemma {:induction false} TotalWeightPositive(cells: seq<Cell>)
    ensures TotalWeight(cells) >= |cells|
  {
    if cells != [] { TotalWeightPositive(cells[..|cells|-1]); }
  }

  function Min(a: nat, b: nat): (m: nat)
    ensures m <= a && m <= b && (m == a || m == b)
  {
    if a < b then a else b
  }

  /** A fractional quota lies strictly below its weight. */
  lemma QuotaBound(requested: nat, total: nat, c: Cell)
    requires total > 0 && requested <= total
    ensures Floor(requested, total, c) <= CellWeight(c)
    ensures Remainder(requested, total, c) > 0 ==> Floor(requested, total, c) < CellWeight(c)
  {
    var w := CellWeight(c);
    QuotaSplits(requested, total, w);
    assert requested * w <= total * w;
    Factors(requested * w / total, w, total);
    if requested * w / total == w { assert requested * w % total == 0; }
  }

  /** Each cell gets the floor of its quota, or one more; larger remainders first; all of the request. */
  ghost predicate LargestRemainder(requested: nat, cells: seq<Cell>, counts: Targets)
    requires TotalWeight(cells) > 0
  {
    var total := TotalWeight(cells);
    && (forall c :: c in counts <==> c in cells)
    && Total(counts, cells) == requested
    && (forall c :: c in cells ==>
          || counts[c] == Floor(requested, total, c)
          || (counts[c] == Floor(requested, total, c) + 1 && Remainder(requested, total, c) > 0))
    && (forall c :: c in cells ==> 0 <= counts[c] <= CellWeight(c))
    && (forall a, b :: a in cells && b in cells && Before(requested, total, a, b) && counts[b] > Floor(requested, total, b) ==>
          counts[a] > Floor(requested, total, a))
  }

  /** Raised: the first n cells of the order have one more than their floor. */
  ghost predicate Raised(requested: nat, total: nat, cells: seq<Cell>, order: seq<Cell>, n: nat, counts: Targets)
    requires total > 0 && n <= |order|
  {
    && (forall c :: c in counts <==> c in cells)
    && (forall c :: c in cells ==> counts[c] == Floor(requested, total, c) + (if c in order[..n] then 1 else 0))
    && Total(counts, cells) == Floors(requested, total, cells) + n
  }

  lemma NothingRaised(requested: nat, total: nat, cells: seq<Cell>, order: seq<Cell>, counts: Targets)
    requires total > 0 && (forall c :: c in counts <==> c in cells)
    requires forall c :: c in cells ==> counts[c] == Floor(requested, total, c)
    ensures Raised(requested, total, cells, order, 0, counts)
  {
    TotalOfFloors(requested, total, counts, cells);
  }

  method TailCounts(cells: seq<Cell>, budget: nat) returns (counts: Targets)
    requires cells != [] && Distinct(cells)
    ensures TotalWeight(cells) > 0
    ensures LargestRemainder(Min(budget, TotalWeight(cells)), cells, counts)
  {
    TotalWeightPositive(cells);
    hide *;
    var total := TotalWeight(cells);
    var requested := Min(budget, total);
    counts := FloorCounts(requested, total, cells);
    var order := Ordered(requested, total, cells);
    var leftover := requested - Floors(requested, total, cells);
    LeftoverFits(requested, cells);
    OrderedFacts(requested, total, cells);
    FractionalBound(requested, total, order);
    NothingRaised(requested, total, cells, order, counts);
    for i := 0 to leftover
      invariant Raised(requested, total, cells, order, i, counts)
    {
      RaiseOne(requested, total, cells, order, i, counts);
      counts := counts[order[i] := counts[order[i]] + 1];
    }
    RaisedIsLargestRemainder(requested, cells, order, leftover, counts);
  }

  function FloorCounts(requested: nat, total: nat, cells: seq<Cell>): (counts: Targets)
    requires total > 0
    ensures forall c :: c in counts <==> c in cells
    ensures forall c :: c in cells ==> counts[c] == Floor(requested, total, c)
  {
    map c | c in cells :: Floor(requested, total, c)
  }

  lemma InOrderIsDistinct(requested: nat, total: nat, order: seq<Cell>, i: nat)
    requires total > 0 && InOrder(requested, total, order) && i < |order|
    ensures order[i] !in order[..i]
  {
    forall j | 0 <= j < i
      ensures order[j] != order[i]
    {
      assert Before(requested, total, order[j], order[i]);
    }
  }

  lemma PositionsFollow(requested: nat, total: nat, order: seq<Cell>, j: nat, k: nat)
    requires total > 0 && InOrder(requested, total, order) && j < |order| && k < |order|
    requires Before(requested, total, order[j], order[k])
    ensures j < k
  {
  }

  lemma RaiseOne(requested: nat, total: nat, cells: seq<Cell>, order: seq<Cell>, i: nat, counts: Targets)
    requires total > 0 && i < |order| && Distinct(cells)
    requires InOrder(requested, total, order) && (forall c :: c in order <==> c in cells)
    requires Raised(requested, total, cells, order, i, counts)
    ensures order[i] in counts
    ensures Raised(requested, total, cells, order, i + 1, counts[order[i] := counts[order[i]] + 1])
  {
    var c := order[i];
    assert c in order;
    InOrderIsDistinct(requested, total, order, i);
    TotalUpdate(counts, cells, c, counts[c] + 1);
    assert order[..i+1] == order[..i] + [c];
  }

  lemma RaisedIsLargestRemainder(requested: nat, cells: seq<Cell>, order: seq<Cell>, n: nat, counts: Targets)
    requires TotalWeight(cells) > 0 && n <= |order| && requested <= TotalWeight(cells)
    requires InOrder(requested, TotalWeight(cells), order) && (forall c :: c in order <==> c in cells)
    requires Raised(requested, TotalWeight(cells), cells, order, n, counts)
    requires n == requested - Floors(requested, TotalWeight(cells), cells) <= Fractional(requested, TotalWeight(cells), order)
    ensures LargestRemainder(requested, cells, counts)
  {
    var total := TotalWeight(cells);
    hide Floor, Floors, Remainder, Fractional;
    forall c | c in cells
      ensures c in order[..n] ==> Remainder(requested, total, c) > 0
      ensures 0 <= counts[c] <= CellWeight(c)
    {
      QuotaBound(requested, total, c);
      if c in order[..n] {
        var k :| 0 <= k < n && order[k] == c;
        FractionalFirst(requested, total, order, k);
      }
    }
    forall a, b | a in cells && b in cells && Before(requested, total, a, b) && b in order[..n]
      ensures a in order[..n]
    {
      var k :| 0 <= k < n && order[k] == b;
      assert a in order;
      var j :| 0 <= j < |order| && order[j] == a;
      PositionsFollow(requested, total, order, j, k);
      assert order[..n][j] == a;
    }
  }

  // Extra cycles for one handicap cell.

  /** What the evidence summary says about one cell. The utility is width reduction per cost. */
  datatype Detail = Detail(cell: Cell, weight: real, lo: real, hi: real, guardLo: real, guardHi: real,
                           mean: Option<real>, utility: real)

  /** The summary, and the expected scores that the decision compares against. */
  datatype Summary = Summary(usable: bool, lower: real, upper: real, details: seq<Detail>,
                             nullScore: real, alternativeScore: real, floorScore: real)

  function Width(d: Detail): real { if d.hi > d.lo then d.hi - d.lo else 0.0 }

  predicate Suspected(s: Summary, d: Detail)
  {
    d.mean.Some? && d.mean.value < s.floorScore && d.guardLo <= s.floorScore <= d.guardHi
  }

  predicate Relevant(s: Summary, d: Detail)
  {
    s.lower <= s.nullScore < s.lower + d.weight * Width(d)
    || s.upper - d.weight * Width(d) < s.alternativeScore <= s.upper
  }

  /** No pie cell promises more per cost; without a pie cell none counts as good enough. */
  predicate BeatsPie(s: Summary, u: real)
  {
    (exists i :: 0 <= i < |s.details| && s.details[i].cell.pie)
    && forall i :: 0 <= i < |s.details| && s.details[i].cell.pie ==> s.details[i].utility <= u
  }

  predicate Eligible(s: Summary, d: Detail, suspectedOnly: bool)
  {
    !d.cell.pie && (Suspected(s, d) || (!suspectedOnly && Relevant(s, d) && BeatsPie(s, d.utility)))
  }

  /** Suspected cells first, then by utility, then by name. */
  predicate Prefers(s: Summary, a: Detail, b: Detail)
  {
    if Suspected(s, a) != Suspected(s, b) then Suspected(s, a)
    else a.utility > b.utility || (a.utility == b.utility && a.cell.name <= b.cell.name)
  }

  function BestOf(s: Summary, details: seq<Detail>, suspectedOnly: bool): Option<Detail>
  {
    if details == [] then None
    else
      var d := details[|details|-1];
      var best := BestOf(s, details[..|details|-1], suspectedOnly);
      if !Eligible(s, d, suspectedOnly) then best
      else if best.Some? && Prefers(s, best.value, d) then best else Some(d)
  }

  function SelectCheck(c: Config, s: Summary, extraUsed: int, remaining: int, suspectedOnly: bool): Option<Detail>
  {
    if remaining < c.cycle || extraUsed + c.cycle > ExtraCap(c) || !s.usable then None
    else BestOf(s, s.details, suspectedOnly)
  }

  /** The choice is an eligible cell that no eligible cell is preferred to; there is one if any is eligible. */
  lemma {:induction false} BestIsBest(s: Summary, details: seq<Detail>, suspectedOnly: bool)
    ensures var best := BestOf(s, details, suspectedOnly);
      && (best.Some? ==> best.value in details && Eligible(s, best.value, suspectedOnly))
      && (forall d :: d in details && Eligible(s, d, suspectedOnly) ==> best.Some? && Prefers(s, best.value, d))
  {
    hide Suspected, Eligible;
    if details != [] {
      var k := |details| - 1;
      BestIsBest(s, details[..k], suspectedOnly);
      assert details == details[..k] + [details[k]];
    }
  }

  // Plans.

  datatype Phase = InitialCoverage | Continuation | HandicapReview

  datatype Plan = Plan(phase: Phase, targets: Targets, extra: int, check: Option<Cell>)

  /** The targets that a stored plan must have to be usable. */
  predicate ValidTargets(c: Config, t: Targets)
  {
    t.Keys == (set x | x in c.cells) && (forall x :: x in t ==> t[x] >= 0) && Total(t, c.cells) <= Budget(c)
  }

  function InitialPlan(c: Config): Plan
  {
    Plan(InitialCoverage, map x | x in c.cells :: InitialPairs(c), 0, None)
  }

  /** How a plan is extended: by the tail or, in a review, by nothing; and by at most one checked cycle. */
  ghost predicate Extends(c: Config, plan: Plan, s: Summary, review: bool, next: Plan)
    requires ValidConfig(c) && ValidTargets(c, plan.targets)
  {
    exists tail: Targets ::
      && IsTail(c, Budget(c) - Total(plan.targets, c.cells), review, tail)
      && IsExtension(c, plan, s, review, tail, next)
  }

  ghost predicate IsTail(c: Config, remaining: int, review: bool, tail: Targets)
    requires ValidConfig(c)
  {
    TotalWeightPositive(c.cells);
    && tail.Keys == (set x | x in c.cells) && remaining > 0
    && if review then forall x :: x in tail ==> tail[x] == 0
       else LargestRemainder(Min(remaining, TotalWeight(c.cells)), c.cells, tail)
  }

  function Raise(tail: Targets, check: Option<Detail>, cycle: nat): Targets
    requires check.Some? ==> check.value.cell in tail
  {
    if check.Some? then tail[check.value.cell := tail[check.value.cell] + cycle] else tail
  }

  function ExtendedBy(c: Config, plan: Plan, increments: Targets, check: Option<Detail>, review: bool): Plan
    requires forall x :: x in c.cells ==> x in plan.targets && x in increments
  {
    Plan(if review then HandicapReview else Continuation,
         Grown(plan.targets, increments, c.cells),
         plan.extra + if check.Some? then c.cycle else 0,
         if check.Some? then Some(check.value.cell) else None)
  }

  ghost predicate IsExtension(c: Config, plan: Plan, s: Summary, review: bool, tail: Targets, next: Plan)
    requires ValidTargets(c, plan.targets) && tail.Keys == (set x | x in c.cells)
  {
    var remaining := Budget(c) - Total(plan.targets, c.cells);
    var check := SelectCheck(c, s, plan.extra, remaining - Total(tail, c.cells), review);
    && (review ==> check.Some?)
    && (check.Some? ==> check.value.cell in tail)
    && next == ExtendedBy(c, plan, Raise(tail, check, c.cycle), check, review)
  }

  /** The summary speaks about the configured cells. */
  predicate AboutCells(c: Config, s: Summary)
  {
    forall i :: 0 <= i < |s.details| ==> s.details[i].cell in c.cells
  }

  /** The code's planner. */
  method NextAllocation(c: Config, previous: Option<Plan>, s: Summary, review: bool) returns (result: Result<Option<Plan>>)
    requires ValidConfig(c) && AboutCells(c, s)
    ensures previous.None? && review ==> result == Success(None)
    ensures previous.None? && !review ==>
      result == if InitialPairs(c) * |c.cells| > Budget(c) then Failure("adaptive allocation budget cannot cover initial cells")
                else Success(Some(InitialPlan(c)))
    ensures previous.Some? ==> (result.Success? <==> ValidTargets(c, previous.value.targets))
    ensures previous.Some? && result.Success? && result.value.Some? ==> Extends(c, previous.value, s, review, result.value.value)
    ensures previous.Some? && result.Success? ==>
      var remaining := Budget(c) - Total(previous.value.targets, c.cells);
      result.value.None? <==> remaining == 0 || (review && SelectCheck(c, s, previous.value.extra, remaining, true).None?)
  {
    var budget := Budget(c);
    if previous.None? {
      if review {
        return Success(None);
      }
      if InitialPairs(c) * |c.cells| > budget {
        return Failure("adaptive allocation budget cannot cover initial cells");
      }
      return Success(Some(InitialPlan(c)));
    }
    var plan := previous.value;
    if !ValidTargets(c, plan.targets) {
      return Failure("adaptive allocation has invalid cell targets");
    }
    if budget - Total(plan.targets, c.cells) <= 0 {
      return Success(None);
    }
    var next := Extend(c, plan, s, review);
    result := Success(next);
  }

  /** The part of the planner that extends a plan with pairs left in the budget. */
  method Extend(c: Config, plan: Plan, s: Summary, review: bool) returns (result: Option<Plan>)
    requires ValidConfig(c) && AboutCells(c, s) && ValidTargets(c, plan.targets) && Total(plan.targets, c.cells) < Budget(c)
    ensures result.Some? ==> Extends(c, plan, s, review, result.value)
    ensures result.None? <==> review && SelectCheck(c, s, plan.extra, Budget(c) - Total(plan.targets, c.cells), true).None?
  {
    TargetKeys(c, plan.targets);
    hide *;
    var remaining := Budget(c) - Total(plan.targets, c.cells);
    var tail := Tail(c, remaining, review);
    TailIsZeroOnlyInReview(c, remaining, review, tail);
    var left := remaining - Total(tail, c.cells);
    ChosenCell(c, s, plan.extra, left, review);
    var check := SelectCheck(c, s, plan.extra, left, review);
    RaisedIsZero(tail, check, c.cycle);
    RaisedKeys(tail, check, c.cycle);
    var increments := Raise(tail, check, c.cycle);
    if AllZero(increments) {
      return None;
    }
    result := Some(ExtendedBy(c, plan, increments, check, review));
    ExtensionMade(c, plan, s, review, tail);
  }

  lemma ExtensionMade(c: Config, plan: Plan, s: Summary, review: bool, tail: Targets)
    requires ValidConfig(c) && ValidTargets(c, plan.targets) && (forall x :: x in c.cells ==> x in plan.targets && x in tail)
    requires IsTail(c, Budget(c) - Total(plan.targets, c.cells), review, tail)
    requires var check := SelectCheck(c, s, plan.extra, Budget(c) - Total(plan.targets, c.cells) - Total(tail, c.cells), review);
      (check.Some? ==> check.value.cell in tail) && (review ==> check.Some?)
    ensures var check := SelectCheck(c, s, plan.extra, Budget(c) - Total(plan.targets, c.cells) - Total(tail, c.cells), review);
      Extends(c, plan, s, review, ExtendedBy(c, plan, Raise(tail, check, c.cycle), check, review))
  {
    hide Total, SelectCheck, TotalWeight, LargestRemainder, Budget, Grown;
    var check := SelectCheck(c, s, plan.extra, Budget(c) - Total(plan.targets, c.cells) - Total(tail, c.cells), review);
    assert IsExtension(c, plan, s, review, tail, ExtendedBy(c, plan, Raise(tail, check, c.cycle), check, review));
  }

  lemma RaisedIsZero(tail: Targets, check: Option<Detail>, cycle: nat)
    requires cycle > 0 && (forall x :: x in tail ==> tail[x] >= 0) && (check.Some? ==> check.value.cell in tail)
    ensures AllZero(Raise(tail, check, cycle)) <==> AllZero(tail) && check.None?
  {
    var raised := Raise(tail, check, cycle);
    if check.Some? { assert raised[check.value.cell] > 0; }
  }

  predicate AllZero(t: Targets) { forall x :: x in t ==> t[x] == 0 }

  method Tail(c: Config, remaining: int, review: bool) returns (tail: Targets)
    requires ValidConfig(c) && remaining > 0
    ensures IsTail(c, remaining, review, tail) && tail.Keys == (set x | x in c.cells)
  {
    if review {
      tail := map x | x in c.cells :: 0;
    } else {
      tail := TailCounts(c.cells, remaining);
    }
    KeysAre(tail, c.cells);
  }

  lemma {:induction false} TotalOfZeros(t: Targets, cells: seq<Cell>)
    requires forall x :: x in cells ==> x in t && t[x] == 0
    ensures Total(t, cells) == 0
  {
    if cells != [] { TotalOfZeros(t, cells[..|cells|-1]); }
  }

  lemma TailIsZeroOnlyInReview(c: Config, remaining: int, review: bool, tail: Targets)
    requires ValidConfig(c) && IsTail(c, remaining, review, tail)
    ensures review <==> AllZero(tail)
    ensures forall x :: x in tail ==> x in c.cells && tail[x] >= 0
    ensures 0 <= Total(tail, c.cells) <= remaining && (review <==> Total(tail, c.cells) == 0)
  {
    TotalWeightPositive(c.cells);
    if AllZero(tail) { TotalOfZeros(tail, c.cells); }
  }

  function Grown(targets: Targets, increments: Targets, cells: seq<Cell>): (r: Targets)
    requires forall x :: x in cells ==> x in targets && x in increments
    ensures r.Keys == (set x | x in cells) && forall x :: x in cells ==> r[x] == targets[x] + increments[x]
  {
    map x | x in cells :: targets[x] + increments[x]
  }

  lemma KeysAre(t: Targets, cells: seq<Cell>)
    requires forall x :: x in t <==> x in cells
    ensures t.Keys == set x | x in cells
  {
  }

  lemma ChosenCell(c: Config, s: Summary, extraUsed: int, remaining: int, suspectedOnly: bool)
    requires AboutCells(c, s)
    ensures var check := SelectCheck(c, s, extraUsed, remaining, suspectedOnly);
      check.Some? ==> check.value.cell in c.cells && !check.value.cell.pie && remaining >= c.cycle && extraUsed + c.cycle <= ExtraCap(c)
  {
    BestIsBest(s, s.details, suspectedOnly);
    var check := SelectCheck(c, s, extraUsed, remaining, suspectedOnly);
    if check.Some? {
      var i :| 0 <= i < |s.details| && s.details[i] == check.value;
    }
  }

  // What every plan keeps.

  predicate GoodPlan(c: Config, p: Plan)
  {
    && ValidTargets(c, p.targets)
    && (forall x :: x in p.targets ==> p.targets[x] >= InitialPairs(c))
    && 0 <= p.extra <= ExtraCap(c)
  }

  lemma {:induction false} TotalGrown(t: Targets, u: Targets, cells: seq<Cell>, all: seq<Cell>)
    requires (forall x :: x in all ==> x in t && x in u) && (forall x :: x in cells ==> x in all)
    ensures Total(Grown(t, u, all), cells) == Total(t, cells) + Total(u, cells)
  {
    if cells != [] { TotalGrown(t, u, cells[..|cells|-1], all); }
  }

  lemma {:induction false} TotalConstant(t: Targets, cells: seq<Cell>, n: int)
    requires forall x :: x in cells ==> x in t && t[x] == n
    ensures Total(t, cells) == n * |cells|
  {
    if cells != [] {
      TotalConstant(t, cells[..|cells|-1], n);
      assert n * |cells| == n * (|cells| - 1) + n;
    }
  }

  lemma InitialPlanIsGood(c: Config)
    requires ValidConfig(c) && InitialPairs(c) * |c.cells| <= Budget(c)
    ensures GoodPlan(c, InitialPlan(c)) && Total(InitialPlan(c).targets, c.cells) == InitialPairs(c) * |c.cells|
  {
    TotalConstant(InitialPlan(c).targets, c.cells, InitialPairs(c));
  }

  /** No target falls. */
  ghost predicate Below(c: Config, t: Targets, u: Targets)
  {
    forall x :: x in c.cells ==> x in t && x in u && t[x] <= u[x]
  }

  lemma BelowTransitive(c: Config, t: Targets, u: Targets, v: Targets)
    requires Below(c, t, u) && Below(c, u, v)
    ensures Below(c, t, v)
  {
  }

  /** How much a plan grows, and where. */
  ghost predicate Grows(c: Config, plan: Plan, review: bool, next: Plan)
    requires GoodPlan(c, plan) && GoodPlan(c, next)
  {
    var before, after := Total(plan.targets, c.cells), Total(next.targets, c.cells);
    && Below(c, plan.targets, next.targets)
    && (next.extra == plan.extra || next.extra == plan.extra + c.cycle)
    && before < after <= Budget(c)
    && (review ==> after == before + c.cycle && next.extra == plan.extra + c.cycle)
    && (!review ==> after == before + Min(Budget(c) - before, TotalWeight(c.cells)) + (next.extra - plan.extra))
    && (next.extra != plan.extra ==> next.check.Some? && !next.check.value.pie)
  }

  /**
   Every extension is good again: no target falls, the total rises, the extra pairs are
   whole cycles of one handicap cell within their cap, and the budget is kept.
   */
  lemma ExtensionIsGood(c: Config, plan: Plan, s: Summary, review: bool, next: Plan)
    requires ValidConfig(c) && AboutCells(c, s) && GoodPlan(c, plan) && Extends(c, plan, s, review, next)
    ensures GoodPlan(c, next) && Grows(c, plan, review, next)
  {
    hide *;
    var tail, check := ExtensionParts(c, plan, s, review, next);
    RaisedTotal(c, tail, check);
    ExtendedIsGood(c, plan, Raise(tail, check, c.cycle), check, review, Total(tail, c.cells));
    GrowthAddsUp(c, plan, check, review, next, Total(tail, c.cells));
  }

  /** The tail and the check that an extension consists of. */
  lemma ExtensionParts(c: Config, plan: Plan, s: Summary, review: bool, next: Plan) returns (tail: Targets, check: Option<Detail>)
    requires ValidConfig(c) && AboutCells(c, s) && GoodPlan(c, plan) && Extends(c, plan, s, review, next)
    ensures Distinct(c.cells) && ValidTargets(c, plan.targets) && 0 <= plan.extra <= ExtraCap(c)
    ensures forall x :: x in tail <==> x in c.cells
    ensures forall x :: x in tail ==> tail[x] >= 0
    ensures check.Some? ==> check.value.cell in c.cells && !check.value.cell.pie && plan.extra + c.cycle <= ExtraCap(c)
    ensures review ==> check.Some?
    ensures Total(plan.targets, c.cells) < Budget(c)
    ensures Total(tail, c.cells) == if review then 0 else Min(Budget(c) - Total(plan.targets, c.cells), TotalWeight(c.cells))
    ensures Total(plan.targets, c.cells) + Total(tail, c.cells) + (if check.Some? then c.cycle else 0) <= Budget(c)
    ensures (forall x :: x in c.cells ==> x in plan.targets && x in Raise(tail, check, c.cycle))
    ensures next == ExtendedBy(c, plan, Raise(tail, check, c.cycle), check, review)
    ensures next.extra == plan.extra + (if check.Some? then c.cycle else 0)
    ensures next.check == if check.Some? then Some(check.value.cell) else None
    ensures !review ==>
      && TotalWeight(c.cells) > 0
      && LargestRemainder(Min(Budget(c) - Total(plan.targets, c.cells), TotalWeight(c.cells)), c.cells, tail)
  {
    hide Budget, ExtraCap, Min, Distinct, Total, TotalWeight, Raise, ExtendedBy, SelectCheck, AllZero, AboutCells, LargestRemainder;
    var remaining := Budget(c) - Total(plan.targets, c.cells);
    TargetKeys(c, plan.targets);
    tail :| IsTail(c, remaining, review, tail) && IsExtension(c, plan, s, review, tail, next);
    assert IsExtension(c, plan, s, review, tail, next);
    hide IsTail;
    TailTotal(c, remaining, review, tail);
    TailIsZeroOnlyInReview(c, remaining, review, tail);
    ChosenCell(c, s, plan.extra, remaining - Total(tail, c.cells), review);
    check := SelectCheck(c, s, plan.extra, remaining - Total(tail, c.cells), review);
    RaisedKeys(tail, check, c.cycle);
    ExtendedFields(c, plan, Raise(tail, check, c.cycle), check, review);
  }

  lemma TargetKeys(c: Config, t: Targets)
    requires ValidTargets(c, t)
    ensures forall x :: x in c.cells ==> x in t
  {
    forall x | x in c.cells ensures x in t { assert x in t.Keys; }
  }

  lemma RaisedKeys(tail: Targets, check: Option<Detail>, cycle: nat)
    requires check.Some? ==> check.value.cell in tail
    ensures forall x :: x in Raise(tail, check, cycle) <==> x in tail
  {
  }

  lemma ExtendedFields(c: Config, plan: Plan, increments: Targets, check: Option<Detail>, review: bool)
    requires forall x :: x in c.cells ==> x in plan.targets && x in increments
    ensures var next := ExtendedBy(c, plan, increments, check, review);
      && next.extra == plan.extra + (if check.Some? then c.cycle else 0)
      && next.check == if check.Some? then Some(check.value.cell) else None
  {
  }

  /** Adding increments that fit into the budget keeps a plan good. */
  lemma ExtendedIsGood(c: Config, plan: Plan, increments: Targets, check: Option<Detail>, review: bool, tailTotal: nat)
    requires ValidConfig(c) && GoodPlan(c, plan)
    requires (forall x :: x in increments <==> x in c.cells) && (forall x :: x in increments ==> increments[x] >= 0)
    requires Total(increments, c.cells) == tailTotal + (if check.Some? then c.cycle else 0)
    requires Total(plan.targets, c.cells) + Total(increments, c.cells) <= Budget(c)
    requires check.Some? ==> plan.extra + c.cycle <= ExtraCap(c)
    ensures forall x :: x in c.cells ==> x in plan.targets && x in increments
    ensures var next := ExtendedBy(c, plan, increments, check, review);
      && GoodPlan(c, next) && Below(c, plan.targets, next.targets)
      && Total(next.targets, c.cells) == Total(plan.targets, c.cells) + Total(increments, c.cells)
  {
    forall x | x in c.cells ensures x in plan.targets { assert x in plan.targets.Keys; }
    TotalGrown(plan.targets, increments, c.cells, c.cells);
    hide Total;
    var next := ExtendedBy(c, plan, increments, check, review);
    assert forall x :: x in next.targets ==> x in c.cells && next.targets[x] == plan.targets[x] + increments[x];
  }

  lemma GrowthAddsUp(c: Config, plan: Plan, check: Option<Detail>, review: bool, next: Plan, tailTotal: nat)
    requires ValidConfig(c) && GoodPlan(c, plan) && GoodPlan(c, next) && Below(c, plan.targets, next.targets)
    requires Total(next.targets, c.cells) == Total(plan.targets, c.cells) + tailTotal + (if check.Some? then c.cycle else 0)
    requires tailTotal == if review then 0 else Min(Budget(c) - Total(plan.targets, c.cells), TotalWeight(c.cells))
    requires next.extra == plan.extra + (if check.Some? then c.cycle else 0)
    requires next.check == (if check.Some? then Some(check.value.cell) else None) && (check.Some? ==> !check.value.cell.pie)
    requires (review ==> check.Some?) && Total(plan.targets, c.cells) < Budget(c)
    ensures Grows(c, plan, review, next)
  {
    TotalWeightPositive(c.cells);
    assert Total(next.targets, c.cells) <= Budget(c);
    hide Total, TotalWeight, GoodPlan, Below;
  }

  lemma RaisedTotal(c: Config, tail: Targets, check: Option<Detail>)
    requires Distinct(c.cells) && (forall x :: x in tail <==> x in c.cells) && (forall x :: x in tail ==> tail[x] >= 0)
    requires check.Some? ==> check.value.cell in c.cells
    ensures var raised := Raise(tail, check, c.cycle);
      && (forall x :: x in raised <==> x in c.cells) && (forall x :: x in raised ==> raised[x] >= 0)
      && Total(raised, c.cells) == Total(tail, c.cells) + (if check.Some? then c.cycle else 0)
  {
    if check.Some? { TotalUpdate(tail, c.cells, check.value.cell, tail[check.value.cell] + c.cycle); }
  }

  lemma TailTotal(c: Config, remaining: int, review: bool, tail: Targets)
    requires ValidConfig(c) && IsTail(c, remaining, review, tail)
    ensures remaining > 0 && tail.Keys == set x | x in c.cells
    ensures Total(tail, c.cells) == if review then 0 else Min(remaining, TotalWeight(c.cells))
  {
    if review { TotalOfZeros(tail, c.cells); }
  }

  /** A chain of plans, each an extension of the one before, ordinary or in review. */
  ghost predicate IsChain(c: Config, plans: seq<Plan>, summaries: seq<Summary>, reviews: seq<bool>)
    requires ValidConfig(c)
  {
    && plans != [] && |summaries| == |reviews| == |plans| - 1 && plans[0] == InitialPlan(c)
    && InitialPairs(c) * |c.cells| <= Budget(c)
    && (forall k :: 0 <= k < |summaries| ==> AboutCells(c, summaries[k]))
    && (forall k :: 0 <= k < |summaries| ==>
          ValidTargets(c, plans[k].targets) && Extends(c, plans[k], summaries[k], reviews[k], plans[k+1]))
  }

  lemma {:induction false} ChainIsGood(c: Config, plans: seq<Plan>, summaries: seq<Summary>, reviews: seq<bool>, k: nat)
    requires ValidConfig(c) && IsChain(c, plans, summaries, reviews) && k < |plans|
    ensures GoodPlan(c, plans[k])
    ensures Total(plans[k].targets, c.cells) >= InitialPairs(c) * |c.cells| + k
  {
    hide GoodPlan, Extends;
    if k == 0 {
      InitialPlanIsGood(c);
    } else {
      ChainIsGood(c, plans, summaries, reviews, k - 1);
      ExtensionIsGood(c, plans[k-1], summaries[k-1], reviews[k-1], plans[k]);
    }
  }

  /** Along a chain targets never fall. */
  lemma {:induction false} ChainIsMonotone(c: Config, plans: seq<Plan>, summaries: seq<Summary>, reviews: seq<bool>, i: nat, j: nat)
    requires ValidConfig(c) && IsChain(c, plans, summaries, reviews) && i <= j < |plans|
    ensures GoodPlan(c, plans[i]) && GoodPlan(c, plans[j])
    ensures Below(c, plans[i].targets, plans[j].targets)
    decreases j - i
  {
    hide *;
    ChainIsGood(c, plans, summaries, reviews, i);
    ChainIsGood(c, plans, summaries, reviews, j);
    if i == j {
      BelowItself(c, plans[i]);
    } else {
      ChainIsMonotone(c, plans, summaries, reviews, i, j - 1);
      ChainLink(c, plans, summaries, reviews, j - 1);
      ExtensionIsGood(c, plans[j-1], summaries[j-1], reviews[j-1], plans[j]);
      BelowIfGrows(c, plans[j-1], reviews[j-1], plans[j]);
      BelowTransitive(c, plans[i].targets, plans[j-1].targets, plans[j].targets);
    }
  }

  /** No chain is longer than the budget: each plan adds a pair. */
  lemma ChainIsBounded(c: Config, plans: seq<Plan>, summaries: seq<Summary>, reviews: seq<bool>)
    requires ValidConfig(c) && IsChain(c, plans, summaries, reviews)
    ensures |plans| + InitialPairs(c) * |c.cells| <= Budget(c) + 1
  {
    ChainIsGood(c, plans, summaries, reviews, |plans| - 1);
  }

  /** Ordinary continuations each add at least a tail of full weight, as long as the budget lasts. */
  lemma {:induction false} ContinuationsProgress(c: Config, plans: seq<Plan>, summaries: seq<Summary>, reviews: seq<bool>, k: nat)
    requires ValidConfig(c) && IsChain(c, plans, summaries, reviews) && k < |plans|
    requires forall j :: 0 <= j < |reviews| ==> !reviews[j]
    ensures GoodPlan(c, plans[k])
    ensures Placed(c, plans[k]) <= Budget(c)
    ensures Placed(c, plans[k]) == Budget(c) || Placed(c, plans[k]) >= InitialPairs(c) * |c.cells| + k * TotalWeight(c.cells)
  {
    hide *;
    ChainIsGood(c, plans, summaries, reviews, k);
    PlacedIsWithinBudget(c, plans[k]);
    FirstOfChain(c, plans, summaries, reviews);
    if k > 0 {
      ContinuationsProgress(c, plans, summaries, reviews, k - 1);
      ChainLink(c, plans, summaries, reviews, k - 1);
      ExtensionIsGood(c, plans[k-1], summaries[k-1], reviews[k-1], plans[k]);
      GrowsByTail(c, plans[k-1], plans[k]);
      Spread(TotalWeight(c.cells), k - 1, 1);
    }
  }

  lemma PlacedIsWithinBudget(c: Config, p: Plan)
    requires GoodPlan(c, p)
    ensures Placed(c, p) <= Budget(c)
  {
    GoodIsWithinBudget(c, p);
  }

  lemma FirstOfChain(c: Config, plans: seq<Plan>, summaries: seq<Summary>, reviews: seq<bool>)
    requires ValidConfig(c) && IsChain(c, plans, summaries, reviews)
    ensures plans != [] && GoodPlan(c, plans[0]) && Placed(c, plans[0]) == InitialPairs(c) * |c.cells| <= Budget(c)
  {
    InitialPlanIsGood(c);
  }

  /** The pairs that a plan asks for. */
  ghost function Placed(c: Config, p: Plan): int
    requires GoodPlan(c, p)
  {
    GoodIsWithinBudget(c, p);
    Total(p.targets, c.cells)
  }

  lemma GrowsByTail(c: Config, plan: Plan, next: Plan)
    requires GoodPlan(c, plan) && GoodPlan(c, next) && Grows(c, plan, false, next)
    ensures Placed(c, next) == Budget(c) || Placed(c, next) >= Placed(c, plan) + TotalWeight(c.cells)
  {
    GoodIsWithinBudget(c, plan);
    GoodIsWithinBudget(c, next);
    hide Total, TotalWeight, Budget, GoodPlan, Below;
  }

  lemma GoodIsWithinBudget(c: Config, p: Plan)
    requires GoodPlan(c, p)
    ensures ValidTargets(c, p.targets) && (forall x :: x in c.cells ==> x in p.targets) && Total(p.targets, c.cells) <= Budget(c)
  {
    TargetKeys(c, p.targets);
  }

  /**
   Repeated ordinary continuations, whatever is summarised in between: they end, and they
   end exactly at the budget.
   */
  method ContinueToBudget(c: Config, summarize: seq<Plan> -> Summary) returns (plans: seq<Plan>, summaries: seq<Summary>, reviews: seq<bool>)
    requires ValidConfig(c) && InitialPairs(c) * |c.cells| <= Budget(c) && forall done :: AboutCells(c, summarize(done))
    ensures IsChain(c, plans, summaries, reviews) && forall k :: 0 <= k < |reviews| ==> !reviews[k]
    ensures ValidTargets(c, plans[|plans|-1].targets) && Total(plans[|plans|-1].targets, c.cells) == Budget(c)
  {
    hide *;
    plans, summaries, reviews := [InitialPlan(c)], [], [];
    ChainStarts(c);
    while true
      invariant IsChain(c, plans, summaries, reviews) && plans != [] && GoodPlan(c, plans[|plans|-1])
      invariant forall k :: 0 <= k < |reviews| ==> !reviews[k]
      decreases Budget(c) + 1 - |plans|
    {
      var last, s := plans[|plans|-1], summarize(plans);
      GoodIsWithinBudget(c, last);
      var result := NextAllocation(c, Some(last), s, false);
      if result.value.None? {
        return;
      }
      ChainGrows(c, plans, summaries, reviews, s, result.value.value);
      plans, summaries, reviews := plans + [result.value.value], summaries + [s], reviews + [false];
    }
  }

  lemma ChainStarts(c: Config)
    requires ValidConfig(c) && InitialPairs(c) * |c.cells| <= Budget(c)
    ensures IsChain(c, [InitialPlan(c)], [], []) && GoodPlan(c, InitialPlan(c))
  {
    InitialPlanIsGood(c);
  }

  lemma ChainGrows(c: Config, plans: seq<Plan>, summaries: seq<Summary>, reviews: seq<bool>, s: Summary, next: Plan)
    requires ValidConfig(c) && IsChain(c, plans, summaries, reviews) && plans != [] && AboutCells(c, s)
    requires ValidTargets(c, plans[|plans|-1].targets) && Extends(c, plans[|plans|-1], s, false, next)
    ensures IsChain(c, plans + [next], summaries + [s], reviews + [false]) && GoodPlan(c, next)
    ensures |plans| + 1 <= Budget(c) + 1
  {
    hide Extends, ValidTargets, GoodPlan, AboutCells, Budget;
    assert IsChain(c, plans + [next], summaries + [s], reviews + [false]);
    ChainIsGood(c, plans + [next], summaries + [s], reviews + [false], |plans|);
    ChainIsBounded(c, plans + [next], summaries + [s], reviews + [false]);
  }

  lemma BelowIfGrows(c: Config, plan: Plan, review: bool, next: Plan)
    requires GoodPlan(c, plan) && GoodPlan(c, next) && Grows(c, plan, review, next)
    ensures Below(c, plan.targets, next.targets)
  {
  }

  lemma BelowItself(c: Config, plan: Plan)
    requires GoodPlan(c, plan)
    ensures Below(c, plan.targets, plan.targets)
  {
  }

  lemma ChainLink(c: Config, plans: seq<Plan>, summaries: seq<Summary>, reviews: seq<bool>, k: nat)
    requires ValidConfig(c) && IsChain(c, plans, summaries, reviews) && k + 1 < |plans|
    ensures |summaries| == |reviews| == |plans| - 1
    ensures AboutCells(c, summaries[k]) && ValidTargets(c, plans[k].targets)
    ensures Extends(c, plans[k], summaries[k], reviews[k], plans[k+1])
  {
  }

  // Completion.

  /** The number of pairs 0, 1, 2, ... that are all present. */
  ghost predicate IsPrefix(indices: set<nat>, n: nat)
  {
    (forall i :: 0 <= i < n ==> i in indices) && n !in indices
  }

  lemma PrefixIsUnique(indices: set<nat>, m: nat, n: nat)
    requires IsPrefix(indices, m) && IsPrefix(indices, n)
    ensures m == n
  {
  }

  /** The planner counts through the set of pair indices. */
  method CellPairPrefix(indices: set<nat>) returns (prefix: nat)
    ensures IsPrefix(indices, prefix)
  {
    prefix := 0;
    while prefix in indices
      invariant forall i :: 0 <= i < prefix ==> i in indices
      decreases |indices| - prefix
    {
      PrefixFits(indices, prefix + 1);
      prefix := prefix + 1;
    }
  }

  lemma {:induction false} PrefixFits(indices: set<nat>, n: nat)
    requires forall i :: 0 <= i < n ==> i in indices
    ensures n <= |indices|
  {
    if n > 0 {
      var rest := indices - {n - 1};
      assert n - 1 in indices;
      assert |indices| == |rest| + 1;
      forall i | 0 <= i < n - 1 ensures i in rest { assert i in indices; }
      PrefixFits(rest, n - 1);
    }
  }

  /** The summary scans the sorted pairs for the first gap. */
  method ContiguousPrefix(values: seq<nat>) returns (prefix: nat)
    requires forall i, j :: 0 <= i < j < |values| ==> values[i] < values[j]
    ensures IsPrefix((set v | v in values), prefix)
  {
    for expected := 0 to |values|
      invariant forall i :: 0 <= i < expected ==> values[i] == i
    {
      if values[expected] != expected {
        forall i | 0 <= i < expected ensures i in values { assert values[i] == i; }
        assert expected > 0 ==> values[expected-1] == expected - 1;
        forall j | 0 <= j < |values| ensures values[j] != expected {
          if j > expected { assert values[expected] < values[j]; }
        }
        return expected;
      }
    }
    forall i | 0 <= i < |values| ensures i in values { assert values[i] == i; }
    return |values|;
  }

  /** The numbers are the unbroken prefixes of the cells' pairs. */
  ghost predicate ArePrefixes(c: Config, indices: map<Cell, set<nat>>, prefixes: map<Cell, nat>)
  {
    forall x :: x in c.cells ==> x in indices && x in prefixes && IsPrefix(indices[x], prefixes[x])
  }

  /** The planner's test: each cell's pairs reach its target. */
  predicate PlanComplete(c: Config, t: Targets, prefixes: map<Cell, nat>)
    requires forall x :: x in c.cells ==> x in t && x in prefixes
  {
    forall x :: x in c.cells ==> prefixes[x] >= t[x]
  }

  /** What the summary demands of the targets it is given. */
  predicate TargetsProven(c: Config, t: Targets, prefixes: map<Cell, nat>)
    requires forall x :: x in c.cells ==> x in prefixes
  {
    && t.Keys == (set x | x in c.cells)
    && (forall x :: x in t ==> t[x] >= 0)
    && (forall x :: x in t ==> x in prefixes && t[x] <= prefixes[x])
    && Total(t, c.cells) <= |c.cells| * c.maxPairs
    && (AllZero(t) || forall x :: x in t ==> t[x] >= InitialPairs(c))
  }

  /**
   A plan of a chain that the planner finds complete always passes the summary's validation
   of its targets, although the two count the pairs in different ways.
   */
  lemma CompletePlanIsAccepted(c: Config, plans: seq<Plan>, summaries: seq<Summary>, reviews: seq<bool>, k: nat,
                               indices: map<Cell, set<nat>>, planned: map<Cell, nat>, scanned: map<Cell, nat>)
    requires ValidConfig(c) && IsChain(c, plans, summaries, reviews) && k < |plans|
    requires ArePrefixes(c, indices, planned) && ArePrefixes(c, indices, scanned)
    requires ValidTargets(c, plans[k].targets) && PlanComplete(c, plans[k].targets, planned)
    ensures TargetsProven(c, plans[k].targets, scanned)
  {
    ChainIsGood(c, plans, summaries, reviews, k);
    var t := plans[k].targets;
    forall x | x in t
      ensures x in scanned && t[x] <= scanned[x]
    {
      assert x in t.Keys;
      PrefixIsUnique(indices[x], planned[x], scanned[x]);
    }
    hide Total, IsPrefix, Extends;
  }
}
