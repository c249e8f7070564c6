/** What the adaptive plan's weights mean for pie and handicap cells. */
module Shares {
  // Nine pairs go to each pie cell for one to each handicap cell, for as long as the budget
  // covers them, and a pie cell never gets fewer than a handicap cell.

  import opened Results
  import opened Allocation

  function PieCells(cells: seq<Cell>): nat
  {
    if cells == [] then 0 else PieCells(cells[..|cells|-1]) + (if cells[|cells|-1].pie then 1 else 0)
  }

  function HandicapCells(cells: seq<Cell>): nat
  {
    if cells == [] then 0 else HandicapCells(cells[..|cells|-1]) + (if cells[|cells|-1].pie then 0 else 1)
  }

  /** A full tail: nine pairs per pie cell and one per handicap cell. */
  function FullTail(cells: seq<Cell>): nat { 9 * PieCells(cells) + HandicapCells(cells) }

  lemma {:induction false} FullTailIsWeight(cells: seq<Cell>)
    ensures TotalWeight(cells) == FullTail(cells) && PieCells(cells) + HandicapCells(cells) == |cells|
  {
    if cells != [] {
      FullTailIsWeight(cells[..|cells|-1]);
    }
  }

  /** The cell's exact share of a request is this many of total parts. */
  function Parts(requested: nat, c: Cell): nat { if c.pie then 9 * requested else requested }

  /** With the budget for a full tail every cell gets its share in full. */
  lemma FullTailCounts(cells: seq<Cell>, counts: Targets, c: Cell)
    requires FullTail(cells) > 0 && c in cells
    requires TotalWeight(cells) > 0 && LargestRemainder(FullTail(cells), cells, counts)
    ensures c in counts && counts[c] == if c.pie then 9 else 1
  {
    FullTailIsWeight(cells);
    var total := TotalWeight(cells);
    QuotaIsWhole(total, if c.pie then 9 else 1);
    hide Total;
    assert Floor(total, total, c) == if c.pie then 9 else 1;
  }

  lemma QuotaIsWhole(total: nat, w: nat)
    requires total > 0
    ensures total * w / total == w && total * w % total == 0
  {
    QuotaSplits(total, total, w);
    MultipleAtLeast(w - total * w / total, total);
  }

  lemma MultipleAtLeast(k: int, t: nat)
    ensures k >= 1 ==> t * k >= t
    ensures k <= -1 ==> t * k <= 0 - t
  {
    if k >= 1 { assert t * k == t * (k - 1) + t; }
    if k <= -1 { assert t * k == t * (k + 1) - t; }
  }

  lemma ShareSplits(requested: nat, cells: seq<Cell>, c: Cell)
    requires FullTail(cells) > 0
    ensures TotalWeight(cells) == FullTail(cells)
    ensures var total := FullTail(cells);
      && Floor(requested, total, c) == Parts(requested, c) / total && Remainder(requested, total, c) == Parts(requested, c) % total
      && Parts(requested, c) == total * Floor(requested, total, c) + Remainder(requested, total, c)
      && 0 <= Remainder(requested, total, c) < total
  {
    FullTailIsWeight(cells);
    QuotaSplits(requested, FullTail(cells), if c.pie then 9 else 1);
  }

  /** Below a full tail every cell gets its exact share, rounded; the largest fractions are rounded up, ties by name. */
  lemma TailIsProportional(requested: nat, cells: seq<Cell>, counts: Targets, a: Cell, b: Cell)
    requires Distinct(cells) && FullTail(cells) > 0 && a in cells && b in cells
    requires TotalWeight(cells) > 0 && LargestRemainder(requested, cells, counts)
    ensures var total := FullTail(cells);
      && a in counts && b in counts
      && Parts(requested, a) - total < total * counts[a] < Parts(requested, a) + total
      && (total * counts[a] <= Parts(requested, a) && total * counts[b] > Parts(requested, b) ==>
            || Parts(requested, a) % total < Parts(requested, b) % total
            || (Parts(requested, a) % total == Parts(requested, b) % total && b.name < a.name))
  {
    var total := FullTail(cells);
    ShareSplits(requested, cells, a);
    ShareSplits(requested, cells, b);
    hide Total, TotalWeight, Floor, Remainder, Parts, FullTail;
    Rounded(total, counts[a], Floor(requested, total, a), Remainder(requested, total, a));
    Rounded(total, counts[b], Floor(requested, total, b), Remainder(requested, total, b));
    SameName(cells, a, b);
    if a.name != b.name { BeforeTotal(requested, total, a, b); }
  }

  lemma SameName(cells: seq<Cell>, a: Cell, b: Cell)
    requires Distinct(cells) && a in cells && b in cells
    ensures a.name == b.name ==> a == b
  {
  }

  lemma Rounded(total: nat, count: int, floor: nat, rest: nat)
    requires rest < total && (count == floor || (count == floor + 1 && rest > 0))
    ensures total * floor + rest - total < total * count < total * floor + rest + total
    ensures total * count > total * floor + rest <==> count == floor + 1
  {
    assert total * (floor + 1) == total * floor + total;
  }

  /** At no budget does a pie cell get fewer pairs of the tail than a handicap cell. */
  lemma PieComesFirst(requested: nat, cells: seq<Cell>, counts: Targets, pie: Cell, handicap: Cell)
    requires Distinct(cells) && FullTail(cells) > 0 && pie in cells && handicap in cells && pie.pie && !handicap.pie
    requires TotalWeight(cells) > 0 && requested <= FullTail(cells) && LargestRemainder(requested, cells, counts)
    ensures pie in counts && handicap in counts && counts[handicap] <= counts[pie]
  {
    var total := FullTail(cells);
    TailIsProportional(requested, cells, counts, pie, handicap);
    TailIsProportional(requested, cells, counts, handicap, pie);
    ShareSplits(requested, cells, pie);
    ShareSplits(requested, cells, handicap);
    var p, h := counts[pie], counts[handicap];
    assert total * p > 9 * requested - total && total * h < requested + total;
    hide Total, LargestRemainder, TotalWeight, Distinct, Floor, Remainder, FullTail;
    if 9 * requested < total {
      SmallDivision(9 * requested, total);
      SmallDivision(requested, total);
    }
  }

  lemma SmallDivision(x: nat, total: nat)
    requires x < total
    ensures x % total == x && x / total == 0
  {
  }

  // Full continuations.

  /** The budget left covers a full tail. */
  ghost predicate CoversTail(c: Config, plan: Plan)
    requires GoodPlan(c, plan)
  {
    Budget(c) - Placed(c, plan) >= FullTail(c.cells)
  }

  /** What the checked cell gets on top. */
  function Checked(c: Config, plan: Plan, x: Cell): nat { if plan.check == Some(x) then c.cycle else 0 }

  /** An ordinary continuation with the budget for it gives nine pairs to each pie cell and one to each handicap cell. */
  lemma FullContinuation(c: Config, plan: Plan, s: Summary, next: Plan, x: Cell)
    requires ValidConfig(c) && AboutCells(c, s) && GoodPlan(c, plan) && CoversTail(c, plan) && x in c.cells
    requires Extends(c, plan, s, false, next)
    ensures x in plan.targets && x in next.targets
    ensures next.targets[x] == plan.targets[x] + (if x.pie then 9 else 1) + Checked(c, next, x)
    ensures next.extra == plan.extra + (if next.check.Some? then c.cycle else 0)
    ensures next.check.Some? ==> next.check.value in c.cells && !next.check.value.pie
  {
    hide *;
    GoodIsWithinBudget(c, plan);
    FullTailIsWeight(c.cells);
    var tail, check := ExtensionParts(c, plan, s, false, next);
    TailIsFull(c, plan);
    FullTailCounts(c.cells, tail, x);
    RaisedAt(tail, check, c.cycle, x);
    GrownAt(c, plan, Raise(tail, check, c.cycle), check, next, x);
    CheckedIs(c, next, x);
  }

  lemma TailIsFull(c: Config, plan: Plan)
    requires GoodPlan(c, plan) && CoversTail(c, plan) && ValidConfig(c)
    ensures FullTail(c.cells) > 0 && (forall x :: x in c.cells ==> x in plan.targets)
    ensures Min(Budget(c) - Total(plan.targets, c.cells), FullTail(c.cells)) == FullTail(c.cells)
  {
    GoodIsWithinBudget(c, plan);
    FullTailIsWeight(c.cells);
    TotalWeightPositive(c.cells);
    hide Total, Budget, GoodPlan;
  }

  lemma RaisedAt(tail: Targets, check: Option<Detail>, cycle: nat, x: Cell)
    requires x in tail && (check.Some? ==> check.value.cell in tail)
    ensures x in Raise(tail, check, cycle)
    ensures Raise(tail, check, cycle)[x] == tail[x] + (if check.Some? && check.value.cell == x then cycle else 0)
  {
  }

  lemma GrownAt(c: Config, plan: Plan, increments: Targets, check: Option<Detail>, next: Plan, x: Cell)
    requires (forall y :: y in c.cells ==> y in plan.targets && y in increments) && x in c.cells
    requires next == ExtendedBy(c, plan, increments, check, false)
    ensures x in next.targets && next.targets[x] == plan.targets[x] + increments[x]
  {
  }

  lemma CheckedIs(c: Config, next: Plan, x: Cell)
    ensures Checked(c, next, x) == if next.check.Some? && next.check.value == x then c.cycle else 0
  {
  }

  /** The extra cycles that a chain gave one cell up to a plan. */
  function CheckedSoFar(c: Config, plans: seq<Plan>, x: Cell): nat
  {
    if |plans| <= 1 then 0 else CheckedSoFar(c, plans[..|plans|-1], x) + Checked(c, plans[|plans|-1], x)
  }

  /** Every plan of the chain before this one left the budget for a full tail. */
  ghost predicate AllFull(c: Config, plans: seq<Plan>, k: nat)
    requires k < |plans|
  {
    forall j :: 0 <= j < k ==> GoodPlan(c, plans[j]) && CoversTail(c, plans[j])
  }

  /**
   After k ordinary continuations, each with the budget for a full tail, every pie cell has
   exactly nine pairs more per continuation, and every handicap cell one, besides the
   cycles that it was checked with.
   */
  lemma {:induction false} ContinuationsShare(c: Config, plans: seq<Plan>, summaries: seq<Summary>, reviews: seq<bool>, k: nat, x: Cell)
    requires ValidConfig(c) && IsChain(c, plans, summaries, reviews) && k < |plans| && x in c.cells
    requires (forall j :: 0 <= j < |reviews| ==> !reviews[j]) && AllFull(c, plans, k)
    ensures x in plans[k].targets
    ensures plans[k].targets[x] == InitialPairs(c) + (if x.pie then 9 * k else k + CheckedSoFar(c, plans[..k+1], x))
    ensures x.pie ==> CheckedSoFar(c, plans[..k+1], x) == 0
  {
    hide GoodPlan, CoversTail, Extends, ValidTargets, AboutCells, ValidConfig, InitialPairs, Checked;
    if k == 0 {
      FirstTargets(c, plans, summaries, reviews, x);
    } else {
      ContinuationsShare(c, plans, summaries, reviews, k - 1, x);
      ChainLink(c, plans, summaries, reviews, k - 1);
      assert plans[..k+1][..k] == plans[..k];
      FullContinuation(c, plans[k-1], summaries[k-1], plans[k], x);
      CheckedIs(c, plans[k], x);
    }
  }

  lemma FirstTargets(c: Config, plans: seq<Plan>, summaries: seq<Summary>, reviews: seq<bool>, x: Cell)
    requires ValidConfig(c) && IsChain(c, plans, summaries, reviews) && x in c.cells
    ensures x in plans[0].targets && plans[0].targets[x] == InitialPairs(c) && |plans[..1]| == 1
  {
    hide Extends, ValidTargets, AboutCells, InitialPairs;
  }

  /** The pairs that a plan gives to pie cells. */
  function PieTotal(t: Targets, cells: seq<Cell>): int
    requires forall c :: c in cells ==> c in t
  {
    if cells == [] then 0
    else PieTotal(t, cells[..|cells|-1]) + (if cells[|cells|-1].pie then t[cells[|cells|-1]] else 0)
  }

  lemma {:induction false} PieTotalIs(t: Targets, cells: seq<Cell>, n: int)
    requires (forall c :: c in cells ==> c in t) && forall c :: c in cells && c.pie ==> t[c] == n
    ensures PieTotal(t, cells) == n * PieCells(cells)
  {
    if cells != [] {
      var k := |cells| - 1;
      PieTotalIs(t, cells[..k], n);
      assert n * (PieCells(cells[..k]) + 1) == n * PieCells(cells[..k]) + n;
    }
  }

  lemma {:induction false} FullTailsAdded(c: Config, plans: seq<Plan>, summaries: seq<Summary>, reviews: seq<bool>, k: nat)
    requires ValidConfig(c) && IsChain(c, plans, summaries, reviews) && k < |plans|
    requires (forall j :: 0 <= j < |reviews| ==> !reviews[j]) && AllFull(c, plans, k)
    ensures GoodPlan(c, plans[k])
    ensures Placed(c, plans[k]) == InitialPairs(c) * |c.cells| + k * FullTail(c.cells) + plans[k].extra
  {
    hide *;
    ChainIsGood(c, plans, summaries, reviews, k);
    if k == 0 {
      FirstOfChain(c, plans, summaries, reviews);
      FirstExtra(c, plans, summaries, reviews);
    } else {
      ChainLink(c, plans, summaries, reviews, k - 1);
      Shorter(c, plans, k, k - 1);
      FullTailsAdded(c, plans, summaries, reviews, k - 1);
      ExtensionIsGood(c, plans[k-1], summaries[k-1], reviews[k-1], plans[k]);
      GrowsByFullTail(c, plans[k-1], plans[k]);
      Spread(FullTail(c.cells), k - 1, 1);
    }
  }

  lemma FirstExtra(c: Config, plans: seq<Plan>, summaries: seq<Summary>, reviews: seq<bool>)
    requires ValidConfig(c) && IsChain(c, plans, summaries, reviews)
    ensures plans[0].extra == 0
  {
  }

  lemma Shorter(c: Config, plans: seq<Plan>, k: nat, j: nat)
    requires k < |plans| && AllFull(c, plans, k) && j < k
    ensures AllFull(c, plans, j) && GoodPlan(c, plans[j]) && CoversTail(c, plans[j])
  {
  }

  lemma GrowsByFullTail(c: Config, plan: Plan, next: Plan)
    requires GoodPlan(c, plan) && GoodPlan(c, next) && Grows(c, plan, false, next) && CoversTail(c, plan)
    ensures Placed(c, next) == Placed(c, plan) + FullTail(c.cells) + next.extra - plan.extra
  {
    FullTailIsWeight(c.cells);
    GoodIsWithinBudget(c, plan);
    GoodIsWithinBudget(c, next);
    hide Total, TotalWeight, FullTail, Budget, GoodPlan, Below;
  }

  /**
   Together: k full continuations place k full tails besides the checked cycles, and nine
   pairs of each on every pie cell. With as many pie as handicap cells that is nine tenths.
   */
  lemma PieShare(c: Config, plans: seq<Plan>, summaries: seq<Summary>, reviews: seq<bool>, k: nat)
    requires ValidConfig(c) && IsChain(c, plans, summaries, reviews) && k < |plans|
    requires (forall j :: 0 <= j < |reviews| ==> !reviews[j]) && AllFull(c, plans, k)
    ensures GoodPlan(c, plans[k]) && forall x :: x in c.cells ==> x in plans[k].targets
    ensures var tails := Placed(c, plans[k]) - InitialPairs(c) * |c.cells| - plans[k].extra;
      var pie := PieTotal(plans[k].targets, c.cells) - InitialPairs(c) * PieCells(c.cells);
      && tails == k * FullTail(c.cells) && pie == 9 * k * PieCells(c.cells)
      && (PieCells(c.cells) == HandicapCells(c.cells) ==> 10 * pie == 9 * tails)
  {
    FullTailsAdded(c, plans, summaries, reviews, k);
    hide IsChain, AllFull, InitialPairs, ValidConfig, Placed, GoodPlan;
    forall x | x in c.cells
      ensures x in plans[k].targets && (x.pie ==> plans[k].targets[x] == InitialPairs(c) + 9 * k)
    {
      ContinuationsShare(c, plans, summaries, reviews, k, x);
    }
    PieTotalIs(plans[k].targets, c.cells, InitialPairs(c) + 9 * k);
    Tenths(InitialPairs(c), k, PieCells(c.cells));
  }

  lemma Tenths(initial: int, k: int, cells: int)
    ensures (initial + 9 * k) * cells - initial * cells == 9 * k * cells
    ensures k * (9 * cells + cells) == 10 * (k * cells) && 9 * k * cells == 9 * (k * cells)
  {
  }
}
