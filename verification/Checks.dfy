/** Which handicap cell a plan checks, and which targets it accepts. */
module Checks {
  // Stated in the summary's own numbers: a cell is checked because it may be losing ground,
  // or because knowing it better could decide the promotion at no worse a price than pie.

  import opened RealVectors
  import opened Results
  import opened Allocation

  /** The mean lies below the floor, but the guard does not settle it. */
  predicate MayBeRegressing(s: Summary, d: Detail)
  {
    d.mean.Some? && !(s.floorScore <= d.mean.value) && !(s.floorScore < d.guardLo) && !(d.guardHi < s.floorScore)
  }

  /** Narrowing the cell's interval by at most its width moves a bound across its threshold. */
  ghost predicate CouldDecide(s: Summary, d: Detail)
  {
    exists x :: 0.0 <= x && (x == 0.0 || x <= d.hi - d.lo) && MovesAcross(s, Mul(d.weight, x))
  }

  predicate MovesAcross(s: Summary, gain: real)
  {
    (!(s.nullScore < s.lower) && s.nullScore < s.lower + gain) || (s.upper - gain < s.alternativeScore && !(s.upper < s.alternativeScore))
  }

  /** There is a pie cell, and none promises more for its cost. */
  ghost predicate AtLeastPie(s: Summary, u: real)
  {
    (exists d :: d in s.details && d.cell.pie) && forall d :: d in s.details && d.cell.pie ==> !(u < d.utility)
  }

  /** Worth a cycle: a review looks only for regressions. */
  ghost predicate Worth(s: Summary, d: Detail, review: bool)
  {
    !d.cell.pie && (MayBeRegressing(s, d) || (!review && CouldDecide(s, d) && AtLeastPie(s, d.utility)))
  }

  lemma MulLess(w: real, x: real, y: real)
    requires w >= 0.0 && x <= y
    ensures Mul(w, x) <= Mul(w, y)
  {
    assert w * (y - x) >= 0.0;
  }

  lemma RelevantCouldDecide(s: Summary, d: Detail)
    requires d.weight >= 0.0
    ensures Relevant(s, d) <==> CouldDecide(s, d)
  {
    var width := if d.hi > d.lo then d.hi - d.lo else 0.0;
    assert Relevant(s, d) <==> MovesAcross(s, Mul(d.weight, width));
    if CouldDecide(s, d) {
      var x :| 0.0 <= x && (x == 0.0 || x <= d.hi - d.lo) && MovesAcross(s, Mul(d.weight, x));
      MulLess(d.weight, x, width);
    }
    hide Mul, Relevant;
    assert MovesAcross(s, Mul(d.weight, width)) ==> CouldDecide(s, d);
  }

  lemma EligibleIsWorth(s: Summary, d: Detail, review: bool)
    requires d.weight >= 0.0
    ensures Eligible(s, d, review) <==> Worth(s, d, review)
  {
    RelevantCouldDecide(s, d);
    BeatsPieIs(s, d.utility);
    hide Relevant, CouldDecide, BeatsPie, AtLeastPie;
  }

  lemma BeatsPieIs(s: Summary, u: real)
    ensures BeatsPie(s, u) <==> AtLeastPie(s, u)
  {
    if AtLeastPie(s, u) {
      var d :| d in s.details && d.cell.pie;
      var i :| 0 <= i < |s.details| && s.details[i] == d;
      forall i | 0 <= i < |s.details| && s.details[i].cell.pie ensures s.details[i].utility <= u { assert s.details[i] in s.details; }
    }
    if BeatsPie(s, u) {
      var i :| 0 <= i < |s.details| && s.details[i].cell.pie;
      assert s.details[i] in s.details;
    }
  }

  /** No other cell comes first: regressions, then utility, then name. */
  ghost predicate ComesFirst(s: Summary, best: Detail, d: Detail)
  {
    && (MayBeRegressing(s, d) ==> MayBeRegressing(s, best))
    && ((MayBeRegressing(s, d) <==> MayBeRegressing(s, best)) ==>
          best.utility > d.utility || (best.utility == d.utility && best.cell.name <= d.cell.name))
  }

  /**
   A cell is checked exactly when a whole cycle still fits into the pairs left and into
   half of the budget, and some cell is worth it; and it is the one that comes first.
   */
  lemma ChecksExactly(c: Config, s: Summary, extraUsed: int, remaining: int, review: bool)
    requires forall d :: d in s.details ==> d.weight >= 0.0
    ensures var check := SelectCheck(c, s, extraUsed, remaining, review);
      && (check.Some? <==>
            && s.usable && c.cycle <= remaining && 2 * (extraUsed + c.cycle) <= |c.cells| * c.maxPairs
            && exists d :: d in s.details && Worth(s, d, review))
      && (check.Some? ==>
            && check.value in s.details && Worth(s, check.value, review)
            && forall d :: d in s.details && Worth(s, d, review) ==> ComesFirst(s, check.value, d))
  {
    BestIsBest(s, s.details, review);
    forall d | d in s.details ensures Eligible(s, d, review) <==> Worth(s, d, review) { EligibleIsWorth(s, d, review); }
    assert extraUsed + c.cycle <= ExtraCap(c) <==> 2 * (extraUsed + c.cycle) <= |c.cells| * c.maxPairs;
    hide Eligible, Worth, BestOf;
  }

  /** So at every plan of a chain the checked cycles are at most half of the budget, and every cell has its first cycle and minimum. */
  lemma PlansAreBounded(c: Config, plans: seq<Plan>, summaries: seq<Summary>, reviews: seq<bool>, k: nat, x: Cell)
    requires ValidConfig(c) && IsChain(c, plans, summaries, reviews) && k < |plans| && x in c.cells
    ensures 0 <= 2 * plans[k].extra <= |c.cells| * c.maxPairs
    ensures x in plans[k].targets && plans[k].targets[x] >= c.minimumPairs && plans[k].targets[x] >= c.cycle
    ensures k == 0 ==> plans[k].targets[x] == c.minimumPairs || plans[k].targets[x] == c.cycle
  {
    ChainIsGood(c, plans, summaries, reviews, k);
    GoodIsWithinBudget(c, plans[k]);
    hide Extends, Total;
  }

  /** The phase says how a plan came about. */
  lemma PhaseSaysSo(c: Config, plan: Plan, s: Summary, review: bool, next: Plan)
    requires ValidConfig(c) && ValidTargets(c, plan.targets) && Extends(c, plan, s, review, next)
    ensures next.phase == if review then HandicapReview else Continuation
  {
    hide Total, Grown, Raise, SelectCheck, LargestRemainder, TotalWeight, Budget;
    var tail: Targets :| IsTail(c, Budget(c) - Total(plan.targets, c.cells), review, tail) && IsExtension(c, plan, s, review, tail, next);
    assert IsExtension(c, plan, s, review, tail, next);
  }

  // The validations, by what they refuse.

  /** Some configured cell has no target, or another one has. */
  predicate Mislabelled(c: Config, t: Targets) { (exists x :: x in c.cells && x !in t) || exists x :: x in t && x !in c.cells }

  predicate HasNegative(t: Targets) { exists x :: x in t && t[x] < 0 }

  /** A stored plan is refused for wrong cells, for a negative target, and for more pairs than the budget, and for nothing else. */
  lemma StoredTargetsAreChecked(c: Config, t: Targets)
    ensures Mislabelled(c, t) || HasNegative(t) ==> !ValidTargets(c, t)
    ensures !Mislabelled(c, t) && !HasNegative(t) ==>
      && (forall x :: x in c.cells ==> x in t)
      && (ValidTargets(c, t) <==> !(|c.cells| * c.maxPairs < Total(t, c.cells)))
  {
    hide Total;
    if !Mislabelled(c, t) { assert t.Keys == set x | x in c.cells; }
  }

  /** A plan is complete unless some cell's unbroken pairs fall short of its target. */
  lemma ShortPlansAreIncomplete(c: Config, t: Targets, prefixes: map<Cell, nat>)
    requires forall x :: x in c.cells ==> x in t && x in prefixes
    ensures !PlanComplete(c, t, prefixes) <==> exists x :: x in c.cells && prefixes[x] < t[x]
  {
  }

  /** Some cell has pairs, and some cell has fewer than its first cycle or minimum. */
  predicate PartlyCovered(c: Config, t: Targets)
  {
    (exists x :: x in t && t[x] != 0) && exists x :: x in t && (t[x] < c.minimumPairs || t[x] < c.cycle)
  }

  predicate Overstated(t: Targets, prefixes: map<Cell, nat>) { exists x :: x in t && x in prefixes && prefixes[x] < t[x] }

  /**
   The summary refuses claimed targets for the same reasons, for a cell whose pairs do not
   prove its target, and for a coverage that is only partial, and for nothing else.
   */
  lemma ClaimedTargetsAreChecked(c: Config, t: Targets, prefixes: map<Cell, nat>)
    requires forall x :: x in c.cells ==> x in prefixes
    ensures Mislabelled(c, t) || HasNegative(t) || Overstated(t, prefixes) || PartlyCovered(c, t) ==> !TargetsProven(c, t, prefixes)
    ensures !Mislabelled(c, t) && !HasNegative(t) && !Overstated(t, prefixes) && !PartlyCovered(c, t) ==>
      && (forall x :: x in c.cells ==> x in t)
      && (TargetsProven(c, t, prefixes) <==> !(|c.cells| * c.maxPairs < Total(t, c.cells)))
  {
    hide Total;
    if !Mislabelled(c, t) { assert t.Keys == set x | x in c.cells; }
  }
}
