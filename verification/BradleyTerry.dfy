/** The anchored Bradley-Terry fit as a whole. */
module BradleyTerry {
  // Whatever the records say, connectivity to the anchor makes every linear system of a fit
  // solvable in exact arithmetic, and every Newton step an ascent once it is halved enough.

  import opened RealVectors
  import opened Results
  import opened Paths
  import opened Sets
  import opened Components
  import opened Matches
  import opened LinearSystem
  import opened Inversion
  import opened Laplacian
  import opened Covariance
  import opened Likelihood

  /** The records' comparison graph, as an edge test. */
  function Played(matches: seq<Match>): Edge
  {
    (a: int, b: int) => Met(matches, a, b)
  }

  ghost predicate Reachable(matches: seq<Match>, anchor: int, a: int)
  {
    Connected(Played(matches), anchor, a)
  }

  ghost predicate Mentioned(matches: seq<Match>, anchor: int)
  {
    exists i :: 0 <= i < |matches| && anchor in {matches[i].candidate, matches[i].baseline}
  }

  // Setting the problem up.

  function RawPairing(key: Key, t: Totals): Pairing
  {
    Pairing(key.first, key.second, t.firstWins as real, t.secondWins as real)
  }

  /** A one-sided pairing gets the continuity correction on both sides. */
  function Adjusted(p: Pairing, correction: real): Pairing
  {
    if p.firstWins == 0.0 || p.secondWins == 0.0
    then p.(firstWins := p.firstWins + correction, secondWins := p.secondWins + correction)
    else p
  }

  /** After the correction both sides have won something, and neither has gained on the other. */
  lemma AdjustedIsBalanced(p: Pairing, correction: real)
    requires correction > 0.0 && p.firstWins >= 0.0 && p.secondWins >= 0.0 && p.firstWins + p.secondWins > 0.0
    ensures var q := Adjusted(p, correction);
      && SamePairing(p, q) && q.firstWins > 0.0 && q.secondWins > 0.0
      && q.firstWins - q.secondWins == p.firstWins - p.secondWins
      && (p.firstWins > 0.0 && p.secondWins > 0.0 <==> q == p)
  {
  }

  /** Numbers the variables in order. */
  function IndexOf(variables: seq<int>): (index: Index)
    requires forall i, j :: 0 <= i < j < |variables| ==> variables[i] < variables[j]
    ensures forall a :: a in index <==> a in variables
    ensures forall i :: 0 <= i < |variables| ==> variables[i] in index && index[variables[i]] == i
  {
    if variables == [] then map[]
    else
      var k := |variables| - 1;
      IndexOf(variables[..k])[variables[k] := k]
  }

  lemma IndexNumbers(variables: seq<int>)
    requires forall i, j :: 0 <= i < j < |variables| ==> variables[i] < variables[j]
    ensures Numbers(IndexOf(variables), |variables|)
  {
    var index := IndexOf(variables);
    forall a | a in index
      ensures index[a] < |variables| && variables[index[a]] == a
    {
      var i :| 0 <= i < |variables| && variables[i] == a;
    }
    forall i | 0 <= i < |variables|
      ensures HasVariable(index, i)
    {
      assert variables[i] in index && index[variables[i]] == i;
    }
  }

  datatype Problem = Problem(anchor: int, component: set<int>, components: seq<set<int>>, keys: seq<Key>,
                             raw: seq<Pairing>, adjusted: seq<Pairing>, index: Index, n: nat)

  ghost predicate SamePairing(p: Pairing, q: Pairing)
  {
    p.first == q.first && p.second == q.second
  }

  /** Everything the iterations rely on. */
  ghost predicate WellPosed(p: Problem)
  {
    && p.n > 0 && p.anchor in p.component && p.anchor !in p.index && p.index.Keys == p.component - {p.anchor}
    && Numbers(p.index, p.n)
    && |p.raw| == |p.adjusted|
    && (forall i :: 0 <= i < |p.raw| ==> FitPairing(p.component, p.raw[i]) && FitPairing(p.component, p.adjusted[i]))
    && (forall i :: 0 <= i < |p.raw| ==> SamePairing(p.raw[i], p.adjusted[i]))
    && Anchored(p.raw, p.index, p.anchor)
  }

  predicate FitPairing(component: set<int>, p: Pairing)
  {
    && p.first in component && p.second in component && p.first != p.second
    && p.firstWins >= 0.0 && p.secondWins >= 0.0 && p.firstWins + p.secondWins > 0.0
  }

  /** Exactly the identities that some member reaches. */
  ghost predicate IsGroup(matches: seq<Match>, group: set<int>)
  {
    exists a :: a in group && forall b :: b in group <==> Reachable(matches, a, b)
  }

  /** The records' identities in their connected groups, the anchor's first and the others by least identity. */
  ghost predicate AreGroups(matches: seq<Match>, anchor: int, groups: seq<set<int>>)
  {
    && groups != [] && anchor in groups[0]
    && (forall i :: 0 <= i < |groups| ==> groups[i] != {} && IsGroup(matches, groups[i]))
    && (forall i, j :: 0 <= i < j < |groups| ==> groups[i] !! groups[j])
    && (forall a :: Mentioned(matches, a) <==> Covers(groups, a))
    && (forall i, j :: 1 <= i < j < |groups| ==> Least(groups[i]) < Least(groups[j]))
  }

  lemma ComponentsAreGroups(matches: seq<Match>, adjacency: Adjacency, anchor: int, components: seq<set<int>>)
    requires GraphIs(adjacency, matches) && components != [] && anchor in components[0]
    requires forall i :: 0 <= i < |components| ==> components[i] != {} && IsComponent(adjacency, components[i])
    requires forall i, j :: 0 <= i < j < |components| ==> components[i] !! components[j]
    requires forall x :: x in adjacency <==> Covers(components, x)
    requires forall i, j :: 1 <= i < j < |components| ==> Least(components[i]) < Least(components[j])
    ensures AreGroups(matches, anchor, components)
  {
    hide GraphIs, Mentioned, Covers, SameComponent, Reachable, Least;
    forall a
      ensures Mentioned(matches, a) <==> Covers(components, a)
    {
      InGraph(matches, adjacency, a);
    }
    forall i | 0 <= i < |components|
      ensures IsGroup(matches, components[i])
    {
      ComponentIsGroup(matches, adjacency, components[i]);
    }
  }

  lemma ComponentIsGroup(matches: seq<Match>, adjacency: Adjacency, component: set<int>)
    requires GraphIs(adjacency, matches) && IsComponent(adjacency, component)
    ensures IsGroup(matches, component)
  {
    hide GraphIs, SameComponent, Reachable;
    var a :| a in component && a in adjacency && forall b :: b in component <==> SameComponent(adjacency, a, b);
    forall b
      ensures b in component <==> Reachable(matches, a, b)
    {
      SameGraph(matches, adjacency, a, b);
    }
  }

  /** The problem is the one that the records pose. */
  ghost predicate Poses(matches: seq<Match>, anchor: int, correction: real, p: Problem)
  {
    && p.anchor == anchor && AreGroups(matches, anchor, p.components) && p.component == p.components[0]
    && (forall a :: a in p.component <==> Reachable(matches, anchor, a))
    && Proper(p.keys)
    && (forall key: Key :: key in p.keys <==>
         key.first < key.second && Met(matches, key.first, key.second) && key.first in p.component)
    && |p.raw| == |p.adjusted| == |p.keys|
    && (forall i :: 0 <= i < |p.keys| ==> p.raw[i] == RawPairing(p.keys[i], TotalsOf(matches, p.keys[i])))
    && (forall i :: 0 <= i < |p.keys| ==> p.adjusted[i] == Adjusted(p.raw[i], correction))
  }

  lemma ReachableStep(matches: seq<Match>, anchor: int, a: int, b: int)
    requires Reachable(matches, anchor, a) && Met(matches, a, b)
    ensures Reachable(matches, anchor, b)
  {
    ConnectedByEdge(Played(matches), a, b);
    ConnectedTransitively(Played(matches), anchor, a, b);
  }

  lemma MetBothWays(matches: seq<Match>, a: int, b: int)
    requires Met(matches, a, b)
    ensures Met(matches, b, a)
  {
    var i :| 0 <= i < |matches| && IsBetween(matches[i], a, b);
    assert IsBetween(matches[i], b, a);
  }

  lemma MentionedIsMet(matches: seq<Match>, anchor: int)
    ensures Mentioned(matches, anchor) <==> exists b :: Met(matches, anchor, b)
  {
    if Mentioned(matches, anchor) {
      var i :| 0 <= i < |matches| && anchor in {matches[i].candidate, matches[i].baseline};
      var b := if matches[i].candidate == anchor then matches[i].baseline else matches[i].candidate;
      assert IsBetween(matches[i], anchor, b);
      assert Met(matches, anchor, b);
    }
    if b :| Met(matches, anchor, b) {
      var i :| 0 <= i < |matches| && IsBetween(matches[i], anchor, b);
      assert anchor in {matches[i].candidate, matches[i].baseline};
    }
  }

  /** A pairing that was met has at least one game. */
  lemma {:induction false} MetHasGames(matches: seq<Match>, key: Key)
    requires AllValid(matches) && key.first < key.second && Met(matches, key.first, key.second)
    ensures TotalsOf(matches, key).firstWins + TotalsOf(matches, key).secondWins > 0
  {
    var k := |matches| - 1;
    assert matches == matches[..k] + [matches[k]];
    TotalsOneMore(matches[..k], matches[k], key);
    MetOneMore(matches[..k], matches[k], key.first, key.second);
    if Met(matches[..k], key.first, key.second) {
      MetHasGames(matches[..k], key);
    }
  }

  lemma PairingsAreFit(matches: seq<Match>, anchor: int, correction: real, p: Problem)
    requires AllValid(matches) && correction > 0.0 && Poses(matches, anchor, correction, p)
    ensures forall i :: 0 <= i < |p.raw| ==> FitPairing(p.component, p.raw[i]) && FitPairing(p.component, p.adjusted[i])
    ensures forall i :: 0 <= i < |p.raw| ==> SamePairing(p.raw[i], p.adjusted[i])
  {
    forall i | 0 <= i < |p.raw|
      ensures FitPairing(p.component, p.raw[i]) && FitPairing(p.component, p.adjusted[i]) && SamePairing(p.raw[i], p.adjusted[i])
    {
      var key := p.keys[i];
      assert key in p.keys;
      MetHasGames(matches, key);
      ReachableStep(matches, anchor, key.first, key.second);
    }
  }

  /** Connected by records to the anchor means connected by the fit's pairings. */
  lemma PairingsConnect(matches: seq<Match>, anchor: int, correction: real, p: Problem, a: int)
    requires Poses(matches, anchor, correction, p) && Reachable(matches, anchor, a)
    ensures Connected(Plays(p.raw), anchor, a)
  {
    var connected := x => Reachable(matches, anchor, x) && Connected(Plays(p.raw), anchor, x);
    ConnectedToSelf(Plays(p.raw), anchor);
    ConnectedToSelf(Played(matches), anchor);
    forall x, y | connected(x) && Played(matches)(x, y)
      ensures connected(y)
    {
      ReachableStep(matches, anchor, x, y);
      var key := if x < y then Key(x, y) else Key(y, x);
      if x == y {
      } else {
        MetBothWays(matches, x, y);
        assert key in p.keys;
        var i :| 0 <= i < |p.keys| && p.keys[i] == key;
        assert Joins(p.raw[i], x, y);
        assert Plays(p.raw)(x, y);
        ConnectedByEdge(Plays(p.raw), x, y);
        ConnectedTransitively(Plays(p.raw), anchor, x, y);
      }
    }
    var path :| Connects(Played(matches), path, anchor, a);
    PreservedAlong(Played(matches), connected, path);
  }

  lemma PosedIsWellPosed(matches: seq<Match>, anchor: int, correction: real, p: Problem)
    requires AllValid(matches) && correction > 0.0 && Poses(matches, anchor, correction, p)
    requires Mentioned(matches, anchor)
    requires p.index.Keys == p.component - {anchor} && Numbers(p.index, p.n)
    ensures WellPosed(p)
  {
    PairingsAreFit(matches, anchor, correction, p);
    ConnectedToSelf(Played(matches), anchor);
    forall a | a in p.index
      ensures Connected(Plays(p.raw), anchor, a)
    {
      assert a in p.component;
      PairingsConnect(matches, anchor, correction, p, a);
    }
    MentionedIsMet(matches, anchor);
    var b :| Met(matches, anchor, b);
    ReachableStep(matches, anchor, anchor, b);
    var i :| 0 <= i < |matches| && IsBetween(matches[i], anchor, b);
    assert ValidMatch(matches[i]);
    assert b in p.index;
    assert p.index[b] < p.n;
  }

  /** Setting up: everything the fit does before its iterations. */
  method Pose(matches: seq<Match>, anchor: int, correction: real) returns (result: Result<Problem>, totals: map<Key, Totals>)
    requires AllValid(matches)
    ensures result.Success? <==> correction > 0.0 && Mentioned(matches, anchor)
    ensures result.Success? ==> Poses(matches, anchor, correction, result.value) && WellPosed(result.value)
    ensures result.Success? ==> TotalsAre(totals, matches) && result.value.anchor == anchor
  {
    hide *;
    totals := map[];
    if correction <= 0.0 {
      return Failure("continuity_correction must be finite and positive"), totals;
    }
    if matches == [] {
      NobodyMentioned(anchor);
      return Failure("Bradley-Terry fit requires at least one decisive match"), totals;
    }
    var adjacency: Adjacency;
    totals, adjacency := ReduceMatches(matches);
    InGraph(matches, adjacency, anchor);
    if anchor !in adjacency {
      return Failure("anchor_identity is absent from the comparison graph"), totals;
    }
    var components := ConnectedComponents(adjacency, anchor);
    forall a
      ensures a in components[0] <==> Reachable(matches, anchor, a)
    {
      SameGraph(matches, adjacency, anchor, a);
    }
    ComponentsAreGroups(matches, adjacency, anchor, components);
    var p := Assemble(matches, anchor, correction, totals, components);
    PosedIsWellPosed(matches, anchor, correction, p);
    result := Success(p);
  }

  /** The anchor's pairings, raw and adjusted, and the numbering of its variables. */
  method Assemble(matches: seq<Match>, anchor: int, correction: real, totals: map<Key, Totals>, components: seq<set<int>>)
    returns (p: Problem)
    requires TotalsAre(totals, matches) && components != [] && AreGroups(matches, anchor, components)
    requires forall a :: a in components[0] <==> Reachable(matches, anchor, a)
    ensures Poses(matches, anchor, correction, p)
    ensures p.index.Keys == p.component - {anchor} && Numbers(p.index, p.n)
    ensures p.components == components && p.component == components[0]
  {
    var component := components[0];
    hide Reachable, TotalsAre, Poses, Numbers, AreGroups;
    var keys := SortedKeys(KeysIn(totals, component));
    var raw := RawPairings(totals, keys);
    var adjusted := AllAdjusted(raw, correction);
    var variables := Ascending(component - {anchor});
    p := Problem(anchor, component, components, keys, raw, adjusted, IndexOf(variables), |variables|);
    IndexNumbers(variables);
    AssembledPoses(matches, correction, totals, p);
  }

  lemma AssembledPoses(matches: seq<Match>, correction: real, totals: map<Key, Totals>, p: Problem)
    requires TotalsAre(totals, matches) && p.components != [] && p.component == p.components[0]
    requires AreGroups(matches, p.anchor, p.components)
    requires forall a :: a in p.component <==> Reachable(matches, p.anchor, a)
    requires p.keys == SortedKeys(KeysIn(totals, p.component))
    requires p.raw == RawPairings(totals, p.keys) && p.adjusted == AllAdjusted(p.raw, correction)
    ensures Poses(matches, p.anchor, correction, p)
  {
    hide TotalsOf, Met, Reachable, AreGroups, TotalsAre, Proper, Adjusted, SortedKeys, RawPairings, AllAdjusted, KeysIn, TotalsIn;
    KeysWithin(matches, p.anchor, totals, p.component, p.keys);
  }

  function TotalsIn(totals: map<Key, Totals>, key: Key): Totals
  {
    if key in totals then totals[key] else Totals(0, 0, 0)
  }

  lemma NobodyMentioned(anchor: int)
    ensures !Mentioned([], anchor)
  {
  }

  lemma InGraph(matches: seq<Match>, adjacency: Adjacency, anchor: int)
    requires GraphIs(adjacency, matches)
    ensures anchor in adjacency <==> Mentioned(matches, anchor)
  {
    hide Met;
    MentionedIsMet(matches, anchor);
    if anchor in adjacency {
      EmptyOrInhabited(adjacency[anchor]);
      var b :| b in adjacency[anchor];
      assert Met(matches, anchor, b);
    }
    if b :| Met(matches, anchor, b) {
      assert anchor in adjacency && b in adjacency[anchor];
    }
  }

  lemma SameGraph(matches: seq<Match>, adjacency: Adjacency, a: int, b: int)
    requires GraphIs(adjacency, matches)
    ensures SameComponent(adjacency, a, b) <==> Reachable(matches, a, b)
  {
    hide Met;
    if SameComponent(adjacency, a, b) { MoreEdges(Neighbours(adjacency), Played(matches), a, b); }
    if Reachable(matches, a, b) { MoreEdges(Played(matches), Neighbours(adjacency), a, b); }
  }

  function RawPairings(totals: map<Key, Totals>, keys: seq<Key>): (raw: seq<Pairing>)
    ensures |raw| == |keys| && forall i :: 0 <= i < |keys| ==> raw[i] == RawPairing(keys[i], TotalsIn(totals, keys[i]))
  {
    seq(|keys|, i requires 0 <= i < |keys| => RawPairing(keys[i], TotalsIn(totals, keys[i])))
  }

  function AllAdjusted(raw: seq<Pairing>, correction: real): (adjusted: seq<Pairing>)
    ensures |adjusted| == |raw| && forall i :: 0 <= i < |raw| ==> adjusted[i] == Adjusted(raw[i], correction)
  {
    seq(|raw|, i requires 0 <= i < |raw| => Adjusted(raw[i], correction))
  }

  /** The pairings inside one component. */
  function KeysIn(totals: map<Key, Totals>, component: set<int>): (keys: set<Key>)
    ensures forall key :: key in keys <==> key in totals && key.first in component && key.second in component
  {
    set key | key in totals && key.first in component && key.second in component
  }

  lemma KeysWithin(matches: seq<Match>, anchor: int, totals: map<Key, Totals>, component: set<int>, keys: seq<Key>)
    requires TotalsAre(totals, matches)
    requires forall a :: a in component <==> Reachable(matches, anchor, a)
    requires forall key :: key in keys <==> key in totals && key.first in component && key.second in component
    requires forall i, j :: 0 <= i < j < |keys| ==> Before(keys[i], keys[j])
    ensures Proper(keys)
    ensures forall key: Key :: key in keys <==> key.first < key.second && Met(matches, key.first, key.second) && key.first in component
    ensures forall i :: 0 <= i < |keys| ==> TotalsIn(totals, keys[i]) == TotalsOf(matches, keys[i])
  {
    hide Met, TotalsOf, Reachable;
    forall key: Key | key.first < key.second && Met(matches, key.first, key.second) && key.first in component
      ensures key in keys
    {
      ReachableStep(matches, anchor, key.first, key.second);
    }
    forall i | 0 <= i < |keys|
      ensures keys[i].first < keys[i].second && TotalsIn(totals, keys[i]) == TotalsOf(matches, keys[i])
    {
      assert keys[i] in keys;
    }
  }

  // The iterations.

  /** The proposal: every variable moved by its share of the step. */
  function Shifted(logits: Logits, index: Index, delta: Row, scale: real): (r: Logits)
    requires forall a :: a in index ==> index[a] < |delta|
    ensures r.Keys == logits.Keys
  {
    map a | a in logits :: logits[a] + if a in index then scale * delta[index[a]] else 0.0
  }

  predicate AllWithin(xs: Row, bound: real)
  {
    forall i :: 0 <= i < |xs| ==> Abs(xs[i]) <= bound
  }

  const SMALL: real := 0.00000000001
  const SLACK: real := 0.000000000001
  const HALVINGS: nat := 40

  ghost predicate RatesAll(p: Problem, logits: Logits)
  {
    logits.Keys == p.component && p.anchor in logits && logits[p.anchor] == 0.0
  }

  lemma RatesPairings(p: Problem, logits: Logits)
    requires WellPosed(p) && RatesAll(p, logits)
    ensures Rated(p.raw, logits) && Rated(p.adjusted, logits)
  {
  }

  /** The proposal still rates the pairings. */
  lemma ShiftedRates(p: Problem, logits: Logits, delta: Row, scale: real)
    requires WellPosed(p) && RatesAll(p, logits) && |delta| == p.n
    ensures (forall a :: a in p.index ==> p.index[a] < |delta|)
    ensures RatesAll(p, Shifted(logits, p.index, delta, scale))
  {
    assert p.anchor !in p.index;
  }

  /** What the fit maximises: the log-likelihood of the adjusted pairings. */
  ghost function Objective(p: Problem, lp: LogProbability, logits: Logits): real
    requires WellPosed(p) && RatesAll(p, logits)
  {
    RatesPairings(p, logits);
    LogLikelihood(p.adjusted, logits, lp)
  }

  /** The step at this scale does not lower the objective by more than the slack. */
  ghost predicate Accepts(p: Problem, lp: LogProbability, logits: Logits, delta: Row, scale: real)
    requires WellPosed(p) && RatesAll(p, logits) && |delta| == p.n
  {
    ShiftedRates(p, logits, delta, scale);
    Objective(p, lp, Shifted(logits, p.index, delta, scale)) >= Objective(p, lp, logits) - SLACK
  }

  /** The Newton direction: a solution of the system at these ratings. */
  ghost predicate IsDirection(p: Problem, prob: real -> real, logits: Logits, delta: Row)
    requires WellPosed(p) && RatesAll(p, logits)
  {
    RatesPairings(p, logits);
    && |delta| == p.n
    && Solves(Information(p.adjusted, logits, p.index, prob, p.n), Gradient(p.adjusted, logits, p.index, prob, p.n), delta)
  }

  /** A damped Newton step: the system's solution, at the first acceptable scale. */
  ghost predicate IsStep(p: Problem, prob: real -> real, lp: LogProbability, logits: Logits, delta: Row, k: nat, next: Logits)
    requires WellPosed(p) && RatesAll(p, logits)
  {
    && IsDirection(p, prob, logits, delta)
    && k <= HALVINGS
    && Accepts(p, lp, logits, delta, Halving(k))
    && (forall j: nat :: j < k ==> !Accepts(p, lp, logits, delta, Halving(j)))
    && next == Shifted(logits, p.index, delta, Halving(k))
  }

  /** A step moves the difference of any two fitted ratings by its share of the solution. */
  lemma StepMovesDifference(p: Problem, prob: real -> real, lp: LogProbability, logits: Logits, delta: Row, k: nat, next: Logits,
                            q: Pairing)
    requires WellPosed(p) && RatesAll(p, logits) && IsStep(p, prob, lp, logits, delta, k, next)
    requires q.first in p.component && q.second in p.component
    ensures q.first in logits && q.second in logits && next.Keys == logits.Keys
    ensures next[q.first] - next[q.second] == logits[q.first] - logits[q.second] + Mul(Halving(k), Gap(q, p.index, delta))
  {
    assert q.first in logits.Keys && q.second in logits.Keys;
    NumbersWithin(p, delta);
    hide Mul, Gap, Halving, Shifted, Solves, Accepts;
    StepGap(p, logits, delta, Halving(k), q);
  }

  /** From some halving on, every multiple of the direction raises the objective. */
  ghost predicate RisesFrom(p: Problem, lp: LogProbability, logits: Logits, delta: Row, k: nat)
    requires WellPosed(p) && RatesAll(p, logits) && |delta| == p.n
  {
    forall j: nat :: j >= k ==> Rises(p, lp, logits, delta, Halving(j))
  }

  ghost predicate Rises(p: Problem, lp: LogProbability, logits: Logits, delta: Row, scale: real)
    requires WellPosed(p) && RatesAll(p, logits) && |delta| == p.n
  {
    ShiftedRates(p, logits, delta, scale);
    Objective(p, lp, Shifted(logits, p.index, delta, scale)) > Objective(p, lp, logits)
  }

  /**
   The Newton direction is uphill: unless the gradient vanishes its slope is positive, and
   every multiple of it from some halving on raises the objective.
   */
  lemma StepAscends(p: Problem, prob: real -> real, lp: LogProbability, logits: Logits, delta: Row)
    requires WellPosed(p) && RatesAll(p, logits) && IsProbability(prob) && Logistic(prob, lp)
    requires IsDirection(p, prob, logits, delta)
    ensures Rated(p.adjusted, logits) && forall a :: a in p.index ==> p.index[a] < |delta|
    ensures var slope := Slope(p.adjusted, logits, p.index, prob, delta);
      slope >= 0.0 && (slope == 0.0 ==> IsZero(delta) && IsZero(Gradient(p.adjusted, logits, p.index, prob, p.n)))
    ensures IsZero(Gradient(p.adjusted, logits, p.index, prob, p.n)) || exists k: nat :: RisesFrom(p, lp, logits, delta, k)
  {
    WeightsPositive(p, p.adjusted, logits, prob);
    AdjustedAnchored(p);
    WinsNonNegative(p);
    DirectionSolves(p, prob, logits, delta);
    hide WellPosed, RatesAll, Logistic, IsProbability, Rises, IsDirection, Slope, Energy, Spread, Gradient, Information, Solves,
      IsZero, Weight, Anchored, Games, Numbers, Mul;
    SlopeIsPositive(p.adjusted, logits, p.index, prob, delta, p.anchor);
    NewtonAscends(p.adjusted, logits, p.index, prob, delta);
    var energy := Energy(p.adjusted, logits, p.index, prob, delta);
    if energy > 0.0 {
      SpreadNonNegative(p.adjusted, p.index, delta);
      var k := HalvingVanishes(Spread(p.adjusted, p.index, delta), 8.0 * energy);
      forall j: nat | j >= k
        ensures Rises(p, lp, logits, delta, Halving(j))
      {
        SmallMultipleRises(p, prob, lp, logits, delta, j);
      }
      assert RisesFrom(p, lp, logits, delta, k);
    }
  }

  lemma SmallMultipleRises(p: Problem, prob: real -> real, lp: LogProbability, logits: Logits, delta: Row, j: nat)
    requires WellPosed(p) && RatesAll(p, logits) && Logistic(prob, lp) && IsDirection(p, prob, logits, delta)
    requires Rated(p.adjusted, logits) && forall a :: a in p.index ==> p.index[a] < |delta|
    requires Mul(Halving(j), Spread(p.adjusted, p.index, delta)) < 8.0 * Energy(p.adjusted, logits, p.index, prob, delta)
    ensures Rises(p, lp, logits, delta, Halving(j))
  {
    DirectionSolves(p, prob, logits, delta);
    WinsNonNegative(p);
    ShiftedDiffers(p, logits, delta, Halving(j));
    HalvingBounds(j);
    hide WellPosed, RatesAll, Logistic, IsDirection, Energy, Spread, Gradient, Information, Solves, Games, Numbers, Mul, Halving,
      LogLikelihood, DifferBy, Shifted;
    NewtonGain(p.adjusted, logits, Shifted(logits, p.index, delta, Halving(j)), p.index, prob, lp, delta, Halving(j));
    StrictGain(Halving(j), Energy(p.adjusted, logits, p.index, prob, delta), Spread(p.adjusted, p.index, delta));
  }

  /** A scale is refused only when some pairing is lopsided: a side of it is that unlikely. */
  lemma RefusedIsLopsided(p: Problem, prob: real -> real, lp: LogProbability, logits: Logits, delta: Row, j: nat)
    requires WellPosed(p) && RatesAll(p, logits) && Logistic(prob, lp) && IsDirection(p, prob, logits, delta)
    ensures Rated(p.adjusted, logits)
    ensures AllContested(p.adjusted, logits, prob, Halving(j + 3)) ==>
      !Falls(p, lp, logits, delta, Halving(j)) && Accepts(p, lp, logits, delta, Halving(j))
  {
    DirectionSolves(p, prob, logits, delta);
    WinsNonNegative(p);
    ShiftedDiffers(p, logits, delta, Halving(j));
    HalvingBounds(j);
    assert Halving(j + 1) == Halving(j) / 2.0 && Halving(j + 2) == Halving(j + 1) / 2.0 && Halving(j + 3) == Halving(j + 2) / 2.0;
    hide WellPosed, RatesAll, Logistic, IsDirection, Gradient, Information, Solves, Games, Numbers, Halving, AllContested,
      LogLikelihood, DifferBy, Shifted;
    if AllContested(p.adjusted, logits, prob, Halving(j + 3)) {
      ContestedGain(p.adjusted, logits, Shifted(logits, p.index, delta, Halving(j)), p.index, prob, lp, delta, Halving(j));
    }
  }

  ghost predicate Falls(p: Problem, lp: LogProbability, logits: Logits, delta: Row, scale: real)
    requires WellPosed(p) && RatesAll(p, logits) && |delta| == p.n
  {
    ShiftedRates(p, logits, delta, scale);
    Objective(p, lp, Shifted(logits, p.index, delta, scale)) < Objective(p, lp, logits)
  }

  /**
   So a step that was halved k times started at ratings with a pairing whose two
   probabilities have a product below 2^-(k+2), and a full step of contested pairings
   never lowers the objective at all.
   */
  lemma HalvedStepIsLopsided(p: Problem, prob: real -> real, lp: LogProbability, logits: Logits, delta: Row, k: nat, next: Logits)
    requires WellPosed(p) && RatesAll(p, logits) && Logistic(prob, lp)
    requires IsStep(p, prob, lp, logits, delta, k, next)
    ensures Rated(p.adjusted, logits) && RatesAll(p, next)
    ensures k > 0 ==> !AllContested(p.adjusted, logits, prob, Halving(k + 2))
    ensures AllContested(p.adjusted, logits, prob, 1.0 / 8.0) ==> k == 0 && Objective(p, lp, next) >= Objective(p, lp, logits)
  {
    hide *;
    StepIsAccepted(p, prob, lp, logits, delta, k, next);
    Eighth();
    RefusedIsLopsided(p, prob, lp, logits, delta, 0);
    if k > 0 {
      RefusedIsLopsided(p, prob, lp, logits, delta, k - 1);
      assert k - 1 + 3 == k + 2;
    }
  }

  lemma Eighth()
    ensures Halving(0 + 3) == 1.0 / 8.0
  {
    assert Halving(1) == 1.0 / 2.0 && Halving(2) == 1.0 / 4.0;
  }

  lemma StepIsAccepted(p: Problem, prob: real -> real, lp: LogProbability, logits: Logits, delta: Row, k: nat, next: Logits)
    requires WellPosed(p) && RatesAll(p, logits) && IsStep(p, prob, lp, logits, delta, k, next)
    ensures IsDirection(p, prob, logits, delta) && |delta| == p.n && RatesAll(p, next)
    ensures forall j: nat :: j < k ==> !Accepts(p, lp, logits, delta, Halving(j))
    ensures k == 0 && !Falls(p, lp, logits, delta, Halving(0)) ==> Objective(p, lp, next) >= Objective(p, lp, logits)
  {
    ShiftedRates(p, logits, delta, Halving(k));
    hide Objective, Halving, Shifted, WellPosed, RatesAll, Solves;
  }

  /** The search gives up only at ratings with a pairing whose two probabilities have a product below 2^-43. */
  lemma StuckIsLopsided(p: Problem, prob: real -> real, lp: LogProbability, logits: Logits)
    requires WellPosed(p) && RatesAll(p, logits) && Logistic(prob, lp) && NoStep(p, prob, lp, logits)
    ensures Rated(p.adjusted, logits)
    ensures exists i :: 0 <= i < |p.adjusted| && !Contested(p.adjusted[i], logits, prob, Halving(43))
  {
    RatesPairings(p, logits);
    hide WellPosed, RatesAll, Logistic, IsDirection, Accepts, Contested, Halving;
    var delta :| IsDirection(p, prob, logits, delta) && Refused(p, lp, logits, delta);
    assert |delta| == p.n by { DirectionSolves(p, prob, logits, delta); }
    RefusedIsLopsided(p, prob, lp, logits, delta, HALVINGS);
    assert !Accepts(p, lp, logits, delta, Halving(HALVINGS));
    assert HALVINGS + 3 == 43;
  }

  lemma DirectionSolves(p: Problem, prob: real -> real, logits: Logits, delta: Row)
    requires WellPosed(p) && RatesAll(p, logits) && IsDirection(p, prob, logits, delta)
    ensures Rated(p.adjusted, logits) && |delta| == p.n && Numbers(p.index, p.n) && forall a :: a in p.index ==> p.index[a] < |delta|
    ensures Solves(Information(p.adjusted, logits, p.index, prob, p.n), Gradient(p.adjusted, logits, p.index, prob, p.n), delta)
  {
  }

  /** The proposal differs from the ratings by that multiple of the direction. */
  lemma ShiftedDiffers(p: Problem, logits: Logits, delta: Row, scale: real)
    requires WellPosed(p) && RatesAll(p, logits) && |delta| == p.n
    ensures (forall a :: a in p.index ==> p.index[a] < |delta|) && RatesAll(p, Shifted(logits, p.index, delta, scale))
    ensures Rated(p.adjusted, logits) && Rated(p.adjusted, Shifted(logits, p.index, delta, scale))
    ensures DifferBy(p.adjusted, logits, Shifted(logits, p.index, delta, scale), p.index, Scaled(scale, delta))
  {
    ShiftedRates(p, logits, delta, scale);
    var next := Shifted(logits, p.index, delta, scale);
    RatesPairings(p, logits);
    RatesPairings(p, next);
    forall k | 0 <= k < |p.adjusted|
      ensures var q := p.adjusted[k];
        next[q.first] - next[q.second] == logits[q.first] - logits[q.second] + Gap(q, p.index, Scaled(scale, delta))
    {
      hide Shifted, WellPosed, RatesAll;
      StepGap(p, logits, delta, scale, p.adjusted[k]);
      GapTimes(p.adjusted[k], p.index, delta, scale);
    }
  }

  lemma ShiftedValue(logits: Logits, index: Index, delta: Row, scale: real, a: int)
    requires (forall a :: a in index ==> index[a] < |delta|) && a in logits
    ensures Shifted(logits, index, delta, scale)[a] == logits[a] + Mul(scale, Value(index, delta, a))
  {
    MulUnits(scale);
  }

  lemma StepGap(p: Problem, logits: Logits, delta: Row, scale: real, q: Pairing)
    requires WellPosed(p) && RatesAll(p, logits) && |delta| == p.n && q.first in logits && q.second in logits
    ensures var next := Shifted(logits, p.index, delta, scale);
      next[q.first] - next[q.second] == logits[q.first] - logits[q.second] + Mul(scale, Gap(q, p.index, delta))
  {
    hide Mul, Value, Shifted;
    ShiftedValue(logits, p.index, delta, scale, q.first);
    ShiftedValue(logits, p.index, delta, scale, q.second);
    MulMinus(scale, Value(p.index, delta, q.first), Value(p.index, delta, q.second));
  }

  function Start(p: Problem): Logits
  {
    map a | a in p.component :: 0.0
  }

  /** The stopping test on the gradient. */
  ghost predicate AtRest(p: Problem, prob: real -> real, logits: Logits)
    requires WellPosed(p) && RatesAll(p, logits)
  {
    RatesPairings(p, logits);
    AllWithin(Gradient(p.adjusted, logits, p.index, prob, p.n), SMALL)
  }

  /** It stops exactly where no entry is further than 1e-11 from zero. */
  lemma StopsExactly(p: Problem, prob: real -> real, logits: Logits)
    requires WellPosed(p) && RatesAll(p, logits)
    ensures Rated(p.adjusted, logits)
    ensures AtRest(p, prob, logits) <==>
      forall i :: 0 <= i < p.n ==> -0.00000000001 <= Gradient(p.adjusted, logits, p.index, prob, p.n)[i] <= 0.00000000001
  {
    RatesPairings(p, logits);
    hide Gradient;
  }

  /**
   The logits that this many steps reach from all zeros, when every step starts where the
   gradient is not small and only the last may have been small itself.
   */
  ghost predicate Reaches(p: Problem, prob: real -> real, lp: LogProbability, logits: Logits, steps: nat, small: bool)
    requires WellPosed(p)
    decreases steps
  {
    if steps == 0 then logits == Start(p) && !small
    else
      exists before, delta, k ::
        LastStep(p, prob, lp, before, delta, k, logits, small) && Reaches(p, prob, lp, before, steps - 1, false)
  }

  ghost predicate LastStep(p: Problem, prob: real -> real, lp: LogProbability, before: Logits, delta: Row, k: nat, logits: Logits, small: bool)
    requires WellPosed(p)
  {
    && RatesAll(p, before) && !AtRest(p, prob, before) && IsStep(p, prob, lp, before, delta, k, logits)
    && (small <==> AllWithin(Scaled(Halving(k), delta), SMALL))
  }

  lemma StartRatesAll(p: Problem)
    requires WellPosed(p)
    ensures RatesAll(p, Start(p))
  {
  }

  lemma StepKeepsLikelihood(p: Problem, prob: real -> real, lp: LogProbability, logits: Logits, delta: Row, k: nat, next: Logits)
    requires WellPosed(p) && RatesAll(p, logits) && IsStep(p, prob, lp, logits, delta, k, next)
    ensures RatesAll(p, next)
    ensures Objective(p, lp, next) >= Objective(p, lp, logits) - SLACK
  {
    ShiftedRates(p, logits, delta, Halving(k));
  }

  /** A run of steps loses at most one slack of log-likelihood per step, and never moves the anchor. */
  lemma {:induction false} RunKeepsLikelihood(p: Problem, prob: real -> real, lp: LogProbability, logits: Logits, steps: nat, small: bool)
    requires WellPosed(p) && Reaches(p, prob, lp, logits, steps, small)
    ensures RatesAll(p, logits) && RatesAll(p, Start(p))
    ensures Objective(p, lp, logits) >= Objective(p, lp, Start(p)) - steps as real * 0.000000000001
    decreases steps
  {
    hide WellPosed, RatesAll, IsStep, Objective, AtRest, AllWithin;
    StartRatesAll(p);
    if steps > 0 {
      var before, delta, k :| LastStep(p, prob, lp, before, delta, k, logits, small)
        && Reaches(p, prob, lp, before, steps - 1, false);
      RunKeepsLikelihood(p, prob, lp, before, steps - 1, false);
      StepKeepsLikelihood(p, prob, lp, before, delta, k, logits);
      assert steps as real * SLACK == (steps - 1) as real * SLACK + SLACK;
    }
  }

  /** Positive weights make the anchor's information matrix injective at every logits. */
  lemma WeightsPositive(p: Problem, pairs: seq<Pairing>, logits: Logits, prob: real -> real)
    requires WellPosed(p) && RatesAll(p, logits) && IsProbability(prob)
    requires pairs == p.raw || pairs == p.adjusted
    ensures Rated(pairs, logits)
    ensures forall i :: 0 <= i < |pairs| ==> Weight(pairs[i], logits, prob) > 0.0
  {
    RatesPairings(p, logits);
    hide Weight;
    forall i | 0 <= i < |pairs|
      ensures Weight(pairs[i], logits, prob) > 0.0
    {
      assert FitPairing(p.component, p.raw[i]) && FitPairing(p.component, p.adjusted[i]);
      WeightPositive(pairs[i], logits, prob);
    }
  }

  lemma AdjustedAnchored(p: Problem)
    requires WellPosed(p)
    ensures Anchored(p.adjusted, p.index, p.anchor)
  {
    forall a | a in p.index
      ensures Connected(Plays(p.adjusted), p.anchor, a)
    {
      forall x, y | Plays(p.raw)(x, y)
        ensures Plays(p.adjusted)(x, y)
      {
        var k :| 0 <= k < |p.raw| && Joins(p.raw[k], x, y);
        assert SamePairing(p.raw[k], p.adjusted[k]);
        assert Joins(p.adjusted[k], x, y);
      }
      MoreEdges(Plays(p.raw), Plays(p.adjusted), p.anchor, a);
    }
  }

  /** Every linear system of a fit has an invertible matrix. */
  lemma InformationIsInjective(p: Problem, pairs: seq<Pairing>, logits: Logits, prob: real -> real)
    requires WellPosed(p) && RatesAll(p, logits) && IsProbability(prob)
    requires pairs == p.raw || pairs == p.adjusted
    ensures Rated(pairs, logits) && Injective(Information(pairs, logits, p.index, prob, p.n))
  {
    hide Weight, Information, Injective;
    WeightsPositive(p, pairs, logits, prob);
    AdjustedAnchored(p);
    AnchoredInformationIsInjective(pairs, logits, p.index, prob, p.n, p.anchor);
  }

  /** By how much each variable's rating differs. */
  ghost function Displacement(p: Problem, logits: Logits, other: Logits): (x: Row)
    requires WellPosed(p) && RatesAll(p, logits) && RatesAll(p, other)
    ensures |x| == p.n && forall a :: a in p.index ==> x[p.index[a]] == other[a] - logits[a]
  {
    seq(p.n, i requires 0 <= i < p.n =>
      assert HasVariable(p.index, i);
      var a :| a in p.index && p.index[a] == i;
      other[a] - logits[a])
  }

  /**
   Ratings with a small gradient are nearly the best: no others with the anchor at zero have
   a log-likelihood higher by more than the bound times their total distance. With a zero
   gradient they are the maximum.
   */
  lemma SmallGradientIsNearlyBest(p: Problem, prob: real -> real, lp: LogProbability, logits: Logits, other: Logits, bound: real)
    requires WellPosed(p) && RatesAll(p, logits) && RatesAll(p, other) && Logistic(prob, lp) && bound >= 0.0
    ensures Rated(p.adjusted, logits)
    ensures AllWithin(Gradient(p.adjusted, logits, p.index, prob, p.n), bound) ==>
      Objective(p, lp, other) <= Objective(p, lp, logits) + Mul(bound, SumAbs(Displacement(p, logits, other)))
  {
    RatesPairings(p, logits);
    RatesPairings(p, other);
    var x := Displacement(p, logits, other);
    DisplacementDiffers(p, logits, other, x);
    NumbersWithin(p, x);
    hide Logistic, Gradient, Mul, SumAbs, LogLikelihood, DifferBy, Games;
    if AllWithin(Gradient(p.adjusted, logits, p.index, prob, p.n), bound) {
      WinsNonNegative(p);
      SmallGradientIsNearlyOptimal(p.adjusted, logits, other, p.index, prob, lp, x, bound);
    }
  }

  /**
   A small last step bounds them too: no others with the anchor at zero have an objective
   higher by more than the slack and half the bound times their distance from the ratings
   before the step, doubled for each halving of the step.
   */
  lemma SmallStepIsNearlyBest(p: Problem, prob: real -> real, lp: LogProbability, before: Logits, delta: Row, k: nat,
                              logits: Logits, other: Logits, bound: real)
    requires WellPosed(p) && RatesAll(p, before) && RatesAll(p, other) && Logistic(prob, lp) && IsProbability(prob)
    requires IsStep(p, prob, lp, before, delta, k, logits) && AllWithin(Scaled(Halving(k), delta), bound) && bound >= 0.0
    ensures RatesAll(p, logits) && NumbersBelow(p, p.n)
    ensures Mul(Halving(k), Objective(p, lp, other) - Objective(p, lp, logits) - SLACK)
      <= Mul(bound / 2.0, Distance(p.adjusted, p.index, Displacement(p, before, other)))
  {
    hide WellPosed, RatesAll, Logistic, IsProbability, IsStep, IsDirection, Halving, LogLikelihood, DifferBy, Games, Mul, Distance,
      SmallGaps, Information, Gradient, Solves, AllWithin, Numbers, Rated;
    RatesPairings(p, before);
    RatesPairings(p, other);
    StepKeepsLikelihood(p, prob, lp, before, delta, k, logits);
    StepIsAccepted(p, prob, lp, before, delta, k, logits);
    DirectionSolves(p, prob, before, delta);
    var x := Displacement(p, before, other);
    DisplacementDiffers(p, before, other, x);
    WinsNonNegative(p);
    HalvingBounds(k);
    GapsAreSmall(p, delta, Halving(k), bound);
    SmallStepIsNearlyOptimal(p.adjusted, before, other, p.index, prob, lp, delta, x, Halving(k), bound);
    MulMonotone(Halving(k), Objective(p, lp, other) - Objective(p, lp, logits) - SLACK, Objective(p, lp, other) - Objective(p, lp, before));
  }

  ghost predicate NumbersBelow(p: Problem, n: nat)
  {
    forall a :: a in p.index ==> p.index[a] < n
  }

  lemma GapsAreSmall(p: Problem, delta: Row, s: real, bound: real)
    requires WellPosed(p) && |delta| == p.n && AllWithin(Scaled(s, delta), bound) && bound >= 0.0
    ensures NumbersBelow(p, p.n) && SmallGaps(p.adjusted, p.index, delta, s, bound)
  {
    forall k | 0 <= k < |p.adjusted|
      ensures Abs(Mul(s, Gap(p.adjusted[k], p.index, delta))) <= 2.0 * bound
    {
      var q := p.adjusted[k];
      hide Mul;
      GapTimes(q, p.index, delta, s);
      assert Abs(Value(p.index, Scaled(s, delta), q.first)) <= bound;
      assert Abs(Value(p.index, Scaled(s, delta), q.second)) <= bound;
    }
  }

  lemma WinsNonNegative(p: Problem)
    requires WellPosed(p)
    ensures Games(p.adjusted) && Numbers(p.index, p.n)
  {
    forall k | 0 <= k < |p.adjusted| ensures p.adjusted[k].firstWins >= 0.0 && p.adjusted[k].secondWins >= 0.0 {
      assert FitPairing(p.component, p.adjusted[k]);
    }
  }

  lemma DisplacementDiffers(p: Problem, logits: Logits, other: Logits, x: Row)
    requires WellPosed(p) && RatesAll(p, logits) && RatesAll(p, other) && Rated(p.adjusted, logits) && Rated(p.adjusted, other)
    requires |x| == p.n && forall a :: a in p.index ==> x[p.index[a]] == other[a] - logits[a]
    ensures DifferBy(p.adjusted, logits, other, p.index, x)
  {
    forall k | 0 <= k < |p.adjusted|
      ensures var q := p.adjusted[k];
        other[q.first] - other[q.second] == logits[q.first] - logits[q.second] + Gap(q, p.index, x)
    {
      var q := p.adjusted[k];
      assert FitPairing(p.component, q);
      RatingDiffers(p, logits, other, x, q.first);
      RatingDiffers(p, logits, other, x, q.second);
    }
  }

  lemma RatingDiffers(p: Problem, logits: Logits, other: Logits, x: Row, a: int)
    requires WellPosed(p) && RatesAll(p, logits) && RatesAll(p, other) && a in p.component
    requires |x| == p.n && forall a :: a in p.index ==> x[p.index[a]] == other[a] - logits[a]
    ensures a in logits && a in other && other[a] == logits[a] + Value(p.index, x, a)
  {
    assert a in logits.Keys && a in other.Keys;
    assert a in p.index.Keys || a == p.anchor;
  }

  /** The first of the 41 scales 1, 1/2, ..., 2^-40 that is acceptable. */
  method LineSearch(p: Problem, normalizer: real -> real, logits: Logits, delta: Row) returns (found: Option<nat>)
    requires WellPosed(p) && RatesAll(p, logits) && |delta| == p.n
    ensures found.Some? ==> found.value <= HALVINGS && Accepts(p, FromNormalizer(normalizer), logits, delta, Halving(found.value))
    ensures found.Some? ==> forall j: nat :: j < found.value ==> !Accepts(p, FromNormalizer(normalizer), logits, delta, Halving(j))
    ensures found.None? ==> Refused(p, FromNormalizer(normalizer), logits, delta)
  {
    hide WellPosed, RatesAll, Rated, Shifted, Accepts, FromNormalizer, LogLikelihood;
    ghost var lp := FromNormalizer(normalizer);
    RatesPairings(p, logits);
    var objective := Evaluate(p.adjusted, logits, normalizer);
    var scale := 1.0;
    for k := 0 to HALVINGS + 1
      invariant scale == Halving(k)
      invariant forall j: nat :: j < k ==> !Accepts(p, lp, logits, delta, Halving(j))
    {
      ShiftedRates(p, logits, delta, scale);
      var proposal := Shifted(logits, p.index, delta, scale);
      RatesPairings(p, proposal);
      var proposed := Evaluate(p.adjusted, proposal, normalizer);
      AcceptsMeans(p, lp, logits, delta, scale);
      if proposed >= objective - SLACK {
        return Some(k);
      }
      scale := scale * 0.5;
    }
    return None;
  }

  lemma AcceptsMeans(p: Problem, lp: LogProbability, logits: Logits, delta: Row, scale: real)
    requires WellPosed(p) && RatesAll(p, logits) && |delta| == p.n
    requires Rated(p.adjusted, logits) && (forall a :: a in p.index ==> p.index[a] < |delta|)
    requires Rated(p.adjusted, Shifted(logits, p.index, delta, scale))
    ensures Accepts(p, lp, logits, delta, scale) <==>
      LogLikelihood(p.adjusted, Shifted(logits, p.index, delta, scale), lp) >= LogLikelihood(p.adjusted, logits, lp) - SLACK
  {
    hide LogLikelihood, Shifted, WellPosed, RatesAll;
  }

  /** None of the 41 scales is acceptable. */
  ghost predicate Refused(p: Problem, lp: LogProbability, logits: Logits, delta: Row)
    requires WellPosed(p) && RatesAll(p, logits) && |delta| == p.n
  {
    forall j: nat :: j <= HALVINGS ==> !Accepts(p, lp, logits, delta, Halving(j))
  }

  ghost predicate IsSmallStep(p: Problem, prob: real -> real, lp: LogProbability, before: Logits, delta: Row, k: nat, logits: Logits)
    requires WellPosed(p)
  {
    RatesAll(p, before) && IsStep(p, prob, lp, before, delta, k, logits) && AllWithin(Scaled(Halving(k), delta), SMALL)
  }

  /** The fitted logits, and how the iterations ended. */
  datatype Ascent = Ascent(logits: Logits, iterations: nat, converged: bool)

  /**
   How the loop may end: at rest, after a small step, with no acceptable scale, or after
   200 steps. The iterations count a failed attempt, and not the pass that finds the rest.
   */
  ghost predicate Climbed(p: Problem, prob: real -> real, lp: LogProbability, a: Ascent)
  {
    && WellPosed(p) && RatesAll(p, a.logits) && a.iterations <= 200
    && (|| (a.converged && a.iterations < 200 && AtRest(p, prob, a.logits) && Reaches(p, prob, lp, a.logits, a.iterations, false))
        || (a.converged && Reaches(p, prob, lp, a.logits, a.iterations, true))
        || (!a.converged && a.iterations > 0 && !AtRest(p, prob, a.logits) && NoStep(p, prob, lp, a.logits)
            && Reaches(p, prob, lp, a.logits, a.iterations - 1, false))
        || (!a.converged && a.iterations == 200 && Reaches(p, prob, lp, a.logits, a.iterations, false)))
  }

  /** After a small step: a bound on every other objective, weaker for a step that had to be halved. */
  ghost predicate NearlyBestAfter(p: Problem, prob: real -> real, lp: LogProbability, before: Logits, k: nat, logits: Logits, other: Logits)
    requires WellPosed(p) && RatesAll(p, before) && RatesAll(p, logits) && RatesAll(p, other)
  {
    RatesPairings(p, before);
    NumbersWithin(p, Displacement(p, before, other));
    && Mul(Halving(k), Objective(p, lp, other) - Objective(p, lp, logits) - SLACK)
         <= Mul(SMALL / 2.0, Distance(p.adjusted, p.index, Displacement(p, before, other)))
    && (k > 0 ==> !AllContested(p.adjusted, before, prob, Halving(k + 2)))
  }

  /**
   A converged fit is nearly the maximum: no other ratings with the anchor at zero have an
   objective higher by more than a bound that is proportional to how far away they are.
   */
  lemma ConvergedIsNearlyBest(p: Problem, prob: real -> real, lp: LogProbability, a: Ascent, other: Logits)
    requires Climbed(p, prob, lp, a) && a.converged && RatesAll(p, other) && Logistic(prob, lp) && IsProbability(prob)
    ensures WellPosed(p) && RatesAll(p, a.logits)
    ensures
      || Objective(p, lp, other) <= Objective(p, lp, a.logits) + Mul(SMALL, SumAbs(Displacement(p, a.logits, other)))
      || exists before, delta, k ::
           IsSmallStep(p, prob, lp, before, delta, k, a.logits) && NearlyBestAfter(p, prob, lp, before, k, a.logits, other)
  {
    hide WellPosed, RatesAll, Logistic, IsProbability, IsStep, Objective, SumAbs, Mul, Distance, AllContested, Gradient, AllWithin, Halving, NoStep;
    SmallGradientIsNearlyBest(p, prob, lp, a.logits, other, SMALL);
    if !AtRest(p, prob, a.logits) {
      var before, delta, k :| LastStep(p, prob, lp, before, delta, k, a.logits, true);
      assert IsSmallStep(p, prob, lp, before, delta, k, a.logits);
      SmallStepIsNearlyBest(p, prob, lp, before, delta, k, a.logits, other, SMALL);
      HalvedStepIsLopsided(p, prob, lp, before, delta, k, a.logits);
      assert NearlyBestAfter(p, prob, lp, before, k, a.logits, other);
    }
  }

  method Climb(p: Problem, prob: real -> real, normalizer: real -> real, tolerance: real) returns (result: Result<Ascent>)
    requires WellPosed(p) && IsProbability(prob) && tolerance >= 0.0
    ensures result.Success? ==> Climbed(p, prob, FromNormalizer(normalizer), result.value)
    ensures tolerance == 0.0 ==> result.Success?
  {
    ghost var lp := FromNormalizer(normalizer);
    var logits := Start(p);
    StartRatesAll(p);
    NoStepsYet(p, prob, lp);
    hide *;
    var iteration := 0;
    while iteration < 200
      invariant 0 <= iteration <= 200
      invariant RatesAll(p, logits) && Reaches(p, prob, lp, logits, iteration, false)
    {
      iteration := iteration + 1;
      var outcome := Move(p, prob, normalizer, logits, tolerance);
      if outcome.Failure? {
        return Failure(outcome.error);
      }
      if outcome.value.AtOptimum? {
        EndsAtRest(p, prob, lp, Ascent(logits, iteration - 1, true));
        return Success(Ascent(logits, iteration - 1, true));
      }
      if outcome.value.Stuck? {
        EndsStuck(p, prob, lp, Ascent(logits, iteration, false));
        return Success(Ascent(logits, iteration, false));
      }
      var delta, k, next := outcome.value.delta, outcome.value.k, outcome.value.next;
      var small := AllWithin(Scaled(Halving(k), delta), SMALL);
      OneMoreStep(p, prob, lp, logits, delta, k, next, iteration - 1, small);
      logits := next;
      if small {
        EndsAfterStep(p, prob, lp, Ascent(logits, iteration, true));
        return Success(Ascent(logits, iteration, true));
      }
    }
    EndsAfterStep(p, prob, lp, Ascent(logits, 200, false));
    return Success(Ascent(logits, 200, false));
  }

  lemma EndsAtRest(p: Problem, prob: real -> real, lp: LogProbability, a: Ascent)
    requires WellPosed(p) && RatesAll(p, a.logits) && a.converged && a.iterations < 200
    requires AtRest(p, prob, a.logits) && Reaches(p, prob, lp, a.logits, a.iterations, false)
    ensures Climbed(p, prob, lp, a)
  {
  }

  lemma EndsStuck(p: Problem, prob: real -> real, lp: LogProbability, a: Ascent)
    requires WellPosed(p) && RatesAll(p, a.logits) && !a.converged && 0 < a.iterations <= 200
    requires !AtRest(p, prob, a.logits) && NoStep(p, prob, lp, a.logits) && Reaches(p, prob, lp, a.logits, a.iterations - 1, false)
    ensures Climbed(p, prob, lp, a)
  {
  }

  lemma EndsAfterStep(p: Problem, prob: real -> real, lp: LogProbability, a: Ascent)
    requires WellPosed(p) && RatesAll(p, a.logits) && a.iterations <= 200 && (!a.converged ==> a.iterations == 200)
    requires Reaches(p, prob, lp, a.logits, a.iterations, a.converged)
    ensures Climbed(p, prob, lp, a)
  {
  }

  lemma NoStepsYet(p: Problem, prob: real -> real, lp: LogProbability)
    requires WellPosed(p)
    ensures Reaches(p, prob, lp, Start(p), 0, false)
  {
  }

  lemma OneMoreStep(p: Problem, prob: real -> real, lp: LogProbability, before: Logits, delta: Row, k: nat, logits: Logits, steps: nat, small: bool)
    requires WellPosed(p) && RatesAll(p, before) && !AtRest(p, prob, before) && IsStep(p, prob, lp, before, delta, k, logits)
    requires Reaches(p, prob, lp, before, steps, false) && small == AllWithin(Scaled(Halving(k), delta), SMALL)
    ensures RatesAll(p, logits) && Reaches(p, prob, lp, logits, steps + 1, small)
  {
    hide WellPosed, RatesAll, IsStep, AllWithin, AtRest;
    StepKeepsLikelihood(p, prob, lp, before, delta, k, logits);
    assert LastStep(p, prob, lp, before, delta, k, logits, small);
  }

  datatype Outcome = AtOptimum | Stuck | Moved(delta: Row, k: nat, next: Logits)

  /** One pass of the loop body. */
  method Move(p: Problem, prob: real -> real, normalizer: real -> real, logits: Logits, tolerance: real)
    returns (result: Result<Outcome>)
    requires WellPosed(p) && RatesAll(p, logits) && IsProbability(prob) && tolerance >= 0.0
    ensures tolerance == 0.0 ==> result.Success?
    ensures result.Success? ==> (result.value.AtOptimum? <==> AtRest(p, prob, logits))
    ensures result.Success? && result.value.Stuck? ==> NoStep(p, prob, FromNormalizer(normalizer), logits)
    ensures result.Success? && result.value.Moved? ==>
      IsStep(p, prob, FromNormalizer(normalizer), logits, result.value.delta, result.value.k, result.value.next)
  {
    hide WellPosed, RatesAll, Gradient, Information, Injective, IsProbability, Shifted, Accepts, Refused, FromNormalizer;
    InformationIsInjective(p, p.adjusted, logits, prob);
    var gradient, information := Differentiate(p, logits, prob);
    if gradient == [] || AllWithin(gradient, SMALL) {
      return Success(AtOptimum);
    }
    var solved := Solve(information, gradient, tolerance);
    if solved.Failure? {
      return Failure(solved.error);
    }
    var delta := solved.value;
    NumbersWithin(p, delta);
    var found := LineSearch(p, normalizer, logits, delta);
    hide Solves;
    assert IsDirection(p, prob, logits, delta);
    if found.None? {
      assert Refused(p, FromNormalizer(normalizer), logits, delta);
      return Success(Stuck);
    }
    result := Success(Moved(delta, found.value, Shifted(logits, p.index, delta, Halving(found.value))));
  }

  /** The system's solution is not acceptable at any scale tried. */
  ghost predicate NoStep(p: Problem, prob: real -> real, lp: LogProbability, logits: Logits)
    requires WellPosed(p) && RatesAll(p, logits)
  {
    exists delta: Row :: IsDirection(p, prob, logits, delta) && Refused(p, lp, logits, delta)
  }

  lemma NumbersWithin(p: Problem, delta: Row)
    requires WellPosed(p) && |delta| == p.n
    ensures forall a :: a in p.index ==> p.index[a] < |delta|
  {
  }

  method Differentiate(p: Problem, logits: Logits, prob: real -> real) returns (gradient: Row, information: Matrix)
    requires WellPosed(p) && RatesAll(p, logits)
    ensures Rated(p.adjusted, logits)
    ensures gradient == Gradient(p.adjusted, logits, p.index, prob, p.n)
    ensures information == Information(p.adjusted, logits, p.index, prob, p.n)
  {
    RatesPairings(p, logits);
    gradient, information := GradientAndInformation(p.adjusted, logits, p.index, prob, p.n);
  }

  // The result.

  datatype Fit = Fit(problem: Problem, ascent: Ascent, covariance: Matrix, decisiveGames: nat)

  /** The games of the records of the anchor's component. */
  function GamesWithin(matches: seq<Match>, component: set<int>): nat
  {
    if matches == [] then 0
    else
      var m := matches[|matches|-1];
      GamesWithin(matches[..|matches|-1], component) + (if m.candidate in component then m.wins + m.losses else 0)
  }

  /** Listing a component's pairings lists exactly the records with a member. */
  lemma {:induction false} GamesOfComponent(matches: seq<Match>, prefix: nat, p: Problem, correction: real)
    requires AllValid(matches) && Poses(matches, p.anchor, correction, p) && prefix <= |matches|
    ensures GamesOf(matches[..prefix], p.keys) == GamesWithin(matches[..prefix], p.component)
  {
    if prefix > 0 {
      GamesOfComponent(matches, prefix - 1, p, correction);
      assert matches[..prefix][..prefix-1] == matches[..prefix-1];
      var m := matches[prefix-1];
      assert ValidMatch(m) && IsBetween(m, m.candidate, m.baseline) && IsBetween(m, m.baseline, m.candidate);
      assert Met(matches, m.candidate, m.baseline) && Met(matches, m.baseline, m.candidate);
      if m.candidate in p.component { ReachableStep(matches, p.anchor, m.candidate, m.baseline); }
      if m.baseline in p.component { ReachableStep(matches, p.anchor, m.baseline, m.candidate); }
      assert KeyOf(m) in p.keys <==> m.candidate in p.component;
    }
  }

  /** The reported number of games: a sum over the pairings. */
  method Tally(matches: seq<Match>, keys: seq<Key>, totals: map<Key, Totals>) returns (games: nat)
    requires forall i :: 0 <= i < |keys| ==> TotalsIn(totals, keys[i]) == TotalsOf(matches, keys[i])
    ensures games == GamesInTotals(matches, keys)
  {
    hide TotalsOf, TotalsIn;
    games := 0;
    assert keys[..0] == [];
    for i := 0 to |keys|
      invariant games == GamesInTotals(matches, keys[..i])
    {
      assert keys[..i+1][..i] == keys[..i];
      var t := TotalsIn(totals, keys[i]);
      games := games + t.firstWins + t.secondWins;
    }
    assert keys[..|keys|] == keys;
  }

  /** The covariance is the inverse of the raw information at the fitted ratings. */
  ghost predicate HasCovariance(p: Problem, prob: real -> real, logits: Logits, covariance: Matrix)
    requires WellPosed(p) && RatesAll(p, logits)
  {
    RatesPairings(p, logits);
    && |covariance| == p.n && Square(covariance) && Inversion.Symmetric(covariance)
    && IsInverse(Information(p.raw, logits, p.index, prob, p.n), covariance)
  }

  lemma VariancesArePositive(p: Problem, prob: real -> real, logits: Logits, covariance: Matrix, a: int, b: int)
    requires WellPosed(p) && RatesAll(p, logits) && IsProbability(prob) && HasCovariance(p, prob, logits, covariance)
    requires a in p.component && b in p.component && a != b
    ensures ContrastVariance(covariance, p.index, a, b) > 0.0
  {
    WeightsPositive(p, p.raw, logits, prob);
    assert a in p.index || b in p.index;
    hide Weight, Information, ContrastVariance, IsInverse;
    ContrastVarianceIsPositive(p.raw, logits, p.index, prob, covariance, p.anchor, a, b);
  }

  /**
   The whole fit. With the exact pivot test it succeeds for every anchor that some
   record mentions: no elimination ever finds a singular matrix. The games it reports
   are those of the records of the anchor's component, each counted once.
   */
  method FitBradleyTerryElo(matches: seq<Match>, anchor: int, correction: real, prob: real -> real,
                            normalizer: real -> real, tolerance: real) returns (result: Result<Fit>)
    requires AllValid(matches) && IsProbability(prob) && tolerance >= 0.0
    ensures tolerance == 0.0 ==> (result.Success? <==> correction > 0.0 && Mentioned(matches, anchor))
    ensures result.Success? ==>
      var fit := result.value;
      && Poses(matches, anchor, correction, fit.problem)
      && Climbed(fit.problem, prob, FromNormalizer(normalizer), fit.ascent)
      && HasCovariance(fit.problem, prob, fit.ascent.logits, fit.covariance)
      && fit.decisiveGames == GamesWithin(matches, fit.problem.component)
  {
    hide Mentioned, Poses, WellPosed, IsProbability, RatesAll, Reaches, AtRest, TotalsAre, Information, IsInverse, Injective, TotalsIn, TotalsOf, AllValid, Proper;
    var posed, totals := Pose(matches, anchor, correction);
    if posed.Failure? {
      return Failure(posed.error);
    }
    var p := posed.value;
    var climbed := Climb(p, prob, normalizer, tolerance);
    if climbed.Failure? {
      return Failure(climbed.error);
    }
    var logits := climbed.value.logits;
    InformationIsInjective(p, p.raw, logits, prob);
    var information := RawInformation(p, logits, prob);
    var inverse := Inverse(information, tolerance);
    if inverse.Failure? {
      return Failure(inverse.error);
    }
    InformationIsSymmetric(p.raw, logits, p.index, prob, p.n);
    TotalsOfKeys(matches, correction, p, totals);
    var games := Tally(matches, p.keys, totals);
    GamesReported(matches, correction, p);
    result := Success(Fit(p, climbed.value, inverse.value, games));
  }

  method RawInformation(p: Problem, logits: Logits, prob: real -> real) returns (information: Matrix)
    requires WellPosed(p) && RatesAll(p, logits)
    ensures Rated(p.raw, logits) && information == Information(p.raw, logits, p.index, prob, p.n)
  {
    RatesPairings(p, logits);
    var gradient;
    gradient, information := GradientAndInformation(p.raw, logits, p.index, prob, p.n);
  }

  lemma TotalsOfKeys(matches: seq<Match>, correction: real, p: Problem, totals: map<Key, Totals>)
    requires TotalsAre(totals, matches) && Poses(matches, p.anchor, correction, p)
    ensures forall i :: 0 <= i < |p.keys| ==> TotalsIn(totals, p.keys[i]) == TotalsOf(matches, p.keys[i])
  {
    hide TotalsOf, Met, Reachable;
    forall i | 0 <= i < |p.keys|
      ensures TotalsIn(totals, p.keys[i]) == TotalsOf(matches, p.keys[i])
    {
      assert p.keys[i] in p.keys;
    }
  }

  lemma GamesReported(matches: seq<Match>, correction: real, p: Problem)
    requires AllValid(matches) && Poses(matches, p.anchor, correction, p)
    ensures GamesInTotals(matches, p.keys) == GamesWithin(matches, p.component)
  {
    GamesConserved(matches, p.keys);
    GamesOfComponent(matches, |matches|, p, correction);
    assert matches[..|matches|] == matches;
  }
}
