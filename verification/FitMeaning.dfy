/** What a fit maximises, in the records' own fields. */
module FitMeaning {
  // Every win counts at the winner's log-probability, whichever way round its record is. So
  // the fitted ratings explain the records' wins, and more wins mean a higher rating.

  import opened RealVectors
  import opened Paths
  import opened Components
  import opened Matches
  import opened LinearSystem
  import opened Laplacian
  import opened Likelihood
  import opened BradleyTerry

  function Rating(logits: Logits, a: int): real { if a in logits then logits[a] else 0.0 }

  /** How far a is rated above b. */
  function Above(logits: Logits, a: int, b: int): real { Rating(logits, a) - Rating(logits, b) }

  /** The candidate's wins and losses in one record. */
  function RecordLikelihood(m: Match, logits: Logits, lp: LogProbability): real
  {
    Mul(m.wins as real, lp(Above(logits, m.candidate, m.baseline))) + Mul(m.losses as real, lp(Above(logits, m.baseline, m.candidate)))
  }

  /** The records of one component. */
  function RecordsLikelihood(matches: seq<Match>, component: set<int>, logits: Logits, lp: LogProbability): real
  {
    if matches == [] then 0.0
    else
      var m := matches[|matches|-1];
      RecordsLikelihood(matches[..|matches|-1], component, logits, lp)
        + (if m.candidate in component then RecordLikelihood(m, logits, lp) else 0.0)
  }

  /** One side of the pairing has won nothing in all the records. */
  predicate OneSided(matches: seq<Match>, key: Key)
  {
    WinsOver(matches, key.first, key.second) == 0 || WinsOver(matches, key.second, key.first) == 0
  }

  /** One win for each side of each one-sided pairing. */
  function EvenScore(matches: seq<Match>, keys: seq<Key>, logits: Logits, lp: LogProbability): real
  {
    if keys == [] then 0.0
    else
      var key := keys[|keys|-1];
      EvenScore(matches, keys[..|keys|-1], logits, lp)
        + (if OneSided(matches, key) then lp(Above(logits, key.first, key.second)) + lp(Above(logits, key.second, key.first)) else 0.0)
  }

  function WinsLikelihood(matches: seq<Match>, key: Key, logits: Logits, lp: LogProbability): real
  {
    Mul(WinsOver(matches, key.first, key.second) as real, lp(Above(logits, key.first, key.second)))
      + Mul(WinsOver(matches, key.second, key.first) as real, lp(Above(logits, key.second, key.first)))
  }

  /** The same wins, added up pairing by pairing. */
  function PairingsLikelihood(matches: seq<Match>, keys: seq<Key>, logits: Logits, lp: LogProbability): real
  {
    if keys == [] then 0.0
    else PairingsLikelihood(matches, keys[..|keys|-1], logits, lp) + WinsLikelihood(matches, keys[|keys|-1], logits, lp)
  }

  lemma OneMoreRecord(matches: seq<Match>, m: Match, key: Key, logits: Logits, lp: LogProbability)
    requires ValidMatch(m) && key.first < key.second
    ensures WinsLikelihood(matches + [m], key, logits, lp)
      == WinsLikelihood(matches, key, logits, lp) + (if KeyOf(m) == key then RecordLikelihood(m, logits, lp) else 0.0)
  {
    var a, b := key.first, key.second;
    assert (matches + [m])[..|matches|] == matches;
    WinsAdd(matches, m, a, b, lp(Above(logits, a, b)));
    WinsAdd(matches, m, b, a, lp(Above(logits, b, a)));
    MulUnits(lp(Above(logits, a, b)));
    MulUnits(lp(Above(logits, b, a)));
    hide Mul, Above, WinsOver;
  }

  lemma WinsAdd(matches: seq<Match>, m: Match, a: int, b: int, x: real)
    ensures Mul(WinsOver(matches + [m], a, b) as real, x) == Mul(WinsOver(matches, a, b) as real, x) + Mul(WinsIn(m, a, b) as real, x)
  {
    assert (matches + [m])[..|matches|] == matches;
  }

  lemma {:induction false} PairingsOneMore(matches: seq<Match>, m: Match, keys: seq<Key>, logits: Logits, lp: LogProbability)
    requires ValidMatch(m) && Proper(keys)
    ensures PairingsLikelihood(matches + [m], keys, logits, lp)
      == PairingsLikelihood(matches, keys, logits, lp) + (if KeyOf(m) in keys then RecordLikelihood(m, logits, lp) else 0.0)
  {
    hide WinsLikelihood, RecordLikelihood, KeyOf;
    if keys != [] {
      var k := |keys| - 1;
      PairingsOneMore(matches, m, keys[..k], logits, lp);
      OneMoreRecord(matches, m, keys[k], logits, lp);
      assert keys == keys[..k] + [keys[k]];
      assert KeyOf(m) in keys <==> KeyOf(m) in keys[..k] || KeyOf(m) == keys[k];
    }
  }

  lemma {:induction false} NoRecords(keys: seq<Key>, logits: Logits, lp: LogProbability)
    ensures PairingsLikelihood([], keys, logits, lp) == 0.0
  {
    if keys != [] {
      NoRecords(keys[..|keys|-1], logits, lp);
    }
  }

  /** Listing the pairings of a component loses no record and counts none twice. */
  lemma {:induction false} RecordsArePairings(matches: seq<Match>, prefix: nat, p: Problem, correction: real, logits: Logits, lp: LogProbability)
    requires AllValid(matches) && Poses(matches, p.anchor, correction, p) && prefix <= |matches|
    ensures PairingsLikelihood(matches[..prefix], p.keys, logits, lp) == RecordsLikelihood(matches[..prefix], p.component, logits, lp)
  {
    hide RecordLikelihood, KeyOf, Met, Reachable;
    if prefix == 0 {
      NoRecords(p.keys, logits, lp);
    } else {
      RecordsArePairings(matches, prefix - 1, p, correction, logits, lp);
      var m := matches[prefix-1];
      assert matches[..prefix] == matches[..prefix-1] + [m];
      assert ValidMatch(m);
      PairingsOneMore(matches[..prefix-1], m, p.keys, logits, lp);
      KeyIsListed(matches, p, correction, prefix - 1);
    }
  }

  lemma KeyIsListed(matches: seq<Match>, p: Problem, correction: real, i: nat)
    requires AllValid(matches) && Poses(matches, p.anchor, correction, p) && i < |matches|
    ensures KeyOf(matches[i]) in p.keys <==> matches[i].candidate in p.component
  {
    var m := matches[i];
    assert ValidMatch(m) && IsBetween(m, m.candidate, m.baseline) && IsBetween(m, m.baseline, m.candidate);
    assert Met(matches, m.candidate, m.baseline) && Met(matches, m.baseline, m.candidate);
    if m.candidate in p.component { ReachableStep(matches, p.anchor, m.candidate, m.baseline); }
    if m.baseline in p.component { ReachableStep(matches, p.anchor, m.baseline, m.candidate); }
  }

  lemma OnePairing(matches: seq<Match>, key: Key, correction: real, logits: Logits, lp: LogProbability)
    requires key.first in logits && key.second in logits
    ensures var raw, d := RawPairing(key, TotalsOf(matches, key)), logits[key.first] - logits[key.second];
      && PairLikelihood(raw, d, lp) == WinsLikelihood(matches, key, logits, lp)
      && PairLikelihood(Adjusted(raw, correction), d, lp) == WinsLikelihood(matches, key, logits, lp)
           + Mul(correction, if OneSided(matches, key) then lp(Above(logits, key.first, key.second)) + lp(Above(logits, key.second, key.first)) else 0.0)
  {
    var raw := RawPairing(key, TotalsOf(matches, key));
    var l, m := lp(Above(logits, key.first, key.second)), lp(Above(logits, key.second, key.first));
    assert Above(logits, key.second, key.first) == -(logits[key.first] - logits[key.second]);
    assert Mul(correction, 0.0) == 0.0;
    CorrectionAdds(raw.firstWins, correction, l);
    CorrectionAdds(raw.secondWins, correction, m);
    CorrectionAdds(l, m, correction);
    hide Mul, WinsOver, Meetings, Above;
  }

  lemma CorrectionAdds(wins: real, correction: real, x: real)
    ensures Mul(wins + correction, x) == Mul(wins, x) + Mul(correction, x)
    ensures Mul(x, wins + correction) == Mul(x, wins) + Mul(x, correction)
  {
  }

  /** These are the keys' pairings, raw and adjusted. */
  ghost predicate Listed(matches: seq<Match>, correction: real, keys: seq<Key>, raw: seq<Pairing>, adjusted: seq<Pairing>)
  {
    && |raw| == |adjusted| == |keys|
    && (forall i :: 0 <= i < |keys| ==> raw[i] == RawPairing(keys[i], TotalsOf(matches, keys[i])))
    && (forall i :: 0 <= i < |keys| ==> adjusted[i] == Adjusted(raw[i], correction))
  }

  lemma {:induction false} PairingsOfRecords(matches: seq<Match>, correction: real, keys: seq<Key>, raw: seq<Pairing>, adjusted: seq<Pairing>,
                                             logits: Logits, lp: LogProbability)
    requires Listed(matches, correction, keys, raw, adjusted) && Rated(raw, logits) && Rated(adjusted, logits)
    ensures LogLikelihood(raw, logits, lp) == PairingsLikelihood(matches, keys, logits, lp)
    ensures LogLikelihood(adjusted, logits, lp)
      == PairingsLikelihood(matches, keys, logits, lp) + Mul(correction, EvenScore(matches, keys, logits, lp))
  {
    hide TotalsOf, WinsLikelihood, PairLikelihood, OneSided, Above, Mul, RawPairing, Adjusted;
    if keys == [] {
      MulUnits(correction);
    } else {
      var k := |keys| - 1;
      var key := keys[k];
      PairingsOfRecords(matches, correction, keys[..k], raw[..k], adjusted[..k], logits, lp);
      SameSides(key, TotalsOf(matches, key), correction);
      OnePairing(matches, key, correction, logits, lp);
      MulSum(correction, EvenScore(matches, keys[..k], logits, lp),
             if OneSided(matches, key) then lp(Above(logits, key.first, key.second)) + lp(Above(logits, key.second, key.first)) else 0.0);
    }
  }

  lemma SameSides(key: Key, t: Totals, correction: real)
    ensures var raw := RawPairing(key, t);
      raw.first == key.first && raw.second == key.second && SamePairing(raw, Adjusted(raw, correction))
  {
  }

  lemma MulSum(c: real, x: real, y: real)
    ensures Mul(c, x + y) == Mul(c, x) + Mul(c, y)
  {
  }

  /**
   What a fit maximises: each record of the anchor's component, its wins at the candidate's
   log-probability and its losses at the baseline's, and the correction for each side of
   each pairing in which one side won nothing. The raw pairings leave the correction out.
   */
  lemma ObjectiveOfRecords(matches: seq<Match>, correction: real, p: Problem, logits: Logits, lp: LogProbability)
    requires AllValid(matches) && Poses(matches, p.anchor, correction, p) && WellPosed(p) && RatesAll(p, logits)
    ensures Rated(p.raw, logits)
    ensures LogLikelihood(p.raw, logits, lp) == RecordsLikelihood(matches, p.component, logits, lp)
    ensures Objective(p, lp, logits)
      == RecordsLikelihood(matches, p.component, logits, lp) + Mul(correction, EvenScore(matches, p.keys, logits, lp))
  {
    RatesPairings(p, logits);
    PairingsOfRecords(matches, correction, p.keys, p.raw, p.adjusted, logits, lp);
    RecordsArePairings(matches, |matches|, p, correction, logits, lp);
    assert matches[..|matches|] == matches;
    hide WellPosed, RatesAll, Poses;
  }

  /** What a has won against b, less what the ratings expect of that many games. */
  function Surplus(matches: seq<Match>, correction: real, logits: Logits, prob: real -> real, a: int, b: int): real
  {
    var extra := if WinsOver(matches, a, b) == 0 || WinsOver(matches, b, a) == 0 then correction else 0.0;
    var won, lost := WinsOver(matches, a, b) as real + extra, WinsOver(matches, b, a) as real + extra;
    won - Mul(won + lost, prob(Above(logits, a, b)))
  }

  /** The surplus over all listed opponents. */
  function TotalSurplus(matches: seq<Match>, correction: real, keys: seq<Key>, logits: Logits, prob: real -> real, a: int): real
  {
    if keys == [] then 0.0
    else
      var key := keys[|keys|-1];
      TotalSurplus(matches, correction, keys[..|keys|-1], logits, prob, a)
        + (if a == key.first then Surplus(matches, correction, logits, prob, a, key.second)
           else if a == key.second then Surplus(matches, correction, logits, prob, a, key.first) else 0.0)
  }

  lemma OneScore(matches: seq<Match>, key: Key, correction: real, logits: Logits, prob: real -> real)
    requires key.first in logits && key.second in logits && forall d :: prob(-d) == 1.0 - prob(d)
    ensures var q := Adjusted(RawPairing(key, TotalsOf(matches, key)), correction);
      && q.first == key.first && q.second == key.second
      && Score(q, logits, prob) == Surplus(matches, correction, logits, prob, key.first, key.second)
      && -Score(q, logits, prob) == Surplus(matches, correction, logits, prob, key.second, key.first)
  {
    var q := Adjusted(RawPairing(key, TotalsOf(matches, key)), correction);
    var d := logits[key.first] - logits[key.second];
    assert Above(logits, key.first, key.second) == d && Above(logits, key.second, key.first) == -d;
    assert prob(-d) == 1.0 - prob(d);
    BothScores(q.firstWins, q.secondWins, prob(d));
    hide WinsOver, Meetings, Above;
  }

  lemma BothScores(won: real, lost: real, probability: real)
    ensures won - Mul(won + lost, probability) == -(lost - Mul(lost + won, 1.0 - probability))
    ensures won - (won + lost) * probability == won - Mul(won + lost, probability)
  {
  }

  lemma {:induction false} GradientOfRecords(matches: seq<Match>, correction: real, keys: seq<Key>, raw: seq<Pairing>, adjusted: seq<Pairing>,
                                             logits: Logits, index: Index, prob: real -> real, n: nat, a: int)
    requires Listed(matches, correction, keys, raw, adjusted) && Rated(adjusted, logits) && Numbers(index, n) && a in index
    requires forall d :: prob(-d) == 1.0 - prob(d)
    ensures index[a] < n && Gradient(adjusted, logits, index, prob, n)[index[a]] == TotalSurplus(matches, correction, keys, logits, prob, a)
  {
    hide TotalsOf, RawPairing, Adjusted, Surplus, Score;
    if keys != [] {
      var k := |keys| - 1;
      GradientOfRecords(matches, correction, keys[..k], raw[..k], adjusted[..k], logits, index, prob, n, a);
      assert adjusted[k] == Adjusted(raw[k], correction) && raw[k] == RawPairing(keys[k], TotalsOf(matches, keys[k]));
      SameSides(keys[k], TotalsOf(matches, keys[k]), correction);
      OneScore(matches, keys[k], correction, logits, prob);
    }
  }

  /**
   The score equation: an identity's entry of the gradient is its surplus of wins over what
   its ratings against all opponents expect. Where the gradient vanishes, the ratings
   explain everybody's wins.
   */
  lemma ScoreEquation(matches: seq<Match>, correction: real, p: Problem, logits: Logits, prob: real -> real, lp: LogProbability, a: int)
    requires Poses(matches, p.anchor, correction, p) && WellPosed(p) && RatesAll(p, logits) && Logistic(prob, lp) && a in p.index
    ensures Rated(p.adjusted, logits) && p.index[a] < p.n
    ensures Gradient(p.adjusted, logits, p.index, prob, p.n)[p.index[a]] == TotalSurplus(matches, correction, p.keys, logits, prob, a)
  {
    RatesPairings(p, logits);
    GradientOfRecords(matches, correction, p.keys, p.raw, p.adjusted, logits, p.index, prob, p.n, a);
  }

  /** Probabilities never fall with the difference, and are even at zero. */
  lemma LogisticIsMonotone(prob: real -> real, lp: LogProbability, d: real, e: real)
    requires Logistic(prob, lp)
    ensures d <= e ==> prob(d) <= prob(e)
    ensures prob(0.0) == 1.0 / 2.0
  {
    assert prob(-0.0) == 1.0 - prob(0.0);
    assert Tangent(prob, lp, d, e) && Tangent(prob, lp, e, d);
    Slopes(prob(d), prob(e), e - d);
  }

  lemma Slopes(p: real, q: real, gap: real)
    ensures gap > 0.0 && Mul(1.0 - p, gap) + Mul(1.0 - q, -gap) >= 0.0 ==> p <= q
  {
    SlopesDiffer(p, q, gap);
    if gap > 0.0 && p > q {
      PositiveProduct(p - q, gap);
      hide Mul;
    }
  }

  lemma SlopesDiffer(p: real, q: real, gap: real)
    ensures Mul(1.0 - p, gap) + Mul(1.0 - q, -gap) == -Mul(p - q, gap)
  {
    assert (1.0 - p) * gap == gap - p * gap;
    assert (1.0 - q) * -gap == q * gap - gap;
    assert (p - q) * gap == p * gap - q * gap;
  }

  /** In a fit of two identities that meets its stopping test exactly, more wins are a higher rating. */
  lemma MoreWinsRateHigher(matches: seq<Match>, correction: real, p: Problem, logits: Logits, prob: real -> real, lp: LogProbability, a: int)
    requires AllValid(matches) && Poses(matches, p.anchor, correction, p) && WellPosed(p) && RatesAll(p, logits)
    requires Logistic(prob, lp) && correction > 0.0 && p.component == {p.anchor, a} && a != p.anchor
    requires Rated(p.adjusted, logits) && IsZero(Gradient(p.adjusted, logits, p.index, prob, p.n))
    ensures a in logits
    ensures WinsOver(matches, a, p.anchor) > WinsOver(matches, p.anchor, a) ==> logits[a] > logits[p.anchor]
    ensures WinsOver(matches, a, p.anchor) < WinsOver(matches, p.anchor, a) ==> logits[a] < logits[p.anchor]
  {
    assert a in p.component && a in p.index.Keys && a in logits.Keys;
    RatedAtZero(p, logits, a);
    hide *;
    ScoreEquation(matches, correction, p, logits, prob, lp, a);
    IsZeroAt(Gradient(p.adjusted, logits, p.index, prob, p.n), p.index[a]);
    OnlyKey(matches, correction, p, a);
    OneOpponent(matches, correction, p.keys, logits, prob, a, p.anchor);
    LogisticIsMonotone(prob, lp, Above(logits, a, p.anchor), 0.0);
    LogisticIsMonotone(prob, lp, 0.0, Above(logits, a, p.anchor));
    NoSurplus(matches, correction, logits, prob, a, p.anchor);
  }

  lemma RatedAtZero(p: Problem, logits: Logits, a: int)
    requires RatesAll(p, logits) && a in logits
    ensures p.anchor in logits && Above(logits, a, p.anchor) == logits[a] - logits[p.anchor]
  {
  }

  lemma IsZeroAt(x: Row, i: nat)
    requires IsZero(x) && i < |x|
    ensures x[i] == 0.0
  {
  }

  /** Without a surplus the one who has won more is expected to win more. */
  lemma NoSurplus(matches: seq<Match>, correction: real, logits: Logits, prob: real -> real, a: int, b: int)
    requires correction > 0.0 && Surplus(matches, correction, logits, prob, a, b) == 0.0
    ensures WinsOver(matches, a, b) > WinsOver(matches, b, a) ==> prob(Above(logits, a, b)) > 1.0 / 2.0
    ensures WinsOver(matches, a, b) < WinsOver(matches, b, a) ==> prob(Above(logits, a, b)) < 1.0 / 2.0
  {
    hide WinsOver, Mul, Above;
    var extra := if WinsOver(matches, a, b) == 0 || WinsOver(matches, b, a) == 0 then correction else 0.0;
    EvenOdds(WinsOver(matches, a, b) as real + extra, WinsOver(matches, b, a) as real + extra, prob(Above(logits, a, b)));
  }

  lemma EvenOdds(won: real, lost: real, probability: real)
    requires won - Mul(won + lost, probability) == 0.0 && won >= 0.0 && lost >= 0.0
    ensures won > lost ==> probability > 1.0 / 2.0
    ensures won < lost ==> probability < 1.0 / 2.0
  {
    var games, over := won + lost, probability - 1.0 / 2.0;
    assert games * over == (won - lost) / 2.0;
    assert games >= 0.0 && (over <= 0.0 ==> games * over <= 0.0) && (over >= 0.0 ==> games * over >= 0.0);
  }

  lemma OnlyKey(matches: seq<Match>, correction: real, p: Problem, a: int)
    requires AllValid(matches) && Poses(matches, p.anchor, correction, p) && WellPosed(p) && p.component == {p.anchor, a} && a != p.anchor
    ensures |p.keys| == 1 && p.keys[0] == (if a < p.anchor then Key(a, p.anchor) else Key(p.anchor, a))
  {
    var key := if a < p.anchor then Key(a, p.anchor) else Key(p.anchor, a);
    var first, second := if |p.keys| > 0 then p.keys[0] else key, if |p.keys| > 1 then p.keys[1] else key;
    forall i | 0 <= i < |p.keys|
      ensures p.keys[i] == key
    {
      assert FitPairing(p.component, p.raw[i]);
    }
    assert a in p.component;
    PairingsConnect(matches, p.anchor, correction, p, a);
    var path :| Connects(Plays(p.raw), path, p.anchor, a);
    assert Plays(p.raw)(path[0], path[1]);
  }

  lemma OneOpponent(matches: seq<Match>, correction: real, keys: seq<Key>, logits: Logits, prob: real -> real, a: int, b: int)
    requires |keys| == 1 && keys[0] == (if a < b then Key(a, b) else Key(b, a)) && a != b
    ensures TotalSurplus(matches, correction, keys, logits, prob, a) == Surplus(matches, correction, logits, prob, a, b)
  {
    assert keys[..0] == [];
    hide Surplus;
  }
}
