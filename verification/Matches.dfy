/**
 Reducing directed match records to unordered pairings and to their graph. The totals
 forget the order and the direction of the records and nothing else.
 */
module Matches {
  import opened Components

  datatype Match = Match(candidate: int, baseline: int, wins: nat, losses: nat)

  /** What a match record's own constructor accepts. */
  predicate ValidMatch(m: Match)
  {
    m.candidate != m.baseline && m.wins + m.losses > 0
  }

  predicate AllValid(matches: seq<Match>)
  {
    forall i :: 0 <= i < |matches| ==> ValidMatch(matches[i])
  }

  datatype Totals = Totals(firstWins: nat, secondWins: nat, observations: nat)

  /** An unordered pairing, written with its lesser identity first. */
  datatype Key = Key(first: int, second: int)

  function KeyOf(m: Match): Key
  {
    if m.candidate < m.baseline then Key(m.candidate, m.baseline) else Key(m.baseline, m.candidate)
  }

  function Reverse(m: Match): Match { Match(m.baseline, m.candidate, m.losses, m.wins) }

  // What the totals mean.

  /** The games that a won against b in one record. */
  function WinsIn(m: Match, a: int, b: int): nat
  {
    if m.candidate == a && m.baseline == b then m.wins
    else if m.candidate == b && m.baseline == a then m.losses
    else 0
  }

  function WinsOver(matches: seq<Match>, a: int, b: int): nat
  {
    if matches == [] then 0
    else WinsOver(matches[..|matches|-1], a, b) + WinsIn(matches[|matches|-1], a, b)
  }

  function Meetings(matches: seq<Match>, key: Key): nat
  {
    if matches == [] then 0
    else Meetings(matches[..|matches|-1], key) + (if KeyOf(matches[|matches|-1]) == key then 1 else 0)
  }

  predicate Met(matches: seq<Match>, a: int, b: int)
  {
    exists i :: 0 <= i < |matches| && IsBetween(matches[i], a, b)
  }

  predicate IsBetween(m: Match, a: int, b: int)
  {
    (m.candidate == a && m.baseline == b) || (m.candidate == b && m.baseline == a)
  }

  function TotalsOf(matches: seq<Match>, key: Key): Totals
  {
    Totals(WinsOver(matches, key.first, key.second), WinsOver(matches, key.second, key.first), Meetings(matches, key))
  }

  lemma MetOneMore(matches: seq<Match>, m: Match, a: int, b: int)
    ensures Met(matches + [m], a, b) <==> Met(matches, a, b) || IsBetween(m, a, b)
  {
    var more := matches + [m];
    if Met(matches, a, b) {
      var i :| 0 <= i < |matches| && IsBetween(matches[i], a, b);
      assert more[i] == matches[i];
    }
    if IsBetween(m, a, b) { assert more[|matches|] == m; }
  }

  lemma TotalsOneMore(matches: seq<Match>, m: Match, key: Key)
    requires ValidMatch(m) && key.first < key.second
    ensures TotalsOf(matches + [m], key) ==
      var t := TotalsOf(matches, key);
      if key != KeyOf(m) then t
      else if m.candidate == key.first then Totals(t.firstWins + m.wins, t.secondWins + m.losses, t.observations + 1)
      else Totals(t.firstWins + m.losses, t.secondWins + m.wins, t.observations + 1)
  {
    assert (matches + [m])[..|matches|] == matches;
  }

  lemma {:induction false} NeverMet(matches: seq<Match>, key: Key)
    requires AllValid(matches) && key.first < key.second && !Met(matches, key.first, key.second)
    ensures TotalsOf(matches, key) == Totals(0, 0, 0)
  {
    if matches != [] {
      var k := |matches| - 1;
      assert matches == matches[..k] + [matches[k]];
      MetOneMore(matches[..k], matches[k], key.first, key.second);
      NeverMet(matches[..k], key);
      TotalsOneMore(matches[..k], matches[k], key);
    }
  }

  ghost predicate TotalsAre(totals: map<Key, Totals>, matches: seq<Match>)
  {
    && (forall key :: key in totals <==> key.first < key.second && Met(matches, key.first, key.second))
    && (forall key :: key in totals ==> totals[key] == TotalsOf(matches, key))
  }

  /** Two identities are neighbours when some record is between them. */
  ghost predicate GraphIs(adjacency: Adjacency, matches: seq<Match>)
  {
    && ValidGraph(adjacency)
    && (forall a, b :: a in adjacency && b in adjacency[a] <==> Met(matches, a, b))
    && (forall a :: a in adjacency ==> adjacency[a] != {})
  }

  /** The loop over the records. */
  method ReduceMatches(matches: seq<Match>) returns (totals: map<Key, Totals>, adjacency: Adjacency)
    requires AllValid(matches)
    ensures TotalsAre(totals, matches) && GraphIs(adjacency, matches) && ValidGraph(adjacency)
  {
    hide TotalsOf, Met;
    totals, adjacency := map[], map[];
    assert matches[..0] == [];
    assert forall a, b :: !Met([], a, b) by { NothingMet(); }
    for i := 0 to |matches|
      invariant TotalsAre(totals, matches[..i]) && GraphIs(adjacency, matches[..i])
    {
      var m := matches[i];
      assert matches[..i+1] == matches[..i] + [m];
      var key := KeyOf(m);
      var total := if key in totals then totals[key] else Totals(0, 0, 0);
      if key !in totals { NeverMet(matches[..i], key); }
      var first := m.candidate == key.first;
      total := Totals(total.firstWins + if first then m.wins else m.losses,
                      total.secondWins + if first then m.losses else m.wins,
                      total.observations + 1);
      AddTotal(totals, matches[..i], m, total);
      AddEdge(adjacency, matches[..i], m);
      totals := totals[key := total];
      adjacency := Linked(Linked(adjacency, key.first, key.second), key.second, key.first);
    }
    assert matches[..|matches|] == matches;
  }

  lemma NothingMet()
    ensures forall a, b :: !Met([], a, b)
  {
  }

  function Linked(adjacency: Adjacency, a: int, b: int): Adjacency
  {
    adjacency[a := (if a in adjacency then adjacency[a] else {}) + {b}]
  }

  lemma AddTotal(totals: map<Key, Totals>, matches: seq<Match>, m: Match, total: Totals)
    requires ValidMatch(m) && TotalsAre(totals, matches)
    requires var t := TotalsOf(matches, KeyOf(m));
      total == if m.candidate == KeyOf(m).first then Totals(t.firstWins + m.wins, t.secondWins + m.losses, t.observations + 1)
               else Totals(t.firstWins + m.losses, t.secondWins + m.wins, t.observations + 1)
    ensures TotalsAre(totals[KeyOf(m) := total], matches + [m])
  {
    hide TotalsOf, Met;
    var totals' := totals[KeyOf(m) := total];
    forall key: Key
      ensures key in totals' <==> key.first < key.second && Met(matches + [m], key.first, key.second)
      ensures key in totals' ==> totals'[key] == TotalsOf(matches + [m], key)
    {
      MetOneMore(matches, m, key.first, key.second);
      if key.first < key.second {
        TotalsOneMore(matches, m, key);
      }
    }
  }

  lemma AddEdge(adjacency: Adjacency, matches: seq<Match>, m: Match)
    requires ValidMatch(m) && GraphIs(adjacency, matches)
    ensures var key := KeyOf(m);
      GraphIs(Linked(Linked(adjacency, key.first, key.second), key.second, key.first), matches + [m])
  {
    hide Met;
    var key := KeyOf(m);
    var linked := Linked(Linked(adjacency, key.first, key.second), key.second, key.first);
    forall a, b
      ensures a in linked && b in linked[a] <==> Met(matches + [m], a, b)
    {
      MetOneMore(matches, m, a, b);
      assert a in adjacency && b in adjacency[a] <==> Met(matches, a, b);
    }
    forall a, b | a in linked && b in linked[a]
      ensures b in linked && a in linked[b]
    {
      MetOneMore(matches, m, a, b);
      MetOneMore(matches, m, b, a);
      assert a in adjacency && b in adjacency[a] <==> Met(matches, a, b);
      assert b in adjacency && a in adjacency[b] <==> Met(matches, b, a);
      assert IsBetween(m, a, b) <==> IsBetween(m, b, a);
    }
  }

  // Order and direction do not matter.

  function Undirected(m: Match): Match
  {
    if m.candidate < m.baseline then m else Reverse(m)
  }

  function AllUndirected(matches: seq<Match>): (r: seq<Match>)
    ensures |r| == |matches| && forall i :: 0 <= i < |matches| ==> r[i] == Undirected(matches[i])
  {
    seq(|matches|, i requires 0 <= i < |matches| => Undirected(matches[i]))
  }

  lemma {:induction false} DirectionDoesNotMatter(matches: seq<Match>, key: Key)
    requires AllValid(matches)
    ensures TotalsOf(AllUndirected(matches), key) == TotalsOf(matches, key)
  {
    if matches != [] {
      var k := |matches| - 1;
      assert AllUndirected(matches)[..k] == AllUndirected(matches[..k]);
      DirectionDoesNotMatter(matches[..k], key);
    }
  }

  /** Taking one record out takes out what it contributes, wherever it stands. */
  lemma {:induction false} TakeOut(matches: seq<Match>, i: nat, key: Key)
    requires i < |matches|
    ensures var rest, m := TotalsOf(matches[..i] + matches[i+1..], key), matches[i];
      TotalsOf(matches, key) == Totals(rest.firstWins + WinsIn(m, key.first, key.second),
                                       rest.secondWins + WinsIn(m, key.second, key.first),
                                       rest.observations + (if KeyOf(m) == key then 1 else 0))
  {
    var k := |matches| - 1;
    if i == k {
      assert matches[..i] + matches[i+1..] == matches[..k];
    } else {
      var rest := matches[..i] + matches[i+1..];
      assert rest[..k-1] == matches[..k][..i] + matches[..k][i+1..];
      assert rest[k-1] == matches[k];
      TakeOut(matches[..k], i, key);
    }
  }

  lemma {:induction false} OrderDoesNotMatter(p: seq<Match>, q: seq<Match>, key: Key)
    requires multiset(p) == multiset(q)
    ensures TotalsOf(p, key) == TotalsOf(q, key)
  {
    hide TotalsOf, KeyOf, WinsIn;
    if p == [] {
      assert q == [] by { assert |multiset(q)| == 0; }
    } else {
      var i := SameMultisetRest(p, q);
      OrderDoesNotMatter(p[..|p|-1], q[..i] + q[i+1..], key);
      TakeOut(p, |p|-1, key);
      TakeOut(q, i, key);
      assert p[..|p|-1] + p[|p|..] == p[..|p|-1];
    }
  }

  /** The last of p stands somewhere in q; without it the two still agree. */
  lemma SameMultisetRest(p: seq<Match>, q: seq<Match>) returns (i: nat)
    requires multiset(p) == multiset(q) && p != []
    ensures i < |q| && q[i] == p[|p|-1]
    ensures multiset(p[..|p|-1]) == multiset(q[..i] + q[i+1..])
  {
    var m := p[|p|-1];
    assert m in multiset(q);
    i :| 0 <= i < |q| && q[i] == m;
    assert p == p[..|p|-1] + [m];
    assert q == q[..i] + [q[i]] + q[i+1..];
    assert multiset(p) == multiset(p[..|p|-1]) + multiset{m};
    assert multiset(q) == multiset(q[..i] + q[i+1..]) + multiset{m};
    assert multiset(p[..|p|-1]) == multiset(p) - multiset{m};
    assert multiset(q[..i] + q[i+1..]) == multiset(q) - multiset{m};
  }

  /** Records may be permuted, and any of them reversed together with its counts. */
  lemma OrderAndDirectionDoNotMatter(p: seq<Match>, q: seq<Match>, key: Key)
    requires AllValid(p) && AllValid(q)
    requires multiset(AllUndirected(p)) == multiset(AllUndirected(q))
    ensures TotalsOf(p, key) == TotalsOf(q, key)
  {
    DirectionDoesNotMatter(p, key);
    DirectionDoesNotMatter(q, key);
    OrderDoesNotMatter(AllUndirected(p), AllUndirected(q), key);
  }

  // Every decisive game is counted once.

  /** The games of the records whose pairing is listed. */
  function GamesOf(matches: seq<Match>, keys: seq<Key>): nat
  {
    if matches == [] then 0
    else
      var m := matches[|matches|-1];
      GamesOf(matches[..|matches|-1], keys) + (if KeyOf(m) in keys then m.wins + m.losses else 0)
  }

  /** The totals' games, added up over the listed pairings as the fit reports them. */
  function GamesInTotals(matches: seq<Match>, keys: seq<Key>): nat
  {
    if keys == [] then 0
    else
      var t := TotalsOf(matches, keys[|keys|-1]);
      GamesInTotals(matches, keys[..|keys|-1]) + t.firstWins + t.secondWins
  }

  predicate Proper(keys: seq<Key>)
  {
    && (forall i :: 0 <= i < |keys| ==> keys[i].first < keys[i].second)
    && (forall i, j :: 0 <= i < j < |keys| ==> keys[i] != keys[j])
  }

  lemma {:induction false} GamesInTotalsOneMore(matches: seq<Match>, m: Match, keys: seq<Key>)
    requires ValidMatch(m) && Proper(keys)
    ensures GamesInTotals(matches + [m], keys) ==
      GamesInTotals(matches, keys) + (if KeyOf(m) in keys then m.wins + m.losses else 0)
  {
    hide TotalsOf;
    if keys != [] {
      var k := |keys| - 1;
      GamesInTotalsOneMore(matches, m, keys[..k]);
      TotalsOneMore(matches, m, keys[k]);
      assert keys == keys[..k] + [keys[k]];
      assert KeyOf(m) in keys <==> KeyOf(m) in keys[..k] || KeyOf(m) == keys[k];
    }
  }

  lemma {:induction false} NoGames(keys: seq<Key>)
    ensures GamesInTotals([], keys) == 0
  {
    if keys != [] { NoGames(keys[..|keys|-1]); }
  }

  /** The totals hold each game of each listed pairing exactly once. */
  lemma {:induction false} GamesConserved(matches: seq<Match>, keys: seq<Key>)
    requires AllValid(matches) && Proper(keys)
    ensures GamesInTotals(matches, keys) == GamesOf(matches, keys)
  {
    if matches == [] {
      NoGames(keys);
    } else {
      var k := |matches| - 1;
      GamesConserved(matches[..k], keys);
      GamesInTotalsOneMore(matches[..k], matches[k], keys);
      assert matches == matches[..k] + [matches[k]];
    }
  }

  // The sorted listing of the pairings.

  predicate Before(a: Key, b: Key)
  {
    a.first < b.first || (a.first == b.first && a.second < b.second)
  }

  lemma {:induction false} LeastKeyExists(s: set<Key>)
    requires s != {}
    ensures exists x :: IsLeastKey(s, x)
    decreases s
  {
    var z :| z in s;
    var rest := s - {z};
    if rest == {} {
      assert s == {z};
      assert IsLeastKey(s, z);
    } else {
      LeastKeyExists(rest);
      var x :| IsLeastKey(rest, x);
      var least := if Before(z, x) then z else x;
      forall y | y in s && y != least
        ensures Before(least, y)
      {
        assert y == z || y in rest;
      }
      assert IsLeastKey(s, least);
    }
  }

  predicate IsLeastKey(s: set<Key>, x: Key)
  {
    x in s && forall y :: y in s && y != x ==> Before(x, y)
  }

  function LeastKey(s: set<Key>): (x: Key)
    requires s != {}
    ensures IsLeastKey(s, x)
  {
    LeastKeyExists(s);
    var x :| x in s && IsLeastKey(s, x);
    x
  }

  /** The keys in lexicographic order, as sorted() lists them. */
  function SortedKeys(s: set<Key>): (r: seq<Key>)
    ensures forall x :: x in s <==> x in r
    ensures forall i, j :: 0 <= i < j < |r| ==> Before(r[i], r[j])
  {
    if s == {} then [] else [LeastKey(s)] + SortedKeys(s - {LeastKey(s)})
  }
}
