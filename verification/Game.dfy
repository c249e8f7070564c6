/** The game as a reducer over its action log. */
module Game {
  import opened Results
  import opened Sequences

  const EMPTY: int := -1
  const MAX_HANDICAP: int := 9

  datatype Mode = Classic | Double

  /** The rules of one match, on the board with this many nodes. */
  datatype Config = Config(rings: int, nodes: nat, mode: Mode, pieRule: bool, handicap: int)

  predicate ValidConfig(c: Config)
  {
    c.nodes > 0 && 1 <= c.handicap <= MAX_HANDICAP && (c.pieRule ==> c.handicap == 1)
  }

  datatype Action = Place(node: int) | Swap

  datatype Position = Position(stones: seq<int>, placed: nat, toMove: int, movesLeft: int, over: bool,
                               canSwap: bool, swapped: bool, turnCount: nat)

  function TurnSize(c: Config, turn: nat): int
  {
    if turn == 0 then c.handicap else if c.mode.Classic? then 1 else 2
  }

  function Initial(c: Config): Position
  {
    Position(seq(c.nodes, _ => EMPTY), 0, 0, TurnSize(c, 0), false, false, false, 0)
  }

  predicate IsLegal(c: Config, p: Position, a: Action)
  {
    !p.over &&
    match a
    case Place(node) => 0 <= node < c.nodes && node < |p.stones| && p.stones[node] == EMPTY
    case Swap => p.canSwap
  }

  function Recolored(stones: seq<int>): (r: seq<int>)
    ensures |r| == |stones|
  {
    seq(|stones|, u requires 0 <= u < |stones| => if stones[u] != EMPTY then 1 else EMPTY)
  }

  function Apply(c: Config, p: Position, a: Action): Position
    requires IsLegal(c, p, a)
  {
    match a
    case Place(node) =>
      var placed := p.(stones := p.stones[node := p.toMove], placed := p.placed + 1, movesLeft := p.movesLeft - 1, canSwap := false);
      if placed.placed == c.nodes then placed.(over := true)
      else if placed.movesLeft == 0 then
        placed.(toMove := 1 - p.toMove, turnCount := p.turnCount + 1, movesLeft := TurnSize(c, p.turnCount + 1),
                canSwap := c.pieRule && p.turnCount == 0 && !p.swapped)
      else placed
    case Swap =>
      p.(stones := Recolored(p.stones), swapped := true, canSwap := false, toMove := 0,
         turnCount := p.turnCount + 1, movesLeft := TurnSize(c, p.turnCount + 1))
  }

  /** Replaying a log from scratch; None where the code throws. */
  function Replay(c: Config, log: seq<Action>): Option<Position>
  {
    if log == [] then Some(Initial(c))
    else
      var before := Replay(c, log[..|log|-1]);
      if before.Some? && IsLegal(c, before.value, log[|log|-1]) then Some(Apply(c, before.value, log[|log|-1])) else None
  }

  predicate Legal(c: Config, log: seq<Action>) { Replay(c, log).Some? }

  /** The code's loop. */
  method ReplayLog(c: Config, log: seq<Action>) returns (r: Option<Position>)
    ensures r == Replay(c, log)
  {
    var p := Initial(c);
    assert log[..0] == [];
    for k := 0 to |log|
      invariant Replay(c, log[..k]) == Some(p)
    {
      assert log[..k+1][..k] == log[..k];
      if !IsLegal(c, p, log[k]) {
        LegalPrefix(c, log, k + 1);
        return None;
      }
      p := Apply(c, p, log[k]);
    }
    assert log[..|log|] == log;
    return Some(p);
  }

  lemma {:induction false} LegalPrefix(c: Config, log: seq<Action>, k: nat)
    requires k <= |log|
    ensures Legal(c, log) ==> Legal(c, log[..k])
  {
    if k == |log| {
      assert log[..k] == log;
    } else {
      LegalPrefix(c, log[..|log|-1], k);
      assert log[..|log|-1][..k] == log[..k];
    }
  }

  lemma LegalAppend(c: Config, log: seq<Action>, a: Action)
    ensures Replay(c, log + [a]) ==
      (if Legal(c, log) && IsLegal(c, Replay(c, log).value, a) then Some(Apply(c, Replay(c, log).value, a)) else None)
  {
    assert (log + [a])[..|log|] == log;
  }

  /** The stones on the board. */
  function Occupied(stones: seq<int>): nat
  {
    if stones == [] then 0 else Occupied(stones[..|stones|-1]) + (if stones[|stones|-1] != EMPTY then 1 else 0)
  }

  lemma {:induction false} OccupiedBound(stones: seq<int>)
    ensures Occupied(stones) <= |stones|
    ensures Occupied(stones) == |stones| <==> forall u :: 0 <= u < |stones| ==> stones[u] != EMPTY
    ensures Occupied(stones) == 0 <==> forall u :: 0 <= u < |stones| ==> stones[u] == EMPTY
  {
    if stones != [] {
      OccupiedBound(stones[..|stones|-1]);
    }
  }

  lemma {:induction false} OccupiedUpdate(stones: seq<int>, u: nat, x: int)
    requires u < |stones| && stones[u] == EMPTY && x != EMPTY
    ensures Occupied(stones[u := x]) == Occupied(stones) + 1
  {
    var m := |stones| - 1;
    if u == m {
      assert stones[u := x][..m] == stones[..m];
    } else {
      assert stones[u := x][..m] == stones[..m][u := x];
      OccupiedUpdate(stones[..m], u, x);
    }
  }

  lemma {:induction false} OccupiedRecolored(stones: seq<int>)
    ensures Occupied(Recolored(stones)) == Occupied(stones)
  {
    if stones != [] {
      var m := |stones| - 1;
      assert Recolored(stones)[..m] == Recolored(stones[..m]);
      OccupiedRecolored(stones[..m]);
    }
  }

  /** The stones that the opening and the turns after it place, up to and including a turn. */
  function TurnsTotal(c: Config, turn: int): int
  {
    if c.mode.Classic? then c.handicap + turn else c.handicap + 2 * turn
  }

  /** What every legal log keeps of the board. */
  ghost predicate BoardInv(c: Config, p: Position)
  {
    && |p.stones| == c.nodes && p.placed == Occupied(p.stones)
    && (forall u :: 0 <= u < |p.stones| ==> p.stones[u] in {EMPTY, 0, 1})
    && (p.turnCount == 0 || p.canSwap ==> forall u :: 0 <= u < |p.stones| ==> p.stones[u] != 1)
  }

  /** What it keeps of the turns, by number of actions played. */
  predicate TurnInv(c: Config, p: Position, actions: nat)
  {
    && (p.over <==> p.placed == c.nodes)
    && (!p.over ==> 1 <= p.movesLeft <= TurnSize(c, p.turnCount))
    && (!p.over ==> p.placed + p.movesLeft == TurnsTotal(c, p.turnCount - if p.swapped then 1 else 0))
    && p.toMove in {0, 1} && (!p.over ==> p.toMove == p.turnCount % 2)
    && (p.swapped ==> c.pieRule && p.turnCount >= 2)
    && (p.canSwap ==> !p.over && c.pieRule && !p.swapped && p.turnCount == 1 && p.placed == 1)
    && actions == p.placed + (if p.swapped then 1 else 0)
  }

  ghost predicate PositionInv(c: Config, p: Position, actions: nat)
  {
    BoardInv(c, p) && TurnInv(c, p, actions)
  }

  lemma PlaceKeepsBoard(c: Config, p: Position, node: int, actions: nat)
    requires ValidConfig(c) && PositionInv(c, p, actions) && IsLegal(c, p, Place(node))
    ensures BoardInv(c, Apply(c, p, Place(node)))
  {
    OccupiedUpdate(p.stones, node, p.toMove);
    hide Occupied;
  }

  lemma PlaceKeepsTurns(c: Config, p: Position, node: int, actions: nat)
    requires ValidConfig(c) && TurnInv(c, p, actions) && IsLegal(c, p, Place(node)) && p.placed < c.nodes
    ensures TurnInv(c, Apply(c, p, Place(node)), actions + 1)
  {
  }

  lemma PlaceKeepsInv(c: Config, p: Position, node: int, actions: nat)
    requires ValidConfig(c) && PositionInv(c, p, actions) && IsLegal(c, p, Place(node))
    ensures PositionInv(c, Apply(c, p, Place(node)), actions + 1)
  {
    OccupiedBound(p.stones);
    PlaceKeepsBoard(c, p, node, actions);
    PlaceKeepsTurns(c, p, node, actions);
  }

  lemma SwapKeepsInv(c: Config, p: Position, actions: nat)
    requires ValidConfig(c) && PositionInv(c, p, actions) && IsLegal(c, p, Swap)
    ensures PositionInv(c, Apply(c, p, Swap), actions + 1)
  {
    OccupiedRecolored(p.stones);
    hide Occupied;
  }

  lemma InitialInv(c: Config)
    requires ValidConfig(c)
    ensures PositionInv(c, Initial(c), 0)
  {
    OccupiedBound(Initial(c).stones);
  }

  lemma {:induction false} LegalLogInv(c: Config, log: seq<Action>)
    requires ValidConfig(c) && Legal(c, log)
    ensures PositionInv(c, Replay(c, log).value, |log|)
  {
    hide PositionInv, Apply, IsLegal;
    if log == [] {
      InitialInv(c);
    } else {
      LegalLogInv(c, log[..|log|-1]);
      var before := Replay(c, log[..|log|-1]).value;
      match log[|log|-1] {
        case Place(node) => PlaceKeepsInv(c, before, node, |log| - 1);
        case Swap => SwapKeepsInv(c, before, |log| - 1);
      }
    }
  }

  /** The stones are those that were placed, and the swap is remembered. */
  ghost predicate Remembers(c: Config, p: Position, log: seq<Action>)
  {
    && |p.stones| == c.nodes
    && (forall u :: 0 <= u < c.nodes ==> (p.stones[u] != EMPTY <==> Place(u) in log))
    && (forall k :: 0 <= k < |log| ==> IsPossible(c, log[k], k))
    && (p.swapped <==> Swap in log)
  }

  /** A place names a node of the board; a swap comes second, where the rules have one. */
  predicate IsPossible(c: Config, a: Action, k: nat)
  {
    match a
    case Place(node) => 0 <= node < c.nodes
    case Swap => c.pieRule && k == 1
  }

  lemma RemembersPlace(c: Config, p: Position, log: seq<Action>, node: int)
    requires Remembers(c, p, log) && IsLegal(c, p, Place(node)) && p.toMove in {0, 1}
    ensures Place(node) !in log && Remembers(c, Apply(c, p, Place(node)), log + [Place(node)])
  {
  }

  lemma RemembersSwap(c: Config, p: Position, log: seq<Action>)
    requires Remembers(c, p, log) && TurnInv(c, p, |log|) && IsLegal(c, p, Swap)
    ensures Swap !in log && Remembers(c, Apply(c, p, Swap), log + [Swap])
  {
  }

  lemma {:induction false} LegalLogRemembers(c: Config, log: seq<Action>)
    requires ValidConfig(c) && Legal(c, log)
    ensures Remembers(c, Replay(c, log).value, log) && Distinct(log)
  {
    hide IsLegal, Apply, Remembers, IsPossible;
    if log == [] {
      NothingPlayed(c);
    } else {
      var m := |log| - 1;
      LegalLogInv(c, log[..m]);
      LegalLogRemembers(c, log[..m]);
      var before := Replay(c, log[..m]).value;
      match log[m] {
        case Place(node) => RemembersPlace(c, before, log[..m], node);
        case Swap => RemembersSwap(c, before, log[..m]);
      }
      assert log == log[..m] + [log[m]];
      DistinctAppend(log[..m], log[m]);
    }
  }

  lemma NothingPlayed(c: Config)
    ensures Remembers(c, Initial(c), [])
  {
  }

  /**
   No action of a legal game is repeated: each node is placed at most once, exactly the
   placed nodes are occupied, and the one possible swap is the second action. The game is
   over exactly when the board is full, and a swap finds exactly one stone, the opener's.
   */
  lemma LegalGames(c: Config, log: seq<Action>)
    requires ValidConfig(c) && Legal(c, log)
    ensures Distinct(log) && |log| <= c.nodes + (if c.pieRule then 1 else 0)
    ensures forall k :: 0 <= k < |log| ==> IsPossible(c, log[k], k)
    ensures var p := Replay(c, log).value;
      && |p.stones| == c.nodes && (forall u :: 0 <= u < c.nodes ==> (p.stones[u] != EMPTY <==> Place(u) in log))
      && (p.over <==> forall u :: 0 <= u < |p.stones| ==> p.stones[u] != EMPTY)
      && (p.canSwap ==> Occupied(p.stones) == 1 && forall u :: 0 <= u < |p.stones| ==> p.stones[u] in {EMPTY, 0})
      && (!p.over ==> Occupied(p.stones) < c.nodes && exists a :: IsLegal(c, p, a))
  {
    LegalLogInv(c, log);
    LegalLogRemembers(c, log);
    var p := Replay(c, log).value;
    hide Distinct, Replay, IsPossible;
    OccupiedBound(p.stones);
    if !p.over {
      var u :| 0 <= u < |p.stones| && p.stones[u] == EMPTY;
      assert IsLegal(c, p, Place(u));
    }
  }

  function Exchanged(x: int): int { if x == EMPTY then EMPTY else 1 - x }

  /** After the pie swap the position reads like the one before with the colours exchanged. */
  lemma SwapExchangesColours(c: Config, log: seq<Action>)
    requires ValidConfig(c) && Legal(c, log + [Swap])
    ensures Legal(c, log)
    ensures var p, q := Replay(c, log).value, Replay(c, log + [Swap]).value;
      && (forall u :: 0 <= u < c.nodes ==> u < |p.stones| && u < |q.stones| && q.stones[u] == Exchanged(p.stones[u]))
      && q.toMove == 1 - p.toMove && q.movesLeft == p.movesLeft == TurnSize(c, 1) && q.placed == p.placed == 1
  {
    LegalAppend(c, log, Swap);
    LegalLogInv(c, log);
  }
}
