/** What each command of the store does. */
module Commands {
  // The store's other results say what no command may lose. These say what a command that is
  // allowed must achieve, in the live state and in what the archive offers.

  import opened Results
  import opened Sequences
  import opened Game
  import opened GameLibrary
  import opened Store

  // Positions, by the log alone.

  /** The nodes below n on which the log places no stone. */
  function Unplaced(log: seq<Action>, n: nat): nat
  {
    if n == 0 then 0 else Unplaced(log, n - 1) + (if Place(n - 1) in log then 0 else 1)
  }

  lemma {:induction false} EmptyIsUnplaced(stones: seq<int>, log: seq<Action>)
    requires forall u :: 0 <= u < |stones| ==> (stones[u] != EMPTY <==> Place(u) in log)
    ensures |stones| - Occupied(stones) == Unplaced(log, |stones|)
  {
    if stones != [] {
      EmptyIsUnplaced(stones[..|stones|-1], log);
    }
  }

  /** The board is full. */
  predicate IsFull(c: Config, log: seq<Action>) { forall u :: 0 <= u < c.nodes ==> Place(u) in log }

  /** The second player may still take the opener's stone. */
  predicate SwapPending(c: Config, log: seq<Action>) { c.pieRule && |log| == 1 && !IsFull(c, log) }

  lemma PositionByLog(c: Config, log: seq<Action>)
    requires ValidConfig(c) && Legal(c, log)
    ensures var p := Replay(c, log).value;
      && |p.stones| == c.nodes && |p.stones| - Occupied(p.stones) == Unplaced(log, c.nodes)
      && (p.over <==> IsFull(c, log)) && (p.canSwap <==> SwapPending(c, log))
  {
    LegalGames(c, log);
    LegalLogInv(c, log);
    var p := Replay(c, log).value;
    EmptyIsUnplaced(p.stones, log);
    if |log| == 1 { OneAction(c, log); }
    hide Replay, Occupied, Unplaced, Distinct;
  }

  lemma OneAction(c: Config, log: seq<Action>)
    requires ValidConfig(c) && Legal(c, log) && |log| == 1
    ensures var p := Replay(c, log).value; c.pieRule && !p.over ==> p.canSwap
  {
    assert log[..0] == [] && Replay(c, []) == Some(Initial(c));
  }

  // One step of a clean world.

  /** The live game is offered as it is, and every other record as before. */
  ghost predicate Recorded(before: Records, after: Records, next: App)
  {
    && (next.playing ==>
          && next.gameId.Some? && next.gameId.value in after
          && after[next.gameId.value] == Record(next.gameId.value, next.config, next.meta, next.log, next.outcome))
    && (forall id :: Some(id) != next.gameId ==> (id in after <==> id in before))
    && (forall id :: id in before && Some(id) != next.gameId ==> id in after && after[id] == before[id])
  }

  /** The command leads to this live state, and the archive offers it. */
  ghost predicate Does(judge: Judge, w: World, i: Input, next: App)
  {
    Step(judge, w, i).app == next && Recorded(View(w.archive), View(Step(judge, w, i).archive), next)
  }

  lemma UpdateDoes(judge: Judge, w: World, i: Input, next: App)
    requires Clean(judge, w) && Update(judge, w.app, i.command, i.own) == Some(next)
    ensures Does(judge, w, i, next)
  {
    UpdateKeepsInv(judge, w.app, i.command, i.own);
    AppliedView(judge, w, next, i);
    ShapeOf(judge, next);
    if w.app.playing { LiveIsOffered(judge, w); }
    hide AppInv, Clean, View, Applied, Update;
  }

  lemma LiveIsOffered(judge: Judge, w: World)
    requires Clean(judge, w) && w.app.playing
    ensures w.app.gameId.Some? && w.app.gameId.value in View(w.archive)
    ensures View(w.archive)[w.app.gameId.value] == Record(w.app.gameId.value, w.app.config, w.app.meta, w.app.log, w.app.outcome)
  {
    hide View;
  }

  /** The winner that the position guarantees can still be claimed. */
  predicate Guaranteed(judge: Judge, s: App, winner: int)
  {
    && s.playing && s.outcome.None? && Player(winner) && Legal(s.config, s.log)
    && !IsFull(s.config, s.log) && !SwapPending(s.config, s.log) && judge(Replay(s.config, s.log).value.stones) == Some(winner)
  }

  lemma CanClinchIsGuaranteed(judge: Judge, s: App, winner: int)
    requires AppInv(judge, s)
    ensures CanClinch(judge, s, winner) <==> Guaranteed(judge, s, winner)
    ensures s.playing ==> Legal(s.config, s.log)
    ensures s.playing ==> |Replay(s.config, s.log).value.stones| - Occupied(Replay(s.config, s.log).value.stones) == Unplaced(s.log, s.config.nodes)
  {
    if s.playing { PositionByLog(s.config, s.log); }
    hide Replay, Occupied, Unplaced, IsFull, SwapPending;
  }

  /** Claiming a guaranteed win ends the game: the result counts the nodes without a stone, and is archived. */
  lemma ClaimEndsGame(judge: Judge, w: World, i: Input, winner: int)
    requires Clean(judge, w) && i.command == EndClinchedGame(winner)
    ensures var s := w.app;
      var o := Clinch(winner, 1 - winner, Unplaced(s.log, s.config.nodes));
      if Guaranteed(judge, s, winner)
      then Does(judge, w, i, s.(outcome := Some(o), ack := Some(Ack(winner, |s.log|))))
           && ResultKept(View(Step(judge, w, i).archive), s.config, s.log, o)
      else Step(judge, w, i) == w
  {
    var s := w.app;
    CanClinchIsGuaranteed(judge, s, winner);
    hide Guaranteed, CanClinch, Unplaced, Clean, AppInv, Replay, Occupied, Applied;
    if Guaranteed(judge, s, winner) {
      var o := Clinch(winner, 1 - winner, Unplaced(s.log, s.config.nodes));
      var next := s.(outcome := Some(o), ack := Some(Ack(winner, |s.log|)));
      UpdateDoes(judge, w, i, next);
      IsPlaying(judge, s, winner);
      Holds(judge, w, i, next, o);
    }
  }

  lemma IsPlaying(judge: Judge, s: App, winner: int)
    requires Guaranteed(judge, s, winner)
    ensures s.playing
  {
  }

  lemma Holds(judge: Judge, w: World, i: Input, next: App, o: Outcome)
    requires Does(judge, w, i, next) && next.playing && next.outcome == Some(o)
    ensures ResultKept(View(Step(judge, w, i).archive), next.config, next.log, o)
  {
    hide View, Step;
    assert HoldsResult(View(Step(judge, w, i).archive), next.gameId.value, next.config, next.log, o);
  }

  /** Acknowledging it notes where, and goes on. */
  lemma AcknowledgingNotes(judge: Judge, w: World, i: Input, winner: int)
    requires Clean(judge, w) && i.command == AcknowledgeClinch(winner)
    ensures if Guaranteed(judge, w.app, winner) then Does(judge, w, i, w.app.(ack := Some(Ack(winner, |w.app.log|))))
      else Step(judge, w, i) == w
  {
    CanClinchIsGuaranteed(judge, w.app, winner);
    hide Guaranteed, CanClinch, Unplaced, Clean, AppInv, Replay, Occupied, Applied;
    if Guaranteed(judge, w.app, winner) {
      UpdateDoes(judge, w, i, w.app.(ack := Some(Ack(winner, |w.app.log|))));
    }
  }

  /** Resigning a game that is not over loses it, and the result is archived. */
  lemma ResigningEndsGame(judge: Judge, w: World, i: Input, loser: int)
    requires Clean(judge, w) && i.command == Resign(loser)
    ensures var s, o := w.app, Resignation(1 - loser, loser);
      if s.playing && s.outcome.None? && Player(loser) && !IsFull(s.config, s.log)
      then Does(judge, w, i, s.(outcome := Some(o))) && ResultKept(View(Step(judge, w, i).archive), s.config, s.log, o)
      else Step(judge, w, i) == w
  {
    var s, o := w.app, Resignation(1 - loser, loser);
    ShapeOf(judge, s);
    if s.playing {
      LegalIfPlaying(judge, s);
      PositionByLog(s.config, s.log);
    }
    hide Clean, AppInv, Replay, Occupied, Applied, IsFull, SwapPending, Unplaced, ResultKept;
    if CanResign(s, loser) {
      UpdateDoes(judge, w, i, s.(outcome := Some(o)));
      Holds(judge, w, i, s.(outcome := Some(o)), o);
    }
  }

  lemma LegalIfPlaying(judge: Judge, s: App)
    requires AppInv(judge, s) && s.playing
    ensures ValidConfig(s.config) && Legal(s.config, s.log)
  {
  }

  /** A legal action of an unfinished game is played, and drops what could be redone; an illegal one changes nothing. */
  lemma ActionsArePlayed(judge: Judge, w: World, i: Input, a: Action)
    requires Clean(judge, w) && i.command == Act(a)
    ensures var s := w.app;
      var branched := s.redo != [] && s.ack.Some? && |s.log| < s.ack.value.atLogLength;
      if s.playing && s.outcome.None? && Legal(s.config, s.log + [a])
      then Does(judge, w, i, s.(log := s.log + [a], redo := [], ack := if branched then None else s.ack))
      else Step(judge, w, i) == w
  {
    var s := w.app;
    LegalAppend(s.config, s.log, a);
    hide Clean, AppInv, Replay, Occupied, Applied;
    if CanAct(s, a) {
      var branched := s.redo != [] && s.ack.Some? && |s.log| < s.ack.value.atLogLength;
      UpdateDoes(judge, w, i, s.(log := s.log + [a], redo := [], ack := if branched then None else s.ack));
    }
  }

  /** Undo takes back the last action and any result, under a new identity where the line would otherwise be lost. */
  lemma UndoTakesBack(judge: Judge, w: World, i: Input)
    requires Clean(judge, w) && i.command == Undo
    ensures var s := w.app;
      if s.log == [] then Step(judge, w, i) == w
      else
        var last := |s.log| - 1;
        Does(judge, w, i, s.(gameId := if s.redo == [] || s.outcome.Some? then Some(i.own) else s.gameId,
                             log := s.log[..last], redo := s.redo + [s.log[last]], outcome := None))
  {
    var s := w.app;
    hide Clean, AppInv, Replay, Occupied, Applied;
    if s.log != [] {
      var last := |s.log| - 1;
      UpdateDoes(judge, w, i, s.(gameId := if s.redo == [] || s.outcome.Some? then Some(i.own) else s.gameId,
                                 log := s.log[..last], redo := s.redo + [s.log[last]], outcome := None));
    }
  }

  /** Redo plays the action undone last. */
  lemma RedoPlaysAgain(judge: Judge, w: World, i: Input)
    requires Clean(judge, w) && i.command == Redo
    ensures var s := w.app;
      if s.redo == [] then Step(judge, w, i) == w
      else
        var last := |s.redo| - 1;
        Does(judge, w, i, s.(log := s.log + [s.redo[last]], redo := s.redo[..last], outcome := None))
  {
    var s := w.app;
    hide Clean, AppInv, Replay, Occupied, Applied;
    if s.redo != [] {
      var last := |s.redo| - 1;
      UpdateDoes(judge, w, i, s.(log := s.log + [s.redo[last]], redo := s.redo[..last], outcome := None));
    }
  }

  /** Rules that a game can be started with: a board, up to nine opening stones, and a swap only after a single one. */
  predicate CanStart(c: Config) { c.nodes >= 1 && c.handicap in {1, 2, 3, 4, 5, 6, 7, 8, 9} && (c.handicap != 1 ==> !c.pieRule) }

  /** A new game, or a rematch, starts empty under the new identity; only the largest board without a swap has a handicap. */
  lemma NewGamesStart(judge: Judge, w: World, i: Input)
    requires Clean(judge, w) && (i.command.Rematch? || i.command.StartGame?)
    ensures var asked := if i.command.StartGame? then i.command.config else w.app.config;
      var next := Step(judge, w, i).app;
      if i.command.StartGame? && !CanStart(asked) then Step(judge, w, i) == w
      else
        && Does(judge, w, i, next)
        && next.playing && next.gameId == Some(i.own) && next.log == [] && next.redo == [] && next.outcome.None? && next.ack.None?
        && next.meta == (if i.command.StartGame? then i.command.meta else w.app.meta)
        && next.config.rings == asked.rings && next.config.nodes == asked.nodes && next.config.mode == asked.mode
        && next.config.handicap == (if asked.rings == 10 && !asked.pieRule then asked.handicap else 1)
        && (next.config.pieRule <==> next.config.handicap == 1)
  {
    hide Clean, AppInv, Replay, Occupied, Applied;
    var update := Update(judge, w.app, i.command, i.own);
    if update.Some? { UpdateDoes(judge, w, i, update.value); }
  }

  /** Going back to the setup ends the live game and leaves its record. */
  lemma SetupLeavesRecords(judge: Judge, w: World, i: Input)
    requires Clean(judge, w) && i.command == ToSetup
    ensures !Step(judge, w, i).app.playing && View(Step(judge, w, i).archive) == View(w.archive)
  {
    UpdateKeepsInv(judge, w.app, i.command, i.own);
    AppliedView(judge, w, Update(judge, w.app, i.command, i.own).value, i);
    hide Clean, AppInv, View;
  }

  /** Other players are noted, also in the record of a game that is on. */
  lemma PlayersChange(judge: Judge, w: World, i: Input, meta: int)
    requires Clean(judge, w) && i.command == ChangePlayers(meta)
    ensures Does(judge, w, i, w.app.(meta := meta))
  {
    hide Clean, AppInv, Replay, Occupied, Applied;
    UpdateDoes(judge, w, i, w.app.(meta := meta));
  }

  /** A result that the log bears out: somebody resigned an unfinished game, or a guaranteed win was claimed in one. */
  predicate BornOut(judge: Judge, c: Config, log: seq<Action>, o: Outcome)
    requires Legal(c, log)
  {
    && !IsFull(c, log) && Player(o.winner) && Player(o.loser) && o.winner != o.loser
    && (o.Clinch? ==>
          && !SwapPending(c, log) && judge(Replay(c, log).value.stones) == Some(o.winner)
          && o.emptyNodes == Unplaced(log, c.nodes))
  }

  /** The strict validation lets through exactly the supported, legal records whose result the log bears out. */
  lemma RecordsAreChecked(judge: Judge, r: Record)
    ensures ValidRecord(judge, r) <==>
      && CanStart(r.config) && Legal(r.config, r.log)
      && (r.outcome.Some? ==> BornOut(judge, r.config, r.log, r.outcome.value))
  {
    if ValidConfig(r.config) && Legal(r.config, r.log) {
      PositionByLog(r.config, r.log);
      LegalGames(r.config, r.log);
      if !IsFull(r.config, r.log) { SomeUnplaced(r.log, r.config.nodes); }
    }
    hide Replay, Occupied, Unplaced, Distinct;
  }

  lemma {:induction false} SomeUnplaced(log: seq<Action>, n: nat)
    requires exists u :: 0 <= u < n && Place(u) !in log
    ensures Unplaced(log, n) > 0
  {
    if Place(n - 1) in log { SomeUnplaced(log, n - 1); }
  }

  // Two tabs.

  /**
   When another tab has saved a different continuation under the live identity, no step
   overwrites it. The step continues under a fresh identity, and a line that is left is
   kept under one as well.
   */
  lemma OtherTabIsKept(judge: Judge, w: World, i: Input, next: App)
    requires AppInv(judge, w.app) && w.app.playing && Conflicts(judge, w.archive, RecordOf(w.app).value)
    requires Update(judge, w.app, i.command, i.own) == Some(next)
    requires i.own !in View(w.archive) && i.second !in View(w.archive) && i.third !in View(w.archive)
    requires i.own != i.second && i.second != i.third && i.third != i.own
    ensures var theirs, before, after := w.app.gameId.value, View(w.archive), View(Step(judge, w, i).archive);
      && theirs in before && theirs in after && after[theirs] == before[theirs]
      && (next.gameId != w.app.gameId ==> Kept(after, w.app.config, w.app.log))
      && (Changed(w.app, next) ==> Kept(after, next.config, next.log) && Step(judge, w, i).app.gameId != w.app.gameId)
  {
    var s := w.app;
    UpdateKeepsInv(judge, s, i.command, i.own);
    ShapeOf(judge, s);
    ShapeOf(judge, next);
    IdentityAfter(judge, s, i.command, i.own);
    var before, mine, renamed := View(w.archive), s.(gameId := Some(i.third)), next.(gameId := Some(i.second));
    RenamedInv(judge, s, i.third);
    var conflict := Changed(s, next) || next.playing != s.playing;
    var leaves := !next.playing || next.gameId != s.gameId;
    ArchivedView(judge, w.archive, mine, i.leaving);
    var left := if leaves then Archived(judge, w.archive, if conflict then mine else s, i.leaving) else w.archive;
    var now := if Changed(s, next) && next.gameId == s.gameId then renamed else next;
    if Changed(s, next) {
      RenamedInv(judge, next, i.second);
      ArchivedView(judge, left, now, i.saving);
    }
    LeavingIsChange(s, next);
    SteppedArchive(judge, w, i, next, mine, now, left);
    hide AppInv, View, Update, Archived, Conflicts, Applied, Step, Changed;
    var after := View(Step(judge, w, i).archive);
    if leaves {
      assert Continues(View(left), i.third, s.config, s.log);
      assert Continues(after, i.third, s.config, s.log);
    }
    if Changed(s, next) { assert Continues(after, now.gameId.value, next.config, next.log); }
  }

  /** Renaming a game changes nothing else about it. */
  lemma RenamedInv(judge: Judge, s: App, id: Id)
    requires AppInv(judge, s) && s.playing
    ensures AppInv(judge, s.(gameId := Some(id)))
  {
    hide Replay, ClinchedBy, ProvenOutcome, ValidAck, Reversed;
    assert Complete(s.(gameId := Some(id))) == Complete(s);
  }

  lemma IdentityAfter(judge: Judge, s: App, command: Command, own: Id)
    requires AppInv(judge, s) && s.playing
    ensures var next := Update(judge, s, command, own); next.Some? ==> next.value.gameId in {None, s.gameId, Some(own)}
  {
    hide Replay, ClinchedBy, Legal, Reversed, ValidAck, ProvenOutcome, Occupied;
  }

  lemma LeavingIsChange(s: App, next: App)
    requires s.playing
    ensures !next.playing || next.gameId != s.gameId ==> Changed(s, next) || next.playing != s.playing
    ensures Changed(s, next) ==> next.playing
  {
  }

  lemma SteppedArchive(judge: Judge, w: World, i: Input, next: App, mine: App, now: App, left: Archive)
    requires w.app.playing && w.app.gameId.Some? && Conflicts(judge, w.archive, RecordOf(w.app).value)
    requires Update(judge, w.app, i.command, i.own) == Some(next) && (next.playing ==> next.gameId.Some?)
    requires mine == w.app.(gameId := Some(i.third))
    requires now == if Changed(w.app, next) && next.gameId == w.app.gameId then next.(gameId := Some(i.second)) else next
    requires left == if !next.playing || next.gameId != w.app.gameId
      then Archived(judge, w.archive, if Changed(w.app, next) || next.playing != w.app.playing then mine else w.app, i.leaving) else w.archive
    ensures Step(judge, w, i).app == now
    ensures Step(judge, w, i).archive == if Changed(w.app, next) then Archived(judge, left, now, i.saving) else left
  {
    hide Update, Archived, Conflicts;
  }
}
