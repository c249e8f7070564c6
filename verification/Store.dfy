/** The game store: undo, redo, results, archive. */
module Store {
  // No line of play that was ever live is lost, and what is persisted needs no repair.

  import opened Results
  import opened Game
  import opened GameLibrary
  import opened Sequences

  const MAX_RINGS := 10

  /** The first position whose clinch was acknowledged, by its number of actions. */
  datatype Ack = Ack(winner: int, atLogLength: int)

  /** The store's fields that history, results and the archive depend on. */
  datatype App = App(playing: bool, gameId: Option<Id>, config: Config, meta: int, log: seq<Action>, redo: seq<Action>,
                     outcome: Option<Outcome>, ack: Option<Ack>)

  datatype Command =
    | StartGame(config: Config, meta: int)
    | Act(action: Action)
    | Undo
    | Redo
    | RewindTo(ply: int)
    | Rematch
    | ToSetup
    | AcknowledgeClinch(winner: int)
    | EndClinchedGame(winner: int)
    | Resign(loser: int)
    | ChangePlayers(meta: int)

  /** The log continued by everything that redo would replay. */
  function Complete(s: App): seq<Action> { s.log + Reversed(s.redo) }

  function NewGameConfig(c: Config): Config
  {
    var handicap := if c.rings == MAX_RINGS && !c.pieRule then c.handicap else 1;
    c.(pieRule := handicap == 1, handicap := handicap)
  }

  /** The winner that a position guarantees, where a clinch may be claimed. */
  function ClinchedBy(judge: Judge, c: Config, log: seq<Action>): Option<int>
  {
    var p := Replay(c, log);
    if p.None? || p.value.over || p.value.canSwap then None else judge(p.value.stones)
  }

  predicate CanAct(s: App, a: Action)
  {
    && s.playing && s.outcome.None? && (a.Place? ==> a.node >= 0)
    && Legal(s.config, s.log) && IsLegal(s.config, Replay(s.config, s.log).value, a)
  }

  predicate CanClinch(judge: Judge, s: App, winner: int)
  {
    s.playing && s.outcome.None? && Player(winner) && ClinchedBy(judge, s.config, s.log) == Some(winner)
  }

  predicate CanResign(s: App, loser: int)
  {
    s.playing && Player(loser) && Legal(s.config, s.log) && !Replay(s.config, s.log).value.over && s.outcome.None?
  }

  /** Leaving the tip of a line, or an ended game, continues under a new identity. */
  function Rewound(s: App, ply: nat, own: Id): App
    requires ply <= |s.log|
  {
    s.(gameId := if s.redo == [] || s.outcome.Some? then Some(own) else s.gameId,
       log := s.log[..ply], redo := s.redo + Reversed(s.log[ply..]), outcome := None)
  }

  function Fresh(config: Config, meta: int, own: Id): App
  {
    App(true, Some(own), config, meta, [], [], None, None)
  }

  /** What a command's update function returns; None when it returns the state itself. */
  function Update(judge: Judge, s: App, command: Command, own: Id): Option<App>
  {
    match command
    case StartGame(config, meta) =>
      if ValidConfig(config) then Some(Fresh(NewGameConfig(config), meta, own)) else None
    case Act(a) =>
      if !CanAct(s, a) then None
      else
        var branched := s.redo != [] && s.ack.Some? && |s.log| < s.ack.value.atLogLength;
        Some(s.(log := s.log + [a], redo := [], ack := if branched then None else s.ack))
    case Undo =>
      if s.log == [] then None
      else Some(s.(gameId := if s.redo == [] || s.outcome.Some? then Some(own) else s.gameId,
                   log := s.log[..|s.log|-1], redo := s.redo + [s.log[|s.log|-1]], outcome := None))
    case Redo =>
      if s.redo == [] then None
      else Some(s.(log := s.log + [s.redo[|s.redo|-1]], redo := s.redo[..|s.redo|-1], outcome := None))
    case RewindTo(ply) =>
      if !(0 <= ply < |s.log|) then None else Some(Rewound(s, ply, own))
    case Rematch => Some(Fresh(NewGameConfig(s.config), s.meta, own))
    case ToSetup => Some(s.(playing := false, gameId := None, log := [], redo := [], outcome := None, ack := None))
    case AcknowledgeClinch(winner) =>
      if CanClinch(judge, s, winner) then Some(s.(ack := Some(Ack(winner, |s.log|)))) else None
    case EndClinchedGame(winner) =>
      if !CanClinch(judge, s, winner) then None
      else
        var stones := Replay(s.config, s.log).value.stones;
        Some(s.(outcome := Some(Clinch(winner, 1 - winner, |stones| - Occupied(stones))), ack := Some(Ack(winner, |s.log|))))
    case Resign(loser) =>
      if CanResign(s, loser) then Some(s.(outcome := Some(Resignation(1 - loser, loser)))) else None
    case ChangePlayers(meta) => Some(s.(meta := meta))
  }

  function RecordOf(s: App): Option<Record>
  {
    if s.playing && s.gameId.Some? then Some(Record(s.gameId.value, s.config, s.meta, s.log, s.outcome)) else None
  }

  function Archived(judge: Judge, a: Archive, s: App, writes: Writes): Archive
  {
    if RecordOf(s).Some? then Saved(judge, a, RecordOf(s).value, writes) else a
  }

  predicate Changed(previous: App, next: App)
  {
    next.playing && (!previous.playing || next.gameId != previous.gameId || next.config != previous.config
                     || next.meta != previous.meta || next.log != previous.log || next.outcome != previous.outcome)
  }

  datatype World = World(app: App, archive: Archive)

  /** A command with the identities it may draw and the fate of the writes it causes. */
  datatype Input = Input(command: Command, own: Id, second: Id, third: Id, leaving: Writes, saving: Writes)

  /** The store's set: fork on a conflict, archive what is left, then archive what is new. */
  function Applied(judge: Judge, w: World, patched: App, i: Input): World
  {
    var previous := w.app;
    var changed := Changed(previous, patched);
    var record := RecordOf(previous);
    var conflict := (changed || patched.playing != previous.playing) && record.Some? && Conflicts(judge, w.archive, record.value);
    var next := if changed && (patched.gameId.None? || (conflict && patched.gameId == previous.gameId))
                then patched.(gameId := Some(i.second)) else patched;
    var left := if previous.playing && (!patched.playing || patched.gameId != previous.gameId)
                then Archived(judge, w.archive, if conflict then previous.(gameId := Some(i.third)) else previous, i.leaving)
                else w.archive;
    World(next, if changed then Archived(judge, left, next, i.saving) else left)
  }

  function Step(judge: Judge, w: World, i: Input): World
  {
    var patched := Update(judge, w.app, i.command, i.own);
    if patched.None? then w else Applied(judge, w, patched.value, i)
  }

  /** The store over a real archive. */
  class GameStore {
    var app: App
    const library: Library

    function State(): World
      reads this, library
    {
      World(app, library.Contents())
    }

    constructor (library: Library, app: App)
      ensures this.library == library && this.app == app
    {
      this.library := library;
      this.app := app;
    }

    method Save(judge: Judge, s: App, writes: Writes)
      requires library.Loaded()
      modifies library
      ensures library.Loaded() && library.Contents() == Archived(judge, old(library.Contents()), s, writes)
    {
      var record := RecordOf(s);
      if record.Some? {
        var ok := library.Save(judge, record.value, writes);
      }
    }

    method Set(judge: Judge, patched: App, i: Input)
      requires library.Loaded()
      modifies this, library
      ensures library.Loaded() && State() == Applied(judge, old(State()), patched, i)
    {
      hide Archived, Changed, Conflicts, RecordOf;
      var previous := app;
      var changed := Changed(previous, patched);
      var record := RecordOf(previous);
      var conflict := (changed || patched.playing != previous.playing) && record.Some? && Conflicts(judge, library.Contents(), record.value);
      var next := patched;
      if changed && (patched.gameId.None? || (conflict && patched.gameId == previous.gameId)) {
        next := patched.(gameId := Some(i.second));
      }
      if previous.playing && (!patched.playing || patched.gameId != previous.gameId) {
        Save(judge, if conflict then previous.(gameId := Some(i.third)) else previous, i.leaving);
      }
      app := next;
      if changed {
        Save(judge, app, i.saving);
      }
    }

    method Dispatch(judge: Judge, i: Input)
      requires library.Loaded()
      modifies this, library
      ensures library.Loaded() && State() == Step(judge, old(State()), i)
    {
      var patched := Update(judge, app, i.command, i.own);
      if patched.Some? {
        Set(judge, patched.value, i);
      }
    }
  }

  // What every reachable state satisfies.

  predicate ValidAck(judge: Judge, c: Config, line: seq<Action>, a: Ack)
  {
    Player(a.winner) && 0 <= a.atLogLength <= |line| && ClinchedBy(judge, c, line[..a.atLogLength]) == Some(a.winner)
  }

  predicate AppInv(judge: Judge, s: App)
  {
    && ValidConfig(s.config)
    && (!s.playing ==> s.gameId.None? && s.log == [] && s.redo == [] && s.outcome.None? && s.ack.None?)
    && (s.playing ==>
          && s.gameId.Some? && Legal(s.config, Complete(s)) && Legal(s.config, s.log)
          && (s.outcome.Some? ==> ProvenOutcome(judge, s.config, Replay(s.config, s.log).value, s.outcome.value))
          && (s.ack.Some? ==> ValidAck(judge, s.config, Complete(s), s.ack.value)))
  }

  lemma RewindKeepsComplete(s: App, ply: nat, own: Id)
    requires ply <= |s.log|
    ensures Complete(Rewound(s, ply, own)) == Complete(s)
  {
    hide Reversed;
    ReversedAppend(s.redo, Reversed(s.log[ply..]));
    ReversedTwice(s.log[ply..]);
    assert s.log[..ply] + s.log[ply..] == s.log;
    assert s.log[..ply] + (s.log[ply..] + Reversed(s.redo)) == s.log + Reversed(s.redo);
  }

  lemma UndoIsRewind(judge: Judge, s: App, own: Id)
    requires s.log != []
    ensures Update(judge, s, Undo, own) == Some(Rewound(s, |s.log| - 1, own))
  {
    var last := s.log[|s.log|-1..];
    assert last == [s.log[|s.log|-1]];
    assert Reversed(last) == last;
  }

  lemma RedoKeepsComplete(s: App)
    requires s.redo != []
    ensures s.log + [s.redo[|s.redo|-1]] + Reversed(s.redo[..|s.redo|-1]) == Complete(s)
  {
  }

  /** Every command keeps the invariant. */
  lemma UpdateKeepsInv(judge: Judge, s: App, command: Command, own: Id)
    requires AppInv(judge, s)
    ensures var next := Update(judge, s, command, own); next.Some? ==> AppInv(judge, next.value)
  {
    hide Replay, ClinchedBy, ProvenOutcome, Occupied, Reversed, ValidAck;
    var next := Update(judge, s, command, own);
    if next.Some? {
      match command {
        case StartGame(config, meta) => FreshInv(judge, NewGameConfig(config), meta, own);
        case Act(a) => ActKeepsInv(judge, s, a);
        case Undo => UndoIsRewind(judge, s, own); RewindKeepsInv(judge, s, |s.log| - 1, own);
        case Redo => RedoKeepsInv(judge, s, own);
        case RewindTo(ply) => RewindKeepsInv(judge, s, ply, own);
        case Rematch => FreshInv(judge, NewGameConfig(s.config), s.meta, own);
        case ToSetup =>
        case AcknowledgeClinch(winner) => ClinchKeepsInv(judge, s, winner);
        case EndClinchedGame(winner) => ClinchKeepsInv(judge, s, winner);
        case Resign(loser) => ResignKeepsInv(judge, s, loser);
        case ChangePlayers(_) =>
      }
    }
  }

  lemma ResignKeepsInv(judge: Judge, s: App, loser: int)
    requires AppInv(judge, s) && CanResign(s, loser)
    ensures AppInv(judge, s.(outcome := Some(Resignation(1 - loser, loser))))
  {
    hide Replay, ValidAck, Reversed;
  }

  lemma FreshInv(judge: Judge, config: Config, meta: int, own: Id)
    requires ValidConfig(config)
    ensures AppInv(judge, Fresh(config, meta, own))
  {
    assert Replay(config, []) == Some(Initial(config));
    assert Complete(Fresh(config, meta, own)) == [];
  }

  lemma RewindKeepsInv(judge: Judge, s: App, ply: nat, own: Id)
    requires AppInv(judge, s) && s.playing && ply <= |s.log|
    ensures AppInv(judge, Rewound(s, ply, own))
  {
    RewindKeepsComplete(s, ply, own);
    LegalPrefix(s.config, s.log, ply);
  }

  lemma RedoKeepsInv(judge: Judge, s: App, own: Id)
    requires AppInv(judge, s) && s.playing && s.redo != []
    ensures AppInv(judge, Update(judge, s, Redo, own).value)
  {
    RedoKeepsComplete(s);
    var next := Update(judge, s, Redo, own).value;
    LegalPrefix(s.config, Complete(s), |next.log|);
    assert Complete(s)[..|next.log|] == next.log;
  }

  lemma ActKeepsInv(judge: Judge, s: App, a: Action)
    requires AppInv(judge, s) && CanAct(s, a)
    ensures AppInv(judge, Update(judge, s, Act(a), 0).value)
  {
    var next := Update(judge, s, Act(a), 0).value;
    LegalAppend(s.config, s.log, a);
    assert Complete(next) == next.log;
    if next.ack.Some? {
      var at := next.ack.value.atLogLength;
      if s.redo == [] { assert Complete(s) == s.log; }
      assert at <= |s.log|;
      assert next.log[..at] == s.log[..at] == Complete(s)[..at];
    }
  }

  lemma ClinchKeepsInv(judge: Judge, s: App, winner: int)
    requires AppInv(judge, s) && CanClinch(judge, s, winner)
    ensures AppInv(judge, Update(judge, s, AcknowledgeClinch(winner), 0).value)
    ensures AppInv(judge, Update(judge, s, EndClinchedGame(winner), 0).value)
  {
    assert Complete(s)[..|s.log|] == s.log;
    ClinchIsProven(judge, s.config, s.log, winner);
    hide Replay, ClinchedBy, ProvenOutcome, Occupied, Reversed;
    assert ValidAck(judge, s.config, Complete(s), Ack(winner, |s.log|));
  }

  lemma ClinchIsProven(judge: Judge, c: Config, log: seq<Action>, winner: int)
    requires ValidConfig(c) && Legal(c, log) && Player(winner) && ClinchedBy(judge, c, log) == Some(winner)
    ensures var p := Replay(c, log).value; ProvenOutcome(judge, c, p, Clinch(winner, 1 - winner, |p.stones| - Occupied(p.stones)))
  {
    LegalGames(c, log);
    LegalLogInv(c, log);
    hide Replay, Occupied;
  }

  // The archive beside the live line.

  type Records = map<Id, Record>

  /** Some archived record continues this line under the same rules. */
  ghost predicate Kept(view: Records, c: Config, log: seq<Action>)
  {
    exists id :: Continues(view, id, c, log)
  }

  predicate Continues(view: Records, id: Id, c: Config, log: seq<Action>)
  {
    id in view && view[id].config == c && log <= view[id].log
  }

  /** While there is something to redo, the whole line is archived under another identity. */
  ghost predicate TipIsArchived(view: Records, s: App)
    requires s.gameId.Some?
  {
    s.redo != [] ==> exists id :: id != s.gameId.value && Continues(view, id, s.config, Complete(s))
  }

  /** The live state and the archive agree. */
  ghost predicate InStep(view: Records, s: App)
  {
    s.playing && s.gameId.Some? ==>
      && s.gameId.value in view && view[s.gameId.value] == RecordOf(s).value
      && TipIsArchived(view, s)
  }

  ghost predicate Clean(judge: Judge, w: World)
  {
    AppInv(judge, w.app) && InStep(View(w.archive), w.app)
  }

  lemma RecordIsValid(judge: Judge, s: App)
    requires AppInv(judge, s) && s.playing
    ensures RecordOf(s).Some? && ValidRecord(judge, RecordOf(s).value)
  {
    LegalGames(s.config, s.log);
  }

  lemma NoConflict(judge: Judge, w: World)
    requires Clean(judge, w) && w.app.playing
    ensures !Conflicts(judge, w.archive, RecordOf(w.app).value)
  {
  }

  lemma ArchivedView(judge: Judge, a: Archive, s: App, writes: Writes)
    requires AppInv(judge, s) && s.playing
    ensures View(Archived(judge, a, s, writes)) == View(a)[s.gameId.value := RecordOf(s).value]
  {
    RecordIsValid(judge, s);
    SaveUpdatesView(judge, a, RecordOf(s).value, writes);
  }

  /** In a clean world a change archives the new state and disturbs no other record. */
  lemma AppliedView(judge: Judge, w: World, patched: App, i: Input)
    requires Clean(judge, w) && AppInv(judge, patched)
    ensures var after := Applied(judge, w, patched, i);
      && after.app == patched
      && View(after.archive) ==
           (if Changed(w.app, patched) then View(w.archive)[patched.gameId.value := RecordOf(patched).value] else View(w.archive))
  {
    var previous := w.app;
    if previous.playing {
      NoConflict(judge, w);
      ArchivedView(judge, w.archive, previous, i.leaving);
      assert View(w.archive)[previous.gameId.value := RecordOf(previous).value] == View(w.archive);
    }
    hide AppInv, Conflicts, ValidRecord, Saved, View;
    var left := if previous.playing && (!patched.playing || patched.gameId != previous.gameId)
                then Archived(judge, w.archive, previous, i.leaving) else w.archive;
    assert View(left) == View(w.archive);
    if patched.playing {
      ArchivedView(judge, left, patched, i.saving);
    }
  }

  /** The command draws a new identity. */
  predicate Draws(s: App, command: Command)
  {
    match command
    case StartGame(config, _) => ValidConfig(config)
    case Rematch => true
    case Undo => s.log != [] && (s.redo == [] || s.outcome.Some?)
    case RewindTo(ply) => 0 <= ply < |s.log| && (s.redo == [] || s.outcome.Some?)
    case _ => false
  }

  /** An identity that is drawn is one that no record carries. */
  ghost predicate FreshId(w: World, i: Input)
  {
    Draws(w.app, i.command) ==> i.own !in View(w.archive)
  }

  /** The states a command may produce from a state that the archive is in step with. */
  predicate Follows(s: App, next: App, own: Id, drawn: bool)
  {
    || !next.playing
    || (drawn && next.gameId == Some(own) && (next.redo == [] || (s.playing && next.config == s.config && Complete(next) == Complete(s))))
    || (s.playing && next.gameId == s.gameId && next.config == s.config
        && ((s.log <= next.log && next.redo == [])
            || (s.redo != [] && Complete(next) == Complete(s))
            || (next.log == s.log && next.redo == s.redo)))
  }

  lemma UpdateFollows(judge: Judge, s: App, command: Command, own: Id)
    requires AppInv(judge, s)
    ensures var next := Update(judge, s, command, own); next.Some? ==> Follows(s, next.value, own, Draws(s, command))
  {
    hide Replay, ClinchedBy, ProvenOutcome, Occupied, Reversed, Legal, Complete;
    match command {
      case Undo => if s.log != [] { UndoIsRewind(judge, s, own); RewindKeepsComplete(s, |s.log| - 1, own); }
      case RewindTo(ply) => if 0 <= ply < |s.log| { RewindKeepsComplete(s, ply, own); }
      case Redo => if s.redo != [] { RedoComplete(judge, s, own); }
      case _ =>
    }
  }

  lemma RedoComplete(judge: Judge, s: App, own: Id)
    requires s.redo != []
    ensures Complete(Update(judge, s, Redo, own).value) == Complete(s)
  {
    RedoKeepsComplete(s);
  }

  lemma PrefixTransitive(a: seq<Action>, b: seq<Action>, c: seq<Action>)
    requires a <= b && b <= c
    ensures a <= c
  {
  }

  /** What the archive offers after the state has become next. */
  function ViewAfter(view: Records, s: App, next: App): Records
  {
    if Changed(s, next) && next.gameId.Some? then view[next.gameId.value := RecordOf(next).value] else view
  }

  lemma OthersStay(view: Records, s: App, next: App, t: Id)
    requires t in view && next.gameId != Some(t)
    ensures t in ViewAfter(view, s, next) && ViewAfter(view, s, next)[t] == view[t]
  {
    hide Changed;
  }

  /** The tip of the line is archived under some identity other than the next state's. */
  lemma TipStaysArchived(view: Records, s: App, next: App, own: Id, drawn: bool)
    requires InStep(view, s) && s.playing && s.gameId.Some? && next.playing && next.gameId.Some?
    requires Follows(s, next, own, drawn) && (drawn ==> own !in view)
    ensures TipIsArchived(ViewAfter(view, s, next), next)
  {
    hide Reversed, Changed;
    if next.redo != [] {
      var after := ViewAfter(view, s, next);
      assert Complete(next) == Complete(s) && next.config == s.config;
      CompleteAtTip(s);
      if s.redo == [] {
        assert Continues(view, s.gameId.value, s.config, Complete(s));
      }
      var t :| t != next.gameId.value && Continues(view, t, s.config, Complete(s));
      assert Continues(view, t, s.config, Complete(s));
      OthersStay(view, s, next, t);
      assert Continues(after, t, next.config, Complete(next));
    }
  }

  lemma CompleteAtTip(s: App)
    ensures s.redo == [] ==> Complete(s) == s.log
    ensures s.log <= Complete(s)
  {
  }

  lemma LinesStayKept(view: Records, s: App, next: App, own: Id, drawn: bool, c: Config, log: seq<Action>)
    requires InStep(view, s) && (s.playing ==> s.gameId.Some?) && (next.playing ==> next.gameId.Some?)
    requires !s.playing ==> s.gameId.None?
    requires Follows(s, next, own, drawn) && (drawn ==> own !in view) && Kept(view, c, log)
    ensures Kept(ViewAfter(view, s, next), c, log)
  {
    hide Complete;
    var after := ViewAfter(view, s, next);
    var id :| Continues(view, id, c, log);
    if Changed(s, next) && next.gameId == Some(id) {
      assert s.gameId == next.gameId && view[id] == RecordOf(s).value;
      if s.log <= next.log {
        PrefixTransitive(log, s.log, next.log);
        assert Continues(after, id, c, log);
      } else {
        var t :| t != id && Continues(view, t, s.config, Complete(s));
        CompleteAtTip(s);
        PrefixTransitive(log, s.log, Complete(s));
        PrefixTransitive(log, Complete(s), view[t].log);
        assert Continues(after, t, c, log);
      }
    } else {
      assert Continues(after, id, c, log);
    }
  }

  /** Every step keeps the archive in step with the live line and keeps every archived line. */
  lemma StepKeepsLines(judge: Judge, w: World, i: Input)
    requires Clean(judge, w) && FreshId(w, i)
    ensures Clean(judge, Step(judge, w, i))
    ensures forall c, log :: Kept(View(w.archive), c, log) ==> Kept(View(Step(judge, w, i).archive), c, log)
  {
    var patched := Update(judge, w.app, i.command, i.own);
    if patched.Some? {
      var s, next, view := w.app, patched.value, View(w.archive);
      UpdateKeepsInv(judge, s, i.command, i.own);
      UpdateFollows(judge, s, i.command, i.own);
      AppliedView(judge, w, next, i);
      ShapeOf(judge, s);
      ShapeOf(judge, next);
      hide Update, Applied, AppInv, Follows, View, Changed, Kept, InStep;
      assert View(Step(judge, w, i).archive) == ViewAfter(view, s, next) by { ViewAfterIs(view, s, next); }
      NextInStep(view, s, next, i.own, Draws(s, i.command));
      forall c, log | Kept(view, c, log)
        ensures Kept(ViewAfter(view, s, next), c, log)
      {
        LinesStayKept(view, s, next, i.own, Draws(s, i.command), c, log);
      }
    }
  }

  lemma ShapeOf(judge: Judge, s: App)
    requires AppInv(judge, s)
    ensures s.playing <==> s.gameId.Some?
    ensures !s.playing ==> s.redo == [] && s.log == []
  {
  }

  lemma ViewAfterIs(view: Records, s: App, next: App)
    requires next.playing <==> next.gameId.Some?
    ensures ViewAfter(view, s, next) ==
      (if Changed(s, next) then view[next.gameId.value := RecordOf(next).value] else view)
  {
  }

  lemma NextInStep(view: Records, s: App, next: App, own: Id, drawn: bool)
    requires InStep(view, s) && Follows(s, next, own, drawn) && (drawn ==> own !in view)
    requires (s.playing <==> s.gameId.Some?) && (next.playing <==> next.gameId.Some?)
    requires !s.playing ==> s.redo == [] && s.log == []
    ensures InStep(ViewAfter(view, s, next), next)
  {
    hide Complete;
    if next.playing {
      if s.playing { TipStaysArchived(view, s, next, own, drawn); }
      else { CompleteAtTip(s); }
    }
  }

  // Whole runs.

  function Run(judge: Judge, w: World, inputs: seq<Input>): World
  {
    if inputs == [] then w else Step(judge, Run(judge, w, inputs[..|inputs|-1]), inputs[|inputs|-1])
  }

  /** Each step's new identity is one that no record carries at the time. */
  ghost predicate AllFresh(judge: Judge, w: World, inputs: seq<Input>)
  {
    forall k {:trigger inputs[k]} :: 0 <= k < |inputs| ==> FreshId(Run(judge, w, inputs[..k]), inputs[k])
  }

  lemma FreshPrefix(judge: Judge, w: World, inputs: seq<Input>, n: nat)
    requires AllFresh(judge, w, inputs) && n <= |inputs|
    ensures AllFresh(judge, w, inputs[..n])
  {
    forall k | 0 <= k < n
      ensures FreshId(Run(judge, w, inputs[..n][..k]), inputs[..n][k])
    {
      assert inputs[..n][..k] == inputs[..k];
    }
  }

  lemma {:induction false} RunIsClean(judge: Judge, w: World, inputs: seq<Input>)
    requires Clean(judge, w) && AllFresh(judge, w, inputs)
    ensures Clean(judge, Run(judge, w, inputs))
  {
    hide Clean, FreshId, Step;
    if inputs != [] {
      var k := |inputs| - 1;
      FreshPrefix(judge, w, inputs, k);
      RunIsClean(judge, w, inputs[..k]);
      assert FreshId(Run(judge, w, inputs[..k]), inputs[k]);
      StepKeepsLines(judge, Run(judge, w, inputs[..k]), inputs[k]);
    }
  }

  lemma {:induction false} RunKeepsLines(judge: Judge, w: World, inputs: seq<Input>, c: Config, log: seq<Action>)
    requires Clean(judge, w) && AllFresh(judge, w, inputs) && Kept(View(w.archive), c, log)
    ensures Kept(View(Run(judge, w, inputs).archive), c, log)
  {
    hide Clean, FreshId, Step, Kept;
    if inputs != [] {
      var k := |inputs| - 1;
      FreshPrefix(judge, w, inputs, k);
      RunKeepsLines(judge, w, inputs[..k], c, log);
      RunIsClean(judge, w, inputs[..k]);
      assert FreshId(Run(judge, w, inputs[..k]), inputs[k]);
      StepKeepsLines(judge, Run(judge, w, inputs[..k]), inputs[k]);
    }
  }

  lemma {:induction false} RunSplits(judge: Judge, w: World, inputs: seq<Input>, k: nat)
    requires k <= |inputs|
    ensures Run(judge, w, inputs) == Run(judge, Run(judge, w, inputs[..k]), inputs[k..])
  {
    if k == |inputs| {
      assert inputs[..k] == inputs;
    } else {
      var m := |inputs| - 1;
      RunSplits(judge, w, inputs[..m], k);
      assert inputs[..m][..k] == inputs[..k] && inputs[..m][k..] == inputs[k..][..m-k];
      assert inputs[k..][|inputs[k..]|-1] == inputs[m];
    }
  }

  lemma FreshRest(judge: Judge, w: World, inputs: seq<Input>, k: nat)
    requires k <= |inputs| && AllFresh(judge, w, inputs)
    ensures AllFresh(judge, Run(judge, w, inputs[..k]), inputs[k..])
  {
    forall j | 0 <= j < |inputs| - k
      ensures FreshId(Run(judge, Run(judge, w, inputs[..k]), inputs[k..][..j]), inputs[k..][j])
    {
      RunSplits(judge, w, inputs[..k+j], k);
      assert inputs[..k+j][..k] == inputs[..k] && inputs[..k+j][k..] == inputs[k..][..j];
      assert inputs[k..][j] == inputs[k+j];
    }
  }

  lemma LiveIsKept(judge: Judge, w: World)
    requires Clean(judge, w) && w.app.playing
    ensures Kept(View(w.archive), w.app.config, w.app.log)
  {
    assert Continues(View(w.archive), w.app.gameId.value, w.app.config, w.app.log);
  }

  /**
   No line of play is lost. In every run of commands, however many archive writes fail,
   a log that was live at any moment is at the end a prefix of the log of some record
   that the archive offers, under the same rules.
   */
  lemma NoLineIsLost(judge: Judge, w: World, inputs: seq<Input>, k: nat)
    requires Clean(judge, w) && AllFresh(judge, w, inputs) && k <= |inputs|
    ensures var then_, now := Run(judge, w, inputs[..k]), Run(judge, w, inputs);
      then_.app.playing ==> Kept(View(now.archive), then_.app.config, then_.app.log)
  {
    hide Clean, Kept;
    var before := Run(judge, w, inputs[..k]);
    FreshPrefix(judge, w, inputs, k);
    RunIsClean(judge, w, inputs[..k]);
    if before.app.playing {
      LiveIsKept(judge, before);
      FreshRest(judge, w, inputs, k);
      RunKeepsLines(judge, before, inputs[k..], before.app.config, before.app.log);
      RunSplits(judge, w, inputs, k);
    }
  }

  function EmptyStore(c: Config, meta: int): World
  {
    World(App(false, None, c, meta, [], [], None, None), Archive(map[], map[]))
  }

  /** An empty store is clean. */
  lemma EmptyStoreIsClean(judge: Judge, c: Config, meta: int)
    requires ValidConfig(c)
    ensures Clean(judge, EmptyStore(c, meta))
    ensures View(EmptyStore(c, meta).archive) == map[] && NothingFinished(View(EmptyStore(c, meta).archive))
  {
  }

  // Rewinding is undoing.

  /** n undos, drawing the same identity. */
  function Undone(judge: Judge, w: World, i: Input, n: nat): World
    decreases n
  {
    if n == 0 then w else Undone(judge, Step(judge, w, i.(command := Undo)), i, n - 1)
  }

  /** The state and the archive's offer. */
  ghost predicate SameOffer(a: World, b: World)
  {
    a.app == b.app && View(a.archive) == View(b.archive)
  }

  lemma RewoundTwice(s: App, ply: nat, own: Id)
    requires ply < |s.log|
    ensures Rewound(Rewound(s, |s.log| - 1, own), ply, own) == Rewound(s, ply, own)
  {
    var last := |s.log| - 1;
    var first := Rewound(s, last, own);
    assert s.log[..last][..ply] == s.log[..ply];
    assert s.log[ply..] == s.log[..last][ply..] + s.log[last..];
    ReversedAppend(s.log[ply..last], s.log[last..]);
    assert s.log[..last][ply..] == s.log[ply..last];
    assert Reversed(s.log[last..]) != [] by { ReversedTwice(s.log[last..]); }
    assert s.redo + Reversed(s.log[last..]) + Reversed(s.log[ply..last]) == s.redo + Reversed(s.log[ply..]);
  }

  /** What a rewind leaves on offer. */
  lemma RewoundOffer(judge: Judge, w: World, i: Input, ply: nat)
    requires Clean(judge, w) && w.app.playing && ply < |w.app.log|
    ensures var next := Rewound(w.app, ply, i.own);
      var after := Step(judge, w, i.(command := RewindTo(ply)));
      && next.playing && next.gameId.Some? && after.app == next
      && View(after.archive) == View(w.archive)[next.gameId.value := RecordOf(next).value]
  {
    var next := Rewound(w.app, ply, i.own);
    RewindKeepsInv(judge, w.app, ply, i.own);
    AppliedView(judge, w, next, i.(command := RewindTo(ply)));
  }

  /** Undoing once is rewinding by one, down to the archive writes. */
  lemma UndoStep(judge: Judge, w: World, i: Input)
    requires w.app.log != []
    ensures Step(judge, w, i.(command := Undo)) == Step(judge, w, i.(command := RewindTo(|w.app.log| - 1)))
  {
    UndoIsRewind(judge, w.app, i.own);
    assert Update(judge, w.app, Undo, i.own) == Update(judge, w.app, RewindTo(|w.app.log| - 1), i.own);
  }

  /**
   Rewinding to a ply is repeated undo: the same live state and the same records on
   offer. Only the first undo may draw an identity.
   */
  lemma {:induction false} RewindIsUndos(judge: Judge, w: World, i: Input, ply: nat)
    requires Clean(judge, w) && FreshId(w, i.(command := Undo)) && w.app.playing && ply < |w.app.log|
    ensures SameOffer(Step(judge, w, i.(command := RewindTo(ply))), Undone(judge, w, i, |w.app.log| - ply))
    decreases |w.app.log| - ply
  {
    hide Step, Clean, Rewound, View, FreshId;
    var last := |w.app.log| - 1;
    var w1 := Step(judge, w, i.(command := Undo));
    UndoStep(judge, w, i);
    if ply < last {
      RewindAfterUndo(judge, w, i, ply);
      RewindIsUndos(judge, w1, i, ply);
    }
  }

  /** Rewinding first by one and then to the ply leaves what rewinding to the ply leaves. */
  lemma RewindAfterUndo(judge: Judge, w: World, i: Input, ply: nat)
    requires Clean(judge, w) && FreshId(w, i.(command := Undo)) && w.app.playing && ply < |w.app.log| - 1
    ensures var w1 := Step(judge, w, i.(command := Undo));
      && Clean(judge, w1) && w1.app.playing && |w1.app.log| == |w.app.log| - 1 && FreshId(w1, i.(command := Undo))
      && SameOffer(Step(judge, w, i.(command := RewindTo(ply))), Step(judge, w1, i.(command := RewindTo(ply))))
  {
    hide Step, Clean, View, Update, Reversed, Rewound, FreshId, SameOffer, Kept;
    var s, last := w.app, |w.app.log| - 1;
    var w1, a := Step(judge, w, i.(command := Undo)), Step(judge, w, i.(command := RewindTo(ply)));
    UndoStep(judge, w, i);
    StepKeepsLines(judge, w, i.(command := Undo));
    RewoundOffer(judge, w, i, last);
    RewoundOffer(judge, w, i, ply);
    UndoneApp(s, i.own);
    NoDrawAfterUndo(w1, i);
    RewoundOffer(judge, w1, i, ply);
    RewoundTwice(s, ply, i.own);
    OneIdentity(s, last, ply, i.own);
    SetTwice(View(w.archive), a.app.gameId.value, RecordOf(w1.app).value, RecordOf(a.app).value);
    OffersSame(a, Step(judge, w1, i.(command := RewindTo(ply))));
  }

  lemma OffersSame(a: World, b: World)
    requires a.app == b.app && View(a.archive) == View(b.archive)
    ensures SameOffer(a, b)
  {
  }

  lemma NoDrawAfterUndo(w: World, i: Input)
    requires w.app.redo != [] && w.app.outcome.None?
    ensures FreshId(w, i.(command := Undo))
  {
  }

  lemma OneIdentity(s: App, p: nat, q: nat, own: Id)
    requires p <= |s.log| && q <= |s.log|
    ensures Rewound(s, p, own).gameId == Rewound(s, q, own).gameId
  {
  }

  lemma SetTwice(view: Records, id: Id, r1: Record, r2: Record)
    ensures view[id := r1][id := r2] == view[id := r2]
  {
  }

  lemma UndoneApp(s: App, own: Id)
    requires s.log != []
    ensures var u := Rewound(s, |s.log| - 1, own); u.redo != [] && u.outcome.None? && |u.log| == |s.log| - 1 && u.playing == s.playing
  {
    ReversedTwice(s.log[|s.log|-1..]);
  }

  /** Redo after undo brings back the log and the stack. */
  lemma RedoAfterUndo(judge: Judge, s: App, own: Id, other: Id)
    requires s.log != []
    ensures var u := Update(judge, s, Undo, own).value;
      var r := Update(judge, u, Redo, other).value;
      r.log == s.log && r.redo == s.redo && r.ack == s.ack && r.config == s.config
  {
  }

  /** Undo after a move takes back exactly that move and offers it for redo. */
  lemma UndoAfterAct(judge: Judge, s: App, a: Action, own: Id, other: Id)
    requires CanAct(s, a)
    ensures var u := Update(judge, Update(judge, s, Act(a), own).value, Undo, other).value;
      u.log == s.log && u.redo == [a] && u.config == s.config && u.outcome.None?
  {
  }

  // Results.

  /** Some record holds this line as finished with this result. */
  ghost predicate ResultKept(view: Records, c: Config, log: seq<Action>, o: Outcome)
  {
    exists id :: HoldsResult(view, id, c, log, o)
  }

  predicate HoldsResult(view: Records, id: Id, c: Config, log: seq<Action>, o: Outcome)
  {
    id in view && view[id].config == c && view[id].log == log && view[id].outcome == Some(o)
  }

  /** Another record than the live one holds the live result. */
  ghost predicate HeldElsewhere(view: Records, s: App)
    requires s.outcome.Some?
  {
    exists id :: Some(id) != s.gameId && HoldsResult(view, id, s.config, s.log, s.outcome.value)
  }

  /**
   An early result stays in the archive across every command except redo. Redo takes the
   result off the live game without a new identity, so its record is overwritten.
   */
  lemma ResultStaysUnlessRedone(judge: Judge, w: World, i: Input)
    requires Clean(judge, w) && FreshId(w, i) && w.app.playing && w.app.outcome.Some?
    ensures var s := w.app;
      ResultKept(View(Step(judge, w, i).archive), s.config, s.log, s.outcome.value) <==>
        (!(i.command.Redo? && s.redo != []) || HeldElsewhere(View(w.archive), s))
  {
    var s, view := w.app, View(w.archive);
    var patched := Update(judge, s, i.command, i.own);
    assert HoldsResult(view, s.gameId.value, s.config, s.log, s.outcome.value);
    if patched.Some? {
      var next := patched.value;
      UpdateKeepsInv(judge, s, i.command, i.own);
      AppliedView(judge, w, next, i);
      ShapeOf(judge, next);
      OutcomeAfter(judge, s, i.command, i.own);
      hide Update, Applied, AppInv, View, Changed, Clean;
      assert View(Step(judge, w, i).archive) == ViewAfter(view, s, next) by { ViewAfterIs(view, s, next); }
      ResultAfter(view, s, next, i.own, Draws(s, i.command), i.command.Redo? && s.redo != []);
    }
  }

  /** What becomes of the outcome and the identity of an ended game. */
  lemma OutcomeAfter(judge: Judge, s: App, command: Command, own: Id)
    requires AppInv(judge, s) && s.playing && s.outcome.Some?
    ensures var next := Update(judge, s, command, own);
      next.Some? ==>
        || !next.value.playing
        || (Draws(s, command) && next.value.gameId == Some(own))
        || (next.value.gameId == s.gameId && next.value.config == s.config
            && (if command.Redo? && s.redo != [] then next.value.outcome.None?
                else next.value.log == s.log && next.value.outcome == s.outcome))
    ensures command.Redo? && s.redo != [] ==> !Draws(s, command) && Update(judge, s, command, own).value.playing
  {
    hide Replay, ClinchedBy, ProvenOutcome, Occupied, Reversed, Legal;
  }

  lemma ResultAfter(view: Records, s: App, next: App, own: Id, drawn: bool, redone: bool)
    requires s.playing && s.gameId.Some? && s.outcome.Some? && (next.playing <==> next.gameId.Some?)
    requires s.gameId.value in view && view[s.gameId.value] == RecordOf(s).value
    requires drawn ==> own !in view
    requires redone ==> !drawn && next.playing
    requires || !next.playing || (drawn && next.gameId == Some(own))
             || (next.gameId == s.gameId && next.config == s.config
                 && (if redone then next.outcome.None? else next.log == s.log && next.outcome == s.outcome))
    ensures ResultKept(ViewAfter(view, s, next), s.config, s.log, s.outcome.value) <==> (!redone || HeldElsewhere(view, s))
  {
    var g, o, after := s.gameId.value, s.outcome.value, ViewAfter(view, s, next);
    assert HoldsResult(view, g, s.config, s.log, o);
    if !redone {
      if next.gameId != s.gameId { OthersStay(view, s, next, g); }
      assert HoldsResult(after, g, s.config, s.log, o);
    } else {
      forall id | id != g
        ensures HoldsResult(after, id, s.config, s.log, o) <==> HoldsResult(view, id, s.config, s.log, o)
      {
      }
      assert !HoldsResult(after, g, s.config, s.log, o);
    }
  }

  /** The command takes the result off a game by redoing a move. */
  predicate RedoesResult(s: App, command: Command)
  {
    command.Redo? && s.redo != [] && s.outcome.Some?
  }

  /** A result once archived stays, whoever is live, unless a redo takes it off the live game. */
  lemma StepKeepsResult(judge: Judge, w: World, i: Input, id: Id, c: Config, log: seq<Action>, o: Outcome)
    requires Clean(judge, w) && FreshId(w, i) && !RedoesResult(w.app, i.command)
    requires HoldsResult(View(w.archive), id, c, log, o)
    ensures HoldsResult(View(Step(judge, w, i).archive), id, c, log, o)
  {
    var s, view := w.app, View(w.archive);
    var patched := Update(judge, s, i.command, i.own);
    if patched.Some? {
      var next := patched.value;
      UpdateKeepsInv(judge, s, i.command, i.own);
      UpdateFollows(judge, s, i.command, i.own);
      AppliedView(judge, w, next, i);
      ShapeOf(judge, s);
      ShapeOf(judge, next);
      if s.playing && s.outcome.Some? { OutcomeAfter(judge, s, i.command, i.own); }
      hide Update, Applied, AppInv, View, Changed, Complete, Reversed, TipIsArchived;
      assert View(Step(judge, w, i).archive) == ViewAfter(view, s, next) by { ViewAfterIs(view, s, next); }
      if next.gameId != Some(id) { OthersStay(view, s, next, id); }
      else { assert s.gameId == Some(id) && view[id] == RecordOf(s).value; }
    }
  }

  /** No redo is issued that would take a result off a game. */
  ghost predicate KeepsResults(judge: Judge, w: World, inputs: seq<Input>)
  {
    forall k {:trigger inputs[k]} :: 0 <= k < |inputs| ==> !RedoesResult(Run(judge, w, inputs[..k]).app, inputs[k].command)
  }

  lemma {:induction false} RunKeepsResult(judge: Judge, w: World, inputs: seq<Input>, id: Id, c: Config, log: seq<Action>, o: Outcome)
    requires Clean(judge, w) && AllFresh(judge, w, inputs) && KeepsResults(judge, w, inputs)
    requires HoldsResult(View(w.archive), id, c, log, o)
    ensures HoldsResult(View(Run(judge, w, inputs).archive), id, c, log, o)
  {
    hide Clean, FreshId, Step, HoldsResult, RedoesResult;
    if inputs != [] {
      var k := |inputs| - 1;
      FreshPrefix(judge, w, inputs, k);
      forall j | 0 <= j < k
        ensures !RedoesResult(Run(judge, w, inputs[..k][..j]).app, inputs[..k][j].command)
      {
        assert inputs[..k][..j] == inputs[..j] && inputs[..k][j] == inputs[j];
      }
      RunKeepsResult(judge, w, inputs[..k], id, c, log, o);
      RunIsClean(judge, w, inputs[..k]);
      assert FreshId(Run(judge, w, inputs[..k]), inputs[k]) && !RedoesResult(Run(judge, w, inputs[..k]).app, inputs[k].command);
      StepKeepsResult(judge, Run(judge, w, inputs[..k]), inputs[k], id, c, log, o);
    }
  }

  lemma KeepsResultsRest(judge: Judge, w: World, inputs: seq<Input>, k: nat)
    requires k <= |inputs| && KeepsResults(judge, w, inputs)
    ensures KeepsResults(judge, Run(judge, w, inputs[..k]), inputs[k..])
  {
    forall j | 0 <= j < |inputs| - k
      ensures !RedoesResult(Run(judge, Run(judge, w, inputs[..k]), inputs[k..][..j]).app, inputs[k..][j].command)
    {
      RunSplits(judge, w, inputs[..k+j], k);
      assert inputs[..k+j][..k] == inputs[..k] && inputs[..k+j][k..] == inputs[k..][..j];
      assert inputs[k..][j] == inputs[k+j];
    }
  }

  /**
   No result is lost. In every run that never redoes over a result, an early result that
   was live at any moment is at the end held by some record that the archive offers.
   */
  lemma NoResultIsLost(judge: Judge, w: World, inputs: seq<Input>, k: nat)
    requires Clean(judge, w) && AllFresh(judge, w, inputs) && KeepsResults(judge, w, inputs) && k <= |inputs|
    ensures var then_, now := Run(judge, w, inputs[..k]), Run(judge, w, inputs);
      then_.app.playing && then_.app.outcome.Some? ==>
        ResultKept(View(now.archive), then_.app.config, then_.app.log, then_.app.outcome.value)
  {
    var before := Run(judge, w, inputs[..k]);
    FreshPrefix(judge, w, inputs, k);
    RunIsClean(judge, w, inputs[..k]);
    FreshRest(judge, w, inputs, k);
    KeepsResultsRest(judge, w, inputs, k);
    RunSplits(judge, w, inputs, k);
    var s := before.app;
    if s.playing && s.outcome.Some? {
      LiveResultIsHeld(judge, before);
      hide Clean, HoldsResult, Run, AllFresh, KeepsResults;
      RunKeepsResult(judge, before, inputs[k..], s.gameId.value, s.config, s.log, s.outcome.value);
    }
  }

  lemma LiveResultIsHeld(judge: Judge, w: World)
    requires Clean(judge, w) && w.app.playing && w.app.outcome.Some?
    ensures w.app.gameId.Some? && HoldsResult(View(w.archive), w.app.gameId.value, w.app.config, w.app.log, w.app.outcome.value)
  {
  }

  /**
   The condition is needed: where nothing is archived as finished, resigning after an undo
   and then redoing leaves no record of the resignation.
   */
  lemma ResignThenRedo(judge: Judge, w: World, resign: Input, redo: Input, loser: int)
    requires Clean(judge, w) && w.app.redo != [] && CanResign(w.app, loser)
    requires resign.command == Resign(loser) && redo.command == Redo
    requires NothingFinished(View(w.archive))
    ensures var ended := Step(judge, w, resign);
      && Clean(judge, ended) && ended.app == w.app.(outcome := Some(Resignation(1 - loser, loser)))
      && RedoesResult(ended.app, redo.command)
      && !ResultKept(View(Step(judge, ended, redo).archive), w.app.config, w.app.log, Resignation(1 - loser, loser))
  {
    var s, view := w.app, View(w.archive);
    var o := Resignation(1 - loser, loser);
    var next := s.(outcome := Some(o));
    var ended := Step(judge, w, resign);
    assert Update(judge, s, resign.command, resign.own) == Some(next);
    StepKeepsLines(judge, w, resign);
    ResignKeepsInv(judge, s, loser);
    AppliedView(judge, w, next, resign);
    hide AppInv, Clean, View, Applied, CanResign, Conflicts;
    var after := View(ended.archive);
    forall id | Some(id) != s.gameId ensures !HoldsResult(after, id, s.config, s.log, o) {}
    assert !HeldElsewhere(after, ended.app);
    ResultStaysUnlessRedone(judge, ended, redo);
  }

  ghost predicate NothingFinished(view: Records)
  {
    forall id :: id in view ==> view[id].outcome.None?
  }

  /** A command whose writes all succeed. */
  function Simply(command: Command, own: Id): (i: Input)
    ensures i.command == command && i.own == own
  {
    Input(command, own, own, own, _ => Written, _ => Written)
  }

  /** What an effective command without a result leaves: a clean world in which nothing is finished. */
  lemma UnfinishedStep(judge: Judge, w: World, i: Input, next: App)
    requires Clean(judge, w) && FreshId(w, i) && NothingFinished(View(w.archive))
    requires Update(judge, w.app, i.command, i.own) == Some(next) && next.playing && next.gameId.Some? && next.outcome.None?
    ensures var after := Step(judge, w, i);
      && Clean(judge, after) && after.app == next && NothingFinished(View(after.archive))
      && View(after.archive).Keys <= View(w.archive).Keys + {next.gameId.value}
  {
    StepKeepsLines(judge, w, i);
    UpdateKeepsInv(judge, w.app, i.command, i.own);
    AppliedView(judge, w, next, i);
    hide AppInv, Clean, View, Applied, Update, Changed;
  }

  lemma IsFreshId(w: World, i: Input)
    requires i.command.Act? || i.own !in View(w.archive)
    ensures FreshId(w, i)
  {
    hide View;
  }

  /** The live states of a game that is started, has one stone placed, and has it undone. */
  function AfterStart(c: Config, meta: int): App { Fresh(NewGameConfig(c), meta, 1) }

  function AfterPlace(c: Config, meta: int): App { AfterStart(c, meta).(log := [Place(0)]) }

  function AfterUndo(c: Config, meta: int): App { AfterStart(c, meta).(gameId := Some(2), redo := [Place(0)]) }

  lemma FirstCommands(judge: Judge, c: Config, meta: int)
    requires ValidConfig(c)
    ensures Update(judge, EmptyStore(c, meta).app, StartGame(c, meta), 1) == Some(AfterStart(c, meta))
    ensures Update(judge, AfterStart(c, meta), Act(Place(0)), 1) == Some(AfterPlace(c, meta))
    ensures Update(judge, AfterPlace(c, meta), Undo, 2) == Some(AfterUndo(c, meta))
    ensures CanResign(AfterUndo(c, meta), 0) && AfterUndo(c, meta).redo != []
    ensures forall s :: s in {AfterStart(c, meta), AfterPlace(c, meta), AfterUndo(c, meta)} ==> s.playing && s.outcome.None?
    ensures AfterStart(c, meta).gameId == AfterPlace(c, meta).gameId == Some(1) && AfterUndo(c, meta).gameId == Some(2)
  {
    var config := NewGameConfig(c);
    assert Replay(config, []) == Some(Initial(config));
    assert IsLegal(config, Initial(config), Place(0));
    hide Replay, Initial;
    assert [] + [Place(0)] == [Place(0)] && [Place(0)][..0] == [];
  }

  function LosingRun(c: Config, meta: int): (inputs: seq<Input>)
    ensures |inputs| == 5
  {
    [Simply(StartGame(c, meta), 1), Simply(Act(Place(0)), 1), Simply(Undo, 2), Simply(Resign(0), 3), Simply(Redo, 3)]
  }

  lemma LosingRunIs(c: Config, meta: int)
    ensures var inputs := LosingRun(c, meta);
      && inputs[0].command == StartGame(c, meta) && inputs[1].command == Act(Place(0)) && inputs[2].command == Undo
      && inputs[3].command == Resign(0) && inputs[4].command == Redo && inputs[0].own == inputs[1].own == 1 && inputs[2].own == 2
  {
  }

  lemma RunNext(judge: Judge, w: World, inputs: seq<Input>, k: nat)
    requires k < |inputs|
    ensures Run(judge, w, inputs[..0]) == w
    ensures Run(judge, w, inputs[..k+1]) == Step(judge, Run(judge, w, inputs[..k]), inputs[k])
  {
    assert inputs[..k+1][..k] == inputs[..k];
    hide Step;
  }

  /** Starting a game, placing a stone and undoing it. */
  lemma StartPlaceUndo(judge: Judge, c: Config, meta: int)
    requires ValidConfig(c)
    ensures var w0, inputs := EmptyStore(c, meta), LosingRun(c, meta);
      var w3 := Run(judge, w0, inputs[..3]);
      && (forall k :: 0 <= k < 3 ==> FreshId(Run(judge, w0, inputs[..k]), inputs[k]))
      && Clean(judge, w3) && w3.app == AfterUndo(c, meta) && NothingFinished(View(w3.archive))
  {
    hide *;
    var w0, inputs := EmptyStore(c, meta), LosingRun(c, meta);
    LosingRunIs(c, meta);
    EmptyStoreIsClean(judge, c, meta);
    FirstCommands(judge, c, meta);
    RunNext(judge, w0, inputs, 0);
    RunNext(judge, w0, inputs, 1);
    RunNext(judge, w0, inputs, 2);
    var w1, w2 := Run(judge, w0, inputs[..1]), Run(judge, w0, inputs[..2]);
    IsFreshId(w0, inputs[0]);
    UnfinishedStep(judge, w0, inputs[0], AfterStart(c, meta));
    IsFreshId(w1, inputs[1]);
    UnfinishedStep(judge, w1, inputs[1], AfterPlace(c, meta));
    assert 2 !in View(w2.archive).Keys;
    IsFreshId(w2, inputs[2]);
    UnfinishedStep(judge, w2, inputs[2], AfterUndo(c, meta));
  }

  /** A run from the empty store that loses a result: start, place, undo, resign, redo. */
  lemma ResultCanBeLost(judge: Judge, c: Config, meta: int)
    requires ValidConfig(c)
    ensures var w0, inputs := EmptyStore(c, meta), LosingRun(c, meta);
      var then_, now := Run(judge, w0, inputs[..4]), Run(judge, w0, inputs);
      && AllFresh(judge, w0, inputs) && then_.app.outcome == Some(Resignation(1, 0))
      && !ResultKept(View(now.archive), then_.app.config, then_.app.log, then_.app.outcome.value)
  {
    hide *;
    var w0, inputs := EmptyStore(c, meta), LosingRun(c, meta);
    LosingRunIs(c, meta);
    StartPlaceUndo(judge, c, meta);
    FirstCommands(judge, c, meta);
    RunNext(judge, w0, inputs, 3);
    RunNext(judge, w0, inputs, 4);
    var w3, w4 := Run(judge, w0, inputs[..3]), Run(judge, w0, inputs[..4]);
    ResignThenRedo(judge, w3, inputs[3], inputs[4], 0);
    assert inputs[..5] == inputs;
    LastIsFresh(judge, w0, inputs);
  }

  lemma LastIsFresh(judge: Judge, w: World, inputs: seq<Input>)
    requires |inputs| == 5 && inputs[3].command.Resign? && inputs[4].command.Redo?
    requires forall k :: 0 <= k < 3 ==> FreshId(Run(judge, w, inputs[..k]), inputs[k])
    ensures AllFresh(judge, w, inputs)
  {
    hide View, Run;
  }

  // Where results come from.

  /** The command that ended the game: the loser's resignation, or the claim of a clinch that the position guarantees. */
  predicate Ends(judge: Judge, s: App, command: Command, o: Outcome)
  {
    && s.playing && s.outcome.None? && Player(o.winner) && o.loser == 1 - o.winner
    && match o
       case Resignation(_, loser) => command == Resign(loser)
       case Clinch(winner, _, _) => command == EndClinchedGame(winner) && ClinchedBy(judge, s.config, s.log) == Some(winner)
  }

  predicate SameGame(s: App, t: App) { s.playing && t.playing && s.config == t.config && s.log == t.log }

  /** The result of the end was given by this input, and has stood over this very log since. */
  ghost predicate Ended(judge: Judge, w: World, inputs: seq<Input>, k: nat)
  {
    var now := Run(judge, w, inputs).app;
    && k < |inputs| && now.outcome.Some?
    && Ends(judge, Run(judge, w, inputs[..k]).app, inputs[k].command, now.outcome.value)
    && SameGame(Run(judge, w, inputs[..k]).app, now)
    && forall j :: k < j <= |inputs| ==> Stands(now, Run(judge, w, inputs[..j]).app)
  }

  predicate Stands(now: App, s: App) { SameGame(s, now) && s.outcome == now.outcome }

  lemma StepResult(judge: Judge, w: World, i: Input)
    requires AppInv(judge, w.app)
    ensures AppInv(judge, Step(judge, w, i).app)
    ensures var now := Step(judge, w, i).app;
      now.outcome.Some? ==>
        SameGame(w.app, now) && (w.app.outcome == now.outcome || Ends(judge, w.app, i.command, now.outcome.value))
  {
    UpdateKeepsInv(judge, w.app, i.command, i.own);
    var patched := Update(judge, w.app, i.command, i.own);
    if patched.Some? {
      GivesResult(judge, w.app, i.command, i.own);
      PatchedApp(judge, w, patched.value, i);
    }
  }

  /** Setting a state changes at most its identity. */
  lemma PatchedApp(judge: Judge, w: World, patched: App, i: Input)
    requires AppInv(judge, patched)
    ensures var next := Applied(judge, w, patched, i).app; next == patched.(gameId := next.gameId) && AppInv(judge, next)
  {
    hide Archived, Conflicts, RecordOf, Replay, ClinchedBy, ProvenOutcome, ValidAck, Reversed;
  }

  lemma GivesResult(judge: Judge, s: App, command: Command, own: Id)
    requires AppInv(judge, s)
    ensures var next := Update(judge, s, command, own);
      next.Some? && next.value.outcome.Some? ==>
        SameGame(s, next.value) && (s.outcome == next.value.outcome || Ends(judge, s, command, next.value.outcome.value))
  {
    hide Replay, ClinchedBy, Occupied, Reversed, Legal, ProvenOutcome, ValidAck;
  }

  lemma ProvenIfValid(judge: Judge, s: App)
    requires AppInv(judge, s) && s.outcome.Some?
    ensures s.playing && Legal(s.config, s.log) && ProvenOutcome(judge, s.config, Replay(s.config, s.log).value, s.outcome.value)
  {
  }

  /** A result that stood before the last step stands after it, if that step kept the game and the result. */
  lemma StillStands(judge: Judge, w: World, inputs: seq<Input>, from: nat)
    requires inputs != [] && from <= |inputs|
    requires var m := |inputs| - 1;
      var before, now := Run(judge, w, inputs[..m]).app, Run(judge, w, inputs).app;
      && SameGame(before, now) && before.outcome == now.outcome
      && forall j :: from <= j <= m ==> Stands(before, Run(judge, w, inputs[..m][..j]).app)
    ensures forall j :: from <= j <= |inputs| ==> Stands(Run(judge, w, inputs).app, Run(judge, w, inputs[..j]).app)
  {
    var m := |inputs| - 1;
    hide Run;
    forall j | from <= j <= |inputs|
      ensures Stands(Run(judge, w, inputs).app, Run(judge, w, inputs[..j]).app)
    {
      if j <= m { assert inputs[..m][..j] == inputs[..j]; } else { assert inputs[..j] == inputs; }
    }
  }

  lemma EndedBefore(judge: Judge, w: World, inputs: seq<Input>, k: nat)
    requires inputs != []
    requires var m := |inputs| - 1;
      var before, now := Run(judge, w, inputs[..m]).app, Run(judge, w, inputs).app;
      Ended(judge, w, inputs[..m], k) && SameGame(before, now) && before.outcome == now.outcome
    ensures Ended(judge, w, inputs, k)
  {
    hide Run, Ends;
    var m := |inputs| - 1;
    assert inputs[..m][..k] == inputs[..k] && inputs[..m][k] == inputs[k];
    StillStands(judge, w, inputs, k + 1);
  }

  /**
   Every result is earned. In any run, from any valid state and whatever the archive does,
   an early result at the end is one that its position allows. The loser resigned this
   very game, or its winner is guaranteed by this very log and was claimed, and the
   result has stood since; or the run started with it and no step touched it.
   */
  lemma {:induction false} EarlyResults(judge: Judge, w: World, inputs: seq<Input>)
    requires AppInv(judge, w.app)
    ensures var now := Run(judge, w, inputs).app;
      && AppInv(judge, now)
      && (now.outcome.Some? ==>
            && Legal(now.config, now.log)
            && ProvenOutcome(judge, now.config, Replay(now.config, now.log).value, now.outcome.value)
            && (StoodAlways(judge, w, inputs) || exists k :: Ended(judge, w, inputs, k)))
  {
    hide Step, AppInv, Ends, ProvenOutcome, Replay, Legal;
    var now := Run(judge, w, inputs).app;
    assert inputs[..|inputs|] == inputs;
    if inputs == [] {
      if now.outcome.Some? { ProvenIfValid(judge, now); }
    } else {
      var m := |inputs| - 1;
      var before := Run(judge, w, inputs[..m]).app;
      EarlyResults(judge, w, inputs[..m]);
      StepResult(judge, Run(judge, w, inputs[..m]), inputs[m]);
      if now.outcome.Some? {
        ProvenIfValid(judge, now);
        if before.outcome != now.outcome {
          assert Ended(judge, w, inputs, m);
        } else if StoodAlways(judge, w, inputs[..m]) {
          StillStands(judge, w, inputs, 0);
        } else {
          var k :| Ended(judge, w, inputs[..m], k);
          EndedBefore(judge, w, inputs, k);
        }
      }
    }
  }

  ghost predicate StoodAlways(judge: Judge, w: World, inputs: seq<Input>)
  {
    forall j :: 0 <= j <= |inputs| ==> Stands(Run(judge, w, inputs).app, Run(judge, w, inputs[..j]).app)
  }

  // Loading a saved state.

  predicate ParsedActions(log: seq<Action>)
  {
    forall k :: 0 <= k < |log| && log[k].Place? ==> log[k].node >= 0
  }

  function ParsedOutcome(o: Option<Outcome>): Option<Outcome>
  {
    if o.Some? && Player(o.value.winner) && Player(o.value.loser) && o.value.winner != o.value.loser
       && (o.value.Clinch? ==> o.value.emptyNodes > 0)
    then o else None
  }

  function ParsedAck(a: Option<Ack>): Option<Ack>
  {
    if a.Some? && Player(a.value.winner) && a.value.atLogLength >= 0 then a else None
  }

  function Setup(config: Config, meta: int): App { App(false, None, config, meta, [], [], None, None) }

  /** A claimed result that the position does not prove is dropped. */
  function RepairedOutcome(judge: Judge, c: Config, p: Position, o: Option<Outcome>): Option<Outcome>
  {
    var bounds := if !p.over && !p.canSwap then Some(judge(p.stones)) else None;
    match o
    case None => None
    case Some(Clinch(winner, loser, emptyNodes)) =>
      if bounds.None? || bounds.value != Some(winner) || loser != 1 - winner || emptyNodes != |p.stones| - Occupied(p.stones)
      then None else o
    case Some(Resignation(_, _)) => if p.over then None else o
  }

  function RepairedAck(judge: Judge, c: Config, line: seq<Action>, a: Option<Ack>): Option<Ack>
  {
    if a.None? || !(0 <= a.value.atLogLength <= |line|) || ClinchedBy(judge, c, line[..a.value.atLogLength]) != Some(a.value.winner)
    then None else a
  }

  /**
   What loading makes of a saved state, whatever it contains. An unusable history falls
   back to the setup screen; an unproven result or acknowledgement is dropped.
   */
  function Sanitized(judge: Judge, p: App, default: Config, defaultMeta: int, own: Id): App
  {
    if !ValidConfig(p.config) then Setup(default, defaultMeta)
    else if !p.playing || |p.log| + |p.redo| > p.config.nodes + (if p.config.pieRule then 1 else 0)
            || !ParsedActions(p.log) || !ParsedActions(p.redo)
            || !Legal(p.config, p.log) || !Legal(p.config, Complete(p))
    then Setup(p.config, p.meta)
    else
      App(true, if p.gameId.Some? then p.gameId else Some(own), p.config, p.meta, p.log, p.redo,
          RepairedOutcome(judge, p.config, Replay(p.config, p.log).value, ParsedOutcome(p.outcome)),
          RepairedAck(judge, p.config, Complete(p), ParsedAck(p.ack)))
  }

  /** Loading anything at all yields a state that satisfies the invariant. */
  lemma SanitizedIsValid(judge: Judge, p: App, default: Config, defaultMeta: int, own: Id)
    requires ValidConfig(default)
    ensures AppInv(judge, Sanitized(judge, p, default, defaultMeta, own))
  {
    var s := Sanitized(judge, p, default, defaultMeta, own);
    hide Reversed, Replay, Occupied, ClinchedBy;
    if s.playing {
      LegalGames(p.config, p.log);
      assert Complete(s) == Complete(p);
      OutcomeRepaired(judge, p.config, Replay(p.config, p.log).value, p.outcome);
    }
  }

  lemma OutcomeRepaired(judge: Judge, c: Config, p: Position, o: Option<Outcome>)
    ensures var r := RepairedOutcome(judge, c, p, ParsedOutcome(o)); r.Some? ==> ProvenOutcome(judge, c, p, r.value)
  {
    hide Occupied;
  }

  lemma {:induction false} LegalIsParsed(c: Config, log: seq<Action>)
    requires Legal(c, log)
    ensures ParsedActions(log)
  {
    if log != [] {
      LegalIsParsed(c, log[..|log|-1]);
    }
  }

  /** A history that is legal when completed passes every bound and parse of the loader. */
  lemma HistoryPasses(judge: Judge, s: App)
    requires AppInv(judge, s) && s.playing
    ensures |s.log| + |s.redo| <= s.config.nodes + (if s.config.pieRule then 1 else 0)
    ensures ParsedActions(s.log) && ParsedActions(s.redo)
  {
    LegalGames(s.config, Complete(s));
    LegalIsParsed(s.config, Complete(s));
    forall k | 0 <= k < |s.redo| && s.redo[k].Place?
      ensures s.redo[k].node >= 0
    {
      assert Complete(s)[|s.log| + (|s.redo| - 1 - k)] == s.redo[k];
    }
    forall k | 0 <= k < |s.log| && s.log[k].Place?
      ensures s.log[k].node >= 0
    {
      assert Complete(s)[k] == s.log[k];
    }
  }

  /**
   Loading changes nothing exactly for the states that satisfy the invariant. So every
   reachable state, saved and loaded again, comes back as it was.
   */
  lemma LoadedUnchangedIffValid(judge: Judge, s: App, default: Config, defaultMeta: int, own: Id)
    requires ValidConfig(default)
    ensures Sanitized(judge, s, default, defaultMeta, own) == s <==> AppInv(judge, s)
  {
    SanitizedIsValid(judge, s, default, defaultMeta, own);
    if AppInv(judge, s) && s.playing {
      HistoryPasses(judge, s);
      LegalLogInv(s.config, s.log);
      LegalGames(s.config, s.log);
      hide Replay, Occupied, PositionInv, Reversed;
    }
  }

  /** Every state of a run that starts clean loads back unchanged. */
  lemma ReachableLoadsUnchanged(judge: Judge, w: World, inputs: seq<Input>, default: Config, defaultMeta: int, own: Id)
    requires ValidConfig(default) && Clean(judge, w) && AllFresh(judge, w, inputs)
    ensures Sanitized(judge, Run(judge, w, inputs).app, default, defaultMeta, own) == Run(judge, w, inputs).app
  {
    RunIsClean(judge, w, inputs);
    LoadedUnchangedIffValid(judge, Run(judge, w, inputs).app, default, defaultMeta, own);
  }

  /**
   After loading anything at all, every result of the run that follows is still one that its
   position allows: it was given in this run, or it is the saved one and has stood since.
   */
  lemma LoadedResults(judge: Judge, p: App, default: Config, defaultMeta: int, own: Id, archive: Archive, inputs: seq<Input>)
    requires ValidConfig(default)
    ensures var w := World(Sanitized(judge, p, default, defaultMeta, own), archive);
      var now := Run(judge, w, inputs).app;
      now.outcome.Some? ==>
        && Legal(now.config, now.log)
        && ProvenOutcome(judge, now.config, Replay(now.config, now.log).value, now.outcome.value)
        && ((exists k :: Ended(judge, w, inputs, k)) || (SameGame(p, now) && now.outcome == p.outcome))
  {
    var w := World(Sanitized(judge, p, default, defaultMeta, own), archive);
    SanitizedIsValid(judge, p, default, defaultMeta, own);
    EarlyResults(judge, w, inputs);
    SavedResult(judge, p, default, defaultMeta, own);
    hide Sanitized, Run, Legal, Ended, ProvenOutcome;
    if StoodAlways(judge, w, inputs) {
      assert Stands(Run(judge, w, inputs).app, Run(judge, w, inputs[..0]).app);
      RunOfNothing(judge, w, inputs);
    }
  }

  lemma RunOfNothing(judge: Judge, w: World, inputs: seq<Input>)
    ensures Run(judge, w, inputs[..0]) == w
  {
  }

  lemma SavedResult(judge: Judge, p: App, default: Config, defaultMeta: int, own: Id)
    ensures var s := Sanitized(judge, p, default, defaultMeta, own);
      s.outcome.Some? ==> SameGame(p, s) && s.outcome == p.outcome
  {
    hide Legal, Occupied, Replay;
  }

  /** With storage that keeps every write, nothing is left pending and storage is the offer. */
  lemma WorkingStorageHoldsAll(judge: Judge, w: World, i: Input)
    requires w.archive.pending == map[] && (forall id :: i.leaving(id).Written? && i.saving(id).Written?)
    ensures Step(judge, w, i).archive.pending == map[]
    ensures View(Step(judge, w, i).archive) == Step(judge, w, i).archive.stored
  {
    forall a: Archive, s: App, writes: Writes | a.pending == map[] && forall id :: writes(id).Written?
      ensures Archived(judge, a, s, writes).pending == map[]
    {
      if RecordOf(s).Some? { SaveUpdatesView(judge, a, RecordOf(s).value, writes); }
    }
  }
}
