/**
 The browser's archive of games. Each record is written on its own; a write that fails
 leaves the record pending, and every later save retries it. What a reader is offered
 does not depend on which writes succeed.
 */
module GameLibrary {
  import opened Results
  import opened Sets
  import opened Game

  type Id = int

  datatype Outcome =
    | Clinch(winner: int, loser: int, emptyNodes: int)
    | Resignation(winner: int, loser: int)

  datatype Record = Record(id: Id, config: Config, meta: int, log: seq<Action>, outcome: Option<Outcome>)

  /** The winner that every completion of a position has, if there is one. */
  type Judge = seq<int> -> Option<int>

  predicate Player(x: int) { x == 0 || x == 1 }

  /** The early result is one that the position allows. */
  predicate ProvenOutcome(judge: Judge, c: Config, p: Position, o: Outcome)
  {
    && !p.over && Player(o.winner) && o.loser == 1 - o.winner
    && (o.Clinch? ==> !p.canSwap && judge(p.stones) == Some(o.winner) && o.emptyNodes == |p.stones| - Occupied(p.stones) > 0)
  }

  /** The records that the strict validation lets through. */
  predicate ValidRecord(judge: Judge, r: Record)
  {
    && ValidConfig(r.config) && |r.log| <= r.config.nodes + 1 && Legal(r.config, r.log)
    && (r.outcome.Some? ==> ProvenOutcome(judge, r.config, Replay(r.config, r.log).value, r.outcome.value))
  }

  /** What becomes of one write: retained, refused, or the entry is left unreadable. */
  datatype Write = Written | Refused | Garbled

  type Writes = Id -> Write

  /** Browser storage, and the records whose write has not succeeded. */
  datatype Archive = Archive(stored: map<Id, Record>, pending: map<Id, Record>)

  /** What the library offers: storage, overlaid by what is pending. */
  function View(a: Archive): map<Id, Record> { a.stored + a.pending }

  /** The archive after an attempt at each of these pending records. */
  function Attempted(a: Archive, writes: Writes, done: set<Id>): (r: Archive)
  {
    var garbled := set id | id in done && writes(id).Garbled?;
    var written := set id | id in done && writes(id).Written?;
    Archive(a.stored - garbled + (a.pending - (a.pending.Keys - written)), a.pending - written)
  }

  function Retried(a: Archive, writes: Writes): Archive { Attempted(a, writes, a.pending.Keys) }

  /** One attempt at one pending record. */
  function Attempt(a: Archive, id: Id, outcome: Write): Archive
    requires id in a.pending
  {
    match outcome
    case Written => Archive(a.stored[id := a.pending[id]], a.pending - {id})
    case Refused => a
    case Garbled => a.(stored := a.stored - {id})
  }

  lemma AttemptNext(a: Archive, writes: Writes, done: set<Id>, id: Id)
    requires id in a.pending && id !in done && done <= a.pending.Keys
    ensures id in Attempted(a, writes, done).pending && Attempted(a, writes, done).pending[id] == a.pending[id]
    ensures Attempt(Attempted(a, writes, done), id, writes(id)) == Attempted(a, writes, done + {id})
  {
    var b, c := Attempt(Attempted(a, writes, done), id, writes(id)), Attempted(a, writes, done + {id});
    AttemptNextStored(a, writes, done, id);
    forall i
      ensures i in b.pending <==> i in c.pending
      ensures i in b.pending && i in c.pending ==> b.pending[i] == c.pending[i]
    {
    }
    assert b.pending == c.pending;
  }

  lemma AttemptNextStored(a: Archive, writes: Writes, done: set<Id>, id: Id)
    requires id in a.pending && id !in done && done <= a.pending.Keys
    requires id in Attempted(a, writes, done).pending
    ensures Attempt(Attempted(a, writes, done), id, writes(id)).stored == Attempted(a, writes, done + {id}).stored
  {
    var b, c := Attempt(Attempted(a, writes, done), id, writes(id)), Attempted(a, writes, done + {id});
    forall i
      ensures i in b.stored <==> i in c.stored
      ensures i in b.stored && i in c.stored ==> b.stored[i] == c.stored[i]
    {
    }
  }

  lemma NothingAttempted(a: Archive, writes: Writes)
    ensures Attempted(a, writes, {}) == a
  {
    var r := Attempted(a, writes, {});
    assert r.stored == a.stored && r.pending == a.pending;
  }

  function Saved(judge: Judge, a: Archive, r: Record, writes: Writes): Archive
  {
    if !ValidRecord(judge, r) then a else Retried(a.(pending := a.pending[r.id := r]), writes)
  }

  lemma IsOverlay(records: map<Id, Record>, stored: map<Id, Record>, pending: map<Id, Record>)
    requires forall id :: id in records <==> id in stored || id in pending.Keys
    requires forall id :: id in records ==> records[id] == if id in pending then pending[id] else stored[id]
    ensures records == stored + pending
  {
    var view := stored + pending;
    forall id
      ensures id in records <==> id in view
      ensures id in records && id in view ==> records[id] == view[id]
    {
      assert id in pending <==> id in pending.Keys;
    }
  }

  lemma RetryKeepsView(a: Archive, writes: Writes)
    ensures View(Retried(a, writes)) == View(a)
    ensures (forall id :: id in a.pending ==> writes(id).Written?) ==> Retried(a, writes) == Archive(View(a), map[])
  {
    var r := Retried(a, writes);
    forall id
      ensures id in View(r) <==> id in View(a)
      ensures id in View(a) ==> View(r)[id] == View(a)[id]
    {
    }
    if forall id :: id in a.pending ==> writes(id).Written? {
      assert r.pending == map[];
      assert r.stored == View(a);
    }
  }

  lemma PendingOverlays(a: Archive, r: Record)
    ensures View(a.(pending := a.pending[r.id := r])) == View(a)[r.id := r]
  {
    var b := a.(pending := a.pending[r.id := r]);
    forall id
      ensures id in View(b) <==> id in View(a)[r.id := r]
      ensures id in View(b) && id in View(a)[r.id := r] ==> View(b)[id] == View(a)[r.id := r][id]
    {
    }
  }

  /** Saving a valid record replaces it in the view, whichever writes succeed. */
  lemma SaveUpdatesView(judge: Judge, a: Archive, r: Record, writes: Writes)
    ensures View(Saved(judge, a, r, writes)) == if ValidRecord(judge, r) then View(a)[r.id := r] else View(a)
    ensures ValidRecord(judge, r) && (forall id :: id in a.pending || id == r.id ==> writes(id).Written?) ==>
      Saved(judge, a, r, writes) == Archive(View(a)[r.id := r], map[])
  {
    hide ValidRecord, Attempted, Retried;
    if ValidRecord(judge, r) {
      var b := a.(pending := a.pending[r.id := r]);
      PendingOverlays(a, r);
      RetryKeepsView(b, writes);
    }
  }

  /** Another tab's continuation under the same identity. */
  predicate Conflicts(judge: Judge, a: Archive, r: Record)
  {
    r.id !in a.pending && r.id in a.stored && ValidRecord(judge, r) && a.stored[r.id] != r
  }

  /** What a scan of browser storage finds: nothing at all, or entries of which some cannot be read. */
  datatype Disk = Unavailable | Entries(entries: map<Id, Option<Record>>)

  datatype ReadError = NoReadError | Damaged(count: nat) | NoStorage

  function IsDamaged(): Option<Record> -> bool { (entry: Option<Record>) => entry.None? }

  function Readable(entries: map<Id, Option<Record>>): map<Id, Record>
  {
    map id | id in entries && entries[id].Some? :: entries[id].value
  }

  function ErrorOf(disk: Disk): ReadError
  {
    match disk
    case Unavailable => NoStorage
    case Entries(entries) =>
      var damaged := |Those(entries, IsDamaged())|;
      if damaged > 0 then Damaged(damaged) else NoReadError
  }

  /** The loop over the storage entries. */
  method Scan(entries: map<Id, Option<Record>>) returns (saved: map<Id, Record>, damaged: nat)
    ensures saved == Readable(entries) && damaged == |Those(entries, IsDamaged())|
  {
    saved, damaged := map[], 0;
    var rest := entries.Keys;
    ghost var found := {};
    while rest != {}
      invariant rest <= entries.Keys
      invariant forall id :: id in saved <==> id in entries && id !in rest && entries[id].Some?
      invariant forall id :: id in saved ==> entries[id] == Some(saved[id])
      invariant found == (set id | id in entries && id !in rest && entries[id].None?) && damaged == |found|
    {
      EmptyOrInhabited(rest);
      var id :| id in rest;
      rest := rest - {id};
      if entries[id].None? {
        damaged, found := damaged + 1, found + {id};
      } else {
        saved := saved[id := entries[id].value];
      }
    }
    assert found == Those(entries, IsDamaged());
    IsReadable(entries, saved);
  }

  lemma IsReadable(entries: map<Id, Option<Record>>, saved: map<Id, Record>)
    requires forall id :: id in saved <==> id in entries && entries[id].Some?
    requires forall id :: id in saved ==> entries[id] == Some(saved[id])
    ensures saved == Readable(entries)
  {
    var readable := Readable(entries);
    forall id
      ensures id in saved <==> id in readable
      ensures id in saved && id in readable ==> saved[id] == readable[id]
    {
    }
  }

  lemma OverlayTwice(stored: map<Id, Record>, pending: map<Id, Record>)
    ensures stored + pending + pending == stored + pending
  {
  }

  /** The error names how many entries cannot be read, and there is none exactly when all can. */
  lemma ErrorCounts(entries: map<Id, Option<Record>>)
    ensures ErrorOf(Unavailable).NoStorage?
    ensures ErrorOf(Entries(entries)) == NoReadError <==> forall id :: id in entries ==> entries[id].Some?
    ensures var e := ErrorOf(Entries(entries));
      e == NoReadError || (e.Damaged? && e.count > 0 && e.count + |Readable(entries)| == |entries|)
  {
    var damaged, readable := Those(entries, IsDamaged()), Readable(entries).Keys;
    assert entries.Keys == damaged + readable && damaged !! readable;
    assert |Readable(entries)| == |readable| && |entries| == |entries.Keys|;
    if forall id :: id in entries ==> entries[id].Some? { assert damaged == {}; }
    if damaged == {} {
      forall id | id in entries ensures entries[id].Some? { assert id !in damaged; }
    }
  }

  /** What the module keeps: `stored` stands for browser storage as last scanned, the rest are its variables. */
  class Library {
    var stored: map<Id, Record>
    var records: map<Id, Record>
    var pending: map<Id, Record>
    var writeFailed: bool
    var readError: ReadError

    function Contents(): Archive
      reads this
    {
      Archive(stored, pending)
    }

    /** The loaded list is the view. */
    ghost predicate Loaded()
      reads this
    {
      records == View(Contents())
    }

    constructor ()
      ensures Loaded() && Contents() == Archive(map[], map[])
    {
      stored, records, pending, writeFailed, readError := map[], map[], map[], false, NoReadError;
    }

    /**
     Another tab may have changed storage. Entries that cannot be read are counted and do
     not hide the others; without storage the list stays. Pending records are never lost.
     */
    method Refresh(disk: Disk)
      requires Loaded()
      modifies this
      ensures Loaded() && pending == old(pending) && writeFailed == old(writeFailed)
      ensures stored == if disk.Entries? then Readable(disk.entries) else old(stored)
      ensures readError == ErrorOf(disk)
    {
      if disk.Entries? {
        var saved, damaged := Scan(disk.entries);
        stored, records := saved, saved;
        readError := if damaged > 0 then Damaged(damaged) else NoReadError;
      } else {
        readError := NoStorage;
      }
      ghost var base := records;
      var rest := pending.Keys;
      while rest != {}
        invariant pending == old(pending) && writeFailed == old(writeFailed) && rest <= pending.Keys
        invariant readError == ErrorOf(disk)
        invariant stored == if disk.Entries? then Readable(disk.entries) else old(stored)
        invariant forall id :: id in records <==> id in base || id in pending.Keys - rest
        invariant forall id :: id in records ==> records[id] == if id in pending && id !in rest then pending[id] else base[id]
      {
        EmptyOrInhabited(rest);
        var id :| id in rest;
        rest := rest - {id};
        records := records[id := pending[id]];
      }
      assert pending.Keys - rest == pending.Keys;
      IsOverlay(records, base, pending);
      OverlayTwice(stored, pending);
    }

    method RetrySaves(writes: Writes) returns (ok: bool)
      requires Loaded()
      modifies this
      ensures Contents() == Retried(old(Contents()), writes)
      ensures Loaded() && records == old(records)
      ensures ok <==> pending == map[]
      ensures writeFailed == !ok
      ensures readError == if ok && old(readError).NoStorage? then NoReadError else old(readError)
    {
      ghost var before := Contents();
      writeFailed := false;
      var rest := pending.Keys;
      ghost var done := {};
      NothingAttempted(before, writes);
      while rest != {}
        invariant done !! rest && done + rest == before.pending.Keys && records == old(records) && readError == old(readError)
        invariant Contents() == Attempted(before, writes, done)
        invariant writeFailed <==> exists id :: id in done && !writes(id).Written?
      {
        EmptyOrInhabited(rest);
        var id :| id in rest;
        AttemptNext(before, writes, done, id);
        match writes(id) {
          case Written =>
            stored := stored[id := pending[id]];
            pending := pending - {id};
          case Refused =>
            writeFailed := true;
          case Garbled =>
            stored := stored - {id};
            writeFailed := true;
        }
        rest, done := rest - {id}, done + {id};
      }
      assert done == before.pending.Keys;
      RetryKeepsView(before, writes);
      ok := !writeFailed;
      if ok && readError.NoStorage? {
        readError := NoReadError;
      }
      assert ok <==> pending == map[] by { AllWritten(before, writes); }
    }

    method Save(judge: Judge, r: Record, writes: Writes) returns (ok: bool)
      requires Loaded()
      modifies this
      ensures Contents() == Saved(judge, old(Contents()), r, writes)
      ensures Loaded()
      ensures records == if ValidRecord(judge, r) then old(records)[r.id := r] else old(records)
      ensures ok ==> ValidRecord(judge, r) && pending == map[] && stored == records
      ensures writeFailed == !ok && (ok <==> ValidRecord(judge, r) && pending == map[])
    {
      SaveUpdatesView(judge, Contents(), r, writes);
      hide ValidRecord, Retried;
      if !ValidRecord(judge, r) {
        writeFailed := true;
        return false;
      }
      records := records[r.id := r];
      pending := pending[r.id := r];
      ok := RetrySaves(writes);
    }

    /** Deletion drops the record everywhere, or changes nothing when storage keeps it. */
    method Delete(id: Id, removes: bool) returns (ok: bool)
      requires Loaded()
      modifies this
      ensures Loaded() && ok == removes
      ensures Contents() == if removes then Archive(old(stored) - {id}, old(pending) - {id}) else old(Contents())
      ensures records == if removes then old(records) - {id} else old(records)
      ensures writeFailed == (!removes || pending != map[])
    {
      if !removes {
        writeFailed := true;
        return false;
      }
      stored, records, pending := stored - {id}, records - {id}, pending - {id};
      writeFailed := pending != map[];
      return true;
    }
  }

  lemma AllWritten(a: Archive, writes: Writes)
    ensures Retried(a, writes).pending == map[] <==> forall id :: id in a.pending.Keys ==> writes(id).Written?
  {
    var p := Retried(a, writes).pending;
    assert forall id :: id in p <==> id in a.pending && !writes(id).Written?;
    if p == map[] {
      forall id | id in a.pending.Keys ensures writes(id).Written? { assert id !in p; }
    }
    if forall id :: id in a.pending.Keys ==> writes(id).Written? {
      assert forall id :: id !in p;
    }
  }
}
