/** What a run does to the secrets of an entry none of its calls aims at: nothing, at any step. */
module RunSecrets {
  import opened Wrappers
  import opened Refs
  import opened Store
  import opened Machine
  import opened Drafts
  import opened Protocol
  import opened UndoLog
  import opened EditSteps
  import opened CrashSafety
  import opened Import
  import opened ImportFacts
  import opened ImportSafety
  import opened Runs
  import opened RunInvariants
  import opened RunSafety

  lemma SyncPreserves(w: W, fails: Schedule, cache: ConnectionFile, keys: set<string>)
    ensures Preserves(w, Sync(w, fails, cache, true).world, keys)
  {
    SyncFacts(w, fails, cache, true);
    PhasePreserves(w, Sync(w, fails, cache, true).world, {}, {}, keys);
  }

  lemma SavePreserves(w: W, fails: Schedule, next: ConnectionFile, keys: set<string>)
    ensures Preserves(w, Save(w, fails, next).0, keys)
  {
  }

  lemma DeletesPreserve(w: W, fails: Schedule, refs: seq<string>, keys: set<string>)
    requires (set r | r in refs) !! keys
    ensures Preserves(w, DeleteAll(w, fails, refs), keys)
  {
    var dropped := set r | r in refs;
    DeleteAllPhase(w, fails, refs);
    PhasePreserves(w, DeleteAll(w, fails, refs), dropped, dropped, keys);
  }

  lemma ReplayPreserves(w: W, fails: Schedule, undo: seq<UndoRecord>, keys: set<string>)
    requires UndoRefs(undo) !! keys
    ensures Preserves(w, Replay(w, fails, undo), keys)
  {
    ReplayPhase(w, fails, undo);
    PhasePreserves(w, Replay(w, fails, undo), UndoRefs(undo), Created(undo), keys);
  }

  // -- one call ------------------------------------------------------------------------------

  lemma CommitAddPreserves(w: W, fails: Schedule, file: ConnectionFile, prepared: Prepared, keys: set<string>)
    requires WriteRefs(prepared.writes) !! keys
    ensures Preserves(w, CommitAdd(w, fails, file, prepared).world, keys)
  {
    var Prepared(entry, writes) := prepared;
    var (w1, n, error) := SetAll(w, fails, writes);
    SetAllPhase(w, fails, writes);
    PhasePreserves(w, w1, WriteRefs(writes), {}, keys);
    var next := file.(connections := file.connections + [entry]);
    var w2 := Save(w1, fails, next).0;
    SavePreserves(w1, fails, next, keys);
    PreservesThen(w, w1, w2, keys);
    var start := if error.Some? then w1 else w2;
    var refs := KeyRefs(if error.Some? then writes[..n] else writes);
    WriteRefsInOrder(if error.Some? then writes[..n] else writes);
    assert forall x | x in writes[..n] :: x in writes;
    DeletesPreserve(start, fails, refs, keys);
    PreservesThen(w, start, DeleteAll(start, fails, refs), keys);
  }

  lemma CommitUpdatePreserves(w: W, fails: Schedule, file: ConnectionFile, i: nat, marks: Marks, draft: EditDraft,
                              keys: set<string>)
    requires i < |file.connections|
    requires RefSet(file.connections[i]) + EditRefs(file.connections[i].id) !! keys
    ensures Preserves(w, CommitUpdate(w, fails, file, i, marks, draft).world, keys)
  {
    var existing := file.connections[i];
    var a := ApplySecrets(w, fails, existing, draft);
    ApplySecretsLogged(w, fails, existing, draft);
    assert a.undo[0..] == a.undo;
    PhasePreserves(w, a.world, UndoRefs(a.undo), {}, keys);
    if a.result.Err? {
      ReplayPreserves(a.world, fails, a.undo, keys);
      PreservesThen(w, a.world, Replay(a.world, fails, a.undo), keys);
    } else {
      var entry := EditedEntry(existing, draft, marks, a.result.value);
      SavedEditPreserves(a.world, fails, file.(connections := file.connections[i := entry]), Orphans(existing, entry),
          a.undo, keys) by {
        WithoutSpec(EntryRefs(existing), RefSet(entry));
      }
      var (saved, ok) := Save(a.world, fails, file.(connections := file.connections[i := entry]));
      PreservesThen(w, a.world, if ok then DeleteAll(saved, fails, Orphans(existing, entry))
          else Replay(saved, fails, a.undo), keys);
    }
  }

  lemma SavedEditPreserves(w: W, fails: Schedule, next: ConnectionFile, orphans: seq<string>, undo: seq<UndoRecord>,
                           keys: set<string>)
    requires (set r | r in orphans) !! keys && UndoRefs(undo) !! keys
    ensures var (saved, ok) := Save(w, fails, next);
            Preserves(w, if ok then DeleteAll(saved, fails, orphans) else Replay(saved, fails, undo), keys)
  {
    var (saved, ok) := Save(w, fails, next);
    SavePreserves(w, fails, next, keys);
    if ok {
      DeletesPreserve(saved, fails, orphans, keys);
      PreservesThen(w, saved, DeleteAll(saved, fails, orphans), keys);
    } else {
      ReplayPreserves(saved, fails, undo, keys);
      PreservesThen(w, saved, Replay(saved, fails, undo), keys);
    }
  }

  /** Whatever another id's entry carries, or could be given by minting, is not among a settled entry's refs. */
  lemma OthersRefsAreNot(file: ConnectionFile, e: ConnectionEntry, id: string)
    requires Settled(file) && e in file.connections && id != e.id
    ensures MintableRefs(id) !! RefSet(e)
    ensures forall x | x in file.connections && x.id == id :: RefSet(x) !! RefSet(e)
  {
    forall r | r in RefSet(e)
      ensures r !in MintableRefs(id)
    {
      assert NotAnothers(e.id, r);
    }
    DisjointIffMembersDisjoint(file.connections);
  }

  lemma AddPreserves(w: W, fails: Schedule, cache: ConnectionFile, draft: ConnectionDraft, e: ConnectionEntry)
    requires Settled(FileOn(w.disk)) && e in FileOn(w.disk).connections && draft.id != e.id
    ensures Preserves(w, Add(w, fails, cache, true, draft).world, RefSet(e))
  {
    var s := Sync(w, fails, cache, true);
    SyncFacts(w, fails, cache, true);
    SyncPreserves(w, fails, cache, RefSet(e));
    if s.result.Ok? && PrepareAdd(s.file.connections, draft).Ok? {
      var prepared := PrepareAdd(s.file.connections, draft).value;
      PreparedCarriesItsWrites(s.file.connections, draft);
      DraftMints(draft);
      OthersRefsAreNot(s.file, e, draft.id);
      CommitAddPreserves(s.world, fails, s.file, prepared, RefSet(e));
      PreservesThen(w, s.world, CommitAdd(s.world, fails, s.file, prepared).world, RefSet(e));
    }
  }

  lemma UpdatePreserves(w: W, fails: Schedule, cache: ConnectionFile, id: string, draft: EditDraft, e: ConnectionEntry)
    requires Settled(FileOn(w.disk)) && e in FileOn(w.disk).connections && id != e.id
    ensures Preserves(w, Update(w, fails, cache, true, id, draft).world, RefSet(e))
  {
    var s := Sync(w, fails, cache, true);
    SyncFacts(w, fails, cache, true);
    SyncPreserves(w, fails, cache, RefSet(e));
    var found := FindIndex(s.file.connections, id);
    if s.result.Ok? && found.Some? && PrepareUpdate(s.file.connections, s.file.connections[found.value], draft).Ok? {
      var i, marks := found.value, PrepareUpdate(s.file.connections, s.file.connections[found.value], draft).value;
      FieldsMint(id);
      OthersRefsAreNot(s.file, e, id);
      assert s.file.connections[i] in s.file.connections;
      CommitUpdatePreserves(s.world, fails, s.file, i, marks, draft, RefSet(e));
      PreservesThen(w, s.world, CommitUpdate(s.world, fails, s.file, i, marks, draft).world, RefSet(e));
    }
  }

  lemma DeletePreserves(w: W, fails: Schedule, cache: ConnectionFile, id: string, e: ConnectionEntry)
    requires Settled(FileOn(w.disk)) && e in FileOn(w.disk).connections && id != e.id
    ensures Preserves(w, Protocol.Delete(w, fails, cache, true, id).world, RefSet(e))
  {
    var s := Sync(w, fails, cache, true);
    SyncFacts(w, fails, cache, true);
    SyncPreserves(w, fails, cache, RefSet(e));
    var found := FindIndex(s.file.connections, id);
    if s.result.Ok? && found.Some? {
      var i := found.value;
      var removed := s.file.connections[i];
      assert removed in s.file.connections;
      OthersRefsAreNot(s.file, e, id);
      var next := s.file.(connections := RemoveAt(s.file.connections, i));
      var saved := Save(s.world, fails, next).0;
      SavePreserves(s.world, fails, next, RefSet(e));
      PreservesThen(w, s.world, saved, RefSet(e));
      DeletesPreserve(saved, fails, EntryRefs(removed), RefSet(e));
      PreservesThen(w, saved, DeleteAll(saved, fails, EntryRefs(removed)), RefSet(e));
    }
  }

  lemma MovePreserves(w: W, fails: Schedule, cache: ConnectionFile, id: string, index: nat, keys: set<string>)
    ensures Preserves(w, MoveTo(w, fails, cache, true, id, index).world, keys)
  {
    var s := Sync(w, fails, cache, true);
    SyncPreserves(w, fails, cache, keys);
    var found := FindIndex(s.file.connections, id);
    if s.result.Ok? && found.Some? && index < |s.file.connections| {
      var next := s.file.(connections := Moved(s.file.connections, found.value, index));
      SavePreserves(s.world, fails, next, keys);
      PreservesThen(w, s.world, Save(s.world, fails, next).0, keys);
    }
  }

  lemma MarkPreserves(w: W, fails: Schedule, cache: ConnectionFile, id: string, color: Option<string>,
                      tag: Option<string>,
                      keys: set<string>)
    ensures Preserves(w, SetMark(w, fails, cache, true, id, color, tag).world, keys)
  {
    var s := Sync(w, fails, cache, true);
    SyncPreserves(w, fails, cache, keys);
    var found := FindIndex(s.file.connections, id);
    if s.result.Ok? && found.Some? && NormalizeColor(color).Ok? && NormalizeTag(tag).Ok? {
      var i := found.value;
      var marked := s.file.connections[i].(color := NormalizeColor(color).value, tag := NormalizeTag(tag).value);
      var next := s.file.(connections := s.file.connections[i := marked]);
      SavePreserves(s.world, fails, next, keys);
      PreservesThen(w, s.world, Save(s.world, fails, next).0, keys);
    }
  }

  lemma ImportPreserves(w: W, fails: Schedule, cache: ConnectionFile, c: Command, e: ConnectionEntry)
    requires Disjoint(FileOn(w.disk)) && e in FileOn(w.disk).connections && c.ImportCall? && Spares(w, c, e.id)
    ensures Preserves(w, ImportBundle(w, fails, cache, true, c.blob, c.passphrase, c.mode).world, RefSet(e))
  {
    var file := FileOn(w.disk);
    if Decrypt(c.blob, c.passphrase).Ok? {
      var p := PlanFor(file, c.blob.payload, c.mode);
      PlanAllInv(file.connections, c.mode, c.blob.payload.secrets, c.blob.payload.connections.connections);
      ImportKeepsOwnership(w, fails, cache, true, c.blob.payload, c.passphrase, c.mode);
      assert RefSet(e) <= BystanderRefs(file, p);
    } else {
      SyncPreserves(w, fails, cache, RefSet(e));
    }
  }

  lemma ExecPreserves(w: W, fails: Schedule, cache: ConnectionFile, c: Command, e: ConnectionEntry)
    requires Settled(FileOn(w.disk)) && e in FileOn(w.disk).connections && Spares(w, c, e.id)
    ensures Preserves(w, Exec(w, fails, cache, c).world, RefSet(e))
  {
    match c
    case AddCall(draft) => AddPreserves(w, fails, cache, draft, e);
    case UpdateCall(id, edit) => UpdatePreserves(w, fails, cache, id, edit, e);
    case DeleteCall(id) => DeletePreserves(w, fails, cache, id, e);
    case MoveCall(id, index) => MovePreserves(w, fails, cache, id, index, RefSet(e));
    case MarkCall(id, color, tag) => MarkPreserves(w, fails, cache, id, color, tag, RefSet(e));
    case ImportCall(_, _, _) => ImportPreserves(w, fails, cache, c, e);
  }

  // -- whole runs ----------------------------------------------------------------------------

  /** The call does not aim at this id, and what an import takes in borrows no ref that another id would mint. */
  ghost predicate LeavesAlone(w: W, c: Command, id: string) {
    Spares(w, c, id) && TakenRefsObey(w, c, NotAnothers)
  }

  ghost function LeavesIdAlone(id: string): (W, Command) -> bool {
    (w: W, c: Command) => LeavesAlone(w, c, id)
  }

  /**
   A run never touches the secrets of an entry none of its calls aims at: under
   every schedule of failures, whatever cannot be read, no state along the way
   shows a different value in any slot the entry names, and the entry stays.
   */
  lemma {:induction false} RunKeepsOtherSecrets(w: W, fails: Schedule, cache: ConnectionFile, commands: seq<Command>,
                                                e: ConnectionEntry)
    requires Settled(FileOn(w.disk)) && e in FileOn(w.disk).connections
    requires AtEachCall(w, fails, cache, commands, LeavesIdAlone(e.id))
    ensures Preserves(w, Run(w, fails, cache, commands).0, RefSet(e))
    ensures e in FileOn(Run(w, fails, cache, commands).0.disk).connections
    decreases |commands|
  {
    if commands != [] {
      var c := commands[0];
      var o := Exec(w, fails, cache, c);
      assert LeavesIdAlone(e.id)(w, c);
      ExecPreserves(w, fails, cache, c, e);
      ExecChanges(w, fails, cache, c);
      if o.world.disk != w.disk {
        CallKeepsSettled(w, c, o.world.disk.file);
        CallSpares(FileOn(w.disk), o.world.disk.file, w, c, e);
      }
      RunKeepsOtherSecrets(o.world, fails, o.file, commands[1..], e);
      PreservesThen(w, o.world, Run(o.world, fails, o.file, commands[1..]).0, RefSet(e));
    }
  }
}
