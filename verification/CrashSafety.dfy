/** No call ever leaves, at any step, a file naming a secret the keychain does not hold. */
module CrashSafety {
  import opened Wrappers
  import opened Refs
  import opened Store
  import opened Machine
  import opened Drafts
  import opened Protocol
  import opened UndoLog
  import opened EditSteps

  type Snap = Snapshot<ConnectionFile>

  /** The file an admin that reads this disk would work on. */
  function FileOn(disk: Disk<ConnectionFile>): ConnectionFile {
    if disk.Present? then disk.file else EMPTY_FILE
  }

  ghost predicate Resolves(s: Snap) {
    FileRefs(FileOn(s.disk).connections) <= s.slots.Keys
  }

  /** Every ref on the file resolves now, and did after every effect so far. */
  ghost predicate Safe(w: W) {
    Resolves(Now(w)) && forall i | 0 <= i < |w.trace| :: Resolves(w.trace[i])
  }

  /** The admin will work on what is on disk: it re-reads it, or its cache matches. */
  ghost predicate Current(w: W, cache: ConnectionFile, tracks: bool) {
    tracks || cache == FileOn(w.disk)
  }

  lemma PhaseKeepsSafe(w: W, w': W, touched: set<string>, dropped: set<string>)
    requires Safe(w) && Phase(w, w', touched, dropped)
    requires FileRefs(FileOn(w.disk).connections) !! dropped
    ensures Safe(w')
  {
    forall i | 0 <= i < |w'.trace|
      ensures Resolves(w'.trace[i])
    {
      if i < |w.trace| {
        assert w'.trace[i] == w.trace[i];
      } else {
        assert Within(w, w'.trace[i], touched, dropped);
      }
    }
  }

  lemma SaveKeepsSafe(w: W, fails: Schedule, next: ConnectionFile)
    requires Safe(w) && FileRefs(next.connections) <= w.slots.Keys
    ensures Safe(Save(w, fails, next).0)
  {
  }

  lemma SyncFacts(w: W, fails: Schedule, cache: ConnectionFile, tracks: bool)
    requires Current(w, cache, tracks)
    ensures var s := Sync(w, fails, cache, tracks);
            && Phase(w, s.world, {}, {})
            && (s.result.Ok? ==> s.file == FileOn(w.disk))
  {
    if tracks && w.disk.Present? {
      ParseAcceptsExactlyLoadable(w.disk.file);
    }
  }

  lemma ReadSucceeds(w: W, fails: Schedule, cache: ConnectionFile, tracks: bool)
    requires (tracks ==> !w.disk.Garbage?) && Loadable(FileOn(w.disk)) && !fails(LoadEffect, w.tick)
    ensures var s := Sync(w, fails, cache, tracks); s.result.Ok? && s.world.tick == w.tick + if tracks then 1 else 0
  {
    ParseAcceptsExactlyLoadable(FileOn(w.disk));
  }

  // -- add -----------------------------------------------------------------------

  /** The secrets a draft carries, under the refs its id mints. */
  function DraftWrites(draft: ConnectionDraft): seq<SecretWrite> {
    BuildKind(draft.id, draft.kind).1 + if draft.ssh.Some? then BuildSsh(draft.id, draft.ssh.value).1 else []
  }

  lemma KindCarriesItsWrites(id: string, draft: KindDraft)
    ensures var (kind, writes) := BuildKind(id, draft); KeyRefs(writes) == KindRefs(kind)
  {
  }

  lemma SshCarriesItsWrites(id: string, draft: SshDraft)
    ensures var (ssh, writes) := BuildSsh(id, draft); KeyRefs(writes) == SshRefs(Some(ssh))
  {
  }

  lemma KeyRefsOfConcat(a: seq<SecretWrite>, b: seq<SecretWrite>)
    ensures KeyRefs(a + b) == KeyRefs(a) + KeyRefs(b)
  {
  }

  lemma WriteRefsInOrder(writes: seq<SecretWrite>)
    ensures forall r :: r in WriteRefs(writes) <==> r in KeyRefs(writes)
  {
    forall r | r in WriteRefs(writes)
      ensures r in KeyRefs(writes)
    {
      var i :| 0 <= i < |writes| && writes[i].keyRef == r;
      assert KeyRefs(writes)[i] == r;
    }
  }

  lemma PreparedCarriesItsWrites(entries: seq<ConnectionEntry>, draft: ConnectionDraft)
    requires PrepareAdd(entries, draft).Ok?
    ensures var p := PrepareAdd(entries, draft).value;
            p.writes == DraftWrites(draft) && RefSet(p.entry) == WriteRefs(p.writes)
                && KeyRefs(p.writes) == EntryRefs(p.entry)
  {
    var p := PrepareAdd(entries, draft).value;
    var kindWrites := BuildKind(draft.id, draft.kind).1;
    KindCarriesItsWrites(draft.id, draft.kind);
    if draft.ssh.Some? {
      var (ssh, more) := BuildSsh(draft.id, draft.ssh.value);
      SshCarriesItsWrites(draft.id, draft.ssh.value);
      KeyRefsOfConcat(kindWrites, more);
      assert p.entry.ssh == Some(ssh) && p.writes == kindWrites + more;
    } else {
      assert p.writes == kindWrites && kindWrites + [] == kindWrites;
    }
    WriteRefsInOrder(p.writes);
  }

  lemma CommitAddKeepsSafe(w: W, fails: Schedule, file: ConnectionFile, prepared: Prepared)
    requires Safe(w) && file == FileOn(w.disk)
    requires RefSet(prepared.entry) == WriteRefs(prepared.writes)
    requires WriteRefs(prepared.writes) !! FileRefs(file.connections)
    ensures Safe(CommitAdd(w, fails, file, prepared).world)
  {
    var Prepared(entry, writes) := prepared;
    var (w1, n, error) := SetAll(w, fails, writes);
    SetAllPhase(w, fails, writes);
    PhaseKeepsSafe(w, w1, WriteRefs(writes), {});
    var next := file.(connections := file.connections + [entry]);
    FileRefsOfConcat(file.connections, [entry]);
    FileRefsOfOne(entry);
    var saved := Save(w1, fails, next).0;
    if error.None? {
      SaveKeepsSafe(w1, fails, next);
    }
    var start := if error.Some? then w1 else saved;
    var refs := KeyRefs(if error.Some? then writes[..n] else writes);
    var dropped := set r | r in refs;
    assert dropped <= WriteRefs(writes);
    DeleteAllPhase(start, fails, refs);
    if error.Some? || fails(SaveEffect, w1.tick) {
      PhaseKeepsSafe(start, DeleteAll(start, fails, refs), dropped, dropped);
    }
  }

  /** `add` keeps every step safe as long as no stored entry already uses a ref the draft is about to mint. */
  lemma AddKeepsSafe(w: W, fails: Schedule, cache: ConnectionFile, tracks: bool, draft: ConnectionDraft)
    requires Safe(w) && Current(w, cache, tracks)
    requires PrepareAdd(FileOn(w.disk).connections, draft).Ok? ==>
               WriteRefs(DraftWrites(draft)) !! FileRefs(FileOn(w.disk).connections)
    ensures Safe(Add(w, fails, cache, tracks, draft).world)
  {
    var s := Sync(w, fails, cache, tracks);
    SyncFacts(w, fails, cache, tracks);
    PhaseKeepsSafe(w, s.world, {}, {});
    if s.result.Ok? && PrepareAdd(s.file.connections, draft).Ok? {
      PreparedCarriesItsWrites(s.file.connections, draft);
      CommitAddKeepsSafe(s.world, fails, s.file, PrepareAdd(s.file.connections, draft).value);
    }
  }

  lemma {:induction false} DeleteAllRemoves<F>(w: World<F>, fails: Schedule, refs: seq<string>)
    requires forall t: nat :: !fails(DeleteEffect, t)
    ensures DeleteAll(w, fails, refs).slots == w.slots - (set r | r in refs)
    ensures DeleteAll(w, fails, refs).disk == w.disk
    decreases |refs|
  {
    if refs != [] {
      var w1 := Machine.Delete(w, fails, refs[0]).0;
      DeleteAllRemoves(w1, fails, refs[1..]);
      assert w1.slots == w.slots - {refs[0]};
      assert (set r | r in refs) == {refs[0]} + (set r | r in refs[1..]);
      assert w.slots - {refs[0]} - (set r | r in refs[1..]) == w.slots - (set r | r in refs);
    }
  }

  lemma {:induction false} SetAllSucceeds<F>(w: World<F>, fails: Schedule, writes: seq<SecretWrite>)
    requires forall t: nat :: !fails(SetEffect, t)
    ensures SetAll(w, fails, writes).2.None? && SetAll(w, fails, writes).0.tick == w.tick + |writes|
    decreases |writes|
  {
    if writes != [] {
      SetAllSucceeds(Set(w, fails, writes[0].keyRef, writes[0].value).0, fails, writes[1..]);
    }
  }

  /** The schedule on which exactly one thing fails: a save at tick `at`. */
  function SaveFailsAt(at: nat): Schedule {
    (e: Effect, t: nat) => e.SaveEffect? && t == at
  }

  ghost predicate OnlyASaveFails(fails: Schedule, at: nat) {
    forall e, t :: fails(e, t) <==> e.SaveEffect? && t == at
  }

  /** When only the save fails, every slot the draft wrote ends up empty, whatever it held before. */
  lemma FailedSaveEmptiesItsSlots(w: W, file: ConnectionFile, prepared: Prepared)
    ensures var end := CommitAdd(w, SaveFailsAt(w.tick + |prepared.writes|), file, prepared);
            && end.world.disk == w.disk && end.world.slots.Keys !! WriteRefs(prepared.writes)
                && end.result == Err(IoFailed)
  {
    var writes := prepared.writes;
    var fails := SaveFailsAt(w.tick + |writes|);
    var w1 := SetAll(w, fails, writes).0;
    SetAllPhase(w, fails, writes);
    SetAllSucceeds(w, fails, writes);
    DeleteAllRemoves(Tick(w1), fails, KeyRefs(writes));
    forall r | r in WriteRefs(writes)
      ensures r in KeyRefs(writes)
    {
      var i :| 0 <= i < |writes| && writes[i].keyRef == r;
      assert KeyRefs(writes)[i] == r;
    }
  }

  /** Past its checks, `add` is its commit on the file it read. */
  lemma AddIsItsCommit(w: W, fails: Schedule, cache: ConnectionFile, tracks: bool, draft: ConnectionDraft)
    requires Current(w, cache, tracks) && Sync(w, fails, cache, tracks).result.Ok?
    requires PrepareAdd(FileOn(w.disk).connections, draft).Ok?
    ensures Add(w, fails, cache, tracks, draft)
         == CommitAdd(Sync(w, fails, cache, tracks).world, fails, FileOn(w.disk),
             PrepareAdd(FileOn(w.disk).connections, draft).value)
  {
    SyncFacts(w, fails, cache, tracks);
  }

  lemma OneSaveIsOneFault(at: nat, lo: nat)
    ensures OneFault(SaveFailsAt(at), lo)
  {
  }

  /** Gives the schedule on which the only failure of this `add` is its save. */
  lemma AddWithFailedSave(w: W, cache: ConnectionFile, tracks: bool, draft: ConnectionDraft) returns (fails: Schedule)
    requires Current(w, cache, tracks) && !w.disk.Garbage? && Loadable(FileOn(w.disk))
    requires PrepareAdd(FileOn(w.disk).connections, draft).Ok?
    ensures OneFault(fails, w.tick)
    ensures var end := Add(w, fails, cache, tracks, draft);
            && end.world.disk == w.disk && end.world.slots.Keys !! WriteRefs(DraftWrites(draft))
                && end.result == Err(IoFailed)
  {
    var file := FileOn(w.disk);
    var start := w.tick + if tracks then 1 else 0;
    fails := SaveFailsAt(start + |DraftWrites(draft)|);
    OneSaveIsOneFault(start + |DraftWrites(draft)|, w.tick);
    SyncFacts(w, fails, cache, tracks);
    ParseAcceptsExactlyLoadable(file);
    PreparedCarriesItsWrites(file.connections, draft);
    AddIsItsCommit(w, fails, cache, tracks, draft);
    FailedSaveEmptiesItsSlots(Sync(w, fails, cache, tracks).world, file, PrepareAdd(file.connections, draft).value);
  }

  /**
   The condition is exact: for a draft that passes the checks, `add` is safe
   under every schedule if and only if no stored entry uses a ref it mints. If
   one does, a failed save alone deletes that entry's secret.
   */
  lemma AddIsSafeIffItsRefsAreUnused(w: W, cache: ConnectionFile, tracks: bool, draft: ConnectionDraft)
    requires Safe(w) && Current(w, cache, tracks) && !w.disk.Garbage? && Loadable(FileOn(w.disk))
    requires PrepareAdd(FileOn(w.disk).connections, draft).Ok?
    ensures (forall fails :: Safe(Add(w, fails, cache, tracks, draft).world))
            <==> WriteRefs(DraftWrites(draft)) !! FileRefs(FileOn(w.disk).connections)
  {
    var file := FileOn(w.disk);
    if WriteRefs(DraftWrites(draft)) !! FileRefs(file.connections) {
      forall fails
        ensures Safe(Add(w, fails, cache, tracks, draft).world)
      {
        AddKeepsSafe(w, fails, cache, tracks, draft);
      }
    } else {
      var r :| r in WriteRefs(DraftWrites(draft)) && r in FileRefs(file.connections);
      var fails := AddWithFailedSave(w, cache, tracks, draft);
      assert !Resolves(Now(Add(w, fails, cache, tracks, draft).world));
    }
  }

  // -- update ----------------------------------------------------------------------

  lemma WithoutSpec(refs: seq<string>, kept: set<string>)
    ensures forall r :: r in Without(refs, kept) <==> r in refs && r !in kept
  {
  }

  lemma FileRefsAfterReplace(entries: seq<ConnectionEntry>, i: nat, e: ConnectionEntry)
    requires i < |entries|
    ensures FileRefs(entries[i := e]) == FileRefs(RemoveAt(entries, i)) + RefSet(e)
  {
    FileRefsAround(entries[i := e], i);
    assert RemoveAt(entries[i := e], i) == RemoveAt(entries, i);
  }

  const BLANK: W := World(Absent, map[], 0, [])

  /** What the request itself, with nothing failing, makes of an entry's kind and tunnel. */
  function RequestedShape(existing: ConnectionEntry, draft: EditDraft): Result<Reshaped, ConfigError> {
    ApplySecrets(BLANK, NEVER, existing, draft).result
  }

  /** The refs the edited entry no longer carries, if the request is in order. */
  function DroppedRefs(existing: ConnectionEntry, draft: EditDraft): set<string> {
    var shape := RequestedShape(existing, draft);
    if shape.Ok? then RefSet(existing) - RefSet(existing.(kind := shape.value.kind, ssh := shape.value.ssh)) else {}
  }

  lemma KindShapeIsRequested(w: W, fails: Schedule, w': W, existing: ConnectionEntry, edit: KindEdit)
    requires ApplyUpdateKind(w, fails, existing.id, existing.kind, edit).result.Ok?
    ensures ApplyUpdateKind(w', NEVER, existing.id, existing.kind, edit).result
         == ApplyUpdateKind(w, fails, existing.id, existing.kind, edit).result
  {
  }

  lemma TunnelShapeIsRequested(w: W, fails: Schedule, undo: seq<UndoRecord>, w': W, undo': seq<UndoRecord>,
                               existing: ConnectionEntry, edit: SshEditField)
    requires ApplyUpdateSsh(w, fails, existing.id, edit, existing.ssh, undo).result.Ok?
    ensures ApplyUpdateSsh(w', NEVER, existing.id, edit, existing.ssh, undo').result
         == ApplyUpdateSsh(w, fails, existing.id, edit, existing.ssh, undo).result
  {
    if edit.SetTunnel? {
      var auth := ApplySshAuth(w, fails, existing.id, edit.edit.auth, existing.ssh, undo);
      var auth' := ApplySshAuth(w', NEVER, existing.id, edit.edit.auth, existing.ssh, undo');
      assert auth.result.Ok? && auth'.result == auth.result;
    }
  }

  /** An edit whose secrets are written has the requested shape, whatever the stores hold and whatever else fails. */
  lemma ShapeIsRequested(w: W, fails: Schedule, existing: ConnectionEntry, draft: EditDraft)
    requires ApplySecrets(w, fails, existing, draft).result.Ok?
    ensures ApplySecrets(w, fails, existing, draft).result == RequestedShape(existing, draft)
  {
    var kind := ApplyUpdateKind(w, fails, existing.id, existing.kind, draft.kind);
    var kind' := ApplyUpdateKind(BLANK, NEVER, existing.id, existing.kind, draft.kind);
    KindShapeIsRequested(w, fails, BLANK, existing, draft.kind);
    TunnelShapeIsRequested(kind.world, fails, kind.undo, kind'.world, kind'.undo, existing, draft.ssh);
  }

  lemma DroppedRefsAreOrphans(w: W, fails: Schedule, existing: ConnectionEntry, draft: EditDraft, marks: Marks)
    requires ApplySecrets(w, fails, existing, draft).result.Ok?
    ensures var entry := EditedEntry(existing, draft, marks, ApplySecrets(w, fails, existing, draft).result.value);
            (set r | r in Orphans(existing, entry)) == DroppedRefs(existing, draft)
  {
    ShapeIsRequested(w, fails, existing, draft);
    var entry := EditedEntry(existing, draft, marks, ApplySecrets(w, fails, existing, draft).result.value);
    WithoutSpec(EntryRefs(existing), RefSet(entry));
  }

  lemma CommitUpdateKeepsSafe(w: W, fails: Schedule, file: ConnectionFile, i: nat, marks: Marks, draft: EditDraft)
    requires Safe(w) && file == FileOn(w.disk) && i < |file.connections|
    requires DroppedRefs(file.connections[i], draft) !! FileRefs(RemoveAt(file.connections, i))
    ensures Safe(CommitUpdate(w, fails, file, i, marks, draft).world)
  {
    var existing := file.connections[i];
    var live := FileRefs(file.connections);
    FileRefsAround(file.connections, i);
    var a := ApplySecrets(w, fails, existing, draft);
    ApplySecretsLogged(w, fails, existing, draft);
    assert a.undo[0..] == a.undo;
    PhaseKeepsSafe(w, a.world, UndoRefs(a.undo), {});
    assert Created(a.undo) !! live by {
      forall r | r in Created(a.undo)
        ensures r !in live
      {
        var x :| x in a.undo && x.prior.None? && x.keyRef == r;
      }
    }
    if a.result.Err? {
      ReplayPhase(a.world, fails, a.undo);
      PhaseKeepsSafe(a.world, Replay(a.world, fails, a.undo), UndoRefs(a.undo), Created(a.undo));
    } else {
      var entry := EditedEntry(existing, draft, marks, a.result.value);
      DroppedRefsAreOrphans(w, fails, existing, draft, marks);
      SavedEditKeepsSafe(a.world, fails, file, i, entry, a.undo);
    }
  }

  /** The save of an edit whose secrets are written, and what follows it. */
  lemma SavedEditKeepsSafe(w: W, fails: Schedule, file: ConnectionFile, i: nat, entry: ConnectionEntry,
                           undo: seq<UndoRecord>)
    requires i < |file.connections| && Safe(w) && file == FileOn(w.disk) && Created(undo) !! FileRefs(file.connections)
    requires RefSet(entry) <= RefSet(file.connections[i]) + w.slots.Keys
    requires (set r | r in Orphans(file.connections[i], entry)) !! FileRefs(RemoveAt(file.connections, i))
    ensures var (saved, ok) := Save(w, fails, file.(connections := file.connections[i := entry]));
            Safe(if ok then DeleteAll(saved, fails, Orphans(file.connections[i], entry))
                else Replay(saved, fails, undo))
  {
    FileRefsAround(file.connections, i);
    FileRefsAfterReplace(file.connections, i, entry);
    WithoutSpec(EntryRefs(file.connections[i]), RefSet(entry));
    SaveAndPurgeKeepSafe(w, fails, file.(connections := file.connections[i := entry]),
        Orphans(file.connections[i], entry), undo);
  }

  /**
   A save of a file whose refs are all there, then the replay of a log that created
   none of the live ones, or a purge of unused refs.
   */
  lemma SaveAndPurgeKeepSafe(w: W, fails: Schedule, next: ConnectionFile, orphans: seq<string>, undo: seq<UndoRecord>)
    requires Safe(w) && FileRefs(next.connections) <= w.slots.Keys
    requires Created(undo) !! FileRefs(FileOn(w.disk).connections)
             && (set r | r in orphans) !! FileRefs(next.connections)
    ensures var (saved, ok) := Save(w, fails, next);
            Safe(if ok then DeleteAll(saved, fails, orphans) else Replay(saved, fails, undo))
  {
    var (saved, ok) := Save(w, fails, next);
    SaveKeepsSafe(w, fails, next);
    if ok {
      var dropped := set r | r in orphans;
      DeleteAllPhase(saved, fails, orphans);
      PhaseKeepsSafe(saved, DeleteAll(saved, fails, orphans), dropped, dropped);
    } else {
      ReplayPhase(saved, fails, undo);
      PhaseKeepsSafe(saved, Replay(saved, fails, undo), UndoRefs(undo), Created(undo));
    }
  }

  /** The entry called `id`, if any, shares no ref with the others. */
  ghost predicate RefsNotShared(entries: seq<ConnectionEntry>, id: string) {
    var found := FindIndex(entries, id);
    found.Some? ==> RefSet(entries[found.value]) !! FileRefs(RemoveAt(entries, found.value))
  }

  /** An edit that passes its checks drops no ref that another entry carries. */
  ghost predicate DropsNoSharedRef(entries: seq<ConnectionEntry>, id: string, draft: EditDraft) {
    var found := FindIndex(entries, id);
    found.Some? && PrepareUpdate(entries, entries[found.value], draft).Ok? ==>
      DroppedRefs(entries[found.value], draft) !! FileRefs(RemoveAt(entries, found.value))
  }

  /** `update` keeps every step safe, whichever fields it edits and even if its own rollback fails. */
  lemma UpdateKeepsSafe(w: W, fails: Schedule, cache: ConnectionFile, tracks: bool, id: string, draft: EditDraft)
    requires Safe(w) && Current(w, cache, tracks) && DropsNoSharedRef(FileOn(w.disk).connections, id, draft)
    ensures Safe(Update(w, fails, cache, tracks, id, draft).world)
  {
    var s := Sync(w, fails, cache, tracks);
    SyncFacts(w, fails, cache, tracks);
    PhaseKeepsSafe(w, s.world, {}, {});
    if s.result.Ok? {
      var found := FindIndex(s.file.connections, id);
      if found.Some? {
        var marks := PrepareUpdate(s.file.connections, s.file.connections[found.value], draft);
        if marks.Ok? {
          CommitUpdateKeepsSafe(s.world, fails, s.file, found.value, marks.value, draft);
        }
      }
    }
  }

  /** With nothing failing, a request in order goes through. */
  lemma QuietEditSucceeds(w: W, existing: ConnectionEntry, draft: EditDraft)
    requires RequestedShape(existing, draft).Ok?
    ensures ApplySecrets(w, NEVER, existing, draft).result.Ok?
  {
    var kind := ApplyUpdateKind(BLANK, NEVER, existing.id, existing.kind, draft.kind);
    var kind' := ApplyUpdateKind(w, NEVER, existing.id, existing.kind, draft.kind);
    KindShapeIsRequested(BLANK, NEVER, w, existing, draft.kind);
    if !(draft.ssh.SetTunnel? && !kind.result.value.SupportsSshTunnel()) {
      TunnelShapeIsRequested(kind.world, NEVER, kind.undo, kind'.world, kind'.undo, existing, draft.ssh);
    }
  }

  /** With nothing failing at all, the purge empties a slot another entry still names. */
  lemma DroppingASharedRefDangles(w: W, file: ConnectionFile, i: nat, marks: Marks, draft: EditDraft)
    requires i < |file.connections|
    requires !(DroppedRefs(file.connections[i], draft) !! FileRefs(RemoveAt(file.connections, i)))
    ensures !Resolves(Now(CommitUpdate(w, NEVER, file, i, marks, draft).world))
  {
    var existing := file.connections[i];
    var r :| r in DroppedRefs(existing, draft) && r in FileRefs(RemoveAt(file.connections, i));
    QuietEditSucceeds(w, existing, draft);
    var a := ApplySecrets(w, NEVER, existing, draft);
    var entry := EditedEntry(existing, draft, marks, a.result.value);
    var next := file.(connections := file.connections[i := entry]);
    DroppedRefsAreOrphans(w, NEVER, existing, draft, marks);
    FileRefsAfterReplace(file.connections, i, entry);
    DeleteAllRemoves(Save(a.world, NEVER, next).0, NEVER, Orphans(existing, entry));
    assert r in FileRefs(next.connections);
  }

  /** Exact: an update is safe under every schedule if and only if it drops no ref that another entry carries. */
  lemma UpdateIsSafeIffNoSharedRefIsDropped(w: W, cache: ConnectionFile, tracks: bool, id: string, draft: EditDraft)
    requires Safe(w) && Current(w, cache, tracks) && !w.disk.Garbage? && Loadable(FileOn(w.disk))
    ensures (forall fails :: Safe(Update(w, fails, cache, tracks, id, draft).world))
            <==> DropsNoSharedRef(FileOn(w.disk).connections, id, draft)
  {
    if DropsNoSharedRef(FileOn(w.disk).connections, id, draft) {
      forall fails
        ensures Safe(Update(w, fails, cache, tracks, id, draft).world)
      {
        UpdateKeepsSafe(w, fails, cache, tracks, id, draft);
      }
    } else {
      DroppingUpdateDangles(w, cache, tracks, id, draft);
    }
  }

  lemma DroppingUpdateDangles(w: W, cache: ConnectionFile, tracks: bool, id: string, draft: EditDraft)
    requires Current(w, cache, tracks) && !w.disk.Garbage? && Loadable(FileOn(w.disk))
    requires !DropsNoSharedRef(FileOn(w.disk).connections, id, draft)
    ensures !Safe(Update(w, NEVER, cache, tracks, id, draft).world)
  {
    SyncFacts(w, NEVER, cache, tracks);
    ReadSucceeds(w, NEVER, cache, tracks);
    var s := Sync(w, NEVER, cache, tracks);
    var i := FindIndex(s.file.connections, id).value;
    var marks := PrepareUpdate(s.file.connections, s.file.connections[i], draft).value;
    DroppingASharedRefDangles(s.world, s.file, i, marks, draft);
  }

  // -- delete ------------------------------------------------------------------------

  lemma DeleteKeepsSafe(w: W, fails: Schedule, cache: ConnectionFile, tracks: bool, id: string)
    requires Safe(w) && Current(w, cache, tracks) && RefsNotShared(FileOn(w.disk).connections, id)
    ensures Safe(Protocol.Delete(w, fails, cache, tracks, id).world)
  {
    var s := Sync(w, fails, cache, tracks);
    SyncFacts(w, fails, cache, tracks);
    PhaseKeepsSafe(w, s.world, {}, {});
    var found := FindIndex(s.file.connections, id);
    if s.result.Ok? && found.Some? {
      var removed := s.file.connections[found.value];
      var next := s.file.(connections := RemoveAt(s.file.connections, found.value));
      FileRefsAround(s.file.connections, found.value);
      SaveKeepsSafe(s.world, fails, next);
      var saved := Save(s.world, fails, next).0;
      if !fails(SaveEffect, s.world.tick) {
        DeleteAllPhase(saved, fails, EntryRefs(removed));
        PhaseKeepsSafe(saved, DeleteAll(saved, fails, EntryRefs(removed)), RefSet(removed), RefSet(removed));
      }
    }
  }

  /** Exact again: deleting an entry is safe under every schedule if and only if no other entry uses its refs. */
  lemma DeleteIsSafeIffRefsNotShared(w: W, cache: ConnectionFile, tracks: bool, id: string)
    requires Safe(w) && Current(w, cache, tracks) && !w.disk.Garbage? && Loadable(FileOn(w.disk))
    ensures (forall fails :: Safe(Protocol.Delete(w, fails, cache, tracks, id).world))
            <==> RefsNotShared(FileOn(w.disk).connections, id)
  {
    var file := FileOn(w.disk);
    if RefsNotShared(file.connections, id) {
      forall fails
        ensures Safe(Protocol.Delete(w, fails, cache, tracks, id).world)
      {
        DeleteKeepsSafe(w, fails, cache, tracks, id);
      }
    } else {
      SharingDeleteDangles(w, cache, tracks, id);
    }
  }

  /** With nothing failing at all, the purge empties a slot another entry still names. */
  lemma SharingDeleteDangles(w: W, cache: ConnectionFile, tracks: bool, id: string)
    requires Current(w, cache, tracks) && !w.disk.Garbage? && Loadable(FileOn(w.disk))
    requires !RefsNotShared(FileOn(w.disk).connections, id)
    ensures !Safe(Protocol.Delete(w, NEVER, cache, tracks, id).world)
  {
    var s := Sync(w, NEVER, cache, tracks);
    SyncFacts(w, NEVER, cache, tracks);
    ReadSucceeds(w, NEVER, cache, tracks);
    var i := FindIndex(s.file.connections, id).value;
    var rest := RemoveAt(s.file.connections, i);
    var r :| r in RefSet(s.file.connections[i]) && r in FileRefs(rest);
    var saved := Save(s.world, NEVER, s.file.(connections := rest)).0;
    DeleteAllRemoves(saved, NEVER, EntryRefs(s.file.connections[i]));
    assert r !in DeleteAll(saved, NEVER, EntryRefs(s.file.connections[i])).slots;
  }
}
