/** Whole runs: what every sequence of calls, under every schedule of failures, keeps true. */
module Runs {
  import opened Wrappers
  import opened Refs
  import opened Store
  import opened Machine
  import opened Drafts
  import opened Protocol
  import opened UndoLog
  import opened EditSteps
  import opened CrashSafety
  import opened Import
  import opened ImportFacts
  import opened ImportSafety

  datatype Command =
    | AddCall(draft: ConnectionDraft)
    | UpdateCall(id: string, edit: EditDraft)
    | DeleteCall(id: string)
    | MoveCall(id: string, index: nat)
    | MarkCall(id: string, color: Option<string>, tag: Option<string>)
    | ImportCall(blob: Blob, passphrase: string, mode: ImportMode)

  datatype Reply = Entry(entry: ConnectionEntry) | Report(report: ImportReport) | Done

  function WithReply<R>(o: Outcome<R>, wrap: R -> Reply): Outcome<Reply> {
    Outcome(o.world, o.file, if o.result.Ok? then Ok(wrap(o.result.value)) else Err(o.result.error))
  }

  function Exec(w: W, fails: Schedule, cache: ConnectionFile, c: Command): Outcome<Reply> {
    match c
    case AddCall(draft) => WithReply(Add(w, fails, cache, true, draft), e => Entry(e))
    case UpdateCall(id, edit) => WithReply(Update(w, fails, cache, true, id, edit), e => Entry(e))
    case DeleteCall(id) => WithReply(Protocol.Delete(w, fails, cache, true, id), _ => Done)
    case MoveCall(id, index) => WithReply(MoveTo(w, fails, cache, true, id, index), _ => Done)
    case MarkCall(id, color, tag) => WithReply(SetMark(w, fails, cache, true, id, color, tag), _ => Done)
    case ImportCall(blob, passphrase, mode) => WithReply(ImportBundle(w, fails, cache, true, blob, passphrase, mode),
        r => Report(r))
  }

  type Replies = seq<Result<Reply, ConfigError>>

  /** One disk-tracking admin making the calls in order. */
  function Run(w: W, fails: Schedule, cache: ConnectionFile, commands: seq<Command>): (W, Replies)
    decreases |commands|
  {
    if commands == [] then (w, [])
    else
      var o := Exec(w, fails, cache, commands[0]);
      var (w', replies) := Run(o.world, fails, o.file, commands[1..]);
      (w', [o.result] + replies)
  }

  // -- several admins refine one ------------------------------------------------------

  datatype Call = Call(admin: nat, command: Command)

  /** Several admins on one path and keychain, each with its own cached file, taking turns. */
  function RunMany(w: W, fails: Schedule, caches: seq<ConnectionFile>, calls: seq<Call>): (W, Replies)
    requires forall c | c in calls :: c.admin < |caches|
    decreases |calls|
  {
    if calls == [] then (w, [])
    else
      var Call(i, command) := calls[0];
      assert calls[0] in calls;
      var o := Exec(w, fails, caches[i], command);
      var (w', replies) := RunMany(o.world, fails, caches[i := o.file], calls[1..]);
      (w', [o.result] + replies)
  }

  /** What an admin that tracks the disk had cached never shows in the stores or in the answer. */
  lemma CacheNeverMatters(w: W, fails: Schedule, cache: ConnectionFile, cache': ConnectionFile, c: Command)
    ensures Exec(w, fails, cache, c).world == Exec(w, fails, cache', c).world
    ensures Exec(w, fails, cache, c).result == Exec(w, fails, cache', c).result
  {
  }

  function Commands(calls: seq<Call>): seq<Command> {
    if calls == [] then [] else [calls[0].command] + Commands(calls[1..])
  }

  /**
   Any interleaving of whole calls by any number of admins leaves the same disk,
   keychain and answers as one admin making the same calls in the same order.
   */
  lemma {:induction false} ManyAdminsRefineOne(w: W, fails: Schedule, caches: seq<ConnectionFile>, calls: seq<Call>,
                                               cache: ConnectionFile)
    requires forall c | c in calls :: c.admin < |caches|
    ensures RunMany(w, fails, caches, calls) == Run(w, fails, cache, Commands(calls))
    decreases |calls|
  {
    if calls != [] {
      var Call(i, command) := calls[0];
      assert calls[0] in calls;
      var o, o' := Exec(w, fails, caches[i], command), Exec(w, fails, cache, command);
      CacheNeverMatters(w, fails, caches[i], cache, command);
      assert Commands(calls)[1..] == Commands(calls[1..]);
      ManyAdminsRefineOne(o.world, fails, caches[i := o.file], calls[1..], o'.file);
    }
  }

  // -- what one call can do to the file --------------------------------------------------

  function MintableRefs(id: string): set<string> {
    set f | f in FIELDS :: KeyringRef(id, f)
  }

  /** The entry's alias is free among the others. */
  predicate AliasFits(entries: seq<ConnectionEntry>, e: ConnectionEntry) {
    e.mcpAlias.Some? ==> !HandleTaken(entries, e.mcpAlias.value, e.id)
  }

  ghost predicate Appends(before: ConnectionFile, after: ConnectionFile, e: ConnectionEntry) {
    && after == before.(connections := before.connections + [e])
    && FindIndex(before.connections, e.id).None? && !HandleTaken(before.connections, e.id, e.id)
    && AliasFits(before.connections, e) && TunnelOk(e) && RefSet(e) <= MintableRefs(e.id)
  }

  ghost predicate ReplacesAt(before: ConnectionFile, after: ConnectionFile, i: nat, e: ConnectionEntry) {
    && i < |before.connections| && after == before.(connections := before.connections[i := e])
    && var was := before.connections[i];
    && e.id == was.id && (e.mcpAlias == was.mcpAlias || AliasFits(before.connections, e))
    && (TunnelOk(was) ==> TunnelOk(e)) && RefSet(e) <= RefSet(was) + MintableRefs(e.id)
  }

  ghost predicate RemovesAt(before: ConnectionFile, after: ConnectionFile, i: nat) {
    i < |before.connections| && after == before.(connections := RemoveAt(before.connections, i))
  }

  ghost predicate MovesEntry(before: ConnectionFile, after: ConnectionFile, i: nat, j: nat) {
    && i < |before.connections| && j < |before.connections|
    && after == before.(connections := Moved(before.connections, i, j))
  }

  /** One entry called `id` was appended, edited in place, removed or moved, and nothing else changed. */
  ghost predicate Edited(before: ConnectionFile, after: ConnectionFile, id: string) {
    || before == after
    || (exists e: ConnectionEntry :: e.id == id && Appends(before, after, e))
    || (exists i: nat, e: ConnectionEntry :: e.id == id && ReplacesAt(before, after, i, e))
    || (exists i: nat :: RemovesAt(before, after, i) && before.connections[i].id == id)
    || (exists i: nat, j: nat :: MovesEntry(before, after, i, j))
  }

  function Target(c: Command): string
    requires !c.ImportCall?
  {
    if c.AddCall? then c.draft.id else c.id
  }

  lemma FieldsMint(id: string)
    ensures forall adapter :: KeyringRef(id, AdapterField(adapter)) in MintableRefs(id)
    ensures EditRefs(id) <= MintableRefs(id)
  {
    assert forall adapter :: AdapterField(adapter) in FIELDS;
    assert SSH_PASSPHRASE_FIELD in FIELDS && SSH_PASSWORD_FIELD in FIELDS && FIRESTORE_FIELD in FIELDS;
  }

  lemma DraftMints(draft: ConnectionDraft)
    ensures WriteRefs(DraftWrites(draft)) <= MintableRefs(draft.id)
  {
    FieldsMint(draft.id);
  }

  /** What `add` checks about the entry it makes. */
  lemma AddedEntryFits(entries: seq<ConnectionEntry>, draft: ConnectionDraft)
    requires PrepareAdd(entries, draft).Ok?
    ensures var e := PrepareAdd(entries, draft).value.entry;
            && e.id == draft.id && FindIndex(entries, e.id).None? && !HandleTaken(entries, e.id, e.id)
            && AliasFits(entries, e) && TunnelOk(e)
  {
  }

  lemma AddAppends(before: ConnectionFile, draft: ConnectionDraft)
    requires PrepareAdd(before.connections, draft).Ok?
    ensures var e := PrepareAdd(before.connections, draft).value.entry;
            Appends(before, before.(connections := before.connections + [e]), e) && e.id == draft.id
  {
    AddedEntryFits(before.connections, draft);
    PreparedCarriesItsWrites(before.connections, draft);
    DraftMints(draft);
  }

  lemma UpdateReplaces(w: W, fails: Schedule, before: ConnectionFile, i: nat, draft: EditDraft)
    requires i < |before.connections|
    requires PrepareUpdate(before.connections, before.connections[i], draft).Ok?
    requires ApplySecrets(w, fails, before.connections[i], draft).result.Ok?
    ensures var was := before.connections[i];
            var e := EditedEntry(was, draft, PrepareUpdate(before.connections, was, draft).value,
                                 ApplySecrets(w, fails, was, draft).result.value);
            ReplacesAt(before, before.(connections := before.connections[i := e]), i, e)
  {
    var was := before.connections[i];
    FieldsMint(was.id);
    EditedShape(w, fails, was, draft);
  }

  /** An edit keeps the kind variant, leaves a legal tunnel legal, and mints only refs of its own id. */
  lemma EditedShape(w: W, fails: Schedule, was: ConnectionEntry, draft: EditDraft)
    requires ApplySecrets(w, fails, was, draft).result.Ok?
    ensures var shape := ApplySecrets(w, fails, was, draft).result.value;
            && shape.kind.SupportsSshTunnel() == was.kind.SupportsSshTunnel()
            && (TunnelOk(was) ==> TunnelOk(was.(kind := shape.kind, ssh := shape.ssh)))
            && (forall r | r in KindRefs(shape.kind) :: r in KindRefs(was.kind) || r in EditRefs(was.id))
            && (forall r | r in SshRefs(shape.ssh) :: r in SshRefs(was.ssh) || r in EditRefs(was.id))
  {
    var kind := ApplyUpdateKind(w, fails, was.id, was.kind, draft.kind);
    assert kind.result.Ok?;
    assert forall r | r in KindRefs(kind.result.value) :: r in KindRefs(was.kind) || r in EditRefs(was.id);
    if draft.ssh.SetTunnel? {
      var auth := ApplySshAuth(kind.world, fails, was.id, draft.ssh.edit.auth, was.ssh, kind.undo);
      assert auth.result.Ok?;
    }
  }

  // -- every file along the way --------------------------------------------------------------

  /** From `w` to `w'` the disk only ever showed its first or its last state. */
  ghost predicate OldOrNew(w: W, w': W) {
    && w.trace <= w'.trace
    && forall i | |w.trace| <= i < |w'.trace| :: w'.trace[i].disk == w.disk || w'.trace[i].disk == w'.disk
  }

  lemma PhaseIsOldOrNew(w: W, w': W, touched: set<string>, dropped: set<string>)
    requires Phase(w, w', touched, dropped)
    ensures OldOrNew(w, w') && w'.disk == w.disk
  {
    forall i | |w.trace| <= i < |w'.trace|
      ensures w'.trace[i].disk == w.disk
    {
      assert Within(w, w'.trace[i], touched, dropped);
    }
  }

  /** Two stretches, at most one of which changes the disk. */
  lemma OldOrNewThen(a: W, b: W, c: W)
    requires OldOrNew(a, b) && OldOrNew(b, c) && (a.disk == b.disk || b.disk == c.disk)
    ensures OldOrNew(a, c)
  {
    forall i | |a.trace| <= i < |c.trace|
      ensures c.trace[i].disk == a.disk || c.trace[i].disk == c.disk
    {
      if i < |b.trace| {
        assert c.trace[i] == b.trace[i];
      }
    }
  }

  lemma SaveIsOldOrNew(w: W, fails: Schedule, file: ConnectionFile)
    ensures OldOrNew(w, Save(w, fails, file).0)
  {
  }

  /** What one call does to the disk: nothing, or one edit of its target, seen whole or not at all. */
  ghost predicate EditsDisk(w: W, w': W, id: string) {
    && OldOrNew(w, w')
    && (w'.disk == w.disk || (w'.disk.Present? && Edited(FileOn(w.disk), w'.disk.file, id)))
  }

  lemma CommitAddEdits(w: W, fails: Schedule, file: ConnectionFile, draft: ConnectionDraft)
    requires file == FileOn(w.disk) && PrepareAdd(file.connections, draft).Ok?
    ensures EditsDisk(w, CommitAdd(w, fails, file, PrepareAdd(file.connections, draft).value).world, draft.id)
  {
    var Prepared(entry, writes) := PrepareAdd(file.connections, draft).value;
    var (w1, n, error) := SetAll(w, fails, writes);
    SetAllPhase(w, fails, writes);
    PhaseIsOldOrNew(w, w1, WriteRefs(writes), {});
    AddAppends(file, draft);
    var next := file.(connections := file.connections + [entry]);
    var w2 := Save(w1, fails, next).0;
    SaveIsOldOrNew(w1, fails, next);
    OldOrNewThen(w, w1, w2);
    var start := if error.Some? then w1 else w2;
    var refs := KeyRefs(if error.Some? then writes[..n] else writes);
    var dropped := set r | r in refs;
    DeleteAllPhase(start, fails, refs);
    PhaseIsOldOrNew(start, DeleteAll(start, fails, refs), dropped, dropped);
    OldOrNewThen(w, start, DeleteAll(start, fails, refs));
  }

  lemma CommitUpdateEdits(w: W, fails: Schedule, file: ConnectionFile, i: nat, draft: EditDraft)
    requires file == FileOn(w.disk) && i < |file.connections|
    requires PrepareUpdate(file.connections, file.connections[i], draft).Ok?
    ensures var marks := PrepareUpdate(file.connections, file.connections[i], draft).value;
            EditsDisk(w, CommitUpdate(w, fails, file, i, marks, draft).world, file.connections[i].id)
  {
    var was := file.connections[i];
    var marks := PrepareUpdate(file.connections, was, draft).value;
    var a := ApplySecrets(w, fails, was, draft);
    ApplySecretsLogged(w, fails, was, draft);
    assert a.undo[0..] == a.undo;
    PhaseIsOldOrNew(w, a.world, UndoRefs(a.undo), {});
    if a.result.Err? {
      ReplayPhase(a.world, fails, a.undo);
      PhaseIsOldOrNew(a.world, Replay(a.world, fails, a.undo), UndoRefs(a.undo), Created(a.undo));
      OldOrNewThen(w, a.world, Replay(a.world, fails, a.undo));
    } else {
      UpdateReplaces(w, fails, file, i, draft);
      var entry := EditedEntry(was, draft, marks, a.result.value);
      var next := file.(connections := file.connections[i := entry]);
      var w2 := Save(a.world, fails, next).0;
      SaveIsOldOrNew(a.world, fails, next);
      OldOrNewThen(w, a.world, w2);
      ReplayPhase(w2, fails, a.undo);
      PhaseIsOldOrNew(w2, Replay(w2, fails, a.undo), UndoRefs(a.undo), Created(a.undo));
      OldOrNewThen(w, w2, Replay(w2, fails, a.undo));
      var refs := Orphans(was, entry);
      var dropped := set r | r in refs;
      DeleteAllPhase(w2, fails, refs);
      PhaseIsOldOrNew(w2, DeleteAll(w2, fails, refs), dropped, dropped);
      OldOrNewThen(w, w2, DeleteAll(w2, fails, refs));
    }
  }

  lemma CommitDeleteEdits(w: W, fails: Schedule, file: ConnectionFile, i: nat)
    requires file == FileOn(w.disk) && i < |file.connections|
    ensures var saved := Commit(w, fails, file, file.(connections := RemoveAt(file.connections, i)), ());
            && EditsDisk(w, saved.world, file.connections[i].id)
            && EditsDisk(w, DeleteAll(saved.world, fails, EntryRefs(file.connections[i])), file.connections[i].id)
  {
    var next := file.(connections := RemoveAt(file.connections, i));
    var w2 := Save(w, fails, next).0;
    var refs := EntryRefs(file.connections[i]);
    var dropped := set r | r in refs;
    assert RemovesAt(file, next, i);
    SaveIsOldOrNew(w, fails, next);
    DeleteAllPhase(w2, fails, refs);
    PhaseIsOldOrNew(w2, DeleteAll(w2, fails, refs), dropped, dropped);
    OldOrNewThen(w, w2, DeleteAll(w2, fails, refs));
  }

  lemma MarkReplaces(file: ConnectionFile, i: nat, color: Option<string>, tag: Option<string>)
    requires i < |file.connections|
    ensures var e := file.connections[i].(color := color, tag := tag);
            ReplacesAt(file, file.(connections := file.connections[i := e]), i, e)
  {
  }

  /** Every call but an import edits one entry at most, and no state in between shows a third file. */
  lemma ExecEdits(w: W, fails: Schedule, cache: ConnectionFile, c: Command)
    requires !c.ImportCall?
    ensures EditsDisk(w, Exec(w, fails, cache, c).world, Target(c))
  {
    var s := Sync(w, fails, cache, true);
    SyncFacts(w, fails, cache, true);
    PhaseIsOldOrNew(w, s.world, {}, {});
    var file := s.file;
    var id := Target(c);
    if s.result.Ok? {
      var found := FindIndex(file.connections, id);
      match c
      case AddCall(draft) =>
        if PrepareAdd(file.connections, draft).Ok? {
          CommitAddEdits(s.world, fails, file, draft);
          OldOrNewThen(w, s.world, Exec(w, fails, cache, c).world);
        }
      case UpdateCall(_, edit) =>
        if found.Some? && PrepareUpdate(file.connections, file.connections[found.value], edit).Ok? {
          CommitUpdateEdits(s.world, fails, file, found.value, edit);
          OldOrNewThen(w, s.world, Exec(w, fails, cache, c).world);
        }
      case DeleteCall(_) =>
        if found.Some? {
          CommitDeleteEdits(s.world, fails, file, found.value);
          OldOrNewThen(w, s.world, Exec(w, fails, cache, c).world);
        }
      case MoveCall(_, index) =>
        if found.Some? && index < |file.connections| {
          var next := file.(connections := Moved(file.connections, found.value, index));
          assert MovesEntry(file, next, found.value, index);
          SaveIsOldOrNew(s.world, fails, next);
          OldOrNewThen(w, s.world, Save(s.world, fails, next).0);
        }
      case MarkCall(_, color, tag) =>
        if found.Some? && NormalizeColor(color).Ok? && NormalizeTag(tag).Ok? {
          var i, hue, word := found.value, NormalizeColor(color).value, NormalizeTag(tag).value;
          MarkReplaces(file, i, hue, word);
          var next := file.(connections := file.connections[i := file.connections[i].(color := hue, tag := word)]);
          SaveIsOldOrNew(s.world, fails, next);
          OldOrNewThen(w, s.world, Save(s.world, fails, next).0);
        }
    }
  }

  // -- imports, too ----------------------------------------------------------------------------

  lemma CommitImportEdits(w: W, fails: Schedule, file: ConnectionFile, payload: BundlePayload, mode: ImportMode)
    requires file == FileOn(w.disk)
    ensures var w' := CommitImport(w, fails, file, PlanFor(file, payload, mode)).world;
            OldOrNew(w, w') && (w'.disk == w.disk || w'.disk == Present(MergedFile(file, payload, mode)))
  {
    var p := PlanFor(file, payload, mode);
    var (w1, undo, error) := SeedAll(w, fails, p.writes);
    SeedAllPhase(w, fails, p.writes);
    PhaseIsOldOrNew(w, w1, WriteRefs(p.writes), {});
    var m := MergeAll(file.connections, p.changes);
    var next := file.(connections := m.connections);
    var (w2, saved) := Save(w1, fails, next);
    SaveIsOldOrNew(w1, fails, next);
    OldOrNewThen(w, w1, w2);
    if error.Some? || !saved {
      var start := if error.Some? then w1 else w2;
      ReplayPhase(start, fails, undo);
      PhaseIsOldOrNew(start, Replay(start, fails, undo), UndoRefs(undo), Created(undo));
      OldOrNewThen(w, start, Replay(start, fails, undo));
    } else {
      var refs := ReplacedOrphans(m.connections, m.replaced);
      var dropped := set r | r in refs;
      DeleteAllPhase(w2, fails, refs);
      PhaseIsOldOrNew(w2, DeleteAll(w2, fails, refs), dropped, dropped);
      OldOrNewThen(w, w2, DeleteAll(w2, fails, refs));
    }
  }

  /** What a call can make of a file: an import merges its bundle in, any other call edits its target. */
  ghost predicate CallEdits(before: ConnectionFile, after: ConnectionFile, c: Command) {
    || before == after
    || (if c.ImportCall? then Decrypt(c.blob, c.passphrase).Ok? && after == MergedFile(before, c.blob.payload, c.mode)
        else Edited(before, after, Target(c)))
  }

  /** Every call leaves the disk alone or makes one such change, and no state in between shows a third file. */
  lemma ExecChanges(w: W, fails: Schedule, cache: ConnectionFile, c: Command)
    ensures var w' := Exec(w, fails, cache, c).world;
            OldOrNew(w, w') && (w'.disk == w.disk || (w'.disk.Present? && CallEdits(FileOn(w.disk), w'.disk.file, c)))
  {
    if c.ImportCall? {
      ImportChanges(w, fails, cache, c.blob, c.passphrase, c.mode);
    } else {
      ExecEdits(w, fails, cache, c);
    }
  }

  lemma ImportChanges(w: W, fails: Schedule, cache: ConnectionFile, blob: Blob, passphrase: string, mode: ImportMode)
    ensures var w' := ImportBundle(w, fails, cache, true, blob, passphrase, mode).world;
            && OldOrNew(w, w')
            && (w'.disk == w.disk
                || (Decrypt(blob, passphrase).Ok? && w'.disk
                    == Present(MergedFile(FileOn(w.disk), blob.payload, mode))))
  {
    var s := Sync(w, fails, cache, true);
    SyncFacts(w, fails, cache, true);
    PhaseIsOldOrNew(w, s.world, {}, {});
    if s.result.Ok? && Decrypt(blob, passphrase).Ok? && PlanFor(s.file, blob.payload, mode).changes != [] {
      CommitImportEdits(s.world, fails, s.file, blob.payload, mode);
      OldOrNewThen(w, s.world, CommitImport(s.world, fails, s.file, PlanFor(s.file, blob.payload, mode)).world);
    }
  }
}
