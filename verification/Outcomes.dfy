/** When each call goes through and when it refuses, in the caller's terms, and what a refusal leaves behind. */
module Outcomes {
  import opened Wrappers
  import opened Text
  import opened Refs
  import opened Store
  import opened Machine
  import opened Drafts
  import opened Protocol
  import opened UndoLog
  import opened EditSteps
  import opened CrashSafety
  import opened Import
  import opened ImportFacts
  import opened ImportSafety
  import opened ImportTwice
  import opened Handles
  import opened Runs

  // -- a store that cannot be read ----------------------------------------------------------

  /** The re-read at the top of a call fails, meets no file it can parse, or one the loader turns down. */
  ghost predicate Unreadable(w: W, fails: Schedule) {
    fails(LoadEffect, w.tick) || w.disk.Garbage? || (w.disk.Present? && !Loadable(w.disk.file))
  }

  /** No state from `w` to `w'` shows anything but what was there. */
  ghost predicate NothingTouched(w: W, w': W) {
    && w.trace <= w'.trace && Now(w') == Now(w)
    && forall i | |w.trace| <= i < |w'.trace| :: w'.trace[i] == Now(w)
  }

  lemma SyncFailsIffUnreadable(w: W, fails: Schedule, cache: ConnectionFile)
    ensures var s := Sync(w, fails, cache, true);
            && (s.result.Err? <==> Unreadable(w, fails)) && NothingTouched(w, s.world)
            && s.file == if s.result.Ok? then FileOn(w.disk) else cache
  {
    if w.disk.Present? {
      ParseAcceptsExactlyLoadable(w.disk.file);
    }
  }

  /**
   A call that cannot read the current file refuses rather than overwriting it:
   whichever call it is, it fails, and no state along the way shows a different
   disk, keychain or cache.
   */
  lemma UnreadableStoreIsLeftAlone(w: W, fails: Schedule, cache: ConnectionFile, c: Command)
    requires Unreadable(w, fails)
    ensures var o := Exec(w, fails, cache, c); o.result.Err? && NothingTouched(w, o.world) && o.file == cache
  {
    SyncFailsIffUnreadable(w, fails, cache);
  }

  /** A bundle that does not open is turned down before anything is touched. */
  lemma UnopenedBundleTouchesNothing(w: W, fails: Schedule, cache: ConnectionFile, blob: Blob, passphrase: string,
                                     mode: ImportMode)
    requires blob.NotABundle? || blob.passphrase != passphrase || blob.payload.version != BUNDLE_VERSION
    ensures var o := ImportBundle(w, fails, cache, true, blob, passphrase, mode);
            o.result.Err? && NothingTouched(w, o.world)
  {
    SyncFailsIffUnreadable(w, fails, cache);
  }

  // -- what the answer says about the file ----------------------------------------------------

  /** A call that fails has not changed the file; after one that succeeds the admin holds what is on disk. */
  ghost predicate AnswersTruly<R>(w: W, cache: ConnectionFile, o: Outcome<R>) {
    && (o.result.Err? ==> o.world.disk == w.disk && (o.file == cache || o.file == FileOn(w.disk)))
    && (o.result.Ok? ==> o.file == FileOn(o.world.disk))
  }

  lemma AddAnswersTruly(w: W, fails: Schedule, cache: ConnectionFile, draft: ConnectionDraft)
    ensures AnswersTruly(w, cache, Add(w, fails, cache, true, draft))
  {
    SyncFailsIffUnreadable(w, fails, cache);
    var s := Sync(w, fails, cache, true);
    if s.result.Ok? && PrepareAdd(s.file.connections, draft).Ok? {
      var Prepared(entry, writes) := PrepareAdd(s.file.connections, draft).value;
      var (w1, n, error) := SetAll(s.world, fails, writes);
      SetAllPhase(s.world, fails, writes);
      DeleteAllPhase(w1, fails, KeyRefs(writes[..n]));
      var w2 := Save(w1, fails, s.file.(connections := s.file.connections + [entry])).0;
      DeleteAllPhase(w2, fails, KeyRefs(writes));
    }
  }

  lemma UpdateAnswersTruly(w: W, fails: Schedule, cache: ConnectionFile, id: string, edit: EditDraft)
    ensures AnswersTruly(w, cache, Update(w, fails, cache, true, id, edit))
  {
    SyncFailsIffUnreadable(w, fails, cache);
    var s := Sync(w, fails, cache, true);
    var found := FindIndex(s.file.connections, id);
    if s.result.Ok? && found.Some? && PrepareUpdate(s.file.connections, s.file.connections[found.value], edit).Ok? {
      var existing := s.file.connections[found.value];
      var marks := PrepareUpdate(s.file.connections, existing, edit).value;
      CommitUpdateAnswersTruly(s.world, fails, s.file, found.value, marks, edit);
    }
  }

  lemma CommitUpdateAnswersTruly(w: W, fails: Schedule, file: ConnectionFile, i: nat, marks: Marks, edit: EditDraft)
    requires i < |file.connections| && file == FileOn(w.disk)
    ensures AnswersTruly(w, file, CommitUpdate(w, fails, file, i, marks, edit))
  {
    var existing := file.connections[i];
    var a := ApplySecrets(w, fails, existing, edit);
    ApplySecretsLogged(w, fails, existing, edit);
    assert a.undo[0..] == a.undo;
    ReplayPhase(a.world, fails, a.undo);
    if a.result.Ok? {
      var entry := EditedEntry(existing, edit, marks, a.result.value);
      var w2 := Save(a.world, fails, file.(connections := file.connections[i := entry])).0;
      ReplayPhase(w2, fails, a.undo);
      DeleteAllPhase(w2, fails, Orphans(existing, entry));
    }
  }

  lemma DeleteAnswersTruly(w: W, fails: Schedule, cache: ConnectionFile, id: string)
    ensures AnswersTruly(w, cache, Protocol.Delete(w, fails, cache, true, id))
  {
    SyncFailsIffUnreadable(w, fails, cache);
    var s := Sync(w, fails, cache, true);
    var found := FindIndex(s.file.connections, id);
    if s.result.Ok? && found.Some? {
      var saved := Save(s.world, fails, s.file.(connections := RemoveAt(s.file.connections, found.value))).0;
      DeleteAllPhase(saved, fails, EntryRefs(s.file.connections[found.value]));
    }
  }

  lemma ImportAnswersTruly(w: W, fails: Schedule, cache: ConnectionFile, blob: Blob, passphrase: string,
                           mode: ImportMode)
    ensures AnswersTruly(w, cache, ImportBundle(w, fails, cache, true, blob, passphrase, mode))
  {
    SyncFailsIffUnreadable(w, fails, cache);
    var s := Sync(w, fails, cache, true);
    if s.result.Ok? && Decrypt(blob, passphrase).Ok? {
      CommitImportDisk(s.world, fails, s.file, PlanFor(s.file, blob.payload, mode));
    }
  }

  lemma EveryCallAnswersTruly(w: W, fails: Schedule, cache: ConnectionFile, c: Command)
    ensures AnswersTruly(w, cache, Exec(w, fails, cache, c))
  {
    match c
    case AddCall(draft) => AddAnswersTruly(w, fails, cache, draft);
    case UpdateCall(id, edit) => UpdateAnswersTruly(w, fails, cache, id, edit);
    case DeleteCall(id) => DeleteAnswersTruly(w, fails, cache, id);
    case MoveCall(_, _) => SyncFailsIffUnreadable(w, fails, cache);
    case MarkCall(_, _, _) => SyncFailsIffUnreadable(w, fails, cache);
    case ImportCall(blob, passphrase, mode) => ImportAnswersTruly(w, fails, cache, blob, passphrase, mode);
  }

  // -- what a caller may ask for ------------------------------------------------------------

  /** Nobody but the entry called `owner` answers to the handle. */
  ghost predicate FreeFor(entries: seq<ConnectionEntry>, handle: string, owner: string) {
    forall e | e in entries && e.id != owner :: e.id != handle && e.mcpAlias != Some(handle)
  }

  /** An alias as given: a blank one is none. */
  ghost predicate AliasFree(entries: seq<ConnectionEntry>, raw: Option<string>, owner: string) {
    raw.Some? && Trim(raw.value) != "" ==> FreeFor(entries, Trim(raw.value), owner)
  }

  predicate ColorLegal(raw: Option<string>) {
    raw.None? || Trim(raw.value) in {"", "red", "orange", "yellow", "green", "teal", "blue", "purple", "pink"}
  }

  predicate TagLegal(raw: Option<string>) {
    raw.None? || |Trim(raw.value)| <= 12
  }

  predicate Tunnelable(adapter: Adapter) {
    match adapter
    case TursoRemote => false
    case D1 => false
    case AuroraDsqlIam => false
    case MongoDb => false
    case _ => true
  }

  /**
   The id is new and nobody's alias, the alias is free, the mark legal, and a tunnel is
   asked for only where one fits.
   */
  ghost predicate AddInOrder(entries: seq<ConnectionEntry>, draft: ConnectionDraft) {
    && (forall e | e in entries :: e.id != draft.id && e.mcpAlias != Some(draft.id))
    && AliasFree(entries, draft.mcpAlias, draft.id) && ColorLegal(draft.color) && TagLegal(draft.tag)
    && (draft.ssh.Some? ==> draft.kind.SecretBackedDraft? && Tunnelable(draft.kind.adapter))
  }

  /** The edit is of the entry's own kind, keeps only secrets that are there, and tunnels only where a tunnel fits. */
  predicate ShapeInOrder(existing: ConnectionEntry, edit: EditDraft) {
    && (match (existing.kind, edit.kind)
        case (Turso(_), TursoEdit(_)) => true
        case (SecretBacked(adapter, _, _), SecretBackedEdit(adapter', _, _)) => adapter == adapter'
        case (Firestore(_, _), FirestoreEdit(_, _)) => true
        case _ => false)
    && match edit.ssh
       case SetTunnel(SshEdit(_, _, _, auth, _)) =>
         && existing.kind.SecretBacked? && Tunnelable(existing.kind.adapter)
         && (match auth
             case KeyEdit(_, KeepPassphrase) => existing.ssh.Some? && existing.ssh.value.passphraseRef.Some?
             case PasswordEdit(Keep) => existing.ssh.Some? && existing.ssh.value.passwordRef.Some?
             case _ => true)
       case _ => true
  }

  /** The alias it ends up with, kept or new, is nobody else's handle; a new mark is legal. */
  ghost predicate MarksInOrder(entries: seq<ConnectionEntry>, existing: ConnectionEntry, edit: EditDraft) {
    && (if edit.mcpAlias.Some? then AliasFree(entries, edit.mcpAlias, existing.id)
        else existing.mcpAlias.Some? ==> FreeFor(entries, existing.mcpAlias.value, existing.id))
    && ColorLegal(edit.color) && TagLegal(edit.tag)
  }

  // -- the checks decide exactly that ---------------------------------------------------------

  lemma HandleCheckIsExact(entries: seq<ConnectionEntry>, handle: string, owner: string)
    ensures EnsureHandleIsFree(entries, handle, owner)
         == if FreeFor(entries, handle, owner) then Ok(()) else Err(DuplicateAlias(handle))
  {
    if !FreeFor(entries, handle, owner) {
      var e :| e in entries && e.id != owner && !(e.id != handle && e.mcpAlias != Some(handle));
      assert HandleTaken(entries, handle, owner);
    }
  }

  lemma MarkChecksAreExact(color: Option<string>, tag: Option<string>)
    ensures NormalizeColor(color).Ok? <==> ColorLegal(color)
    ensures NormalizeColor(color).Err? ==> NormalizeColor(color).error == UnknownColor(Trim(color.value))
    ensures NormalizeTag(tag).Ok? <==> TagLegal(tag)
    ensures NormalizeTag(tag).Err? ==> NormalizeTag(tag).error == TagTooLong(Trim(tag.value))
  {
  }

  lemma AddCheckIsExact(entries: seq<ConnectionEntry>, draft: ConnectionDraft)
    ensures PrepareAdd(entries, draft).Ok? <==> AddInOrder(entries, draft)
  {
    HandleCheckIsExact(entries, draft.id, draft.id);
    var alias := NormalizeAlias(draft.mcpAlias);
    if alias.Some? {
      HandleCheckIsExact(entries, alias.value, draft.id);
    }
    MarkChecksAreExact(draft.color, draft.tag);
  }

  /** And each refusal of `add` gives a reason that is true. */
  lemma AddRefusalIsTrue(entries: seq<ConnectionEntry>, draft: ConnectionDraft)
    requires PrepareAdd(entries, draft).Err?
    ensures match PrepareAdd(entries, draft).error
            case DuplicateId(id) => id == draft.id && exists e | e in entries :: e.id == id
            case DuplicateAlias(handle) =>
              && (handle == draft.id || (draft.mcpAlias.Some? && handle == Trim(draft.mcpAlias.value)))
              && exists e | e in entries :: e.id != draft.id && (e.id == handle || e.mcpAlias == Some(handle))
            case UnknownColor(name) => draft.color.Some? && name == Trim(draft.color.value) && !ColorLegal(draft.color)
            case TagTooLong(tag) => draft.tag.Some? && tag == Trim(draft.tag.value) && |tag| > 12
            case SshUnsupportedKind(id) => id == draft.id && draft.ssh.Some?
                                           && !(draft.kind.SecretBackedDraft? && Tunnelable(draft.kind.adapter))
            case _ => false
  {
    var found := FindIndex(entries, draft.id);
    if found.Some? {
      assert entries[found.value] in entries;
    }
    MarkChecksAreExact(draft.color, draft.tag);
  }

  lemma MarksCheckIsExact(entries: seq<ConnectionEntry>, existing: ConnectionEntry, edit: EditDraft)
    ensures PrepareUpdate(entries, existing, edit).Ok? <==> MarksInOrder(entries, existing, edit)
  {
    var alias := if edit.mcpAlias.None? then existing.mcpAlias else NormalizeAlias(edit.mcpAlias);
    if alias.Some? {
      HandleCheckIsExact(entries, alias.value, existing.id);
    }
    MarkChecksAreExact(edit.color, edit.tag);
  }

  /** Keeping one's alias, or taking one's own id for it, is never refused. */
  lemma OwnHandlesAreFree(entries: seq<ConnectionEntry>, existing: ConnectionEntry, edit: EditDraft)
    requires Unambiguous(entries) && existing in entries && ColorLegal(edit.color) && TagLegal(edit.tag)
    requires edit.mcpAlias.Some? ==>
               Some(Trim(edit.mcpAlias.value)) == existing.mcpAlias || Trim(edit.mcpAlias.value) == existing.id
    ensures PrepareUpdate(entries, existing, edit).Ok?
  {
    UnambiguousMeansUnique(entries);
    UnambiguousIffMembersApart(entries);
    forall e | e in entries && e.id != existing.id
      ensures Apart(existing, e)
    {
    }
    MarksCheckIsExact(entries, existing, edit);
  }

  lemma KindCheckIsExact(w: W, fails: Schedule, id: string, existing: ConnectionKind, edit: KindEdit)
    requires QuietFrom(fails, w.tick)
    ensures ApplyUpdateKind(w, fails, id, existing, edit).result.Ok?
            <==> match (existing, edit)
                 case (Turso(_), TursoEdit(_)) => true
                 case (SecretBacked(adapter, _, _), SecretBackedEdit(adapter', _, _)) => adapter == adapter'
                 case (Firestore(_, _), FirestoreEdit(_, _)) => true
                 case _ => false
    ensures var a := ApplyUpdateKind(w, fails, id, existing, edit);
            && w.tick <= a.world.tick
            && (a.result.Err? ==> a.result.error == KindMismatch(id))
            && (a.result.Ok? ==> a.result.value.SupportsSshTunnel() == existing.SupportsSshTunnel())
  {
  }

  lemma TunnelCheckIsExact(w: W, fails: Schedule, id: string, edit: SshEditField, existing: Option<SshTunnel>,
                           undo: seq<UndoRecord>)
    requires QuietFrom(fails, w.tick)
    ensures ApplyUpdateSsh(w, fails, id, edit, existing, undo).result.Ok?
            <==> match edit
                 case SetTunnel(SshEdit(_, _, _, KeyEdit(_, KeepPassphrase), _)) =>
                   existing.Some? && existing.value.passphraseRef.Some?
                 case SetTunnel(SshEdit(_, _, _, PasswordEdit(Keep), _)) =>
                   existing.Some? && existing.value.passwordRef.Some?
                 case _ => true
    ensures var a := ApplyUpdateSsh(w, fails, id, edit, existing, undo);
            w.tick <= a.world.tick && (a.result.Err? ==> a.result.error == SshInvalid(id, None))
  {
    if edit.SetTunnel? {
      var auth := ApplySshAuth(w, fails, id, edit.edit.auth, existing, undo);
      assert w.tick <= auth.world.tick;
    }
  }

  lemma TunnelableKinds(kind: ConnectionKind)
    ensures kind.SupportsSshTunnel() <==> kind.SecretBacked? && Tunnelable(kind.adapter)
  {
  }

  /** With nothing failing, an edit's secret half goes through exactly when its shape is in order. */
  lemma ShapeCheckIsExact(w: W, fails: Schedule, existing: ConnectionEntry, edit: EditDraft)
    requires QuietFrom(fails, w.tick)
    ensures ApplySecrets(w, fails, existing, edit).result.Ok? <==> ShapeInOrder(existing, edit)
    ensures var a := ApplySecrets(w, fails, existing, edit);
            && w.tick <= a.world.tick
            && (a.result.Err? ==>
                  a.result.error in
                    {KindMismatch(existing.id), SshUnsupportedKind(existing.id), SshInvalid(existing.id, None)})
  {
    var kind := ApplyUpdateKind(w, fails, existing.id, existing.kind, edit.kind);
    KindCheckIsExact(w, fails, existing.id, existing.kind, edit.kind);
    TunnelCheckIsExact(kind.world, fails, existing.id, edit.ssh, existing.ssh, kind.undo);
    TunnelableKinds(existing.kind);
  }

  // -- with nothing failing, exactly what is in order goes through -------------------------------

  /** Nothing fails from here on, and the file can be read. */
  ghost predicate FairWeather(w: W, fails: Schedule, cache: ConnectionFile, tracks: bool) {
    && Current(w, cache, tracks) && QuietFrom(fails, w.tick)
    && (tracks ==> !w.disk.Garbage?) && Loadable(FileOn(w.disk))
  }

  lemma FairRead(w: W, fails: Schedule, cache: ConnectionFile, tracks: bool)
    requires FairWeather(w, fails, cache, tracks)
    ensures var s := Sync(w, fails, cache, tracks);
            s.result.Ok? && s.file == FileOn(w.disk) && w.tick <= s.world.tick && QuietFrom(fails, s.world.tick)
  {
    assert !fails(LoadEffect, w.tick);
    SyncFacts(w, fails, cache, tracks);
    ReadSucceeds(w, fails, cache, tracks);
  }

  lemma {:induction false} QuietSetAllSucceeds(w: W, fails: Schedule, writes: seq<SecretWrite>)
    requires QuietFrom(fails, w.tick)
    ensures var (w', _, error) := SetAll(w, fails, writes); error.None? && w.tick <= w'.tick
    decreases |writes|
  {
    if writes != [] {
      QuietSetAllSucceeds(Set(w, fails, writes[0].keyRef, writes[0].value).0, fails, writes[1..]);
    }
  }

  lemma AddSucceedsIffInOrder(w: W, fails: Schedule, cache: ConnectionFile, tracks: bool, draft: ConnectionDraft)
    requires FairWeather(w, fails, cache, tracks)
    ensures Add(w, fails, cache, tracks, draft).result.Ok? <==> AddInOrder(FileOn(w.disk).connections, draft)
  {
    var s := Sync(w, fails, cache, tracks);
    FairRead(w, fails, cache, tracks);
    AddCheckIsExact(s.file.connections, draft);
    if PrepareAdd(s.file.connections, draft).Ok? {
      var prepared := PrepareAdd(s.file.connections, draft).value;
      QuietSetAllSucceeds(s.world, fails, prepared.writes);
      AddIsItsCommit(w, fails, cache, tracks, draft);
    }
  }

  lemma CommitUpdateSucceedsIffInOrder(w: W, fails: Schedule, file: ConnectionFile, i: nat, marks: Marks,
                                       edit: EditDraft)
    requires i < |file.connections| && QuietFrom(fails, w.tick)
    ensures CommitUpdate(w, fails, file, i, marks, edit).result.Ok? <==> ShapeInOrder(file.connections[i], edit)
  {
    ShapeCheckIsExact(w, fails, file.connections[i], edit);
  }

  lemma UpdateSucceedsIffInOrder(w: W, fails: Schedule, cache: ConnectionFile, tracks: bool, id: string,
                                 edit: EditDraft)
    requires FairWeather(w, fails, cache, tracks)
    ensures Update(w, fails, cache, tracks, id, edit).result.Ok?
            <==> exists e | e in FileOn(w.disk).connections ::
                   e.id == id && MarksInOrder(FileOn(w.disk).connections, e, edit) && ShapeInOrder(e, edit)
  {
    var entries := FileOn(w.disk).connections;
    var s := Sync(w, fails, cache, tracks);
    FairRead(w, fails, cache, tracks);
    var found := FindIndex(entries, id);
    if found.Some? {
      var existing := entries[found.value];
      assert existing in entries;
      forall e | e in entries && e.id == id ensures e == existing {
        SameIdSameEntry(entries, e, existing);
      }
      MarksCheckIsExact(entries, existing, edit);
      if PrepareUpdate(entries, existing, edit).Ok? {
        var marks := PrepareUpdate(entries, existing, edit).value;
        CommitUpdateSucceedsIffInOrder(s.world, fails, s.file, found.value, marks, edit);
      }
    }
  }

  /** Each refusal of `update` gives a reason that is true. */
  lemma UpdateRefusalIsTrue(w: W, fails: Schedule, cache: ConnectionFile, tracks: bool, id: string, edit: EditDraft)
    requires FairWeather(w, fails, cache, tracks) && Update(w, fails, cache, tracks, id, edit).result.Err?
    ensures var entries := FileOn(w.disk).connections;
            match Update(w, fails, cache, tracks, id, edit).result.error
            case NotFound(x) => x == id && forall e | e in entries :: e.id != id
            case DuplicateAlias(handle) =>
              exists e | e in entries :: e.id != id && (e.id == handle || e.mcpAlias == Some(handle))
            case UnknownColor(name) => edit.color.Some? && name == Trim(edit.color.value) && !ColorLegal(edit.color)
            case TagTooLong(tag) => edit.tag.Some? && tag == Trim(edit.tag.value) && |tag| > 12
            case KindMismatch(x) => x == id && exists e | e in entries :: e.id == id && !ShapeInOrder(e, edit)
            case SshUnsupportedKind(x) => x == id && exists e | e in entries :: e.id == id && !ShapeInOrder(e, edit)
            case SshInvalid(x, fault) =>
              x == id && fault.None? && exists e | e in entries :: e.id == id && !ShapeInOrder(e, edit)
            case _ => false
  {
    var entries := FileOn(w.disk).connections;
    var s := Sync(w, fails, cache, tracks);
    FairRead(w, fails, cache, tracks);
    var found := FindIndex(entries, id);
    if found.Some? {
      var existing := entries[found.value];
      assert existing in entries;
      MarkChecksAreExact(edit.color, edit.tag);
      if PrepareUpdate(entries, existing, edit).Ok? {
        ShapeCheckIsExact(s.world, fails, existing, edit);
      }
    }
  }

  lemma DeleteSucceedsIffThere(w: W, fails: Schedule, cache: ConnectionFile, tracks: bool, id: string)
    requires FairWeather(w, fails, cache, tracks)
    ensures var o := Protocol.Delete(w, fails, cache, tracks, id);
            && (o.result.Ok? <==> exists e | e in FileOn(w.disk).connections :: e.id == id)
            && (o.result.Err? ==> o.result.error == NotFound(id))
  {
    FairRead(w, fails, cache, tracks);
    var found := FindIndex(FileOn(w.disk).connections, id);
    assert found.Some? ==> FileOn(w.disk).connections[found.value] in FileOn(w.disk).connections;
  }

  lemma MoveSucceedsIffInRange(w: W, fails: Schedule, cache: ConnectionFile, tracks: bool, id: string, index: nat)
    requires FairWeather(w, fails, cache, tracks)
    ensures var (entries, o) := (FileOn(w.disk).connections, MoveTo(w, fails, cache, tracks, id, index));
            && (o.result.Ok? <==> (exists e | e in entries :: e.id == id) && index < |entries|)
            && (o.result.Err? ==> o.result.error == (if exists e | e in entries :: e.id == id
                                                     then IndexOutOfRange(index, |entries|) else NotFound(id)))
  {
    FairRead(w, fails, cache, tracks);
    var found := FindIndex(FileOn(w.disk).connections, id);
    assert found.Some? ==> FileOn(w.disk).connections[found.value] in FileOn(w.disk).connections;
  }

  lemma MarkSucceedsIffLegal(w: W, fails: Schedule, cache: ConnectionFile, tracks: bool, id: string,
                             color: Option<string>, tag: Option<string>)
    requires FairWeather(w, fails, cache, tracks)
    ensures var (entries, o) := (FileOn(w.disk).connections, SetMark(w, fails, cache, tracks, id, color, tag));
            && (o.result.Ok? <==> (exists e | e in entries :: e.id == id) && ColorLegal(color) && TagLegal(tag))
            && (o.result.Err? ==> match o.result.error
                                  case NotFound(x) => x == id && forall e | e in entries :: e.id != id
                                  case UnknownColor(name) => !ColorLegal(color) && name == Trim(color.value)
                                  case TagTooLong(word) => !TagLegal(tag) && word == Trim(tag.value)
                                  case _ => false)
  {
    FairRead(w, fails, cache, tracks);
    MarkChecksAreExact(color, tag);
    var found := FindIndex(FileOn(w.disk).connections, id);
    assert found.Some? ==> FileOn(w.disk).connections[found.value] in FileOn(w.disk).connections;
  }

  /** A move to where the entry is, or a mark it carries already, performs no effect but the read. */
  lemma IdleCallsWriteNothing(w: W, fails: Schedule, cache: ConnectionFile, e: ConnectionEntry, i: nat)
    requires Sync(w, fails, cache, true).result.Ok?
    requires UniqueIds(FileOn(w.disk).connections) && i < |FileOn(w.disk).connections|
    requires e == FileOn(w.disk).connections[i] && ColorLegal(e.color) && TagLegal(e.tag)
    requires NormalizeAlias(e.color) == e.color && NormalizeAlias(e.tag) == e.tag
    ensures MoveTo(w, fails, cache, true, e.id, i) == Sync(w, fails, cache, true)
    ensures SetMark(w, fails, cache, true, e.id, e.color, e.tag) == Sync(w, fails, cache, true)
  {
    SyncFacts(w, fails, cache, true);
    MarkChecksAreExact(e.color, e.tag);
    var j := FindIndex(FileOn(w.disk).connections, e.id).value;
    assert EntryId(FileOn(w.disk).connections[j]) == EntryId(FileOn(w.disk).connections[i]);
  }

  /** An import goes through exactly when the bundle opens and is of this version, whatever is in it. */
  lemma ImportSucceedsIffBundleOpens(w: W, fails: Schedule, cache: ConnectionFile, tracks: bool, blob: Blob,
                                     passphrase: string, mode: ImportMode)
    requires FairWeather(w, fails, cache, tracks)
    ensures var o := ImportBundle(w, fails, cache, tracks, blob, passphrase, mode);
            && (o.result.Ok? <==>
                  blob.Sealed? && blob.passphrase == passphrase && blob.payload.version == BUNDLE_VERSION)
            && (o.result.Err? ==>
                  o.result.error == (if blob.NotABundle? then CorruptBundle
                                     else if blob.passphrase != passphrase then IncorrectPassphrase
                                     else UnsupportedVersion(blob.payload.version)))
  {
    FairRead(w, fails, cache, tracks);
    if blob.Sealed? && blob.passphrase == passphrase && blob.payload.version == BUNDLE_VERSION {
      QuietImportSucceeds(w, fails, cache, tracks, blob.payload, passphrase, mode);
    }
  }
}
