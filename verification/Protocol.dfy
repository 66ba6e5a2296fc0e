/**
 What each call on a connection admin does to the world, the admin's cached
 file and its caller, as a function of the world, the schedule of failures and
 the arguments.
 */
module Protocol {
  import opened Wrappers
  import opened Refs
  import opened Store
  import opened Machine
  import opened Drafts

  type W = World<ConnectionFile>

  datatype Outcome<+R> = Outcome(world: W, file: ConnectionFile, result: Result<R, ConfigError>)

  function Load(w: W, fails: Schedule): (W, Result<ConnectionFile, ConfigError>) {
    (Tick(w),
     if fails(LoadEffect, w.tick) then Err(IoFailed)
     else
       match w.disk
       case Absent => Ok(EMPTY_FILE)
       case Garbage => Err(ParseFailed)
       case Present(file) => Parse(file))
  }

  /** Re-reads the file when the disk is the authority; an unreadable one leaves the cache alone. */
  function Sync(w: W, fails: Schedule, cache: ConnectionFile, tracks: bool): Outcome<()> {
    if !tracks then Outcome(w, cache, Ok(()))
    else
      var (w1, r) := Load(w, fails);
      if r.Ok? then Outcome(w1, r.value, Ok(())) else Outcome(w1, cache, Err(r.error))
  }

  /** Saves `next` and adopts it only once it is on disk. */
  function Commit<R>(w: W, fails: Schedule, file: ConnectionFile, next: ConnectionFile, reply: R): Outcome<R> {
    var (w1, saved) := Save(w, fails, next);
    if saved then Outcome(w1, next, Ok(reply)) else Outcome(w1, file, Err(IoFailed))
  }

  function Add(w0: W, fails: Schedule, cache: ConnectionFile, tracks: bool, draft: ConnectionDraft)
    : Outcome<ConnectionEntry>
  {
    var synced := Sync(w0, fails, cache, tracks);
    var (w, file) := (synced.world, synced.file);
    if synced.result.Err? then Outcome(w, file, Err(synced.result.error))
    else
      var prepared := PrepareAdd(file.connections, draft);
      if prepared.Err? then Outcome(w, file, Err(prepared.error))
      else CommitAdd(w, fails, file, prepared.value)
  }

  /** Secrets first, then the file; on either failure the secrets written so far are deleted again. */
  function CommitAdd(w: W, fails: Schedule, file: ConnectionFile, prepared: Prepared): Outcome<ConnectionEntry> {
    var Prepared(entry, writes) := prepared;
    var (w1, n, error) := SetAll(w, fails, writes);
    if error.Some? then Outcome(DeleteAll(w1, fails, KeyRefs(writes[..n])), file, Err(Secret(error.value)))
    else
      var saved := Commit(w1, fails, file, file.(connections := file.connections + [entry]), entry);
      if saved.result.Ok? then saved
      else saved.(world := DeleteAll(saved.world, fails, KeyRefs(writes)))
  }

  function KeyRefs(writes: seq<SecretWrite>): seq<string> {
    seq(|writes|, i requires 0 <= i < |writes| => writes[i].keyRef)
  }

  // -- update ----------------------------------------------------------------

  datatype Applied<+R> = Applied(world: W, undo: seq<UndoRecord>, result: Result<R, ConfigError>)

  /** One optional overwrite of the secret behind `keyRef`, added to what was applied before it. */
  function ApplyField<R>(w: W, fails: Schedule, keyRef: string, field: SecretField, undo: seq<UndoRecord>, reply: R)
    : Applied<R>
  {
    if field.Keep? then Applied(w, undo, Ok(reply))
    else
      var (w1, r) := ApplyWrite(w, fails, keyRef, field.value);
      if r.Err? then Applied(w1, undo, Err(Secret(r.error)))
      else Applied(w1, undo + [r.value], Ok(reply))
  }

  function ApplyUpdateKind(w: W, fails: Schedule, id: string, existing: ConnectionKind, edit: KindEdit)
    : Applied<ConnectionKind>
  {
    match (existing, edit)
    case (Turso(_), TursoEdit(path)) => Applied(w, [], Ok(Turso(path)))
    case (SecretBacked(adapter, _, keyRef), SecretBackedEdit(adapter', settings, secret)) =>
      if adapter != adapter' then Applied(w, [], Err(KindMismatch(id)))
      else ApplyField(w, fails, keyRef, secret, [], SecretBacked(adapter, settings, keyRef))
    case (Firestore(_, accountRef), FirestoreEdit(settings, KeepAccount)) => Applied(w, [],
        Ok(Firestore(settings, accountRef)))
    case (Firestore(_, _), FirestoreEdit(settings, Emulator)) => Applied(w, [], Ok(Firestore(settings, None)))
    case (Firestore(_, accountRef), FirestoreEdit(settings, SetAccount(value))) =>
      var keyRef := if accountRef.Some? then accountRef.value else KeyringRef(id, FIRESTORE_FIELD);
      ApplyField(w, fails, keyRef, Overwrite(value), [], Firestore(settings, Some(keyRef)))
    case _ => Applied(w, [], Err(KindMismatch(id)))
  }

  /** The auth half of an edited tunnel: key path, passphrase ref, password ref. */
  datatype SshAuth = SshAuth(keyPath: Option<string>, passphraseRef: Option<string>, passwordRef: Option<string>)

  function ApplySshAuth(w: W, fails: Schedule, id: string, auth: SshAuthEdit, existing: Option<SshTunnel>,
                        undo: seq<UndoRecord>): Applied<SshAuth>
  {
    match auth
    case KeyEdit(keyPath, Unencrypted) => Applied(w, undo, Ok(SshAuth(Some(keyPath), None, None)))
    case KeyEdit(keyPath, KeepPassphrase) =>
      if existing.Some? && existing.value.passphraseRef.Some? then
        Applied(w, undo, Ok(SshAuth(Some(keyPath), existing.value.passphraseRef, None)))
      else Applied(w, undo, Err(SshInvalid(id, None)))
    case KeyEdit(keyPath, SetPassphrase(value)) =>
      var keyRef := KeyringRef(id, SSH_PASSPHRASE_FIELD);
      ApplyField(w, fails, keyRef, Overwrite(value), undo, SshAuth(Some(keyPath), Some(keyRef), None))
    case PasswordEdit(Overwrite(value)) =>
      var keyRef := KeyringRef(id, SSH_PASSWORD_FIELD);
      ApplyField(w, fails, keyRef, Overwrite(value), undo, SshAuth(None, None, Some(keyRef)))
    case PasswordEdit(Keep) =>
      if existing.Some? && existing.value.passwordRef.Some? then
        Applied(w, undo, Ok(SshAuth(None, None, existing.value.passwordRef)))
      else Applied(w, undo, Err(SshInvalid(id, None)))
  }

  function BuildEditedTunnel(edit: SshEdit, auth: SshAuth): SshTunnel {
    var (fingerprint, knownHosts) := SplitHostKey(edit.hostKey);
    SshTunnel(edit.host, edit.port, edit.user, auth.keyPath, auth.passphraseRef, auth.passwordRef, fingerprint,
        knownHosts)
  }

  function ApplyUpdateSsh(w: W, fails: Schedule, id: string, field: SshEditField, existing: Option<SshTunnel>,
                          undo: seq<UndoRecord>): Applied<Option<SshTunnel>>
  {
    match field
    case KeepTunnel => Applied(w, undo, Ok(existing))
    case DisableTunnel => Applied(w, undo, Ok(None))
    case SetTunnel(edit) =>
      var auth := ApplySshAuth(w, fails, id, edit.auth, existing, undo);
      if auth.result.Err? then Applied(auth.world, auth.undo, Err(auth.result.error))
      else
        var tunnel := BuildEditedTunnel(edit, auth.result.value);
        Applied(auth.world, auth.undo,
                if tunnel.Validate().Some? then Err(SshInvalid(id, tunnel.Validate())) else Ok(Some(tunnel)))
  }

  datatype Reshaped = Reshaped(kind: ConnectionKind, ssh: Option<SshTunnel>)

  /** All secret writes of an edit, with the record of what each replaced. */
  function ApplySecrets(w: W, fails: Schedule, existing: ConnectionEntry, draft: EditDraft): Applied<Reshaped> {
    var kind := ApplyUpdateKind(w, fails, existing.id, existing.kind, draft.kind);
    if kind.result.Err? then Applied(kind.world, kind.undo, Err(kind.result.error))
    else if draft.ssh.SetTunnel? && !kind.result.value.SupportsSshTunnel() then
      Applied(kind.world, kind.undo, Err(SshUnsupportedKind(existing.id)))
    else
      var ssh := ApplyUpdateSsh(kind.world, fails, existing.id, draft.ssh, existing.ssh, kind.undo);
      if ssh.result.Err? then Applied(ssh.world, ssh.undo, Err(ssh.result.error))
      else Applied(ssh.world, ssh.undo, Ok(Reshaped(kind.result.value, ssh.result.value)))
  }

  function EditedEntry(existing: ConnectionEntry, draft: EditDraft, marks: Marks, shape: Reshaped): ConnectionEntry {
    ConnectionEntry(existing.id, draft.name, shape.kind,
                    if draft.mcpWrite.Some? then draft.mcpWrite.value else existing.mcpWrite,
                    marks.alias, marks.color, marks.tag, shape.ssh)
  }

  /** The refs `before` carried that `after` does not. */
  function Orphans(before: ConnectionEntry, after: ConnectionEntry): seq<string> {
    Without(EntryRefs(before), RefSet(after))
  }

  function Without(refs: seq<string>, kept: set<string>): seq<string> {
    if refs == [] then []
    else if refs[0] in kept then Without(refs[1..], kept)
    else [refs[0]] + Without(refs[1..], kept)
  }

  function Update(w0: W, fails: Schedule, cache: ConnectionFile, tracks: bool, id: string, draft: EditDraft)
    : Outcome<ConnectionEntry>
  {
    var synced := Sync(w0, fails, cache, tracks);
    var (w, file) := (synced.world, synced.file);
    if synced.result.Err? then Outcome(w, file, Err(synced.result.error))
    else
      var found := FindIndex(file.connections, id);
      if found.None? then Outcome(w, file, Err(NotFound(id)))
      else
        var marks := PrepareUpdate(file.connections, file.connections[found.value], draft);
        if marks.Err? then Outcome(w, file, Err(marks.error))
        else CommitUpdate(w, fails, file, found.value, marks.value, draft)
  }

  /** Secrets, then the file, then the purge; any failure before the purge puts the secrets back. */
  function CommitUpdate(w: W, fails: Schedule, file: ConnectionFile, i: nat, marks: Marks, draft: EditDraft)
      : Outcome<ConnectionEntry>
    requires i < |file.connections|
  {
    var existing := file.connections[i];
    var applied := ApplySecrets(w, fails, existing, draft);
    if applied.result.Err? then Outcome(Replay(applied.world, fails, applied.undo), file, Err(applied.result.error))
    else
      var entry := EditedEntry(existing, draft, marks, applied.result.value);
      var saved := Commit(applied.world, fails, file, file.(connections := file.connections[i := entry]), entry);
      if saved.result.Err? then saved.(world := Replay(saved.world, fails, applied.undo))
      else saved.(world := DeleteAll(saved.world, fails, Orphans(existing, entry)))
  }

  // -- delete, move, mark ------------------------------------------------------

  function Delete(w0: W, fails: Schedule, cache: ConnectionFile, tracks: bool, id: string): Outcome<()> {
    var synced := Sync(w0, fails, cache, tracks);
    var (w, file) := (synced.world, synced.file);
    if synced.result.Err? then synced
    else
      var found := FindIndex(file.connections, id);
      if found.None? then Outcome(w, file, Err(NotFound(id)))
      else
        var saved := Commit(w, fails, file, file.(connections := RemoveAt(file.connections, found.value)), ());
        if saved.result.Err? then saved
        else saved.(world := DeleteAll(saved.world, fails, EntryRefs(file.connections[found.value])))
  }

  function Moved<T>(s: seq<T>, from: nat, to: nat): seq<T>
    requires from < |s| && to < |s|
  {
    InsertAt(RemoveAt(s, from), to, s[from])
  }

  function MoveTo(w0: W, fails: Schedule, cache: ConnectionFile, tracks: bool, id: string, index: nat): Outcome<()> {
    var synced := Sync(w0, fails, cache, tracks);
    var (w, file) := (synced.world, synced.file);
    if synced.result.Err? then synced
    else
      var found := FindIndex(file.connections, id);
      if found.None? then Outcome(w, file, Err(NotFound(id)))
      else if index >= |file.connections| then Outcome(w, file, Err(IndexOutOfRange(index, |file.connections|)))
      else if found.value == index then synced
      else Commit(w, fails, file, file.(connections := Moved(file.connections, found.value, index)), ())
  }

  function SetMark(w0: W, fails: Schedule, cache: ConnectionFile, tracks: bool, id: string,
                   rawColor: Option<string>, rawTag: Option<string>): Outcome<()>
  {
    var synced := Sync(w0, fails, cache, tracks);
    var (w, file) := (synced.world, synced.file);
    if synced.result.Err? then synced
    else
      var found := FindIndex(file.connections, id);
      if found.None? then Outcome(w, file, Err(NotFound(id)))
      else
        var color, tag := NormalizeColor(rawColor), NormalizeTag(rawTag);
        if color.Err? then Outcome(w, file, Err(color.error))
        else if tag.Err? then Outcome(w, file, Err(tag.error))
        else
          var entry := file.connections[found.value];
          if entry.color == color.value && entry.tag == tag.value then synced
          else
            var marked := entry.(color := color.value, tag := tag.value);
            Commit(w, fails, file, file.(connections := file.connections[found.value := marked]), ())
  }
}
