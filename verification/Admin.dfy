/** The connection admin as the class it is: every method does exactly what `Protocol` and `Import` say. */
module Admin {
  import opened Wrappers
  import opened Refs
  import opened Store
  import opened Machine
  import opened Drafts
  import P = Protocol
  import I = Import
  import X = Export

  type ConnectionHost = Host<ConnectionFile>

  class ConnectionAdmin {
    const host: ConnectionHost
    const tracksDisk: bool
    var file: ConnectionFile

    constructor (host: ConnectionHost, file: ConnectionFile, tracksDisk: bool)
      ensures this.host == host && this.file == file && this.tracksDisk == tracksDisk
    {
      this.host, this.file, this.tracksDisk := host, file, tracksDisk;
    }

    method Sync() returns (r: Result<(), ConfigError>)
      modifies this, host
      ensures P.Outcome(host.W(), file, r) == P.Sync(old(host.W()), host.fails, old(file), tracksDisk)
    {
      if !tracksDisk {
        return Ok(());
      }
      var loaded: Result<ConnectionFile, ConfigError>;
      if host.fails(LoadEffect, host.tick) {
        loaded := Err(IoFailed);
      } else {
        match host.disk {
          case Absent => loaded := Ok(EMPTY_FILE);
          case Garbage => loaded := Err(ParseFailed);
          case Present(f) => loaded := ParseFile(f);
        }
      }
      host.Advance();
      if loaded.Err? {
        return Err(loaded.error);
      }
      file := loaded.value;
      return Ok(());
    }

    method Find(id: string) returns (r: Option<nat>)
      ensures r == FindIndex(file.connections, id)
    {
      var entries := file.connections;
      for i := 0 to |entries|
        invariant file.connections == entries
        invariant forall j | 0 <= j < i :: entries[j].id != id
      {
        if entries[i].id == id {
          FirstMatchIsFound(entries, id, i);
          return Some(i);
        }
      }
      return None;
    }

    method HandleIsFree(candidate: string, owner: string) returns (r: Result<(), ConfigError>)
      ensures r == EnsureHandleIsFree(file.connections, candidate, owner)
      ensures r.Ok? <==> forall e | e in file.connections && e.id != owner ::
                           e.id != candidate && e.mcpAlias != Some(candidate)
    {
      var entries := file.connections;
      for i := 0 to |entries|
        invariant file.connections == entries
        invariant forall e | e in entries[..i] ::
                    !(e.id != owner && (e.id == candidate || e.mcpAlias == Some(candidate)))
      {
        assert entries[..i + 1] == entries[..i] + [entries[i]];
        if entries[i].id != owner && (entries[i].id == candidate || entries[i].mcpAlias == Some(candidate)) {
          assert entries[i] in entries;
          return Err(DuplicateAlias(candidate));
        }
      }
      assert entries[..|entries|] == entries;
      return Ok(());
    }

    /** Saves `next` and adopts it only once it is on disk. */
    method Commit(next: ConnectionFile) returns (saved: bool)
      modifies this, host
      ensures (host.W(), saved) == Save(old(host.W()), host.fails, next)
      ensures file == if saved then next else old(file)
    {
      saved := host.SaveFile(next);
      if saved {
        file := next;
      }
    }

    /** Writes in order; the first that fails takes back the ones before it. */
    method WriteSecrets(writes: seq<SecretWrite>) returns (error: Option<SecretError>)
      modifies host
      ensures var (w, n, e) := SetAll(old(host.W()), host.fails, writes);
              error == e && n <= |writes| && host.W() ==
                  if e.Some? then DeleteAll(w, host.fails, P.KeyRefs(writes[..n])) else w
    {
      for i := 0 to |writes|
        invariant SetAll(old(host.W()), host.fails, writes)
                  == var (w', n, e) := SetAll(host.W(), host.fails, writes[i..]); (w', i + n, e)
      {
        assert writes[i..][1..] == writes[i + 1..];
        var done := host.SetSecret(writes[i].keyRef, writes[i].value);
        if done.Err? {
          host.DeleteSecrets(P.KeyRefs(writes[..i]));
          return Some(done.error);
        }
      }
      return None;
    }

    method Add(draft: ConnectionDraft) returns (r: Result<ConnectionEntry, ConfigError>)
      modifies this, host
      ensures P.Outcome(host.W(), file, r) == P.Add(old(host.W()), host.fails, old(file), tracksDisk, draft)
    {
      var synced := Sync();
      if synced.Err? {
        return Err(synced.error);
      }
      var prepared := PrepareAdd(file.connections, draft);
      if prepared.Err? {
        return Err(prepared.error);
      }
      var Prepared(entry, writes) := prepared.value;
      var error := WriteSecrets(writes);
      if error.Some? {
        return Err(Secret(error.value));
      }
      var saved := Commit(file.(connections := file.connections + [entry]));
      if !saved {
        host.DeleteSecrets(P.KeyRefs(writes));
        return Err(IoFailed);
      }
      return Ok(entry);
    }

    /** Overwrites one secret if asked to, noting in the log what it replaced; `reply` is what success yields. */
    method EditSecret<R>(keyRef: string, field: SecretField, applied: seq<UndoRecord>, reply: R)
      returns (undo: seq<UndoRecord>, r: Result<R, ConfigError>)
      modifies host
      ensures P.Applied(host.W(), undo, r) == P.ApplyField(old(host.W()), host.fails, keyRef, field, applied, reply)
    {
      if field.Keep? {
        return applied, Ok(reply);
      }
      var written := host.WriteSecret(keyRef, field.value);
      if written.Err? {
        return applied, Err(Secret(written.error));
      }
      return applied + [written.value], Ok(reply);
    }

    method ApplyUpdateKind(id: string, existing: ConnectionKind, edit: KindEdit)
      returns (undo: seq<UndoRecord>, r: Result<ConnectionKind, ConfigError>)
      modifies host
      ensures P.Applied(host.W(), undo, r) == P.ApplyUpdateKind(old(host.W()), host.fails, id, existing, edit)
    {
      undo := [];
      match (existing, edit) {
        case (Turso(_), TursoEdit(path)) =>
          r := Ok(Turso(path));
        case (SecretBacked(adapter, _, keyRef), SecretBackedEdit(adapter', settings, secret)) =>
          if adapter != adapter' {
            return [], Err(KindMismatch(id));
          }
          undo, r := EditSecret(keyRef, secret, [], SecretBacked(adapter, settings, keyRef));
        case (Firestore(_, accountRef), FirestoreEdit(settings, account)) =>
          match account {
            case KeepAccount => r := Ok(Firestore(settings, accountRef));
            case Emulator => r := Ok(Firestore(settings, None));
            case SetAccount(value) =>
              var keyRef := if accountRef.Some? then accountRef.value else KeyringRef(id, FIRESTORE_FIELD);
              undo, r := EditSecret(keyRef, Overwrite(value), [], Firestore(settings, Some(keyRef)));
          }
        case _ =>
          r := Err(KindMismatch(id));
      }
    }

    method ApplyUpdateSsh(id: string, field: SshEditField, existing: Option<SshTunnel>, applied: seq<UndoRecord>)
      returns (undo: seq<UndoRecord>, r: Result<Option<SshTunnel>, ConfigError>)
      modifies host
      ensures P.Applied(host.W(), undo, r) == P.ApplyUpdateSsh(old(host.W()), host.fails, id, field, existing, applied)
    {
      undo := applied;
      if field.KeepTunnel? {
        return undo, Ok(existing);
      }
      if field.DisableTunnel? {
        return undo, Ok(None);
      }
      var auth: Result<P.SshAuth, ConfigError>;
      match field.edit.auth {
        case KeyEdit(keyPath, Unencrypted) =>
          auth := Ok(P.SshAuth(Some(keyPath), None, None));
        case KeyEdit(keyPath, KeepPassphrase) =>
          auth := if existing.Some? && existing.value.passphraseRef.Some?
                  then Ok(P.SshAuth(Some(keyPath), existing.value.passphraseRef, None)) else Err(SshInvalid(id, None));
        case KeyEdit(keyPath, SetPassphrase(value)) =>
          var keyRef := KeyringRef(id, SSH_PASSPHRASE_FIELD);
          undo, auth := EditSecret(keyRef, Overwrite(value), applied, P.SshAuth(Some(keyPath), Some(keyRef), None));
        case PasswordEdit(Overwrite(value)) =>
          var keyRef := KeyringRef(id, SSH_PASSWORD_FIELD);
          undo, auth := EditSecret(keyRef, Overwrite(value), applied, P.SshAuth(None, None, Some(keyRef)));
        case PasswordEdit(Keep) =>
          auth := if existing.Some? && existing.value.passwordRef.Some?
                  then Ok(P.SshAuth(None, None, existing.value.passwordRef)) else Err(SshInvalid(id, None));
      }
      if auth.Err? {
        return undo, Err(auth.error);
      }
      var tunnel := P.BuildEditedTunnel(field.edit, auth.value);
      r := if tunnel.Validate().Some? then Err(SshInvalid(id, tunnel.Validate())) else Ok(Some(tunnel));
    }

    method Update(id: string, draft: EditDraft) returns (r: Result<ConnectionEntry, ConfigError>)
      modifies this, host
      ensures P.Outcome(host.W(), file, r) == P.Update(old(host.W()), host.fails, old(file), tracksDisk, id, draft)
    {
      var synced := Sync();
      if synced.Err? {
        return Err(synced.error);
      }
      var found := Find(id);
      if found.None? {
        return Err(NotFound(id));
      }
      var i := found.value;
      var existing := file.connections[i];
      var marks := PrepareUpdate(file.connections, existing, draft);
      if marks.Err? {
        return Err(marks.error);
      }
      ghost var w := host.W();
      var undo, kind := ApplyUpdateKind(id, existing.kind, draft.kind);
      if kind.Err? {
        host.ReplayUndo(undo);
        return Err(kind.error);
      }
      if draft.ssh.SetTunnel? && !kind.value.SupportsSshTunnel() {
        host.ReplayUndo(undo);
        return Err(SshUnsupportedKind(id));
      }
      var ssh;
      undo, ssh := ApplyUpdateSsh(id, draft.ssh, existing.ssh, undo);
      if ssh.Err? {
        host.ReplayUndo(undo);
        return Err(ssh.error);
      }
      var shape := P.Reshaped(kind.value, ssh.value);
      assert P.ApplySecrets(w, host.fails, existing, draft) == P.Applied(host.W(), undo, Ok(shape));
      var entry := P.EditedEntry(existing, draft, marks.value, shape);
      var saved := Commit(file.(connections := file.connections[i := entry]));
      if !saved {
        host.ReplayUndo(undo);
        return Err(IoFailed);
      }
      host.DeleteSecrets(P.Orphans(existing, entry));
      return Ok(entry);
    }

    method Delete(id: string) returns (r: Result<(), ConfigError>)
      modifies this, host
      ensures P.Outcome(host.W(), file, r) == P.Delete(old(host.W()), host.fails, old(file), tracksDisk, id)
    {
      var synced := Sync();
      if synced.Err? {
        return synced;
      }
      var found := Find(id);
      if found.None? {
        return Err(NotFound(id));
      }
      var removed := file.connections[found.value];
      var saved := Commit(file.(connections := RemoveAt(file.connections, found.value)));
      if !saved {
        return Err(IoFailed);
      }
      host.DeleteSecrets(EntryRefs(removed));
      return Ok(());
    }

    method MoveTo(id: string, index: nat) returns (r: Result<(), ConfigError>)
      modifies this, host
      ensures P.Outcome(host.W(), file, r) == P.MoveTo(old(host.W()), host.fails, old(file), tracksDisk, id, index)
    {
      var synced := Sync();
      if synced.Err? {
        return synced;
      }
      var found := Find(id);
      if found.None? {
        return Err(NotFound(id));
      }
      if index >= |file.connections| {
        return Err(IndexOutOfRange(index, |file.connections|));
      }
      if found.value == index {
        return Ok(());
      }
      var entries := file.connections;
      var entry := entries[found.value];
      entries := RemoveAt(entries, found.value);
      entries := InsertAt(entries, index, entry);
      var saved := Commit(file.(connections := entries));
      return if saved then Ok(()) else Err(IoFailed);
    }

    method SetMark(id: string, rawColor: Option<string>, rawTag: Option<string>) returns (r: Result<(), ConfigError>)
      modifies this, host
      ensures P.Outcome(host.W(), file, r) == P.SetMark(old(host.W()), host.fails, old(file), tracksDisk, id,
              rawColor, rawTag)
    {
      var synced := Sync();
      if synced.Err? {
        return synced;
      }
      var found := Find(id);
      if found.None? {
        return Err(NotFound(id));
      }
      var color := NormalizeColor(rawColor);
      if color.Err? {
        return Err(color.error);
      }
      var tag := NormalizeTag(rawTag);
      if tag.Err? {
        return Err(tag.error);
      }
      var entry := file.connections[found.value];
      if entry.color == color.value && entry.tag == tag.value {
        return Ok(());
      }
      var marked := entry.(color := color.value, tag := tag.value);
      var saved := Commit(file.(connections := file.connections[found.value := marked]));
      return if saved then Ok(()) else Err(IoFailed);
    }

    /** Decides on every bundle entry in turn. */
    method PlanImport(mode: I.ImportMode, secrets: map<string, string>, incoming: seq<ConnectionEntry>)
        returns (plan: I.Plan)
      ensures plan == I.PlanAll(file.connections, mode, secrets, incoming)
    {
      var existing := file.connections;
      var owners: map<string, string> := map[];
      for i := 0 to |existing|
        invariant file.connections == existing
        invariant owners == I.OwnersOf(existing[..i])
      {
        assert existing[..i + 1][..i] == existing[..i];
        owners := I.Claim(owners, EntryRefs(existing[i]), existing[i].id);
      }
      assert existing[..|existing|] == existing;
      var accepted: set<string> := {};
      var report := I.EMPTY_REPORT;
      var changes: seq<I.Change> := [];
      var writes: seq<SecretWrite> := [];
      for i := 0 to |incoming|
        invariant file.connections == existing
        invariant I.Plan(accepted, owners, report, changes, writes) == I.PlanAll(existing, mode, secrets, incoming[..i])
      {
        assert incoming[..i + 1][..i] == incoming[..i];
        var entry := incoming[i];
        var refs := EntryRefs(entry);
        var slot := Find(entry.id);
        if entry.id in accepted {
          report := report.(duplicateInBundle := report.duplicateInBundle + [entry.id]);
        } else if slot.Some? && mode.SkipExisting? {
          report := report.(skippedExisting := report.skippedExisting + [entry.id]);
        } else {
          var collision := I.Collision(owners, refs, entry.id);
          if collision.Some? {
            var refusal := I.RefusedEntry(entry.id, collision.value, owners[collision.value]);
            report := report.(refused := report.refused + [refusal]);
          } else {
            writes := writes + I.Seeds(secrets, refs);
            owners := I.Claim(owners, refs, entry.id);
            accepted := accepted + {entry.id};
            report := if slot.Some? then report.(overwritten := report.overwritten + [entry.id])
                      else report.(imported := report.imported + [entry.id]);
            changes := changes + [I.Change(slot, entry)];
          }
        }
      }
      assert incoming[..|incoming|] == incoming;
      plan := I.Plan(accepted, owners, report, changes, writes);
    }

    /** Writes the imported secrets, logging what each slot held; says why it stopped, if it did. */
    method SeedSecrets(writes: seq<SecretWrite>) returns (undo: seq<UndoRecord>, error: Option<SecretError>)
      modifies host
      ensures (host.W(), undo, error) == SeedAll(old(host.W()), host.fails, writes)
    {
      undo := [];
      assert writes[0..] == writes && undo + SeedAll(host.W(), host.fails, writes).1
          == SeedAll(host.W(), host.fails, writes).1;
      for i := 0 to |writes|
        invariant SeedAll(old(host.W()), host.fails, writes)
                  == var (w, more, e) := SeedAll(host.W(), host.fails, writes[i..]); (w, undo + more, e)
      {
        assert writes[i..][1..] == writes[i + 1..];
        ghost var before := undo;
        var prior := host.GetSecret(writes[i].keyRef);
        var done := host.SetSecret(writes[i].keyRef, writes[i].value);
        if done.Err? {
          assert undo + [] == undo;
          return undo, Some(done.error);
        }
        var record := UndoRecord(writes[i].keyRef, if prior.Ok? then Some(prior.value) else None);
        undo := undo + [record];
        assert forall more: seq<UndoRecord> :: before + ([record] + more) == undo + more;
      }
      assert undo + [] == undo;
      return undo, None;
    }

    method MergeChanges(existing: seq<ConnectionEntry>, changes: seq<I.Change>) returns (m: I.Merge)
      requires forall c | c in changes && c.slot.Some? :: c.slot.value < |existing|
      ensures m == I.MergeAll(existing, changes)
    {
      m := I.Merge(existing, []);
      for i := 0 to |changes|
        invariant m == I.MergeAll(existing, changes[..i])
      {
        assert changes[..i + 1][..i] == changes[..i];
        m := I.MergeOne(m, changes[i]);
      }
      assert changes[..|changes|] == changes;
    }

    method ImportBundle(blob: I.Blob, passphrase: string, mode: I.ImportMode)
        returns (r: Result<I.ImportReport, ConfigError>)
      modifies this, host
      ensures P.Outcome(host.W(), file, r)
              == I.ImportBundle(old(host.W()), host.fails, old(file), tracksDisk, blob, passphrase, mode)
    {
      var synced := Sync();
      if synced.Err? {
        return Err(synced.error);
      }
      var payload := I.Decrypt(blob, passphrase);
      if payload.Err? {
        return Err(payload.error);
      }
      var plan := PlanImport(mode, payload.value.secrets, payload.value.connections.connections);
      if plan.changes == [] {
        return Ok(plan.report);
      }
      var undo, error := SeedSecrets(plan.writes);
      if error.Some? {
        host.ReplayUndo(undo);
        return Err(Secret(error.value));
      }
      var merge := MergeChanges(file.connections, plan.changes);
      var saved := Commit(file.(connections := merge.connections));
      if !saved {
        host.ReplayUndo(undo);
        return Err(IoFailed);
      }
      host.DeleteSecrets(I.ReplacedOrphans(merge.connections, merge.replaced));
      return Ok(plan.report);
    }

    /** Seals the entries named in `ids`, in store order, with every secret they reference. */
    method ExportBundleOf(ids: seq<string>, passphrase: string) returns (r: Result<I.Blob, ConfigError>)
      modifies host
      ensures (host.W(), r) == X.ExportBundleOf(old(host.W()), host.fails, file, ids, passphrase)
    {
      if ids == [] {
        return Err(EmptySelection);
      }
      var unknown := X.FirstUnknown(file.connections, ids);
      if unknown.Some? {
        return Err(NotFound(unknown.value));
      }
      if I.Utf8Len(passphrase) < I.MIN_PASSPHRASE_LEN {
        return Err(WeakPassphrase);
      }
      var selected := X.Selected(file.connections, ids);
      var refs := X.RefsInOrder(selected);
      var secrets: map<string, string> := map[];
      for i := 0 to |refs|
        invariant X.Collect(old(host.W()), host.fails, refs, map[])
                  == X.Collect(host.W(), host.fails, refs[i..], secrets)
      {
        assert refs[i..][1..] == refs[i + 1..];
        var value := host.GetSecret(refs[i]);
        if value.Err? {
          return Err(Secret(value.error));
        }
        secrets := secrets[refs[i] := value.value];
      }
      var payload := I.BundlePayload(I.BUNDLE_VERSION, ConnectionFile(file.version, None, selected), secrets);
      return I.Encrypt(payload, passphrase);
    }
  }

  lemma {:induction false} FirstMatchIsFound(entries: seq<ConnectionEntry>, id: string, i: nat)
    requires i < |entries| && entries[i].id == id && forall j | 0 <= j < i :: entries[j].id != id
    ensures FindIndex(entries, id) == Some(i)
  {
    var found := FindIndex(entries, id);
    assert entries[i] in entries;
    assert found.Some?;
  }
}
