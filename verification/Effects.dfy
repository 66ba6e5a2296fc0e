/** What a call that succeeds has achieved, in terms of the draft it was given. */
module Effects {
  import opened Wrappers
  import opened Text
  import opened Refs
  import opened Store
  import opened Machine
  import opened Drafts
  import opened Protocol
  import opened UndoLog
  import opened EditSteps
  import opened CrashSafety
  import opened Rollback
  import opened Runs
  import opened RunInvariants

  /** The optional ref is there exactly when the secret is, and the keychain holds that secret under it. */
  ghost predicate HoldsOptional(slots: map<string, string>, keyRef: Option<string>, secret: Option<string>) {
    (keyRef.Some? <==> secret.Some?) && (keyRef.Some? ==> Lookup(slots, keyRef.value) == secret)
  }

  ghost predicate KindStored(draft: KindDraft, kind: ConnectionKind, slots: map<string, string>) {
    match draft
    case TursoDraft(path) => kind == Turso(path)
    case SecretBackedDraft(adapter, settings, secret) =>
      kind.SecretBacked? && kind.adapter == adapter && kind.settings == settings
          && Lookup(slots, kind.keyRef) == Some(secret)
    case FirestoreDraft(settings, account) =>
      kind.Firestore? && kind.settings == settings && HoldsOptional(slots, kind.accountRef, account)
  }

  ghost predicate HostKeyStored(draft: HostKeyDraft, ssh: SshTunnel) {
    match draft
    case Fingerprint(digest) => ssh.fingerprint == Some(digest) && ssh.knownHosts.None?
    case KnownHosts(path) => ssh.knownHosts == Some(path) && ssh.fingerprint.None?
  }

  ghost predicate SshStored(draft: SshDraft, ssh: SshTunnel, slots: map<string, string>) {
    && ssh.host == draft.host && ssh.port == draft.port && ssh.user == draft.user && HostKeyStored(draft.hostKey, ssh)
    && match draft.auth
       case KeyAuth(keyPath, passphrase) =>
         ssh.keyPath == Some(keyPath) && ssh.passwordRef.None? && HoldsOptional(slots, ssh.passphraseRef, passphrase)
       case PasswordAuth(password) =>
         ssh.keyPath.None? && ssh.passphraseRef.None? && HoldsOptional(slots, ssh.passwordRef, Some(password))
  }

  /** Trimmed, and blank means absent. */
  ghost predicate Normalized(raw: Option<string>, stored: Option<string>) {
    stored == if raw.Some? && Trim(raw.value) != "" then Some(Trim(raw.value)) else None
  }

  lemma {:induction false} SetAllStores<F>(w: World<F>, fails: Schedule, writes: seq<SecretWrite>, k: string)
    requires SetAll(w, fails, writes).2.None?
    ensures Lookup(SetAll(w, fails, writes).0.slots, k)
            == if LastWrite(writes, k).Some? then LastWrite(writes, k) else Lookup(w.slots, k)
    decreases |writes|
  {
    if writes != [] {
      SetAllStores(Set(w, fails, writes[0].keyRef, writes[0].value).0, fails, writes[1..], k);
    }
  }

  /** The secrets of one draft go to different slots. */
  lemma DraftRefsDiffer(id: string, adapter: Adapter)
    ensures KeyringRef(id, AdapterField(adapter)) != KeyringRef(id, SSH_PASSPHRASE_FIELD)
    ensures KeyringRef(id, AdapterField(adapter)) != KeyringRef(id, SSH_PASSWORD_FIELD)
    ensures KeyringRef(id, FIRESTORE_FIELD) != KeyringRef(id, SSH_PASSPHRASE_FIELD)
    ensures KeyringRef(id, FIRESTORE_FIELD) != KeyringRef(id, SSH_PASSWORD_FIELD)
  {
    forall f, g | f in FIELDS && g in FIELDS && KeyringRef(id, f) == KeyringRef(id, g)
      ensures f == g
    {
      MintingIsInjective(id, f, id, g);
    }
    assert AdapterField(adapter) in FIELDS && FIRESTORE_FIELD in FIELDS;
    assert SSH_PASSPHRASE_FIELD in FIELDS && SSH_PASSWORD_FIELD in FIELDS;
  }

  ghost predicate AllStored(slots: map<string, string>, writes: seq<SecretWrite>) {
    forall x | x in writes :: Lookup(slots, x.keyRef) == Some(x.value)
  }

  lemma KindIsStored(id: string, draft: KindDraft, slots: map<string, string>)
    requires AllStored(slots, BuildKind(id, draft).1)
    ensures KindStored(draft, BuildKind(id, draft).0, slots)
  {
    var writes := BuildKind(id, draft).1;
    assert |writes| > 0 ==> writes[0] in writes;
  }

  lemma SshIsStored(id: string, draft: SshDraft, slots: map<string, string>)
    requires AllStored(slots, BuildSsh(id, draft).1)
    ensures SshStored(draft, BuildSsh(id, draft).0, slots)
  {
    var writes := BuildSsh(id, draft).1;
    assert |writes| > 0 ==> writes[0] in writes;
  }

  /** With at most one write each, to different slots, both values can be read back. */
  lemma BothStored(w: W, fails: Schedule, a: seq<SecretWrite>, b: seq<SecretWrite>)
    requires |a| <= 1 && |b| <= 1 && (|a| == 1 == |b| ==> a[0].keyRef != b[0].keyRef)
    requires SetAll(w, fails, a + b).2.None?
    ensures var slots := SetAll(w, fails, a + b).0.slots; AllStored(slots, a) && AllStored(slots, b)
  {
    if |b| == 1 {
      assert b == [b[0]] && b[1..] == [] && LastWrite(b, b[0].keyRef) == Some(b[0].value);
    }
    if |a| == 1 {
      assert a == [a[0]] && (a + b)[1..] == b;
      assert LastWrite(b, a[0].keyRef).None?;
      SetAllStores(w, fails, a + b, a[0].keyRef);
    } else {
      assert a + b == b;
    }
    if |b| == 1 {
      SetAllStores(w, fails, a + b, b[0].keyRef);
    }
  }

  lemma PreparedSaysTheDraft(entries: seq<ConnectionEntry>, draft: ConnectionDraft)
    requires PrepareAdd(entries, draft).Ok?
    ensures var e := PrepareAdd(entries, draft).value.entry;
            && e.id == draft.id && e.name == draft.name && e.mcpWrite == draft.mcpWrite
            && Normalized(draft.mcpAlias, e.mcpAlias) && Normalized(draft.color, e.color)
                && Normalized(draft.tag, e.tag)
            && e.kind == BuildKind(draft.id, draft.kind).0
            && e.ssh == if draft.ssh.Some? then Some(BuildSsh(draft.id, draft.ssh.value).0) else None
  {
  }

  lemma CommitAddStores(w: W, fails: Schedule, file: ConnectionFile, draft: ConnectionDraft)
    requires PrepareAdd(file.connections, draft).Ok?
    requires CommitAdd(w, fails, file, PrepareAdd(file.connections, draft).value).result.Ok?
    ensures var o := CommitAdd(w, fails, file, PrepareAdd(file.connections, draft).value);
            var (e, slots) := (o.result.value, o.world.slots);
            && KindStored(draft.kind, e.kind, slots)
            && (draft.ssh.Some? ==> SshStored(draft.ssh.value, e.ssh.value, slots))
            && (forall k | k !in RefSet(e) :: Lookup(slots, k) == Lookup(w.slots, k))
  {
    PreparedCarriesItsWrites(file.connections, draft);
    PreparedSaysTheDraft(file.connections, draft);
    var writes := DraftWrites(draft);
    var more := if draft.ssh.Some? then BuildSsh(draft.id, draft.ssh.value).1 else [];
    SetAllPhase(w, fails, writes);
    DraftRefsDiffer(draft.id, if draft.kind.SecretBackedDraft? then draft.kind.adapter else D1);
    BothStored(w, fails, BuildKind(draft.id, draft.kind).1, more);
    var slots := SetAll(w, fails, writes).0.slots;
    KindIsStored(draft.id, draft.kind, slots);
    if draft.ssh.Some? {
      SshIsStored(draft.id, draft.ssh.value, slots);
    }
  }

  /** `add` that succeeds: the entry is last, says what the draft said, and its secrets are where it points. */
  lemma AddStoresTheDraft(w: W, fails: Schedule, cache: ConnectionFile, tracks: bool, draft: ConnectionDraft)
    requires Current(w, cache, tracks) && Add(w, fails, cache, tracks, draft).result.Ok?
    ensures var o := Add(w, fails, cache, tracks, draft);
            var (e, slots, file) := (o.result.value, o.world.slots, FileOn(w.disk));
            && o.file == file.(connections := file.connections + [e]) && o.world.disk == Present(o.file)
            && e.id == draft.id && e.name == draft.name && e.mcpWrite == draft.mcpWrite
            && Normalized(draft.mcpAlias, e.mcpAlias) && Normalized(draft.color, e.color)
                && Normalized(draft.tag, e.tag)
            && KindStored(draft.kind, e.kind, slots)
            && (draft.ssh.Some? <==> e.ssh.Some?) && (draft.ssh.Some? ==>
                  SshStored(draft.ssh.value, e.ssh.value, slots))
            && (forall k | k !in RefSet(e) :: Lookup(slots, k) == Lookup(w.slots, k))
  {
    SyncFacts(w, fails, cache, tracks);
    var s := Sync(w, fails, cache, tracks);
    PreparedSaysTheDraft(s.file.connections, draft);
    CommitAddStores(s.world, fails, s.file, draft);
  }

  /** The name of the slot a kind's secret goes to, spelled out: the stored names outlive any one version. */
  lemma SecretsAreNamed(id: string, adapter: Adapter, settings: string, secret: string, account: string)
    ensures BuildKind(id, SecretBackedDraft(adapter, settings, secret)).0.keyRef
         == "dbboard." + id + (if adapter in {TursoRemote, D1} then ".token"
                               else if adapter == AuroraDsqlIam then ".secret_key"
                               else ".url")
    ensures BuildKind(id, FirestoreDraft(settings, Some(account))).0.accountRef
         == Some("dbboard." + id + ".service_account")
  {
    assert KeyringRef(id, AdapterField(adapter)) == "dbboard." + id + ("." + AdapterField(adapter));
    assert KeyringRef(id, FIRESTORE_FIELD) == "dbboard." + id + ".service_account";
  }

  /** The same for a tunnel's secret, whether it comes with an add or with an edit. */
  lemma TunnelSecretsAreNamed(id: string, draft: SshDraft)
    ensures var ssh := BuildSsh(id, draft).0;
            && (ssh.passphraseRef.Some? ==> ssh.passphraseRef.value == "dbboard." + id + ".ssh_passphrase")
            && (ssh.passwordRef.Some? ==> ssh.passwordRef.value == "dbboard." + id + ".ssh_password")
  {
    SshFieldsAreNamed(id);
  }

  lemma SshFieldsAreNamed(id: string)
    ensures KeyringRef(id, SSH_PASSPHRASE_FIELD) == "dbboard." + id + ".ssh_passphrase"
    ensures KeyringRef(id, SSH_PASSWORD_FIELD) == "dbboard." + id + ".ssh_password"
  {
  }

  /** An edit mints under the same names, and only where it does not keep the ref there was. */
  lemma EditsMintTheSameNames(w: W, fails: Schedule, was: ConnectionEntry, edit: EditDraft)
    requires ApplySecrets(w, fails, was, edit).result.Ok?
    ensures var Reshaped(kind, ssh) := ApplySecrets(w, fails, was, edit).result.value;
            && (forall r | r in KindRefs(kind) && r !in KindRefs(was.kind) ::
                  r == "dbboard." + was.id + ".service_account")
            && (ssh.Some? && ssh.value.passphraseRef.Some? ==>
                  (was.ssh.Some? && ssh.value.passphraseRef == was.ssh.value.passphraseRef)
                  || ssh.value.passphraseRef.value == "dbboard." + was.id + ".ssh_passphrase")
            && (ssh.Some? && ssh.value.passwordRef.Some? ==>
                  (was.ssh.Some? && ssh.value.passwordRef == was.ssh.value.passwordRef)
                  || ssh.value.passwordRef.value == "dbboard." + was.id + ".ssh_password")
  {
    SshFieldsAreNamed(was.id);
    assert KeyringRef(was.id, FIRESTORE_FIELD) == "dbboard." + was.id + ".service_account";
    if edit.ssh.SetTunnel? {
      var k := ApplyUpdateKind(w, fails, was.id, was.kind, edit.kind);
      assert ApplySshAuth(k.world, fails, was.id, edit.ssh.edit.auth, was.ssh, k.undo).result.Ok?;
    }
  }

  // -- update ----------------------------------------------------------------------------

  /** What a slot holds once a later write, if there is one, has gone over it. */
  function Overlaid(later: Option<SecretWrite>, keyRef: string, held: Option<string>): Option<string> {
    if later.Some? && later.value.keyRef == keyRef then Some(later.value.value) else held
  }

  /**
   A kept secret is as it was under the ref it had; an overwritten one is under that
   ref too; a later write goes over it.
   */
  ghost predicate FieldApplied(field: SecretField, keyRef: string, before: map<string, string>,
                               after: map<string, string>,
                               later: Option<SecretWrite>)
  {
    Lookup(after, keyRef) == Overlaid(later, keyRef, if field.Keep? then Lookup(before, keyRef) else Some(field.value))
  }

  ghost predicate KindEdited(edit: KindEdit, was: ConnectionKind, kind: ConnectionKind,
                             before: map<string, string>, after: map<string, string>, later: Option<SecretWrite>)
  {
    match edit
    case TursoEdit(path) => was.Turso? && kind == Turso(path)
    case SecretBackedEdit(adapter, settings, secret) =>
      && was.SecretBacked? && was.adapter == adapter && kind == SecretBacked(adapter, settings, was.keyRef)
      && FieldApplied(secret, was.keyRef, before, after, later)
    case FirestoreEdit(settings, account) =>
      && was.Firestore? && kind.Firestore? && kind.settings == settings
      && match account
         case KeepAccount =>
           kind.accountRef == was.accountRef
           && (was.accountRef.Some? ==> Lookup(after, was.accountRef.value) == Lookup(before, was.accountRef.value))
         case SetAccount(value) =>
           HoldsOptional(after, kind.accountRef, Some(value))
               && (was.accountRef.Some? ==> kind.accountRef == was.accountRef)
         case Emulator => kind.accountRef.None?
  }

  ghost predicate SshEdited(edit: SshEditField, was: Option<SshTunnel>, ssh: Option<SshTunnel>,
                            before: map<string, string>, after: map<string, string>)
  {
    match edit
    case KeepTunnel => ssh == was
    case DisableTunnel => ssh.None?
    case SetTunnel(e) =>
      && ssh.Some? && ssh.value.host == e.host && ssh.value.port == e.port && ssh.value.user == e.user
      && HostKeyStored(e.hostKey, ssh.value)
      && match e.auth
         case KeyEdit(keyPath, passphrase) =>
           && ssh.value.keyPath == Some(keyPath) && ssh.value.passwordRef.None?
           && (match passphrase
               case Unencrypted => ssh.value.passphraseRef.None?
               case KeepPassphrase => was.Some? && was.value.passphraseRef.Some?
                   && ssh.value.passphraseRef == was.value.passphraseRef
               case SetPassphrase(value) => HoldsOptional(after, ssh.value.passphraseRef, Some(value)))
         case PasswordEdit(password) =>
           && ssh.value.keyPath.None? && ssh.value.passphraseRef.None?
           && (match password
               case Keep => was.Some? && was.value.passwordRef.Some? && ssh.value.passwordRef == was.value.passwordRef
               case Overwrite(value) => HoldsOptional(after, ssh.value.passwordRef, Some(value)))
  }

  lemma KindWritesItsSecret(w: W, fails: Schedule, id: string, was: ConnectionKind, edit: KindEdit)
    requires ApplyUpdateKind(w, fails, id, was, edit).result.Ok?
    ensures var a := ApplyUpdateKind(w, fails, id, was, edit);
            KindEdited(edit, was, a.result.value, w.slots, a.world.slots, None)
  {
  }

  lemma TunnelWritesItsSecret(w: W, fails: Schedule, id: string, field: SshEditField, was: Option<SshTunnel>,
                              undo: seq<UndoRecord>)
    requires ApplyUpdateSsh(w, fails, id, field, was, undo).result.Ok?
    ensures var a := ApplyUpdateSsh(w, fails, id, field, was, undo);
            SshEdited(field, was, a.result.value, w.slots, a.world.slots)
    ensures var a := ApplyUpdateSsh(w, fails, id, field, was, undo);
            forall k :: Lookup(a.world.slots, k) == Overlaid(TunnelWrite(id, field), k, Lookup(w.slots, k))
  {
    if field.SetTunnel? {
      var auth := ApplySshAuth(w, fails, id, field.edit.auth, was, undo);
      assert auth.result.Ok?;
    }
  }

  /** The tunnel's write goes over the kind's: only a kind that can carry a tunnel can see its own slot overwritten. */
  lemma TunnelEditGoesOver(id: string, edit: KindEdit, was: ConnectionKind, kind: ConnectionKind,
                           before: map<string, string>,
                           middle: map<string, string>, after: map<string, string>, later: Option<SecretWrite>)
    requires KindEdited(edit, was, kind, before, middle, None) && (later.Some? ==> kind.SupportsSshTunnel())
    requires forall k :: Lookup(after, k) == Overlaid(later, k, Lookup(middle, k))
    ensures KindEdited(edit, was, kind, before, after, later)
  {
  }

  /** The purge of an update spares what the new entry names and what the old one did not, and empties the rest. */
  lemma PurgeSparesTheNewEntry(w: W, fails: Schedule, was: ConnectionEntry, e: ConnectionEntry)
    ensures var w' := DeleteAll(w, fails, Orphans(was, e));
            && w'.disk == w.disk
            && (forall k | k in RefSet(e) || k !in RefSet(was) :: Lookup(w'.slots, k) == Lookup(w.slots, k))
            && ((forall t: nat :: !fails(DeleteEffect, t)) ==> forall k | k in RefSet(was) && k !in RefSet(e) ::
                  k !in w'.slots)
  {
    WithoutSpec(EntryRefs(was), RefSet(e));
    DeleteAllPhase(w, fails, Orphans(was, e));
    if forall t: nat :: !fails(DeleteEffect, t) {
      DeleteAllRemoves(w, fails, Orphans(was, e));
    }
  }

  /** The non-secret fields of an edit: absent keeps, blank clears. */
  ghost predicate MarksEdited(edit: EditDraft, was: ConnectionEntry, e: ConnectionEntry) {
    && e.id == was.id && e.name == edit.name
    && e.mcpWrite == (if edit.mcpWrite.Some? then edit.mcpWrite.value else was.mcpWrite)
    && (if edit.mcpAlias.Some? then Normalized(edit.mcpAlias, e.mcpAlias) else e.mcpAlias == was.mcpAlias)
    && (if edit.color.Some? then Normalized(edit.color, e.color) else e.color == was.color)
    && (if edit.tag.Some? then Normalized(edit.tag, e.tag) else e.tag == was.tag)
  }

  lemma SecretsAreEdited(w: W, fails: Schedule, was: ConnectionEntry, edit: EditDraft)
    requires ApplySecrets(w, fails, was, edit).result.Ok?
    ensures var a := ApplySecrets(w, fails, was, edit);
            && KindEdited(edit.kind, was.kind, a.result.value.kind, w.slots, a.world.slots,
                TunnelWrite(was.id, edit.ssh))
            && SshEdited(edit.ssh, was.ssh, a.result.value.ssh, w.slots, a.world.slots)
            && (forall k | k !in RefSet(was) + EditRefs(was.id) :: Lookup(a.world.slots, k) == Lookup(w.slots, k))
  {
    var kind := ApplyUpdateKind(w, fails, was.id, was.kind, edit.kind);
    var a := ApplySecrets(w, fails, was, edit);
    KindWritesItsSecret(w, fails, was.id, was.kind, edit.kind);
    TunnelWritesItsSecret(kind.world, fails, was.id, edit.ssh, was.ssh, kind.undo);
    TunnelEditGoesOver(was.id, edit.kind, was.kind, kind.result.value, w.slots, kind.world.slots, a.world.slots,
                       TunnelWrite(was.id, edit.ssh));
    ApplySecretsLogged(w, fails, was, edit);
    assert a.undo[0..] == a.undo;
  }

  /** What an edit of entry `i` leaves in both stores, and in the admin's file. */
  ghost predicate EditStored(w: W, fails: Schedule, file: ConnectionFile, i: nat, edit: EditDraft,
                             o: Outcome<ConnectionEntry>)
    requires i < |file.connections| && o.result.Ok?
  {
    var (was, e, slots) := (file.connections[i], o.result.value, o.world.slots);
    && o.file == file.(connections := file.connections[i := e]) && o.world.disk == Present(o.file)
    && MarksEdited(edit, was, e)
    && KindEdited(edit.kind, was.kind, e.kind, w.slots, slots, TunnelWrite(was.id, edit.ssh))
    && SshEdited(edit.ssh, was.ssh, e.ssh, w.slots, slots)
    && (forall k | k !in RefSet(was) + EditRefs(was.id) :: Lookup(slots, k) == Lookup(w.slots, k))
    && ((forall t: nat :: !fails(DeleteEffect, t)) ==> forall k | k in RefSet(was) && k !in RefSet(e) :: k !in slots)
  }

  lemma CommitUpdateStores(w: W, fails: Schedule, file: ConnectionFile, i: nat, edit: EditDraft)
    requires i < |file.connections|
    requires PrepareUpdate(file.connections, file.connections[i], edit).Ok?
    requires CommitUpdate(w, fails, file, i, PrepareUpdate(file.connections, file.connections[i], edit).value,
             edit).result.Ok?
    ensures EditStored(w, fails, file, i, edit,
                       CommitUpdate(w, fails, file, i, PrepareUpdate(file.connections, file.connections[i],
                           edit).value, edit))
  {
    var was := file.connections[i];
    var marks := PrepareUpdate(file.connections, was, edit).value;
    var a := ApplySecrets(w, fails, was, edit);
    var e := EditedEntry(was, edit, marks, a.result.value);
    var saved := Save(a.world, fails, file.(connections := file.connections[i := e])).0;
    SecretsAreEdited(w, fails, was, edit);
    PurgeSparesTheNewEntry(saved, fails, was, e);
    LookupsCarryOver(edit, was, e, w.slots, a.world.slots, DeleteAll(saved, fails, Orphans(was, e)).slots);
    MarksAreEdited(file, i, edit, a.result.value);
  }

  /**
   `update` that succeeds: the entry keeps its place and id, every field is kept,
   set or cleared as the draft asked, every secret it still names has the kept or
   the new value (the tunnel's, should the two be kept in one slot), no other slot
   changed, and a slot it stopped naming is empty unless deleting failed.
   */
  lemma UpdateStoresTheEdit(w: W, fails: Schedule, cache: ConnectionFile, tracks: bool, id: string, edit: EditDraft)
    requires Current(w, cache, tracks) && Update(w, fails, cache, tracks, id, edit).result.Ok?
    ensures var found := FindIndex(FileOn(w.disk).connections, id);
            found.Some? && EditStored(w, fails, FileOn(w.disk), found.value, edit,
                Update(w, fails, cache, tracks, id, edit))
  {
    SyncFacts(w, fails, cache, tracks);
    var s := Sync(w, fails, cache, tracks);
    CommitUpdateStores(s.world, fails, s.file, FindIndex(s.file.connections, id).value, edit);
  }

  lemma MarksAreEdited(file: ConnectionFile, i: nat, edit: EditDraft, shape: Reshaped)
    requires i < |file.connections| && PrepareUpdate(file.connections, file.connections[i], edit).Ok?
    ensures var was := file.connections[i];
            MarksEdited(edit, was, EditedEntry(was, edit, PrepareUpdate(file.connections, was, edit).value, shape))
  {
  }

  lemma LookupsCarryOver(edit: EditDraft, was: ConnectionEntry, e: ConnectionEntry,
                         before: map<string, string>, middle: map<string, string>, after: map<string, string>)
    requires KindEdited(edit.kind, was.kind, e.kind, before, middle, TunnelWrite(was.id, edit.ssh))
    requires SshEdited(edit.ssh, was.ssh, e.ssh, before, middle)
    requires forall k | k in RefSet(e) :: Lookup(after, k) == Lookup(middle, k)
    ensures KindEdited(edit.kind, was.kind, e.kind, before, after, TunnelWrite(was.id, edit.ssh))
    ensures SshEdited(edit.ssh, was.ssh, e.ssh, before, after)
  {
    assert forall r | r in KindRefs(e.kind) :: r in EntryRefs(e) && r in RefSet(e);
    assert forall r | r in SshRefs(e.ssh) :: r in EntryRefs(e) && r in RefSet(e);
    match e.kind {
      case SecretBacked(_, _, keyRef) => assert keyRef in KindRefs(e.kind);
      case Firestore(_, Some(accountRef)) => assert accountRef in KindRefs(e.kind);
      case _ =>
    }
    if e.ssh.Some? && e.ssh.value.passphraseRef.Some? {
      assert e.ssh.value.passphraseRef.value in SshRefs(e.ssh);
    }
    if e.ssh.Some? && e.ssh.value.passwordRef.Some? {
      assert e.ssh.value.passwordRef.value in SshRefs(e.ssh);
    }
  }

  // -- delete, move, mark --------------------------------------------------------------------

  /** `delete` that succeeds drops the entry and, unless deleting fails, its secrets and no others. */
  lemma DeleteDropsTheEntry(w: W, fails: Schedule, cache: ConnectionFile, tracks: bool, id: string)
    requires Current(w, cache, tracks) && Protocol.Delete(w, fails, cache, tracks, id).result.Ok?
    ensures var o := Protocol.Delete(w, fails, cache, tracks, id);
            var file := FileOn(w.disk);
            exists i: nat :: i < |file.connections| && file.connections[i].id == id
              && o.file == file.(connections := RemoveAt(file.connections, i)) && o.world.disk == Present(o.file)
              && (forall k | k !in RefSet(file.connections[i]) :: Lookup(o.world.slots, k) == Lookup(w.slots, k))
              && ((forall t: nat :: !fails(DeleteEffect, t)) ==> o.world.slots.Keys !! RefSet(file.connections[i]))
  {
    SyncFacts(w, fails, cache, tracks);
    var s := Sync(w, fails, cache, tracks);
    var i := FindIndex(s.file.connections, id).value;
    var e := s.file.connections[i];
    var saved := Save(s.world, fails, s.file.(connections := RemoveAt(s.file.connections, i))).0;
    DeleteAllPhase(saved, fails, EntryRefs(e));
    if forall t: nat :: !fails(DeleteEffect, t) {
      DeleteAllRemoves(saved, fails, EntryRefs(e));
    }
    assert s.file.connections[i].id == id;
  }

  /** `move_to` that succeeds puts the entry at the index asked for and keeps the others in order. */
  lemma MovePlacesTheEntry(w: W, fails: Schedule, cache: ConnectionFile, tracks: bool, id: string, index: nat)
    requires Current(w, cache, tracks) && MoveTo(w, fails, cache, tracks, id, index).result.Ok?
    ensures var o := MoveTo(w, fails, cache, tracks, id, index);
            var (before, after) := (FileOn(w.disk).connections, o.file.connections);
            && FindIndex(before, id).Some? && index < |after| && |after| == |before|
            && after[index] == before[FindIndex(before, id).value]
            && RemoveAt(after, index) == RemoveAt(before, FindIndex(before, id).value)
            && o.world.slots == w.slots && o.file == FileOn(o.world.disk)
  {
    SyncFacts(w, fails, cache, tracks);
    var entries := FileOn(w.disk).connections;
    MovedSpec(entries, FindIndex(entries, id).value, index);
  }

  /** `set_mark` that succeeds changes the mark of that entry and nothing else anywhere. */
  lemma MarkChangesOnlyTheMark(w: W, fails: Schedule, cache: ConnectionFile, tracks: bool, id: string,
                               color: Option<string>, tag: Option<string>)
    requires Current(w, cache, tracks) && SetMark(w, fails, cache, tracks, id, color, tag).result.Ok?
    ensures var o := SetMark(w, fails, cache, tracks, id, color, tag);
            var (before, after) := (FileOn(w.disk).connections, o.file.connections);
            && FindIndex(before, id).Some? && |after| == |before|
            && var i := FindIndex(before, id).value;
            && Normalized(color, after[i].color) && Normalized(tag, after[i].tag)
            && after[i] == before[i].(color := after[i].color, tag := after[i].tag)
            && (forall j | 0 <= j < |before| && j != i :: after[j] == before[j])
            && o.world.slots == w.slots && o.file == FileOn(o.world.disk)
  {
    SyncFacts(w, fails, cache, tracks);
  }
}
