/** What the secret-writing half of an edit does, whichever fields it touches and wherever it stops. */
module EditSteps {
  import opened Wrappers
  import opened Refs
  import opened Store
  import opened Machine
  import opened Drafts
  import opened Protocol
  import opened UndoLog

  /** The refs `update` may mint for an id. */
  function EditRefs(id: string): set<string> {
    {KeyringRef(id, FIRESTORE_FIELD), KeyringRef(id, SSH_PASSPHRASE_FIELD), KeyringRef(id, SSH_PASSWORD_FIELD)}
  }

  /**
   The failures in the schedule are no more than the error accounts for: one
   when the error is the keychain's or the disk's, none when the request itself
   was refused.
   */
  ghost predicate Explained(fails: Schedule, lo: nat, error: ConfigError) {
    if error.Secret? || error.IoFailed? then OneFault(fails, lo) else QuietFrom(fails, lo)
  }

  /** From `w` on, the log grew from `undo0` to `a.undo`, truthfully, and only its own slots changed. */
  ghost predicate Logged<R>(w: W, fails: Schedule, undo0: seq<UndoRecord>, a: Applied<R>) {
    && undo0 <= a.undo
    && var more := a.undo[|undo0|..];
    && Phase(w, a.world, UndoRefs(more), {})
    && Accurate(w.slots, more, a.world.slots)
    && (a.result.Err? && Explained(fails, w.tick, a.result.error) ==> QuietFrom(fails, a.world.tick))
  }

  lemma ApplyFieldLogged<R>(w: W, fails: Schedule, keyRef: string, field: SecretField, undo: seq<UndoRecord>, reply: R)
    ensures var a := ApplyField(w, fails, keyRef, field, undo, reply);
            && Logged(w, fails, undo, a)
            && UndoRefs(a.undo[|undo|..]) <= {keyRef}
            && (a.result.Ok? && field.Overwrite? ==> keyRef in a.world.slots)
            && (a.result.Ok? ==> a.result.value == reply)
  {
    var a := ApplyField(w, fails, keyRef, field, undo, reply);
    if field.Overwrite? {
      var (w1, r) := ApplyWrite(w, fails, keyRef, field.value);
      ApplyWriteAccurate(w, fails, keyRef, field.value);
      if r.Ok? {
        assert a.undo[|undo|..] == [r.value];
        assert UndoRefs([r.value]) == {keyRef};
      } else {
        assert a.undo[|undo|..] == [];
        assert UndoRefs([]) == {};
      }
    } else {
      assert a.undo[|undo|..] == [];
      assert UndoRefs([]) == {};
    }
  }

  lemma ApplyUpdateKindLogged(w: W, fails: Schedule, id: string, existing: ConnectionKind, edit: KindEdit)
    ensures var a := ApplyUpdateKind(w, fails, id, existing, edit);
            && Logged(w, fails, [], a)
            && UndoRefs(a.undo) <= (set r | r in KindRefs(existing)) + EditRefs(id)
            && (a.result.Ok? ==> forall r | r in KindRefs(a.result.value) ::
                  r in KindRefs(existing) || r in a.world.slots)
  {
    var a := ApplyUpdateKind(w, fails, id, existing, edit);
    assert a.undo[0..] == a.undo;
    match (existing, edit)
    case (SecretBacked(adapter, _, keyRef), SecretBackedEdit(adapter', settings, secret)) =>
      ApplyFieldLogged(w, fails, keyRef, secret, [], SecretBacked(adapter, settings, keyRef));
    case (Firestore(_, accountRef), FirestoreEdit(settings, SetAccount(value))) =>
      var keyRef := if accountRef.Some? then accountRef.value else KeyringRef(id, FIRESTORE_FIELD);
      ApplyFieldLogged(w, fails, keyRef, Overwrite(value), [], Firestore(settings, Some(keyRef)));
    case _ =>
      assert UndoRefs([]) == {};
  }

  lemma ApplyUpdateSshLogged(w: W, fails: Schedule, id: string, field: SshEditField, existing: Option<SshTunnel>,
                             undo: seq<UndoRecord>)
    ensures var a := ApplyUpdateSsh(w, fails, id, field, existing, undo);
            && Logged(w, fails, undo, a)
            && UndoRefs(a.undo[|undo|..]) <= EditRefs(id)
            && (a.result.Ok? ==> forall r | r in SshRefs(a.result.value) ::
                  r in SshRefs(existing) || r in a.world.slots)
  {
    var a := ApplyUpdateSsh(w, fails, id, field, existing, undo);
    assert UndoRefs([]) == {};
    match field
    case SetTunnel(edit) =>
      match edit.auth {
        case KeyEdit(keyPath, SetPassphrase(value)) =>
          var keyRef := KeyringRef(id, SSH_PASSPHRASE_FIELD);
          ApplyFieldLogged(w, fails, keyRef, Overwrite(value), undo, SshAuth(Some(keyPath), Some(keyRef), None));
        case PasswordEdit(Overwrite(value)) =>
          var keyRef := KeyringRef(id, SSH_PASSWORD_FIELD);
          ApplyFieldLogged(w, fails, keyRef, Overwrite(value), undo, SshAuth(None, None, Some(keyRef)));
        case _ => assert a.undo[|undo|..] == [];
      }
    case _ => assert a.undo[|undo|..] == [];
  }

  lemma UndoRefsOfConcat(a: seq<UndoRecord>, b: seq<UndoRecord>)
    ensures UndoRefs(a + b) == UndoRefs(a) + UndoRefs(b)
  {
  }

  /** Two logged steps, the second going on from the first, are one. */
  lemma LoggedThen<R, S>(w: W, fails: Schedule, a: Applied<R>, b: Applied<S>)
    requires Logged(w, fails, [], a) && a.result.Ok? && Logged(a.world, fails, a.undo, b)
    ensures Logged(w, fails, [], b)
    ensures UndoRefs(b.undo) == UndoRefs(a.undo) + UndoRefs(b.undo[|a.undo|..])
  {
    var more := b.undo[|a.undo|..];
    assert b.undo == a.undo + more && b.undo[0..] == b.undo && a.undo[0..] == a.undo;
    AccurateThen(w.slots, a.undo, a.world.slots, more, b.world.slots);
    UndoRefsOfConcat(a.undo, more);
    PhaseThen(w, a.world, b.world, UndoRefs(a.undo), {}, UndoRefs(more), {});
    if b.result.Err? && Explained(fails, w.tick, b.result.error) {
      assert Explained(fails, a.world.tick, b.result.error);
    }
  }

  /**
   The secret writes of a whole edit: logged truthfully, confined to the entry's refs
   and the ones its id can mint.
   */
  lemma ApplySecretsLogged(w: W, fails: Schedule, existing: ConnectionEntry, draft: EditDraft)
    ensures var a := ApplySecrets(w, fails, existing, draft);
            && Logged(w, fails, [], a)
            && UndoRefs(a.undo) <= RefSet(existing) + EditRefs(existing.id)
            && (a.result.Ok? ==>
                  forall r | r in KindRefs(a.result.value.kind) + SshRefs(a.result.value.ssh) :: r in RefSet(existing)
                      || r in a.world.slots)
  {
    ApplyUpdateKindLogged(w, fails, existing.id, existing.kind, draft.kind);
    var kind := ApplyUpdateKind(w, fails, existing.id, existing.kind, draft.kind);
    assert kind.undo[0..] == kind.undo;
    if kind.result.Ok? && !(draft.ssh.SetTunnel? && !kind.result.value.SupportsSshTunnel()) {
      ApplyUpdateSshLogged(kind.world, fails, existing.id, draft.ssh, existing.ssh, kind.undo);
      var ssh := ApplyUpdateSsh(kind.world, fails, existing.id, draft.ssh, existing.ssh, kind.undo);
      LoggedThen(w, fails, kind, ssh);
    }
  }
}
