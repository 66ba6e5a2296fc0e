/** Exactly when a failed `update` restores the keychain: its log is replayed first to last. */
module UpdateRollback {
  import opened Wrappers
  import opened Refs
  import opened Store
  import opened Machine
  import opened Drafts
  import opened Protocol
  import opened UndoLog
  import opened EditSteps
  import opened CrashSafety
  import opened Rollback

  /** What an edit that writes one slot twice puts there first. */
  function FirstValue(draft: EditDraft): string
    requires draft.kind.SecretBackedEdit? && draft.kind.secret.Overwrite?
  {
    draft.kind.secret.value
  }

  /** Either the edit stops before its second write, or its log holds both, the second noting the first's value. */
  lemma TwoWritesAreLogged(w: W, fails: Schedule, existing: ConnectionEntry, draft: EditDraft)
    requires WritesOneSlotTwice(existing, draft)
    ensures var a := ApplySecrets(w, fails, existing, draft);
            var r := existing.kind.keyRef;
            || |a.undo| <= 1
            || (a.undo == [UndoRecord(r, Lookup(w.slots, r)), UndoRecord(r, Some(FirstValue(draft)))]
                && forall k | k != r :: Lookup(a.world.slots, k) == Lookup(w.slots, k))
  {
    var kind := ApplyUpdateKind(w, fails, existing.id, existing.kind, draft.kind);
    if kind.result.Ok? {
      assert kind.world.slots == w.slots[existing.kind.keyRef := FirstValue(draft)];
      assert kind.undo == [UndoRecord(existing.kind.keyRef, Lookup(w.slots, existing.kind.keyRef))];
      var auth := ApplySshAuth(kind.world, fails, existing.id, draft.ssh.edit.auth, existing.ssh, kind.undo);
      assert auth.result.Err? ==> auth.undo == kind.undo;
    }
  }

  /** Replaying both records leaves the first write's value. */
  lemma ReplayingTwoKeepsTheFirstValue(w: W, fails: Schedule, r: string, prior: Option<string>, value: string)
    requires QuietFrom(fails, w.tick)
    ensures var end := Replay(w, fails, [UndoRecord(r, prior), UndoRecord(r, Some(value))]).slots;
            Lookup(end, r) == Some(value) && forall k | k != r :: Lookup(end, k) == Lookup(w.slots, k)
  {
    var undo := [UndoRecord(r, prior), UndoRecord(r, Some(value))];
    var w1 := UndoOne(w, fails, undo[0]);
    var w2 := UndoOne(w1, fails, undo[1]);
    assert undo[1..] == [undo[1]] && undo[1..][1..] == [];
    assert Replay(w1, fails, undo[1..]) == Replay(w2, fails, []) == w2;
  }

  /**
   A failed commit of an edit that writes one slot twice restores everything if that
   slot held the first value already.
   */
  lemma FailedDoubleWrite(w: W, fails: Schedule, file: ConnectionFile, i: nat, marks: Marks, draft: EditDraft)
    requires i < |file.connections| && WritesOneSlotTwice(file.connections[i], draft)
    requires var o := CommitUpdate(w, fails, file, i, marks, draft);
             o.result.Err? && Explained(fails, w.tick, o.result.error)
    requires Lookup(w.slots, file.connections[i].kind.keyRef) == Some(FirstValue(draft))
    ensures CommitUpdate(w, fails, file, i, marks, draft).world.slots == w.slots
  {
    var existing := file.connections[i];
    var a := ApplySecrets(w, fails, existing, draft);
    TwoWritesAreLogged(w, fails, existing, draft);
    if |a.undo| <= 1 {
      CommitUpdateRollsBack(w, fails, file, i, marks, draft);
    } else {
      ApplySecretsLogged(w, fails, existing, draft);
      var start := if a.result.Err? then a.world else Tick(a.world);
      if a.result.Ok? {
        QuietAfterFault(fails, w.tick, SaveEffect, a.world.tick);
      }
      ReplayingTwoKeepsTheFirstValue(start, fails, existing.kind.keyRef, Lookup(w.slots, existing.kind.keyRef),
          FirstValue(draft));
      SameLookups(Replay(start, fails, a.undo).slots, w.slots);
    }
  }

  /** With the save failing and nothing else, the slot ends up with the first value whatever it held. */
  lemma DoubleWriteWithFailedSave(w: W, fails: Schedule, file: ConnectionFile, i: nat, marks: Marks, draft: EditDraft)
    requires i < |file.connections| && WritesOneSlotTwice(file.connections[i], draft)
    requires OnlyASaveFails(fails, w.tick + 4)
    ensures var o := CommitUpdate(w, fails, file, i, marks, draft);
            o.result == Err(IoFailed) && Lookup(o.world.slots, file.connections[i].kind.keyRef)
                == Some(FirstValue(draft))
  {
    var existing := file.connections[i];
    TwoWritesAreLogged(w, fails, existing, draft);
    var a := ApplySecrets(w, fails, existing, draft);
    BothWritesSucceed(w, fails, existing, draft);
    var start := Tick(a.world);
    ReplayingTwoKeepsTheFirstValue(start, fails, existing.kind.keyRef, Lookup(w.slots, existing.kind.keyRef),
        FirstValue(draft));
  }

  lemma BothWritesSucceed(w: W, fails: Schedule, existing: ConnectionEntry, draft: EditDraft)
    requires WritesOneSlotTwice(existing, draft) && OnlyASaveFails(fails, w.tick + 4)
    ensures var a := ApplySecrets(w, fails, existing, draft);
            a.result.Ok? && |a.undo| == 2 && a.world.tick == w.tick + 4
  {
    var kind := ApplyUpdateKind(w, fails, existing.id, existing.kind, draft.kind);
    assert kind.result.Ok? && kind.world.tick == w.tick + 2 && |kind.undo| == 1;
    var auth := ApplySshAuth(kind.world, fails, existing.id, draft.ssh.edit.auth, existing.ssh, kind.undo);
    assert auth.result.Ok? && auth.world.tick == w.tick + 4 && |auth.undo| == 2;
  }

  /** Past its checks, `update` is its commit on the file it read; if the read fails it does nothing. */
  lemma UpdateIsItsCommit(w: W, fails: Schedule, cache: ConnectionFile, tracks: bool, id: string, draft: EditDraft)
    requires Current(w, cache, tracks) && !w.disk.Garbage? && Loadable(FileOn(w.disk))
    requires FindIndex(FileOn(w.disk).connections, id).Some?
    requires var entries := FileOn(w.disk).connections;
             PrepareUpdate(entries, entries[FindIndex(entries, id).value], draft).Ok?
    ensures var s := Sync(w, fails, cache, tracks);
            var file := FileOn(w.disk);
            var i := FindIndex(file.connections, id).value;
            && s.world.slots == w.slots && s.world.tick == w.tick + (if tracks then 1 else 0)
            && (s.result.Err? <==> tracks && fails(LoadEffect, w.tick))
            && Update(w, fails, cache, tracks, id, draft)
               == if s.result.Err? then Outcome(s.world, s.file, Err(s.result.error))
                  else CommitUpdate(s.world, fails, file, i,
                      PrepareUpdate(file.connections, file.connections[i], draft).value, draft)
  {
    ParseAcceptsExactlyLoadable(FileOn(w.disk));
  }

  lemma FailedUpdateRestoresSlots(w: W, fails: Schedule, cache: ConnectionFile, tracks: bool, id: string,
                                  draft: EditDraft)
    requires Current(w, cache, tracks) && !w.disk.Garbage? && Loadable(FileOn(w.disk))
    requires FindIndex(FileOn(w.disk).connections, id).Some?
    requires var entries := FileOn(w.disk).connections;
             PrepareUpdate(entries, entries[FindIndex(entries, id).value], draft).Ok?
    requires var o := Update(w, fails, cache, tracks, id, draft);
             o.result.Err? && Explained(fails, w.tick, o.result.error)
    requires var existing := FileOn(w.disk).connections[FindIndex(FileOn(w.disk).connections, id).value];
             WritesOneSlotTwice(existing, draft) ==> Lookup(w.slots, existing.kind.keyRef) == Some(FirstValue(draft))
    ensures Update(w, fails, cache, tracks, id, draft).world.slots == w.slots
  {
    var file := FileOn(w.disk);
    var i := FindIndex(file.connections, id).value;
    var marks := PrepareUpdate(file.connections, file.connections[i], draft).value;
    var s := Sync(w, fails, cache, tracks);
    UpdateIsItsCommit(w, fails, cache, tracks, id, draft);
    if s.result.Ok? {
      if WritesOneSlotTwice(file.connections[i], draft) {
        FailedDoubleWrite(s.world, fails, file, i, marks, draft);
      } else {
        EditWritesEachRefOnce(s.world, fails, file.connections[i], draft);
        CommitUpdateRollsBack(s.world, fails, file, i, marks, draft);
      }
    }
  }

  /** One failed save, four effects after the read, leaves an edit that writes one slot twice half undone. */
  lemma DoubleWriteIsNotUndone(w: W, fails: Schedule, cache: ConnectionFile, tracks: bool, id: string,
                               draft: EditDraft, s: Outcome<()>)
    requires Current(w, cache, tracks) && !w.disk.Garbage? && Loadable(FileOn(w.disk))
    requires FindIndex(FileOn(w.disk).connections, id).Some?
    requires var entries := FileOn(w.disk).connections;
             PrepareUpdate(entries, entries[FindIndex(entries, id).value], draft).Ok?
    requires var existing := FileOn(w.disk).connections[FindIndex(FileOn(w.disk).connections, id).value];
             WritesOneSlotTwice(existing, draft) && Lookup(w.slots, existing.kind.keyRef) != Some(FirstValue(draft))
    requires s == Sync(w, fails, cache, tracks) && s.result.Ok? && OnlyASaveFails(fails, s.world.tick + 4)
    ensures Update(w, fails, cache, tracks, id, draft).result == Err(IoFailed)
    ensures Update(w, fails, cache, tracks, id, draft).world.slots != w.slots
  {
    var file := FileOn(w.disk);
    var i := FindIndex(file.connections, id).value;
    var marks := PrepareUpdate(file.connections, file.connections[i], draft).value;
    UpdateIsItsCommit(w, fails, cache, tracks, id, draft);
    DoubleWriteWithFailedSave(s.world, fails, file, i, marks, draft);
  }

  /** However this update fails, the keychain is as it was. */
  ghost predicate AlwaysRestores(w: W, cache: ConnectionFile, tracks: bool, id: string, draft: EditDraft) {
    forall fails | var o := Update(w, fails, cache, tracks, id, draft);
        o.result.Err? && Explained(fails, w.tick, o.result.error) ::
      Update(w, fails, cache, tracks, id, draft).world.slots == w.slots
  }

  /**
   Exact: an `update` that passes its checks restores the keychain however it
   fails if and only if it does not write one slot twice, or that slot held the
   first of the two values to begin with.
   */
  lemma UpdateRollsBackIffNoSlotIsWrittenTwice(w: W, cache: ConnectionFile, tracks: bool, id: string, draft: EditDraft)
    requires Current(w, cache, tracks) && !w.disk.Garbage? && Loadable(FileOn(w.disk))
    requires FindIndex(FileOn(w.disk).connections, id).Some?
    requires var entries := FileOn(w.disk).connections;
             PrepareUpdate(entries, entries[FindIndex(entries, id).value], draft).Ok?
    ensures var existing := FileOn(w.disk).connections[FindIndex(FileOn(w.disk).connections, id).value];
            AlwaysRestores(w, cache, tracks, id, draft)
            <==> (WritesOneSlotTwice(existing, draft) ==>
                  Lookup(w.slots, existing.kind.keyRef) == Some(FirstValue(draft)))
  {
    var i := FindIndex(FileOn(w.disk).connections, id).value;
    var existing := FileOn(w.disk).connections[i];
    if WritesOneSlotTwice(existing, draft) && Lookup(w.slots, existing.kind.keyRef) != Some(FirstValue(draft)) {
      var at := w.tick + (if tracks then 1 else 0) + 4;
      var fails := SaveFailsAt(at);
      OneSaveIsOneFault(at, w.tick);
      ReadSucceeds(w, fails, cache, tracks);
      DoubleWriteIsNotUndone(w, fails, cache, tracks, id, draft, Sync(w, fails, cache, tracks));
    } else {
      forall fails | var o := Update(w, fails, cache, tracks, id, draft);
          o.result.Err? && Explained(fails, w.tick, o.result.error)
        ensures Update(w, fails, cache, tracks, id, draft).world.slots == w.slots
      {
        FailedUpdateRestoresSlots(w, fails, cache, tracks, id, draft);
      }
    }
  }

  /** A connection whose own secret was put, by hand, where its id keeps an ssh password. */
  const DOUBLED: ConnectionEntry :=
    ConnectionEntry("x", "", SecretBacked(Postgres, "", KeyringRef("x", SSH_PASSWORD_FIELD)), false, None, None, None,
        None)

  /** An edit that sets both. */
  const SETS_BOTH: EditDraft :=
    EditDraft("", SecretBackedEdit(Postgres, "", Overwrite("a")),
              SetTunnel(SshEdit("", 22, "", PasswordEdit(Overwrite("b")), Fingerprint(""))), None, None, None, None)

  /** For instance: editing it that way, when it held another secret, does not always give that secret back. */
  lemma DoubledSlotIsNotRestored()
    ensures var file := EMPTY_FILE.(connections := [DOUBLED]);
            !AlwaysRestores(World(Present(file), map[KeyringRef("x", SSH_PASSWORD_FIELD) := "old"], 0, []), file,
                true, "x", SETS_BOTH)
  {
    var file := EMPTY_FILE.(connections := [DOUBLED]);
    var w: W := World(Present(file), map[KeyringRef("x", SSH_PASSWORD_FIELD) := "old"], 0, []);
    assert FindIndex([DOUBLED], "x") == Some(0) by {
      assert EntryId([DOUBLED][0]) == "x";
    }
    assert PrepareUpdate([DOUBLED], DOUBLED, SETS_BOTH) == Ok(Marks(None, None, None));
    assert WritesOneSlotTwice(DOUBLED, SETS_BOTH);
    UpdateRollsBackIffNoSlotIsWrittenTwice(w, file, true, "x", SETS_BOTH);
  }
}
