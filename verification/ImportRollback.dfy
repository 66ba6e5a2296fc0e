/** Exactly when a failed import restores the keychain. */
module ImportRollback {
  import opened Wrappers
  import opened Store
  import opened Machine
  import opened Protocol
  import opened UndoLog
  import opened EditSteps
  import opened CrashSafety
  import opened Rollback
  import opened Import
  import opened ImportFacts
  import opened ImportSafety
  import opened ImportCrash

  lemma PlannedValuesAgree(file: ConnectionFile, payload: BundlePayload, mode: ImportMode)
    ensures SameValues(PlanFor(file, payload, mode).writes)
    ensures PlanFor(file, payload, mode).changes == [] ==> PlanFor(file, payload, mode).writes == []
  {
    var p := PlanFor(file, payload, mode);
    PlanAllInv(file.connections, mode, payload.secrets, payload.connections.connections);
    assert forall i | 0 <= i < |p.writes| :: p.writes[i] in p.writes;
    if p.writes != [] {
      assert p.writes[0].keyRef in WriteRefs(p.writes);
    }
  }

  /** When only a save can fail, all writes are made, at two effects each. */
  lemma {:induction false} AllSeeded(w: W, fails: Schedule, writes: seq<SecretWrite>, at: nat)
    requires OnlyASaveFails(fails, at)
    ensures SeedAll(w, fails, writes).2.None? && SeedAll(w, fails, writes).0.tick == w.tick + 2 * |writes|
    decreases |writes|
  {
    if writes != [] {
      AllSeeded(Set(Get(w, fails, writes[0].keyRef).0, fails, writes[0].keyRef, writes[0].value).0, fails,
          writes[1..], at);
    }
  }

  /** A slot that is written twice holds the value after the undo. */
  lemma UndoKeepsARepeat(w: W, fails: Schedule, writes: seq<SecretWrite>, i: nat, j: nat)
    requires SameValues(writes) && i < j < |writes| && writes[i].keyRef == writes[j].keyRef
    requires OnlyASaveFails(fails, w.tick + 2 * |writes|)
    ensures var (w1, undo, _) := SeedAll(w, fails, writes);
            Lookup(Replay(Tick(w1), fails, undo).slots, writes[i].keyRef) == Some(writes[i].value)
  {
    var (k, v) := (writes[i].keyRef, writes[i].value);
    var m := LastIndex(writes, k);
    AllSeeded(w, fails, writes, w.tick + 2 * |writes|);
    SeedAllLog(w, fails, writes);
    RepeatIsRecorded(w, fails, writes, m, v);
    var (w1, undo, _) := SeedAll(w, fails, writes);
    ReplayEndsOnLastRecord(Tick(w1), fails, undo, m);
  }

  /** So if it did not hold the value before, the failed import has changed it. */
  lemma RepeatIsNotUndone(w: W, fails: Schedule, file: ConnectionFile, p: Plan)
    requires forall c | c in p.changes && c.slot.Some? :: c.slot.value < |file.connections|
    requires SameValues(p.writes) && !RepeatsHold(p.writes, w.slots)
    requires OnlyASaveFails(fails, w.tick + 2 * |p.writes|)
    ensures var o := CommitImport(w, fails, file, p); o.result == Err(IoFailed) && o.world.slots != w.slots
  {
    var i, j :| 0 <= i < j < |p.writes| && p.writes[i].keyRef == p.writes[j].keyRef
                && Lookup(w.slots, p.writes[i].keyRef) != Some(p.writes[i].value);
    AllSeeded(w, fails, p.writes, w.tick + 2 * |p.writes|);
    UndoKeepsARepeat(w, fails, p.writes, i, j);
    var (w1, undo, _) := SeedAll(w, fails, p.writes);
    assert fails(SaveEffect, w1.tick);
    assert CommitImport(w, fails, file, p).world == Replay(Tick(w1), fails, undo);
  }

  /** However this import fails, the keychain is as it was. */
  ghost predicate ImportAlwaysRestores(w: W, cache: ConnectionFile, tracks: bool, payload: BundlePayload,
                                       passphrase: string, mode: ImportMode) {
    forall fails | var o := ImportBundle(w, fails, cache, tracks, Sealed(payload, passphrase), passphrase, mode);
                   o.result.Err? && Explained(fails, w.tick, o.result.error) ::
      ImportBundle(w, fails, cache, tracks, Sealed(payload, passphrase), passphrase, mode).world.slots == w.slots
  }

  lemma FailedImportRestoresSlots(w: W, fails: Schedule, cache: ConnectionFile, tracks: bool,
                                  payload: BundlePayload, passphrase: string, mode: ImportMode)
    requires Current(w, cache, tracks) && RepeatsHold(PlanFor(FileOn(w.disk), payload, mode).writes, w.slots)
    requires var o := ImportBundle(w, fails, cache, tracks, Sealed(payload, passphrase), passphrase, mode);
             o.result.Err? && Explained(fails, w.tick, o.result.error)
    ensures ImportBundle(w, fails, cache, tracks, Sealed(payload, passphrase), passphrase, mode).world.slots == w.slots
  {
    var s := Sync(w, fails, cache, tracks);
    SyncKeepsSlots(w, fails, cache, tracks);
    if s.result.Ok? && payload.version == BUNDLE_VERSION {
      var p := PlanFor(s.file, payload, mode);
      if p.changes != [] {
        PlannedValuesAgree(s.file, payload, mode);
        CommitImportRollsBack(s.world, fails, s.file, p);
      }
    }
  }

  lemma RepeatedImportWriteIsNotUndone(w: W, fails: Schedule, cache: ConnectionFile, tracks: bool,
                                       payload: BundlePayload, passphrase: string, mode: ImportMode, s: Outcome<()>)
    requires Current(w, cache, tracks) && payload.version == BUNDLE_VERSION
    requires s == Sync(w, fails, cache, tracks) && s.result.Ok?
    requires var p := PlanFor(FileOn(w.disk), payload, mode);
             !RepeatsHold(p.writes, w.slots) && OnlyASaveFails(fails, s.world.tick + 2 * |p.writes|)
    ensures var o := ImportBundle(w, fails, cache, tracks, Sealed(payload, passphrase), passphrase, mode);
            o.result == Err(IoFailed) && o.world.slots != w.slots
  {
    SyncKeepsSlots(w, fails, cache, tracks);
    PlannedValuesAgree(s.file, payload, mode);
    RepeatIsNotUndone(s.world, fails, s.file, PlanFor(s.file, payload, mode));
  }

  /**
   Exact: an import that is refused by no check restores the keychain however
   it fails if and only if each ref it writes more than once held the bundle's
   value to begin with.
   */
  lemma ImportRollsBackIffRepeatsHold(w: W, cache: ConnectionFile, tracks: bool,
                                      payload: BundlePayload, passphrase: string, mode: ImportMode)
    requires Current(w, cache, tracks) && !w.disk.Garbage? && Loadable(FileOn(w.disk))
             && payload.version == BUNDLE_VERSION
    ensures ImportAlwaysRestores(w, cache, tracks, payload, passphrase, mode)
            <==> RepeatsHold(PlanFor(FileOn(w.disk), payload, mode).writes, w.slots)
  {
    var p := PlanFor(FileOn(w.disk), payload, mode);
    if RepeatsHold(p.writes, w.slots) {
      forall fails | var o := ImportBundle(w, fails, cache, tracks, Sealed(payload, passphrase), passphrase, mode);
                     o.result.Err? && Explained(fails, w.tick, o.result.error)
        ensures ImportBundle(w, fails, cache, tracks, Sealed(payload, passphrase), passphrase, mode).world.slots
                == w.slots
      {
        FailedImportRestoresSlots(w, fails, cache, tracks, payload, passphrase, mode);
      }
    } else {
      var at := w.tick + (if tracks then 1 else 0) + 2 * |p.writes|;
      var fails := SaveFailsAt(at);
      OneSaveIsOneFault(at, w.tick);
      ReadSucceeds(w, fails, cache, tracks);
      RepeatedImportWriteIsNotUndone(w, fails, cache, tracks, payload, passphrase, mode, Sync(w, fails, cache, tracks));
    }
  }

  /** An entry that keeps its own secret and its ssh password in one slot. */
  const DOUBLED: ConnectionEntry :=
    ConnectionEntry("x", "", SecretBacked(Postgres, "", "k"), false, None, None, None,
                    Some(SshTunnel("", 22, "", None, None, Some("k"), Some(""), None)))

  const REPEATING: BundlePayload := BundlePayload(BUNDLE_VERSION, EMPTY_FILE.(connections := [DOUBLED]),
      map["k" := "v"])

  /** For instance: importing it into an empty store and keychain can leave its secret behind. */
  lemma RepeatedRefIsLeftBehind(mode: ImportMode)
    ensures !ImportAlwaysRestores(World(Absent, map[], 0, []), EMPTY_FILE, true, REPEATING, "", mode)
  {
    var w: W := World(Absent, map[], 0, []);
    var secrets := map["k" := "v"];
    var p0 := PlanAll([], mode, secrets, []);
    var p := PlanFor(EMPTY_FILE, REPEATING, mode);
    assert [DOUBLED][..0] == [] && p == PlanOne([], mode, secrets, p0, DOUBLED);
    assert EntryRefs(DOUBLED) == ["k", "k"];
    var write := SecretWrite("k", "v");
    assert ["k", "k"][1..] == ["k"] && ["k"][1..] == [];
    assert Seeds(secrets, ["k"]) == [write] + Seeds(secrets, []) && Seeds(secrets, []) == [];
    assert Seeds(secrets, ["k", "k"]) == [write] + Seeds(secrets, ["k"]);
    assert p.writes == [write, write];
    assert p.writes[0].keyRef == p.writes[1].keyRef && Lookup(w.slots, "k") == None;
    ImportRollsBackIffRepeatsHold(w, EMPTY_FILE, true, REPEATING, "", mode);
  }

  // -- when the keychain cannot be read ------------------------------------------------------

  /** Reads may fail as they like; of the other effects, at most one does. */
  ghost predicate OneFaultBesidesReads(fails: Schedule, lo: nat) {
    forall e: Effect, t: nat, e': Effect, t': nat |
      lo <= t && lo <= t' && !e.GetEffect? && !e'.GetEffect? && fails(e, t) && fails(e', t') :: t == t'
  }

  /** Empty slots look empty, readable or not. */
  lemma {:induction false} EmptySlotsLookEmpty(w: W, fails: Schedule, writes: seq<SecretWrite>)
    requires DistinctWrites(writes) && WriteRefs(writes) !! w.slots.Keys
    ensures forall x | x in SeedAll(w, fails, writes).1 :: x.prior.None?
    decreases |writes|
  {
    if writes != [] {
      var (w2, r) := Set(Get(w, fails, writes[0].keyRef).0, fails, writes[0].keyRef, writes[0].value);
      assert writes[0] in writes;
      if r.Ok? {
        var rest := writes[1..];
        assert forall i | 0 <= i < |rest| :: rest[i] == writes[i + 1];
        EmptySlotsLookEmpty(w2, fails, rest);
      }
    }
  }

  lemma EmptySlotsAreRestored(w: W, fails: Schedule, file: ConnectionFile, p: Plan)
    requires forall c | c in p.changes && c.slot.Some? :: c.slot.value < |file.connections|
    requires DistinctWrites(p.writes) && WriteRefs(p.writes) !! w.slots.Keys && OneFaultBesidesReads(fails, w.tick)
    requires CommitImport(w, fails, file, p).result.Err?
    ensures CommitImport(w, fails, file, p).world.slots == w.slots
  {
    var (w1, undo, error) := SeedAll(w, fails, p.writes);
    SeedAllLog(w, fails, p.writes);
    SeedAllPhase(w, fails, p.writes);
    EmptySlotsLookEmpty(w, fails, p.writes);
    UndoRefsAreWritten(w, fails, p.writes);
    UnloggedAreUntouched(w, fails, p.writes);
    var start := if error.Some? then w1 else Tick(w1);
    assert UndoWorks(fails, start.tick) by {
      if error.Some? {
        assert fails(SetEffect, w1.tick - 1);
      } else {
        assert fails(SaveEffect, w1.tick);
      }
    }
    forall x | x in undo
      ensures x.prior == Lookup(w.slots, x.keyRef)
    {
      assert x.keyRef in UndoRefs(undo);
    }
    ReplayRestores(start, fails, undo, w.slots);
  }

  lemma {:induction false} UnloggedAreUntouched(w: W, fails: Schedule, writes: seq<SecretWrite>)
    ensures var (w', undo, _) := SeedAll(w, fails, writes);
            forall k | k !in UndoRefs(undo) :: Lookup(w'.slots, k) == Lookup(w.slots, k)
    decreases |writes|
  {
    if writes != [] {
      var (w2, r) := Set(Get(w, fails, writes[0].keyRef).0, fails, writes[0].keyRef, writes[0].value);
      if r.Ok? {
        UnloggedAreUntouched(w2, fails, writes[1..]);
        var (_, more, _) := SeedAll(w2, fails, writes[1..]);
        var undo := SeedAll(w, fails, writes).1;
        assert undo[0].keyRef == writes[0].keyRef && undo[1..] == more;
        assert UndoRefs(undo) == {writes[0].keyRef} + UndoRefs(more);
      }
    }
  }

  /** All reads fail, and the save at this tick, and nothing else. */
  ghost predicate BlindWithFailedSave(fails: Schedule, at: nat) {
    forall e, t :: fails(e, t) <==> e.GetEffect? || (e.SaveEffect? && t == at)
  }

  lemma FullSlotIsLost(w: W, fails: Schedule, file: ConnectionFile, p: Plan)
    requires forall c | c in p.changes && c.slot.Some? :: c.slot.value < |file.connections|
    requires !(WriteRefs(p.writes) !! w.slots.Keys) && BlindWithFailedSave(fails, w.tick + 2 * |p.writes|)
    ensures var o := CommitImport(w, fails, file, p); o.result == Err(IoFailed) && o.world.slots != w.slots
  {
    var k :| k in WriteRefs(p.writes) && k in w.slots;
    assert Blind(fails);
    UnreadableSlotsLookEmpty(w, fails, p.writes);
    var (w1, undo, _) := SeedAll(w, fails, p.writes);
    assert fails(SaveEffect, w1.tick);
    UndoingCreationsEmptiesThem(Tick(w1), fails, undo);
    assert CommitImport(w, fails, file, p).world == Replay(Tick(w1), fails, undo);
  }

  /** However this import fails, and whichever slots cannot be read meanwhile, the keychain is as it was. */
  ghost predicate BlindImportRestores(w: W, cache: ConnectionFile, tracks: bool, payload: BundlePayload,
                                      passphrase: string, mode: ImportMode) {
    forall fails | OneFaultBesidesReads(fails, w.tick)
                   && ImportBundle(w, fails, cache, tracks, Sealed(payload, passphrase), passphrase,
                       mode).result.Err? ::
      ImportBundle(w, fails, cache, tracks, Sealed(payload, passphrase), passphrase, mode).world.slots == w.slots
  }

  lemma BlindFailureRestores(w: W, fails: Schedule, cache: ConnectionFile, tracks: bool,
                             payload: BundlePayload, passphrase: string, mode: ImportMode)
    requires Current(w, cache, tracks) && OneFaultBesidesReads(fails, w.tick)
    requires ImportBundle(w, fails, cache, tracks, Sealed(payload, passphrase), passphrase, mode).result.Err?
    requires var p := PlanFor(FileOn(w.disk), payload, mode);
             DistinctWrites(p.writes) && WriteRefs(p.writes) !! w.slots.Keys
    ensures ImportBundle(w, fails, cache, tracks, Sealed(payload, passphrase), passphrase, mode).world.slots == w.slots
  {
    var s := Sync(w, fails, cache, tracks);
    SyncKeepsSlots(w, fails, cache, tracks);
    if s.result.Ok? && payload.version == BUNDLE_VERSION {
      var p := PlanFor(s.file, payload, mode);
      if p.changes != [] {
        EmptySlotsAreRestored(s.world, fails, s.file, p);
      }
    }
  }

  lemma BlindImportLosesAFullSlot(w: W, fails: Schedule, cache: ConnectionFile, tracks: bool,
                                  payload: BundlePayload, passphrase: string, mode: ImportMode, s: Outcome<()>)
    requires Current(w, cache, tracks) && payload.version == BUNDLE_VERSION
    requires s == Sync(w, fails, cache, tracks) && s.result.Ok?
    requires var p := PlanFor(FileOn(w.disk), payload, mode);
             !(WriteRefs(p.writes) !! w.slots.Keys) && BlindWithFailedSave(fails, s.world.tick + 2 * |p.writes|)
    ensures var o := ImportBundle(w, fails, cache, tracks, Sealed(payload, passphrase), passphrase, mode);
            o.result == Err(IoFailed) && o.world.slots != w.slots
  {
    SyncKeepsSlots(w, fails, cache, tracks);
    PlannedValuesAgree(s.file, payload, mode);
    FullSlotIsLost(s.world, fails, s.file, PlanFor(s.file, payload, mode));
  }

  lemma EmptyRepeatsDoNotHold(writes: seq<SecretWrite>, slots: map<string, string>)
    requires WriteRefs(writes) !! slots.Keys && !DistinctWrites(writes)
    ensures !RepeatsHold(writes, slots)
  {
    var i, j :| 0 <= i < j < |writes| && writes[i].keyRef == writes[j].keyRef;
    assert writes[i] in writes && writes[i].keyRef in WriteRefs(writes);
  }

  /**
   With unreadable slots allowed the condition is stronger: a failed import
   restores the keychain whichever reads fail if and only if every slot it
   writes was empty and none is written twice.
   */
  lemma BlindImportRestoresIffSlotsWereEmpty(w: W, cache: ConnectionFile, tracks: bool,
                                             payload: BundlePayload, passphrase: string, mode: ImportMode)
    requires Current(w, cache, tracks) && !w.disk.Garbage? && Loadable(FileOn(w.disk))
             && payload.version == BUNDLE_VERSION
    ensures var p := PlanFor(FileOn(w.disk), payload, mode);
            BlindImportRestores(w, cache, tracks, payload, passphrase, mode)
            <==> WriteRefs(p.writes) !! w.slots.Keys && DistinctWrites(p.writes)
  {
    var p := PlanFor(FileOn(w.disk), payload, mode);
    var at := w.tick + (if tracks then 1 else 0) + 2 * |p.writes|;
    if !(WriteRefs(p.writes) !! w.slots.Keys) {
      var fails: Schedule := (e: Effect, t: nat) => e.GetEffect? || (e.SaveEffect? && t == at);
      ReadSucceeds(w, fails, cache, tracks);
      BlindImportLosesAFullSlot(w, fails, cache, tracks, payload, passphrase, mode, Sync(w, fails, cache, tracks));
    } else if !DistinctWrites(p.writes) {
      var fails := SaveFailsAt(at);
      EmptyRepeatsDoNotHold(p.writes, w.slots);
      ReadSucceeds(w, fails, cache, tracks);
      RepeatedImportWriteIsNotUndone(w, fails, cache, tracks, payload, passphrase, mode, Sync(w, fails, cache, tracks));
    } else {
      forall fails | OneFaultBesidesReads(fails, w.tick)
                     && ImportBundle(w, fails, cache, tracks, Sealed(payload, passphrase), passphrase, mode).result.Err?
        ensures ImportBundle(w, fails, cache, tracks, Sealed(payload, passphrase), passphrase, mode).world.slots
                == w.slots
      {
        BlindFailureRestores(w, fails, cache, tracks, payload, passphrase, mode);
      }
    }
  }
}
