/** When a crash in the middle of an import can leave a connection without its secret. */
module ImportCrash {
  import opened Wrappers
  import opened Store
  import opened Machine
  import opened Protocol
  import opened UndoLog
  import opened CrashSafety
  import opened Import
  import opened ImportFacts
  import opened ImportSafety

  /** Every ref of an accepted entry has a secret: the bundle brings it, or the keychain holds it already. */
  ghost predicate Covered(slots: map<string, string>, payload: BundlePayload, p: Plan) {
    ChangeRefs(p.changes) <= payload.secrets.Keys + slots.Keys
  }

  lemma {:induction false} LastWriteExists(writes: seq<SecretWrite>, k: string)
    ensures LastWrite(writes, k).Some? <==> k in WriteRefs(writes)
    decreases |writes|
  {
    if writes != [] {
      LastWriteExists(writes[1..], k);
    }
  }

  lemma MergedRefs(file: ConnectionFile, payload: BundlePayload, mode: ImportMode)
    requires Disjoint(file)
    ensures FileRefs(MergedFile(file, payload, mode).connections)
            <= FileRefs(file.connections) + ChangeRefs(PlanFor(file, payload, mode).changes)
  {
    PlanAllInv(file.connections, mode, payload.secrets, payload.connections.connections);
    MergedMembers(file.connections, PlanFor(file, payload, mode).changes);
  }

  /** The seeding that starts at tick `lo` can read what every live slot it is about to overwrite holds. */
  ghost predicate ReadsHarmless(fails: Schedule, lo: nat, file: ConnectionFile, p: Plan) {
    SeesSlots(fails, lo, p.writes, FileRefs(file.connections))
  }

  /** Each write is preceded by its read, two ticks apart; a read of one of `slots` does not fail. */
  ghost predicate SeesSlots(fails: Schedule, lo: nat, writes: seq<SecretWrite>, slots: set<string>) {
    forall i | 0 <= i < |writes| && writes[i].keyRef in slots :: !fails(GetEffect, lo + 2 * i)
  }

  lemma SeesSlotsFurtherOn(fails: Schedule, lo: nat, writes: seq<SecretWrite>, slots: set<string>)
    requires writes != [] && SeesSlots(fails, lo, writes, slots)
    ensures SeesSlots(fails, lo + 2, writes[1..], slots)
    ensures writes[0].keyRef in slots ==> !fails(GetEffect, lo)
  {
    var rest := writes[1..];
    forall i | 0 <= i < |rest| && rest[i].keyRef in slots
      ensures !fails(GetEffect, lo + 2 + 2 * i)
    {
      assert rest[i] == writes[i + 1] && lo + 2 * (i + 1) == lo + 2 + 2 * i;
    }
    assert writes[0].keyRef in slots ==> !fails(GetEffect, lo + 2 * 0);
  }

  /** A full slot that can be read is never logged as created. */
  lemma {:induction false} SeenSlotsAreNotCreated(w: W, fails: Schedule, writes: seq<SecretWrite>, slots: set<string>)
    requires slots <= w.slots.Keys && SeesSlots(fails, w.tick, writes, slots)
    ensures Created(SeedAll(w, fails, writes).1) !! slots
    decreases |writes|
  {
    if writes != [] {
      SeesSlotsFurtherOn(fails, w.tick, writes, slots);
      var (w2, r) := Set(Get(w, fails, writes[0].keyRef).0, fails, writes[0].keyRef, writes[0].value);
      if r.Ok? {
        SeenSlotsAreNotCreated(w2, fails, writes[1..], slots);
        var undo, more := SeedAll(w, fails, writes).1, SeedAll(w2, fails, writes[1..]).1;
        assert undo[1..] == more && undo[0].keyRef == writes[0].keyRef;
        assert undo[0].prior.None? ==> undo[0].keyRef !in slots;
        assert forall x | x in undo :: x == undo[0] || x in more;
      }
    }
  }

  lemma SeedingKeepsSafe(w: W, fails: Schedule, file: ConnectionFile, p: Plan)
    requires Safe(w) && file == FileOn(w.disk) && ReadsHarmless(fails, w.tick, file, p)
    ensures Safe(SeedAll(w, fails, p.writes).0)
    ensures Created(SeedAll(w, fails, p.writes).1) !! FileRefs(file.connections)
  {
    SeedAllPhase(w, fails, p.writes);
    PhaseKeepsSafe(w, SeedAll(w, fails, p.writes).0, WriteRefs(p.writes), {});
    SeenSlotsAreNotCreated(w, fails, p.writes, FileRefs(file.connections));
  }

  /** Once everything is seeded, every ref of the merged file is in the keychain. */
  lemma SeededSlotsCoverTheMergedFile(w: W, fails: Schedule, file: ConnectionFile, payload: BundlePayload,
                                      mode: ImportMode)
    requires Disjoint(file) && FileRefs(file.connections) <= w.slots.Keys
    requires Covered(w.slots, payload, PlanFor(file, payload, mode))
    requires SeedAll(w, fails, PlanFor(file, payload, mode).writes).2.None?
    ensures FileRefs(MergedFile(file, payload, mode).connections)
            <= SeedAll(w, fails, PlanFor(file, payload, mode).writes).0.slots.Keys
  {
    var p := PlanFor(file, payload, mode);
    SeedAllPhase(w, fails, p.writes);
    MergedRefs(file, payload, mode);
    PlanAllInv(file.connections, mode, payload.secrets, payload.connections.connections);
    forall k | k in WriteRefs(p.writes)
      ensures k in SeedAll(w, fails, p.writes).0.slots
    {
      SeedAllStores(w, fails, p.writes, k);
      LastWriteExists(p.writes, k);
    }
  }

  lemma CommitImportKeepsSafe(w: W, fails: Schedule, file: ConnectionFile, payload: BundlePayload, mode: ImportMode)
    requires Safe(w) && file == FileOn(w.disk) && Disjoint(file)
    requires Covered(w.slots, payload, PlanFor(file, payload, mode))
    requires ReadsHarmless(fails, w.tick, file, PlanFor(file, payload, mode))
    ensures Safe(CommitImport(w, fails, file, PlanFor(file, payload, mode)).world)
  {
    var p := PlanFor(file, payload, mode);
    var (w1, undo, error) := SeedAll(w, fails, p.writes);
    SeedAllPhase(w, fails, p.writes);
    SeedingKeepsSafe(w, fails, file, p);
    var next := MergedFile(file, payload, mode);
    var (w2, saved) := Save(w1, fails, next);
    if error.None? {
      SeededSlotsCoverTheMergedFile(w, fails, file, payload, mode);
      SaveKeepsSafe(w1, fails, next);
    }
    if error.Some? || !saved {
      var start := if error.Some? then w1 else w2;
      ReplayPhase(start, fails, undo);
      PhaseKeepsSafe(start, Replay(start, fails, undo), UndoRefs(undo), Created(undo));
    } else {
      PurgeKeepsSafe(w2, fails, file, payload, mode);
    }
  }

  lemma PurgeKeepsSafe(w: W, fails: Schedule, file: ConnectionFile, payload: BundlePayload, mode: ImportMode)
    requires Safe(w) && Disjoint(file) && w.disk == Present(MergedFile(file, payload, mode))
    ensures var m := MergeAll(file.connections, PlanFor(file, payload, mode).changes);
            Safe(DeleteAll(w, fails, ReplacedOrphans(m.connections, m.replaced)))
  {
    var m := MergeAll(file.connections, PlanFor(file, payload, mode).changes);
    var refs := ReplacedOrphans(m.connections, m.replaced);
    var dropped := PurgedRefs(file, payload, mode);
    PurgeIsAimed(file, payload, mode);
    DeleteAllPhase(w, fails, refs);
    PhaseKeepsSafe(w, DeleteAll(w, fails, refs), dropped, dropped);
  }

  /** The tick at which an import begins to seed: after its re-read, if it makes one. */
  function SeedingStart(w: W, tracks: bool): nat {
    w.tick + if tracks then 1 else 0
  }

  /**
   An import whose accepted entries are covered keeps every step safe, as long
   as it can read each live secret it is about to overwrite. Every other effect
   may fail as it likes, the rollback's own included.
   */
  lemma ImportKeepsSafe(w: W, fails: Schedule, cache: ConnectionFile, tracks: bool,
                        payload: BundlePayload, passphrase: string, mode: ImportMode)
    requires Safe(w) && Current(w, cache, tracks) && Disjoint(FileOn(w.disk))
    requires Covered(w.slots, payload, PlanFor(FileOn(w.disk), payload, mode))
    requires ReadsHarmless(fails, SeedingStart(w, tracks), FileOn(w.disk), PlanFor(FileOn(w.disk), payload, mode))
    ensures Safe(ImportBundle(w, fails, cache, tracks, Sealed(payload, passphrase), passphrase, mode).world)
  {
    var s := Sync(w, fails, cache, tracks);
    SyncFacts(w, fails, cache, tracks);
    PhaseKeepsSafe(w, s.world, {}, {});
    if s.result.Ok? && payload.version == BUNDLE_VERSION && PlanFor(s.file, payload, mode).changes != [] {
      CommitImportKeepsSafe(s.world, fails, s.file, payload, mode);
    }
  }

  // -- a ref nobody brings a secret for --------------------------------------------------

  lemma {:induction false} QuietSeedingSucceeds(w: W, writes: seq<SecretWrite>)
    ensures SeedAll(w, NEVER, writes).2.None?
    decreases |writes|
  {
    if writes != [] {
      QuietSeedingSucceeds(Set(Get(w, NEVER, writes[0].keyRef).0, NEVER, writes[0].keyRef, writes[0].value).0,
          writes[1..]);
    }
  }

  /** A quiet import saves the merged file, and fills no slot it does not write. */
  lemma QuietCommit(w: W, file: ConnectionFile, p: Plan, r: string)
    requires forall c | c in p.changes && c.slot.Some? :: c.slot.value < |file.connections|
    requires r !in WriteRefs(p.writes) && r !in w.slots
    ensures var end := CommitImport(w, NEVER, file, p).world;
            end.disk == Present(file.(connections := MergeAll(file.connections, p.changes).connections))
                && r !in end.slots
  {
    var m := MergeAll(file.connections, p.changes);
    var w1 := SeedAll(w, NEVER, p.writes).0;
    var w2 := Save(w1, NEVER, file.(connections := m.connections)).0;
    QuietSeedingSucceeds(w, p.writes);
    SeedAllPhase(w, NEVER, p.writes);
    assert Lookup(w1.slots, r) == Lookup(w.slots, r);
    CommitImportDisk(w, NEVER, file, p);
    StaysEmpty(w2, ReplacedOrphans(m.connections, m.replaced), r);
  }

  /** With nothing failing at all, the import saves an entry whose ref is in no slot. */
  lemma UncoveredCommitDangles(w: W, file: ConnectionFile, payload: BundlePayload, mode: ImportMode)
    requires file == FileOn(w.disk) && Disjoint(file)
    requires !Covered(w.slots, payload, PlanFor(file, payload, mode))
    ensures !Resolves(Now(CommitImport(w, NEVER, file, PlanFor(file, payload, mode)).world))
  {
    var r := UncoveredRef(w.slots, file, payload, mode);
    QuietCommit(w, file, PlanFor(file, payload, mode), r);
  }

  lemma UncoveredRef(slots: map<string, string>, file: ConnectionFile, payload: BundlePayload, mode: ImportMode)
      returns (r: string)
    requires Disjoint(file) && !Covered(slots, payload, PlanFor(file, payload, mode))
    ensures r !in slots && r !in WriteRefs(PlanFor(file, payload, mode).writes)
    ensures r in FileRefs(MergedFile(file, payload, mode).connections)
  {
    var p := PlanFor(file, payload, mode);
    PlanAllInv(file.connections, mode, payload.secrets, payload.connections.connections);
    MergedMembers(file.connections, p.changes);
    r :| r in ChangeRefs(p.changes) && r !in payload.secrets && r !in slots;
    var c :| c in p.changes && r in EntryRefs(c.entry);
    assert c.entry in MergedFile(file, payload, mode).connections;
  }

  lemma {:induction false} StaysEmpty(w: W, refs: seq<string>, r: string)
    requires r !in w.slots
    ensures r !in DeleteAll(w, NEVER, refs).slots
    decreases |refs|
  {
    if refs != [] {
      StaysEmpty(Machine.Delete(w, NEVER, refs[0]).0, refs[1..], r);
    }
  }

  lemma UncoveredImportDangles(w: W, cache: ConnectionFile, tracks: bool,
                               payload: BundlePayload, passphrase: string, mode: ImportMode)
    requires Current(w, cache, tracks) && !w.disk.Garbage? && Loadable(FileOn(w.disk))
             && payload.version == BUNDLE_VERSION
    requires Disjoint(FileOn(w.disk)) && !Covered(w.slots, payload, PlanFor(FileOn(w.disk), payload, mode))
    ensures !Safe(ImportBundle(w, NEVER, cache, tracks, Sealed(payload, passphrase), passphrase, mode).world)
  {
    SyncFacts(w, NEVER, cache, tracks);
    ReadSucceeds(w, NEVER, cache, tracks);
    var s := Sync(w, NEVER, cache, tracks);
    UncoveredCommitDangles(s.world, s.file, payload, mode);
  }

  /** As long as reads do no harm, an import is safe whatever else fails if and only if it is covered. */
  lemma ImportIsSafeIffCovered(w: W, cache: ConnectionFile, tracks: bool,
                               payload: BundlePayload, passphrase: string, mode: ImportMode)
    requires Safe(w) && Current(w, cache, tracks) && !w.disk.Garbage? && Loadable(FileOn(w.disk))
    requires Disjoint(FileOn(w.disk)) && payload.version == BUNDLE_VERSION
    ensures var p := PlanFor(FileOn(w.disk), payload, mode);
            (forall fails | ReadsHarmless(fails, SeedingStart(w, tracks), FileOn(w.disk), p) ::
               Safe(ImportBundle(w, fails, cache, tracks, Sealed(payload, passphrase), passphrase, mode).world))
            <==> Covered(w.slots, payload, p)
  {
    var p := PlanFor(FileOn(w.disk), payload, mode);
    if Covered(w.slots, payload, p) {
      forall fails | ReadsHarmless(fails, SeedingStart(w, tracks), FileOn(w.disk), p)
        ensures Safe(ImportBundle(w, fails, cache, tracks, Sealed(payload, passphrase), passphrase, mode).world)
      {
        ImportKeepsSafe(w, fails, cache, tracks, payload, passphrase, mode);
      }
    } else {
      assert ReadsHarmless(NEVER, SeedingStart(w, tracks), FileOn(w.disk), p);
      UncoveredImportDangles(w, cache, tracks, payload, passphrase, mode);
    }
  }

  // -- a read that fails for another reason --------------------------------------------------

  /** Every keychain read fails, and no keychain write does. */
  ghost predicate Blind(fails: Schedule) {
    forall t: nat :: fails(GetEffect, t) && !fails(SetEffect, t) && !fails(DeleteEffect, t)
  }

  /** The blind schedule on which saves fail, too. */
  const READS_AND_SAVES_FAIL: Schedule := (e: Effect, t: nat) => e.GetEffect? || e.SaveEffect?

  lemma {:induction false} UnreadableSlotsLookEmpty(w: W, fails: Schedule, writes: seq<SecretWrite>)
    requires Blind(fails)
    ensures var (w', undo, e) := SeedAll(w, fails, writes);
            && e.None? && UndoRefs(undo) == WriteRefs(writes) && (forall x | x in undo :: x.prior.None?)
            && w'.tick == w.tick + 2 * |writes|
    decreases |writes|
  {
    if writes != [] {
      var k, v := writes[0].keyRef, writes[0].value;
      var w2 := Set(Get(w, fails, k).0, fails, k, v).0;
      UnreadableSlotsLookEmpty(w2, fails, writes[1..]);
      var (_, undo, _) := SeedAll(w2, fails, writes[1..]);
      assert UndoRefs([UndoRecord(k, None)] + undo) == {k} + UndoRefs(undo);
      assert WriteRefs(writes) == {k} + WriteRefs(writes[1..]);
    }
  }

  lemma {:induction false} UndoingCreationsEmptiesThem(w: W, fails: Schedule, undo: seq<UndoRecord>)
    requires Blind(fails) && forall x | x in undo :: x.prior.None?
    ensures Replay(w, fails, undo).slots.Keys !! UndoRefs(undo)
    ensures Replay(w, fails, undo).slots.Keys <= w.slots.Keys
    decreases |undo|
  {
    if undo != [] {
      UndoingCreationsEmptiesThem(UndoOne(w, fails, undo[0]), fails, undo[1..]);
      assert UndoRefs(undo) == {undo[0].keyRef} + UndoRefs(undo[1..]);
    }
  }

  /** One unreadable slot and one failed save: every slot the plan wrote ends up empty. */
  lemma UnreadableImportEmptiesItsSlots(w: W, file: ConnectionFile, p: Plan)
    requires forall c | c in p.changes && c.slot.Some? :: c.slot.value < |file.connections|
    ensures var end := CommitImport(w, READS_AND_SAVES_FAIL, file, p).world;
            end.disk == w.disk && end.slots.Keys !! WriteRefs(p.writes)
  {
    assert Blind(READS_AND_SAVES_FAIL);
    UnreadableSlotsLookEmpty(w, READS_AND_SAVES_FAIL, p.writes);
    var (w1, undo, _) := SeedAll(w, READS_AND_SAVES_FAIL, p.writes);
    UndoingCreationsEmptiesThem(Tick(w1), READS_AND_SAVES_FAIL, undo);
    CommitImportDisk(w, READS_AND_SAVES_FAIL, file, p);
  }

  lemma OverwritingCommitDangles(w: W, file: ConnectionFile, p: Plan)
    requires file == FileOn(w.disk) && !(WriteRefs(p.writes) !! FileRefs(file.connections))
    requires forall c | c in p.changes && c.slot.Some? :: c.slot.value < |file.connections|
    ensures !Resolves(Now(CommitImport(w, READS_AND_SAVES_FAIL, file, p).world))
  {
    var r :| r in WriteRefs(p.writes) && r in FileRefs(file.connections);
    UnreadableImportEmptiesItsSlots(w, file, p);
    assert r !in CommitImport(w, READS_AND_SAVES_FAIL, file, p).world.slots.Keys;
  }

  lemma OverwritingImportCanDangle(w: W, cache: ConnectionFile, tracks: bool,
                                   payload: BundlePayload, passphrase: string, mode: ImportMode)
    requires Current(w, cache, tracks) && !w.disk.Garbage? && Loadable(FileOn(w.disk))
             && payload.version == BUNDLE_VERSION
    requires !(WriteRefs(PlanFor(FileOn(w.disk), payload, mode).writes) !! FileRefs(FileOn(w.disk).connections))
    ensures !Safe(ImportBundle(w, READS_AND_SAVES_FAIL, cache, tracks, Sealed(payload, passphrase), passphrase,
            mode).world)
  {
    var file := FileOn(w.disk);
    var p := PlanFor(file, payload, mode);
    SyncFacts(w, READS_AND_SAVES_FAIL, cache, tracks);
    ParseAcceptsExactlyLoadable(file);
    var s := Sync(w, READS_AND_SAVES_FAIL, cache, tracks);
    assert s.result.Ok? && s.file == file;
    SomeChange(file, payload, mode);
    OverwritingCommitDangles(s.world, file, p);
  }

  lemma SomeChange(file: ConnectionFile, payload: BundlePayload, mode: ImportMode)
    requires WriteRefs(PlanFor(file, payload, mode).writes) != {}
    ensures PlanFor(file, payload, mode).changes != []
  {
    PlanAllInv(file.connections, mode, payload.secrets, payload.connections.connections);
  }

  /**
   Because the import takes any failed read to mean an empty slot, a failing
   keychain adds a second condition: an import is safe under every schedule if
   and only if it is covered and overwrites no live secret. Otherwise one
   unreadable slot and one failed save delete a secret the file still names.
   */
  lemma ImportIsSafeIffNoLiveSecretIsOverwritten(w: W, cache: ConnectionFile, tracks: bool,
                                                 payload: BundlePayload, passphrase: string, mode: ImportMode)
    requires Safe(w) && Current(w, cache, tracks) && !w.disk.Garbage? && Loadable(FileOn(w.disk))
    requires Disjoint(FileOn(w.disk)) && payload.version == BUNDLE_VERSION
    ensures (forall fails :: Safe(ImportBundle(w, fails, cache, tracks, Sealed(payload, passphrase), passphrase,
            mode).world))
            <==> && Covered(w.slots, payload, PlanFor(FileOn(w.disk), payload, mode))
                 && WriteRefs(PlanFor(FileOn(w.disk), payload, mode).writes) !! FileRefs(FileOn(w.disk).connections)
  {
    var p := PlanFor(FileOn(w.disk), payload, mode);
    if !Covered(w.slots, payload, p) {
      UncoveredImportDangles(w, cache, tracks, payload, passphrase, mode);
    } else if WriteRefs(p.writes) !! FileRefs(FileOn(w.disk).connections) {
      forall fails
        ensures Safe(ImportBundle(w, fails, cache, tracks, Sealed(payload, passphrase), passphrase, mode).world)
      {
        ImportKeepsSafe(w, fails, cache, tracks, payload, passphrase, mode);
      }
    } else {
      OverwritingImportCanDangle(w, cache, tracks, payload, passphrase, mode);
    }
  }
}
