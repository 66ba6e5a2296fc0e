/** What an import that succeeds has done to every slot, and what it decides about every entry of the bundle. */
module ImportEffects {
  import opened Wrappers
  import opened Store
  import opened Machine
  import opened Protocol
  import opened UndoLog
  import opened CrashSafety
  import opened Import
  import opened ImportFacts
  import opened ImportSafety
  import opened ImportCrash
  import opened ImportReports

  // -- the purge -----------------------------------------------------------------------------

  ghost predicate DeletesWork(fails: Schedule) {
    forall t: nat :: !fails(DeleteEffect, t)
  }

  /** An entry that lost a ref was replaced, and the replacement does not carry the ref. */
  lemma LoserWasReplaced(existing: seq<ConnectionEntry>, changes: seq<Change>, i: nat, r: string)
    requires WellAimed(existing, changes) && i < |existing| && r in EntryRefs(existing[i])
    requires r !in FileRefs(MergeAll(existing, changes).connections)
    ensures var m := MergeAll(existing, changes);
            Replaced(i, existing[i]) in m.replaced && r !in RefSet(m.connections[i])
  {
    var m := MergeAll(existing, changes);
    MergeAllShape(existing, changes);
    assert m.connections[i] in m.connections;
    assert Change(Some(i), m.connections[i]) in changes;
  }

  /** A ref the old list carried and the merged one does not is on the list of the purge. */
  lemma DroppedRefsArePurged(file: ConnectionFile, payload: BundlePayload, mode: ImportMode)
    ensures FileRefs(file.connections) - FileRefs(MergedFile(file, payload, mode).connections)
            <= PurgedRefs(file, payload, mode)
  {
    var p := PlanFor(file, payload, mode);
    var m := MergeAll(file.connections, p.changes);
    PlanAllInv(file.connections, mode, payload.secrets, payload.connections.connections);
    ReplacedOrphansSpec(m.connections, m.replaced);
    forall r | r in FileRefs(file.connections) && r !in FileRefs(m.connections)
      ensures r in PurgedRefs(file, payload, mode)
    {
      var e :| e in file.connections && r in EntryRefs(e);
      var i :| 0 <= i < |file.connections| && file.connections[i] == e;
      LoserWasReplaced(file.connections, p.changes, i, r);
    }
  }

  /** A purged slot is empty, as long as no delete fails. */
  lemma CommitImportPurges(w: W, fails: Schedule, file: ConnectionFile, payload: BundlePayload, mode: ImportMode)
    requires DeletesWork(fails) && CommitImport(w, fails, file, PlanFor(file, payload, mode)).result.Ok?
    ensures CommitImport(w, fails, file, PlanFor(file, payload, mode)).world.slots.Keys
         !! PurgedRefs(file, payload, mode)
  {
    var p := PlanFor(file, payload, mode);
    var m := MergeAll(file.connections, p.changes);
    var saved := Save(SeedAll(w, fails, p.writes).0, fails, file.(connections := m.connections)).0;
    DeleteAllRemoves(saved, fails, ReplacedOrphans(m.connections, m.replaced));
  }

  /**
   After an import that succeeds, no secret is left behind that the store used
   to name and no longer does, unless deleting it failed.
   */
  lemma ImportLeavesNoOrphans(w: W, fails: Schedule, cache: ConnectionFile, tracks: bool, blob: Blob,
                              passphrase: string, mode: ImportMode)
    requires Current(w, cache, tracks) && DeletesWork(fails)
    requires ImportBundle(w, fails, cache, tracks, blob, passphrase, mode).result.Ok?
    ensures var o := ImportBundle(w, fails, cache, tracks, blob, passphrase, mode);
            FileRefs(FileOn(w.disk).connections) - FileRefs(o.file.connections) !! o.world.slots.Keys
  {
    var s := Sync(w, fails, cache, tracks);
    SyncFacts(w, fails, cache, tracks);
    var payload := Decrypt(blob, passphrase).value;
    var p := PlanFor(s.file, payload, mode);
    if p.changes != [] {
      DroppedRefsArePurged(s.file, payload, mode);
      CommitImportPurges(s.world, fails, s.file, payload, mode);
      CommitImportDisk(s.world, fails, s.file, p);
    }
  }

  // -- every slot ------------------------------------------------------------------------------

  /** What the import is to leave in a slot: the bundle's secret if it seeds one, nothing if it purges it. */
  function SlotAfter(slots: map<string, string>, file: ConnectionFile, payload: BundlePayload, mode: ImportMode,
                     k: string): Option<string>
  {
    if k in ChangeRefs(PlanFor(file, payload, mode).changes) && k in payload.secrets then Some(payload.secrets[k])
    else if k in FileRefs(file.connections) && k !in FileRefs(MergedFile(file, payload, mode).connections) then None
    else Lookup(slots, k)
  }

  lemma SeededSlot(w: W, fails: Schedule, file: ConnectionFile, payload: BundlePayload, mode: ImportMode, k: string)
    requires SeedAll(w, fails, PlanFor(file, payload, mode).writes).2.None?
    ensures var p := PlanFor(file, payload, mode);
            Lookup(SeedAll(w, fails, p.writes).0.slots, k)
            == if k in ChangeRefs(p.changes) && k in payload.secrets then Some(payload.secrets[k])
               else Lookup(w.slots, k)
  {
    var p := PlanFor(file, payload, mode);
    PlanAllInv(file.connections, mode, payload.secrets, payload.connections.connections);
    SeedAllStores(w, fails, p.writes, k);
    LastWriteExists(p.writes, k);
    if LastWrite(p.writes, k).Some? {
      LastWriteIsOne(p.writes, k);
    }
  }

  lemma {:induction false} LastWriteIsOne(writes: seq<SecretWrite>, k: string)
    requires LastWrite(writes, k).Some?
    ensures SecretWrite(k, LastWrite(writes, k).value) in writes
    decreases |writes|
  {
    if LastWrite(writes[1..], k).Some? {
      LastWriteIsOne(writes[1..], k);
    }
  }

  /** Over distinct ids, the purge's list is exactly what only the old list carried, once seeded refs are set apart. */
  lemma PurgedIsDropped(file: ConnectionFile, payload: BundlePayload, mode: ImportMode)
    requires Disjoint(file)
    ensures PurgedRefs(file, payload, mode)
         == FileRefs(file.connections) - FileRefs(MergedFile(file, payload, mode).connections)
  {
    var p := PlanFor(file, payload, mode);
    var m := MergeAll(file.connections, p.changes);
    PurgeIsAimed(file, payload, mode);
    DroppedRefsArePurged(file, payload, mode);
    PlanAllInv(file.connections, mode, payload.secrets, payload.connections.connections);
    MergeAllShape(file.connections, p.changes);
    ReplacedOrphansSpec(m.connections, m.replaced);
    forall r | r in PurgedRefs(file, payload, mode)
      ensures r in FileRefs(file.connections)
    {
      var x :| x in m.replaced && r in EntryRefs(x.entry);
      assert x.entry in file.connections;
    }
  }

  lemma CommitImportSlot(w: W, fails: Schedule, file: ConnectionFile, payload: BundlePayload, mode: ImportMode,
                         k: string)
    requires Disjoint(file) && DeletesWork(fails)
             && CommitImport(w, fails, file, PlanFor(file, payload, mode)).result.Ok?
    ensures Lookup(CommitImport(w, fails, file, PlanFor(file, payload, mode)).world.slots, k)
         == SlotAfter(w.slots, file, payload, mode, k)
  {
    var p := PlanFor(file, payload, mode);
    var m := MergeAll(file.connections, p.changes);
    var w1 := SeedAll(w, fails, p.writes).0;
    var saved := Save(w1, fails, file.(connections := m.connections)).0;
    SeededSlot(w, fails, file, payload, mode, k);
    PurgedIsDropped(file, payload, mode);
    DeleteAllRemoves(saved, fails, ReplacedOrphans(m.connections, m.replaced));
    PlanAllInv(file.connections, mode, payload.secrets, payload.connections.connections);
    ChangesAreMerged(file.connections, p.changes);
  }

  /** After an import that succeeds, and whose deletes work, each slot of the keychain holds exactly that. */
  lemma ImportSetsEverySlot(w: W, fails: Schedule, cache: ConnectionFile, tracks: bool, blob: Blob,
                            passphrase: string, mode: ImportMode, k: string)
    requires Current(w, cache, tracks) && Disjoint(FileOn(w.disk)) && DeletesWork(fails)
    requires ImportBundle(w, fails, cache, tracks, blob, passphrase, mode).result.Ok?
    ensures Lookup(ImportBundle(w, fails, cache, tracks, blob, passphrase, mode).world.slots, k)
         == SlotAfter(w.slots, FileOn(w.disk), Decrypt(blob, passphrase).value, mode, k)
  {
    var s := Sync(w, fails, cache, tracks);
    SyncFacts(w, fails, cache, tracks);
    var payload := Decrypt(blob, passphrase).value;
    var p := PlanFor(s.file, payload, mode);
    if p.changes != [] {
      CommitImportSlot(s.world, fails, s.file, payload, mode, k);
    } else {
      NothingMerged(s.file, payload, mode);
    }
  }

  lemma NothingMerged(file: ConnectionFile, payload: BundlePayload, mode: ImportMode)
    requires PlanFor(file, payload, mode).changes == []
    ensures MergedFile(file, payload, mode) == file && ChangeRefs(PlanFor(file, payload, mode).changes) == {}
  {
  }

  // -- every decision --------------------------------------------------------------------------

  /** The verdict on the `n`th entry of the bundle. */
  function VerdictAt(existing: seq<ConnectionEntry>, mode: ImportMode, secrets: map<string, string>,
                     entries: seq<ConnectionEntry>, n: nat): Verdict
    requires n < |entries|
  {
    VerdictOf(existing, mode, PlanAll(existing, mode, secrets, entries[..n]), entries[n])
  }

  predicate Takes(v: Verdict) {
    v == Imported || v == Overwritten
  }

  ghost predicate TakenAt(existing: seq<ConnectionEntry>, mode: ImportMode, secrets: map<string, string>,
                          entries: seq<ConnectionEntry>, n: nat)
    requires n < |entries|
  {
    Takes(VerdictAt(existing, mode, secrets, entries, n))
  }

  lemma OneMoreRemembered(existing: seq<ConnectionEntry>, mode: ImportMode, secrets: map<string, string>,
                          entries: seq<ConnectionEntry>, n: nat)
    requires n < |entries|
    ensures var p := PlanAll(existing, mode, secrets, entries[..n]);
            var q := PlanAll(existing, mode, secrets, entries[..n + 1]);
            if TakenAt(existing, mode, secrets, entries, n)
            then && q.accepted == p.accepted + {entries[n].id}
                 && q.changes == p.changes + [Change(FindIndex(existing, entries[n].id), entries[n])]
            else q.accepted == p.accepted && q.changes == p.changes
  {
    assert entries[..n + 1][..n] == entries[..n];
  }

  /** An entry called `id` was taken among the first `n`. */
  ghost predicate TakenBefore(existing: seq<ConnectionEntry>, mode: ImportMode, secrets: map<string, string>,
                              entries: seq<ConnectionEntry>, n: nat, id: string)
    requires n <= |entries|
  {
    exists k | 0 <= k < n :: TakenAt(existing, mode, secrets, entries, k) && entries[k].id == id
  }

  lemma TakenBeforeGrows(existing: seq<ConnectionEntry>, mode: ImportMode, secrets: map<string, string>,
                         entries: seq<ConnectionEntry>, n: nat, id: string)
    requires n < |entries|
    ensures TakenBefore(existing, mode, secrets, entries, n + 1, id)
            <==> TakenBefore(existing, mode, secrets, entries, n, id)
                 || (TakenAt(existing, mode, secrets, entries, n) && entries[n].id == id)
  {
  }

  lemma {:induction false} AcceptedIffTaken(existing: seq<ConnectionEntry>, mode: ImportMode,
                                            secrets: map<string, string>,
                                            entries: seq<ConnectionEntry>, n: nat, id: string)
    requires n <= |entries|
    ensures id in PlanAll(existing, mode, secrets, entries[..n]).accepted
            <==> TakenBefore(existing, mode, secrets, entries, n, id)
  {
    if n == 0 {
      assert entries[..n] == [];
    } else {
      AcceptedIffTaken(existing, mode, secrets, entries, n - 1, id);
      OneMoreRemembered(existing, mode, secrets, entries, n - 1);
      TakenBeforeGrows(existing, mode, secrets, entries, n - 1, id);
    }
  }

  lemma {:induction false} ChangeIsTaken(existing: seq<ConnectionEntry>, mode: ImportMode, secrets: map<string, string>,
                                         entries: seq<ConnectionEntry>, n: nat, c: Change) returns (k: nat)
    requires n <= |entries| && c in PlanAll(existing, mode, secrets, entries[..n]).changes
    ensures k < n && TakenAt(existing, mode, secrets, entries, k) && entries[k] == c.entry
  {
    OneMoreRemembered(existing, mode, secrets, entries, n - 1);
    if c in PlanAll(existing, mode, secrets, entries[..n - 1]).changes {
      k := ChangeIsTaken(existing, mode, secrets, entries, n - 1, c);
    } else {
      k := n - 1;
    }
  }

  lemma {:induction false} TakenIsChange(existing: seq<ConnectionEntry>, mode: ImportMode, secrets: map<string, string>,
                                         entries: seq<ConnectionEntry>, n: nat, k: nat)
    requires k < n <= |entries| && TakenAt(existing, mode, secrets, entries, k)
    ensures var c := Change(FindIndex(existing, entries[k].id), entries[k]);
            c in PlanAll(existing, mode, secrets, entries[..n]).changes
  {
    OneMoreRemembered(existing, mode, secrets, entries, n - 1);
    if k < n - 1 {
      TakenIsChange(existing, mode, secrets, entries, n - 1, k);
    }
  }

  /** A stored entry of another id, or an entry taken before under another id, carries `r`. */
  ghost predicate HeldByAnother(existing: seq<ConnectionEntry>, mode: ImportMode, secrets: map<string, string>,
                                entries: seq<ConnectionEntry>, n: nat, r: string)
    requires n < |entries|
  {
    || (exists e | e in existing :: e.id != entries[n].id && r in EntryRefs(e))
    || (exists k | 0 <= k < n ::
          TakenAt(existing, mode, secrets, entries, k) && entries[k].id != entries[n].id && r in EntryRefs(entries[k]))
  }

  lemma HeldIsOwned(existing: seq<ConnectionEntry>, mode: ImportMode, secrets: map<string, string>,
                    entries: seq<ConnectionEntry>, n: nat, r: string)
    requires n < |entries| && RefsDisjoint(existing) && HeldByAnother(existing, mode, secrets, entries, n, r)
    ensures var owners := PlanAll(existing, mode, secrets, entries[..n]).owners;
            r in owners && owners[r] != entries[n].id
  {
    PlanAllInv(existing, mode, secrets, entries[..n]);
    if e :| e in existing && e.id != entries[n].id && r in EntryRefs(e) {
      var i :| 0 <= i < |existing| && existing[i] == e;
      OwnersAreExact(existing, i, r);
    } else {
      var k :| 0 <= k < n && TakenAt(existing, mode, secrets, entries, k) && entries[k].id != entries[n].id
               && r in EntryRefs(entries[k]);
      TakenIsChange(existing, mode, secrets, entries, n, k);
    }
  }

  lemma OwnedIsHeld(existing: seq<ConnectionEntry>, mode: ImportMode, secrets: map<string, string>,
                    entries: seq<ConnectionEntry>, n: nat, r: string)
    requires n < |entries|
    requires var owners := PlanAll(existing, mode, secrets, entries[..n]).owners;
             r in owners && owners[r] != entries[n].id
    ensures HeldByAnother(existing, mode, secrets, entries, n, r)
  {
    var p := PlanAll(existing, mode, secrets, entries[..n]);
    PlanAllInv(existing, mode, secrets, entries[..n]);
    OwnersCover(existing);
    if r in OwnersOf(existing) {
      assert Carries(existing, OwnersOf(existing)[r], r);
    } else {
      var c :| c in p.changes && r in EntryRefs(c.entry);
      var k := ChangeIsTaken(existing, mode, secrets, entries, n, c);
      assert entries[k].id != entries[n].id;
    }
  }

  /** The plan sees a collision exactly when some ref of the entry is held by another. */
  lemma CollidesIffHeld(existing: seq<ConnectionEntry>, mode: ImportMode, secrets: map<string, string>,
                        entries: seq<ConnectionEntry>, n: nat)
    requires n < |entries| && RefsDisjoint(existing)
    ensures Collision(PlanAll(existing, mode, secrets, entries[..n]).owners, EntryRefs(entries[n]), entries[n].id).Some?
            <==> exists r | r in EntryRefs(entries[n]) :: HeldByAnother(existing, mode, secrets, entries, n, r)
  {
    var collision := Collision(PlanAll(existing, mode, secrets, entries[..n]).owners, EntryRefs(entries[n]),
        entries[n].id);
    if collision.Some? {
      OwnedIsHeld(existing, mode, secrets, entries, n, collision.value);
    } else {
      forall r | r in EntryRefs(entries[n])
        ensures !HeldByAnother(existing, mode, secrets, entries, n, r)
      {
        if HeldByAnother(existing, mode, secrets, entries, n, r) {
          HeldIsOwned(existing, mode, secrets, entries, n, r);
        }
      }
    }
  }

  /**
   What happens to each entry of a bundle, told without the plan: a repeat of an
   entry taken before is a duplicate; of the rest, in skip mode, one whose id is
   stored is skipped; of the rest, one with a ref that another connection holds
   is refused; the rest are taken, overwriting or new.
   */
  lemma EachVerdictIsEarned(existing: seq<ConnectionEntry>, mode: ImportMode, secrets: map<string, string>,
                            entries: seq<ConnectionEntry>, n: nat)
    requires n < |entries| && RefsDisjoint(existing)
    ensures var stored := exists e | e in existing :: e.id == entries[n].id;
            VerdictAt(existing, mode, secrets, entries, n)
            == if TakenBefore(existing, mode, secrets, entries, n, entries[n].id) then Duplicate
               else if stored && mode == SkipExisting then SkippedExisting
               else if exists r | r in EntryRefs(entries[n]) :: HeldByAnother(existing, mode, secrets, entries, n, r)
               then Refused
               else if stored then Overwritten
               else Imported
  {
    AcceptedIffTaken(existing, mode, secrets, entries, n, entries[n].id);
    CollidesIffHeld(existing, mode, secrets, entries, n);
    var found := FindIndex(existing, entries[n].id);
    assert found.Some? ==> existing[found.value] in existing;
  }
}
