/** Crash safety, rollback and ownership for a whole import. */
module ImportSafety {
  import opened Wrappers
  import opened Store
  import opened Machine
  import opened Protocol
  import opened UndoLog
  import opened EditSteps
  import opened CrashSafety
  import opened Rollback
  import opened Import
  import opened ImportFacts

  /** What importing this payload into this file would do. */
  function PlanFor(file: ConnectionFile, payload: BundlePayload, mode: ImportMode): Plan {
    PlanAll(file.connections, mode, payload.secrets, payload.connections.connections)
  }

  /** The merged file an import of this payload saves. */
  function MergedFile(file: ConnectionFile, payload: BundlePayload, mode: ImportMode): ConnectionFile {
    file.(connections := MergeAll(file.connections, PlanFor(file, payload, mode).changes).connections)
  }

  /** Ids distinct and no ref used by two entries. */
  ghost predicate Disjoint(file: ConnectionFile) {
    UniqueIds(file.connections) && RefsDisjoint(file.connections)
  }

  // -- ownership --------------------------------------------------------------------

  lemma MergedEntryOwnsItsRef(file: ConnectionFile, payload: BundlePayload, mode: ImportMode, e: ConnectionEntry,
                              r: string)
    requires Disjoint(file) && e in MergedFile(file, payload, mode).connections && r in EntryRefs(e)
    ensures var p := PlanFor(file, payload, mode); r in p.owners && p.owners[r] == e.id
  {
    var p := PlanFor(file, payload, mode);
    PlanAllInv(file.connections, mode, payload.secrets, payload.connections.connections);
    NothingElseIsMerged(file.connections, p.changes);
    if c :| c in p.changes && c.entry == e {
    } else {
      var i :| 0 <= i < |file.connections| && file.connections[i] == e;
      OwnersAreExact(file.connections, i, r);
    }
  }

  /** In the merged list every entry owns, in the final plan, all it carries. */
  lemma MergedEntriesOwnTheirRefs(file: ConnectionFile, payload: BundlePayload, mode: ImportMode)
    requires Disjoint(file)
    ensures var p := PlanFor(file, payload, mode);
            forall e, r | e in MergedFile(file, payload, mode).connections && r in EntryRefs(e) ::
              r in p.owners && p.owners[r] == e.id
  {
    forall e, r | e in MergedFile(file, payload, mode).connections && r in EntryRefs(e)
      ensures var p := PlanFor(file, payload, mode); r in p.owners && p.owners[r] == e.id
    {
      MergedEntryOwnsItsRef(file, payload, mode, e, r);
    }
  }

  /** Whatever the bundle holds, in either mode, merging it into a disjoint file gives a disjoint file. */
  lemma MergeKeepsDisjoint(file: ConnectionFile, payload: BundlePayload, mode: ImportMode)
    requires Disjoint(file)
    ensures Disjoint(MergedFile(file, payload, mode))
  {
    var merged := MergedFile(file, payload, mode).connections;
    var p := PlanFor(file, payload, mode);
    PlanAllInv(file.connections, mode, payload.secrets, payload.connections.connections);
    MergedMembers(file.connections, p.changes);
    MergedEntriesOwnTheirRefs(file, payload, mode);
    OwnersMakeDisjoint(merged, p.owners);
  }

  /** Entries with different ids that each own what they carry cannot share a ref. */
  lemma OwnersMakeDisjoint(entries: seq<ConnectionEntry>, owners: map<string, string>)
    requires UniqueIds(entries)
    requires forall e, r | e in entries && r in EntryRefs(e) :: r in owners && owners[r] == e.id
    ensures RefsDisjoint(entries)
  {
    forall i, j | 0 <= i < j < |entries|
      ensures RefSet(entries[i]) !! RefSet(entries[j])
    {
      assert entries[i] in entries && entries[j] in entries;
      assert forall r | r in RefSet(entries[i]) :: owners[r] == entries[i].id;
      assert forall r | r in RefSet(entries[j]) :: owners[r] == entries[j].id;
    }
  }

  /** The refs of the entries the plan does not replace. */
  function BystanderRefs(file: ConnectionFile, p: Plan): set<string> {
    set e, r | e in file.connections && e.id !in p.accepted && r in EntryRefs(e) :: r
  }

  lemma ReplacedOrphansSpec(merged: seq<ConnectionEntry>, replaced: seq<Replaced>)
    requires forall x | x in replaced :: x.index < |merged|
    ensures forall r :: r in ReplacedOrphans(merged, replaced) <==>
              exists x | x in replaced :: r in EntryRefs(x.entry) && r !in RefSet(merged[x.index])
  {
    if replaced != [] {
      var first := replaced[0];
      ReplacedOrphansSpec(merged, replaced[1..]);
      WithoutSpec(EntryRefs(first.entry), RefSet(merged[first.index]));
      assert replaced == [first] + replaced[1..];
    }
  }

  lemma BystandersOwnTheirRefs(file: ConnectionFile, payload: BundlePayload, mode: ImportMode)
    requires Disjoint(file)
    ensures var p := PlanFor(file, payload, mode);
            forall r | r in BystanderRefs(file, p) :: r in p.owners && p.owners[r] !in p.accepted
  {
    var p := PlanFor(file, payload, mode);
    PlanAllInv(file.connections, mode, payload.secrets, payload.connections.connections);
    forall r | r in BystanderRefs(file, p)
      ensures r in p.owners && p.owners[r] !in p.accepted
    {
      var e :| e in file.connections && e.id !in p.accepted && r in EntryRefs(e);
      var j :| 0 <= j < |file.connections| && file.connections[j] == e;
      OwnersAreExact(file.connections, j, r);
    }
  }

  /** The refs the purge after this import deletes. */
  function PurgedRefs(file: ConnectionFile, payload: BundlePayload, mode: ImportMode): set<string> {
    var m := MergeAll(file.connections, PlanFor(file, payload, mode).changes);
    set r | r in ReplacedOrphans(m.connections, m.replaced)
  }

  /** The purge deletes only what replaced entries carried and no merged entry carries. */
  lemma PurgeIsAimed(file: ConnectionFile, payload: BundlePayload, mode: ImportMode)
    requires Disjoint(file)
    ensures var purged := PurgedRefs(file, payload, mode);
            purged !! FileRefs(MergedFile(file, payload, mode).connections)
            && purged !! BystanderRefs(file, PlanFor(file, payload, mode))
  {
    var p := PlanFor(file, payload, mode);
    var m := MergeAll(file.connections, p.changes);
    PlanAllInv(file.connections, mode, payload.secrets, payload.connections.connections);
    MergeAllShape(file.connections, p.changes);
    MergedMembers(file.connections, p.changes);
    MergedEntriesOwnTheirRefs(file, payload, mode);
    ReplacedOrphansSpec(m.connections, m.replaced);
    forall r | r in ReplacedOrphans(m.connections, m.replaced)
      ensures r !in FileRefs(m.connections) && r !in BystanderRefs(file, p)
    {
      var x :| x in m.replaced && r in EntryRefs(x.entry) && r !in RefSet(m.connections[x.index]);
      OwnersAreExact(file.connections, x.index, r);
      assert p.owners[r] == x.entry.id;
      var c := Change(Some(x.index), m.connections[x.index]);
      assert c in p.changes && c.entry.id == x.entry.id;
      assert c.entry.id in p.accepted;
      BystandersOwnTheirRefs(file, payload, mode);
      forall e | e in m.connections && e.id == x.entry.id
        ensures e == m.connections[x.index]
      {
        SameIdSameEntry(m.connections, e, m.connections[x.index]);
      }
    }
  }

  lemma WritesMissBystanders(file: ConnectionFile, payload: BundlePayload, mode: ImportMode)
    requires Disjoint(file)
    ensures WriteRefs(PlanFor(file, payload, mode).writes) !! BystanderRefs(file, PlanFor(file, payload, mode))
  {
    var p := PlanFor(file, payload, mode);
    PlanAllInv(file.connections, mode, payload.secrets, payload.connections.connections);
    BystandersOwnTheirRefs(file, payload, mode);
    forall r | r in WriteRefs(p.writes)
      ensures r in p.owners && p.owners[r] in p.accepted
    {
      var c :| c in p.changes && r in EntryRefs(c.entry);
      assert c.entry.id in p.accepted;
    }
  }

  /** From `w` to `w'`, no state ever shows a different value in any of `keys`. */
  ghost predicate Preserves(w: W, w': W, keys: set<string>) {
    && w.trace <= w'.trace
    && (forall k | k in keys :: Lookup(w'.slots, k) == Lookup(w.slots, k))
    && (forall i, k | |w.trace| <= i < |w'.trace| && k in keys :: Lookup(w'.trace[i].slots, k) == Lookup(w.slots, k))
  }

  lemma PhasePreserves(w: W, w': W, touched: set<string>, dropped: set<string>, keys: set<string>)
    requires Phase(w, w', touched, dropped) && touched !! keys
    ensures Preserves(w, w', keys)
  {
    forall i, k | |w.trace| <= i < |w'.trace| && k in keys
      ensures Lookup(w'.trace[i].slots, k) == Lookup(w.slots, k)
    {
      assert Within(w, w'.trace[i], touched, dropped);
    }
  }

  lemma PreservesThen(a: W, b: W, c: W, keys: set<string>)
    requires Preserves(a, b, keys) && Preserves(b, c, keys)
    ensures Preserves(a, c, keys)
  {
    forall i, k | |a.trace| <= i < |c.trace| && k in keys
      ensures Lookup(c.trace[i].slots, k) == Lookup(a.slots, k)
    {
      if i < |b.trace| {
        assert c.trace[i] == b.trace[i];
      }
    }
  }

  lemma UndoRefsAreWritten(w: W, fails: Schedule, writes: seq<SecretWrite>)
    ensures UndoRefs(SeedAll(w, fails, writes).1) <= WriteRefs(writes)
  {
    SeedAllLog(w, fails, writes);
    var undo := SeedAll(w, fails, writes).1;
    forall r | r in UndoRefs(undo)
      ensures r in WriteRefs(writes)
    {
      var i :| 0 <= i < |undo| && undo[i].keyRef == r;
      assert writes[i] in writes;
    }
  }

  lemma CommitImportPreserves(w: W, fails: Schedule, file: ConnectionFile, payload: BundlePayload, mode: ImportMode)
    requires Disjoint(file)
    ensures var p := PlanFor(file, payload, mode);
            Preserves(w, CommitImport(w, fails, file, p).world, BystanderRefs(file, p))
  {
    var p := PlanFor(file, payload, mode);
    var keys := BystanderRefs(file, p);
    var (w1, undo, error) := SeedAll(w, fails, p.writes);
    SeedAllPhase(w, fails, p.writes);
    WritesMissBystanders(file, payload, mode);
    PhasePreserves(w, w1, WriteRefs(p.writes), {}, keys);
    UndoRefsAreWritten(w, fails, p.writes);
    var m := MergeAll(file.connections, p.changes);
    var (w2, saved) := Save(w1, fails, file.(connections := m.connections));
    assert Preserves(w1, w2, keys);
    PreservesThen(w, w1, w2, keys);
    if error.Some? || !saved {
      var start := if error.Some? then w1 else w2;
      ReplayPhase(start, fails, undo);
      PhasePreserves(start, Replay(start, fails, undo), UndoRefs(undo), Created(undo), keys);
      PreservesThen(w, start, Replay(start, fails, undo), keys);
    } else {
      var refs := ReplacedOrphans(m.connections, m.replaced);
      PurgeIsAimed(file, payload, mode);
      DeleteAllPhase(w2, fails, refs);
      var dropped := PurgedRefs(file, payload, mode);
      PhasePreserves(w2, DeleteAll(w2, fails, refs), dropped, dropped, keys);
      PreservesThen(w, w2, DeleteAll(w2, fails, refs), keys);
    }
  }

  /**
   Import keeps ownership. In either mode, from a file whose entries share no
   ref, under every schedule and whether or not it succeeds: no state along the
   way changes a secret of an entry the bundle does not replace, and the file
   left behind still has distinct ids and no shared ref.
   */
  lemma ImportKeepsOwnership(w: W, fails: Schedule, cache: ConnectionFile, tracks: bool,
                             payload: BundlePayload, passphrase: string, mode: ImportMode)
    requires Current(w, cache, tracks) && Disjoint(FileOn(w.disk))
    ensures var o := ImportBundle(w, fails, cache, tracks, Sealed(payload, passphrase), passphrase, mode);
            && Preserves(w, o.world, BystanderRefs(FileOn(w.disk), PlanFor(FileOn(w.disk), payload, mode)))
            && Disjoint(FileOn(o.world.disk))
  {
    var file := FileOn(w.disk);
    var p := PlanFor(file, payload, mode);
    var keys := BystanderRefs(file, p);
    var s := Sync(w, fails, cache, tracks);
    SyncFacts(w, fails, cache, tracks);
    PhasePreserves(w, s.world, {}, {}, keys);
    if s.result.Ok? && payload.version == BUNDLE_VERSION && p.changes != [] {
      CommitImportPreserves(s.world, fails, file, payload, mode);
      PreservesThen(w, s.world, CommitImport(s.world, fails, file, p).world, keys);
      MergeKeepsDisjoint(file, payload, mode);
      CommitImportDisk(s.world, fails, file, p);
    }
  }

  /** The disk ends up as it was, or holding the merged file exactly when the import reports success. */
  lemma CommitImportDisk(w: W, fails: Schedule, file: ConnectionFile, p: Plan)
    requires forall c | c in p.changes && c.slot.Some? :: c.slot.value < |file.connections|
    ensures var o := CommitImport(w, fails, file, p);
            && o.world.disk == (if o.result.Ok? then Present(file.(connections :=
                MergeAll(file.connections, p.changes).connections))
                                else w.disk)
            && (o.result.Ok? ==> o.result == Ok(p.report) && o.file == o.world.disk.file)
            && (o.result.Err? ==> o.file == file)
  {
    var (w1, undo, error) := SeedAll(w, fails, p.writes);
    SeedAllPhase(w, fails, p.writes);
    var m := MergeAll(file.connections, p.changes);
    var (w2, saved) := Save(w1, fails, file.(connections := m.connections));
    ReplayPhase(w1, fails, undo);
    ReplayPhase(w2, fails, undo);
    DeleteAllPhase(w2, fails, ReplacedOrphans(m.connections, m.replaced));
  }

  // -- rollback ---------------------------------------------------------------------

  ghost predicate DistinctRefs(refs: seq<string>) {
    forall i, j | 0 <= i < j < |refs| :: refs[i] != refs[j]
  }

  lemma {:induction false} SeedsAreDistinct(secrets: map<string, string>, refs: seq<string>)
    requires DistinctRefs(refs)
    ensures DistinctWrites(Seeds(secrets, refs))
    decreases |refs|
  {
    if refs != [] {
      var rest := Seeds(secrets, refs[1..]);
      SeedsAreDistinct(secrets, refs[1..]);
      SeedsSpec(secrets, refs[1..]);
      forall i | 0 <= i < |rest|
        ensures rest[i].keyRef != refs[0]
      {
        assert rest[i].keyRef in WriteRefs(rest);
      }
    }
  }

  /** What an entry not accepted so far would seed has not been seeded, unless it collides. */
  lemma LaterSeedsAreNew(existing: seq<ConnectionEntry>, mode: ImportMode, secrets: map<string, string>, p: Plan,
                         entry: ConnectionEntry)
    requires PlanInv(existing, mode, secrets, p) && entry.id !in p.accepted
    requires Collision(p.owners, EntryRefs(entry), entry.id).None?
    ensures WriteRefs(p.writes) !! WriteRefs(Seeds(secrets, EntryRefs(entry)))
  {
    SeedsSpec(secrets, EntryRefs(entry));
    forall r | r in WriteRefs(p.writes)
      ensures r !in EntryRefs(entry)
    {
      var c :| c in p.changes && r in EntryRefs(c.entry);
      assert p.owners[r] == c.entry.id && c.entry.id in p.accepted;
    }
  }

  lemma DistinctWritesConcat(a: seq<SecretWrite>, b: seq<SecretWrite>)
    requires DistinctWrites(a) && DistinctWrites(b) && WriteRefs(a) !! WriteRefs(b)
    ensures DistinctWrites(a + b)
  {
    forall i, j | 0 <= i < |a| && 0 <= j < |b|
      ensures a[i].keyRef != b[j].keyRef
    {
      assert a[i].keyRef in WriteRefs(a) && b[j].keyRef in WriteRefs(b);
    }
  }

  /** No ref is written twice as long as no single entry of the bundle repeats one. */
  lemma {:induction false} PlannedWritesAreDistinct(existing: seq<ConnectionEntry>, mode: ImportMode,
                                                    secrets: map<string, string>, entries: seq<ConnectionEntry>)
    requires forall e | e in entries :: DistinctRefs(EntryRefs(e))
    ensures DistinctWrites(PlanAll(existing, mode, secrets, entries).writes)
  {
    if entries != [] {
      var init, entry := entries[..|entries| - 1], entries[|entries| - 1];
      var p, q := PlanAll(existing, mode, secrets, init), PlanAll(existing, mode, secrets, entries);
      PlannedWritesAreDistinct(existing, mode, secrets, init);
      if q.writes != p.writes {
        PlanAllInv(existing, mode, secrets, init);
        LaterSeedsAreNew(existing, mode, secrets, p, entry);
        SeedsAreDistinct(secrets, EntryRefs(entry));
        DistinctWritesConcat(p.writes, Seeds(secrets, EntryRefs(entry)));
      }
    }
  }

  lemma CommitImportRollsBack(w: W, fails: Schedule, file: ConnectionFile, p: Plan)
    requires forall c | c in p.changes && c.slot.Some? :: c.slot.value < |file.connections|
    requires SameValues(p.writes) && RepeatsHold(p.writes, w.slots) && OneFault(fails, w.tick)
    requires CommitImport(w, fails, file, p).result.Err?
    ensures CommitImport(w, fails, file, p).world.slots == w.slots
  {
    var (w1, undo, error) := SeedAll(w, fails, p.writes);
    SeedAllLog(w, fails, p.writes);
    var (effect, at) := if error.Some? then (SetEffect, w1.tick - 1) else (SaveEffect, w1.tick);
    QuietAfterFault(fails, w.tick, effect, at);
    SeedAllAccurate(w, fails, p.writes);
    SeedPriorsHold(w, fails, p.writes);
    var start := if error.Some? then w1 else Tick(w1);
    ReplayRestores(start, fails, undo, w.slots);
  }

  /** A failed import restores every slot it touched, overwritten or created. */
  lemma ImportRollsBack(w: W, fails: Schedule, cache: ConnectionFile, tracks: bool,
                        blob: Blob, passphrase: string, mode: ImportMode)
    requires Current(w, cache, tracks)
    requires blob.Sealed? ==> forall e | e in blob.payload.connections.connections :: DistinctRefs(EntryRefs(e))
    requires var o := ImportBundle(w, fails, cache, tracks, blob, passphrase, mode);
             o.result.Err? && Explained(fails, w.tick, o.result.error)
    ensures NothingChanged(w, fails, cache, tracks, ImportBundle(w, fails, cache, tracks, blob, passphrase, mode))
  {
    var s := Sync(w, fails, cache, tracks);
    SyncKeepsSlots(w, fails, cache, tracks);
    if s.result.Ok? && Decrypt(blob, passphrase).Ok? {
      var p := PlanFor(s.file, blob.payload, mode);
      if p.changes != [] {
        PlannedWritesAreDistinct(s.file.connections, mode, blob.payload.secrets, blob.payload.connections.connections);
        CommitImportRollsBack(s.world, fails, s.file, p);
        CommitImportDisk(s.world, fails, s.file, p);
      }
    }
  }
}
