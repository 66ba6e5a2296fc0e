/** Importing the same bundle a second time. */
module ImportTwice {
  import opened Wrappers
  import opened Store
  import opened Machine
  import opened Protocol
  import opened UndoLog
  import opened CrashSafety
  import opened Import
  import opened ImportFacts
  import opened ImportSafety
  import opened ImportCrash
  import opened ImportReports

  // -- skip mode ------------------------------------------------------------------------

  lemma OwnersOfSnoc(entries: seq<ConnectionEntry>, e: ConnectionEntry)
    ensures OwnersOf(entries + [e]) == Claim(OwnersOf(entries), EntryRefs(e), e.id)
  {
    assert (entries + [e])[..|entries|] == entries;
  }

  lemma AppendedSnoc(changes: seq<Change>, e: ConnectionEntry)
    ensures Appended(changes + [Change(None, e)]) == Appended(changes) + [e]
  {
    assert (changes + [Change(None, e)])[..|changes|] == changes;
  }

  /** In skip mode the plan owns exactly what the list it will leave owns. */
  ghost predicate OwnsAppended(existing: seq<ConnectionEntry>, p: Plan) {
    p.owners == OwnersOf(existing + Appended(p.changes))
  }

  lemma SkipStepAppends(existing: seq<ConnectionEntry>, secrets: map<string, string>, p: Plan, entry: ConnectionEntry)
    ensures var q := PlanOne(existing, SkipExisting, secrets, p, entry);
            || (q.changes == p.changes && q.owners == p.owners)
            || (q.changes == p.changes + [Change(None, entry)]
                && q.owners == Claim(p.owners, EntryRefs(entry), entry.id))
  {
  }

  lemma SkipStep(existing: seq<ConnectionEntry>, secrets: map<string, string>, p: Plan, entry: ConnectionEntry)
    requires OwnsAppended(existing, p)
    ensures OwnsAppended(existing, PlanOne(existing, SkipExisting, secrets, p, entry))
  {
    var q := PlanOne(existing, SkipExisting, secrets, p, entry);
    SkipStepAppends(existing, secrets, p, entry);
    if q.changes != p.changes {
      var appended := Appended(p.changes);
      AppendedSnoc(p.changes, entry);
      OwnersOfSnoc(existing + appended, entry);
      assert existing + (appended + [entry]) == existing + appended + [entry];
    }
  }

  /** Skipping only appends, and what it ends up owning is what the longer list owns. */
  lemma {:induction false} SkipOnlyAppends(existing: seq<ConnectionEntry>, secrets: map<string, string>,
                                           entries: seq<ConnectionEntry>)
    ensures OwnsAppended(existing, PlanAll(existing, SkipExisting, secrets, entries))
    decreases |entries|
  {
    if entries == [] {
      assert existing + [] == existing;
    } else {
      var init := entries[..|entries| - 1];
      SkipOnlyAppends(existing, secrets, init);
      SkipStep(existing, secrets, PlanAll(existing, SkipExisting, secrets, init), entries[|entries| - 1]);
    }
  }

  /** What a plan has decided stays decided. */
  ghost predicate Grew(p: Plan, q: Plan) {
    && p.accepted <= q.accepted
    && (forall r | r in p.owners :: r in q.owners && q.owners[r] == p.owners[r])
    && (forall c | c in p.changes :: c in q.changes)
    && p.report.refused <= q.report.refused
  }

  lemma OneStepGrows(existing: seq<ConnectionEntry>, mode: ImportMode, secrets: map<string, string>, p: Plan,
                     entry: ConnectionEntry)
    ensures Grew(p, PlanOne(existing, mode, secrets, p, entry))
  {
    OneStepKeepsOwners(existing, mode, secrets, p, entry);
  }

  lemma {:induction false} AppendedGrows(existing: seq<ConnectionEntry>, mode: ImportMode, secrets: map<string, string>,
                                         entries: seq<ConnectionEntry>, n: nat)
    requires n <= |entries|
    ensures var p, q := PlanAll(existing, mode, secrets, entries[..n]), PlanAll(existing, mode, secrets, entries);
            Grew(p, q)
    decreases |entries|
  {
    if n == |entries| {
      assert entries[..n] == entries;
    } else {
      var init := entries[..|entries| - 1];
      assert init[..n] == entries[..n];
      AppendedGrows(existing, mode, secrets, init, n);
      OneStepGrows(existing, mode, secrets, PlanAll(existing, mode, secrets, init), entries[|entries| - 1]);
    }
  }

  /** A plan that has done nothing yet passes over an entry that is there already or collides. */
  lemma IdleStep(merged: seq<ConnectionEntry>, secrets: map<string, string>, q: Plan, entry: ConnectionEntry)
    requires q.changes == [] && q.accepted == {} && q.owners == OwnersOf(merged)
    requires FindIndex(merged, entry.id).Some? || Collision(OwnersOf(merged), EntryRefs(entry), entry.id).Some?
    ensures var q' := PlanOne(merged, SkipExisting, secrets, q, entry);
            q'.changes == [] && q'.accepted == {} && q'.owners == q.owners
  {
  }

  /** The list as the first import leaves it has nothing for the second to do, however far it has read. */
  lemma {:induction false} SecondSkipPlansNothing(existing: seq<ConnectionEntry>, secrets: map<string, string>,
                                                  entries: seq<ConnectionEntry>, n: nat)
    requires n <= |entries|
    ensures var merged := existing + Appended(PlanAll(existing, SkipExisting, secrets, entries).changes);
            var q := PlanAll(merged, SkipExisting, secrets, entries[..n]);
            q.changes == [] && q.accepted == {} && q.owners == OwnersOf(merged)
    decreases n
  {
    if n > 0 {
      var p := PlanAll(existing, SkipExisting, secrets, entries);
      var merged := existing + Appended(p.changes);
      SecondSkipPlansNothing(existing, secrets, entries, n - 1);
      assert entries[..n][..n - 1] == entries[..n - 1];
      var entry := entries[n - 1];
      if FindIndex(merged, entry.id).None? {
        AbsentMeansRefused(existing, secrets, entries, n);
        SkipOnlyAppends(existing, secrets, entries);
      }
      IdleStep(merged, secrets, PlanAll(merged, SkipExisting, secrets, entries[..n - 1]), entry);
    }
  }

  /** In skip mode an entry missing from the result was neither there nor accepted. */
  lemma AbsentMeansUnknown(existing: seq<ConnectionEntry>, secrets: map<string, string>,
                           entries: seq<ConnectionEntry>, id: string)
    requires FindIndex(existing + Appended(PlanAll(existing, SkipExisting, secrets, entries).changes), id).None?
    ensures FindIndex(existing, id).None? && id !in PlanAll(existing, SkipExisting, secrets, entries).accepted
  {
    var q := PlanAll(existing, SkipExisting, secrets, entries);
    var merged := existing + Appended(q.changes);
    PlanAllInv(existing, SkipExisting, secrets, entries);
    AppendedMembers(q.changes);
    forall c | c in q.changes
      ensures c.entry.id != id
    {
      assert c == Change(None, c.entry);
      assert c.entry in Appended(q.changes) && c.entry in merged;
    }
    assert FindIndex(existing, id).None? by {
      assert forall e | e in existing :: e in merged;
    }
  }

  /** So it was refused, and its ref still belongs to another. */
  lemma AbsentMeansRefused(existing: seq<ConnectionEntry>, secrets: map<string, string>,
                           entries: seq<ConnectionEntry>, n: nat)
    requires 0 < n <= |entries|
    requires FindIndex(existing + Appended(PlanAll(existing, SkipExisting, secrets, entries).changes),
             entries[n - 1].id).None?
    ensures Collision(PlanAll(existing, SkipExisting, secrets, entries).owners, EntryRefs(entries[n - 1]),
            entries[n - 1].id).Some?
  {
    var entry := entries[n - 1];
    var q := PlanAll(existing, SkipExisting, secrets, entries);
    var p := PlanAll(existing, SkipExisting, secrets, entries[..n - 1]);
    assert entries[..n][..n - 1] == entries[..n - 1];
    AppendedGrows(existing, SkipExisting, secrets, entries, n - 1);
    AppendedGrows(existing, SkipExisting, secrets, entries, n);
    AbsentMeansUnknown(existing, secrets, entries, entry.id);
    assert PlanAll(existing, SkipExisting, secrets, entries[..n]) == PlanOne(existing, SkipExisting, secrets, p, entry);
    var r := Collision(p.owners, EntryRefs(entry), entry.id);
    assert r.Some?;
    assert q.owners[r.value] == p.owners[r.value];
  }

  lemma SkipMergeAppends(file: ConnectionFile, payload: BundlePayload)
    ensures MergedFile(file, payload, SkipExisting).connections
            == file.connections + Appended(PlanFor(file, payload, SkipExisting).changes)
  {
    var changes := PlanFor(file, payload, SkipExisting).changes;
    PlanAllInv(file.connections, SkipExisting, payload.secrets, payload.connections.connections);
    MergeAllShape(file.connections, changes);
    var merged := MergedFile(file, payload, SkipExisting).connections;
    assert merged == merged[..|file.connections|] + Appended(changes);
    assert merged[..|file.connections|] == file.connections;
  }

  /** An import whose plan holds no change leaves everything alone. */
  lemma IdleImport(w: W, fails: Schedule, cache: ConnectionFile, tracks: bool,
                   payload: BundlePayload, passphrase: string, mode: ImportMode)
    requires Current(w, cache, tracks) && PlanFor(FileOn(w.disk), payload, mode).changes == []
    ensures var o := ImportBundle(w, fails, cache, tracks, Sealed(payload, passphrase), passphrase, mode);
            && o.world.disk == w.disk && o.world.slots == w.slots && o.file in {cache, FileOn(w.disk)}
            && (o.result.Ok? ==> o.result.value == PlanFor(FileOn(w.disk), payload, mode).report)
            && (Sync(w, fails, cache, tracks).result.Ok? && payload.version == BUNDLE_VERSION ==> o.result.Ok?)
  {
    SyncFacts(w, fails, cache, tracks);
  }

  /**
   Repeating an import in skip mode writes nothing at all: whatever the bundle,
   whatever the store, and whatever fails the second time.
   */
  lemma SkippingTwiceIsSkippingOnce(w: W, fails: Schedule, cache: ConnectionFile, tracks: bool,
                                    payload: BundlePayload, passphrase: string, fails': Schedule)
    requires Current(w, cache, tracks)
    requires ImportBundle(w, fails, cache, tracks, Sealed(payload, passphrase), passphrase, SkipExisting).result.Ok?
    ensures var o := ImportBundle(w, fails, cache, tracks, Sealed(payload, passphrase), passphrase, SkipExisting);
            var o' := ImportBundle(o.world, fails', o.file, tracks, Sealed(payload, passphrase), passphrase,
                SkipExisting);
            && o'.world.disk == o.world.disk && o'.world.slots == o.world.slots && o'.file == o.file
            && (o'.result.Ok? ==> o'.result.value.imported == [] && o'.result.value.overwritten == [])
  {
    var o := ImportBundle(w, fails, cache, tracks, Sealed(payload, passphrase), passphrase, SkipExisting);
    SuccessfulImport(w, fails, cache, tracks, payload, passphrase, SkipExisting);
    var entries := payload.connections.connections;
    SkipMergeAppends(FileOn(w.disk), payload);
    SecondSkipPlansNothing(FileOn(w.disk).connections, payload.secrets, entries, |entries|);
    assert entries[..|entries|] == entries;
    IdleImport(o.world, fails', o.file, tracks, payload, passphrase, SkipExisting);
    AppendedAreTheImported(o.file.connections, SkipExisting, payload.secrets, entries);
    NothingOverwritten(o.file.connections, payload.secrets, entries);
  }

  lemma {:induction false} NothingOverwritten(existing: seq<ConnectionEntry>, secrets: map<string, string>,
                                              entries: seq<ConnectionEntry>)
    ensures PlanAll(existing, SkipExisting, secrets, entries).report.overwritten == []
    decreases |entries|
  {
    if entries != [] {
      NothingOverwritten(existing, secrets, entries[..|entries| - 1]);
    }
  }

  // -- overwrite mode ----------------------------------------------------------------------

  /** Every change puts an entry where it already is, and ownership agrees with the list. */
  ghost predicate PlanRepeats(merged: seq<ConnectionEntry>, q: Plan) {
    && (forall c | c in q.changes :: c.slot.Some? && c.slot.value < |merged| && merged[c.slot.value] == c.entry)
    && q.owners == OwnersOf(merged)
  }

  lemma ClaimingOwnRefsChangesNothing(owners: map<string, string>, refs: seq<string>, id: string)
    requires forall r | r in refs :: r in owners && owners[r] == id
    ensures Claim(owners, refs, id) == owners
  {
    ClaimSpec(owners, refs, id);
    assert Claim(owners, refs, id).Keys == owners.Keys;
  }

  /** An entry of the list is found where it is, and owns all it carries. */
  lemma StoredEntryIsItsOwn(merged: seq<ConnectionEntry>, entry: ConnectionEntry) returns (i: nat)
    requires UniqueIds(merged) && RefsDisjoint(merged) && entry in merged
    ensures i < |merged| && merged[i] == entry && FindIndex(merged, entry.id) == Some(i)
    ensures forall r | r in EntryRefs(entry) :: r in OwnersOf(merged) && OwnersOf(merged)[r] == entry.id
  {
    i :| 0 <= i < |merged| && merged[i] == entry;
    forall r | r in EntryRefs(entry)
      ensures r in OwnersOf(merged) && OwnersOf(merged)[r] == entry.id
    {
      OwnersAreExact(merged, i, r);
    }
  }

  lemma OverwriteStepRepeats(merged: seq<ConnectionEntry>, secrets: map<string, string>, q: Plan,
                             entry: ConnectionEntry)
    requires UniqueIds(merged) && RefsDisjoint(merged) && PlanRepeats(merged, q)
    requires entry.id in q.accepted || entry in merged
    ensures var q' := PlanOne(merged, OverwriteExisting, secrets, q, entry);
            PlanRepeats(merged, q') && q'.accepted == q.accepted + {entry.id}
  {
    if entry.id !in q.accepted {
      var i := StoredEntryIsItsOwn(merged, entry);
      ClaimingOwnRefsChangesNothing(q.owners, EntryRefs(entry), entry.id);
      TakingAStoredEntryRepeats(merged, secrets, q, entry, i);
    }
  }

  lemma TakingAStoredEntryRepeats(merged: seq<ConnectionEntry>, secrets: map<string, string>, q: Plan,
                                  entry: ConnectionEntry, i: nat)
    requires PlanRepeats(merged, q) && entry.id !in q.accepted
    requires i < |merged| && merged[i] == entry && FindIndex(merged, entry.id) == Some(i)
    requires forall r | r in EntryRefs(entry) :: r in q.owners && q.owners[r] == entry.id
    requires Claim(q.owners, EntryRefs(entry), entry.id) == q.owners
    ensures var q' := PlanOne(merged, OverwriteExisting, secrets, q, entry);
            PlanRepeats(merged, q') && q'.accepted == q.accepted + {entry.id}
  {
    assert Collision(q.owners, EntryRefs(entry), entry.id).None?;
    assert PlanOne(merged, OverwriteExisting, secrets, q, entry).changes == q.changes + [Change(Some(i), entry)];
  }

  /** The first import refused the bundle's `n`th entry. */
  predicate RefusedAt(existing: seq<ConnectionEntry>, secrets: map<string, string>, entries: seq<ConnectionEntry>,
                      n: nat)
    requires n < |entries|
  {
    VerdictOf(existing, OverwriteExisting, PlanAll(existing, OverwriteExisting, secrets, entries[..n]),
        entries[n]).Refused?
  }

  /** An entry of `merged` other than `e`'s namesake carries one of `e`'s refs. */
  predicate StillBlocked(merged: seq<ConnectionEntry>, e: ConnectionEntry) {
    exists x, r | x in merged && r in EntryRefs(x) :: x.id != e.id && r in EntryRefs(e)
  }

  lemma BlockedIffCollides(merged: seq<ConnectionEntry>, e: ConnectionEntry)
    requires UniqueIds(merged) && RefsDisjoint(merged)
    ensures StillBlocked(merged, e) <==> Collision(OwnersOf(merged), EntryRefs(e), e.id).Some?
  {
    OwnersCover(merged);
    if x, r :| x in merged && r in EntryRefs(x) && x.id != e.id && r in EntryRefs(e) {
      var i :| 0 <= i < |merged| && merged[i] == x;
      OwnersAreExact(merged, i, r);
    }
  }

  /** An overwriting import accepts every entry it does not refuse, itself or an earlier copy. */
  lemma AcceptedUnlessRefused(existing: seq<ConnectionEntry>, secrets: map<string, string>,
                              entries: seq<ConnectionEntry>, n: nat)
    requires n < |entries| && !RefusedAt(existing, secrets, entries, n)
    ensures var p := PlanAll(existing, OverwriteExisting, secrets, entries[..n]);
            && PlanAll(existing, OverwriteExisting, secrets, entries[..n + 1]).accepted == p.accepted + {entries[n].id}
            && (entries[n].id in p.accepted
                || Change(FindIndex(existing, entries[n].id), entries[n])
                   in PlanAll(existing, OverwriteExisting, secrets, entries).changes)
  {
    assert entries[..n + 1][..n] == entries[..n];
    AppendedGrows(existing, OverwriteExisting, secrets, entries, n + 1);
  }

  /** After `n` entries the second plan has only repeated the list, and accepted what the first had. */
  ghost predicate RepeatsUpTo(existing: seq<ConnectionEntry>, secrets: map<string, string>,
                              entries: seq<ConnectionEntry>,
                              merged: seq<ConnectionEntry>, n: nat)
    requires n <= |entries|
  {
    var q := PlanAll(merged, OverwriteExisting, secrets, entries[..n]);
    PlanRepeats(merged, q) && q.accepted == PlanAll(existing, OverwriteExisting, secrets, entries[..n]).accepted
  }

  lemma RefusedAgain(existing: seq<ConnectionEntry>, secrets: map<string, string>, entries: seq<ConnectionEntry>,
                     merged: seq<ConnectionEntry>, n: nat)
    requires n < |entries| && UniqueIds(merged) && RefsDisjoint(merged)
             && RepeatsUpTo(existing, secrets, entries, merged, n)
    requires RefusedAt(existing, secrets, entries, n) && StillBlocked(merged, entries[n])
    ensures RepeatsUpTo(existing, secrets, entries, merged, n + 1)
  {
    assert entries[..n + 1][..n] == entries[..n];
    BlockedIffCollides(merged, entries[n]);
    RefusedStepChangesNothing(existing, secrets, PlanAll(existing, OverwriteExisting, secrets, entries[..n]),
        entries[n]);
    RefusedStepChangesNothing(merged, secrets, PlanAll(merged, OverwriteExisting, secrets, entries[..n]), entries[n]);
  }

  lemma AcceptedAgain(existing: seq<ConnectionEntry>, secrets: map<string, string>, entries: seq<ConnectionEntry>,
                      merged: seq<ConnectionEntry>, n: nat)
    requires n < |entries| && UniqueIds(merged) && RefsDisjoint(merged)
             && RepeatsUpTo(existing, secrets, entries, merged, n)
    requires !RefusedAt(existing, secrets, entries, n)
    requires forall c | c in PlanAll(existing, OverwriteExisting, secrets, entries).changes :: c.entry in merged
    ensures RepeatsUpTo(existing, secrets, entries, merged, n + 1)
  {
    assert entries[..n + 1][..n] == entries[..n];
    AcceptedUnlessRefused(existing, secrets, entries, n);
    OverwriteStepRepeats(merged, secrets, PlanAll(merged, OverwriteExisting, secrets, entries[..n]), entries[n]);
  }

  /** As long as what was refused before is still blocked, the second plan only repeats the list. */
  lemma {:induction false} SecondOverwriteRepeats(existing: seq<ConnectionEntry>, secrets: map<string, string>,
                                                  entries: seq<ConnectionEntry>, merged: seq<ConnectionEntry>, n: nat)
    requires n <= |entries| && UniqueIds(merged) && RefsDisjoint(merged)
    requires forall k | 0 <= k < n && RefusedAt(existing, secrets, entries, k) :: StillBlocked(merged, entries[k])
    requires forall c | c in PlanAll(existing, OverwriteExisting, secrets, entries).changes :: c.entry in merged
    ensures RepeatsUpTo(existing, secrets, entries, merged, n)
    decreases n
  {
    if n > 0 {
      SecondOverwriteRepeats(existing, secrets, entries, merged, n - 1);
      if RefusedAt(existing, secrets, entries, n - 1) {
        RefusedAgain(existing, secrets, entries, merged, n - 1);
      } else {
        AcceptedAgain(existing, secrets, entries, merged, n - 1);
      }
    }
  }

  lemma RefusedStepChangesNothing(existing: seq<ConnectionEntry>, secrets: map<string, string>, p: Plan,
                                  entry: ConnectionEntry)
    requires VerdictOf(existing, OverwriteExisting, p, entry).Refused?
    ensures var p' := PlanOne(existing, OverwriteExisting, secrets, p, entry);
            p'.accepted == p.accepted && p'.owners == p.owners && p'.changes == p.changes && p'.report.refused != []
  {
  }

  /** A refused entry is not in the merged list: the ref it was refused for belongs to another there. */
  lemma RefusedIsAbsent(file: ConnectionFile, payload: BundlePayload, n: nat)
    requires Disjoint(file) && n < |payload.connections.connections|
    requires RefusedAt(file.connections, payload.secrets, payload.connections.connections, n)
    ensures payload.connections.connections[n] !in MergedFile(file, payload, OverwriteExisting).connections
  {
    var entries := payload.connections.connections;
    var p := PlanAll(file.connections, OverwriteExisting, payload.secrets, entries[..n]);
    var r := Collision(p.owners, EntryRefs(entries[n]), entries[n].id).value;
    AppendedGrows(file.connections, OverwriteExisting, payload.secrets, entries, n);
    MergedEntriesOwnTheirRefs(file, payload, OverwriteExisting);
    assert r in EntryRefs(entries[n]) && p.owners[r] != entries[n].id;
  }

  /** The first import refused this entry, and in the list it left nobody else carries any of the entry's refs. */
  predicate LiftedAt(file: ConnectionFile, payload: BundlePayload, n: nat)
    requires n < |payload.connections.connections|
  {
    var entries := payload.connections.connections;
    RefusedAt(file.connections, payload.secrets, entries, n)
    && !StillBlocked(MergedFile(file, payload, OverwriteExisting).connections, entries[n])
  }

  /** Every refusal of the first import would be repeated on the list it left. */
  predicate RefusalsStand(file: ConnectionFile, payload: BundlePayload) {
    forall n | 0 <= n < |payload.connections.connections| :: !LiftedAt(file, payload, n)
  }

  /** An entry the first import refused, which nobody blocks any more, comes up again. */
  lemma UnblockedIsTaken(existing: seq<ConnectionEntry>, secrets: map<string, string>, entries: seq<ConnectionEntry>,
                         merged: seq<ConnectionEntry>, n: nat)
    requires n < |entries| && UniqueIds(merged) && RefsDisjoint(merged)
             && RepeatsUpTo(existing, secrets, entries, merged, n)
    requires RefusedAt(existing, secrets, entries, n) && !StillBlocked(merged, entries[n])
    ensures !RefusedAt(merged, secrets, entries, n)
    ensures entries[n].id !in PlanAll(merged, OverwriteExisting, secrets, entries[..n]).accepted
  {
    BlockedIffCollides(merged, entries[n]);
  }

  /** The first refused entry that is no longer blocked is taken in. */
  lemma UnblockedIsAccepted(file: ConnectionFile, payload: BundlePayload, n: nat)
    requires Disjoint(file) && n < |payload.connections.connections|
    requires LiftedAt(file, payload, n) && forall k | 0 <= k < n :: !LiftedAt(file, payload, k)
    ensures exists c | c in PlanFor(MergedFile(file, payload, OverwriteExisting), payload, OverwriteExisting).changes ::
              c.entry == payload.connections.connections[n]
  {
    var entries, secrets := payload.connections.connections, payload.secrets;
    var merged := MergedFile(file, payload, OverwriteExisting).connections;
    assert forall k | 0 <= k < n && RefusedAt(file.connections, secrets, entries, k) :: !LiftedAt(file, payload, k);
    PlanAllInv(file.connections, OverwriteExisting, secrets, entries);
    MergeKeepsDisjoint(file, payload, OverwriteExisting);
    ChangesAreMerged(file.connections, PlanFor(file, payload, OverwriteExisting).changes);
    SecondOverwriteRepeats(file.connections, secrets, entries, merged, n);
    UnblockedIsTaken(file.connections, secrets, entries, merged, n);
    AcceptedUnlessRefused(merged, secrets, entries, n);
  }

  /** Written values that are already there leave the slots as they are. */
  lemma SeedingWhatIsThere<F>(w: World<F>, fails: Schedule, writes: seq<SecretWrite>)
    requires QuietFrom(fails, w.tick)
    requires forall x | x in writes :: Lookup(w.slots, x.keyRef) == Some(x.value)
    ensures SeedAll(w, fails, writes).2.None? && SeedAll(w, fails, writes).0.slots == w.slots
    decreases |writes|
  {
    if writes != [] {
      var w1 := Set(Get(w, fails, writes[0].keyRef).0, fails, writes[0].keyRef, writes[0].value).0;
      assert writes[0] in writes;
      assert w1.slots == w.slots;
      SeedingWhatIsThere(w1, fails, writes[1..]);
    }
  }

  /** Merging a plan that repeats the list gives the list back and purges nothing. */
  lemma RepeatingMergeIsIdentity(merged: seq<ConnectionEntry>, changes: seq<Change>)
    requires WellAimed(merged, changes)
    requires forall c | c in changes :: c.slot.Some? && c.slot.value < |merged| && merged[c.slot.value] == c.entry
    ensures var m := MergeAll(merged, changes);
            m.connections == merged && ReplacedOrphans(m.connections, m.replaced) == []
  {
    var m := MergeAll(merged, changes);
    MergeAllShape(merged, changes);
    NothingAppended(changes);
    forall i | 0 <= i < |merged|
      ensures m.connections[i] == merged[i]
    {
    }
    assert m.connections == m.connections[..|merged|] + Appended(changes);
    NoOrphansWhenUnchanged(merged, m.replaced);
  }

  lemma NothingAppended(changes: seq<Change>)
    requires forall c | c in changes :: c.slot.Some?
    ensures Appended(changes) == []
  {
  }

  lemma NothingLeftOver(refs: seq<string>, kept: set<string>)
    requires forall r | r in refs :: r in kept
    ensures Without(refs, kept) == []
  {
  }

  lemma {:induction false} NoOrphansWhenUnchanged(merged: seq<ConnectionEntry>, replaced: seq<Replaced>)
    requires forall x | x in replaced :: x.index < |merged| && x.entry == merged[x.index]
    ensures ReplacedOrphans(merged, replaced) == []
    decreases |replaced|
  {
    if replaced != [] {
      assert replaced[0] in replaced;
      NothingLeftOver(EntryRefs(replaced[0].entry), RefSet(merged[replaced[0].index]));
      NoOrphansWhenUnchanged(merged, replaced[1..]);
    }
  }

  /** After a successful import every queued secret is in its slot: seeded, and not purged. */
  lemma SuccessfulImportStores(w: W, fails: Schedule, file: ConnectionFile, payload: BundlePayload, mode: ImportMode,
                               k: string)
    requires Disjoint(file) && CommitImport(w, fails, file, PlanFor(file, payload, mode)).result.Ok?
    requires k in WriteRefs(PlanFor(file, payload, mode).writes)
    ensures k in payload.secrets
    ensures Lookup(CommitImport(w, fails, file, PlanFor(file, payload, mode)).world.slots, k)
            == Some(payload.secrets[k])
  {
    var p := PlanFor(file, payload, mode);
    var w1 := SeedAll(w, fails, p.writes).0;
    PlanAllInv(file.connections, mode, payload.secrets, payload.connections.connections);
    MergedMembers(file.connections, p.changes);
    SeedAllStores(w, fails, p.writes, k);
    LastWriteExists(p.writes, k);
    LastWriteIsAWrite(p.writes, k);
    PurgeIsAimed(file, payload, mode);
    assert k in FileRefs(MergedFile(file, payload, mode).connections);
    var m := MergeAll(file.connections, p.changes);
    DeleteAllPhase(Save(w1, fails, file.(connections := m.connections)).0, fails,
        ReplacedOrphans(m.connections, m.replaced));
    assert k !in PurgedRefs(file, payload, mode);
  }

  lemma {:induction false} LastWriteIsAWrite(writes: seq<SecretWrite>, k: string)
    requires LastWrite(writes, k).Some?
    ensures SecretWrite(k, LastWrite(writes, k).value) in writes
    decreases |writes|
  {
    if LastWrite(writes[1..], k).Some? {
      LastWriteIsAWrite(writes[1..], k);
    }
  }

  lemma SecondCommitChangesNothing(w: W, fails: Schedule, file: ConnectionFile, q: Plan)
    requires QuietFrom(fails, w.tick) && WellAimed(file.connections, q.changes)
    requires PlanRepeats(file.connections, q)
    requires forall x | x in q.writes :: Lookup(w.slots, x.keyRef) == Some(x.value)
    ensures var o := CommitImport(w, fails, file, q);
            o.result == Ok(q.report) && o.world.disk == Present(file) && o.world.slots == w.slots && o.file == file
  {
    SeedingWhatIsThere(w, fails, q.writes);
    SeedAllPhase(w, fails, q.writes);
    RepeatingMergeIsIdentity(file.connections, q.changes);
    CommitImportDisk(w, fails, file, q);
  }

  lemma SecondDecisionsRepeat(file: ConnectionFile, payload: BundlePayload)
    requires Disjoint(file) && RefusalsStand(file, payload)
    ensures var merged := MergedFile(file, payload, OverwriteExisting);
            && PlanRepeats(merged.connections, PlanFor(merged, payload, OverwriteExisting))
            && PlanFor(merged, payload, OverwriteExisting).accepted
                == PlanFor(file, payload, OverwriteExisting).accepted
            && UniqueIds(merged.connections)
            && forall c | c in PlanFor(file, payload, OverwriteExisting).changes :: c.entry in merged.connections
  {
    var entries, merged := payload.connections.connections, MergedFile(file, payload, OverwriteExisting);
    PlanAllInv(file.connections, OverwriteExisting, payload.secrets, entries);
    MergeKeepsDisjoint(file, payload, OverwriteExisting);
    ChangesAreMerged(file.connections, PlanFor(file, payload, OverwriteExisting).changes);
    assert forall k | 0 <= k < |entries| && RefusedAt(file.connections, payload.secrets, entries, k) ::
          !LiftedAt(file, payload, k);
    SecondOverwriteRepeats(file.connections, payload.secrets, entries, merged.connections, |entries|);
    assert entries[..|entries|] == entries;
  }

  lemma SecondPlanRepeats(file: ConnectionFile, payload: BundlePayload)
    requires Disjoint(file) && RefusalsStand(file, payload)
    ensures var (merged, p) := (MergedFile(file, payload, OverwriteExisting),
            PlanFor(file, payload, OverwriteExisting));
            var q := PlanFor(merged, payload, OverwriteExisting);
            && PlanRepeats(merged.connections, q) && WellAimed(merged.connections, q.changes)
            && forall x | x in q.writes :: x.keyRef in WriteRefs(p.writes)
                                           && x.keyRef in payload.secrets && x.value == payload.secrets[x.keyRef]
  {
    var merged := MergedFile(file, payload, OverwriteExisting);
    var q := PlanFor(merged, payload, OverwriteExisting);
    SecondDecisionsRepeat(file, payload);
    PlanAllInv(merged.connections, OverwriteExisting, payload.secrets, payload.connections.connections);
    forall x | x in q.writes
      ensures x.keyRef in WriteRefs(PlanFor(file, payload, OverwriteExisting).writes)
    {
      assert x.keyRef in WriteRefs(q.writes);
      SecondWritesAreFirstWrites(file, payload, merged, x.keyRef);
    }
  }

  lemma StandingRefusalsChangeNothing(w: W, fails: Schedule, cache: ConnectionFile, tracks: bool,
                                      payload: BundlePayload, passphrase: string, fails': Schedule)
    requires Current(w, cache, tracks) && Disjoint(FileOn(w.disk)) && RefusalsStand(FileOn(w.disk), payload)
    requires var o := ImportBundle(w, fails, cache, tracks, Sealed(payload, passphrase), passphrase, OverwriteExisting);
             o.result.Ok? && QuietFrom(fails', o.world.tick) && Loadable(FileOn(o.world.disk))
    ensures var o := ImportBundle(w, fails, cache, tracks, Sealed(payload, passphrase), passphrase, OverwriteExisting);
            var o' := ImportBundle(o.world, fails', o.file, tracks, Sealed(payload, passphrase), passphrase,
                OverwriteExisting);
            o'.result.Ok? && o'.world.disk == o.world.disk && o'.world.slots == o.world.slots && o'.file == o.file
  {
    var o := ImportBundle(w, fails, cache, tracks, Sealed(payload, passphrase), passphrase, OverwriteExisting);
    SuccessfulImport(w, fails, cache, tracks, payload, passphrase, OverwriteExisting);
    SecondPlanRepeats(FileOn(w.disk), payload);
    forall x | x in PlanFor(o.file, payload, OverwriteExisting).writes
      ensures Lookup(o.world.slots, x.keyRef) == Some(x.value)
    {
      FirstImportStores(w, fails, cache, tracks, payload, passphrase, x.keyRef);
    }
    RepeatingImportChangesNothing(o.world, fails', o.file, tracks, payload, passphrase);
  }

  lemma QuietImportSucceeds(w: W, fails: Schedule, cache: ConnectionFile, tracks: bool,
                            payload: BundlePayload, passphrase: string, mode: ImportMode)
    requires Current(w, cache, tracks) && payload.version == BUNDLE_VERSION
    requires (tracks ==> !w.disk.Garbage?) && Loadable(FileOn(w.disk)) && QuietFrom(fails, w.tick)
    ensures ImportBundle(w, fails, cache, tracks, Sealed(payload, passphrase), passphrase, mode).result.Ok?
  {
    SyncFacts(w, fails, cache, tracks);
    assert !fails(LoadEffect, w.tick);
    ReadSucceeds(w, fails, cache, tracks);
    var s := Sync(w, fails, cache, tracks);
    var p := PlanFor(s.file, payload, mode);
    SeedAllLog(s.world, fails, p.writes);
    SeedAllPhase(s.world, fails, p.writes);
  }

  lemma LiftedRefusalShows(w: W, fails: Schedule, cache: ConnectionFile, tracks: bool,
                           payload: BundlePayload, passphrase: string, fails': Schedule)
    requires Current(w, cache, tracks) && Disjoint(FileOn(w.disk)) && !RefusalsStand(FileOn(w.disk), payload)
    requires var o := ImportBundle(w, fails, cache, tracks, Sealed(payload, passphrase), passphrase, OverwriteExisting);
             o.result.Ok? && QuietFrom(fails', o.world.tick) && Loadable(FileOn(o.world.disk))
    ensures var o := ImportBundle(w, fails, cache, tracks, Sealed(payload, passphrase), passphrase, OverwriteExisting);
            var o' := ImportBundle(o.world, fails', o.file, tracks, Sealed(payload, passphrase), passphrase,
                OverwriteExisting);
            o'.result.Ok? && o'.file != o.file
  {
    var o := ImportBundle(w, fails, cache, tracks, Sealed(payload, passphrase), passphrase, OverwriteExisting);
    SuccessfulImport(w, fails, cache, tracks, payload, passphrase, OverwriteExisting);
    QuietImportSucceeds(o.world, fails', o.file, tracks, payload, passphrase, OverwriteExisting);
    SuccessfulImport(o.world, fails', o.file, tracks, payload, passphrase, OverwriteExisting);
    LiftedRefusalMergesAnew(FileOn(w.disk), payload);
  }

  lemma LiftedRefusalMergesAnew(file: ConnectionFile, payload: BundlePayload)
    requires Disjoint(file) && !RefusalsStand(file, payload)
    ensures var merged := MergedFile(file, payload, OverwriteExisting);
            MergedFile(merged, payload, OverwriteExisting) != merged
  {
    var entries, merged := payload.connections.connections, MergedFile(file, payload, OverwriteExisting);
    var k :| 0 <= k < |entries| && LiftedAt(file, payload, k);
    var n := FirstLifted(file, payload, |entries|);
    UnblockedIsAccepted(file, payload, n);
    RefusedIsAbsent(file, payload, n);
    MergeKeepsDisjoint(file, payload, OverwriteExisting);
    ChangeIsMerged(merged, payload, entries[n]);
  }

  lemma ChangeIsMerged(file: ConnectionFile, payload: BundlePayload, e: ConnectionEntry)
    requires UniqueIds(file.connections)
    requires exists c | c in PlanFor(file, payload, OverwriteExisting).changes :: c.entry == e
    ensures e in MergedFile(file, payload, OverwriteExisting).connections
  {
    PlanAllInv(file.connections, OverwriteExisting, payload.secrets, payload.connections.connections);
    MergedMembers(file.connections, PlanFor(file, payload, OverwriteExisting).changes);
  }

  /** The first refusal that no longer stands. */
  lemma {:induction false} FirstLifted(file: ConnectionFile, payload: BundlePayload, end: nat) returns (n: nat)
    requires end <= |payload.connections.connections| && exists k | 0 <= k < end :: LiftedAt(file, payload, k)
    ensures n < end && LiftedAt(file, payload, n) && forall k | 0 <= k < n :: !LiftedAt(file, payload, k)
  {
    if k :| 0 <= k < end - 1 && LiftedAt(file, payload, k) {
      n := FirstLifted(file, payload, end - 1);
    } else {
      n := end - 1;
    }
  }

  /**
   Repeating an import in overwrite mode changes nothing if and only if every
   entry the first run refused still carries a ref that some other entry of the
   resulting list carries too.
   */
  lemma OverwritingTwiceIsOnceIffRefusalsStand(w: W, fails: Schedule, cache: ConnectionFile, tracks: bool,
                                               payload: BundlePayload, passphrase: string, fails': Schedule)
    requires Current(w, cache, tracks) && Disjoint(FileOn(w.disk))
    requires var o := ImportBundle(w, fails, cache, tracks, Sealed(payload, passphrase), passphrase, OverwriteExisting);
             o.result.Ok? && QuietFrom(fails', o.world.tick) && Loadable(FileOn(o.world.disk))
    ensures var o := ImportBundle(w, fails, cache, tracks, Sealed(payload, passphrase), passphrase, OverwriteExisting);
            var o' := ImportBundle(o.world, fails', o.file, tracks, Sealed(payload, passphrase), passphrase,
                OverwriteExisting);
            && o'.result.Ok?
            && (o'.world.disk == o.world.disk && o'.world.slots == o.world.slots && o'.file == o.file
                <==> RefusalsStand(FileOn(w.disk), payload))
  {
    if RefusalsStand(FileOn(w.disk), payload) {
      StandingRefusalsChangeNothing(w, fails, cache, tracks, payload, passphrase, fails');
    } else {
      LiftedRefusalShows(w, fails, cache, tracks, payload, passphrase, fails');
    }
  }

  lemma RefusalIsReported(existing: seq<ConnectionEntry>, secrets: map<string, string>, entries: seq<ConnectionEntry>,
                          n: nat)
    requires n < |entries| && RefusedAt(existing, secrets, entries, n)
    ensures PlanAll(existing, OverwriteExisting, secrets, entries).report.refused != []
  {
    assert entries[..n + 1][..n] == entries[..n];
    RefusedStepChangesNothing(existing, secrets, PlanAll(existing, OverwriteExisting, secrets, entries[..n]),
        entries[n]);
    AppendedGrows(existing, OverwriteExisting, secrets, entries, n + 1);
  }

  /** In particular it changes nothing when the first run refused no entry. */
  lemma NoRefusalsStand(file: ConnectionFile, payload: BundlePayload)
    requires PlanFor(file, payload, OverwriteExisting).report.refused == []
    ensures RefusalsStand(file, payload)
  {
    var entries := payload.connections.connections;
    forall n | 0 <= n < |entries| && RefusedAt(file.connections, payload.secrets, entries, n)
      ensures false
    {
      RefusalIsReported(file.connections, payload.secrets, entries, n);
    }
  }

  lemma RepeatingImportChangesNothing(w: W, fails: Schedule, file: ConnectionFile, tracks: bool,
                                      payload: BundlePayload, passphrase: string)
    requires payload.version == BUNDLE_VERSION
    requires (tracks ==> !w.disk.Garbage?) && FileOn(w.disk) == file && Loadable(file) && QuietFrom(fails, w.tick)
    requires var q := PlanFor(file, payload, OverwriteExisting);
             && PlanRepeats(file.connections, q) && WellAimed(file.connections, q.changes)
             && forall x | x in q.writes :: Lookup(w.slots, x.keyRef) == Some(x.value)
    ensures var o := ImportBundle(w, fails, file, tracks, Sealed(payload, passphrase), passphrase, OverwriteExisting);
            o.result.Ok? && o.world.disk == w.disk && o.world.slots == w.slots && o.file == file
  {
    var q := PlanFor(file, payload, OverwriteExisting);
    assert !fails(LoadEffect, w.tick);
    ReadSucceeds(w, fails, file, tracks);
    if q.changes == [] {
      IdleImport(w, fails, file, tracks, payload, passphrase, OverwriteExisting);
    } else {
      SyncFacts(w, fails, file, tracks);
      assert q.changes[0] in q.changes;
      SecondCommitChangesNothing(Sync(w, fails, file, tracks).world, fails, file, q);
    }
  }

  lemma FirstImportStores(w: W, fails: Schedule, cache: ConnectionFile, tracks: bool,
                          payload: BundlePayload, passphrase: string, k: string)
    requires Current(w, cache, tracks) && Disjoint(FileOn(w.disk))
    requires ImportBundle(w, fails, cache, tracks, Sealed(payload, passphrase), passphrase,
             OverwriteExisting).result.Ok?
    requires k in WriteRefs(PlanFor(FileOn(w.disk), payload, OverwriteExisting).writes)
    ensures k in payload.secrets
    ensures Lookup(ImportBundle(w, fails, cache, tracks, Sealed(payload, passphrase), passphrase,
            OverwriteExisting).world.slots, k)
            == Some(payload.secrets[k])
  {
    SyncFacts(w, fails, cache, tracks);
    SomeChange(FileOn(w.disk), payload, OverwriteExisting);
    SuccessfulImportStores(Sync(w, fails, cache, tracks).world, fails, FileOn(w.disk), payload, OverwriteExisting, k);
  }

  /** Whatever the second plan writes, the first did. */
  lemma SecondWritesAreFirstWrites(file: ConnectionFile, payload: BundlePayload, merged: ConnectionFile, k: string)
    requires PlanFor(merged, payload, OverwriteExisting).accepted == PlanFor(file, payload, OverwriteExisting).accepted
    requires forall c | c in PlanFor(file, payload, OverwriteExisting).changes :: c.entry in merged.connections
    requires PlanRepeats(merged.connections, PlanFor(merged, payload, OverwriteExisting))
             && UniqueIds(merged.connections)
    requires k in WriteRefs(PlanFor(merged, payload, OverwriteExisting).writes)
    ensures k in WriteRefs(PlanFor(file, payload, OverwriteExisting).writes)
  {
    var p, q := PlanFor(file, payload, OverwriteExisting), PlanFor(merged, payload, OverwriteExisting);
    PlanAllInv(file.connections, OverwriteExisting, payload.secrets, payload.connections.connections);
    PlanAllInv(merged.connections, OverwriteExisting, payload.secrets, payload.connections.connections);
    var c :| c in q.changes && k in EntryRefs(c.entry);
    assert c.entry.id in p.accepted;
    var d :| d in p.changes && d.entry.id == c.entry.id;
    SameIdSameEntry(merged.connections, c.entry, d.entry);
  }

  // -- why the condition is there ------------------------------------------------------------

  const OLD_X: ConnectionEntry := ConnectionEntry("x", "", SecretBacked(Postgres, "", "k"), false, None, None, None,
      None)
  const NEW_X: ConnectionEntry := OLD_X.(kind := Turso(""))
  const BORROWER: ConnectionEntry := OLD_X.(id := "y")

  /** The bundle `y, x` where `y` uses the ref the stored `x` still holds and the new `x` gives up. */
  const BORROWING: BundlePayload :=
    BundlePayload(BUNDLE_VERSION, ConnectionFile(CONFIG_VERSION, None, [BORROWER, NEW_X]), map["k" := "v"])

  lemma FirstBorrowingPlan()
    ensures var p := PlanAll([OLD_X], OverwriteExisting, BORROWING.secrets, [BORROWER, NEW_X]);
            p.changes == [Change(Some(0), NEW_X)] && p.report.refused == [RefusedEntry("y", "k", "x")]
  {
    var (store, secrets) := ([OLD_X], BORROWING.secrets);
    assert [BORROWER, NEW_X][..1] == [BORROWER] && [BORROWER][..0] == [];
    OwnersOfSnoc([], OLD_X);
    assert [] + [OLD_X] == store && EntryRefs(OLD_X) == ["k"];
    var p0 := PlanAll(store, OverwriteExisting, secrets, []);
    assert p0.owners == map["k" := "x"];
    assert FindIndex(store, "y").None? && Collision(p0.owners, ["k"], "y") == Some("k");
    var p1 := PlanAll(store, OverwriteExisting, secrets, [BORROWER]);
    assert p1 == PlanOne(store, OverwriteExisting, secrets, p0, BORROWER);
  }

  lemma SecondBorrowingPlan()
    ensures var q := PlanAll([NEW_X], OverwriteExisting, BORROWING.secrets, [BORROWER, NEW_X]);
            q.changes == [Change(None, BORROWER), Change(Some(0), NEW_X)]
  {
    var (store, secrets) := ([NEW_X], BORROWING.secrets);
    assert [BORROWER, NEW_X][..1] == [BORROWER] && [BORROWER][..0] == [];
    OwnersOfSnoc([], NEW_X);
    assert [] + [NEW_X] == store && EntryRefs(NEW_X) == [];
    var q0 := PlanAll(store, OverwriteExisting, secrets, []);
    assert q0.owners == map[];
    assert FindIndex(store, "y").None?;
    var q1 := PlanAll(store, OverwriteExisting, secrets, [BORROWER]);
    assert q1 == PlanOne(store, OverwriteExisting, secrets, q0, BORROWER);
    assert q1.changes == [Change(None, BORROWER)];
  }

  /**
   With a refusal it is not: `y` is refused because `x` owns its ref, the same
   import frees that ref by replacing `x`, and the second run takes `y` in.
   */
  lemma RefusedEntryIsAcceptedTheSecondTime()
    ensures var once := MergedFile(EMPTY_FILE.(connections := [OLD_X]), BORROWING, OverwriteExisting);
            && once.connections == [NEW_X]
            && PlanFor(EMPTY_FILE.(connections := [OLD_X]), BORROWING, OverwriteExisting).report.refused
               == [RefusedEntry("y", "k", "x")]
            && MergedFile(once, BORROWING, OverwriteExisting).connections == [NEW_X, BORROWER]
  {
    FirstBorrowingPlan();
    SecondBorrowingPlan();
    var c1, c2 := Change(None, BORROWER), Change(Some(0), NEW_X);
    assert [c2][..0] == [] && [c1, c2][..1] == [c1] && [c1][..0] == [];
    assert MergeAll([OLD_X], [c2]) == MergeOne(MergeAll([OLD_X], []), c2);
    assert MergeAll([NEW_X], [c1]).connections == [NEW_X, BORROWER];
  }
}
