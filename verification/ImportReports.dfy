/** What an import tells its caller, and what a second import of the same bundle does. */
module ImportReports {
  import opened Wrappers
  import opened Store
  import opened Machine
  import opened Protocol
  import opened UndoLog
  import opened CrashSafety
  import opened Rollback
  import opened Import
  import opened ImportFacts
  import opened ImportSafety
  import opened ImportCrash

  // -- the report is an ordered partition of the bundle --------------------------------

  /** `a` is what is left of `b` after dropping some elements. */
  ghost predicate Subsequence<T>(a: seq<T>, b: seq<T>) {
    if b == [] then a == []
    else
      var init := b[..|b| - 1];
      || Subsequence(a, init)
      || (a != [] && a[|a| - 1] == b[|b| - 1] && Subsequence(a[..|a| - 1], init))
  }

  lemma SubsequenceGrows<T>(a: seq<T>, b: seq<T>, x: T)
    requires Subsequence(a, b)
    ensures Subsequence(a, b + [x]) && Subsequence(a + [x], b + [x])
  {
    assert (b + [x])[..|b|] == b && (a + [x])[..|a|] == a;
  }

  ghost function RefusedIds(refused: seq<RefusedEntry>): seq<string> {
    seq(|refused|, i requires 0 <= i < |refused| => refused[i].id)
  }

  datatype Verdict = Imported | Overwritten | SkippedExisting | Duplicate | Refused

  /** The one thing that happens to a bundle entry, given what came before it. */
  function VerdictOf(existing: seq<ConnectionEntry>, mode: ImportMode, p: Plan, entry: ConnectionEntry): Verdict {
    if entry.id in p.accepted then Duplicate
    else if FindIndex(existing, entry.id).Some? && mode.SkipExisting? then SkippedExisting
    else if Collision(p.owners, EntryRefs(entry), entry.id).Some? then Refused
    else if FindIndex(existing, entry.id).Some? then Overwritten
    else Imported
  }

  ghost function ListOf(report: ImportReport, v: Verdict): seq<string> {
    match v
    case Imported => report.imported
    case Overwritten => report.overwritten
    case SkippedExisting => report.skippedExisting
    case Duplicate => report.duplicateInBundle
    case Refused => RefusedIds(report.refused)
  }

  lemma StepAddsToOneList(existing: seq<ConnectionEntry>, mode: ImportMode, secrets: map<string, string>,
                          p: Plan, entry: ConnectionEntry, v: Verdict)
    ensures ListOf(PlanOne(existing, mode, secrets, p, entry).report, v)
            == ListOf(p.report, v) + if v == VerdictOf(existing, mode, p, entry) then [entry.id] else []
  {
  }

  /** Each list is in bundle order. */
  ghost predicate InBundleOrder(report: ImportReport, ids: seq<string>) {
    forall v :: Subsequence(ListOf(report, v), ids)
  }

  /** Together the lists name every bundle entry once. */
  ghost predicate Partitions(report: ImportReport, ids: seq<string>) {
    multiset(ids) == multiset(ListOf(report, Imported)) + multiset(ListOf(report, Overwritten))
                     + multiset(ListOf(report, SkippedExisting)) + multiset(ListOf(report, Duplicate))
                     + multiset(ListOf(report, Refused))
  }

  /** Each id is in its list for the stated reason. */
  ghost predicate ReasonsHold(existing: seq<ConnectionEntry>, mode: ImportMode, p: Plan) {
    && (forall id | id in p.report.imported :: FindIndex(existing, id).None?)
    && (forall id | id in p.report.overwritten :: FindIndex(existing, id).Some? && mode.OverwriteExisting?)
    && (forall id | id in p.report.skippedExisting :: FindIndex(existing, id).Some? && mode.SkipExisting?)
    && (forall id | id in p.report.duplicateInBundle :: id in p.accepted)
    && (forall x | x in p.report.refused :: x.owner != x.id && x.keyRef in p.owners && p.owners[x.keyRef] == x.owner)
  }

  lemma {:induction false} ReportIsOrdered(existing: seq<ConnectionEntry>, mode: ImportMode,
                                           secrets: map<string, string>,
                                           entries: seq<ConnectionEntry>, v: Verdict)
    ensures Subsequence(ListOf(PlanAll(existing, mode, secrets, entries).report, v), Ids(entries))
    decreases |entries|
  {
    if entries != [] {
      var init, entry := entries[..|entries| - 1], entries[|entries| - 1];
      var p := PlanAll(existing, mode, secrets, init);
      ReportIsOrdered(existing, mode, secrets, init, v);
      assert Ids(entries) == Ids(init) + [entry.id];
      SubsequenceGrows(ListOf(p.report, v), Ids(init), entry.id);
      StepAddsToOneList(existing, mode, secrets, p, entry, v);
      if v != VerdictOf(existing, mode, p, entry) {
        assert ListOf(p.report, v) + [] == ListOf(p.report, v);
      }
    }
  }

  lemma OneMoreEntry(before: ImportReport, after: ImportReport, v: Verdict, id: string, ids: seq<string>)
    requires Partitions(before, ids)
    requires ListOf(after, v) == ListOf(before, v) + [id] && forall u | u != v :: ListOf(after, u) == ListOf(before, u)
    ensures Partitions(after, ids + [id])
  {
    assert multiset(ListOf(after, v)) == multiset(ListOf(before, v)) + multiset{id};
  }

  lemma {:induction false} ReportPartitionsTheBundle(existing: seq<ConnectionEntry>, mode: ImportMode,
                                                     secrets: map<string, string>, entries: seq<ConnectionEntry>)
    ensures Partitions(PlanAll(existing, mode, secrets, entries).report, Ids(entries))
    decreases |entries|
  {
    if entries != [] {
      var init, entry := entries[..|entries| - 1], entries[|entries| - 1];
      var p, q := PlanAll(existing, mode, secrets, init), PlanAll(existing, mode, secrets, entries);
      var v := VerdictOf(existing, mode, p, entry);
      ReportPartitionsTheBundle(existing, mode, secrets, init);
      assert Ids(entries) == Ids(init) + [entry.id];
      forall u | u != v
        ensures ListOf(q.report, u) == ListOf(p.report, u)
      {
        StepAddsToOneList(existing, mode, secrets, p, entry, u);
        assert ListOf(p.report, u) + [] == ListOf(p.report, u);
      }
      StepAddsToOneList(existing, mode, secrets, p, entry, v);
      OneMoreEntry(p.report, q.report, v, entry.id, Ids(init));
    }
  }

  /** Ownership never changes hands once claimed, and no accepted id is forgotten. */
  lemma OneStepKeepsOwners(existing: seq<ConnectionEntry>, mode: ImportMode, secrets: map<string, string>,
                           p: Plan, entry: ConnectionEntry)
    ensures var q := PlanOne(existing, mode, secrets, p, entry);
            (forall r | r in p.owners :: r in q.owners && q.owners[r] == p.owners[r]) && p.accepted <= q.accepted
  {
    ClaimSpec(p.owners, EntryRefs(entry), entry.id);
  }

  lemma OneStepKeepsReasons(existing: seq<ConnectionEntry>, mode: ImportMode, secrets: map<string, string>,
                            p: Plan, entry: ConnectionEntry)
    requires ReasonsHold(existing, mode, p)
    ensures ReasonsHold(existing, mode, PlanOne(existing, mode, secrets, p, entry))
  {
    OneStepKeepsOwners(existing, mode, secrets, p, entry);
    var q := PlanOne(existing, mode, secrets, p, entry);
    forall x | x in q.report.refused
      ensures x.owner != x.id && x.keyRef in q.owners && q.owners[x.keyRef] == x.owner
    {
      if x in p.report.refused {
        assert p.owners[x.keyRef] == x.owner;
      }
    }
  }

  lemma {:induction false} ReportReasonsHold(existing: seq<ConnectionEntry>, mode: ImportMode,
                                             secrets: map<string, string>,
                                             entries: seq<ConnectionEntry>)
    ensures ReasonsHold(existing, mode, PlanAll(existing, mode, secrets, entries))
    decreases |entries|
  {
    if entries != [] {
      var init := entries[..|entries| - 1];
      ReportReasonsHold(existing, mode, secrets, init);
      OneStepKeepsReasons(existing, mode, secrets, PlanAll(existing, mode, secrets, init), entries[|entries| - 1]);
    }
  }

  lemma OneStepAppendsTheImported(existing: seq<ConnectionEntry>, mode: ImportMode, secrets: map<string, string>,
                                  p: Plan, entry: ConnectionEntry)
    requires Ids(Appended(p.changes)) == p.report.imported
    ensures var q := PlanOne(existing, mode, secrets, p, entry); Ids(Appended(q.changes)) == q.report.imported
  {
    var q := PlanOne(existing, mode, secrets, p, entry);
    StepAddsToOneList(existing, mode, secrets, p, entry, Imported);
    if VerdictOf(existing, mode, p, entry) in {Imported, Overwritten} {
      assert q.changes == p.changes + [Change(FindIndex(existing, entry.id), entry)];
      assert q.changes[..|p.changes|] == p.changes;
      assert Ids(Appended(p.changes) + [entry]) == Ids(Appended(p.changes)) + [entry.id];
    } else {
      assert q.changes == p.changes;
    }
  }

  /** The appended entries are the imported ones, in report order. */
  lemma {:induction false} AppendedAreTheImported(existing: seq<ConnectionEntry>, mode: ImportMode,
                                                  secrets: map<string, string>, entries: seq<ConnectionEntry>)
    ensures var p := PlanAll(existing, mode, secrets, entries); Ids(Appended(p.changes)) == p.report.imported
    decreases |entries|
  {
    if entries != [] {
      var init, entry := entries[..|entries| - 1], entries[|entries| - 1];
      AppendedAreTheImported(existing, mode, secrets, init);
      OneStepAppendsTheImported(existing, mode, secrets, PlanAll(existing, mode, secrets, init), entry);
    }
  }

  /** Positions and ids of the merged list: the old ids in place, then the imported ones. */
  lemma MergedIds(file: ConnectionFile, payload: BundlePayload, mode: ImportMode)
    requires UniqueIds(file.connections)
    ensures var merged := MergedFile(file, payload, mode).connections;
            && Ids(merged) == Ids(file.connections) + PlanFor(file, payload, mode).report.imported
            && UniqueIds(merged)
  {
    var changes := PlanFor(file, payload, mode).changes;
    PlanAllInv(file.connections, mode, payload.secrets, payload.connections.connections);
    AppendedAreTheImported(file.connections, mode, payload.secrets, payload.connections.connections);
    MergedMembers(file.connections, changes);
    IdsOfMerge(file.connections, changes);
  }

  lemma IdsOfMerge(existing: seq<ConnectionEntry>, changes: seq<Change>)
    requires WellAimed(existing, changes)
    ensures Ids(MergeAll(existing, changes).connections) == Ids(existing) + Ids(Appended(changes))
  {
    var merged := MergeAll(existing, changes).connections;
    MergeAllShape(existing, changes);
    forall i | 0 <= i < |existing|
      ensures merged[i].id == existing[i].id
    {
      if merged[i] != existing[i] {
        assert Change(Some(i), merged[i]) in changes;
      }
    }
    assert merged == merged[..|existing|] + Appended(changes);
  }

  /**
   The report of an import that succeeds: an ordered partition of the bundle,
   each id listed for its true reason, and the stored ids are the old ones,
   each in its old place, followed by the imported ones.
   */
  lemma ImportReportIsAnOrderedPartition(w: W, fails: Schedule, cache: ConnectionFile, tracks: bool,
                                         payload: BundlePayload, passphrase: string, mode: ImportMode)
    requires Current(w, cache, tracks) && UniqueIds(FileOn(w.disk).connections)
    requires ImportBundle(w, fails, cache, tracks, Sealed(payload, passphrase), passphrase, mode).result.Ok?
    ensures var o := ImportBundle(w, fails, cache, tracks, Sealed(payload, passphrase), passphrase, mode);
            var (report, ids) := (o.result.value, Ids(payload.connections.connections));
            && InBundleOrder(report, ids) && Partitions(report, ids)
            && report == PlanFor(FileOn(w.disk), payload, mode).report
            && ReasonsHold(FileOn(w.disk).connections, mode, PlanFor(FileOn(w.disk), payload, mode))
            && Ids(o.file.connections) == Ids(FileOn(w.disk).connections) + report.imported
            && UniqueIds(o.file.connections)
  {
    var file := FileOn(w.disk);
    var entries := payload.connections.connections;
    forall v
      ensures Subsequence(ListOf(PlanFor(file, payload, mode).report, v), Ids(entries))
    {
      ReportIsOrdered(file.connections, mode, payload.secrets, entries, v);
    }
    ReportPartitionsTheBundle(file.connections, mode, payload.secrets, entries);
    ReportReasonsHold(file.connections, mode, payload.secrets, entries);
    MergedIds(file, payload, mode);
    SuccessfulImport(w, fails, cache, tracks, payload, passphrase, mode);
  }

  /** What a successful import leaves: the merged file in both places, and the plan's report. */
  lemma SuccessfulImport(w: W, fails: Schedule, cache: ConnectionFile, tracks: bool,
                         payload: BundlePayload, passphrase: string, mode: ImportMode)
    requires Current(w, cache, tracks)
    requires ImportBundle(w, fails, cache, tracks, Sealed(payload, passphrase), passphrase, mode).result.Ok?
    ensures var o := ImportBundle(w, fails, cache, tracks, Sealed(payload, passphrase), passphrase, mode);
            && o.file == MergedFile(FileOn(w.disk), payload, mode) == FileOn(o.world.disk)
            && o.result.value == PlanFor(FileOn(w.disk), payload, mode).report
            && (tracks ==> !o.world.disk.Garbage?)
  {
    SyncFacts(w, fails, cache, tracks);
    var s := Sync(w, fails, cache, tracks);
    var p := PlanFor(s.file, payload, mode);
    if p.changes != [] {
      CommitImportDisk(s.world, fails, s.file, p);
    }
  }

  // -- what the loader makes of the result ---------------------------------------------

  /**
   The import checks neither tunnels nor aliases. The file it saves is one the
   loader accepts if and only if every entry it took in has a legal tunnel.
   */
  lemma ImportedFileLoadsIffAcceptedTunnelsAreLegal(file: ConnectionFile, payload: BundlePayload, mode: ImportMode)
    requires Loadable(file)
    ensures Loadable(MergedFile(file, payload, mode)) <==>
            forall c | c in PlanFor(file, payload, mode).changes :: TunnelOk(c.entry)
  {
    PlanAllInv(file.connections, mode, payload.secrets, payload.connections.connections);
    MergedMembers(file.connections, PlanFor(file, payload, mode).changes);
  }
}
