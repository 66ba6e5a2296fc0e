/** The invariants a run keeps, from the shape of a single edit. */
module RunInvariants {
  import opened Wrappers
  import opened Refs
  import opened Store
  import opened Machine
  import opened Drafts
  import opened Protocol
  import opened CrashSafety
  import opened Import
  import opened ImportFacts
  import opened ImportSafety
  import opened ImportReports
  import opened Runs
  import opened Handles

  // -- one edit --------------------------------------------------------------------------

  /** Moving takes one element out and puts it back at its new place; the rest keep their order. */
  lemma MovedSpec<T>(s: seq<T>, i: nat, j: nat)
    requires i < |s| && j < |s|
    ensures |Moved(s, i, j)| == |s| && Moved(s, i, j)[j] == s[i]
    ensures RemoveAt(Moved(s, i, j), j) == RemoveAt(s, i)
    ensures forall x :: x in Moved(s, i, j) <==> x in s
    ensures multiset(Moved(s, i, j)) == multiset(s)
  {
    var m, rest := Moved(s, i, j), RemoveAt(s, i);
    assert RemoveAt(m, j) == rest;
    assert s == s[..i] + [s[i]] + s[i + 1..];
    assert rest == rest[..j] + rest[j..];
    assert multiset(m) == multiset(rest) + multiset{s[i]} == multiset(s);
    assert forall x :: x in m <==> x in multiset(m);
    assert forall x :: x in s <==> x in multiset(s);
  }

  /** Moving back undoes a move. */
  lemma MovingBackUndoes<T>(s: seq<T>, i: nat, j: nat)
    requires i < |s| && j < |s|
    ensures |Moved(s, i, j)| == |s| && Moved(Moved(s, i, j), j, i) == s
  {
    MovedSpec(s, i, j);
    assert InsertAt(RemoveAt(s, i), i, s[i]) == s;
  }

  lemma UniqueAfterRemoval(entries: seq<ConnectionEntry>, i: nat)
    requires i < |entries| && UniqueIds(entries)
    ensures UniqueIds(RemoveAt(entries, i))
    ensures forall e | e in RemoveAt(entries, i) :: e in entries && e.id != entries[i].id
  {
    var rest := RemoveAt(entries, i);
    forall j | 0 <= j < |rest|
      ensures rest[j] == entries[if j < i then j else j + 1]
    {
    }
  }

  lemma UniqueAfterInsertion(entries: seq<ConnectionEntry>, i: nat, e: ConnectionEntry)
    requires i <= |entries| && UniqueIds(entries) && forall x | x in entries :: x.id != e.id
    ensures UniqueIds(InsertAt(entries, i, e))
  {
    var longer := InsertAt(entries, i, e);
    forall j | 0 <= j < |longer| && j != i
      ensures longer[j] == entries[if j < i then j else j - 1]
    {
    }
  }

  lemma EditKeepsUniqueIds(before: ConnectionFile, after: ConnectionFile, id: string)
    requires UniqueIds(before.connections) && Edited(before, after, id)
    ensures UniqueIds(after.connections)
  {
    if i: nat, j: nat :| MovesEntry(before, after, i, j) {
      UniqueAfterRemoval(before.connections, i);
      UniqueAfterInsertion(RemoveAt(before.connections, i), j, before.connections[i]);
    } else if i: nat :| RemovesAt(before, after, i) {
      UniqueAfterRemoval(before.connections, i);
    }
  }

  lemma RemovalMembers(before: ConnectionFile, after: ConnectionFile, i: nat)
    requires RemovesAt(before, after, i)
    ensures forall e | e in before.connections && e.id != before.connections[i].id :: e in after.connections
    ensures forall e | e in after.connections :: e in before.connections
  {
    forall e | e in before.connections && e.id != before.connections[i].id
      ensures e in after.connections
    {
      var k :| 0 <= k < |before.connections| && before.connections[k] == e;
      assert e == after.connections[if k < i then k else k - 1];
    }
  }

  lemma ReplacementMembers(before: ConnectionFile, after: ConnectionFile, i: nat, e: ConnectionEntry)
    requires ReplacesAt(before, after, i, e)
    ensures forall x | x in before.connections && x.id != e.id :: x in after.connections
    ensures forall x | x in after.connections && x !in before.connections :: x == e
  {
    forall x | x in before.connections && x.id != e.id
      ensures x in after.connections
    {
      var k :| 0 <= k < |before.connections| && before.connections[k] == x;
      assert x == after.connections[k];
    }
  }

  /** Every entry afterwards is an old one, or the edited one standing in for an old one, or a new one. */
  lemma EditMembers(before: ConnectionFile, after: ConnectionFile, id: string)
    requires Edited(before, after, id)
    ensures forall e | e in before.connections && e.id != id :: e in after.connections
    ensures forall e | e in after.connections && e !in before.connections ::
              Appends(before, after, e) || exists i: nat :: ReplacesAt(before, after, i, e)
  {
    if i: nat, j: nat :| MovesEntry(before, after, i, j) {
      MovedSpec(before.connections, i, j);
    } else if i: nat :| RemovesAt(before, after, i) && before.connections[i].id == id {
      RemovalMembers(before, after, i);
    } else if i: nat, e: ConnectionEntry :| e.id == id && ReplacesAt(before, after, i, e) {
      ReplacementMembers(before, after, i, e);
    }
  }

  lemma EditKeepsLoadable(before: ConnectionFile, after: ConnectionFile, id: string)
    requires Loadable(before) && Edited(before, after, id)
    ensures Loadable(after)
  {
    EditKeepsUniqueIds(before, after, id);
    EditMembers(before, after, id);
  }

  /** The header of the file, the permission to export included, is nobody's to edit. */
  lemma EditKeepsHeader(before: ConnectionFile, after: ConnectionFile, id: string)
    requires Edited(before, after, id)
    ensures after.version == before.version && after.mcpExport == before.mcpExport
  {
  }

  // -- handles -----------------------------------------------------------------------------

  /** An edited entry keeps its old handles or has checked its new alias against everyone else. */
  lemma ReplacementStaysApart(before: ConnectionFile, after: ConnectionFile, i: nat, e: ConnectionEntry,
                              x: ConnectionEntry)
    requires Unambiguous(before.connections) && ReplacesAt(before, after, i, e) && x in RemoveAt(before.connections, i)
    ensures Apart(x, e)
  {
    UnambiguousAfterRemoval(before.connections, i);
    assert Apart(x, before.connections[i]);
    var k :| 0 <= k < |RemoveAt(before.connections, i)| && RemoveAt(before.connections, i)[k] == x;
    assert x == before.connections[if k < i then k else k + 1];
  }

  lemma ReplaceKeepsUnambiguous(before: ConnectionFile, after: ConnectionFile, i: nat, e: ConnectionEntry)
    requires Unambiguous(before.connections) && ReplacesAt(before, after, i, e)
    ensures Unambiguous(after.connections)
  {
    var rest := RemoveAt(before.connections, i);
    forall x | x in rest
      ensures Apart(x, e)
    {
      ReplacementStaysApart(before, after, i, e, x);
    }
    UnambiguousAfterRemoval(before.connections, i);
    UnambiguousAfterInsertion(rest, i, e);
    assert InsertAt(rest, i, e) == after.connections;
  }

  lemma AppendKeepsUnambiguous(before: ConnectionFile, after: ConnectionFile, e: ConnectionEntry)
    requires Unambiguous(before.connections) && Appends(before, after, e)
    ensures Unambiguous(after.connections)
  {
    var entries := before.connections;
    forall x | x in entries
      ensures Apart(x, e)
    {
      assert x.id != e.id;
    }
    UnambiguousAfterInsertion(entries, |entries|, e);
    assert InsertAt(entries, |entries|, e) == entries + [e];
  }

  lemma EditKeepsUnambiguous(before: ConnectionFile, after: ConnectionFile, id: string)
    requires Unambiguous(before.connections) && Edited(before, after, id)
    ensures Unambiguous(after.connections)
  {
    var entries := before.connections;
    if i: nat, j: nat :| MovesEntry(before, after, i, j) {
      UnambiguousAfterRemoval(entries, i);
      UnambiguousAfterInsertion(RemoveAt(entries, i), j, entries[i]);
    } else if i: nat :| RemovesAt(before, after, i) {
      UnambiguousAfterRemoval(entries, i);
    } else if i: nat, e: ConnectionEntry :| ReplacesAt(before, after, i, e) {
      ReplaceKeepsUnambiguous(before, after, i, e);
    } else if e: ConnectionEntry :| Appends(before, after, e) {
      AppendKeepsUnambiguous(before, after, e);
    }
  }

  // -- refs ----------------------------------------------------------------------------------

  /** Each entry's refs satisfy `ok` with respect to its own id. */
  ghost predicate RefsObey(entries: seq<ConnectionEntry>, ok: (string, string) -> bool) {
    forall e, r | e in entries && r in EntryRefs(e) :: ok(e.id, r)
  }

  /** Any property that freshly minted refs have is kept by every edit. */
  lemma EditKeepsRefs(before: ConnectionFile, after: ConnectionFile, id: string, ok: (string, string) -> bool)
    requires RefsObey(before.connections, ok) && Edited(before, after, id)
    requires forall x, r | r in MintableRefs(x) :: ok(x, r)
    ensures RefsObey(after.connections, ok)
  {
    EditMembers(before, after, id);
    forall e, r | e in after.connections && r in EntryRefs(e)
      ensures ok(e.id, r)
    {
      assert r in RefSet(e);
      if e !in before.connections && !Appends(before, after, e) {
        var i: nat :| ReplacesAt(before, after, i, e);
        var was := before.connections[i];
        assert was in before.connections;
        assert r in RefSet(was) ==> r in EntryRefs(was) && ok(was.id, r);
      }
    }
  }

  // -- whole runs ------------------------------------------------------------------------------

  /** `Q` holds of every call of the run and the stores it finds when its turn comes. */
  ghost predicate AtEachCall(w: W, fails: Schedule, cache: ConnectionFile, commands: seq<Command>,
                             Q: (W, Command) -> bool)
    decreases |commands|
  {
    commands != [] ==>
      && Q(w, commands[0])
      && var o := Exec(w, fails, cache, commands[0]);
      AtEachCall(o.world, fails, o.file, commands[1..], Q)
  }

  /** A call of which `Q` holds keeps `P`. */
  ghost predicate CallsKeep(P: ConnectionFile -> bool, Q: (W, Command) -> bool) {
    forall w: W, c, after | P(FileOn(w.disk)) && Q(w, c) && CallEdits(FileOn(w.disk), after, c) :: P(after)
  }

  /** The file is as `P` says now and was after every effect since `w`. */
  ghost predicate HeldSince(w: W, w': W, P: ConnectionFile -> bool) {
    && w.trace <= w'.trace && P(FileOn(w'.disk))
    && forall i | |w.trace| <= i < |w'.trace| :: P(FileOn(w'.trace[i].disk))
  }

  /** What every call keeps holds of every file a run leaves at any step, whatever fails. */
  lemma {:induction false} RunKeeps(w: W, fails: Schedule, cache: ConnectionFile, commands: seq<Command>,
                                    P: ConnectionFile -> bool, Q: (W, Command) -> bool)
    requires P(FileOn(w.disk)) && AtEachCall(w, fails, cache, commands, Q) && CallsKeep(P, Q)
    ensures HeldSince(w, Run(w, fails, cache, commands).0, P)
    decreases |commands|
  {
    if commands != [] {
      var c := commands[0];
      var o := Exec(w, fails, cache, c);
      ExecChanges(w, fails, cache, c);
      assert P(FileOn(o.world.disk));
      RunKeeps(o.world, fails, o.file, commands[1..], P, Q);
      var end := Run(o.world, fails, o.file, commands[1..]).0;
      forall i | |w.trace| <= i < |end.trace|
        ensures P(FileOn(end.trace[i].disk))
      {
        if i < |o.world.trace| {
          assert end.trace[i] == o.world.trace[i];
        }
      }
    }
  }

  /** What this import would decide on the file it finds; a bundle that does not open decides nothing. */
  function ImportPlan(w: W, c: Command): Option<Plan>
    requires c.ImportCall?
  {
    if Decrypt(c.blob, c.passphrase).Ok? then Some(PlanFor(FileOn(w.disk), c.blob.payload, c.mode)) else None
  }

  /** An import takes in legal tunnels only. */
  predicate LegalImports(w: W, c: Command) {
    c.ImportCall? && ImportPlan(w, c).Some? ==> forall x | x in ImportPlan(w, c).value.changes :: TunnelOk(x.entry)
  }

  /** The handles of what an import takes in fit. */
  ghost predicate FittingImports(w: W, c: Command) {
    c.ImportCall? && ImportPlan(w, c).Some? ==> HandlesFit(FileOn(w.disk).connections, ImportPlan(w, c).value)
  }

  /**
   From a file the loader accepts, every file a run leaves at any step is one
   the loader accepts, as long as each import takes in legal tunnels only.
   */
  lemma RunLeavesLoadableFiles(w: W, fails: Schedule, cache: ConnectionFile, commands: seq<Command>)
    requires Loadable(FileOn(w.disk))
    requires AtEachCall(w, fails, cache, commands, LegalImports)
    ensures HeldSince(w, Run(w, fails, cache, commands).0, Loadable)
  {
    forall w: W, c, after | Loadable(FileOn(w.disk)) && LegalImports(w, c) && CallEdits(FileOn(w.disk), after, c)
      ensures Loadable(after)
    {
      if c.ImportCall? {
        if Decrypt(c.blob, c.passphrase).Ok? {
          ImportedFileLoadsIffAcceptedTunnelsAreLegal(FileOn(w.disk), c.blob.payload, c.mode);
        }
      } else {
        EditKeepsLoadable(FileOn(w.disk), after, Target(c));
      }
    }
    RunKeeps(w, fails, cache, commands, Loadable, LegalImports);
  }

  /**
   From an unambiguous file, no run leaves one in which a handle names two
   connections, as long as the entries each import takes in fit.
   */
  lemma RunKeepsHandlesUnambiguous(w: W, fails: Schedule, cache: ConnectionFile, commands: seq<Command>)
    requires Unambiguous(FileOn(w.disk).connections)
    requires AtEachCall(w, fails, cache, commands, FittingImports)
    ensures HeldSince(w, Run(w, fails, cache, commands).0, (f: ConnectionFile) => Unambiguous(f.connections))
  {
    var P := (f: ConnectionFile) => Unambiguous(f.connections);
    forall w: W, c, after | P(FileOn(w.disk)) && FittingImports(w, c) && CallEdits(FileOn(w.disk), after, c)
      ensures P(after)
    {
      if c.ImportCall? {
        if Decrypt(c.blob, c.passphrase).Ok? {
          MergeIsUnambiguousIffHandlesFit(FileOn(w.disk), c.blob.payload, c.mode);
        }
      } else {
        EditKeepsUnambiguous(FileOn(w.disk), after, Target(c));
      }
    }
    RunKeeps(w, fails, cache, commands, P, FittingImports);
  }

  lemma {:induction false} NoCondition(w: W, fails: Schedule, cache: ConnectionFile, commands: seq<Command>)
    ensures AtEachCall(w, fails, cache, commands, (w, c) => true)
    decreases |commands|
  {
    if commands != [] {
      var o := Exec(w, fails, cache, commands[0]);
      NoCondition(o.world, fails, o.file, commands[1..]);
    }
  }

  /** No run, whatever it imports, grants, withdraws or redirects the permission to export. */
  lemma RunKeepsExportPermission(w: W, fails: Schedule, cache: ConnectionFile, commands: seq<Command>)
    ensures HeldSince(w, Run(w, fails, cache, commands).0, (f: ConnectionFile) => f.mcpExport
            == FileOn(w.disk).mcpExport)
  {
    var permission := FileOn(w.disk).mcpExport;
    var P := (f: ConnectionFile) => f.mcpExport == permission;
    forall w: W, c, after | P(FileOn(w.disk)) && CallEdits(FileOn(w.disk), after, c)
      ensures P(after)
    {
      if !c.ImportCall? {
        EditKeepsHeader(FileOn(w.disk), after, Target(c));
      }
    }
    NoCondition(w, fails, cache, commands);
    RunKeeps(w, fails, cache, commands, P, (w, c) => true);
  }

  /** The call does not aim at this id: it names another, or its bundle replaces others. */
  predicate Spares(w: W, c: Command, id: string) {
    if c.ImportCall? then ImportPlan(w, c).Some? ==>
          id !in ChangeIds(ImportPlan(w, c).value.changes) else Target(c) != id
  }

  ghost function SparesId(id: string): (W, Command) -> bool {
    (w: W, c: Command) => Spares(w, c, id)
  }

  ghost function Holds(e: ConnectionEntry): ConnectionFile -> bool {
    (f: ConnectionFile) => e in f.connections
  }

  lemma CallSpares(before: ConnectionFile, after: ConnectionFile, w: W, c: Command, e: ConnectionEntry)
    requires before == FileOn(w.disk) && e in before.connections
    requires Spares(w, c, e.id) && CallEdits(before, after, c)
    ensures e in after.connections
  {
    if c.ImportCall? {
      if Decrypt(c.blob, c.passphrase).Ok? {
        PlanAllInv(before.connections, c.mode, c.blob.payload.secrets, c.blob.payload.connections.connections);
        UnaimedAreMerged(before.connections, PlanFor(before, c.blob.payload, c.mode).changes);
      }
    } else {
      EditMembers(before, after, Target(c));
    }
  }

  /** A run never touches an entry none of its calls aims at, whoever wrote it: every file along the way has it. */
  lemma RunKeepsOtherEntries(w: W, fails: Schedule, cache: ConnectionFile, commands: seq<Command>, e: ConnectionEntry)
    requires e in FileOn(w.disk).connections && AtEachCall(w, fails, cache, commands, SparesId(e.id))
    ensures HeldSince(w, Run(w, fails, cache, commands).0, Holds(e))
  {
    forall w: W, c, after | Holds(e)(FileOn(w.disk)) && SparesId(e.id)(w, c) && CallEdits(FileOn(w.disk), after, c)
      ensures Holds(e)(after)
    {
      CallSpares(FileOn(w.disk), after, w, c, e);
    }
    RunKeeps(w, fails, cache, commands, Holds(e), SparesId(e.id));
  }
}
