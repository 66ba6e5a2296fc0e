/** Whole runs, imports included: refs stay with their owners, so no crash ever leaves one dangling. */
module RunSafety {
  import opened Wrappers
  import opened Refs
  import opened Store
  import opened Machine
  import opened Drafts
  import opened Protocol
  import opened CrashSafety
  import opened Rollback
  import opened Import
  import opened ImportFacts
  import opened ImportSafety
  import opened ImportCrash
  import opened Runs
  import opened RunInvariants

  // -- foreign refs ------------------------------------------------------------------------

  datatype ForeignRef = ForeignRef(id: string, keyRef: string, owner: string)

  function ForeignIn(id: string, refs: seq<string>): seq<ForeignRef> {
    if refs == [] then []
    else
      var owner := RefOwner(refs[0]);
      (if owner.Some? && owner.value != id then [ForeignRef(id, refs[0], owner.value)]
          else []) + ForeignIn(id, refs[1..])
  }

  /** Every ref some entry carries that was minted for another id. */
  function ForeignRefs(entries: seq<ConnectionEntry>): seq<ForeignRef> {
    if entries == [] then [] else ForeignIn(entries[0].id, EntryRefs(entries[0])) + ForeignRefs(entries[1..])
  }

  /** Minted for `id`, or not of the minted shape at all. */
  predicate NotForeign(id: string, r: string) {
    RefOwner(r).None? || RefOwner(r) == Some(id)
  }

  lemma {:induction false} ForeignInSpec(id: string, refs: seq<string>)
    ensures ForeignIn(id, refs) == [] <==> forall r | r in refs :: NotForeign(id, r)
    decreases |refs|
  {
    if refs != [] {
      ForeignInSpec(id, refs[1..]);
      assert refs == [refs[0]] + refs[1..];
      assert |ForeignIn(id, refs)| == |ForeignIn(id, refs[1..])| + if NotForeign(id, refs[0]) then 0 else 1;
    }
  }

  /** What the report says of one entry: each of its refs that was minted for another id, with that id. */
  lemma {:induction false} ForeignInNames(id: string, refs: seq<string>, x: ForeignRef)
    ensures x in ForeignIn(id, refs)
            <==> x.id == id && x.keyRef in refs && RefOwner(x.keyRef) == Some(x.owner) && x.owner != id
    decreases |refs|
  {
    if refs != [] {
      ForeignInNames(id, refs[1..], x);
      assert refs == [refs[0]] + refs[1..];
    }
  }

  /** The report names exactly the refs some entry carries that were minted for another id, and whose they are. */
  lemma {:induction false} ForeignRefsAreNamed(entries: seq<ConnectionEntry>, x: ForeignRef)
    ensures x in ForeignRefs(entries)
            <==> RefOwner(x.keyRef) == Some(x.owner) && x.owner != x.id
                 && CarriedUnder(entries, x.id, x.keyRef)
    decreases |entries|
  {
    if entries != [] {
      ForeignInNames(entries[0].id, EntryRefs(entries[0]), x);
      ForeignRefsAreNamed(entries[1..], x);
      CarriedByFirstOrRest(entries, x.id, x.keyRef);
    }
  }

  /** Some entry called `id` carries `r`. */
  ghost predicate CarriedUnder(entries: seq<ConnectionEntry>, id: string, r: string) {
    exists e | e in entries :: e.id == id && r in EntryRefs(e)
  }

  lemma CarriedByFirstOrRest(entries: seq<ConnectionEntry>, id: string, r: string)
    requires entries != []
    ensures CarriedUnder(entries, id, r)
            <==> (entries[0].id == id && r in EntryRefs(entries[0])) || CarriedUnder(entries[1..], id, r)
  {
    assert forall e :: e in entries <==> e == entries[0] || e in entries[1..];
  }

  lemma RefsObeyFromTheFirst(entries: seq<ConnectionEntry>, ok: (string, string) -> bool)
    requires entries != []
    ensures RefsObey(entries, ok) <==>
               (forall r | r in EntryRefs(entries[0]) :: ok(entries[0].id, r)) && RefsObey(entries[1..], ok)
  {
    assert entries == [entries[0]] + entries[1..];
  }

  /** The report of foreign refs is empty exactly when every entry's refs are its own. */
  lemma {:induction false} NoForeignRefsIffOwn(entries: seq<ConnectionEntry>)
    ensures ForeignRefs(entries) == [] <==> RefsObey(entries, NotForeign)
    decreases |entries|
  {
    if entries != [] {
      ForeignInSpec(entries[0].id, EntryRefs(entries[0]));
      NoForeignRefsIffOwn(entries[1..]);
      RefsObeyFromTheFirst(entries, NotForeign);
    }
  }

  lemma MintedIsNotForeign(id: string, r: string)
    requires r in MintableRefs(id)
    ensures NotForeign(id, r)
  {
    var field :| field in FIELDS && r == KeyringRef(id, field);
    if RefOwner(r).Some? {
      SplitInvertsMinting(r, SplitRef(r).value.0, SplitRef(r).value.1);
      MintingIsInjective(SplitRef(r).value.0, SplitRef(r).value.1, id, field);
    }
  }

  /** The entries an import takes in carry refs that obey `ok`. */
  ghost predicate TakenRefsObey(w: W, c: Command, ok: (string, string) -> bool) {
    c.ImportCall? && ImportPlan(w, c).Some? ==>
      forall x, r | x in ImportPlan(w, c).value.changes && r in EntryRefs(x.entry) :: ok(x.entry.id, r)
  }

  /** A property of refs that mintings have, and what imports take in has, is kept by every call. */
  lemma CallKeepsRefs(w: W, c: Command, after: ConnectionFile, ok: (string, string) -> bool)
    requires RefsObey(FileOn(w.disk).connections, ok)
    requires CallEdits(FileOn(w.disk), after, c) && TakenRefsObey(w, c, ok)
    requires forall x, r | r in MintableRefs(x) :: ok(x, r)
    ensures RefsObey(after.connections, ok)
  {
    var before := FileOn(w.disk);
    if !c.ImportCall? {
      EditKeepsRefs(before, after, Target(c), ok);
    } else if Decrypt(c.blob, c.passphrase).Ok? && after != before {
      var p := PlanFor(before, c.blob.payload, c.mode);
      PlanAllInv(before.connections, c.mode, c.blob.payload.secrets, c.blob.payload.connections.connections);
      MergedComeFromBoth(before.connections, p.changes);
      forall e, r | e in after.connections && r in EntryRefs(e)
        ensures ok(e.id, r)
      {
        if x :| x in p.changes && x.entry == e {
          assert ok(x.entry.id, r);
        }
      }
    }
  }

  ghost predicate NoForeignTaken(w: W, c: Command) {
    TakenRefsObey(w, c, NotForeign)
  }

  ghost predicate NoForeign(file: ConnectionFile) {
    ForeignRefs(file.connections) == []
  }

  /** A store without foreign refs never acquires one, unless an import takes in an entry that carries one. */
  lemma RunMintsNoForeignRefs(w: W, fails: Schedule, cache: ConnectionFile, commands: seq<Command>)
    requires NoForeign(FileOn(w.disk)) && AtEachCall(w, fails, cache, commands, NoForeignTaken)
    ensures HeldSince(w, Run(w, fails, cache, commands).0, NoForeign)
  {
    forall w: W, c, after | NoForeign(FileOn(w.disk)) && NoForeignTaken(w, c) && CallEdits(FileOn(w.disk), after, c)
      ensures NoForeign(after)
    {
      forall x, r | r in MintableRefs(x)
        ensures NotForeign(x, r)
      {
        MintedIsNotForeign(x, r);
      }
      NoForeignRefsIffOwn(FileOn(w.disk).connections);
      CallKeepsRefs(w, c, after, NotForeign);
      NoForeignRefsIffOwn(after.connections);
    }
    RunKeeps(w, fails, cache, commands, NoForeign, NoForeignTaken);
  }

  // -- crash safety of runs -----------------------------------------------------------------

  /** No other connection could be given this ref by minting. */
  ghost predicate NotAnothers(id: string, r: string) {
    forall x | r in MintableRefs(x) :: x == id
  }

  /** Ids are distinct, no two entries share a ref, and none carries one that another id would mint. */
  ghost predicate Settled(file: ConnectionFile) {
    Disjoint(file) && RefsObey(file.connections, NotAnothers)
  }

  lemma MintedForOneIdOnly(id: string, id': string, r: string)
    requires r in MintableRefs(id) && r in MintableRefs(id')
    ensures id == id'
  {
    var f, f' :| f in FIELDS && r == KeyringRef(id, f) && f' in FIELDS && r == KeyringRef(id', f');
    MintingIsInjective(id, f, id', f');
  }

  lemma MintingsAreNotAnothers()
    ensures forall x, r | r in MintableRefs(x) :: NotAnothers(x, r)
  {
    forall x, r, y | r in MintableRefs(x) && r in MintableRefs(y)
      ensures x == y
    {
      MintedForOneIdOnly(x, y, r);
    }
  }

  predicate Minted(id: string, r: string) {
    r in MintableRefs(id)
  }

  /** Any store the admin built by itself is settled. */
  lemma MintedStoresAreSettled(file: ConnectionFile)
    requires UniqueIds(file.connections) && RefsObey(file.connections, Minted)
    ensures Settled(file)
  {
    MintingsAreNotAnothers();
    forall e, r | e in file.connections && r in EntryRefs(e)
      ensures NotAnothers(e.id, r)
    {
      assert Minted(e.id, r);
    }
    forall a, b, r | a in file.connections && b in file.connections && r in RefSet(a) && r in RefSet(b)
      ensures a.id == b.id
    {
      assert Minted(a.id, r) && Minted(b.id, r);
      MintedForOneIdOnly(a.id, b.id, r);
    }
    DisjointIffMembersDisjoint(file.connections);
  }

  lemma MembersDisjoint(entries: seq<ConnectionEntry>, a: ConnectionEntry, b: ConnectionEntry)
    requires RefsDisjoint(entries) && a in entries && b in entries && a.id != b.id
    ensures RefSet(a) !! RefSet(b)
  {
    var i, j :| 0 <= i < |entries| && 0 <= j < |entries| && entries[i] == a && entries[j] == b;
    assert RefSet(entries[if i < j then i else j]) !! RefSet(entries[if i < j then j else i]);
  }

  /** Over distinct ids, sharing no ref does not depend on positions. */
  lemma DisjointIffMembersDisjoint(entries: seq<ConnectionEntry>)
    requires UniqueIds(entries)
    ensures RefsDisjoint(entries) <==> forall a, b | a in entries && b in entries && a.id != b.id ::
              RefSet(a) !! RefSet(b)
  {
    if RefsDisjoint(entries) {
      forall a, b | a in entries && b in entries && a.id != b.id
        ensures RefSet(a) !! RefSet(b)
      {
        MembersDisjoint(entries, a, b);
      }
    } else {
      var i, j :| 0 <= i < j < |entries| && !(RefSet(entries[i]) !! RefSet(entries[j]));
      assert entries[i] in entries && entries[j] in entries && EntryId(entries[i]) != EntryId(entries[j]);
    }
  }

  /** What an edit adds to an entry was minted for its id, so nobody else carries it. */
  lemma NewMemberSharesNoRef(before: ConnectionFile, after: ConnectionFile, e: ConnectionEntry, x: ConnectionEntry)
    requires Settled(before) && e in after.connections && e !in before.connections && x in after.connections
             && x.id != e.id
    requires Appends(before, after, e) || exists i: nat :: ReplacesAt(before, after, i, e)
    ensures RefSet(e) !! RefSet(x)
  {
    assert x in before.connections;
    forall r | r in RefSet(x)
      ensures r !in MintableRefs(e.id)
    {
      assert NotAnothers(x.id, r);
    }
    if !Appends(before, after, e) {
      var i: nat :| ReplacesAt(before, after, i, e);
      var was := before.connections[i];
      DisjointIffMembersDisjoint(before.connections);
      assert was in before.connections && RefSet(was) !! RefSet(x);
    }
  }

  lemma EditKeepsDisjoint(before: ConnectionFile, after: ConnectionFile, id: string)
    requires Settled(before) && Edited(before, after, id)
    ensures Disjoint(after)
  {
    EditKeepsUniqueIds(before, after, id);
    EditMembers(before, after, id);
    DisjointIffMembersDisjoint(before.connections);
    forall a, b | a in after.connections && b in after.connections && a.id != b.id
      ensures RefSet(a) !! RefSet(b)
    {
      if a !in before.connections {
        NewMemberSharesNoRef(before, after, a, b);
      } else if b !in before.connections {
        NewMemberSharesNoRef(before, after, b, a);
      }
    }
    DisjointIffMembersDisjoint(after.connections);
  }

  /**
   An import whose accepted entries have their secrets, whose own reads do no harm, and
   which borrows no mintable ref.
   */
  ghost predicate SafeCall(w: W, fails: Schedule, c: Command) {
    && TakenRefsObey(w, c, NotAnothers)
    && (c.ImportCall? && ImportPlan(w, c).Some? ==>
          && Covered(w.slots, c.blob.payload, ImportPlan(w, c).value)
          && ReadsHarmless(fails, SeedingStart(w, true), FileOn(w.disk), ImportPlan(w, c).value))
  }

  lemma CallKeepsSettled(w: W, c: Command, after: ConnectionFile)
    requires Settled(FileOn(w.disk)) && CallEdits(FileOn(w.disk), after, c) && TakenRefsObey(w, c, NotAnothers)
    ensures Settled(after)
  {
    MintingsAreNotAnothers();
    CallKeepsRefs(w, c, after, NotAnothers);
    if !c.ImportCall? {
      EditKeepsDisjoint(FileOn(w.disk), after, Target(c));
    } else if Decrypt(c.blob, c.passphrase).Ok? {
      MergeKeepsDisjoint(FileOn(w.disk), c.blob.payload, c.mode);
    }
  }

  lemma SettledSharesNoRef(file: ConnectionFile, id: string)
    requires Settled(file)
    ensures RefsNotShared(file.connections, id)
  {
    var found := FindIndex(file.connections, id);
    if found.Some? {
      UniqueAfterRemoval(file.connections, found.value);
      DisjointIffMembersDisjoint(file.connections);
    }
  }

  lemma NewIdMintsUnusedRefs(file: ConnectionFile, draft: ConnectionDraft)
    requires Settled(file) && FindIndex(file.connections, draft.id).None?
    ensures WriteRefs(DraftWrites(draft)) !! FileRefs(file.connections)
  {
    FieldsMint(draft.id);
    assert WriteRefs(DraftWrites(draft)) <= MintableRefs(draft.id);
    forall e, r | e in file.connections && r in EntryRefs(e)
      ensures r !in MintableRefs(draft.id)
    {
      assert NotAnothers(e.id, r) && e.id != draft.id;
    }
  }

  lemma ExecKeepsSafe(w: W, fails: Schedule, cache: ConnectionFile, c: Command)
    requires Safe(w) && Settled(FileOn(w.disk)) && SafeCall(w, fails, c)
    ensures Safe(Exec(w, fails, cache, c).world)
  {
    var file := FileOn(w.disk);
    match c
    case AddCall(draft) =>
      if FindIndex(file.connections, draft.id).None? {
        NewIdMintsUnusedRefs(file, draft);
      }
      AddKeepsSafe(w, fails, cache, true, draft);
    case UpdateCall(id, edit) =>
      SettledSharesNoRef(file, id);
      UpdateKeepsSafe(w, fails, cache, true, id, edit);
    case DeleteCall(id) =>
      SettledSharesNoRef(file, id);
      DeleteKeepsSafe(w, fails, cache, true, id);
    case MoveCall(id, index) => MoveKeepsSafe(w, fails, cache, id, index);
    case MarkCall(id, color, tag) => MarkKeepsSafe(w, fails, cache, id, color, tag);
    case ImportCall(blob, passphrase, mode) => ImportCallKeepsSafe(w, fails, cache, blob, passphrase, mode);
  }

  lemma ImportCallKeepsSafe(w: W, fails: Schedule, cache: ConnectionFile, blob: Blob, passphrase: string,
                            mode: ImportMode)
    requires Safe(w) && Disjoint(FileOn(w.disk)) && SafeCall(w, fails, ImportCall(blob, passphrase, mode))
    ensures Safe(ImportBundle(w, fails, cache, true, blob, passphrase, mode).world)
  {
    if Decrypt(blob, passphrase).Ok? {
      ImportKeepsSafe(w, fails, cache, true, blob.payload, passphrase, mode);
    } else {
      SyncFacts(w, fails, cache, true);
      PhaseKeepsSafe(w, Sync(w, fails, cache, true).world, {}, {});
    }
  }

  lemma MoveKeepsSafe(w: W, fails: Schedule, cache: ConnectionFile, id: string, index: nat)
    requires Safe(w)
    ensures Safe(MoveTo(w, fails, cache, true, id, index).world)
  {
    var s := Sync(w, fails, cache, true);
    SyncFacts(w, fails, cache, true);
    PhaseKeepsSafe(w, s.world, {}, {});
    var found := FindIndex(s.file.connections, id);
    if s.result.Ok? && found.Some? && index < |s.file.connections| {
      MovedSpec(s.file.connections, found.value, index);
      var moved := Moved(s.file.connections, found.value, index);
      assert FileRefs(moved) == FileRefs(s.file.connections);
      SaveKeepsSafe(s.world, fails, s.file.(connections := moved));
    }
  }

  lemma MarkKeepsSafe(w: W, fails: Schedule, cache: ConnectionFile, id: string, color: Option<string>,
                      tag: Option<string>)
    requires Safe(w)
    ensures Safe(SetMark(w, fails, cache, true, id, color, tag).world)
  {
    var s := Sync(w, fails, cache, true);
    SyncFacts(w, fails, cache, true);
    PhaseKeepsSafe(w, s.world, {}, {});
    var found := FindIndex(s.file.connections, id);
    if s.result.Ok? && found.Some? && NormalizeColor(color).Ok? && NormalizeTag(tag).Ok? {
      var i := found.value;
      var marked := s.file.connections[i].(color := NormalizeColor(color).value, tag := NormalizeTag(tag).value);
      FileRefsAfterReplace(s.file.connections, i, marked);
      FileRefsAround(s.file.connections, i);
      SaveKeepsSafe(s.world, fails, s.file.(connections := s.file.connections[i := marked]));
    }
  }

  /** Every import of the run is a safe one when its turn comes. */
  ghost predicate SafeCalls(w: W, fails: Schedule, cache: ConnectionFile, commands: seq<Command>)
    decreases |commands|
  {
    commands != [] ==>
      && SafeCall(w, fails, commands[0])
      && var o := Exec(w, fails, cache, commands[0]);
      SafeCalls(o.world, fails, o.file, commands[1..])
  }

  /**
   The two stores never drift. Over every run, under every schedule of failures
   and with a crash allowed after any effect of any call, each ref on the file
   then on disk has its secret in the keychain. Nothing is asked of the admin's
   own calls; an import must be a safe one.
   */
  lemma {:induction false} RunNeverDangles(w: W, fails: Schedule, cache: ConnectionFile, commands: seq<Command>)
    requires Safe(w) && Settled(FileOn(w.disk)) && SafeCalls(w, fails, cache, commands)
    ensures Safe(Run(w, fails, cache, commands).0) && Settled(FileOn(Run(w, fails, cache, commands).0.disk))
    decreases |commands|
  {
    if commands != [] {
      var c := commands[0];
      ExecKeepsSafe(w, fails, cache, c);
      ExecChanges(w, fails, cache, c);
      var o := Exec(w, fails, cache, c);
      if o.world.disk != w.disk {
        CallKeepsSettled(w, c, o.world.disk.file);
      }
      RunNeverDangles(o.world, fails, o.file, commands[1..]);
    }
  }
}
