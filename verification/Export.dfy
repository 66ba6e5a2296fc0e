/** Sealing connections into a bundle, and getting exactly them back elsewhere. */
module Export {
  import opened Wrappers
  import opened Store
  import opened Machine
  import opened Protocol
  import opened UndoLog
  import opened CrashSafety
  import opened Import
  import opened ImportFacts
  import opened ImportSafety
  import opened ImportCrash
  import opened ImportReports
  import opened ImportTwice

  function RefsInOrder(entries: seq<ConnectionEntry>): seq<string> {
    if entries == [] then [] else EntryRefs(entries[0]) + RefsInOrder(entries[1..])
  }

  /** Reads every ref in turn; the first that cannot be read ends the export. */
  function Collect(w: W, fails: Schedule, refs: seq<string>, got: map<string, string>)
    : (W, Result<map<string, string>, SecretError>)
    decreases |refs|
  {
    if refs == [] then (w, Ok(got))
    else
      var (w1, r) := Get(w, fails, refs[0]);
      if r.Err? then (w1, Err(r.error)) else Collect(w1, fails, refs[1..], got[refs[0] := r.value])
  }

  function Seal(w: W, fails: Schedule, version: nat, selected: seq<ConnectionEntry>, passphrase: string)
    : (W, Result<Blob, ConfigError>)
  {
    if Utf8Len(passphrase) < MIN_PASSPHRASE_LEN then (w, Err(WeakPassphrase))
    else
      var (w1, secrets) := Collect(w, fails, RefsInOrder(selected), map[]);
      if secrets.Err? then (w1, Err(Secret(secrets.error)))
      else (w1, Encrypt(BundlePayload(BUNDLE_VERSION, ConnectionFile(version, None, selected), secrets.value),
          passphrase))
  }

  /** The entries whose id is asked for, in store order. */
  function Selected(entries: seq<ConnectionEntry>, ids: seq<string>): seq<ConnectionEntry> {
    if entries == [] then []
    else if entries[0].id in ids then [entries[0]] + Selected(entries[1..], ids)
    else Selected(entries[1..], ids)
  }

  /** The first id asked for that the store does not hold. */
  function FirstUnknown(entries: seq<ConnectionEntry>, ids: seq<string>): (r: Option<string>)
    ensures r.None? ==> forall id | id in ids :: FindIndex(entries, id).Some?
    ensures r.Some? ==> r.value in ids && FindIndex(entries, r.value).None?
  {
    if ids == [] then None
    else if FindIndex(entries, ids[0]).None? then Some(ids[0])
    else FirstUnknown(entries, ids[1..])
  }

  function ExportBundleOf(w: W, fails: Schedule, file: ConnectionFile, ids: seq<string>, passphrase: string)
    : (W, Result<Blob, ConfigError>)
  {
    if ids == [] then (w, Err(EmptySelection))
    else
      var unknown := FirstUnknown(file.connections, ids);
      if unknown.Some? then (w, Err(NotFound(unknown.value)))
      else Seal(w, fails, file.version, Selected(file.connections, ids), passphrase)
  }

  // -- what an export reads -------------------------------------------------------------

  lemma {:induction false} RefsInOrderSpec(entries: seq<ConnectionEntry>)
    ensures (set r | r in RefsInOrder(entries)) == FileRefs(entries)
    decreases |entries|
  {
    if entries != [] {
      RefsInOrderSpec(entries[1..]);
      assert entries == [entries[0]] + entries[1..];
      FileRefsOfConcat([entries[0]], entries[1..]);
      FileRefsOfOne(entries[0]);
    }
  }

  lemma {:induction false} CollectReadsAll(w: W, fails: Schedule, refs: seq<string>, got: map<string, string>)
    requires forall t: nat :: !fails(GetEffect, t)
    requires (set r | r in refs) <= w.slots.Keys && got.Keys <= w.slots.Keys && forall k | k in got ::
               got[k] == w.slots[k]
    ensures Collect(w, fails, refs, got).1 == Ok(map k | k in got.Keys + (set r | r in refs) :: w.slots[k])
    decreases |refs|
  {
    if refs == [] {
      assert got == map k | k in got.Keys + (set r | r in refs) :: w.slots[k];
    } else {
      assert refs[0] in (set r | r in refs);
      var got' := got[refs[0] := w.slots[refs[0]]];
      CollectReadsAll(Get(w, fails, refs[0]).0, fails, refs[1..], got');
      assert got'.Keys + (set r | r in refs[1..]) == got.Keys + (set r | r in refs);
    }
  }

  lemma {:induction false} SubsequenceFromTheFront<T>(a: seq<T>, b: seq<T>, x: T)
    requires Subsequence(a, b)
    ensures Subsequence(a, [x] + b) && Subsequence([x] + a, [x] + b)
    decreases |b|
  {
    var longer := [x] + b;
    if b == [] {
      assert longer[..0] == [] && ([x] + a)[..0] == [];
    } else {
      var init := b[..|b| - 1];
      assert longer[..|longer| - 1] == [x] + init;
      if Subsequence(a, init) {
        SubsequenceFromTheFront(a, init, x);
      }
      if a != [] && a[|a| - 1] == b[|b| - 1] && Subsequence(a[..|a| - 1], init) {
        SubsequenceFromTheFront(a[..|a| - 1], init, x);
        assert ([x] + a)[..|a|] == [x] + a[..|a| - 1];
      }
    }
  }

  lemma {:induction false} SelectedKeepsOrder(entries: seq<ConnectionEntry>, ids: seq<string>)
    ensures Subsequence(Selected(entries, ids), entries)
    decreases |entries|
  {
    if entries != [] {
      SelectedKeepsOrder(entries[1..], ids);
      SubsequenceFromTheFront(Selected(entries[1..], ids), entries[1..], entries[0]);
      assert entries == [entries[0]] + entries[1..];
    }
  }

  /** Selecting keeps the store's order: it yields a subsequence holding exactly the entries asked for. */
  lemma {:induction false} SelectedSpec(entries: seq<ConnectionEntry>, ids: seq<string>)
    ensures forall e :: e in Selected(entries, ids) <==> e in entries && e.id in ids
    ensures UniqueIds(entries) ==> UniqueIds(Selected(entries, ids))
    ensures Subsequence(Selected(entries, ids), entries)
    decreases |entries|
  {
    SelectedKeepsOrder(entries, ids);
    if entries != [] {
      SelectedSpec(entries[1..], ids);
      assert entries == [entries[0]] + entries[1..];
      if UniqueIds(entries) {
        forall e | e in Selected(entries[1..], ids)
          ensures e.id != entries[0].id
        {
          var i :| 0 <= i < |entries| - 1 && entries[1..][i] == e;
          assert entries[i + 1] == e;
        }
      }
    }
  }

  /** The part of the keychain that lies under `refs`. */
  function SecretsOf(slots: map<string, string>, refs: set<string>): map<string, string> {
    map k | k in refs && k in slots :: slots[k]
  }

  /** What a successful export seals: the selection, no permission to export, and exactly its secrets. */
  lemma ExportSealsTheSelection(w: W, fails: Schedule, file: ConnectionFile, ids: seq<string>, passphrase: string)
    requires ids != [] && (forall id | id in ids :: FindIndex(file.connections, id).Some?)
    requires Utf8Len(passphrase) >= MIN_PASSPHRASE_LEN && forall t: nat :: !fails(GetEffect, t)
    requires FileRefs(Selected(file.connections, ids)) <= w.slots.Keys
    ensures var selected := Selected(file.connections, ids);
            ExportBundleOf(w, fails, file, ids, passphrase).1
            == Ok(Sealed(BundlePayload(BUNDLE_VERSION, ConnectionFile(file.version, None, selected),
                                       SecretsOf(w.slots, FileRefs(selected))), passphrase))
  {
    var selected := Selected(file.connections, ids);
    RefsInOrderSpec(selected);
    CollectReadsAll(w, fails, RefsInOrder(selected), map[]);
    var none: map<string, string> := map[];
    assert none.Keys + FileRefs(selected) == FileRefs(selected);
    assert SecretsOf(w.slots, FileRefs(selected)) == map k | k in FileRefs(selected) :: w.slots[k];
  }

  // -- when an export goes through --------------------------------------------------------

  /** Read one after the other from tick `lo` on, each ref is there and its read does not fail. */
  ghost predicate EachReads(slots: map<string, string>, fails: Schedule, lo: nat, refs: seq<string>) {
    forall i | 0 <= i < |refs| :: refs[i] in slots && !fails(GetEffect, lo + i)
  }

  lemma EachReadsFurtherOn(slots: map<string, string>, fails: Schedule, lo: nat, refs: seq<string>)
    requires refs != []
    ensures EachReads(slots, fails, lo, refs)
            <==> refs[0] in slots && !fails(GetEffect, lo) && EachReads(slots, fails, lo + 1, refs[1..])
  {
    if EachReads(slots, fails, lo, refs) {
      assert refs[0] in slots && !fails(GetEffect, lo + 0);
      forall i | 0 <= i < |refs| - 1
        ensures refs[1..][i] in slots && !fails(GetEffect, lo + 1 + i)
      {
        assert refs[1..][i] == refs[i + 1] && lo + (i + 1) == lo + 1 + i;
      }
    }
    if refs[0] in slots && !fails(GetEffect, lo) && EachReads(slots, fails, lo + 1, refs[1..]) {
      forall i | 0 <= i < |refs|
        ensures refs[i] in slots && !fails(GetEffect, lo + i)
      {
        if i > 0 {
          assert refs[i] == refs[1..][i - 1] && lo + i == lo + 1 + (i - 1);
        }
      }
    }
  }

  /** Reading all refs goes through if and only if each read does, and changes nothing. */
  lemma {:induction false} CollectSucceedsIffEachReads(w: W, fails: Schedule, refs: seq<string>,
                                                       got: map<string, string>)
    ensures var (w', r) := Collect(w, fails, refs, got);
            w'.disk == w.disk && w'.slots == w.slots && (r.Ok? <==> EachReads(w.slots, fails, w.tick, refs))
    decreases |refs|
  {
    if refs != [] {
      EachReadsFurtherOn(w.slots, fails, w.tick, refs);
      var (w1, r1) := Get(w, fails, refs[0]);
      if r1.Ok? {
        CollectSucceedsIffEachReads(w1, fails, refs[1..], got[refs[0] := r1.value]);
      }
    }
  }

  /** What it then has is what it started with, and under each ref what the slot holds. */
  lemma {:induction false} CollectGetsEach(w: W, fails: Schedule, refs: seq<string>, got: map<string, string>,
                                           k: string)
    requires Collect(w, fails, refs, got).1.Ok?
    ensures Lookup(Collect(w, fails, refs, got).1.value, k) == if k in refs then Lookup(w.slots, k) else Lookup(got, k)
    ensures k in refs ==> k in w.slots
    decreases |refs|
  {
    if refs != [] {
      var (w1, r1) := Get(w, fails, refs[0]);
      CollectGetsEach(w1, fails, refs[1..], got[refs[0] := r1.value], k);
      assert refs == [refs[0]] + refs[1..];
    }
  }

  /** No entry is called `id`. */
  ghost predicate UnknownTo(entries: seq<ConnectionEntry>, id: string) {
    forall e | e in entries :: e.id != id
  }

  /** The encoding of section 3 of RFC 3629. */
  function Utf8Bytes(c: char): seq<nat> {
    var n := c as int;
    if n < 0x80 then [n]
    else if n < 0x800 then [0xC0 + n / 0x40, 0x80 + n % 0x40]
    else if n < 0x1_0000 then [0xE0 + n / 0x1000, 0x80 + n / 0x40 % 0x40, 0x80 + n % 0x40]
    else [0xF0 + n / 0x4_0000, 0x80 + n / 0x1000 % 0x40, 0x80 + n / 0x40 % 0x40, 0x80 + n % 0x40]
  }

  function Utf8Encoded(s: string): seq<nat> {
    if s == "" then [] else Utf8Bytes(s[0]) + Utf8Encoded(s[1..])
  }

  /** The passphrase policy counts bytes: so eight letters are enough, and so may two symbols be. */
  lemma {:induction false} PolicyCountsBytes(s: string)
    ensures Utf8Len(s) == |Utf8Encoded(s)| && |s| <= Utf8Len(s) <= 4 * |s|
    ensures Utf8Len(s) == |s| <==> forall c | c in s :: c as int < 0x80
  {
    if s != "" {
      PolicyCountsBytes(s[1..]);
      assert s[0] in s && forall c | c in s[1..] :: c in s;
      assert forall c | c in s :: c == s[0] || c in s[1..];
    }
  }

  /** The request is in order: something is asked for, all of it is there, and the passphrase is long enough. */
  ghost predicate ExportInOrder(file: ConnectionFile, ids: seq<string>, passphrase: string) {
    && ids != [] && (forall id | id in ids :: !UnknownTo(file.connections, id))
    && Utf8Len(passphrase) >= 8
  }

  lemma FirstUnknownIsExact(entries: seq<ConnectionEntry>, ids: seq<string>)
    ensures FirstUnknown(entries, ids).None? <==> forall id | id in ids :: !UnknownTo(entries, id)
  {
    if FirstUnknown(entries, ids).None? {
      forall id | id in ids
        ensures !UnknownTo(entries, id)
      {
        assert entries[FindIndex(entries, id).value] in entries;
      }
    }
  }

  /** Secrets that were collected in full are exactly those of the selection, each of which is there. */
  lemma CollectedIsWhole(w: W, fails: Schedule, selected: seq<ConnectionEntry>)
    requires Collect(w, fails, RefsInOrder(selected), map[]).1.Ok?
    ensures FileRefs(selected) <= w.slots.Keys
    ensures Collect(w, fails, RefsInOrder(selected), map[]).1.value == SecretsOf(w.slots, FileRefs(selected))
  {
    var refs := RefsInOrder(selected);
    RefsInOrderSpec(selected);
    assert forall k :: k in FileRefs(selected) <==> k in refs by {
      assert forall k :: k in refs <==> k in set x | x in refs;
    }
    forall k
      ensures Lookup(Collect(w, fails, refs, map[]).1.value, k) == Lookup(SecretsOf(w.slots, FileRefs(selected)), k)
      ensures k in refs ==> k in w.slots
    {
      CollectGetsEach(w, fails, refs, map[], k);
    }
    SameLookups(Collect(w, fails, refs, map[]).1.value, SecretsOf(w.slots, FileRefs(selected)));
  }

  /**
   All or nothing. Under every schedule, an export goes through if and only if
   the request is in order and the secret of every ref of the selection can be
   read; what it seals then holds each of them; and it changes neither store.
   */
  lemma ExportIsAllOrNothing(w: W, fails: Schedule, file: ConnectionFile, ids: seq<string>, passphrase: string)
    ensures var (w', r) := ExportBundleOf(w, fails, file, ids, passphrase);
            var selected := Selected(file.connections, ids);
            && w'.disk == w.disk && w'.slots == w.slots
            && (r.Ok? <==>
                  ExportInOrder(file, ids, passphrase) && EachReads(w.slots, fails, w.tick, RefsInOrder(selected)))
            && (r.Ok? ==>
                  && FileRefs(selected) <= w.slots.Keys
                  && r.value == Sealed(BundlePayload(BUNDLE_VERSION, ConnectionFile(file.version, None, selected),
                                                     SecretsOf(w.slots, FileRefs(selected))), passphrase))
  {
    var selected := Selected(file.connections, ids);
    FirstUnknownIsExact(file.connections, ids);
    CollectSucceedsIffEachReads(w, fails, RefsInOrder(selected), map[]);
    if Collect(w, fails, RefsInOrder(selected), map[]).1.Ok? {
      CollectedIsWhole(w, fails, selected);
    }
  }

  /** The slot named is empty, or the keychain fails a read. */
  ghost predicate ReadErrorIsTrue(slots: map<string, string>, fails: Schedule, error: SecretError) {
    if error.SecretNotFound? then error.keyRef !in slots else exists t: nat :: fails(GetEffect, t)
  }

  ghost predicate RefusalIsTrue(w: W, fails: Schedule, file: ConnectionFile, ids: seq<string>, passphrase: string,
                                error: ConfigError)
  {
    && (error.EmptySelection? || error.NotFound? || error.WeakPassphrase? || error.Secret?)
    && (error.EmptySelection? ==> ids == [])
    && (error.NotFound? ==> error.id in ids && UnknownTo(file.connections, error.id))
    && (error.WeakPassphrase? ==> Utf8Len(passphrase) < 8)
    && (error.Secret? ==> error.cause.keyRef in FileRefs(Selected(file.connections, ids))
                          && ReadErrorIsTrue(w.slots, fails, error.cause))
  }

  /** Each refusal of an export gives a reason that is true. */
  lemma ExportRefusalIsTrue(w: W, fails: Schedule, file: ConnectionFile, ids: seq<string>, passphrase: string)
    requires ExportBundleOf(w, fails, file, ids, passphrase).1.Err?
    ensures RefusalIsTrue(w, fails, file, ids, passphrase, ExportBundleOf(w, fails, file, ids, passphrase).1.error)
  {
    var refs := RefsInOrder(Selected(file.connections, ids));
    RefsInOrderSpec(Selected(file.connections, ids));
    CollectErrorIsTrue(w, fails, refs, map[]);
    assert forall r | r in refs :: r in set x | x in refs;
  }

  lemma {:induction false} CollectErrorIsTrue(w: W, fails: Schedule, refs: seq<string>, got: map<string, string>)
    ensures var r := Collect(w, fails, refs, got).1;
            r.Err? ==> r.error.keyRef in refs && ReadErrorIsTrue(w.slots, fails, r.error)
    decreases |refs|
  {
    if refs != [] {
      var (w1, r1) := Get(w, fails, refs[0]);
      if r1.Ok? {
        CollectErrorIsTrue(w1, fails, refs[1..], got[refs[0] := r1.value]);
      } else if r1.error.Backend? {
        assert fails(GetEffect, w.tick);
      }
    }
  }

  // -- importing into an empty store ------------------------------------------------------

  function AllNew(entries: seq<ConnectionEntry>): seq<Change> {
    seq(|entries|, i requires 0 <= i < |entries| => Change(None, entries[i]))
  }

  /** Into an empty list, the plan so far has taken all of `entries`. */
  ghost predicate TookAll(p: Plan, entries: seq<ConnectionEntry>) {
    && p.owners == OwnersOf(entries) && p.changes == AllNew(entries)
    && p.accepted == set e | e in entries :: e.id
  }

  lemma FreshStep(mode: ImportMode, secrets: map<string, string>, p: Plan, init: seq<ConnectionEntry>,
                  entry: ConnectionEntry)
    requires TookAll(p, init) && RefSet(entry) !! FileRefs(init) && forall e | e in init :: e.id != entry.id
    ensures TookAll(PlanOne([], mode, secrets, p, entry), init + [entry])
  {
    OwnersCover(init);
    assert forall r | r in EntryRefs(entry) :: r in RefSet(entry);
    assert VerdictOf([], mode, p, entry) == Imported;
    var q := PlanOne([], mode, secrets, p, entry);
    OwnersOfSnoc(init, entry);
    assert q.changes == p.changes + [Change(None, entry)];
    assert AllNew(init + [entry]) == AllNew(init) + [Change(None, entry)];
    assert (set e | e in init + [entry] :: e.id) == (set e | e in init :: e.id) + {entry.id};
  }

  lemma {:induction false} FreshPlanTakesAll(mode: ImportMode, secrets: map<string, string>,
                                             entries: seq<ConnectionEntry>)
    requires UniqueIds(entries) && RefsDisjoint(entries)
    ensures TookAll(PlanAll([], mode, secrets, entries), entries)
    decreases |entries|
  {
    if entries != [] {
      var init, entry := entries[..|entries| - 1], entries[|entries| - 1];
      assert entries == init + [entry];
      forall i, j | 0 <= i < j < |init|
        ensures RefSet(init[i]) !! RefSet(init[j])
      {
        assert RefSet(entries[i]) !! RefSet(entries[j]);
      }
      FreshPlanTakesAll(mode, secrets, init);
      forall e, r | e in init && r in EntryRefs(e)
        ensures r !in RefSet(entry)
      {
        var i :| 0 <= i < |init| && init[i] == e;
        assert RefSet(entries[i]) !! RefSet(entries[|init|]) && r in RefSet(e);
      }
      FreshStep(mode, secrets, PlanAll([], mode, secrets, init), init, entry);
    }
  }

  lemma {:induction false} AppendedOfAllNew(entries: seq<ConnectionEntry>)
    ensures Appended(AllNew(entries)) == entries
    decreases |entries|
  {
    if entries != [] {
      var init := entries[..|entries| - 1];
      AppendedOfAllNew(init);
      assert AllNew(entries)[..|entries| - 1] == AllNew(init);
    }
  }

  /** Merging into an empty list reproduces the bundle if and only if its entries share no ref. */
  lemma FreshMergeIsTheBundleIffDisjoint(payload: BundlePayload, mode: ImportMode)
    requires UniqueIds(payload.connections.connections)
    ensures MergedFile(EMPTY_FILE, payload, mode).connections == payload.connections.connections
            <==> RefsDisjoint(payload.connections.connections)
  {
    var entries := payload.connections.connections;
    MergeKeepsDisjoint(EMPTY_FILE, payload, mode);
    if RefsDisjoint(entries) {
      FreshPlanTakesAll(mode, payload.secrets, entries);
      AppendedOfAllNew(entries);
      PlanAllInv([], mode, payload.secrets, entries);
      MergeAllShape([], PlanFor(EMPTY_FILE, payload, mode).changes);
    }
  }

  lemma NothingReplaced(changes: seq<Change>)
    requires forall c | c in changes :: c.slot.None?
    ensures MergeAll([], changes).replaced == []
  {
  }

  lemma FreshImportSlots(w: W, fails: Schedule, payload: BundlePayload, mode: ImportMode, k: string)
    requires w.slots == map[] && CommitImport(w, fails, EMPTY_FILE, PlanFor(EMPTY_FILE, payload, mode)).result.Ok?
    ensures Lookup(CommitImport(w, fails, EMPTY_FILE, PlanFor(EMPTY_FILE, payload, mode)).world.slots, k)
            == if k in WriteRefs(PlanFor(EMPTY_FILE, payload, mode).writes) then Lookup(payload.secrets, k) else None
  {
    var p := PlanFor(EMPTY_FILE, payload, mode);
    var w1 := SeedAll(w, fails, p.writes).0;
    PlanAllInv([], mode, payload.secrets, payload.connections.connections);
    NothingReplaced(p.changes);
    SeedAllStores(w, fails, p.writes, k);
    LastWriteExists(p.writes, k);
    if LastWrite(p.writes, k).Some? {
      LastWriteIsAWrite(p.writes, k);
    }
  }

  /** A quiet import into an empty store succeeds, and leaves the merged bundle and its secrets. */
  lemma FreshImport(target: W, fails: Schedule, cache: ConnectionFile, payload: BundlePayload, passphrase: string,
                    mode: ImportMode)
    requires target.disk == Absent && target.slots == map[] && QuietFrom(fails, target.tick)
    requires payload.version == BUNDLE_VERSION
    ensures var o := ImportBundle(target, fails, cache, true, Sealed(payload, passphrase), passphrase, mode);
            var p := PlanFor(EMPTY_FILE, payload, mode);
            && o.result.Ok?
            && o.world.disk == (if p.changes == [] then Absent else Present(MergedFile(EMPTY_FILE, payload, mode)))
            && forall k :: Lookup(o.world.slots, k)
                           == if p.changes != [] && k in WriteRefs(p.writes) then Lookup(payload.secrets, k) else None
  {
    var p := PlanFor(EMPTY_FILE, payload, mode);
    var s := Sync(target, fails, cache, true);
    assert s.result.Ok? && s.file == EMPTY_FILE && s.world.slots == map[];
    if p.changes != [] {
      SeedAllLog(s.world, fails, p.writes);
      CommitImportDisk(s.world, fails, EMPTY_FILE, p);
      forall k
        ensures Lookup(CommitImport(s.world, fails, EMPTY_FILE, p).world.slots, k)
                == if k in WriteRefs(p.writes) then Lookup(payload.secrets, k) else None
      {
        FreshImportSlots(s.world, fails, payload, mode, k);
      }
    }
  }

  /** The bundle holds a secret for every ref it names. */
  ghost predicate Closed(payload: BundlePayload) {
    FileRefs(payload.connections.connections) <= payload.secrets.Keys
  }

  lemma {:induction false} ChangesComeFromTheBundle(existing: seq<ConnectionEntry>, mode: ImportMode,
                                                    secrets: map<string, string>, entries: seq<ConnectionEntry>)
    ensures forall c | c in PlanAll(existing, mode, secrets, entries).changes :: c.entry in entries
  {
    if entries != [] {
      ChangesComeFromTheBundle(existing, mode, secrets, entries[..|entries| - 1]);
    }
  }

  /** With a closed bundle every ref of an accepted entry is written. */
  lemma ClosedBundlesSeedEverything(file: ConnectionFile, payload: BundlePayload, mode: ImportMode)
    requires Closed(payload)
    ensures var p := PlanFor(file, payload, mode); WriteRefs(p.writes) == ChangeRefs(p.changes)
  {
    PlanAllInv(file.connections, mode, payload.secrets, payload.connections.connections);
    ChangesComeFromTheBundle(file.connections, mode, payload.secrets, payload.connections.connections);
  }

  /** A bundle that carries exactly its entries' secrets comes back whole if and only if they share no ref. */
  lemma FreshImportIsExactIffDisjoint(target: W, fails: Schedule, cache: ConnectionFile, payload: BundlePayload,
                                      passphrase: string, mode: ImportMode)
    requires target.disk == Absent && target.slots == map[] && QuietFrom(fails, target.tick)
    requires payload.version == BUNDLE_VERSION && UniqueIds(payload.connections.connections)
    requires payload.connections.connections != [] && payload.secrets.Keys == FileRefs(payload.connections.connections)
    ensures var o := ImportBundle(target, fails, cache, true, Sealed(payload, passphrase), passphrase, mode);
            RefsDisjoint(payload.connections.connections) <==>
              && o.world.disk == Present(ConnectionFile(CONFIG_VERSION, None, payload.connections.connections))
              && o.world.slots == payload.secrets
  {
    var entries := payload.connections.connections;
    var o := ImportBundle(target, fails, cache, true, Sealed(payload, passphrase), passphrase, mode);
    FreshImport(target, fails, cache, payload, passphrase, mode);
    FreshMergeIsTheBundleIffDisjoint(payload, mode);
    if RefsDisjoint(entries) {
      var p := PlanFor(EMPTY_FILE, payload, mode);
      FreshPlanTakesAll(mode, payload.secrets, entries);
      ClosedBundlesSeedEverything(EMPTY_FILE, payload, mode);
      AppendedOfAllNew(entries);
      AppendedMembers(p.changes);
      AllNewRefs(entries);
      SameLookups(o.world.slots, payload.secrets);
    }
  }

  lemma AllNewRefs(entries: seq<ConnectionEntry>)
    ensures ChangeRefs(AllNew(entries)) == FileRefs(entries)
  {
    forall e | e in entries
      ensures Change(None, e) in AllNew(entries)
    {
      var i :| 0 <= i < |entries| && entries[i] == e;
      assert AllNew(entries)[i] == Change(None, e);
    }
  }

  /**
   Export, then import into an empty store: the selection comes back entry for
   entry in store order, with exactly its secrets and values, if and only if the
   selected entries share no ref. The permission to export does not travel.
   */
  lemma ExportThenImportIsIdentityIffDisjoint(w: W, fails: Schedule, file: ConnectionFile, ids: seq<string>,
                                              passphrase: string,
                                              target: W, fails': Schedule, cache: ConnectionFile, mode: ImportMode)
    requires Loadable(file) && ids != [] && (forall id | id in ids :: FindIndex(file.connections, id).Some?)
    requires Utf8Len(passphrase) >= MIN_PASSPHRASE_LEN && forall t: nat :: !fails(GetEffect, t)
    requires FileRefs(file.connections) <= w.slots.Keys
    requires target.disk == Absent && target.slots == map[] && QuietFrom(fails', target.tick)
    ensures var selected := Selected(file.connections, ids);
            var blob := ExportBundleOf(w, fails, file, ids, passphrase).1;
            && blob.Ok?
            && var o := ImportBundle(target, fails', cache, true, blob.value, passphrase, mode);
            (RefsDisjoint(selected) <==>
                  && o.world.disk == Present(ConnectionFile(CONFIG_VERSION, None, selected))
                  && o.world.slots == SecretsOf(w.slots, FileRefs(selected)))
  {
    var selected := Selected(file.connections, ids);
    SelectedSpec(file.connections, ids);
    assert FileRefs(selected) <= FileRefs(file.connections);
    ExportSealsTheSelection(w, fails, file, ids, passphrase);
    assert file.connections[FindIndex(file.connections, ids[0]).value] in selected;
    var payload := BundlePayload(BUNDLE_VERSION, ConnectionFile(file.version, None, selected),
                                 SecretsOf(w.slots, FileRefs(selected)));
    FreshImportIsExactIffDisjoint(target, fails', cache, payload, passphrase, mode);
  }
}
