/** Who owns what during an import, what gets accepted, and the shape of the merged list. */
module ImportFacts {
  import opened Wrappers
  import opened Store
  import opened Machine
  import opened Protocol
  import opened CrashSafety
  import opened Import

  ghost predicate RefsDisjoint(entries: seq<ConnectionEntry>) {
    forall i, j | 0 <= i < j < |entries| :: RefSet(entries[i]) !! RefSet(entries[j])
  }

  function ChangeRefs(changes: seq<Change>): set<string> {
    set c, r | c in changes && r in EntryRefs(c.entry) :: r
  }

  function ChangeIds(changes: seq<Change>): set<string> {
    set c | c in changes :: c.entry.id
  }

  ghost predicate DistinctChanges(changes: seq<Change>) {
    forall i, j | 0 <= i < j < |changes| :: changes[i].entry.id != changes[j].entry.id
  }

  lemma ClaimSpec(owners: map<string, string>, refs: seq<string>, id: string)
    ensures forall r :: r in Claim(owners, refs, id) <==> r in owners || r in refs
    ensures forall r | r in refs :: Claim(owners, refs, id)[r] == id
    ensures forall r | r in owners && r !in refs :: Claim(owners, refs, id)[r] == owners[r]
  {
  }

  /** Some entry called `id` carries `r`. */
  ghost predicate Carries(entries: seq<ConnectionEntry>, id: string, r: string) {
    exists e | e in entries :: e.id == id && r in EntryRefs(e)
  }

  /** A ref has an owner exactly when some entry carries it, and the owner is such an entry. */
  lemma {:induction false} OwnersCover(entries: seq<ConnectionEntry>)
    ensures OwnersOf(entries).Keys == FileRefs(entries)
    ensures forall r | r in OwnersOf(entries) :: Carries(entries, OwnersOf(entries)[r], r)
  {
    if entries != [] {
      var init, last := entries[..|entries| - 1], entries[|entries| - 1];
      OwnersCover(init);
      assert entries == init + [last];
      FileRefsOfConcat(init, [last]);
      FileRefsOfOne(last);
      ClaimSpec(OwnersOf(init), EntryRefs(last), last.id);
      forall r | r in OwnersOf(entries)
        ensures Carries(entries, OwnersOf(entries)[r], r)
      {
        if r in EntryRefs(last) {
          assert last in entries;
        } else {
          assert Carries(init, OwnersOf(init)[r], r);
          var e :| e in init && e.id == OwnersOf(init)[r] && r in EntryRefs(e);
          assert e in entries;
        }
      }
    }
  }

  /** When no two entries share a ref, each owns its own. */
  lemma {:induction false} OwnersAreExact(entries: seq<ConnectionEntry>, i: nat, r: string)
    requires RefsDisjoint(entries) && i < |entries| && r in EntryRefs(entries[i])
    ensures r in OwnersOf(entries) && OwnersOf(entries)[r] == entries[i].id
    decreases |entries|
  {
    var init, last := entries[..|entries| - 1], entries[|entries| - 1];
    ClaimSpec(OwnersOf(init), EntryRefs(last), last.id);
    if i < |init| {
      assert r in RefSet(entries[i]) && RefSet(entries[i]) !! RefSet(entries[|entries| - 1]);
      forall j, k | 0 <= j < k < |init|
        ensures RefSet(init[j]) !! RefSet(init[k])
      {
        assert RefSet(entries[j]) !! RefSet(entries[k]);
      }
      OwnersAreExact(init, i, r);
    }
  }

  lemma {:induction false} SeedsSpec(secrets: map<string, string>, refs: seq<string>)
    ensures WriteRefs(Seeds(secrets, refs)) == (set r | r in refs && r in secrets)
    ensures forall x | x in Seeds(secrets, refs) :: x.keyRef in secrets && x.value == secrets[x.keyRef]
    decreases |refs|
  {
    if refs != [] {
      SeedsSpec(secrets, refs[1..]);
      var rest := Seeds(secrets, refs[1..]);
      if refs[0] in secrets {
        var x := SecretWrite(refs[0], secrets[refs[0]]);
        assert WriteRefs([x] + rest) == {x.keyRef} + WriteRefs(rest);
      }
    }
  }

  /** One change per accepted id, aimed at the slot that id has; in skip mode only ever a new slot. */
  ghost predicate PlanAims(existing: seq<ConnectionEntry>, mode: ImportMode, p: Plan) {
    && p.accepted == ChangeIds(p.changes)
    && WellAimed(existing, p.changes)
    && (mode.SkipExisting? ==> forall c | c in p.changes :: c.slot.None?)
  }

  /** Ownership only grows: what the store owned stays owned, and each accepted entry owns all it carries. */
  ghost predicate PlanOwns(existing: seq<ConnectionEntry>, p: Plan) {
    && (forall c, r | c in p.changes && r in EntryRefs(c.entry) :: r in p.owners && p.owners[r] == c.entry.id)
    && (forall r | r in OwnersOf(existing) :: r in p.owners && p.owners[r] == OwnersOf(existing)[r])
    && p.owners.Keys == FileRefs(existing) + ChangeRefs(p.changes)
  }

  /** The queued writes are exactly the bundle's secrets for accepted refs. */
  ghost predicate PlanSeeds(secrets: map<string, string>, p: Plan) {
    && WriteRefs(p.writes) == (set r | r in ChangeRefs(p.changes) && r in secrets)
    && (forall x | x in p.writes :: x.keyRef in secrets && x.value == secrets[x.keyRef])
  }

  ghost predicate PlanInv(existing: seq<ConnectionEntry>, mode: ImportMode, secrets: map<string, string>, p: Plan) {
    PlanAims(existing, mode, p) && PlanOwns(existing, p) && PlanSeeds(secrets, p)
  }

  /** The entry is taken as `c`: no earlier copy, nobody else owns its refs. */
  ghost predicate Accepts(existing: seq<ConnectionEntry>, secrets: map<string, string>, p: Plan, c: Change, q: Plan) {
    && c.entry.id !in p.accepted && c.slot == FindIndex(existing, c.entry.id)
    && Collision(p.owners, EntryRefs(c.entry), c.entry.id).None?
    && q.changes == p.changes + [c] && q.writes == p.writes + Seeds(secrets, EntryRefs(c.entry))
    && q.accepted == p.accepted + {c.entry.id} && q.owners == Claim(p.owners, EntryRefs(c.entry), c.entry.id)
  }

  /** One entry changes nothing the invariant speaks of, or is accepted. */
  lemma PlanOneAcceptsOrKeeps(existing: seq<ConnectionEntry>, mode: ImportMode, secrets: map<string, string>,
                              p: Plan, entry: ConnectionEntry)
    ensures var q := PlanOne(existing, mode, secrets, p, entry);
            var c := Change(FindIndex(existing, entry.id), entry);
            || (q.changes == p.changes && q.writes == p.writes && q.accepted == p.accepted && q.owners == p.owners)
            || (Accepts(existing, secrets, p, c, q) && (mode.SkipExisting? ==> c.slot.None?))
  {
  }

  lemma PlanOneKeepsInv(existing: seq<ConnectionEntry>, mode: ImportMode, secrets: map<string, string>,
                        p: Plan, entry: ConnectionEntry)
    requires PlanInv(existing, mode, secrets, p)
    ensures PlanInv(existing, mode, secrets, PlanOne(existing, mode, secrets, p, entry))
  {
    var q := PlanOne(existing, mode, secrets, p, entry);
    var c := Change(FindIndex(existing, entry.id), entry);
    PlanOneAcceptsOrKeeps(existing, mode, secrets, p, entry);
    if Accepts(existing, secrets, p, c, q) {
      AcceptKeepsInv(existing, mode, secrets, p, c, q);
    }
  }

  lemma AcceptKeepsInv(existing: seq<ConnectionEntry>, mode: ImportMode, secrets: map<string, string>, p: Plan,
                       c: Change, q: Plan)
    requires PlanInv(existing, mode, secrets, p) && Accepts(existing, secrets, p, c, q)
             && (mode.SkipExisting? ==> c.slot.None?)
    ensures PlanInv(existing, mode, secrets, q)
  {
    AcceptKeepsAims(existing, mode, secrets, p, c, q);
    AcceptKeepsOwns(existing, secrets, p, c, q);
    AcceptKeepsSeeds(existing, secrets, p, c, q);
  }

  lemma AcceptKeepsSeeds(existing: seq<ConnectionEntry>, secrets: map<string, string>, p: Plan, c: Change, q: Plan)
    requires PlanSeeds(secrets, p) && Accepts(existing, secrets, p, c, q)
    ensures PlanSeeds(secrets, q)
  {
    ChangesGrow(p.changes, c);
    SeedsSpec(secrets, EntryRefs(c.entry));
    assert WriteRefs(q.writes) == WriteRefs(p.writes) + WriteRefs(Seeds(secrets, EntryRefs(c.entry)));
  }

  lemma ChangesGrow(changes: seq<Change>, c: Change)
    ensures forall d :: d in changes + [c] <==> d in changes || d == c
    ensures ChangeIds(changes + [c]) == ChangeIds(changes) + {c.entry.id}
    ensures ChangeRefs(changes + [c]) == ChangeRefs(changes) + RefSet(c.entry)
  {
    assert forall d :: d in changes + [c] <==> d in changes || d == c;
  }

  lemma AcceptKeepsAims(existing: seq<ConnectionEntry>, mode: ImportMode, secrets: map<string, string>,
                        p: Plan, c: Change, q: Plan)
    requires PlanAims(existing, mode, p) && Accepts(existing, secrets, p, c, q)
    requires mode.SkipExisting? ==> c.slot.None?
    ensures PlanAims(existing, mode, q)
  {
    ChangesGrow(p.changes, c);
    forall i | 0 <= i < |p.changes|
      ensures p.changes[i].entry.id != c.entry.id
    {
      assert p.changes[i].entry.id in ChangeIds(p.changes);
    }
  }

  lemma AcceptKeepsOwns(existing: seq<ConnectionEntry>, secrets: map<string, string>, p: Plan, c: Change, q: Plan)
    requires PlanOwns(existing, p) && Accepts(existing, secrets, p, c, q)
    ensures PlanOwns(existing, q)
  {
    ChangesGrow(p.changes, c);
    ClaimSpec(p.owners, EntryRefs(c.entry), c.entry.id);
    forall d, r | d in q.changes && r in EntryRefs(d.entry)
      ensures r in q.owners && q.owners[r] == d.entry.id
    {
      if d in p.changes {
        assert r in p.owners && p.owners[r] == d.entry.id;
      }
    }
  }

  lemma {:induction false} PlanAllInv(existing: seq<ConnectionEntry>, mode: ImportMode, secrets: map<string, string>,
                                      entries: seq<ConnectionEntry>)
    ensures PlanInv(existing, mode, secrets, PlanAll(existing, mode, secrets, entries))
  {
    if entries == [] {
      OwnersCover(existing);
    } else {
      PlanAllInv(existing, mode, secrets, entries[..|entries| - 1]);
      PlanOneKeepsInv(existing, mode, secrets, PlanAll(existing, mode, secrets, entries[..|entries| - 1]),
          entries[|entries| - 1]);
    }
  }

  // -- the merged list ---------------------------------------------------------------

  function Appended(changes: seq<Change>): seq<ConnectionEntry> {
    if changes == [] then []
    else
      var init, last := changes[..|changes| - 1], changes[|changes| - 1];
      if last.slot.None? then Appended(init) + [last.entry] else Appended(init)
  }

  /** Each change names the slot its id has in the list it is merged into, and no id twice. */
  ghost predicate WellAimed(existing: seq<ConnectionEntry>, changes: seq<Change>) {
    && DistinctChanges(changes)
    && forall c | c in changes :: c.slot == FindIndex(existing, c.entry.id)
  }

  /** Position by position: replaced where a change aims, otherwise as before, then the appended entries. */
  ghost predicate MergedShape(existing: seq<ConnectionEntry>, changes: seq<Change>, m: Merge) {
    && |existing| <= |m.connections|
    && m.connections[|existing|..] == Appended(changes)
    && (forall c | c in changes && c.slot.Some? :: c.slot.value < |existing| && m.connections[c.slot.value] == c.entry)
    && (forall i | 0 <= i < |existing| ::
          m.connections[i] == existing[i] || Change(Some(i), m.connections[i]) in changes)
    && (forall r | r in m.replaced :: r.index < |existing| && r.entry == existing[r.index]
                                      && Change(Some(r.index), m.connections[r.index]) in changes)
    && (forall c | c in changes && c.slot.Some? :: Replaced(c.slot.value, existing[c.slot.value]) in m.replaced)
  }

  lemma ReplacingKeepsShape(existing: seq<ConnectionEntry>, init: seq<Change>, last: Change, before: Merge)
    requires MergedShape(existing, init, before) && last.slot.Some? && last.slot.value < |existing|
    requires forall c | c in init :: c.slot != last.slot
    ensures MergedShape(existing, init + [last], MergeOne(before, last))
  {
    var k, m := last.slot.value, MergeOne(before, last);
    assert Change(Some(k), before.connections[k]) !in init;
    assert (init + [last])[..|init|] == init;
    assert m.connections[|existing|..] == before.connections[|existing|..];
  }

  lemma AppendingKeepsShape(existing: seq<ConnectionEntry>, init: seq<Change>, last: Change, before: Merge)
    requires MergedShape(existing, init, before) && last.slot.None?
    ensures MergedShape(existing, init + [last], MergeOne(before, last))
  {
    assert (init + [last])[..|init|] == init;
    assert MergeOne(before, last).connections[|existing|..] == before.connections[|existing|..] + [last.entry];
  }

  /** The last change aims where no other does. */
  lemma LastAimsElsewhere(existing: seq<ConnectionEntry>, init: seq<Change>, last: Change)
    requires WellAimed(existing, init + [last])
    ensures WellAimed(existing, init) && last.slot == FindIndex(existing, last.entry.id)
    ensures last.slot.Some? ==> forall c | c in init :: c.slot != last.slot
  {
    var changes := init + [last];
    assert last in changes && forall c | c in init :: c in changes;
    assert forall i | 0 <= i < |init| :: changes[i] == init[i];
    forall c | c in init && last.slot.Some?
      ensures c.slot != last.slot
    {
      var i :| 0 <= i < |init| && init[i] == c;
      assert changes[i].entry.id != changes[|init|].entry.id;
    }
  }

  lemma {:induction false} MergeAllShape(existing: seq<ConnectionEntry>, changes: seq<Change>)
    requires WellAimed(existing, changes)
    ensures MergedShape(existing, changes, MergeAll(existing, changes))
  {
    if changes != [] {
      var init, last := changes[..|changes| - 1], changes[|changes| - 1];
      assert changes == init + [last];
      LastAimsElsewhere(existing, init, last);
      MergeAllShape(existing, init);
      if last.slot.Some? {
        ReplacingKeepsShape(existing, init, last, MergeAll(existing, init));
      } else {
        AppendingKeepsShape(existing, init, last, MergeAll(existing, init));
      }
    }
  }

  lemma {:induction false} AppendedComeFromChanges(changes: seq<Change>)
    ensures forall e :: e in Appended(changes) <==> Change(None, e) in changes
  {
    if changes != [] {
      var init, last := changes[..|changes| - 1], changes[|changes| - 1];
      AppendedComeFromChanges(init);
      assert changes == init + [last];
    }
  }

  lemma {:induction false} AppendedAreUnique(changes: seq<Change>)
    requires DistinctChanges(changes)
    ensures UniqueIds(Appended(changes))
  {
    if changes != [] {
      var init, last := changes[..|changes| - 1], changes[|changes| - 1];
      AppendedAreUnique(init);
      AppendedComeFromChanges(init);
      if last.slot.None? {
        forall i | 0 <= i < |Appended(init)|
          ensures Appended(init)[i].id != last.entry.id
        {
          assert Appended(init)[i] in Appended(init);
          var j :| 0 <= j < |init| && init[j] == Change(None, Appended(init)[i]);
          assert changes[j].entry.id != last.entry.id;
        }
      }
    }
  }

  lemma AppendedMembers(changes: seq<Change>)
    ensures forall e :: e in Appended(changes) <==> Change(None, e) in changes
    ensures DistinctChanges(changes) ==> UniqueIds(Appended(changes))
  {
    AppendedComeFromChanges(changes);
    if DistinctChanges(changes) {
      AppendedAreUnique(changes);
    }
  }

  lemma ChangesAreMerged(existing: seq<ConnectionEntry>, changes: seq<Change>)
    requires WellAimed(existing, changes)
    ensures forall c | c in changes :: c.entry in MergeAll(existing, changes).connections
  {
    var merged := MergeAll(existing, changes).connections;
    MergeAllShape(existing, changes);
    AppendedMembers(changes);
    assert merged == merged[..|existing|] + Appended(changes);
    forall c | c in changes
      ensures c.entry in merged
    {
      if c.slot.None? {
        assert c == Change(None, c.entry);
        assert c.entry in Appended(changes);
      }
    }
  }

  lemma UnaimedAreMerged(existing: seq<ConnectionEntry>, changes: seq<Change>)
    requires WellAimed(existing, changes)
    ensures forall e | e in existing && e.id !in ChangeIds(changes) :: e in MergeAll(existing, changes).connections
  {
    var merged := MergeAll(existing, changes).connections;
    MergeAllShape(existing, changes);
    forall e | e in existing && e.id !in ChangeIds(changes)
      ensures e in merged
    {
      var i :| 0 <= i < |existing| && existing[i] == e;
      assert Change(Some(i), merged[i]) !in changes;
    }
  }

  /** Whatever the ids, every merged entry is a change or was there. */
  lemma MergedComeFromBoth(existing: seq<ConnectionEntry>, changes: seq<Change>)
    requires WellAimed(existing, changes)
    ensures forall e | e in MergeAll(existing, changes).connections ::
               (exists c | c in changes :: c.entry == e) || e in existing
  {
    var merged := MergeAll(existing, changes).connections;
    MergeAllShape(existing, changes);
    forall e | e in merged
      ensures (exists c | c in changes :: c.entry == e) || e in existing
    {
      var i :| 0 <= i < |merged| && merged[i] == e;
      if i >= |existing| {
        TailIsAppended(existing, changes, i);
      } else if e != existing[i] {
        assert Change(Some(i), e) in changes;
      }
    }
  }

  /** An entry that is where it was, although a change aims at its id, is that change's. */
  lemma KeptOrChanged(existing: seq<ConnectionEntry>, changes: seq<Change>, i: nat)
    requires WellAimed(existing, changes) && UniqueIds(existing) && i < |existing|
    ensures var m := MergeAll(existing, changes).connections;
            i < |m| && m[i].id == existing[i].id
            && ((exists c | c in changes :: c.entry == m[i])
                || (m[i] == existing[i] && existing[i].id !in ChangeIds(changes)))
  {
    var merged := MergeAll(existing, changes).connections;
    MergeAllShape(existing, changes);
    if merged[i] != existing[i] {
      assert Change(Some(i), merged[i]) in changes;
    } else if existing[i].id in ChangeIds(changes) {
      var c :| c in changes && c.entry.id == existing[i].id;
      var k := FindIndex(existing, c.entry.id).value;
      assert k == i;
    }
  }

  lemma TailIsAppended(existing: seq<ConnectionEntry>, changes: seq<Change>, i: nat)
    requires WellAimed(existing, changes) && |existing| <= i < |MergeAll(existing, changes).connections|
    ensures Change(None, MergeAll(existing, changes).connections[i]) in changes
  {
    var merged := MergeAll(existing, changes).connections;
    MergeAllShape(existing, changes);
    AppendedComeFromChanges(changes);
    assert merged[i] == merged[|existing|..][i - |existing|];
    assert merged[i] in Appended(changes);
  }

  lemma NothingElseIsMerged(existing: seq<ConnectionEntry>, changes: seq<Change>)
    requires WellAimed(existing, changes) && UniqueIds(existing)
    ensures forall e | e in MergeAll(existing, changes).connections ::
              (exists c | c in changes :: c.entry == e) || (e in existing && e.id !in ChangeIds(changes))
  {
    var merged := MergeAll(existing, changes).connections;
    forall e | e in merged
      ensures (exists c | c in changes :: c.entry == e) || (e in existing && e.id !in ChangeIds(changes))
    {
      var i :| 0 <= i < |merged| && merged[i] == e;
      if i < |existing| {
        KeptOrChanged(existing, changes, i);
      } else {
        TailIsAppended(existing, changes, i);
      }
    }
  }

  lemma MergeKeepsUniqueIds(existing: seq<ConnectionEntry>, changes: seq<Change>)
    requires WellAimed(existing, changes) && UniqueIds(existing)
    ensures UniqueIds(MergeAll(existing, changes).connections)
  {
    var merged, appended := MergeAll(existing, changes).connections, Appended(changes);
    MergeAllShape(existing, changes);
    AppendedMembers(changes);
    assert merged == merged[..|existing|] + appended;
    forall i, j | 0 <= i < j < |merged|
      ensures merged[i].id != merged[j].id
    {
      if i < |existing| {
        KeptOrChanged(existing, changes, i);
      }
      if j < |existing| {
        KeptOrChanged(existing, changes, j);
      } else {
        var e := appended[j - |existing|];
        assert merged[j] == e && Change(None, e) in changes;
        if i >= |existing| {
          assert merged[i] == appended[i - |existing|];
        } else {
          assert existing[i] in existing;
        }
      }
    }
  }

  /** Every merged entry is a change or an entry no change aims at, and all of these are merged. */
  lemma MergedMembers(existing: seq<ConnectionEntry>, changes: seq<Change>)
    requires WellAimed(existing, changes) && UniqueIds(existing)
    ensures var merged := MergeAll(existing, changes).connections;
            && (forall c | c in changes :: c.entry in merged)
            && (forall e | e in merged ::
                  (exists c | c in changes :: c.entry == e) || (e in existing && e.id !in ChangeIds(changes)))
            && (forall e | e in existing && e.id !in ChangeIds(changes) :: e in merged)
            && UniqueIds(merged)
  {
    ChangesAreMerged(existing, changes);
    UnaimedAreMerged(existing, changes);
    NothingElseIsMerged(existing, changes);
    MergeKeepsUniqueIds(existing, changes);
  }
}
