/** When replaying an undo log first to last really restores what was there. */
module UndoLog {
  import opened Wrappers
  import opened Store
  import opened Machine

  ghost predicate DistinctUndo(undo: seq<UndoRecord>) {
    forall i, j | 0 <= i < j < |undo| :: undo[i].keyRef != undo[j].keyRef
  }

  ghost predicate DistinctWrites(writes: seq<SecretWrite>) {
    forall i, j | 0 <= i < j < |writes| :: writes[i].keyRef != writes[j].keyRef
  }

  /**
   `undo` tells the truth about how `before` became `after`: other slots are
   untouched, every recorded slot is full now, a slot said to be created was
   empty, and with no repeated ref every prior is what `before` held.
   */
  ghost predicate Accurate(before: map<string, string>, undo: seq<UndoRecord>, after: map<string, string>) {
    && (forall x | x in undo :: x.keyRef in after && (x.prior.None? ==> x.keyRef !in before))
    && (forall k | k !in UndoRefs(undo) :: Lookup(after, k) == Lookup(before, k))
    && (DistinctUndo(undo) ==> forall x | x in undo :: x.prior == Lookup(before, x.keyRef))
  }

  lemma AccurateThen(a: map<string, string>, undo: seq<UndoRecord>, b: map<string, string>,
                     undo': seq<UndoRecord>, c: map<string, string>)
    requires Accurate(a, undo, b) && Accurate(b, undo', c)
    ensures Accurate(a, undo + undo', c)
  {
    var all := undo + undo';
    forall x | x in all
      ensures x.keyRef in c && (x.prior.None? ==> x.keyRef !in a)
    {
      assert Lookup(c, x.keyRef) == Lookup(b, x.keyRef) || x.keyRef in UndoRefs(undo');
      assert Lookup(b, x.keyRef) == Lookup(a, x.keyRef) || x.keyRef in UndoRefs(undo);
    }
    assert UndoRefs(all) == UndoRefs(undo) + UndoRefs(undo');
    if DistinctUndo(all) {
      assert forall i | 0 <= i < |undo| :: undo[i] == all[i];
      assert forall i | 0 <= i < |undo'| :: undo'[i] == all[|undo| + i];
      forall x | x in undo'
        ensures x.prior == Lookup(a, x.keyRef)
      {
        assert x.keyRef !in UndoRefs(undo);
      }
    }
  }

  lemma OneWriteIsAccurate(before: map<string, string>, k: string, v: string)
    ensures Accurate(before, [UndoRecord(k, Lookup(before, k))], before[k := v])
  {
  }

  /** The named effect never fails while the clock runs from `lo` to `hi`. */
  ghost predicate NeverIn(fails: Schedule, effect: Effect, lo: nat, hi: int) {
    forall t: nat | lo <= t < hi :: !fails(effect, t)
  }

  ghost predicate QuietFrom(fails: Schedule, lo: nat) {
    forall e, t: nat | lo <= t :: !fails(e, t)
  }

  /** At most one effect fails from tick `lo` on. */
  ghost predicate OneFault(fails: Schedule, lo: nat) {
    forall e, t: nat, e', t': nat | lo <= t && lo <= t' && fails(e, t) && fails(e', t') :: t == t'
  }

  lemma QuietAfterFault(fails: Schedule, lo: nat, effect: Effect, t: nat)
    requires OneFault(fails, lo) && lo <= t && fails(effect, t)
    ensures QuietFrom(fails, t + 1)
    ensures forall e, t' | lo <= t' < t :: !fails(e, t')
  {
  }

  /** One write of an edit: refused with nothing changed, or made with a truthful record. */
  lemma ApplyWriteAccurate<F>(w: World<F>, fails: Schedule, k: string, v: string)
    ensures var (w', r) := ApplyWrite(w, fails, k, v);
            && Phase(w, w', if r.Ok? then {k} else {}, {})
            && (r.Err? ==> w'.slots == w.slots)
            && (r.Err? && OneFault(fails, w.tick) ==> QuietFrom(fails, w'.tick))
            && (r.Ok? ==> r.value.keyRef == k && w'.slots == w.slots[k := v] && Accurate(w.slots, [r.value], w'.slots))
  {
    var (w1, found) := Get(w, fails, k);
    assert Phase(w, w1, {}, {});
    if found.Ok? || found.error.SecretNotFound? {
      var (w2, r) := Set(w1, fails, k, v);
      var touched := if r.Ok? then {k} else {};
      assert Phase(w1, w2, touched, {});
      PhaseThen(w, w1, w2, {}, {}, touched, {});
      assert {} + touched == touched;
      OneWriteIsAccurate(w.slots, k, v);
    }
  }

  /** The import's writes touch only their own slots and empty none. */
  lemma {:induction false} SeedAllPhase<F>(w: World<F>, fails: Schedule, writes: seq<SecretWrite>)
    ensures Phase(w, SeedAll(w, fails, writes).0, WriteRefs(writes), {})
    decreases |writes|
  {
    if writes != [] {
      var w1 := Get(w, fails, writes[0].keyRef).0;
      var (w2, r) := Set(w1, fails, writes[0].keyRef, writes[0].value);
      var refs, later := WriteRefs(writes), WriteRefs(writes[1..]);
      assert writes[0] in writes;
      assert Phase(w, w1, refs, {}) && Phase(w1, w2, refs, {});
      PhaseThen(w, w1, w2, refs, {}, refs, {});
      assert refs + refs == refs;
      if r.Ok? {
        SeedAllPhase(w2, fails, writes[1..]);
        PhaseThen(w, w2, SeedAll(w2, fails, writes[1..]).0, refs, {}, later, {});
        assert refs + later == refs;
      }
    }
  }

  /** The log lists the writes made so far; a stop means the last write failed. */
  lemma {:induction false} SeedAllLog<F>(w: World<F>, fails: Schedule, writes: seq<SecretWrite>)
    ensures var (w', undo, e) := SeedAll(w, fails, writes);
            && |undo| <= |writes| && (e.None? <==> |undo| == |writes|)
            && (forall i | 0 <= i < |undo| :: undo[i].keyRef == writes[i].keyRef)
            && w.tick <= w'.tick && (e.Some? ==> w.tick < w'.tick && fails(SetEffect, w'.tick - 1))
    decreases |writes|
  {
    if writes != [] {
      var (w2, r) := Set(Get(w, fails, writes[0].keyRef).0, fails, writes[0].keyRef, writes[0].value);
      if r.Ok? {
        SeedAllLog(w2, fails, writes[1..]);
      }
    }
  }

  /** With honest reads the log the import keeps is truthful. Its last effect is always a write, never a read. */
  lemma {:induction false} SeedAllAccurate<F>(w: World<F>, fails: Schedule, writes: seq<SecretWrite>)
    requires NeverIn(fails, GetEffect, w.tick, SeedAll(w, fails, writes).0.tick - 1)
    ensures Accurate(w.slots, SeedAll(w, fails, writes).1, SeedAll(w, fails, writes).0.slots)
    decreases |writes|
  {
    if writes != [] {
      var k, v := writes[0].keyRef, writes[0].value;
      var (w2, r) := Set(Get(w, fails, k).0, fails, k, v);
      if r.Ok? {
        SeedAllLog(w2, fails, writes[1..]);
        var (w3, undo, _) := SeedAll(w2, fails, writes[1..]);
        assert !fails(GetEffect, w.tick);
        SeedAllAccurate(w2, fails, writes[1..]);
        OneWriteIsAccurate(w.slots, k, v);
        AccurateThen(w.slots, [UndoRecord(k, Lookup(w.slots, k))], w2.slots, undo, w3.slots);
      }
    }
  }

  /** When none fails, each slot ends up holding the last value written to it. */
  lemma {:induction false} SeedAllStores<F>(w: World<F>, fails: Schedule, writes: seq<SecretWrite>, k: string)
    requires SeedAll(w, fails, writes).2.None?
    ensures Lookup(SeedAll(w, fails, writes).0.slots, k)
            == if LastWrite(writes, k).Some? then LastWrite(writes, k) else Lookup(w.slots, k)
    decreases |writes|
  {
    if writes != [] {
      var w2 := Set(Get(w, fails, writes[0].keyRef).0, fails, writes[0].keyRef, writes[0].value).0;
      SeedAllStores(w2, fails, writes[1..], k);
    }
  }

  /** What the last write to `k` stored. */
  function LastWrite(writes: seq<SecretWrite>, k: string): Option<string> {
    if writes == [] then None
    else
      var later := LastWrite(writes[1..], k);
      if later.Some? then later
      else if writes[0].keyRef == k then Some(writes[0].value)
      else None
  }

  /** What an undo consists of never fails from `lo` on. */
  ghost predicate UndoWorks(fails: Schedule, lo: nat) {
    forall t: nat | lo <= t :: !fails(SetEffect, t) && !fails(DeleteEffect, t)
  }

  /**
   A log that names every changed slot and what `before` held there, replayed without
   failures, restores every slot.
   */
  lemma {:induction false} ReplayRestores<F>(w: World<F>, fails: Schedule, undo: seq<UndoRecord>,
                                             before: map<string, string>)
    requires UndoWorks(fails, w.tick)
    requires forall x | x in undo :: x.prior == Lookup(before, x.keyRef)
    requires forall k | k !in UndoRefs(undo) :: Lookup(w.slots, k) == Lookup(before, k)
    ensures Replay(w, fails, undo).slots == before
    decreases |undo|
  {
    if undo == [] {
      SameLookups(w.slots, before);
    } else {
      var w1 := UndoOne(w, fails, undo[0]);
      var rest := undo[1..];
      assert undo[0] in undo;
      assert Lookup(w1.slots, undo[0].keyRef) == Lookup(before, undo[0].keyRef);
      forall k | k !in UndoRefs(rest)
        ensures Lookup(w1.slots, k) == Lookup(before, k)
      {
        if k != undo[0].keyRef { assert k !in UndoRefs(undo); }
      }
      ReplayRestores(w1, fails, rest, before);
    }
  }

  lemma SameLookups(a: map<string, string>, b: map<string, string>)
    requires forall k :: Lookup(a, k) == Lookup(b, k)
    ensures a == b
  {
    assert forall k :: k in a <==> Lookup(a, k).Some?;
    assert forall k :: k in b <==> Lookup(b, k).Some?;
    assert forall k | k in a :: a[k] == Lookup(a, k).value;
  }

  // -- when a repeated ref does no harm ------------------------------------------

  /** Two writes to one slot write the same value. */
  ghost predicate SameValues(writes: seq<SecretWrite>) {
    forall i, j | 0 <= i < j < |writes| && writes[i].keyRef == writes[j].keyRef :: writes[i].value == writes[j].value
  }

  /** A slot that is written twice holds the value already. */
  ghost predicate RepeatsHold(writes: seq<SecretWrite>, slots: map<string, string>) {
    forall i, j | 0 <= i < j < |writes| && writes[i].keyRef == writes[j].keyRef ::
      Lookup(slots, writes[i].keyRef) == Some(writes[i].value)
  }

  lemma RepeatsHoldFurtherOn(writes: seq<SecretWrite>, slots: map<string, string>)
    requires writes != [] && SameValues(writes) && RepeatsHold(writes, slots)
    ensures SameValues(writes[1..]) && RepeatsHold(writes[1..], slots[writes[0].keyRef := writes[0].value])
  {
    var rest := writes[1..];
    assert forall i | 0 <= i < |rest| :: rest[i] == writes[i + 1];
  }

  /** Then every record the import's log keeps says what its slot held before the import. */
  lemma {:induction false} SeedPriorsHold<F>(w: World<F>, fails: Schedule, writes: seq<SecretWrite>)
    requires NeverIn(fails, GetEffect, w.tick, SeedAll(w, fails, writes).0.tick - 1)
    requires SameValues(writes) && RepeatsHold(writes, w.slots)
    ensures forall x | x in SeedAll(w, fails, writes).1 :: x.prior == Lookup(w.slots, x.keyRef)
    decreases |writes|
  {
    if writes != [] {
      var k, v := writes[0].keyRef, writes[0].value;
      var (w2, r) := Set(Get(w, fails, k).0, fails, k, v);
      if r.Ok? {
        SeedAllLog(w2, fails, writes[1..]);
        assert !fails(GetEffect, w.tick);
        RepeatsHoldFurtherOn(writes, w.slots);
        SeedPriorsHold(w2, fails, writes[1..]);
        var undo := SeedAll(w2, fails, writes[1..]).1;
        forall m | 0 <= m < |undo| ensures undo[m].prior == Lookup(w.slots, undo[m].keyRef) {
          assert undo[m] in undo && undo[m].keyRef == writes[1..][m].keyRef == writes[m + 1].keyRef;
        }
      }
    }
  }

  /** The last record of a slot that was written before notes the value written then. */
  lemma {:induction false} RepeatIsRecorded<F>(w: World<F>, fails: Schedule, writes: seq<SecretWrite>, m: nat,
                                               v: string)
    requires m < |writes| && SeedAll(w, fails, writes).2.None?
    requires NeverIn(fails, GetEffect, w.tick, SeedAll(w, fails, writes).0.tick - 1)
    requires forall i | 0 <= i < m && writes[i].keyRef == writes[m].keyRef :: writes[i].value == v
    requires Lookup(w.slots, writes[m].keyRef) == Some(v) || exists i | 0 <= i < m ::
               writes[i].keyRef == writes[m].keyRef
    ensures m < |SeedAll(w, fails, writes).1| && SeedAll(w, fails, writes).1[m] == UndoRecord(writes[m].keyRef, Some(v))
    decreases |writes|
  {
    var w2 := Set(Get(w, fails, writes[0].keyRef).0, fails, writes[0].keyRef, writes[0].value).0;
    SeedAllLog(w2, fails, writes[1..]);
    assert !fails(GetEffect, w.tick);
    if m > 0 {
      assert forall i | 0 <= i < |writes| - 1 :: writes[1..][i] == writes[i + 1];
      RepeatIsRecorded(w2, fails, writes[1..], m - 1, v);
    }
  }

  // -- why the refs must not repeat -------------------------------------------

  const NEVER: Schedule := (e: Effect, t: nat) => false

  /** Slots after writing `writes` the import's way and then undoing it all, with nothing failing. */
  function SeededAndUndone(slots: map<string, string>, writes: seq<SecretWrite>): map<string, string> {
    var (w, undo, _) := SeedAll<()>(World(Absent, slots, 0, []), NEVER, writes);
    Replay(w, NEVER, undo).slots
  }

  lemma {:induction false} ReplayEndsOnLastRecord<F>(w: World<F>, fails: Schedule, undo: seq<UndoRecord>, m: nat)
    requires m < |undo| && forall i | m < i < |undo| :: undo[i].keyRef != undo[m].keyRef
    requires UndoWorks(fails, w.tick)
    ensures Lookup(Replay(w, fails, undo).slots, undo[m].keyRef) == undo[m].prior
    decreases |undo|
  {
    var w1 := UndoOne(w, fails, undo[0]);
    if m == 0 {
      ReplayPhase(w1, fails, undo[1..]);
      assert undo[0].keyRef !in UndoRefs(undo[1..]);
    } else {
      ReplayEndsOnLastRecord(w1, fails, undo[1..], m - 1);
    }
  }

  /** A slot that is written again is recorded as full the second time. */
  lemma {:induction false} SeedRecords<F>(w: World<F>, writes: seq<SecretWrite>, m: nat)
    requires m < |writes|
    ensures var (_, undo, _) := SeedAll(w, NEVER, writes);
            |undo| == |writes| && undo[m].keyRef == writes[m].keyRef
            && (undo[m].prior.None? ==>
                  writes[m].keyRef !in w.slots && forall i | 0 <= i < m :: writes[i].keyRef != writes[m].keyRef)
    decreases |writes|
  {
    var w2 := Set(Get(w, NEVER, writes[0].keyRef).0, NEVER, writes[0].keyRef, writes[0].value).0;
    if m == 0 {
      SeedAllLog(w2, NEVER, writes[1..]);
    } else {
      SeedRecords(w2, writes[1..], m - 1);
      assert writes[1..][m - 1] == writes[m];
    }
  }

  function LastIndex(writes: seq<SecretWrite>, k: string): (m: nat)
    requires exists i | 0 <= i < |writes| :: writes[i].keyRef == k
    ensures m < |writes| && writes[m].keyRef == k && forall i | m < i < |writes| :: writes[i].keyRef != k
  {
    if writes[|writes| - 1].keyRef == k then |writes| - 1 else LastIndex(writes[..|writes| - 1], k)
  }

  /**
   The undo runs forwards, so it is exact whatever the slots held if and only
   if no ref is written twice. With a repeat, an empty keychain already ends up
   holding the first of the two new values.
   */
  lemma ForwardUndoIsExactIffNoRefRepeats(writes: seq<SecretWrite>)
    ensures (forall slots :: SeededAndUndone(slots, writes) == slots) <==> DistinctWrites(writes)
  {
    if DistinctWrites(writes) {
      forall slots
        ensures SeededAndUndone(slots, writes) == slots
      {
        var w0: World<()> := World(Absent, slots, 0, []);
        SeedAllLog(w0, NEVER, writes);
        SeedAllAccurate(w0, NEVER, writes);
        var (w, undo, _) := SeedAll(w0, NEVER, writes);
        ReplayRestores(w, NEVER, undo, slots);
      }
    } else {
      var i, j :| 0 <= i < j < |writes| && writes[i].keyRef == writes[j].keyRef;
      var k := writes[i].keyRef;
      var m := LastIndex(writes, k);
      assert i < m;
      var w0: World<()> := World(Absent, map[], 0, []);
      var (w, undo, _) := SeedAll(w0, NEVER, writes);
      SeedAllLog(w0, NEVER, writes);
      SeedRecords(w0, writes, m);
      assert undo[m].prior.Some?;
      ReplayEndsOnLastRecord(w, NEVER, undo, m);
      assert k in SeededAndUndone(map[], writes);
    }
  }
}
