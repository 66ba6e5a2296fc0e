/**
 The two stores an admin writes to, and every effect it can have on them.

 An effect may fail; a failed one changes nothing. Which ones fail is decided
 by a `Schedule`, so a statement about all schedules is a statement about all
 failures. `trace` holds what both stores looked like after each effect, which
 is what a crash at that point would leave behind.
 */
module Machine {
  import opened Wrappers
  import opened Store

  datatype Disk<F> = Absent | Garbage | Present(file: F)

  datatype Snapshot<F> = Snapshot(disk: Disk<F>, slots: map<string, string>)

  datatype World<F> = World(disk: Disk<F>, slots: map<string, string>, tick: nat, trace: seq<Snapshot<F>>)

  datatype Effect = LoadEffect | SaveEffect | GetEffect | SetEffect | DeleteEffect

  /** Does this effect fail when it is the one performed at this tick? */
  type Schedule = (Effect, nat) -> bool

  datatype SecretWrite = SecretWrite(keyRef: string, value: string)

  /** A secret write already made, with what the slot held before it. */
  datatype UndoRecord = UndoRecord(keyRef: string, prior: Option<string>)

  function Now<F>(w: World<F>): Snapshot<F> {
    Snapshot(w.disk, w.slots)
  }

  function Tick<F>(w: World<F>): World<F> {
    w.(tick := w.tick + 1, trace := w.trace + [Now(w)])
  }

  function Lookup(slots: map<string, string>, k: string): Option<string> {
    if k in slots then Some(slots[k]) else None
  }

  function Get<F>(w: World<F>, fails: Schedule, k: string): (World<F>, Result<string, SecretError>) {
    (Tick(w),
     if fails(GetEffect, w.tick) then Err(Backend(k))
     else if k in w.slots then Ok(w.slots[k])
     else Err(SecretNotFound(k)))
  }

  function Set<F>(w: World<F>, fails: Schedule, k: string, v: string): (World<F>, Result<(), SecretError>) {
    if fails(SetEffect, w.tick) then (Tick(w), Err(Backend(k)))
    else (Tick(w.(slots := w.slots[k := v])), Ok(()))
  }

  function Delete<F>(w: World<F>, fails: Schedule, k: string): (World<F>, Result<(), SecretError>) {
    if fails(DeleteEffect, w.tick) then (Tick(w), Err(Backend(k)))
    else if k in w.slots then (Tick(w.(slots := w.slots - {k})), Ok(()))
    else (Tick(w), Err(SecretNotFound(k)))
  }

  function Save<F>(w: World<F>, fails: Schedule, file: F): (World<F>, bool) {
    if fails(SaveEffect, w.tick) then (Tick(w), false)
    else (Tick(w.(disk := Present(file))), true)
  }

  // -- the loops the admins build from single effects ----------------------

  /** Writes in order, stopping at the first that fails; says how many were made. */
  function SetAll<F>(w: World<F>, fails: Schedule, writes: seq<SecretWrite>): (r: (World<F>, nat, Option<SecretError>))
    ensures r.1 <= |writes|
    decreases |writes|
  {
    if writes == [] then (w, 0, None)
    else
      var (w1, r) := Set(w, fails, writes[0].keyRef, writes[0].value);
      if r.Err? then (w1, 0, Some(r.error))
      else
        var (w2, n, e) := SetAll(w1, fails, writes[1..]);
        (w2, n + 1, e)
  }

  /** Best effort: a failed delete is passed over. */
  function DeleteAll<F>(w: World<F>, fails: Schedule, refs: seq<string>): World<F>
    decreases |refs|
  {
    if refs == [] then w else DeleteAll(Delete(w, fails, refs[0]).0, fails, refs[1..])
  }

  function UndoOne<F>(w: World<F>, fails: Schedule, record: UndoRecord): World<F> {
    if record.prior.Some? then Set(w, fails, record.keyRef, record.prior.value).0
    else Delete(w, fails, record.keyRef).0
  }

  /** Undoes the records first to last, each on a best-effort basis. */
  function Replay<F>(w: World<F>, fails: Schedule, undo: seq<UndoRecord>): World<F>
    decreases |undo|
  {
    if undo == [] then w else Replay(UndoOne(w, fails, undo[0]), fails, undo[1..])
  }

  /** A write that first notes what it replaces; a backend error on the read stops it. */
  function ApplyWrite<F>(w: World<F>, fails: Schedule, k: string, v: string)
    : (World<F>, Result<UndoRecord, SecretError>)
  {
    var (w1, found) := Get(w, fails, k);
    if found.Err? && found.error.Backend? then (w1, Err(found.error))
    else
      var (w2, r) := Set(w1, fails, k, v);
      if r.Err? then (w2, Err(r.error))
      else (w2, Ok(UndoRecord(k, if found.Ok? then Some(found.value) else None)))
  }

  /** The import's writes: any failed read, of whatever kind, counts as an empty slot. */
  function SeedAll<F>(w: World<F>, fails: Schedule, writes: seq<SecretWrite>)
    : (World<F>, seq<UndoRecord>, Option<SecretError>)
    decreases |writes|
  {
    if writes == [] then (w, [], None)
    else
      var (w1, found) := Get(w, fails, writes[0].keyRef);
      var (w2, r) := Set(w1, fails, writes[0].keyRef, writes[0].value);
      if r.Err? then (w2, [], Some(r.error))
      else
        var record := UndoRecord(writes[0].keyRef, if found.Ok? then Some(found.value) else None);
        var (w3, undo, e) := SeedAll(w2, fails, writes[1..]);
        (w3, [record] + undo, e)
  }

  /** The process and its disk, keychain and faults. */
  class Host<F> {
    const fails: Schedule
    var disk: Disk<F>
    var slots: map<string, string>
    var tick: nat
    ghost var trace: seq<Snapshot<F>>

    constructor (fails: Schedule, disk: Disk<F>, slots: map<string, string>)
      ensures this.fails == fails && W() == World(disk, slots, 0, [])
    {
      this.fails, this.disk, this.slots, tick, trace := fails, disk, slots, 0, [];
    }

    ghost function W(): World<F>
      reads this
    {
      World(disk, slots, tick, trace)
    }

    method Advance()
      modifies this`tick, this`trace
      ensures W() == Tick(old(W()))
    {
      trace := trace + [Snapshot(disk, slots)];
      tick := tick + 1;
    }

    method GetSecret(k: string) returns (r: Result<string, SecretError>)
      modifies this`tick, this`trace
      ensures (W(), r) == Get(old(W()), fails, k)
    {
      if fails(GetEffect, tick) {
        r := Err(Backend(k));
      } else if k in slots {
        r := Ok(slots[k]);
      } else {
        r := Err(SecretNotFound(k));
      }
      Advance();
    }

    method SetSecret(k: string, v: string) returns (r: Result<(), SecretError>)
      modifies this
      ensures (W(), r) == Set(old(W()), fails, k, v)
    {
      if fails(SetEffect, tick) {
        r := Err(Backend(k));
      } else {
        slots := slots[k := v];
        r := Ok(());
      }
      Advance();
    }

    method DeleteSecret(k: string) returns (r: Result<(), SecretError>)
      modifies this
      ensures (W(), r) == Delete(old(W()), fails, k)
    {
      if fails(DeleteEffect, tick) {
        r := Err(Backend(k));
      } else if k in slots {
        slots := slots - {k};
        r := Ok(());
      } else {
        r := Err(SecretNotFound(k));
      }
      Advance();
    }

    method SaveFile(file: F) returns (saved: bool)
      modifies this
      ensures (W(), saved) == Save(old(W()), fails, file)
    {
      saved := !fails(SaveEffect, tick);
      if saved {
        disk := Present(file);
      }
      Advance();
    }

    method DeleteSecrets(refs: seq<string>)
      modifies this
      ensures W() == DeleteAll(old(W()), fails, refs)
    {
      for i := 0 to |refs|
        invariant DeleteAll(old(W()), fails, refs) == DeleteAll(W(), fails, refs[i..])
      {
        assert refs[i..][1..] == refs[i + 1..];
        var _ := DeleteSecret(refs[i]);
      }
    }

    method ReplayUndo(undo: seq<UndoRecord>)
      modifies this
      ensures W() == Replay(old(W()), fails, undo)
    {
      for i := 0 to |undo|
        invariant Replay(old(W()), fails, undo) == Replay(W(), fails, undo[i..])
      {
        assert undo[i..][1..] == undo[i + 1..];
        var record := undo[i];
        if record.prior.Some? {
          var _ := SetSecret(record.keyRef, record.prior.value);
        } else {
          var _ := DeleteSecret(record.keyRef);
        }
      }
    }

    method WriteSecret(k: string, v: string) returns (r: Result<UndoRecord, SecretError>)
      modifies this
      ensures (W(), r) == ApplyWrite(old(W()), fails, k, v)
    {
      var found := GetSecret(k);
      if found.Err? && found.error.Backend? {
        return Err(found.error);
      }
      var done := SetSecret(k, v);
      if done.Err? {
        return Err(done.error);
      }
      return Ok(UndoRecord(k, if found.Ok? then Some(found.value) else None));
    }
  }

  // -- what an effect can change along the way -----------------------------

  /** Between `w` and the snapshot: the disk is the same, only `touched` slots changed, only `dropped` ones vanished. */
  ghost predicate Within<F>(w: World<F>, s: Snapshot<F>, touched: set<string>, dropped: set<string>) {
    && s.disk == w.disk
    && (forall k | k !in touched :: Lookup(s.slots, k) == Lookup(w.slots, k))
    && w.slots.Keys - dropped <= s.slots.Keys
  }

  /** Every state from `w` to `w'` stays within those bounds. */
  ghost predicate Phase<F>(w: World<F>, w': World<F>, touched: set<string>, dropped: set<string>) {
    && w.trace <= w'.trace && w.tick <= w'.tick
    && Within(w, Now(w'), touched, dropped)
    && forall i | |w.trace| <= i < |w'.trace| :: Within(w, w'.trace[i], touched, dropped)
  }

  lemma PhaseThen<F>(a: World<F>, b: World<F>, c: World<F>, touched: set<string>, dropped: set<string>,
                     touched': set<string>, dropped': set<string>)
    requires Phase(a, b, touched, dropped) && Phase(b, c, touched', dropped')
    ensures Phase(a, c, touched + touched', dropped + dropped')
  {
    forall i | |a.trace| <= i < |c.trace|
      ensures Within(a, c.trace[i], touched + touched', dropped + dropped')
    {
      if i < |b.trace| {
        assert c.trace[i] == b.trace[i];
      }
    }
  }

  function WriteRefs(writes: seq<SecretWrite>): set<string> {
    set x | x in writes :: x.keyRef
  }

  function UndoRefs(undo: seq<UndoRecord>): set<string> {
    set x | x in undo :: x.keyRef
  }

  /** The slots an undo would empty. */
  function Created(undo: seq<UndoRecord>): set<string> {
    set x | x in undo && x.prior.None? :: x.keyRef
  }

  lemma {:induction false} SetAllPhase<F>(w: World<F>, fails: Schedule, writes: seq<SecretWrite>)
    ensures var (w', n, e) := SetAll(w, fails, writes);
            Phase(w, w', WriteRefs(writes), {}) && n <= |writes| && (e.None? <==> n == |writes|)
            && (e.None? ==> WriteRefs(writes) <= w'.slots.Keys)
    decreases |writes|
  {
    if writes != [] {
      var w1 := Set(w, fails, writes[0].keyRef, writes[0].value).0;
      SetAllPhase(w1, fails, writes[1..]);
      var w2 := SetAll(w1, fails, writes[1..]).0;
      assert Phase(w, w1, WriteRefs(writes), {});
      PhaseThen(w, w1, w2, WriteRefs(writes), {}, WriteRefs(writes[1..]), {});
      assert WriteRefs(writes) == WriteRefs(writes) + WriteRefs(writes[1..]);
      assert WriteRefs(writes) == {writes[0].keyRef} + WriteRefs(writes[1..]);
    }
  }

  lemma {:induction false} DeleteAllPhase<F>(w: World<F>, fails: Schedule, refs: seq<string>)
    ensures var s := set r | r in refs; Phase(w, DeleteAll(w, fails, refs), s, s)
    decreases |refs|
  {
    if refs != [] {
      var w1 := Delete(w, fails, refs[0]).0;
      DeleteAllPhase(w1, fails, refs[1..]);
      var s, s1 := set r | r in refs, set r | r in refs[1..];
      assert Phase(w, w1, s, s);
      PhaseThen(w, w1, DeleteAll(w, fails, refs), s, s, s1, s1);
      assert s == s + s1;
    }
  }

  lemma {:induction false} ReplayPhase<F>(w: World<F>, fails: Schedule, undo: seq<UndoRecord>)
    ensures Phase(w, Replay(w, fails, undo), UndoRefs(undo), Created(undo))
    decreases |undo|
  {
    if undo != [] {
      var w1 := UndoOne(w, fails, undo[0]);
      ReplayPhase(w1, fails, undo[1..]);
      assert Phase(w, w1, UndoRefs(undo), Created(undo));
      PhaseThen(w, w1, Replay(w, fails, undo), UndoRefs(undo), Created(undo), UndoRefs(undo[1..]), Created(undo[1..]));
      assert UndoRefs(undo) == UndoRefs(undo) + UndoRefs(undo[1..]);
      assert Created(undo) == Created(undo) + Created(undo[1..]);
    }
  }
}
