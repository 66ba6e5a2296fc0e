/**
 Saving through a sibling temp file. The connection, provider and annotation
 stores refuse a temp file somebody left behind; the saved-query and UI-command
 stores remove it first.
 */
module AtomicSave {
  import opened Wrappers

  type Bytes = seq<int>

  /** The file and its `.tmp` sibling, each absent or holding some bytes. */
  datatype Dir = Dir(target: Option<Bytes>, temp: Option<Bytes>)

  datatype FsEffect = MakeParent | RemoveTemp | CreateTemp | WriteByte | SyncTemp | Rename

  type FsSchedule = (FsEffect, nat) -> bool

  /** `trace` holds the directory after each effect: what a crash there leaves. */
  datatype Fs = Fs(dir: Dir, tick: nat, trace: seq<Dir>)

  datatype Policy = RefuseStaleTemp | RemoveStaleTemp

  /** One effect: `next` if it does not fail, otherwise nothing. */
  function Step(fs: Fs, fails: FsSchedule, effect: FsEffect, next: Dir): (Fs, bool) {
    var ok := !fails(effect, fs.tick);
    var dir := if ok then next else fs.dir;
    (Fs(dir, fs.tick + 1, fs.trace + [dir]), ok)
  }

  /**
   Appends the contents to the temp file byte by byte: whatever chunks the system
   takes, these are the cuts between them.
   */
  function WriteAll(fs: Fs, fails: FsSchedule, contents: Bytes): (Fs, bool)
    requires fs.dir.temp.Some?
    decreases |contents|
  {
    if contents == [] then (fs, true)
    else
      var (fs1, ok) := Step(fs, fails, WriteByte, fs.dir.(temp := Some(fs.dir.temp.value + [contents[0]])));
      if ok then WriteAll(fs1, fails, contents[1..]) else (fs1, false)
  }

  /** An exclusive create: refused, changing nothing, when the temp file is there. */
  function CreateNew(fs: Fs, fails: FsSchedule): (r: (Fs, bool))
    ensures r.1 ==> r.0.dir.temp == Some([])
  {
    if fs.dir.temp.Some? then (Fs(fs.dir, fs.tick + 1, fs.trace + [fs.dir]), false)
    else Step(fs, fails, CreateTemp, fs.dir.(temp := Some([])))
  }

  function SaveAtomic(fs: Fs, fails: FsSchedule, policy: Policy, contents: Bytes): (Fs, bool) {
    var (fs1, made) := Step(fs, fails, MakeParent, fs.dir);
    if !made then (fs1, false)
    else
      var fs2 := if policy.RemoveStaleTemp? then Step(fs1, fails, RemoveTemp, fs1.dir.(temp := None)).0 else fs1;
      var (fs3, created) := CreateNew(fs2, fails);
      if !created then (fs3, false)
      else
        var (fs4, written) := WriteAll(fs3, fails, contents);
        if !written then (fs4, false)
        else
          var (fs5, synced) := Step(fs4, fails, SyncTemp, fs4.dir);
          if !synced then (fs5, false)
          else
            var (fs6, renamed) := Step(fs5, fails, Rename, Dir(fs5.dir.temp, None));
            if renamed then (fs6, true)
            else (Step(fs6, fails, RemoveTemp, fs6.dir.(temp := None)).0, false)
  }

  /** The same save as it runs, on a directory that is changed in place. */
  class Folder {
    const fails: FsSchedule
    var dir: Dir
    var tick: nat
    ghost var trace: seq<Dir>

    constructor (fails: FsSchedule, dir: Dir)
      ensures this.fails == fails && S() == Fs(dir, 0, [])
    {
      this.fails, this.dir, tick, trace := fails, dir, 0, [];
    }

    ghost function S(): Fs
      reads this
    {
      Fs(dir, tick, trace)
    }

    method Attempt(effect: FsEffect, next: Dir) returns (ok: bool)
      modifies this
      ensures (S(), ok) == Step(old(S()), fails, effect, next)
    {
      ok := !fails(effect, tick);
      if ok {
        dir := next;
      }
      tick := tick + 1;
      trace := trace + [dir];
    }

    method WriteNewFile(contents: Bytes, policy: Policy) returns (ok: bool)
      modifies this
      ensures var fs2 := if policy.RemoveStaleTemp? then Step(old(S()), fails, RemoveTemp, old(dir).(temp := None)).0
              else old(S());
              var (fs3, created) := CreateNew(fs2, fails);
              if !created then (S(), ok) == (fs3, false)
              else
                var (fs4, written) := WriteAll(fs3, fails, contents);
                if !written then (S(), ok) == (fs4, false) else (S(), ok) == Step(fs4, fails, SyncTemp, fs4.dir)
    {
      if policy.RemoveStaleTemp? {
        var _ := Attempt(RemoveTemp, dir.(temp := None));
      }
      if dir.temp.Some? {
        tick := tick + 1;
        trace := trace + [dir];
        return false;
      }
      var created := Attempt(CreateTemp, dir.(temp := Some([])));
      if !created {
        return false;
      }
      ghost var fs3 := S();
      for i := 0 to |contents|
        invariant dir.temp.Some?
        invariant WriteAll(fs3, fails, contents) == WriteAll(S(), fails, contents[i..])
      {
        assert contents[i..][1..] == contents[i + 1..];
        var written := Attempt(WriteByte, dir.(temp := Some(dir.temp.value + [contents[i]])));
        if !written {
          return false;
        }
      }
      ok := Attempt(SyncTemp, dir);
    }

    method Save(contents: Bytes, policy: Policy) returns (saved: bool)
      modifies this
      ensures (S(), saved) == SaveAtomic(old(S()), fails, policy, contents)
    {
      var made := Attempt(MakeParent, dir);
      if !made {
        return false;
      }
      var written := WriteNewFile(contents, policy);
      if !written {
        return false;
      }
      saved := Attempt(Rename, Dir(dir.temp, None));
      if !saved {
        var _ := Attempt(RemoveTemp, dir.(temp := None));
      }
    }
  }

  // -- one-step replace ------------------------------------------------------------------

  /** Every state from `a` to `b` shows this target. */
  ghost predicate TargetSteady(a: Fs, b: Fs) {
    && a.trace <= b.trace && b.dir.target == a.dir.target && a.tick <= b.tick
    && forall i | |a.trace| <= i < |b.trace| :: b.trace[i].target == a.dir.target
  }

  lemma {:induction false} WritingIsSteady(fs: Fs, fails: FsSchedule, contents: Bytes)
    requires fs.dir.temp.Some?
    ensures var (fs', ok) := WriteAll(fs, fails, contents);
            && TargetSteady(fs, fs') && fs'.dir.temp.Some?
            && (ok ==> fs'.dir.temp.value == fs.dir.temp.value + contents)
    decreases |contents|
  {
    if contents != [] {
      var (fs1, ok) := Step(fs, fails, WriteByte, fs.dir.(temp := Some(fs.dir.temp.value + [contents[0]])));
      if ok {
        WritingIsSteady(fs1, fails, contents[1..]);
        SteadyThen(fs, fs1, WriteAll(fs1, fails, contents[1..]).0);
        assert fs.dir.temp.value + [contents[0]] + contents[1..] == fs.dir.temp.value + contents;
      }
    }
  }

  lemma SteadyThen(a: Fs, b: Fs, c: Fs)
    requires TargetSteady(a, b) && TargetSteady(b, c)
    ensures TargetSteady(a, c)
  {
    forall i | |a.trace| <= i < |c.trace|
      ensures c.trace[i].target == a.dir.target
    {
      if i < |b.trace| {
        assert c.trace[i] == b.trace[i];
      }
    }
  }

  /** Everything before the rename leaves the target alone, and what gets renamed is whole. */
  lemma OnlyTheRenameTouchesTheTarget(fs: Fs, fails: FsSchedule, policy: Policy, contents: Bytes)
    ensures var (fs', ok) := SaveAtomic(fs, fails, policy, contents);
            if ok then |fs.trace| < |fs'.trace| && fs'.dir == Dir(Some(contents), None)
                && fs'.trace[|fs'.trace| - 1] == fs'.dir
                       && fs.trace <= fs'.trace
                       && forall i | |fs.trace| <= i < |fs'.trace| - 1 :: fs'.trace[i].target == fs.dir.target
            else TargetSteady(fs, fs')
  {
    var (fs1, made) := Step(fs, fails, MakeParent, fs.dir);
    if made {
      var fs2 := if policy.RemoveStaleTemp? then Step(fs1, fails, RemoveTemp, fs1.dir.(temp := None)).0 else fs1;
      var (fs3, created) := CreateNew(fs2, fails);
      SteadyThen(fs, fs1, fs2);
      SteadyThen(fs, fs2, fs3);
      if created {
        WritingIsSteady(fs3, fails, contents);
        var (fs4, written) := WriteAll(fs3, fails, contents);
        SteadyThen(fs, fs3, fs4);
        var (fs5, synced) := Step(fs4, fails, SyncTemp, fs4.dir);
        SteadyThen(fs, fs4, fs5);
        if written && synced {
          assert [] + contents == contents;
          var (fs6, renamed) := Step(fs5, fails, Rename, Dir(fs5.dir.temp, None));
          if !renamed {
            SteadyThen(fs, fs5, fs6);
            SteadyThen(fs, fs6, Step(fs6, fails, RemoveTemp, fs6.dir.(temp := None)).0);
          }
        }
      }
    }
  }

  /**
   A reader never sees a torn file: at every step the target holds all of the
   old contents or all of the new, it holds the new exactly when the save
   reports success, and it never goes back.
   */
  lemma ReadersSeeOldOrNew(fs: Fs, fails: FsSchedule, policy: Policy, contents: Bytes)
    ensures var (fs', ok) := SaveAtomic(fs, fails, policy, contents);
            && fs'.dir.target == (if ok then Some(contents) else fs.dir.target)
            && forall i | |fs.trace| <= i < |fs'.trace| ::
                 fs'.trace[i].target == fs.dir.target || (ok && i == |fs'.trace| - 1
                     && fs'.trace[i].target == Some(contents))
  {
    OnlyTheRenameTouchesTheTarget(fs, fails, policy, contents);
  }

  // -- after a crash ---------------------------------------------------------------------------

  const NOTHING_FAILS: FsSchedule := (e: FsEffect, t: nat) => false

  lemma {:induction false} WritingSucceeds(fs: Fs, contents: Bytes)
    requires fs.dir.temp.Some?
    ensures WriteAll(fs, NOTHING_FAILS, contents).1
    decreases |contents|
  {
    if contents != [] {
      WritingSucceeds(Step(fs, NOTHING_FAILS, WriteByte, fs.dir.(temp := Some(fs.dir.temp.value + [contents[0]]))).0,
          contents[1..]);
    }
  }

  /**
   The next save after a crash, on whatever the crash left: one that removes a
   stale temp file always succeeds; one that refuses it succeeds if and only if
   there is none, and otherwise changes nothing.
   */
  lemma NextSaveAfterACrash(left: Dir, policy: Policy, contents: Bytes)
    ensures var (fs, ok) := SaveAtomic(Fs(left, 0, []), NOTHING_FAILS, policy, contents);
            && (ok <==> policy.RemoveStaleTemp? || left.temp.None?)
            && fs.dir == if ok then Dir(Some(contents), None) else left
  {
    OnlyTheRenameTouchesTheTarget(Fs(left, 0, []), NOTHING_FAILS, policy, contents);
    var fs1 := Step(Fs(left, 0, []), NOTHING_FAILS, MakeParent, left).0;
    var fs2 := if policy.RemoveStaleTemp? then Step(fs1, NOTHING_FAILS, RemoveTemp, left.(temp := None)).0 else fs1;
    var (fs3, created) := CreateNew(fs2, NOTHING_FAILS);
    if created {
      WritingSucceeds(fs3, contents);
    }
  }

  /** A byte fails to be written when it is its turn, the first of them at tick `at`. */
  predicate WriteFails(fails: FsSchedule, at: nat, count: nat) {
    exists t: nat | at <= t < at + count :: fails(WriteByte, t)
  }

  lemma {:induction false} WritingTakesItsTicks(fs: Fs, fails: FsSchedule, contents: Bytes)
    requires fs.dir.temp.Some?
    ensures var (fs', ok) := WriteAll(fs, fails, contents);
            fs'.dir.temp.Some? && (ok <==> !WriteFails(fails, fs.tick, |contents|))
                && (ok ==> fs'.tick == fs.tick + |contents|)
    decreases |contents|
  {
    if contents != [] {
      var (fs1, ok) := Step(fs, fails, WriteByte, fs.dir.(temp := Some(fs.dir.temp.value + [contents[0]])));
      if ok {
        WritingTakesItsTicks(fs1, fails, contents[1..]);
        if WriteFails(fails, fs.tick, |contents|) {
          var t: nat :| fs.tick <= t < fs.tick + |contents| && fails(WriteByte, t);
          assert t != fs.tick;
        }
      }
    }
  }

  /**
   What a save that starts at tick `t` trips over: a write, the sync, or both the
   rename and the clean-up after it.
   */
  predicate LeavesItsTemp(fails: FsSchedule, t: nat, count: nat) {
    && !fails(MakeParent, t) && !fails(CreateTemp, t + 1)
    && (|| WriteFails(fails, t + 2, count)
        || fails(SyncTemp, t + 2 + count)
        || (fails(Rename, t + 3 + count) && fails(RemoveTemp, t + 4 + count)))
  }

  /**
   A strict save that finds no temp file leaves one behind if and only if it
   fails at a write, at the sync, or at both the rename and the clean-up.
   */
  lemma TempIsLeftIffWriteOrCleanupFails(fs: Fs, fails: FsSchedule, contents: Bytes)
    requires fs.dir.temp.None?
    ensures var after := SaveAtomic(fs, fails, RefuseStaleTemp, contents).0;
            after.dir.temp.Some? <==> LeavesItsTemp(fails, fs.tick, |contents|)
  {
    var (fs1, made) := Step(fs, fails, MakeParent, fs.dir);
    var (fs2, created) := CreateNew(fs1, fails);
    if made && created {
      WritingTakesItsTicks(fs2, fails, contents);
    }
  }

  /**
   No crash is needed, then, and from there on a store that refuses stale temp
   files refuses every save, whatever fails or not, and never changes again;
   without a temp file left, a save that meets no failure succeeds.
   */
  lemma LaterSavesAreBlockedIffTempIsLeft(fs: Fs, fails: FsSchedule, contents: Bytes, contents': Bytes)
    requires fs.dir.temp.None?
    ensures var after := SaveAtomic(fs, fails, RefuseStaleTemp, contents).0;
            && (LeavesItsTemp(fails, fs.tick, |contents|) ==> forall fails' ::
                  var next := SaveAtomic(after, fails', RefuseStaleTemp, contents'); !next.1 && next.0.dir == after.dir)
            && (SaveAtomic(Fs(after.dir, 0, []), NOTHING_FAILS, RefuseStaleTemp, contents').1
                <==> !LeavesItsTemp(fails, fs.tick, |contents|))
  {
    TempIsLeftIffWriteOrCleanupFails(fs, fails, contents);
    NextSaveAfterACrash(SaveAtomic(fs, fails, RefuseStaleTemp, contents).0.dir, RefuseStaleTemp, contents');
  }
}
