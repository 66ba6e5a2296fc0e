/** A call that reports an error has changed nothing, and the exact conditions under which that is true. */
module Rollback {
  import opened Wrappers
  import opened Refs
  import opened Store
  import opened Machine
  import opened Drafts
  import opened Protocol
  import opened UndoLog
  import opened EditSteps
  import opened CrashSafety

  /** Both stores are as they were, and the cache is what was read (or is untouched if nothing could be). */
  ghost predicate NothingChanged<R>(w: W, fails: Schedule, cache: ConnectionFile, tracks: bool, o: Outcome<R>) {
    && o.world.disk == w.disk
    && o.world.slots == w.slots
    && o.file == if Sync(w, fails, cache, tracks).result.Ok? then FileOn(w.disk) else cache
  }

  lemma SyncKeepsSlots(w: W, fails: Schedule, cache: ConnectionFile, tracks: bool)
    requires Current(w, cache, tracks)
    ensures var s := Sync(w, fails, cache, tracks);
            && s.world.slots == w.slots && s.world.disk == w.disk && w.tick <= s.world.tick
            && s.file == if s.result.Ok? then FileOn(w.disk) else cache
  {
    SyncFacts(w, fails, cache, tracks);
  }

  // -- add -----------------------------------------------------------------------

  lemma {:induction false} SetAllStopsAtFault<F>(w: World<F>, fails: Schedule, writes: seq<SecretWrite>)
    ensures var (w', n, e) := SetAll(w, fails, writes);
            && w'.disk == w.disk && w.tick <= w'.tick
            && (e.Some? ==> w.tick < w'.tick && fails(SetEffect, w'.tick - 1))
    decreases |writes|
  {
    if writes != [] {
      var (w1, r) := Set(w, fails, writes[0].keyRef, writes[0].value);
      if r.Ok? {
        SetAllStopsAtFault(w1, fails, writes[1..]);
      }
    }
  }

  lemma {:induction false} SetAllFills<F>(w: World<F>, fails: Schedule, writes: seq<SecretWrite>)
    ensures var (w', n, _) := SetAll(w, fails, writes); w'.slots.Keys == w.slots.Keys + WriteRefs(writes[..n])
    decreases |writes|
  {
    if writes == [] {
      assert WriteRefs([]) == {};
    } else {
      var (w1, r) := Set(w, fails, writes[0].keyRef, writes[0].value);
      if r.Err? {
        assert WriteRefs([]) == {};
      } else {
        SetAllFills(w1, fails, writes[1..]);
        var n := SetAll(w1, fails, writes[1..]).1;
        assert writes[..n + 1] == [writes[0]] + writes[1..][..n];
        assert WriteRefs(writes[..n + 1]) == {writes[0].keyRef} + WriteRefs(writes[1..][..n]);
      }
    }
  }

  lemma {:induction false} DeleteAllFrom<F>(w: World<F>, fails: Schedule, refs: seq<string>)
    requires QuietFrom(fails, w.tick)
    ensures DeleteAll(w, fails, refs).slots == w.slots - (set r | r in refs)
    ensures DeleteAll(w, fails, refs).disk == w.disk
    decreases |refs|
  {
    if refs != [] {
      var w1 := Machine.Delete(w, fails, refs[0]).0;
      DeleteAllFrom(w1, fails, refs[1..]);
      assert w1.slots == w.slots - {refs[0]};
      assert (set r | r in refs) == {refs[0]} + (set r | r in refs[1..]);
    }
  }

  lemma KeyRefsAreWriteRefs(writes: seq<SecretWrite>)
    ensures (set r | r in KeyRefs(writes)) == WriteRefs(writes)
  {
    forall r | r in WriteRefs(writes)
      ensures r in KeyRefs(writes)
    {
      var i :| 0 <= i < |writes| && writes[i].keyRef == r;
      assert KeyRefs(writes)[i] == r;
    }
  }

  /** Emptying what was written into empty slots gives the keychain back. */
  lemma WritesIntoEmptySlotsUndone(before: map<string, string>, middle: map<string, string>, refs: set<string>,
                                   all: set<string>)
    requires refs <= all && all !! before.Keys && middle.Keys == before.Keys + refs
    requires forall k | k !in all :: Lookup(middle, k) == Lookup(before, k)
    ensures middle - refs == before
  {
    assert (middle - refs).Keys == before.Keys;
    assert forall k | k in before :: Lookup(middle, k) == Lookup(before, k);
  }

  lemma CommitAddRollsBack(w: W, fails: Schedule, file: ConnectionFile, prepared: Prepared)
    requires OneFault(fails, w.tick) && WriteRefs(prepared.writes) !! w.slots.Keys
    requires CommitAdd(w, fails, file, prepared).result.Err?
    ensures var o := CommitAdd(w, fails, file, prepared);
            o.world.disk == w.disk && o.world.slots == w.slots && o.file == file
  {
    var writes := prepared.writes;
    SetAllStopsAtFault(w, fails, writes);
    SetAllFills(w, fails, writes);
    SetAllPhase(w, fails, writes);
    var (w1, n, error) := SetAll(w, fails, writes);
    var undone := if error.Some? then writes[..n] else writes;
    assert writes[..|writes|] == writes;
    var start := if error.Some? then w1 else Tick(w1);
    if error.Some? {
      QuietAfterFault(fails, w.tick, SetEffect, w1.tick - 1);
    } else {
      QuietAfterFault(fails, w.tick, SaveEffect, w1.tick);
    }
    DeleteAllFrom(start, fails, KeyRefs(undone));
    KeyRefsAreWriteRefs(undone);
    WritesIntoEmptySlotsUndone(w.slots, w1.slots, WriteRefs(undone), WriteRefs(writes));
  }

  /** A failed `add` changes nothing, provided the slots it was about to fill were empty. */
  lemma AddRollsBack(w: W, fails: Schedule, cache: ConnectionFile, tracks: bool, draft: ConnectionDraft)
    requires Current(w, cache, tracks) && WriteRefs(DraftWrites(draft)) !! w.slots.Keys
    requires var o := Add(w, fails, cache, tracks, draft); o.result.Err? && Explained(fails, w.tick, o.result.error)
    ensures NothingChanged(w, fails, cache, tracks, Add(w, fails, cache, tracks, draft))
  {
    var s := Sync(w, fails, cache, tracks);
    SyncKeepsSlots(w, fails, cache, tracks);
    if s.result.Ok? && PrepareAdd(s.file.connections, draft).Ok? {
      PreparedCarriesItsWrites(s.file.connections, draft);
      CommitAddRollsBack(s.world, fails, s.file, PrepareAdd(s.file.connections, draft).value);
    }
  }

  /**
   Exact: because the undo deletes instead of restoring, a failed `add` leaves
   things as they were under every one-fault schedule if and only if the slots
   its refs name were empty. An orphan left by an earlier failed purge is lost.
   */
  lemma AddRollsBackIffItsSlotsWereEmpty(w: W, cache: ConnectionFile, tracks: bool, draft: ConnectionDraft)
    requires Current(w, cache, tracks) && !w.disk.Garbage? && Loadable(FileOn(w.disk))
    requires PrepareAdd(FileOn(w.disk).connections, draft).Ok?
    ensures (forall fails | OneFault(fails, w.tick) && Add(w, fails, cache, tracks, draft).result.Err? ::
               Add(w, fails, cache, tracks, draft).world.slots == w.slots)
            <==> WriteRefs(DraftWrites(draft)) !! w.slots.Keys
  {
    if WriteRefs(DraftWrites(draft)) !! w.slots.Keys {
      forall fails | OneFault(fails, w.tick) && Add(w, fails, cache, tracks, draft).result.Err?
        ensures Add(w, fails, cache, tracks, draft).world.slots == w.slots
      {
        var s := Sync(w, fails, cache, tracks);
        SyncKeepsSlots(w, fails, cache, tracks);
        if s.result.Ok? {
          PreparedCarriesItsWrites(s.file.connections, draft);
          CommitAddRollsBack(s.world, fails, s.file, PrepareAdd(s.file.connections, draft).value);
        }
      }
    } else {
      var r :| r in WriteRefs(DraftWrites(draft)) && r in w.slots.Keys;
      var fails := AddWithFailedSave(w, cache, tracks, draft);
      assert r !in Add(w, fails, cache, tracks, draft).world.slots;
    }
  }

  // -- update ----------------------------------------------------------------------

  /** The tunnel slot an edit overwrites, if any. */
  function TunnelWrite(id: string, edit: SshEditField): Option<SecretWrite> {
    match edit
    case SetTunnel(SshEdit(_, _, _, KeyEdit(_, SetPassphrase(value)),
        _)) => Some(SecretWrite(KeyringRef(id, SSH_PASSPHRASE_FIELD), value))
    case SetTunnel(SshEdit(_, _, _, PasswordEdit(Overwrite(value)),
        _)) => Some(SecretWrite(KeyringRef(id, SSH_PASSWORD_FIELD), value))
    case _ => None
  }

  /**
   The edit overwrites the entry's own secret and a tunnel secret, and the entry keeps
   the former in the latter's slot.
   */
  predicate WritesOneSlotTwice(existing: ConnectionEntry, draft: EditDraft) {
    && existing.kind.SupportsSshTunnel()
    && draft.kind.SecretBackedEdit? && draft.kind.adapter == existing.kind.adapter && draft.kind.secret.Overwrite?
    && TunnelWrite(existing.id, draft.ssh).Some?
        && TunnelWrite(existing.id, draft.ssh).value.keyRef == existing.kind.keyRef
  }

  lemma KindEditWritesOnce(w: W, fails: Schedule, existing: ConnectionEntry, draft: EditDraft)
    ensures var kind := ApplyUpdateKind(w, fails, existing.id, existing.kind, draft.kind);
            && |kind.undo| <= 1
            && (|kind.undo| == 1 && kind.result.Ok? && kind.result.value.SupportsSshTunnel() ==>
                  && existing.kind.SupportsSshTunnel() && draft.kind.SecretBackedEdit?
                      && draft.kind.adapter == existing.kind.adapter
                  && draft.kind.secret.Overwrite? && kind.undo[0].keyRef == existing.kind.keyRef)
  {
  }

  lemma TunnelEditWritesOnce(w: W, fails: Schedule, id: string, field: SshEditField, existing: Option<SshTunnel>,
                             undo: seq<UndoRecord>)
    ensures var a := ApplyUpdateSsh(w, fails, id, field, existing, undo);
            && undo <= a.undo && |a.undo| <= |undo| + 1
            && (|a.undo| > |undo| ==>
                  TunnelWrite(id, field).Some? && a.undo[|undo|].keyRef == TunnelWrite(id, field).value.keyRef)
  {
    if field.SetTunnel? {
      var auth := ApplySshAuth(w, fails, id, field.edit.auth, existing, undo);
      assert undo <= auth.undo && |auth.undo| <= |undo| + 1;
    }
  }

  lemma EditWritesEachRefOnce(w: W, fails: Schedule, existing: ConnectionEntry, draft: EditDraft)
    requires !WritesOneSlotTwice(existing, draft)
    ensures DistinctUndo(ApplySecrets(w, fails, existing, draft).undo)
  {
    var kind := ApplyUpdateKind(w, fails, existing.id, existing.kind, draft.kind);
    KindEditWritesOnce(w, fails, existing, draft);
    if kind.result.Ok? {
      TunnelEditWritesOnce(kind.world, fails, existing.id, draft.ssh, existing.ssh, kind.undo);
    }
  }

  lemma CommitUpdateRollsBack(w: W, fails: Schedule, file: ConnectionFile, i: nat, marks: Marks, draft: EditDraft)
    requires i < |file.connections| && DistinctUndo(ApplySecrets(w, fails, file.connections[i], draft).undo)
    requires var o := CommitUpdate(w, fails, file, i, marks, draft);
             o.result.Err? && Explained(fails, w.tick, o.result.error)
    ensures var o := CommitUpdate(w, fails, file, i, marks, draft);
            o.world.disk == w.disk && o.world.slots == w.slots && o.file == file
  {
    var existing := file.connections[i];
    var a := ApplySecrets(w, fails, existing, draft);
    ApplySecretsLogged(w, fails, existing, draft);
    assert a.undo[0..] == a.undo;
    var start := if a.result.Err? then a.world else Tick(a.world);
    if a.result.Ok? {
      QuietAfterFault(fails, w.tick, SaveEffect, a.world.tick);
    }
    ReplayRestores(start, fails, a.undo, w.slots);
    ReplayPhase(start, fails, a.undo);
  }

  /** A failed `update` restores every secret it had overwritten, provided it overwrites each slot once. */
  lemma UpdateRollsBack(w: W, fails: Schedule, cache: ConnectionFile, tracks: bool, id: string, draft: EditDraft)
    requires Current(w, cache, tracks)
    requires forall e | e in FileOn(w.disk).connections && e.id == id :: !WritesOneSlotTwice(e, draft)
    requires var o := Update(w, fails, cache, tracks, id, draft);
             o.result.Err? && Explained(fails, w.tick, o.result.error)
    ensures NothingChanged(w, fails, cache, tracks, Update(w, fails, cache, tracks, id, draft))
  {
    var s := Sync(w, fails, cache, tracks);
    SyncKeepsSlots(w, fails, cache, tracks);
    if s.result.Ok? {
      var found := FindIndex(s.file.connections, id);
      if found.Some? {
        var marks := PrepareUpdate(s.file.connections, s.file.connections[found.value], draft);
        if marks.Ok? {
          EditWritesEachRefOnce(s.world, fails, s.file.connections[found.value], draft);
          CommitUpdateRollsBack(s.world, fails, s.file, found.value, marks.value, draft);
        }
      }
    }
  }

  // -- the calls that write no secret before the file ----------------------------------

  lemma FailedDeleteChangesNothing(w: W, fails: Schedule, cache: ConnectionFile, tracks: bool, id: string)
    requires Current(w, cache, tracks) && Protocol.Delete(w, fails, cache, tracks, id).result.Err?
    ensures NothingChanged(w, fails, cache, tracks, Protocol.Delete(w, fails, cache, tracks, id))
  {
    SyncKeepsSlots(w, fails, cache, tracks);
  }

  lemma FailedMoveChangesNothing(w: W, fails: Schedule, cache: ConnectionFile, tracks: bool, id: string, index: nat)
    requires Current(w, cache, tracks) && MoveTo(w, fails, cache, tracks, id, index).result.Err?
    ensures NothingChanged(w, fails, cache, tracks, MoveTo(w, fails, cache, tracks, id, index))
  {
    SyncKeepsSlots(w, fails, cache, tracks);
  }

  lemma FailedMarkChangesNothing(w: W, fails: Schedule, cache: ConnectionFile, tracks: bool, id: string,
                                 color: Option<string>, tag: Option<string>)
    requires Current(w, cache, tracks) && SetMark(w, fails, cache, tracks, id, color, tag).result.Err?
    ensures NothingChanged(w, fails, cache, tracks, SetMark(w, fails, cache, tracks, id, color, tag))
  {
    SyncKeepsSlots(w, fails, cache, tracks);
  }
}
