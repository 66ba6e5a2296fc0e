/** No run of the AI provider admin ever leaves, at any step, a provider on disk without its key. */
module AiSafety {
  import opened Wrappers
  import opened KeyedVec
  import opened Refs
  import opened Machine
  import opened UndoLog
  import opened AiSettings
  import Store

  /** Every provider on disk has its key in the keychain. */
  ghost predicate KeysHeld(s: Snapshot<ProviderFile>) {
    s.disk.Present? ==> ProviderRefs(s.disk.file) <= s.slots.Keys
  }

  /** It does now, and did after every effect so far. */
  ghost predicate KeysSafe(w: V) {
    KeysHeld(Now(w)) && forall i | 0 <= i < |w.trace| :: KeysHeld(w.trace[i])
  }

  /** The admin's file is the one on disk; before the first save there is none, and nothing in it. */
  ghost predicate Mirrors(w: V, file: ProviderFile) {
    w.disk == Present(file) || (w.disk == Absent && file.providers == [])
  }

  ghost predicate DistinctRefs(providers: seq<ProviderEntry>) {
    forall i, j | 0 <= i < j < |providers| :: providers[i].keyRef != providers[j].keyRef
  }

  /** Ids and refs are distinct, and no provider carries a ref that another id would mint. */
  ghost predicate OwnSlots(file: ProviderFile) {
    && UniqueProviders(file.providers) && DistinctRefs(file.providers)
    && forall e, x | e in file.providers && e.keyRef == AiKeyringRef(x, API_KEY_FIELD) :: x == e.id
  }

  lemma AiMintingIsInjective(id: string, id': string)
    requires AiKeyringRef(id, API_KEY_FIELD) == AiKeyringRef(id', API_KEY_FIELD)
    ensures id == id'
  {
    assert AiKeyringRef(id, API_KEY_FIELD) == KeyringRef(AI_INFIX + id, API_KEY_FIELD);
    assert AiKeyringRef(id', API_KEY_FIELD) == KeyringRef(AI_INFIX + id', API_KEY_FIELD);
    MintingIsInjective(AI_INFIX + id, API_KEY_FIELD, AI_INFIX + id', API_KEY_FIELD);
    assert id == (AI_INFIX + id)[|AI_INFIX|..] == (AI_INFIX + id')[|AI_INFIX|..] == id';
  }

  // -- what keeps the keys there ------------------------------------------------------------

  lemma PhaseKeepsKeys(w: V, w': V, touched: set<string>, dropped: set<string>)
    requires KeysSafe(w) && Phase(w, w', touched, dropped)
    requires w.disk.Present? ==> ProviderRefs(w.disk.file) !! dropped
    ensures KeysSafe(w')
  {
    forall i | 0 <= i < |w'.trace|
      ensures KeysHeld(w'.trace[i])
    {
      if i < |w.trace| {
        assert w'.trace[i] == w.trace[i];
      } else {
        assert Within(w, w'.trace[i], touched, dropped);
      }
    }
  }

  lemma CommitKeepsKeys(w: V, fails: Schedule, file: ProviderFile, next: ProviderFile)
    requires KeysSafe(w) && Mirrors(w, file) && ProviderRefs(next) <= w.slots.Keys
    ensures var o := Commit(w, fails, file, next); KeysSafe(o.world) && Mirrors(o.world, o.file)
  {
  }

  lemma AddedFileOwnsItsSlots(file: ProviderFile, entry: ProviderEntry)
    requires OwnSlots(file) && FindProvider(file.providers, entry.id).None?
    requires entry.keyRef == AiKeyringRef(entry.id, API_KEY_FIELD)
    ensures OwnSlots(file.(providers := file.providers + [entry])) && entry.keyRef !in ProviderRefs(file)
    ensures ProviderRefs(file.(providers := file.providers + [entry])) == ProviderRefs(file) + {entry.keyRef}
  {
    var longer := file.providers + [entry];
    assert forall e :: e in longer <==> e in file.providers || e == entry;
    forall x | entry.keyRef == AiKeyringRef(x, API_KEY_FIELD)
      ensures x == entry.id
    {
      AiMintingIsInjective(entry.id, x);
    }
  }

  lemma AddKeepsKeys(w: V, fails: Schedule, file: ProviderFile, draft: ProviderDraft)
    requires KeysSafe(w) && Mirrors(w, file) && OwnSlots(file)
    ensures var o := Add(w, fails, file, draft); KeysSafe(o.world) && Mirrors(o.world, o.file) && OwnSlots(o.file)
  {
    if FindProvider(file.providers, draft.id).None? {
      var keyRef := AiKeyringRef(draft.id, API_KEY_FIELD);
      var entry := ProviderEntry(draft.id, draft.name, draft.vendor, draft.model, keyRef);
      AddedFileOwnsItsSlots(file, entry);
      var (w1, r) := Set(w, fails, keyRef, draft.apiKey);
      assert Phase(w, w1, {keyRef}, {});
      PhaseKeepsKeys(w, w1, {keyRef}, {});
      if r.Ok? {
        var next := file.(providers := file.providers + [entry]);
        CommitKeepsKeys(w1, fails, file, next);
        var o := Commit(w1, fails, file, next);
        if o.error.Some? {
          var w3 := Machine.Delete(o.world, fails, keyRef).0;
          assert Phase(o.world, w3, {keyRef}, {keyRef});
          PhaseKeepsKeys(o.world, w3, {keyRef}, {keyRef});
        }
      }
    }
  }

  lemma EditedFileOwnsItsSlots(file: ProviderFile, i: nat, name: string, model: Option<string>)
    requires OwnSlots(file) && i < |file.providers|
    ensures var next := file.(providers := file.providers[i := file.providers[i].(name := name, model := model)]);
            OwnSlots(next) && ProviderRefs(next) == ProviderRefs(file)
  {
    var was := file.providers[i];
    var next := file.providers[i := was.(name := name, model := model)];
    assert forall k | 0 <= k < |next| ::
          next[k].id == file.providers[k].id && next[k].keyRef == file.providers[k].keyRef;
    forall e | e in next
      ensures e.keyRef in ProviderRefs(file) && forall x | e.keyRef == AiKeyringRef(x, API_KEY_FIELD) :: x == e.id
    {
      var k :| 0 <= k < |next| && next[k] == e;
      assert file.providers[k] in file.providers;
    }
    forall e | e in file.providers
      ensures exists x | x in next :: x.keyRef == e.keyRef
    {
      var k :| 0 <= k < |file.providers| && file.providers[k] == e;
      assert next[k] in next;
    }
  }

  /** A key that is there is logged as there, so undoing its overwriting cannot lose it. */
  lemma OverwritingKeepsKeys(w: V, fails: Schedule, file: ProviderFile, next: ProviderFile, keyRef: string,
                             value: string)
    requires KeysSafe(w) && Mirrors(w, file) && keyRef in w.slots && ProviderRefs(next) <= w.slots.Keys
    ensures var (w1, r) := ApplyWrite(w, fails, keyRef, value);
            && KeysSafe(w1) && Mirrors(w1, file)
            && (r.Ok? ==>
                  var o := Commit(w1, fails, file, next);
                  && KeysSafe(o.world) && Mirrors(o.world, o.file)
                  && (o.error.Some? ==>
                        KeysSafe(UndoOne(o.world, fails, r.value)) && Mirrors(UndoOne(o.world, fails, r.value), file)))
  {
    var (w1, r) := ApplyWrite(w, fails, keyRef, value);
    ApplyWriteAccurate(w, fails, keyRef, value);
    PhaseKeepsKeys(w, w1, if r.Ok? then {keyRef} else {}, {});
    if r.Ok? {
      CommitKeepsKeys(w1, fails, file, next);
      var o := Commit(w1, fails, file, next);
      if o.error.Some? {
        assert r.value.prior.Some?;
        var w3 := UndoOne(o.world, fails, r.value);
        assert Phase(o.world, w3, {keyRef}, {});
        PhaseKeepsKeys(o.world, w3, {keyRef}, {});
      }
    }
  }

  lemma UpdateKeepsKeys(w: V, fails: Schedule, file: ProviderFile, id: string, edit: ProviderEdit)
    requires KeysSafe(w) && Mirrors(w, file) && OwnSlots(file)
    ensures var o := Update(w, fails, file, id, edit); KeysSafe(o.world) && Mirrors(o.world, o.file) && OwnSlots(o.file)
  {
    var found := FindProvider(file.providers, id);
    if found.Some? {
      var was := file.providers[found.value];
      assert was in file.providers && was.keyRef in ProviderRefs(file);
      EditedFileOwnsItsSlots(file, found.value, edit.name, edit.model);
      var next := file.(providers := file.providers[found.value := was.(name := edit.name, model := edit.model)]);
      assert ProviderRefs(file) <= w.slots.Keys;
      if edit.apiKey.Overwrite? {
        OverwritingKeepsKeys(w, fails, file, next, was.keyRef, edit.apiKey.value);
      } else {
        CommitKeepsKeys(w, fails, file, next);
      }
    }
  }

  lemma ShortenedFileOwnsItsSlots(file: ProviderFile, i: nat, activeId: Option<string>)
    requires OwnSlots(file) && i < |file.providers|
    ensures var next := file.(providers := Store.RemoveAt(file.providers, i), activeId := activeId);
            OwnSlots(next) && ProviderRefs(next) <= ProviderRefs(file)
                && file.providers[i].keyRef !in ProviderRefs(next)
  {
    var rest := Store.RemoveAt(file.providers, i);
    assert forall k | 0 <= k < |rest| :: rest[k] == file.providers[if k < i then k else k + 1];
    forall e | e in rest
      ensures e in file.providers && e.keyRef != file.providers[i].keyRef
    {
      var k :| 0 <= k < |rest| && rest[k] == e;
      assert e == file.providers[if k < i then k else k + 1];
    }
  }

  lemma DeleteKeepsKeys(w: V, fails: Schedule, file: ProviderFile, id: string)
    requires KeysSafe(w) && Mirrors(w, file) && OwnSlots(file)
    ensures var o := AiSettings.Delete(w, fails, file, id);
            KeysSafe(o.world) && Mirrors(o.world, o.file) && OwnSlots(o.file)
  {
    var found := FindProvider(file.providers, id);
    if found.Some? {
      var keyRef := file.providers[found.value].keyRef;
      var activeId := if file.activeId == Some(id) then None else file.activeId;
      ShortenedFileOwnsItsSlots(file, found.value, activeId);
      var next := file.(providers := Store.RemoveAt(file.providers, found.value), activeId := activeId);
      CommitKeepsKeys(w, fails, file, next);
      var o := Commit(w, fails, file, next);
      if o.error.None? {
        var w3 := Machine.Delete(o.world, fails, keyRef).0;
        assert Phase(o.world, w3, {keyRef}, {keyRef});
        PhaseKeepsKeys(o.world, w3, {keyRef}, {keyRef});
      }
    }
  }

  lemma ExecKeepsKeys(w: V, fails: Schedule, file: ProviderFile, c: AiCommand)
    requires KeysSafe(w) && Mirrors(w, file) && OwnSlots(file)
    ensures var o := Exec(w, fails, file, c); KeysSafe(o.world) && Mirrors(o.world, o.file) && OwnSlots(o.file)
  {
    match c
    case AddCall(draft) => AddKeepsKeys(w, fails, file, draft);
    case UpdateCall(id, edit) => UpdateKeepsKeys(w, fails, file, id, edit);
    case DeleteCall(id) => DeleteKeepsKeys(w, fails, file, id);
    case ActivateCall(active) =>
      assert ProviderRefs(file.(activeId := active)) == ProviderRefs(file);
      CommitKeepsKeys(w, fails, file, file.(activeId := active));
  }

  /**
   The provider file and the keychain never drift. Over every run, under every
   schedule of failures and with a crash allowed after any effect, each
   provider on disk has its key.
   */
  lemma {:induction false} RunKeepsKeys(w: V, fails: Schedule, file: ProviderFile, commands: seq<AiCommand>)
    requires KeysSafe(w) && Mirrors(w, file) && OwnSlots(file)
    ensures KeysSafe(Run(w, fails, file, commands).0)
    ensures Mirrors(Run(w, fails, file, commands).0, Run(w, fails, file, commands).1)
    decreases |commands|
  {
    if commands != [] {
      var o := Exec(w, fails, file, commands[0]);
      ExecKeepsKeys(w, fails, file, commands[0]);
      RunKeepsKeys(o.world, fails, o.file, commands[1..]);
    }
  }
}
