/** The AI provider admin: the same two-store discipline, plus a pointer to the active provider. */
module AiSettings {
  import opened Wrappers
  import opened KeyedVec
  import opened Refs
  import opened Machine
  import opened UndoLog
  import Store
  import Drafts

  const AI_CONFIG_VERSION: nat := 1
  const API_KEY_FIELD: string := "api_key"

  datatype Vendor = Anthropic | OpenAi

  datatype ProviderEntry = ProviderEntry(id: string, name: string, vendor: Vendor, model: Option<string>,
      keyRef: string)

  datatype ProviderFile = ProviderFile(version: nat, activeId: Option<string>, providers: seq<ProviderEntry>)

  datatype AiError =
    | UnsupportedVersion(version: nat) | DuplicateId(id: string) | UnknownActiveId(id: string)
    | NotFound(id: string) | KindMismatch(id: string) | IoFailed | Secret(cause: Store.SecretError)

  datatype ProviderDraft = ProviderDraft(id: string, name: string, vendor: Vendor, model: Option<string>,
      apiKey: string)

  datatype ProviderEdit = ProviderEdit(name: string, vendor: Vendor, model: Option<string>, apiKey: Drafts.SecretField)

  // -- what the loader accepts -------------------------------------------------------------

  function ProviderId(e: ProviderEntry): string { e.id }

  function FindProvider(providers: seq<ProviderEntry>, id: string): (r: Option<nat>)
    ensures r.Some? ==> r.value < |providers| && providers[r.value].id == id
    ensures r.None? ==> forall e | e in providers :: e.id != id
  {
    IndexOf(providers, ProviderId, id)
  }

  ghost predicate UniqueProviders(providers: seq<ProviderEntry>) {
    Unique(providers, ProviderId)
  }

  /** Ids distinct, and the active pointer empty or naming a provider. */
  ghost predicate Wellformed(file: ProviderFile) {
    && UniqueProviders(file.providers)
    && (file.activeId.Some? ==> exists e | e in file.providers :: e.id == file.activeId.value)
  }

  method ParseProviders(file: ProviderFile) returns (r: Result<ProviderFile, AiError>)
    ensures r.Ok? <==> file.version == AI_CONFIG_VERSION && Wellformed(file)
    ensures r.Ok? ==> r.value == file
    ensures r.Err? && r.error.DuplicateId? ==>
              exists i, j | 0 <= i < j < |file.providers| :: file.providers[i].id == file.providers[j].id == r.error.id
  {
    if file.version != AI_CONFIG_VERSION {
      return Err(UnsupportedVersion(file.version));
    }
    var seen: set<string> := {};
    for i := 0 to |file.providers|
      invariant seen == set j | 0 <= j < i :: file.providers[j].id
      invariant UniqueProviders(file.providers[..i])
    {
      var id := file.providers[i].id;
      if id in seen {
        return Err(DuplicateId(id));
      }
      seen := seen + {id};
      assert file.providers[..i + 1] == file.providers[..i] + [file.providers[i]];
    }
    assert file.providers[..|file.providers|] == file.providers;
    if file.activeId.Some? && file.activeId.value !in seen {
      return Err(UnknownActiveId(file.activeId.value));
    }
    return Ok(file);
  }

  // -- the calls -------------------------------------------------------------------------------

  type V = World<ProviderFile>

  datatype AiOutcome = AiOutcome(world: V, file: ProviderFile, error: Option<AiError>)

  function Commit(w: V, fails: Schedule, file: ProviderFile, next: ProviderFile): AiOutcome {
    var (w1, saved) := Save(w, fails, next);
    if saved then AiOutcome(w1, next, None) else AiOutcome(w1, file, Some(IoFailed))
  }

  function Add(w: V, fails: Schedule, file: ProviderFile, draft: ProviderDraft): AiOutcome {
    if FindProvider(file.providers, draft.id).Some? then AiOutcome(w, file, Some(DuplicateId(draft.id)))
    else
      var keyRef := AiKeyringRef(draft.id, API_KEY_FIELD);
      var (w1, r) := Set(w, fails, keyRef, draft.apiKey);
      if r.Err? then AiOutcome(w1, file, Some(Secret(r.error)))
      else
        var entry := ProviderEntry(draft.id, draft.name, draft.vendor, draft.model, keyRef);
        var o := Commit(w1, fails, file, file.(providers := file.providers + [entry]));
        if o.error.None? then o else o.(world := Machine.Delete(o.world, fails, keyRef).0)
  }

  function Update(w: V, fails: Schedule, file: ProviderFile, id: string, edit: ProviderEdit): AiOutcome {
    var found := FindProvider(file.providers, id);
    if found.None? then AiOutcome(w, file, Some(NotFound(id)))
    else
      var was := file.providers[found.value];
      if was.vendor != edit.vendor then AiOutcome(w, file, Some(KindMismatch(id)))
      else
        var next := file.(providers := file.providers[found.value := was.(name := edit.name, model := edit.model)]);
        if edit.apiKey.Keep? then Commit(w, fails, file, next)
        else
          var (w1, r) := ApplyWrite(w, fails, was.keyRef, edit.apiKey.value);
          if r.Err? then AiOutcome(w1, file, Some(Secret(r.error)))
          else
            var o := Commit(w1, fails, file, next);
            if o.error.None? then o else o.(world := UndoOne(o.world, fails, r.value))
  }

  function Delete(w: V, fails: Schedule, file: ProviderFile, id: string): AiOutcome {
    var found := FindProvider(file.providers, id);
    if found.None? then AiOutcome(w, file, Some(NotFound(id)))
    else
      var next := file.(providers := Store.RemoveAt(file.providers, found.value),
                        activeId := if file.activeId == Some(id) then None else file.activeId);
      var o := Commit(w, fails, file, next);
      if o.error.Some? then o else o.(world := Machine.Delete(o.world, fails, file.providers[found.value].keyRef).0)
  }

  function SetActive(w: V, fails: Schedule, file: ProviderFile, id: Option<string>): AiOutcome {
    if id.Some? && FindProvider(file.providers, id.value).None? then AiOutcome(w, file, Some(NotFound(id.value)))
    else Commit(w, fails, file, file.(activeId := id))
  }

  // -- runs -------------------------------------------------------------------------------------

  datatype AiCommand =
    | AddCall(draft: ProviderDraft)
    | UpdateCall(id: string, edit: ProviderEdit)
    | DeleteCall(id: string)
    | ActivateCall(active: Option<string>)

  function Exec(w: V, fails: Schedule, file: ProviderFile, c: AiCommand): AiOutcome {
    match c
    case AddCall(draft) => Add(w, fails, file, draft)
    case UpdateCall(id, edit) => Update(w, fails, file, id, edit)
    case DeleteCall(id) => Delete(w, fails, file, id)
    case ActivateCall(active) => SetActive(w, fails, file, active)
  }

  function Run(w: V, fails: Schedule, file: ProviderFile, commands: seq<AiCommand>): (V, ProviderFile)
    decreases |commands|
  {
    if commands == [] then (w, file)
    else
      var o := Exec(w, fails, file, commands[0]);
      Run(o.world, fails, o.file, commands[1..])
  }

  /** What the loader lets through. */
  ghost predicate Accepted(file: ProviderFile) {
    file.version == AI_CONFIG_VERSION && Wellformed(file)
  }

  lemma AddedFileIsAccepted(file: ProviderFile, entry: ProviderEntry)
    requires Accepted(file) && forall e | e in file.providers :: e.id != entry.id
    ensures Accepted(file.(providers := file.providers + [entry]))
  {
    assert forall e | e in file.providers :: e in file.providers + [entry];
  }

  lemma EditedFileIsAccepted(file: ProviderFile, i: nat, name: string, model: Option<string>)
    requires Accepted(file) && i < |file.providers|
    ensures Accepted(file.(providers := file.providers[i := file.providers[i].(name := name, model := model)]))
  {
    var next := file.providers[i := file.providers[i].(name := name, model := model)];
    forall e | e in file.providers
      ensures exists x | x in next :: x.id == e.id
    {
      var k :| 0 <= k < |file.providers| && file.providers[k] == e;
      assert next[k] in next && next[k].id == e.id;
    }
  }

  lemma ShortenedFileIsAccepted(file: ProviderFile, i: nat)
    requires Accepted(file) && i < |file.providers|
    ensures Accepted(file.(providers := Store.RemoveAt(file.providers, i),
                           activeId := if file.activeId == Some(file.providers[i].id) then None else file.activeId))
  {
    var rest := Store.RemoveAt(file.providers, i);
    forall k | 0 <= k < |rest|
      ensures rest[k] == file.providers[if k < i then k else k + 1]
    {
    }
    forall e | e in file.providers && e.id != file.providers[i].id
      ensures e in rest
    {
      var k :| 0 <= k < |file.providers| && file.providers[k] == e;
      assert e == rest[if k < i then k else k - 1];
    }
  }

  // -- the file along a run -----------------------------------------------------------------

  /** Since `w`, every state's disk is what it was at `w`, or a file the loader accepts. */
  ghost predicate AcceptedSince(w: V, w': V) {
    && w.trace <= w'.trace && (w'.disk == w.disk || (w'.disk.Present? && Accepted(w'.disk.file)))
    && forall i | |w.trace| <= i < |w'.trace| ::
         w'.trace[i].disk == w.disk || (w'.trace[i].disk.Present? && Accepted(w'.trace[i].disk.file))
  }

  lemma SlotsOnly(w: V, w': V, touched: set<string>, dropped: set<string>)
    requires Phase(w, w', touched, dropped)
    ensures AcceptedSince(w, w')
  {
    forall i | |w.trace| <= i < |w'.trace|
      ensures w'.trace[i].disk == w.disk
    {
      assert Within(w, w'.trace[i], touched, dropped);
    }
  }

  lemma AcceptedThen(a: V, b: V, c: V)
    requires AcceptedSince(a, b) && AcceptedSince(b, c)
    ensures AcceptedSince(a, c)
  {
    forall i | |a.trace| <= i < |c.trace|
      ensures c.trace[i].disk == a.disk || (c.trace[i].disk.Present? && Accepted(c.trace[i].disk.file))
    {
      if i < |b.trace| {
        assert c.trace[i] == b.trace[i];
      }
    }
  }

  /** Slots before, a save of an accepted file, slots after. */
  lemma AroundACommit(w: V, w1: V, fails: Schedule, file: ProviderFile, next: ProviderFile, w3: V,
                      touched: set<string>, dropped: set<string>)
    requires Accepted(next) && Phase(w, w1, touched, dropped)
    requires Phase(Commit(w1, fails, file, next).world, w3, touched, dropped)
    ensures AcceptedSince(w, Commit(w1, fails, file, next).world) && AcceptedSince(w, w3)
  {
    var w2 := Commit(w1, fails, file, next).world;
    SlotsOnly(w, w1, touched, dropped);
    assert AcceptedSince(w1, w2);
    AcceptedThen(w, w1, w2);
    SlotsOnly(w2, w3, touched, dropped);
    AcceptedThen(w, w2, w3);
  }

  lemma AddLeavesAccepted(w: V, fails: Schedule, file: ProviderFile, draft: ProviderDraft)
    requires Accepted(file)
    ensures var o := Add(w, fails, file, draft); AcceptedSince(w, o.world) && Accepted(o.file)
  {
    if FindProvider(file.providers, draft.id).None? {
      var keyRef := AiKeyringRef(draft.id, API_KEY_FIELD);
      var entry := ProviderEntry(draft.id, draft.name, draft.vendor, draft.model, keyRef);
      var next := file.(providers := file.providers + [entry]);
      AddedFileIsAccepted(file, entry);
      var w1 := Set(w, fails, keyRef, draft.apiKey).0;
      assert Phase(w, w1, {keyRef}, {keyRef});
      SlotsOnly(w, w1, {keyRef}, {keyRef});
      var w2 := Commit(w1, fails, file, next).world;
      var w3 := Machine.Delete(w2, fails, keyRef).0;
      assert Phase(w2, w3, {keyRef}, {keyRef});
      AroundACommit(w, w1, fails, file, next, w3, {keyRef}, {keyRef});
    }
  }

  lemma UpdateLeavesAccepted(w: V, fails: Schedule, file: ProviderFile, id: string, edit: ProviderEdit)
    requires Accepted(file)
    ensures var o := Update(w, fails, file, id, edit); AcceptedSince(w, o.world) && Accepted(o.file)
  {
    var found := FindProvider(file.providers, id);
    if found.Some? {
      var was := file.providers[found.value];
      EditedFileIsAccepted(file, found.value, edit.name, edit.model);
      var next := file.(providers := file.providers[found.value := was.(name := edit.name, model := edit.model)]);
      if edit.apiKey.Overwrite? {
        OverwritingLeavesAccepted(w, fails, file, next, was.keyRef, edit.apiKey.value);
      } else {
        AroundACommit(w, w, fails, file, next, Commit(w, fails, file, next).world, {}, {});
      }
    }
  }

  /** Write the key, save, and put the key back if the save failed. */
  lemma OverwritingLeavesAccepted(w: V, fails: Schedule, file: ProviderFile, next: ProviderFile, keyRef: string,
                                  value: string)
    requires Accepted(next)
    ensures var (w1, r) := ApplyWrite(w, fails, keyRef, value);
            var w2 := Commit(w1, fails, file, next).world;
            && AcceptedSince(w, w1)
            && (r.Ok? ==> AcceptedSince(w, w2) && AcceptedSince(w, UndoOne(w2, fails, r.value)))
  {
    var (w1, r) := ApplyWrite(w, fails, keyRef, value);
    ApplyWriteAccurate(w, fails, keyRef, value);
    assert Phase(w, w1, {keyRef}, {keyRef});
    SlotsOnly(w, w1, {keyRef}, {keyRef});
    if r.Ok? {
      var w2 := Commit(w1, fails, file, next).world;
      var w3 := UndoOne(w2, fails, r.value);
      assert Phase(w2, w3, {keyRef}, {keyRef});
      AroundACommit(w, w1, fails, file, next, w3, {keyRef}, {keyRef});
    }
  }

  lemma DeleteLeavesAccepted(w: V, fails: Schedule, file: ProviderFile, id: string)
    requires Accepted(file)
    ensures var o := Delete(w, fails, file, id); AcceptedSince(w, o.world) && Accepted(o.file)
  {
    var found := FindProvider(file.providers, id);
    if found.Some? {
      var keyRef := file.providers[found.value].keyRef;
      ShortenedFileIsAccepted(file, found.value);
      var next := file.(providers := Store.RemoveAt(file.providers, found.value),
                        activeId := if file.activeId == Some(id) then None else file.activeId);
      var w2 := Commit(w, fails, file, next).world;
      var w3 := Machine.Delete(w2, fails, keyRef).0;
      assert Phase(w2, w3, {keyRef}, {keyRef});
      AroundACommit(w, w, fails, file, next, w3, {keyRef}, {keyRef});
    }
  }

  lemma ExecLeavesAccepted(w: V, fails: Schedule, file: ProviderFile, c: AiCommand)
    requires Accepted(file)
    ensures var o := Exec(w, fails, file, c); AcceptedSince(w, o.world) && Accepted(o.file)
  {
    match c
    case AddCall(draft) => AddLeavesAccepted(w, fails, file, draft);
    case UpdateCall(id, edit) => UpdateLeavesAccepted(w, fails, file, id, edit);
    case DeleteCall(id) => DeleteLeavesAccepted(w, fails, file, id);
    case ActivateCall(active) =>
      if active.None? || FindProvider(file.providers, active.value).Some? {
        assert active.Some? ==> file.providers[FindProvider(file.providers, active.value).value] in file.providers;
        var next := file.(activeId := active);
        AroundACommit(w, w, fails, file, next, Commit(w, fails, file, next).world, {}, {});
      }
  }

  /**
   From any file the loader accepts, over every run, failed saves included:
   every file the admin leaves at any step is one the loader accepts, with
   distinct ids and an active pointer that is empty or names a provider.
   */
  lemma {:induction false} RunLeavesAcceptedFiles(w: V, fails: Schedule, file: ProviderFile, commands: seq<AiCommand>)
    requires Accepted(file)
    ensures AcceptedSince(w, Run(w, fails, file, commands).0) && Accepted(Run(w, fails, file, commands).1)
    decreases |commands|
  {
    if commands != [] {
      var o := Exec(w, fails, file, commands[0]);
      ExecLeavesAccepted(w, fails, file, commands[0]);
      RunLeavesAcceptedFiles(o.world, fails, o.file, commands[1..]);
      AcceptedThen(w, o.world, Run(o.world, fails, o.file, commands[1..]).0);
    }
  }

  // -- the other slots along a run ------------------------------------------------------------

  ghost function ProviderRefs(file: ProviderFile): set<string> {
    set e | e in file.providers :: e.keyRef
  }

  /** Neither a provider's slot nor one this admin would mint. */
  ghost predicate NotOurs(file: ProviderFile, k: string) {
    k !in ProviderRefs(file) && forall id :: k != AiKeyringRef(id, API_KEY_FIELD)
  }

  /** Since `w`, no state has shown a different value in the slot. */
  ghost predicate UntouchedSince(w: V, w': V, k: string) {
    && w.trace <= w'.trace && Lookup(w'.slots, k) == Lookup(w.slots, k)
    && forall i | |w.trace| <= i < |w'.trace| :: Lookup(w'.trace[i].slots, k) == Lookup(w.slots, k)
  }

  lemma UntouchedThen(a: V, b: V, c: V, k: string)
    requires UntouchedSince(a, b, k) && UntouchedSince(b, c, k)
    ensures UntouchedSince(a, c, k)
  {
    forall i | |a.trace| <= i < |c.trace|
      ensures Lookup(c.trace[i].slots, k) == Lookup(a.slots, k)
    {
      if i < |b.trace| {
        assert c.trace[i] == b.trace[i];
      }
    }
  }

  lemma AddTouchesOnlyOurs(w: V, fails: Schedule, file: ProviderFile, draft: ProviderDraft, k: string)
    requires NotOurs(file, k)
    ensures var o := Add(w, fails, file, draft); UntouchedSince(w, o.world, k) && NotOurs(o.file, k)
  {
  }

  lemma UpdateTouchesOnlyOurs(w: V, fails: Schedule, file: ProviderFile, id: string, edit: ProviderEdit, k: string)
    requires NotOurs(file, k)
    ensures var o := Update(w, fails, file, id, edit); UntouchedSince(w, o.world, k) && NotOurs(o.file, k)
  {
    var found := FindProvider(file.providers, id);
    if found.Some? {
      var was := file.providers[found.value];
      assert was in file.providers;
      assert was.keyRef in ProviderRefs(file);
      var next := file.providers[found.value := was.(name := edit.name, model := edit.model)];
      assert forall e | e in next :: e in file.providers || e.keyRef == was.keyRef;
      if edit.apiKey.Overwrite? {
        OverwritingTouchesOneSlot(w, fails, file, file.(providers := next), was.keyRef, edit.apiKey.value, k);
      }
    }
  }

  lemma OverwritingTouchesOneSlot(w: V, fails: Schedule, file: ProviderFile, next: ProviderFile, keyRef: string,
                                  value: string, k: string)
    requires k != keyRef
    ensures var (w1, r) := ApplyWrite(w, fails, keyRef, value);
            var w2 := Commit(w1, fails, file, next).world;
            && UntouchedSince(w, w1, k)
            && (r.Ok? ==> UntouchedSince(w, w2, k) && UntouchedSince(w, UndoOne(w2, fails, r.value), k))
  {
    var (w1, r) := ApplyWrite(w, fails, keyRef, value);
    assert UntouchedSince(w, w1, k);
    if r.Ok? {
      var w2 := Commit(w1, fails, file, next).world;
      UntouchedThen(w, w1, w2, k);
      UntouchedThen(w, w2, UndoOne(w2, fails, r.value), k);
    }
  }

  lemma DeleteTouchesOnlyOurs(w: V, fails: Schedule, file: ProviderFile, id: string, k: string)
    requires NotOurs(file, k)
    ensures var o := Delete(w, fails, file, id); UntouchedSince(w, o.world, k) && NotOurs(o.file, k)
  {
    var found := FindProvider(file.providers, id);
    if found.Some? {
      var was := file.providers[found.value];
      assert was in file.providers;
      assert was.keyRef in ProviderRefs(file);
      assert forall e | e in Store.RemoveAt(file.providers, found.value) :: e in file.providers;
    }
  }

  lemma ExecTouchesOnlyOurs(w: V, fails: Schedule, file: ProviderFile, c: AiCommand, k: string)
    requires NotOurs(file, k)
    ensures var o := Exec(w, fails, file, c); UntouchedSince(w, o.world, k) && NotOurs(o.file, k)
  {
    match c
    case AddCall(draft) => AddTouchesOnlyOurs(w, fails, file, draft, k);
    case UpdateCall(id, edit) => UpdateTouchesOnlyOurs(w, fails, file, id, edit, k);
    case DeleteCall(id) => DeleteTouchesOnlyOurs(w, fails, file, id, k);
    case ActivateCall(_) =>
  }

  /** Over every run, no step ever changes a slot that is neither a provider's nor one this admin mints. */
  lemma {:induction false} RunTouchesOnlyOurs(w: V, fails: Schedule, file: ProviderFile, commands: seq<AiCommand>,
                                              k: string)
    requires NotOurs(file, k)
    ensures UntouchedSince(w, Run(w, fails, file, commands).0, k)
    decreases |commands|
  {
    if commands != [] {
      var o := Exec(w, fails, file, commands[0]);
      ExecTouchesOnlyOurs(w, fails, file, commands[0], k);
      RunTouchesOnlyOurs(o.world, fails, o.file, commands[1..], k);
      UntouchedThen(w, o.world, Run(o.world, fails, o.file, commands[1..]).0, k);
    }
  }

  /** No ref the connection store mints is one this admin mints, whatever the two ids: the fields differ. */
  lemma NoConnectionRefIsAnAiRef(id: string, field: string, aiId: string)
    requires field in Drafts.FIELDS
    ensures KeyringRef(id, field) != AiKeyringRef(aiId, API_KEY_FIELD)
  {
    assert '.' !in field && field != API_KEY_FIELD;
    ConnectionRefMeetsAiRef(id, field, aiId, API_KEY_FIELD);
  }

  /** So a connection's secret is safe from every run, unless a provider was made to point at it by hand. */
  lemma RunSparesConnectionSecrets(w: V, fails: Schedule, file: ProviderFile, commands: seq<AiCommand>, id: string,
                                   field: string)
    requires field in Drafts.FIELDS && KeyringRef(id, field) !in ProviderRefs(file)
    ensures UntouchedSince(w, Run(w, fails, file, commands).0, KeyringRef(id, field))
  {
    forall aiId
      ensures KeyringRef(id, field) != AiKeyringRef(aiId, API_KEY_FIELD)
    {
      NoConnectionRefIsAnAiRef(id, field, aiId);
    }
    RunTouchesOnlyOurs(w, fails, file, commands, KeyringRef(id, field));
  }

  // -- rollback ------------------------------------------------------------------------------------

  /** A failed update puts the previous key back exactly, or empties the slot if it was empty. */
  lemma FailedUpdateRestores(w: V, fails: Schedule, file: ProviderFile, id: string, edit: ProviderEdit)
    requires Update(w, fails, file, id, edit).error.Some? && OneFault(fails, w.tick)
    ensures var o := Update(w, fails, file, id, edit);
            o.world.slots == w.slots && o.world.disk == w.disk && o.file == file
  {
    var found := FindProvider(file.providers, id);
    if found.Some? && file.providers[found.value].vendor == edit.vendor && edit.apiKey.Overwrite? {
      var keyRef := file.providers[found.value].keyRef;
      ApplyWriteAccurate(w, fails, keyRef, edit.apiKey.value);
      var (w1, r) := ApplyWrite(w, fails, keyRef, edit.apiKey.value);
      if r.Ok? {
        QuietAfterFault(fails, w.tick, SaveEffect, w1.tick);
        ReplayRestores(Tick(w1), fails, [r.value], w.slots);
        assert Replay(Tick(w1), fails, [r.value]) == UndoOne(Tick(w1), fails, r.value);
      }
    }
  }

  lemma FailedAddIntoEmptySlotRestores(w: V, fails: Schedule, file: ProviderFile, draft: ProviderDraft)
    requires AiKeyringRef(draft.id, API_KEY_FIELD) !in w.slots
    requires OneFault(fails, w.tick) && Add(w, fails, file, draft).error.Some?
    ensures Add(w, fails, file, draft).world.slots == w.slots
  {
    var keyRef := AiKeyringRef(draft.id, API_KEY_FIELD);
    var (w1, r) := Set(w, fails, keyRef, draft.apiKey);
    if FindProvider(file.providers, draft.id).None? && r.Ok? {
      var entry := ProviderEntry(draft.id, draft.name, draft.vendor, draft.model, keyRef);
      var o := Commit(w1, fails, file, file.(providers := file.providers + [entry]));
      assert o.error.Some?;
      QuietAfterFault(fails, w.tick, SaveEffect, w1.tick);
      assert w.slots[keyRef := draft.apiKey] - {keyRef} == w.slots;
    }
  }

  /**
   A failed add deletes the key it wrote, so the slots are as they were under
   every one-fault schedule if and only if that slot was empty to begin with.
   */
  lemma FailedAddRestoresIffSlotWasEmpty(w: V, file: ProviderFile, draft: ProviderDraft)
    requires FindProvider(file.providers, draft.id).None?
    ensures (forall fails | OneFault(fails, w.tick) && Add(w, fails, file, draft).error.Some? ::
               Add(w, fails, file, draft).world.slots == w.slots)
            <==> AiKeyringRef(draft.id, API_KEY_FIELD) !in w.slots
  {
    var keyRef := AiKeyringRef(draft.id, API_KEY_FIELD);
    if keyRef in w.slots {
      var at := w.tick + 1;
      var fails: Schedule := (e: Effect, t: nat) => e.SaveEffect? && t == at;
      assert keyRef !in Add(w, fails, file, draft).world.slots;
    } else {
      forall fails | OneFault(fails, w.tick) && Add(w, fails, file, draft).error.Some?
        ensures Add(w, fails, file, draft).world.slots == w.slots
      {
        FailedAddIntoEmptySlotRestores(w, fails, file, draft);
      }
    }
  }
}
