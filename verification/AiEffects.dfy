/** What each call of the AI provider admin that succeeds has done, and that one that fails changed nothing on disk. */
module AiEffects {
  import opened Wrappers
  import opened Refs
  import opened Machine
  import opened UndoLog
  import opened AiSettings
  import Drafts

  /** Looks a provider up by id. */
  function Provider(file: ProviderFile, id: string): Option<ProviderEntry> {
    var found := FindProvider(file.providers, id);
    if found.Some? then Some(file.providers[found.value]) else None
  }

  /** Every provider but the one called `id` is found as before. */
  ghost predicate OthersKept(before: ProviderFile, after: ProviderFile, id: string) {
    forall x | x != id :: Provider(after, x) == Provider(before, x)
  }

  ghost predicate OtherSlotsKept(before: map<string, string>, after: map<string, string>, k: string) {
    forall x | x != k :: Lookup(after, x) == Lookup(before, x)
  }

  lemma ProviderIs(file: ProviderFile, i: nat)
    requires UniqueProviders(file.providers) && i < |file.providers|
    ensures Provider(file, file.providers[i].id) == Some(file.providers[i])
  {
  }

  /** Two lists of distinct providers that hold the same entries called `x` find the same one. */
  lemma SameMembersSameProvider(a: ProviderFile, b: ProviderFile, x: string)
    requires UniqueProviders(a.providers) && UniqueProviders(b.providers)
    requires forall e: ProviderEntry | e.id == x :: e in a.providers <==> e in b.providers
    ensures Provider(a, x) == Provider(b, x)
  {
    var i := FindProvider(a.providers, x);
    if i.Some? {
      assert a.providers[i.value] in b.providers;
      var k :| 0 <= k < |b.providers| && b.providers[k] == a.providers[i.value];
      ProviderIs(b, k);
    }
  }

  lemma AddedIsFound(w: V, fails: Schedule, file: ProviderFile, draft: ProviderDraft)
    requires UniqueProviders(file.providers) && Add(w, fails, file, draft).error.None?
    ensures var o := Add(w, fails, file, draft);
            var keyRef := AiKeyringRef(draft.id, API_KEY_FIELD);
            && o.world.disk == Present(o.file) && o.file.activeId == file.activeId
            && Provider(o.file, draft.id) == Some(ProviderEntry(draft.id, draft.name, draft.vendor, draft.model,
                keyRef))
            && OthersKept(file, o.file, draft.id)
            && Lookup(o.world.slots, keyRef) == Some(draft.apiKey) && OtherSlotsKept(w.slots, o.world.slots, keyRef)
  {
    var o := Add(w, fails, file, draft);
    var entry := ProviderEntry(draft.id, draft.name, draft.vendor, draft.model, AiKeyringRef(draft.id, API_KEY_FIELD));
    assert o.file.providers == file.providers + [entry];
    ProviderIs(o.file, |file.providers|);
    forall x | x != draft.id ensures Provider(o.file, x) == Provider(file, x) {
      SameMembersSameProvider(o.file, file, x);
    }
  }

  /** The entry keeps its id, vendor and ref; its key is the new one, or what it was. */
  lemma UpdatedIsFound(w: V, fails: Schedule, file: ProviderFile, id: string, edit: ProviderEdit)
    requires UniqueProviders(file.providers) && Update(w, fails, file, id, edit).error.None?
    ensures var o := Update(w, fails, file, id, edit);
            && o.world.disk == Present(o.file) && o.file.activeId == file.activeId
            && Provider(file, id).Some? && Provider(file, id).value.vendor == edit.vendor
            && Provider(o.file, id) == Some(Provider(file, id).value.(name := edit.name, model := edit.model))
            && OthersKept(file, o.file, id)
            && (var keyRef := Provider(file, id).value.keyRef;
                && OtherSlotsKept(w.slots, o.world.slots, keyRef)
                && Lookup(o.world.slots, keyRef) == if edit.apiKey.Keep? then Lookup(w.slots, keyRef)
                    else Some(edit.apiKey.value))
  {
    var o := Update(w, fails, file, id, edit);
    var i := FindProvider(file.providers, id).value;
    var entry := file.providers[i].(name := edit.name, model := edit.model);
    assert o.file.providers == file.providers[i := entry];
    ProviderIs(o.file, i);
    forall x | x != id ensures Provider(o.file, x) == Provider(file, x) {
      forall e: ProviderEntry | e.id == x ensures e in o.file.providers <==> e in file.providers {
        if e in file.providers {
          var k :| 0 <= k < |file.providers| && file.providers[k] == e;
          assert o.file.providers[k] == e;
        }
      }
      SameMembersSameProvider(o.file, file, x);
    }
    if edit.apiKey.Overwrite? {
      ApplyWriteAccurate(w, fails, file.providers[i].keyRef, edit.apiKey.value);
    }
  }

  /** Nobody else moves, the pointer only falls if it pointed here, and the key is gone unless deleting it failed. */
  lemma DeletedIsGone(w: V, fails: Schedule, file: ProviderFile, id: string)
    requires UniqueProviders(file.providers) && AiSettings.Delete(w, fails, file, id).error.None?
    ensures var o := AiSettings.Delete(w, fails, file, id);
            && o.world.disk == Present(o.file)
            && o.file.activeId == (if file.activeId == Some(id) then None else file.activeId)
            && Provider(file, id).Some? && Provider(o.file, id).None? && OthersKept(file, o.file, id)
            && (var keyRef := Provider(file, id).value.keyRef;
                && OtherSlotsKept(w.slots, o.world.slots, keyRef)
                && Lookup(o.world.slots, keyRef) == if fails(DeleteEffect, w.tick + 1) then Lookup(w.slots, keyRef)
                    else None)
  {
    var o := AiSettings.Delete(w, fails, file, id);
    var i := FindProvider(file.providers, id).value;
    RemovedIsGone(file, o.file, i);
  }

  lemma RemovedIsGone(file: ProviderFile, next: ProviderFile, i: nat)
    requires UniqueProviders(file.providers) && i < |file.providers|
    requires next.providers == file.providers[..i] + file.providers[i + 1..]
    ensures Provider(next, file.providers[i].id).None? && OthersKept(file, next, file.providers[i].id)
  {
    forall x | x != file.providers[i].id ensures Provider(next, x) == Provider(file, x) {
      forall e: ProviderEntry | e.id == x ensures e in next.providers <==> e in file.providers {
        if e in file.providers {
          var k :| 0 <= k < |file.providers| && file.providers[k] == e;
          assert e == next.providers[if k < i then k else k - 1];
        }
      }
      SameMembersSameProvider(next, file, x);
    }
  }

  /** Only the pointer moves, and only to a provider that exists or to nothing. */
  lemma OnlyThePointerMoves(w: V, fails: Schedule, file: ProviderFile, id: Option<string>)
    ensures var o := SetActive(w, fails, file, id);
            && o.world.slots == w.slots
            && (o.error.None? ==> o.world.disk == Present(o.file) && o.file == file.(activeId := id)
                                  && (id.Some? ==> Provider(file, id.value).Some?))
            && (o.error.Some? ==> o.world.disk == w.disk && o.file == file)
  {
  }

  // -- when a call goes through -------------------------------------------------------------------

  /** A call that fails has changed neither the file nor the disk; one that succeeds has saved what the admin holds. */
  lemma EveryCallAnswersTruly(w: V, fails: Schedule, file: ProviderFile, c: AiCommand)
    ensures var o := Exec(w, fails, file, c);
            if o.error.Some? then o.file == file && o.world.disk == w.disk else o.world.disk == Present(o.file)
  {
    match c
    case UpdateCall(id, edit) =>
      var found := FindProvider(file.providers, id);
      if found.Some? && edit.apiKey.Overwrite? {
        ApplyWriteAccurate(w, fails, file.providers[found.value].keyRef, edit.apiKey.value);
      }
    case _ =>
  }

  /** What a caller may ask for. */
  ghost predicate InOrder(file: ProviderFile, c: AiCommand) {
    match c
    case AddCall(draft) => forall e | e in file.providers :: e.id != draft.id
    case UpdateCall(id, edit) => exists e | e in file.providers :: e.id == id && e.vendor == edit.vendor
    case DeleteCall(id) => exists e | e in file.providers :: e.id == id
    case ActivateCall(active) => active.Some? ==> exists e | e in file.providers :: e.id == active.value
  }

  /** With nothing failing, exactly that goes through, and a refusal gives a reason that is true. */
  lemma CallsSucceedIffInOrder(w: V, fails: Schedule, file: ProviderFile, c: AiCommand)
    requires UniqueProviders(file.providers) && QuietFrom(fails, w.tick)
    ensures Exec(w, fails, file, c).error.None? <==> InOrder(file, c)
    ensures match Exec(w, fails, file, c).error
            case None => true
            case Some(DuplicateId(id)) => c.AddCall? && id == c.draft.id
            case Some(KindMismatch(id)) => c.UpdateCall? && id == c.id && Provider(file, id).Some?
            case Some(NotFound(id)) => Provider(file, id).None?
            case _ => false
  {
    match c
    case AddCall(draft) =>
      var found := FindProvider(file.providers, draft.id);
      assert found.Some? ==> file.providers[found.value] in file.providers;
    case UpdateCall(id, edit) =>
      var found := FindProvider(file.providers, id);
      if found.Some? {
        var was := file.providers[found.value];
        assert was in file.providers;
        forall e | e in file.providers && e.id == id ensures e == was {
          var k :| 0 <= k < |file.providers| && file.providers[k] == e;
          ProviderIs(file, k);
        }
      }
    case DeleteCall(id) =>
      var found := FindProvider(file.providers, id);
      assert found.Some? ==> file.providers[found.value] in file.providers;
    case ActivateCall(active) =>
      if active.Some? {
        var found := FindProvider(file.providers, active.value);
        assert found.Some? ==> file.providers[found.value] in file.providers;
      }
  }
}
