/** The AI provider admin as the class it is: every method does exactly what `AiSettings` says. */
module AiAdmin {
  import opened Wrappers
  import opened Refs
  import opened Machine
  import Store
  import S = AiSettings
  import opened AiSettings

  class AiSettingsAdmin {
    const host: Host<ProviderFile>
    var file: ProviderFile

    constructor (host: Host<ProviderFile>, file: ProviderFile)
      ensures this.host == host && this.file == file
    {
      this.host, this.file := host, file;
    }

    method Commit(next: ProviderFile) returns (error: Option<AiError>)
      modifies this, host
      ensures AiOutcome(host.W(), file, error) == S.Commit(old(host.W()), host.fails, old(file), next)
    {
      var saved := host.SaveFile(next);
      if saved {
        file := next;
      }
      return if saved then None else Some(IoFailed);
    }

    method Add(draft: ProviderDraft) returns (error: Option<AiError>)
      modifies this, host
      ensures AiOutcome(host.W(), file, error) == S.Add(old(host.W()), host.fails, old(file), draft)
    {
      if FindProvider(file.providers, draft.id).Some? {
        return Some(DuplicateId(draft.id));
      }
      var keyRef := AiKeyringRef(draft.id, API_KEY_FIELD);
      var written := host.SetSecret(keyRef, draft.apiKey);
      if written.Err? {
        return Some(Secret(written.error));
      }
      var entry := ProviderEntry(draft.id, draft.name, draft.vendor, draft.model, keyRef);
      error := Commit(file.(providers := file.providers + [entry]));
      if error.Some? {
        var _ := host.DeleteSecret(keyRef);
      }
    }

    method Update(id: string, edit: ProviderEdit) returns (error: Option<AiError>)
      modifies this, host
      ensures AiOutcome(host.W(), file, error) == S.Update(old(host.W()), host.fails, old(file), id, edit)
    {
      var found := FindProvider(file.providers, id);
      if found.None? {
        return Some(NotFound(id));
      }
      var was := file.providers[found.value];
      if was.vendor != edit.vendor {
        return Some(KindMismatch(id));
      }
      var next := file.(providers := file.providers[found.value := was.(name := edit.name, model := edit.model)]);
      if edit.apiKey.Keep? {
        error := Commit(next);
        return;
      }
      var written := host.WriteSecret(was.keyRef, edit.apiKey.value);
      if written.Err? {
        return Some(Secret(written.error));
      }
      error := Commit(next);
      if error.Some? {
        if written.value.prior.Some? {
          var _ := host.SetSecret(was.keyRef, written.value.prior.value);
        } else {
          var _ := host.DeleteSecret(was.keyRef);
        }
      }
    }

    method Delete(id: string) returns (error: Option<AiError>)
      modifies this, host
      ensures AiOutcome(host.W(), file, error) == S.Delete(old(host.W()), host.fails, old(file), id)
    {
      var found := FindProvider(file.providers, id);
      if found.None? {
        return Some(NotFound(id));
      }
      var removed := file.providers[found.value];
      var next := file.(providers := Store.RemoveAt(file.providers, found.value));
      if next.activeId == Some(id) {
        next := next.(activeId := None);
      }
      error := Commit(next);
      if error.None? {
        var _ := host.DeleteSecret(removed.keyRef);
      }
    }

    method SetActive(id: Option<string>) returns (error: Option<AiError>)
      modifies this, host
      ensures AiOutcome(host.W(), file, error) == S.SetActive(old(host.W()), host.fails, old(file), id)
    {
      if id.Some? && FindProvider(file.providers, id.value).None? {
        return Some(NotFound(id.value));
      }
      error := Commit(file.(activeId := id));
    }
  }
}
