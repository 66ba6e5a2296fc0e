/** What a caller hands to the admin, and the checks that run before any effect. */
module Drafts {
  import opened Wrappers
  import opened Text
  import opened Refs
  import opened Store
  import opened Machine

  // -- adding ----------------------------------------------------------------

  datatype KindDraft =
    | TursoDraft(path: string)
    | SecretBackedDraft(adapter: Adapter, settings: string, secret: string)
    | FirestoreDraft(settings: string, account: Option<string>)

  datatype SshAuthDraft = KeyAuth(keyPath: string, passphrase: Option<string>) | PasswordAuth(password: string)

  datatype HostKeyDraft = Fingerprint(digest: string) | KnownHosts(path: string)

  datatype SshDraft = SshDraft(host: string, port: nat, user: string, auth: SshAuthDraft, hostKey: HostKeyDraft)

  datatype ConnectionDraft = ConnectionDraft(
    id: string, name: string, kind: KindDraft, ssh: Option<SshDraft>, mcpWrite: bool,
    mcpAlias: Option<string>, color: Option<string>, tag: Option<string>)

  // -- editing ---------------------------------------------------------------

  datatype SecretField = Keep | Overwrite(value: string)

  datatype AccountField = KeepAccount | SetAccount(value: string) | Emulator

  datatype KindEdit =
    | TursoEdit(path: string)
    | SecretBackedEdit(adapter: Adapter, settings: string, secret: SecretField)
    | FirestoreEdit(settings: string, account: AccountField)

  datatype PassphraseField = KeepPassphrase | SetPassphrase(value: string) | Unencrypted

  datatype SshAuthEdit = KeyEdit(keyPath: string, passphrase: PassphraseField) | PasswordEdit(password: SecretField)

  datatype SshEdit = SshEdit(host: string, port: nat, user: string, auth: SshAuthEdit, hostKey: HostKeyDraft)

  datatype SshEditField = KeepTunnel | DisableTunnel | SetTunnel(edit: SshEdit)

  datatype EditDraft = EditDraft(
    name: string, kind: KindEdit, ssh: SshEditField, mcpWrite: Option<bool>,
    mcpAlias: Option<string>, color: Option<string>, tag: Option<string>)

  // -- field names -----------------------------------------------------------

  const SSH_PASSPHRASE_FIELD: string := "ssh_passphrase"
  const SSH_PASSWORD_FIELD: string := "ssh_password"
  const FIRESTORE_FIELD: string := "service_account"

  function AdapterField(adapter: Adapter): string {
    match adapter
    case TursoRemote => "token"
    case D1 => "token"
    case AuroraDsqlIam => "secret_key"
    case _ => "url"
  }

  /** Every field name a connection's ref can end in. */
  const FIELDS: set<string> := {"url", "token", "secret_key", FIRESTORE_FIELD, SSH_PASSPHRASE_FIELD, SSH_PASSWORD_FIELD}

  // -- normalising -----------------------------------------------------------

  function NormalizeAlias(raw: Option<string>): Option<string> {
    if raw.None? || Trim(raw.value) == "" then None else Some(Trim(raw.value))
  }

  const COLORS: set<string> := {"red", "orange", "yellow", "green", "teal", "blue", "purple", "pink"}
  const TAG_MAX_CHARS: nat := 12

  function NormalizeColor(raw: Option<string>): Result<Option<string>, ConfigError> {
    var name := NormalizeAlias(raw);
    if name.Some? && name.value !in COLORS then Err(UnknownColor(name.value)) else Ok(name)
  }

  function NormalizeTag(raw: Option<string>): Result<Option<string>, ConfigError> {
    var tag := NormalizeAlias(raw);
    if tag.Some? && |tag.value| > TAG_MAX_CHARS then Err(TagTooLong(tag.value)) else Ok(tag)
  }

  // -- checks before any effect ----------------------------------------------

  /** Some entry other than `owner` already answers to `candidate`. */
  predicate HandleTaken(entries: seq<ConnectionEntry>, candidate: string, owner: string) {
    exists e | e in entries :: e.id != owner && (e.id == candidate || e.mcpAlias == Some(candidate))
  }

  function EnsureHandleIsFree(entries: seq<ConnectionEntry>, candidate: string, owner: string)
    : Result<(), ConfigError>
  {
    if HandleTaken(entries, candidate, owner) then Err(DuplicateAlias(candidate)) else Ok(())
  }

  function BuildKind(id: string, draft: KindDraft): (ConnectionKind, seq<SecretWrite>) {
    match draft
    case TursoDraft(path) => (Turso(path), [])
    case SecretBackedDraft(adapter, settings, secret) =>
      var keyRef := KeyringRef(id, AdapterField(adapter));
      (SecretBacked(adapter, settings, keyRef), [SecretWrite(keyRef, secret)])
    case FirestoreDraft(settings, None) => (Firestore(settings, None), [])
    case FirestoreDraft(settings, Some(account)) =>
      var keyRef := KeyringRef(id, FIRESTORE_FIELD);
      (Firestore(settings, Some(keyRef)), [SecretWrite(keyRef, account)])
  }

  function SplitHostKey(hostKey: HostKeyDraft): (Option<string>, Option<string>) {
    match hostKey
    case Fingerprint(digest) => (Some(digest), None)
    case KnownHosts(path) => (None, Some(path))
  }

  function BuildSsh(id: string, draft: SshDraft): (SshTunnel, seq<SecretWrite>) {
    var (fingerprint, knownHosts) := SplitHostKey(draft.hostKey);
    match draft.auth
    case KeyAuth(keyPath, None) =>
      (SshTunnel(draft.host, draft.port, draft.user, Some(keyPath), None, None, fingerprint, knownHosts), [])
    case KeyAuth(keyPath, Some(passphrase)) =>
      var keyRef := KeyringRef(id, SSH_PASSPHRASE_FIELD);
      (SshTunnel(draft.host, draft.port, draft.user, Some(keyPath), Some(keyRef), None, fingerprint, knownHosts),
       [SecretWrite(keyRef, passphrase)])
    case PasswordAuth(password) =>
      var keyRef := KeyringRef(id, SSH_PASSWORD_FIELD);
      (SshTunnel(draft.host, draft.port, draft.user, None, None, Some(keyRef), fingerprint, knownHosts),
       [SecretWrite(keyRef, password)])
  }

  datatype Prepared = Prepared(entry: ConnectionEntry, writes: seq<SecretWrite>)

  /** Everything `add` decides before its first effect: the new entry and the secrets it needs. */
  function PrepareAdd(entries: seq<ConnectionEntry>, draft: ConnectionDraft): Result<Prepared, ConfigError> {
    if FindIndex(entries, draft.id).Some? then Err(DuplicateId(draft.id))
    else
      var alias := NormalizeAlias(draft.mcpAlias);
      var _ :- EnsureHandleIsFree(entries, draft.id, draft.id);
      var _ :- if alias.Some? then EnsureHandleIsFree(entries, alias.value, draft.id) else Ok(());
      var color :- NormalizeColor(draft.color);
      var tag :- NormalizeTag(draft.tag);
      var (kind, writes) := BuildKind(draft.id, draft.kind);
      if draft.ssh.None? then
        Ok(Prepared(ConnectionEntry(draft.id, draft.name, kind, draft.mcpWrite, alias, color, tag, None), writes))
      else if !kind.SupportsSshTunnel() then Err(SshUnsupportedKind(draft.id))
      else
        var (ssh, more) := BuildSsh(draft.id, draft.ssh.value);
        Ok(Prepared(ConnectionEntry(draft.id, draft.name, kind, draft.mcpWrite, alias, color, tag, Some(ssh)),
                    writes + more))
  }

  datatype Marks = Marks(alias: Option<string>, color: Option<string>, tag: Option<string>)

  /** The non-secret half of an edit: absent keeps what is stored, blank clears it. */
  function PrepareUpdate(entries: seq<ConnectionEntry>, existing: ConnectionEntry, draft: EditDraft)
    : Result<Marks, ConfigError>
  {
    var alias := if draft.mcpAlias.None? then existing.mcpAlias else NormalizeAlias(draft.mcpAlias);
    var _ :- if alias.Some? then EnsureHandleIsFree(entries, alias.value, existing.id) else Ok(());
    var color :- if draft.color.None? then Ok(existing.color) else NormalizeColor(draft.color);
    var tag :- if draft.tag.None? then Ok(existing.tag) else NormalizeTag(draft.tag);
    Ok(Marks(alias, color, tag))
  }
}
