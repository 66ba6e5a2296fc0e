/** The shape of `connections.toml` and the checks its loader runs. */
module Store {
  import opened Wrappers
  import opened KeyedVec

  const CONFIG_VERSION: nat := 1

  datatype Adapter =
    | TursoRemote | D1 | Postgres | MySql | Neon | Supabase
    | AuroraDsql | AuroraDsqlIam | MongoDb | Redis

  /** The adapters that keep one mandatory secret differ in its field name and in `settings`, the inline part. */
  datatype ConnectionKind =
    | Turso(path: string)
    | SecretBacked(adapter: Adapter, settings: string, keyRef: string)
    | Firestore(settings: string, accountRef: Option<string>)
  {
    predicate SupportsSshTunnel() {
      SecretBacked? && adapter in {Postgres, MySql, Neon, Supabase, AuroraDsql, Redis}
    }
  }

  datatype SshFault = BothAuthMethods | NoAuthMethod | PassphraseWithoutKey | BothHostKeyPolicies | NoHostKeyPolicy

  datatype SshTunnel = SshTunnel(
    host: string, port: nat, user: string,
    keyPath: Option<string>, passphraseRef: Option<string>, passwordRef: Option<string>,
    fingerprint: Option<string>, knownHosts: Option<string>)
  {
    /** The first thing wrong with the block, in the order the checks run. */
    function Validate(): Option<SshFault> {
      if keyPath.Some? && passwordRef.Some? then Some(BothAuthMethods)
      else if keyPath.None? && passwordRef.None? then Some(NoAuthMethod)
      else if passphraseRef.Some? && keyPath.None? then Some(PassphraseWithoutKey)
      else if fingerprint.Some? && knownHosts.Some? then Some(BothHostKeyPolicies)
      else if fingerprint.None? && knownHosts.None? then Some(NoHostKeyPolicy)
      else None
    }
  }

  datatype ConnectionEntry = ConnectionEntry(
    id: string, name: string, kind: ConnectionKind, mcpWrite: bool,
    mcpAlias: Option<string>, color: Option<string>, tag: Option<string>, ssh: Option<SshTunnel>)

  datatype ConnectionFile = ConnectionFile(version: nat, mcpExport: Option<string>, connections: seq<ConnectionEntry>)

  const EMPTY_FILE: ConnectionFile := ConnectionFile(CONFIG_VERSION, None, [])

  datatype SecretError = SecretNotFound(keyRef: string) | Backend(keyRef: string)

  datatype ConfigError =
    | ParseFailed | UnsupportedVersion(version: nat) | IoFailed | Secret(cause: SecretError)
    | DuplicateId(id: string) | DuplicateAlias(handle: string) | NotFound(id: string) | KindMismatch(id: string)
    | SshUnsupportedKind(id: string) | SshInvalid(id: string, fault: Option<SshFault>)
    | UnknownColor(name: string) | TagTooLong(tag: string) | IndexOutOfRange(index: nat, len: nat)
    | EmptySelection | WeakPassphrase | IncorrectPassphrase | CorruptBundle

  function AsSeq<T>(o: Option<T>): seq<T> {
    if o.Some? then [o.value] else []
  }

  function KindRefs(kind: ConnectionKind): seq<string> {
    match kind
    case Turso(_) => []
    case SecretBacked(_, _, keyRef) => [keyRef]
    case Firestore(_, accountRef) => AsSeq(accountRef)
  }

  function SshRefs(ssh: Option<SshTunnel>): seq<string> {
    if ssh.None? then [] else AsSeq(ssh.value.passphraseRef) + AsSeq(ssh.value.passwordRef)
  }

  /** Every keyring ref an entry carries, kind first and then tunnel. */
  function EntryRefs(entry: ConnectionEntry): seq<string> {
    KindRefs(entry.kind) + SshRefs(entry.ssh)
  }

  function RefSet(entry: ConnectionEntry): set<string> {
    set r | r in EntryRefs(entry)
  }

  function FileRefs(entries: seq<ConnectionEntry>): set<string> {
    set e, r | e in entries && r in EntryRefs(e) :: r
  }

  // -- what the loader accepts ---------------------------------------------

  ghost predicate UniqueIds(entries: seq<ConnectionEntry>) {
    Unique(entries, EntryId)
  }

  /** A tunnel only on a kind that can carry one, with exactly one auth method and one host-key policy. */
  predicate TunnelOk(entry: ConnectionEntry) {
    entry.ssh.Some? ==>
      && entry.kind.SupportsSshTunnel()
      && var ssh := entry.ssh.value;
      && (ssh.keyPath.Some? <==> ssh.passwordRef.None?)
      && (ssh.passphraseRef.Some? ==> ssh.keyPath.Some?)
      && (ssh.fingerprint.Some? <==> ssh.knownHosts.None?)
  }

  ghost predicate Loadable(file: ConnectionFile) {
    && file.version == CONFIG_VERSION
    && UniqueIds(file.connections)
    && forall e | e in file.connections :: TunnelOk(e)
  }

  function CheckTunnel(entry: ConnectionEntry): Option<ConfigError> {
    if entry.ssh.None? then None
    else if !entry.kind.SupportsSshTunnel() then Some(SshUnsupportedKind(entry.id))
    else
      var fault := entry.ssh.value.Validate();
      if fault.Some? then Some(SshInvalid(entry.id, fault)) else None
  }

  /** The first fault the loader meets from entry `i` on, having seen the ids before it. */
  function FirstFault(entries: seq<ConnectionEntry>, i: nat): Option<ConfigError>
    requires i <= |entries|
    decreases |entries| - i
  {
    if i == |entries| then None
    else if exists j | 0 <= j < i :: entries[j].id == entries[i].id then Some(DuplicateId(entries[i].id))
    else if CheckTunnel(entries[i]).Some? then CheckTunnel(entries[i])
    else FirstFault(entries, i + 1)
  }

  function Parse(file: ConnectionFile): Result<ConnectionFile, ConfigError> {
    if file.version != CONFIG_VERSION then Err(UnsupportedVersion(file.version))
    else
      match FirstFault(file.connections, 0)
      case Some(e) => Err(e)
      case None => Ok(file)
  }

  method ParseFile(file: ConnectionFile) returns (r: Result<ConnectionFile, ConfigError>)
    ensures r == Parse(file)
  {
    if file.version != CONFIG_VERSION {
      return Err(UnsupportedVersion(file.version));
    }
    var seen: set<string> := {};
    for i := 0 to |file.connections|
      invariant seen == set j | 0 <= j < i :: file.connections[j].id
      invariant FirstFault(file.connections, 0) == FirstFault(file.connections, i)
    {
      var entry := file.connections[i];
      if entry.id in seen {
        return Err(DuplicateId(entry.id));
      }
      seen := seen + {entry.id};
      var fault := CheckTunnel(entry);
      if fault.Some? {
        return Err(fault.value);
      }
    }
    return Ok(file);
  }

  lemma {:induction false} NoFaultFrom(entries: seq<ConnectionEntry>, i: nat)
    requires i <= |entries|
    ensures FirstFault(entries, i).None? <==>
            && (forall k | i <= k < |entries| :: TunnelOk(entries[k]))
            && (forall j, k | 0 <= j < k && i <= k < |entries| :: entries[j].id != entries[k].id)
    decreases |entries| - i
  {
    if i < |entries| {
      NoFaultFrom(entries, i + 1);
      if FirstFault(entries, i).None? {
        assert forall j | 0 <= j < i :: entries[j].id != entries[i].id;
      }
    }
  }

  /** The loader's scan accepts a file exactly when it meets the declarative conditions. */
  lemma ParseAcceptsExactlyLoadable(file: ConnectionFile)
    ensures Parse(file).Ok? <==> Loadable(file)
    ensures Parse(file).Ok? ==> Parse(file).value == file
  {
    NoFaultFrom(file.connections, 0);
  }

  /** What a fault the loader reports says about the file is true. */
  ghost predicate FaultIsTrue(entries: seq<ConnectionEntry>, error: ConfigError) {
    match error
    case DuplicateId(id) => exists i, j | 0 <= i < j < |entries| :: entries[i].id == id && entries[j].id == id
    case SshUnsupportedKind(id) =>
      exists e | e in entries :: e.id == id && e.ssh.Some? && !e.kind.SupportsSshTunnel()
    case SshInvalid(id, fault) =>
      fault.Some? && exists e | e in entries :: e.id == id && e.ssh.Some? && HasFault(e.ssh.value, fault.value)
    case _ => false
  }

  predicate HasFault(ssh: SshTunnel, fault: SshFault) {
    match fault
    case BothAuthMethods => ssh.keyPath.Some? && ssh.passwordRef.Some?
    case NoAuthMethod => ssh.keyPath.None? && ssh.passwordRef.None?
    case PassphraseWithoutKey => ssh.passphraseRef.Some? && ssh.keyPath.None?
    case BothHostKeyPolicies => ssh.fingerprint.Some? && ssh.knownHosts.Some?
    case NoHostKeyPolicy => ssh.fingerprint.None? && ssh.knownHosts.None?
  }

  lemma {:induction false} FirstFaultIsTrue(entries: seq<ConnectionEntry>, i: nat)
    requires i <= |entries|
    ensures FirstFault(entries, i).Some? ==> FaultIsTrue(entries, FirstFault(entries, i).value)
    decreases |entries| - i
  {
    if i < |entries| {
      FirstFaultIsTrue(entries, i + 1);
      assert entries[i] in entries;
    }
  }

  /** A file turned down is turned down for its version, or for a fault it has. */
  lemma ParseRefusalIsTrue(file: ConnectionFile)
    requires Parse(file).Err?
    ensures if file.version != CONFIG_VERSION then Parse(file).error == UnsupportedVersion(file.version)
            else FaultIsTrue(file.connections, Parse(file).error)
  {
    FirstFaultIsTrue(file.connections, 0);
  }

  lemma SameIdSameEntry(entries: seq<ConnectionEntry>, a: ConnectionEntry, b: ConnectionEntry)
    requires UniqueIds(entries) && a in entries && b in entries && a.id == b.id
    ensures a == b
  {
    var i, j :| 0 <= i < |entries| && 0 <= j < |entries| && entries[i] == a && entries[j] == b;
  }

  // -- list edits -----------------------------------------------------------

  function RemoveAt<T>(s: seq<T>, i: nat): seq<T>
    requires i < |s|
  {
    s[..i] + s[i + 1..]
  }

  function InsertAt<T>(s: seq<T>, i: nat, x: T): seq<T>
    requires i <= |s|
  {
    s[..i] + [x] + s[i..]
  }

  function EntryId(e: ConnectionEntry): string { e.id }

  /** Position of the first entry called `id`. */
  function FindIndex(entries: seq<ConnectionEntry>, id: string): (r: Option<nat>)
    ensures r.Some? ==> r.value < |entries| && entries[r.value].id == id
                        && forall j | 0 <= j < r.value :: entries[j].id != id
    ensures r.None? ==> forall e | e in entries :: e.id != id
  {
    IndexOf(entries, EntryId, id)
  }

  ghost function Ids(entries: seq<ConnectionEntry>): seq<string> {
    seq(|entries|, i requires 0 <= i < |entries| => entries[i].id)
  }

  lemma FileRefsOfConcat(a: seq<ConnectionEntry>, b: seq<ConnectionEntry>)
    ensures FileRefs(a + b) == FileRefs(a) + FileRefs(b)
  {
    assert forall e :: e in a + b <==> e in a || e in b;
  }

  lemma FileRefsOfOne(e: ConnectionEntry)
    ensures FileRefs([e]) == RefSet(e)
  {
  }

  /** Splits the refs of a file at one entry. */
  lemma FileRefsAround(entries: seq<ConnectionEntry>, i: nat)
    requires i < |entries|
    ensures FileRefs(entries) == FileRefs(RemoveAt(entries, i)) + RefSet(entries[i])
  {
    assert entries == entries[..i] + [entries[i]] + entries[i + 1..];
    assert forall e :: e in entries <==> e in RemoveAt(entries, i) || e == entries[i];
  }
}
