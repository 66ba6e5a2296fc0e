/** Bundles, and what importing one decides, writes, saves and purges. */
module Import {
  import opened Wrappers
  import opened Store
  import opened Machine
  import opened Protocol

  // -- the sealed bundle ---------------------------------------------------------

  const BUNDLE_VERSION: nat := 1
  const MIN_PASSPHRASE_LEN: nat := 8

  datatype BundlePayload = BundlePayload(version: nat, connections: ConnectionFile, secrets: map<string, string>)

  /** Encryption is symbolic: only the passphrase a payload was sealed under opens it. */
  datatype Blob = Sealed(payload: BundlePayload, passphrase: string) | NotABundle

  function Utf8Width(c: char): nat {
    var n := c as int;
    if n < 0x80 then 1 else if n < 0x800 then 2 else if n < 0x1_0000 then 3 else 4
  }

  /** Length in bytes, which is what the passphrase policy measures. */
  function Utf8Len(s: string): nat {
    if s == "" then 0 else Utf8Width(s[0]) + Utf8Len(s[1..])
  }

  function Encrypt(payload: BundlePayload, passphrase: string): Result<Blob, ConfigError> {
    if Utf8Len(passphrase) < MIN_PASSPHRASE_LEN then Err(WeakPassphrase) else Ok(Sealed(payload, passphrase))
  }

  function Decrypt(blob: Blob, passphrase: string): Result<BundlePayload, ConfigError> {
    if blob.NotABundle? then Err(CorruptBundle)
    else if blob.passphrase != passphrase then Err(IncorrectPassphrase)
    else if blob.payload.version != BUNDLE_VERSION then Err(UnsupportedVersion(blob.payload.version))
    else Ok(blob.payload)
  }

  // -- deciding ------------------------------------------------------------------

  datatype ImportMode = SkipExisting | OverwriteExisting

  datatype RefusedEntry = RefusedEntry(id: string, keyRef: string, owner: string)

  datatype ImportReport = ImportReport(
    imported: seq<string>, overwritten: seq<string>, skippedExisting: seq<string>,
    duplicateInBundle: seq<string>, refused: seq<RefusedEntry>)

  const EMPTY_REPORT: ImportReport := ImportReport([], [], [], [], [])

  /** `None` appends the entry, `Some(i)` replaces the one at `i`. */
  datatype Change = Change(slot: Option<nat>, entry: ConnectionEntry)

  datatype Plan = Plan(
    accepted: set<string>, owners: map<string, string>, report: ImportReport,
    changes: seq<Change>, writes: seq<SecretWrite>)

  function Claim(owners: map<string, string>, refs: seq<string>, id: string): map<string, string> {
    owners + map r | r in refs :: id
  }

  /** Which connection owns each ref; when two carry the same one, the later. */
  function OwnersOf(entries: seq<ConnectionEntry>): map<string, string> {
    if entries == [] then map[]
    else
      var last := entries[|entries| - 1];
      Claim(OwnersOf(entries[..|entries| - 1]), EntryRefs(last), last.id)
  }

  /** The first of `refs` some other connection owns. */
  function Collision(owners: map<string, string>, refs: seq<string>, id: string): (r: Option<string>)
    ensures r.Some? ==> r.value in refs && r.value in owners && owners[r.value] != id
    ensures r.None? ==> forall k | k in refs && k in owners :: owners[k] == id
  {
    if refs == [] then None
    else if refs[0] in owners && owners[refs[0]] != id then Some(refs[0])
    else Collision(owners, refs[1..], id)
  }

  /** The writes an accepted entry asks for; a ref the bundle has no secret for is left empty. */
  function Seeds(secrets: map<string, string>, refs: seq<string>): seq<SecretWrite> {
    if refs == [] then []
    else if refs[0] in secrets then [SecretWrite(refs[0], secrets[refs[0]])] + Seeds(secrets, refs[1..])
    else Seeds(secrets, refs[1..])
  }

  function PlanOne(existing: seq<ConnectionEntry>, mode: ImportMode, secrets: map<string, string>,
                   p: Plan, entry: ConnectionEntry): Plan
  {
    var id, refs := entry.id, EntryRefs(entry);
    if id in p.accepted then p.(report := p.report.(duplicateInBundle := p.report.duplicateInBundle + [id]))
    else
      var slot := FindIndex(existing, id);
      if slot.Some? && mode.SkipExisting? then
        p.(report := p.report.(skippedExisting := p.report.skippedExisting + [id]))
      else
        var collision := Collision(p.owners, refs, id);
        if collision.Some? then
          var refusal := RefusedEntry(id, collision.value, p.owners[collision.value]);
          p.(report := p.report.(refused := p.report.refused + [refusal]))
        else
          Plan(p.accepted + {id}, Claim(p.owners, refs, id),
               if slot.Some? then p.report.(overwritten := p.report.overwritten + [id])
               else p.report.(imported := p.report.imported + [id]),
               p.changes + [Change(slot, entry)], p.writes + Seeds(secrets, refs))
  }

  /** The plan after the bundle's entries have been considered in order. */
  function PlanAll(existing: seq<ConnectionEntry>, mode: ImportMode, secrets: map<string, string>,
                   entries: seq<ConnectionEntry>): (p: Plan)
    ensures forall c | c in p.changes && c.slot.Some? :: c.slot.value < |existing|
  {
    if entries == [] then Plan({}, OwnersOf(existing), EMPTY_REPORT, [], [])
    else
      var before := PlanAll(existing, mode, secrets, entries[..|entries| - 1]);
      PlanOne(existing, mode, secrets, before, entries[|entries| - 1])
  }

  // -- merging -------------------------------------------------------------------

  datatype Replaced = Replaced(index: nat, entry: ConnectionEntry)

  datatype Merge = Merge(connections: seq<ConnectionEntry>, replaced: seq<Replaced>)

  function MergeOne(m: Merge, c: Change): Merge
    requires c.slot.Some? ==> c.slot.value < |m.connections|
  {
    match c.slot
    case Some(i) => Merge(m.connections[i := c.entry], m.replaced + [Replaced(i, m.connections[i])])
    case None => m.(connections := m.connections + [c.entry])
  }

  function MergeAll(existing: seq<ConnectionEntry>, changes: seq<Change>): (m: Merge)
    requires forall c | c in changes && c.slot.Some? :: c.slot.value < |existing|
    ensures |existing| <= |m.connections|
    ensures forall r | r in m.replaced :: r.index < |existing|
  {
    if changes == [] then Merge(existing, [])
    else MergeOne(MergeAll(existing, changes[..|changes| - 1]), changes[|changes| - 1])
  }

  /** What the purge after an import deletes: per replaced entry, the refs its replacement dropped. */
  function ReplacedOrphans(merged: seq<ConnectionEntry>, replaced: seq<Replaced>): seq<string>
    requires forall r | r in replaced :: r.index < |merged|
  {
    if replaced == [] then []
    else Orphans(replaced[0].entry, merged[replaced[0].index]) + ReplacedOrphans(merged, replaced[1..])
  }

  // -- carrying it out -------------------------------------------------------------

  function ImportBundle(w0: W, fails: Schedule, cache: ConnectionFile, tracks: bool,
                        blob: Blob, passphrase: string, mode: ImportMode): Outcome<ImportReport>
  {
    var synced := Sync(w0, fails, cache, tracks);
    var (w, file) := (synced.world, synced.file);
    if synced.result.Err? then Outcome(w, file, Err(synced.result.error))
    else
      var payload := Decrypt(blob, passphrase);
      if payload.Err? then Outcome(w, file, Err(payload.error))
      else
        var plan := PlanAll(file.connections, mode, payload.value.secrets, payload.value.connections.connections);
        if plan.changes == [] then Outcome(w, file, Ok(plan.report))
        else CommitImport(w, fails, file, plan)
  }

  /** Secrets, then the file, then the purge; a failure before the purge puts every touched slot back. */
  function CommitImport(w: W, fails: Schedule, file: ConnectionFile, plan: Plan): Outcome<ImportReport>
    requires forall c | c in plan.changes && c.slot.Some? :: c.slot.value < |file.connections|
  {
    var (w1, undo, error) := SeedAll(w, fails, plan.writes);
    if error.Some? then Outcome(Replay(w1, fails, undo), file, Err(Secret(error.value)))
    else
      var merge := MergeAll(file.connections, plan.changes);
      var saved := Commit(w1, fails, file, file.(connections := merge.connections), plan.report);
      if saved.result.Err? then saved.(world := Replay(saved.world, fails, undo))
      else saved.(world := DeleteAll(saved.world, fails, ReplacedOrphans(merge.connections, merge.replaced)))
  }
}
