# dbboard settings stores: a verified model

dbboard keeps a user's database connections in two places that no transaction manager ties
together: a list of entries in `connections.toml`, and a keychain whose slots are named by strings
derived from the connection ids. `ConnectionAdmin` adds, edits, deletes, moves, marks, imports and
exports connections in fixed sequences of fallible steps, and promises that the two stores never
drift. This project models that protocol step by step, with a failure or a crash possible at every
step, and proves what it keeps; then it does the same for the code that shares the discipline or sits
beside it: the AI provider admin, the atomic file savers, the two-file mailbox between the MCP server
and the window, the Anthropic stream adapter, the note and saved-query stores, and the percent decoder
of the connection form.

## How it is modelled

- **Two stores and their faults** (`Machine`). A `World` is the disk, the keychain slots, a tick and a
  trace. Every load, save, get, set and delete is one effect; whether it fails is decided by a
  `Schedule` over (effect, tick), and a failed effect changes nothing. The trace records both stores
  after every effect, so a statement about the whole trace is a statement about a crash anywhere. The
  class `Host` is the imperative machine, proved equal to those effects.
- **Specification and class.** Each operation has a specification function over worlds (`Protocol`,
  `Import`, `Export`, `AiSettings`, ...) and a method of a class with the source's fields
  (`Admin.ConnectionAdmin`, `AiAdmin.AiSettingsAdmin`, ...) whose `ensures` says that stores, trace,
  cached file and answer are exactly the specification's. Everything else is lemmas about the
  specification, so it holds of the class.
- **Entries.** The connection kinds are collapsed to what the protocol branches on: no secret
  (`Turso`), one mandatory secret (`SecretBacked`, with the adapter as discriminator, which decides
  the field name and whether a tunnel is allowed) and one optional secret (`Firestore`). Inline
  settings without a role in the protocol are one opaque string. The SSH block is kept in full. Ids
  and refs are real strings, so the arithmetic of `dbboard.{id}.{field}` is part of the proofs.
- **Files.** A TOML file is absent, unreadable, or a parsed value that still has to pass the loader's
  checks. Encryption is symbolic: a blob opens only under the passphrase that sealed it.

## What is proved

- Over every run of calls, imports included, under every schedule of failures and with a crash after any
  effect, every ref on the file then on disk has its secret in the keychain (`RunSafety.RunNeverDangles`).
  Nothing is asked of add, update, delete, move_to and set_mark; an import must bring or find a secret for
  each ref it takes in, be able to read each live secret it is about to overwrite, and borrow no ref another
  id would mint. For single calls the exact conditions are found: `add` is safe if and only if no stored entry
  uses a ref it mints, `update` if and only if it drops no ref another entry carries, `delete` if and only if
  no other entry shares its refs, an import whose reads do no harm if and only if every ref it takes in is
  covered, and an import whose reads may fail if and only if it overwrites no live secret besides.
- Over every run, no step changes the secrets of an entry no call aims at (`RunSecrets.RunKeepsOtherSecrets`).
- The AI provider file and the keychain never drift either (`AiSafety.RunKeepsKeys`), and every file along a
  run is one the loader accepts.
- Each call goes through exactly when it should. With nothing failing, `add`, `update`, `delete`, `move_to`,
  `set_mark`, `import_bundle`, `export_bundle_of` and the AI provider calls succeed if and only if a condition
  holds that a caller can check, stated over what is stored and what is asked, and each refusal gives a true reason
  (`Outcomes`, `Export.ExportRefusalIsTrue`, `AiEffects.CallsSucceedIffInOrder`). A call that cannot read the
  current file refuses rather than overwriting it (`Outcomes.UnreadableStoreIsLeftAlone`).
- A call that fails has changed nothing, with the exact side conditions: `add` undoes by deleting, so
  its slots must have been empty; the undo logs of `update` and the import are replayed first to last, so a
  slot written twice in one call must have held the first value already.
- An export seals every secret of the selection or fails, whatever fails (`Export.ExportIsAllOrNothing`), and an
  import that succeeds, and whose deletes work, leaves no secret behind that the store has stopped naming; where
  no ref was shared it leaves each slot with exactly what it should hold (`ImportEffects.ImportLeavesNoOrphans`, `ImportEffects.ImportSetsEverySlot`).
- Import keeps ownership of refs, its report is an ordered partition of the bundle, export followed by
  import is the identity if and only if the selected entries share no ref, and importing twice is
  importing once: always in skip mode, and in overwrite mode if and only if every refusal still stands.
- Any number of admins taking turns on one store behave as one admin making the same calls.
- What the MCP server is told of a command is what the window reported of that very command in that run, or
  that the window could not be reached (`Mailbox.ExchangeIsAtMostOnceAndMatched`).
- No run, whatever it imports, changes the permission to export. Every file a run leaves is one the loader
  accepts if its imports take in legal tunnels only; no handle comes to name two connections if the entries
  its imports take in fit; an entry no call aims at is never touched. For one import both conditions are exact.

## Where the code and its documentation differ

The model follows the code.

- `keyring_ref` in `ai_settings.rs` relies on the `ai.` infix to keep the provider secrets apart from
  the connection secrets. A connection id may start with `ai.`, so only the field name separates them
  (`Refs.ConnectionRefMeetsAiRef`).
- The stream adapter is documented to emit exactly one `MessageStop`. It does if and only if some event
  stops the message before anything else closes the stream (`Stream.ExactlyOneStopIffStoppedCleanly`). An
  event source that is exhausted without saying so ends the stream with none, a failure ends it with an
  `Err` instead, and an `error` event does not end it at all.
- The connection savers are documented to refuse a temp file left by an interrupted save. A save that
  merely fails can leave one too, exactly when it fails at a write, at the sync, or at both the rename and
  the clean-up, and from then on every save is refused (`AtomicSave.TempIsLeftIffWriteOrCleanupFails`,
  `AtomicSave.LaterSavesAreBlockedIffTempIsLeft`).
- The secret writes of a failed `add` or `import_bundle` are documented to be rolled back. `add` deletes
  what it wrote instead of restoring what was there, and the import takes any failed read to mean an empty
  slot, so each can delete a secret that existed (`Rollback.AddRollsBackIffItsSlotsWereEmpty`,
  `ImportRollback.BlindImportRestoresIffSlotsWereEmpty`, `ImportCrash.ImportIsSafeIffNoLiveSecretIsOverwritten`).
- `restore_applied` and `rollback_secret_writes` promise to put every secret back. They run forwards, so a
  slot written twice ends up with the first of the two new values
  (`UpdateRollback.UpdateRollsBackIffNoSlotIsWrittenTwice`, `ImportRollback.ImportRollsBackIffRepeatsHold`).
- The import does not run the loader's tunnel checks, nor look at aliases, nor insist on the secrets its
  comments call for. It can save a file the loader refuses, make a handle ambiguous, and save an entry whose
  ref resolves to nothing (`ImportReports.ImportedFileLoadsIffAcceptedTunnelsAreLegal`,
  `Handles.MergeIsUnambiguousIffHandlesFit`, `ImportCrash.ImportIsSafeIffCovered`).
- The percent decoder accepts a plus sign for the first digit of an escape, which section 2.1 of RFC 3986
  does not allow (`Percent.DisagreesWithTheRfcIffASignIsMet`).
- `next_seq` takes the highest number either file has seen so that none is reused. Either read falls back to
  0 when a file cannot be read, so a number is fresh if and only if one of the readable files shows the last
  one (`Mailbox.NumberIsFreshIffLastIsKnown`); and a window that cannot read its command file when it
  restarts may run the last command again (`Mailbox.RestartIsHarmlessIffNothingRunsAgain`).

## Model

| member | source | states |
|---|---|---|
| `Refs.SplitInvertsMinting` | crates/dbboard-config/src/admin.rs:1839-1863 | a ref splits into an owner and a field exactly when it was minted from them, dots in the id included |
| `Refs.OwnerOfMintedRef` | crates/dbboard-config/src/admin.rs:1839-1852 | the owner read back from a minted ref is the id it was minted for |
| `Refs.MintingIsInjective` | crates/dbboard-config/src/admin.rs:1839-1841 | two mintings agree only on the same id and field |
| `Refs.RsplitAtLastDot` | crates/dbboard-config/src/admin.rs:1859-1863 | splitting from the right finds a split point exactly when what follows it has no dot |
| `Refs.ConnectionRefMeetsAiRef` | crates/dbboard-config/src/ai_settings.rs:407-409 | a connection ref equals an AI ref exactly when the connection id starts with the infix and the fields agree |
| `Store.ParseFile` | crates/dbboard-config/src/store.rs:534-558 | the loader's loop over a growing set of ids reports the first fault in file order |
| `Store.ParseAcceptsExactlyLoadable` | crates/dbboard-config/src/store.rs:484-558 | the loader accepts a file exactly when ids are distinct and every tunnel is on a kind that supports it with one auth method and one host-key policy |
| `Store.ParseRefusalIsTrue` | crates/dbboard-config/src/store.rs:484-558 | and each refusal names the version, an id listed twice, or an entry whose tunnel has just that fault |
| `Machine.Host.GetSecret` | crates/dbboard-config/src/secrets.rs:53-107 | reads a slot, distinguishing an empty slot from a backend failure, and changes nothing |
| `Machine.Host.SetSecret` | crates/dbboard-config/src/secrets.rs:66-116 | overwrites one slot, or fails and changes nothing |
| `Machine.Host.DeleteSecret` | crates/dbboard-config/src/secrets.rs:74-127 | empties one slot, or fails and changes nothing |
| `Machine.Host.WriteSecret` | crates/dbboard-config/src/admin.rs:1638-1658 | notes the prior value, then writes; a backend error on the read stops it |
| `Machine.Host.ReplayUndo` | crates/dbboard-config/src/admin.rs:1663-1670 | undoes the records first to last, going on past failures |
| `UndoLog.ApplyWriteAccurate` | crates/dbboard-config/src/admin.rs:1638-1658 | a logged write is refused with nothing changed, or made with a truthful record |
| `UndoLog.SeedAllAccurate` | crates/dbboard-config/src/admin.rs:1277-1289 | with honest reads the import's undo log is truthful wherever the writes stop |
| `UndoLog.ReplayRestores` | crates/dbboard-config/src/admin.rs:1335-1347 | a log that names every changed slot and its prior contents, replayed without failures, restores every slot |
| `UndoLog.ForwardUndoIsExactIffNoRefRepeats` | crates/dbboard-config/src/admin.rs:1277-1347 | write-then-undo gives back every keychain if and only if no ref is written twice |
| `EditSteps.ApplySecretsLogged` | crates/dbboard-config/src/admin.rs:1391-1790 | the secret half of any edit is truthfully logged, touches only the entry's refs and those its id can mint, and fills every new ref |
| `CrashSafety.AddKeepsSafe` | crates/dbboard-config/src/admin.rs:655-734 | after every step of add, every ref on disk resolves, given no stored entry uses a ref it mints |
| `CrashSafety.AddIsSafeIffItsRefsAreUnused` | crates/dbboard-config/src/admin.rs:655-734 | that condition is exact over all schedules |
| `CrashSafety.UpdateKeepsSafe` | crates/dbboard-config/src/admin.rs:757-848 | after every step of update, and of its rollback and purge, every ref on disk resolves, given the edit drops no ref that another entry carries |
| `CrashSafety.UpdateIsSafeIffNoSharedRefIsDropped` | crates/dbboard-config/src/admin.rs:757-848 | that condition is exact over all schedules |
| `CrashSafety.ShapeIsRequested` | crates/dbboard-config/src/admin.rs:1391-1790 | the kind and tunnel an edit ends up with depend on the entry and the request only, not on the stores or on what fails |
| `CrashSafety.DeleteKeepsSafe` | crates/dbboard-config/src/admin.rs:863-883 | the same for delete, given no other entry uses the refs purged |
| `CrashSafety.DeleteIsSafeIffRefsNotShared` | crates/dbboard-config/src/admin.rs:863-883 | that condition is exact over all schedules |
| `Rollback.AddRollsBack` | crates/dbboard-config/src/admin.rs:698-730 | a failed add leaves disk, secrets and cache as they were, given its slots were empty |
| `Rollback.AddRollsBackIffItsSlotsWereEmpty` | crates/dbboard-config/src/admin.rs:698-730 | that condition is exact over all one-fault schedules |
| `Rollback.UpdateRollsBack` | crates/dbboard-config/src/admin.rs:757-848 | a failed update that overwrites no slot twice restores every secret it had overwritten, and the cache |
| `UpdateRollback.UpdateRollsBackIffNoSlotIsWrittenTwice` | crates/dbboard-config/src/admin.rs:757-848 | however a checked update fails it restores the keychain, if and only if it does not overwrite one slot twice or that slot held the first new value |
| `UpdateRollback.DoubledSlotIsNotRestored` | crates/dbboard-config/src/admin.rs:1663-1670 | a concrete entry whose own secret sits in its ssh password slot, and an edit of both that is not undone |
| `Rollback.FailedDeleteChangesNothing` | crates/dbboard-config/src/admin.rs:863-883 | a delete that fails has changed nothing, whatever else fails |
| `Rollback.FailedMoveChangesNothing` | crates/dbboard-config/src/admin.rs:908-930 | the same for move_to |
| `Rollback.FailedMarkChangesNothing` | crates/dbboard-config/src/admin.rs:965-994 | the same for set_mark |
| `ImportFacts.PlanAllInv` | crates/dbboard-config/src/admin.rs:1205-1267 | the import's decisions keep accepted ids distinct, aim changes at the right slots, own every accepted ref and queue exactly the bundle's secrets for them |
| `ImportFacts.MergedMembers` | crates/dbboard-config/src/admin.rs:1290-1302 | the merged list holds every change and every entry no change aims at, nothing else, with distinct ids |
| `ImportSafety.MergeKeepsDisjoint` | crates/dbboard-config/src/admin.rs:1205-1302 | in both modes, merging any bundle into a list without shared refs gives a list without shared refs |
| `ImportSafety.PurgeIsAimed` | crates/dbboard-config/src/admin.rs:1318-1322 | the purge deletes only refs that replaced entries carried and no merged entry carries |
| `ImportEffects.DroppedRefsArePurged` | crates/dbboard-config/src/admin.rs:1318-1322 | and it covers them: every ref the old list carried and the merged one does not is on the list of the purge |
| `ImportEffects.ImportLeavesNoOrphans` | crates/dbboard-config/src/admin.rs:1186-1324 | after an import that succeeds no ref the store has stopped naming still has a secret, unless a delete failed; from any file, any bundle, in both modes |
| `ImportEffects.ImportSetsEverySlot` | crates/dbboard-config/src/admin.rs:1277-1322 | from a file with distinct ids and no shared ref, an import that succeeds, and whose deletes work, leaves each slot holding the bundle's secret if it takes the ref in with one, nothing if the store has stopped naming the ref, and otherwise what it held |
| `ImportSafety.ImportKeepsOwnership` | crates/dbboard-config/src/admin.rs:1186-1324 | under every schedule, no step changes a secret of an entry that is not replaced, and the file left has distinct ids and no shared ref |
| `ImportSafety.ImportRollsBack` | crates/dbboard-config/src/admin.rs:1277-1307 | a failed import of entries that each name a ref once restores every slot, the disk and the cache |
| `ImportRollback.ImportRollsBackIffRepeatsHold` | crates/dbboard-config/src/admin.rs:1277-1347 | however an import fails, if its reads are honest, it restores the keychain, if and only if every ref it writes twice held the bundle's value to begin with |
| `ImportRollback.RepeatedRefIsLeftBehind` | crates/dbboard-config/src/admin.rs:1277-1347 | a concrete bundle entry that names one ref twice: a failed import into an empty keychain leaves its secret there |
| `ImportRollback.BlindImportRestoresIffSlotsWereEmpty` | crates/dbboard-config/src/admin.rs:1277-1347 | whichever reads fail besides, it restores the keychain if and only if every slot it writes was empty and none is written twice |
| `ImportCrash.ImportKeepsSafe` | crates/dbboard-config/src/admin.rs:1186-1347 | after every step of an import every ref on disk resolves, as long as each accepted ref has a secret in the bundle or the keychain, and the read before each overwriting of a live secret does not fail |
| `ImportCrash.ImportIsSafeIffCovered` | crates/dbboard-config/src/admin.rs:1250-1289 | as long as those reads do not fail, the import is safe if and only if each accepted ref has a secret in the bundle or the keychain |
| `ImportCrash.ImportIsSafeIffNoLiveSecretIsOverwritten` | crates/dbboard-config/src/admin.rs:1277-1289 | with arbitrary read failures it is safe if and only if, besides, it overwrites no live secret |
| `ImportReports.ImportReportIsAnOrderedPartition` | crates/dbboard-config/src/admin.rs:1201-1302 | every bundle entry is in exactly one list, each list is in bundle order and for its true reason, and the ids are the old ones followed by the imported ones |
| `ImportEffects.EachVerdictIsEarned` | crates/dbboard-config/src/admin.rs:1205-1267 | what becomes of each entry of a bundle, told without the import's bookkeeping, over stored entries that share no ref: a repeat of an entry taken before is a duplicate; else in skip mode one whose id is stored is skipped; else one with a ref that a stored or already taken entry of another id carries is refused; else it is taken |
| `Outcomes.ImportSucceedsIffBundleOpens` | crates/dbboard-config/src/admin.rs:1186-1324 | with nothing failing, an import succeeds if and only if the bundle opens under the passphrase and has this version, and otherwise says which of these it was |
| `Outcomes.UnopenedBundleTouchesNothing` | crates/dbboard-config/src/admin.rs:1186-1200 | a bundle that does not open is turned down with no state showing any change |
| `ImportReports.ImportedFileLoadsIffAcceptedTunnelsAreLegal` | crates/dbboard-config/src/admin.rs:1201-1302 | the merged file is one the loader accepts if and only if every accepted entry has a legal tunnel |
| `Handles.MergeIsUnambiguousIffHandlesFit` | crates/dbboard-config/src/admin.rs:1221-1302 | from an unambiguous file the import saves an unambiguous one if and only if the accepted entries share no handle with each other or with an entry that is not replaced |
| `Handles.ImportedAliasCanClash` | crates/dbboard-config/src/admin.rs:1221-1302 | a concrete bundle whose alias is a stored id makes that handle name two connections |
| `ImportTwice.SkippingTwiceIsSkippingOnce` | crates/dbboard-config/src/admin.rs:1221-1289 | a repeated import in skip mode writes nothing, whatever fails |
| `ImportTwice.OverwritingTwiceIsOnceIffRefusalsStand` | crates/dbboard-config/src/admin.rs:1221-1322 | a repeated import in overwrite mode changes nothing if and only if every refused entry still shares a ref with another stored entry |
| `ImportTwice.NoRefusalsStand` | crates/dbboard-config/src/admin.rs:1234-1245 | in particular when the first run refused no entry |
| `ImportTwice.RefusedEntryIsAcceptedTheSecondTime` | crates/dbboard-config/src/admin.rs:1221-1322 | a concrete bundle whose refused entry is accepted the second time |
| `Export.SelectedSpec` | crates/dbboard-config/src/admin.rs:1035-1058 | a selection is a subsequence of the store and holds exactly the entries asked for |
| `Export.ExportSealsTheSelection` | crates/dbboard-config/src/admin.rs:1124-1148 | an export with every secret present and no failing read succeeds and seals the selection, no export permission, and exactly its secrets |
| `Export.ExportIsAllOrNothing` | crates/dbboard-config/src/admin.rs:1035-1148 | under every schedule, an export succeeds if and only if ids and passphrase pass the checks and each read succeeds; then it seals every secret of the selection, and either way it changes nothing |
| `Export.ExportRefusalIsTrue` | crates/dbboard-config/src/admin.rs:1035-1148 | each refusal is true: nothing selected, an id the store lacks, too short a passphrase, or a ref of the selection whose slot is empty or whose read failed |
| `Export.PolicyCountsBytes` | crates/dbboard-config/src/bundle.rs:348-353 | the length asked of a passphrase is that of its encoding in section 3 of RFC 3629, which is the number of characters exactly for ASCII |
| `Export.CollectSucceedsIffEachReads` | crates/dbboard-config/src/admin.rs:1133-1139 | collecting the secrets succeeds if and only if the read of each ref in turn does |
| `Export.ExportThenImportIsIdentityIffDisjoint` | crates/dbboard-config/src/admin.rs:1035-1324 | exporting and importing into an empty store gives back the selected entries and exactly their secrets if and only if they share no ref |
| `Runs.CacheNeverMatters` | crates/dbboard-config/src/admin.rs:536-541 | what a disk-tracking admin had cached shows neither in the stores nor in the answer |
| `Runs.ManyAdminsRefineOne` | crates/dbboard-config/src/admin.rs:536-994 | any interleaving of whole calls by several admins gives the disk, secrets and answers of one admin |
| `Runs.ExecEdits` | crates/dbboard-config/src/admin.rs:655-994 | every state during a call that is no import shows the file before or one in which a single entry was added, replaced, removed or moved |
| `Runs.ExecChanges` | crates/dbboard-config/src/admin.rs:655-1324 | every state during any call shows the file before or the file after, which for an import is the merged one |
| `RunInvariants.MovedSpec` | crates/dbboard-config/src/admin.rs:908-930 | a move puts one element at its new index and keeps the others in order |
| `RunInvariants.MovingBackUndoes` | crates/dbboard-config/src/admin.rs:908-930 | moving back undoes a move |
| `RunInvariants.RunLeavesLoadableFiles` | crates/dbboard-config/src/admin.rs:655-1324 | every file a run leaves at any step is one the loader accepts, as long as its imports take in legal tunnels only |
| `RunInvariants.RunKeepsHandlesUnambiguous` | crates/dbboard-config/src/admin.rs:1359-1368 | no run makes one handle the id or alias of two entries, as long as the entries its imports take in fit |
| `RunInvariants.RunKeepsExportPermission` | crates/dbboard-config/src/admin.rs:655-1324 | no run, whatever it imports, changes the export permission at any step |
| `RunInvariants.RunKeepsOtherEntries` | crates/dbboard-config/src/admin.rs:655-1324 | every file along a run has every entry that no call names and no import replaces |
| `RunSecrets.RunKeepsOtherSecrets` | crates/dbboard-config/src/admin.rs:655-1324 | no step of a run, under any schedule, changes a slot of an entry that no call names and no import replaces, from a store without shared or foreign-mintable refs whose imports borrow none |
| `RunSafety.NoForeignRefsIffOwn` | crates/dbboard-config/src/admin.rs:1099-1119 | the report of foreign refs is empty exactly when every entry's refs are its own |
| `RunSafety.ForeignRefsAreNamed` | crates/dbboard-config/src/admin.rs:1099-1119 | the report of foreign refs holds a triple of id, ref and owner exactly when a stored entry of that id carries that ref and it was minted for that other owner |
| `RunSafety.RunMintsNoForeignRefs` | crates/dbboard-config/src/admin.rs:1099-1119 | a store without foreign refs acquires none over any run whose imports take in none |
| `RunSafety.RunNeverDangles` | crates/dbboard-config/src/admin.rs:10-26 | over every run, every schedule and a crash after any effect, each ref on disk has its secret; each import must be covered, read each live secret it overwrites, and borrow no ref another id would mint, and the store at the start has distinct ids, no shared ref and none another id would mint |
| `RunSafety.MintedStoresAreSettled` | crates/dbboard-config/src/admin.rs:1839-1841 | any store whose refs the admin minted meets that |
| `Effects.AddStoresTheDraft` | crates/dbboard-config/src/admin.rs:655-734 | a successful add appends an entry that says what the draft said, with its secrets where it points |
| `Effects.SecretsAreNamed` | crates/dbboard-config/src/admin.rs:2031-2125 | the secret of each kind is kept under the field name of that kind |
| `Effects.TunnelSecretsAreNamed` | crates/dbboard-config/src/admin.rs:1891-1929 | and each tunnel secret under its own |
| `Effects.EditsMintTheSameNames` | crates/dbboard-config/src/admin.rs:1391-1790 | an edit mints under the same names, and keeps the ref the entry had where there was one |
| `Effects.UpdateStoresTheEdit` | crates/dbboard-config/src/admin.rs:757-848 | a successful update keeps, sets or clears every field and secret as asked, the tunnel's secret going last should the two share a slot, and changes no other slot |
| `Effects.DeleteDropsTheEntry` | crates/dbboard-config/src/admin.rs:863-883 | a successful delete drops the entry and its secrets and no others |
| `Effects.MovePlacesTheEntry` | crates/dbboard-config/src/admin.rs:908-930 | a successful move leaves the entry at the index asked for, the others in order, the slots alone |
| `Effects.MarkChangesOnlyTheMark` | crates/dbboard-config/src/admin.rs:965-994 | a successful set_mark changes that entry's colour and tag and nothing else |
| `Outcomes.SyncFailsIffUnreadable` | crates/dbboard-config/src/admin.rs:532-541 | the re-read fails if and only if the load does, the file does not parse, or the loader turns it down; it changes nothing, and a failure keeps the cache |
| `Outcomes.UnreadableStoreIsLeftAlone` | crates/dbboard-config/src/admin.rs:532-541 | whichever call is made, one that cannot read the current file fails, and every state along the way shows the disk and the slots it started with |
| `Outcomes.EveryCallAnswersTruly` | crates/dbboard-config/src/admin.rs:655-1324 | under every schedule, a call that fails has not changed the file, and after one that succeeds the admin holds what is on disk |
| `Outcomes.HandleCheckIsExact` | crates/dbboard-config/src/admin.rs:1359-1368 | a handle is refused if and only if an entry of another id has it as id or alias |
| `Outcomes.AddCheckIsExact` | crates/dbboard-config/src/admin.rs:655-697 | add passes its checks if and only if no entry has the id as id or alias, none of another id answers to the trimmed alias, colour and tag are legal, and a tunnel is asked for only on a kind that can carry one |
| `Outcomes.AddSucceedsIffInOrder` | crates/dbboard-config/src/admin.rs:655-734 | with nothing failing, add succeeds if and only if that is so |
| `Outcomes.AddRefusalIsTrue` | crates/dbboard-config/src/admin.rs:655-697 | and each refusal of add gives a reason that is true |
| `Outcomes.MarksCheckIsExact` | crates/dbboard-config/src/admin.rs:757-800 | update passes its checks if and only if no entry of another id answers to the alias it ends up with, kept or new, and a new colour and tag are legal |
| `Outcomes.OwnHandlesAreFree` | crates/dbboard-config/src/admin.rs:1355-1368 | from an unambiguous file, keeping the alias, sending it again or taking the own id for it is never refused |
| `Outcomes.UpdateSucceedsIffInOrder` | crates/dbboard-config/src/admin.rs:757-848 | with nothing failing, update succeeds if and only if the entry is there, those checks pass, the edit is of the entry's kind, it keeps only tunnel secrets that exist, and it sets a tunnel only on a kind that can carry one |
| `Outcomes.UpdateRefusalIsTrue` | crates/dbboard-config/src/admin.rs:757-848 | and each refusal of update gives a reason that is true |
| `Outcomes.DeleteSucceedsIffThere` | crates/dbboard-config/src/admin.rs:863-883 | with nothing failing, delete succeeds if and only if the entry is there, and otherwise says it is not found |
| `Outcomes.MoveSucceedsIffInRange` | crates/dbboard-config/src/admin.rs:908-930 | with nothing failing, move_to succeeds if and only if the entry is there and the index in range, an unknown id being reported before an index |
| `Outcomes.MarkSucceedsIffLegal` | crates/dbboard-config/src/admin.rs:965-994 | with nothing failing, set_mark succeeds if and only if the entry is there and colour and tag are legal, and otherwise says truly why not |
| `Outcomes.IdleCallsWriteNothing` | crates/dbboard-config/src/admin.rs:908-994 | a move to where the entry is, or a mark it carries already, does nothing but read |
| `Outcomes.MarkChecksAreExact` | crates/dbboard-config/src/admin.rs:1809-1836 | a colour is refused if and only if its trimmed name is neither blank nor one of the eight, a tag if and only if it is longer than twelve characters when trimmed |
| `Admin.ConnectionAdmin.Sync` | crates/dbboard-config/src/admin.rs:536-541 | re-reads the file when the disk is the authority, and keeps the cache when it cannot |
| `Admin.ConnectionAdmin.HandleIsFree` | crates/dbboard-config/src/admin.rs:1359-1368 | the loop refuses a handle exactly when an entry of another id has it as id or alias |
| `Admin.ConnectionAdmin.Add` | crates/dbboard-config/src/admin.rs:655-734 | stores, trace, cache and answer are the specification's |
| `Admin.ConnectionAdmin.ApplyUpdateKind` | crates/dbboard-config/src/admin.rs:1391-1636 | the same for the kind half of an edit, its undo log included |
| `Admin.ConnectionAdmin.ApplyUpdateSsh` | crates/dbboard-config/src/admin.rs:1702-1790 | the same for the tunnel half of an edit |
| `Admin.ConnectionAdmin.Update` | crates/dbboard-config/src/admin.rs:757-848 | the same for update, with its rollback and purge |
| `Admin.ConnectionAdmin.Delete` | crates/dbboard-config/src/admin.rs:863-883 | the same for delete |
| `Admin.ConnectionAdmin.MoveTo` | crates/dbboard-config/src/admin.rs:908-930 | the same for move_to, an out-of-range index refused |
| `Admin.ConnectionAdmin.SetMark` | crates/dbboard-config/src/admin.rs:965-994 | the same for set_mark |
| `Admin.ConnectionAdmin.PlanImport` | crates/dbboard-config/src/admin.rs:1205-1267 | the loop over the bundle decides as the specification does, entry by entry |
| `Admin.ConnectionAdmin.ImportBundle` | crates/dbboard-config/src/admin.rs:1186-1324 | stores, trace, cache and report are the specification's |
| `Admin.ConnectionAdmin.ExportBundleOf` | crates/dbboard-config/src/admin.rs:1035-1148 | trace and sealed bundle are the specification's |
| `AtomicSave.Folder.Save` | crates/dbboard-config/src/store.rs:763-797 | create, write, sync and rename leave the directory the specification says, step by step |
| `AtomicSave.ReadersSeeOldOrNew` | crates/dbboard-config/src/store.rs:763-797 | at every step a reader sees all of the old contents or all of the new, the new exactly on success |
| `AtomicSave.OnlyTheRenameTouchesTheTarget` | crates/dbboard-config/src/ui_command.rs:310-344 | everything before the rename leaves the target alone |
| `AtomicSave.NextSaveAfterACrash` | crates/dbboard-config/src/saved_queries.rs:154-188 | after a crash anywhere the tolerant saver can save; the strict one can if and only if no temp file was left, and otherwise changes nothing |
| `AtomicSave.TempIsLeftIffWriteOrCleanupFails` | crates/dbboard-config/src/store.rs:763-797 | a strict save leaves its temp file behind if and only if it fails at a write, at the sync, or at both the rename and the clean-up |
| `AtomicSave.LaterSavesAreBlockedIffTempIsLeft` | crates/dbboard-config/src/store.rs:763-797 | exactly then every later save is refused and changes nothing |
| `AiSettings.ParseProviders` | crates/dbboard-config/src/ai_store.rs:116-133 | the loader accepts a file exactly when ids are distinct and the active pointer is empty or names a provider |
| `AiSettings.RunLeavesAcceptedFiles` | crates/dbboard-config/src/ai_settings.rs:176-327 | from any file the loader accepts, over every run, failed saves included, every file left at any step is one the loader accepts |
| `AiSafety.RunKeepsKeys` | crates/dbboard-config/src/ai_settings.rs:176-400 | over every run, every schedule and a crash after any effect, each provider on disk has its key, from a file with distinct ids and refs and no ref another id would mint |
| `AiSettings.RunTouchesOnlyOurs` | crates/dbboard-config/src/ai_settings.rs:176-409 | no step of a run changes a slot that is neither a stored provider's nor one this admin mints |
| `AiSettings.NoConnectionRefIsAnAiRef` | crates/dbboard-config/src/ai_settings.rs:407-409 | no ref the connection store mints, under any id, is one this admin mints |
| `AiSettings.RunSparesConnectionSecrets` | crates/dbboard-config/src/ai_settings.rs:176-409 | a connection's secret survives every run, unless a stored provider was made to point at it |
| `AiSettings.FailedUpdateRestores` | crates/dbboard-config/src/ai_settings.rs:227-260 | a failed update puts the previous key back exactly |
| `AiSettings.FailedAddRestoresIffSlotWasEmpty` | crates/dbboard-config/src/ai_settings.rs:176-205 | a failed add leaves the slots as they were if and only if its slot was empty |
| `AiEffects.AddedIsFound` | crates/dbboard-config/src/ai_settings.rs:176-205 | a successful add makes the provider findable as drafted with its key in its slot, and touches no other provider, slot or the pointer |
| `AiEffects.UpdatedIsFound` | crates/dbboard-config/src/ai_settings.rs:227-260 | a successful update keeps id, vendor and ref, sets name and model, and sets or keeps the key |
| `AiEffects.DeletedIsGone` | crates/dbboard-config/src/ai_settings.rs:279-298 | a successful delete loses only that provider, its key unless deleting failed, and the pointer if it pointed there |
| `AiEffects.OnlyThePointerMoves` | crates/dbboard-config/src/ai_settings.rs:316-327 | set_active moves only the pointer, and only to a provider that exists or to nothing |
| `AiEffects.EveryCallAnswersTruly` | crates/dbboard-config/src/ai_settings.rs:176-327 | a call that fails has changed neither the file nor the copy of it held; after one that succeeds the two agree |
| `AiEffects.CallsSucceedIffInOrder` | crates/dbboard-config/src/ai_settings.rs:176-327 | with nothing failing, add succeeds if and only if the id is new, update if and only if a provider of that id and vendor exists, delete if and only if one of that id does, and set_active if and only if it is told none or one that exists; each refusal gives a true reason |
| `AiAdmin.AiSettingsAdmin.Add` | crates/dbboard-config/src/ai_settings.rs:176-205 | stores, file and error are the specification's |
| `AiAdmin.AiSettingsAdmin.Update` | crates/dbboard-config/src/ai_settings.rs:227-260 | the same for update, putting the key back on a failed save |
| `AiAdmin.AiSettingsAdmin.Delete` | crates/dbboard-config/src/ai_settings.rs:279-298 | the same for delete, clearing the pointer when it names the provider |
| `AiAdmin.AiSettingsAdmin.SetActive` | crates/dbboard-config/src/ai_settings.rs:316-327 | the same for set_active |
| `Mailbox.NextSeq` | crates/dbboard-config/src/ui_command.rs:211-213 | the next number is above both files' numbers, and saturates instead of wrapping |
| `Mailbox.NumberIsFreshIffLastIsKnown` | crates/dbboard-mcp/src/service.rs:913-926 | whichever files can be read, the server picks an unused number if and only if one of them shows the last, and then the next one |
| `Mailbox.StepKeepsInv` | apps/desktop/src-tauri/src/ui_state.rs:134-192 | every step of either process keeps the numbering, matching and acted-once invariants |
| `Mailbox.ExchangeIsAtMostOnceAndMatched` | crates/dbboard-config/src/ui_command.rs:195-227 | over every run, unreadable files and deletions included, no number is acted on twice, acted numbers rise, and an accepted answer has the verdict and text that a report of this run gave on the command issued under that number, or says that the window could not be reached when it was not |
| `Mailbox.UndisturbedExchangeCompletes` | crates/dbboard-mcp/src/service.rs:907-947 | a command that nothing disturbs is handed over, acted on once, and the server accepts the very verdict and text reported |
| `Mailbox.UnreachableWindowIsReported` | apps/desktop/src-tauri/src/ui_state.rs:144-165 | a window that cannot be reached makes the server accept a refusal that says so |
| `Mailbox.RestartIsHarmlessIffNothingRunsAgain` | apps/desktop/src-tauri/src/ui_state.rs:113-142 | nothing that may follow a restart of the window acts on a number twice, or on one of an earlier session, if and only if the window can read the command file or has nothing old to find there |
| `Mailbox.UnreadableNumberAcceptsAStaleAnswer` | crates/dbboard-config/src/ui_command.rs:276-288 | a run from a left-over answer in which no file shows the last number: the old answer is taken for a new command's |
| `Mailbox.ReadableResultIsNotEnough` | crates/dbboard-mcp/src/service.rs:913-947 | a run in which only the result file can be read and is behind: a late answer is taken for another command's |
| `Mailbox.UnreadableRestartActsTwice` | apps/desktop/src-tauri/src/ui_state.rs:113-142 | a run in which a restarting window that cannot read the command file runs the last command again |
| `Stream.StreamState.Next` | crates/dbboard-anthropic/src/stream.rs:76-134 | one poll of the adapter yields the head of what the script still has to yield |
| `Stream.Drain` | crates/dbboard-anthropic/src/stream.rs:76-134 | polling to the end yields exactly the specified sequence |
| `Stream.MachineMatchesHistory` | crates/dbboard-anthropic/src/stream.rs:76-282 | the output equals the event-by-event reading of the history: each usage has the latest input count or 0, each stop the last reason or EndTurn, nothing follows the first closing event |
| `Stream.OneTerminatorAtTheEnd` | crates/dbboard-anthropic/src/stream.rs:76-134 | a terminator only comes last, and comes exactly when some event closes the stream |
| `Stream.ExactlyOneStopIffStoppedCleanly` | crates/dbboard-anthropic/src/stream.rs:52-134 | the output ends in its one message stop if and only if a message_stop or the natural end comes before anything else that closes the stream, and otherwise holds none |
| `Stream.TextArrivesWholeAndInOrder` | crates/dbboard-anthropic/src/stream.rs:212-237 | the emitted text is the text deltas before the end, in order |
| `Stream.InvisibleIffNoise` | crates/dbboard-anthropic/src/stream.rs:170-282 | an event may be inserted or deleted anywhere without effect exactly when it is an open, an unlisted event, a non-text delta or an empty message delta |
| `Stream.SameUpToNoiseSameStream` | crates/dbboard-anthropic/src/stream.rs:170-182 | scripts that differ only in such events yield the same stream |
| `Stream.NothingAfterTheEnd` | crates/dbboard-anthropic/src/stream.rs:76-134 | whatever follows a closing event is never seen |
| `Stream.StopReasonsAreKeptApart` | crates/dbboard-anthropic/src/stream.rs:284-293 | the raw reason can be read back from the mapped one, so no two are confused |
| `Stream.DocumentedReasonsAreNamed` | crates/dbboard-anthropic/src/stream.rs:284-293 | exactly the five documented reasons are given a name of their own, each its own |
| `Annotations.Parse` | crates/dbboard-config/src/annotations.rs:106-127 | the loader accepts a file exactly when connection ids and, within each, table keys are distinct |
| `Annotations.ColumnNoteIsAMapUpdate` | crates/dbboard-config/src/annotations.rs:272-295 | setting or clearing a column note changes exactly that lookup and leaves no empty stanza |
| `Annotations.TableNoteIsAMapUpdate` | crates/dbboard-config/src/annotations.rs:302-320 | the same for a table's note |
| `Annotations.PrunedSpec` | crates/dbboard-config/src/annotations.rs:377-383 | pruning is invisible to every lookup and leaves nothing idle |
| `Annotations.StoredSpec` | crates/dbboard-config/src/annotations.rs:279-284 | a note of nothing but whitespace stores nothing; of any other, what is left without the whitespace around it |
| `Annotations.RunRefinesMap` | crates/dbboard-config/src/annotations.rs:213-341 | over every run, whichever saves fail, the file holds what a plain map would, and memory and disk agree |
| `AnnotationsStore.TableEntry` | crates/dbboard-config/src/annotations.rs:347-373 | gets or creates the stanza such that writing to it there is writing to it by name |
| `AnnotationsStore.Prune` | crates/dbboard-config/src/annotations.rs:377-383 | the loop prunes as specified |
| `AnnotationsStore.AnnotationsAdmin.SetColumnNote` | crates/dbboard-config/src/annotations.rs:272-295 | stores and file are the specification's; a failed save changes nothing |
| `AnnotationsStore.AnnotationsAdmin.SetTableNote` | crates/dbboard-config/src/annotations.rs:302-320 | the same for a table's note |
| `SavedQueries.Parse` | crates/dbboard-config/src/saved_queries.rs:83-104 | the loader accepts a file exactly when connection ids and, within each, query names are distinct |
| `SavedQueries.WritingPlacesTheQuery` | crates/dbboard-config/src/saved_queries.rs:308-339 | a written query keeps its place when the name is known and goes last when it is new, changing no other query |
| `SavedQueries.RemovingDropsOneQuery` | crates/dbboard-config/src/saved_queries.rs:290-306 | a removal takes out exactly that query and closes the gap, and leaves no empty stanza |
| `SavedQueries.RunRefinesMap` | crates/dbboard-config/src/saved_queries.rs:249-339 | over every run and every pattern of failing saves, answers and contents are a plain map's |
| `SavedQueryStore.SavedQueryAdmin.Add` | crates/dbboard-config/src/saved_queries.rs:249-264 | stores, file and answer are the specification's, a taken name refused |
| `SavedQueryStore.SavedQueryAdmin.Replace` | crates/dbboard-config/src/saved_queries.rs:273-282 | the same for replace |
| `SavedQueryStore.SavedQueryAdmin.Remove` | crates/dbboard-config/src/saved_queries.rs:290-306 | the same for remove |
| `Text.TrimIsTheMiddle` | crates/dbboard-config/src/admin.rs:1797-1800 | trimming takes off all the whitespace at both ends and nothing else |
| `Text.TrimSpec` | crates/dbboard-config/src/saved_queries.rs:348-356 | every text is its trimmed form with whitespace around it, and the trimmed form neither begins nor ends in any |
| `Percent.PercentDecodeLoop` | crates/dbboard-config/src/dsn.rs:85-101 | the index loop computes the recursive decoding, or fails on an escape that is not a number |
| `Percent.HexDigitsInOrder` | crates/dbboard-config/src/dsn.rs:92 | a character is worth n exactly when it is the n-th of the sixteen digits, in upper or lower case |
| `Percent.HexPairsAreNumbers` | crates/dbboard-config/src/dsn.rs:92 | two digits are worth sixteen times the first plus the second |
| `Percent.FormFallsBackToRaw` | crates/dbboard-config/src/dsn.rs:81-83 | what does not decode to valid text is shown as it was typed |
| `Percent.DecodeUndoesEncode` | crates/dbboard-config/src/dsn.rs:81-101 | decoding undoes percent encoding for every set of escaped bytes that contains the percent sign |
| `Percent.DecodeUndoesEncodeIffPercentIsEscaped` | crates/dbboard-config/src/dsn.rs:81-101 | and only for those |
| `Percent.FormShowsWhatWasEncoded` | crates/dbboard-config/src/dsn.rs:81-83 | the form shows an encoded part as the part |
| `Percent.DecodingNeverLengthens` | crates/dbboard-config/src/dsn.rs:85-101 | the decoded text is never longer than the raw one |
| `Percent.PlainTextIsItself` | crates/dbboard-config/src/dsn.rs:85-101 | text without escapes, or with one cut short at the end, is decoded to itself |
| `Percent.IdentityMeansNoCompleteEscape` | crates/dbboard-config/src/dsn.rs:85-101 | the decoder is the identity only on inputs without a complete escape |
| `Percent.AcceptedPairs` | crates/dbboard-config/src/dsn.rs:90-94 | an escape is accepted exactly when it is two digits, or a plus sign and a digit |
| `Percent.SucceedsIffEscapesAreAccepted` | crates/dbboard-config/src/dsn.rs:85-101 | decoding succeeds exactly when every escape a scan meets is accepted, and a decoder that keeps to section 2.1 of RFC 3986 exactly when each is two digits |
| `Percent.DisagreesWithTheRfcIffASignIsMet` | crates/dbboard-config/src/dsn.rs:85-101 | the two decoders disagree on a text if and only if a scan meets an escape with a sign and none that neither accepts |
| `Percent.PlusSignIsAccepted` | crates/dbboard-config/src/dsn.rs:92-94 | for instance on `%+5` |

## Left out

- `admin/repair.rs` (duplicating a connection, repairing foreign refs) is not part of this model.
- age and scrypt cryptography, zeroization, generated passphrases and the OS keychain: kept only as abstract contracts.
- TOML and JSON text: a file is a parsed value, absent, or unreadable; a stream payload is parsed or malformed.
- File permissions and the snapshot taken before an upgrade.
- The inline settings of each connection kind (URLs, regions, database numbers) are one opaque string; an edit replaces it whole.
- `Url` parsing and `set_password` in `dsn.rs`: library behaviour, left abstract. The UTF-8 check is a parameter of the decoder.
- The HTTP calls of the Anthropic adapter, the mapping of transport errors and the wording and truncation of error messages.
- Races finer than one whole admin call: the code re-reads and then saves without a lock, so several admins are interleaved call by call.
- A keychain or disk operation that fails after taking effect: a failed effect is one that changed nothing.
- `Mailbox.ExchangeIsAtMostOnceAndMatched`: does not cover two servers awaiting answers at once, nor numbers at the largest; the conditions on reading a number and on restarting are exact in `Mailbox.NumberIsFreshIffLastIsKnown` and `Mailbox.RestartIsHarmlessIffNothingRunsAgain`.
- `CrashSafety.DeleteKeepsSafe`: says nothing about secrets a failed purge leaves behind, which the code accepts.
- `Export.ExportThenImportIsIdentityIffDisjoint`: the import meets no failure; a failed one is covered by the rollback results.
- Locales, themes, palettes, capability tables, benchmarks and the web front end: enumerations or user interface.
