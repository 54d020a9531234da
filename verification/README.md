# ChromVoid Air: models and proofs

This project models the parts of ChromVoid whose correctness is a matter of whole runs or of exact
arithmetic, and proves what they promise. It is written in Dafny 4.11; `dafny verify dfyconfig.toml`
covers all of it.

**Storage adoption** (`StorageTree`, `StorageCheck`, `VaultLayout`, `Adoption*`). A Tauri vault is moved once into the
root Air uses, under a journal. The data directory is a tree of named entries. A run is a function of the
tree it starts from, of what it meets outside the tree (the pepper, the order in which directories are
listed), and of how many durable writes it makes before the process dies. The central step is
`AdoptionChain.RunIsFollow`: a run, which keeps its decisions in memory, does the same as a process that
forgets everything after each write and starts over from the tree. From that follows crash convergence,
after any number of runs cut anywhere, including in the middle of removing a directory. The second step is
`AdoptionWrites.RunLeads`: from any tree, with any journal already in it, a run is a series of five kinds
of write. From that follows what no run ever does, also when `storage.json` changes between runs.
`AdoptionProcedure` has the procedure itself, changing a directory object write by write, and
`AdoptionOutcomes` says what a run answers when there is nothing to move or it must refuse.

**Revocable transfers** (`FileWriter`, `FileReader`, `CredentialTransfer`,
`CredentialOutcomes`). Each handle is an object with
a small state; around it a state machine interleaves callers, the single Core worker, cancellation and
revocation. The worker checks the authority before it starts and again before it publishes, and each
check is a separate event, so that anything may happen in between. Request identifiers only rise, as the
session demands (crates/client-runtime/src/session.rs:642). What the authority asks besides the
generation (foreground, idle lock, phase) is a free choice at every check.

**Derivative jobs** (`DerivativeJobs`, `DerivativeReaders`). Futures can be dropped at any point while
blocking workers run to completion; locks live in a map of weak references.

**USB accessory** (`UsbAccessory`). One reader per attachment, lent to a succession of sessions.

**One-shot tokens** (`PasswordSave`, `Autofill`). Token stores with expiry. Clocks are parameters.

**Arithmetic and scheduling** (`Quantities`, `Timestamps`, `Batches`). Base 10^9 conversion of hex
quantities, timestamps of section 5.6 of RFC 3339, and the longest-processing-time batch planner of the
iOS test scripts.

Findings, each with the exact condition under which the code does meet the property:

- An adoption of a good vault does not always reach `Complete`: a `mobile_host_mode.json` that does not
  parse stops it at every attempt (`AdoptionGuard.BadSettingsBlock`, and
  `AdoptionGuard.UnreadableSettingsBlock` at a concrete directory). `AdoptionGuard.CompletesExactly` says
  when it completes.
- A reply that claims completion but contradicts the request leaves a file writer closed although it was
  committed a moment before, unless the request was canceled or revoked meanwhile, when it stays committed
  (`FileWriter.InconsistentReply`). `FileWriter.CompletedReplyEnds` says exactly when it ends committed.
- The two hex quantity parsers differ on digits after a plus sign (`Quantities.PlusSignOnlyInU128`);
  `Quantities.ParsersAgree` says where they agree.
- Whether a root without markers whose chunks hold both a file and a link counts as storage, or is an
  error, depends on the listing order (`StorageCheck.FileAndLink`);
  `StorageCheck.RootOrderMattersExactly` says for which roots it does. For a vault that verifies it
  decides nothing (`AdoptionGuard.ConvergesInAnyOrder`); for any other tree it can only make a run refuse
  before it writes (`AdoptionRuns.CrashConvergence`).
- A batch plan depends on the order in which files were found if two of them share weight and name;
  `Batches.PlanIgnoresDiscoveryOrder` says it does so only then.

## Model

| member | source | states |
|---|---|---|
| `StorageTree.CheckComponents` | crates/air-ffi/src/tauri_adoption.rs:295-321 | the component-by-component walk accepts a path exactly when no component is a link or unreachable; missing ones are fine |
| `StorageCheck.ProbeFiles` | crates/air-ffi/src/tauri_adoption.rs:388-404 | the recursion over directory listings, in a given order, gives the answer of that order |
| `StorageCheck.ListedAnswer` | crates/air-ffi/src/tauri_adoption.rs:388-404 | in every order nothing is found exactly when there is neither a file nor a link or special node, and otherwise one of those that are there |
| `StorageCheck.OrderMattersExactly` | crates/air-ffi/src/tauri_adoption.rs:388-404 | two orders give different answers exactly when there is both a file and a link or special node |
| `StorageCheck.RootOrderMattersExactly` | crates/air-ffi/src/tauri_adoption.rs:373-404 | for a root, exactly when no marker is there and its chunks hold both |
| `StorageCheck.FileAndLink` | crates/air-ffi/src/tauri_adoption.rs:373-404 | a concrete root: the file listed first makes it storage, the link first an error |
| `StorageCheck.RootAnswerByLuck` | crates/air-ffi/src/tauri_adoption.rs:373-404 | what an order decides is what the model's flag decides |
| `StorageCheck.EveryLuckHasItsRootOrder` | crates/air-ffi/src/tauri_adoption.rs:373-404 | and either value of the flag is decided by some order |
| `StorageCheck.LuckOnlyFailsAtRoot` | crates/air-ffi/src/tauri_adoption.rs:373-404 | the listing order can only turn an answer into an error |
| `AdoptionGuard.LacksAnyway` | crates/air-ffi/src/tauri_adoption.rs:373-404 | the answer that nothing is there does not depend on the listing order |
| `StorageCheck.LacksExactly` | crates/air-ffi/src/tauri_adoption.rs:373-404 | a root is found to lack storage, in any listing order, exactly when it is missing or is a directory without markers whose chunks are missing or hold only directories |
| `StorageCheck.HoldsByMarker` | crates/air-ffi/src/tauri_adoption.rs:373-387 | a directory with a marker, and no link in place of one, holds storage in any order |
| `StorageCheck.VerifyChunks` | crates/air-ffi/src/tauri_adoption.rs:468-515 | in any listing order a chunk tree is accepted exactly when every entry at every depth fits the three-level shard layout, and a chunk is reported exactly when there is one |
| `StorageCheck.ChunkNamesAreUnique` | crates/air-ffi/src/tauri_adoption.rs:468-515 | in an accepted tree a chunk name occurs at one path only |
| `StorageCheck.VerifyStorage` | crates/air-ffi/src/tauri_adoption.rs:419-463 | a root is accepted exactly when format, chunk layout, salt and master files are as required |
| `VaultLayout.VaultVerifiesExactly` | crates/air-ffi/src/tauri_adoption.rs:419-463 | a root with any chunks stored as Core stores them verifies exactly with format 2, `sharded`, a chunk size, a salt of 16 bytes, or none and no chunks, and master files of 16 and 32 bytes, if any |
| `VaultLayout.StoredFits` | crates/air-ffi/src/tauri_adoption.rs:468-515 | storing a chunk under its first digit and its next two keeps the layout |
| `VaultLayout.LeftoverFits` | crates/air-ffi/src/tauri_adoption.rs:490-494 | what an interrupted write left in a shard is accepted and is no chunk |
| `VaultLayout.OnlyChunksFit` | crates/air-ffi/src/tauri_adoption.rs:468-515 | nothing else is accepted: files other than leftovers have 64 hex digits, lie where these say and hold at least 28 bytes, directories are shards, and there are no links |
| `StorageCheck.VerifiedIsStorage` | crates/air-ffi/src/tauri_adoption.rs:373-463 | a root that verifies is found to contain storage |
| `AdoptionProcedure.DataDirectory.Adopt` | crates/air-ffi/src/tauri_adoption.rs:133-260 | the procedure leaves the tree and the outcome of a run, wherever it is cut; what a run answers and leaves is given by `AdoptionGuard.CompletesExactly`, `AdoptionGuard.CompletionCleansUp` and the lemmas of `AdoptionOutcomes` |
| `AdoptionProcedure.DataDirectory.Finish` | crates/air-ffi/src/tauri_adoption.rs:236-259 | the steps after the vault is confirmed |
| `AdoptionProcedure.DataDirectory.Convert` | crates/air-ffi/src/tauri_adoption.rs:245-251 | host settings are converted, never overwritten, and the step is recorded; what they become is given by `AdoptionGuard.ConvertsExactly` |
| `AdoptionProcedure.DataDirectory.CleanUp` | crates/air-ffi/src/tauri_adoption.rs:252-258 | disposable directories are removed one by one, what cannot be removed is recorded, then the journal completes |
| `AdoptionProcedure.DataDirectory.Save` | crates/air-ffi/src/tauri_adoption.rs:537-553 | a step is appended to the history unless it is already the last |
| `AdoptionProcedure.DataDirectory.VerifyTarget` | crates/air-ffi/src/tauri_adoption.rs:419-463 | true exactly when the target root verifies |
| `AdoptionChain.RunIsFollow` | crates/air-ffi/src/tauri_adoption.rs:133-260 | a run does what starting over from the tree after every write would do |
| `AdoptionChain.NextIsSound` | crates/air-ffi/src/tauri_adoption.rs:133-260 | every single write keeps what the next one relies on |
| `AdoptionChain.TidyFollows` | crates/air-ffi/src/tauri_adoption.rs:590-610 | cleanup resumed from the tree finds the same directories and records the same failures |
| `AdoptionChain.ConvertedRoot` | crates/air-ffi/src/tauri_adoption.rs:561-586 | converting settings keeps a vault verified, found as storage, and converting again changes nothing |
| `AdoptionRuns.RunStaysOnChain` | crates/air-ffi/src/tauri_adoption.rs:133-260 | without a pepper or with an unlucky listing a run makes the same first writes and no others |
| `AdoptionRuns.TornNext` | crates/air-ffi/src/tauri_adoption.rs:590-610 | a removal cut short, leaving any part of the directory, is resumed to the same tree |
| `AdoptionRuns.RunEndsInTime` | crates/air-ffi/src/tauri_adoption.rs:133-260 | no run makes more than nine durable writes |
| `AdoptionRuns.CrashConvergence` | crates/air-ffi/src/tauri_adoption.rs:133-260 | from any tree without a journal, after any number of runs cut anywhere and refused for any reason, one undisturbed run ends with the tree, journal and outcome of a run that was never interrupted, or is refused for its listing order and changes nothing |
| `AdoptionWrites.RunLeads` | crates/air-ffi/src/tauri_adoption.rs:133-260 | from any tree, under any conditions and wherever it is cut, a run is a series of five kinds of write, all for one source and no more than it was given |
| `AdoptionWrites.GoAdmits` | crates/air-ffi/src/tauri_adoption.rs:143-186 | what is established about source, target and journal before the first write |
| `AdoptionSafety.VaultConservation` | crates/air-ffi/src/tauri_adoption.rs:149-260 | in every tree left by any runs, torn removals and, once there is a journal, changes of `storage.json`, the vault is in exactly one root with every entry unchanged and at most `ios_host_mode.json` new; the recorded steps are those that lead to the current one; a vault still at its source has no step beyond `Prepared` |
| `AdoptionSafety.AttemptsKeep` | crates/air-ffi/src/tauri_adoption.rs:133-260 | the same after attempts as they were cut |
| `AdoptionSafety.ChangeKeeps` | crates/air-ffi/src/tauri_adoption.rs:133-260 | each kind of write preserves that invariant |
| `AdoptionSafety.RunKeeps` | crates/air-ffi/src/tauri_adoption.rs:133-260 | so does a run under any conditions, wherever it is cut |
| `AdoptionSafety.JournalsAdvance` | crates/air-ffi/src/tauri_adoption.rs:537-553 | from any tree, whatever happens, the steps recorded later continue those recorded before |
| `AdoptionSafety.ConvertKeeps` | crates/air-ffi/src/tauri_adoption.rs:561-586 | converting settings adds at most one entry and overwrites none |
| `AdoptionSafety.ForeignDataIsSpared` | crates/air-ffi/src/tauri_adoption.rs:133-260 | everything outside the two roots, the journal and the disposable directories never changes by a run |
| `AdoptionSafety.RootsAreSafe` | crates/air-ffi/src/tauri_adoption.rs:281-358 | the configured root, the root a journal names and so the source of every run are strictly below the data directory, without traversal or links, and neither the keystore directory nor above it |
| `AdoptionSafety.ConfiguredRootIsSpelled` | crates/air-ffi/src/tauri_adoption.rs:323-345 | what the configuration spells is the data directory followed by the root |
| `AdoptionSafety.PepperStays` | crates/air-ffi/src/tauri_adoption.rs:347-358 | from any tree no run moves or changes a file in the keystore directory, whatever root the configuration or a journal already there names |
| `AdoptionGuard.AnyOrderAdmits` | crates/air-ffi/src/tauri_adoption.rs:143-186 | for a vault that verifies, the listing order decides nothing |
| `AdoptionGuard.ConvergesInAnyOrder` | crates/air-ffi/src/tauri_adoption.rs:133-260 | for such a vault, after any runs, an undisturbed run in any listing order ends as one that was never interrupted |
| `AdoptionGuard.CompletesExactly` | crates/air-ffi/src/tauri_adoption.rs:133-260 | after any runs, an undisturbed run in any listing order completes exactly when the vault verifies, there is a directory to move it into, and its settings are absent or parse with no link in place of the iOS settings; then the target is the vault, with iOS settings of the same relay, switch and time as the Tauri ones if it had none, the source is gone, and the journal says whether there were Tauri settings |
| `AdoptionGuard.ConvertsExactly` | crates/air-ffi/src/tauri_adoption.rs:561-586 | settings convert exactly under that condition: the three fields are copied where there are no iOS settings, and nothing changes otherwise |
| `AdoptionGuard.CompletionCleansUp` | crates/air-ffi/src/tauri_adoption.rs:252-258 | after completion the directories `logs`, `app_webview` and `cache` are gone, what was of that name but no directory is untouched, and the journal lists exactly those |
| `AdoptionGuard.DefaultRootStarts` | crates/air-ffi/src/tauri_adoption.rs:323-345 | a verified vault at Tauri's default root, with no configuration and no journal, is such a start |
| `AdoptionGuard.SmallestIsAdopted` | crates/air-ffi/src/tauri_adoption.rs:133-260 | a concrete data directory that is adopted whatever interrupts it, in any listing order |
| `AdoptionGuard.BadSettingsBlock` | crates/air-ffi/src/tauri_adoption.rs:245-251 | for a good vault with settings that do not convert, after any attempts the run is refused and the adoption is never complete |
| `AdoptionGuard.UnreadableSettingsBlock` | crates/air-ffi/src/tauri_adoption.rs:561-575 | a concrete data directory, with settings that are not a document, that is never adopted |
| `AdoptionGuard.NoJournalNoChange` | crates/air-ffi/src/tauri_adoption.rs:133-212 | a run that leaves no journal leaves the tree as it was |
| `AdoptionGuard.RetriesAreReadOnly` | crates/air-ffi/src/tauri_adoption.rs:169-234 | with the vault at its place a failed verification is refused as storage unavailable, a missing pepper as pepper unavailable, and neither changes anything; a completed journal makes runs read-only while the source stays empty or is in place |
| `AdoptionGuard.GuardRefuses` | crates/air-ffi/src/tauri_adoption.rs:99-119 | while the vault is at its source the guard refuses, once journaled even if `storage.json` is replaced or removed between runs or after them |
| `AdoptionGuard.GuardAllows` | crates/air-ffi/src/tauri_adoption.rs:99-119 | after completion the guard allows exactly when the configuration, whatever it says by then, resolves to a root without another vault |
| `AdoptionGuard.GuardAllowsAfterAttempts` | crates/air-ffi/src/tauri_adoption.rs:99-119 | with the configuration left alone it allows |
| `AdoptionOutcomes.GuardAllowsExactly` | crates/air-ffi/src/tauri_adoption.rs:99-119 | for any tree the guard allows exactly when the configuration resolves to Air's own root or to one that holds nothing, and there is no journal, or a readable one whose root is Air's own or holds nothing |
| `AdoptionOutcomes.NothingToAdopt` | crates/air-ffi/src/tauri_adoption.rs:139-168 | without a vault and without a journal a run is finished at once, under any conditions and wherever it would be cut |
| `AdoptionOutcomes.FinishedWithoutJournal` | crates/air-ffi/src/tauri_adoption.rs:139-168 | without a journal it is finished at once only then |
| `AdoptionOutcomes.FreshInstallation` | crates/air-ffi/src/tauri_adoption.rs:139-168 | so on a fresh installation |
| `AdoptionOutcomes.TwoVaultsBlock` | crates/air-ffi/src/tauri_adoption.rs:162-164 | a vault in both roots blocks and changes nothing |
| `AdoptionOutcomes.OtherVaultBlocks` | crates/air-ffi/src/tauri_adoption.rs:149-154 | so does a configuration that names another vault than the journal |
| `AdoptionOutcomes.OverlapRefused` | crates/air-ffi/src/tauri_adoption.rs:156-158 | a root above or below Air's own is refused |
| `AdoptionOutcomes.CompletedFinishes` | crates/air-ffi/src/tauri_adoption.rs:169-178 | a completed adoption is finished at once |
| `AdoptionOutcomes.UnknownTargetRefused` | crates/air-ffi/src/tauri_adoption.rs:179-182 | a target with something unknown in it is never replaced |
| `AdoptionOutcomes.LostVaultRefused` | crates/air-ffi/src/tauri_adoption.rs:183-185 | a vault the journal speaks of but neither root holds is an error |
| `AdoptionOutcomes.UnreadableJournalRefused` | crates/air-ffi/src/tauri_adoption.rs:517-535 | a journal that is there but is no document of version 1 for Air's own root is an error |
| `AdoptionOutcomes.UnsafeJournalRefused` | crates/air-ffi/src/tauri_adoption.rs:533-533 | so is one whose source is no proper root, is reached through a link, or holds the keystore |
| `AdoptionOutcomes.NoRootRefused` | crates/air-ffi/src/tauri_adoption.rs:149-161 | a file, or anything but a directory, in place of the source or the target, or of a configured root other than the journal's, is an error |
| `AdoptionOutcomes.NoDirectoryRefused` | crates/air-ffi/src/tauri_adoption.rs:139-140 | so is a data directory that is none, and a link on the way to Air's own root |
| `AdoptionOutcomes.SpelledRootIsFound` | crates/air-ffi/src/tauri_adoption.rs:323-358 | round trip: every proper root below the data directory, reached without links and not holding the keystore, is found when the configuration spells it, with or without white space around |
| `AdoptionOutcomes.DefaultWithoutPath` | crates/air-ffi/src/tauri_adoption.rs:323-345 | a configuration that is missing, unreadable, invalid or blank means the default root |
| `AdoptionOutcomes.UnresolvedRefuses` | crates/air-ffi/src/tauri_adoption.rs:139-141 | a configuration that does not resolve refuses with its reason and changes nothing |
| `AdoptionOutcomes.LinkedConfigurationRefused` | crates/air-ffi/src/tauri_adoption.rs:326-329 | a configuration that is a link is refused |
| `AdoptionOutcomes.RelativePathRefused` | crates/air-ffi/src/tauri_adoption.rs:339-343 | a relative path is refused as outside the data directory |
| `AdoptionOutcomes.TraversalRefused` | crates/air-ffi/src/tauri_adoption.rs:281-298 | a path with `.` or `..` in it is refused |
| `AdoptionOutcomes.ForbiddenPathRefused` | crates/air-ffi/src/tauri_adoption.rs:295-358 | a path beside the data directory is refused as outside it, one to the keystore directory or above as unavailable |
| `FileWriter.UploadResource.Prepare` | crates/client-runtime/src/file_writer.rs:140-192 | a part is admitted exactly when the phase is ready and its length fits; a refusal changes nothing |
| `FileWriter.UploadResource.Execute` | crates/client-runtime/src/file_writer.rs:209-269 | node, progress and commit are recorded from any readable reply, and success only from a consistent one |
| `FileWriter.UploadResource.Publish` | crates/client-runtime/src/file_writer.rs:273-288 | a closed resource stays closed, a failed part closes it, a good one makes it ready again |
| `FileWriter.UploadResource.Drop` | crates/client-runtime/src/file_writer.rs:291-306 | a dropped part closes the resource only while it is still being prepared under its own request |
| `FileWriter.UploadResource.Revoke` | crates/client-runtime/src/upload_resource.rs:61-69 | revocation closes everything but a commit |
| `FileWriter.CommittedFileIsTheParts` | crates/client-runtime/src/file_writer.rs:73-307 | over every run the phase is committed exactly when Core completed the file; a completed file is the admitted parts in order with exactly the declared size; a part on the worker continues where Core stands and fits what is left |
| `FileWriter.CommitIsFinal` | crates/client-runtime/src/file_writer.rs:71-96 | no later cancel, drop, revocation or cleanup undoes a commit |
| `FileWriter.FinishWinsTheRace` | crates/client-runtime/src/file_writer.rs:71-96 | a finish already on the worker commits although a cancel came first |
| `FileWriter.CompletedReplyEnds` | crates/client-runtime/src/file_writer.rs:249-288 | whatever Core claims, after a reply that says completed the resource is committed until publication and from then on exactly when the reply contradicts nothing or publication was refused as canceled, revoked or not accepted |
| `FileWriter.InconsistentReply` | crates/client-runtime/src/file_writer.rs:249-307 | a reply that says completed but not created: published it ends closed, canceled meanwhile it stays committed |
| `FileWriter.FinishIsReached` | crates/client-runtime/src/file_writer.rs:140-192 | a finish on the worker is reached, for an empty file at once |
| `FileWriter.AdmittedExactly` | crates/client-runtime/src/file_writer.rs:140-192 | a ready resource admits exactly the parts of 1 to 1048576 bytes that still fit, and the finish once everything declared is there; anything else changes nothing |
| `FileWriter.UploadGoesThrough` | crates/client-runtime/src/file_writer.rs:140-288 | left alone, any such parts that add up to the declared size become the file |
| `FileWriter.StopIsFinal` | crates/client-runtime/src/file_writer.rs:73-96 | unless the file is complete or its finish is on the worker, a cancel, of the handle or of its request, or a revocation is final: no part is admitted any more and the file is never completed |
| `FileWriter.StopIsCleanedUp` | crates/client-runtime/src/upload_resource.rs:130-148 | once the worker is free, cleanup leaves nothing staged |
| `FileReader.FileReaderHandle.Prepare` | crates/client-runtime/src/file_reader.rs:133-178 | only an idle handle admits a read of 1 to 524288 bytes, pinned to the metadata it has |
| `FileReader.FileReaderHandle.TakeChunk` | crates/client-runtime/src/file_reader.rs:54-76 | a prepared chunk is handed out once; otherwise the state is put back |
| `FileReader.FileReaderHandle.Publish` | crates/client-runtime/src/file_reader.rs:281-295 | only a preparing handle becomes ready, under its own request, or closes |
| `FileReader.FileReaderHandle.CancelRequest` | crates/client-runtime/src/file_reader.rs:298-317 | only the request preparing or ready closes the handle; what that means for later reads is given by `FileReader.CanceledIsNeverTaken` and `FileReader.CancelIsFinal` |
| `FileReader.ChunksAreConsistent` | crates/client-runtime/src/file_reader.rs:54-317 | over every run with replacements, cancels and revocations, all chunks of a handle come from one revision and size; each is the range asked for under its own request cut at the end of the file; empty exactly at the end |
| `FileReader.ReadyIsTheAnswer` | crates/client-runtime/src/file_reader.rs:203-295 | what is ready is the answer to the request it is labelled with |
| `FileReader.ClosedIsFinal` | crates/client-runtime/src/file_reader.rs:78-98 | a closed handle stays closed and hands out nothing |
| `FileReader.CanceledIsNeverTaken` | crates/client-runtime/src/file_reader.rs:298-317 | over every run, after a request is canceled nothing is handed out for it any more |
| `FileReader.CancelClosesItsOwn` | crates/client-runtime/src/file_reader.rs:298-317 | canceling the request a handle is at closes it, canceling another leaves it as it was |
| `FileReader.CancelIsFinal` | crates/client-runtime/src/file_reader.rs:78-98 | a handle canceled, revoked or canceled by its own request is closed for good and hands out nothing more |
| `FileReader.ReadGoesThrough` | crates/client-runtime/src/file_reader.rs:133-295 | a read of 1 to 524288 bytes left alone hands out the range, cut at the end, exactly when the file is still the one pinned and the range starts within it; otherwise it closes the handle |
| `FileReader.ReadRefused` | crates/client-runtime/src/file_reader.rs:133-178 | a read without consent, with a used request number, of no bytes or too many, or from a handle that is not idle changes nothing |
| `FileReader.WorkerHonoursCancel` | crates/client-runtime/src/session.rs:750-762 | canceled or revoked work does not start if queued and is not published if finished |
| `CredentialTransfer.ImportHandle.Append` | crates/client-runtime/src/credential_import.rs:54-78 | a chunk is added, or the handle closes because it is too long or exceeds the declared size |
| `CredentialTransfer.ImportHandle.Review` | crates/client-runtime/src/credential_import.rs:151-196 | exactly the declared bytes leave the handle for the review |
| `CredentialTransfer.ImportHandle.Commit` | crates/client-runtime/src/credential_import.rs:199-233 | the reviewed payload leaves the handle once |
| `CredentialTransfer.ImportHandle.Publish` | crates/client-runtime/src/credential_import.rs:267-280 | only a handle under review becomes ready, or closes |
| `CredentialTransfer.ImportHandle.CancelRequest` | crates/client-runtime/src/credential_import.rs:289-309 | only the handle's own request closes it |
| `CredentialTransfer.ExportHandle.Prepare` | crates/client-runtime/src/credential_export.rs:135-168 | only an idle export is prepared |
| `CredentialTransfer.ExportHandle.ReadChunk` | crates/client-runtime/src/credential_export.rs:61-82 | chunks of at most 65536 bytes from the offset on; the last one exhausts the export |
| `CredentialTransfer.ExportHandle.Publish` | crates/client-runtime/src/credential_export.rs:203-217 | only a preparing export gets its snapshot, or closes |
| `CredentialTransfer.ExportHandle.CancelRequest` | crates/client-runtime/src/credential_export.rs:247-266 | only the export's own request closes it |
| `CredentialTransfer.WriteBounded` | crates/client-runtime/src/credential_export.rs:220-245 | the output is all the pieces exactly when together they are within the limit |
| `CredentialTransfer.AtMostOneAlive` | crates/client-runtime/src/credential_import.rs:98-140 | over every run no two imports or exports are alive together, not even while a canceled worker holds one across a revocation |
| `CredentialTransfer.CommittedOnceAsReviewed` | crates/client-runtime/src/credential_import.rs:151-233 | a handle commits at most once, and only the payload reviewed from exactly the declared bytes |
| `CredentialTransfer.ExportIsOneSnapshot` | crates/client-runtime/src/credential_export.rs:61-82 | the chunks are the beginning of one snapshot; an empty chunk means all of it was delivered |
| `CredentialTransfer.SnapshotIsImmutable` | crates/client-runtime/src/credential_export.rs:203-217 | a published snapshot never changes |
| `CredentialTransfer.RevokedCommitNeverRuns` | crates/client-runtime/src/session.rs:750-762 | a commit still queued when the session is revoked never reaches Core |
| `CredentialOutcomes.StopIsFinal` | crates/client-runtime/src/credential_import.rs:80-95 | over every run, unless a commit is on the worker, a stopped import commits nothing any more and a stopped export hands out nothing any more |
| `CredentialOutcomes.OtherCancelLeaves` | crates/client-runtime/src/credential_import.rs:289-309 | canceling a request that is not the resource's own leaves it as it is |
| `CredentialOutcomes.BeginsExactly` | crates/client-runtime/src/credential_import.rs:98-140 | whatever is alive keeps another import or export from beginning; with nothing alive one begins |
| `CredentialOutcomes.ImportGoesThrough` | crates/client-runtime/src/credential_import.rs:54-280 | left alone, any chunks of up to 65536 bytes that add up to the declared size are reviewed and committed as they are |
| `CredentialOutcomes.ExportGoesThrough` | crates/client-runtime/src/credential_export.rs:61-217 | left alone, an export of up to 16 MiB is delivered whole |
| `CredentialOutcomes.SizesRefused` | crates/client-runtime/src/credential_import.rs:98-112 | nothing, and more than 16 MiB, cannot be imported |
| `CredentialOutcomes.ReceivedExactly` | crates/client-runtime/src/credential_import.rs:54-78 | a chunk is received exactly when it has at most 65536 bytes and fits what was declared; any other closes the import |
| `CredentialOutcomes.ReviewedExactly` | crates/client-runtime/src/credential_import.rs:151-196 | an import is reviewed exactly when all that was declared is there |
| `CredentialOutcomes.ChunkSize` | crates/client-runtime/src/credential_export.rs:61-82 | a chunk of an export is what is left, up to 65536 bytes |
| `CredentialOutcomes.NoConsentNoChange` | crates/client-runtime/src/credential_import.rs:45-78 | without consent or a handle callers change nothing |
| `CredentialOutcomes.UsedRequestsRefused` | crates/client-runtime/src/session.rs:642-644 | a used request number is refused |
| `CredentialOutcomes.WorkerHonoursCancel` | crates/client-runtime/src/session.rs:750-762 | canceled or revoked work does not start if queued and is not published if finished |
| `CredentialOutcomes.FailureCloses` | crates/client-runtime/src/credential_import.rs:246-280 | a review or export that fails, and an export of more than 16 MiB, closes its resource |
| `CredentialOutcomes.FailedCommitIsOver` | crates/client-runtime/src/credential_import.rs:199-233 | a commit that fails commits nothing and cannot be tried again |
| `DerivativeJobs.DerivativeRuntime.Admit` | crates/client-runtime/src/derivative_ensure.rs:402-430 | a slot is taken or the runtime is busy; a live entry's lock is shared, a dead one replaced |
| `DerivativeJobs.DerivativeRuntime.Retain` | crates/client-runtime/src/derivative_ensure.rs:414-414 | exactly the entries whose lock has references stay |
| `DerivativeJobs.LookupKeeps` | crates/client-runtime/src/derivative_ensure.rs:408-430 | every live job's key still leads to its own lock, and no two keys share one |
| `DerivativeJobs.SameKeyIsSerialized` | crates/client-runtime/src/derivative_ensure.rs:402-438 | jobs with one storage key never overlap from taking the lock through commit or rollback; they wait for one lock, and different keys for different ones |
| `DerivativeJobs.WritesAreSettledOnce` | crates/client-runtime/src/derivative_ensure.rs:38-50 | every write result is offered to a commit or rolled back, never both or twice, and by the end of its job |
| `DerivativeJobs.DroppedWritesRollBack` | crates/client-runtime/src/derivative_ensure.rs:276-302 | a write whose future was dropped meanwhile is never offered but rolled back |
| `DerivativeJobs.DroppedJobsEnd` | crates/client-runtime/src/derivative_ensure.rs:38-50 | once its worker returns and its result is dropped, a job whose future was dropped is gone |
| `DerivativeJobs.AtMostEightJobs` | crates/client-runtime/src/derivative_ensure.rs:20-27 | slots are conserved and at most eight jobs are live |
| `DerivativeJobs.JobsGoThrough` | crates/client-runtime/src/derivative_ensure.rs:197-319 | left alone, an uncached job generates, writes once and is offered once, a cached one writes nothing; either way its slot is free again |
| `DerivativeJobs.BusyBeginsNothing` | crates/client-runtime/src/derivative_ensure.rs:402-430 | with eight jobs live no other is begun |
| `DerivativeJobs.FailedWriteLeavesNothing` | crates/client-runtime/src/derivative_ensure.rs:38-50 | a write that fails leaves nothing to settle |
| `DerivativeReaders.DerivativeReader.Read` | crates/client-runtime/src/derivative_ensure.rs:147-177 | one read, with the probe for a byte too many at the declared end |
| `DerivativeReaders.SizeIsEnforced` | crates/client-runtime/src/derivative_ensure.rs:147-177 | over any reads a source of another size than declared is never delivered to the declared end; reaching the end without a failure means the source was delivered whole |
| `DerivativeReaders.EmptyReadIsTheEnd` | crates/client-runtime/src/derivative_ensure.rs:147-177 | an empty read without an earlier failure means everything was delivered |
| `DerivativeReaders.RightSizeNeverFails` | crates/client-runtime/src/derivative_ensure.rs:147-177 | a source of the declared size that does not fail is read without a failure |
| `DerivativeReaders.RightSizeReadsOn` | crates/client-runtime/src/derivative_ensure.rs:147-177 | and every read into a non-empty buffer delivers something until all is delivered |
| `DerivativeReaders.DecoderReader.Read` | crates/client-runtime/src/derivative_ensure.rs:567-597 | one read within the chunk size and the rest of the budget; what a canceled read fetched is counted |
| `DerivativeReaders.BudgetIsKept` | crates/client-runtime/src/derivative_ensure.rs:567-602 | no reads and seeks fetch more than the budget; it is reported exceeded only once used up |
| `DerivativeReaders.WithinBudgetInOrder` | crates/client-runtime/src/derivative_ensure.rs:567-602 | without seeks a source within the budget is delivered in order and never reported exceeded |
| `DerivativeReaders.AnswersFromPosition` | crates/client-runtime/src/derivative_ensure.rs:567-597 | an answer is the source from where the decoder stands, and moves it by as much |
| `DerivativeReaders.SeekThenRead` | crates/client-runtime/src/derivative_ensure.rs:567-602 | after a seek a read delivers the source from the position sought, at least a byte and no more than was asked for, than 131072 bytes and than the budget has left |
| `DerivativeReaders.SpentBudgetFails` | crates/client-runtime/src/derivative_ensure.rs:567-597 | with the budget spent a read that would fetch fails and says why |
| `DerivativeReaders.CanceledDeliversNothing` | crates/client-runtime/src/derivative_ensure.rs:567-597 | a canceled decoder delivers nothing, but what it fetched before it noticed is counted |
| `UsbAccessory.Incoming.ReadInto` | crates/air-ffi/src/usb_accessory.rs:296-319 | one read from the current chunk, refilled from the queue when it is used up |
| `UsbAccessory.BytesAreConserved` | crates/air-ffi/src/usb_accessory.rs:111-142 | on every attachment, what sessions received, then the rest of the chunk, then the queue, is everything the reader queued; at most one session holds the incoming side |
| `UsbAccessory.ReadsContinue` | crates/air-ffi/src/usb_accessory.rs:296-319 | a read hands out the next bytes in the order they were sent |
| `UsbAccessory.NoFalseEnd` | crates/air-ffi/src/usb_accessory.rs:301-318 | a read into a non-empty buffer is empty exactly when the reader is gone and all it queued was delivered |
| `UsbAccessory.IncomingIsNeverLost` | crates/air-ffi/src/usb_accessory.rs:369-380 | the incoming side is parked exactly when no session holds it |
| `UsbAccessory.OneReaderAtATime` | crates/air-ffi/src/usb_accessory.rs:111-127 | an attachment starts only once the readers of earlier ones have ended |
| `UsbAccessory.AttachesExactly` | crates/air-ffi/src/usb_accessory.rs:111-142 | a session gets a fresh attachment exactly when there is none or the last reader has ended; while that one reads it takes over if the incoming side is parked, and is refused if another session holds it |
| `UsbAccessory.HandsOver` | crates/air-ffi/src/usb_accessory.rs:369-380 | a session that ends leaves the incoming side, and what is in it, to the next |
| `UsbAccessory.ReadAmount` | crates/air-ffi/src/usb_accessory.rs:296-319 | a read hands out as much of the current chunk as there is room for |
| `UsbAccessory.DeviceBytesAreSent` | crates/air-ffi/src/usb_accessory.rs:195-209 | what the device hands over is queued, up to 16384 bytes at a time and 16 chunks, and an empty read ends the reader |
| `UsbAccessory.ReadWithRetries` | crates/air-ffi/src/usb_accessory.rs:224-263 | settling errors are tolerated strictly below the budget, a budget of zero acting as one; interruptions and waits are not counted |
| `UsbAccessory.KeepReading` | crates/air-ffi/src/usb_accessory.rs:175-218 | the reader queues exactly the bytes read, in order and in non-empty chunks, until an empty read or an error; settling errors end it only when 4000 before any data, or 400 after, have come since the last bytes |
| `UsbAccessory.NextRead` | crates/air-ffi/src/usb_accessory.rs:185-195 | one turn of the reader loses and repeats no bytes |
| `UsbAccessory.WriteAll` | crates/air-ffi/src/usb_accessory.rs:266-293 | success means exactly the data was taken, anything else a strict prefix |
| `PasswordSave.PasswordSaveStore.Prune` | crates/android-runtime/src/password_save.rs:98-108 | exactly the requests that are neither terminal nor past their lifetime stay |
| `PasswordSave.PasswordSaveStore.Register` | crates/android-runtime/src/password_save.rs:110-133 | a request with a non-blank password is stored under the token |
| `PasswordSave.PasswordSaveStore.Get` | crates/android-runtime/src/password_save.rs:135-147 | what is stored under the token after pruning |
| `PasswordSave.PasswordSaveStore.MarkLaunched` | crates/android-runtime/src/password_save.rs:149-168 | only a pending request is launched |
| `PasswordSave.PasswordSaveStore.Finish` | crates/android-runtime/src/password_save.rs:170-197 | the request is removed and success says it was there |
| `PasswordSave.PasswordSaveStore.InvalidateAll` | crates/android-runtime/src/password_save.rs:199-226 | everything is removed; the count leaves out what had expired |
| `PasswordSave.OneLaunchOneFinish` | crates/android-runtime/src/password_save.rs:149-197 | over every run with fresh tokens a token is launched at most once and finished at most once |
| `PasswordSave.ReadableOnlyWhileAlive` | crates/android-runtime/src/password_save.rs:98-147 | a token yields what was registered under it, only within its lifetime and before it was finished or invalidated |
| `PasswordSave.DeadTokensAreUnusable` | crates/android-runtime/src/password_save.rs:170-226 | after finish or invalidation a token is never readable, launchable or finishable again |
| `PasswordSave.TokenLivesFiveMinutes` | crates/android-runtime/src/password_save.rs:98-168 | a registered token yields its payload and can be launched until exactly five minutes have passed |
| `PasswordSave.TokenGoesThrough` | crates/android-runtime/src/password_save.rs:110-197 | within that time it is launched, still read, and finished, each once, and then gone |
| `PasswordSave.RegisteredExactly` | crates/android-runtime/src/password_save.rs:110-133 | a blank password is not registered, any other is; of the rest exactly what is neither terminal nor expired stays |
| `PasswordSave.OthersAreLeftAlone` | crates/android-runtime/src/password_save.rs:98-226 | what is done with other tokens does not touch one that is alive; invalidating takes all |
| `Autofill.AutofillStore.CreateSession` | crates/android-runtime/src/autofill.rs:91-119 | a session lists exactly the candidates; without candidates there is none |
| `Autofill.AutofillStore.TakeSession` | crates/android-runtime/src/autofill.rs:121-128 | a session is handed out once, before it expires |
| `Autofill.AutofillStore.GetSecret` | crates/android-runtime/src/autofill.rs:539-567 | the session is used up and a secret asked for only if the credential is listed |
| `Autofill.AutofillStore.Prune` | crates/android-runtime/src/autofill.rs:473-476 | exactly the sessions that expire later than now stay |
| `Autofill.OneSecretPerSession` | crates/android-runtime/src/autofill.rs:121-128 | over every run no session serves two secret requests |
| `Autofill.SecretsAreListed` | crates/android-runtime/src/autofill.rs:249-261 | a secret is only asked for a credential listed at creation, in that context, before expiry |
| `Autofill.UsedUpForGood` | crates/android-runtime/src/autofill.rs:539-560 | a session once used, even for a credential it does not list, serves nothing ever after |
| `Autofill.SessionLivesTwoMinutes` | crates/android-runtime/src/autofill.rs:91-128 | a session serves the request for a credential it lists, in its context, until exactly two minutes have passed, and a request for any other never |
| `Autofill.ClosedServesNothing` | crates/android-runtime/src/autofill.rs:130-135 | a closed session serves nothing |
| `Autofill.OthersAreLeftAlone` | crates/android-runtime/src/autofill.rs:91-135 | what is done with other sessions does not touch one that is alive |
| `Quantities.HexQuantityToDecimal` | crates/client-runtime/src/ethereum_rpc.rs:598-629 | the limb loops compute the specified conversion without u64 overflow, every limb below 10^9 |
| `Quantities.TimesSixteenPlus` | crates/client-runtime/src/ethereum_rpc.rs:609-618 | one pass over the limbs multiplies by sixteen and adds the digit |
| `Quantities.DecimalQuantityIsExact` | crates/client-runtime/src/ethereum_rpc.rs:598-629 | for every non-empty hex digit string the output is the canonical decimal of the same number; everything else is refused; the number is pinned by `Quantities.QuantityRoundTrip` |
| `Quantities.NibbleIsPosition` | crates/client-runtime/src/ethereum_rpc.rs:607-607 | a hex digit is one of the sixteen in either case and stands for its position among them |
| `Quantities.DigitIsPosition` | crates/client-runtime/src/ethereum_rpc.rs:619-628 | a decimal digit stands for its position |
| `Quantities.HexRoundTrip` | crates/client-runtime/src/ethereum_rpc.rs:598-618 | a number written in hex, from the sixteen digits, reads as itself |
| `Quantities.QuantityRoundTrip` | crates/client-runtime/src/ethereum_rpc.rs:589-629 | every number written in hex, with any number of prefixes and white space around, becomes its decimal text; the 128-bit parser takes it exactly below 2^128 |
| `Quantities.CanonicalIsUnique` | crates/client-runtime/src/ethereum_rpc.rs:597-597 | a number has one canonical decimal text |
| `Quantities.CheckedHexIsExact` | crates/client-runtime/src/ethereum_rpc.rs:589-595 | the checked 128-bit parser accepts exactly the hex strings below 2^128, with their value |
| `Quantities.ParsersAgree` | crates/client-runtime/src/ethereum_rpc.rs:589-629 | the two parsers agree on every hex string below 2^128 and differ on exactly two families |
| `Quantities.PlusSignOnlyInU128` | crates/client-runtime/src/ethereum_rpc.rs:589-602 | one of those families: digits after a plus sign |
| `Timestamps.CivilDaysCounts` | crates/client-runtime/src/ethereum_rpc.rs:481-492 | for every year, month and day the closed form is the day count obtained by summing Gregorian year and month lengths from 1970-01-01 |
| `Timestamps.ReadsEveryDateTime` | crates/client-runtime/src/ethereum_rpc.rs:444-495 | every date-time of section 5.6 of RFC 3339 is read as the milliseconds of its instant, and as none before 1970 |
| `Timestamps.SameInstantSameMillis` | crates/client-runtime/src/ethereum_rpc.rs:444-495 | spellings of one instant under different offsets give the same result |
| `Timestamps.ReadExactlyInRange` | crates/client-runtime/src/ethereum_rpc.rs:444-480 | of the texts of the right shape exactly those are read whose month, day, hour, minute and second are in range, sixty seconds included |
| `Timestamps.PaddedTextReads` | crates/client-runtime/src/ethereum_rpc.rs:445-445 | white space around a text does not matter |
| `Timestamps.ExtraPartRefused` | crates/client-runtime/src/ethereum_rpc.rs:447-473 | a fourth part of the date or of the clock is refused |
| `Timestamps.IntegersParseExactly` | crates/client-runtime/src/ethereum_rpc.rs:447-473 | integers are read with an optional sign, within 64 and 32 bits, a minus only where negative numbers exist |
| `Batches.Balance` | apps/IOS-air/scripts/test-batches.py:106-115 | the loops over groups and weights compute the specified plan, which the rows below describe |
| `Batches.FirstLightest` | apps/IOS-air/scripts/test-batches.py:112-112 | the lightest batch, the first one on a tie |
| `Batches.PlanIsPartition` | apps/IOS-air/scripts/test-batches.py:106-115 | the batches are non-empty, no more than there are files and no more than asked for (at least one), and together a permutation of the files |
| `Batches.UsesWhatIsAsked` | apps/IOS-air/scripts/test-batches.py:108-115 | when every file weighs something exactly as many batches are used as asked for, at least one and at most that of the files |
| `Batches.OneBatchIsInOrder` | apps/IOS-air/scripts/test-batches.py:111-115 | a single batch lists the files heaviest first and equal weights by name |
| `Batches.NamesCompare` | apps/IOS-air/scripts/test-batches.py:111-111 | names compare character by character, a shorter beginning first |
| `Batches.TiesGoFirst` | apps/IOS-air/scripts/test-batches.py:112-112 | among batches of one weight the next file never goes to a later one |
| `Batches.PlanWithinBound` | apps/IOS-air/scripts/test-batches.py:106-115 | for the number m asked for, at least one and at most that of the files, 3m times any batch is at most (4m - 1) times the heaviest batch of any other split into m |
| `Batches.PlanWithinUsedBound` | apps/IOS-air/scripts/test-batches.py:106-115 | the same for the number of batches actually used |
| `Batches.PlanIgnoresDiscoveryOrder` | apps/IOS-air/scripts/test-batches.py:106-115 | the plan is the same for every order of discovery exactly when no two different files share weight and name |
| `Batches.OrderShows` | apps/IOS-air/scripts/test-batches.py:111-111 | two files that share them stay in the order they were found in, and the plan shows it |

## Left out

- `StorageTree.Data`: a file is raw bytes or a document that parses; a chunk or salt file whose bytes happen to parse as one of the documents is not distinguished.
- `Adoption.Run`: input and output errors other than those the tree explains (permissions, a full disk) are only modelled as the run stopping there; a removal that fails for such a reason is not recorded as failed.
- `Adoption.ReadJournal`: timestamps, and path texts in the journal that spell a root in another way than its components.
- `AdoptionSafety.AfterTurn`: before there is a journal the configuration stays as it is; a vault nothing names any more cannot be found.
- The identity check around the adoption, and a `dataDir` that is itself relative, a link or has traversal parts: the caller has validated it.
- `Timestamps.ToUnixMillis`: i64 overflow for years far outside four digits.
- The fee estimate of the Ethereum provider, and all HTTP and JSON handling: a selection and plumbing.
- `Batches.Plan`: discovering test files, filtering suites, and sorting the suite names within a batch.
- `FileWriter.CoreUpload`: Core is modelled as one that takes a part at the end of what it has, or refuses and keeps what it has; what a failing Core has staged is not.
- `FileWriter.Step`: the `cleanup_queued` flag and the fence of `cancel_and_wait`; a cleanup may happen whenever the worker is free.
- `FileReader.AfterFetch`: Core honours the revision it is told to expect; the other mismatches the code refuses are one failure.
- The limit of eight file readers, and one upload per session: list lengths.
- `CredentialTransfer.Ended`: publishing and dropping a job are one event.
- Credential formats, preview and Core's own import: a payload is the bytes it was reviewed from, and a review or commit may fail.
- `DerivativeJobs.Step`: panics, what is generated and what Core does with an offered write.
- `DerivativeReaders.ReadSized`: a declared size of zero is never compared with the source, as in the code.
- `UsbAccessory.KeepReading`: sleeping, logging and the descriptor; the closed flag is only set by the reader itself after its loop.
- `PasswordSave.Step`: tokens are assumed fresh, as random ones are; a second registration of a token is no event.
- Zeroization, fairness of locks and of the dispatcher's priorities, auto-lock, peers, backup, restore and erase.
