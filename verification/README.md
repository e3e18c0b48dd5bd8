# A Dafny model of Send-RS

Send-RS transfers files in chunks that can be resumed, lets a sender and its receivers meet through
small files in a session directory, and relays signaling messages over WebSockets. This project models
these three parts and proves what they keep, whatever fails and however they interleave.

## The transfer engine

- `FileBytes.dfy`: files as byte sequences, `set_len`, `read_exact`, writes at an offset, and the cut of
  a file into chunks. A digest carries its preimage, which makes it collision-free.
- `Bitmap.dfy`: the packed resume bitmap, on values and in place.
- `Device.dfy`: the system calls. Each call takes one tick of a clock, and an environment `Env` decides
  for each tick whether the call succeeds, fails part-way (a torn write inside its own range, a
  checkpoint that is old, new or unreadable), or is the moment the process dies. The environment also
  says what a read of the source sees at each tick, so the source may change at any time, and how many
  bytes one `read` returns. `FileSystem` is the disk as an object.
- `Manifest.dfy`: `build_entry`, `verify_entry`, and the tallies behind `done_size` and `total_size`.
- `Transfer.dfy`: `Execute`, the state in which a run of `execute_local_transfer` ends, as a function of
  the environment, the disk and the resume bits.
- `TransferEngine.dfy`: the same run on objects, with its three loops, the manifest's bitmaps updated in
  place and the disk written in place; `ExecuteLocalTransfer` is proved to end where `Execute` does.
- `TransferSafety.dfy`, `TransferTheorems.dfy`: the invariant of the chunk loop and of the entry loop,
  and the results about one run. `TransferCrash.dfy`: runs that are stopped at any call and started again
  from the checkpoint.
- `TransferOutcome.dfy`: which call ends a run and with which error, what it has reported by then, and what
  becomes of a source that was edited after the build.

"Any pattern of failures" and "interrupted at any call" are the quantifier over `Env`. A call that
kills the process is the last one of its run, and the state then shows both what memory held and what
the disk holds.

## The handshake

- `Handshake.dfy`: a transition system. An action is one file operation or prompt of the sender or of one
  receiver, or the sender's whole transfer (which is `Execute`); its progress reports are separate
  actions. Pairing is two, a read of the trust store and a write; other programs may pair as well.
  Removals and writes may fail, and every process may stop anywhere.
- `HandshakeRuns.dfy`: the state at each moment of a run, and pieces of example runs.
- `HandshakeSafety.dfy`, `HandshakeTheorems.dfy`: invariants of every reachable state, and what a report of
  completion is worth.
- `HandshakeFiles.dfy`: what stands in the shared files, and what a receiver has been through.
- `HandshakeClaims.dfy`: exactly when a claim is served again. `HandshakeConsent.dfy`: exactly whose yes lets
  a transfer begin, and from when it is. Each has example runs.
- `HandshakeTrust.dfy`: the trust store, which every pairing reads and later writes back whole, so that
  pairings can undo each other; exactly when they do.
- `SendLoop.dfy`: the serving part of the sender's loop on objects, with the one manifest that all claims
  share.

## The signaling relay

- `Relay.dfy`: a transition system over connections; handling one frame is one action, because the lookup
  and the push happen under one read lock. `RelayServer.dfy`: one handler from accept to cleanup, on the
  shared state, with the others in between.

## Hypotheses

- A file does not change while `hash_file` reads it, and a `read` fills the buffer except at the end of
  the file (`FullReads`). Only the chunk hashes of a new entry need the second one, exactly as
  `BuildEntryIsBuilt` and `BuildAllIsBuilt` say; the file hash does not, and `ShortReadsRejectFreshEntry` shows what happens to
  an entry without it.
- Relative paths of a manifest are pairwise distinct; nobody else writes the target during a run.
- `source_path.is_file()` has one answer during a run.
- Claim ids are unique, so the model names a receiver process by its claim id. `receiver.json`,
  `state.json` and the trust store are each read and written whole. A read and a later write are two
  actions.

Where the repository's documentation promises more than its code, the model follows the code. Its README
says that a first connection requires both sides to type yes; in the code a yes file carries no claim id,
so the yes that starts a transfer may be another receiver's (`YesMayBeAnothers`), and a yes left by a
removal that failed counts too (`OldYesWhenRemovalFails`). It says that trusted peers skip confirmation
from then on; an entry of the trust store can be lost to a pairing that read the store before
(`ReceiverIsForgotten`, `SenderIsForgotten`). It speaks of checkpoint resume; the checkpoint is saved with
a plain write, so it can be torn, and the model has `Unreadable` for that.

## Model

| member | source | states |
|---|---|---|
| FileBytes.ChunkIndex | crates/transfer/src/lib.rs:197-205 | a chunk index is below the chunk count exactly when its offset lies inside the file and its read length is positive, so `chunk_idx * chunk_size` stays below the file size and `continue` on length 0 never skips a chunk of a built entry |
| FileBytes.OffsetIsProduct | crates/transfer/src/lib.rs:200 | the offset of a chunk, defined as a sum, is `chunk_idx * chunk_size` |
| FileBytes.ChunkCountIsCeil | crates/transfer/src/lib.rs:345-362 | the number of chunks is the size divided by the chunk size, rounded up |
| FileBytes.ChunkRanges | crates/transfer/src/lib.rs:197-205 | chunk ranges are nonempty, disjoint, adjacent, inside the file, and the last one ends at the end of the file |
| FileBytes.ChunksPartition | crates/transfer/src/lib.rs:345-362 | the chunks concatenate to the whole file for every positive chunk size |
| FileBytes.ChunkwiseEquality | crates/transfer/src/lib.rs:197-255 | two files of one length are equal exactly when they agree on every chunk |
| FileBytes.SetLenBytes | crates/transfer/src/lib.rs:194-195 | byte for byte: what lies inside the new length stays, and what is new is zero |
| FileBytes.WriteAtBytes | crates/transfer/src/lib.rs:303-305 | byte for byte: the data stands at its offset and every other byte stays |
| Bitmap.GetAfterSet | crates/transfer/src/lib.rs:364-383 | setting or clearing one bit changes the reading of that index and of no other; an index past the end changes nothing |
| Bitmap.BitLayout | crates/transfer/src/lib.rs:364-383 | index 0 is the lowest bit of the first byte and index 8 the lowest of the second |
| Bitmap.PackedIsSet | crates/transfer/src/lib.rs:364-383 | over any sequence of marks and clears the packed bytes equal a set of indices below 8 times the length |
| Bitmap.SetBitmap | crates/transfer/src/lib.rs:364-374 | the in-place update is the one that GetAfterSet describes, with nothing done past the end |
| Device.HashFileWhole | crates/transfer/src/lib.rs:345-362 | however many bytes each read returns, a file hash that comes back is the hash of the whole content |
| Device.HashLoopChunks | crates/transfer/src/lib.rs:351-359 | the pushed hashes are those of the chunks of the file, in order, one for each, exactly when every read filled the buffer or came up to the end |
| Device.HashContent | crates/transfer/src/lib.rs:345-362 | the read loop ends as HashFile does, and its file hash is that of the whole content |
| Device.FileSystem.Copy | crates/transfer/src/lib.rs:284-307 | reading, hash check and in-place write of one chunk, with the error cases: source error, short source, wrong hash, torn write |
| Device.FileSystem.Verify | crates/transfer/src/lib.rs:309-321 | whether the target range has the expected hash, or why it could not be read |
| Device.FileSystem.SaveManifest | crates/transfer/src/lib.rs:117-121 | the checkpoint after a save that succeeded, failed or was cut off |
| Manifest.BuildEntryIsBuilt | crates/transfer/src/lib.rs:323-343 | an entry made of a stable file records its size, its hash, and the hash of each of its ceil(size / chunk size) chunks, exactly when the reads of that pass were full |
| Manifest.BuildAllIsBuilt | crates/transfer/src/lib.rs:54-102 | a manifest made of stable files names them in order, and records every one of them exactly when the pass over each file read it in whole chunks |
| TransferEngine.BuildManifest | crates/transfer/src/lib.rs:54-102 | the build loop returns those entries with clear bitmaps, an own bitmap for each, and the default chunk size for 0; it returns none exactly when a file could not be read |
| Manifest.VerifyDecidesEquality | crates/transfer/src/lib.rs:104-115 | a verdict is "same" exactly when the current content equals the content at build time and the reads of this pass were full: never wrong when it says "same", and an unchanged file is accepted exactly when it was read in whole chunks; with no fault there is a verdict |
| Manifest.ShortReadsRejectFreshEntry | crates/transfer/src/lib.rs:351-359 | a file, a chunk size and short reads for which a fresh entry is rejected |
| TransferEngine.CheckEntry | crates/transfer/src/lib.rs:104-115 | the comparison of the recalculated entry with the recorded one |
| Manifest.TallyUpdate | crates/transfer/src/lib.rs:212-226 | flipping one bit moves `done_size` by the length of that chunk, and the count of marked chunks by one |
| Manifest.TallyBound | crates/transfer/src/lib.rs:385-411 | `done_size <= total_size`, with equality exactly when every bit of every entry is set |
| Manifest.DoneSizeOfEntry | crates/transfer/src/lib.rs:389-411 | the bytes counted for an entry are the byte positions in the union of its marked chunks |
| TransferSafety.AttemptsEffect | crates/transfer/src/lib.rs:220-240 | any number of attempts at a chunk changes no byte outside its range and no other file, and success leaves the hashed chunk there |
| TransferSafety.StaleBitCleared | crates/transfer/src/lib.rs:211-218 | clearing a stale bit takes exactly that chunk off the counter, so the saturating subtraction never saturates |
| TransferSafety.ChunkStepRuns | crates/transfer/src/lib.rs:197-250 | one turn of the chunk loop keeps its invariant: `bytes_done == done_size` and equals the last number reported, earlier chunks right and marked, later ones untouched; or it stops with the frame of a stopped chunk |
| TransferSafety.ChunkLoopFinished | crates/transfer/src/lib.rs:197-255 | when the chunk loop is through, the target equals the snapshot byte for byte, even if the source changed since the build |
| TransferSafety.EntryStepRuns | crates/transfer/src/lib.rs:156-258 | one turn of the entry loop keeps its invariant: earlier entries complete, later entries and all other files untouched, counter and reports right |
| Device.RetriesUntilSuccess | crates/transfer/src/lib.rs:220-250 | the result of the retries is that of the last attempt made, all before it were refused, and only after the last allowed attempt is a chunk given up |
| TransferEngine.CopyWithRetries | crates/transfer/src/lib.rs:220-240 | the retry loop: at least one attempt, at most `max_retries`, ended by the first success |
| TransferEngine.VisitChunk | crates/transfer/src/lib.rs:197-250 | the body of the chunk loop on objects computes the chunk step |
| TransferEngine.TransferEntry | crates/transfer/src/lib.rs:156-258 | the body of the entry loop on objects, with the chunk loop in it, computes the entry step |
| TransferEngine.ExecuteLocalTransfer | crates/transfer/src/lib.rs:129-270 | the whole call on objects: final disk, final bitmaps, progress events and result are those of `Execute`, about which the following rows speak |
| TransferTheorems.BuiltManifestIsReady | crates/transfer/src/lib.rs:54-102 | a manifest built from a stable source meets the hypotheses of the following rows exactly when the build read every file in whole chunks |
| TransferTheorems.ResumeIsCorrect | crates/transfer/src/lib.rs:129-270 | for any resume bits, any contents of the target and any failures: Ok means that every file stands at the target root, the root name and its relative path (a single file at the root name itself), equals the snapshot, and has every bit set |
| TransferTheorems.OkReportIsFull | crates/transfer/src/lib.rs:145-269 | from any start, Ok comes with `bytes_done == bytes_total` and `files_completed == files_total`, and the last progress event reported the total |
| TransferTheorems.CleanRunFinishes | crates/transfer/src/lib.rs:129-270 | with no failing call and an unchanged source the run returns Ok, from any start |
| TransferTheorems.ProgressIsMonotone | crates/transfer/src/lib.rs:146-234 | however the run ends, reported bytes never go back and never pass the total, and there is at most one event more than there are chunks |
| TransferTheorems.MismatchIsUnreachable | crates/transfer/src/lib.rs:252-255 | for a built manifest "file hash mismatch" is never what ends a run, even if the source changed since the build |
| TransferTheorems.FailureFrame | crates/transfer/src/lib.rs:156-250 | what a run that ends in "copy chunk failed" leaves: earlier entries complete, later ones untouched, earlier chunks right and marked, the bit of the chunk clear, later chunks as they were after `set_len` |
| TransferTheorems.ErrorFrame | crates/transfer/src/lib.rs:156-258 | whatever error about an entry ends a run, earlier entries are complete and later ones untouched, and so is the entry itself if its source could not be opened |
| TransferOutcome.KilledByLastCall | crates/transfer/src/lib.rs:129-270 | a run ends, and it is killed exactly when its last call kills it; no call before that does |
| TransferOutcome.RunReturns | crates/transfer/src/lib.rs:129-270 | where no call kills the process, the run returns Ok or an error |
| TransferOutcome.GivesUpExactly | crates/transfer/src/lib.rs:220-250 | a chunk is given up with "copy chunk failed" exactly when `max_retries` attempts, but at least one, are all refused; a copied chunk stops the run exactly when its save fails |
| TransferOutcome.WhenRefused | crates/transfer/src/lib.rs:284-307 | an attempt is refused exactly when a call fails, or the source is gone, too short, or has other bytes in that range |
| TransferOutcome.GivesUpOnlyWhenRefused | crates/transfer/src/lib.rs:220-250 | over a whole run: "copy chunk failed" comes only after all attempts at that chunk were refused, and they were the last thing the run did |
| TransferOutcome.EditedSource | crates/transfer/src/lib.rs:197-250 | with no failing call but a source edited since the build: Ok exactly when each chunk is still in the source, or marked and already in place in the target; otherwise "copy chunk failed" for the first chunk that is neither |
| TransferOutcome.MarkedChunk | crates/transfer/src/lib.rs:207-218 | a marked chunk that cannot be read back stops the run, one that is right is left alone, and any other is copied like an unmarked one |
| TransferOutcome.OpenEntryErrors | crates/transfer/src/lib.rs:179-195 | each of the four calls that open an entry has its own error; the target is not touched before the source is open |
| TransferOutcome.CheckErrors | crates/transfer/src/lib.rs:252-257 | the check of the whole file has one error for a target that cannot be read and one for another hash |
| TransferOutcome.FirstAndLastCall | crates/transfer/src/lib.rs:138-152 | a target root that cannot be made ends the run before anything is reported; the last save decides between Ok and an error |
| TransferOutcome.OneReportForEachCopy | crates/transfer/src/lib.rs:149-234 | the first report is of the bytes the run starts with, and then there is one for each copied chunk, naming the files in the order of the manifest; a run that stops may have copied one chunk it did not report |
| TransferOutcome.NoCheckpointWithoutPath | crates/transfer/src/lib.rs:226-228 | without a checkpoint path nothing is saved |
| TransferTheorems.OtherFilesUntouched | crates/transfer/src/lib.rs:156-258 | however a run ends, a file that is no target of the manifest is as it was |
| TransferTheorems.NothingOutsideTarget | crates/transfer/src/lib.rs:173-177 | whatever the manifest and however the run ends, nothing outside the root name in the target directory is touched |
| TransferTheorems.CompleteStaysComplete | crates/transfer/src/lib.rs:186-214 | a run on a complete target writes no file, copies no chunk and changes no bit, even if it is interrupted |
| TransferTheorems.RerunIsIdle | crates/transfer/src/lib.rs:488-498 | running again after Ok gives the same files, bits and report, with exactly one progress event |
| TransferTheorems.AnyManifestIsVerified | crates/transfer/src/lib.rs:252-257 | for a manifest of unknown origin, with any chunk size: after Ok a target has the recorded file hash exactly when the chunk size is not 0 or the entry is empty |
| TransferTheorems.ZeroChunkSizeIsNotVerified | crates/transfer/src/lib.rs:202-204 | a manifest with chunk size 0 for which the run returns Ok over a target with another hash |
| TransferCrash.RunIsCrashSafe | crates/transfer/src/lib.rs:186-239 | one run from a checkpoint that is true: wherever it stops, memory and checkpoint are true, the checkpoint is at most one chunk behind unless this run tore it, and each copy marked one more chunk |
| TransferCrash.CrashSafety | crates/transfer/src/lib.rs:186-239 | after any number of runs, each stopped at any call and restarted from the checkpoint, every bit in memory and in the checkpoint marks a chunk whose target bytes are right |
| TransferCrash.WorkBound | crates/transfer/src/lib.rs:207-239 | over such runs with k interruptions the successful chunk copies number at most the chunks plus k, plus the chunks once more for each torn save |
| TransferCrash.WorkAccount | crates/transfer/src/lib.rs:207-239 | the same account with what the last checkpoint marks in place of all chunks; at most one save is torn in each interrupted run, and none where no environment tears one |
| TransferCrash.UntornWorkBound | crates/transfer/src/lib.rs:207-239 | where no save is torn, the copies number at most the chunks plus k |
| TransferCrash.InterruptionsAre | crates/transfer/src/lib.rs:207-239 | the interruptions in these bounds are exactly the runs that did not return Ok |
| HandshakeTheorems.SafeAlways | crates/cli/src/main.rs:213-431 | the joint invariant holds in every state that any interleaving of the sender and any receivers reaches |
| HandshakeTheorems.CompletedMeansDelivered | crates/cli/src/main.rs:266-301 | whenever "completed" was written for a claim, the whole snapshot was in that claim's target directory, each file at its path there, at that moment, although all claims share one manifest |
| HandshakeTheorems.CompletedIsSaved | crates/cli/src/main.rs:291-301 | the sender comes to write "completed" only with everything delivered and counted and the manifest saved as it then is |
| HandshakeTheorems.SuccessIsAttributed | crates/cli/src/main.rs:410-430 | a receiver succeeds only after "completed" was written for its own claim with all bytes counted and its own target complete |
| HandshakeTheorems.FinishedIsAnnounced | crates/cli/src/main.rs:291-301 | a finished run whose manifest can be saved is announced as completed, for its claim and with all bytes counted, and its receiver, if it polls, then succeeds |
| HandshakeTheorems.FailedIsAnnounced | crates/cli/src/main.rs:325-334 | a failed run is announced as failed, with the bytes printed last, the sender goes on, and its receiver, if it polls, gives up |
| HandshakeTheorems.RejectionIsAnnounced | crates/cli/src/main.rs:225-240 | a sender that says no writes "failed" with no bytes, touches no file, and goes on to the next claim |
| HandshakeTheorems.Concludes | crates/cli/src/main.rs:290-334 | once all is reported, Ok goes on to the save, an error to its announcement, and a killed process to nothing |
| HandshakeTheorems.RunIsForTheClaim | crates/cli/src/main.rs:266-272 | the transfer goes to the target of its claim, with checkpoints and three attempts for each chunk, on the bits that the last transfer left |
| HandshakeTheorems.PollDecides | crates/cli/src/main.rs:526-544 | a polling receiver succeeds exactly on "completed" for its own claim, gives up exactly on "failed" for it, and otherwise polls on |
| HandshakeTheorems.ReceiverSucceeds | crates/cli/src/main.rs:357-431 | a run in which a receiver that nobody knew is approved, paired, served, and succeeds |
| HandshakeTheorems.StateFileIsLastRecord | crates/cli/src/main.rs:568-586 | `state.json` holds what was written last |
| HandshakeClaims.ServedOnce | crates/cli/src/main.rs:213-218 | in any run, whatever fails, no claim is served twice exactly when the sender never takes a claim while one is still left: a clear failed to remove it after it had been served, and since then no receiver has written over it and no clear was made |
| HandshakeClaims.LeftWhenListening | crates/cli/src/main.rs:503-524 | between its clear and its next claim, the sender has a served claim before it in the file exactly if one is still left in that sense |
| HandshakeClaims.WorkingClearsServeOnce | crates/cli/src/main.rs:213-353 | in a run whose clears remove the claim file, no claim is served twice and each has one block of state writes, whatever else fails |
| HandshakeTheorems.OneBlockEach | crates/cli/src/main.rs:213-353 | if no claim was served twice, the state writes of a claim are contiguous, its bytes never go back, and nothing follows its terminal state |
| HandshakeTheorems.ReportsAreBounded | crates/cli/src/main.rs:273-282 | while a claim is reported, its state writes since it was taken say what some of the progress events of its run said, in order, each at most once; those are at most one more than the chunks |
| HandshakeConsent.YesIsLast | crates/cli/src/main.rs:260-262 | the yes in the file is that of a receiver exactly if that receiver was the last to write one and no clear has removed it since |
| HandshakeConsent.YesIsOld | crates/cli/src/main.rs:519-524 | the file holds a yes that its author did not write since the last clear exactly if a clear failed to remove one and the file has not been touched since |
| HandshakeConsent.ConsentBeforeTransfer | crates/cli/src/main.rs:225-264 | a transfer, or a pairing before it, runs only for a claim whose receiver was found in the trust store in this turn, or after the sender said yes in this turn and then found a yes; that yes is the claimant's, and of this turn, exactly as the two rows above say, so with none left over and nobody but the claimant having written one it is the claimant's |
| HandshakeFiles.ReceiverConsents | crates/cli/src/main.rs:380-410 | a receiver waits for completion, or has it, only after it found the sender in the trust store; or after its user said yes, it wrote its yes, and then found a yes of the sender that no clear had removed |
| HandshakeFiles.SenderYesIsLast | crates/cli/src/main.rs:260 | the file of the sender's yes exists exactly if the sender wrote it and no clear has removed it since |
| HandshakeFiles.ClaimIsLast | crates/cli/src/main.rs:217-218 | the claim file holds the claim of a process exactly if that process was the last to write one, and no clear and no take has removed it since |
| HandshakeTrust.TrustGrows | crates/security/src/lib.rs:88-109 | a step takes nobody out of the trust store exactly when it is not the save of a set that was read without someone who is now in the store |
| HandshakeTrust.StaysTrustedIff | crates/security/src/lib.rs:88-109 | over any run, with any other programs pairing too, a peer in the store stays in it exactly when no process saves that had read the store without it |
| HandshakeTrust.SafeForeverIff | crates/security/src/lib.rs:88-109 | a peer is in the store in every continuation exactly when it is there and no process is about to write back a set without it |
| HandshakeTrust.BothSidesTrusted | crates/cli/src/main.rs:225-264 | the sender transfers, and a receiver waits for or has completion, only with the other party in the trust store when it went on, and still exactly if no stale save has followed |
| HandshakeTrust.ReceiverIsForgotten | crates/cli/src/main.rs:263 | a first connection in which both sides pair at once, and the sender transfers to a receiver that is not in the store |
| HandshakeTrust.SenderIsForgotten | crates/cli/src/main.rs:406 | the same in the other order: a receiver waits for a sender that is not in the store |
| HandshakeTrust.TrustedSkipConfirmation | crates/cli/src/main.rs:225-407 | a party that is found in the store is not asked about, and one that is not found is |
| HandshakeConsent.YesMayBeAnothers | crates/cli/src/main.rs:260-262 | a run in which every clear works and the yes that lets a transfer begin came from another receiver |
| HandshakeClaims.ServedTwiceWhenRemovalsFail | crates/cli/src/main.rs:218 | a run in which failing removals make the sender serve one claim twice |
| HandshakeConsent.OldYesWhenRemovalFails | crates/cli/src/main.rs:519-524 | a run in which a failing removal lets an old yes count |
| HandshakeTheorems.PrintedNeverAhead | crates/cli/src/main.rs:266-287 | `last_print` is never ahead of the next reported number, so its subtraction never saturates; once the total was reported it is the total |
| SendLoop.Sender.ServeClaim | crates/cli/src/main.rs:266-353 | serving one claim on objects: one "transferring" for each progress event whose write succeeds, in order, then "completed" with the numbers of the report if the transfer and the save of the manifest went well, or "failed" with `last_print`; a save or last write that fails ends the sender |
| SendLoop.Sender.ServeAll | crates/cli/src/main.rs:213-353 | any list of claims, targets and failures is served in order with one shared manifest, until the sender ends; every "completed" written was true when it was written |
| SendLoop.EachIsAnswered | crates/cli/src/main.rs:213-353 | while the sender is there, every claim so far has had its reports and its last word, which are those of its own run from the disk and the bits that the claim before it left |
| Relay.RelayedToItsTarget | crates/signaling-server/src/main.rs:103-126 | in every reachable state a relayed item is an offer, answer, candidate, punch result or disconnect, unchanged from what some connection sent, and its `to` is an id the receiving connection registered; a "not connected" notice is with the connection that sent the signal and names its `to` |
| Relay.RelayedInOrder | crates/signaling-server/src/main.rs:51-57 | between two connections messages and notices keep their order and none is doubled, in the queue and in what was sent; nothing reaches two connections |
| Relay.DeliversInTurn | crates/signaling-server/src/main.rs:51-57 | an open queue with something left sends the next item |
| Relay.OneFate | crates/signaling-server/src/main.rs:103-126 | each offer, answer, candidate, punch result and disconnect goes to the connection that the map has for its `to` when it is handled, or its sender is told that this peer is not connected; this stands in that one queue exactly once, and in none exactly when that queue was closed |
| Relay.NoSignalDisappears | crates/signaling-server/src/main.rs:103-126 | every signal with a target that a connection sent was handled at one moment of the run, and has the fate that was decided then |
| Relay.TargetIsTo | crates/core/src/protocol.rs:41-50 | the target of an offer, answer, candidate, punch result or disconnect is its `to`, and no other message has one |
| Relay.UnaddressedIsIgnored | crates/core/src/protocol.rs:41-50 | a signal of any other kind, except a registration, changes neither the map nor a queue |
| Relay.ExactAfterRegister | crates/signaling-server/src/main.rs:93-101 | a registration keeps the map exact exactly when it is not contested: the connection has no other id, and no other connection still there has this one |
| Relay.ExactMeans | crates/signaling-server/src/main.rs:93-134 | the map is exact when an id leads to a connection exactly if that connection is still there and its registered id is this one |
| Relay.MapIsExact | crates/signaling-server/src/main.rs:93-134 | the map is throughout a run exactly the registered connections that are still there if and only if no registration of the run was contested |
| Relay.SecondIdLeavesStaleEntry | crates/signaling-server/src/main.rs:101-134 | a run in which registering twice leaves an entry for a connection that is gone |
| Relay.OverlapLosesTheNewer | crates/signaling-server/src/main.rs:131-134 | a run in which cleanup of an old connection removes the entry of the one that took over its id |
| RelayServer.AppState.HandleSignal | crates/signaling-server/src/main.rs:93-128 | one signal on the shared state: register, relay, or answer that the target is not connected |
| RelayServer.AppState.HandleSocket | crates/signaling-server/src/main.rs:47-137 | one handler from accept to cleanup, whatever the others do in between: it has handled exactly the signals it was sent up to a close, in order, registered exactly the ids in them, told its client of each bad text if its queue lasted, and at the end its queue is closed and its last id is not in the map; and the state is one that the results above cover |
| RelayServer.MeanwhileIsRun | crates/signaling-server/src/main.rs:47-137 | the actions of the others before each frame may be any run of them |

## Left out

- The file system's directories, permissions, symbolic links, `canonicalize`, `WalkDir` and the sorting of its results: a manifest is built from a given list of files.
- JSON, BLAKE3, UUIDs and timestamps: values, a collision-free digest and unique names stand for them.
- Machine integers: sizes are unbounded. `ChunkIndex` and `TallyBound` bound offsets and counters by the file size and the total size, which is what 64-bit arithmetic needs.
- Power loss: an interruption is the death of the process; writes that returned are on disk.
- Interleaving inside a transfer: in the transition system a transfer changes the disk in one action and its reports follow; since only the sender touches the target, receivers cannot see the difference.
- The endless loop of `cmd_send` and the polling loops of `cmd_receive`: each turn is an action of the transition system; `SendLoop` covers a finite list of claims without receivers running beside it.
- Progress of the handshake: a clear can delete a claim or a yes that the other side has not acted on, and a receiver that already trusts the sender writes no yes, so nothing promises that a receiver is ever served.
- `history.json`, `cmd_history`, `cmd_clean`, discovery, chat, identity keys, transport, the FFI and the app: simple maps, formatting or library calls.
