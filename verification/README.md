# A verified model of resumable-upload

This project models the server, the storage backends and the client of `resumable_upload`, an
implementation of the tus resumable upload protocol 1.0.0, and proves what the protocol is for:
bytes that were accepted are never lost, changed or reordered, whatever interleaves, crashes or
gets lost on the wire. `dafny verify dfyconfig.toml` checks all of it.

## How it is built

- **The server as a state machine.** `Machine` runs PATCH, DELETE, expiry cleanup and the assembly
  of pending finals one storage call at a time, with torn chunk writes, exceptions, crashes and a
  clock. `Serial` proves what each step keeps for its upload and what other processes may rely on,
  `Safety` lifts this to the whole server, `Finals` adds the content of concatenated uploads,
  `Reachable` states what holds after every run. `AtomicStore` shows that every run is a run of a
  store with atomic operations. `Racing` drops the lock, `FileLock` is what the file lock alone
  gives, `Tracking` is what a client may rely on between its requests, `Progress` shows that locks
  come back and nobody waits for nothing. `Overtaken` is a run that shows why the concatenation
  theorem needs its condition, `Stranded` is about finals that have lost a partial. `Alone`,
  `Requests` and `Attempts` tie the steps of a request, or of an assembly, to the handler or method
  that does them at once. `Repair` is HEAD as the repair path.
- **The server as objects.** `SqliteStorage` is the table of rows and the directory of files, with
  the copy loop and the claim; `PatchRules` and `Handlers` are the PATCH rules and the invariants
  that no pending final loses a partial, and which of them wait for another attempt; `TusServer` holds the handlers.
- **The client.** `Channel` is the server as a client sees it: lost requests and answers, busy
  answers, other writers of the same file at any of their storage calls, a PATCH that dies or lingers,
  a deleted upload. On a calm network nothing is lost and nobody else is there; what a client then
  gets done is stated exactly. `Uploader` is the
  upload loop, `FileSlice` the view on a part of a file, `Split` the cut, `Parallel` parallel upload
  with remembered URLs.
- **Cloud storage.** `S3Storage` is the buffer and part loop, `GcsCompose` the hierarchical compose.
- **Kernels.** `TtlLock` and `AsyncLock` are the TTL lock and its asynchronous waiters, `UploadLock`
  the refcounted lock of the SQLite backend, `Shutdown` the sweep over idle connections,
  `ChunkedBody` and `ChunkedSender` the chunked reader and a conforming sender, `ChunkedRefusals`
  what the reader turns away.
- `ByteStrings` has files, concatenation and writing at an offset.

What the program updates in place is a class; what interleaves is a transition system; rules
without side effects are functions.

## Premises

- Plain creation is one step, and a first body fits its Upload-Length. The handler does not check
  the latter; `TusServer.Server.HandleCreate` says exactly what goes wrong otherwise.
- Creation of a final is one step in `Machine`: the copy of a final over complete partials runs
  outside the upload lock (`resumable_upload/storage/sqlite_storage.py:426-431`), and could otherwise
  meet an assembly.
- Under the lock, no holder outruns its TTL (a `timely` server). `Racing` needs no such premise.
- The file lock is one process's: "assembled at most once" is about one process, before and after
  crashes.
- The file on the client does not change, and a fingerprint stands for one file content.
- Upload ids and tokens are new when they are drawn. Hashes are a parameter: a checksum is absent,
  malformed, right or wrong.
- `part_size >= 1`, or the flush loop of the cloud backends does not end.

## What the proofs found

- **A lost answer to the completing chunk ends in 403.** `completed` is tested before the offset
  (`resumable_upload/server/handlers/patch.py:54-56`), so a client that sends its last chunk again
  raises (`Handlers.ReplayIsRefused`). The client theorem is therefore about normal returns.
- **A normal return does not mean completed.** HEAD takes no lock, and between the last swap and the
  mark a PATCH runs the chunk hook. A client whose HEAD lands there, or after the server died there,
  has nothing left to send and returns (`Uploader.ReturnsUnmarked`).
- **Chunk by chunk, a deferred length may stay open.** Only `upload()` sends the closing empty PATCH;
  a loop over `upload_chunk()` ends without it (`Uploader.StepwiseLeavesDeferred`).
- **Cleanup can spoil a final.** Expiry takes no lock. If it erases a partial between the plan and
  the write of a PATCH that commits a deferred length, the write recreates an empty file, and an
  assembly under way publishes it (`Overtaken.OvertakenFinalIsWrong`). Such a final shows: its offset
  is not its length (`Reachable.CompletedFinalIsConcatenation`).
- **HEAD can answer with a length that is gone.** It reads the row before it retries an assembly, and
  again only if the attempt succeeded or removed the final. When the copy of a claimed final fails,
  the claim is rolled back, but the answer still has Upload-Length (`TusServer.AnswersStale`).
- **After a failed copy only HEAD tries again.** A final whose copy fails waits over complete partials,
  and no later PATCH completes one of them (`TusServer.Server.HandlePatch`). At creation a failed copy
  is an unhandled error that leaves a claimed final behind (`TusServer.Server.HandleCreateFinal`).
- **Only DELETE protects partials.** The stop hook, `terminate_upload` and cleanup strand a pending
  final exactly when one needs the upload (`TusServer.RemovalStrands`), and such a final never
  completes (`Stranded.NeverCompletes`).
- **And DELETE does not always.** It looks for pending finals before it erases, and the creation of a
  final takes no lock on its partials. A final created in between is stuck (`Stranded.DeleteMisses`).
- **A first body may exceed Upload-Length.** The upload is then completed with `offset > length`
  (`TusServer.Server.HandleCreate`).
- **Parallel upload trusts a remembered URL.** It returns it after any successful HEAD
  (`resumable_upload/client/parallel.py:57-61`), although a single stream stores its URL at creation,
  so the upload may be unfinished (`Parallel.ReturnsUnfinished`).
- **The S3 part size.** The documentation string says the flush threshold satisfies S3's minimum
  (`resumable_upload/storage/s3_storage.py:56-57`), but parts are cut at `part_size`; with less than
  5 MiB every upload of 5 MiB or more fails to complete (`S3Storage.StoreAll`). A buffer that cannot
  be read is taken as empty, and its bytes are lost. A crash between the buffer and the info object
  followed by a retry stores a chunk twice, or loses what was buffered if the chunk filled a part
  (`S3Storage.CrashThenRetry`, `S3Storage.LosesBuffered`). A crash between the info object and the
  offset followed by a retry always stores a chunk twice (`S3Storage.UncommittedThenRetry`).
- **In-flight requests can be cut on shutdown.** The comment at
  `resumable_upload/server/http_handler.py:87-94` says they still drain; a request whose line arrives
  between the sweep's listing and its cut does not (`Shutdown.BusyMayBeCut`).
- **A truncated chunked body can pass.** A size line with a leading zero that breaks off after the
  zero reads as the last chunk (`ChunkedSender.TruncationPassesIff`).

## Model

| member | source | states |
|---|---|---|
| Reachable.CommittedBytesAreAcceptedChunks | resumable_upload/server/handlers/patch.py:308-358 | After every run from the empty server (PATCH, DELETE, cleanup, assembly interleaved at each storage call, torn writes, crashes), the first `offset` bytes of a live upload's file are exactly the chunks whose swap succeeded, in order; `offset <= file size <= length`; a completed upload is exactly its chunks, with no torn leftover |
| AtomicStore.RunRefinesAtomicStore | resumable_upload/server/handlers/patch.py:308-358 | Every such run is a run of a store with atomic create, append, complete, assemble and remove, each allowed where it happens: a PATCH appends its whole body or changes nothing committed, and a final over sources that are still there is given nothing but their bytes in order |
| AtomicStore.StepRefines | resumable_upload/storage/sqlite_storage.py:220-299 | Each single step is invisible to the atomic store or is one allowed operation; an append is the swap of a PATCH, has exactly its body, and happens at the end of what is committed, which is where its Upload-Offset points |
| AtomicStore.SwapRefines | resumable_upload/storage/sqlite_storage.py:220-231 | Winning the conditional offset update is an allowed append of exactly the body |
| AtomicStore.PublishRefines | resumable_upload/storage/sqlite_storage.py:369-386 | What an assembly publishes is, as long as all its sources are there, their committed bytes in order |
| AtomicStore.NextRefines | resumable_upload/server/core.py:326-344 | The simulation for every action, crash and clock tick included |
| Serial.StepKeeps | resumable_upload/server/handlers/patch.py:308-358 | Every step of a process keeps the invariant of its upload and of itself: planned offset still current, landed bytes a prefix of the body, nothing past the declared length |
| Serial.StepGuarantees | resumable_upload/storage/sqlite_storage.py:282-299 | What one step does to an upload, as all other processes may rely on it |
| Serial.OthersKeep | resumable_upload/server/core.py:326-344 | A process keeps its invariant under any such step of another process on the same upload, with or without the lock |
| Serial.SwapKeeps | resumable_upload/storage/sqlite_storage.py:220-231 | A won swap extends the committed bytes by the body and nothing else |
| Serial.LandKeeps | resumable_upload/storage/sqlite_storage.py:282-299 | A torn write of any size leaves the committed prefix as it was |
| Serial.AssemblyKeeps | resumable_upload/storage/sqlite_storage.py:447-515 | Each step of an assembly keeps the claim: only the claiming process completes the final, and only once |
| Safety.NextKeeps | resumable_upload/server/core.py:326-344 | The invariant of all uploads and processes is kept by every action |
| Reachable.RunsKeep | resumable_upload/server/core.py:326-344 | It holds, with the content invariant of finals, after every run |
| Reachable.LocksExclude | resumable_upload/server/core.py:326-344 | After every run without TTL overrun, at most one request holds the lock of an upload and at most one process its file lock |
| Reachable.CompletedFinalIsConcatenation | resumable_upload/storage/sqlite_storage.py:447-515 | After every run, a completed final has the length of the accepted bytes of its partials, and holds exactly those bytes in order if and only if its offset equals its length; it does whenever no erasure overtook an in-flight PATCH on a partial |
| Overtaken.OvertakenFinalIsWrong | resumable_upload/storage/sqlite_storage.py:254-299 | That exception is real: a concrete run, in which a partial expires under an in-flight PATCH, ends with a completed final of length 1 and an empty file |
| FileLock.AssembledAtMostOnce | resumable_upload/storage/sqlite_storage.py:476-515 | Over any run of one process (interleavings, crashes, rollbacks; with a TTL lock, without one, or with requests that outrun it), at most one assembly of a final returns a total, so its completion fires at most once |
| FileLock.FileLocksExclude | resumable_upload/storage/sqlite_storage.py:46-72 | After any such run, no two processes hold the file lock of one upload |
| FileLock.CompletionReturns | resumable_upload/storage/sqlite_storage.py:491-515 | And an assembly that has completed its final can do nothing but return the total |
| FileLock.StepOnce | resumable_upload/storage/sqlite_storage.py:476-515 | Each step keeps this: whoever works on a file has its lock, whoever has claimed a final finds it unassembled, and a foreign file lock keeps a final's row from changing, except to go |
| Reachable.AssemblyEndsWhole | resumable_upload/storage/sqlite_storage.py:476-515 | After every run, an assembly that has read all its lengths and goes on ends only with the final completed or gone, whoever holds its file lock meanwhile, unless the final is too large |
| Finals.OnlyPublishCompletes | resumable_upload/storage/sqlite_storage.py:369-386 | A final turns completed only in the publishing step of an assembly, and gets its length only from a claim |
| Finals.ClaimIsRight | resumable_upload/storage/sqlite_storage.py:455-489 | The total that is claimed is the length of the concatenation that will be copied |
| Finals.PublishIsRight | resumable_upload/storage/sqlite_storage.py:369-386 | When an assembly publishes, the copied file is the in-order concatenation of partials that can no longer change, or shorter than it |
| Finals.SelfDraws | resumable_upload/storage/sqlite_storage.py:373-383 | Each copying step adds the next bytes of one sealed source: all of that source comes in, or none of it if its file was recreated empty |
| Finals.ReadySeals | resumable_upload/storage/sqlite_storage.py:454-461 | A partial that was read as complete is sealed: whatever PATCH is in flight on it carries no bytes |
| Finals.RunKeepsContent | resumable_upload/storage/sqlite_storage.py:447-515 | The content invariant of finals is kept by every step of every process |
| Repair.HeadRepairs | resumable_upload/server/handlers/head.py:22-35 | HEAD on a server in any reachable state of a pending final (crash after the claim, mid-copy, before completion, after a rollback) with all partials complete and the total within the limit: it is completed unless the disk fails, a completed one has exactly the concatenation, and the answer carries its length as offset; after a failed copy it is pending and unclaimed, and the answer has the length of the row read before the attempt: none, or the total if it had been claimed |
| Repair.AssemblyRepairs | resumable_upload/storage/sqlite_storage.py:447-515 | From every such state one more assembly gives exactly that final |
| Repair.FailedCopyIsRetriable | resumable_upload/storage/sqlite_storage.py:493-514 | A failed copy leaves the final pending, and the next assembly does exactly what it would have done without the failure |
| Racing.RacingWritersCannotDamage | resumable_upload/storage/sqlite_storage.py:282-299 | Without any lock, or with locks that requests outrun: if all writers of an upload send slices of one source, the file of a live row is a prefix of that source and reaches to the offset, after every run |
| Racing.RacingLand | resumable_upload/storage/sqlite_storage.py:282-299 | A torn write of a stale slice rewrites bytes the file already has, or extends the prefix |
| Alone.PatchAlone | resumable_upload/server/handlers/patch.py:302-358 | The steps of an uninterrupted PATCH in the state machine do to its upload exactly what the handler does at once |
| Alone.AssemblyAlone | resumable_upload/storage/sqlite_storage.py:447-515 | The steps of an uninterrupted assembly end, and do to the final exactly what the storage's method does |
| Requests.DeleteAlone | resumable_upload/server/handlers/delete.py:16-38 | An uninterrupted DELETE on the state machine changes nothing if no row is there or a pending final lists the partial, and otherwise leaves neither row nor file; its lock is back at the end |
| Requests.DeleteDecides | resumable_upload/server/handlers/delete.py:29-37 | In every state, whatever else is under way, a DELETE under the lock goes on to erase if and only if the row is there and at that moment no pending final lists it as a partial |
| Requests.PatchAnswered | resumable_upload/server/handlers/patch.py:302-358 | An uninterrupted PATCH, from its arrival to its end, appends its body and completes the upload exactly at its length if row and request deserve a 204, and otherwise changes nothing; its lock is back |
| Requests.StopAlone | resumable_upload/server/handlers/patch.py:181-195 | A PATCH stopped by the chunk hook after its swap leaves neither row nor file |
| Requests.FailureAlone | resumable_upload/server/core.py:326-344 | A request that fails anywhere leaves database and directory as they are at that moment, and both locks come back |
| Requests.RollbackAlone | resumable_upload/storage/sqlite_storage.py:493-514 | An assembly that fails after its claim takes the claim back, changes nothing else, and gives back the file lock |
| Requests.CleanupAlone | resumable_upload/storage/sqlite_storage.py:254-280 | Cleanup takes no lock and removes row and file of whatever it is sent for |
| Requests.CreateAlone | resumable_upload/server/handlers/create.py:253-284 | Creation in one step leaves the row and file that the handler leaves |
| Requests.CreateFinalAlone | resumable_upload/storage/sqlite_storage.py:388-431 | So does the creation of a final: the files joined over complete partials, otherwise an empty pending final |
| Attempts.AttemptAlone | resumable_upload/storage/sqlite_storage.py:447-515 | An uninterrupted attempt to assemble, in every case (a partial incomplete, too large, claimed with another total, or assembled), does to database and directory what the storage's method does |
| Progress.LocksComeBack | resumable_upload/server/core.py:326-344 | After every run, under any lock or none, an upload is locked only by a request or assembly still at work on it; when nobody works on it, both locks are free; an entry without a live holder is left only by a crash of which the lock backend keeps the entries |
| Progress.NobodyWaitsForNothing | resumable_upload/server/core.py:326-344 | No deadlock: after every such run, whoever cannot take a step waits for a lock whose holder, or the holder it waits for in turn, is at work on the same upload and can |
| Progress.StepsEnd | resumable_upload/server/core.py:326-344 | Whatever happens in between, every process comes to its end after finitely many steps of its own |
| Stranded.NeverCompletes | resumable_upload/storage/sqlite_storage.py:454-461 | A pending final that has lost a partial is never completed by any run, under any lock or none |
| Stranded.DeleteMisses | resumable_upload/server/handlers/delete.py:29-37 | The check of DELETE does not rule this out: a final created between the check and the deletion is stuck |
| SqliteStorage.Storage.CopyPartials | resumable_upload/storage/sqlite_storage.py:369-386 | The copy loop: it fails exactly if a file is missing or the disk takes fewer buffers than there are; on success the final's file is the in-order concatenation and its row is completed at that length; on a failure no row changes and no other file does |
| SqliteStorage.Storage.CopyFile | resumable_upload/storage/sqlite_storage.py:376-383 | The buffered inner loop appends exactly the source file, or stops exactly where the disk is full |
| SqliteStorage.Storage.TryAssembleFinal | resumable_upload/storage/sqlite_storage.py:447-515 | The whole new state of an attempt: the rollback exactly if the final is claimed and its copy fails, otherwise the assembled final, a deleted oversized final, or no change; a total is returned exactly by the call that assembled |
| SqliteStorage.Storage.ReadLengths | resumable_upload/storage/sqlite_storage.py:454-461 | A total exists exactly when every partial is present and complete |
| SqliteStorage.Storage.CheckPartials | resumable_upload/storage/sqlite_storage.py:406-414 | Accepts exactly the lists of existing partials, complete ones unless unfinished ones are allowed |
| SqliteStorage.Storage.ConcatenateUploads | resumable_upload/storage/sqlite_storage.py:388-431 | Refused with nothing changed, pending, or whole with the concatenation; exactly if the copy fails, a claimed final that can still be assembled |
| SqliteStorage.Storage.WriteChunk | resumable_upload/storage/sqlite_storage.py:282-299 | Writes at the offset; a missing file is created, a gap filled with zeros |
| ByteStrings.GapIsZero | resumable_upload/storage/sqlite_storage.py:282-299 | What lies between the end of the file and a write past it is zeros |
| SqliteStorage.Storage.UpdateOffsetAtomic | resumable_upload/storage/sqlite_storage.py:220-231 | Compare-and-swap on the offset |
| SqliteStorage.Storage.CompleteUpload | resumable_upload/storage/sqlite_storage.py:233-252 | True exactly for the call that moves the row to completed |
| SqliteStorage.Storage.SetUploadLength | resumable_upload/storage/sqlite_storage.py:208-218 | Sets the length of one row |
| SqliteStorage.Storage.DeleteUpload | resumable_upload/storage/sqlite_storage.py:254-280 | Removes row and file of one upload |
| Handlers.PatchAppends | resumable_upload/server/handlers/patch.py:37-164 | A PATCH answers 204 if and only if the upload is open and offset, length, type, checksum and sizes fit; then the file grows by exactly the body and is completed exactly at its length; otherwise nothing changes |
| Handlers.ReplayIsRefused | resumable_upload/server/handlers/patch.py:54-56 | Sending an applied PATCH again changes nothing: 403 when it had completed the upload, otherwise 409, or 204 if it carried no bytes |
| PatchRules.PlanIsDeserved | resumable_upload/server/handlers/patch.py:37-164 | For each status, planning answers it if and only if row and request deserve it: 410 an expired row, 403 a completed or final one, 415 the wrong type, 409 a request that fits but for its offset, 460 a checksum that differs, 413 a length over Tus-Max-Size or a chunk over the chunk limit, 400 an unfit length or offset, an unreadable checksum, or a chunk past the length; and it goes on with exactly those that fit |
| Handlers.AssembleSettles | resumable_upload/storage/sqlite_storage.py:447-515 | Assembly without a failing copy on a sound store completes exactly the final whose partials are complete, claimed before or not, and changes nothing else: the branch that deletes an oversized final is unreachable |
| Handlers.RollbackSettles | resumable_upload/storage/sqlite_storage.py:493-514 | A failed copy changes nothing but the half-built file and the claim; the final stays due |
| Handlers.PatchCore | resumable_upload/server/handlers/patch.py:317-341 | After the storage steps of a PATCH, the finals whose partials are all complete are those before, and those that list this upload, which has just completed |
| Handlers.TotalIsDeclared | resumable_upload/server/handlers/create.py:311-325 | The total of complete partials is the sum of lengths declared at the final's creation |
| Handlers.DeclaredFrame | resumable_upload/storage/sqlite_storage.py:208-218 | Declared sums stay the same as long as lengths do, which are write-once |
| TusServer.Server.HandlePatch | resumable_upload/server/handlers/patch.py:302-358 | 404 exactly without a row; for every other status, the answer has it if and only if row and request deserve it, unless the chunk hook stops a request that fits, with its own status; 204 carries the offset moved by the body; the new state of the upload matches the specification; every other upload that is not a pending final is untouched; a pending final loses a partial exactly if the chunk hook stops an upload that one needs; a final waits over complete partials exactly if it did before, or if this PATCH completed its last missing partial and its copy failed |
| TusServer.Server.CutShort | resumable_upload/server/handlers/patch.py:191-195 | The stop hook deletes the upload, and takes a partial from a pending final exactly when one needs it |
| TusServer.Server.AssemblePendingFinals | resumable_upload/server/handlers/patch.py:272-279 | Of the listed finals whose partials are complete, exactly those whose copy fails still wait; all others are untouched |
| TusServer.Server.TryAssembleOne | resumable_upload/server/handlers/patch.py:243-255 | Assembles one pending final as specified, claimed before or not, or rolls back, exactly when the copy fails |
| TusServer.Server.FinishPatch | resumable_upload/server/handlers/patch.py:336-356 | Completion attempts the assembly of every final that lists this partial, and of no other; exactly those whose copy fails still wait |
| TusServer.Server.FindPendingFinals | resumable_upload/storage/sqlite_storage.py:433-445 | Exactly the pending finals that list the partial |
| TusServer.Server.HandleHead | resumable_upload/server/handlers/head.py:22-106 | 404 exactly if no row is left, 410 exactly if it has expired; otherwise the offset of the row, except of a final that still waits, its length, and `Upload-Defer-Length` exactly for an upload that is no final and has no length; HEAD on anything but a pending final changes nothing; on a pending one it attempts one assembly, also if it was claimed before a crash, and answers with the length read before if the copy failed, so the answer is that of the current row if and only if no copy failed or the final was unclaimed (or has expired); a sound store stays sound, and one with no stranded final is unchanged |
| TusServer.AnswersStale | resumable_upload/server/handlers/head.py:25-35 | The exception is real: on a claimed final whose next copy fails, HEAD answers with an Upload-Length that the row no longer has |
| TusServer.Server.HandleCreate | resumable_upload/server/handlers/create.py:253-284 | The created row and file; the store stays sound if and only if the first body fits Upload-Length, which the handler never checks |
| TusServer.Server.HandleCreateFinal | resumable_upload/server/handlers/create.py:298-368 | 413 exactly if all lengths that are there are known and together exceed Tus-Max-Size, 400 exactly for an unknown length under a limit or for an upload that is missing or no partial; otherwise pending with an incomplete partial, or completed with the concatenation, unless the copy fails: the answer is then 500 and a claimed final is left; a refusal changes nothing; the late 413 branch is unreachable |
| TusServer.Server.CheckDeclared | resumable_upload/server/handlers/create.py:311-325 | Lets a list pass if and only if the lengths of those that are there are known and fit Tus-Max-Size; 400 exactly for an unknown length, 413 exactly for too many bytes |
| TusServer.Server.HandleDelete | resumable_upload/server/handlers/delete.py:16-38 | Status in every case; DELETE of a partial that a pending final needs is refused, so no pending final ever loses a partial, and none becomes due |
| TusServer.Server.TerminateUpload | resumable_upload/server/core.py:288-303 | Operator termination and cleanup take a partial from a pending final, and strand it, if and only if one needs the upload |
| TusServer.RemovalStrands | resumable_upload/server/core.py:295-297 | Removing an upload takes a partial from a pending final if and only if one lists it; a store without stranded finals then has one |
| Uploader.Client.Upload | resumable_upload/client/uploader.py:464-513 | If the loop returns normally without `stop_at`, the server holds exactly the file under its right length (if the upload was not deleted meanwhile), for any chunk size, start and declared or deferred length, over a channel that loses requests and answers, with other writers of the file and a dying server; it is marked completed if and only if no PATCH, dead or alive, is past the swap that completed it and has not marked it. On a calm server it returns normally if and only if there is nothing left to send or the upload is not completed, the file fits Tus-Max-Size where its length is still open, and the next chunk fits the chunk limit; the upload is then completed, unless it was complete and unmarked before; with `stop_at` no byte goes past it. Whenever it raises, it has used up the attempts on a chunk, or was sent back by a 409 and found no offset to go on from |
| Uploader.Client.SendUpTo | resumable_upload/client/uploader.py:481-505 | The loop: no byte past the limit it is given, nothing at all if it is there already, and on a calm server it fails if and only if the rest of the file is not taken |
| Uploader.Client.UploadNext | resumable_upload/client/uploader.py:483-502 | Every turn that does not raise strictly advances the client: a chunk was accepted, or a 409 and a successful HEAD found the server ahead; so the loop terminates. On a calm server it raises exactly if the upload takes no more or the chunk is too large, and otherwise sends exactly the next chunk or catches up with a server that is ahead |
| Uploader.Client.UploadChunkOnce | resumable_upload/client/uploader.py:305-362 | An accepted chunk is on the server at the offset the client moves to; a 409 means the server is strictly ahead. On a calm server a chunk is accepted if and only if it fits and the server stands where the client does, with the length of the file committed, 409 comes if and only if it is ahead of an upload that takes more, and anything else leaves the server as it was |
| Uploader.Client.UploadChunkWithRetry | resumable_upload/client/uploader.py:382-428 | The same through retries, whichever attempt got through; if it raises, every failure but the last was followed by another attempt, and the last was not to be: the retries were used up, the user vetoed, the status is not retriable (no network error, 5xx, 408, 423 or 429), or the wait was interrupted |
| Uploader.Client.Send | resumable_upload/client/uploader.py:230-258 | The same when a stale connection makes the request go out twice, which it does exactly if the socket was a reused one and turned out to be closed; a connection is kept exactly if an answer came |
| Uploader.Client.GetOffset | resumable_upload/client/uploader.py:260-286 | HEAD never takes the client ahead of the server, nor behind where the server stood before; on a calm server it finds exactly offset and open length of the row, and 404 if there is none |
| Uploader.Client.UploadOneChunk | resumable_upload/client/uploader.py:430-462 | Chunk by chunk: a turn that does not raise advances, and when nothing more remains the file is there if and only if its length has been committed, which on a calm server is what the client itself knows |
| Uploader.StepwiseLeavesDeferred | resumable_upload/client/uploader.py:439-440 | The exception is real: an empty file under a deferred length is reported done and its length never committed |
| Uploader.Client.CommitLength | resumable_upload/client/uploader.py:507-511 | The closing empty PATCH is sent exactly if the length is still deferred at the end of the file; it commits the length and moves nothing |
| Uploader.ReturnsUnmarked | resumable_upload/client/uploader.py:483-513 | The exception is real: while the PATCH that took the last chunk runs its hook, or after it died there, a resuming client returns normally and the upload is not marked completed |
| Channel.Remote.Serve | resumable_upload/server/handlers/patch.py:302-358 | A PATCH that carries a slice of the file, cut off anywhere by the server's death, leaves a faithful part of the file and never loses ground |
| Channel.Remote.Patch | resumable_upload/server/handlers/patch.py:302-358 | Over the wire: lost requests and answers, a busy server, other writers; on a calm network the upload grows by the body if row and request deserve a 204, and otherwise nothing changes and the answer has the status they deserve |
| Channel.Remote.Head | resumable_upload/server/handlers/head.py:47-88 | What a client finds is the offset and the open length that the handler's answer carries, at some moment between request and answer; exactly those of the row on a calm network |
| Channel.AnswerOf | resumable_upload/client/uploader.py:270-286 | A client has an offset exactly if the answer carries one, and a status exactly if it is an error |
| Channel.Remote.Run | resumable_upload/server/handlers/patch.py:302-358 | The exact state after a PATCH that dies after the commit, inside the write or after the swap, lingers before its mark, or finishes |
| Channel.Remote.Resume | resumable_upload/server/handlers/patch.py:326-342 | A PATCH that lingers after its swap marks the upload, unless its server dies first |
| Channel.Remote.LateWrite | resumable_upload/storage/sqlite_storage.py:282-299 | The write of a PATCH that was planned long ago leaves a faithful part of the file |
| Channel.CutLateTracks | resumable_upload/server/handlers/patch.py:322-342 | Past its swap a PATCH has committed its length and body, and the upload is marked exactly if the PATCH finished |
| Channel.CutEarlyTracks | resumable_upload/server/handlers/patch.py:317-322 | Before its swap it leaves the offset and a faithful part of the file |
| FileSlice.Slice.Read | resumable_upload/client/_fileslice.py:51-59 | Reads exactly the next bytes of the slice, never past its end, and keeps the file position in step |
| FileSlice.Slice.Seek | resumable_upload/client/_fileslice.py:35-46 | Moves to the position within the slice that is nearest to the target, for all three origins |
| FileSlice.Clamp | resumable_upload/client/_fileslice.py:44-44 | No position within the bounds is nearer |
| Split.SplitBoundaries | resumable_upload/client/_protocol.py:128-140 | Consecutive non-empty ranges from 0 to the size, as many as asked for (one if the file is shorter); they depend only on the size and on how many there are, so equal counts mean equal cuts |
| Split.SlicesJoin | resumable_upload/client/parallel.py:43-47 | Files holding the slices of a tiling, joined in order, are the file |
| Parallel.Session.UploadParallel | resumable_upload/client/parallel.py:43-156 | What a parallel upload returns holds the whole file, for every size and number of parts, and whether each partial is fresh, reused or recreated; it is completed (an empty file goes through a single stream, and is marked unless some PATCH has not marked it yet); the one exception is a remembered URL, handed back exactly when URLs are stored, the file is not empty and a HEAD on the remembered final succeeds. The final is then remembered and the partials forgotten; a failure leaves the partials for the next session, and a final is forgotten only if the server does not know it. On a calm network whose server takes the chunks it goes through if and only if the final is known or the file fits Tus-Max-Size, and creates nothing but the final if the remembered partials are there |
| Parallel.UploadTwice | resumable_upload/client/parallel.py:54-61 | On a calm network, once a parallel upload has gone through, a second one of the same file gives the same URL for any number of parts, and changes nothing on the server |
| Parallel.Session.Recall | resumable_upload/client/parallel.py:54-70 | Stored partials are used exactly for a cut with equally many slices, and then each belongs to its slice; a final is dropped exactly if a HEAD on it answers 404 or 410, and any other failure ends the call |
| Parallel.Session.OpenSlice | resumable_upload/client/parallel.py:72-131 | Whichever upload a slice ends up on, its uploader is in step with an upload of that slice; on a calm network that is the remembered partial exactly if it is there, and otherwise a new one, unless it is too large |
| Parallel.Session.OpenAll | resumable_upload/client/parallel.py:104-136 | All slices are open on uploads of their own range before any payload moves; on a calm network remembered partials that are there are continued and nothing is created but the others |
| Parallel.Session.PoolTurn | resumable_upload/client/parallel.py:137-142 | A turn of one uploader leaves the other uploaders in step and what was whole whole; on a calm network none of them fails |
| Parallel.Session.RunAll | resumable_upload/client/parallel.py:137-142 | The uploaders of the pool take turns, chunk by chunk, in any order; the pool ends, and if no uploader fails, every slice still on the server is whole there; on a calm network none fails |
| Parallel.Session.HeldSlicesJoin | resumable_upload/storage/sqlite_storage.py:369-386 | Whole slices, when all are there, joined by the server, are the file |
| Parallel.Session.Merge | resumable_upload/client/parallel.py:151-151 | A merge that the server accepts leaves a completed final that holds the file, never a pending one; on a calm network it is accepted if and only if the file fits Tus-Max-Size |
| Parallel.Session.UploadFile | resumable_upload/client/client.py:195-275 | One stream over a remembered or new upload: a normal return means the file is there, if the upload still is, and its URL is remembered; on a calm network whose server takes the chunks it returns if and only if the remembered upload is known, and then continues that one, or the file is not too large |
| Parallel.ReturnsUnfinished | resumable_upload/client/parallel.py:57-61 | The exception is real: after a single stream that stopped at creation, a parallel upload returns that upload, without a byte of the file |
| Tracking.ServerElapses | resumable_upload/server/handlers/patch.py:308-358 | What the state machine does between any two moments, under any lock or none, while the writers of an upload send slices of one source and no length but its own: the upload stays a faithful part of the source, and its offset, length and completion never drop: what the client's channel takes for granted |
| Tracking.StepTracks | resumable_upload/server/handlers/patch.py:308-358 | The same for each step of each process |
| S3Storage.Upload.WriteChunk | resumable_upload/storage/s3_storage.py:239-276 | Parts and buffer together grow by exactly the chunk, unless the buffer cannot be read, which drops it; the buffer stays below the flush size and every flushed part is exactly `part_size`; a crash among the parts changes nothing; after one between buffer and info no part is added, and a listed buffer reads as what stayed behind |
| S3Storage.Upload.Flush | resumable_upload/storage/s3_storage.py:257-260 | The flush loop moves whole parts from the front of the buffer and loses nothing |
| S3Storage.FlushStep | resumable_upload/storage/s3_storage.py:278-294 | One part moved: the string is the same, and parts under smaller numbers are not overwritten |
| S3Storage.Upload.CompleteUpload | resumable_upload/storage/s3_storage.py:296-364 | Publishes exactly the string and removes the buffer; it fails exactly when a listed buffer cannot be read or is missing, or more than one part is stored with a part size below 5 MiB, and then changes nothing of the string |
| S3Storage.StoreAll | resumable_upload/storage/s3_storage.py:239-364 | Over a whole upload, for any chunks: published, and equal to the chunks in order, if and only if `part_size` is at least 5 MiB or the upload is smaller than 5 MiB |
| S3Storage.CrashThenRetry | resumable_upload/storage/s3_storage.py:262-276 | Dying between the buffer and the info object and sending the chunk again stores every chunk once if and only if nothing was buffered, or the chunk is whole parts that all had to leave and ends with the bytes of the buffer |
| S3Storage.LosesBuffered | resumable_upload/storage/s3_storage.py:239-276 | Accepted bytes are lost when the chunk fills a part: the buffer is gone, the part is not listed, and the retry stores the chunk alone |
| S3Storage.SentAgain | resumable_upload/storage/s3_storage.py:262-276 | A chunk that stays in the buffer is stored twice |
| S3Storage.UncommittedThenRetry | resumable_upload/storage/s3_storage.py:171-214 | Dying between the info object and the offset and sending the chunk again stores it twice, and the offset counts it once, unless the chunk is empty |
| GcsCompose.Bucket.ComposeBlobs | resumable_upload/storage/gcs_storage.py:272-320 | For any number of sources the destination becomes their flat in-order concatenation, no call takes more than 32 sources, the rounds terminate with 2 to 32 blobs (the single-blob branch is dead), sources stay untouched and no temporary is left |
| GcsCompose.Bucket.ComposeRound | resumable_upload/storage/gcs_storage.py:296-308 | One round keeps the concatenation, leaves ceil(n / 32) blobs and adds only temporaries of its own round |
| GcsCompose.LevelGrows | resumable_upload/storage/gcs_storage.py:303-306 | A new temporary overwrites no blob still in use |
| GcsCompose.Bucket.ComposeChain | resumable_upload/storage/gcs_storage.py:455-465 | The chained form with 32 and then 31 sources a call gives the same bytes and changes nothing else |
| TtlLock.Backend.Acquire | resumable_upload/locks/memory_lock.py:25-44 | Takes the key only when it was free at that moment, after a wait too, with a new token that lasts the TTL, and changes nothing else; refuses only after the deadline and only while another holder is unexpired |
| TtlLock.Backend.TryAcquire | resumable_upload/locks/memory_lock.py:36-41 | Succeeds exactly when nobody has the key or its holder's time is up, at the end of the TTL included |
| TtlLock.Released | resumable_upload/locks/memory_lock.py:46-50 | Release with the wrong or a stale token changes nothing, and never touches another key |
| AsyncLock.LocksExcludeAndReturn | resumable_upload/locks/base.py:67-91 | In every interleaving of waiters, cancelled at any moment: at most one holds an unexpired lock on a key, and when all are done no lock is left, so every token won was returned or released |
| AsyncLock.LiveUntilOwnMove | resumable_upload/locks/base.py:81-91 | No step of another waiter, a stale release included, takes away an unexpired lock |
| AsyncLock.AttemptIsTryAcquire | resumable_upload/locks/base.py:67-91 | An attempt in a worker thread is the backend's: the waiter wins exactly if it does, with its token |
| AsyncLock.GivesBack | resumable_upload/locks/base.py:81-91 | A cancelled or finished waiter gives back exactly the token it has won, as the backend does |
| AsyncLock.WaitersGoOn | resumable_upload/locks/base.py:67-91 | Every waiter can go on; one that has won and is not cancelled holds, one that has not tries again or gives up |
| AsyncLock.FreeKeyIsHeld | resumable_upload/locks/base.py:67-80 | Whoever comes to a free or expired key and is left alone holds it, for the TTL from its attempt on |
| AsyncLock.CancelledGivesBack | resumable_upload/locks/base.py:76-91 | A cancelled waiter never holds, and gives back what it has won or is about to win |
| AsyncLock.TimeFreesKeys | resumable_upload/locks/memory_lock.py:36-41 | A dead holder blocks a key for no longer than its TTL |
| UploadLock.LockExcludes | resumable_upload/storage/sqlite_storage.py:46-72 | In every interleaving two threads on one upload share one lock object, at most one holds it, the count is the number of threads inside, and at quiescence both dictionaries are empty |
| UploadLock.LocksKept | resumable_upload/storage/sqlite_storage.py:56-72 | Dropping an entry never takes the lock object from a thread that waits for or holds it |
| UploadLock.CountsKept | resumable_upload/storage/sqlite_storage.py:56-72 | The count is always the number of threads between entry and exit |
| UploadLock.NobodyIsStuck | resumable_upload/storage/sqlite_storage.py:46-72 | No deadlock: whoever is inside and cannot go on waits for the holder of its lock, on the same upload, who can |
| ChunkedBody.ReadChunkedBody | resumable_upload/server/http_handler.py:140-208 | The reader computes the specified body, trailers, status and stream position on any input, and never buffers past the limits |
| ChunkedBody.TakeData | resumable_upload/server/http_handler.py:175-182 | Reading a chunk block by block takes exactly its octets, or notices the end of the stream |
| ChunkedSender.DecodingInverts | resumable_upload/server/http_handler.py:140-208 | For any body, any split, hex spelling, extension and trailers: the reader returns exactly body and trailers and stops at the next request if the body is within the limits, and answers 413 if not (RFC 9112, sections 7.1 and 6.3) |
| ChunkedSender.ChunksReadBack | resumable_upload/server/http_handler.py:150-185 | The same for the chunk section, by induction on the chunks |
| ChunkedSender.FieldsReadBack | resumable_upload/server/http_handler.py:187-207 | The same for the trailer section; later fields of a name win |
| ChunkedSender.HexReadBack | resumable_upload/server/http_handler.py:160-160 | Every size has a hex spelling that is read back |
| ChunkedSender.BrokenOff | resumable_upload/server/http_handler.py:155-185 | A stream that breaks off before the last chunk is accepted exactly where the cut leaves nothing of a size line but leading zeros of the size |
| ChunkedSender.TruncationPassesIff | resumable_upload/server/http_handler.py:155-168 | Some truncation of a body within the limits is accepted as a whole body if and only if the sender spells some size with a leading zero |
| ChunkedRefusals.ChunkAnswer | resumable_upload/server/http_handler.py:155-185 | For every stream and every limit: 400 if and only if the size line is endless or no size, or the data is cut short or badly ended; 413 if and only if the declared size exceeds a limit, before its data is read; an end at size zero; otherwise exactly the data joins the body |
| ChunkedRefusals.TrailerAnswer | resumable_upload/server/http_handler.py:189-207 | The trailer section ends at an empty line or the end of the stream; 400 exactly for an endless line or too many octets; a line without a colon is passed over |
| ChunkedRefusals.TooManyFields | resumable_upload/server/http_handler.py:199-203 | Trailers of more octets than allowed in all are refused, however well formed |
| ChunkedRefusals.FieldIsRead | resumable_upload/server/http_handler.py:204-207 | Name and value of a trailer field are what stands before and behind the first colon, without the white space around them |
| ChunkedRefusals.LineIs | resumable_upload/server/http_handler.py:155-155 | What is read as a line is the shortest beginning that ends in a newline, fills the limit, or is the whole stream |
| ChunkedRefusals.SizeIsRead | resumable_upload/server/http_handler.py:160-160 | A size in hex digits of either case, with white space around it and an extension behind a semicolon, is read as that size |
| ChunkedRefusals.ReadIsSize | resumable_upload/server/http_handler.py:160-160 | And whatever is read as a size has that form |
| ChunkedBody.HexDigitIs | resumable_upload/server/http_handler.py:160-160 | The hex digits of both cases have their values, and nothing else is a digit |
| Shutdown.NobodyParksUnseen | resumable_upload/server/http_handler.py:95-114 | In every interleaving of handlers and the sweep, a connection parked after `closing` is cut or on the sweep's list, and after the sweep every parked connection is cut; what is cut, in the end, is exactly what was idle when the list was made |
| Shutdown.NobodyParksAgain | resumable_upload/server/http_handler.py:95-108 | Once the flag is up no connection starts to wait |
| Shutdown.SweepEnds | resumable_upload/cli.py:48-58 | Left alone, the sweep ends, and cuts exactly what was idle when it began |
| Shutdown.GoesRound | resumable_upload/server/http_handler.py:95-108 | A connection is registered as idle while it waits for a request and not while one is served |
| Shutdown.HandlersGoOn | resumable_upload/server/http_handler.py:95-108 | Every handler can go on; under the flag it finishes instead of waiting |
| Shutdown.BusyMayBeCut | resumable_upload/cli.py:48-58 | A request in flight can be cut all the same, if its line arrives between the listing and the cut |

## Left out

- FileLock.AssembledAtMostOnce: one process only; across processes the claim can be taken twice and the file rewritten with the same bytes.
- Uploader.Client.Upload: says nothing about the server's state after a call that raises on a network that loses messages, but that it is a faithful part of the file, nor about an upload that has been deleted by the time the call returns.
- Parallel.Session.UploadParallel: what it says of calls that return nothing on a calm network assumes that the chunk size is within the server's chunk limit.
- Parallel.Session.RunAll: the uploaders interleave chunk by chunk, not within a request; they work on separate uploads, whose requests do not interact.
- Channel.Remote.LateWrite: a write that comes after the deletion of the upload leaves a file without a row, which no client sees and which is not modelled here; `Machine` has it.
- Parallel.Session.Merge: other refusals than for size are left to chance on a network that is not calm.
- TtlLock.Backend.Acquire: what other holders do during the wait is arbitrary; `AsyncLock` has them step by step.
- ChunkedBody.ReadChunkedBody: sizes are plain hex digits; the signs, prefixes and underscores that Python's `int(..., 16)` also takes are treated as malformed.
- S3Storage.Upload.WriteChunk: calls are serialized; two processes racing on the info object are not modelled.
- TusServer.Server.HandleHead: no other request comes between its reads; `Reachable.AssemblyEndsWhole` has the interleavings.
- The assembly that a PATCH triggers is, in `Machine`, a process that arrives on its own, at any time; `TusServer` has it inside the PATCH.
- An opened source file is read as it was when it was opened.
- The GCS and Azure chunk loops: the same loop as S3's, over other objects; only what differs, the compose, is modelled.
- Creation and merging of finals on S3 and Azure.
- Async handler and client twins: they repeat the order of the synchronous steps.
- An event loop that cancels its own worker futures at shutdown, which can leave a token to expire.
- The choice between body framings in the HTTP front end, header parsing, and a Content-Length body that ends early.
- Metadata, CORS, downloads, OPTIONS, metrics, hooks beyond "stops", "refuses" or "returns", Redis, URL-storage files, the command line.
- SQL text, SQLite and `flock` internals: a statement is one map update.
- Backoff delays, progress statistics, real clocks.
