# Verified models of the harness services, gates and release tools

A Dafny model of the parts of the repository that keep state, compile one form into another, or
promise a round trip, with the promises proved for every input and every run.

* **Native job service** (`BudgetLedger`, `NativeJobs`, `NativeSafety`, `NativeTheorems`,
  `NativeHistory`, `NativeAdmission`, `NativeService`, `Journal`). Any number of services start
  jobs, reserve from shared budget ledgers, dispatch a provider, record what it returned, hand the
  result to a collector, release the ledger's latch, close, crash and restart. A run is any
  interleaving of these steps. The invariant over a run says who holds which latch by worker, not
  by job reference, since two services can hold equal references.
* **Uploads and drafts** (`Uploads`, `UploadTheorems`, `UploadAnswers`, `UploadService`,
  `Drafts`). Resumable uploads with abort generations and a crash window between linking a file
  and recording it, the browser loop that drives them, and an optimistic draft register.
* **Regression gates** (`ComplianceReport`, `ComplianceReading`, `ComplianceCompact`,
  `ComplianceIdentity`, `ComplianceGate`, `CompliancePreorder`, `ComplianceSkipped`,
  `ComplianceLoops`, `ReviewGate`, `ReviewReading`, `ReviewCompact`, `ReviewLoops`). Reports, what
  reading them means, their compact baselines, and the gate between a candidate and a baseline.
* **Browser state machines** (`Feedback`, `FeedbackTheorems`, `FeedbackAnswers`,
  `FeedbackService`, `ReadingGuide`, `ReadingGuideTheorems`, `ReadingGuideMeaning`,
  `ReadingGuideLoops`). Feedback submissions whose outcome may stay unconfirmed, and a guide
  generator checked by a strict validator.
* **Roles and versions** (`AgentRoles`, `ReleaseVersion`). The layered merge of agent roles and
  the normalization of release versions.

`Prelude` and `Ordering` hold shared datatypes and the order in which the gates sort identities.
`dafny verify dfyconfig.toml` checks the whole project.

Code that updates state in place is a class, or a method with a loop, whose postcondition equates
its result with a specification function; the theorems are about those functions, and for each
operation say exactly when it succeeds, what it then leaves, and why it is refused. Three kinds of
reference definition stand beside them: invariants over runs, declarative readings that mention no
loop (`ComplianceReading`, `ComplianceCompact`, `ReviewReading`, `ReviewCompact`,
`AgentRoles.ByRule`, `ReleaseVersion.Print`), and inverse operations.

What the proofs found in the code:

* The journal's 16 MiB bound counts the characters of stored text, while the size of a new event
  counts bytes. It bounds the stored UTF-8 exactly for ASCII texts (`Journal.ByteBoundIffAscii`,
  `Journal.BytesCanExceedBound`).
* A worker that crashes after it recorded a refusal and before it released leaves every job settled
  on a ledger that stays held (`NativeTheorems.CrashCanSplitLatchFromTable`). Latch and job table
  disagree exactly when a gone holder's last put left a settled status
  (`NativeHistory.SplitExactly`); a holder whose release never comes due always has an unsettled
  job (`NativeTheorems.LatchAndTableAgree`).
* A compact baseline keeps only checks that ran. It decides like the full report exactly when every
  required case and scenario has a check that was not skipped
  (`ComplianceGate.CompactBaselineDecidesTheSame`, `CompliancePreorder.FullBaselineCompacts`); for
  every catalog some report fails this (`ComplianceSkipped.SkippedScenarioBreaksCompaction`).
* The guide validator reads `row.question_ref` of every row up to the chosen one and throws on a null
  row, which the generator skips; and a field whose text is one lone high surrogate leaves an empty
  excerpt. A drafted guide is accepted exactly when neither happens
  (`ReadingGuideTheorems.GeneratedGuideAccepted`, `ReadingGuideTheorems.NullRowIsRejected`,
  `ReadingGuideTheorems.LoneSurrogateIsRejected`).

## Model

| member | source | states |
|---|---|---|
| `NativeTheorems.MutualExclusion` | harness-ui/native_stage1.py:404-496 | Over every interleaving of any services, at most one worker is between its reserve and its release on a ledger, and the ledger is held exactly when there is one. |
| `NativeTheorems.OnlyHolderReleases` | harness-ui/native_stage1.py:480-496 | From every reachable state, whatever step is taken by whichever worker, equal refs included, a held latch stays unless its own holder releases it, and then only when a release is due. |
| `NativeTheorems.UnverifiedRunLatchesForever` | harness-ui/native_stage1.py:404-489 | Once a holder is gone, or was dispatched and came back without verified terminal and stopped leader, the ledger refuses every reserve after any further steps. |
| `NativeTheorems.LatchAndTableAgree` | harness-ui/native_stage1.py:386-489 | Whoever holds a latch whose release never comes due, dispatched and over without verified terminal and stopped leader, crashed or not, has an unsettled job, now and after any steps and restarts, so `start` inserts nothing in its service. |
| `NativeTheorems.EndedHolderIsNeverDue` | harness-ui/native_stage1.py:480-489 | In particular so does every worker that ended without a crash and without a failed release write and still holds. |
| `NativeHistory.SplitExactly` | harness-ui/native_stage1.py:347-489 | Latch and table disagree exactly when: in every run a gone holder's job is settled if and only if its last put left a settled status that `close` did not overwrite (the handler's refusal before dispatch or verified terminal, or a put of a verified accepted outcome other than the one that opens validation); then its release was due and a crash or failed write prevented it. |
| `NativeHistory.RowIsAsPut` | harness-ui/native_stage1.py:347-352 | In every run a job row's status, flags and delivery are exactly what the last put of its worker, or `close` after it, wrote. |
| `NativeHistory.SettledAsPut` | harness-ui/native_stage1.py:386-389 | A job passes the unsettled test of `start` exactly by what was put last. |
| `NativeTheorems.CrashCanSplitLatchFromTable` | harness-ui/native_stage1.py:475-489 | A run on which they disagree: for every case, a crash between a recorded refusal and its release leaves all jobs settled while the ledger can never be released. |
| `NativeTheorems.OnlyVerifiedOutputIsCollected` | harness-ui/native_stage1.py:463-474 | In every run a job is validating or validated only if its provider completed with verified terminal and stopped leader, and held for cleanup only if it completed without a stopped leader. |
| `NativeTheorems.BudgetConserved` | harness-ui/native_stage1.py:404-422 | In every run a ledger's calls and seconds are those reserved before plus exactly the successful reserves and their allocations, within the limits; each allocation is the lesser of the cap and what is left, at least 1, and made before expiry; nothing refunds. No assumption on the digest: the only exception is two budgets in use that collide. |
| `NativeTheorems.EveryLedgerAccounted` | harness-ui/native_stage1.py:404-422 | In every run, every ledger written is bound to the valid budget of some worker on it and accounts for every reservation under that budget, with the same exception. |
| `NativeAdmission.GrantedIff` | harness-ui/native_stage1.py:404-442 | In every run a worker about to reserve in an open service is granted, and comes to hold the latch, if and only if its ledger is unwritten or bound to its budget, nobody holds it, the budget has not expired, and the reservations of the run leave a call and a second; each of the four refusals is given for the first of these that fails. |
| `NativeAdmission.ReserveIff` | harness-ui/native_stage1.py:412-420 | On an unwritten ledger, or a bound one that accounts for some reservations, a reserve succeeds exactly when nothing is held, the budget has not expired, and they leave a call and a second. |
| `NativeAdmission.ReserveByCause` | harness-ui/native_stage1.py:415-419 | The allocation granted, or the cause of each refusal, from what was reserved so far. |
| `NativeAdmission.ReleaseMeansOwn` | harness-ui/native_stage1.py:491-496 | A release frees a latch with its own ref, leaves any other, and refunds nothing. |
| `NativeTheorems.AtMostOneProviderRun` | harness-ui/native_stage1.py:424-453 | Over any steps, closes, crashes and restarts, a job is handed to its provider once if it is ever marked dispatched and never otherwise. |
| `NativeTheorems.OneRowPerKeyOneUnsettled` | harness-ui/native_stage1.py:378-402 | In every reachable state a key has at most one row and at most one job of a service is unsettled. |
| `NativeTheorems.StartIsIdempotent` | harness-ui/native_stage1.py:372-402 | After a key was accepted and anything else happened, a start under it answers with the stored row if the payload digest agrees, refuses it otherwise, and inserts nothing. |
| `NativeAdmission.FreshKeyAcceptedIff` | harness-ui/native_stage1.py:372-402 | In every run a key no job has is accepted exactly when the request is well made, the service open, every worker stopped with a settled status put last, and its reference free; the row and worker added are those of the case asked for. |
| `NativeAdmission.StartRefusedBy` | harness-ui/native_stage1.py:372-390 | Each refusal of `start` is given for its cause, in order. |
| `NativeAdmission.ClosedIsQuiet` | harness-ui/native_stage1.py:508-512 | Once `close` has begun, and until a restart, every well-made start is refused, no job is added, and nothing is handed to a provider that was not before. |
| `NativeAdmission.CloseLeavesUnknown` | harness-ui/native_stage1.py:513-518 | A `close` that found a worker running leaves its job unknown when it writes, whatever happened in between. |
| `NativeAdmission.RestartOpens` | harness-ui/native_stage1.py:310-335 | A restart opens the service with the new cases, keeps the rows and the holds, and leaves no worker running. |
| `NativeTheorems.RowStays` | harness-ui/native_stage1.py:347-352 | No step drops a job row, changes its key, case or request digest, or undoes its dispatch. |
| `NativeTheorems.StepRow` | harness-ui/native_stage1.py:491-496 | A step changes a ledger's counters and binding only by a successful reserve. |
| `NativeSafety.StepKeeps` | harness-ui/native_stage1.py:372-518 | Every step keeps the invariant tying workers, job rows, and ledgers of all services together. |
| `NativeSafety.RunKeeps` | harness-ui/native_stage1.py:372-518 | So does every run. |
| `NativeSafety.WorkerStepKeeps` | harness-ui/native_stage1.py:424-489 | Every worker step keeps what its program point says of its hold, its dispatch, its outcome, its job row and its delivery status; an ended worker takes no step. |
| `NativeSafety.WorkerStepLatch` | harness-ui/native_stage1.py:404-496 | A worker step leaves the latch alone, takes a free one under its own ref, or gives back the one it holds. |
| `NativeSafety.StartKeeps` | harness-ui/native_stage1.py:372-402 | `start` keeps the service invariant, with at most one job that is unsettled, running or being closed. |
| `NativeSafety.ClosePutKeeps` | harness-ui/native_stage1.py:516-518 | The late write of `close` keeps the invariant, even when its worker has finished meanwhile. |
| `NativeSafety.ReopenedKeeps` | harness-ui/native_stage1.py:310-335 | A restart on the same private root keeps the invariant and every hold. |
| `NativeService.TrustedCases` | harness-ui/native_stage1.py:315-328 | The case table is accepted exactly when every spec has usable fields and a reference of its own, and then holds exactly their cases; a refusal names the first check that fails on the first bad spec. |
| `NativeService.SpecErrorByCause` | harness-ui/native_stage1.py:318-327 | Each refusal of a spec is given for its cause. |
| `NativeService.NativeStage1Service.Start` | harness-ui/native_stage1.py:372-402 | Answers and changes the tables as the start step does. |
| `NativeService.NativeStage1Service.Run` | harness-ui/native_stage1.py:424-489 | An undisturbed worker does what the sequence of worker steps does, and ends with the status, delivery and ledger row that its outcome and guards decide; if it still holds with no failed release, its job is unsettled. |
| `NativeService.WholeRunMeans` | harness-ui/native_stage1.py:424-489 | The steps of an undisturbed worker amount to a case analysis of its guards and outcome: final status, final delivery, and a ledger charged and held unless a release is due and goes through. |
| `NativeService.NativeStage1Service.Admit` | harness-ui/native_stage1.py:429-442 | The checks and the reservation are one reserving step, or the exception handler's. |
| `NativeService.NativeStage1Service.RecordOutcome` | harness-ui/native_stage1.py:454-461 | The acceptance and first put of an outcome are one recording step, or the exception handler's. |
| `NativeService.NativeStage1Service.DeliverOutcome` | harness-ui/native_stage1.py:462-465 | The second pin check and put are one delivering step, or the exception handler's. |
| `NativeService.NativeStage1Service.CollectReceipt` | harness-ui/native_stage1.py:466-473 | The collector's receipt or failure is one step, and a failing put of it is the exception handler's. |
| `NativeService.NativeStage1Service.Raise` | harness-ui/native_stage1.py:475-480 | The exception handler records a terminal outcome with a failed delivery, else an unknown or refused run by whether it was dispatched. |
| `NativeService.NativeStage1Service.Close` | harness-ui/native_stage1.py:508-518 | Closing marks every job whose worker still runs as unknown and nothing else. |
| `BudgetLedger.LedgerFile.Reserve` | harness-ui/native_stage1.py:404-422 | Writes the row and returns the allocation of the reservation function, or refuses with its reason and writes nothing. |
| `BudgetLedger.LedgerFile.Release` | harness-ui/native_stage1.py:491-496 | Clears the latch only when it carries the given ref. |
| `Journal.EveryJobChained` | harness-ui/native_stage1.py:354-363 | However many jobs interleave and whichever attempts are refused, each job's events form a hash chain from the all-zero start, within the total and per-event bounds. |
| `Journal.AppendByCause` | harness-ui/native_stage1.py:354-363 | An event is refused for its own size, or else for the room left to its job, or else stored at the end of the table. |
| `Journal.TipDeterminesChain` | harness-ui/native_stage1.py:361-363 | For any digest of 64 characters, two chains ending in one digest are the same chain, unless two of their own links collide or one hashes to all zeros. |
| `Journal.EqualHeadsEqualHistories` | harness-ui/native_stage1.py:498-506 | Equal heads returned by `status`, for any two jobs of any two services, mean the same event texts in the same order, with the same exception. |
| `Journal.BytesCanExceedBound` | harness-ui/native_stage1.py:355-359 | The bound is not on bytes: any character outside ASCII, in any short ASCII envelope, fills a journal with more than 16 MiB of UTF-8. |
| `Journal.ByteBoundIffAscii` | harness-ui/native_stage1.py:355-359 | Every run whose event texts keep to an alphabet stores at most 16 MiB of UTF-8 per job if and only if the alphabet is ASCII. |
| `Journal.OneByteEach` | harness-ui/native_stage1.py:355-359 | A text takes one byte per character exactly when it is ASCII. |
| `Journal.RepeatedStored` | harness-ui/native_stage1.py:357-359 | An event that passes its own bound is accepted as often as its characters, not its bytes, allow. |
| `Journal.CharsWithinBytes` | harness-ui/native_stage1.py:355-359 | A text has no more characters than UTF-8 bytes, so checking bytes against the bound on characters is safe. |
| `Journal.JournalTable.Scan` | harness-ui/native_stage1.py:358-361 | One pass over the table finds the characters stored for a job and the digest its next event chains to. |
| `Journal.JournalTable.Record` | harness-ui/native_stage1.py:354-363 | Scanning the table for a job's total and last digest appends, or refuses, as the journal function does. |
| `UploadTheorems.PublicationSafety` | harness-ui/manual_materials.py:155-209 | In every run a published file exists only while the upload is fully received and not aborted, with the pinned digest; an aborted upload has no file, no chunks and nothing received; a registered one serves exactly its joined chunks. |
| `UploadTheorems.RegisteredIsFinal` | harness-ui/manual_materials.py:117-127 | Once registered, an upload's record, chunks and bytes never change. |
| `UploadTheorems.RetryAfterCrashSucceeds` | harness-ui/manual_materials.py:155-188 | After a crash between linking and recording, whatever happens first, a retried finish succeeds and serves the file that was linked. |
| `UploadTheorems.ChunksTileThePrefix` | harness-ui/manual_materials.py:137-153 | If every chunk sent is the true slice at its offset, then under any order, duplication, abort and restart the stored chunks tile exactly the received prefix of the data. |
| `UploadAnswers.ChunkAcceptedIff` | harness-ui/manual_materials.py:137-153 | A chunk is accepted exactly when it fits and is stored already with these bytes, or is the next one of an upload in progress; other bytes at a stored offset conflict. |
| `UploadAnswers.AcceptedIsStored` | harness-ui/manual_materials.py:144-153 | An accepted chunk is stored and counted, lies at its offset in the joined bytes, and extends them by just itself unless it was there. |
| `UploadAnswers.ChunkReplays` | harness-ui/manual_materials.py:145-148 | Sending an accepted chunk again, after any requests that do not abort the upload, answers with the stored item and changes nothing; other bytes at its offset conflict. |
| `UploadAnswers.ChunkRefusedBy` | harness-ui/manual_materials.py:139-149 | Each refusal of a chunk is given for its cause. |
| `UploadAnswers.BeginServedIff` | harness-ui/manual_materials.py:104-116 | A begin is served exactly when its name, stage, size, purpose, digest and type are acceptable. |
| `UploadAnswers.BeginRefusedBy` | harness-ui/manual_materials.py:104-116 | Each refusal of a begin is given for its cause, in order. |
| `UploadAnswers.BeginMeans` | harness-ui/manual_materials.py:117-135 | A new upload starts attempt 1; an aborted one starts its next attempt only when asked to restart; any other begin changes nothing. |
| `UploadAnswers.FinishedIff` | harness-ui/manual_materials.py:155-188 | A finish succeeds exactly when the upload is registered, or fully received with the pinned digest, and then serves the joined chunks; a conflict with a published file cannot happen. |
| `UploadAnswers.FinishRefusedBy` | harness-ui/manual_materials.py:155-166 | Each refusal of a finish is given for its cause. |
| `UploadAnswers.ServedIff` | harness-ui/manual_materials.py:219-226 | Bytes are served exactly for registered uploads, and are their joined chunks. |
| `UploadTheorems.AbortNeverConflicts` | harness-ui/manual_materials.py:190-209 | The abort records are exactly those of the abandoned attempts, so an abort conflicts exactly when it gets as far as its record and the event digests of two attempts at hand collide. |
| `UploadAnswers.AbortedIff` | harness-ui/manual_materials.py:190-205 | In every run an abort succeeds exactly when it carries the current generation of an upload that is aborted, or in progress, unpublished and free of a digest collision. |
| `UploadAnswers.AbortMeans` | harness-ui/manual_materials.py:197-209 | A successful abort leaves the upload aborted, with no chunks and nothing received, and its attempt on record with what had been received. |
| `UploadAnswers.AbortRefusedBy` | harness-ui/manual_materials.py:190-199 | Each refusal of an abort is given for its cause. |
| `UploadTheorems.AttemptsGrow` | harness-ui/manual_materials.py:122-127 | Over any run attempts only grow. |
| `UploadTheorems.StaleAbortDiscardsNothing` | harness-ui/manual_materials.py:195-196 | An abort carrying the generation a client saw changes nothing once the upload was restarted, then or ever after. |
| `Uploads.TiledAppend` | harness-ui/manual_materials.py:149-152 | A chunk at the end of a tiling extends the tiling and the joined bytes. |
| `Uploads.TiledRange` | harness-ui/manual_materials.py:164-166 | A tiling's offsets lie in its range and its joined bytes have its length. |
| `Uploads.RunKeeps` | harness-ui/manual_materials.py:104-209 | Every run of requests and crashes keeps the invariant of items, chunks, files and abort records. |
| `UploadService.Materials.BeginUpload` | harness-ui/manual_materials.py:104-135 | Does in place what the begin step does, with its refusals, and keeps the invariant. |
| `UploadService.Materials.UploadChunk` | harness-ui/manual_materials.py:137-153 | Does in place what the chunk step does, with its refusals, and keeps the invariant. |
| `UploadService.Materials.JoinChunks` | harness-ui/manual_materials.py:164-165 | Picking the rows in order of offset yields the joined bytes. |
| `UploadService.Materials.FinishUpload` | harness-ui/manual_materials.py:155-188 | Does what the finish step does, or, cut off by a crash, what the link step does. |
| `UploadService.Materials.FileContents` | harness-ui/manual_materials.py:219-226 | Serves the published bytes of a registered upload if size and digest agree, else the refusal. |
| `UploadService.Materials.AbortUpload` | harness-ui/manual_materials.py:190-209 | Does in place what the abort step does, with its refusals, and keeps the invariant. |
| `UploadService.SendChunks` | harness-ui/v9-stage3-materials.js:46-52 | The loop from `received` terminates; a resumable upload stays resumable while others send only true chunks, and while they leave it alone every chunk is accepted until everything is stored or the loop is interrupted. |
| `UploadService.UploadFile` | harness-ui/v9-stage3-materials.js:37-57 | With any requests of others before each of the client's: while they send only true chunks the upload stays resumable and success means the server serves exactly the file; while they leave it alone an uninterrupted call from any resumable state succeeds; success always serves bytes with the file's digest. |
| `UploadService.HonestRun` | harness-ui/manual_materials.py:104-209 | Any run of requests that send only true chunks keeps an upload resumable. |
| `UploadService.AsideRun` | harness-ui/manual_materials.py:104-209 | Any run of requests for other uploads leaves an upload exactly as it is. |
| `Drafts.SavesAreLinear` | harness-ui/manual_materials.py:386-398 | The stored revision is the number of accepted writes, each built on the revision before it, and the stored selection is the last one a write supplied. |
| `Drafts.ReplayIsHarmless` | harness-ui/manual_materials.py:393-395 | Replaying the latest write returns it and changes nothing. |
| `Drafts.NoLostUpdate` | harness-ui/manual_materials.py:357-398 | A request is accepted exactly when its body is readable, a supplied selection fits, and it builds on the current revision or repeats the latest write; the first becomes the draft, the second is answered with it. |
| `Drafts.SaveRefusedBy` | harness-ui/manual_materials.py:359-396 | Each refusal of a save is given for its cause. |
| `Drafts.DraftRow.Put` | harness-ui/manual_materials.py:357-398 | Does in place what the save function does, with its refusals. |
| `ComplianceReading.FullReadingExact` | scripts/mcp_conformance/run_codex_compliance.py:1459-1679 | A full report is read without error exactly when it declares the pinned header and catalogs and has one well-formed case per required mode and transport running exactly the pinned scenarios; and then the statuses read are the ones its cases record. |
| `ComplianceReading.ChecksExact` | scripts/mcp_conformance/run_codex_compliance.py:1639-1664 | The check loop of a case errs exactly on an unusable check, adds exactly the recorded statuses, and observes exactly the scenarios shown. |
| `ComplianceReading.CasesExact` | scripts/mcp_conformance/run_codex_compliance.py:1593-1613 | The case table is built without error exactly when entries are well formed and no required case comes twice, and then finds each case. |
| `ComplianceCompact.CompactReadingExact` | scripts/mcp_conformance/run_codex_compliance.py:1493-1591 | A compact baseline is read without error exactly when it declares header, kind, modes and transports, records well-formed identities without repetition, and covers both cases and exactly the pinned scenarios of each mode; and then the statuses read are the recorded ones. |
| `ComplianceIdentity.StableNameExact` | scripts/mcp_conformance/run_codex_compliance.py:1443-1449 | A name with an arrival number is its stem, and any other name is itself. |
| `ComplianceIdentity.IdentityExact` | scripts/mcp_conformance/run_codex_compliance.py:1425-1456 | Which checks have an identity, and what it is made of. |
| `ComplianceIdentity.ArrivalIsNoIdentity` | scripts/mcp_conformance/run_codex_compliance.py:1443-1456 | A check keeps its identity under any name if it has a check id, and under any arrival number if it has none. |
| `ComplianceIdentity.GateIgnoresArrival` | scripts/mcp_conformance/run_codex_compliance.py:1425-1809 | Renumbering arrivals in candidate, baseline or both leaves the whole verdict as it is. |
| `ComplianceReading.HeaderErrorsByCause` | scripts/mcp_conformance/run_codex_compliance.py:1465-1491 | The complaints about the header are exactly those with a cause. |
| `ComplianceReading.OfficialErrorsByCause` | scripts/mcp_conformance/run_codex_compliance.py:1474-1491 | So are those about the official metadata. |
| `ComplianceReading.ScenarioErrorsByCause` | scripts/mcp_conformance/run_codex_compliance.py:1666-1677 | The scenarios complained about are exactly the pinned ones not observed and the observed ones not pinned. |
| `ComplianceReading.PolicyErrorsByCause` | scripts/mcp_conformance/run_codex_compliance.py:1758-1765 | What is said of the OAuth policies of the two reports. |
| `ComplianceReading.ShippingErrorsByCause` | scripts/mcp_conformance/run_codex_compliance.py:1776-1788 | Exactly the failing shipping checks are named, by check id, for candidate and baseline. |
| `ComplianceGate.RequiredRead` | scripts/mcp_conformance/run_codex_compliance.py:1459-1679 | What an error-free report yields: well-formed identities, scenarios from the catalogs, and the pinned catalogs selected. |
| `ComplianceGate.CompactReadsBack` | scripts/mcp_conformance/run_codex_compliance.py:1682-1726 | Reading a compact baseline back gives every status but SKIP, without error exactly under coverage. |
| `ComplianceGate.CompactBaselineDecidesTheSame` | scripts/mcp_conformance/run_codex_compliance.py:1682-1809 | For every baseline that compacts and every candidate, the gate's success, errors and four lists are the same against the compact baseline as against the full report, exactly when every required case and scenario has a check that was not skipped. |
| `ComplianceGate.CompactingTwice` | scripts/mcp_conformance/run_codex_compliance.py:1682-1726 | A compact baseline compacts again exactly under coverage, and then to itself. |
| `ComplianceSkipped.SkippedScenarioBreaksCompaction` | scripts/mcp_conformance/run_codex_compliance.py:1714-1725 | For every catalog with named scenarios in every mode, the report that skipped each of them over HTTP compacts and passes against itself, but not against its compact baseline. |
| `CompliancePreorder.RequiredSide` | scripts/mcp_conformance/run_codex_compliance.py:1751-1756 | A report reads the same as baseline and as candidate, but for whom its errors name. |
| `CompliancePreorder.AcceptsIff` | scripts/mcp_conformance/run_codex_compliance.py:1744-1809 | The gate accepts exactly when both reports are usable under one policy, no failure is new and no check is lost. |
| `CompliancePreorder.AcceptsFullIff` | scripts/mcp_conformance/run_codex_compliance.py:1744-1809 | Between full reports the same, said of what their cases record rather than of what was read. |
| `CompliancePreorder.GateListsFull` | scripts/mcp_conformance/run_codex_compliance.py:1767-1809 | Between sound full reports the four lists are, in order, exactly the checks that newly fail, are gone, fail in both, and failed and now pass, by what the cases record. |
| `CompliancePreorder.FullBaselineCompacts` | scripts/mcp_conformance/run_codex_compliance.py:1682-1809 | A full baseline compacts exactly when it is sound, and its compact form decides every candidate as it does exactly when its own cases record a check that ran for every required case and scenario. |
| `CompliancePreorder.GateIsReflexive` | scripts/mcp_conformance/run_codex_compliance.py:1744-1809 | A report passes against itself exactly when it reads without error, records its OAuth policy and has no failing shipping check. |
| `CompliancePreorder.GateIsTransitive` | scripts/mcp_conformance/run_codex_compliance.py:1744-1809 | If B passes against A and C against B, then C passes against A. |
| `CompliancePreorder.ChainOfBaselines` | scripts/mcp_conformance/run_codex_compliance.py:1744-1809 | Along any chain of accepted reports the last passes against the first: no passing check is lost and no failure is admitted. |
| `ComplianceLoops.RequiredChecks` | scripts/mcp_conformance/run_codex_compliance.py:1459-1679 | The loops over cases, checks and buckets compute the reading, errors in order. |
| `ComplianceLoops.EvaluateGate` | scripts/mcp_conformance/run_codex_compliance.py:1744-1809 | The loops of the gate compute the verdict, with every list in the order of its identities. |
| `ReviewReading.FullReadingExact` | scripts/mcp_conformance/review_regressions.py:859-1029 | A full reviewer report is read without error exactly when it declares the header, names each required case once with well-formed, distinct, consistent checks, and carries the totals and success flag of the outcomes its cases tell; and then those are the outcomes read. |
| `ReviewReading.CasesExact` | scripts/mcp_conformance/review_regressions.py:944-993 | The case loop errs exactly on a bad or repeated case, and otherwise reads exactly the cases named and the verdicts told. |
| `ReviewCompact.CompactReadingExact` | scripts/mcp_conformance/review_regressions.py:882-938 | A compact reviewer baseline is read without error exactly when it declares header and kind, lists exactly the required cases, records well-formed checks without repetition or contradiction, and carries their totals; and then the outcomes read are the recorded ones. |
| `ReviewReading.TotalsExact` | scripts/mcp_conformance/review_regressions.py:1002-1024 | The recomputed totals count successes, failures, checks, cases whose checks all succeeded, and cases. |
| `ReviewCompact.GateListsFull` | scripts/mcp_conformance/review_regressions.py:1081-1110 | Between clean full reports the four lists are, in order, exactly the checks that newly fail, fail in both, are gone, and failed and now succeed. |
| `ReviewCompact.OpeningByCause` | scripts/mcp_conformance/review_regressions.py:865-876 | Each complaint about the header is made exactly for its cause. |
| `ReviewCompact.CheckLtByField` | scripts/mcp_conformance/review_regressions.py:1086-1094 | Checks are ordered by mode, transport and name. |
| `ReviewGate.CleanRead` | scripts/mcp_conformance/review_regressions.py:859-1029 | What a report read without error declares, observes and totals. |
| `ReviewGate.CompactRoundTrip` | scripts/mcp_conformance/review_regressions.py:1032-1067 | Reading the compact baseline of a clean report finds no errors, the same check-to-outcome map and cases, and recomputed totals equal to the copied summary. |
| `ReviewGate.CompactDecidesTheSame` | scripts/mcp_conformance/review_regressions.py:1032-1110 | So the gate decides the same on it for every candidate, and compacting twice equals compacting once. |
| `ReviewGate.AcceptsIff` | scripts/mcp_conformance/review_regressions.py:1070-1110 | The gate accepts exactly when both reports read without error, every failure is a known one and no check is missing. |
| `ReviewGate.GateIsReflexive` | scripts/mcp_conformance/review_regressions.py:1070-1110 | A report passes against itself exactly when it reads without error. |
| `ReviewGate.GateIsTransitive` | scripts/mcp_conformance/review_regressions.py:1070-1110 | The gate is transitive. |
| `ReviewGate.ChainOfBaselines` | scripts/mcp_conformance/review_regressions.py:1070-1110 | Along any chain of accepted reports no passing check is lost and no failure is admitted. |
| `ReviewLoops.RequiredChecks` | scripts/mcp_conformance/review_regressions.py:859-1029 | The loops compute the reading, errors in order. |
| `ReviewLoops.EvaluateGate` | scripts/mcp_conformance/review_regressions.py:1070-1110 | The loops of the gate compute the verdict, with every list sorted. |
| `Ordering.Sort` | scripts/mcp_conformance/run_codex_compliance.py:1772-1783 | Sorting a set by a strict total order gives its one increasing listing. |
| `Ordering.SortedUnique` | scripts/mcp_conformance/run_codex_compliance.py:1714-1725 | A set has only one increasing listing, so a sorted list is determined by its members. |
| `Ordering.TextLtDecides` | scripts/mcp_conformance/run_codex_compliance.py:1772-1783 | Text is ordered by the first character in which it differs, a beginning first. |
| `ComplianceReport.IdLtByField` | scripts/mcp_conformance/run_codex_compliance.py:1772-1783 | Identities are ordered by mode, transport, source, scenario and check id. |
| `Feedback.StepKeeps` | harness-ui/v9-stage3-feedback.js:23-120 | Every event keeps the table in step with the requests on their way, a sent body with the pending one, and no submission pending while a material moves. |
| `Feedback.TableBounded` | harness-ui/v9-stage3-feedback.js:23-34 | In every run the table holds at most eight entries. |
| `Feedback.FirstEvictable` | harness-ui/v9-stage3-feedback.js:26 | The entry evicted is the first that is neither pending nor busy. |
| `FeedbackTheorems.StepOfOther` | harness-ui/v9-stage3-feedback.js:23-34 | An event of another binding never evicts or changes a pending or busy entry. |
| `FeedbackTheorems.PendingStep` | harness-ui/v9-stage3-feedback.js:80-120 | A submission stops being pending only on a receipt of the same kind for the identical request, or on explicit editing of a refused one. |
| `FeedbackAnswers.PendingEndsIff` | harness-ui/v9-stage3-feedback.js:23-120 | A submission stops being pending if and only if its receipt comes, as the answer or among the receipts kept from a view, or a refused one is given up for editing. |
| `FeedbackAnswers.AnswerMeans` | harness-ui/v9-stage3-feedback.js:91-97 | The answer to a submission frees the entry and leaves it settled with the receipt on record, refused, or unconfirmed. |
| `FeedbackAnswers.CollectedExact` | harness-ui/v9-stage3-feedback.js:30 | A view adds, after what is on record, the first valid row of every receipt not on record, and nothing else. |
| `FeedbackAnswers.KeptAreLast` | harness-ui/v9-stage3-feedback.js:31 | The last 32 receipts are kept. |
| `FeedbackAnswers.EntryMadeIff` | harness-ui/v9-stage3-feedback.js:23-29 | A binding has an entry after a look-up exactly when it had one, there is room, or an idle entry can be given up. |
| `FeedbackAnswers.EvictsFirstIdle` | harness-ui/v9-stage3-feedback.js:26 | Only a full table evicts, only for a new binding, and exactly the first idle entry. |
| `FeedbackAnswers.SubmitSends` | harness-ui/v9-stage3-feedback.js:98-109 | A sound submit on an idle binding becomes pending and goes on the wire. |
| `FeedbackAnswers.SubmitHeld` | harness-ui/v9-stage3-feedback.js:98-109 | A submit without a sound body, an entry or a free one sends nothing. |
| `FeedbackAnswers.RetrySends` | harness-ui/v9-stage3-feedback.js:88-92 | A retry sends the pending request exactly when none is under way and its receipt has not come. |
| `FeedbackAnswers.InspectReads` | harness-ui/v9-stage3-feedback.js:110-114 | An inspection of a pending submission reads the saved feedback. |
| `FeedbackAnswers.InspectMeans` | harness-ui/v9-stage3-feedback.js:113-120 | Its answer frees the entry and, if current, leaves the receipts of the view. |
| `FeedbackAnswers.MaterialMoves` | harness-ui/v9-stage3-materials.js:32-59 | A material moves on an idle binding, and its end frees the entry. |
| `FeedbackTheorems.ResendIsIdentical` | harness-ui/v9-stage3-feedback.js:88-97 | While it is pending, whatever is sent for its binding is the same request. |
| `FeedbackTheorems.SubmissionPersists` | harness-ui/v9-stage3-feedback.js:80-120 | Through any interleaving without such a receipt or edit, it stays pending and every request sent for its binding is the same, so no other key is created. |
| `FeedbackService.FeedbackTable.MakeEntry` | harness-ui/v9-stage3-feedback.js:23-29 | Finds, makes or refuses an entry, evicting as specified. |
| `FeedbackService.FeedbackTable.Lookup` | harness-ui/v9-stage3-feedback.js:23-34 | Collects receipts, keeps the last 32 and settles what they confirm, as specified. |
| `FeedbackService.FeedbackTable.SubmitFeedback` | harness-ui/v9-stage3-feedback.js:98-109 | Does in place what the submit event does. |
| `FeedbackService.FeedbackTable.RetryFeedback` | harness-ui/v9-stage3-feedback.js:88-90 | Does in place what the retry event does. |
| `FeedbackService.FeedbackTable.AnswerSend` | harness-ui/v9-stage3-feedback.js:91-97 | Does in place what an answered submission does. |
| `FeedbackService.FeedbackTable.InspectFeedback` | harness-ui/v9-stage3-feedback.js:110-112 | Does in place what the inspect event does. |
| `FeedbackService.FeedbackTable.AnswerInspect` | harness-ui/v9-stage3-feedback.js:113-120 | Does in place what an answered inspection does. |
| `FeedbackService.FeedbackTable.EditRefusedFeedback` | harness-ui/v9-stage3-feedback.js:80-87 | Does in place what editing a refused request does. |
| `FeedbackService.FeedbackTable.MoveFeedbackMaterial` | harness-ui/v9-stage3-materials.js:32-36 | Does in place what starting a material upload, abort or download does to the entry. |
| `FeedbackService.FeedbackTable.AnswerMove` | harness-ui/v9-stage3-materials.js:57-59 | Does in place what the end of a material transfer does to the entry. |
| `ReadingGuideTheorems.GeneratedGuideAccepted` | harness-ui/v9-research-guide-contract.js:27-128 | For every plan that passes the generator's own checks, the guide it drafts is accepted by the validator exactly when no null row precedes the chosen question and no text shown is a lone surrogate. |
| `ReadingGuideTheorems.WellFormedTextAccepted` | harness-ui/v9-research-guide-contract.js:94-128 | With well-formed text, it is accepted exactly when no null row precedes the chosen question. |
| `ReadingGuideMeaning.DraftedIff` | harness-ui/v9-research-guide-contract.js:87-101 | A guide is drafted exactly when the version is positive, there are 1 to 32 rows, and the first row that fits the request and the context has a method; and it is about that row. |
| `ReadingGuideMeaning.DraftShows` | harness-ui/v9-research-guide-contract.js:102-128 | A drafted guide shows the fields with text in the fixed order, and as steps the groups of method lines that are not blank, each cut to its limit and quoted from its field. |
| `ReadingGuideMeaning.AcceptedIsGrounded` | harness-ui/v9-research-guide-contract.js:27-76 | Any guide the validator accepts belongs to the binding, is about the first row with its reference, and says nothing without quoting words that stand in that row. |
| `ReadingGuideMeaning.GoodSourceIff` | harness-ui/v9-research-guide-contract.js:38-48 | A source is accepted exactly when it quotes, within the limit, words of a field or numbered unknown it points to. |
| `ReadingGuideMeaning.FieldTextExact` | harness-ui/v9-research-guide-contract.js:43-46 | A pointer names one of seven fields or one of the first hundred unknowns, and nothing else. |
| `ReadingGuideTheorems.NullRowIsRejected` | harness-ui/v9-research-guide-contract.js:35-36 | A concrete plan with a null first row: drafted, and rejected. |
| `ReadingGuideTheorems.LoneSurrogateIsRejected` | harness-ui/v9-research-guide-contract.js:102-107 | A concrete plan whose method is one lone high surrogate: drafted, and rejected. |
| `ReadingGuideTheorems.SameIndex` | harness-ui/v9-research-guide-contract.js:87-91 | Even with repeated references the validator finds the row the generator chose, or throws on a null row before it. |
| `ReadingGuideTheorems.ExcerptOf` | harness-ui/v9-research-guide-contract.js:102-107 | An excerpt is a part of its field within the limit, and when it is empty. |
| `ReadingGuideTheorems.StepsCoverMethod` | harness-ui/v9-research-guide-contract.js:117-124 | The method's lines are covered in order by at most eight contiguous groups. |
| `ReadingGuideMeaning.LinesAreLines` | harness-ui/v9-research-guide-contract.js:118 | Lines hold no newline. |
| `ReadingGuideMeaning.GroupsAreEven` | harness-ui/v9-research-guide-contract.js:119-120 | All groups but the last have the same number of lines. |
| `ReadingGuideMeaning.WidthIsLeast` | harness-ui/v9-research-guide-contract.js:118 | That number is the least for which eight groups suffice. |
| `ReadingGuideLoops.BuildSteps` | harness-ui/v9-research-guide-contract.js:118-124 | The loop pushes one step per group that is not blank, in order. |
| `ReadingGuideLoops.UniqueNodes` | harness-ui/v9-research-guide-contract.js:53-59 | The set of identifiers finds a repetition exactly when there is one. |
| `ReadingGuideLoops.EdgeKeyInjective` | harness-ui/v9-research-guide-contract.js:60-65 | The joined key of an edge determines both ends. |
| `ReadingGuideLoops.UniqueEdges` | harness-ui/v9-research-guide-contract.js:60-65 | The set of keys finds a repeated edge exactly when there is one. |
| `AgentRoles.MergeEqualsRule` | codex-rs/agent-roles/src/loader.rs:100-113 | A role is present exactly when some layer supplies its description, and each field is the value from the highest layer defining it among the layers at or above the first that supplied a description. |
| `AgentRoles.First` | codex-rs/agent-roles/src/loader.rs:105-111 | The lowest layer that supplies a role's description. |
| `AgentRoles.Highest` | codex-rs/agent-roles/src/loader.rs:166-173 | The value in the highest layer, from a given one up, that defines a field. |
| `AgentRoles.FirstDeclarationWins` | codex-rs/agent-roles/src/loader.rs:47-72 | Within a layer a declared role is that of the first readable declaration of its name. |
| `AgentRoles.FirstFileWins` | codex-rs/agent-roles/src/loader.rs:298-332 | Among the files found, a role is that of the first readable file of its name that no declaration uses. |
| `AgentRoles.LayerByRule` | codex-rs/agent-roles/src/loader.rs:36-98 | Within a layer a role is the first declared under its name, else that of the first readable file of its name that no declaration of the layer uses. |
| `AgentRoles.CollectLayer` | codex-rs/agent-roles/src/loader.rs:36-98 | The loops of a layer yield its declarations, then files under names not declared, or fail on an unreadable folder. |
| `AgentRoles.MergeLoop` | codex-rs/agent-roles/src/loader.rs:100-113 | The merge loop of a layer, in whatever order it takes the names, yields the merged map. |
| `AgentRoles.LoadAgentRoles` | codex-rs/agent-roles/src/loader.rs:23-117 | With layers, loading fails exactly when a folder is unreadable and otherwise yields the roles of the direct rule; without layers it fails exactly on an unreadable, undescribed or repeated declaration and otherwise yields exactly the declared roles. |
| `AgentRoles.LoadLayers` | codex-rs/agent-roles/src/loader.rs:34-116 | The loop over layers equals the layer-by-layer merge and the direct rule. |
| `AgentRoles.LoadDeclared` | codex-rs/agent-roles/src/loader.rs:125-145 | Without layers, exactly the declared roles, or failure on the first bad declaration. |
| `AgentRoles.DeclaredAsLayer` | codex-rs/agent-roles/src/loader.rs:125-145 | What loads without layers loads the same as the only layer of a stack. |
| `ReleaseVersion.ParseIffPrint` | sdk/python/release_version.py:82-83 | The normalized pattern matches exactly the prints of well-formed versions, each in one way. |
| `ReleaseVersion.PreSpellings` | sdk/python/release_version.py:70-84 | Every spelling of a pre-release, with any prefix and with or without the dot, normalizes to the same version. |
| `ReleaseVersion.HotfixSpellings` | sdk/python/release_version.py:77 | So does every spelling of an alpha hotfix. |
| `ReleaseVersion.PlainSpellings` | sdk/python/release_version.py:70-75 | A normalized version under any prefix normalizes to itself. |
| `ReleaseVersion.NormalizeIdempotent` | sdk/python/release_version.py:70-84 | Normalizing what is normalized changes nothing. |
| `ReleaseVersion.TagRoundTrip` | sdk/python/release_version.py:47-84 | A version has a release tag exactly when it normalizes, and normalizing the tag gives the same version back. |
| `ReleaseVersion.TagIs` | sdk/python/release_version.py:47-67 | The release tag of any spelling of a version: alpha hotfixes and plain pre-releases respelled, anything else printed, after `rust-v`. |
| `ReleaseVersion.SpaceIgnored` | sdk/python/release_version.py:71 | Space around a version does not matter. |
| `ReleaseVersion.DashlessIff` | sdk/python/release_version.py:70-84 | A text without dashes normalizes exactly if it is a version, or one after a `v`. |
| `ReleaseVersion.TagsAreDistinct` | sdk/python/release_version.py:47-67 | Two versions share a release tag exactly when they normalize alike. |

## Left out

- Digests and canonical JSON are parameters; nothing is assumed of them but the length of a journal digest, and the theorems that depend on a digest name the collision that would break them.
- One live instance per private root is assumed: a restart ends the threads of the instance before it.
- A job row keeps what `start` and the release depend on (status, terminal and cleanup flags, delivery); event and binding messages of a provider are taken not to write these, and timestamps, paths, receipts and error texts are dropped.
- NativeService.NativeStage1Service.Run: runs one worker with no other thread in between; every interleaving is covered by the step model of NativeJobs.
- File pins, private-path and link checks, clocks and the provider process are success flags or values of the steps.
- Extension checks, base64 decoding and the validity of a draft's selection are flags; the type checks of request fields are the types of the model.
- The scenario catalog and the set of required reviewer cases are parameters, so the theorems hold for any.
- ReviewGate.CompactRoundTrip: missing and unexpected cases are reported as one set each, not as one error per case.
- ComplianceReport.IdentityOf treats as decimal only ASCII digits, where the source asks for any Unicode decimal.
- The binding of a plan to a revision is taken as given, and the validator's error codes are not told apart.
- AgentRoles.LoadAgentRoles: does not model the warnings pushed for skipped declarations and files, nor the reading of role files, which is given as its result.
- UploadService.UploadFile: the display changing is one number of chunks after which it happens.
- Packet import, packet views and workflow preparation, HTTP handlers, HTML rendering, app-server RPC, agent identity, packaging and lint scripts are not part of this model.
