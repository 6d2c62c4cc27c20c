# Verification of the portal's durable core

This project models the parts of the service whose correctness depends on what happens *between*
steps: the leased job queue and its workers, the handlers that must act once although they may be delivered many
times, the incremental mail cursor, the audited configuration overlay, the drive, classification versions,
Open WebUI conversation links, and the codecs and arithmetic around them. It states and proves properties that
hold over every run, every input or every interleaving.

## How the models are built

Stored tables are values (maps, sequences, sets). Each repository write is a function of the table, with the guard
its SQL statement carries. Code that updates things in place is a `class` whose methods are proved equal to those
functions. Code that can be interrupted between two storage or provider calls is a step function over a phase, so
that deliveries, crashes, lost leases and other writers can come between any two calls. A run is a sequence of
events; safety lemmas are inductions over runs that start from the empty state. Lemmas named `...Alone` or `...IsARun`
tie the two: an operation with nothing in between has as events the very effect its method states.

| file | models |
|---|---|
| JobQueue, JobWorker, LeaseTiming | the jobs table, the manager's claims and outcomes, backoff, and when leases exclude |
| ReplyProtocol, ReplySafety | reply generation on top of the queue, with handlers that outlive their lease |
| MailIngest, MailSafety | one IMAP fetch, the poll handler, runs of polls over a changing mailbox |
| ConfigStore, ConfigSafety | versioned overlay rows, their audit log, the config commands and seeding |
| DriveFolders, DriveObjects | the folder forest and its bounded ancestor walk; rows and objects under orphan sweeps |
| Classification, ClassificationSafety | version allocation, completion and activation under racing deliveries |
| LinkMachine, ChatCreation, ChatDelivery, ChatOverlap | conversation links and their writes; the one-shot chat creation of a branch's first turn: one delivery alone, and what overlapping ones can still do to it |
| FeedList, EnvFile, ConfigTransfer | the feed list codec, the dotenv export/parse pair, and an overlay moved to another host |
| Pagination, PromptBudget, Scheduler | page walks, prompt context budgets, idempotency windows |
| Text, Wrappers | string helpers and option types |

## What the proofs found

Each item names its lemmas. Where a promise fails, one gives a failing input or run and another a condition for all
inputs or runs under which it holds; that condition is the exact one where the item says "exactly".

- The comment at the reply generation's insert takes a conflict to mean exactly that the same job was already
  attempted, independent of the other unique index on target and kind. That holds while no two jobs share target and
  kind (`ConflictMeansOwnDelivery`), which is all that note creation enqueues. Two jobs that do share them
  conflict with each other, and the later one is retried and writes nothing (`PendingGenerationBlocksOthers`,
  `SharedTargetBlocks`).
- Lowering the queue's attempt limit while the handler keeps the limit it was built with leaves dead jobs with a
  pending generation; without storage faults, exactly then (`OrphanedGeneration`).
- Lease exclusion also fails without any late tick when the lease duration is raised between the dispatch
  confirmation and the creation of the renewal ticker; among punctual runs exactly then
  (`GrownLeaseOverlaps`, `PunctualLeasesExcludeExactly`).
- A Message-ID that spells another message's UIDVALIDITY and UID shares its dedupe key; no other two messages of a
  source with different Message-IDs do (`KeysAgreeExactly`).
- The mail cursor can move backwards, exactly when all messages left are below it and the server answers with one of
  them (`CursorCanMoveBackwards`, `CursorMovesBackExactly`); nothing is lost or duplicated anyway.
- A set whose key was unset and set again between its read and its transaction passes the version check and audits a
  value it did not replace (`StaleOldValue`); exactly when the row's value is no longer the one read
  (`CommitChainsExactly`).
- Equal time stamps can make rollback pick an older value; `RollbackPicksNewestExactly` says when
  (`EqualStampsCanMisorder`).
- The move guard also refuses moves that make no cycle once the new parent has 1000 or more ancestors
  (`MoveAcceptedExactly`).
- A row can lose its object to a sweep that listed the object before the row existed (`DisturbedRowLosesObject`): exactly
  while such a sweep still has the object on its list, or has deleted it (`RowKeepsObjectExactly`,
  `InsertedRowKeepsObjectExactly`).
- Repeated tags in a model's answer are not removed, unlike repeated related ids, and violate the tag table's key: a
  model that keeps repeating a tag never settles a version, not even on the last attempt (`RepeatedTagNeverSettles`,
  `CompletesExactlyOnDistinctTags`).
- Two classification jobs of one entry: the loser of a race for a version adopts the winner's row even when it belongs
  to the other job (`AdoptsForeignExactly`), and may report success without a version of its own
  (`LoserDecidesTheWinnersVersion`); a late completion of an older version takes the active flag from a newer one
  (`LateCompletionTakesOver`, `OlderVersionEndsUpActive`). Note creation enqueues one such job per entry; a second one
  can only come through `EditPost`, which nothing shipped calls. For a single job both are excluded
  (`OneJobOneVersion`, `OneJobSuccessIsOwn`).
- The documentation of MarkReady does not mention that a chat recorded on another link of the workspace is refused
  (`PendingLinkRefusedTakenChat`); `MarksFollowTheTable` says exactly which writes succeed.
- The turn job reads turn and link before it takes the thread's lock and not again afterwards: overlapping deliveries
  start two remote chats, turn a succeeded turn ambiguous, or write two replies (`OverlapStartsTwoChats`,
  `StaleSnapshotReopensASucceededTurn`, `OverlapRepliesTwice`). From any reached state the positions of its live
  deliveries decide exactly whether each can still happen (`NoFurtherStartExactly`, `SuccessLastsExactly`,
  `NoFurtherReplyExactly`). Reading the attempt again under the lock would exclude the second chat
  (`UnchangedAttemptStartsOnce`); without overlap all three are excluded (`StartsAtMostOneChat`,
  `SuccessLastsWhenExclusive`).
- `JoinRSSFeedURLs` is documented as the inverse of `SplitRSSFeedURLs`; `RoundTripExactly` says for which lists it is,
  and `StrayPipeSplitsOneFeedInTwo` shows an accepted value that does not survive being edited.
- The exported dotenv text does not carry every stored value (`ExportRoundTripsExactly`), and an import also drops
  empty ones (`TransferReproducesExactly`).
- A reply that first appears before the page anchor is never returned; every other one that stays visible is
  (`EntrySortedBeforeAnchorIsMissed`, `ReturnedExactly`).
- Intervals below one second make different windows share an idempotency key (`KeysTellWindowsApartExactly`), and
  raising an interval, but not lowering it, can suppress a tick (`LongerIntervalSuppressesATick`,
  `NoTickSuppressedExactly`).

## Model

| member | source | states |
|---|---|---|
| JobQueue.ClaimBatchUnique | internal/storage/sqlite/job_repository.go:51-90 | a claim is the first due rows in (next_run_at, id) order up to the limit; table, limit and time fix the batch and its order |
| JobQueue.JobRepository.Enqueue | internal/storage/sqlite/job_repository.go:20-31 | a new row is pending with attempt 0 and due from its time on; a taken id or idempotency key conflicts and changes nothing, so no key ever names two rows |
| JobQueue.JobRepository.NextDue | internal/storage/sqlite/job_repository.go:51-90 | finds the least due row not yet taken, or shows that none is due |
| JobQueue.JobRepository.Claim | internal/storage/sqlite/job_repository.go:51-90 | hands out exactly the first due rows, pending or with an expired lease, by due time and then id; each is owned and claimable by others exactly from its expiry on, its attempt, key and due time kept, and no other row changes |
| JobQueue.JobRepository.Renew | internal/storage/sqlite/job_repository.go:91-102 | only under the owner that holds it the lease is extended, so that others can claim the row exactly from the new expiry on; nothing else changes |
| JobQueue.JobRepository.Settle | internal/storage/sqlite/job_repository.go:103-151 | only for the lease holder: the row is succeeded, pending, dead or failed as the outcome says, owned by nobody, claimable exactly from the retry's due time on and otherwise never, with one more attempt only for a retry; key and other rows are kept |
| JobQueue.JobRepository.Requeue | internal/storage/sqlite/job_repository.go:195-207 | only a dead or failed row returns to the queue: claimable by anyone from the given time on, attempt and key kept, no other row touched; anything else is a conflict |
| JobQueue.FencedRun | internal/jobs/manager.go:193-226 | over every run of writes by anyone: a running row is leased to its newest claim, other rows to nobody, and each claim decides each row at most once |
| JobQueue.StaleWriteIsNoOp | internal/domain/job.go:48-71 | in every reachable state a renewal or outcome under any lease but the row's newest claim changes nothing, also within one worker |
| JobQueue.KeysStayUnique | internal/storage/sqlite/migrations/0006_jobs.sql:10 | over every run a key names at most one row and a row keeps its key, whatever became of the job |
| JobQueue.EventsAreTheWrites | internal/storage/sqlite/job_repository.go:20-207 | each event of a run makes of the table what the repository's write makes of it |
| JobWorker.WithDefaults | internal/jobs/manager.go:400-442 | every configuration becomes usable, field by field: what is in range is kept, the rest gets the documented default |
| JobWorker.UsableIsKept | internal/jobs/manager.go:400-442 | a usable configuration with a real margin comes back unchanged |
| JobWorker.LeaseDefaults | internal/jobs/manager.go:416-421 | the margin ends up below the lease; an unusable one becomes a third of it |
| JobWorker.BackoffDefaults | internal/jobs/manager.go:425-436 | base, cap and jitter defaults; a cap below the base is raised to it |
| JobWorker.PreJitterIsCappedDoubling | internal/jobs/backoff.go:8-24 | the delay is min(base * 2^min(attempt, 20), cap), and the product formed never leaves int64 |
| JobWorker.BackoffGrowsWithinBounds | internal/jobs/backoff.go:8-35 | later attempts never wait less before jitter; every actual delay lies in [base, cap] |
| JobWorker.DelayDoubles | internal/jobs/backoff.go:8-24 | before jitter the delay starts at the base, doubles with each attempt up to the cap, and stands still from the twentieth on |
| JobWorker.BackoffSpreadsDoubling | internal/jobs/backoff.go:8-35 | the actual delay is the doubled one at the middle draw, else the one the draw names between one jitter share less and one more, rounded down, or the bound which that exceeds |
| JobWorker.Manager.Poll | internal/jobs/manager.go:185-222 | claims under a fresh lease owner as many first due rows as concurrency and batch size allow; never lifts the running count above the limit |
| JobWorker.Manager.ConfirmLease | internal/jobs/manager.go:278-298 | a delivery goes on only if its lease is renewed, and then no other can claim the row for a lease duration |
| JobWorker.Manager.Finish | internal/jobs/manager.go:300-341 | the result decides the row's state: succeeded, failed, dead when the attempts are used up, else pending with one more attempt and claimable exactly after the backoff, no earlier than the base and no later than the cap from now; no other row changes |
| JobWorker.Manager.RetryCancelled | internal/jobs/manager.go:350-355 | a cancelled delivery's row is claimable at once with one more attempt, whatever its attempt |
| JobWorker.AttemptsAreBounded | internal/jobs/manager.go:300-341 | with a fixed limit and no lease recovery, cancellation or requeue, each row is handed out at most MaxAttempts times and is then no longer pending |
| LeaseTiming.TimelyLeasesExclude | internal/jobs/manager.go:228-298 | if no tick is served a full margin late and leases do not shrink, no lease expires under a running handler and no two handlers of a row overlap, over every run |
| LeaseTiming.RenewalCarriesOn | internal/jobs/manager.go:228-276 | ticks served when they fall due are timely and carry a handler through any number of intervals under its own lease |
| LeaseTiming.FullMarginLateOverlaps | internal/jobs/manager.go:238-262 | one tick exactly a margin late lets two handlers overlap |
| LeaseTiming.GrownLeaseOverlaps | internal/jobs/manager.go:228-262 | whenever the lease confirmed at dispatch is shorter than the one the ticker is built from, a run with no late tick lets two handlers overlap |
| LeaseTiming.PunctualLeasesExcludeExactly | internal/jobs/manager.go:228-298 | with every tick served less than a margin late, all runs exclude overlapping handlers if and only if the ticker is built from at most the confirmed lease |
| ReplyProtocol.ReplyService.EnsureGeneration | internal/llmreply/service.go:213-226 | there is work exactly for the own undecided generation, or a new one when no other undecided one has that target and kind; else nothing changes, and the handler retries or skips a decided one |
| ReplyProtocol.ReplyService.Fail | internal/llmreply/service.go:232-236 | only a pending generation becomes failed |
| ReplyProtocol.ReplyService.CreateGeneratedReply | internal/timeline/service.go:320-371 | entry and completed generation appear together, and only for a pending one |
| ReplyProtocol.ReplyService.Handle | internal/llmreply/service.go:112-212 | one delivery, case by case over every environment: a reply and a completed generation exactly with work, a target and a text; a missing target or permanent refusal fails the generation and is permanent; a retryable one fails it only on an uncancelled last attempt; anything else leaves it undecided and retries |
| ReplyProtocol.AloneDelivers | internal/llmreply/service.go:112-212 | the step sequence that the interleaved model runs, done alone, does exactly that |
| ReplySafety.DeliveryAlone | internal/jobs/manager.go:228-333 | a claimed delivery's events alone leave the store the handler makes and the row succeeded, failed, dead or pending as result and attempt say |
| ReplySafety.CancelledDeliveryIsRetried | internal/jobs/manager.go:350-355 | a cancelled delivery's row is due at the given time with one more attempt, the store untouched |
| ReplySafety.RenewalExtendsOrCancels | internal/jobs/manager.go:228-298 | a renewal tick extends the owner's lease, and cancels a delivery that lost it |
| ReplySafety.HandlerStepKeepsStore | internal/domain/llm_generation.go:33-61 | no handler operation changes a finished generation, a written reply or another job's generation |
| ReplySafety.SuccessMeansFinished | internal/llmreply/service.go:135-205 | a handler returns success only for a finished generation |
| ReplySafety.ExactlyOnce | internal/llmreply/service.go:112-226 | over every run with lost leases, zombie handlers, crashes, shutdowns and requeues: at most one reply per job, a reply exactly for each completed generation, and a succeeded row has a finished one |
| ReplySafety.DecisionsAreFinal | internal/domain/llm_generation.go:45-61 | finished generations and written replies never change in any continuation |
| ReplySafety.RedeliveryWritesNothing | internal/llmreply/service.go:135-145 | delivering a finished job again writes nothing, whatever the environment does |
| ReplySafety.PendingGenerationBlocksOthers | internal/llmreply/service.go:213-226 | a job whose target and kind another job's pending generation occupies writes nothing and is retried |
| ReplySafety.ConflictMeansOwnDelivery | internal/llmreply/service.go:135-145 | over every run whose jobs differ pairwise in target or kind, the insert conflicts exactly for a job that was already attempted |
| ReplySafety.SharedTargetBlocks | internal/llmreply/service.go:213-226 | a run from the empty state in which the second of two jobs for one target and kind is blocked by the first |
| ReplySafety.OrphanedGeneration | internal/llmreply/service.go:264-275 | without faults a row is killed with its generation pending for some answer exactly when queueLimit <= attempt + 1 < handlerLimit |
| MailIngest.CursorGoesOn | internal/mailfetch/parse.go:51-56 | a fetch goes on behind the recorded UID exactly when there is one and its UIDVALIDITY is the mailbox's or was not recorded |
| MailIngest.SortAscending | internal/mailfetch/fetch.go:186-196 | the response is processed in ascending UID order, nothing added or dropped |
| MailIngest.BuildItems | internal/mailfetch/fetch.go:196-213 | a batch is built whole or fails whole; its cursor is its last UID |
| MailIngest.FetchMailbox | internal/mailfetch/fetch.go:151-213 | one fetch resolves the cursor, sorts, keeps the 200 oldest and returns their keys with the next cursor |
| MailIngest.Source.CreateExternalEntry | internal/timeline/service.go:488-595 | an item is promoted exactly when its dedupe key is new; item and entry appear together, and an item found without its entry is an error |
| MailIngest.Source.HandleBatch | internal/ingest/service.go:127-163 | the cursor advances only when every item went through; items before a failure stay promoted |
| MailSafety.KeptReachesCursor | internal/mailfetch/fetch.go:159-209 | a fetch leaves no message between its old and its new cursor |
| MailSafety.NothingLostNothingTwice | internal/ingest/service.go:85-165 | over every run of overlapping polls, new mail, expunges, renumberings and failures: every message at or below the effective cursor is promoted, and no key twice |
| MailSafety.DifferentMailsDifferentEntries | internal/mailfetch/parse.go:163-176 | over every run two messages at or below the effective cursor with different Message-IDs have two different entries |
| MailSafety.EntriesComeFromMails | internal/ingest/service.go:85-165 | over every run each entry stands for a message that was in the mailbox at some point |
| MailSafety.KeysAgreeExactly | internal/mailfetch/parse.go:163-176 | two Message-IDs give one key exactly when they agree after trimming, two messages without exactly when UIDVALIDITY and UID agree, one of each exactly when the Message-ID spells the other's numbers |
| MailSafety.SourcesShareNoKey | internal/mailfetch/parse.go:163-176 | sources whose ids hold no bar never share a key |
| MailSafety.WholePollIsARun | internal/ingest/service.go:85-165 | a poll done alone is the interleaved steps with nothing between them |
| MailSafety.StoppedPollIsARun | internal/ingest/service.go:127-163 | a poll that stops at an item keeps the earlier ones promoted and leaves the cursor where it was |
| MailSafety.CursorCanMoveBackwards | internal/mailfetch/fetch.go:196-209 | from every new source on an empty mailbox a run of two mails, a poll, an expunge and a poll lowers the cursor |
| MailSafety.CursorMovesBackExactly | internal/mailfetch/fetch.go:186-209 | in every safe state an undisturbed poll under one UIDVALIDITY lowers the cursor if and only if every message left is below it and the server answers with one of them |
| MailSafety.WholePollProgress | internal/mailfetch/fetch.go:186-196 | a poll leaves nothing to read or at least 200 messages fewer |
| MailSafety.PollsDrain | internal/mailfetch/fetch.go:151-213 | k undisturbed polls clear a backlog of up to 200k messages and then every message is promoted |
| MailSafety.EveryBacklogDrains | internal/mailfetch/fetch.go:151-213 | from every reachable idle state enough polls clear the whole mailbox |
| MailSafety.KeyAcrossRenumbering | internal/mailfetch/parse.go:163-176 | a message with a Message-ID keeps its key under renumbering; one without keeps it exactly when UIDVALIDITY and UID are unchanged |
| MailSafety.RenumberingDuplicatesNothing | internal/mailfetch/parse.go:150-176 | after a renumbering a poll reads the mailbox from the start, and mails with the Message-IDs of promoted ones get no second entry |
| ConfigStore.ConfigDb.SetTx | internal/storage/sqlite/config_repository.go:59-76 | row and audit entry are written together, only under the expected version |
| ConfigStore.ConfigDb.UnsetTx | internal/storage/sqlite/config_repository.go:77-84 | row removed and closing entry written together, only if there is a row |
| ConfigStore.ConfigDb.ConfigSet | cmd/miauthctl/config.go:202-262 | a set alone goes through, raises the version by one and records the value it replaced |
| ConfigStore.ConfigDb.ConfigUnset | cmd/miauthctl/config.go:269-314 | an unset alone removes the row and records its value, or reports that there is none |
| ConfigStore.ConfigDb.ConfigRollback | cmd/miauthctl/config.go:529-605 | re-applies the last listed entry of that version as a new write, or as an unset, or does nothing |
| ConfigStore.ConfigDb.Seed | internal/configstore/seed.go:33-69 | in one transaction every listed key without a row gets its value at version 1, audited with key, value and no old value; existing rows stay; on a failure nothing is written |
| ConfigStore.SeedNeverOverwrites | internal/configstore/seed.go:33-69 | a seeding keeps every row, adds exactly the listed keys without one, each by one audited first version of its bootstrap value |
| ConfigStore.ConfigDb.Import | cmd/miauthctl/config.go:394-482 | imports key by key: existing rows stay, exactly the valid missing keys get their value at version 1, and the counts are those of the keys with a row, taken up, and invalid |
| ConfigStore.ImportNeverOverwrites | cmd/miauthctl/config.go:394-482 | an import changes no existing row and adds exactly the valid missing keys, each audited as a first version |
| ConfigTransfer.ImportFile | cmd/miauthctl/config.go:394-482 | a file that does not parse writes nothing; otherwise exactly its non-empty, valid values of eligible keys without a row are added, and counted |
| ConfigTransfer.TransferReproducesExactly | cmd/miauthctl/config.go:357-482 | exporting an overlay and importing the text into one without rows reproduces every value if and only if each is clean, not empty, and valid under an eligible key |
| ConfigSafety.AuditReplays | internal/domain/config.go:45-107 | under every interleaving of set, unset, rollback, seed and import, the newest audit entry of each key describes exactly its row, and versions count 1..k closed by 0 |
| ConfigSafety.ImportIsARun | cmd/miauthctl/config.go:394-482 | an import done alone is a run of per-key reads followed by a commit expecting no row or by nothing, so the results over all runs cover imports |
| ConfigSafety.SeedIsARun | internal/configstore/seed.go:33-69 | a seeding as one event writes exactly the first versions of the listed keys without a row |
| ConfigSafety.CommitChains | cmd/miauthctl/config.go:238-256 | a committing set records the replaced value unless its key was unset since its read; an unset unless the key was written |
| ConfigSafety.CommitChainsExactly | cmd/miauthctl/config.go:238-256 | over every run a committing command records the value it replaced if and only if the row's value is the one it read; else its key was written in between, and for a set unset and set again up to the same version |
| ConfigSafety.SerialRunsChain | cmd/miauthctl/config.go:238-256 | in serial runs every old value is the previous new value |
| ConfigSafety.StaleOldValue | cmd/miauthctl/config.go:238-256 | a run in which a set records a value it did not replace |
| ConfigSafety.ListedInCommitOrder | internal/storage/sqlite/config_repository.go:114-131 | with increasing stamps the listing is the commit order |
| ConfigSafety.RollbackPicksNewest | cmd/miauthctl/config.go:541-592 | with increasing stamps rollback to n picks exactly the newest entry of version n, and finds none exactly when there is none |
| ConfigSafety.RollbackPicksNewestExactly | cmd/miauthctl/config.go:541-592 | rollback to n finds an entry exactly when there is one, and picks the newest of that version if and only if the last committed one is listed last by time and id |
| ConfigSafety.EqualStampsCanMisorder | internal/storage/sqlite/config_repository.go:114-131 | a serial run of set, unset and set within one stamp after which rollback to version 1 picks an older entry |
| DriveFolders.Drive.CheckNoCycle | internal/drive/service.go:647-665 | the loop computes the bounded ancestor walk |
| DriveFolders.Drive.Create | internal/drive/service.go:543-563 | a folder goes under an existing folder of the same owner or to the root, and nothing else changes |
| DriveFolders.Drive.Move | internal/drive/service.go:613-645 | a successful move changes that folder's parent to the given one and nothing else; a folder not owned, itself as parent, or a parent not owned is refused, and then nothing changes |
| DriveFolders.Drive.Delete | internal/drive/service.go:672-689 | exactly an owned folder without child folders and files goes, and nothing else |
| DriveFolders.Drive.MoveFileTo | internal/drive/service.go:395-422 | an owned file moves into an owned folder or to the root, and nothing else changes |
| DriveFolders.FilesComeAndGo | internal/drive/service.go:162-194 | a file appears under its id in a folder of its owner or in none, and its deletion leaves no trace |
| DriveFolders.MoveAcceptedExactly | internal/drive/service.go:613-665 | a move under an owned folder is accepted exactly when the parent is not the folder nor inside it and has at most 999 proper ancestors, else refused as a cycle |
| DriveFolders.MoveKeepsForest | internal/drive/service.go:613-665 | an accepted move keeps every folder's ancestors ending at a root |
| DriveFolders.TreeStaysForest | internal/drive/service.go:543-689 | over every sequence of operations folders stay a forest with existing same-owner parents, nothing is inside itself, and no file points at a missing folder |
| DriveObjects.DriveStore.StoreImage | internal/drive/service.go:219-260 | too large or invalid images reach neither storage nor table; any other upload ends with row and object or without the row, with best-effort cleanup |
| DriveObjects.DriveStore.ValidateImage | internal/drive/validate.go:66-81 | accepts exactly decodable PNG, JPEG and WebP images of positive size within the limits |
| DriveObjects.DriveStore.DeleteFile | internal/drive/service.go:429-446 | an attached file is kept; otherwise the row goes and the object if the backend manages |
| DriveObjects.DriveStore.RunOrphanGC | internal/drive/service.go:481-503 | a sweep alone deletes exactly the unreferenced objects whose deletion does not fail, counts both, and leaves only referenced ones exactly when none failed |
| DriveObjects.RowsLoseOnlySweptObjects | internal/drive/service.go:219-503 | in every run a row lacks its object exactly when a sweep deleted it |
| DriveObjects.UploadAlone | internal/drive/service.go:219-260 | an upload's events alone have the effect the method states |
| DriveObjects.SweepAlone | internal/drive/service.go:481-503 | a sweep's events alone delete exactly the unreferenced objects whose deletion works |
| DriveObjects.RowsKeepObjects | internal/drive/service.go:253-503 | in every run rows keep their objects as long as no row is inserted for an upload whose object a sweep has deleted or still has on its list |
| DriveObjects.RowKeepsObjectExactly | internal/drive/service.go:429-503 | in every reachable state a row keeps its object in all continuations if and only if the object is there and on no deleting sweep's list |
| DriveObjects.InsertedRowKeepsObjectExactly | internal/drive/service.go:253-503 | the same decided just before the row is inserted |
| DriveObjects.DisturbedRowLosesObject | internal/drive/service.go:481-503 | a run from the empty store: a sweep lists an upload's object and reads the rows, the row is inserted, and ends without its object |
| Classification.ValidateRelatedIds | internal/llmclassify/schema.go:197-216 | the first five distinct ids of candidates other than the target, in order |
| Classification.ValidatedGrows | internal/llmclassify/schema.go:197-216 | reading more of the list only appends, so the ids kept are the first ones in their order |
| Classification.ClassifyService.EnsureClassification | internal/llmclassify/service.go:243-279 | finds the job's own version, else inserts the next one, else takes the row that won |
| Classification.ClassifyService.CompleteAndActivate | internal/llmclassify/service.go:195-216 | the transaction commits exactly for a pending version without repeated tags or links; then that version has the answer's summary, tags and links and is active, and every other one only loses the active flag |
| Classification.ClassifyService.Handle | internal/llmclassify/service.go:115-228 | a delivery whose payload or target is unusable writes nothing; any other does exactly the step sequence that the interleaved model runs one call at a time |
| ClassificationSafety.AloneClassifies | internal/llmclassify/service.go:115-324 | one delivery, case by case over every environment: the job's own undecided or next version is completed with the cut and validated answer, failed, or left undecided, and everything else is untouched but for the active flag |
| ClassificationSafety.DeliveryIsARun | internal/llmclassify/service.go:115-228 | a delivery's events alone have that effect |
| Classification.ClassifyService.Fail | internal/storage/sqlite/llm_classification_repository.go:60-71 | only a pending version becomes failed, all else about it kept; other and decided versions are untouched, a decided or missing one is a conflict |
| ClassificationSafety.VersionsStaySound | internal/domain/llm_classification.go:65-97 | over every run: versions are exactly 1..n, at most one per job, each left pending once for the status it has, the active one is exactly the latest completed, and the "not found after re-list" error never occurs |
| ClassificationSafety.CreateSucceedsExactlyWhenListIsCurrent | internal/llmclassify/service.go:254-263 | the insert conflicts exactly when a version was added since the listing |
| ClassificationSafety.DecidedVersionsAreFinal | internal/domain/llm_classification.go:80-92 | a decided version's job, status, summary, tags and links never change |
| ClassificationSafety.OneJobOneVersion | internal/llmclassify/service.go:243-279 | any racing duplicate deliveries of one job share a single version |
| ClassificationSafety.OneJobSuccessIsOwn | internal/llmclassify/service.go:195-279 | over every run of deliveries of one job, one that reports success left the job's own version decided |
| ClassificationSafety.CompletesExactlyOnDistinctTags | internal/llmclassify/service.go:195-216 | a reachable completion of a pending version commits exactly when the tags are all different |
| ClassificationSafety.RepeatedTagNeverSettles | internal/llmclassify/schema.go:128-150 | if every answer repeats a tag, every version stays pending for ever |
| ClassificationSafety.LoserDecidesTheWinnersVersion | internal/llmclassify/service.go:266-279 | a run in which a job succeeds on another job's version and owns none |
| ClassificationSafety.AdoptsForeignExactly | internal/llmclassify/service.go:243-279 | over every run a delivery that lists, conflicts and lists again adopts another job's version if and only if another job inserted that version after the first listing |
| ClassificationSafety.LateCompletionTakesOver | internal/storage/sqlite/llm_classification_repository.go:124-138 | in every reachable state completing an older pending version takes the active flag from a newer one, which stays complete |
| ClassificationSafety.OlderVersionEndsUpActive | internal/storage/sqlite/llm_classification_repository.go:124-138 | a run from the empty table that ends with version 1 active and version 2 complete |
| LinkMachine.LinkRepository.ClaimBranch | internal/storage/sqlite/openwebui_link_repository.go:45-56 | one link per branch, always starting pending with its claim job, which alone may start the chat |
| LinkMachine.LinkRepository.SetReady | internal/storage/sqlite/openwebui_link_repository.go:156-171 | pending or ambiguous, same chat if one is recorded, no other link's chat; first ready time and an unset pointer are kept |
| LinkMachine.LinkRepository.SetAmbiguous | internal/storage/sqlite/openwebui_link_repository.go:176-189 | from pending or ready only; only state and transition time change |
| LinkMachine.LinkRepository.SetTerminal | internal/storage/sqlite/openwebui_link_repository.go:196-224 | failed from pending only, dead from ambiguous only, with the category recorded and nothing else changed |
| LinkMachine.LinkRepository.SetCurrent | internal/storage/sqlite/openwebui_link_repository.go:229-239 | exactly the pointer of a ready link, no transition recorded |
| LinkMachine.MarksFollowTheTable | internal/domain/openwebui.go:288-314 | each Mark write succeeds exactly where the table allows one of its events (MarkReady also needing an acceptable chat) and reaches the state the table names |
| LinkMachine.TerminalMeansNoWayOut | internal/domain/openwebui.go:386-388 | IsTerminal holds exactly for states without a way out of the table |
| LinkMachine.LinksStaySound | internal/domain/openwebui.go:753-808 | over every sequence of writes: unique branches and chats, chat exactly where it must be, claim job and recorded chat never change, failed and dead are frozen |
| LinkMachine.AuthorisationIsSingleUse | internal/domain/openwebui.go:363-368 | the right to start the chat belongs to one job and is never regained |
| LinkMachine.AmbiguousLeftOnlyByResolution | internal/domain/openwebui.go:296-303 | an ambiguous link is left only by MarkReady or MarkDead, to the state an owner event names |
| LinkMachine.PendingLinkRefusedTakenChat | internal/storage/sqlite/migrations/0032_openwebui_links_stateless.sql:56-58 | a pending link without a chat is refused a chat another link of the workspace holds |
| ChatCreation.StartsAtMostOneChat | internal/openwebui/turnjob.go:271-340 | while no delivery, freeze or confirmation happens beside a live handler: at most one StartChat, at most one reply, and one exactly when the turn succeeded |
| ChatDelivery.TurnJob.Handle | internal/openwebui/turnjob.go:151-340 | one delivery, case by case over every environment: what it does to the link, the turn, the provider and the replies |
| ChatDelivery.AloneDelivers | internal/openwebui/turnjob.go:151-340 | the step sequence that the interleaved model runs, done alone, does exactly that |
| ChatDelivery.DeliveryIsARun | internal/openwebui/turnjob.go:151-340 | with the lock free a delivery's events alone have that effect and leave the lock free |
| ChatCreation.OwnerDecides | internal/openwebui/recovery.go:113-345 | freeze, confirm and abandon: what each does to link, turn and replies, and exactly when it does nothing |
| ChatCreation.SecondStartExactly | internal/openwebui/turnjob.go:271-340 | after any run with no late begin, overlapping deliveries included, a delivery's next two steps start a second chat if and only if the first of them begins the attempt although a chat was started, and then the attempt it read is no longer the turn's |
| ChatCreation.UnchangedAttemptStartsOnce | internal/openwebui/turnjob.go:271-340 | however deliveries overlap, the chat is started at most once while every delivery that begins finds the turn's attempt as it read it |
| ChatCreation.OverlapStartsTwoChats | internal/openwebui/turnjob.go:151-231 | from the freshly claimed branch, two deliveries that both wait for the thread's lock start two chats, the second after the first succeeded |
| ChatCreation.StaleSnapshotReopensASucceededTurn | internal/openwebui/turnjob.go:276-286 | a run from the freshly claimed branch in which a delivery holding an old link snapshot turns a succeeded turn ambiguous and freezes its ready link |
| ChatOverlap.SuccessLastsExactly | internal/openwebui/turnjob.go:151-231 | from every reached state with a succeeded turn: it stays succeeded in all continuations if and only if no live delivery has read the turn and may still act on what it read |
| ChatOverlap.NoFurtherStartExactly | internal/openwebui/turnjob.go:151-340 | from every reached state with the chat started: it is started no further time if and only if no live delivery is at the start, on its way there with attempt 0 and a link it may start, or about to read such a link |
| ChatOverlap.OverlapRepliesTwice | internal/openwebui/turnjob.go:628-680 | a run from the freshly claimed branch in which two deliveries that overlap at the answer write two replies |
| ChatOverlap.NoFurtherReplyExactly | internal/openwebui/turnjob.go:628-680 | from every reached state with a succeeded turn: no further reply is written if and only if no live delivery can still complete the turn, or leave it ambiguous on a link the owner may then confirm |
| ChatCreation.SuccessLastsWhenExclusive | internal/openwebui/turnjob.go:151-231 | while deliveries do not overlap, freeze or confirm beside one another a succeeded turn stays one |
| FeedList.SplitCallbackList | internal/config/config.go:1323-1337 | the loop computes the split at separating commas |
| FeedList.HasSchemeMeans | internal/config/config.go:1321-1337 | what introduces another URL is exactly a letter, then scheme characters, then a colon |
| FeedList.JoinOfSplit | internal/config/config.go:1323-1337 | joining the parts gives every value back |
| FeedList.SplitRSSFeedURLs | internal/config/config.go:1379-1399 | the parallel lists are the parsed entries in order |
| FeedList.SplitEntry | internal/config/config.go:1388-1396 | an entry's URL and username around its first bar |
| FeedList.JoinRSSFeedURLs | internal/config/rss_feed_urls.go:31-41 | renders each entry and joins with commas |
| FeedList.RoundTripExactly | internal/config/rss_feed_urls.go:15-41 | parsing the rendered list gives it back if and only if every URL is trimmed and without a bar, every username non-empty and trimmed, no entry holds a separating comma, every later entry starts like one, and the text is not empty |
| FeedList.PlainFeedsRoundTrip | internal/config/rss_feed_urls.go:15-41 | every list of trimmed absolute URLs without bar and inner separator, with valid usernames or none, round-trips |
| FeedList.StrayPipeSplitsOneFeedInTwo | internal/config/config.go:1379-1399 | an accepted one-feed value whose rendered form holds two entries |
| EnvFile.ParseEnvFile | internal/config/dotenv.go:19-50 | the scanner loop computes the line-by-line parse |
| EnvFile.ParseMeans | internal/config/dotenv.go:19-50 | accepted exactly when no line is malformed, badly keyed or a duplicate; holds exactly what its lines assign; an error names the first offending line |
| EnvFile.ReadLineMeans | internal/config/dotenv.go:24-40 | a line is skipped exactly when blank or a comment, and malformed exactly when no key stands before an equals sign |
| EnvFile.AssignmentMeans | internal/config/dotenv.go:24-50 | key and value are the trimmed text around the first equals sign, the value without its quotes |
| EnvFile.QuotesAloneGo | internal/config/dotenv.go:52-60 | unquoting takes one matching pair of outer quotes and nothing else |
| EnvFile.LinesHoldTheText | internal/config/dotenv.go:19-24 | the lines give the whole text back, a last line without newline included |
| EnvFile.Export | cmd/miauthctl/config.go:377-380 | writes one KEY=VALUE line per row in order |
| EnvFile.ReadBackExactly | internal/config/dotenv.go:52-60 | trimming and unquoting change a one-line value exactly when it is not clean |
| EnvFile.ExportRoundTripsExactly | cmd/miauthctl/config.go:377-380 | parsing an export gives exactly the stored rows if and only if no value has a newline, outer blanks or matching outer quotes |
| Pagination.ClampLimit | internal/httpserver/noteapi_handlers.go:837-843 | the page size is the requested one in 1..100, 100 above that, and 30 without a positive request |
| Pagination.PaginateAfterId | internal/httpserver/noteapi_handlers.go:883-910 | the first entries behind the anchor that are neither archived nor hidden, found among all entries |
| Pagination.PageHolds | internal/httpserver/noteapi_handlers.go:898-909 | a page holds only visible entries, all of them up to its last, and all of the rest when it is not full |
| Pagination.UnknownAnchorGivesNothing | internal/httpserver/noteapi_handlers.go:886-896 | an unknown anchor gives an empty page |
| Pagination.PagingReturnsEachOnce | internal/httpserver/noteapi_handlers.go:883-910 | over an end-growing list with changing visibility the walk returns entries in order, none twice, and every one that stays visible |
| Pagination.WalkInOrder | internal/httpserver/noteapi_handlers.go:883-910 | while entries are added anywhere, a walk returns entries in the order of the last list, none twice |
| Pagination.ReturnedExactly | internal/httpserver/noteapi_handlers.go:883-910 | while entries are added anywhere, one that stays visible is returned before the empty page if and only if it does not first appear before the anchor of the call that first sees it |
| Pagination.WalkEnds | internal/httpserver/noteapi_handlers.go:883-910 | over lists of at most n entries, growing anywhere, the walk meets its empty page within n + 1 calls |
| Pagination.EntrySortedBeforeAnchorIsMissed | internal/httpserver/noteapi_handlers.go:883-910 | an entry that first appears before the anchor is never returned, however long the walk |
| Pagination.VisibleEntryCanBeMissed | internal/storage/sqlite/entry_repository.go:45-47 | such a walk: a visible reply sorted before the anchor by its id |
| PromptBudget.BuildThreadContext | internal/llmreply/promptbuilder.go:38-65 | the longest suffix of the shown entries before the target within both bounds: one entry more would exceed one of them |
| PromptBudget.BuildCandidates | internal/llmclassify/promptbuilder.go:43-71 | the longest prefix of the other shown entries within both bounds: one entry more would exceed one of them |
| PromptBudget.LongestSuffixIsLongest | internal/llmreply/promptbuilder.go:50-64 | that suffix meets both budgets and no longer one does; a bound of zero or less does not bind |
| PromptBudget.LongestPrefixIsLongest | internal/llmclassify/promptbuilder.go:55-70 | the same for prefixes |
| PromptBudget.NothingHiddenIsOffered | internal/llmclassify/promptbuilder.go:43-54 | the target and hidden or archived entries never reach the model; every other shown entry is a candidate |
| PromptBudget.ContextStopsAtTarget | internal/llmreply/promptbuilder.go:38-48 | the reply context is a prefix of what the classifier sees, all of it when the target is absent |
| Scheduler.KeysTellWindowsApartExactly | internal/ingest/scheduler.go:173-180 | keys tell windows apart for all pairs of ticks if and only if the interval is at least one second |
| Scheduler.WindowIsItsStart | internal/ingest/scheduler.go:173-180 | the number in the key is the start of the interval, in whole seconds since the epoch |
| Scheduler.EpochIsUnix | internal/ingest/scheduler.go:173-180 | that epoch is the first day of 1970 |
| Scheduler.TicksApartAreNotSuppressed | internal/drive/gc.go:119-139 | ticks an interval apart never share a key |
| Scheduler.KeyTextInjective | internal/ingest/scheduler.go:188-189 | the key text determines source and window, whatever the source id contains |
| Scheduler.SourceScheduler.constructor | internal/ingest/scheduler.go:92-100 | a non-positive interval becomes fifteen minutes |
| Scheduler.SourceScheduler.ReloadInterval | internal/ingest/scheduler.go:130-138 | a positive new interval replaces the old one |
| Scheduler.SourceScheduler.EnqueueTick | internal/ingest/scheduler.go:140-206 | the tick's loop over the listed sources; a failed listing adds nothing |
| Scheduler.EnqueuedExactly | internal/ingest/scheduler.go:182-206 | a tick adds a job for exactly the listed, writable sources without one in this window |
| Scheduler.OneJobPerSourceAndWindow | internal/ingest/scheduler.go:173-206 | over every series of ticks and restarts at one interval of at least a second no source gets two jobs for a window, and one exactly when some tick in it wrote |
| Scheduler.LongerIntervalSuppressesATick | internal/ingest/scheduler.go:130-206 | for every pair of whole-second intervals of which the second is longer: the first tick after the change adds no job |
| Scheduler.NoTickSuppressedExactly | internal/ingest/scheduler.go:130-180 | between whole-second intervals no tick one old interval later repeats the earlier key if and only if the new interval is not longer |
| Scheduler.ShorterIntervalKeepsTicks | internal/ingest/scheduler.go:130-180 | with intervals that differ by at least a second, fractions included, the shorter one keeps the later tick's window later |

## Left out

- SQLite, the object stores, the IMAP library, the LLM and Open WebUI providers: their calls are environment answers that may fail; a commit that takes effect but reports an error is modelled for replies, classifications and drive objects.
- Failed queue writes are taken to have no effect; a renewal or outcome that takes effect but reports an error is not modelled.
- Hashing and generated ids: SHA-256 is taken as injective, `NewID` as fresh, so the unique key on a source's external id is implied by the dedupe key.
- The mail cursor's JSON encoding, UID wrap-around at 32 bits, and the body of a mail item (headers, MIME decoding, sanitising).
- RSS ingestion, source reconciliation and the failure categories of a fetch; a failed fetch is a poll that stops.
- Unicode whitespace and the scanner's line-length limit: text is trimmed of ASCII whitespace and lines are unbounded.
- Config key validation is a set of valid values, or a predicate on key and value; `config validate`, `list`, `get` and JSON export only read.
- The overlay's interleaved model writes one transaction per command; an import appears in it as one command per key (`ImportIsARun`).
- Folder operations are taken as atomic; in the source their reads and write are separate statements.
- A row insert of the drive that fails is taken to leave no row; image decoding is an input, and file listing is not modelled.
- Processing status updates of entries and the classification's provider, model and token columns: plain copies beside the modelled writes.
- One entry's classification versions and one branch's first turn are modelled at a time; their statements all select by that entry or link.
- Later turns of a ready link are one step with the provider's answer; lookups, resends, sources, titles and tombstones are not modelled. ChatCreation gives the retry paths no chat of their own because they never create one.
- The thread lock is part of ChatCreation only; turn eligibility is an environment answer.
- Shutdown draining, queue depth logging, HTTP handlers, pages, tokens, actors, reactions, notifications and lists: no property across steps.
- `BuildMessages`, system prompts and the high-risk word lists: field copying.
- Termination of a worker's poll loop and fairness between workers.
