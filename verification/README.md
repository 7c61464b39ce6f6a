# Verified model of the mail sync engine

This project models the synchronisation engine of `mail_sync_kit` in Dafny and
proves what the engine is for. `dafny verify dfyconfig.toml` checks all of it.

## What is modelled

* `Store`, `ReferenceStore`: the storage seam. `Store` holds the mail tables as a
  value and the operations on them; `ReferenceStore.MemStore` is the in-memory
  store of the test suite, updating the same tables in place.
* `Wire`: server responses and what the engine reads out of them.
* `FolderProtocol`: the folder sync as a step system. A server appends, expunges,
  re-flags and renumbers (a larger UIDVALIDITY) between any two client steps; the
  client has one phase for each point at which a pass can be cut off. Server rules
  are those of sections 2.3.1.1 and 6.3.1 of RFC 3501 and section 3.1.2.1 of
  RFC 7162.
* `FolderInvariant`, `FolderSafety`, `FolderRuns`: the inductive invariant, the
  safety of every run, and runs that show what that safety needs.
* `SyncPass`, `PassTheorems`, `FlagTheorems`, `StoredFlags`, `PassEvents`: the engine's
  own code for one folder pass (`SyncPass.SyncService`, a class working on a `MemStore`),
  a function that says what a pass does, the proof that a pass is a path of the step
  system, which flag changes it announces or loses, which stored flags it rewrites, and
  what it asks for, announces and writes, told by the calls' outcomes alone.
* `Hierarchy`: LIST, the folder rows it writes and the folders of a sweep; a whole
  cycle from a lost connection to rest. The rule that gives folders their roles is a
  parameter; the IMAP service's is `Roles.ImapRule`.
* `Session`: tags, command execution and IDLE over arbitrary streams of events.
* `RunLoop`: the outer loop with its connection states and reconnect backoff. The
  script field `polls` selects the polling loop; with it set the loop is also that
  of the JMAP service, which never idles.
* `Service`: that loop with the folder passes in place of their scripted outcomes,
  so that each emitted connection state has the world it is emitted in.
* `Outbox`: sends, retries and backoff over any sequence of flushes, with rows
  queued between any two sends.
* `Jmap`: ingestion of JMAP responses and the state-token cursor, with the process
  dying between any two of its effects.
* `BlobHash`, `Roles`, `Decimal`: the hex codec, the name sanitizer and the two
  role classifiers, and decimal printing.

A method that works in place is proved against a function of the old state; the
lemmas are about those functions and about runs of them. What such a function
computes is then told without it, by places in its input: `Wrappers.Picks` says that
a result holds all that a reader finds, in order, and `Wrappers.IsLast` that it is
the last thing found. I/O, clocks and failures
are parameters: `PassInput` holds everything a folder pass learns from outside,
`Send` the times and outcome of one delivery, a sequence of `Signal`s everything a
command or IDLE sees.

Where the store's contract is unclear the model carries both readings.
`update_sync_cursors(id, 0, ..)` is how the engine moves the modseq alone, while
the in-memory store writes the 0 (tests/common/mod.rs:261). The flag `literalZero`
selects the reading. The errors of `purge_folder` and `update_sync_cursors`, which
the engine drops, are outcomes too: `purgeMayFail` and `cursorsMayFail` say whether
the store can produce them. A SELECT may leave out UIDVALIDITY or HIGHESTMODSEQ,
which the engine has branches for; `sendsUidValidity` and `sendsModseq` say whether the
server can do that. `FolderRuns` shows that epoch purity, the absence of gaps and
convergence at rest each hold in every reachable state exactly when the 0 is not
written literally or the server lacks CONDSTORE, UIDVALIDITY is always reported, and
neither call can fail; and that cursors never fall exactly when HIGHESTMODSEQ is
always reported.

### Where code and documentation disagree

The model follows the code.

* src/session.rs:618-619 says that DONE is sent whether or not data arrives. An IDLE
  that returns has asked for DONE exactly when a status ended it and a timeout or
  pushed data had come up after acceptance (`Session.DoneRequestedExactlyWhen`, with
  the streams of `Session.SkippedStreams`).
* src/sync.rs:471-472 says that the next full delta pass catches up on flags. The delta
  fetch starts above the largest stored UID, so with that read and no purge a pass
  rewrites no stored flags. It takes over the flags of a stored message exactly when
  the largest UID cannot be read and the message is listed again, or the folder was
  purged and fetched anew (`StoredFlags.StoredFlagsExactlyWhen`,
  `StoredFlags.PurgeRefetches`, with `StoredFlags.UnreadMaximumCatchesUp` as an input).
* A flag change can go unannounced. The cursor moves before the envelopes and flags are
  fetched (src/sync.rs:337-352), and the engine asks for changes strictly above
  cursor + 1 (section 3.1.4.1 of RFC 7162). `FlagTheorems.ChangeAnnouncedExactlyWhen`
  says exactly which changes a pass announces; a change up to the reported
  HIGHESTMODSEQ that it does not announce, be it the one at cursor + 1 or any of them
  when a fetch fails, is never announced in that epoch (`FlagTheorems.LostForGood`,
  with `FlagTheorems.TimeoutLosesChange` as the input).
* `MailFailed { permanent: true }` does not take a row out of the outbox: a
  rejected row is due again at once and an exhausted one after its backoff
  (`Outbox.DueAgainExactlyWhen`).
* `recipients.dedup()` drops only repeats that stand next to each other
  (`Outbox.RecipientsExactly`).
* `MailArrived.new` of the JMAP service is the number of emails listed, which is
  the number added exactly when all of them are new and no two share a made-up UID
  (`Jmap.AnnouncedExactlyWhenFresh`). If the process dies between ingestion and the
  event, the arrival is never announced, since a replay inserts nothing
  (`Jmap.ReplayCompletes`).

## Model

| member | source | states |
|---|---|---|
| `FolderSafety.RunsAreSafe` | src/sync.rs:299-369 | in every state of every run, with server steps between any two client steps and passes cut off anywhere: no mixing of UID epochs, no gap below the largest stored UID, and at rest convergence and the SELECT's cursors |
| `FolderRuns.EpochPurityExactlyWhen` | src/sync.rs:317-352 | every reachable state is epoch-pure if and only if a UIDVALIDITY of 0 is not written literally or the server lacks CONDSTORE, UIDVALIDITY is always reported, and neither a purge nor a cursor write can fail |
| `FolderRuns.NoGapsExactlyWhen` | src/sync.rs:354-360 | the same condition decides whether every reachable state is without gaps |
| `FolderRuns.ConvergenceExactlyWhen` | src/sync.rs:175-232 | and whether every rest is a convergence |
| `FolderRuns.LiteralZeroMixesEpochs` | tests/common/mod.rs:249-266 | a run (fetch, flag change, reset of UIDVALIDITY) in which the literal 0 disarms the epoch guard: at rest the old epoch's message hides the new one |
| `FolderRuns.FailedPurgeMixesEpochs` | src/sync.rs:329-333 | a run to the same state after a failed purge |
| `FolderRuns.FailedCursorMixesEpochs` | src/sync.rs:347-352 | a run to the same state after a failed cursor write |
| `FolderRuns.SilentSelectMixesEpochs` | src/sync.rs:347-352 | a run to the same state after an OK SELECT without UIDVALIDITY |
| `FolderSafety.CursorsNeverFall` | src/sync.rs:337-352 | over any run, when the server always reports HIGHESTMODSEQ, no folder returns to an earlier epoch and no modseq falls within one |
| `FolderSafety.CursorFallsExactlyWhen` | src/sync.rs:348-351 | a step lowers a cursor if and only if it writes the 0 of a HIGHESTMODSEQ left out over the cursor of the same epoch |
| `FolderRuns.CursorsRiseExactlyWhen` | src/sync.rs:348-351 | no step of any run lowers a cursor if and only if HIGHESTMODSEQ is always reported |
| `FolderSafety.RunKeepsInv` | src/sync.rs:299-369 | the inductive invariant holds in every state of every run |
| `FolderInvariant.ServerStepKeepsInv` | src/sync.rs:299-369 | no server step, including a reset between sessions, breaks the invariant at any client phase |
| `FolderInvariant.ClientStepKeepsInv` | src/sync.rs:299-369 | no client step, including being cut off, breaks it |
| `FolderInvariant.FetchFillsGaps` | src/sync.rs:371-390 | the answer to `start:uid_next-1` holds every live UID of that range that is not stored |
| `FolderInvariant.SelectInfoOk` | src/sync.rs:680-704 | what the engine reads out of a conforming SELECT answer is the mailbox's UIDVALIDITY, UIDNEXT and HIGHESTMODSEQ, or 0 for one left out |
| `SyncPass.SyncService.SyncFolder` | src/sync.rs:299-369 | one pass in place: mail tables, events and result are those of `Pass`, for every outcome of every command and store call; stores stay well-formed and blobs are only added |
| `SyncPass.SyncService.ReconcileFolder` | src/sync.rs:317-352 | purge, both cursor writes and the event on a changed UIDVALIDITY, a cursor write otherwise; any of the three may fail and is then passed over |
| `SyncPass.SyncService.DeltaPass` | src/sync.rs:354-360 | fetches beyond the stored maximum, or from 1 when it cannot be read |
| `SyncPass.SyncService.FetchAndIngest` | src/sync.rs:371-391 | nothing for an empty range, an error when the fetch fails, else ingestion |
| `SyncPass.SyncService.IngestFetchData` | src/sync.rs:394-471 | one batch of the responses with UID and envelope, in order; one event when something was inserted; nothing changes when ingestion fails; what each row holds is said by `Wire.RowReadsItems` |
| `SyncPass.SyncService.ReadItems` | src/sync.rs:401-440 | the last item of each kind in a FETCH response decides (`Wire.LastItemsCount`), and of its flags exactly the known ones are kept (`Wire.KnownFlagsExactly`) |
| `SyncPass.SyncService.SelectInfoFrom` | src/sync.rs:680-704 | the last code of each kind and the last EXISTS decide (`Wire.InfoReads`) |
| `SyncPass.ArrivalCounts` | src/sync.rs:442-467 | an arrival names account and folder, how many messages were listed, and the folder's messages and unread messages, both 0 for a Sent folder or when they cannot be read |
| `SyncPass.IdsExactly` | src/sync.rs:503-513 | the ids announced as changed are those of the stored, readable messages reported, in the order reported |
| `SyncPass.PrefetchIsNewest` | src/sync.rs:563-584 | the bodies fetched ahead are those of the newest messages, as many as the limit allows |
| `SyncPass.SyncService.MessageByUid` | src/sync.rs:531-559 | paging through the listing, with pages of any size but 0, finds the stored message with the UID if and only if there is one |
| `SyncPass.ListingFindsStored` | tests/common/mod.rs:204-240 | the first row of a listing with a UID is the stored message with that UID |
| `SyncPass.PageSearch` | tests/common/mod.rs:220-225 | for any window size but 0, a skip/take page shows the first match at its place, or no match, and an empty page is the end |
| `SyncPass.SyncService.FlagPass` | src/sync.rs:473-529 | announces the stored messages among those reported and moves the modseq when it rose |
| `SyncPass.SyncService.PrefetchRecent` | src/sync.rs:563-620 | the mail tables end exactly as they were, no row is inserted, no blob is lost, and the listed bodies that arrived are stored |
| `SyncPass.OwnBodyIsNoChange` | src/sync.rs:598-615 | re-ingesting a message under its own date and flags is no change |
| `SyncPass.PassKeepsWellFormed` | src/sync.rs:299-369 | a pass keeps message keys, message ids and folder ids unique |
| `PassTheorems.PassReaches` | src/sync.rs:299-369 | the engine's pass against a conforming, changing server is a path of the step system that ends in the store the pass leaves and the server's last state |
| `PassTheorems.PassIsSafe` | src/sync.rs:299-369 | so that world is epoch-pure and without gaps, whatever failed |
| `PassTheorems.SweepConverges` | src/sync.rs:175-232 | after a sweep that goes through, every folder whose SELECT was OK stores all that is live below its UIDNEXT and carries its cursors |
| `PassTheorems.InsertsAllExactlyWhenFresh` | tests/common/mod.rs:173-202 | a batch is inserted whole if and only if its keys are new and pairwise different |
| `PassTheorems.PassReplays` | src/sync.rs:442-467 | the events of a pass turn each folder's old count into its new one |
| `PassTheorems.RunReplays` | src/sync.rs:442-467 | over a run of passes the announced arrivals since the last purge add up to the stored messages |
| `PassTheorems.CountBound` | src/sync.rs:442-442 | a folder never holds more than 2^32 - 1 messages, so the announced number never saturates |
| `PassEvents.DeltaRangeExactly` | src/sync.rs:354-378 | an envelope fetch is made if and only if the mailbox is not empty and some UID is above every stored one (when that could be read) and below UIDNEXT, and it asks for exactly those UIDs |
| `PassEvents.PassOkExactlyWhen` | src/sync.rs:299-369 | a pass ends well if and only if SELECT came back, if only refused, and an envelope fetch it made was answered OK and its messages, if any, were ingested |
| `PassEvents.PassAnnounces` | src/sync.rs:317-368 | the whole event trace of a pass for any outcome of its calls: the epoch change with the number removed, an arrival if and only if the folder gained a message, with its counts, and the changed flags |
| `PassEvents.PassRow` | src/sync.rs:317-352 | both cursors of the folder's row after a pass, for any outcome of its calls, the flag pass's write (src/sync.rs:518-523) included |
| `FlagTheorems.FlagsChangedExactly` | src/sync.rs:492-518 | an answered flag fetch names exactly the folder's stored, readable messages that are live with a modseq above the listed cursor plus one |
| `FlagTheorems.ChangeAnnouncedExactlyWhen` | src/sync.rs:299-369 | for every outcome of every call of a pass: a change is announced if and only if the server has CONDSTORE, the listed cursor is above 0, SELECT and the envelopes came through, the flag fetch was answered, the message could be looked up, and the modseq is above the cursor plus one |
| `FlagTheorems.PassSetsCursor` | src/sync.rs:337-352 | whichever branch runs and whatever fails after it, an answered SELECT leaves the stored modseq at its HIGHESTMODSEQ |
| `FlagTheorems.LostForGood` | src/sync.rs:473-529 | a change up to the HIGHESTMODSEQ of one pass is announced by no later pass of the epoch, over any run in between |
| `FlagTheorems.TimeoutLosesChange` | src/sync.rs:501-502 | a reachable state and a conforming pass, ended well but with the flag fetch unanswered, that announces nothing and moves the cursor past a change |
| `FlagTheorems.LostChangeStaysLost` | src/sync.rs:473-529 | in that run no answer to the next sweep's pass announces the change |
| `StoredFlags.PassLookup` | src/sync.rs:299-369 | what any pass does to any stored message: a purge removes the folder's, the messages taken in set flags and date, every other stays as it is, and ids are kept |
| `StoredFlags.StoredAsListed` | src/sync.rs:394-440 | after a whole pass a message taken in has a flag if and only if it is a known flag of the last flag list of the last response that lists the message, and its last date or else the time it was looked at |
| `StoredFlags.NewIsListed` | src/sync.rs:394-440 | a message is new after a pass only if some response with UID and envelope lists it |
| `StoredFlags.StoredFlagsExactlyWhen` | src/sync.rs:354-360 | with the folder not purged, a stored message takes over the flags and date last listed if and only if the largest UID could not be read and the listing was taken in; otherwise it is unchanged |
| `StoredFlags.PurgeRefetches` | src/sync.rs:317-360 | after a purge exactly the messages listed are stored, with the flags listed |
| `StoredFlags.UnreadMaximumCatchesUp` | src/sync.rs:355-356 | a reachable state and a conforming pass that stores a message's new flags |
| `Hierarchy.HierarchySync.SyncHierarchy` | src/sync.rs:237-283 | writes a row for each LIST response (`Hierarchy.ListedRowIsCurrent`) and gives the rows of `Hierarchy.RowsExactly`; a failed LIST writes nothing |
| `Hierarchy.HierarchySync.ListStoredFolders` | src/sync.rs:285-296 | every stored row of the account that can be read, as `Hierarchy.RowsExactly` says, and none when the listing fails |
| `Hierarchy.ListKeepsCursors` | src/sync.rs:264-277 | no cursor, name or message of a known folder changes, though every write passes 0 for both cursors |
| `Hierarchy.ListedHasRow` | src/sync.rs:248-281 | each reported folder has a row when its write succeeds, and no row is lost |
| `Hierarchy.RowsAreListing` | src/sync.rs:285-296 | a sweep visits stored rows of the account, none twice |
| `Hierarchy.RowsExactly` | src/sync.rs:285-296 | a sweep visits a stored row if and only if it is of the account and can be read, in stored order |
| `Hierarchy.ListedRowIsCurrent` | src/sync.rs:248-279 | after LIST the row of a reported folder has the attributes, the delimiter (or "/") and the role of the last response that names it and whose write succeeds; INBOX goes by that name |
| `Hierarchy.CycleConverges` | src/sync.rs:160-232 | from a lost connection in any reachable state, a cycle whose sweep goes through ends converged, pure and without gaps |
| `Hierarchy.SweepSees` | src/sync.rs:175-182 | each folder of a completed sweep whose SELECT was OK is among those convergence speaks of, with the answer to that SELECT |
| `Hierarchy.CycleCovers` | src/sync.rs:160-232 | no folder is left out: after such a cycle every stored, readable row of the account was visited, and where its SELECT was OK all live UIDs below the UIDNEXT reported are stored and the cursors are those reported |
| `Session.ImapSession.NextTag` | src/session.rs:341-345 | a tag never issued before on this connection |
| `Session.ImapSession.Upgrade` | src/session.rs:294-311 | the upgraded session goes on counting, so tags stay different across STARTTLS |
| `Session.TagInjective` | src/session.rs:343-343 | different counter values give different tags |
| `Session.ImapSession.Execute` | src/session.rs:398-451 | the result over any stream is that of `ResultOf`, which `Session.ResultExactlyWhen` tells by the signals; capabilities grow by those of the data received |
| `Session.Attribution` | src/session.rs:398-451 | the status returned bears the command's tag or rejects its handle, and data and other statuses are those received meanwhile, in order |
| `Session.ResultExactlyWhen` | src/session.rs:409-451 | for every stream: done with status s if and only if the first signal that decides brings s under the own tag or as a rejection of the own handle; failed if and only if it is a timeout, a broken connection or a continuation request, each in its own way; waiting if and only if there is none |
| `Session.ReceivedExactly` | src/session.rs:425-443 | data and statuses collected are those of the signals that bring them, all of them and in order |
| `Session.ConversationConserves` | src/session.rs:409-451 | over a sequence of commands that all complete, the data handed on is the data received, once and in order |
| `Session.LateStatusNeverCompletes` | src/session.rs:432-443 | a late tagged status of an earlier command never completes a later one, also after timeouts |
| `Session.ImapSession.Idle` | src/session.rs:623-693 | ends at the first ending signal, returns everything pushed in order, and requests DONE at most once, exactly at the signals that call for it |
| `Session.IdleEndsExactly` | src/session.rs:637-690 | what ends an IDLE and what makes it return data, told of the signals alone |
| `Session.PushedExactly` | src/session.rs:666-671 | the data returned are the reports of the data received, in order, none left out |
| `Session.DoneRequestedOnce` | src/session.rs:647-686 | DONE is requested at most once and only after acceptance |
| `Session.DoneRequestedExactlyWhen` | src/session.rs:623-693 | an IDLE that returns has requested DONE if and only if a status ended it and, after acceptance and before the client reported DONE as sent, a timeout came or data with something reported by then |
| `Session.DoneMayBeSkipped` | src/session.rs:637-645 | no DONE is requested when a timeout ends it before acceptance, nor when nothing calls for it between acceptance and the status |
| `Session.SkippedStreams` | src/session.rs:637-687 | a timeout before acceptance, and a status right after it, return with DONE never requested |
| `RunLoop.RunTrace` | src/sync.rs:124-234 | every trace of connection states is legal from the start, with one wait for each disconnection, and a run returns only when cancelled; the closed form of the waits is part of the specification, and `RunLoop.SyncRunner.Run` proves the loop against it |
| `RunLoop.CycleTrace` | src/sync.rs:160-234 | a cycle enters Connecting once, never emits Disconnected, and ends well only when cancelled |
| `RunLoop.SweepEndsExactly` | src/sync.rs:175-182 | a sweep goes through if and only if no cancellation and no failure comes up; else the first of them decides how it ends |
| `RunLoop.DwellExactly` | src/sync.rs:184-233 | Syncing is emitted once for each round that begins a sweep, which while idling are those whose IDLE brought something and while polling all; Idle once for each of those that goes through while idling; the dwell goes on, fails or is cancelled exactly as its first disturbed round says |
| `RunLoop.CycleExactly` | src/sync.rs:160-234 | the same for a whole cycle, from connecting on |
| `RunLoop.RunExactly` | src/sync.rs:124-146 | a run goes from a failed cycle to the next until a cancellation; each attempt connects once and each failed one waits |
| `RunLoop.BackoffRises` | src/sync.rs:125-143 | waits never fall, start at 250 ms and stay at 300 s from the twelfth on |
| `RunLoop.SyncRunner.Run` | src/sync.rs:124-146 | the loop that doubles and resets a variable makes exactly the waits of the closed form, emits the states of `RunOf`, and the stored account state is the last one emitted |
| `RunLoop.SyncRunner.RunOneCycle` | src/sync.rs:160-234 | one cycle in place; how it ends and when it sweeps is told by `RunLoop.CycleExactly` |
| `RunLoop.SyncRunner.DwellLoop` | src/jmap_sync.rs:140-156 | the poll or IDLE loop in place; with `polls` it is the loop of both services, and `RunLoop.DwellExactly` tells which rounds sweep |
| `RunLoop.SyncRunner.EmitState` | src/sync.rs:148-157 | the state is stored and then emitted |
| `Service.IdleMeansConverged` | src/sync.rs:124-234 | over the whole life of the service, each time Idle is emitted every folder of the last sweep whose SELECT was OK stores all that is live below its UIDNEXT and carries its cursors, without mixed epochs or gaps |
| `Service.WokenRoundSweeps` | src/sync.rs:213-231 | after any rounds, a round that wakes ends in the world of a sweep over the rows then stored, at rest, with Syncing emitted before and Idle after it |
| `Service.EmptyRoundRests` | src/sync.rs:213-217 | a round whose IDLE brought nothing emits nothing and changes nothing |
| `Service.WokenRoundCovers` | src/sync.rs:213-231 | after a round that wakes every stored, readable row was visited, and where its SELECT was OK the store has caught up with it |
| `Service.PushStartsSweep` | src/sync.rs:208-213 | an IDLE that returns starts a sweep if and only if data with something reported came in during it |
| `Service.CycleSettles` | src/sync.rs:160-206 | a cycle that settles has swept all listed folders before its first rest, with the four states emitted in their worlds |
| `Service.LifeResumes` | src/sync.rs:124-146 | each connection starts with the store and server as the last one left them |
| `Service.LifeIsScripted` | src/sync.rs:124-234 | the states emitted are those of the scripts of `RunLoop` whose outcomes are the passes' own |
| `Service.LifeIsLegal` | src/sync.rs:124-234 | so they form a legal trace |
| `Outbox.RowStory` | src/outbox_service.rs:96-156 | over any legal steps, rows queued in between included, for each row: attempts are consecutive, exhaustion is announced exactly from 12 on, `MailSent` is last and at most once, and the row is gone exactly when sent |
| `Outbox.EverySendIsAnswered` | src/outbox_service.rs:96-156 | in any run the events about a row other than exhaustion are one for each of its sends, in order: sent and gone; rejected with the detail; or a retry with the detail, the number now stored and the time from the end of the send until the row is due |
| `Outbox.RejectionsExactly` | src/outbox_service.rs:141-152 | the rejections in a row's story are, in order, its permanently refused sends, each with its detail |
| `Outbox.FlushesAreLegal` | src/outbox_service.rs:70-156 | any sequence of flushes on a monotone clock, each whole or cut off anywhere, with fresh rows queued between any two sends, is a legal sequence of steps |
| `Outbox.FlushIsActions` | src/outbox_service.rs:96-156 | a flush is one listing and a send for each row listed |
| `Outbox.RetrySpacing` | src/outbox_service.rs:113-129 | after a transient failure the row's next send starts at least its backoff later |
| `Outbox.ExhaustionTakesLong` | src/outbox_service.rs:113-138 | a fresh row is given up on no sooner than 139,964,400 ms after its first failure |
| `Outbox.BackoffBounds` | src/outbox_service.rs:233-246 | 0.80 to 1.16 times the base, with period 60, truncation in double precision included |
| `Outbox.BackoffExactly` | src/outbox_service.rs:233-246 | the wait is the scaled base to the millisecond, but for one less where the count is 29 modulo 60 |
| `Outbox.DueAgainExactlyWhen` | src/outbox_service.rs:130-153 | a row is due again after a turn exactly as its outcome says; only a success ends it |
| `Outbox.OutboxService.FlushOnce` | src/outbox_service.rs:96-156 | a flush in place applies the turns of the rows that were due, in order; what each is answered with is told by `Outbox.EverySendIsAnswered` |
| `Outbox.OutboxStore.MarkRetry` | tests/common/mod.rs:283-300 | the first row with the id gets counter, due time and error |
| `Outbox.OutboxStore.MarkSent` | tests/common/mod.rs:302-310 | exactly the entries with another id remain, in order; the loop is proved against the recursive filter |
| `Outbox.RowsKeepOrder` | tests/common/mod.rs:302-310 | the rows that stay, and the rows listed as due, keep the stored order |
| `Outbox.RecipientsExactly` | src/outbox_service.rs:164-172 | exactly the addressees, each once if and only if repeats stand together |
| `Outbox.DedupKeepsOrder` | src/outbox_service.rs:164-172 | the addresses given are the first of each row of equal ones, in order |
| `Jmap.CursorFollowsBatch` | src/jmap_sync.rs:215-284 | on every path out of ingestion, deaths between its two writes included: nothing changed, or all emails are stored and no other message appeared or went; the cursor moved only of this folder and only in an answer that ran through |
| `Jmap.CursorNeverAhead` | src/jmap_sync.rs:198-284 | over any run, cut off anywhere, a cursor is what it was or the state of a response all of whose emails are stored |
| `Jmap.ReplayChangesNothing` | src/jmap_sync.rs:215-284 | a response answered again announces nothing and moves no row, changes no message when its emails have dates, and moves no cursor but the one the first answer was cut off before |
| `Jmap.ReplayCompletes` | src/jmap_sync.rs:246-280 | a replay that runs through after a cut-off ends with the rows and cursors of an answer never cut off; the arrival is lost if and only if the process died before announcing it |
| `Jmap.AnnouncedExactlyWhenFresh` | src/jmap_sync.rs:246-270 | the announced number is that of the emails listed, and equals the number added if and only if all are new and no two share a UID |
| `Jmap.ArrivalExactlyWhen` | src/jmap_sync.rs:246-270 | an arrival is announced if and only if the response was taken in with an email not stored, and the process did not die before |
| `Jmap.ArrivalSays` | src/jmap_sync.rs:246-270 | it tells how many emails were listed, and the folder's messages and unread messages then |
| `Jmap.CursorMovesExactlyWhen` | src/jmap_sync.rs:272-284 | a cursor comes to read n if and only if there were emails, all calls succeeded, nothing was cut off, and the state token spells n |
| `Jmap.EndsExactly` | src/jmap_sync.rs:215-284 | ingestion ends well if and only if the emails could be read and, if there were any, were taken in |
| `Jmap.FlagsFollowEmails` | src/jmap_sync.rs:226-250 | once a response is taken in, a message has exactly the flags whose keywords the last email listed for its UID has, and that email's date; one not listed is unchanged |
| `Jmap.UidOf` | src/jmap_sync.rs:378-386 | a made-up UID lies in 1 to 2^32 - 1 |
| `Jmap.CollideExactlyWhen` | src/jmap_sync.rs:376-386 | two ids share a UID if and only if their hashes differ by a multiple of 2^32 - 1 |
| `Jmap.FlagsAreKeywords` | src/jmap_sync.rs:395-410 | a message is seen, answered, flagged or a draft if and only if the email has that keyword, and has no other flag |
| `Jmap.SinceStateReadsBack` | src/jmap_sync.rs:199-205 | a state token is sent exactly when there is a cursor, and parses back to it |
| `Jmap.JmapSyncService.IngestEmailResponse` | src/jmap_sync.rs:215-284 | ingestion in place, up to the point where it is cut off: tables, events and result |
| `Jmap.JmapSyncService.SyncFolder` | src/jmap_sync.rs:198-212 | one folder pass: the token sent, and the step taken or left out |
| `Jmap.JmapSyncService.ParseEmailGet` | src/jmap_sync.rs:431-487 | the list of the first Email/get; an error for a malformed item before it |
| `Jmap.EmailsExactly` | src/jmap_sync.rs:431-487 | the first item that is malformed or an Email/get decides |
| `Store.IngestLookup` | tests/common/mod.rs:173-202 | a batch sets exactly its own keys, each to its last message, and known rows keep their ids |
| `Store.IngestCount` | tests/common/mod.rs:199-201 | a folder's count grows by what the statistics report as inserted |
| `Store.InsertsSomeExactlyWhen` | tests/common/mod.rs:173-202 | something is inserted if and only if some key of the batch was not stored |
| `Store.PurgeLookup` | tests/common/mod.rs:242-247 | purging removes every message of one folder and no other |
| `Store.CursorRow` | tests/common/mod.rs:249-266 | a cursor write changes one row, and there only the cursors given |
| `Store.UpsertRow` | tests/common/mod.rs:96-123 | a known folder keeps both cursors, a new one starts with those given |
| `Store.UpsertWrites` | tests/common/mod.rs:96-123 | the first row with the name gets the attributes, role and delimiter given, or a new row is added with them; no other row is touched |
| `Store.MaxUidIsMaximum` | tests/common/mod.rs:268-276 | the maximum is stored, nothing is above it, and it is absent only for an empty folder |
| `Store.ListingIsSorted` | tests/common/mod.rs:204-219 | a listing is a sorted permutation of the folder's messages |
| `Store.ListingByField` | tests/common/mod.rs:213-219 | rising or falling by UID or by date, as asked for |
| `Store.SortIsStable` | tests/common/mod.rs:213-216 | rows with the same key are sorted in the order they are stored in |
| `Store.WindowOfListing` | tests/common/mod.rs:219-226 | size, members, order and place in the listing of any window |
| `Store.UpdatesKeepWellFormed` | tests/common/mod.rs:96-266 | every operation keeps keys and ids unique |
| `ReferenceStore.MemStore.UpsertFolder` | tests/common/mod.rs:96-123 | in place, with the id of the row written |
| `ReferenceStore.SummariesExactly` | tests/common/mod.rs:125-162 | the listing describes the account's rows, each once and in stored order, with the number of its messages and of those not seen, both 0 for a Sent folder |
| `ReferenceStore.MemStore.IngestBatch` | tests/common/mod.rs:173-202 | the loop over the batch in place, and its statistics |
| `ReferenceStore.MemStore.ListMessages` | tests/common/mod.rs:204-240 | a window holds as many messages as fit, of the folder only, in the order asked for; the total counts them all |
| `ReferenceStore.MemStore.PurgeFolder` | tests/common/mod.rs:242-247 | in place; gives the number of messages removed |
| `ReferenceStore.MemStore.UpdateSyncCursors` | tests/common/mod.rs:249-266 | in place, under either reading of 0; fails for an unknown folder |
| `ReferenceStore.MemStore.WriteBlob` | tests/common/mod.rs:321-328 | the hash is known afterwards and no known blob changes |
| `ReferenceStore.MemStore.SetAccountState` | tests/common/mod.rs:330-344 | one account's state is set, no other changes |
| `Wire.BatchIsSubsequence` | src/sync.rs:394-440 | the batch is the responses with UID and envelope, in order, and none else |
| `Wire.KnownFlagsExactly` | src/sync.rs:642-655 | the flags kept are the known ones of the list, in order and none left out |
| `Wire.LastItemsCount` | src/sync.rs:401-440 | of each kind of item in a FETCH response the last one is read |
| `Wire.RowReadsItems` | src/sync.rs:401-440 | every field of the row made of a response, told by its items |
| `Wire.IngestableExactlyWhen` | src/sync.rs:401-440 | a response makes a row if and only if it is a FETCH with a UID and an envelope |
| `Wire.InfoReads` | src/sync.rs:680-718 | of each kind of code the last one is read, the tagged status coming last, and of EXISTS the last one |
| `Wire.ReportedExactly` | src/session.rs:109-151 | which data is reported and as what; nothing is reported if and only if it is a FETCH without a UID or without flags |
| `Wire.FlagUidsExactly` | src/sync.rs:504-513 | the UIDs looked up after a flag fetch are those of the responses with UID and flags, in order |
| `Wire.CodesAreSent` | src/sync.rs:680-718 | each value read was sent, and is 0 only when none of its kind was |
| `BlobHash.ParseExactlyHex` | src/model.rs:77-81 | exactly the 64-digit hex strings are accepted, and yield their lower-case form |
| `BlobHash.ParseInvertsFromDigest` | src/model.rs:71-81 | parsing inverts `from_digest`, which is injective |
| `BlobHash.ParseForgetsCase` | src/model.rs:77-81 | only the case of the digits is lost, and parsing is idempotent |
| `BlobHash.DecodeEncode` | src/model.rs:95-121 | decoding inverts encoding for any bytes |
| `BlobHash.EncodeDecode` | src/model.rs:95-121 | encoding what was decoded gives the lower-case form |
| `BlobHash.EncodedAt` | src/model.rs:95-103 | each byte becomes two lower-case digits, its upper half first |
| `BlobHash.DecodedAt` | src/model.rs:105-121 | each byte read is sixteen times the value of its first digit plus that of its second |
| `BlobHash.DecodesExactlyHex` | src/model.rs:105-121 | an even number of hex digits, and nothing else, is decoded |
| `BlobHash.Encode` | src/model.rs:95-103 | the loop pushes the two digits of each byte |
| `Roles.SanitizeIsSafe` | src/sanitize.rs:8-20 | no control character but tab and line ends remains, and a text is unchanged if and only if it had none |
| `Roles.SanitizeIdempotent` | src/sanitize.rs:8-20 | sanitizing twice changes nothing more |
| `Roles.SanitizeExactly` | src/sanitize.rs:8-20 | character by character: escapes go, other control characters but tab and line ends turn into spaces, everything else stays, in order |
| `Roles.SanitizeTerminalText` | src/sanitize.rs:8-20 | the loop computes the character-wise sanitizer |
| `Roles.NamesAgree` | src/jmap_sync.rs:511-529 | for every name, `role_from` without attributes and `role_from_jmap` give the same role |
| `Roles.RolesAgreeExactlyWhen` | src/sync.rs:657-678 | with attributes they agree if and only if no attribute names a role that the IMAP chain asks for earlier |
| `Roles.EarlierChoice` | src/sync.rs:657-678 | the IMAP chain takes the earliest role that the attributes or the name offer |
| `Roles.JmapRoleExactly` | src/jmap_sync.rs:511-529 | a role is given if and only if the last part of the name is one of the names that stand for it |
| `Roles.ImapRoleExactly` | src/sync.rs:657-678 | a role is given if and only if an attribute or the name stands for it and none stands for an earlier one |
| `Roles.LastPartExactly` | src/sync.rs:662-662 | the last part is all that follows the last slash or dot |
| `Decimal.ParsePrint` | src/jmap_sync.rs:275-275 | a printed 64-bit number parses back to itself |
| `Decimal.PrintInjective` | src/session.rs:343-343 | different numbers print differently |
| `Decimal.ParseExactly` | src/jmap_sync.rs:275-275 | a text is read as n if and only if it spells n in digits, a plus sign and leading zeros being allowed |

## Left out

- TCP, TLS, the STARTTLS handshake, the greeting, SASL and credentials: libraries and host callbacks; a session is a stream of events.
- Wire parsing, SMTP error mapping, HTTP calls and date parsing: the model starts from parsed responses; VANISHED arrives expanded, and the text of data without a case of its own is a fixed word.
- JMAP's folder listing (src/jmap_sync.rs:160-196): the same upserts and row reads as `Hierarchy`, with the other role classifier for a rule.
- Envelope and header reconstruction, parsed message models and mailbox-name validation: formatting with no inverse here.
- RunLoop.SyncRunner.Run: works on scripted outcomes; that the scripts are those of real passes is `Service.LifeIsScripted`, a statement about functions and not about one class.
- FolderSafety.RunsAreSafe: assumes one writer per folder, an EXISTS in every OK SELECT, no reset while the mailbox is selected, and a configuration that keeps epochs in the sense of `FolderRuns.EpochPurityExactlyWhen`; every other call may fail anywhere. Convergence speaks of the UIDs below the UIDNEXT reported, so it says nothing when none was.
- FlagTheorems.LostForGood: assumes that the server always reports HIGHESTMODSEQ, and answers a flag fetch for the mailbox as it then is.
- FolderRuns.EpochPurityExactlyWhen: epoch purity is stated as identity of the stored message with the one the server filed under (UIDVALIDITY, UID), recognised by its date.
- Outbox.RowStory: outbox rows are filtered by due time, which the in-memory store does not do (tests/common/mod.rs:278); store writes succeed.
- Session.ConversationConserves: after a timeout late data lands in the next command's data; conservation is stated for commands that complete.
- Overflow of the 64-bit tag counter, the 32-bit retry counter and the page offset: unbounded here.
- StoredFlags.StoredFlagsExactlyWhen: flags are rewritten only as it says and rows removed only by a purge, so neither convergence of stored flags nor removal of expunged messages is claimed.
- BlobHash.ParseExactlyHex: the digest is any function; no claim on collisions or on reading a blob back by content.
- Roles.NamesAgree: case folding and white space are parameters; the only assumption is that folding the empty text gives the empty text.
- Jmap.UidOf: the 64-bit hash is any function; emails whose UIDs collide fold into one row, which is what `Store.IngestLookup` says of equal keys.
- The outbox's ticker and its offline gate (src/outbox_service.rs:70-91): when flushes are made; any sequence of them is covered.
- RunLoop.SyncRunner.DwellLoop: whether a service polls or idles (src/sync.rs:83-90), and the lengths of both waits, are the host's configuration; either branch is covered.
- Filing a sent message in the Sent folder: best effort, its outcome is ignored.
- Event delivery is an append-only trace; back-pressure and a closed bus appear only where the code stops for it.
