# GoSpots: models and proofs

A Dafny model of the parts of GoSpots whose correctness depends on an argument that
spans several functions, several tables or several processes, with proofs of what those
parts promise. `dafny verify dfyconfig.toml` checks everything.

## What is modelled

**The Edge Hub** (`apps/edge/src`). A venue's local hub keeps working without the cloud.

- `CanonicalJson` is the printer behind every duplicate check, at the level of characters,
  with a reader for its output. Two values print alike exactly when they are equal up to
  member order at every depth (RFC 8259 sections 3 to 7; names sorted by UTF-16 code units
  as in section 3.2.3 of RFC 8785).
- `EdgeStore` is the append-only event log and the table of aggregates. In every reachable
  state the table is the fold of the log. `AppendRules` says which appends are accepted.
- `EventReplay` pushes that log to the cloud. Settled events form a prefix of the log
  however many runs interleave.
- `ContinuityData`, `Projection`, `Continuity` and `ContinuityEngine` are the command log
  with its cached projections, cash ledger and conflict table. `CommandReplay` replays it,
  `TornMarks` is what a crash between the two statements of a mark leaves behind.
  `CommandRules`, `ConflictRules` and `SnapshotRules` say which commands, resolutions and
  snapshots are accepted, which fault the others get, and what exactly an accepted one changes,
  `SyncRules` what a sync leaves of every row.
  `LiveSessions` is the rule of one live session per resource, `SampleHub` the ground on
  which their counterexamples start, `MinorUnits` the exact parsing of decimal amounts.
- `PrintContinuity` is the print queue with lost replies, failed marks and crashes.

**The API** (`apps/api/src/common`).

- `Idempotency` is a transition system: any number of callers in any number of processes
  race over one receipt row that expires, each process with its own memory cache.
  `IdempotentCalls` says what each call is answered.
- `MoneySplit` is the largest-remainder split and the equal allocation, in exact rationals;
  `MoneyAmounts` says which amounts come out, in terms of the total.
- `Bits` and `Base32` are base32 through a 32-bit accumulator.
- `VenueTime` is the inversion of a wall clock in three rounds, and business and calendar
  days, over an abstract zone. Dates are day numbers.
- `StockClaims` and `StockRaces` sell menu items and restore canceled order lines, alone and
  under any interleaving of SQL statements.
- `CaptchaEscalation` compares the pruned and capped throttle maps with the full history.
- `DiningDrift` is the drift report between seating groups and bookable dining units.

`Collections`, `Options`, `Digits`, `Text` and `Sums` hold what several modules share.

Where the source updates rows or maps in place, a class has those tables as fields, and each
method's contract ties the new tables to a function of the old ones. The properties are then
proved about those functions, over whole runs. A transaction or a single SQL statement is one
atomic step, and a crash can come between any two; a synchronous function is not interrupted
otherwise. SHA-256 is a function parameter, injective where a proof needs that.

## Where the code falls short of its promise

Each of these is proved with a concrete run or input, and with the exact condition under
which the code does keep its promise.

- Continuity syncs that overlap (the timer in `apps/edge/src/server.js:194` and a sync
  request can) may put an answered command back in the queue behind later ones:
  `CommandReplay.OverlapBreaksOrder`. When a mark keeps the order, whatever the command's
  state: `Continuity.RetryKeepsOrderExactly` and `Continuity.SettleKeepsOrderExactly`; when
  it keeps the tables in agreement: `Continuity.MarkKeepsAgreementExactly`.
- A mark of the command log is two statements without a transaction
  (`apps/edge/src/continuity.js:331-335`, `:342-350` and `:359-369`). A crash between them
  leaves a cash payment SYNCED in the log and PENDING in the ledger, or a conflict without its
  row, for good: `CommandReplay.CrashInsideAMark`, `CommandReplay.CutMarkIsForGood`. A
  resolution cut there can be made again and repairs the tables:
  `CommandReplay.CutResolutionIsOpen`, `CommandReplay.ResolutionCompletes`. The tables agree
  exactly when no crash has cut the mark of a cash payment or of a conflict and no cut
  resolution is left: `CommandReplay.ReplayOrderAndAgreement`. The order of the log survives
  every such crash.
- Resuming a finished session can give a resource two live sessions, and so can starting two
  on a padded resource id: `LiveSessions.ResumeOfFinishedBreaks`,
  `LiveSessions.PaddedStartsBreak`. Exactly when: `LiveSessions.MoveKeepsExactly`,
  `LiveSessions.StartKeepsExactly`.
- A receipt that is deleted because it expired, or because the update to COMPLETED reported
  an error, can let a second caller run the guarded function: `Idempotency.ExpiryLetsTwoIn`,
  `Idempotency.StaleDeleteTakesFreshReceipt`, `Idempotency.FailedUpdateRunsTwice`,
  `Idempotency.LostReplyUndoesAnAnswer`. Which deletions are harmless:
  `Idempotency.NextKeepsExactly`; every other one can lead there:
  `Idempotency.UnsafeRunsTwice`.
- A job that the cloud offers again after recording its success is printed again:
  `PrintContinuity.SucceededJobIsStagedAgain`, and exactly when,
  `PrintContinuity.ReofferPrintsTwiceExactly`.
- A reprint whose worker crashes before it is recorded leaves the job acknowledged with the
  failure of the print before: `PrintContinuity.LostReprintStaysFailed`. Exactly when the
  recorded outcome is that of the last execution: `PrintContinuity.PrintingSurvives`.
- A business day whose opening falls among the skipped or repeated wall times is given other
  instants than its keys say. `VenueTime.ZoneDayHoldsItsKeysExactly` has the exact condition,
  `VenueTime.SkippedMidnight` a night east of Greenwich that skips midnight, where the
  calendar day starts an hour early.
- A line quantity changed between listing and claiming restores the wrong amount:
  `StockRaces.StaleQuantityInflatesStock`; by how much, `StockRaces.StepDrifts`.
- Base32 padding followed by white space is refused, although both are accepted alone:
  `Base32.PaddingBeforeSpaceIsRefused`. Exactly which texts are accepted:
  `Base32.AcceptedExactly`.

## Model

| member | source | states |
|---|---|---|
| `CanonicalJson.PrintIdentifies` | apps/edge/src/canonical.js:3-7 | Two JSON values have the same canonical text exactly when they are equal up to member order at every depth |
| `CanonicalJson.ParseRoundTrip` | apps/edge/src/canonical.js:3-7 | A reader recovers from the canonical text the value with its members sorted |
| `CanonicalJson.ParsePrint` | apps/edge/src/canonical.js:3-7 | The canonical text is self-delimiting: read in front of any continuation that does not extend a number, it gives the value and exactly that continuation |
| `CanonicalJson.PrintParsePrint` | apps/edge/src/canonical.js:3-7 | Reading and printing again gives the same text and a value equal up to member order |
| `CanonicalJson.NormalizeKeeps` | apps/edge/src/canonical.js:3-7 | Sorting the members at every depth changes nothing but their order |
| `CanonicalJson.SortKeysSorted` | apps/edge/src/canonical.js:6-6 | Member names come out sorted by UTF-16 code units, each exactly once, none lost |
| `CanonicalJson.RankIsCodeUnitOrder` | apps/edge/src/canonical.js:6-6 | Characters are ranked as their UTF-16 code units are ordered, supplementary ones before U+E000 |
| `CanonicalJson.SortedUnique` | apps/edge/src/canonical.js:6-6 | A set of names has only one sorted order, so the printer has no choice |
| `EdgeStore.LogAndTableAgree` | apps/edge/src/store.js:155-227 | After any sequence of appends and cloud marks, each aggregate row is the fold of its entity's payloads and its version their number; versions and expected versions chain, the first event and no other is the create, and sequence numbers are 1 to n |
| `EdgeStore.AppendKeepsAgreement` | apps/edge/src/store.js:155-227 | Any append, whatever it is given, keeps log and table in agreement, and one that is not accepted changes nothing |
| `EdgeStore.AppendTouchesOneEntity` | apps/edge/src/store.js:193-222 | Any append leaves the facts, version and state of all other entities alone; an accepted one adds one fact and one version to its own |
| `AppendRules.AcceptedExactly` | apps/edge/src/store.js:155-227 | A new sound request is accepted exactly when it creates an entity without facts and expects no version, or updates one and expects the number of its facts; each of the five other cases has its error |
| `AppendRules.BadRequestRefused` | apps/edge/src/store.js:155-172 | A request with an unknown operation, a payload that is not an object of the six fields, a wrong hash or an id that is not a UUID is refused with the first of these errors and changes nothing |
| `AppendRules.UuidExactly` | apps/edge/src/store.js:6-6 | An id passes exactly when it is 8, 4, 4, 4 and 12 hexadecimal digits joined by hyphens, of version 1 to 8 and of the variant of RFC 9562 |
| `AppendRules.AcceptedEvent` | apps/edge/src/store.js:193-222 | An accepted append adds one event at the end: the request as it came, hash and canonical text of its payload, the next number, the version that counts its entity's facts, pending without attempt or error |
| `EdgeStore.MarkKeepsAgreement` | apps/edge/src/store.js:143-153 | The cloud marks leave the agreement of log and table alone |
| `EdgeStore.SpreadEffect` | apps/edge/src/store.js:208-208 | Spreading one object over another keeps names distinct and gives each name the later value |
| `EdgeStore.FoldIsLastWriter` | apps/edge/src/store.js:193-214 | In the folded state a name has the value of the last event that names it |
| `EdgeStore.FoldNames` | apps/edge/src/store.js:193-214 | The folded state has exactly the names that some event has |
| `EdgeStore.RequestsPrintSame` | apps/edge/src/store.js:162-187 | Two request records have the same canonical text exactly when all their fields agree, payloads up to member order |
| `EdgeStore.DuplicateExactlyWhenSame` | apps/edge/src/store.js:162-191 | An append whose id is already in the log changes nothing, and is a duplicate exactly when it repeats the stored request; else it is a conflict |
| `EdgeStore.RepeatedAppendIsNoOp` | apps/edge/src/store.js:162-191 | Repeating an accepted append, instant included, changes nothing and returns the stored event |
| `EdgeStore.EdgeStore.AppendEvent` | apps/edge/src/store.js:155-227 | The transaction's new tables and its answer are those of the append function, and the invariant is kept |
| `EdgeStore.EdgeStore.SanitizePayload` | apps/edge/src/store.js:10-18 | A payload passes exactly when it is an object with supported fields only, and then passes unchanged |
| `EdgeStore.EdgeStore.MarkCloudSynced` | apps/edge/src/store.js:143-145 | Facts, numbers, order and all other events stay, the event is synced with no error and one attempt more, the aggregates are untouched, and a valid store stays valid |
| `EdgeStore.EdgeStore.MarkCloudConflict` | apps/edge/src/store.js:147-149 | The same, with the event in conflict and the message as its error |
| `EdgeStore.EdgeStore.MarkCloudAttemptFailed` | apps/edge/src/store.js:151-153 | The same, with the message as its error and the state it had, so a pending event stays pending |
| `EventReplay.ReplayOrder` | apps/edge/src/cloud-client.js:175-211 | However appends and overlapping replays interleave, the settled events form a prefix of the log |
| `EventReplay.NextKeeps` | apps/edge/src/cloud-client.js:175-211 | Every step of every running replay keeps that invariant and the agreement of log and table |
| `EventReplay.SettledStays` | apps/edge/src/store.js:143-153 | No step makes a settled event pending again, or rewrites what was appended |
| `EventReplay.PendingIsSuffix` | apps/edge/src/store.js:108-110 | With a settled prefix, the pending query returns the events right after it, up to the limit |
| `EventReplay.CloudClient.SyncPending` | apps/edge/src/cloud-client.js:175-211 | A run settles the leading pending events in order, one per answer, stops only at a missing answer, notes each answer, attempt and error on its own event and nothing on the others, and reports exactly how many were accepted and refused |
| `MinorUnits.DecimalExact` | apps/edge/src/continuity.js:35-51 | For a value that is digits, or digits, a point and digits, within white space, the answer is n exactly when the currency is not blank and n over 10^scale is the value; otherwise that it is too precise, or that the currency is missing |
| `MinorUnits.DecimalRejected` | apps/edge/src/continuity.js:26-44 | Something is missing exactly when the value is all white space, or is a decimal and the currency is all white space; a value is malformed exactly when it is neither white space nor a decimal |
| `MinorUnits.MatchExact` | apps/edge/src/continuity.js:43-43 | The pattern splits a text into digits and fraction exactly when it is written that way |
| `Continuity.CreateKeepsLog` | apps/edge/src/continuity.js:192-237 | A new command keeps operation ids unique, device numbers gapless and answered commands a prefix |
| `Continuity.SequencesGapless` | apps/edge/src/continuity.js:221-221 | A device's numbers are exactly 1 to n |
| `Continuity.SequenceOrder` | apps/edge/src/continuity.js:221-221 | A device's numbers grow in the order of insertion |
| `Continuity.CreateShape` | apps/edge/src/continuity.js:192-237 | A created cash payment adds exactly its own ledger row with the exact total of its allocations; other commands leave the ledger alone |
| `CommandRules.CommandAnswered` | apps/edge/src/continuity.js:192-319 | Every command has one answer: a known id is a duplicate or a conflict, a command at fault is refused with the first fault and changes nothing, and any other one adds its row and has its effect, all spelled out field by field |
| `CommandRules.AcceptedMove` | apps/edge/src/continuity.js:266-283 | An accepted pause, resume or end leaves its cached session PAUSED, ACTIVE or FINISHED, one version on, with its time set, and every other field and row as it was |
| `CommandRules.EnvelopeExactly` | apps/edge/src/continuity.js:193-209 | The input is refused with the first check it fails: operation, venue, id, device and aggregate, hash, date; else it is addressed by its trimmed fields and by a key of at most 160 characters |
| `CommandRules.PermissionExactly` | apps/edge/src/continuity.js:239-250 | A command passes exactly when its operator is cached and not inactive, and is the owner or has, between two commas of the permissions, the star or the permission the operation needs |
| `CommandRules.MovesExactly` | apps/edge/src/continuity.js:266-283 | A move is accepted exactly when the session is cached and the expected version is absent, 0 or the cached one; field by field, what it writes |
| `CommandRules.StartsExactly` | apps/edge/src/continuity.js:253-265 | A start is accepted exactly when its resource is cached, neither in maintenance nor disabled, and no cached session on it is active or paused; field by field, what it writes |
| `CommandRules.UpdatesExactly` | apps/edge/src/continuity.js:310-318 | The same for updates of a check: the payload overrides the cached check, but not its id, version and cloud mark |
| `CommandRules.CashExactly` | apps/edge/src/continuity.js:284-301 | A cash payment is accepted exactly when its amount is positive and equals the sum of the exact amounts of its allocations, nothing is missing, and the cached venue names no other currency; otherwise with the first fault |
| `CommandRules.AllocationsAdd` | apps/edge/src/continuity.js:292-296 | The total of the allocations is the sum of their exact minor units, or the fault of the first one at fault |
| `CommandRules.NumbersOn` | apps/edge/src/continuity.js:221-221 | A new number is one more than the largest of the device, or 1 |
| `Continuity.CreateKeepsAgreement` | apps/edge/src/continuity.js:192-237 | Creating, resubmitting or rolling back a command keeps ledger and conflict table in agreement with the log |
| `Continuity.MarkKeepsAgreementExactly` | apps/edge/src/continuity.js:331-350 | Marking any command, answered ones included: SYNCED keeps ledger and conflict table in agreement exactly when it has no conflict row, RETRY when besides it is no synced cash payment, CONFLICT when it is neither that nor resolved |
| `Continuity.SettleKeepsOrderExactly` | apps/edge/src/continuity.js:331-350 | Settling a command keeps the answered commands of its device a prefix exactly when all earlier ones are answered |
| `Continuity.RetryKeepsOrderExactly` | apps/edge/src/continuity.js:337-340 | Marking a command RETRY keeps the prefix exactly when no later command of the device is answered |
| `Continuity.ResolveKeepsAgreement` | apps/edge/src/continuity.js:359-369 | Resolving keeps the tables in agreement, and no cash conflict is ever resolved by AUTO_MERGE |
| `Continuity.ResolveShape` | apps/edge/src/continuity.js:359-369 | A resolution succeeds only on a command in conflict, never auto-merges a financial one, and changes that command and its conflict row only |
| `ConflictRules.ResolvesExactly` | apps/edge/src/continuity.js:359-369 | A resolution is refused exactly for a command that is not in conflict and for merging a financial one automatically; any other one buries the command and is noted on its conflict |
| `Continuity.RowsAreCommands` | apps/edge/src/continuity.js:417-431 | Ledger rows are the cash commands, open ledger rows the unsynced ones, unresolved conflicts the commands in conflict |
| `Continuity.DiagnosticsExactly` | apps/edge/src/continuity.js:417-431 | Pending, synced, conflicting and dead commands are counted by their states, RETRY as pending |
| `Continuity.DiagnosticsPartition` | apps/edge/src/continuity.js:417-431 | The four command counts partition the log, and the ledger and conflict counts are counts of commands |
| `CommandReplay.ReplayOrderAndAgreement` | apps/edge/src/cloud-client.js:131-173 | In every state of any run without overlapping syncs, with commands, snapshots, resolutions, errors and crashes at any statement, numbers are gapless and answered commands form a prefix per device; the tables agree exactly when no crash has cut the mark of a cash payment or of a conflict and every resolution that was cut has been completed since, a mark in progress counting as cut |
| `TornMarks.AgreeExactlyWhenIntact` | apps/edge/src/continuity.js:331-369 | Tables of which every command's rows are as its torn mark leaves them agree exactly when no mark is torn |
| `CommandReplay.NextKeeps` | apps/edge/src/cloud-client.js:131-173 | Every step keeps the invariant: a command, a load or a cut one, a start of a run, each of the two statements of a mark, an error between them, a crash; it says what is left of the batch in progress and which marks are torn |
| `CommandReplay.DoneStaysExactly` | apps/edge/src/cloud-client.js:151-170 | Without overlap a row keeps its command, and an answered one becomes open again exactly when the second statement of its own mark throws |
| `CommandReplay.CutMarkIsForGood` | apps/edge/src/continuity.js:331-350 | Once a crash has cut the mark of a cash payment or of a conflict, in every later state the command is half marked, no query for pending commands returns it, and the tables disagree |
| `CommandReplay.MarkCompletes` | apps/edge/src/continuity.js:331-350 | An answer whose mark runs to its end has the effect of the whole mark and tears nothing |
| `CommandReplay.ResolutionCompletes` | apps/edge/src/continuity.js:359-369 | So does an accepted resolution, and it repairs an earlier one of the same command that was cut |
| `CommandReplay.CutResolutionIsOpen` | apps/edge/src/continuity.js:359-366 | In every state after a resolution was cut and before it is completed, it can be made again with any action its operation allows |
| `CommandReplay.CrashInsideAMark` | apps/edge/src/continuity.js:331-335 | From an empty hub, a first snapshot, an accepted payment of one yen, an OK from the cloud and a crash inside the mark: the payment is SYNCED in the log and PENDING in the ledger |
| `CommandReplay.OverlapBreaksOrder` | apps/edge/src/cloud-client.js:131-173 | From an empty hub, a first snapshot and two accepted orders: two syncs load both, one has both settled, and an unanswered request of the other reopens the first behind the second |
| `ContinuityEngine.ContinuityEngine.CreateCommand` | apps/edge/src/continuity.js:192-237 | The step-by-step transaction with its rollback has the effect and the answer of the function |
| `ContinuityEngine.ContinuityEngine.ApplySnapshot` | apps/edge/src/continuity.js:142-180 | A snapshot replaces every kind, or leaves the cache as it was and reports the first row at fault: a blank id or a repeated one |
| `SnapshotRules.AppliesExactly` | apps/edge/src/continuity.js:142-180 | A snapshot without venue or of another venue is refused; of any other one each of nine kinds holds exactly its rows, by id and version, orders stay, or the cache is as it was and the fault is that of the first row without id or with a repeated one |
| `SnapshotRules.CutAppliesExactly` | apps/edge/src/continuity.js:148-163 | A crash before the transaction of the cache leaves the venue of the whole load and the cache as it was |
| `ContinuityEngine.ContinuityEngine.MarkSynced` | apps/edge/src/continuity.js:331-335 | The command and its ledger row become synced, nothing else changes |
| `ContinuityEngine.ContinuityEngine.MarkConflict` | apps/edge/src/continuity.js:342-350 | The command and its conflict row change together, and the class is financial review exactly for operations that must never merge |
| `ContinuityEngine.ContinuityEngine.ResolveConflict` | apps/edge/src/continuity.js:359-369 | The method has the effect and the answer of the resolution function |
| `ContinuityEngine.ContinuityEngine.SyncContinuityPending` | apps/edge/src/cloud-client.js:131-173 | The loop answers the batch in order up to the first missing answer, reports exactly how many were accepted and how many refused and how many are still pending, and does nothing unregistered |
| `ContinuityEngine.BatchLength` | apps/edge/src/continuity.js:327-329 | Whatever rows of equal number the query picks, it returns as many open commands as there are, up to the limit |
| `ContinuityEngine.SyncKeepsOrder` | apps/edge/src/cloud-client.js:131-173 | A whole sync run over the queried batch keeps order, also on tables that cut marks have left behind, and the tables agree after it exactly when they did before |
| `SyncRules.SyncExactly` | apps/edge/src/cloud-client.js:131-173 | A whole run asks for the rows of its batch up to the first missing answer: each command asked for has its answer and one attempt more, ledger rows of payments answered OK are synced, commands refused have a conflict with class and code, and everything else stays |
| `LiveSessions.OneLiveSessionPerResource` | apps/edge/src/continuity.js:252-283 | Over all commands and snapshots, under the rules the engine relies on, no resource has two live cached sessions |
| `LiveSessions.MoveKeepsExactly` | apps/edge/src/continuity.js:266-283 | An accepted pause, resume or end keeps one live session per resource exactly when it ends, moves a live session, or no other session holds the resource |
| `LiveSessions.StartKeepsExactly` | apps/edge/src/continuity.js:253-265 | An accepted start keeps one live session per resource exactly when its payload says the session is not live or no other session holds the resource, padding aside |
| `LiveSessions.LoadKeeps` | apps/edge/src/continuity.js:142-180 | Loading a snapshot that follows the cloud's own rule keeps it |
| `LiveSessions.ResumeOfFinishedBreaks` | apps/edge/src/continuity.js:266-283 | From an empty hub and a first snapshot: start, end, start another, resume the first; all accepted, two live sessions on one resource |
| `LiveSessions.PaddedStartsBreak` | apps/edge/src/continuity.js:253-265 | From an empty hub and a first snapshot, two starts on a padded resource id are both accepted and leave two live sessions on the resource |
| `PrintContinuity.PrintingSurvives` | apps/edge/src/hub.js:131-197 | Over any run of ticks, lost replies, failed marks and crashes: a job prints at most once more than the prints markPrinted did not record; at most one job is open; a job the cloud has as succeeded was printed by its last execution; an acknowledged job has in the cloud the outcome of its last execution exactly unless that was an unrecorded print |
| `PrintContinuity.NextKeeps` | apps/edge/src/hub.js:150-197 | Every step of the worker and of the transport, a markPrinted that throws and every crash keep the invariant |
| `PrintContinuity.TickKeepsExactly` | apps/edge/src/hub.js:150-197 | An undisturbed tick from an idle worker, whatever it is answered, keeps it exactly unless it claims and stages a job the cloud has as succeeded |
| `PrintContinuity.TickDoes` | apps/edge/src/hub.js:131-197 | An undisturbed tick of an idle worker: an oldest open row that is claimed is executed, as is the job on offer when no row is open; a row with an outcome is reported without printing; prints grow by one exactly on success, the last outcome is recorded, a recorded report reaches the cloud and a confirmed one leaves the row acknowledged |
| `PrintContinuity.CrashedClaimIsExecuted` | apps/edge/src/hub.js:154-170 | A job that was claimed before a crash is executed by the next tick |
| `PrintContinuity.StagesExactly` | apps/edge/src/print-continuity.js:22-34 | Staging refuses a job without id and a changed one, hands back a row as it is, and otherwise adds a claimed row at the end |
| `PrintContinuity.ReofferPrintsTwiceExactly` | apps/edge/src/print-continuity.js:22-34 | In any state where the worker claims, printing the job on offer gives it a print too many, without a crash, exactly when the cloud has it as succeeded and its text is unchanged |
| `PrintContinuity.OfferKeepsExactly` | apps/edge/src/print-continuity.js:22-34 | The offers that keep the invariant are exactly the others |
| `PrintContinuity.SucceededJobIsStagedAgain` | apps/edge/src/print-continuity.js:22-34 | One undisturbed print from an empty hub leads to such a state |
| `PrintContinuity.LostReprintStaysFailed` | apps/edge/src/hub.js:150-197 | From an empty hub: a print fails and is acknowledged, is offered again and printed, and a crash before markPrinted leaves it acknowledged and failed in the cloud |
| `PrintContinuity.PrintContinuityStore.Stage` | apps/edge/src/print-continuity.js:22-34 | Staging adds a claimed row, hands back the existing one, or refuses a changed job without effect |
| `PrintContinuity.PrintContinuityStore.Next` | apps/edge/src/print-continuity.js:36-41 | Returns a row that is not acknowledged while all older ones are, and nothing exactly when all are |
| `PrintContinuity.PrintContinuityStore.MarkPrinted` | apps/edge/src/print-continuity.js:43-46 | No row appears, moves or changes its job, rows of other jobs stay, and the row of this job is printed, unacknowledged and without error |
| `PrintContinuity.EdgeHub.ProcessPrintQueue` | apps/edge/src/hub.js:150-197 | A tick does the steps of the machine until it is idle, and with unique job ids what `TickDoes` says; nothing when unregistered or already running |
| `PrintContinuity.EdgeHub.AckStagedPrint` | apps/edge/src/hub.js:131-148 | A recorded outcome is reported without printing again |
| `Idempotency.AtMostOnce` | apps/api/src/common/idempotency.util.ts:283-404 | For any number of callers and processes and any safe interleaving, at most one caller is inside the function, and it completes at most once |
| `Idempotency.OneAnswer` | apps/api/src/common/idempotency.util.ts:283-425 | Every value returned in such a run, from memory, receipt, race or polling, is that one result, and a caller with a different request hash gets none |
| `IdempotentCalls.AnswerIsReplayed` | apps/api/src/common/idempotency.util.ts:307-331 | A completed, unexpired receipt whose hash does not differ, found by loading, after a lost race or by polling, is returned and remembered for a time to live, and nothing else changes |
| `IdempotentCalls.MemoryAnswers` | apps/api/src/common/idempotency.util.ts:304-305 | An answer its process still remembers is returned at once |
| `IdempotentCalls.NoAnswerLeadsOn` | apps/api/src/common/idempotency.util.ts:307-381 | Without an answer: no receipt is to be created, a pending one waited for, an expired one deleted, and a lost race waited for |
| `IdempotentCalls.WaitRunsOut` | apps/api/src/common/idempotency.util.ts:406-425 | A wait for a receipt that stays pending ends after eight polls |
| `IdempotentCalls.RefusedExactly` | apps/api/src/common/idempotency.util.ts:199-209 | A caller is refused exactly when its hash differs from that of an answer it finds, its polls have run out, or the receipt it waits for has gone or expired |
| `IdempotentCalls.OwnerReturns` | apps/api/src/common/idempotency.util.ts:344-397 | The creator of the receipt runs the function, completes the receipt with the result as JSON, remembers it and returns it |
| `IdempotentCalls.FailureDeletesReceipt` | apps/api/src/common/idempotency.util.ts:398-403 | When the function throws or its result cannot be recorded, the receipt is deleted and the call throws |
| `IdempotentCalls.LostCommits` | apps/api/src/common/idempotency.util.ts:344-395 | A creation or update whose reply is lost leaves the receipt that it leaves otherwise |
| `IdempotentCalls.ThrowsExactly` | apps/api/src/common/idempotency.util.ts:283-425 | A call throws exactly after such a failure, when its process dies before it is finished, or when one of its queries fails |
| `Idempotency.NextKeepsExactly` | apps/api/src/common/idempotency.util.ts:283-425 | A step from an invariant state keeps the invariant exactly when it is safe: it deletes neither an expired receipt after the function completed or while somebody is busy with it, nor the receipt of a completed execution whose update reported an error |
| `Idempotency.UnsafeRunsTwice` | apps/api/src/common/idempotency.util.ts:336-403 | Every other step, from any invariant state with one caller more that has not started, has a continuation that completes the function twice or puts two callers inside it |
| `Idempotency.SafeWithinTtl` | apps/api/src/common/idempotency.util.ts:283-425 | A run shorter than every time to live in which no update to COMPLETED reports an error is safe, whatever else happens |
| `Idempotency.ExpiryLetsTwoIn` | apps/api/src/common/idempotency.util.ts:336-342 | A receipt that expires while its owner is inside the function is deleted by the next caller, and both are inside |
| `Idempotency.StaleDeleteTakesFreshReceipt` | apps/api/src/common/idempotency.util.ts:336-342 | A process dies inside the function and its receipt expires; two callers find it so, the second deletes by key the fresh receipt of the first, and both are inside |
| `Idempotency.FailedUpdateRunsTwice` | apps/api/src/common/idempotency.util.ts:384-403 | A failed update to COMPLETED drops the receipt and the function completes twice |
| `Idempotency.LostReplyUndoesAnAnswer` | apps/api/src/common/idempotency.util.ts:384-403 | An update to COMPLETED commits and its reply is lost: another caller replays the answer, the receipt is deleted, and the function completes again |
| `MoneySplit.SplitAddsUp` | apps/api/src/common/money.util.ts:196-209 | The parts add up to the amount in minor units |
| `MoneySplit.MoneyAddsUp` | apps/api/src/common/money.util.ts:180-213 | The amounts of an accepted split add up exactly to the total rounded to the currency's decimals, for either sign |
| `MoneyAmounts.SplitAddsUpTo` | apps/api/src/common/money.util.ts:180-213 | With p of 1, 10, 100, 1000 or 10000 for 0 to 4 decimals, every amount is a whole number of 1/p and their sum is the nearest one to the total, ties away from zero; a total that is one itself is split without loss |
| `MoneyAmounts.AllocationAddsUpTo` | apps/api/src/common/money.util.ts:160-177 | The same for the equal allocation |
| `MoneyAmounts.SplitSucceedsExactly` | apps/api/src/common/money.util.ts:180-195 | A split fails exactly without weights, with a negative one, with only zero ones, or with decimals outside 0 to 4, and reports the first of these |
| `MoneyAmounts.AllocationSucceedsExactly` | apps/api/src/common/money.util.ts:160-168 | An allocation fails exactly for a count that is not positive or such decimals |
| `MoneyAmounts.LargestRemainders` | apps/api/src/common/money.util.ts:196-213 | A part is its exact share rounded towards zero, and one unit more exactly when fewer weights have a larger remainder, or the same and a smaller index, than units are left over |
| `MoneyAmounts.AllocationIs` | apps/api/src/common/money.util.ts:160-177 | A part of an allocation is the quotient in minor units, and one more for the first ones, as many as the remainder |
| `MoneySplit.RoundsToNearest` | apps/api/src/common/money.util.ts:61-72 | Rounding gives a nearest integer, and away from zero on a tie |
| `MoneySplit.SplitIsFair` | apps/api/src/common/money.util.ts:196-209 | Each part is less than one unit away from its exact quota, none is negative, a zero weight gets zero |
| `MoneySplit.SplitIsMonotone` | apps/api/src/common/money.util.ts:196-209 | A larger weight never gets less |
| `MoneySplit.SplitNegates` | apps/api/src/common/money.util.ts:180-213 | Splitting the negated total negates every part and fails in the same cases |
| `MoneySplit.SortSorted` | apps/api/src/common/money.util.ts:202-204 | The residual order is by larger fraction, ties by smaller index |
| `MoneySplit.EqualSplitUnits` | apps/api/src/common/money.util.ts:160-177 | With equal weights the split is the equal allocation |
| `MoneySplit.AllocationIsEqualSplit` | apps/api/src/common/money.util.ts:160-213 | Allocating a total of either sign is splitting it over equal weights, errors included |
| `MoneySplit.AllocateMoneyDecimal` | apps/api/src/common/money.util.ts:160-177 | The loop over the residual computes the equal allocation |
| `MoneySplit.SplitMoneyByWeightsDecimal` | apps/api/src/common/money.util.ts:180-213 | The method computes the split and raises its errors in order |
| `MoneySplit.SplitInPlace` | apps/api/src/common/money.util.ts:196-209 | Handing out the residual in place gives the units of the split |
| `Base32.RoundTrip` | apps/api/src/common/mfa-totp.util.ts:164-200 | Decoding the encoding of any bytes gives them back, with any amount of trailing padding |
| `Base32.EncodeSpells` | apps/api/src/common/mfa-totp.util.ts:164-180 | The text has ceil(8n/5) symbols of the alphabet and spells the bits of the bytes and fewer than five zero bits (section 6 of RFC 4648) |
| `Base32.Base32Encode` | apps/api/src/common/mfa-totp.util.ts:164-180 | The loop over a 32-bit accumulator computes the encoding of the whole bit string |
| `Base32.Base32Decode` | apps/api/src/common/mfa-totp.util.ts:182-200 | The loop over a 32-bit accumulator computes the decoding of the cleaned text, or refuses it |
| `Base32.AcceptedExactly` | apps/api/src/common/mfa-totp.util.ts:182-200 | A text is accepted exactly when each character before its trailing padding is white space or has an upper case spelt in the alphabet, non-ASCII letters with an ASCII upper case included |
| `Base32.ShiftKeepsPending` | apps/api/src/common/mfa-totp.util.ts:169-169 | A 32-bit shift drops old bits but never a pending one |
| `Base32.DecodedTextIsCanonical` | apps/api/src/common/mfa-totp.util.ts:182-200 | A text is the encoding of what it decodes to exactly when fewer than five zero bits are left over |
| `Base32.InnerPaddingIsRefused` | apps/api/src/common/mfa-totp.util.ts:183-183 | A padding sign with any other character after it has the text refused |
| `Base32.PaddingBeforeSpaceIsRefused` | apps/api/src/common/mfa-totp.util.ts:183-183 | An encoding with any padding and then any white space is refused, with either alone it gives its bytes back |
| `VenueTime.ZonedWallTimeToUtc` | apps/api/src/common/venue-timezone.util.ts:121-147 | The loop that may stop early computes three rounds of correction |
| `VenueTime.OffsetExactly` | apps/api/src/common/venue-timezone.util.ts:92-118 | The offset used in a round separates the instant from the last whole second that clocks have shown |
| `VenueTime.InvertsWhatIsShown` | apps/api/src/common/venue-timezone.util.ts:121-147 | With at most two offsets in reach, the result shows the requested time exactly when some instant does |
| `VenueTime.ShownExactlyWhenSettled` | apps/api/src/common/venue-timezone.util.ts:121-147 | In any zone, the result shows the requested time exactly when a fourth round would leave it where it is |
| `VenueTime.ThirdOffsetCanBeMissed` | apps/api/src/common/venue-timezone.util.ts:121-147 | The hypothesis of two offsets is needed: with three in reach, a time that clocks show can be missed |
| `VenueTime.SeparatesExactly` | apps/api/src/common/venue-timezone.util.ts:121-147 | With one change of offset, the result separates earlier from later wall times exactly when the time is clear of the change |
| `VenueTime.ZoneSeparatesExactly` | apps/api/src/common/venue-timezone.util.ts:121-147 | In such a zone the result separates earlier from later wall times exactly when the time is clear of every change |
| `VenueTime.ZoneDayHoldsItsKeysExactly` | apps/api/src/common/business-day.util.ts:49-105 | In a zone with any number of far apart changes, keys and bounds agree on a day for all instants exactly when both of its openings are clear of every change |
| `VenueTime.DaysAdvance` | apps/api/src/common/business-day.util.ts:58-105 | In such a zone a day between clear openings ends where the next starts and is not empty |
| `VenueTime.DayLength` | apps/api/src/common/business-day.util.ts:58-105 | In such a zone a day whose openings no change skips or repeats is 24 hours long less what clocks go forward in it, 23- and 25-hour days included |
| `VenueTime.CalendarDayHoldsItsDates` | apps/api/src/common/venue-timezone.util.ts:186-196 | With any number of far apart changes and clear midnights, the inclusive bounds of a calendar day hold exactly the instants of that local date |
| `VenueTime.SkippedMidnight` | apps/api/src/common/venue-timezone.util.ts:186-196 | East of Greenwich, a night that skips midnight gives the new day the last hour of the old one |
| `StockClaims.MenuStock.AdjustMenuItemStockBy` | apps/api/src/common/menu-stock-db.util.ts:112-164 | A decrement is applied only when stock suffices, a restore always, and only on tracked items |
| `StockClaims.MenuStock.ClaimActiveLinesAndRestoreStock` | apps/api/src/common/shop-order-stock.util.ts:19-41 | The loop computes the claims and the returned total of the function |
| `StockClaims.ClaimAllConserves` | apps/api/src/common/shop-order-stock.util.ts:19-41 | Stock and sold quantity of a tracked item add up to the same before and after |
| `StockClaims.ClaimAllReturns` | apps/api/src/common/shop-order-stock.util.ts:19-41 | The returned quantity is exactly what was sold before and is not after |
| `StockClaims.ClaimedExactly` | apps/api/src/common/shop-order-stock.util.ts:19-41 | After a claim the listed lines of the order that were active with an item are canceled, and all other lines are as they were |
| `StockRaces.TotalIsConserved` | apps/api/src/common/shop-order-stock.util.ts:19-41 | Over any interleaving with unchanged quantities, stock, sold and claimed quantity of a tracked item add up to a constant between its resets |
| `StockRaces.StepDrifts` | apps/api/src/common/shop-order-stock.util.ts:28-38 | Any step moves that total by exactly how far a winning claim's listed quantity is from the row's |
| `StockRaces.NoDoubleRestore` | apps/api/src/common/shop-order-stock.util.ts:13-18 | No line is restored twice and no stock goes below zero, whatever the order of steps |
| `StockRaces.RestoredExactlyOnce` | apps/api/src/common/shop-order-stock.util.ts:13-18 | A line of a tracked item sold at any time of a run is later restored exactly once when it is no longer sold and nobody still holds it, and not at all otherwise |
| `StockRaces.UndisturbedIsClaimAll` | apps/api/src/common/shop-order-stock.util.ts:19-41 | A canceler whom nobody disturbs does, statement by statement, what the claims of the whole order do |
| `StockRaces.UndisturbedSale` | apps/api/src/modules/finance/shop-order.service.ts:543-562 | So for a sale: one active line and as much less stock, or nothing when stock does not suffice |
| `StockRaces.PatchesExactly` | apps/api/src/modules/finance/shop-order.service.ts:659-695 | A changed quantity moves the stock by the difference, or is refused as a whole |
| `StockRaces.StaleQuantityInflatesStock` | apps/api/src/common/shop-order-stock.util.ts:28-38 | A quantity changed between listing and claiming raises the total |
| `CaptchaEscalation.EscalatedExactly` | apps/api/src/common/captcha-escalation.util.ts:114-164 | While at every note no more addresses than the cap are live, an address is escalated exactly when a note of that kind is live, or two of different kinds of which the first was live when the second came and the second is live |
| `CaptchaEscalation.AnswerIsHistory` | apps/api/src/common/captcha-escalation.util.ts:149-164 | At any size, the answer is that of the history without the addresses the cap dropped |
| `CaptchaEscalation.NothingForgottenExactly` | apps/api/src/common/captcha-escalation.util.ts:57-69 | The maps stand for all notes ever made exactly when at every note no more addresses than the cap were live, however many there ever were |
| `CaptchaEscalation.EvictedExactly` | apps/api/src/common/captcha-escalation.util.ts:57-69 | The cap drops live addresses only, and some exactly when there are too many live ones |
| `CaptchaEscalation.EvictedAreOldest` | apps/api/src/common/captcha-escalation.util.ts:57-69 | With more than 20000 live addresses the dropped ones are as many as there are too many, the first in the order of the map |
| `CaptchaEscalation.ThrottleIsNoted` | apps/api/src/common/captcha-escalation.util.ts:114-146 | A note is kept with its trimmed address, its kind and its expiry when with it no more than 20000 addresses are live, and a blank address adds none |
| `CaptchaEscalation.PrunedAreLive` | apps/api/src/common/captcha-escalation.util.ts:37-55 | Pruning leaves exactly the addresses with a live note |
| `CaptchaEscalation.RunStaysSmall` | apps/api/src/common/captcha-escalation.util.ts:57-69 | In every state both maps are within the cap, and the address-wide map names only addresses of the other |
| `CaptchaEscalation.PruneAllKeeps` | apps/api/src/common/captcha-escalation.util.ts:37-55 | Pruning never changes an answer from its time on |
| `CaptchaEscalation.AskedExactly` | apps/api/src/common/captcha-escalation.util.ts:37-47 | Asking about an address forgets exactly what has expired of it, and nothing of any other one |
| `CaptchaEscalation.EscalationState.NotePublicThrottle429` | apps/api/src/common/captcha-escalation.util.ts:114-146 | The method's maps are those of the function, and the history gains the note less what the cap drops |
| `CaptchaEscalation.EscalationState.IsCaptchaEscalated` | apps/api/src/common/captcha-escalation.util.ts:149-164 | The answer is read off the history, which asking does not change |
| `CaptchaEscalation.EscalationState.PruneAll` | apps/api/src/common/captcha-escalation.util.ts:49-55 | The two loops remove exactly what has expired |
| `CaptchaEscalation.EscalationState.EnforceCap` | apps/api/src/common/captcha-escalation.util.ts:57-69 | After pruning, the oldest addresses beyond the cap are dropped from both maps |
| `DiningDrift.KeyStringInjective` | apps/api/src/common/resource-dining-drift.util.ts:105-107 | Different buckets have different key texts, even when a shop id holds bars |
| `DiningDrift.SeatingTotalsFromRows` | apps/api/src/common/resource-dining-drift.util.ts:204-220 | The map holds exactly the positive seating totals of the eligible rows |
| `DiningDrift.DiningCountsFromRows` | apps/api/src/common/resource-dining-drift.util.ts:223-245 | The map holds exactly the positive counts of dining units |
| `DiningDrift.MergeInventoryBuckets` | apps/api/src/common/resource-dining-drift.util.ts:121-142 | One bucket for each key of either map, one-sided ones included, in the order of their key texts under any consistent comparison |
| `DiningDrift.MergeIsMerged` | apps/api/src/common/resource-dining-drift.util.ts:121-142 | Merging the maps of two row lists gives every counted key once, with both true totals |
| `DiningDrift.NoDriftIffAgreed` | apps/api/src/common/resource-dining-drift.util.ts:144-151 | The drift list is empty exactly when both sides agree on every key |
| `DiningDrift.DeltasAddUp` | apps/api/src/common/resource-dining-drift.util.ts:144-151 | The deltas add up to the difference of the grand totals |
| `DiningDrift.TallyIgnoresOrder` | apps/api/src/common/resource-dining-drift.util.ts:204-245 | No total depends on the order of the rows |
| `DiningDrift.TotalsAreSums` | apps/api/src/common/resource-dining-drift.util.ts:204-245 | A total is the sum over the rows of what each counts for: its tables when it is not custom and of that shop, floor, zone and positive capacity, or one unit, by its own capacity or else that of its table group |
| `DiningDrift.DetectResourceDiningDrift` | apps/api/src/common/resource-dining-drift.util.ts:251-316 | The report is empty exactly when all shops with a DINING unit agree on every bucket; each bucket on which they differ has its one row, each row is exact and the rows come in key order; shops compared are the shops with a DINING unit, buckets compared the keys either side counts, matched and drifted add up to them, and the samples are the first forty drifts |

## Left out

- Lone surrogates, `undefined`, `NaN`, `toJSON` and number formatting in canonical JSON: a number is its text, a string a sequence of Unicode scalar values.
- Lower-casing outside ASCII, and upper-casing to letters that are not ASCII; upper-casing is exact where its result has an ASCII letter.
- Time stamps (`updated_at`, `last_seen_at`, sync times), meta rows, and the texts of error messages.
- An `expectedVersion` that is not an integer, and cached versions that are not integers.
- The command payload hash is compared as the payload it stands for.
- The status and the error message of an HTTP request to the cloud: an answer is OK, a refusal with a code, or missing.
- Connectivity status, the scanner, customer display, cash drawer and kitchen tickets of the continuity engine: single-row writes.
- `Idempotency.AtMostOnce`: covers the safe runs only, because after any other step the code can run the function again, as the witness lemmas show; `Idempotency.SafeWithinTtl` says when a run is safe by its length.
- `Idempotency.OneAnswer`: the same; a blank key, which bypasses the receipt, is not modelled.
- `LiveSessions.OneLiveSessionPerResource`: assumes that pause and resume never target a finished session, that resource ids are trimmed texts, and that snapshots follow the cloud's rule, none of which the engine checks.
- `PrintContinuity.PrintingSurvives`: assumes the cloud does not offer again, with the same text, a job it recorded as succeeded; what an executor that throws has put on paper is unknown to code and model.
- `CommandReplay.ReplayOrderAndAgreement`: assumes syncs do not overlap, which the code does not enforce; that `markRetry` itself throws is a crash of the run.
- `VenueTime.InvertsWhatIsShown`: assumes offsets in whole seconds and at most two of them in reach; the second is needed (`VenueTime.ThirdOffsetCanBeMissed`, a zone that no IANA zone is like), and `VenueTime.ShownExactlyWhenSettled` is what is left without it; IANA data, `Intl` and Gregorian dates are outside the model, dates are day numbers.
- `VenueTime.ZoneDayHoldsItsKeysExactly`: changes are less than a day each and more than a day and twice the largest offset apart, as in zones with daylight saving time.
- `StockRaces.TotalIsConserved`: assumes line quantities do not change, that tracking is not switched, and that canceled lines are not made active again.
- `StockRaces.NoDoubleRestore`: quantities are natural numbers and lines are not made active again.
- `MoneySplit.SplitAddsUp`: exact rationals in place of decimal.js division to a fixed number of digits, and of its reading of strings and null.
- `DiningDrift.MergeInventoryBuckets`: the comparison is any total preorder of texts; what `localeCompare` prefers is left to it.
- `CaptchaEscalation.EscalatedExactly`: assumes clocks that do not go back and times after the epoch; mapping request paths to kinds is left out.
- HTTP servers, guards, user interfaces, Prisma and SQLite themselves, backups, signatures, nonces and encryption.
