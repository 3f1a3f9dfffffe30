# Verified models of the workcell host

This project models the parts of the workcell host that keep promises across many calls, threads and
restarts, and proves those promises over every run:

- **The remote operation ledger** (`ProgressLog`, `LedgerTypes`, `LedgerSteps`, `LedgerRuns`,
  `LedgerBoundary`, `LedgerRow`, `LedgerBare`, `Ledger`, `Execution`). A transition system of the ledger's
  fields together with the history no field holds, in which every step that gives something up carries the
  reason it may; an invariant every step keeps; theorems over runs; and a class whose methods are proved to
  take only such steps and to keep the byte account exact. `Execution` adds the tasks that run operations
  and the effects they cause.
- **Admission waiting** (`Wakeup`). Waiters that register, check under the lock and park, against
  reservations that are given up and only then notify.
- **The watch registry** (`WatchStream`, `WatchRegistry`). One subscription against everything ever appended
  to it, and the class that holds the subscriptions.
- **The publication journal** (`JournalSteps`, `JournalSafety`, `JournalRuns`, `JournalLockout`,
  `JournalStore`, `JournalEnvelope`). Memory, the directory as it is listed, and the set of values each name
  may hold after a crash are three separate things. A put is five steps - admit, create, write and sync,
  rename, directory sync - and a crash or a failure may follow each. Prepared objects, of files and of
  directories, execute against the journal concurrently. The store is a class whose disk operations are
  steps of a run.
- **Staging** (`Staging`, `StagingRuns`, `StagingArea`). Slots held by a registry and by requests, the file
  each upload fills, and the quota.
- **The code-graph fact table** (`Sorting`, `Merge`, `Sweep`, `CodeFacts`, `Batch`, `Cache`, `IngestModel`,
  `IngestFacts`, `Ingest`). Merging of captured definitions, attribution by a stack sweep over an array,
  batch extraction by workers under every schedule, the content-addressed cache as a class, and ingest cold
  and cached.
- **Two closed forms** (`ByteRange`, `Calendar`).

`Wrappers` and `Sums` hold what the others share.

How the model stands to the program:

- Clocks, fresh identifiers, operating-system failures and crashes are parameters or events. Identifiers and
  cursors made from UUIDs are assumed fresh; the content digest of the cache is assumed injective; an effect
  call is assumed truthful (success means done, cancellation and other errors mean not done, indeterminate
  means nothing); each operation kind is assumed to keep the promise its clean error codes make.
- Integers are unbounded except where the program's width decides the result: 64-bit byte ranges and day
  counts, 32-bit node and file ids, saturating subtraction in every counter.
- Map and deque memory is charged per element. A tombstone with the longest id is assumed no dearer than a
  bare record, which holds of the actual sizes.
- `generation` in a journal record numbers the reservation it descends from. The program does not store it;
  the model needs it to say which reservation's effect a record speaks of.

Findings about the code:

- `begin` adds two ids to the account without consulting the ceiling, so the ceiling alone is not an
  invariant: with the sizes the server itself reserves `LedgerHost.CeilingPassed` reaches a total above it,
  and `LedgerHost.Ledger.Begin` says exactly when a start does. The bound with those ids as slack always
  holds (`LedgerHost.Ledger.TotalIsBounded`). From there a `finish` may find nothing to evict and end above
  the ceiling, which the program asserts it never does (`LedgerHost.FinishAboveCeiling`);
  `LedgerHost.Ledger.Finish` says exactly when it ends within.
- The last resort of `enforce_ceiling` drops tombstones without noting them, so the reported boundary does
  not cover every forgotten preparation, although the field's own comment says it does
  (`LedgerBoundary.LastResortForgetsUnnoted`). A preparation is remembered exactly when the last resort did
  not take its own tombstone or the boundary has come to reach it anyway
  (`LedgerBoundary.RememberedExactlyWhen`).
- `entries.put` at the entry ceiling drops an entry without giving its weight back, so the cache's `bytes`
  overstates the retained weight. `Cache.StoredExactly` says by how much and when it does not;
  `Cache.OverstatedAccount` shows it for any two files in a cache with room for one entry.
- A watch poll whose byte limit is below the next event's length is answered current and empty, with the
  cursor it came with. Such a client never advances until retention passes it by
  (`WatchStream.StalledExactlyWhen`, `WatchStream.SmallPollsNeverAdvance`); a limit of one byte is a valid
  request.
- Two ordinary histories leave a store that `open` refuses: a crash between creating and writing a pending
  file (`JournalLockout.CrashMayLockOut`), and more than 256 reservations that fail at the directory sync
  (`JournalLockout.FailuresMayLockOut`).
- The directory envelope charges six characters for every byte of an id, but an identifier has no control
  characters and needs at most two, so 1036 bytes of the charge are never used
  (`JournalEnvelope.EnvelopeLeaves`).
- A definition comes out of `dedup` once exactly when the sort by name brings its captures together, which
  one name per name start grants and the code does not ensure (`Merge.UniqueExactlyWhenTogether`,
  `Merge.SplitNameComesOutTwice`).
- For spans that are apart or one within the other, the sweep's answer is the smallest enclosing span
  exactly when no shorter enclosing span with the same start precedes it (`Sweep.SmallestExactlyWhen`,
  `Sweep.SharedStartMisleads`).
- A range end beyond 64 bits is refused although any smaller end past the file is cut
  (`ByteRange.OverflowIsRefused`). A year below the 32-bit range comes out as the largest year, not the
  smallest (`Calendar.YearIsRight`).

## Model

| member | source | states |
|---|---|---|
| ProgressLog.AppendKeepsLog | src/remote_host.rs:1399-1441 | accepting an event keeps the log a suffix of all accepted events, with exact next sequence and gap flag |
| ProgressLog.DropKeepsLog | src/remote_host.rs:1575-1588 | dropping the oldest event keeps the log honest about its history and records the loss |
| ProgressLog.GapMeansLoss | src/remote_host.rs:1399-1441 | no gap is reported exactly when the retained sequences are 1 to next - 1 |
| ProgressLog.ReplayLosesNothing | src/remote_host.rs:437-456 | a poll after a cursor returns everything accepted after it exactly when no dropped event is newer; a cursor no older than the retained front is always such |
| LedgerSteps.StepKeepsInv | src/remote_host.rs:1105-1619 | every step of every ledger method keeps the invariant: record life cycle, one lease per running record, token conservation, admission limits, honest logs and tombstones |
| LedgerSteps.ReserveKeepsInv | src/remote_host.rs:1105-1131 | a reservation keeps counters equal to live tokens and the limits of 64 and 128 |
| LedgerSteps.CommitKeepsInv | src/remote_host.rs:1164-1186 | turning a reservation into a record conserves tokens and limits |
| LedgerSteps.BeginRunKeepsInv | src/remote_host.rs:1219-1239 | a start moves the prepared bytes to exactly one live lease |
| LedgerSteps.ForgetKeepsInv | src/remote_host.rs:1489-1512 | a forgotten record becomes a tombstone that names the same invocation |
| LedgerSteps.DropLeaseKeepsInv | src/remote_host.rs:938-953 | a lease is released only when its record no longer runs, and the sum of leases follows |
| LedgerRuns.RunInv | src/remote_host.rs:1105-1619 | the invariant holds in every state of every run |
| LedgerRuns.AtMostOneStart | src/remote_host.rs:1188-1239 | over every run a preparation id is started at most once |
| LedgerRuns.ReplyTellsThePast | src/remote_host.rs:1188-1217 | what each answer of `begin` implies about the preparation's whole history; the internal-error answer is unreachable |
| LedgerRuns.StartedIsBound | src/remote_host.rs:1188-1217 | after a start, and until the record is forgotten, the same invocation is answered Running until it is settled and exactly its settlement from then on, and every other invocation is refused as a mismatch; afterwards nothing but forgotten, not found or a refusal |
| LedgerRuns.TerminalAnswersAgree | src/remote_host.rs:1188-1217 | terminal answers for one id never differ, and nothing runs after one |
| LedgerRuns.PrunedBeginNeverExpires | src/remote_host.rs:1188-1217 | having pruned, `begin` never answers Expired or Internal |
| LedgerRuns.NoLeaseNothingRuns | src/remote_host.rs:938-953 | with no live lease nothing is running and the running bytes are zero |
| LedgerRuns.GivenUpInOrder | src/remote_host.rs:1575-1619 | the reason each step of a run carries, written out: nothing is evicted within the ceiling; over it progress goes from the oldest record, then the longest settled record, then the outcome being recorded, then tombstones unnoted, each only when nothing earlier in that order is left. What this says of the code is that the methods of `LedgerHost.Ledger` are proved to take only steps with such a reason |
| LedgerRuns.ProgressOverRuns | src/remote_host.rs:1399-1441 | in every state of every run, retained progress is an increasing suffix below next, and the gap flag is exact |
| LedgerBoundary.RememberedExactlyWhen | src/remote_host.rs:1068-1073 | in every run a forgotten preparation has its tombstone or lies within the boundary exactly when no unnoted drop took its own tombstone since, or the boundary has reached the instant it was forgotten |
| LedgerBoundary.LostOnlyByLastResort | src/remote_host.rs:1615-1617 | a preparation no longer remembered was lost in a step taken over the ceiling, with no progress and no other settled record left and the record being finished already stripped |
| LedgerBoundary.BoundaryCoversForgotten | src/remote_host.rs:1068-1073 | in particular, while no tombstone is dropped unnoted every forgotten preparation has its tombstone or was forgotten at or before the boundary |
| LedgerBoundary.SurvivorsAreNoOlder | src/remote_host.rs:1068-1073 | with a monotone wall clock every surviving tombstone is from the boundary or later |
| LedgerBoundary.LastResortForgetsUnnoted | src/remote_host.rs:1615-1617 | a run, with the server's own reservation sizes, in which the last resort drops a tombstone that neither tombstones nor boundary remember |
| LedgerHost.Earliest | src/remote_host.rs:1576-1581 | the least entry of a map, or nothing exactly when it is empty |
| LedgerHost.CountBytes | src/remote_host.rs:1550-1573 | the recomputed account is the sum of all record and tombstone charges |
| LedgerHost.CountPrepared | src/remote_host.rs:1105-1112 | the number of prepared records |
| LedgerHost.KeepAfter | src/remote_host.rs:437-456 | the events a cursor has not seen, in order |
| LedgerBare.EvictionKeepsBare | src/remote_host.rs:1575-1613 | whatever progress and settled records are evicted, what cannot be - unsettled records without progress, and the protected one stripped - stays the same |
| LedgerBare.BareExactly | src/remote_host.rs:1550-1613 | with nothing else left to evict, the records are charged exactly that remainder and the protected outcome |
| LedgerHost.Ledger.Reserve | src/remote_host.rs:1105-1131 | a granted reservation leaves the total within the ceiling; one is refused only because a count or the ceiling stands in its way, and then no token changes |
| LedgerHost.Ledger.RollbackReservation | src/remote_host.rs:1133-1136 | the counters fall by exactly the token's share, never saturating |
| LedgerHost.Ledger.ResizeReservation | src/remote_host.rs:1138-1162 | a granted resize replaces the token's amount within the ceiling; it is refused only when the total would pass it |
| LedgerHost.Ledger.InsertReserved | src/remote_host.rs:1164-1186 | the reservation is given back either way; the record stays within the ceiling, or is left out because the count, the total, or the total with it would not allow it |
| LedgerHost.Ledger.Begin | src/remote_host.rs:1188-1239 | the answer is the one the pruned ledger gives, never Expired or Internal; a start ends within the ceiling exactly when the pruned total plus two ids does |
| LedgerHost.Ledger.StartRecord | src/remote_host.rs:1219-1239 | the total grows by exactly twice the invocation id, whatever the ceiling |
| LedgerHost.Ledger.Finish | src/remote_host.rs:1241-1270 | a running record keeps its outcome exactly when that fits beside what cannot be evicted and the tombstones left by then, and is downgraded to Indeterminate otherwise; the total ends within the ceiling exactly when what cannot be evicted does; any other call changes nothing |
| LedgerHost.Ledger.FinishIndeterminate | src/remote_host.rs:1272-1292 | a running record becomes Indeterminate and keeps its lease accounted |
| LedgerHost.Ledger.DropLease | src/remote_host.rs:938-953 | the lease's bytes are given back once, and its record no longer runs |
| LedgerHost.Ledger.CaptureProgress | src/remote_host.rs:1399-1441 | an accepted event extends the history by itself; only logs change; anything else is a no-op |
| LedgerHost.Ledger.TrimLog | src/remote_host.rs:1431-1436 | the log becomes its longest recent end that fits its own limits |
| LedgerHost.Ledger.Prune | src/remote_host.rs:1443-1478 | exactly the expired records go, no token or lease with them; every tombstone there before is still there or within the boundary, which never goes back; in a row left in the order of the clock no lapsed tombstone remains; the total ends within the ceiling or no tombstone is left; with nothing expired, lapsed or over the ceiling nothing changes at all |
| LedgerHost.Ledger.DropOldTombstones | src/remote_host.rs:1459-1477 | a recent end of the tombstones is left, every one dropped is noted in the boundary, and in a row left in the order of the clock none of those left has lapsed |
| LedgerRow.DroppedKeepsRow | src/remote_host.rs:1459-1488 | dropping from the front with every eviction noted leaves each tombstone in the row or within the boundary, and the boundary no earlier |
| LedgerRow.PushKeepsRow | src/remote_host.rs:1489-1512 | so does forgetting one more record, also in a full row |
| LedgerHost.Ledger.Forget | src/remote_host.rs:1489-1512 | the record leaves; its tombstone, with the record's invocation and log metadata, is the newest; a full row gives up its oldest and notes it; the account apart from ids does not grow |
| LedgerHost.Ledger.EvictProgress | src/remote_host.rs:1590-1593 | progress is evicted until the total fits or none is left, and nothing but logs changes |
| LedgerHost.Ledger.EnforceCeiling | src/remote_host.rs:1590-1619 | the total ends within the ceiling exactly when what cannot be evicted does, and otherwise is exactly that; the outcome is kept exactly when it fits beside that and the tombstones left by then, which then all stay; no unsettled record is dropped; nothing at all happens when already within the ceiling |
| LedgerHost.Ledger.TotalIsBounded | src/remote_host.rs:1540-1573 | the total never exceeds the ceiling by more than two longest ids for each of 128 records |
| LedgerHost.CeilingPassed | src/remote_host.rs:1219-1239 | on any platform whose sizes leave room for the large reservation, a small preparation, the large reservation of another and the start of the first end above the ceiling by two ids |
| LedgerHost.FinishAboveCeiling | src/remote_host.rs:1618-1619 | from there a finish ends above the ceiling by the same two ids, against the assertion that closes the eviction |
| LedgerHost.Ledger.StatusAfter | src/remote_host.rs:437-456 | the status with the progress after the cursor; for a retained record that is everything it ever accepted after the cursor exactly when no dropped event is newer |
| Execution.EffectsPossibleUnlessClean | src/server.rs:2726-2758 | effects are declared impossible exactly for read-only kinds and the clean codes of each kind |
| Execution.OutcomeIsHonest | src/server.rs:1360-1399 | however a run returns, an outcome that claims no effect is true |
| Execution.RunIsHonest | src/server.rs:1284-1399 | every interleaving of starts, effects, results, losses and ledger steps keeps every report honest |
| Execution.CleanReportsAreTrue | src/server.rs:2790-2797 | once a record reports Failed or Cancelled, its effect has not happened and never will |
| Execution.TombstonesClaimNothing | src/remote_host.rs:1489-1512 | no tombstone ever claims a clean failure |
| Wakeup.StepKeepsInv | src/remote_host.rs:982-1003 | releasing, notifying, registering and parking in any order keep a sleeper's blockers in place |
| Wakeup.NoLostWakeup | src/remote_host.rs:289-333 | a parked unnotified waiter was turned away for reservations none of which has finished without notifying |
| Wakeup.CountIsExact | src/remote_host.rs:1133-1136 | the counter the check reads is zero exactly when no reservation is outstanding |
| WatchStream.TrimKeepsNewest | src/remote_host.rs:685-693 | retention drops only from the front and never the newest event |
| WatchStream.AppendExtendsLog | src/remote_host.rs:655-696 | a batch extends everything ever appended by exactly its events; no cursor changes meaning |
| WatchStream.ResyncExactlyWhenLost | src/remote_host.rs:698-732 | a poll is told to resynchronise exactly when its cursor is unknown or behind retention |
| WatchStream.PollIsGapless | src/remote_host.rs:733-761 | a poll returns exactly the events between its cursor and the one it hands back |
| WatchStream.PollIsLongest | src/remote_host.rs:733-761 | the cursor handed back is the furthest position up to which everything fits both limits |
| WatchStream.StalledExactlyWhen | src/remote_host.rs:733-761 | a current reply is without events exactly when the cursor is at the end of the log, no event is asked for, or the next one is longer than the byte limit; the cursor is then the one sent |
| WatchStream.StreamIsGapless | src/remote_host.rs:698-761 | along any chain of polls the concatenated events are exactly the first ones ever appended |
| WatchStream.SmallPollsNeverAdvance | src/remote_host.rs:733-761 | over any chain of polls whose limits never admit the next event, whatever arrives in between, the client keeps its cursor and receives nothing |
| WatchHost.AppendBatch | src/remote_host.rs:655-696 | the loop computes the batch's specification and keeps the subscription's invariant even when it stops early |
| WatchHost.CollectWindow | src/remote_host.rs:733-749 | the loop collects the longest run after the cursor that fits the request |
| WatchHost.DropExcess | src/remote_host.rs:814-818 | exactly the newest 32 tombstones remain, or all when there are no more |
| WatchHost.DropLapsed | src/remote_host.rs:789-798 | tombstones leave from the front, each of them lapsed, up to the first with time left |
| WatchHost.WatchRegistry.Open | src/remote_host.rs:479-529 | a fresh subscription with an empty log, or a refusal exactly at the limit of 8 after expiry |
| WatchHost.WatchRegistry.Expire | src/remote_host.rs:780-799 | exactly the subscriptions past their time end, and the oldest tombstone left has time left |
| WatchHost.WatchRegistry.Remove | src/remote_host.rs:801-819 | the subscription ends; its tombstone, the newest of at most 32, remembers the reason and the binding |
| WatchHost.WatchRegistry.FinishPoll | src/remote_host.rs:565-598 | the reply is the specified one for the state after the batch, gapless against everything ever appended; a resync ends the subscription |
| JournalSafety.StepKeepsInv | src/transfer/journal.rs:187-353 | every step, crash and failure keeps every present and possible record value honest and fenced |
| JournalSafety.CrashKeepsInv | src/transfer/journal.rs:290-328 | a crash at any point leaves only values that were already honest |
| JournalSafety.PutSyncKeepsInv | src/transfer/journal.rs:309-328 | a finished put leaves its record as the only value of its id and entitles its caller to no more than that |
| JournalSafety.UnlinkKeepsInv | src/transfer/journal.rs:330-353 | pruning a settled record, durable or not yet, keeps all values honest |
| JournalRuns.EveryValueIsHonest | src/transfer/reviewed.rs:597-667 | in every state of every run, for every value a crash could leave: Completed means the effect happened, Cancelled and Failed that it did not, Prepared that it was never admitted |
| JournalRuns.CleanReportIsFinal | src/transfer/reviewed.rs:542-571 | a reported Cancelled or Failed stays true through every later crash, reopening and retry |
| JournalRuns.CompletedStaysTrue | src/transfer/reviewed.rs:654-667 | a Completed value speaks of an effect that happened, for good |
| JournalRuns.OpenSettlesEverything | src/transfer/journal.rs:195-206 | after open no record is Prepared or Publishing |
| JournalRuns.StartsOnceUntilPruned | src/transfer/journal.rs:237-284 | between two starts for one id, of either kind, the first one's settled and day-old record was pruned |
| JournalRuns.IndeterminateSticks | src/transfer/journal.rs:195-204 | an Indeterminate record written with no executor left is stuck |
| JournalRuns.StuckForever | src/transfer/journal.rs:330-353 | a stuck id is never pruned and never reserved again, in the rest of any run |
| JournalLockout.CrashMayLockOut | src/transfer/journal.rs:174-175 | a run after which open refuses the store, because a pending file is half written |
| JournalLockout.FailuresMayLockOut | src/transfer/journal.rs:187-189 | more than 256 reservations that fail only at the directory sync leave a store of whole files that open refuses |
| JournalHost.JournalStore.Put | src/transfer/journal.rs:290-328 | memory changes exactly when every disk operation succeeded, and then the record is the only value a crash can leave |
| JournalHost.JournalStore.Prune | src/transfer/journal.rs:330-353 | exactly the settled records past retention go, durably, when no operation fails; a part of them when one does |
| JournalHost.JournalStore.Reserve | src/transfer/journal.rs:237-284 | after pruning, the exact answer: replay for an id with a record, limit at the ceiling or an envelope too large, otherwise a durable Prepared record and one object |
| JournalHost.JournalStore.Open | src/transfer/journal.rs:128-207 | a store that is not whole is refused untouched; a whole one opens when nothing fails, every record its file's with interruptions made plain, none Prepared or Publishing |
| JournalHost.JournalStore.Status | src/transfer/reviewed.rs:542-571 | an expired preparation is reported Cancelled only when that record is the only one a crash can leave; any other status changes neither memory nor disk |
| JournalHost.JournalStore.Fence | src/transfer/reviewed.rs:610-632 | the effect is entitled exactly when Publishing is the only durable value |
| JournalHost.JournalStore.DropObject | src/transfer/reviewed.rs:672-690 | Prepared becomes Cancelled, Publishing becomes Indeterminate, anything else stays |
| JournalHost.JournalStore.Execute | src/transfer/reviewed.rs:597-670 | admitted exactly from a live Prepared record when the fence goes through, on a reservation never started before, with Publishing the only durable record before the effect happens; answered exactly when the result is the only durable record; otherwise left Indeterminate |
| JournalHost.JournalStore.Conclude | src/transfer/directory.rs:163-186 | a directory success whose record cannot carry a receipt, or a result that cannot be written, is not answered and the record is durably left Indeterminate |
| JournalEnvelope.AdmittedAlwaysFits | src/transfer/journal.rs:267-283 | every record an admitted directory reservation can become fits one journal file |
| JournalEnvelope.EnvelopeLeaves | src/transfer/journal.rs:267-283 | no record with real identifiers uses the last 1036 bytes of the charge |
| JournalEnvelope.EnvelopeLeavesNoMore | src/transfer/journal.rs:267-283 | some record with real identifiers uses all the rest |
| Staging.StepKeepsInv | src/transfer/reviewed.rs:252-350 | every step of every request keeps references, contents, exclusivity and the account |
| StagingRuns.HandedOverIntact | src/transfer/reviewed.rs:468-527 | a file in a publication's hands has exactly the reviewed size and digest |
| StagingRuns.UploadedOnce | src/transfer/reviewed_http.rs:115-163 | a slot is uploaded to at most once, ever |
| StagingRuns.ClaimedOnce | src/transfer/reviewed.rs:508-516 | a slot is claimed by at most one preparation, ever |
| StagingRuns.NeverShared | src/transfer/reviewed.rs:508-526 | two publications never hold the same file |
| StagingRuns.QuotaHolds | src/transfer/reviewed.rs:134-141 | count and bytes are those of the slots alive and being admitted, within the quota, and large enough to give any slot back |
| StagingHost.StagingArea.Stage | src/transfer/reviewed.rs:230-284 | admitted exactly within file limit, count and bytes, and then charged and registered |
| StagingHost.StagingArea.Upload | src/transfer/reviewed_http.rs:115-163 | a body within the declared size that arrives whole is kept with its digest; one longer, broken off or overtaken by a release spoils the slot; one released as it ends leaves it unfinished; a slot released or not empty is left alone |
| StagingHost.StagingArea.SealSlot | src/transfer/reviewed.rs:298-332 | sealed exactly when the uploaded digest and size match, and then the file's content has them; a mismatch spoils the slot |
| StagingHost.StagingArea.ClaimSlot | src/transfer/reviewed.rs:468-527 | a file is handed over exactly when sealed and requested with its digest and size, and then matches both |
| StagingHost.StagingArea.FreeSlot | src/transfer/reviewed.rs:134-141 | the charge is given back and neither counter goes below zero |
| StagingHost.StagingArea.ReleaseSlot | src/transfer/reviewed.rs:334-350 | the slot leaves the registry and is cancelled for whoever still holds it |
| Sweep.Naive | crates/code-graph/src/extract.rs:337-372 | the reference answer: the last span whose half-open range holds the byte, and nothing exactly when none does |
| Sweep.Attribute | crates/code-graph/src/extract.rs:343-372 | in place, the references become exactly those with their naive answers; without definitions nothing changes |
| Sweep.RetainOpen | crates/code-graph/src/extract.rs:358-360 | the stack keeps exactly the spans that end past the byte, in order |
| Sweep.FindFromTop | crates/code-graph/src/extract.rs:361-371 | the topmost stacked span that contains the offset, or none |
| Sweep.InnermostIsUnique | crates/code-graph/src/extract.rs:337-372 | for laminar spans with distinct starts the answer is the unique smallest enclosing span |
| Sweep.SmallestExactlyWhen | crates/code-graph/src/extract.rs:337-372 | for laminar spans the answer is smallest exactly when no shorter enclosing span with the same start precedes it |
| Sweep.SharedStartMisleads | crates/code-graph/src/extract.rs:337-372 | two spans with one start, where the longer gets the shorter one's references |
| Merge.MergeDefinitions | crates/code-graph/src/extract.rs:294-335 | the in-place merge computes the runs of the sorted captures, sorted by span |
| Merge.MergedInOrder | crates/code-graph/src/extract.rs:333-334 | whatever was captured, the merged definitions are in id order and their spans sorted by start |
| Merge.MergedNames | crates/code-graph/src/extract.rs:303-331 | exactly the captured definitions are named |
| Merge.UniqueExactlyWhenTogether | crates/code-graph/src/extract.rs:295-331 | each definition comes out once exactly when the sort by name brings its captures together |
| Merge.OneNamePerStartIsTogether | crates/code-graph/src/extract.rs:295-331 | one name per name start is enough for that |
| Merge.SplitNameComesOutTwice | crates/code-graph/src/extract.rs:295-331 | three captures of which one definition comes out twice |
| Merge.EveryCaptureIsKept | crates/code-graph/src/extract.rs:306-328 | every capture is represented by a definition at least as wide, as high in kind and as rich in parameters |
| Merge.NothingIsInvented | crates/code-graph/src/extract.rs:306-328 | span, lines and measures of every merged definition come from one capture of it |
| CodeFacts.ExtractFrom | crates/code-graph/src/extract.rs:275-282 | merging and then attributing, as specified |
| CodeFacts.ExtractedInOrder | crates/code-graph/src/extract.rs:275-282 | every extraction has its definitions in id order |
| Batch.StepKeepsInv | crates/code-graph/src/extract.rs:127-150 | claims and results of any worker in any order keep each worker's holdings equal to what it claimed |
| Batch.EachClaimedOnce | crates/code-graph/src/extract.rs:127-150 | under every interleaving each position is in exactly one worker's results, once |
| Batch.Collect | crates/code-graph/src/extract.rs:152-157 | the scattered results are the sequential map, position by position |
| Batch.FinishedCovers | crates/code-graph/src/extract.rs:127-150 | after any finished run, however interleaved, the collected entries cover every position truthfully |
| Batch.RunWorkers | crates/code-graph/src/extract.rs:129-141 | workers acting in the order of any schedule, and then to the end, make a finished run |
| Batch.ExtractBatch | crates/code-graph/src/extract.rs:115-158 | the batch equals the sequential map for every worker count and every schedule of the workers |
| Cache.ExtractedIsBacked | crates/code-graph/src/cache.rs:194-209 | what is stored serves the content it came from and no other |
| Cache.FactsCache.Facts | crates/code-graph/src/cache.rs:126-146 | exactly what extraction gives, a hit exactly when the path retains that content, and the exact contents afterwards |
| Cache.FactsCache.FactsBatch | crates/code-graph/src/cache.rs:152-191 | position by position what plain extraction gives, and the same contents afterwards for every worker count and schedule |
| Cache.FactsCache.Store | crates/code-graph/src/cache.rs:194-209 | the contents become the specified ones: both ceilings hold, the overstatement grows by the oldest entry exactly for a new path at the entry ceiling and is forgotten exactly when it passes the byte ceiling, and the new entry is retained exactly when it fits beside it |
| Cache.FactsCache.EvictToBytes | crates/code-graph/src/cache.rs:215-226 | the loop computes the specified eviction |
| Cache.VacatedLoses | crates/code-graph/src/cache.rs:196-206 | making room overstates the account by the oldest entry exactly at a full cache and a new path |
| Cache.EvictedExactly | crates/code-graph/src/cache.rs:215-225 | eviction keeps the longest recent end that fits beside the overstatement, which stays unless it alone passes the ceiling |
| Cache.StoredExactly | crates/code-graph/src/cache.rs:194-225 | after a store the account is the retained weight exactly when nothing is overstated or the overstatement passed the ceiling |
| Cache.OverstatedAccount | crates/code-graph/src/cache.rs:194-226 | for any extraction and two paths in turn through a cache with room for one entry, the account is the weight of both; it is right exactly when the first file has neither definition nor reference |
| IngestModel.DedupIsDistinct | crates/code-graph/src/ingest.rs:131-132 | sorted inputs keep one input per path |
| IngestFacts.EnclosingIsFaithful | crates/code-graph/src/ingest.rs:237-266 | for every truncation point the p-th link is the p-th reference in file order; its id is set exactly when its definition was kept at a position that is an id, and names that raw definition in that file |
| IngestFacts.RunIsFile | crates/code-graph/src/ingest.rs:237-244 | counting a file's run counts what the file kept, for files without definitions and past the ceiling too |
| IngestFacts.NodesAreDense | crates/code-graph/src/ingest.rs:212-235 | node ids are 0, 1, 2 and so on exactly as long as they fit 32 bits |
| IngestFacts.NodesAreOrdered | crates/code-graph/src/ingest.rs:212-235 | in every table ids follow file, span start, name start, from the sort that ends the merge |
| IngestFacts.OrderDoesNotMatter | crates/code-graph/src/ingest.rs:86-138 | distinct paths offered in any order give the same table |
| IngestFacts.OneFilePerPath | crates/code-graph/src/ingest.rs:131-138 | no path gets two file ids |
| IngestFacts.FirstOfferedWins | crates/code-graph/src/ingest.rs:131-132 | a path offered twice gets the content offered first |
| Ingest.Arrange | crates/code-graph/src/ingest.rs:131-138 | sorting, deduplication and the file ceiling, as specified |
| Ingest.AdmitAll | crates/code-graph/src/ingest.rs:140-164 | admission per input and the batch of the admitted, in order |
| Ingest.PairUp | crates/code-graph/src/ingest.rs:165-210 | pairing by position alone gives each input its own extraction |
| Ingest.AssignNodes | crates/code-graph/src/ingest.rs:212-235 | numbering up to the ceiling, with each file's base |
| Ingest.LinkAll | crates/code-graph/src/ingest.rs:237-266 | attribution of every reference up to the ceiling |
| Ingest.IngestCold | crates/code-graph/src/ingest.rs:91-99 | cold ingest is the specified table, for every worker count and schedule |
| Ingest.IngestCached | crates/code-graph/src/ingest.rs:107-115 | ingest through a cache in any state is the same table, and leaves the same contents under every schedule |
| Ingest.IngestSession | crates/code-graph/src/ingest.rs:101-115 | over any sequence of calls on one cache every table equals the cold one |
| ByteRange.AcceptedIsInside | src/transfer/reviewed_http.rs:217-251 | an accepted range is a non-empty window inside the file |
| ByteRange.AcceptsExactly | src/transfer/reviewed_http.rs:310-334 | accepted exactly the three written forms, each with the window it asks for |
| ByteRange.FromToRoundTrips | src/transfer/reviewed_http.rs:310-334 | a printed range from s to e comes back as that window, cut at the end of the file |
| ByteRange.FromRoundTrips | src/transfer/reviewed_http.rs:327-333 | a printed open range comes back as everything from s |
| ByteRange.SuffixRoundTrips | src/transfer/reviewed_http.rs:323-326 | a printed suffix comes back as the last n bytes |
| ByteRange.OverflowIsRefused | src/transfer/reviewed_http.rs:327-333 | an end past 64 bits is refused |
| Calendar.FirstDayClosed | src/server.rs:3626-3643 | the year-by-year calendar has the leap-day closed form, before 1970 too |
| Calendar.YearIsUnique | src/server.rs:3626-3643 | a day belongs to one year only |
| Calendar.EveryDayHasAYear | src/server.rs:3626-3643 | every day belongs to some year |
| Calendar.YearIsRight | src/server.rs:3626-3643 | for every 64-bit day count the result is the year that holds the day, or the largest 32-bit year when that does not fit |

## Left out

- Filesystem calls, permissions, locking of the journal directory and record encoding: only the order of
  durable operations, their failures and what a crash may leave are modelled.
- A journal record's working directory and the binding checks of status calls: finite comparisons beside the
  state machine.
- JournalHost.JournalStore.Execute: one thread's own path; other threads acting between its steps are covered
  by the transition system of `JournalSteps`, not by the method.
- Cancellation signalling, task spawning and monitors: a cancelled or aborted run is an event.
- Watch polling locks, the expiry task and closing a subscription: closing is `Remove` with another reason.
- Staging downloads and the release request's binding check: easy members.
- The permits that bound concurrent transfers and waiters: counting semaphores of the runtime.
- Parsing, queries, metrics, documentation and test-scope detection: what is captured in a source is an
  uninterpreted function of it.
- Line counts and file extensions in the fact table.
- IngestFacts.EnclosingIsFaithful: assumes at most 2^32 files, beyond which file ids saturate and stop being
  distinct; definitions may be any number.
- A panic inside an extraction worker: it is resumed by the caller and yields no result.
- HTTP, request routing, descriptors and error rendering.
