# Verified models of the server's protocols

A bot workspace keeps promises that no single function makes: a clock schedule visits every
date once, an old desktop grant never comes back to life, a queued wait settles once, a
delegated result is delivered once, a button on a phone decides once. This project models the
code behind those promises and proves them, for every input, every run or every reachable
state. `dafny verify dfyconfig.toml` checks it.

| file | models |
|---|---|
| `Timezone.dfy` | wall clocks to instants, the next run of a daily or weekday schedule |
| `BindingGenerations.dfy` | workspace bindings and their authorization generations (schema version 13) |
| `RunLedger.dfy` | delegated runs, their deliveries and claims (schema version 23) |
| `LedgerStatements.dfy` | the statements that write them: when each commits, and the life cycles they lead through |
| `Migrations.dfy` | the migration runner, with crashes between transactions |
| `Leases.dfy` | the first-come-first-served lease on a machine, with timeouts and aborts |
| `ChannelConcurrency.dfy` | the per-channel semaphore whose woken waiters check again |
| `DiscordProtocol.dfy` | splitting long texts, the bounded memory of seen ids |
| `CanonicalJson.dfy` | the canonical JSON a checksum is taken of, with a parser that inverts it |
| `ResponseOptions.dfy` | hiding the option trailer of a reply, whole and streamed |
| `Memory.dfy` | notes files: user part, marker, distilled part |
| `TelegramApprovals.dfy` | permission approvals answered by button, by desktop, or by expiring |
| `AgentTasks.dfy` | the queue of tasks one bot assigns another |
| `Delegations.dfy` | queued hand-offs, drained or dropped when the turn ends |
| `ConnectorIdentity.dfy` | distinct names for the connected accounts of one app |
| `Sessions.dfy` | sign-in sessions: issued, bounded per user, revoked |
| `JsText.dfy`, `Options.dfy`, `Sets.dfy` | JavaScript strings as UTF-16 code units; optional values; sizes of sets |

Where the program changes state, a class carries the program's own fields and each method is
proved to take the model's step; the theorems are then about runs of steps. Protocol state
between two `await`s, timers and promise resumptions are separate steps, free to interleave.

These are the places where a promise of a comment or a name is not what the code does. Each
has a lemma with the exact condition, or one with an instance, or both:

- A wall time repeated by a fall-back of other than 30 or 60 minutes runs at its later reading,
  provided that time, read as UTC, is not before the change
  (`Timezone.EarliestUnlessUnprobed`, `Timezone.TwoHourFallBackRunsLate`).
- A zone that skips a whole day gives two dates one instant, and the later one is not visited
  (`Timezone.SharedInstant`, `Timezone.VisitedUnlessBridged`, `Timezone.SkippedDateSharesInstant`).
- Releasing a lease twice is not idempotent for an owner that waits twice
  (`Leases.ReleaseIdempotent`, `Leases.DoubleWaitInheritsFromItself`).
- A spent generation can come back exactly after a statement that gives a deleted user's id out
  again or hands the user's generation row to another user; no trigger forbids the latter
  (`BindingGenerations.RevivesExactlyWhenDisturbed`, `BindingGenerations.ReusedUserIdRevives`,
  `BindingGenerations.RekeyedGenerationRevives`).
- A run can be completed without a terminal outcome, and then never gets one: with a NULL outcome
  the table's CHECK is NULL, which SQLite accepts (`RunLedger.OutcomeAsSealed`,
  `RunLedger.SealedWithoutOutcome`, `RunLedger.CompletedWithoutOutcome`).
- A U+0130 before the option trailer makes part of the trailer show
  (`ResponseOptions.LeaksExactlyAfterDottedI`, `ResponseOptions.DottedILeaks`).
- A note or a user part that holds the marker is cut at it (`Memory.SplitOfJoin`,
  `Memory.NoteAppended`); a full workspace file drops new notes (`Memory.WorkspaceKeepsNote`).
- One request can be answered twice exactly after a send failure is reported of a record that was
  answered all the same (`TelegramApprovals.RepeatableExactlyWhenDropped`,
  `TelegramApprovals.FailedSendAnsweredTwice`).
- Draining two hand-offs to one bot re-opens the superseded task
  (`AgentTasks.PatchKeepsOneOpen`, `Delegations.DrainReopensSuperseded`,
  `Delegations.DrainRunsSuperseded`).
- A blocked patch without owner and next action is stored as stale
  (`AgentTasks.BlockedNeedsStructure`, `Delegations.DrainSettles`).
- A session cannot be revoked by a clock that reads earlier than its creation
  (`Sessions.RevokeNeedsClock`).

## Model

| member | source | states |
|---|---|---|
| Timezone.ZonedEpoch | server/timezone.ts:73-96 | For every zone whose changes are over 48 hours apart: the guesses, the two probes and the binary search end at the least instant whose wall clock is at or past the requested time, the later reading only for a repeat the probes cannot see |
| Timezone.ResolvedShows | server/timezone.ts:62-96 | The answer's wall clock shows the date, the hour and the minute asked for, on the minute, exactly unless a change skips that time |
| Timezone.FirstAtOrPast | server/timezone.ts:88-95 | The search keeps wall(lo) < desired <= wall(hi) and ends at a millisecond where the wall clock steps over the requested time |
| Timezone.Guesses | server/timezone.ts:74-76 | In milliseconds the guesses and probes are the whole seconds the offset table gives |
| Timezone.Twin | server/timezone.ts:77-82 | A probe that reads the wall time again has found the earlier of its two readings |
| Timezone.NoTwin | server/timezone.ts:77-83 | When neither probe hits, the guess is already the answer |
| Timezone.GapStraddled | server/timezone.ts:85-89 | When the guess misses, the wall time is skipped and the two guesses lie on either side of the change |
| Timezone.GapEnd | server/timezone.ts:70-95 | Where the search ends is the first instant after the gap |
| Timezone.EarliestUnlessUnprobed | server/timezone.ts:4-6 | The header's promise of the earlier reading is kept exactly outside repeats that neither probe reaches; there an earlier reading exists |
| Timezone.ExactOrAfterGap | server/timezone.ts:70-72 | The answer reads the requested time exactly unless a change skips it, and then it is the instant of the change |
| Timezone.EarliestExists | server/timezone.ts:70-96 | Every wall time has a least instant at or past it, within the largest offset |
| Timezone.EarliestUnique | server/timezone.ts:70-96 | There is only one least instant, so the specification determines the answer |
| Timezone.TwoHourFallBackRunsLate | server/timezone.ts:78-82 | A two-hour fall-back: 01:30 runs two hours after its first reading |
| Timezone.ZonedNextClockRun | server/timezone.ts:100-113 | The nine-day loop always finds a run, strictly after `from`, on the first eligible date from the one `from` falls on whose search ends after `from`, on no Saturday or Sunday if only weekdays count; every date passed over is such a day or has run by `from`; where every fall-back is probed that is the least such date of all |
| Timezone.WeekendsAreLeftOut | server/timezone.ts:107-108 | Told from 2024-01-06, a Saturday: a weekday schedule runs on exactly the other five days of each week |
| Timezone.ThreeDaysOn | server/timezone.ts:103-112 | Three dates on, no reading can be past: why the loop never throws |
| Timezone.EarlierDatesPast | server/timezone.ts:102-110 | Dates before the one `from` falls on are over, so starting there skips nothing |
| Timezone.FiresMonotone | server/timezone.ts:100-113 | Later dates never run earlier |
| Timezone.SharedInstant | server/timezone.ts:85-95 | Two dates share an instant exactly when one forward jump skips from the first wall time to the second |
| Timezone.ResolvedOrder | server/timezone.ts:73-96 | In any zone a later wall time never resolves earlier, late readings included, and to the same instant exactly when one spring-forward skips from the first to the second |
| Timezone.SkippedDateSharesInstant | server/timezone.ts:85-95 | A skipped calendar day: a midnight schedule has two dates at one instant |
| Timezone.NextAfterFiring | server/timezone.ts:98-113 | Asked at the instant a date ran, in any zone, the code's search answers the next eligible date exactly when no spring-forward skips from the one wall time to the other |
| Timezone.RunVisitsEveryInstant | server/timezone.ts:98-113 | In any zone, iterating the code's search goes through dates and instants in order, each once, and leaves out no eligible date's instant; the dates before its first are over by `from`, but for a late reading of a date before the one `from` falls on |
| Timezone.VisitedUnlessBridged | server/timezone.ts:98-113 | In any zone, of two successive eligible dates the later one is visited exactly when no spring-forward skips from the first wall time up to its own |
| Timezone.RunVisitsEveryDate | server/timezone.ts:98-113 | In any zone, iterating the code's search visits the eligible dates, all of them and no others, exactly when no spring-forward skips from one of them to the next |
| BindingGenerations.RunKeepsValid | server/db/migrations.ts:425-446 | Under every sequence of statements: bindings and generations belong to users, every row is as its CHECKs demand, no machine is bound twice |
| BindingGenerations.RunKeepsAnchored | server/db/migrations.ts:454-495 | As long as no statement disturbs the user's counter, a binding's generation is never ahead of it |
| BindingGenerations.RunKeepsSpent | server/db/migrations.ts:454-477 | As long as no statement disturbs the user's counter, a generation it has passed is never carried again |
| BindingGenerations.RunHoldsOrSpends | server/db/migrations.ts:466-510 | As long as no statement disturbs the user's counter, a held generation stays with its machine until it is spent |
| BindingGenerations.OneMachinePerGeneration | server/db/migrations.ts:416-420 | As long as no statement disturbs the user's counter, one (user, generation) pair names at most one machine |
| BindingGenerations.GrantNeverRevives | server/repositories/desktop-access-grants.ts:153-172 | A grant whose binding stopped being current is not honoured again, not after A to B to A, not after delete and re-create, as long as no statement disturbs the user's counter |
| BindingGenerations.DroppedGrantStaysDropped | server/repositories/desktop-access-grants.ts:155-163 | A grant that is not current, whose generation the counter has reached and is either spent or still held by its machine, stays so as long as no statement disturbs the user's counter |
| BindingGenerations.DeleteSpends | server/db/migrations.ts:466-477 | Deleting a binding spends its generation for every machine, as long as no later statement disturbs the user's counter |
| BindingGenerations.RevivesExactlyWhenDisturbed | server/db/migrations.ts:425-510 | The exact condition: a statement makes a spent generation carriable again, by any machine that is free, exactly when it is a successful insertion of the user's id or a successful change of owner of the user's generation row |
| BindingGenerations.ReusedUserIdRevives | server/db/migrations.ts:425-427 | Deleting a user and using the id again starts the counter over |
| BindingGenerations.RekeyedGenerationRevives | server/db/migrations.ts:454-465 | Handing a generation row to another user lets a generation name a second machine |
| BindingGenerations.NewUserBinds | server/db/migrations.ts:425-446 | A new user can start at any generation in range and bind any free machine at it |
| BindingGenerations.NextGenerationBinds | server/db/migrations.ts:466-486 | A current binding can be dropped, any free machine bound at exactly the next generation, and that one dropped too, the counter going up by one each time |
| BindingGenerations.LaterGenerationMoves | server/db/migrations.ts:454-510 | A binding moves to any free machine by setting the counter to any later generation |
| BindingGenerations.CounterCommits | server/db/migrations.ts:425-465 | A counter starts once, in range, only goes up when set, and goes only with its user, who cannot go under a binding |
| BindingGenerations.Tables.AddUser | server/db/migrations.ts:425-427 | Inserting a user takes the model's step |
| BindingGenerations.Tables.RemoveUser | server/db/migrations.ts:425-437 | Deleting a user cascades to the counter and is refused under a live binding |
| BindingGenerations.Tables.AddGeneration | server/db/migrations.ts:425-430 | A counter can be inserted once for a known user, in range |
| BindingGenerations.Tables.AdvanceGeneration | server/db/migrations.ts:454-459 | The counter only grows |
| BindingGenerations.Tables.BindMachine | server/db/migrations.ts:434-486 | A binding is accepted exactly when its generation is current and its machine free |
| BindingGenerations.Tables.RebindMachine | server/db/migrations.ts:487-510 | A changed machine is accepted exactly with a new, current generation |
| BindingGenerations.Tables.Unbind | server/db/migrations.ts:466-477 | Deleting advances the counter with it, or is refused |
| RunLedger.RunKeepsValid | server/db/migrations.ts:955-990 | In every run: no two running runs on a worker thread, no two started runs on a provider turn, one delivery a (run, destination), every claimed row's lease at most five minutes past its own update, every claim token unique |
| RunLedger.StepKeepsRunsValid | server/db/migrations.ts:985-1084 | Each statement on runs keeps their checks, as SQLite takes a NULL one, and their unique indexes |
| RunLedger.StepKeepsDeliveriesValid | server/db/migrations.ts:1132-1243 | Each statement on deliveries keeps their checks, unique keys, foreign key and lease bound |
| RunLedger.StepKeepsClaimsValid | server/db/migrations.ts:1245-1284 | Each statement on claims keeps their checks, foreign key and unique tokens |
| RunLedger.RunLifecycle | server/db/migrations.ts:1025-1084 | A run is never lost or renamed, moves only from pending to running to one terminal state, and its terminal receipt is the same for ever |
| RunLedger.TerminalWasRunning | server/db/migrations.ts:1045-1054 | Every terminal run was seen running |
| RunLedger.ResultExactlyWhenTerminal | server/db/migrations.ts:955-983 | Result and hash are there exactly in terminal states, turn, provider, model and start exactly once started; an outcome is there in terminal states only, and is then the state |
| RunLedger.OutcomeAsSealed | server/db/migrations.ts:975-1073 | Every terminal run was sealed by one statement, whose receipt it still carries: its outcome is its state exactly when that statement wrote one, and is NULL for ever otherwise |
| RunLedger.SealedWithoutOutcome | server/db/migrations.ts:975-983 | Every running run can be sealed without an outcome, in any terminal state, and then never gets one |
| RunLedger.CompletedWithoutOutcome | server/db/migrations.ts:975-983 | Such a run, made from empty tables |
| RunLedger.DeliveryHistory | server/db/migrations.ts:1166-1209 | A delivery is never lost, keeps its identity, and once delivered or rejected its receipt |
| RunLedger.DeliveredExactlyWithTime | server/db/migrations.ts:1132-1145 | In every run a time of delivery is there exactly in a delivered row, and a claimed one has token, owner and a lease of at most five minutes |
| RunLedger.DeliveredFromClaimed | server/db/migrations.ts:1184-1219 | A row becomes delivered only from claimed, with a lease bounded against its own last update, while its message stands in its destination thread; the lease is not compared with the moment of delivery |
| RunLedger.DeliveredProvesMessage | server/db/migrations.ts:1210-1219 | For any row found delivered there was that one statement in the run, and its receipt is the one still there |
| RunLedger.OneDeliveryForEver | server/db/migrations.ts:1132-1165 | Two looks at the ledger never show two deliveries for one run and destination |
| RunLedger.ClaimHistory | server/db/migrations.ts:1264-1284 | A claim record is never rewritten or removed |
| RunLedger.TokenNamesOneClaim | server/db/migrations.ts:1261-1273 | A claim token names one claim for ever |
| RunLedger.Tables.StoreRun | server/db/migrations.ts:998-1024 | A run is stored exactly when it is new, pending, well-formed and free of index clashes |
| RunLedger.Tables.ChangeRun | server/db/migrations.ts:1030-1084 | Changing a run succeeds exactly when identity, transition, receipt, progress, clock and indexes allow it, a NULL CHECK counting as passed, and otherwise changes nothing; valid tables stay valid |
| RunLedger.Tables.StoreDelivery | server/db/migrations.ts:1146-1165 | A delivery is stored exactly when it is new, pending, unclaimed, for a known run, and the only one for its destination and message |
| RunLedger.Tables.ChangeDelivery | server/db/migrations.ts:1171-1243 | A delivery is changed exactly when identity, transition, receipt, message, attempts, lease and clock allow it; the moves allowed are those of `LedgerStatements.DeliveryMovesExactly` |
| RunLedger.Tables.StoreClaim | server/db/migrations.ts:1245-1273 | A claim is stored exactly when its key and token are new and its lease is bounded |
| RunLedger.Tables.SettleClaim | server/db/migrations.ts:1259-1284 | Only the outcome of a claim can be written |
| LedgerStatements.PendingCanBeDelivered | server/repositories/agent-task-runs.ts:504-540 | From any valid ledger every pending delivery has a run of at most four statements, three if its message id is free or its message stands, that ends with it delivered: claim, commit the message, acknowledge |
| LedgerStatements.ClaimedCanBeDelivered | server/repositories/agent-task-runs.ts:529-540 | The same from claimed: at once if its message stands in its thread |
| LedgerStatements.PendingRunCanFinish | server/repositories/agent-task-runs.ts:430-478 | A pending run whose worker thread and turn are free can be started, and sealed in every terminal state, that being its outcome |
| LedgerStatements.DeliveryMovesExactly | server/db/migrations.ts:1184-1219 | Some statement takes a delivery from one state to another exactly so: from pending anywhere but delivered, from claimed anywhere, from failed back to pending; to delivered only with its message |
| LedgerStatements.NewRunCommits | server/repositories/agent-task-runs.ts:408-413 | A new run is stored exactly when its texts have their lengths, its attempt is counted from one and its id is new |
| LedgerStatements.StartCommits | server/repositories/agent-task-runs.ts:430-447 | A pending run starts exactly when no other runs on its thread, none has had its provider turn, and the clock has not gone back |
| LedgerStatements.ProgressCommits | server/repositories/agent-task-runs.ts:448-458 | An open run takes progress exactly when there is any and no clock goes back |
| LedgerStatements.FinishCommits | server/repositories/agent-task-runs.ts:459-478 | A running run finishes exactly in a terminal state, with a result, its hash and at most a known failure, and that state is the outcome stored |
| LedgerStatements.NewDeliveryCommits | server/repositories/agent-task-runs.ts:480-485 | A delivery is stored exactly when well formed, for a known run, and the only one for its destination and its message |
| LedgerStatements.ClaimCommits | server/repositories/agent-task-runs.ts:504-520 | A pending or claimed delivery is claimed exactly with a token of 16 to 128 units, an owner and a lease of at most five minutes |
| LedgerStatements.AckCommits | server/repositories/agent-task-runs.ts:529-540 | A claimed delivery is acknowledged exactly while its message stands in its thread |
| LedgerStatements.FailCommits | server/repositories/agent-task-runs.ts:541-554 | A claimed delivery fails, is rejected or goes back to pending exactly with a known code, `attempts_exhausted` only once they are |
| LedgerStatements.RetryCommits | server/repositories/agent-task-runs.ts:555-566 | A failed delivery can always be tried again, unless the clock has gone back |
| LedgerStatements.PublishCommits | server/repositories/agent-task-runs.ts:567-573 | A delivered one is published exactly while its message stands |
| LedgerStatements.NewClaimCommits | server/repositories/agent-task-runs.ts:521-525 | The record of a claim is stored exactly when well formed, with a new generation and a token nobody had |
| LedgerStatements.SettleCommits | server/repositories/agent-task-runs.ts:526-528 | Any of the three outcomes can be written to a claim, and no other |
| LedgerStatements.AlwaysRefused | server/db/migrations.ts:998-1284 | Rows start pending, a delivery unclaimed and unpublished; nothing can be deleted; the identity of a claim cannot be set |
| Migrations.CrashThenComplete | server/db/migrations.ts:1328-1341 | Whatever a dying start committed, the next complete start ends where an uninterrupted one would have |
| Migrations.RestartsThenComplete | server/db/migrations.ts:1328-1341 | After any number of dying starts a complete start ends where an uninterrupted one would have |
| Migrations.RestartsInParts | server/db/migrations.ts:1328-1341 | Each start goes on from where the one before it died |
| Migrations.RerunIsIdle | server/db/migrations.ts:1330-1335 | A rerun applies nothing |
| Migrations.CompleteRecords | server/db/migrations.ts:1313-1341 | No name is recorded twice; unless one throws, all are recorded, new ones in list order |
| Migrations.SortedSorts | server/db/migrations.ts:1334 | The list is taken in ascending version order, losing nothing |
| Migrations.UpgradeMatchesFreshInstall | server/db/migrations.ts:1331-1343 | An install upgraded release by release ends exactly as a fresh install of the longer list, even where a migration throws |
| Migrations.Runner.Migrate | server/db/migrations.ts:1331-1343 | The loop, cut after any number of commits, is that pass, and answers the names it applied |
| Migrations.Runner.Apply | server/db/migrations.ts:1336-1339 | A migration and its record are written together or not at all |
| Leases.RunKeepsValid | server/computer/leases.ts:54-107 | Every acquire so far is settled or queued, never both, in exactly one queue, queues in acquire order |
| Leases.EveryWaitAccounted | server/computer/leases.ts:54-107 | After any history every acquire has settled or waits for exactly one key, never both |
| Leases.SettlesOnce | server/computer/leases.ts:64-107 | A settled wait keeps its outcome for ever |
| Leases.ServedWithinPosition | server/computer/leases.ts:87-100 | A waiter at position k is settled once the holder has let go k + 1 times |
| Leases.GrantedUnlessWithdrawn | server/computer/leases.ts:64-107 | A wait that settles is granted exactly unless its own timer fired or its own owner let go while somebody else held the key; one that is not taken back is granted by the time the holder has let go k + 1 times |
| Leases.LeavesAs | server/computer/leases.ts:71-107 | A wait leaves its queue as granted, as timed out with the holder of that moment, or as aborted, exactly by a hand-over, its own timer, or its own owner's release |
| Leases.HandOverGrants | server/computer/leases.ts:87-100 | When the holder lets go the front waiter is granted and holds the key, and with nobody waiting the key is free |
| Leases.AcquireAnswered | server/computer/leases.ts:64-85 | A free key, or one the caller holds, is granted at once; any other acquire queues up last |
| Leases.SettledBy | server/computer/leases.ts:64-107 | What a newly settled wait says of the step: granted only to who holds the key afterwards, timed out only at its own timer, aborted only at its own owner's release |
| Leases.HolderReleasesCount | server/computer/leases.ts:87-100 | How often the holder lets go in a run: once more with each release by whoever holds the key then |
| Leases.GrantsInOrder | server/computer/leases.ts:83-100 | A waiter is granted only after everyone ahead of it has settled |
| Leases.StepKeepsDistinct | server/computer/leases.ts:64-107 | If nobody waits twice, the holder is never in its own queue |
| Leases.ReleaseIdempotent | server/computer/leases.ts:43-46 | A second release changes nothing exactly for an owner that holds or waits at most once |
| Leases.DoubleWaitInheritsFromItself | server/computer/leases.ts:87-100 | An owner queued twice inherits the lease from itself |
| Leases.BusyFor | server/computer/leases.ts:116-121 | Null exactly when nobody else holds or waits, otherwise the holder, or for the holder itself the first other to wait |
| Leases.StepQueued | server/computer/leases.ts:64-107 | After a step exactly those wait who did and have not settled, and the new call |
| Leases.Relink | server/computer/leases.ts:57-61 | Every pending timer belongs to a queued waiter and holds the live state of its key |
| Leases.LeaseBroker.constructor | server/computer/leases.ts:54-55 | A new broker holds nothing |
| Leases.LeaseBroker.Acquire | server/computer/leases.ts:64-85 | Acquiring takes the model's step and keeps the timers linked |
| Leases.LeaseBroker.Release | server/computer/leases.ts:87-106 | Releasing takes the model's step, whose outcomes are those of `Leases.HandOverGrants` and `Leases.LeavesAs`, and keeps the timers linked |
| Leases.LeaseBroker.TimerFires | server/computer/leases.ts:57-80 | A timer fires on the live state of its key, never a detached one |
| ChannelConcurrency.RunKeepsValid | server/channels/discord-protocol.ts:271-303 | Under every interleaving the in-flight number is the outstanding permits and at most the limit, no wakeup is lost, every call is parked, woken or served, once |
| ChannelConcurrency.ReleaseTwice | server/channels/discord-protocol.ts:291-293 | Releasing a permit again does nothing |
| ChannelConcurrency.QuietServedAll | server/channels/discord-protocol.ts:280-302 | With all permits back and all resumptions run, nobody is stuck |
| ChannelConcurrency.RunKeepsBalanced | server/channels/discord-protocol.ts:289-301 | There are as many permits as served acquires |
| ChannelConcurrency.DrainEnds | server/channels/discord-protocol.ts:280-302 | Releasing and resuming in any order comes to an end with every acquire served |
| ChannelConcurrency.DrainingShrinks | server/channels/discord-protocol.ts:282-301 | Each release or resumption that finds something to do leaves strictly less to do |
| ChannelConcurrency.AcquireAnswered | server/channels/discord-protocol.ts:280-291 | A call is granted exactly while fewer permits than the limit are out on its own channel, whatever the others hold; otherwise it queues up last |
| ChannelConcurrency.IdleGranted | server/channels/discord-protocol.ts:280-291 | On an idle channel every call is granted at once |
| ChannelConcurrency.ResumeAnswered | server/channels/discord-protocol.ts:282-290 | A woken call is granted exactly while the limit allows it, and otherwise parks again, last |
| ChannelConcurrency.ReleaseWakesOldest | server/channels/discord-protocol.ts:291-301 | A first release gives one permit back and wakes the call that has waited longest |
| ChannelConcurrency.FirstParkedFirstWoken | server/channels/discord-protocol.ts:282-301 | In every run no call is woken before one that stood ahead of it in its queue |
| ChannelConcurrency.RunInParts | server/channels/discord-protocol.ts:271-303 | A run is its steps, one after another |
| ChannelConcurrency.Semaphore.constructor | server/channels/discord-protocol.ts:276-278 | A new semaphore is open |
| ChannelConcurrency.Semaphore.Acquire | server/channels/discord-protocol.ts:280-291 | A call is granted at once or parked, and keeps the invariant |
| ChannelConcurrency.Semaphore.Resume | server/channels/discord-protocol.ts:282-288 | A woken call checks again |
| ChannelConcurrency.Semaphore.Release | server/channels/discord-protocol.ts:291-301 | The release closure wakes the oldest waiter |
| DiscordProtocol.SplitDiscordText | server/channels/discord-protocol.ts:216-231 | For every limit of at least one: the loop ends, no chunk is empty or over the limit, and the chunks hold the text's non-blank units in order |
| DiscordProtocol.ChunksCoverText | server/channels/discord-protocol.ts:216-231 | The chunks are pieces of the text in order with only white space between them |
| JsText.SolidWhole | server/channels/discord-protocol.ts:216-231 | The non-blank units of a text without white space are all of it |
| JsText.SpaceUnits | server/channels/discord-protocol.ts:227-229 | What `trim` takes for white space, unit by unit |
| JsText.LowerAscii | server/connector-lifecycle.ts:71-72 | What `toLowerCase` makes of ASCII, letter by letter |
| DiscordProtocol.PiecesWeave | server/channels/discord-protocol.ts:222-229 | Before empty ones are dropped the pieces cover the text in order, each within the limit, with only white space between them |
| DiscordProtocol.WeaveFiltered | server/channels/discord-protocol.ts:230 | Dropping empty chunks loses nothing |
| DiscordProtocol.Cut | server/channels/discord-protocol.ts:223-225 | The cut is at the last newline of the back half, without one at its last space, without either at the limit |
| DiscordProtocol.BoundedIdSet.constructor | server/channels/discord-protocol.ts:251-253 | Nothing is remembered at first |
| DiscordProtocol.BoundedIdSet.Has | server/channels/discord-protocol.ts:255-257 | The set remembers exactly the last `max` accepted ids, and the empty id for ever |
| DiscordProtocol.BoundedIdSet.Add | server/channels/discord-protocol.ts:259-268 | An id is accepted exactly when it is not remembered |
| CanonicalJson.LeftInverse | server/db/importer.ts:204-213 | Parsing the canonical text with the RFC 8259 grammar gives the value back, keys sorted, undefined properties gone |
| CanonicalJson.SameTextExactlyWhenEquivalent | server/db/importer.ts:203-213 | Two values get the same text exactly when they are equal up to key order and undefined properties |
| CanonicalJson.CanonEquivalent | server/db/importer.ts:203-213 | The canonical values are equal exactly for such pairs |
| CanonicalJson.PrintCanon | server/db/importer.ts:204-213 | The canonical value prints as the value it stands for |
| CanonicalJson.MembersLookup | server/db/importer.ts:207-209 | Dropping and sorting loses no defined property, and the printed order is strictly increasing |
| CanonicalJson.MembersAscend | server/db/importer.ts:209 | Of two printed members the earlier key is a proper prefix of the later, or has the smaller unit at their first difference |
| CanonicalJson.BeforeAtFirstDifference | server/db/importer.ts:209 | One key comes before another exactly by that |
| CanonicalJson.EscapesAsJson | server/db/importer.ts:210 | The escapes by name, those by four lower-case digits, and everything else as it is |
| CanonicalJson.PairsKept | server/db/importer.ts:210 | Two halves of one character are printed as they are, and any other unit is escaped on its own |
| CanonicalJson.PrintsConstants | server/db/importer.ts:204-212 | The texts of the constants and of an empty string, list and object |
| CanonicalJson.PrintsPair | server/db/importer.ts:206 | The brackets and the comma of a list |
| CanonicalJson.PrintsMember | server/db/importer.ts:207-210 | The braces and the colon of an object |
| CanonicalJson.OrderedUnique | server/db/importer.ts:207-209 | There is only one such order |
| CanonicalJson.EscapedText | server/db/importer.ts:210 | An escaped string reads back unit by unit, surrogate pairs included |
| CanonicalJson.NumberShift | server/db/importer.ts:212 | A number reads the same wherever it stands |
| CanonicalJson.NumberGrammar | server/db/importer.ts:212 | The numbers the theorems speak of are exactly those of section 6 of RFC 8259: a minus or none, digits without a leading nought, a fraction or none, an exponent or none |
| CanonicalJson.ReadValue | server/db/importer.ts:204-213 | A printed value is read back where it stands, and nothing past it |
| CanonicalJson.BeforeTotal | server/db/importer.ts:209 | Of two different keys exactly one comes before the other, so the comparator is a total order |
| CanonicalJson.BeforeTransitive | server/db/importer.ts:209 | The comparator is transitive |
| ResponseOptions.VisibleStreamingResponseText | server/response-options.ts:53-63 | The counting loop finds the longest beginning of the opening at the end of the text |
| ResponseOptions.Stream | server/response-options.ts:53-63 | The same loop for any opening: it computes the longest beginning of it that the text ends with |
| ResponseOptions.AppendStreamingResponseText | server/response-options.ts:65-68 | A chunk is appended and the whole filtered again |
| ResponseOptions.ShownText | server/response-options.ts:46-63 | Both filters told on the text itself, without lower-casing it |
| ResponseOptions.MarkerIndex | server/response-options.ts:47-57 | Where the lower-cased copy first holds the opening, for every text |
| ResponseOptions.ShownOnlyGrows | server/response-options.ts:51-63 | Nothing shown, up to trailing white space, is ever taken back |
| ResponseOptions.StreamGrows | server/response-options.ts:51-68 | However a stream is cut into chunks, no update takes back what an earlier one showed |
| ResponseOptions.OneMoreChunk | server/response-options.ts:65-68 | What has been received is the chunks one after another |
| ResponseOptions.OpeningIsMarker | server/response-options.ts:47 | The opening is this text, and has what the proofs need of one |
| ResponseOptions.OnlyAnswerShown | server/response-options.ts:51-63 | Every prefix of a stream shows only a beginning of the answer, whatever comes next, exactly unless the whole opening has arrived after a U+0130 |
| ResponseOptions.LeaksExactlyAfterDottedI | server/response-options.ts:54-57 | For a complete opening this holds exactly without a U+0130 before it |
| ResponseOptions.DottedILeaks | server/response-options.ts:54-57 | An instance that shows part of the opening |
| ResponseOptions.SettledOnceOpened | server/response-options.ts:46-57 | Once the opening has arrived, what is shown is the batch filter's result on whatever the whole turns out to be exactly when the overshoot still to come, a unit for every U+0130 before the opening, is blank; with none to come it always is |
| ResponseOptions.EndOfStream | server/response-options.ts:46-63 | At the end of a stream the two filters agree exactly when no beginning of an opening dangles |
| ResponseOptions.SettledReply | server/response-options.ts:46-57 | With the program's opening: once it is in, a chat shows the stored reply's text exactly when the overshoot still to come is blank |
| ResponseOptions.EndOfReply | server/response-options.ts:46-63 | With the program's opening: when a stream stops, a chat shows the stored reply's text exactly when no beginning of an opening dangles |
| Memory.NormalIdempotent | server/memory.ts:120-131 | Splitting and joining a file is a normal form, for every file |
| Memory.SplitOfJoin | server/memory.ts:120-131 | Joined parts split into themselves again, up to outer white space, exactly when the user part lacks the marker |
| Memory.NoteAppended | server/memory.ts:510-521 | Exactly when the note lacks the marker: the old user part, trimmed, is the beginning of the new one, which ends in the trimmed note, with one line break between them, or none after a blank part; and the distilled part stays |
| Memory.EveryNoteKept | server/memory.ts:510-521 | However many notes are remembered: what the user part held is still its beginning, every note that is not blank stands there past it, in order and on lines of its own, and the distilled part is as it was |
| Memory.LinesKept | server/memory.ts:510-521 | And nothing else stands there: the user part is the old one and one line for every note that is not blank |
| Memory.WorkspaceKeepsNote | server/memory.ts:107-110 | A workspace note is appended on a line of its own exactly when that makes at most 6000 units; otherwise the file is cut at the cap, keeping what it held |
| Memory.UserPartPlain | server/memory.ts:120-124 | The user part a file is split into never holds the marker |
| Memory.FileLayout | server/memory.ts:126-131 | A file is the user part, a blank line, the marker on a line of its own and the distilled part, ending in one line break |
| Memory.MarkerText | server/memory.ts:29 | The marker is this text |
| Memory.NotesFiles.constructor | server/memory.ts:94-105 | No notes at first |
| Memory.NotesFiles.ReadBotMemory | server/memory.ts:141-143 | Reading splits the bot's own file, a missing one being empty |
| Memory.NotesFiles.WriteBotMemory | server/memory.ts:145-147 | Writing reads back the same exactly when the user part lacks the marker |
| Memory.NotesFiles.RememberNote | server/memory.ts:510-521 | Remembering changes the one file of its scope and no other, and adds the trimmed note after what stood there: in a bot's user part unless it holds the marker, in the workspace while there is room |
| TelegramApprovals.RunKeepsValid | server/telegram.ts:424-458 | Over any interleaving: at most one answer per approval, by the bound user in the bound chat, with that choice's button, strictly before expiry, and equal to what the record stays settled with |
| TelegramApprovals.StepKeepsValid | server/telegram.ts:373-458 | Each step keeps that |
| TelegramApprovals.RunKeepsSettled | server/telegram-approvals.ts:242-247 | A settled record stays so, and nothing answers it any more |
| TelegramApprovals.SweepExpiresExactlyTheDue | server/telegram-approvals.ts:248-257 | A sweep expires exactly the open records whose time has come, and changes nothing else |
| TelegramApprovals.AnswerableUntilExpiry | server/telegram.ts:385-458 | Whatever others do in the meantime, a delivered approval can be answered by its user in its chat with either button for fifteen minutes, and a tap after that expires it |
| TelegramApprovals.RunKeepsPaired | server/telegram-approvals.ts:194-241 | In every run each record on file keeps both its buttons |
| TelegramApprovals.OncePerRequest | server/telegram.ts:385-418 | A request is answered at most once as long as no send failure is reported of a record already answered, however often it is sent |
| TelegramApprovals.RepeatableExactlyWhenDropped | server/telegram.ts:385-454 | The exact condition: while every answer of a request belongs to the record on file, a step makes a second answer possible exactly when it drops that record after it was answered |
| TelegramApprovals.FailedSendAnsweredTwice | server/telegram.ts:406-417 | A message that arrived but was reported as failed: one request answered twice, differently |
| TelegramApprovals.Approvals.constructor | server/telegram-approvals.ts:178-186 | The store is empty at first |
| TelegramApprovals.Approvals.Create | server/telegram-approvals.ts:194-221 | Creating takes the model's step, and an existing record is answered again |
| TelegramApprovals.Approvals.AttachMessage | server/telegram-approvals.ts:232-235 | Attaching a message takes the model's step |
| TelegramApprovals.Approvals.Discard | server/telegram-approvals.ts:236-241 | Discarding forgets the record and both its buttons |
| TelegramApprovals.Approvals.Settle | server/telegram-approvals.ts:242-247 | Settling changes an open record only |
| TelegramApprovals.Approvals.ExpireDueRecords | server/telegram-approvals.ts:248-257 | The loop expires exactly the due records and answers which |
| TelegramApprovals.Approvals.HandleCallback | server/telegram.ts:427-454 | A tap decides exactly when its button is known, its sender entitled, its record open and unexpired |
| AgentTasks.CreateTidies | server/agent-tasks.ts:269-322 | After creating at `now`, a task is active exactly when it is stored as pending, active or blocked |
| AgentTasks.PatchTidies | server/agent-tasks.ts:337-346 | After patching at `now`, a task is active exactly when it is stored as pending, active or blocked |
| AgentTasks.ReconcileTidies | server/agent-tasks.ts:223-245 | After listing at `now`, a task is active exactly when it is stored as pending, active or blocked |
| AgentTasks.CreateAnswers | server/agent-tasks.ts:281-291 | The task answered is the one asked for, with the same words |
| AgentTasks.CreateStores | server/agent-tasks.ts:269-322 | If an open task of the same source has the same words, the earliest is answered, stamped and bound to the run; otherwise every open task of the source or the run is superseded and the new one stored; nothing else changes but stalled tasks |
| AgentTasks.CreateHappens | server/agent-tasks.ts:269-322 | Whatever the store holds, every creation has its outcome |
| AgentTasks.SameExactlyWhenSameWords | server/agent-tasks.ts:64-66 | Two assignments count as the same exactly when they have the same words in the same order |
| AgentTasks.PatchStores | server/agent-tasks.ts:337-346 | A patch stores every field it names and the time, and leaves every other field and task; what is blocked without its three fields is stored as stale |
| AgentTasks.CreateKeepsOneOpen | server/agent-tasks.ts:281-321 | Creating keeps at most one open task per assignee, sender and thread, answers an open one, and opens no old one |
| AgentTasks.PatchKeepsOneOpen | server/agent-tasks.ts:337-346 | A patch keeps that exactly when it re-opens no task beside another open one |
| AgentTasks.DeletesExactly | server/agent-tasks.ts:194-203 | Deleting for a bot leaves no task it gave or was given, and every other task as it was |
| AgentTasks.BlockedNeedsStructure | server/agent-tasks.ts:341-345 | A patch leaves a task blocked exactly with blocker, owner and next action; else it is stored as stale |
| AgentTasks.StepKeepsOneOpen | server/agent-tasks.ts:194-346 | Of all calls only such a patch breaks it |
| AgentTasks.HistoryKeepsOneOpen | server/agent-tasks.ts:194-346 | Over every history at most one task per source is open at every moment exactly when no patch re-opens one beside another |
| AgentTasks.TaskStore.constructor | server/agent-tasks.ts:167-168 | The store is empty at first |
| AgentTasks.TaskStore.ReconcileStaleBlocked | server/agent-tasks.ts:225-233 | The loop stores exactly the unstructured and the old blocked tasks as stale |
| AgentTasks.TaskStore.First | server/agent-tasks.ts:283 | The duplicate found is the first in listing order |
| AgentTasks.TaskStore.SupersedeAll | server/agent-tasks.ts:293-303 | The loops supersede every open task of the source or the run |
| AgentTasks.TaskStore.CreateAgentTask | server/agent-tasks.ts:269-322 | Creating refreshes the duplicate or displaces the open ones and stores a new task |
| AgentTasks.TaskStore.PatchAgentTask | server/agent-tasks.ts:337-346 | Patching reconciles, then merges and stores, or stores as stale |
| AgentTasks.TaskStore.DeleteTasksFor | server/agent-tasks.ts:194-203 | Deleting removes exactly a bot's tasks and counts them |
| Delegations.RunConserves | server/delegations.ts:39-127 | In every run and for every thread: what was queued is what was handled and then what waits, in order; at most four wait; and the calls made are those of the handled items whose target was ready, in order |
| Delegations.StepConserves | server/delegations.ts:57-140 | Each queueing, drain, discard or call of the task store keeps that |
| Delegations.HandleAllLogs | server/delegations.ts:124-140 | Handling a list one item after another logs exactly that list, in order, for its thread and no other, and calls just its ready targets |
| Delegations.HandleAllRows | server/delegations.ts:113-236 | Handling a list leaves the tasks as its patches do, one after another |
| Delegations.StepSettles | server/delegations.ts:49-140 | Over queues and task store together: a step leaves a handled item's task pending exactly when it is a patch, from elsewhere, of such a task to pending |
| Delegations.RunSettles | server/delegations.ts:49-140 | In every run without such a patch no handled item's task is pending, whatever else is done to the tasks |
| Delegations.RunStaysShallow | server/delegations.ts:49-60 | No target runs deeper than the largest limit any caller gave |
| Delegations.DefaultStaysShallow | server/delegations.ts:46-60 | With the default limit targets run at depth one at most |
| Delegations.OthersUntouched | server/delegations.ts:104-135 | Another thread's queue, log and calls are not touched |
| Delegations.DrainSettles | server/delegations.ts:113-236 | The task of a drained item ends active or stale, or blocked if somebody had named owner and next action; never pending |
| Delegations.DiscardCancels | server/delegations.ts:132-140 | The task of a dropped item ends cancelled |
| Delegations.OrderlyDrain | server/delegations.ts:124-126 | A drain keeps one open task per source all along exactly when none of its patches re-opens a task beside another |
| Delegations.DrainReopensSuperseded | server/delegations.ts:229-232 | Two hand-offs to one bot in one turn, both finding it ready: the superseded task is active again after the drain, beside the one that superseded it |
| Delegations.DrainRunsSuperseded | server/delegations.ts:190-236 | The same with the bot busy by the second turn, as the first one's run makes it: the superseded task ends active, the one that superseded it stale |
| Delegations.CallsShallow | server/delegations.ts:236 | Targets run one level below the sender, within the limit their items were queued under |
| Delegations.CallsWereAsked | server/delegations.ts:49-236 | Every call made in a run carries the target, message and task of a request of that run, on its thread and one deeper |
| Delegations.DrainCalls | server/delegations.ts:104-140 | A drain with a lead bot calls every ready target; one without, or with none ready, calls nobody, and neither does a discard |
| Delegations.TakenExactly | server/delegations.ts:56-62 | A request is taken exactly from another bot, under the depth limit, for a known bot, with fewer than four waiting; the first of these to fail is the answer |
| Delegations.TurnStores | server/delegations.ts:113-232 | What handling stores in the item's task: active, cancelled, or blocked or stale with the reason it was refused |
| Delegations.DelegationQueue.constructor | server/delegations.ts:39 | Nothing is queued at first |
| Delegations.DelegationQueue.QueueDelegation | server/delegations.ts:49-100 | The item stands last with a task of its own or a refreshed duplicate's, or the refusal changed nothing, whatever depth limit the caller gives |
| Delegations.DelegationQueue.DrainDelegations | server/delegations.ts:104-127 | Every item is handled once, in order, with one call for each ready target; without a lead bot each task is blocked |
| Delegations.DelegationQueue.ProcessAll | server/delegations.ts:124-140 | The loop handles each item of the list once, in order, and logs it as it goes |
| Delegations.DelegationQueue.ProcessOne | server/delegations.ts:160-237 | One item: a patch of its task, and a call if the target is ready |
| Delegations.DelegationQueue.DiscardDelegations | server/delegations.ts:132-140 | Every item's task is cancelled and nothing runs |
| ConnectorIdentity.AllocateConnectorIdentity | server/connector-lifecycle.ts:127-147 | Names a known account as before, and a new one by the slug, the slug with its key, or the slug with the least free number from 2 |
| ConnectorIdentity.FreeName | server/connector-lifecycle.ts:142-146 | The suffix loop ends by pigeonhole, at the least free number |
| ConnectorIdentity.AllocatedUnique | server/connector-lifecycle.ts:127-147 | The allocation is determined by the claims |
| ConnectorIdentity.NewNames | server/connector-lifecycle.ts:137-146 | A new account gets the slug if free; else the slug, a colon and its plain key, or 2; and if that is taken the least free number from 2 |
| ConnectorIdentity.KnownName | server/connector-lifecycle.ts:133-136 | A known account of the slug keeps the name it was given first |
| ConnectorIdentity.SlugByUnits | server/connector-lifecycle.ts:69-74 | A slug is made unit by unit, in order: small letters, digits and hyphens kept, capitals made small, the rest dropped |
| ConnectorIdentity.SlugKept | server/connector-lifecycle.ts:69-74 | A slug of slug units is its own name |
| ConnectorIdentity.DecimalReads | server/connector-lifecycle.ts:145 | A suffix number reads back as itself, without leading noughts |
| ConnectorIdentity.NumberedCount | server/connector-lifecycle.ts:145 | The first n suffix numbers give n different names, so a set of used names cannot hold them all |
| ConnectorIdentity.DecimalInjective | server/connector-lifecycle.ts:145 | Two numbers written the same are the same |
| ConnectorIdentity.ClaimKeepsApart | server/composio.ts:86-89 | One more account keeps names and keys in step |
| ConnectorIdentity.NameSlug | server/connector-lifecycle.ts:76-79 | Every name given for a slug reads back as that slug |
| ConnectorIdentity.NameAccounts | server/composio.ts:82-89 | Two accounts get one name exactly when they carry the same non-empty key |
| ConnectorIdentity.AccountIdentities | server/composio.ts:68-89 | Two accounts get one name exactly when their trimmed ids are the same and not empty; the first account gets the bare slug |
| Sessions.NeverOverFive | server/identity.ts:143-230 | Whatever calls are made, by whatever clocks, no user ever has more than five session rows |
| Sessions.RunKeepsValid | server/db/migrations.ts:236-245 | From any sound table no user comes to more than five rows, and every row keeps the table's constraints and its foreign key |
| Sessions.CreateBounds | server/identity.ts:157-183 | Signing in leaves the new session and at most four others |
| Sessions.NewestCount | server/identity.ts:168-183 | The ordered subquery keeps exactly the first four, or all if fewer |
| Sessions.CreateKeeps | server/identity.ts:166-183 | A live row survives a sign-in, as it was, exactly unless four newer live ones of its user displace it; dead rows never do |
| Sessions.EvictsOldestFirst | server/identity.ts:177-178 | An evicted session is no younger than any kept one, and of one moment it has the lesser token |
| Sessions.EvictsOnlyWhenFull | server/identity.ts:168-183 | Someone is evicted exactly when the user already has five live sessions |
| Sessions.NewSessionResolves | server/identity.ts:157-187 | A sign-in with a new token is accepted exactly from a known user, for one second to thirty days within safe integers, and then resolves to that user for exactly `age * 1000` ms from `now` |
| Sessions.RevokedForEver | server/identity.ts:215-222 | A token revoked with success never resolves again |
| Sessions.RevokeNeedsClock | server/identity.ts:215-222 | Revoking works exactly with a clock that has reached the session's creation |
| Sessions.RevokeOnce | server/identity.ts:215-222 | Only the first revocation is kept |
| Sessions.PruneDropsExpired | server/identity.ts:224-227 | A sweep drops exactly the expired rows, revoked or not |
| Sessions.RunInParts | server/identity.ts:143-230 | A run is its calls, one after another |
| Sessions.SurvivesUnlessEnded | server/identity.ts:143-230 | A session is there after a call exactly unless that call ended it |
| Sessions.TokenLives | server/identity.ts:202-213 | Until then a token resolves to its user for exactly its lifetime |
| Sessions.IdentitySessions.constructor | server/identity.ts:107-109 | No users or sessions at first |
| Sessions.IdentitySessions.UpsertUser | server/identity.ts:111-141 | A user can be added at any time |
| Sessions.IdentitySessions.Issue | server/identity.ts:160-183 | The three statements leave what the model says |
| Sessions.IdentitySessions.CreateSession | server/identity.ts:143-187 | A session is issued exactly for a known user, in-range clock and age, and an unused token |
| Sessions.IdentitySessions.ResolveSession | server/identity.ts:202-213 | The live row's user or nobody |
| Sessions.IdentitySessions.RevokeSession | server/identity.ts:215-222 | Answers whether it found an open row no younger than its clock; that token is dead |
| Sessions.IdentitySessions.PruneExpiredSessions | server/identity.ts:224-227 | Removes exactly the expired rows |

## Left out

- The `Intl` data and the calendar fields of a date: a zone is its offset table, a date its day number. `HH:MM` is taken as already validated, as the store does before saving a routine.
- Timezone.ZonedNextClockRun: in a zone with fall-backs of other than 30 or 60 minutes a late reading of a date before the one `from` falls on is not looked for, as in the code.
- A zone's offsets are taken to be whole seconds within 16 hours, its changes to lie more than 48 hours apart; histories that break this are not covered.
- UPDATE OR REPLACE on delegated runs, which can drop the row that clashes on a unique index without firing the delete trigger: "a run is never lost" is said of plain statements.
- In the ledger: which rows the WHERE clauses of the repository select, and how it chooses the next generation and attempt; a statement is told by the row it writes.
- In the binding tables: INSERT OR REPLACE and UPDATE OR REPLACE, statements on several rows, changes of `users.id`, and updates that name `user_id` in their SET list, which are only refused more often.
- The SQLite engine, SQL text and column types; a statement is one guarded step on maps. The migrations' own statements are opaque functions.
- Timers and promises of the runtime: each expiry, resumption and tap is a step of its own, in any order.
- Limits below one for `splitDiscordText` and a negative size for the id set, with which the code loops for ever.
- In canonical JSON: holes in arrays, `toJSON`, big integers and the sign of zero, which prints the same; numbers are told by their lexeme. The parser takes no insignificant white space, which the printer never writes.
- `toLowerCase` is modelled for the letters that can become ASCII; locale rules play no part in the source.
- Parsing the options out of a reply, and the prompt that asks for them.
- Writing notes as UTF-8, which replaces a lone surrogate, and ids that would leave the notes directory; the file of a bot named `workspace` is the workspace's, as in the source.
- Memory rows, their decay and ranking.
- The texts, keyboards and edits of Telegram messages, the allowlist, the polling loop; callback ids are random and never repeat. A record is a value in the store's map: that a handler keeps a reference to it across an await is not captured, since each handler reads it again or acts at once.
- In tasks: results, reasons, names, message ids and delivery fields, which are only carried along; the outer white space of a blocker, which no check reads; the SQLite store; the patch derived from a finished turn. Ids of bots and threads are never empty.
- In delegations: chips, notes, mirrored messages, broadcasts, and the words put before a message. What the call to a target itself does to the tasks during a drain, which is to store a run id, is not captured.
- Sessions.RevokedForEver: tokens are never issued twice.
- GitHub identity fields, cookies, token digests as cryptography, the user interface, HTTP routes, drivers and remote clients.
