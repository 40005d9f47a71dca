# MixAPI: a verified model

MixAPI is a gateway in front of several LLM providers. Its guarantees rest on protocols over
two stores. In PostgreSQL one transaction is one atomic step; in Redis one Lua script is. Processes can
stop, retry and interleave between steps. This project models those protocols and the request path around them
and proves what they keep over every run, with every counterexample found along the way.

`dafny verify dfyconfig.toml` checks everything.

| file | what it models |
|---|---|
| `BudgetScripts`, `UsageLedger`, `SpendCap` | reservations in Redis, settlement in PostgreSQL, and the spend cap across both |
| `TokenQuota` | the token and request quota scripts |
| `OutboxLease`, `OutboxWorkers` | leased outbox rows and the two workers that finish them |
| `SnapshotStore` | publishing, activating and retaining configuration snapshots |
| `SqliteImport` | the checkpointed import from SQLite |
| `CorrectiveRetry`, `RequestCost`, `Dispatch` | token counts, estimates, the fallback loop and what it bills |
| `Sorting`, `RouteOrder`, `Routing` | candidate eligibility and rendezvous order |
| `SnapshotJson`, `ConfigurationSnapshot`, `RoutingCatalog` | canonical snapshots, their JSON, the catalogue and the publisher's checks |
| `AuthCache`, `AuthenticationJson` | the Redis authentication cache in front of the API keys, and the JSON of its entries |
| `Circuits` | the circuit breaker |
| `Base64Url`, `UsagePages` | cursors and keyset pagination |
| `Text`, `Sse`, `ProviderStreams`, `StreamLifecycle` | server-sent events, provider event machines and the response stream |
| `Models`, `Prelude` | shared records and small facts about lists, maps and sums |

Every lemma carries `{:induction false}`: each induction is written out in its body, and Dafny adds no hypothesis of its own.

Money is an integer number of 1e-8 USD, the scale of the NUMERIC(20, 8) columns. Prices and limits
are exact decimals, written as reals. Objects whose methods update fields are classes whose methods are proved
against the specification functions that the lemmas speak about.

## What was found

- **The spend cap needs an atomic finish.** `_finish_redis_reconciliation` reads the durable spend and then
  runs `_RECONCILE`. When two finishes of one key cross, the older value is written last and later
  reservations pass the limit (`SpendCap.CrossedFinishesBreakTheCap`). Redis keeps counting enough through a whole run,
  whatever interleaves in it, exactly if each finish that writes meets one test: the spend it writes and the live
  reservations of the other settled requests make up the durable spend (`AlwaysReportingIff`). Under that condition
  every state meets the cap (`SpendCapHolds`); with read and script as one step every run does
  (`AtomicFinishesKeepCap`). Once a finish has failed the test, later reservations can break the cap exactly if what Redis
  counts of settled requests is not above the limit (`CapCanBeLostIff`).
- **Verification of imported route decisions.** `_insert_mapping` looks a stored row up by *any* identity
  column, and the primary key of `route_decisions` is (tenant_id, request_id) (mixapi/schema.py:273-274). Re-verifying a
  finished import succeeds exactly when no row it inserted shares an identity column with a row that the destination had
  or with an earlier inserted one (`SqliteImport.FinishedImportVerifiesIff`). So it fails for two decisions of one tenant
  (`TwoDecisionsOfOneTenant`), and for one decision of a tenant that already had another (`DecisionBesideAnother`), as
  when a second source is imported into the same database: runs are kept per source fingerprint
  (mixapi/migration/sqlite_import.py:217-232), and the reconciliation of a run counts only the identities of its own
  source (mixapi/migration/sqlite_import.py:964-1000). All this is about the rows as the import left them: the same
  comparison also fails once live traffic has changed a `budget_spend` row, or an administrator an imported key.
- **The corrective reserve rests on the wording.** The character limits of failure paths and messages alone
  allow 324 words, four more than the 320 tokens reserved; the fixed messages keep it to 312
  (`CorrectiveRetry.CharacterLimitsAloneAreNotEnough`, `CorrectiveReserveIsEnough`).
- **A limit just below zero.** `_units` truncates toward zero, and the script compares sums that are never negative. It
  admits exactly what the exact comparison admits unless the limit is a negative fraction of one unit, which still
  admits the sum zero (`RequestCost.UnitsAdmitsExactlyIff`, `HalfUnitBelowZero`). `_parse_budget_limit` refuses limits that are
  not positive (mixapi/app.py:2491-2508), and the column of a stored limit rounds to whole units (mixapi/schema.py:204); only
  the environment value `MIXAPI_BUDGET_LIMIT_USD`, taken as it stands, can be such a limit (mixapi/app.py:149-150).

Two theorems have conditions that the database supplies. A snapshot reads back if all its timestamps carry an offset
(`ConfigurationSnapshot.SnapshotRoundTrip`): `create` is called with rows of the configuration tables only
(mixapi/publication.py:90-94, mixapi/publication.py:169-173), whose timestamp columns carry a time zone
(mixapi/schema.py:43-45). Every listed alias resolves to the model that lists it
(`RoutingCatalog.PublishedSnapshotIsUsable`) if no alias is listed twice, which is a unique constraint (mixapi/schema.py:87).

## Model

| member | source | states |
|---|---|---|
| BudgetScripts.RedisBudgetKeys.RunReserve | mixapi/runtime/budget.py:19-28 | the keys after `_RESERVE` are those of the reserve function: `SETNX` of the spend, then all or nothing |
| BudgetScripts.RedisBudgetKeys.RunReconcile | mixapi/runtime/budget.py:30-40 | the keys after `_RECONCILE`; a marked reservation changes nothing |
| BudgetScripts.RedisBudgetKeys.RunRelease | mixapi/runtime/budget.py:42-48 | the keys after `_RELEASE` |
| BudgetScripts.StepConserves | mixapi/runtime/budget.py:19-48 | each script, and the expiry of a marker, keeps the reserved counter equal to the sum of the live reservations |
| BudgetScripts.RunConserves | mixapi/runtime/budget.py:19-48 | over every sequence of scripts with fresh ids the counter is that sum and never negative |
| BudgetScripts.AcceptedReserveConservesIff | mixapi/runtime/budget.py:19-28 | an accepted reservation conserves exactly when its id was not live or held nothing |
| BudgetScripts.NeverSubtractsAgain | mixapi/runtime/budget.py:30-40 | once a reservation is finished, a later delivery subtracts nothing, whatever scripts and marker expiries come in between, as long as its id is not reserved again |
| UsageLedger.Tables.BeginUsageIntent | mixapi/repositories/usage.py:20-42 | the tables after `begin_intent`: an existing request id is left alone |
| UsageLedger.Tables.FindSettlement | mixapi/repositories/usage.py:234-241 | whether the outbox has a row for the reservation |
| UsageLedger.Tables.SettleReservation | mixapi/repositories/usage.py:87-149 | the tables and the result after `settle_reservation`, on every path including the missing intent and the unique violation |
| UsageLedger.FirstSettlementBooks | mixapi/repositories/usage.py:87-149 | the first settlement of a reservation, untracked or with its pending row, records its events, adds the cost to its key, writes one outbox row and completes that row and every pending usage intent of the events' requests, and nothing else |
| UsageLedger.OtherSettlementsChangeNothing | mixapi/repositories/usage.py:97-117 | every other call changes nothing and answers `[]`, a unique violation or the missing reservation, by whether an outbox row and the pending row are there |
| UsageLedger.SettledIff | mixapi/repositories/usage.py:87-149 | over every run a reservation is settled exactly if it was before or some call, the first of it, untracked or with its row, settled it |
| UsageLedger.CallLeavesSettled | mixapi/repositories/usage.py:77-86 | so an untracked call always leaves its reservation settled, and a tracked one does if its row was pending |
| UsageLedger.IntentsBeginAndFail | mixapi/repositories/usage.py:20-75 | which intents beginning, failing and releasing change, and to what |
| UsageLedger.ReserveAddsRow | mixapi/repositories/budgets.py:31-105 | `reserve` admits exactly what fits beside spend and pending amounts under a new id, and adds one pending row |
| UsageLedger.SettlesAtMostOnce | mixapi/repositories/usage.py:87-149 | over every run, after a settle call that moved money no later settle call for that reservation changes anything |
| UsageLedger.IntentLeavesPendingOnce | mixapi/repositories/usage.py:44-75 | over every run, an intent that left pending keeps the status it got |
| UsageLedger.BooksAgree | mixapi/repositories/usage.py:87-149 | over every run and for every key, what the spend gained is what its outbox rows gained, and what its usage events gained when callers pass the sum of their events |
| UsageLedger.DurableCap | mixapi/repositories/budgets.py:31-142 | reservations under the row lock never let spend plus pending amounts pass the limit, or the amount it started from |
| SpendCap.EveryRun | mixapi/runtime/budget.py:69-164 | under every interleaving of requests, crashes and workers, Redis shows at most the durable spend and its counter is the sum of the live reservations |
| SpendCap.SettledLiveIff | mixapi/runtime/budget.py:30-40 | in every run the reservation of a request that settles is live in Redis exactly until the first finish delivered for it |
| SpendCap.DeliveriesSubtractOnce | mixapi/runtime/budget.py:126-164 | at-least-once delivery subtracts once: in every run from the start the first finish of a settlement takes out exactly what its request reserved, and every later one nothing |
| SpendCap.AlwaysReportingIff | mixapi/runtime/budget.py:69-164 | through a whole run of any interleaving Redis counts at least spend plus unsettled amounts exactly if each finish that writes, writes enough |
| SpendCap.SpendCapHolds | mixapi/runtime/budget.py:69-164 | in every state of a run whose finishes write enough, durable spend plus unsettled live reservations is at most the limit or the initial spend |
| SpendCap.NeverLoweringWritesEnough | mixapi/runtime/budget.py:157-164 | finishes that never lower the spend in Redis write enough |
| SpendCap.AtomicFinishesNeverLower | mixapi/runtime/budget.py:157-164 | a run whose finishes each read the latest spend never lowers it |
| SpendCap.AtomicFinishesKeepCap | mixapi/runtime/budget.py:157-164 | from the empty state every run whose finishes each read the latest spend meets the cap in every state |
| SpendCap.NextReserveOverrunsIff | mixapi/runtime/budget.py:19-28 | a next reservation can break the cap exactly when Redis counts less than spend plus unsettled amounts and still sees room |
| SpendCap.CapCanBeLostIff | mixapi/runtime/budget.py:69-164 | some run without further finishes loses the cap exactly when what Redis counts of settled requests is less than the durable spend and not above the limit |
| SpendCap.CapIsWhatMaySettle | mixapi/runtime/budget.py:102-119 | the cap holds if and only if no settlements of the requests already admitted take the durable spend past the limit |
| SpendCap.FinishReportsIff | mixapi/runtime/budget.py:157-164 | a finish leaves Redis counting enough exactly when the spend it writes and the reservations of other settled requests make up the durable spend |
| SpendCap.CrossedFinishesBreakTheCap | mixapi/runtime/budget.py:157-164 | for any amount, a valid run in which two finishes cross ends with three times the amount spent under a limit of twice the amount |
| TokenQuota.TokenKeys.RunReserveTokens | mixapi/runtime/quota.py:20-28 | the counters and keys after the token reserve script |
| TokenQuota.TokenKeys.RunReconcileTokens | mixapi/runtime/quota.py:30-37 | the counters and keys after the token reconcile script |
| TokenQuota.TokenKeys.RunReleaseTokens | mixapi/runtime/quota.py:39-45 | the counters and keys after the token release script |
| TokenQuota.TokenKeys.RunReserveRequest | mixapi/runtime/quota.py:13-18 | the counter after the request script |
| TokenQuota.TokenKeys.ReserveQuotas | mixapi/app.py:1356-1367 | tokens and a request are taken together or not at all |
| TokenQuota.QuotaHolds | mixapi/runtime/quota.py:13-45 | in every state tokens used plus reserved stay within the limit, the counter is the sum of the reservations, and requests stay within theirs |
| TokenQuota.FinishingReplaces | mixapi/runtime/quota.py:30-45 | reconciling a live reservation replaces what it held by what was used, releasing gives it back, and neither touches anything if it is not live |
| TokenQuota.UsageAddsUp | mixapi/runtime/quota.py:13-37 | over every run the tokens used are those reported for reservations live at the time, and the requests counted are those admitted |
| OutboxLease.InvStep | mixapi/repositories/configuration.py:873-975 | each step keeps every unlapsed lease written in its unprocessed row, and every row that names a worker showing the lease it remembers |
| OutboxLease.LeaseExclusivity | mixapi/repositories/configuration.py:893-935 | under every schedule of workers, crashes and clock ticks an unprocessed row has at most one worker with an unlapsed lease and is not claimable |
| OutboxLease.LapsedWorkerCannotFinish | mixapi/repositories/configuration.py:750-831 | in every reachable state a worker whose own lease lapsed changes nothing by completing, marking or renewing, whether or not the row was claimed again |
| OutboxLease.LapsedReleaseOnlyReopens | mixapi/repositories/configuration.py:961-975 | releasing a lapsed lease changes at most the row that still names the worker and makes nothing claimable that was not |
| OutboxLease.HolderExcludesOthers | mixapi/repositories/configuration.py:937-975 | while a lease lasts no other worker changes its row by completing, marking or releasing it |
| OutboxLease.OthersRely | mixapi/repositories/budgets.py:166-248 | whatever others do while time passes, a lasting lease keeps its row as it is unless the row is finished |
| OutboxLease.HolderFinishes | mixapi/repositories/configuration.py:937-959 | an unlapsed lease is enough to finish the row |
| OutboxLease.FinishedOnce | mixapi/repositories/budgets.py:177-248 | a processed row stays processed and is never claimed again |
| OutboxLease.RowCanBeFinished | mixapi/repositories/configuration.py:893-959 | once the lease in an unprocessed row has lapsed, or without one, any worker can claim the row and finish it, in every state |
| OutboxLease.ProcessFinishesTopic | mixapi/repositories/budgets.py:166-175 | a settling request finishes exactly the unprocessed rows of its own reservation |
| OutboxWorkers.ClaimRows | mixapi/repositories/budgets.py:177-214 | the claim takes the lowest claimable ids, up to the limit and no others |
| OutboxWorkers.ConfigurationWorker.RunOnce | mixapi/workers.py:39-67 | rows, clock and count after a pass are those of publishing the claimed events in order, with anything that others do to the rows meanwhile |
| OutboxWorkers.ConfigurationPass | mixapi/workers.py:39-67 | beside any other workers, a pass closes exactly the versions it finished while it still owned an event; within its lease every claimed version whose publication did not break is closed by it or has a claimed event finished by others |
| OutboxWorkers.BudgetWorker.ReconcilePending | mixapi/runtime/budget.py:126-155 | Redis, rows, clock, count and exception after `reconcile_pending`, with the spend read for each row and anything that others do to the rows meanwhile |
| OutboxWorkers.FinishAllSubtracts | mixapi/runtime/budget.py:126-164 | the scripts of a pass take exactly the unmarked claimed reservations out of each key, keep the counter their sum and show the spend read for the last row that wrote |
| OutboxWorkers.BudgetPass | mixapi/runtime/budget.py:126-155 | beside any other workers, scripts run and rows are completed up to the first exception, and the count is that of the rows completed without one; within the lease these are all that others did not finish, the failing row is completed or claimable again and the rest keep their lease |
| SnapshotStore.RedisSnapshots.RunWritePending | mixapi/runtime/snapshots.py:79-93 | the store after `write_pending`, including the conflict with a different payload |
| SnapshotStore.RedisSnapshots.RunMarkReady | mixapi/runtime/snapshots.py:20-37 | the store and result after `_MARK_READY` |
| SnapshotStore.RedisSnapshots.RunActivate | mixapi/runtime/snapshots.py:40-60 | the store and result after `_ACTIVATE` |
| SnapshotStore.RedisSnapshots.RetainVersions | mixapi/runtime/snapshots.py:171-204 | the store after the retention sweep |
| SnapshotStore.StepKeepsInv | mixapi/runtime/snapshots.py:20-60 | each step of any publisher keeps versions at or above the pointer without TTL, manifests matching their payloads, and the pointer from falling |
| SnapshotStore.PointerSafety | mixapi/publication.py:148-191 | under every interleaving of publishers, rebuilds, sweeps and expiries the active version never decreases and always has a payload and a manifest without TTL whose checksum is the payload's, from any sound store such as the empty one (`EmptyIsSound`) |
| SnapshotStore.ActivationFailsOnlyWhenSuperseded | mixapi/publication.py:177-191 | the activation of a publisher succeeds exactly when no newer version is active, and otherwise changes nothing |
| SnapshotStore.PublicationSucceeds | mixapi/publication.py:177-191 | in every state, a publisher of a version that nothing stored contradicts, undisturbed, gets through: payload and manifest are stored, everything else is as it was, and the version is active unless a newer one is |
| SnapshotStore.RebuildSucceeds | mixapi/publication.py:148-191 | an undisturbed rebuild of a stored current version makes it active again |
| SnapshotStore.WriteAnswers | mixapi/runtime/snapshots.py:79-93 | by what the payload key held, a write creates, finds the same or conflicts, and only creation changes the store |
| SnapshotStore.MarkAnswers | mixapi/runtime/snapshots.py:20-37 | by what the two keys held, marking answers 1, 0, -1, -2 or -3, and only 1 writes the manifest |
| SnapshotStore.ActivateAnswers | mixapi/runtime/snapshots.py:40-60 | by what the keys held, activation answers 1, 0, -1, -2 or -3, and only 1 moves the pointer |
| SnapshotStore.RetentionResult | mixapi/runtime/snapshots.py:171-204 | which published versions a sweep keeps for good, keeps for a time, or deletes |
| SqliteImport.Importer.Commit | mixapi/migration/sqlite_import.py:467-495 | one batch: rows and checkpoint together, or neither after a conflict |
| SqliteImport.Importer.MigrateSqlEntity | mixapi/migration/sqlite_import.py:467-495 | rows and checkpoints after a call that stops anywhere |
| SqliteImport.InsertNext | mixapi/migration/sqlite_import.py:605-633 | the next source row is refused exactly when the destination's own rows disagree with it |
| SqliteImport.BatchStep | mixapi/migration/sqlite_import.py:760-795 | a committed batch takes the table to the next checkpointed prefix, and its cursor is always new |
| SqliteImport.CheckpointsTellTheTruth | mixapi/migration/sqlite_import.py:467-495 | after any sequence of interrupted calls with any batch sizes the table is its initial rows and the fresh rows of the source prefix that the checkpoints count |
| SqliteImport.ResumedEqualsCleanRun | mixapi/migration/sqlite_import.py:467-495 | a finished import, however interrupted, equals one uninterrupted import; it can finish exactly when no destination row disagrees with the source |
| SqliteImport.FinishedImportHoldsOnce | mixapi/migration/sqlite_import.py:467-495 | a finished import, however interrupted, leaves the destination within its constraints and holding each source row exactly once, after its own rows and with nothing else |
| SqliteImport.FreshCounts | mixapi/migration/sqlite_import.py:605-633 | the rows an import adds are the source rows that the destination did not hold, each as often as in the source |
| SqliteImport.VerificationSucceedsIff | mixapi/migration/sqlite_import.py:729-758 | for any destination, verifying succeeds exactly when no fresh row shares an identity column with a row the destination had or with an earlier fresh one |
| SqliteImport.FinishedImportVerifiesIff | mixapi/migration/sqlite_import.py:729-758 | the same of every finished import, however often it was interrupted |
| SqliteImport.SingleColumnTablesVerify | mixapi/migration/sqlite_import.py:729-758 | where each identity column is unique by itself every finished import into any destination verifies |
| SqliteImport.TwoDecisionsOfOneTenant | mixapi/migration/sqlite_import.py:605-633 | two route decisions of one tenant import cleanly and then fail verification |
| SqliteImport.DecisionBesideAnother | mixapi/migration/sqlite_import.py:605-633 | so does one decision of a tenant of which the destination had another |
| SqliteImport.PutReaches | mixapi/migration/sqlite_import.py:661-702 | how far a pass over Redis rows gets, and that it stops only at a row Redis contradicted to begin with |
| SqliteImport.RedisResumedEqualsCleanRun | mixapi/migration/sqlite_import.py:635-659 | although rows and checkpoint are not one transaction, interrupted calls that cover the source leave Redis as one clean pass |
| SqliteImport.RedisHoldsEveryRow | mixapi/migration/sqlite_import.py:635-702 | once the checkpoints cover the source, Redis holds the payload of every source row and all other keys are as they were |
| CorrectiveRetry.WordsCountSplit | mixapi/adapters.py:1106-1107 | counting word ends counts the parts that `split` returns, and these are the tokens, or one for a text of white space |
| CorrectiveRetry.ExtractTextIs | mixapi/adapters.py:1066-1087 | the text counted is every message text and text part in order, with spaces between them |
| CorrectiveRetry.CorrectionSays | mixapi/structured_output.py:95-122 | the corrected input keeps all messages and adds one that gives the request and the bounded path and message of the first three failures, in order |
| CorrectiveRetry.MessageWords | mixapi/structured_output.py:145-160 | every failure message, with the mark after it, is at most 29 words because of its fixed wording |
| CorrectiveRetry.InstructionWords | mixapi/structured_output.py:95-122 | the instruction for any reported failures is at most 312 words |
| CorrectiveRetry.CorrectiveReserveIsEnough | mixapi/structured_output.py:95-122 | for every request and all failures that validation can report, the corrected request counts at most 320 tokens more |
| CorrectiveRetry.CharacterLimitsAloneAreNotEnough | mixapi/structured_output.py:13-16 | some failures within the character limits, but with other messages than validation writes, make the corrected request exceed the reserve |
| RequestCost.HalfEvenIsUnique | mixapi/app.py:2336-2344 | half-even rounding is the only nearest integer that is even when two are equally near |
| RequestCost.CostMonotone | mixapi/app.py:2336-2344 | with non-negative prices more tokens never cost less after rounding |
| RequestCost.CostIsNearest | mixapi/app.py:2336-2344 | a cost in units of 1e-8 USD is the integer nearest to a hundred times the tokens at their own prices per million, even between two |
| RequestCost.MillionTokens | mixapi/app.py:2336-2344 | a million input or output tokens alone cost the rounded input or output price |
| RequestCost.StructuredReservationAdds | mixapi/app.py:1318-1336 | a structured reservation adds for each candidate a first dispatch and a corrective one of 320 more input tokens |
| RequestCost.UnstructuredReservationIs | mixapi/app.py:1207-1211 | any other reservation is the cost of its dearest candidate |
| RequestCost.TokensAre | mixapi/app.py:1339-1353 | the token estimate sums two dispatches and 320 tokens for each candidate of a structured request, and is the largest candidate's, or the prompt's, otherwise |
| RequestCost.UnitsAdmitsExactlyIff | mixapi/runtime/budget.py:176-177 | the truncated limit admits exactly the sums that the exact comparison admits if and only if the limit is not a negative fraction of one unit |
| RequestCost.BudgetEligibleCandidates | mixapi/app.py:1172-1219 | eligible and rejected candidates and the reservation of the loop are those of the plan |
| RequestCost.FittingFits | mixapi/app.py:1192-1205 | a candidate is eligible exactly when it is structured or its own estimate is within the limit |
| RequestCost.ReservationCovers | mixapi/app.py:1207-1218 | the reservation is at least every estimate it was made from |
| RequestCost.PlanWithinMaxCost | mixapi/app.py:1172-1219 | a plan never reserves more than `max_cost_usd`, keeps exactly the candidates that fit and names the others, and is refused exactly when no candidate fits alone or the structured sum does not |
| RequestCost.TokensCover | mixapi/app.py:1339-1353 | the token estimate covers each candidate's first dispatch |
| Dispatch.DispatchResponseWithFallback | mixapi/app.py:1370-1514 | the outcome of the nested loops, gates, break and corrective retry included, is that of trying the candidates in order |
| Dispatch.FirstAnsweringCandidateIsSelected | mixapi/app.py:1370-1514 | the loop answers exactly when some candidate would be let through and accepted, and selects the first one |
| Dispatch.CandidateLeaves | mixapi/app.py:1384-1508 | from the gates, replies and validation alone: a candidate is charged for each of its replies in order, rejected ones included, is reported for each failure, rejection or refusing gate, and answers exactly with its last reply if that is acceptable |
| Dispatch.FallbackTries | mixapi/app.py:1370-1514 | what the loop bills and reports is exactly what the candidates it tried leave, in order: all of them, or those up to the first that answers, whose last reply is the response |
| Dispatch.EveryReplyIsSettled | mixapi/app.py:525-654 | a request settles exactly if some candidate it tried replied, with one event per reply at that candidate's prices that add up to the amount, and releases its reservation otherwise |
| Dispatch.BilledAppend | mixapi/app.py:1925-1942 | the totals add the cost and the input and output tokens of each dispatch |
| Dispatch.UnstructuredBillsOnce | mixapi/app.py:1465-1474 | without a schema an answer bills its one dispatch and a failure bills none |
| Dispatch.FallbackBills | mixapi/app.py:1370-1514 | if each dispatch reports at most its own estimate, then on both exits what is billed is within the reservation and the token estimate |
| Dispatch.EachCandidateBillsAtMostTwice | mixapi/app.py:1420-1500 | whatever providers report, each candidate adds at most two dispatches, one without a schema, failed ones included, all its own and after those before it |
| Dispatch.DispatchStreamWithFallback | mixapi/app.py:1517-1614 | the streaming loop gives the first candidate that is let through and starts, with the failed attempts before it |
| Dispatch.FirstStartingCandidateStreams | mixapi/app.py:1517-1614 | each candidate before the one that streams has one failed attempt with its own reason; none streams exactly when all have one |
| Dispatch.StreamingChoosesAlike | mixapi/app.py:1370-1614 | without a schema and behind the same gates, the streaming loop and the blocking loop select the same candidate with the same failed attempts when streams start where dispatches reply |
| Dispatch.EventsAddUp | mixapi/app.py:1945-1975 | one usage event per billable dispatch, of the request's key and at the cost of that dispatch, and these add up to the total |
| Dispatch.BilledAtMostReserved | mixapi/app.py:544-654 | whatever providers and validation do, if each dispatch reports at most its own estimate then a request settles at most its reservation, its token estimate and its `max_cost_usd`, with events that add up to the amount |
| Dispatch.CountedReportsBillAtMostReserved | mixapi/app.py:1318-1336 | the same when providers report at most the words counted in what was sent, because the reserve covers every corrected request |
| Routing.OrderedCandidates | mixapi/routing.py:219-237 | ranking bucket by bucket in ascending score is the stable sort by score and rank |
| Routing.PlanRoute | mixapi/routing.py:33-98 | the decision of the loop, refusal included, is that of the route function |
| Routing.EligibleIffServes | mixapi/routing.py:101-133 | exactly the candidates that are active, fit the pins and have every capability asked for are eligible |
| Routing.FirstIsBest | mixapi/routing.py:208-216 | the candidate tried first is the cheapest, fastest, most reliable or lowest-priority-number one that can serve |
| Routing.RouteRefusedIff | mixapi/routing.py:84-86 | a route is refused exactly when every candidate is rejected |
| Routing.RejectionIsFirstFailed | mixapi/routing.py:101-133 | a rejected candidate is given the reason of the first check it fails |
| Routing.RefusalNamesFirstReason | mixapi/routing.py:268-272 | a refused route gives the reason of the first candidate that no pin excluded, or else of the first |
| Routing.TiesGoByDraw | mixapi/routing.py:240-244 | among equally good candidates the smaller draw per weight comes first |
| Routing.RouteIsOrdered | mixapi/routing.py:88-98 | eligible candidates are listed by score, then rank, and each passes every check |
| Routing.RoutePartitions | mixapi/routing.py:66-82 | each candidate stands exactly once, as eligible or as rejected with its reason |
| Routing.RemovalKeepsRoute | mixapi/routing.py:219-237 | removing any candidates leaves the others in the same relative order |
| Routing.OpenCircuitsAndBudgetKeepOrder | mixapi/app.py:1222-1249 | the candidates left by circuit breaker and budget are tried in the order of a catalogue that never had the others |
| Routing.RaisingWeightMovesForward | mixapi/routing.py:240-244 | raising one candidate's weight moves it to no later place and leaves all the others in order |
| RouteOrder.BucketsAreOrder | mixapi/routing.py:219-237 | the sorted buckets in ascending score, one after the other, are the stable sort |
| RouteOrder.RemovingKeepsOrder | mixapi/routing.py:219-237 | the stable sort commutes with removing items |
| RouteOrder.ReplacingMovesOnlyIt | mixapi/routing.py:219-237 | replacing one item by one that compares no later changes only its own place |
| Sorting.OrderedUnique | mixapi/snapshots.py:53-80 | two ordered lists of the same elements without ties are the same list |
| Sorting.LessAtDifference | mixapi/snapshots.py:53-80 | ids are compared at their first different character, or by length |
| ConfigurationSnapshot.GraphErrorIff | mixapi/snapshots.py:370-395 | `_validate_graph` accepts exactly the snapshots with unique ids and no dangling reference |
| ConfigurationSnapshot.CreateIsCanonical | mixapi/snapshots.py:39-79 | `create` gives one snapshot and checksum, or one error, for every order of providers, models, candidates and aliases |
| ConfigurationSnapshot.CreateHoldsRows | mixapi/snapshots.py:39-79 | `create` succeeds exactly for a positive version, an aware time and a closed graph, and the snapshot holds the given rows in order and nothing else |
| ConfigurationSnapshot.NormalizedArranges | mixapi/snapshots.py:39-79 | of each model only the aliases change, to the same ones in order |
| ConfigurationSnapshot.AcceptedIsClosed | mixapi/snapshots.py:81-147 | every accepted payload is closed, canonical and matches its checksum |
| ConfigurationSnapshot.SnapshotRoundTrip | mixapi/snapshots.py:81-155 | a created snapshot can be written, and reading it back gives the same snapshot exactly when all timestamps carry an offset |
| ConfigurationSnapshot.ReencodingIsStable | mixapi/runtime/snapshots.py:95-102 | the text that `mark_ready` encodes again from a stored payload is the stored payload |
| SnapshotJson.ProviderBack | mixapi/snapshots.py:174-240 | reading a written provider gives it back exactly when its timestamps carry an offset |
| SnapshotJson.ModelBack | mixapi/snapshots.py:243-277 | the same for a logical model with sorted aliases |
| SnapshotJson.CandidateBack | mixapi/snapshots.py:280-359 | the same for a candidate with all its fields |
| RoutingCatalog.CatalogFromSnapshot | mixapi/routing_catalog.py:10-55 | for a closed snapshot no lookup misses, and each model's list holds its candidates, with their providers, in sorted order |
| RoutingCatalog.CatalogIsTotal | mixapi/routing_catalog.py:10-55 | every model has a list and nothing else does; a candidate stands exactly as often under its own model as in the snapshot, never under another |
| RoutingCatalog.CatalogIsOrdered | mixapi/routing_catalog.py:15-18 | each list is in ascending (priority, id) |
| RoutingCatalog.ValidateConfiguration | mixapi/publication.py:193-231 | the publisher's check passes exactly for configurations whose aliases, references and candidate counts are acceptable |
| RoutingCatalog.ExpectedAliasIsLast | mixapi/publication.py:201-205 | an alias goes to the last model that lists it |
| RoutingCatalog.OnlyListerIsLast | mixapi/publication.py:201-205 | an alias that only one model lists goes to that model |
| RoutingCatalog.PublishedSnapshotIsUsable | mixapi/snapshots.py:157-160 | after the check every model has an entry and resolves to itself, and every alias shadows no id and resolves to a model that lists it, the only one when no alias is listed twice |
| AuthCache.EffectiveAdmitsBoth | mixapi/auth_cache.py:118-129 | the effective list admits a model exactly when the key's and the tenant's lists both do, an empty list meaning unrestricted |
| AuthCache.RedisAuthCache.ResolveSecret | mixapi/auth_cache.py:35-70 | cache and answer after `resolve`, undecodable and expired entries included |
| AuthCache.RedisAuthCache.DeleteKeyHash | mixapi/auth_cache.py:72-76 | the cache without that entry |
| AuthCache.RedisAuthCache.DeleteTenant | mixapi/auth_cache.py:78-88 | the cache without the live members of the tenant's set, and without the set |
| AuthCache.ControlPlaneStore.UpdateApiKey | mixapi/repositories/control_plane.py:122-183 | table, cache and result after an update of the row with an id: the named columns change, the others stay, and its cache entry goes |
| AuthCache.ControlPlaneStore.RevokeApiKey | mixapi/repositories/control_plane.py:185-214 | table, cache and result after the revocation of the row with an id |
| AuthCache.ControlPlaneStore.UpdateTenantPolicy | mixapi/repositories/control_plane.py:270-322 | table and cache after a policy change; the part not set is kept |
| AuthCache.ControlPlaneStore.AuthenticateSecret | mixapi/auth_cache.py:35-70 | under the invariant the answer is what the loader would return |
| AuthCache.StepFresh | mixapi/auth_cache.py:35-88 | each operation keeps every live entry equal to the database and in a tenant set that outlives it |
| AuthenticationJson.EntriesDiffer | mixapi/auth_cache.py:132-159 | two authentications have the same entry only if they are the same |
| AuthenticationJson.DecodeUndoesEncode | mixapi/auth_cache.py:132-186 | an entry is read back as the authentication that was written, an absent allowlist apart from an empty one, whatever other keys stand in it |
| AuthCache.ResolveAgreesWithDatabase | mixapi/repositories/control_plane.py:83-94 | after every sequence of operations and clock steps `resolve` returns what the loader would |
| AuthCache.ResolveGrantsWhatRowsGrant | mixapi/auth_cache.py:35-115 | after every run, `resolve` accepts exactly the keys that exist, are active and not expired, and gives each the columns of its row, its tenant's objective, and a model exactly if the row's list and the tenant's list both admit it |
| AuthCache.ResolveUsesEntries | mixapi/auth_cache.py:35-70 | a live entry answers until its key expires; anything else is replaced by what the rows grant, for the time to live and under its tenant's set, or leaves no entry |
| AuthCache.AmendChangesOneRow | mixapi/repositories/control_plane.py:122-210 | an update changes the named columns of the row with the id and revoking its activity, and nothing else |
| AuthCache.RevokedNeverResolves | mixapi/repositories/control_plane.py:185-214 | from its revocation on, no run of operations makes a key resolve |
| Circuits.RedisCircuitBreaker.QueryOpen | mixapi/runtime/circuits.py:11-21 | the key and the answer of `_IS_OPEN`; other keys are untouched |
| Circuits.RedisCircuitBreaker.RecordFailure | mixapi/runtime/circuits.py:23-32 | the key after `_FAILURE` for a transient reason, and no change for any other |
| Circuits.RedisCircuitBreaker.RecordSuccess | mixapi/runtime/circuits.py:66-73 | the key is gone |
| Circuits.TransientStatusIff | mixapi/circuits.py:14-27 | an HTTP status counts as a failure exactly if it is 429 or at least 500 |
| Circuits.TransientReasonIff | mixapi/circuits.py:14-27 | of the reasons that name no status exactly three count |
| Circuits.IsOpenRefinesHistory | mixapi/runtime/circuits.py:11-32 | for every history, a circuit is open exactly when the failures since the last reset reached the threshold and less than the recovery time has passed since the last of them |
| Circuits.ExpiryNeverClosesEarly | mixapi/runtime/circuits.py:23-32 | the key is present throughout the recovery time: it lives for twice that time, and at least a minute, after the last failure |
| Circuits.OpenNeedsFailures | mixapi/runtime/circuits.py:23-32 | an open circuit has had threshold failures since its last success |
| Circuits.DenseOpensAtThreshold | mixapi/runtime/circuits.py:11-32 | while events keep coming within the recovery time it is open exactly when the failures since the last success reached the threshold |
| Base64Url.DecodeUndoesEncode | mixapi/usage.py:201-218 | decoding undoes encoding with padding |
| Base64Url.EncodeKeepsNumber | mixapi/usage.py:201-218 | three bytes become the four symbols of the standard alphabet that write the same 24-bit number |
| Base64Url.RoundTrip | mixapi/usage.py:247-250 | stripping the padding and restoring it from the length loses nothing |
| UsagePages.RunQuery | mixapi/repositories/usage.py:167-199 | the built clauses and the extra row fetched give the first matching rows and whether more exist |
| UsagePages.CursorIsBound | mixapi/usage.py:239-271 | a cursor is accepted exactly for its tenant and time window and gives back its position |
| UsagePages.RowsAfter | mixapi/repositories/usage.py:174-181 | the rows after a row's key are the rows that follow it |
| UsagePages.FollowingCursors | mixapi/app.py:930-961 | after n requests a client holds the first n * limit matching events and is done exactly when they cover all |
| UsagePages.FollowingEnds | mixapi/app.py:930-961 | following cursors ends with exactly the matching events in order |
| UsagePages.WalkHoldsWindow | mixapi/app.py:930-961 | what a client ends up with is the tenant's events within the inclusive bounds, each once, by time and id |
| UsagePages.RefusedIff | mixapi/usage.py:157-196 | which requests with readable timestamps are refused, and with which code |
| Sse.SseMessages | mixapi/adapters.py:1040-1055 | the messages of the loop are those of reading the lines one by one |
| Sse.PrintedStreamReadsBack | mixapi/streaming.py:8-10 | reading the lines of any printed stream gives back its names and data in order |
| Sse.OtherLinesIgnored | mixapi/adapters.py:1040-1055 | comments and unknown fields change nothing wherever they stand |
| Sse.TextDeltas | mixapi/streaming.py:13-19 | the deltas join to the text, one for each word with the space after it |
| Sse.NonEmptyTextDeltas | mixapi/adapters.py:1058-1063 | the same, and none is empty |
| ProviderStreams.MachineMeaning | mixapi/adapters.py:243-299 | every machine yields one delta for each non-empty text and then exactly one completion, or fails with its reason; it completes exactly if a finish precedes any failure, with the texts and the last token counts up to there |
| ProviderStreams.OpenAiEvents | mixapi/adapters.py:243-299 | the events of the OpenAI machine for every list of frames and way of ending |
| ProviderStreams.AnthropicEvents | mixapi/adapters.py:450-508 | the events of the Anthropic machine |
| ProviderStreams.GeminiEvents | mixapi/adapters.py:646-704 | the events of the Gemini machine, which completes when the response closes after a frame |
| ProviderStreams.OllamaEvents | mixapi/adapters.py:865-912 | the events of the Ollama machine |
| ProviderStreams.OpenAiMeaning | mixapi/adapters.py:243-299 | an OpenAI stream says the contents of its chunks and the counts of its last usage, is complete at the end mark and fails without it |
| ProviderStreams.AnthropicMeaning | mixapi/adapters.py:450-508 | an Anthropic stream says its text deltas, counts input at a start and output at a message delta, and is complete at the stop |
| ProviderStreams.GeminiMeaning | mixapi/adapters.py:646-704 | a Gemini stream of usable frames says their parts and the counts of its last usage, and is complete when the response closes after a frame |
| ProviderStreams.GeminiBreaks | mixapi/adapters.py:646-704 | an unusable Gemini frame ends it there |
| ProviderStreams.OllamaMeaning | mixapi/adapters.py:865-912 | an Ollama stream says the contents of its lines up to the one that is done, which also has the counts |
| ProviderStreams.ProviderStream.constructor | mixapi/adapters.py:40-61 | a stream without a first event is closed at once |
| ProviderStreams.ProviderStream.Close | mixapi/adapters.py:70-74 | the underlying close is called once however often `close` is |
| ProviderStreams.ProviderStream.Next | mixapi/adapters.py:63-68 | events are handed out in order and the end closes the stream |
| StreamLifecycle.NativeResponseEventStream | mixapi/app.py:1617-1791 | messages for every provider stream and every moment at which the client leaves; the accounting gains exactly the expected settlement on every path and the provider stream is closed once |
| StreamLifecycle.StreamLifecycleHolds | mixapi/app.py:1636-1791 | created, then deltas, then at most one ending, with exactly one settlement; a completed message carries exactly the text sent |
| StreamLifecycle.SettlementMatchesMessages | mixapi/app.py:1794-1894 | the settlement records no failure exactly if the stream completed, and counts what was reported or what was sent |
| StreamLifecycle.CompletedStreamCounts | mixapi/app.py:1662-1745 | a stream that completes for its client is settled and reported with the counts of its first completed event; prompt and text stand in for a missing count |
| StreamLifecycle.BrokenStreamCounts | mixapi/app.py:1794-1820 | without a completed event the prompt and the whole text are settled under the provider's reason |
| StreamLifecycle.LeftStreamCounts | mixapi/app.py:1794-1820 | a client that leaves early was sent exactly that many deltas, and the prompt and these are settled |
| StreamLifecycle.DisconnectedIff | mixapi/app.py:1640-1660 | a disconnection is recorded exactly when the client left before the ending |
| StreamLifecycle.DeltaIsSent | mixapi/app.py:1636-1660 | every delta of an event heard is one message at its place |
| StreamLifecycle.MachineCountsAreSettled | mixapi/app.py:1636-1745 | over any provider machine a client that stays is billed for the last counts before the finish, or for prompt and text; a failure is recorded with the machine's reason |
| StreamLifecycle.WholeFeedCounts | mixapi/app.py:1636-1745 | the settlement of a stream heard to its end follows from what its provider's frames mean |
| StreamLifecycle.MachineTextIsDelivered | mixapi/app.py:1636-1660 | over any provider machine a client that stays receives the whole text, and a completion exactly if the machine completed |
| StreamLifecycle.StreamBilledAtMostReserved | mixapi/app.py:1713-1745 | a stream whose reported counts, or whose text sent where that is counted instead, are within the estimate settles at most the reservation and the token estimate, whether it completes, breaks off or loses its client anywhere |
| StreamLifecycle.WholeTextIsEnough | mixapi/app.py:1794-1820 | a provider whose whole text and reported counts are within the estimate keeps every such stream within it |

## Left out

- HTTP routing, request validation, settings, the CLI, observability and audit rows: they feed back into nothing proved here.
- The embeddings path, which repeats the dispatch loop without retries or schemas.
- The balance of concurrency slots: the response path returns without releasing its slot (mixapi/app.py:1470-1494) and the request-quota branches leave after taking one (mixapi/app.py:1396-1405), so slots are a given of each request here.
- `BootstrapService.apply`, a sequence of compare-and-upsert calls on the configuration tables, and `_canonical_allowlist`, a set of resolved names.
- SQL and Redis engines, SHA-256, AES-GCM, JSON text and the JSON Schema validator are atomic steps or uninterpreted functions; a checksum is a function of the JSON tree.
- `load_publication_configuration` reads the current rows, so nothing is claimed about which rows the snapshot of a version holds.
- Precision of Lua numbers and of the decimal context: amounts are exact.
- Redis evictions and data loss other than the TTLs that the code sets, and expiry of imported Redis rows during an import.
- Exceptions other than `ProviderDispatchError` and `GeneratorExit` inside the stream generator, and a stream whose generator is never started.
- A `LIMIT 1` without an order is the earliest stored row.
- AuthCache.ResolveAgreesWithDatabase: operations are atomic under one clock; the cache is invalidated before the transaction commits, so freshness under overlapping transactions is not covered.
- OutboxWorkers.FinishAllSubtracts: no other script touches a key between those of one pass; SpendCap.DeliveriesSubtractOnce is about every interleaving.
- UsageLedger.BooksAgree: the agreement with usage events is for callers that pass the sum of their events, which Dispatch.BilledAtMostReserved proves of the response path.
- Dispatch.BilledAtMostReserved: assumes that each dispatch reports at most the tokens estimated for it, 320 more than the input for a corrective one, and at most the output limit; nothing in the program enforces it.
- StreamLifecycle.StreamBilledAtMostReserved: assumes the same of a stream's reported counts, and of its text where that is counted instead.
- AuthenticationJson.DecodeUndoesEncode: decimals and timestamps are texts that are read back as written; fields of another JSON type than the program writes are refused, where Python keeps some of them as they are.
- ConfigurationSnapshot.SnapshotRoundTrip: metadata and pricing are already plain JSON (`_json_value` is not modelled), keys of an object have no order, and error messages are not kept apart.
- Circuits.RedisCircuitBreaker.RecordFailure: the status in `upstream_http_…` is a text of digits; the other spellings that Python's `int` accepts are not modelled.
- UsagePages.RunQuery: the table is held in the order of its index, and filtering by tenant is by equality of text.
- Base64Url.DecodeUndoesEncode: foreign characters are refused, where the library skips them.
- CorrectiveRetry.CorrectiveReserveIsEnough: JSON input is a tree of messages and parts; the other fields of a request are copied and not modelled.
- Routing.RaisingWeightMovesForward: minus the logarithm of the digest is any non-negative real; floating-point rounding is not modelled.
- StreamLifecycle.NativeResponseEventStream: payloads of messages are reduced to text and token counts.
