# A verified model of the CEO portal's stateful cores

This project models, in Dafny, the parts of the CEO portal whose correctness is a matter of whole runs rather than
single branches, and proves what they keep.

| file | what it models |
|---|---|
| `CommandFabric.dfy`, `FabricInvariant.dfy`, `FabricAnswers.dfy`, `FabricRuns.dfy` | the durable command fabric as a protocol of atomic steps on four tables, with messages sent again, lost or reordered and a publisher that can be stopped anywhere; what its steps keep; which commands are ever answered; states it reaches |
| `CommandService.dfy`, `OutboxPublisher.dfy`, `CommandProcessors.dfy`, `ResultConsumer.dfy`, `MessageBroker.dfy` | its participants: submission and retry, the outbox publisher, the two command processors, the inbox and the connectors, the fallback broker |
| `Deduplication.dfy`, `Runs.dfy` | the induction arguments behind exactly-once effects and invariants of runs, for any state |
| `Redaction.dfy`, `StreamRedactor.dfy`, `PatternScan.dfy`, `SsnMatcher.dfy`, `CardMatcher.dfy`, `Luhn.dfy` | personal data redaction, batch and streaming, pattern search, two concrete patterns, and the card number check |
| `UsageLimits.dfy` | the rolling-window usage limiter |
| `RoleHierarchy.dfy`, `RoleQuery.dfy`, `RoleTree.dfy` | parent edits of roles with their cycle guard, the query for the tree's rows, and the tree builder |
| `CircuitBreaker.dfy`, `ResilientCall.dfy`, `ServiceRegistry.dfy` | the availability layer |
| `PurchaseRequests.dfy`, `DecidedRequests.dfy`, `Enrichment.dfy` | the purchase-request read model, what it shows of decided requests over runs of the fabric, and its currency enrichment |
| `Tables.dfy`, `Text.dfy`, `Wrappers.dfy` | shared rows and envelopes, string operations, Option |

Code that changes state is modelled by classes and methods with loops; each is tied to a function of the old state, and
the properties are lemmas about those functions. The clock, random ids, network answers and database outcomes are
parameters. A database transaction or a single statement is one step, and one that raises has not taken effect.

## What turned out not to hold

The code is modelled as it is. Where a natural claim fails, the exact condition is proved and, for nearly all, a
concrete input or run.

- Streaming redaction is documented to give what batch redaction of the whole text gives. It does not: the redactor
  checks its cut against selected spans only, so a cut may fall into a match that is kept readable
  (`CardMatcher.KeptMatchHidesACard`). The released pieces show the same matches as the whole text exactly if no cut falls
  into a match of any rule, selected or not (`StreamRedaction.CleanRunIff`), and then outputs and counts agree
  (`StreamRedaction.CleanRunsStreamLikeBatch`).
- An outbox row does not account for its publish calls once one was lost: a publisher stopped while it waits for the
  broker leaves the row as it was, and publishes it again later (`FabricInvariant.RowShowsItsCallsIff`,
  `FabricRuns.LostCallIsRepeated`).
- A result does not end a command: starting it again sets PROCESSING with no regard to its status, and the inbox then
  ignores every further result (`FabricAnswers.RestartAfterAnswerSticks`, `StuckForever`). Every started command
  can end so, and a recovery, which starts each command twice, needs no second message for it
  (`FabricRuns.EveryStartedCommandCanStick`, `RecoveredCommandSticks`).
- No accepted retry is ever answered. The comment above the call in `retry_command` promises a new correlation; the code
  passes the old one, under which a result is always recorded by then (`FabricAnswers.AcceptedRetryIsNeverAnswered`).
- A decided purchase request is listed as pending again offline exactly when no command of resource type `request` for it
  is queued or processing, so already when its command is with the broker (`DecidedRequests.DecidedRequestReturnsIff`,
  `ApprovedRequestReturns`), and for resource type `purchase_request` at once (`OtherTypeIsNeverCovered`).
  The status reported for rejections and cancellations is misspelt (`CommandProcessors.DecidedRowIsListedBy`).
- An ma update with a status that is neither a text nor null is never reported (`CommandProcessors.MaStaysSilentIff`,
  `NumericStatusIsSilent`).
- Enrichment is not idempotent for a conversion that says `is_converted: false` while only the request's currency is
  foreign, nor for texts encoded twice (`Enrichment.EnrichedTwiceIff`, `ContradictionExample`).
- The fallback broker and the live one route some keys differently (`MessageBroker.FallbackAgreesIff`, `MisroutedKey`).
- Two overlapping parent edits can close a cycle although each passed the guard (`RoleHierarchy.OverlappingMoves`,
  `TwoRootsCycle`).
- The tree query repeats rows once SUPER_ADMIN has been moved under another role (`RoleQuery.RowsAreDistinctIff`,
  `MovedSuperRepeatsChildren`).
- A refusal by the portal with a reason that is not a text counts as an error to be retried
  (`CommandProcessors.FailedDecision`, `ListedReasonIsRetryable`).
- A breaker opened by a health probe alone never lets a request through by itself
  (`CircuitBreakers.OpenAdmitsSomeTimeIff`, `ProbeOpensForGood`).
- The hours named in a refusal can be too short (`UsageLimits.HoursSufficeIff`, `HoursTooShort`).
- An "offline" status in the registry does not hold a call back (`ResilientCalls.FetchRunsIffAdmitted`,
  `StatusIsIgnored`).

## Model

| member | source | states |
|---|---|---|
| `FabricInvariant.EveryReachableStateIsConsistent` | services/integration/command_service.py:111-150 | in every state of every run, with publish calls begun, recorded or lost at any time: commands and outbox rows one to one and agreeing, at most one command per key, QUEUED never PUBLISHED, DISPATCHED always PUBLISHED, retry counters and status as bounded by five, publish calls equal the retry count plus one if PUBLISHED plus those lost plus the one in flight, rows in hand always current, and only stored commands are sent, recovered, executed or reported, unaltered |
| `FabricInvariant.RowShowsItsCallsIff` | services/integration/outbox_publisher.py:125-177 | in every state of every run a row's retry count and publication account for all its publish calls if and only if none was lost and none is in flight; and there are at most five calls beyond the lost ones |
| `FabricInvariant.InitialInv` | postgresql_db/schemas/cross_service_schema.py:17-76 | the empty tables satisfy that invariant |
| `FabricInvariant.StepKeepsInv` | services/integration/admin_command_processor.py:122-137 | each kind of step keeps the invariant and moves commands only forward |
| `FabricInvariant.SubmitKeepsInv` | services/integration/command_service.py:111-150 | a submission, accepted or rolled back, keeps the invariant |
| `FabricInvariant.SendKeepsInv` | services/integration/outbox_publisher.py:126-132 | beginning a row's publish call keeps the invariant |
| `FabricInvariant.RecordKeepsInv` | services/integration/outbox_publisher.py:134-177 | recording what a call came to keeps the invariant, whatever happened to the command meanwhile |
| `FabricInvariant.LoseKeepsInv` | services/integration/outbox_publisher.py:36-44 | losing a call (cancellation, crash, failed update) keeps the invariant |
| `FabricInvariant.StartKeepsInv` | services/integration/admin_command_processor.py:122-137 | setting PROCESSING without looking at the old status keeps the invariant |
| `FabricInvariant.DeliverKeepsInv` | services/integration/result_consumer.py:59-160 | delivering a report, possibly again, keeps the invariant |
| `FabricInvariant.CommandsNeverMoveBack` | services/integration/admin_command_processor.py:128-135 | over any run a command keeps its contents and key, never returns to QUEUED, and never to DISPATCHED once it has left it |
| `CommandFabric.BatchIsSteps` | services/integration/outbox_publisher.py:113-177 | the first k rows of the publisher's loop, recorded, publish k rows one after the other |
| `CommandFabric.SendThenRecord` | services/integration/outbox_publisher.py:125-177 | each of them is a publish call that begins and is recorded |
| `FabricAnswers.ReportCountsIffFirst` | services/integration/result_consumer.py:61-69 | a processor's report settles its command if and only if no report with the same service and correlation id was recorded before; otherwise nothing at all changes |
| `FabricAnswers.StuckForever` | services/integration/result_consumer.py:54-69 | a command whose conversation was recorded without an answer to it is never answered in any later state, and stays PROCESSING if it is |
| `FabricAnswers.RestartAfterAnswerSticks` | services/integration/admin_command_processor.py:128-135 | starting a command again after its result was recorded leaves it PROCESSING and stuck, whatever the result was |
| `FabricRuns.EveryStartedCommandCanStick` | services/integration/admin_command_processor.py:122-137 | from every reachable state every command that can be started, with its conversation open, can be answered, started again and stuck, whatever its result |
| `FabricRuns.StuckIsReachable` | services/integration/ma_command_processor.py:57-72 | the same for one concrete ma command that is delivered twice |
| `FabricRuns.RecoveredCommandSticks` | services/integration/admin_command_processor.py:66-103 | the same for a concrete command that a recovery starts twice and that was never sent |
| `FabricRuns.LostCallIsRepeated` | services/integration/outbox_publisher.py:36-44 | every command can lose its publish call, after which its row waits without a trace of it, and be published again |
| `FabricRuns.ConsumedBeforeRecorded` | services/integration/outbox_publisher.py:149-157 | a command can be PROCESSING before its publication is recorded, and the record then leaves its status alone |
| `FabricAnswers.AnsweredIsRecorded` | services/integration/result_consumer.py:101-160 | in every reachable state a SUCCEEDED or FAILED command has its result recorded in the inbox under its service and correlation id, and no command is CANCELLED |
| `FabricAnswers.RetryReusesResultKey` | services/integration/command_service.py:352-362 | a retry's results carry the very inbox key of the original's |
| `FabricAnswers.AcceptedRetryIsNeverAnswered` | services/integration/command_service.py:339-362 | in every reachable state every retry admitted by the guard (original FAILED or CANCELLED) and stored is never answered in any later state |
| `CommandService.InsertCommand` | services/integration/command_service.py:111-279 | command, outbox row and optimistic projection together, or nothing when an id or key is taken or the stored row is not an object |
| `CommandService.SubmitCommand` | services/integration/command_service.py:23-290 | each answer with exactly when it is given: a duplicate key answers with the existing command and its status, and an unknown service, a rejected payload and a failed transaction change nothing; otherwise the command is queued, with the whole new state |
| `CommandService.RetryCommand` | services/integration/command_service.py:339-362 | only FAILED or CANCELLED commands are retried; an eligible retry with a valid payload is queued unless its key is taken or the transaction fails; the new command is QUEUED under the old correlation id |
| `OutboxPublisher.ProcessOutboxBatch` | services/integration/outbox_publisher.py:82-188 | rows, commands, number of publish calls and answer of a batch that runs through, is stopped between rows, is cancelled within a row, or ends with a failing retry update |
| `OutboxPublisher.PublishRow` | services/integration/outbox_publisher.py:125-177 | one row: PUBLISHED and the still queued command DISPATCHED together, or one more retry with the cut-off at five |
| `OutboxPublisher.PublishAllAt` | services/integration/outbox_publisher.py:134-177 | what a batch does to each row by itself: rows outside it stay, rows in it get exactly their own outcome |
| `OutboxPublisher.PublishAllEffect` | services/integration/outbox_publisher.py:134-177 | nothing enters the waiting state, and a waiting row that was attempted has left it or counts one more retry |
| `OutboxPublisher.EveryBatchDrains` | services/integration/outbox_publisher.py:113-177 | the sum of attempts left strictly falls by at least one per row of a batch, and a batch is empty only when nothing waits |
| `OutboxPublisher.OldestAreSelected` | services/integration/outbox_publisher.py:98-108 | a waiting entry with fewer than limit older ones is selected; one that is passed over has a full batch of older ones before it |
| `OutboxPublisher.NoStarvation` | services/integration/outbox_publisher.py:97-177 | with publishes failing arbitrarily and younger entries arriving, an entry with n older ones is attempted within 5 * (n / limit) + 1 batches |
| `OutboxPublisher.NoStarvationWithLateArrivals` | services/integration/outbox_publisher.py:97-177 | with arrivals of any creation time: an entry is attempted within n batches as soon as limit * n exceeds five times the number of older entries, those waiting and those that arrive in these batches |
| `ResultConsumer.HandleIncomingMessage` | services/integration/result_consumer.py:50-160 | the tables after one message: skipped if its inbox key is known or it does not parse, otherwise applied and recorded |
| `ResultConsumer.HandleCommandResult` | services/integration/connectors/admin_connector.py:124-190 | field merge into the row of the result's own type and id, plus the audit row |
| `ResultConsumer.UpsertProjection` | services/integration/connectors/admin_connector.py:147-166 | insert, or replace or merge with version, status and staleness as the conflict clause says |
| `ResultConsumer.ConsumeOnCommands` | services/integration/result_consumer.py:101-120 | a message changes at most the command it names, and only its status and failure |
| `ResultConsumer.RepeatsHaveNoEffect` | services/integration/result_consumer.py:61-69 | delivering any sequence with any repeats equals applying only the first accepted message of each inbox key |
| `ResultConsumer.RedeliveryChangesNothing` | services/integration/result_consumer.py:61-69 | delivering again, in any order, what was delivered before changes nothing |
| `ResultConsumer.FieldComesFromLastSettler` | services/integration/connectors/admin_connector.py:142-222 | a projected field is what the last message that settles it says: the last replacing event, overlaid field by field by later results |
| `ResultConsumer.DeliveredFieldComesFromLastAccepted` | services/integration/connectors/admin_connector.py:142-222 | the same for what is really delivered, with repeats |
| `ResultConsumer.VersionIsLastTouchers` | services/integration/connectors/admin_connector.py:152-163 | a row's version is the one of the last message that touched it, so versions can go down; untouched rows keep version and staleness |
| `ResultConsumer.NoSecondAnswer` | services/integration/result_consumer.py:61-69 | once a result with a command's service and correlation id is recorded, no later result changes that command |
| `Deduplication.RepeatsHaveNoEffect` | services/integration/result_consumer.py:61-69 | the same for any state, message type and effect |
| `Deduplication.LastSettlerDecides` | services/integration/connectors/admin_connector.py:142-222 | where an observation of a sequence of updates comes from, for any state and message type |
| `CommandProcessors.ProcessAdminCommand` | services/integration/admin_command_processor.py:106-337 | PROCESSING is set, the refreshed assignment list stored, and the report sent for every branch, from the remote answers |
| `CommandProcessors.ProcessMaCommand` | services/integration/ma_command_processor.py:40-177 | the same for the ma processor, including the case in which no report can be built |
| `CommandProcessors.ReportsAreReports` | services/integration/admin_command_processor.py:316-328 | both processors send only well formed reports about the command itself, with its correlation id and one of two results |
| `CommandProcessors.FailureKeepsProjections` | services/integration/admin_command_processor.py:323-328 | a failed command's report changes no projection |
| `CommandProcessors.ReportMergesItsFields` | services/integration/connectors/admin_connector.py:142-166 | the first report merges exactly its verdict's fields into the command's own row and keeps all others |
| `CommandProcessors.ActionsOfDecisions` | services/integration/admin_command_processor.py:174-174 | each decision command gets its own action |
| `CommandProcessors.HandledInThreeSteps` | services/integration/admin_command_processor.py:122-336 | start, report and delivery are steps of the command fabric |
| `CommandProcessors.HandledAsJudged` | services/integration/admin_command_processor.py:316-336 | a command whose conversation is open ends SUCCEEDED with exactly the verdict's fields merged into its row, or FAILED with the verdict's failure and no projection touched |
| `CommandProcessors.CarriedOutDecision` | services/integration/admin_command_processor.py:173-193 | a decision the portal carried out ends SUCCEEDED; its row then holds the action's status, the decider and the note, and every other field as before |
| `CommandProcessors.FailedDecision` | services/integration/admin_command_processor.py:141-201 | a decision that is refused, raises or waits in vain ends FAILED and touches no projection; it is retryable if and only if it was not refused with a text as reason or without a reason |
| `CommandProcessors.ListedReasonIsRetryable` | services/integration/admin_command_processor.py:141-201 | a refusal with a list as reason is such a case |
| `CommandProcessors.AdminCommandSucceedsIff` | services/integration/admin_command_processor.py:141-314 | an administration command ends SUCCEEDED if and only if the service came online, the type is known, and a decision's transition succeeded; the portal's answer to the other types is never seen |
| `CommandProcessors.AssignmentRow` | services/integration/admin_command_processor.py:203-223 | the row of a member assignment holds the command's own members and role |
| `CommandProcessors.MaCommandSucceedsIff` | services/integration/ma_command_processor.py:75-156 | a reported ma command ends SUCCEEDED if and only if the service came online and it moves to a stage that is a text, updates by an object, or assigns a lead |
| `CommandProcessors.MaStaysSilentIff` | services/integration/ma_command_processor.py:120-170 | no report is sent at all if and only if an update carries a status that is neither a text nor null |
| `CommandProcessors.NumericStatusIsSilent` | services/integration/ma_command_processor.py:120-170 | an update whose status is a number is such a case |
| `CommandProcessors.UpdatedDealRow` | services/integration/ma_command_processor.py:120-127 | an updated deal's row holds every update, even one of the deal's id, and its other fields as before |
| `CommandProcessors.DecidedRowIsListedBy` | services/integration/admin_command_processor.py:184-193 | once no command covers it, a decided row is listed by its raw status as if nothing had been decided; without a raw status it is listed as completed exactly if approved, since REJECTD and CANCELD are no status the read model knows |
| `MessageBroker.FallbackAgreesIff` | services/notifications/rabbitmq_service.py:128-146 | the fallback routes a key bound by administration.# or ma.# to the live broker's queue if and only if a command key lacks the word event and an ma key lacks the word admin |
| `MessageBroker.MisroutedKey` | services/notifications/rabbitmq_service.py:128-146 | a concrete ma key that the fallback hands to the administration |
| `MessageBroker.InMemoryMessageBroker.Publish` | services/notifications/rabbitmq_service.py:128-146 | the message joins the end of one queue |
| `MessageBroker.InMemoryMessageBroker.Take` | services/notifications/rabbitmq_service.py:377-384 | messages leave in the order sent; taken then waiting is sent, for every queue |
| `MessageBroker.InMemoryMessageBroker.GetQueue` | services/notifications/rabbitmq_service.py:123-126 | a queue is created empty on first use |
| `MessageBroker.ConsumeWaiting` | services/notifications/rabbitmq_service.py:377-389 | the loop hands over the waiting messages one at a time, in order, and the tables are as after consuming them in that order |
| `Redaction.SpansCorrect` | services/ai/ai_guardrails.py:181-192 | selected spans are sorted, disjoint and in bounds; each is a match not kept; every such match is selected or overlaps a selected match of an earlier kind |
| `Redaction.SelectionIsUnique` | services/ai/ai_guardrails.py:181-192 | those properties determine the selection: any sorted list of spans that has them is the one selected, and conversely |
| `Redaction.RedactionKeepsTheRest` | services/ai/ai_guardrails.py:195-207 | the output is the input with the selected spans, and nothing else, replaced by one placeholder each, the rest in place and in order |
| `Redaction.CountsAddUp` | services/ai/ai_guardrails.py:195-207 | counts are per-kind totals and add up to the number of spans |
| `Redaction.FindSpans` | services/ai/ai_guardrails.py:181-192 | the selection loops compute those spans |
| `Redaction.AnyOverlap` | services/ai/ai_guardrails.py:188-190 | the overlap test of a match against the taken spans, both ways |
| `Redaction.RenderSpans` | services/ai/ai_guardrails.py:199-207 | the rewriting loop's text and counts |
| `Redaction.RedactPii` | services/ai/ai_guardrails.py:195-207 | rewritten text and counts, including the empty text |
| `StreamRedaction.CutCorrect` | services/ai/ai_guardrails.py:227-244 | the chosen cut leaves the last HOLD characters, is at whitespace or a span start, never strictly inside a span; from a full buffer it starts a match reaching into the held characters |
| `PatternScan.SplitsIffNotCrossed` | services/ai/ai_guardrails.py:185-187 | a left-to-right search splits at a cut where the pattern agrees on both sides if and only if the cut is inside none of the matches found |
| `StreamRedaction.StreamingIsBatchIffCutsSplit` | services/ai/ai_guardrails.py:210-248 | a reduction to one cut at a time: streaming agrees with batch redaction on every run under MAX_BUFFER if and only if the two sides of each chosen cut, with any continuation, redact separately to what they redact together |
| `StreamRedaction.CleanRunsStreamLikeBatch` | services/ai/ai_guardrails.py:210-248 | for local rules, a run under MAX_BUFFER whose cuts are inside no match of any rule, kept and blocked ones included, puts out text and counts of the whole text's redaction |
| `StreamRedaction.RunFindsTheMatchesIff` | services/ai/ai_guardrails.py:227-248 | for each local rule the released pieces show exactly the matches of the whole text if and only if no cut was inside one of the rule's matches |
| `StreamRedaction.CleanRunIff` | services/ai/ai_guardrails.py:227-248 | all cuts are clean if and only if that holds of every rule |
| `StreamRedaction.SelectedRunsStreamLikeBatch` | services/ai/ai_guardrails.py:227-248 | for local rules that select every match the redactor's own check of the cut is enough on every run under MAX_BUFFER |
| `StreamRedaction.KeptMatchesAloneAreHarmless` | services/ai/ai_guardrails.py:185-187 | clean cuts are not necessary for the output: rules that keep every match stream like batch wherever their matches are cut |
| `CardMatcher.CardAndSsnAreLocal` | services/ai/ai_guardrails.py:170-172 | the card number pattern with its Luhn test and the social security number pattern, in this order, are local |
| `CardMatcher.CleanRunsOfCardAndSsn` | services/ai/ai_guardrails.py:154-172 | so their clean runs under MAX_BUFFER stream like batch, and a run is clean if and only if its pieces show all the matches |
| `CardMatcher.KeptMatchHidesACard` | services/ai/ai_guardrails.py:154-172 | a text of 262 characters, fed as one chunk, for which streaming and batch redaction differ: the cut falls into a kept match |
| `CardMatcher.CardAndSsnDoNotAlwaysAgree` | services/ai/ai_guardrails.py:210-218 | so streaming does not always agree with batch redaction |
| `StreamRedaction.StreamRedactor.Feed` | services/ai/ai_guardrails.py:227-244 | released text plus buffer is the input so far, no cut inside a span, and a buffer left full begins with a match reaching into the held characters |
| `StreamRedaction.StreamRedactor.Flush` | services/ai/ai_guardrails.py:246-248 | the rest is released and redacted |
| `StreamRedaction.StreamRedactor.Emit` | services/ai/ai_guardrails.py:221-225 | one piece redacted and its counts added |
| `StreamRedaction.StreamRedactor.ChooseCut` | services/ai/ai_guardrails.py:229-242 | the loop that pulls the cut back out of a span |
| `StreamRedaction.RedactStream` | services/ai/ai_guardrails.py:210-248 | all feeds and the flush together produce the stream's output and counts |
| `SsnMatcher.SsnSpans` | services/ai/ai_guardrails.py:172-172 | for the social security number pattern the selected spans are exactly the places where it matches |
| `SsnMatcher.SsnStreamsLikeBatch` | services/ai/ai_guardrails.py:172-172 | alone in the list, the pattern streams like batch on every run whose buffer stays under MAX_BUFFER |
| `SsnMatcher.MatchesNeverOverlap` | services/ai/ai_guardrails.py:172-172 | two matches never overlap |
| `Luhn.OneDigitChangeIsDetected` | services/ai/ai_guardrails.py:137-146 | changing one digit of a valid number of any length makes it invalid |
| `Luhn.SwapIsDetected` | services/ai/ai_guardrails.py:137-146 | swapping neighbouring digits goes unnoticed exactly for equal digits and for 0 and 9 |
| `Luhn.OneCheckDigitFits` | services/ai/ai_guardrails.py:137-146 | exactly one appended digit is valid, the check digit of ISO/IEC 7812-1, Annex B |
| `Luhn.CheckLuhn` | services/ai/ai_guardrails.py:137-146 | the loop decides the recursive definition of Annex B |
| `UsageLimits.EveryRunIsSafe` | services/ai/ai_usage_service.py:85-118 | after any run, with times in any order, every half-open day holds at most the caps and every half-open minute at most the burst cap |
| `UsageLimits.AppendKeepsBound` | services/ai/ai_usage_service.py:72-118 | an event recorded below the cap keeps every interval within it, whatever its time |
| `UsageLimits.RefusalEndsAtReset` | services/ai/ai_usage_service.py:85-113 | a refusing limit refuses until resets_at and admits at every instant from then on |
| `UsageLimits.PromiseIsKept` | services/ai/ai_usage_service.py:62-66 | waiting the minutes named in a refusal is enough and at most a minute too long |
| `UsageLimits.HoursSufficeIff` | services/ai/ai_usage_service.py:66-69 | waiting the hours named from sixty minutes on is enough if and only if the minutes were rounded up, are whole hours, or exceed them by a minute that is none |
| `UsageLimits.HoursTooShort` | services/ai/ai_usage_service.py:66-69 | eighty-nine minutes are called about one hour, which is too short |
| `UsageLimits.RemainingIsExact` | services/ai/ai_usage_service.py:121-140 | remaining is exactly the number of further same-instant reservations the daily caps admit |
| `UsageLimits.UsageTable.constructor` | services/ai/ai_usage_service.py:85-118 | an empty table is within the limits |
| `UsageLimits.UsageTable.Reserve` | services/ai/ai_usage_service.py:85-118 | checks in order, records on success only, keeps the limits |
| `UsageLimits.UsageTable.UsageFor` | services/ai/ai_usage_service.py:121-140 | the numbers shown per feature |
| `RoleHierarchy.Descendants` | services/shared/rbac_service.py:318-335 | the recursive query stops on an acyclic table and returns exactly the proper descendants |
| `RoleHierarchy.MoveIsSafeIff` | services/shared/rbac_service.py:318-335 | a move creates a cycle if and only if the new parent is the role or one of its descendants |
| `RoleHierarchy.AddKeepsAcyclic` | services/shared/rbac_service.py:294-306 | a new row keeps the hierarchy acyclic |
| `RoleHierarchy.EveryRunStaysForest` | services/shared/rbac_service.py:294-395 | every run of create, update and delete keeps the parents acyclic and present |
| `RoleHierarchy.OverlappingMoves` | services/shared/rbac_service.py:308-379 | two moves that passed the guard on the same table close a cycle exactly when each moves its role to or below the other |
| `RoleHierarchy.TwoRootsCycle` | services/shared/rbac_service.py:308-379 | two roots moved under each other at the same time, each past the guard, form a cycle |
| `RoleQuery.ReturnedIff` | services/shared/rbac_service.py:223-263 | the tree query returns a role if and only if it and all roles above it, up to a base row, are not deleted |
| `RoleQuery.RowsAreDistinctIff` | services/shared/rbac_service.py:223-263 | it returns every role at most once if and only if SUPER_ADMIN is not itself returned while it has a child |
| `RoleQuery.AnswersCanBeBuilt` | services/shared/rbac_service.py:223-288 | what it returns, repeated rows included, is accepted by the tree builder |
| `RoleQuery.MovedSuperRepeatsChildren` | services/shared/rbac_service.py:239-260 | a move the guard admits after which rows are repeated |
| `RoleHierarchy.RoleStore.CreateRole` | services/shared/rbac_service.py:294-306 | new row or foreign key error |
| `RoleHierarchy.RoleStore.UpdateRole` | services/shared/rbac_service.py:308-379 | guard, partial update and every error answer |
| `RoleHierarchy.RoleStore.DeleteRole` | services/shared/rbac_service.py:381-395 | soft delete, system roles refused |
| `RoleTree.BuildTree` | services/shared/rbac_service.py:269-288 | roots are the rows whose parent is absent, each node's children exactly the rows naming it, in row order |
| `RoleTree.LinkRow` | services/shared/rbac_service.py:279-287 | the body of the second loop: one append, to its parent or to the roots |
| `RoleTree.IndexRows` | services/shared/rbac_service.py:269-277 | one node per row with no children yet |
| `RoleTree.ForestVisitsEachRowOnce` | services/shared/rbac_service.py:269-288 | following the children of the returned nodes from the returned roots visits every row exactly once and nothing else |
| `CircuitBreakers.EveryRunIsConsistent` | services/integration/integration_resilience.py:49-120 | failure count and time are what the history says; zero failures iff no time; CLOSED below the threshold; HALF_OPEN has a failure |
| `CircuitBreakers.HalfOpenIsEnteredIff` | services/integration/integration_resilience.py:109-120 | HALF_OPEN is entered exactly by a request that finds OPEN more than 30 s after the latest failure |
| `CircuitBreakers.OpenAdmitsSomeTimeIff` | services/integration/integration_resilience.py:99-120 | an open breaker admits a request some time if and only if a call has failed since the last reset, at a time other than zero |
| `CircuitBreakers.ProbeOpensForGood` | services/integration/integration_resilience.py:99-120 | one probe that finds the service offline opens the breaker, and no request gets through or changes it at any time |
| `CircuitBreakers.ListenersSeeAChain` | services/integration/integration_resilience.py:49-59 | listener events form a gap-free chain without self-loops ending in the current state |
| `CircuitBreakers.CircuitBreaker.TransitionTo` | services/integration/integration_resilience.py:49-59 | listeners hear a change only if there is one |
| `CircuitBreakers.CircuitBreaker.RecordSuccess` | services/integration/integration_resilience.py:61-71 | closes and resets |
| `CircuitBreakers.CircuitBreaker.RecordFailure` | services/integration/integration_resilience.py:73-85 | counts, stores the time, opens at the threshold |
| `CircuitBreakers.CircuitBreaker.MarkAsOnline` | services/integration/integration_resilience.py:87-97 | closes and resets |
| `CircuitBreakers.CircuitBreaker.MarkAsOffline` | services/integration/integration_resilience.py:99-107 | opens, keeping count and time |
| `CircuitBreakers.CircuitBreaker.AllowRequest` | services/integration/integration_resilience.py:109-120 | answer and next state |
| `ResilientCalls.FetchRunsIffAdmitted` | services/integration/integration_resilience.py:171-232 | the remote function runs exactly when the breaker admits, whatever the registry says |
| `ResilientCalls.StatusIsIgnored` | services/integration/integration_resilience.py:171-232 | a service registered as offline is called, and one registered as online is not |
| `ResilientCalls.CacheIsLatestGood` | services/integration/integration_resilience.py:130-143 | over runs of overlapping calls and any other operations on the breaker, the cache holds the latest fetched result other than None for each key |
| `ResilientCalls.OpenCallsRemember` | services/integration/integration_resilience.py:170-192 | a call is under way only if the breaker admitted it where it began, and it has read the latest good result of that moment |
| `ResilientCalls.EveryRefusalIsLastKnownGood` | services/integration/integration_resilience.py:177-187 | a call is refused exactly when the breaker does not admit it, and answers with the latest good result for its key or the empty list |
| `ResilientCalls.PerformIsBeginAndEnd` | services/integration/integration_resilience.py:152-232 | the sequential call is a beginning and an end with nothing in between |
| `ResilientCalls.EveryReplyIsFreshOrLastKnownGood` | services/integration/integration_resilience.py:152-232 | in every such run an admitted call answers with its own fresh result, or with what was the latest good one for its key when it began, or the empty list |
| `ResilientCalls.ResilientCache.Set` | services/integration/integration_resilience.py:135-137 | only a result other than None is stored |
| `ResilientCalls.IsServiceOnline` | services/integration/service_status_registry.py:120-135 | the registry's answer and its side effect on the breaker |
| `ResilientCalls.ExecuteResilientCall` | services/integration/integration_resilience.py:152-232 | reply, cache and breaker after a call |
| `ServiceRegistry.NormalizeTwice` | services/integration/service_status_registry.py:22-40 | normalising a service name twice changes nothing |
| `ServiceRegistry.CacheAgreesWithHistory` | services/integration/service_status_registry.py:225-249 | after any updates and drops a cached status is unknown or the aggregate of each instance's last status, and which of the two |
| `ServiceRegistry.NotificationsFormAChain` | services/integration/service_status_registry.py:244-249 | notifications of a service start from unknown, never repeat and end with the current status |
| `ServiceRegistry.ReplayRestoresAggregate` | services/integration/service_status_registry.py:371-382 | after a drop, one retained status per known instance in any order restores the aggregate |
| `ServiceRegistry.ServiceStatusRegistry.Recalculate` | services/integration/service_status_registry.py:225-249 | aggregate of the instances, listeners told on a change |
| `ServiceRegistry.ServiceStatusRegistry.UpdateInstanceStatus` | services/integration/service_status_registry.py:277-297 | one instance's status and what follows from it, for every service |
| `ServiceRegistry.ServiceStatusRegistry.HandleDisconnect` | services/integration/service_status_registry.py:371-382 | every remote service becomes unknown, once |
| `PurchaseRequests.MapStatusTwice` | services/integration/admin_integration_service.py:154-168 | mapping a mapped status changes nothing, for every text |
| `PurchaseRequests.OfflineAfterPull` | services/integration/admin_integration_service.py:530-589 | with any active commands, the offline pending list after a pull is the pulled requests as their commands leave them, plus the rows that linger |
| `PurchaseRequests.OfflineAgreesWithLiveIff` | services/integration/admin_integration_service.py:530-634 | without active commands the offline pending list equals the live one, record by record, if and only if no request outside the pull still reads as waiting under another source status |
| `PurchaseRequests.MatchedRowsAgree` | services/integration/admin_integration_service.py:530-634 | in particular when every row's source status matches its mapped status |
| `PurchaseRequests.PulledRowsMatch` | services/integration/admin_integration_service.py:461-500 | a pull writes matching rows |
| `PurchaseRequests.DecisionLingersIff` | services/integration/command_service.py:153-177 | after an optimistic decision the row reads as waiting again, once uncovered, if and only if it was stored with a raw status that maps to waiting |
| `PurchaseRequests.ResultMissesRow` | services/integration/connectors/admin_connector.py:132-161 | a result for type request leaves the purchase request's row alone |
| `DecidedRequests.DecidedRequestReturnsIff` | services/integration/admin_integration_service.py:530-589 | in every later state of every run without news of the request from the portal, a decided request whose raw status waited is listed as pending offline if and only if no command of resource type request for it is queued or processing |
| `DecidedRequests.OtherTypeIsNeverCovered` | services/integration/admin_integration_service.py:544-577 | a decision of resource type purchase_request is not overlaid: the request is listed as pending right after it, unless an earlier command of type request covers it |
| `DecidedRequests.PullIsQuiet` | services/integration/admin_integration_service.py:461-527 | a pull without the request, scoped or not and however far its statements got, brings no news of it |
| `DecidedRequests.RequestReportIsQuiet` | services/integration/connectors/admin_connector.py:132-161 | nor does the report of any command for type request, the decision's own included |
| `DecidedRequests.EveryDecisionCanReturn` | services/integration/admin_integration_service.py:557-589 | every decision on such a request has a run after which it is listed as pending: as soon as it is with the broker |
| `DecidedRequests.ApprovedRequestReturns` | services/integration/admin_integration_service.py:557-589 | the same for one concrete request and approval |
| `PurchaseRequests.PersistPurchaseRequests` | services/integration/admin_integration_service.py:461-527 | upsert, then scoped prune, each committed on its own and the second possibly missing; nothing when a request does not parse or an id repeats |
| `PurchaseRequests.PullKeepsRow` | services/integration/admin_integration_service.py:461-527 | a pull without a request keeps its row unless the prune's scope is the row's source status |
| `PurchaseRequests.ParsedPending` | services/integration/admin_integration_service.py:629-634 | the live pending list |
| `PurchaseRequests.GetProjectedPurchaseRequests` | services/integration/admin_integration_service.py:530-592 | the offline list with the overlay of active commands |
| `PurchaseRequests.Overlaid` | services/integration/admin_integration_service.py:561-577 | one row as its active command, or its mapped status, shows it |
| `PurchaseRequests.GetPendingPurchaseRequests` | services/integration/admin_integration_service.py:611-640 | live list with the table updated, or the offline list |
| `Enrichment.EnrichedTwiceIff` | services/integration/admin_integration_service.py:171-309 | enriching twice changes nothing if and only if no text is encoded twice and the conversion does not contradict the currency |
| `Enrichment.SecondPass` | services/integration/admin_integration_service.py:726-729 | what a second pass does: nothing, or it clears is_converted and nothing else |
| `Enrichment.ThirdPassChangesNothing` | services/integration/admin_integration_service.py:171-309 | the second pass is the last that changes anything |
| `Enrichment.ContradictionExample` | services/integration/admin_integration_service.py:188-218 | a concrete request that the second pass changes |
| `Enrichment.PresentFieldsAreKept` | services/integration/admin_integration_service.py:278-304 | what a line already says is never overwritten |
| `Enrichment.ConvertedLineIsPriced` | services/integration/admin_integration_service.py:294-304 | in a converted request with a rate every line is fully priced, missing converted prices at the rate |
| `Enrichment.AtRateIsNearest` | services/integration/admin_integration_service.py:295-298 | a price at a rate is within half a cent |
| `Enrichment.EnrichedHeader` | services/integration/admin_integration_service.py:180-230 | the amount is the given one or the converted total, recorded originals are kept, a converted request is in USD |
| `Enrichment.PurchaseRequest.ApplyConversion` | services/integration/admin_integration_service.py:188-209 | a quote's conversion applied to the request |
| `Enrichment.PurchaseRequest.EnrichHeader` | services/integration/admin_integration_service.py:171-230 | currency, amount, rate and flag updated in place |
| `Enrichment.PurchaseRequest.Enrich` | services/integration/admin_integration_service.py:171-309 | header and line items updated in place |
| `Enrichment.EnrichLines` | services/integration/admin_integration_service.py:261-309 | the loop over the line items |
| `Enrichment.FindQuoteItem` | services/integration/admin_integration_service.py:265-272 | the quote item at the line's index, or the first with its description |
| `Enrichment.BuildLines` | services/integration/admin_integration_service.py:242-258 | lines made from the quote's items |

## Left out

- HTTP routers, server-sent events, MQTT and AMQP clients, file storage, the language model and other I/O: what they answer is a parameter.
- Regular expression engines: redaction rules are arbitrary functions with in-bounds, increasing, non-empty matches. Only the patterns for card and social security numbers are written out, so locality is discharged for lists of these two alone. The other seven patterns are not shown to be local, and some are not: an e-mail address or a private key has no bound on its length.
- StreamRedaction.CleanRunsStreamLikeBatch: runs whose buffer reaches MAX_BUFFER, where the redactor gives up a match it cannot hold; and, as `StreamRedaction.KeptMatchesAloneAreHarmless` shows, not every run with an unclean cut differs in its output.
- StreamRedaction.StreamingIsBatchIffCutsSplit: its condition is the same agreement for a single cut, not something read off the cut; the condition on the cut itself is that of `StreamRedaction.CleanRunIff`.
- The keep-readable tests of e-mail domains, cards and addresses are an arbitrary predicate of the matched text.
- `screen_input`: a product of weights over pattern matches, with no state and no interplay with the rest.
- Text is ASCII as far as letters, digits and whitespace are concerned; Unicode case mapping and normalisation are not modelled.
- Money, rates and clock readings are reals or integers; binary floating point is not modelled.
- Enrichment.Enriched: line item numbers are numbers or absent; a line item value that `float` rejects makes the whole call raise, and numeric texts and numeric truth values other than zero are not told apart from the numbers they denote. `items` that are a bare number raise as well. An items text that decodes to the empty text is treated like any other text.
- PurchaseRequests.Parse: only id and status are computed; the other keys are one opaque value, absent when parsing raises. A status that is neither a text nor null is read as absent.
- PurchaseRequests.GetPendingPurchaseRequests: whether the portal is asked at all, and the breaker and registry updates around the call, are those of the availability layer and enter only as the reply.
- CommandService.Optimistic: the recomputed list of workflow assignments is a parameter; the match by id or role can overwrite two items of it.
- CommandService.SubmitCommand: schemas enter as the validated payload; `expected_source_version`, the requester and timestamps other than the creation time are not modelled.
- CommandFabric.Enabled: recovery does not look at the age of a command; the 24 hours window only makes fewer steps possible. Every processor report is assumed to come from the two command processors.
- OutboxPublisher.ProcessOutboxBatch: back-off sleeps, an unavailable pool and a failing SELECT, before any publish call. One publisher runs at a time, as the single worker of the Dockerfile ensures.
- ResultConsumer.HandleIncomingMessage: one message at a time per source, since the inbox check is outside the transaction; a failing audit insert; notifications to browsers. A key that is present with null is not told apart from an absent one.
- The ma connector is the administration connector with other names and is covered by the same functions.
- RoleTree.BuildTree: permission columns. Rows may repeat but must agree on a role, as every answer of the query does (`RoleQuery.AnswersCanBeBuilt`).
- RoleTree.ForestVisitsEachRowOnce: for distinct rows; a repeated row is appended to its parent as often as it is returned.
- RoleQuery.IsAnswer: the order of the rows, by display order and name, is any order.
- RoleHierarchy.RoleStore: the audit log and the navigation permissions written in the same transactions; ids are fresh numbers.
- ServiceRegistry: `_last_updated`, reasons and timestamps, `wait_until_online` and MQTT topic parsing.
- OutboxPublisher.NoStarvation: for younger arrivals and distinct creation times; arrivals with an older creation time are covered by `OutboxPublisher.NoStarvationWithLateArrivals`.
- UsageLimits.RemainingIsExact: for the daily caps, as `usage_for` ignores the burst cap too.
- UsageLimits.Reserve: the feature caps are fixed during a run; the text of refusals beyond the numbers of minutes and hours.
- `finance_integration_service.py`, sessions, tokens, dashboards, upload index and trace queue: separate, simpler members.
