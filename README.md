# Fineract core pieces, modelled in Dafny

This project models six small, sequential pieces of Apache Fineract, the
core-banking platform, and proves what they promise:

- **Batch "adjust charge" strategy** (`adjust_charge.dfy`, on top of the
  string operations in `text.dfy`). A batch request's relative URL such as
  `loans/1/charges/2?command=adjustment` is split on `/`. The loan id,
  the charge id and the command (regex `^?command=[a-zA-Z]+`) are read from
  it, and the request is answered 200 with what the loan charges resource
  returns. When the URL carries no command the answer is 501 (section 15.6.2
  of RFC 9110). `BatchResponse` is a class whose fields `Execute` sets one by
  one. `Execute` is proved against the pure `Respond`.
- **Close-of-business repayment-overdue step** (`overdue_step.dfy`). The
  installments are scanned in schedule order. One `LoanRepaymentOverdue`
  event is posted for the first unpaid installment whose due date plus the
  configured days is the business date. The step also has two names.
- **Partition-to-producer grouping of external events**
  (`producer_mapping.dfy`). Each keyed list of messages goes to the bucket
  of producer `consistentHash(key, producerCount)`. The grouping loop is
  proved equal to a bucket function. The model proves:
  - where each message lands, and in what order;
  - that no message is lost or duplicated;
  - that every bucket index names an existing producer.
- **Bounded retry around `executeCommand`** (`command_retry.dfy`). This is
  the trace fixed by the Cucumber steps: a lock failure, then an
  optimistic-locking failure, then the not-approved-by-checker exception.
  That makes three invocations and two retry events, and the last event
  reports 2 retries. The retry loop is a method over the `DummyCommand`
  counter and the listener's `retryEvent` field. It is proved against the
  specification function `Retry`.
- **Oldest last-closed business date** (`oldest_business_date.dfy`). This is
  the minimum over the non-null dates.
- **Delinquency of one unpaid installment** (`delinquency.dfy`). The days
  and the date from which the installment is delinquent, with no grace on
  arrears ageing.

Dates are day numbers. Configuration values and the business date are
parameters. `HashingService.consistentHash` and
`LoanChargesApiResource.executeLoanCharge` are function-typed parameters:
all the model assumes about the hash is that its range is
`[0, producerCount)`.

## Model

| member | source | states |
|---|---|---|
| Text.IndexOf | fineract-provider/src/main/java/org/apache/fineract/batch/command/internal/AdjustChargeCommandStrategy.java:83 | `String.indexOf(c)`: -1 exactly when c does not occur; otherwise the position of the first c |
| Text.Split | fineract-provider/src/main/java/org/apache/fineract/batch/command/internal/AdjustChargeCommandStrategy.java:63 | `Splitter.on('/').splitToList`: at least one piece, and no piece contains the separator |
| Text.JoinSplit | fineract-provider/src/main/java/org/apache/fineract/batch/command/internal/AdjustChargeCommandStrategy.java:63 | joining the pieces with the separator gives back the URL, so empty pieces are kept and nothing is lost |
| Text.SplitJoin | fineract-provider/src/main/java/org/apache/fineract/batch/command/internal/AdjustChargeCommandStrategy.java:63 | separator-free pieces are recovered exactly by splitting their join |
| Text.ParseLong | fineract-provider/src/main/java/org/apache/fineract/batch/command/internal/AdjustChargeCommandStrategy.java:83-85 | `Long.parseLong`: a value exactly when the text is an optional sign plus at least one digit and the signed value lies in the 64-bit range, and that value is the signed value |
| Text.AccumulateDigitsValue | fineract-provider/src/main/java/org/apache/fineract/batch/command/internal/AdjustChargeCommandStrategy.java:83-85 | the JDK's digit loop, which accumulates negatively against a limit, succeeds exactly when the rest is digits and the whole digit run stays within the limit, and then yields that run's value negated |
| Text.FormatNat | fineract-provider/src/main/java/org/apache/fineract/batch/command/internal/AdjustChargeCommandStrategy.java:64 | the decimal digits of n: at least one digit, no leading zero, and they denote n |
| Text.FormatThenParse | fineract-provider/src/main/java/org/apache/fineract/batch/command/internal/AdjustChargeCommandStrategy.java:64 | every 64-bit id, once written out, parses back to itself |
| AdjustCharge.FirstCommandMatch | fineract-provider/src/main/java/org/apache/fineract/batch/command/internal/AdjustChargeCommandStrategy.java:66-69 | `Matcher.find`: the leftmost position where `command=` and a letter start, or none when no position matches |
| AdjustCharge.LetterRun | fineract-provider/src/main/java/org/apache/fineract/batch/command/internal/AdjustChargeCommandStrategy.java:66 | the greedy `[a-zA-Z]+`: the longest prefix made of ASCII letters |
| AdjustCharge.FindCommand | fineract-provider/src/main/java/org/apache/fineract/batch/command/internal/AdjustChargeCommandStrategy.java:66-78 | no command exactly when no position holds `command=` and a letter; a command is a non-empty run of ASCII letters |
| AdjustCharge.CommandAfterPrefix | fineract-provider/src/main/java/org/apache/fineract/batch/command/internal/AdjustChargeCommandStrategy.java:77-78 | `group(0)` cut after its first `=` is the letter run after `command=`, and it is never empty |
| AdjustCharge.FindCommandIsLeftmostRun | fineract-provider/src/main/java/org/apache/fineract/batch/command/internal/AdjustChargeCommandStrategy.java:66-78 | the command is the maximal letter run after the leftmost `command=` match, wherever that match starts |
| AdjustCharge.ChargeIdText | fineract-provider/src/main/java/org/apache/fineract/batch/command/internal/AdjustChargeCommandStrategy.java:80-86 | the charge id text is the segment up to, not including, its first `?`, or the whole segment when there is no `?` |
| AdjustCharge.Respond | fineract-provider/src/main/java/org/apache/fineract/batch/command/internal/AdjustChargeCommandStrategy.java:53-97 | every response carries the request's id and headers, and its status is 200 or 501 |
| AdjustCharge.ShortUrlThrows | fineract-provider/src/main/java/org/apache/fineract/batch/command/internal/AdjustChargeCommandStrategy.java:63-67 | a URL with fewer than four segments throws and is never answered |
| AdjustCharge.BadLoanIdThrowsFirst | fineract-provider/src/main/java/org/apache/fineract/batch/command/internal/AdjustChargeCommandStrategy.java:63-69 | a non-numeric loan id throws `NumberFormatException` before the command is looked for |
| AdjustCharge.NotImplementedExactly | fineract-provider/src/main/java/org/apache/fineract/batch/command/internal/AdjustChargeCommandStrategy.java:66-76 | 501 exactly when the URL has at least four segments, a numeric loan id and no command; the body names the method and the URL |
| AdjustCharge.NotImplementedIgnoresResource | fineract-provider/src/main/java/org/apache/fineract/batch/command/internal/AdjustChargeCommandStrategy.java:69-76 | on the 501 path the charges resource is not called: any resource gives the same answer |
| AdjustCharge.SuccessCarriesResourceAnswer | fineract-provider/src/main/java/org/apache/fineract/batch/command/internal/AdjustChargeCommandStrategy.java:77-94 | a 200 body is exactly `executeLoanCharge(loanId, chargeId, command, body)` for the ids and command read from the URL |
| AdjustCharge.AdjustmentUrlRoundTrip | fineract-provider/src/main/java/org/apache/fineract/batch/command/internal/AdjustChargeCommandStrategy.java:60-94 | a URL built as `r/{loanId}/c/{chargeId}?command={cmd}…` is answered 200 with the resource's answer for exactly that loan id, charge id and command |
| AdjustCharge.AdjustmentUrlParsed | fineract-provider/src/main/java/org/apache/fineract/batch/command/internal/AdjustChargeCommandStrategy.java:63-85 | the loan id, command and charge id of an adjustment URL are read back as they were written |
| AdjustCharge.Execute | fineract-provider/src/main/java/org/apache/fineract/batch/command/internal/AdjustChargeCommandStrategy.java:53-97 | the setter-by-setter `execute` returns a fresh response holding exactly `Respond`'s answer, or throws exactly `Respond`'s exception |
| OverdueStep.FirstOverdue | fineract-provider/src/main/java/org/apache/fineract/cob/loan/CheckLoanRepaymentOverdueBusinessStep.java:44-52 | the index of the first unpaid installment with `due + N == business date`, none before it qualifying; none exactly when no installment qualifies |
| OverdueStep.OverdueEvents | fineract-provider/src/main/java/org/apache/fineract/cob/loan/CheckLoanRepaymentOverdueBusinessStep.java:44-52 | at most one event; it is for an installment of the loan that is unpaid and exactly N days past due; no event exactly when none qualifies |
| OverdueStep.EventIsFirstQualifying | fineract-provider/src/main/java/org/apache/fineract/cob/loan/CheckLoanRepaymentOverdueBusinessStep.java:44-50 | the event is for the head of the qualifying installments in schedule order |
| OverdueStep.LaterInstallmentsIgnored | fineract-provider/src/main/java/org/apache/fineract/cob/loan/CheckLoanRepaymentOverdueBusinessStep.java:47-49 | after a hit the loop breaks: appending installments changes nothing |
| OverdueStep.NonQualifyingInstallmentsIrrelevant | fineract-provider/src/main/java/org/apache/fineract/cob/loan/CheckLoanRepaymentOverdueBusinessStep.java:45-47 | replacing a paid or not-exactly-due installment by another such installment changes nothing |
| OverdueStep.FirstOverdueAt | fineract-provider/src/main/java/org/apache/fineract/cob/loan/CheckLoanRepaymentOverdueBusinessStep.java:44-49 | a qualifying installment with none before it is the one the scan reports |
| OverdueStep.CheckLoanRepaymentOverdueBusinessStep.Execute | fineract-provider/src/main/java/org/apache/fineract/cob/loan/CheckLoanRepaymentOverdueBusinessStep.java:40-54 | returns the same loan, and the notifier's log grows by exactly `OverdueEvents` |
| OverdueStep.BusinessEventNotifier.NotifyPostBusinessEvent | fineract-provider/src/main/java/org/apache/fineract/cob/loan/CheckLoanRepaymentOverdueBusinessStep.java:48 | posting appends exactly one event to the notifier's log |
| OverdueStep.CheckLoanRepaymentOverdueBusinessStep.EnumStyledName | fineract-provider/src/main/java/org/apache/fineract/cob/loan/CheckLoanRepaymentOverdueBusinessStep.java:56-59 | the step's configuration name is `CHECK_LOAN_REPAYMENT_OVERDUE`, spelled as an enum constant: upper-case words joined by single underscores |
| OverdueStep.CheckLoanRepaymentOverdueBusinessStep.HumanReadableName | fineract-provider/src/main/java/org/apache/fineract/cob/loan/CheckLoanRepaymentOverdueBusinessStep.java:61-64 | the step's display name is `Check loan repayment overdue`: a capital letter, then lower-case words joined by single spaces |
| ProducerMapping.IndexedPartitions | fineract-provider/src/main/java/org/apache/fineract/infrastructure/event/external/producer/jms/JMSMultiExternalEventProducer.java:132-143 | the bucket keys are exactly the hashes of the partition keys, no spurious bucket, and each key is a valid producer index |
| ProducerMapping.MapPartitionsToProducers | fineract-provider/src/main/java/org/apache/fineract/infrastructure/event/external/producer/jms/JMSMultiExternalEventProducer.java:133-142 | the `putIfAbsent`/`addAll` loop builds exactly `IndexedPartitions` |
| ProducerMapping.AbsentIndexEmpty | fineract-provider/src/main/java/org/apache/fineract/infrastructure/event/external/producer/jms/JMSMultiExternalEventProducer.java:139 | an index no partition hashes to collects no message |
| ProducerMapping.MessagesForAppend | fineract-provider/src/main/java/org/apache/fineract/infrastructure/event/external/producer/jms/JMSMultiExternalEventProducer.java:134-141 | grouping two runs of partitions one after the other concatenates their buckets |
| ProducerMapping.PartitionContiguousInBucket | fineract-provider/src/main/java/org/apache/fineract/infrastructure/event/external/producer/jms/JMSMultiExternalEventProducer.java:138-140 | every partition's messages sit contiguously and in their own order in the bucket its key hashes to |
| ProducerMapping.SharedBucketKeepsOrder | fineract-provider/src/main/java/org/apache/fineract/infrastructure/event/external/producer/jms/JMSMultiExternalEventProducer.java:139-140 | partitions hashing alike share a bucket, and the earlier partition's messages all come first |
| ProducerMapping.NoMessageLostOrDuplicated | fineract-provider/src/main/java/org/apache/fineract/infrastructure/event/external/producer/jms/JMSMultiExternalEventProducer.java:134-141 | the buckets of producers 0 to producerCount-1 hold the multiset of input messages; their total size is the event count summed at line 80 |
| ProducerMapping.CountIsLength | fineract-provider/src/main/java/org/apache/fineract/infrastructure/event/external/producer/jms/JMSMultiExternalEventProducer.java:80 | the summed list sizes are the number of messages |
| ProducerMapping.SendingTasks | fineract-provider/src/main/java/org/apache/fineract/infrastructure/event/external/producer/jms/JMSMultiExternalEventProducer.java:107-118 | `producers.get(index)` for every bucket requires every index below the producer count; there is one task per bucket |
| ProducerMapping.EveryBucketHasAProducer | fineract-provider/src/main/java/org/apache/fineract/infrastructure/event/external/producer/jms/JMSMultiExternalEventProducer.java:90-112 | with the `producerCount` producers created by the loop at line 93, every partition's bucket has a task, sent by the producer at its hash, holding all of the partition's messages |
| CommandRetry.RetryFrom | fineract-provider/src/test/java/org/apache/fineract/commands/service/CommandServiceStepDefinitions.java:62-66 | the call ends at the first attempt that completes, fails non-retryably or reaches the bound; it ends with that attempt's outcome; it published one event per earlier attempt, numbered 1, 2, … |
| CommandRetry.RunEndsAtFirstStop | fineract-provider/src/test/java/org/apache/fineract/commands/service/CommandServiceStepDefinitions.java:62-66 | the number of invocations is one plus the index of the first stopping attempt, whatever the later outcomes |
| CommandRetry.FallbackTrace | fineract-provider/src/test/java/org/apache/fineract/commands/service/CommandServiceStepDefinitions.java:80-88 | with three attempts and both lock failures retryable: 3 invocations, events ("executeCommand", 1) and ("executeCommand", 2), and the not-approved exception at the end |
| CommandRetry.FatalFailureIsNotRetried | fineract-provider/src/test/java/org/apache/fineract/commands/service/CommandServiceStepDefinitions.java:109-114 | with a larger bound and the not-approved exception fatal, the call still ends on attempt 3 with that exception |
| CommandRetry.ExhaustedRetryRethrowsLast | fineract-provider/src/test/java/org/apache/fineract/commands/service/CommandServiceStepDefinitions.java:109-112 | when every attempt fails retryably, the bound is reached and the last attempt's exception is rethrown |
| CommandRetry.DummyCommand.TaskPermissionName | fineract-provider/src/test/java/org/apache/fineract/commands/service/CommandServiceStepDefinitions.java:101-118 | the counter is bumped exactly once, and rounds 1, 2 and 3 throw the lock, optimistic-locking and not-approved exceptions |
| CommandRetry.RetryListener.OnRetry | fineract-provider/src/test/java/org/apache/fineract/commands/service/CommandServiceStepDefinitions.java:62-66 | the listener keeps the latest retry event |
| CommandRetry.CommandProcessingService.ExecuteCommand | fineract-provider/src/test/java/org/apache/fineract/commands/service/CommandServiceStepDefinitions.java:62-66 | the retry loop ends with `Retry`'s outcome, and the counter grows by `Retry`'s invocations; the listener holds `Retry`'s last event |
| CommandRetry.CommandSourceWriteService.LogCommandSource | fineract-provider/src/test/java/org/apache/fineract/commands/service/CommandServiceStepDefinitions.java:138-147 | `executeCommand` is called once with approved-by-checker true, and its result or exception reaches the caller unchanged |
| CommandRetry.FallbackScenario | fineract-provider/src/test/java/org/apache/fineract/commands/service/CommandServiceStepDefinitions.java:58-88 | after the When step the command was invoked 3 times and the last retry event is ("executeCommand", 2) |
| OldestBusinessDate.Earlier | fineract-provider/src/test/java/org/apache/fineract/cob/service/InlineLoanCOBExecutorServiceImplTest.java:85-88 | the earlier of two optional dates is one of them, no later than either, and missing only when both are |
| OldestBusinessDate.OldestCobBusinessDate | fineract-provider/src/test/java/org/apache/fineract/cob/service/InlineLoanCOBExecutorServiceImplTest.java:79-89 | the result is one of the non-null dates and no later than any of them; it is missing exactly when every date is null |
| OldestBusinessDate.OldestOfConcatenation | fineract-provider/src/test/java/org/apache/fineract/cob/service/InlineLoanCOBExecutorServiceImplTest.java:88 | the oldest date of two lists is the earlier of their oldest dates |
| OldestBusinessDate.OrderIrrelevant | fineract-provider/src/test/java/org/apache/fineract/cob/service/InlineLoanCOBExecutorServiceImplTest.java:88 | the order of the loans does not change the result |
| OldestBusinessDate.NullDateIgnored | fineract-provider/src/test/java/org/apache/fineract/cob/service/InlineLoanCOBExecutorServiceImplTest.java:85 | a loan with a null date is ignored wherever it stands |
| OldestBusinessDate.TestExample | fineract-provider/src/test/java/org/apache/fineract/cob/service/InlineLoanCOBExecutorServiceImplTest.java:82-88 | null, 2023-01-10 and 2023-01-11 give 2023-01-10 |
| Delinquency.OverdueCollectionData | fineract-provider/src/test/java/org/apache/fineract/portfolio/deliquency/LoanDelinquencyDomainServiceTest.java:101-183 | past-due days equal delinquent days, and neither is negative; there is a delinquent date exactly when the due date is strictly past, and exactly when the days are positive; that date is the due date, and it plus the days is the business date |
| Delinquency.DueOnBusinessDate | fineract-provider/src/test/java/org/apache/fineract/portfolio/deliquency/LoanDelinquencyDomainServiceTest.java:101-123 | due on the business date: 0 days, no date |
| Delinquency.DueTwoDaysAgo | fineract-provider/src/test/java/org/apache/fineract/portfolio/deliquency/LoanDelinquencyDomainServiceTest.java:125-148 | due two days ago: 2 days since the due date |
| Delinquency.FutureInstallmentWithPastChargeback | fineract-provider/src/test/java/org/apache/fineract/portfolio/deliquency/LoanDelinquencyDomainServiceTest.java:150-183 | due in two days with a chargeback two days ago: 0 days, no date |
| Delinquency.DelinquencyAgesByOneDayPerDay | fineract-provider/src/test/java/org/apache/fineract/portfolio/deliquency/LoanDelinquencyDomainServiceTest.java:125-148 | once due, each further day adds one delinquent day and keeps the delinquent date |

## Left out

- Text.ParseLong: only ASCII digits are accepted. `Long.parseLong` also accepts other Unicode decimal digits, which a batch URL does not carry.
- A null relative URL, and `execute`'s `UriInfo` argument. The URL is a string in the model, and `execute` never reads the `UriInfo`.
- `LoanChargesApiResource.executeLoanCharge` is a parameter. Exceptions it throws are not modelled.
- The JMS connection, the session and producer creation, the asynchronous send tasks and waiting on them are left out. They are I/O and concurrency. `SendingTasks` keeps only the producer-to-bucket pairing.
- The messages-per-second debug log is left out because it depends on floating point and timing. Only its event count is modelled (`CountIsLength`, `NoMessageLostOrDuplicated`).
- `HashingService.consistentHash` internals: the hash is a parameter, and only its range is assumed.
- ProducerMapping.MapPartitionsToProducers: the input map is a sequence of key/messages entries in iteration order. Keys may repeat in the model, so it covers more inputs than a Java `Map`. Java's `HashMap` iteration order is not modelled; the proved properties hold for every order.
- `ConfigurationDomainService`, `DateUtils` and the thread-local business date: the overdue days and the business date are parameters.
- `LocalDate` arithmetic: dates are day numbers, and `plusDays` is integer addition. The `LocalDate` year range is not modelled.
- The resilience4j registry and event publisher: only the retry's attempt bound, its retryable exceptions and its retry events are modelled. Success, error and ignored-error events are not. Backoff is not modelled.
- Which exceptions the `executeCommand` retry classifies as retryable is a parameter (`RetryConfig.retryable`), because the retry configuration is not part of this model. The trace only needs both locking failures to be retryable and a bound of 3.
- The body of `executeCommand` after `taskPermissionName` is not modelled: the command log, the idempotency cache, the maker-checker approval state and transaction rollback. It is not part of this model. An attempt whose permission lookup succeeds is taken to complete.
- CommandRetry.CommandSourceWriteService.LogCommandSource: building the `JsonCommand` from the wrapper's routing fields is not modelled. Only the approved-by-checker flag passed to `executeCommand` is recorded.
- When the retry bound is reached, the model rethrows the last exception, as resilience4j does. A wrapping "retries exhausted" error is not modelled.
- `executeInlineJob` propagating `LoanAccountLockCannotBeOverruledException`: the class that implements it is not part of this model, so only the oldest-date computation is modelled.
- OldestBusinessDate.OldestCobBusinessDate: when every date is null the result is `None`. The implementing method's behaviour in that case (an exception or null) is not part of this model.
- Delinquency.OverdueCollectionData: only one unpaid installment with no grace on arrears ageing is modelled. Its precondition excludes chargebacks on an overdue installment, because the multi-installment, grace and chargeback-allocation rules of the delinquency service are not part of this model.
- `AbstractIdempotentCommandException`, `DelinquencyBucket` and `AcmeNoopJobConfiguration` are left out: they hold fields and wiring, with no logic.
