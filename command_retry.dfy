/**
 * The retry around CommandProcessingService.executeCommand, as its Cucumber
 * steps pin it down. The retry named "executeCommand" re-runs the whole
 * attempt when the attempt fails with a retryable exception, up to a bound
 * on attempts; every retry publishes a retry event whose count is the number
 * of retries so far. The last listener-observed event is kept in a field.
 *
 * DummyCommand stands in for the command: its permission-name lookup, the
 * first thing each attempt evaluates, bumps a counter and fails with a fixed
 * exception on rounds 1, 2 and 3.
 */
module CommandRetry {
  import opened Common

  /** The exceptions an attempt can end with. */
  datatype Failure =
    | CannotAcquireLock
    | ObjectOptimisticLockingFailure
    | NotApprovedByChecker

  /** How one attempt ends: the permission name it looked up, or the exception it threw. */
  datatype Attempt = Completed(permissionName: string) | Thrown(failure: Failure)

  /** io.github.resilience4j.retry.event.RetryEvent, reduced to what the steps read. */
  datatype RetryEvent = RetryEvent(name: string, numberOfRetryAttempts: nat)

  /** The retry's configuration: the bound counts the first attempt; retryable says which exceptions are retried. */
  datatype RetryConfig = RetryConfig(maxAttempts: nat, retryable: set<Failure>)

  /** The result of one retried call: how it ended, how many attempts ran, and the retry events published. */
  datatype Run = Run(result: Attempt, invocations: nat, events: seq<RetryEvent>)

  const RetryName: string := "executeCommand"

  /** The outcome of the DummyCommand's round number step. */
  function DummyRound(step: int): Attempt {
    if step == 1 then Thrown(CannotAcquireLock)
    else if step == 2 then Thrown(ObjectOptimisticLockingFailure)
    else if step == 3 then Thrown(NotApprovedByChecker)
    else Completed("dummy")
  }

  /** Whether attempt number attempt, ending with outcome, is the last one. */
  predicate Stops(outcome: Attempt, config: RetryConfig, attempt: nat) {
    outcome.Completed? || outcome.failure !in config.retryable || attempt >= config.maxAttempts
  }

  /**
   * The run from attempt k+1 on, when attempt j+1 would end with outcomes[j]:
   * it ends at the first attempt that stops, after one retry event per
   * earlier attempt, and that attempt's outcome is the call's outcome (an
   * exhausted retry rethrows the last exception).
   */
  function RetryFrom(outcomes: seq<Attempt>, config: RetryConfig, k: nat): (run: Run)
    requires config.maxAttempts <= |outcomes|
    requires k < config.maxAttempts
    ensures k < run.invocations <= config.maxAttempts
    ensures run.result == outcomes[run.invocations - 1]
    ensures Stops(outcomes[run.invocations - 1], config, run.invocations)
    ensures forall j :: k <= j < run.invocations - 1 ==> !Stops(outcomes[j], config, j + 1)
    ensures |run.events| == run.invocations - 1 - k
    ensures forall i :: 0 <= i < |run.events| ==> run.events[i] == RetryEvent(RetryName, k + i + 1)
    decreases config.maxAttempts - k
  {
    if Stops(outcomes[k], config, k + 1) then Run(outcomes[k], k + 1, [])
    else
      var rest := RetryFrom(outcomes, config, k + 1);
      Run(rest.result, rest.invocations, [RetryEvent(RetryName, k + 1)] + rest.events)
  }

  /** The whole retried call. */
  function Retry(outcomes: seq<Attempt>, config: RetryConfig): Run
    requires 1 <= config.maxAttempts <= |outcomes|
  {
    RetryFrom(outcomes, config, 0)
  }

  /** The run ends at the first attempt that stops, whatever comes after it. */
  lemma RunEndsAtFirstStop(outcomes: seq<Attempt>, config: RetryConfig, k: nat)
    requires 1 <= config.maxAttempts <= |outcomes|
    requires k < config.maxAttempts
    requires Stops(outcomes[k], config, k + 1)
    requires forall j :: 0 <= j < k ==> !Stops(outcomes[j], config, j + 1)
    ensures Retry(outcomes, config).invocations == k + 1
  {
    var run := Retry(outcomes, config);
    assert Stops(outcomes[run.invocations - 1], config, run.invocations);
  }

  /** The outcomes attempts 1 .. maxAttempts would see from a DummyCommand whose counter stands at start. */
  function DummyOutcomes(start: int, config: RetryConfig): (outcomes: seq<Attempt>)
    ensures |outcomes| == config.maxAttempts
    ensures forall j :: 0 <= j < |outcomes| ==> outcomes[j] == DummyRound(start + j + 1)
  {
    seq(config.maxAttempts, j => DummyRound(start + j + 1))
  }

  /**
   * The trace the steps assert: with three attempts and both locking
   * failures retryable, a fresh DummyCommand is invoked 3 times, 2 retry
   * events are published, the last reporting 2 retries, and the call ends
   * with the not-approved-by-checker exception. How that exception is
   * classified does not matter: the bound stops the run there either way.
   */
  lemma FallbackTrace(config: RetryConfig)
    requires config.maxAttempts == 3
    requires CannotAcquireLock in config.retryable && ObjectOptimisticLockingFailure in config.retryable
    ensures var run := Retry(DummyOutcomes(0, config), config);
            && run.invocations == 3
            && run.events == [RetryEvent(RetryName, 1), RetryEvent(RetryName, 2)]
            && run.result == Thrown(NotApprovedByChecker)
  {
    var outcomes := DummyOutcomes(0, config);
    RunEndsAtFirstStop(outcomes, config, 2);
  }

  /** With a larger bound, a fatal not-approved exception still ends the call on the third attempt. */
  lemma FatalFailureIsNotRetried(config: RetryConfig)
    requires config.maxAttempts >= 3
    requires CannotAcquireLock in config.retryable && ObjectOptimisticLockingFailure in config.retryable
    requires NotApprovedByChecker !in config.retryable
    ensures var run := Retry(DummyOutcomes(0, config), config);
            run.invocations == 3 && run.result == Thrown(NotApprovedByChecker)
  {
    var outcomes := DummyOutcomes(0, config);
    RunEndsAtFirstStop(outcomes, config, 2);
  }

  /** A non-retryable first failure is propagated at once, with no retry event. */
  lemma NonRetryableFailsFast(outcomes: seq<Attempt>, config: RetryConfig)
    requires 1 <= config.maxAttempts <= |outcomes|
    requires outcomes[0].Thrown? && outcomes[0].failure !in config.retryable
    ensures Retry(outcomes, config) == Run(outcomes[0], 1, [])
  {
  }

  /** An exhausted retry rethrows the exception of the last allowed attempt. */
  lemma ExhaustedRetryRethrowsLast(outcomes: seq<Attempt>, config: RetryConfig)
    requires 1 <= config.maxAttempts <= |outcomes|
    requires forall j :: 0 <= j < config.maxAttempts ==> outcomes[j].Thrown? && outcomes[j].failure in config.retryable
    ensures Retry(outcomes, config).invocations == config.maxAttempts
    ensures Retry(outcomes, config).result == outcomes[config.maxAttempts - 1]
  {
    RunEndsAtFirstStop(outcomes, config, config.maxAttempts - 1);
  }

  /** DummyCommand: a command wrapper whose permission lookup counts the attempts. */
  class DummyCommand {
    var counter: nat

    constructor ()
      ensures counter == 0
    {
      counter := 0;
    }

    /** Bumps the counter, then fails or answers according to the new round number. */
    method TaskPermissionName() returns (a: Attempt)
      modifies this
      ensures counter == old(counter) + 1
      ensures a == DummyRound(counter)
    {
      counter := counter + 1;
      var step := counter;
      if step == 1 {
        return Thrown(CannotAcquireLock);
      } else if step == 2 {
        return Thrown(ObjectOptimisticLockingFailure);
      } else if step == 3 {
        return Thrown(NotApprovedByChecker);
      }
      return Completed("dummy");
    }

    function GetCount(): nat
      reads this
    {
      counter
    }
  }

  /** The step definitions' onRetry listener: keeps the most recent retry event. */
  class RetryListener {
    var retryEvent: Option<RetryEvent>

    constructor ()
      ensures retryEvent == None
    {
      retryEvent := None;
    }

    method OnRetry(event: RetryEvent)
      modifies this
      ensures retryEvent == Some(event)
    {
      retryEvent := Some(event);
    }
  }

  /** The command processing service with its retry and the listener registered on it. */
  class CommandProcessingService {
    const config: RetryConfig
    const listener: RetryListener
    /** The approved-by-checker flag of every executeCommand call, in order. */
    var approvals: seq<bool>

    constructor (config: RetryConfig, listener: RetryListener)
      requires config.maxAttempts >= 1
      ensures this.config == config && this.listener == listener && approvals == []
    {
      this.config := config;
      this.listener := listener;
      approvals := [];
    }

    /**
     * executeCommand, retried: each attempt starts with the permission lookup;
     * a retryable exception below the bound publishes a retry event and starts
     * the next attempt, anything else ends the call.
     */
    method ExecuteCommand(wrapper: DummyCommand, isApprovedByChecker: bool) returns (r: Attempt)
      requires config.maxAttempts >= 1
      modifies this, wrapper, listener
      ensures var run := Retry(DummyOutcomes(old(wrapper.counter), config), config);
              && r == run.result
              && wrapper.counter == old(wrapper.counter) + run.invocations
              && listener.retryEvent == (if run.events == [] then old(listener.retryEvent) else Some(run.events[|run.events| - 1]))
      ensures approvals == old(approvals) + [isApprovedByChecker]
    {
      approvals := approvals + [isApprovedByChecker];
      ghost var outcomes := DummyOutcomes(wrapper.counter, config);
      ghost var start := wrapper.counter;
      var attempt: nat := 0;
      while true
        invariant attempt < config.maxAttempts
        invariant wrapper.counter == start + attempt
        invariant forall j :: 0 <= j < attempt ==> !Stops(outcomes[j], config, j + 1)
        invariant listener.retryEvent == if attempt == 0 then old(listener.retryEvent) else Some(RetryEvent(RetryName, attempt))
        invariant approvals == old(approvals) + [isApprovedByChecker]
        decreases config.maxAttempts - attempt
      {
        var outcome := wrapper.TaskPermissionName();
        attempt := attempt + 1;
        if outcome.Completed? || outcome.failure !in config.retryable || attempt >= config.maxAttempts {
          RunEndsAtFirstStop(outcomes, config, attempt - 1);
          return outcome;
        }
        listener.OnRetry(RetryEvent(RetryName, attempt));
      }
    }
  }

  /** DummyCommandSourceWriteService: logCommandSource hands the wrapper to executeCommand as approved. */
  class CommandSourceWriteService {
    const processingService: CommandProcessingService

    constructor (processingService: CommandProcessingService)
      ensures this.processingService == processingService
    {
      this.processingService := processingService;
    }

    /** Whatever executeCommand ends with, the result or the exception, reaches the caller unchanged. */
    method LogCommandSource(wrapper: DummyCommand) returns (r: Attempt)
      requires processingService.config.maxAttempts >= 1
      modifies processingService, wrapper, processingService.listener
      ensures var run := Retry(DummyOutcomes(old(wrapper.counter), processingService.config), processingService.config);
              && r == run.result
              && wrapper.counter == old(wrapper.counter) + run.invocations
              && processingService.listener.retryEvent
                 == (if run.events == [] then old(processingService.listener.retryEvent) else Some(run.events[|run.events| - 1]))
      ensures processingService.approvals == old(processingService.approvals) + [true]
    {
      r := processingService.ExecuteCommand(wrapper, true);
    }
  }

  /**
   * The scenario end to end: a fresh command and listener, one logCommandSource
   * whose exception the step swallows, then the two assertions of the Then
   * steps: the command was invoked 3 times and the last retry event is
   * ("executeCommand", 2).
   */
  method FallbackScenario(config: RetryConfig) returns (count: nat, retryEvent: Option<RetryEvent>, outcome: Attempt)
    requires config.maxAttempts == 3
    requires CannotAcquireLock in config.retryable && ObjectOptimisticLockingFailure in config.retryable
    ensures count == 3
    ensures retryEvent == Some(RetryEvent(RetryName, 2))
    ensures outcome == Thrown(NotApprovedByChecker)
  {
    var listener := new RetryListener();
    var processing := new CommandProcessingService(config, listener);
    var service := new CommandSourceWriteService(processing);
    var command := new DummyCommand();
    FallbackTrace(config);
    outcome := service.LogCommandSource(command);
    count := command.GetCount();
    retryEvent := listener.retryEvent;
  }
}
