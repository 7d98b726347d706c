/** The worker's retry loop for code tasks and circuit tasks. */
module RetryingWorker {
  import opened Options
  import opened TaskLifecycle

  /** What an attempt can raise. */
  datatype Error =
    | BackendError(code: string, message: string)
    | QiboError(code: string, message: string)
    | HotExecutorError(code: string, message: string)
    | TimeoutError(message: string)
    | OtherError(attribute: Option<string>, message: string)

  datatype Outcome = Returned(result: string) | Raised(error: Error)

  /**
   * One attempt as the host lives through it, with the clock readings of its transition and of the renewal after it.
   */
  datatype Attempt = Attempt(startedAt: int, endedAt: int, refreshedAt: int, outcome: Outcome)

  // ----- the retry policy

  const NON_RETRYABLE_CODES: set<string> :=
    {"SANDBOX_VALIDATION_ERROR", "INVALID_EXEC_OUTPUT", "INVALID_EXEC_RESULT", "EXECUTION_TIMEOUT"}

  datatype RetryPolicy = RetryPolicy(maxRetries: nat, backoffSchedule: seq<int>)

  predicate Usable(p: RetryPolicy) { p.backoffSchedule != [] }

  predicate IsRetryable(e: Error) {
    match e
    case TimeoutError(_) => false
    case BackendError(code, _) => code !in NON_RETRYABLE_CODES
    case _ => true
  }

  predicate CanRetry(p: RetryPolicy, attemptCount: nat, e: Error) {
    IsRetryable(e) && attemptCount <= p.maxRetries
  }

  function NextBackoff(p: RetryPolicy, attemptCount: nat): int
    requires Usable(p) && attemptCount > 0
  {
    p.backoffSchedule[if attemptCount - 1 < |p.backoffSchedule| - 1 then attemptCount - 1 else |p.backoffSchedule| - 1]
  }

  // ----- the two workers differ in what a timeout is and in how they name an error

  datatype Kind = Quantum | Circuit

  predicate IsTimeout(kind: Kind, e: Error) {
    match kind
    case Quantum => e.BackendError? && e.code == "EXECUTION_TIMEOUT"
    case Circuit => e.HotExecutorError? && e.code == "CIRCUIT_EXEC_TIMEOUT"
  }

  function ErrorCode(kind: Kind, e: Error): string {
    match kind
    case Quantum => if e.BackendError? || e.QiboError? then e.code else "WORKER_EXEC_ERROR"
    case Circuit =>
      if e.BackendError? || e.QiboError? || e.HotExecutorError? then e.code
      else if e.OtherError? && e.attribute.Some? then e.attribute.value
      else "CIRCUIT_EXEC_ERROR"
  }

  /** The attempt is answered by another one. */
  predicate Retries(kind: Kind, p: RetryPolicy, attempt: Attempt, number: nat) {
    attempt.outcome.Raised? && !IsTimeout(kind, attempt.outcome.error) && CanRetry(p, number, attempt.outcome.error)
  }

  /** The number of the last attempt, when the next one has number `number`. */
  function LastAttempt(kind: Kind, p: RetryPolicy, attempts: nat -> Attempt, number: nat): (last: nat)
    ensures number <= last
    ensures last <= p.maxRetries + 1 || last == number
    ensures !Retries(kind, p, attempts(last), last)
    ensures forall k :: number <= k < last ==> Retries(kind, p, attempts(k), k)
    decreases p.maxRetries + 1 - number
  {
    if Retries(kind, p, attempts(number), number) then LastAttempt(kind, p, attempts, number + 1) else number
  }

  /** How the attempt that is not answered by another one ends the task. */
  function Verdict(kind: Kind, e: Error, now: int): Call {
    if IsTimeout(kind, e) then MarkTimeout(e.message, now)
    else if IsRetryable(e) then MarkRetryExhausted(ErrorCode(kind, e), e.message, now)
    else MarkFailure(ErrorCode(kind, e), e.message, now)
  }

  function FinalCall(kind: Kind, attempt: Attempt): Call {
    match attempt.outcome
    case Returned(result) => MarkSuccess(result, attempt.endedAt)
    case Raised(e) => Verdict(kind, e, attempt.endedAt)
  }

  /** The row after starting the attempts up to and including number `last`. */
  function Started(row: Row, attempts: nat -> Attempt, last: nat): Row
    requires row.attempts <= last
    decreases last
  {
    if row.attempts == last then row
    else Apply(Started(row, attempts, last - 1), StartAttempt(attempts(last).startedAt))
  }

  function Delays(p: RetryPolicy, first: nat, last: nat): (r: seq<int>)
    requires Usable(p) && 1 <= first <= last
    ensures |r| == last - first && forall k :: 0 <= k < |r| ==> r[k] == NextBackoff(p, first + k)
    decreases last
  {
    if first == last then [] else Delays(p, first, last - 1) + [NextBackoff(p, last - 1)]
  }

  lemma {:induction false} StartedShape(row: Row, attempts: nat -> Attempt, last: nat)
    requires !IsTerminal(row.status) && row.attempts <= last
    ensures var r := Started(row, attempts, last); !IsTerminal(r.status) && r.attempts == last
    decreases last
  {
    if row.attempts < last {
      StartedShape(row, attempts, last - 1);
    }
  }

  /**
   * A terminal row refuses its attempt; otherwise the loop returns a result, or raises the error of its last attempt
   * again.
   */
  datatype Ending = Refused | Finished(outcome: Outcome)

  /**
   * `delays` are the pauses between attempts, `renewals` the times at which the expiry of the task's idempotency
   * records is renewed: once, after the transition that ends the task.
   */
  method RunTask(kind: Kind, task: Task, policy: RetryPolicy, attempts: nat -> Attempt)
    returns (ending: Ending, delays: seq<int>, renewals: seq<int>)
    requires Usable(policy)
    modifies task
    ensures IsTerminal(old(task.status)) ==>
      ending == Refused && task.View() == old(task.View()) && delays == [] == renewals
    ensures !IsTerminal(old(task.status)) ==>
      var last := LastAttempt(kind, policy, attempts, old(task.attemptCount) + 1);
      && ending == Finished(attempts(last).outcome)
      && task.View() == Apply(Started(old(task.View()), attempts, last), FinalCall(kind, attempts(last)))
      && IsTerminal(task.status)
      && delays == Delays(policy, old(task.attemptCount) + 1, last)
      && renewals == [attempts(last).refreshedAt]
  {
    hide Apply, ErrorCode, IsTimeout, IsRetryable, NextBackoff, DurationMs, Finish, FinishWithError;
    ghost var row := task.View();
    ghost var first := task.attemptCount + 1;
    delays, renewals := [], [];
    while true
      invariant !IsTerminal(row.status) ==>
        first <= task.attemptCount + 1 && task.View() == Started(row, attempts, task.attemptCount)
        && !IsTerminal(task.status)
        && LastAttempt(kind, policy, attempts, task.attemptCount + 1) == LastAttempt(kind, policy, attempts, first)
        && delays == Delays(policy, first, task.attemptCount + 1)
      invariant IsTerminal(row.status) ==> task.View() == row && delays == []
      invariant renewals == []
      invariant task.attemptCount + 1 == first || task.attemptCount <= policy.maxRetries
      decreases policy.maxRetries + 1 - task.attemptCount
    {
      var number := task.attemptCount + 1;
      var ok := StartTaskAttempt(task, attempts(number).startedAt);
      if !ok {
        RefusedUnchanged(row, StartAttempt(attempts(number).startedAt));
        return Refused, delays, renewals;
      }
      StartedShape(row, attempts, number);
      assert task.View() == Started(row, attempts, number);
      var outcome := attempts(number).outcome;
      if outcome.Returned? {
        ok := MarkTaskSuccess(task, outcome.result, attempts(number).endedAt);
        FinalTerminal(Started(row, attempts, number), kind, attempts(number));
        return Finished(outcome), delays, renewals + [attempts(number).refreshedAt];
      }
      var e := outcome.error;
      if IsTimeout(kind, e) {
        ok := MarkErrorTerminal(task, Timeout, "EXECUTION_TIMEOUT", e.message, attempts(number).endedAt);
        FinalTerminal(Started(row, attempts, number), kind, attempts(number));
        return Finished(outcome), delays, renewals + [attempts(number).refreshedAt];
      }
      if CanRetry(policy, task.attemptCount, e) {
        delays := delays + [NextBackoff(policy, task.attemptCount)];
        continue;
      }
      var errorCode := ErrorCode(kind, e);
      if IsRetryable(e) {
        ok := MarkErrorTerminal(task, RetryExhausted, errorCode, e.message, attempts(number).endedAt);
      } else {
        ok := MarkErrorTerminal(task, Failure, errorCode, e.message, attempts(number).endedAt);
      }
      FinalTerminal(Started(row, attempts, number), kind, attempts(number));
      return Finished(outcome), delays, renewals + [attempts(number).refreshedAt];
    }
  }

  lemma RefusedUnchanged(row: Row, call: Call)
    ensures IsTerminal(row.status) ==> Apply(row, call) == row
  {}

  /** The last call is accepted, ends the task, and does what the error transitions do. */
  lemma FinalTerminal(row: Row, kind: Kind, attempt: Attempt)
    requires !IsTerminal(row.status)
    ensures IsTerminal(Apply(row, FinalCall(kind, attempt)).status)
    ensures attempt.outcome.Raised? ==> var e := attempt.outcome.error;
      Apply(row, FinalCall(kind, attempt)) ==
        if IsTimeout(kind, e) then FinishWithError(row, Timeout, "EXECUTION_TIMEOUT", e.message, attempt.endedAt)
        else FinishWithError(row, if IsRetryable(e) then RetryExhausted else Failure, ErrorCode(kind, e), e.message,
                             attempt.endedAt)
  {}

  // ----- what the loop decides

  function FinalRow(kind: Kind, p: RetryPolicy, attempts: nat -> Attempt, row: Row): Row
    requires !IsTerminal(row.status)
  {
    var last := LastAttempt(kind, p, attempts, row.attempts + 1);
    Apply(Started(row, attempts, last), FinalCall(kind, attempts(last)))
  }

  /** The final status is determined by the first attempt that is not retried, and only by it. */
  lemma FinalStatus(kind: Kind, p: RetryPolicy, attempts: nat -> Attempt, row: Row)
    requires !IsTerminal(row.status)
    ensures var last := LastAttempt(kind, p, attempts, row.attempts + 1);
      var end, o := FinalRow(kind, p, attempts, row), attempts(last).outcome;
      && IsTerminal(end.status) && end.attempts == last
      && (end.status == Success <==> o.Returned?)
      && (end.status == Timeout <==> o.Raised? && IsTimeout(kind, o.error))
      && (end.status == RetryExhausted <==> o.Raised? && !IsTimeout(kind, o.error) && IsRetryable(o.error))
      && (end.status == RetryExhausted ==> last > p.maxRetries)
      && (end.status == Failure <==> o.Raised? && !IsTimeout(kind, o.error) && !IsRetryable(o.error))
      && end.status != Cancelled
  {
    var last := LastAttempt(kind, p, attempts, row.attempts + 1);
    StartedShape(row, attempts, last);
  }

  /** The status and the stored code for every kind of error, in either worker. */
  lemma ErrorStored(kind: Kind, e: Error, row: Row, attempt: Attempt)
    requires (row.status == Pending || row.status == Running) && attempt.outcome == Raised(e)
    ensures var end := Apply(row, FinalCall(kind, attempt));
      && end.result == Option.None && end.finishedAt == Option.Some(attempt.endedAt) && end.error.Some?
      && end.error.value.message == e.message && end.attempts == row.attempts && end.startedAt == row.startedAt
    ensures kind == Quantum ==>
      var end := Apply(row, FinalCall(kind, attempt));
      match e
      case BackendError(code, _) =>
        end.error.value.code == code
        && end.status == (if code == "EXECUTION_TIMEOUT" then Timeout
                          else if code in {"SANDBOX_VALIDATION_ERROR", "INVALID_EXEC_OUTPUT", "INVALID_EXEC_RESULT"}
                          then Failure else RetryExhausted)
      case QiboError(code, _) => end.status == RetryExhausted && end.error.value.code == code
      case TimeoutError(_) => end.status == Failure && end.error.value.code == "WORKER_EXEC_ERROR"
      case _ => end.status == RetryExhausted && end.error.value.code == "WORKER_EXEC_ERROR"
    ensures kind == Circuit ==>
      var end := Apply(row, FinalCall(kind, attempt));
      match e
      case BackendError(code, _) =>
        end.error.value.code == code
        && end.status == (if code in {"SANDBOX_VALIDATION_ERROR", "INVALID_EXEC_OUTPUT", "INVALID_EXEC_RESULT",
                                      "EXECUTION_TIMEOUT"} then Failure else RetryExhausted)
      case QiboError(code, _) => end.status == RetryExhausted && end.error.value.code == code
      case HotExecutorError(code, _) =>
        if code == "CIRCUIT_EXEC_TIMEOUT" then end.status == Timeout && end.error.value.code == "EXECUTION_TIMEOUT"
        else end.status == RetryExhausted && end.error.value.code == code
      case TimeoutError(_) => end.status == Failure && end.error.value.code == "CIRCUIT_EXEC_ERROR"
      case OtherError(attribute, _) =>
        end.status == RetryExhausted
        && end.error.value.code == (if attribute.Some? then attribute.value else "CIRCUIT_EXEC_ERROR")
  {}

  /**
   * A new task makes between one and `maxRetries + 1` attempts, starts when the first does and ends when the last
   * does.
   */
  lemma FreshTask(kind: Kind, p: RetryPolicy, attempts: nat -> Attempt, now: int)
    ensures var end := FinalRow(kind, p, attempts, Created(now));
      && 1 <= end.attempts <= p.maxRetries + 1 && Coherent(end)
      && end.startedAt == Option.Some(attempts(1).startedAt)
         && end.finishedAt == Option.Some(attempts(end.attempts).endedAt)
  {
    var last := LastAttempt(kind, p, attempts, 1);
    StartedShape(Created(now), attempts, last);
    StartedCoherent(Created(now), attempts, last);
    StartedFirst(now, attempts, last);
    ApplyCoherent(Started(Created(now), attempts, last), FinalCall(kind, attempts(last)));
  }

  lemma {:induction false} StartedCoherent(row: Row, attempts: nat -> Attempt, last: nat)
    requires Coherent(row) && row.attempts <= last
    ensures Coherent(Started(row, attempts, last))
    decreases last
  {
    if row.attempts < last {
      StartedCoherent(row, attempts, last - 1);
    }
  }

  lemma {:induction false} StartedFirst(now: int, attempts: nat -> Attempt, last: nat)
    requires 1 <= last
    ensures Started(Created(now), attempts, last).startedAt == Option.Some(attempts(1).startedAt)
    decreases last
  {
    StartedShape(Created(now), attempts, last - 1);
    if last > 1 {
      StartedFirst(now, attempts, last - 1);
    } else {
      assert Started(Created(now), attempts, 0) == Created(now);
    }
  }

  /**
   * The budget of a new task is exhausted exactly when each of its attempts raises a retryable error that is no
   * timeout.
   */
  lemma ExhaustedExactly(kind: Kind, p: RetryPolicy, attempts: nat -> Attempt, now: int)
    ensures FinalRow(kind, p, attempts, Created(now)).status == RetryExhausted <==>
      forall k :: 1 <= k <= p.maxRetries + 1 ==> Fails(kind, attempts(k))
  {
    var last := LastAttempt(kind, p, attempts, 1);
    FinalStatus(kind, p, attempts, Created(now));
    if forall k :: 1 <= k <= p.maxRetries + 1 ==> Fails(kind, attempts(k)) {
      assert Fails(kind, attempts(last));
    }
    if FinalRow(kind, p, attempts, Created(now)).status == RetryExhausted {
      forall k | 1 <= k <= p.maxRetries + 1 ensures Fails(kind, attempts(k)) {
        assert k < last ==> Retries(kind, p, attempts(k), k);
      }
    }
  }

  predicate Fails(kind: Kind, attempt: Attempt) {
    attempt.outcome.Raised? && !IsTimeout(kind, attempt.outcome.error) && IsRetryable(attempt.outcome.error)
  }

  /** Successive delays follow the schedule and then repeat its last entry. */
  lemma {:induction false} DelaysFollowSchedule(p: RetryPolicy, last: nat)
    requires Usable(p) && last >= 1
    ensures last - 1 <= |p.backoffSchedule| ==> Delays(p, 1, last) == p.backoffSchedule[..last - 1]
    ensures last - 1 > |p.backoffSchedule| ==>
      Delays(p, 1, last)[..|p.backoffSchedule|] == p.backoffSchedule
      && forall k :: |p.backoffSchedule| <= k < last - 1 ==>
         Delays(p, 1, last)[k] == p.backoffSchedule[|p.backoffSchedule| - 1]
  {
    hide Delays;
    var d, n := Delays(p, 1, last), |p.backoffSchedule|;
    if last - 1 <= n {
      assert forall k :: 0 <= k < last - 1 ==> d[k] == p.backoffSchedule[k];
    } else {
      assert forall k :: 0 <= k < n ==> d[k] == p.backoffSchedule[k];
    }
  }
}
