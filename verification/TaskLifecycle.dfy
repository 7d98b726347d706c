/** The lifecycle of a task row: the service's transitions, and what holds of every row they can produce. */
module TaskLifecycle {
  import opened Options

  datatype Status = Pending | Running | Cancelled | Success | Failure | Timeout | RetryExhausted

  predicate IsTerminal(s: Status) { s in {Cancelled, Success, Failure, Timeout, RetryExhausted} }

  predicate IsError(s: Status) { s in {Failure, Timeout, RetryExhausted} }

  datatype ErrorPayload = ErrorPayload(code: string, message: string)

  /** The columns the lifecycle writes; times are in microseconds. */
  datatype Row = Row(status: Status, result: Option<string>, error: Option<ErrorPayload>, attempts: nat,
                     startedAt: Option<int>, finishedAt: Option<int>, durationMs: Option<int>, updatedAt: int)

  function Created(now: int): Row {
    Row(Pending, Option.None, Option.None, 0, Option.None, Option.None, Option.None, now)
  }

  datatype Call =
    | StartAttempt(now: int)
    | MarkSuccess(result: string, now: int)
    | MarkProgress(result: string, now: int)
    | MarkCancelled(now: int)
    | MarkFailure(code: string, message: string, now: int)
    | MarkTimeout(message: string, now: int)
    | MarkRetryExhausted(code: string, message: string, now: int)

  /** Whole milliseconds, never negative. */
  function DurationMs(startedAt: Option<int>, finishedAt: int): (r: Option<int>)
    ensures r.Some? <==> startedAt.Some?
    ensures r.Some? ==> r.value >= 0
    ensures r.Some? && finishedAt >= startedAt.value ==>
      1000 * r.value <= finishedAt - startedAt.value < 1000 * (r.value + 1)
  {
    match startedAt
    case None => Option.None
    case Some(s) => Option.Some(if finishedAt >= s then (finishedAt - s) / 1000 else 0)
  }

  /** Terminal rows refuse every call, except that cancelling a cancelled task is accepted and does nothing. */
  predicate Accepted(row: Row, call: Call) {
    !IsTerminal(row.status) || (call.MarkCancelled? && row.status == Cancelled)
  }

  function Finish(row: Row, status: Status, now: int): Row {
    row.(status := status, finishedAt := Option.Some(now), durationMs := DurationMs(row.startedAt, now),
         updatedAt := now)
  }

  function FinishWithError(row: Row, status: Status, code: string, message: string, now: int): Row {
    Finish(row, status, now).(result := Option.None, error := Option.Some(ErrorPayload(code, message)))
  }

  /** The row after a call; a refused call raises and leaves the row alone. */
  function Apply(row: Row, call: Call): Row {
    if IsTerminal(row.status) then row
    else
      match call
      case StartAttempt(now) =>
        row.(status := Running, attempts := row.attempts + 1, error := Option.None, updatedAt := now,
             startedAt := if row.startedAt.None? then Option.Some(now) else row.startedAt)
      case MarkSuccess(result, now) => Finish(row, Success, now).(result := Option.Some(result), error := Option.None)
      case MarkProgress(result, now) => row.(result := Option.Some(result), updatedAt := now)
      case MarkCancelled(now) => Finish(row, Cancelled, now)
      case MarkFailure(code, message, now) => FinishWithError(row, Failure, code, message, now)
      case MarkTimeout(message, now) => FinishWithError(row, Timeout, "EXECUTION_TIMEOUT", message, now)
      case MarkRetryExhausted(code, message, now) => FinishWithError(row, RetryExhausted, code, message, now)
  }

  // ----- the service

  class Task {
    var status: Status
    var resultJson: Option<string>
    var errorMessage: Option<ErrorPayload>
    var attemptCount: nat
    var startedAt: Option<int>
    var finishedAt: Option<int>
    var durationMs: Option<int>
    var updatedAt: int

    function View(): Row
      reads this
    {
      Row(status, resultJson, errorMessage, attemptCount, startedAt, finishedAt, durationMs, updatedAt)
    }

    constructor (now: int)
      ensures View() == Created(now)
    {
      status, resultJson, errorMessage, attemptCount := Pending, Option.None, Option.None, 0;
      startedAt, finishedAt, durationMs, updatedAt := Option.None, Option.None, Option.None, now;
    }
  }

  /** `ok` is false where the source raises. */
  method StartTaskAttempt(task: Task, now: int) returns (ok: bool)
    modifies task
    ensures ok == Accepted(old(task.View()), StartAttempt(now))
      && task.View() == Apply(old(task.View()), StartAttempt(now))
  {
    if IsTerminal(task.status) {
      return false;
    }
    if task.startedAt.None? {
      task.startedAt := Option.Some(now);
    }
    task.status := Running;
    task.attemptCount := task.attemptCount + 1;
    task.updatedAt := now;
    task.errorMessage := Option.None;
    return true;
  }

  method MarkTaskSuccess(task: Task, result: string, now: int) returns (ok: bool)
    modifies task
    ensures ok == Accepted(old(task.View()), MarkSuccess(result, now))
      && task.View() == Apply(old(task.View()), MarkSuccess(result, now))
  {
    if IsTerminal(task.status) {
      return false;
    }
    task.status := Success;
    task.resultJson := Option.Some(result);
    task.errorMessage := Option.None;
    task.finishedAt := Option.Some(now);
    task.durationMs := DurationMs(task.startedAt, now);
    task.updatedAt := now;
    return true;
  }

  method MarkTaskProgress(task: Task, result: string, now: int) returns (ok: bool)
    modifies task
    ensures ok == Accepted(old(task.View()), MarkProgress(result, now))
      && task.View() == Apply(old(task.View()), MarkProgress(result, now))
  {
    if IsTerminal(task.status) {
      return false;
    }
    task.resultJson := Option.Some(result);
    task.updatedAt := now;
    return true;
  }

  method MarkTaskCancelled(task: Task, now: int) returns (ok: bool)
    modifies task
    ensures ok == Accepted(old(task.View()), MarkCancelled(now))
      && task.View() == Apply(old(task.View()), MarkCancelled(now))
  {
    if task.status == Cancelled {
      return true;
    }
    if IsTerminal(task.status) {
      return false;
    }
    task.status := Cancelled;
    task.finishedAt := Option.Some(now);
    task.durationMs := DurationMs(task.startedAt, now);
    task.updatedAt := now;
    return true;
  }

  method MarkErrorTerminal(task: Task, status: Status, code: string, message: string, now: int) returns (ok: bool)
    requires IsError(status)
    modifies task
    ensures ok <==> !IsTerminal(old(task.status))
    ensures task.View() ==
            if ok then FinishWithError(old(task.View()), status, code, message, now) else old(task.View())
  {
    if IsTerminal(task.status) {
      return false;
    }
    task.status := status;
    task.resultJson := Option.None;
    task.errorMessage := Option.Some(ErrorPayload(code, message));
    task.finishedAt := Option.Some(now);
    task.durationMs := DurationMs(task.startedAt, now);
    task.updatedAt := now;
    return true;
  }

  // ----- every column after every call

  /** A terminal row refuses every call, except that cancelling a cancelled one is accepted; neither changes it. */
  lemma TerminalRow(row: Row, call: Call)
    requires row.status in {Cancelled, Success, Failure, Timeout, RetryExhausted}
    ensures Apply(row, call) == row
    ensures Accepted(row, call) <==> row.status == Cancelled && call.MarkCancelled?
  {}

  /** A row that is pending or running accepts every call; this is what each one leaves in the columns. */
  lemma OpenRow(row: Row, code: string, text: string, now: int)
    requires row.status == Pending || row.status == Running
    ensures forall call :: Accepted(row, call)
    ensures Apply(row, StartAttempt(now)) ==
            Row(Running, row.result, Option.None, row.attempts + 1,
                Option.Some(if row.startedAt.Some? then row.startedAt.value
                            else now), row.finishedAt, row.durationMs, now)
    ensures Apply(row, MarkProgress(text, now)) ==
            Row(row.status, Option.Some(text), row.error, row.attempts, row.startedAt, row.finishedAt, row.durationMs,
                now)
    ensures var s := row.startedAt;
      var ms := if s.None? then Option.None else Option.Some(if now < s.value then 0 else (now - s.value) / 1000);
      && Apply(row, MarkSuccess(text, now)) ==
         Row(Success, Option.Some(text), Option.None, row.attempts, s, Option.Some(now), ms, now)
      && Apply(row, MarkCancelled(now)) ==
          Row(Cancelled, row.result, row.error, row.attempts, s, Option.Some(now), ms, now)
      && Apply(row, MarkFailure(code, text, now)) ==
         Row(Failure, Option.None, Option.Some(ErrorPayload(code, text)), row.attempts, s, Option.Some(now), ms, now)
      && Apply(row, MarkTimeout(text, now)) ==
         Row(Timeout, Option.None, Option.Some(ErrorPayload("EXECUTION_TIMEOUT", text)), row.attempts, s,
             Option.Some(now), ms, now)
      && Apply(row, MarkRetryExhausted(code, text, now)) ==
         Row(RetryExhausted, Option.None, Option.Some(ErrorPayload(code, text)), row.attempts, s, Option.Some(now), ms,
             now)
  {}

  // ----- every reachable row

  function Run(row: Row, calls: seq<Call>): Row
    decreases calls
  {
    if calls == [] then row else Run(Apply(row, calls[0]), calls[1..])
  }

  predicate Coherent(row: Row) {
    && (row.startedAt.Some? <==> row.attempts >= 1)
    && (row.status == Pending ==> row.attempts == 0)
    && (row.status == Running ==> row.attempts >= 1)
    && (row.finishedAt.Some? <==> IsTerminal(row.status))
    && (row.durationMs.Some? <==> IsTerminal(row.status) && row.startedAt.Some?)
    && (row.durationMs.Some? ==>
        row.durationMs == DurationMs(row.startedAt, row.finishedAt.value) && row.durationMs.value >= 0)
    && (row.status == Success ==> row.result.Some?)
    && (IsError(row.status) ==> row.error.Some? && row.result.None?)
    && (!IsError(row.status) ==> row.error.None?)
    && (row.finishedAt.Some? ==> row.updatedAt == row.finishedAt.value)
  }

  lemma ApplyCoherent(row: Row, call: Call)
    requires Coherent(row)
    ensures Coherent(Apply(row, call))
  {}

  lemma {:induction false} RunCoherent(row: Row, calls: seq<Call>)
    requires Coherent(row)
    ensures Coherent(Run(row, calls))
    decreases calls
  {
    hide Apply, Coherent;
    if calls != [] {
      ApplyCoherent(row, calls[0]);
      RunCoherent(Apply(row, calls[0]), calls[1..]);
    }
  }

  /**
   * Whatever calls a new task receives, in any order: finish time exactly in terminal rows, start time exactly after
   * an attempt, durations never negative, results and errors where they belong.
   */
  lemma ReachableCoherent(now: int, calls: seq<Call>)
    ensures Coherent(Run(Created(now), calls))
  {
    RunCoherent(Created(now), calls);
  }

  /** No sequence of calls changes a terminal row in any column. */
  lemma {:induction false} TerminalIsFinal(row: Row, calls: seq<Call>)
    requires IsTerminal(row.status)
    ensures Run(row, calls) == row
    decreases calls
  {
    if calls != [] {
      TerminalIsFinal(row, calls[1..]);
    }
  }

  /** Attempts are never uncounted, a start time never moves, and a task never becomes pending again. */
  lemma {:induction false} RunMonotone(row: Row, calls: seq<Call>)
    requires Coherent(row)
    ensures var end := Run(row, calls);
      && end.attempts >= row.attempts
      && (row.startedAt.Some? ==> end.startedAt == row.startedAt)
      && (row.status != Pending ==> end.status != Pending)
    decreases calls
  {
    if calls != [] {
      ApplyCoherent(row, calls[0]);
      RunMonotone(Apply(row, calls[0]), calls[1..]);
    }
  }

  /** Whatever was reported last before a cancellation stays stored with the cancelled task. */
  lemma CancelledKeepsProgress(row: Row, report: string, reportedAt: int, cancelledAt: int, later: seq<Call>)
    requires Coherent(row) && !IsTerminal(row.status)
    ensures var end := Run(row, [MarkProgress(report, reportedAt), MarkCancelled(cancelledAt)] + later);
      end.status == Cancelled && end.result == Option.Some(report) && end.error.None?
  {
    var calls := [MarkProgress(report, reportedAt), MarkCancelled(cancelledAt)] + later;
    var reported := Apply(row, calls[0]);
    assert calls[1..][0] == MarkCancelled(cancelledAt) && calls[1..][1..] == later;
    assert Run(row, calls) == Run(reported, calls[1..]) == Run(Apply(reported, calls[1]), later);
    TerminalIsFinal(Apply(reported, calls[1]), later);
  }
}
