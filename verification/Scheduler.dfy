/**
 * The debounced simulation scheduler as a protocol of atomic steps: calls, timer callbacks, runner completions,
 * and the resumption of an awaiting request, in any interleaving.
 */
module Scheduler {
  import opened Options

  datatype ErrorCode = Stale | Timeout | ExecError

  /** What the runner's promise is fulfilled with. */
  datatype Response<T> = Result(requestId: string, payload: T) | ErrorResponse(code: ErrorCode)

  /** What an awaited promise is rejected with. */
  datatype Thrown = ScheduleError(code: ErrorCode) | OtherError

  datatype Outcome<T> = Answered(response: Response<T>) | Threw(error: Thrown)

  datatype Settlement<T> = Resolved(requestId: string, payload: T) | Rejected(code: ErrorCode)

  /** A request waits for its timer, then for the runner or the timeout, is then woken, and is finally settled. */
  datatype Phase<T> = Debouncing | Running | Woken(outcome: Outcome<T>) | Settled(settlement: Settlement<T>)

  /**
   * Requests are numbered from 1.  `version` and `pending` belong to the scheduler; `timers` are the armed debounce
   * timers, `phases` the requests' progress, `runs` the runner calls and `resolved` the fulfilled requests so far.
   */
  datatype State<T> = State(version: nat, pending: Option<nat>, timers: set<nat>, phases: seq<Phase<T>>,
                            runs: seq<nat>, resolved: seq<nat>)

  datatype Event<T> =
    | Schedule
    | TimerFires(request: nat, throws: Option<Thrown>)
    | RunnerSettles(request: nat, outcome: Outcome<T>)
    | TimeoutFires(request: nat)
    | Resume(request: nat)

  function Initial<T>(): State<T> { State(0, Option.None, {}, [], [], []) }

  predicate Known<T>(st: State<T>, v: nat) { 1 <= v <= |st.phases| }

  /** The events the host can deliver in a state; a call is always possible. */
  predicate Enabled<T>(st: State<T>, e: Event<T>) {
    match e
    case Schedule => true
    case TimerFires(v, _) => v in st.timers && Known(st, v)
    case RunnerSettles(v, _) => Known(st, v) && st.phases[v - 1].Running?
    case TimeoutFires(v) => Known(st, v) && st.phases[v - 1].Running?
    case Resume(v) => Known(st, v) && st.phases[v - 1].Woken?
  }

  function ToExecutionError(error: Thrown): ErrorCode {
    match error
    case ScheduleError(code) => code
    case OtherError => ExecError
  }

  function Put<T>(st: State<T>, v: nat, p: Phase<T>): State<T>
    requires Known(st, v)
  {
    st.(phases := st.phases[v - 1 := p])
  }

  /** A pending request is told that it is stale, and its timer is cleared. */
  function Cancel<T>(st: State<T>): State<T> {
    match st.pending
    case None => st
    case Some(p) =>
      var cleared := st.(pending := Option.None, timers := st.timers - {p});
      if Known(st, p) then Put(cleared, p, Settled(Rejected(Stale))) else cleared
  }

  function Settle<T>(st: State<T>, v: nat, outcome: Outcome<T>): Settlement<T> {
    match outcome
    case Threw(error) => Rejected(ToExecutionError(error))
    case Answered(response) =>
      if v != st.version then Rejected(Stale)
      else
        match response
        case ErrorResponse(code) => Rejected(code)
        case Result(requestId, payload) => Resolved(requestId, payload)
  }

  function Step<T>(st: State<T>, e: Event<T>): State<T> {
    if !Enabled(st, e) then st
    else
      match e
      case Schedule =>
        var c := Cancel(st.(version := st.version + 1));
        c.(phases := c.phases + [Debouncing], timers := c.timers + {c.version}, pending := Option.Some(c.version))
      case TimerFires(v, throws) =>
        Put(st, v, if throws.Some? then Settled(Rejected(ToExecutionError(throws.value))) else Running)
          .(pending := Option.None, timers := st.timers - {v}, runs := st.runs + [v])
      case RunnerSettles(v, outcome) => Put(st, v, Woken(outcome))
      case TimeoutFires(v) => Put(st, v, Woken(Threw(ScheduleError(Timeout))))
      case Resume(v) =>
        var s := Settle(st, v, st.phases[v - 1].outcome);
        Put(st, v, Settled(s)).(resolved := if s.Resolved? then st.resolved + [v] else st.resolved)
  }

  function Run<T>(st: State<T>, events: seq<Event<T>>): State<T>
    decreases events
  {
    if events == [] then st else Run(Step(st, events[0]), events[1..])
  }

  // ----- the scheduler object

  class SimulationScheduler<T(!new)> {
    var version: nat
    var pending: Option<nat>
    var timers: set<nat>
    var phases: seq<Phase<T>>
    ghost var runs: seq<nat>
    ghost var resolved: seq<nat>

    ghost function View(): State<T>
      reads this
    {
      State(version, pending, timers, phases, runs, resolved)
    }

    constructor ()
      ensures View() == Initial()
    {
      version, pending, timers, phases, runs, resolved := 0, Option.None, {}, [], [], [];
    }

    method CancelPending()
      requires pending.Some? ==> 1 <= pending.value <= |phases|
      modifies `pending, `timers, `phases
      ensures View() == Cancel(old(View()))
    {
      if pending.None? {
        return;
      }
      timers := timers - {pending.value};
      phases := phases[pending.value - 1 := Settled(Rejected(Stale))];
      pending := Option.None;
    }

    method ScheduleRun() returns (request: nat)
      requires Inv(View())
      modifies this
      ensures View() == Step(old(View()), Schedule) && Inv(View())
      ensures request == version == old(version) + 1
    {
      StepInv(View(), Schedule);
      version := version + 1;
      request := version;
      assert pending.Some? ==> pending.value in timers;
      CancelPending();
      phases := phases + [Debouncing];
      timers := timers + {request};
      pending := Option.Some(request);
    }

    /** The debounce timer of a request: the runner is called, and may throw at once. */
    method OnTimer(request: nat, throws: Option<Thrown>)
      requires Inv(View()) && Enabled(View(), TimerFires(request, throws))
      modifies this
      ensures View() == Step(old(View()), TimerFires(request, throws)) && Inv(View())
    {
      StepInv(View(), TimerFires(request, throws));
      timers := timers - {request};
      pending := Option.None;
      runs := runs + [request];
      if throws.Some? {
        phases := phases[request - 1 := Settled(Rejected(ToExecutionError(throws.value)))];
      } else {
        phases := phases[request - 1 := Running];
      }
    }

    /** The first of runner and timeout decides what the request is woken with. */
    method OnRunner(request: nat, outcome: Outcome<T>)
      requires Inv(View()) && Enabled(View(), RunnerSettles(request, outcome))
      modifies `phases
      ensures View() == Step(old(View()), RunnerSettles(request, outcome)) && Inv(View())
    {
      StepInv(View(), RunnerSettles(request, outcome));
      phases := phases[request - 1 := Woken(outcome)];
    }

    method OnTimeout(request: nat)
      requires Inv(View()) && Enabled(View(), TimeoutFires(request))
      modifies `phases
      ensures View() == Step(old(View()), TimeoutFires(request)) && Inv(View())
    {
      StepInv(View(), TimeoutFires(request));
      phases := phases[request - 1 := Woken(Threw(ScheduleError(Timeout)))];
    }

    /** The code after the `await`. */
    method OnResume(request: nat)
      requires Inv(View()) && Enabled(View(), Resume(request))
      modifies `phases, `resolved
      ensures View() == Step(old(View()), Resume(request)) && Inv(View())
    {
      StepInv(View(), Resume(request));
      match phases[request - 1].outcome
      case Threw(error) =>
        phases := phases[request - 1 := Settled(Rejected(ToExecutionError(error)))];
      case Answered(response) =>
        if request != version {
          phases := phases[request - 1 := Settled(Rejected(Stale))];
        } else if response.ErrorResponse? {
          phases := phases[request - 1 := Settled(Rejected(response.code))];
        } else {
          phases := phases[request - 1 := Settled(Resolved(response.requestId, response.payload))];
          resolved := resolved + [request];
        }
    }
  }

  // ----- the invariant

  predicate Increasing(s: seq<nat>, bound: nat) {
    && (forall i, j :: 0 <= i < j < |s| ==> s[i] < s[j])
    && (forall v :: v in s ==> 1 <= v <= bound)
  }

  predicate HasResolved<T>(p: Phase<T>) { p.Settled? && p.settlement.Resolved? }

  /** At most one timer, the newest request's; what never ran and is not waiting was told that it is stale. */
  ghost predicate Inv<T>(st: State<T>) {
    && |st.phases| == st.version
    && (forall v :: v in st.timers <==> Known(st, v) && st.phases[v - 1].Debouncing?)
    && st.timers == (if st.pending.Some? then {st.pending.value} else {})
    && (st.pending.Some? ==> st.pending.value == st.version)
    && Increasing(st.runs, st.version) && Increasing(st.resolved, st.version)
    && (forall v :: Known(st, v) && st.phases[v - 1].Debouncing? ==> v !in st.runs)
    && (forall v :: Known(st, v) && !st.phases[v - 1].Debouncing? && v !in st.runs ==>
        st.phases[v - 1] == Settled(Rejected(Stale)))
    && (forall v :: Known(st, v) ==> (v in st.resolved <==> HasResolved(st.phases[v - 1])))
  }

  lemma InitialInv<T>()
    ensures Inv(Initial<T>())
  {}

  lemma StepInv<T>(st: State<T>, e: Event<T>)
    requires Inv(st)
    ensures Inv(Step(st, e))
  {
    if Enabled(st, e) {
      match e
      case Schedule => ScheduleInv(st);
      case TimerFires(v, throws) => TimerInv(st, v, throws);
      case RunnerSettles(v, outcome) => WakeInv(st, v, outcome);
      case TimeoutFires(v) => WakeInv(st, v, Threw(ScheduleError(Timeout)));
      case Resume(v) => ResumeInv(st, v);
    }
  }

  lemma ScheduleInv<T>(st: State<T>)
    requires Inv(st)
    ensures Inv(Step(st, Schedule))
  {
    var next := Step(st, Schedule);
    forall v | Known(next, v) && v != next.version
      ensures next.phases[v - 1] == if v in st.timers then Settled(Rejected(Stale)) else st.phases[v - 1]
    {}
  }

  lemma AppendNewest(s: seq<nat>, v: nat)
    requires Increasing(s, v) && v !in s && v >= 1
    ensures Increasing(s + [v], v)
  {
    assert forall i :: 0 <= i < |s| ==> s[i] in s;
    assert forall u :: u in s + [v] <==> u in s || u == v;
  }

  lemma TimerInv<T>(st: State<T>, v: nat, throws: Option<Thrown>)
    requires Inv(st) && Enabled(st, TimerFires(v, throws))
    ensures Inv(Step(st, TimerFires(v, throws)))
  {
    assert v in st.timers && v == st.version && st.timers == {v};
    AppendNewest(st.runs, v);
    var next := Step(st, TimerFires(v, throws));
    assert next.timers == {} && next.pending.None? && !next.phases[v - 1].Debouncing?;
    assert forall u :: u in next.runs <==> u in st.runs || u == v;
    forall u | Known(next, u)
      ensures Known(st, u) && !next.phases[u - 1].Debouncing? && (u != v ==> next.phases[u - 1] == st.phases[u - 1])
    {
      if u != v { assert u !in st.timers; }
    }
  }

  lemma WakeInv<T>(st: State<T>, v: nat, outcome: Outcome<T>)
    requires Inv(st) && Known(st, v) && st.phases[v - 1].Running?
    ensures Inv(Put(st, v, Woken(outcome)))
  {
    var next := Put(st, v, Woken(outcome));
    forall u | Known(st, u) && u != v ensures next.phases[u - 1] == st.phases[u - 1] {}
    assert st.phases[v - 1] != Settled(Rejected(Stale));
  }

  lemma ResumeInv<T>(st: State<T>, v: nat)
    requires Inv(st) && Enabled(st, Resume(v))
    ensures Inv(Step(st, Resume(v)))
  {
    var next := Step(st, Resume(v));
    forall u | Known(st, u) && u != v ensures next.phases[u - 1] == st.phases[u - 1] {}
    assert st.phases[v - 1] != Settled(Rejected(Stale)) && !HasResolved(st.phases[v - 1]);
    if next.resolved != st.resolved {
      AppendNewest(st.resolved, v);
      assert forall u :: u in next.resolved <==> u in st.resolved || u == v;
    }
  }

  /** A call replaces the pending request, which is stale from then on, by a new one with its own timer. */
  lemma CallExactly<T>(st: State<T>)
    requires Inv(st)
    ensures var next := Step(st, Schedule);
      && next.version == st.version + 1 && next.pending == Option.Some(next.version) && next.timers == {next.version}
      && next.runs == st.runs && next.resolved == st.resolved && |next.phases| == |st.phases| + 1
      && next.phases[next.version - 1] == Debouncing
      && forall v :: Known(st, v) ==>
        next.phases[v - 1] == if st.pending == Option.Some(v) then Settled(Rejected(Stale)) else st.phases[v - 1]
  {
    if st.pending.Some? { assert st.pending.value in st.timers; }
  }

  /**
   * The debounce timer clears the pending slot and calls the runner; the request then runs, unless the runner throws at
   * once, which rejects it in every continuation.
   */
  lemma TimerExactly<T>(st: State<T>, throws: Option<Thrown>, later: seq<Event<T>>)
    requires Inv(st) && st.pending.Some?
    ensures var v, next := st.version, Step(st, TimerFires(st.version, throws));
      && next.version == v && next.pending == Option.None && next.timers == {} && next.runs == st.runs + [v]
      && next.resolved == st.resolved && |next.phases| == |st.phases| == v
      && (forall u :: Known(st, u) && u != v ==> next.phases[u - 1] == st.phases[u - 1])
      && (throws.None? ==> next.phases[v - 1] == Running)
    ensures throws.Some? ==>
      var v, end := st.version, Run(st, [TimerFires(st.version, throws)] + later);
      Known(end, v) && end.phases[v - 1] ==
        Settled(Rejected(match throws.value case ScheduleError(code) => code case OtherError => ExecError))
  {
    hide Run;
    var e := TimerFires(st.version, throws);
    assert st.version in st.timers;
    StepInv(st, e);
    RunFirst(st, [e] + later);
    assert ([e] + later)[1..] == later;
    if throws.Some? { SettlesOnce(Step(st, e), later, st.version); }
  }

  // ----- safety over whole runs

  lemma {:induction false} RunInv<T>(st: State<T>, events: seq<Event<T>>)
    requires Inv(st)
    ensures Inv(Run(st, events))
    decreases events
  {
    if events != [] {
      StepInv(st, events[0]);
      RunInv(Step(st, events[0]), events[1..]);
    }
  }

  /** In every reachable state one debounce timer at most is armed, and it belongs to the newest request. */
  lemma OneTimer<T>(events: seq<Event<T>>)
    ensures var st := Run(Initial<T>(), events);
      forall v :: v in st.timers ==> v == st.version && st.timers == {v} && st.pending == Option.Some(v)
  {
    InitialInv<T>();
    RunInv(Initial<T>(), events);
  }

  /** Requests resolve in the order in which they were made. */
  lemma ResolvedInOrder<T>(events: seq<Event<T>>)
    ensures var st := Run(Initial<T>(), events);
      forall i, j :: 0 <= i < j < |st.resolved| ==> st.resolved[i] < st.resolved[j]
  {
    InitialInv<T>();
    RunInv(Initial<T>(), events);
  }

  /** What one step may do to one request. */
  lemma StepPhase<T>(st: State<T>, e: Event<T>, v: nat)
    requires Inv(st) && Known(st, v)
    ensures var next := Step(st, e);
      && Known(next, v) && next.version >= st.version
      && (st.phases[v - 1].Settled? ==> next.phases[v - 1] == st.phases[v - 1])
      && (HasResolved(next.phases[v - 1]) && !HasResolved(st.phases[v - 1]) ==> v == st.version == next.version)
      && (v in next.runs && v !in st.runs ==> v == st.version == next.version && v in st.timers)
  {}

  /** A request settles at most once: whatever it was settled with stays, in every continuation. */
  lemma {:induction false} SettlesOnce<T>(st: State<T>, events: seq<Event<T>>, v: nat)
    requires Inv(st) && Known(st, v) && st.phases[v - 1].Settled?
    ensures var end := Run(st, events); Known(end, v) && end.phases[v - 1] == st.phases[v - 1]
    decreases events
  {
    if events != [] {
      StepPhase(st, events[0], v);
      StepInv(st, events[0]);
      SettlesOnce(Step(st, events[0]), events[1..], v);
    }
  }

  /** A superseded request that has not resolved never resolves, and one that has not run never runs. */
  lemma {:induction false} Superseded<T>(st: State<T>, events: seq<Event<T>>, v: nat)
    requires Inv(st) && Known(st, v) && v < st.version
    ensures var end := Run(st, events);
      && Known(end, v)
      && (!HasResolved(st.phases[v - 1]) ==> !HasResolved(end.phases[v - 1]))
      && (v !in st.runs ==> v !in end.runs && end.phases[v - 1] == Settled(Rejected(Stale)))
    decreases events
  {
    if events != [] {
      StepPhase(st, events[0], v);
      StepInv(st, events[0]);
      Superseded(Step(st, events[0]), events[1..], v);
    }
  }

  /** A call while another request waits for its timer rejects that one on the spot; its runner is never called. */
  lemma SupersededWhileWaiting<T>(st: State<T>, events: seq<Event<T>>)
    requires Inv(st) && st.pending.Some?
    ensures var v, end := st.pending.value, Run(st, [Schedule] + events);
      Known(end, v) && v !in end.runs && end.phases[v - 1] == Settled(Rejected(Stale))
  {
    var v, next := st.pending.value, Step(st, Schedule);
    assert v in st.timers;
    StepInv(st, Schedule);
    StepPhase(st, Schedule, v);
    assert ([Schedule] + events)[1..] == events;
    Superseded(next, events, v);
  }

  /** A superseded request need not end as stale: here it ends with the timeout. */
  lemma SupersededMayTimeOut()
    ensures Run(Initial<int>(), [Schedule, TimerFires(1, Option.None), Schedule, TimeoutFires(1), Resume(1)]).phases
            == [Settled(Rejected(Timeout)), Debouncing]
  {
    var e := [Schedule, TimerFires(1, Option.None), Schedule, TimeoutFires(1), Resume(1)];
    var s1 := Step(Initial<int>(), e[0]);
    assert s1.phases == [Debouncing] && s1.timers == {1};
    var s2 := Step(s1, e[1]);
    assert s2.phases == [Running] && s2.timers == {};
    var s3 := Step(s2, e[2]);
    assert s3.phases == [Running, Debouncing];
    var s4 := Step(s3, e[3]);
    assert s4.phases == [Woken(Threw(ScheduleError(Timeout))), Debouncing];
    var s5 := Step(s4, e[4]);
    RunFive(Initial<int>(), e);
  }

  lemma RunFive<T>(st: State<T>, e: seq<Event<T>>)
    requires |e| == 5
    ensures Run(st, e) == Step(Step(Step(Step(Step(st, e[0]), e[1]), e[2]), e[3]), e[4])
  {
    hide Step, Run;
    var s1 := Step(st, e[0]);
    var s2 := Step(s1, e[1]);
    var s3 := Step(s2, e[2]);
    var s4 := Step(s3, e[3]);
    RunFirst(st, e);
    RunFirst(s1, e[1..]);
    RunFirst(s2, e[2..]);
    RunFirst(s3, e[3..]);
    RunFirst(s4, e[4..]);
    assert e[1..][1..] == e[2..] && e[2..][1..] == e[3..] && e[3..][1..] == e[4..] && e[4..][1..] == [];
    RunNothing(Step(s4, e[4]));
  }

  lemma RunFirst<T>(st: State<T>, events: seq<Event<T>>)
    requires events != []
    ensures Run(st, events) == Run(Step(st, events[0]), events[1..])
  {}

  lemma RunNothing<T>(st: State<T>)
    ensures Run(st, []) == st
  {}

  // ----- progress

  function Weight<T>(p: Phase<T>): nat {
    match p
    case Debouncing => 3
    case Running => 2
    case Woken(_) => 1
    case Settled(_) => 0
  }

  /** How many more callbacks the requests can receive at most. */
  function Remaining<T>(phases: seq<Phase<T>>): nat {
    if phases == [] then 0 else Remaining(phases[..|phases| - 1]) + Weight(phases[|phases| - 1])
  }

  lemma {:induction false} RemainingPut<T>(phases: seq<Phase<T>>, k: nat, p: Phase<T>)
    requires k < |phases|
    ensures Remaining(phases[k := p]) == Remaining(phases) - Weight(phases[k]) + Weight(p)
  {
    var last := |phases| - 1;
    if k == last {
      assert phases[k := p][..last] == phases[..last];
    } else {
      assert phases[k := p][..last] == phases[..last][k := p];
      RemainingPut(phases[..last], k, p);
    }
  }

  /** Every callback brings some request closer to its end; a call adds one request at most. */
  lemma StepProgress<T>(st: State<T>, e: Event<T>)
    requires Inv(st) && Enabled(st, e)
    ensures e.Schedule? ==> Remaining(Step(st, e).phases) <= Remaining(st.phases) + 3
    ensures !e.Schedule? ==> Remaining(Step(st, e).phases) < Remaining(st.phases)
  {
    if e.Schedule? {
      var c := Cancel(st);
      assert (c.phases + [Debouncing])[..|c.phases|] == c.phases;
      if st.pending.Some? {
        assert st.pending.value in st.timers;
        RemainingPut(st.phases, st.pending.value - 1, Settled(Rejected(Stale)));
      }
    } else {
      var v := e.request;
      assert e.TimerFires? ==> v in st.timers;
      RemainingPut(st.phases, v - 1, Step(st, e).phases[v - 1]);
    }
  }

  function Calls<T>(events: seq<Event<T>>): nat {
    if events == [] then 0 else (if events[0].Schedule? then 1 else 0) + Calls(events[1..])
  }

  /** The callbacks of a run that found their request waiting for them. */
  function Callbacks<T>(st: State<T>, events: seq<Event<T>>): nat
    decreases events
  {
    if events == [] then 0
    else (if Enabled(st, events[0]) && !events[0].Schedule? then 1 else 0) + Callbacks(Step(st, events[0]), events[1..])
  }

  lemma {:induction false} CallbacksBounded<T>(st: State<T>, events: seq<Event<T>>)
    requires Inv(st)
    ensures Callbacks(st, events) + Remaining(Run(st, events).phases) <= Remaining(st.phases) + 3 * Calls(events)
    decreases events
  {
    hide Step, Inv, Enabled;
    if events != [] {
      var e := events[0];
      StepInv(st, e);
      CallbacksBounded(Step(st, e), events[1..]);
      if Enabled(st, e) { StepProgress(st, e); } else { IdleStep(st, e); }
    }
  }

  lemma IdleStep<T>(st: State<T>, e: Event<T>)
    requires !Enabled(st, e)
    ensures Step(st, e) == st && !e.Schedule?
  {}

  /** A request that is not settled always has a callback coming, so nobody waits forever unless the host does. */
  lemma NobodyForgotten<T>(events: seq<Event<T>>, v: nat)
    requires Known(Run(Initial<T>(), events), v)
    ensures var st := Run(Initial<T>(), events);
      st.phases[v - 1].Settled? <==>
      !Enabled(st, TimerFires(v, Option.None)) && !Enabled(st, TimeoutFires(v)) && !Enabled(st, Resume(v))
  {
    InitialInv<T>();
    RunInv(Initial<T>(), events);
  }

  // ----- the newest request

  /** The event that ends the race between the runner of a request and its timeout. */
  predicate Decides<T>(d: Event<T>, v: nat) {
    (d.RunnerSettles? || d.TimeoutFires?) && d.request == v
  }

  lemma {:induction false} RunConcat<T>(st: State<T>, a: seq<Event<T>>, b: seq<Event<T>>)
    ensures Run(st, a + b) == Run(Run(st, a), b)
    decreases a
  {
    hide Step;
    if a == [] {
      assert a + b == b;
    } else {
      assert (a + b)[1..] == a[1..] + b;
      RunConcat(Step(st, a[0]), a[1..], b);
    }
  }

  /** The newest request is in the given phase. */
  ghost predicate Newest<T>(st: State<T>, v: nat, phase: Phase<T>) {
    Inv(st) && st.version == v >= 1 && st.phases[v - 1] == phase
  }

  /** The event is no call, and none that a request in this phase can receive. */
  predicate Aside<T>(e: Event<T>, v: nat, phase: Phase<T>) {
    match e
    case Schedule => false
    case TimerFires(_, _) => true
    case RunnerSettles(u, _) => u != v || !phase.Running?
    case TimeoutFires(u) => u != v || !phase.Running?
    case Resume(u) => u != v || !phase.Woken?
  }

  lemma AsideStep<T>(st: State<T>, e: Event<T>, v: nat, phase: Phase<T>)
    requires Newest(st, v, phase) && (phase.Running? || phase.Woken?) && Aside(e, v, phase)
    ensures Newest(Step(st, e), v, phase) && Step(st, e).resolved == st.resolved
  {
    StepInv(st, e);
    assert v !in st.timers;
  }

  lemma {:induction false} AsideRun<T>(st: State<T>, events: seq<Event<T>>, v: nat, phase: Phase<T>)
    requires Newest(st, v, phase) && (phase.Running? || phase.Woken?) && forall e :: e in events ==> Aside(e, v, phase)
    ensures Newest(Run(st, events), v, phase) && Run(st, events).resolved == st.resolved
    decreases events
  {
    hide Step, Newest, Aside;
    if events != [] {
      assert events[0] in events && forall e :: e in events[1..] ==> e in events;
      AsideStep(st, events[0], v, phase);
      AsideRun(Step(st, events[0]), events[1..], v, phase);
    }
  }

  lemma {:induction false} ResolvedGrows<T>(st: State<T>, events: seq<Event<T>>)
    ensures st.resolved <= Run(st, events).resolved
    decreases events
  {
    if events != [] {
      ResolvedGrows(Step(st, events[0]), events[1..]);
    }
  }

  /**
   * How the newest request ends, however the callbacks of other requests interleave, and whatever follows: it resolves
   * with the runner's result, after those that have resolved before, and is rejected with the runner's error message,
   * with the error the runner throws, or with the timeout if that comes first.
   */
  lemma NewestEnds<T>(st: State<T>, a: seq<Event<T>>, d: Event<T>, b: seq<Event<T>>, later: seq<Event<T>>)
    requires Inv(st) && st.pending.Some? && Decides(d, st.version)
    requires forall e :: e in a ==> !e.Schedule? && !Decides(e, st.version)
    requires forall e :: e in b ==> !e.Schedule? && !(e.Resume? && e.request == st.version)
    ensures var v := st.version;
      var end := Run(st, [TimerFires(v, Option.None)] + a + [d] + b + [Resume(v)] + later);
      && Known(end, v)
      && end.phases[v - 1] == Settled(
           match d
           case TimeoutFires(_) => Rejected(Timeout)
           case RunnerSettles(_, Threw(ScheduleError(code))) => Rejected(code)
           case RunnerSettles(_, Threw(OtherError)) => Rejected(ExecError)
           case RunnerSettles(_, Answered(ErrorResponse(code))) => Rejected(code)
           case RunnerSettles(_, Answered(Result(requestId, payload))) => Resolved(requestId, payload))
      && (if end.phases[v - 1].settlement.Resolved? then st.resolved + [v] else st.resolved) <= end.resolved
  {
    hide Run, Inv, Step, Aside;
    var v := st.version;
    var outcome := if d.TimeoutFires? then Threw(ScheduleError(Timeout)) else d.outcome;
    var first, second, third := [TimerFires(v, Option.None)], [d], [Resume(v)];
    RunConcat(st, first + a + second + b + third, later);
    RunConcat(st, first + a + second + b, third);
    RunConcat(st, first + a + second, b);
    RunConcat(st, first + a, second);
    RunConcat(st, first, a);
    RunOne(st, first[0]);
    var s1 := Step(st, first[0]);
    assert Newest(s1, v, Running) && s1.resolved == st.resolved by { NewestStarts(st); }
    forall e | e in a ensures Aside(e, v, Running) { UndecidedAside(e, v); }
    AsideRun(s1, a, v, Running);
    var s2 := Run(s1, a);
    RunOne(s2, second[0]);
    var s3 := Step(s2, second[0]);
    assert Newest(s3, v, Woken(outcome)) && s3.resolved == s2.resolved by { NewestWakes(s2, d, v, outcome); }
    forall e | e in b ensures Aside(e, v, Woken(outcome)) { UnresumedAside(e, v, outcome); }
    AsideRun(s3, b, v, Woken(outcome));
    var s4 := Run(s3, b);
    RunOne(s4, third[0]);
    NewestSettles(s4, d, v, outcome);
    var s5 := Step(s4, third[0]);
    SettlesOnce(s5, later, v);
    ResolvedGrows(s5, later);
  }

  lemma UndecidedAside<T>(e: Event<T>, v: nat)
    requires !e.Schedule? && !Decides(e, v)
    ensures Aside(e, v, Running)
  {}

  lemma UnresumedAside<T>(e: Event<T>, v: nat, outcome: Outcome<T>)
    requires !e.Schedule? && !(e.Resume? && e.request == v)
    ensures Aside(e, v, Woken(outcome))
  {}

  lemma RunOne<T>(st: State<T>, e: Event<T>)
    ensures Run(st, [e]) == Step(st, e)
  {
    hide Step;
    assert Run(st, [e]) == Run(Step(st, e), []);
  }

  lemma NewestStarts<T>(st: State<T>)
    requires Inv(st) && st.pending.Some?
    ensures var next := Step(st, TimerFires(st.version, Option.None));
      Newest(next, st.version, Running) && next.resolved == st.resolved
  {
    assert st.version in st.timers;
    StepInv(st, TimerFires(st.version, Option.None));
  }

  lemma NewestWakes<T>(st: State<T>, d: Event<T>, v: nat, outcome: Outcome<T>)
    requires Newest(st, v, Running) && Decides(d, v)
    requires outcome == if d.TimeoutFires? then Threw(ScheduleError(Timeout)) else d.outcome
    ensures var next := Step(st, d); Newest(next, v, Woken(outcome)) && next.resolved == st.resolved
  {
    StepInv(st, d);
  }

  lemma NewestSettles<T>(st: State<T>, d: Event<T>, v: nat, outcome: Outcome<T>)
    requires Newest(st, v, Woken(outcome)) && Decides(d, v)
    requires outcome == if d.TimeoutFires? then Threw(ScheduleError(Timeout)) else d.outcome
    ensures var next := Step(st, Resume(v));
      && Inv(next) && Known(next, v)
      && next.phases[v - 1] == Settled(
           match d
           case TimeoutFires(_) => Rejected(Timeout)
           case RunnerSettles(_, Threw(ScheduleError(code))) => Rejected(code)
           case RunnerSettles(_, Threw(OtherError)) => Rejected(ExecError)
           case RunnerSettles(_, Answered(ErrorResponse(code))) => Rejected(code)
           case RunnerSettles(_, Answered(Result(requestId, payload))) => Resolved(requestId, payload))
      && next.resolved == if next.phases[v - 1].settlement.Resolved? then st.resolved + [v] else st.resolved
  {
    StepInv(st, Resume(v));
  }

  // ----- a request that is superseded while it runs

  /** The request is not the newest, and it is in the given phase. */
  ghost predicate Outdated<T>(st: State<T>, v: nat, phase: Phase<T>) {
    Inv(st) && 1 <= v < st.version && st.phases[v - 1] == phase
  }

  lemma OutdatedStep<T>(st: State<T>, e: Event<T>, v: nat, phase: Phase<T>)
    requires Outdated(st, v, phase) && (phase.Running? || phase.Woken?) && (e.Schedule? || Aside(e, v, phase))
    ensures Outdated(Step(st, e), v, phase)
  {
    StepInv(st, e);
    assert v !in st.timers;
  }

  lemma {:induction false} OutdatedRun<T>(st: State<T>, events: seq<Event<T>>, v: nat, phase: Phase<T>)
    requires Outdated(st, v, phase) && (phase.Running? || phase.Woken?)
    requires forall e :: e in events ==> e.Schedule? || Aside(e, v, phase)
    ensures Outdated(Run(st, events), v, phase)
    decreases events
  {
    hide Step, Outdated, Aside;
    if events != [] {
      assert events[0] in events && forall e :: e in events[1..] ==> e in events;
      OutdatedStep(st, events[0], v, phase);
      OutdatedRun(Step(st, events[0]), events[1..], v, phase);
    }
  }

  lemma OutdatedResumes<T>(st: State<T>, v: nat, outcome: Outcome<T>)
    requires Outdated(st, v, Woken(outcome))
    ensures var next := Step(st, Resume(v));
      && Inv(next) && Known(next, v)
      && next.phases[v - 1] == Settled(Rejected(match outcome
                                                case Answered(_) => Stale
                                                case Threw(ScheduleError(code)) => code
                                                case Threw(OtherError) => ExecError))
  {
    StepInv(st, Resume(v));
  }

  /** Once a superseded request has been woken, its end no longer depends on anything but its resumption. */
  lemma {:induction false} SupersededWhenWoken<T>(st: State<T>, later: seq<Event<T>>, v: nat, outcome: Outcome<T>)
    requires Outdated(st, v, Woken(outcome))
    ensures var end := Run(st, later);
      && Known(end, v)
      && end.phases[v - 1] ==
         if Resume(v) in later
         then Settled(Rejected(match outcome
                               case Answered(_) => Stale
                               case Threw(ScheduleError(code)) => code
                               case Threw(OtherError) => ExecError))
         else Woken(outcome)
    decreases later
  {
    hide Step, Outdated, Inv;
    if later == [] {
      OutdatedIs(st, v, Woken(outcome));
    } else if later[0] == Resume(v) {
      OutdatedResumes(st, v, outcome);
      SettlesOnce(Step(st, later[0]), later[1..], v);
    } else {
      OutdatedStep(st, later[0], v, Woken(outcome));
      SupersededWhenWoken(Step(st, later[0]), later[1..], v, outcome);
      assert Resume(v) in later <==> Resume(v) in later[1..];
    }
  }

  lemma OutdatedIs<T>(st: State<T>, v: nat, phase: Phase<T>)
    requires Outdated(st, v, phase)
    ensures Known(st, v) && st.phases[v - 1] == phase
  {}

  /**
   * How a superseded request that was already running ends, over every run: with the timeout if that came first, as
   * stale if the runner answered, with the runner's error if it threw; and it ends exactly when it is resumed.
   */
  lemma SupersededWhileRunning<T>(st: State<T>, a: seq<Event<T>>, d: Event<T>, later: seq<Event<T>>, v: nat)
    requires Inv(st) && 1 <= v < st.version && st.phases[v - 1].Running?
    requires (forall e :: e in a ==> !Decides(e, v)) && Decides(d, v)
    ensures var end := Run(st, a + [d] + later);
      && Known(end, v)
      && (end.phases[v - 1].Settled? <==> Resume(v) in later)
      && (end.phases[v - 1].Settled? ==> end.phases[v - 1].settlement == Rejected(
            match d
            case TimeoutFires(_) => Timeout
            case RunnerSettles(_, Answered(_)) => Stale
            case RunnerSettles(_, Threw(ScheduleError(code))) => code
            case RunnerSettles(_, Threw(OtherError)) => ExecError))
  {
    hide Run, Inv, Step, Outdated;
    RunConcat(st, a + [d], later);
    RunConcat(st, a, [d]);
    assert Outdated(st, v, Running) by { RunningOutdated(st, v); }
    forall e | e in a ensures e.Schedule? || Aside(e, v, Running) { assert !Decides(e, v); }
    OutdatedRun(st, a, v, Running);
    var s1 := Run(st, a);
    RunOne(s1, d);
    var outcome := if d.TimeoutFires? then Threw(ScheduleError(Timeout)) else d.outcome;
    OutdatedWakes(s1, d, v, outcome);
    SupersededWhenWoken(Step(s1, d), later, v, outcome);
  }

  lemma RunningOutdated<T>(st: State<T>, v: nat)
    requires Inv(st) && 1 <= v < st.version && st.phases[v - 1].Running?
    ensures Outdated(st, v, Running)
  {}

  lemma OutdatedWakes<T>(st: State<T>, d: Event<T>, v: nat, outcome: Outcome<T>)
    requires Outdated(st, v, Running) && Decides(d, v)
    requires outcome == if d.TimeoutFires? then Threw(ScheduleError(Timeout)) else d.outcome
    ensures Outdated(Step(st, d), v, Woken(outcome))
  {
    StepInv(st, d);
  }

  /** So it ends as stale exactly when it is resumed after an answer, or after the runner threw just that. */
  lemma StaleExactly<T>(st: State<T>, a: seq<Event<T>>, d: Event<T>, later: seq<Event<T>>, v: nat)
    requires Inv(st) && 1 <= v < st.version && st.phases[v - 1].Running?
    requires (forall e :: e in a ==> !Decides(e, v)) && Decides(d, v)
    ensures var end := Run(st, a + [d] + later);
      Known(end, v) && (end.phases[v - 1] == Settled(Rejected(Stale)) <==>
        Resume(v) in later && d.RunnerSettles? && (d.outcome.Answered? || d.outcome.error == ScheduleError(Stale)))
  {
    hide Run, Inv, Step;
    SupersededWhileRunning(st, a, d, later, v);
  }
}
