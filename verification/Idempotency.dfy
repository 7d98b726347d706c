/** Submitting tasks under idempotency keys: the record table, its expiry and its cleanup, step by step. */
module Idempotency {
  import opened Options
  import opened TaskLifecycle

  datatype Owner = Owner(tenant: int, user: int, key: string)

  datatype Record = Record(owner: Owner, taskId: nat, expiresAt: Option<int>, updatedAt: int)

  /** A positive time to live and a positive batch size. */
  datatype Config = Config(ttl: int, batch: nat)

  predicate Usable(c: Config) { c.ttl > 0 && c.batch > 0 }

  /** `origins` remembers the key under which a task was submitted; no table stores it. */
  datatype Store = Store(tasks: map<nat, Row>, records: map<nat, Record>, nextTask: nat, nextRecord: nat,
                         origins: map<nat, Owner>)

  const EMPTY := Store(map[], map[], 0, 0, map[])

  predicate Expired(r: Record, now: int) { r.expiresAt.Some? && r.expiresAt.value <= now }

  predicate Live(st: Store, id: nat) { id in st.tasks && !IsTerminal(st.tasks[id].status) }

  // ----- the queries and the steps

  /** The first record of an owner among the row numbers `i .. next`. */
  function FindRecord(records: map<nat, Record>, owner: Owner, i: nat, next: nat): (r: Option<nat>)
    ensures r.Some? ==> i <= r.value < next && r.value in records && records[r.value].owner == owner
    ensures r.None? ==> forall k :: i <= k < next && k in records ==> records[k].owner != owner
    decreases next - i
  {
    if i >= next then Option.None
    else if i in records && records[i].owner == owner then Option.Some(i)
    else FindRecord(records, owner, i + 1, next)
  }

  function Find(st: Store, owner: Owner): Option<nat> { FindRecord(st.records, owner, 0, st.nextRecord) }

  /** The task a key stands for now, dropping or reviving its record on the way. */
  function Resolve(st: Store, owner: Owner, now: int): (Option<nat>, Store) {
    match Find(st, owner)
    case None => (Option.None, st)
    case Some(r) =>
      var record := st.records[r];
      if record.taskId !in st.tasks then (Option.None, st.(records := st.records - {r}))
      else if Live(st, record.taskId) then
        (Option.Some(record.taskId),
         if Expired(record, now)
         then st.(records := st.records[r := record.(expiresAt := Option.None, updatedAt := now)]) else st)
      else if Expired(record, now) then (Option.None, st.(records := st.records - {r}))
      else (Option.Some(record.taskId), st)
  }

  /** Nothing when the key belongs to another task. */
  function Bind(c: Config, st: Store, owner: Owner, id: nat, now: int): Option<Store> {
    match Find(st, owner)
    case Some(r) => if st.records[r].taskId != id then Option.None else Option.Some(st)
    case None =>
      Option.Some(st.(records := st.records[st.nextRecord := Record(owner, id, Option.Some(now + c.ttl), now)],
                      nextRecord := st.nextRecord + 1))
  }

  /** The rows below `n` that belong to the task get a new expiry. */
  function Refreshed(c: Config, records: map<nat, Record>, id: nat, now: int, n: nat): map<nat, Record> {
    map r | r in records ::
      if r < n
          && records[r].taskId ==
              id then records[r].(expiresAt := Option.Some(now + c.ttl), updatedAt := now) else records[r]
  }

  function Refresh(c: Config, st: Store, id: nat, now: int): Store {
    st.(records := Refreshed(c, st.records, id, now, st.nextRecord))
  }

  predicate Removable(st: Store, r: nat, now: int) {
    r in st.records && Expired(st.records[r], now) && st.records[r].taskId in st.tasks
        && !Live(st, st.records[r].taskId)
  }

  /** An answer of the cleanup query: removable rows, as many as the batch allows, in no particular order. */
  predicate Answers(c: Config, st: Store, now: int, answer: seq<nat>) {
    && (forall r :: r in answer ==> Removable(st, r, now))
    && |answer| <= c.batch
    && (|answer| < c.batch ==> forall r :: r in st.records && Removable(st, r, now) ==> r in answer)
  }

  function Without(records: map<nat, Record>, answer: seq<nat>): (m: map<nat, Record>)
    ensures forall r :: r in m <==> r in records && r !in answer
    ensures forall r :: r in m ==> m[r] == records[r]
  {
    if answer == [] then records else Without(records, answer[..|answer| - 1]) - {answer[|answer| - 1]}
  }

  function Cleanup(st: Store, answer: seq<nat>): Store { st.(records := Without(st.records, answer)) }

  function CreatePending(st: Store, owner: Option<Owner>, now: int): Store {
    st.(tasks := st.tasks[st.nextTask := Created(now)], nextTask := st.nextTask + 1,
        origins := if owner.Some? then st.origins[st.nextTask := owner.value] else st.origins)
  }

  function Lifecycle(st: Store, id: nat, call: Call): Store {
    if id in st.tasks then st.(tasks := st.tasks[id := Apply(st.tasks[id], call)]) else st
  }

  const PUBLISH_ERROR := "QUEUE_PUBLISH_ERROR"

  /** Enqueueing; when the queue refuses, the task fails on the spot and its records get a new expiry. */
  function Dispatch(c: Config, st: Store, id: nat, keyed: bool, queueError: Option<string>, failedAt: int): Store {
    match queueError
    case None => st
    case Some(message) =>
      var failed := Lifecycle(st, id, MarkFailure(PUBLISH_ERROR, message, failedAt));
      if keyed then Refresh(c, failed, id, failedAt) else failed
  }

  /** A submission and the environment's part in it. */
  datatype Submission = Submission(owner: Option<Owner>, now: int, answer: seq<nat>, overloaded: bool, createdAt: int,
                                   queueError: Option<string>, failedAt: int)

  datatype Outcome = Deduplicated(id: nat) | Enqueued(id: nat) | Overloaded | PublishFailed(id: nat) | AlreadyBound

  function Fresh(c: Config, st: Store, s: Submission): (Outcome, Store) {
    if s.overloaded then (Overloaded, st)
    else
      var id := st.nextTask;
      var created := CreatePending(st, s.owner, s.createdAt);
      match if s.owner.Some? then Bind(c, created, s.owner.value, id, s.now) else Option.Some(created)
      case None => (AlreadyBound, created)
      case Some(bound) =>
        (if s.queueError.Some? then PublishFailed(id) else Enqueued(id),
         Dispatch(c, bound, id, s.owner.Some?, s.queueError, s.failedAt))
  }

  function Submit(c: Config, st: Store, s: Submission): (Outcome, Store) {
    var cleaned := Cleanup(st, s.answer);
    if s.owner.None? then Fresh(c, cleaned, s)
    else
      var (existing, resolved) := Resolve(cleaned, s.owner.value, s.now);
      if existing.Some? then (Deduplicated(existing.value), resolved) else Fresh(c, resolved, s)
  }

  // ----- the service on its tables

  class IdempotencyTables {
    const config: Config
    var tasks: map<nat, Row>
    var records: map<nat, Record>
    var nextTask: nat
    var nextRecord: nat
    ghost var origins: map<nat, Owner>

    ghost function View(): Store
      reads this
    {
      Store(tasks, records, nextTask, nextRecord, origins)
    }

    constructor (config: Config)
      requires Usable(config)
      ensures View() == EMPTY && this.config == config
    {
      this.config := config;
      tasks, records, nextTask, nextRecord, origins := map[], map[], 0, 0, map[];
    }

    method ResolveExistingTask(owner: Owner, now: int) returns (found: Option<nat>)
      modifies `records
      ensures (found, View()) == Resolve(old(View()), owner, now)
    {
      var r := FindRecord(records, owner, 0, nextRecord);
      if r.None? {
        return Option.None;
      }
      var record := records[r.value];
      if record.taskId !in tasks {
        records := records - {r.value};
        return Option.None;
      }
      if !IsTerminal(tasks[record.taskId].status) {
        if Expired(record, now) {
          records := records[r.value := record.(expiresAt := Option.None, updatedAt := now)];
        }
        return Option.Some(record.taskId);
      }
      if Expired(record, now) {
        records := records - {r.value};
        return Option.None;
      }
      return Option.Some(record.taskId);
    }

    method BindTaskKey(owner: Owner, id: nat, now: int) returns (ok: bool)
      modifies `records, `nextRecord
      ensures ok <==> Bind(config, old(View()), owner, id, now).Some?
      ensures View() == if ok then Bind(config, old(View()), owner, id, now).value else old(View())
    {
      var r := FindRecord(records, owner, 0, nextRecord);
      if r.Some? {
        return records[r.value].taskId == id;
      }
      records := records[nextRecord := Record(owner, id, Option.Some(now + config.ttl), now)];
      nextRecord := nextRecord + 1;
      return true;
    }

    method RefreshTerminalTtl(id: nat, now: int)
      modifies `records
      ensures View() == Refresh(config, old(View()), id, now)
    {
      ghost var before := records;
      assert records == Refreshed(config, before, id, now, 0);
      for i := 0 to nextRecord
        invariant records == Refreshed(config, before, id, now, i)
      {
        if i in records && records[i].taskId == id {
          records := records[i := records[i].(expiresAt := Option.Some(now + config.ttl), updatedAt := now)];
        }
      }
    }

    method CleanupExpiredRecords(now: int, answer: seq<nat>) returns (removed: nat)
      requires Answers(config, View(), now, answer)
      modifies `records
      ensures View() == Cleanup(old(View()), answer) && removed == |answer|
    {
      ghost var before := records;
      assert answer[..0] == [];
      for k := 0 to |answer|
        invariant records == Without(before, answer[..k])
      {
        assert answer[..k + 1][..k] == answer[..k];
        records := records - {answer[k]};
      }
      assert answer[..|answer|] == answer;
      return |answer|;
    }

    method SubmitTask(s: Submission) returns (outcome: Outcome)
      requires Answers(config, View(), s.now, s.answer)
      modifies `tasks, `records, `nextTask, `nextRecord, `origins
      ensures (outcome, View()) == Submit(config, old(View()), s)
    {
      hide FindRecord, Without, Refreshed, Apply, Answers;
      var removed := CleanupExpiredRecords(s.now, s.answer);
      if s.owner.Some? {
        var existing := ResolveExistingTask(s.owner.value, s.now);
        if existing.Some? {
          return Deduplicated(existing.value);
        }
      }
      if s.overloaded {
        return Overloaded;
      }
      var id := nextTask;
      tasks := tasks[id := Created(s.createdAt)];
      nextTask := nextTask + 1;
      if s.owner.Some? {
        origins := origins[id := s.owner.value];
        var ok := BindTaskKey(s.owner.value, id, s.now);
        if !ok {
          return AlreadyBound;
        }
      }
      if s.queueError.Some? {
        tasks := tasks[id := Apply(tasks[id], MarkFailure(PUBLISH_ERROR, s.queueError.value, s.failedAt))];
        if s.owner.Some? {
          RefreshTerminalTtl(id, s.failedAt);
        }
        return PublishFailed(id);
      }
      return Enqueued(id);
    }
  }

  // ----- runs

  /** The lifecycle event covers workers and the cancel request; only workers also refresh the expiry. */
  datatype Event =
    | Submitted(submission: Submission)
    | Moved(id: nat, call: Call)
    | TtlRefreshed(id: nat, now: int)
    | CleanedUp(now: int, answer: seq<nat>)

  /** An event whose query answer does not fit the tables is no event. */
  function Step(c: Config, st: Store, e: Event): Store {
    match e
    case Submitted(s) => if Answers(c, st, s.now, s.answer) then Submit(c, st, s).1 else st
    case Moved(id, call) => Lifecycle(st, id, call)
    case TtlRefreshed(id, now) => Refresh(c, st, id, now)
    case CleanedUp(now, answer) => if Answers(c, st, now, answer) then Cleanup(st, answer) else st
  }

  function Run(c: Config, st: Store, events: seq<Event>): Store
    decreases events
  {
    if events == [] then st else Run(c, Step(c, st, events[0]), events[1..])
  }

  predicate OneRecordPerKey(st: Store) {
    forall a, b :: a in st.records && b in st.records && st.records[a].owner == st.records[b].owner ==> a == b
  }

  predicate Bound(st: Store, id: nat, owner: Owner) {
    exists r :: r in st.records && st.records[r].taskId == id && st.records[r].owner == owner
  }

  /** The record's task was submitted under the record's key. */
  predicate BelongsTo(st: Store, record: Record) {
    record.taskId in st.tasks && record.taskId in st.origins && st.origins[record.taskId] == record.owner
  }

  /** Records point at the task of their key, every live keyed task has its record, and no key has two records. */
  ghost predicate Inv(st: Store) {
    && OneRecordPerKey(st)
    && (forall r :: r in st.records ==> r < st.nextRecord)
    && (forall r :: r in st.records ==> BelongsTo(st, st.records[r]))
    && (forall id :: id in st.tasks ==> id < st.nextTask)
    && (forall id :: id in st.origins ==> id in st.tasks)
    && (forall id :: id in st.origins && Live(st, id) ==> Bound(st, id, st.origins[id]))
  }

  lemma EmptyInv()
    ensures Inv(EMPTY)
  {}

  /** Records that lead to no live task may go. */
  lemma DropInv(st: Store, records: map<nat, Record>)
    requires Inv(st)
    requires forall r :: r in records ==> r in st.records && records[r] == st.records[r]
    requires forall r :: r in st.records && Live(st, st.records[r].taskId) ==> r in records
    ensures Inv(st.(records := records))
  {
    var next := st.(records := records);
    forall id | id in next.origins && Live(next, id) ensures Bound(next, id, next.origins[id]) {
      assert Live(st, id);
      var r :| r in st.records && st.records[r].taskId == id && st.records[r].owner == st.origins[id];
      assert r in next.records;
    }
  }

  lemma CleanupInv(c: Config, st: Store, now: int, answer: seq<nat>)
    requires Inv(st) && Answers(c, st, now, answer)
    ensures Inv(Cleanup(st, answer))
  {
    hide Inv;
    DropInv(st, Without(st.records, answer));
  }

  /** Only expiry dates change. */
  lemma SameBindings(st: Store, records: map<nat, Record>)
    requires Inv(st) && records.Keys == st.records.Keys
    requires forall r :: r in records ==>
      records[r].owner == st.records[r].owner && records[r].taskId == st.records[r].taskId
    ensures Inv(st.(records := records))
  {
    var next := st.(records := records);
    forall id | id in next.origins && Live(next, id) ensures Bound(next, id, next.origins[id]) {
      assert Live(st, id);
      var r :| r in st.records && st.records[r].taskId == id && st.records[r].owner == st.origins[id];
      assert r in next.records;
    }
  }

  lemma RefreshInv(c: Config, st: Store, id: nat, now: int)
    requires Inv(st)
    ensures Inv(Refresh(c, st, id, now))
  {
    hide Inv;
    SameBindings(st, Refresh(c, st, id, now).records);
  }

  /** After an unsuccessful resolution the key has no record. */
  lemma ResolveInv(st: Store, owner: Owner, now: int)
    requires Inv(st)
    ensures Inv(Resolve(st, owner, now).1)
    ensures Resolve(st, owner, now).0.None? ==>
      forall r :: r in Resolve(st, owner, now).1.records ==> Resolve(st, owner, now).1.records[r].owner != owner
  {
    var found := Find(st, owner);
    if found.Some? {
      var r := found.value;
      var record := st.records[r];
      assert record.taskId in st.tasks;
      if Live(st, record.taskId) {
        SameBindings(st, st.records[r := record.(expiresAt := Option.None, updatedAt := now)]);
      } else {
        DropInv(st, st.records - {r});
      }
    }
  }

  lemma LifecycleInv(st: Store, id: nat, call: Call)
    requires Inv(st)
    ensures Inv(Lifecycle(st, id, call))
  {
    var next := Lifecycle(st, id, call);
    forall k | k in next.origins && Live(next, k) ensures Bound(next, k, next.origins[k]) {
      assert Live(st, k);
      var r :| r in st.records && st.records[r].taskId == k && st.records[r].owner == st.origins[k];
      assert r in next.records;
    }
  }

  lemma CreateInv(st: Store, now: int)
    requires Inv(st)
    ensures Inv(CreatePending(st, Option.None, now))
  {
    var next := CreatePending(st, Option.None, now);
    forall k | k in next.origins && Live(next, k) ensures Bound(next, k, next.origins[k]) {
      assert Live(st, k);
      var r :| r in st.records && st.records[r].taskId == k && st.records[r].owner == st.origins[k];
      assert r in next.records;
    }
  }

  /** Creating a task and binding it to a key without a record. */
  lemma BindInv(c: Config, st: Store, owner: Owner, createdAt: int, now: int)
    requires Inv(st) && forall r :: r in st.records ==> st.records[r].owner != owner
    ensures var bound := Bind(c, CreatePending(st, Option.Some(owner), createdAt), owner, st.nextTask, now);
      bound.Some? && Inv(bound.value)
  {
    hide FindRecord, IsTerminal;
    var created := CreatePending(st, Option.Some(owner), createdAt);
    assert Find(created, owner).None?;
    var next := Bind(c, created, owner, st.nextTask, now).value;
    assert st.nextRecord in next.records
        && next.records[st.nextRecord] == Record(owner, st.nextTask, Option.Some(now + c.ttl), now);
    forall k | k in next.origins && Live(next, k) ensures Bound(next, k, next.origins[k]) {
      if k != st.nextTask {
        assert Live(st, k);
        var r :| r in st.records && st.records[r].taskId == k && st.records[r].owner == st.origins[k];
        assert r in next.records;
      }
    }
  }

  lemma DispatchInv(c: Config, st: Store, id: nat, keyed: bool, queueError: Option<string>, failedAt: int)
    requires Inv(st)
    ensures Inv(Dispatch(c, st, id, keyed, queueError, failedAt))
  {
    hide Inv, Lifecycle, Refresh;
    if queueError.Some? {
      var call := MarkFailure(PUBLISH_ERROR, queueError.value, failedAt);
      LifecycleInv(st, id, call);
      RefreshInv(c, Lifecycle(st, id, call), id, failedAt);
    }
  }

  lemma FreshInv(c: Config, st: Store, s: Submission)
    requires Inv(st) && (s.owner.Some? ==> forall r :: r in st.records ==> st.records[r].owner != s.owner.value)
    ensures Inv(Fresh(c, st, s).1) && Fresh(c, st, s).0 != AlreadyBound
  {
    hide Inv, Dispatch, CreatePending, Bind;
    if !s.overloaded {
      var id := st.nextTask;
      if s.owner.Some? {
        BindInv(c, st, s.owner.value, s.createdAt, s.now);
        DispatchInv(c, Bind(c, CreatePending(st, s.owner, s.createdAt), s.owner.value, id, s.now).value, id, true,
                    s.queueError, s.failedAt);
      } else {
        CreateInv(st, s.createdAt);
        DispatchInv(c, CreatePending(st, Option.None, s.createdAt), id, false, s.queueError, s.failedAt);
      }
    }
  }

  lemma SubmitInv(c: Config, st: Store, s: Submission)
    requires Inv(st) && Answers(c, st, s.now, s.answer)
    ensures Inv(Submit(c, st, s).1) && Submit(c, st, s).0 != AlreadyBound
  {
    hide Inv, Cleanup, Fresh, Resolve, Answers;
    CleanupInv(c, st, s.now, s.answer);
    var cleaned := Cleanup(st, s.answer);
    if s.owner.Some? {
      ResolveInv(cleaned, s.owner.value, s.now);
      var (existing, resolved) := Resolve(cleaned, s.owner.value, s.now);
      if existing.None? { FreshInv(c, resolved, s); }
    } else {
      FreshInv(c, cleaned, s);
    }
  }

  lemma StepInv(c: Config, st: Store, e: Event)
    requires Inv(st)
    ensures Inv(Step(c, st, e))
  {
    hide Inv, Submit, Lifecycle, Refresh, Cleanup, Answers;
    match e
    case Submitted(s) => if Answers(c, st, s.now, s.answer) { SubmitInv(c, st, s); }
    case Moved(id, call) => LifecycleInv(st, id, call);
    case TtlRefreshed(id, now) => RefreshInv(c, st, id, now);
    case CleanedUp(now, answer) => if Answers(c, st, now, answer) { CleanupInv(c, st, now, answer); }
  }

  lemma {:induction false} RunInv(c: Config, st: Store, events: seq<Event>)
    requires Inv(st)
    ensures Inv(Run(c, st, events))
    decreases events
  {
    hide Inv, Step;
    if events != [] {
      StepInv(c, st, events[0]);
      RunInv(c, Step(c, st, events[0]), events[1..]);
    }
  }

  // ----- the promises

  /** However the steps interleave, a key has at most one record and at most one task that is not finished. */
  lemma OneTaskPerKey(c: Config, events: seq<Event>, a: nat, b: nat)
    ensures var st := Run(c, EMPTY, events);
      && OneRecordPerKey(st)
      && (a in st.origins && b in st.origins && st.origins[a] == st.origins[b] && Live(st, a) && Live(st, b) ==> a == b)
  {
    EmptyInv();
    RunInv(c, EMPTY, events);
    var st := Run(c, EMPTY, events);
    if a in st.origins && b in st.origins && st.origins[a] == st.origins[b] && Live(st, a) && Live(st, b) {
      assert Bound(st, a, st.origins[a]) && Bound(st, b, st.origins[b]);
    }
  }

  /** A submission never meets a key that is bound to another task. */
  lemma NeverAlreadyBound(c: Config, events: seq<Event>, s: Submission)
    requires Answers(c, Run(c, EMPTY, events), s.now, s.answer)
    ensures Submit(c, Run(c, EMPTY, events), s).0 != AlreadyBound
  {
    hide Inv, Submit, Answers;
    EmptyInv();
    RunInv(c, EMPTY, events);
    SubmitInv(c, Run(c, EMPTY, events), s);
  }

  /** A record that makes a repeated submission return its task. */
  predicate Holds(st: Store, owner: Owner, id: nat, now: int) {
    exists r :: r in st.records && st.records[r].owner == owner && st.records[r].taskId == id
      && (Live(st, id) || !Expired(st.records[r], now))
  }

  lemma ResolveAnswers(st: Store, owner: Owner, id: nat, now: int)
    requires Inv(st)
    ensures Resolve(st, owner, now).0 == Option.Some(id) <==> Holds(st, owner, id, now)
  {
    var found := Find(st, owner);
    if found.Some? {
      var r := found.value;
      assert forall k :: k in st.records && st.records[k].owner == owner ==> k == r;
      assert st.records[r].taskId in st.tasks;
    }
  }

  lemma CleanupHolds(c: Config, st: Store, s: Submission, owner: Owner, id: nat)
    requires Inv(st) && Answers(c, st, s.now, s.answer)
    ensures Holds(Cleanup(st, s.answer), owner, id, s.now) <==> Holds(st, owner, id, s.now)
  {
    var cleaned := Cleanup(st, s.answer);
    if Holds(st, owner, id, s.now) {
      var r :| r in st.records && st.records[r].owner == owner && st.records[r].taskId == id
        && (Live(st, id) || !Expired(st.records[r], s.now));
      assert !Removable(st, r, s.now);
      assert r in cleaned.records;
    }
  }

  /**
   * A submission returns an earlier task exactly when the key is bound to it and the task is unfinished or the
   * binding has not expired; it then creates nothing.
   */
  lemma RepeatedSubmission(c: Config, st: Store, s: Submission, id: nat)
    requires Inv(st) && Answers(c, st, s.now, s.answer) && s.owner.Some?
    ensures Submit(c, st, s).0 == Deduplicated(id) <==> Holds(st, s.owner.value, id, s.now)
    ensures Submit(c, st, s).0.Deduplicated? ==> Submit(c, st, s).1.tasks == st.tasks
  {
    hide Inv, Answers, Holds, Cleanup, Resolve;
    CleanupInv(c, st, s.now, s.answer);
    CleanupHolds(c, st, s, s.owner.value, id);
    var cleaned := Cleanup(st, s.answer);
    ResolveAnswers(cleaned, s.owner.value, id, s.now);
    SameTasks(st, s.answer, s.owner.value, s.now);
  }

  lemma SameTasks(st: Store, answer: seq<nat>, owner: Owner, now: int)
    ensures Cleanup(st, answer).tasks == st.tasks && Resolve(Cleanup(st, answer), owner, now).1.tasks == st.tasks
  {}

  /** As long as a keyed task is unfinished, resubmitting its key returns it, whatever happened in between. */
  lemma LiveTaskAnswers(c: Config, events: seq<Event>, s: Submission, id: nat)
    requires var st := Run(c, EMPTY, events);
      Answers(c, st, s.now, s.answer) && id in st.origins && Live(st, id) && s.owner == Option.Some(st.origins[id])
    ensures Submit(c, Run(c, EMPTY, events), s).0 == Deduplicated(id)
  {
    hide Answers, Submit;
    EmptyInv();
    RunInv(c, EMPTY, events);
    var st := Run(c, EMPTY, events);
    assert Bound(st, id, st.origins[id]);
    RepeatedSubmission(c, st, s, id);
  }

  /** Cleaning up changes no answer to any submission at that time, and a short answer leaves nothing to clean. */
  lemma CleanupIsInvisible(c: Config, st: Store, now: int, answer: seq<nat>, owner: Owner, id: nat)
    requires Inv(st) && Answers(c, st, now, answer)
    ensures Resolve(Cleanup(st, answer), owner, now).0 == Option.Some(id) <==>
      Resolve(st, owner, now).0 == Option.Some(id)
    ensures |answer| < c.batch ==>
      forall r :: r in Cleanup(st, answer).records ==> !Removable(Cleanup(st, answer), r, now)
  {
    CleanupInv(c, st, now, answer);
    ResolveAnswers(st, owner, id, now);
    ResolveAnswers(Cleanup(st, answer), owner, id, now);
    CleanupHolds(c, st, Submission(Option.None, now, answer, false, 0, Option.None, 0), owner, id);
  }

  // ----- single calls, on any tables in which a key has at most one record

  /** This is the record of its key. */
  predicate IsRecord(st: Store, r: nat, record: Record) {
    && r < st.nextRecord && r in st.records && st.records[r] == record
    && forall k :: k in st.records && st.records[k].owner == record.owner ==> k == r
  }

  lemma FoundOnly(records: map<nat, Record>, owner: Owner, next: nat, r: nat)
    requires r < next && r in records && records[r].owner == owner
    requires forall k :: k in records && records[k].owner == owner ==> k == r
    ensures FindRecord(records, owner, 0, next) == Option.Some(r)
  {}

  /** Binding accepts the record of the task itself, refuses that of another one, and otherwise adds a record. */
  lemma BindExactly(c: Config, st: Store, r: nat, record: Record, owner: Owner, id: nat, now: int)
    ensures IsRecord(st, r, record) ==>
      Bind(c, st, record.owner, id, now) == if record.taskId == id then Option.Some(st) else Option.None
    ensures (forall k :: k in st.records ==> st.records[k].owner != owner) ==>
      Bind(c, st, owner, id, now) ==
          Option.Some(Store(st.tasks, st.records[st.nextRecord := Record(owner, id, Option.Some(now + c.ttl), now)],
                            st.nextTask, st.nextRecord + 1, st.origins))
  {
    hide FindRecord;
    if IsRecord(st, r, record) { FoundOnly(st.records, record.owner, st.nextRecord, r); }
    if forall k :: k in st.records ==> st.records[k].owner != owner { NoneFound(st.records, owner, st.nextRecord); }
  }

  /**
   * Resolution returns an unfinished task, and a finished one before the expiry date.  It drops the record of a missing
   * task and an expired one of a finished task, and erases the expiry date of an expired one of an unfinished task.
   */
  lemma ResolveExactly(st: Store, r: nat, record: Record, now: int)
    requires IsRecord(st, r, record)
    ensures var (found, next) := Resolve(st, record.owner, now);
      var late := record.expiresAt.Some? && record.expiresAt.value <= now;
      var finished := record.taskId in st.tasks && IsTerminal(st.tasks[record.taskId].status);
      if record.taskId !in st.tasks || (finished && late)
      then found == Option.None && next == st.(records := st.records - {r})
      else
        && found == Option.Some(record.taskId)
        && next == if finished || !late then st
                   else st.(records := st.records[r := Record(record.owner, record.taskId, Option.None, now)])
  {
    hide FindRecord;
    FoundOnly(st.records, record.owner, st.nextRecord, r);
  }

  // ----- what a submission stores

  lemma CleanupStores(c: Config, st: Store, now: int, answer: seq<nat>)
    requires Answers(c, st, now, answer)
    ensures var next := Cleanup(st, answer);
      && next.tasks == st.tasks && next.origins == st.origins && next.nextTask == st.nextTask
      && next.nextRecord == st.nextRecord
      && (forall r :: r in next.records ==> r in st.records && next.records[r] == st.records[r])
      && (forall r :: r in st.records && r !in next.records ==>
            && st.records[r].expiresAt.Some? && st.records[r].expiresAt.value <= now
            && st.records[r].taskId in st.tasks && IsTerminal(st.tasks[st.records[r].taskId].status))
  {
    forall r | r in st.records && r !in Cleanup(st, answer).records ensures Removable(st, r, now) {
      assert r in answer;
    }
  }

  lemma ResolveStores(st: Store, owner: Owner, now: int)
    requires Inv(st)
    ensures var (found, next) := Resolve(st, owner, now);
      && next.tasks == st.tasks && next.origins == st.origins && next.nextTask == st.nextTask
      && next.nextRecord == st.nextRecord
      && (forall r :: r in next.records && next.records[r].owner != owner ==>
            r in st.records && next.records[r] == st.records[r])
      && (forall r :: r in st.records && r !in next.records ==>
            && st.records[r].expiresAt.Some? && st.records[r].expiresAt.value <= now
            && st.records[r].taskId in st.tasks && IsTerminal(st.tasks[st.records[r].taskId].status))
      && (found.None? ==> forall r :: r in next.records ==> r in st.records && next.records[r] == st.records[r])
  {
    var found := Find(st, owner);
    if found.Some? {
      assert BelongsTo(st, st.records[found.value]);
    }
  }

  /**
   * What a submission that returns an earlier task changes: if that task is unfinished and its record has expired,
   * the record loses its expiry date.  No task changes, and no record is lost but expired ones of finished tasks.
   */
  lemma DeduplicationStores(c: Config, st: Store, s: Submission, r: nat)
    requires Inv(st) && Answers(c, st, s.now, s.answer) && Submit(c, st, s).0.Deduplicated?
    requires s.owner.Some? && r in st.records && st.records[r].owner == s.owner.value
    ensures var outcome, next, record := Submit(c, st, s).0, Submit(c, st, s).1, st.records[r];
      && outcome == Deduplicated(record.taskId) && record.taskId in st.tasks
      && next.tasks == st.tasks && next.nextTask == st.nextTask && next.origins == st.origins
      && r in next.records
      && var late := record.expiresAt.Some? && record.expiresAt.value <= s.now;
      && next.records[r] == (if !IsTerminal(st.tasks[record.taskId].status) && late
                             then Record(record.owner, record.taskId, Option.None, s.now) else record)
      && (forall k :: k in next.records && k != r ==> k in st.records && next.records[k] == st.records[k])
      && (forall k :: k in st.records && k !in next.records ==>
            && st.records[k].expiresAt.Some? && st.records[k].expiresAt.value <= s.now
            && st.records[k].taskId in st.tasks && IsTerminal(st.tasks[st.records[k].taskId].status))
  {
    hide Inv, Answers, Cleanup, Fresh, IsTerminal, FindRecord;
    var cleaned := Cleanup(st, s.answer);
    CleanupStores(c, st, s.now, s.answer);
    CleanupInv(c, st, s.now, s.answer);
    OneOwner(st, r);
    ResolveStores(cleaned, s.owner.value, s.now);
    FoundIs(cleaned, s.owner.value, r);
    FreshIsNew(c, Resolve(cleaned, s.owner.value, s.now).1, s);
  }

  lemma FreshIsNew(c: Config, st: Store, s: Submission)
    ensures !Fresh(c, st, s).0.Deduplicated?
  {
    hide Dispatch, Bind, CreatePending;
  }

  /** No other record has the owner of this one. */
  lemma OneOwner(st: Store, r: nat)
    requires Inv(st) && r in st.records
    ensures forall k :: k in st.records && st.records[k].owner == st.records[r].owner ==> k == r
    ensures r < st.nextRecord && st.records[r].taskId in st.tasks
  {
    assert BelongsTo(st, st.records[r]);
  }

  lemma FoundIs(st: Store, owner: Owner, r: nat)
    requires Inv(st) && forall k :: k in st.records && st.records[k].owner == owner ==> k == r
    ensures Find(st, owner) == if r in st.records && st.records[r].owner == owner then Option.Some(r) else Option.None
  {
    hide OneRecordPerKey;
  }

  /**
   * What any other submission stores.  When the queue is overloaded nothing is created.  Otherwise one pending row is
   * added; when the queue refuses it, the row is a failure on the spot.  A keyed task gets a record that expires after
   * the time to live, counted from the failure if there is one.  All other rows and records stay as they are, except
   * that expired records of finished tasks may go.
   */
  lemma SubmissionStores(c: Config, st: Store, s: Submission)
    requires Inv(st) && Answers(c, st, s.now, s.answer) && !Submit(c, st, s).0.Deduplicated?
    ensures var outcome, next, id := Submit(c, st, s).0, Submit(c, st, s).1, st.nextTask;
      if s.overloaded then
        outcome == Overloaded && next.tasks == st.tasks && next.nextTask == id && next.origins == st.origins
        && next.nextRecord == st.nextRecord
      else
        && next.nextTask == id + 1 && id !in st.tasks
        && next.origins == (if s.owner.Some? then st.origins[id := s.owner.value] else st.origins)
        && match s.queueError
           case None =>
             && outcome == Enqueued(id)
             && next.tasks == st.tasks[id := Row(Pending, Option.None, Option.None, 0, Option.None, Option.None,
                                                 Option.None, s.createdAt)]
           case Some(message) =>
             && outcome == PublishFailed(id)
             && next.tasks == st.tasks[id := Row(Failure, Option.None,
                                                 Option.Some(ErrorPayload("QUEUE_PUBLISH_ERROR", message)), 0,
                                                 Option.None, Option.Some(s.failedAt), Option.None, s.failedAt)]
    ensures var next, id, added := Submit(c, st, s).1, st.nextTask, st.nextRecord;
      && (!s.overloaded && s.owner.Some? ==>
            && added !in st.records && added in next.records
            && next.records[added] ==
               Record(s.owner.value, id, Option.Some((if s.queueError.Some? then s.failedAt else s.now) + c.ttl),
                      if s.queueError.Some? then s.failedAt else s.now))
      && (forall r :: r in next.records && (r != added || s.overloaded || s.owner.None?) ==>
            r in st.records && next.records[r] == st.records[r])
      && (forall r :: r in st.records && r !in next.records ==>
            && st.records[r].expiresAt.Some? && st.records[r].expiresAt.value <= s.now
            && st.records[r].taskId in st.tasks && IsTerminal(st.tasks[st.records[r].taskId].status))
  {
    hide Inv, Answers, Cleanup, Fresh, IsTerminal, FindRecord, Resolve;
    var cleaned := Cleanup(st, s.answer);
    CleanupStores(c, st, s.now, s.answer);
    CleanupInv(c, st, s.now, s.answer);
    Numbers(st);
    if s.owner.Some? {
      ResolveStores(cleaned, s.owner.value, s.now);
      ResolveInv(cleaned, s.owner.value, s.now);
      FreshStores(c, Resolve(cleaned, s.owner.value, s.now).1, s);
    } else {
      FreshStores(c, cleaned, s);
    }
  }

  lemma Numbers(st: Store)
    requires Inv(st)
    ensures st.nextTask !in st.tasks && st.nextRecord !in st.records
    ensures forall r :: r in st.records ==> st.records[r].taskId != st.nextTask
  {
    forall r | r in st.records ensures st.records[r].taskId != st.nextTask { OneOwner(st, r); }
  }

  lemma FreshStores(c: Config, st: Store, s: Submission)
    requires Inv(st) && (s.owner.Some? ==> forall r :: r in st.records ==> st.records[r].owner != s.owner.value)
    ensures s.overloaded ==> Fresh(c, st, s) == (Overloaded, st)
    ensures !s.overloaded ==>
      var (outcome, next) := Fresh(c, st, s);
      var at := if s.queueError.Some? then s.failedAt else s.now;
      && outcome == (if s.queueError.Some? then PublishFailed(st.nextTask) else Enqueued(st.nextTask))
      && next.nextTask == st.nextTask + 1
      && next.origins == (if s.owner.Some? then st.origins[st.nextTask := s.owner.value] else st.origins)
      && next.tasks == st.tasks[st.nextTask := NewRow(s)]
      && next.records ==
           (if s.owner.None? then st.records
            else st.records[st.nextRecord := Record(s.owner.value, st.nextTask, Option.Some(at + c.ttl), at)])
  {
    hide FindRecord, Inv, Refreshed;
    Numbers(st);
    if s.owner.Some? {
      NoneFound(st.records, s.owner.value, st.nextRecord);
      RefreshedNew(c, st.records, st.nextRecord,
                   Record(s.owner.value, st.nextTask, Option.Some(s.now + c.ttl), s.now), s.failedAt);
    }
  }

  /** Renewing the records of a task that has only this one. */
  lemma RefreshedNew(c: Config, records: map<nat, Record>, r: nat, record: Record, at: int)
    requires r !in records && forall k :: k in records ==> records[k].taskId != record.taskId
    ensures Refreshed(c, records[r := record], record.taskId, at, r + 1) ==
            records[r := Record(record.owner, record.taskId, Option.Some(at + c.ttl), at)]
  {}

  lemma NoneFound(records: map<nat, Record>, owner: Owner, next: nat)
    requires forall r :: r in records ==> records[r].owner != owner
    ensures FindRecord(records, owner, 0, next) == Option.None
  {}

  function NewRow(s: Submission): Row {
    match s.queueError
    case None => Row(Pending, Option.None, Option.None, 0, Option.None, Option.None, Option.None, s.createdAt)
    case Some(message) =>
      Row(Failure, Option.None, Option.Some(ErrorPayload("QUEUE_PUBLISH_ERROR", message)), 0, Option.None,
          Option.Some(s.failedAt), Option.None, s.failedAt)
  }

  // ----- how long a finished task answers

  /** The record of a finished task. */
  predicate Kept(st: Store, r: nat, record: Record) {
    r in st.records && st.records[r] == record && record.taskId in st.tasks
        && IsTerminal(st.tasks[record.taskId].status)
  }

  /** The event neither renews the record nor comes after its expiry. */
  predicate Spares(e: Event, record: Record) {
    match e
    case Submitted(s) => !Expired(record, s.now)
    case Moved(_, _) => true
    case TtlRefreshed(id, _) => id != record.taskId
    case CleanedUp(now, _) => !Expired(record, now)
  }

  lemma StepKeeps(c: Config, st: Store, e: Event, r: nat, record: Record)
    requires Inv(st) && Kept(st, r, record) && Spares(e, record)
    ensures Kept(Step(c, st, e), r, record)
  {
    match e
    case Submitted(s) => if Answers(c, st, s.now, s.answer) { SubmitKeeps(c, st, s, r, record); }
    case Moved(_, _) =>
    case TtlRefreshed(_, _) =>
    case CleanedUp(now, answer) => assert !Removable(st, r, now);
  }

  lemma SubmitKeeps(c: Config, st: Store, s: Submission, r: nat, record: Record)
    requires Inv(st) && Kept(st, r, record) && Answers(c, st, s.now, s.answer) && !Expired(record, s.now)
    ensures Kept(Submit(c, st, s).1, r, record)
  {
    hide Inv, Fresh, Resolve, Expired;
    assert !Removable(st, r, s.now);
    CleanupInv(c, st, s.now, s.answer);
    var cleaned := Cleanup(st, s.answer);
    assert Kept(cleaned, r, record);
    if s.owner.Some? {
      ResolveKeeps(cleaned, s.owner.value, s.now, r, record);
      ResolveInv(cleaned, s.owner.value, s.now);
      FreshKeeps(c, Resolve(cleaned, s.owner.value, s.now).1, s, r, record);
    } else {
      FreshKeeps(c, cleaned, s, r, record);
    }
  }

  lemma ResolveKeeps(st: Store, key: Owner, now: int, r: nat, record: Record)
    requires Inv(st) && Kept(st, r, record) && !Expired(record, now)
    ensures Kept(Resolve(st, key, now).1, r, record)
  {}

  lemma FreshKeeps(c: Config, st: Store, s: Submission, r: nat, record: Record)
    requires Inv(st) && Kept(st, r, record)
    ensures Kept(Fresh(c, st, s).1, r, record)
  {
    assert record.taskId < st.nextTask && r < st.nextRecord;
  }

  lemma {:induction false} RunKeeps(c: Config, st: Store, events: seq<Event>, r: nat, record: Record)
    requires Inv(st) && Kept(st, r, record) && forall e :: e in events ==> Spares(e, record)
    ensures Kept(Run(c, st, events), r, record)
    decreases events
  {
    hide Inv, Step, Kept, Spares;
    if events != [] {
      assert events[0] in events && forall e :: e in events[1..] ==> e in events;
      StepInv(c, st, events[0]);
      StepKeeps(c, st, events[0], r, record);
      RunKeeps(c, Step(c, st, events[0]), events[1..], r, record);
    }
  }

  /** A renewed binding of a finished task holds exactly until the time to live has passed. */
  lemma RenewedUntil(c: Config, st: Store, owner: Owner, id: nat, renewedAt: int, now: int)
    requires Inv(st) && Bound(st, id, owner) && !Live(st, id)
    ensures Holds(Refresh(c, st, id, renewedAt), owner, id, now) <==> now < renewedAt + c.ttl
  {
    var r :| r in st.records && st.records[r].taskId == id && st.records[r].owner == owner;
    var next := Refresh(c, st, id, renewedAt);
    assert r in next.records && next.records[r].expiresAt == Option.Some(renewedAt + c.ttl);
    forall k | k in next.records && next.records[k].owner == owner ensures k == r {
      assert k in st.records && st.records[k].owner == owner;
    }
  }

  /** Renewal touches the records of the task alone. */
  lemma RenewalStores(c: Config, st: Store, id: nat, now: int)
    requires Inv(st)
    ensures var next := Refresh(c, st, id, now);
      && next.tasks == st.tasks && next.origins == st.origins && next.nextTask == st.nextTask
      && next.nextRecord == st.nextRecord && next.records.Keys == st.records.Keys
      && forall r :: r in st.records ==>
        next.records[r] == if st.records[r].taskId == id
                           then Record(st.records[r].owner, id, Option.Some(now + c.ttl), now) else st.records[r]
  {
    forall r | r in st.records ensures r < st.nextRecord { RecordNumber(st, r); }
  }

  /** The event reads no clock at or after `end`. */
  predicate Before(e: Event, end: int) {
    (e.Submitted? ==> e.submission.now < end) && (e.CleanedUp? ==> e.now < end)
  }

  /**
   * Until then every resubmission returns the finished task, whatever else happens, unless its binding is renewed
   * again.
   */
  lemma FinishedTaskAnswers(c: Config, st: Store, owner: Owner, id: nat, renewedAt: int, later: seq<Event>,
                            again: Submission)
    requires Inv(st) && Bound(st, id, owner) && id in st.tasks && !Live(st, id)
    requires forall e :: e in later ==> !(e.TtlRefreshed? && e.id == id) && Before(e, renewedAt + c.ttl)
    requires again.owner == Option.Some(owner) && again.now < renewedAt + c.ttl
    ensures var end := Run(c, Refresh(c, st, id, renewedAt), later);
      Answers(c, end, again.now, again.answer) ==> Submit(c, end, again).0 == Deduplicated(id)
  {
    hide Answers, Run, Submit, Inv;
    var next := Refresh(c, st, id, renewedAt);
    var r :| r in st.records && st.records[r].taskId == id && st.records[r].owner == owner;
    var record := next.records[r];
    RecordNumber(st, r);
    assert Kept(next, r, record) && record.expiresAt == Option.Some(renewedAt + c.ttl);
    RefreshInv(c, st, id, renewedAt);
    forall e | e in later ensures Spares(e, record) {}
    RunKeeps(c, next, later, r, record);
    RunInv(c, next, later);
    var end := Run(c, next, later);
    assert Holds(end, owner, id, again.now);
    if Answers(c, end, again.now, again.answer) { RepeatedSubmission(c, end, again, id); }
  }

  /**
   * Resubmitting the key of an unfinished task after the time to live erases the expiry date; when the task is then
   * cancelled by request, which refreshes nothing, the key answers with the cancelled task at every later time.
   */
  lemma CancelledForever(c: Config, st: Store, s: Submission, id: nat, cancelledAt: int, later: seq<Event>,
                         again: Submission)
    returns (end: Store)
    requires Inv(st) && Answers(c, st, s.now, s.answer) && s.owner.Some? && id in st.origins
      && st.origins[id] == s.owner.value
    requires Live(st, id) && forall r :: r in st.records && st.records[r].taskId == id ==> Expired(st.records[r], s.now)
    requires forall e :: e in later ==> !(e.TtlRefreshed? && e.id == id)
    requires again.owner == s.owner
    ensures end == Run(c, Step(c, Step(c, st, Submitted(s)), Moved(id, MarkCancelled(cancelledAt))), later)
    ensures id in end.tasks && end.tasks[id].status == Cancelled
    ensures Answers(c, end, again.now, again.answer) ==> Submit(c, end, again).0 == Deduplicated(id)
  {
    hide Answers, Run, Submit, Inv;
    var s1 := Step(c, st, Submitted(s));
    var s2 := Step(c, s1, Moved(id, MarkCancelled(cancelledAt)));
    var r := Revive(c, st, s, id);
    StepInv(c, st, Submitted(s));
    StepInv(c, s1, Moved(id, MarkCancelled(cancelledAt)));
    var record := s2.records[r];
    assert Kept(s2, r, record) && s2.tasks[id].status == Cancelled;
    forall e | e in later ensures Spares(e, record) {}
    RunKeeps(c, s2, later, r, record);
    RunStatus(c, s2, later, id);
    end := Run(c, s2, later);
    RunInv(c, s2, later);
    assert Holds(end, s.owner.value, id, again.now);
    if Answers(c, end, again.now, again.answer) { RepeatedSubmission(c, end, again, id); }
  }

  /** The resubmission of the key of an unfinished task with an expired record. */
  lemma Revive(c: Config, st: Store, s: Submission, id: nat) returns (r: nat)
    requires Inv(st) && Answers(c, st, s.now, s.answer) && s.owner.Some? && id in st.origins
      && st.origins[id] == s.owner.value
    requires Live(st, id) && forall r :: r in st.records && st.records[r].taskId == id ==> Expired(st.records[r], s.now)
    ensures var next := Step(c, st, Submitted(s));
      && r in next.records && next.records[r].taskId == id && next.records[r].owner == s.owner.value
      && next.records[r].expiresAt.None? && Live(next, id)
  {
    assert Bound(st, id, s.owner.value);
    r :| r in st.records && st.records[r].taskId == id && st.records[r].owner == s.owner.value;
    assert !Removable(st, r, s.now);
    var cleaned := Cleanup(st, s.answer);
    assert r in cleaned.records;
    CleanupInv(c, st, s.now, s.answer);
    assert Find(cleaned, s.owner.value) == Option.Some(r);
  }

  lemma StepStatus(c: Config, st: Store, e: Event, id: nat)
    requires Inv(st) && id in st.tasks && IsTerminal(st.tasks[id].status)
    ensures id in Step(c, st, e).tasks && Step(c, st, e).tasks[id] == st.tasks[id]
  {
    hide Inv, Submit, Answers;
    assert id < st.nextTask by { TaskNumber(st, id); }
    if e.Submitted? { SubmitStatus(c, st, e.submission, id); }
  }

  lemma RecordNumber(st: Store, r: nat)
    requires Inv(st) && r in st.records
    ensures r < st.nextRecord
  {}

  lemma TaskNumber(st: Store, id: nat)
    requires Inv(st) && id in st.tasks
    ensures id < st.nextTask
  {}

  lemma SubmitStatus(c: Config, st: Store, s: Submission, id: nat)
    requires id in st.tasks && id < st.nextTask
    ensures id in Submit(c, st, s).1.tasks && Submit(c, st, s).1.tasks[id] == st.tasks[id]
  {
    hide Without, Apply, Refreshed, FindRecord;
  }

  /** A finished task stays as it is through every step of the protocol. */
  lemma {:induction false} RunStatus(c: Config, st: Store, events: seq<Event>, id: nat)
    requires Inv(st) && id in st.tasks && IsTerminal(st.tasks[id].status)
    ensures id in Run(c, st, events).tasks && Run(c, st, events).tasks[id] == st.tasks[id]
    decreases events
  {
    hide Inv, Step;
    if events != [] {
      StepInv(c, st, events[0]);
      StepStatus(c, st, events[0], id);
      RunStatus(c, Step(c, st, events[0]), events[1..], id);
    }
  }

  // ----- when the key of a finished task becomes free

  /** No event renews the expiry of the task's records. */
  ghost predicate NotRenewed(later: seq<Event>, id: nat) {
    forall e :: e in later ==> !(e.TtlRefreshed? && e.id == id)
  }

  /** The task is finished, and every record of it expires at `end` or earlier. */
  ghost predicate ExpiresBy(st: Store, id: nat, end: int) {
    && id in st.tasks && IsTerminal(st.tasks[id].status)
    && forall r :: r in st.records && st.records[r].taskId == id ==> Expired(st.records[r], end)
  }

  lemma ExpiresSubset(st: Store, records: map<nat, Record>, id: nat, end: int)
    requires ExpiresBy(st, id, end) && forall r :: r in records && records[r].taskId == id ==>
      r in st.records && records[r] == st.records[r]
    ensures ExpiresBy(st.(records := records), id, end)
  {}

  lemma ResolveExpires(st: Store, owner: Owner, now: int, id: nat, end: int)
    requires ExpiresBy(st, id, end)
    ensures ExpiresBy(Resolve(st, owner, now).1, id, end)
  {
    hide ExpiresBy, FindRecord;
    assert !Live(st, id) by { NotLive(st, id, end); }
    ExpiresSubset(st, Resolve(st, owner, now).1.records, id, end);
  }

  lemma NotLive(st: Store, id: nat, end: int)
    requires ExpiresBy(st, id, end)
    ensures id in st.tasks && !Live(st, id)
  {}

  lemma FreshExpires(c: Config, st: Store, s: Submission, id: nat, end: int)
    requires Inv(st) && ExpiresBy(st, id, end)
    ensures ExpiresBy(Fresh(c, st, s).1, id, end)
  {
    hide FindRecord, Apply;
    assert id < st.nextTask by { TaskNumber(st, id); }
  }

  lemma SubmitExpires(c: Config, st: Store, s: Submission, id: nat, end: int)
    requires Inv(st) && ExpiresBy(st, id, end) && Answers(c, st, s.now, s.answer)
    ensures ExpiresBy(Submit(c, st, s).1, id, end)
  {
    hide Inv, ExpiresBy, Fresh, Resolve;
    CleanupInv(c, st, s.now, s.answer);
    ExpiresSubset(st, Without(st.records, s.answer), id, end);
    var cleaned := Cleanup(st, s.answer);
    if s.owner.Some? {
      ResolveExpires(cleaned, s.owner.value, s.now, id, end);
      ResolveInv(cleaned, s.owner.value, s.now);
      FreshExpires(c, Resolve(cleaned, s.owner.value, s.now).1, s, id, end);
    } else {
      FreshExpires(c, cleaned, s, id, end);
    }
  }

  lemma StepExpires(c: Config, st: Store, e: Event, id: nat, end: int)
    requires Inv(st) && ExpiresBy(st, id, end) && !(e.TtlRefreshed? && e.id == id)
    ensures ExpiresBy(Step(c, st, e), id, end)
  {
    hide Inv;
    match e
    case Submitted(s) => if Answers(c, st, s.now, s.answer) { SubmitExpires(c, st, s, id, end); }
    case Moved(_, _) =>
    case TtlRefreshed(_, _) =>
    case CleanedUp(_, answer) => ExpiresSubset(st, Without(st.records, answer), id, end);
  }

  lemma {:induction false} RunExpires(c: Config, st: Store, events: seq<Event>, id: nat, end: int)
    requires Inv(st) && ExpiresBy(st, id, end) && NotRenewed(events, id)
    ensures ExpiresBy(Run(c, st, events), id, end)
    decreases events
  {
    hide Inv, Step, ExpiresBy;
    if events != [] {
      assert events[0] in events && forall e :: e in events[1..] ==> e in events;
      StepInv(c, st, events[0]);
      StepExpires(c, st, events[0], id, end);
      RunExpires(c, Step(c, st, events[0]), events[1..], id, end);
    }
  }

  /** From its expiry on, a finished task whose binding is not renewed is never returned again, whatever happens. */
  lemma NeverAfterExpiry(c: Config, st: Store, id: nat, end: int, later: seq<Event>, again: Submission)
    requires Inv(st) && ExpiresBy(st, id, end) && NotRenewed(later, id) && again.owner.Some? && again.now >= end
    ensures var last := Run(c, st, later);
      Answers(c, last, again.now, again.answer) ==> Submit(c, last, again).0 != Deduplicated(id)
  {
    hide Inv, Answers, Submit, Run, NotRenewed;
    var last := Run(c, st, later);
    RunInv(c, st, later);
    RunExpires(c, st, later, id, end);
    if Answers(c, last, again.now, again.answer) {
      RepeatedSubmission(c, last, again, id);
      assert !Holds(last, again.owner.value, id, again.now);
    }
  }

  // ----- the key of a task that was never queued

  /** All records of the key belong to this task. */
  ghost predicate OnlyTask(st: Store, owner: Owner, id: nat) {
    forall r :: r in st.records && st.records[r].owner == owner ==> st.records[r].taskId == id
  }

  ghost predicate NotSubmitted(later: seq<Event>, owner: Owner) {
    forall e :: e in later && e.Submitted? ==> e.submission.owner != Option.Some(owner)
  }

  lemma StepOnly(c: Config, st: Store, e: Event, owner: Owner, id: nat)
    requires Inv(st) && OnlyTask(st, owner, id) && (e.Submitted? ==> e.submission.owner != Option.Some(owner))
    ensures OnlyTask(Step(c, st, e), owner, id)
  {
    hide Inv, Submit, Answers;
    if e.Submitted? && Answers(c, st, e.submission.now, e.submission.answer) {
      SubmitOnly(c, st, e.submission, owner, id);
    }
  }

  lemma SubmitOnly(c: Config, st: Store, s: Submission, owner: Owner, id: nat)
    requires Inv(st) && Answers(c, st, s.now, s.answer)
    requires OnlyTask(st, owner, id) && s.owner != Option.Some(owner)
    ensures OnlyTask(Submit(c, st, s).1, owner, id)
  {
    hide Inv, Answers, Fresh, Resolve, Cleanup;
    var cleaned := Cleanup(st, s.answer);
    CleanupStores(c, st, s.now, s.answer);
    CleanupInv(c, st, s.now, s.answer);
    if Submit(c, st, s).0.Deduplicated? {
      FreshIsNew(c, cleaned, s);
      ResolveStores(cleaned, s.owner.value, s.now);
      FreshIsNew(c, Resolve(cleaned, s.owner.value, s.now).1, s);
    } else {
      SubmissionStores(c, st, s);
    }
  }

  lemma {:induction false} RunOnly(c: Config, st: Store, events: seq<Event>, owner: Owner, id: nat)
    requires Inv(st) && OnlyTask(st, owner, id) && NotSubmitted(events, owner)
    ensures OnlyTask(Run(c, st, events), owner, id)
    decreases events
  {
    hide Inv, Step, OnlyTask;
    if events != [] {
      assert events[0] in events && forall e :: e in events[1..] ==> e in events;
      StepInv(c, st, events[0]);
      StepOnly(c, st, events[0], owner, id);
      RunOnly(c, Step(c, st, events[0]), events[1..], owner, id);
    }
  }

  /** The failed row and its record, as a refused enqueue leaves them. */
  lemma RefusedStores(c: Config, st: Store, s: Submission)
    requires Inv(st) && Answers(c, st, s.now, s.answer) && !Submit(c, st, s).0.Deduplicated?
    requires s.owner.Some? && !s.overloaded && s.queueError.Some?
    ensures var next, id, end := Submit(c, st, s).1, st.nextTask, s.failedAt + c.ttl;
      && Inv(next) && ExpiresBy(next, id, end) && OnlyTask(next, s.owner.value, id)
      && Kept(next, st.nextRecord, Record(s.owner.value, id, Option.Some(end), s.failedAt))
  {
    hide Inv, Answers, Submit;
    var next := Submit(c, st, s).1;
    SubmissionStores(c, st, s);
    SubmitInv(c, st, s);
    Numbers(st);
    OneOwner(next, st.nextRecord);
    assert forall r :: r in next.records && r != st.nextRecord ==> r in st.records;
  }

  /**
   * When the queue refuses a keyed task, its key answers with the failed task until the time to live has passed since
   * the failure, and from then on a submission of the key creates a new task.
   */
  lemma RefusedKey(c: Config, st: Store, s: Submission, later: seq<Event>, again: Submission)
    requires Inv(st) && Answers(c, st, s.now, s.answer) && !Submit(c, st, s).0.Deduplicated?
    requires s.owner.Some? && !s.overloaded && s.queueError.Some?
    requires NotRenewed(later, st.nextTask) && NotSubmitted(later, s.owner.value)
    requires again.owner == s.owner && !again.overloaded
    ensures var last, end := Run(c, Submit(c, st, s).1, later), s.failedAt + c.ttl;
      Answers(c, last, again.now, again.answer) ==>
        var outcome := Submit(c, last, again).0;
        && (again.now >= end ==> outcome == Enqueued(last.nextTask) || outcome == PublishFailed(last.nextTask))
        && (again.now < end && (forall e :: e in later ==> Before(e, end)) ==> outcome == Deduplicated(st.nextTask))
  {
    hide Inv, Answers, Submit, Run, NotRenewed, NotSubmitted, OnlyTask, ExpiresBy;
    var next, id, end, owner := Submit(c, st, s).1, st.nextTask, s.failedAt + c.ttl, s.owner.value;
    var last := Run(c, next, later);
    RefusedStores(c, st, s);
    RunInv(c, next, later);
    if Answers(c, last, again.now, again.answer) {
      if again.now >= end {
        NeverAfterExpiry(c, next, id, end, later, again);
        RunOnly(c, next, later, owner, id);
        OnlyReturned(c, last, again, owner, id);
        SubmissionStores(c, last, again);
      } else if forall e :: e in later ==> Before(e, end) {
        var record := Record(owner, id, Option.Some(end), s.failedAt);
        SparedBefore(later, record, end);
        RunKeeps(c, next, later, st.nextRecord, record);
        assert Holds(last, owner, id, again.now);
        RepeatedSubmission(c, last, again, id);
      }
    }
  }

  lemma SparedBefore(later: seq<Event>, record: Record, end: int)
    requires NotRenewed(later, record.taskId) && record.expiresAt == Option.Some(end)
    requires forall e :: e in later ==> Before(e, end)
    ensures forall e :: e in later ==> Spares(e, record)
  {}

  lemma OnlyReturned(c: Config, st: Store, s: Submission, owner: Owner, id: nat)
    requires Inv(st) && Answers(c, st, s.now, s.answer) && s.owner == Option.Some(owner) && OnlyTask(st, owner, id)
    ensures Submit(c, st, s).0.Deduplicated? ==> Submit(c, st, s).0 == Deduplicated(id)
  {
    hide Inv, Answers, Submit;
    var outcome := Submit(c, st, s).0;
    if outcome.Deduplicated? {
      RepeatedSubmission(c, st, s, outcome.id);
    }
  }

  /** A submission after a run returns the task. */
  predicate Returned(c: Config, st: Store, later: seq<Event>, again: Submission, id: nat) {
    Answers(c, Run(c, st, later), again.now, again.answer) ==> Submit(c, Run(c, st, later), again).0 == Deduplicated(id)
  }

  /** Every later submission of the key returns the task, unless its binding is renewed. */
  ghost predicate ReturnedForever(c: Config, st: Store, owner: Owner, id: nat) {
    forall later: seq<Event>, again: Submission :: NotRenewed(later, id) && again.owner == Option.Some(owner) ==>
        Returned(c, st, later, again, id)
  }

  lemma KeptForever(c: Config, st: Store, r: nat, record: Record, later: seq<Event>, again: Submission)
    requires Inv(st) && Kept(st, r, record) && record.expiresAt.None?
    requires NotRenewed(later, record.taskId) && again.owner == Option.Some(record.owner)
    ensures Returned(c, st, later, again, record.taskId)
  {
    hide Answers, Run, Submit, Inv;
    forall e | e in later ensures Spares(e, record) {}
    RunKeeps(c, st, later, r, record);
    RunInv(c, st, later);
    var last := Run(c, st, later);
    assert Holds(last, record.owner, record.taskId, again.now);
    if Answers(c, last, again.now, again.answer) { RepeatedSubmission(c, last, again, record.taskId); }
  }

  /** The first removable rows below `n`, as many as the batch allows. */
  function Removables(c: Config, st: Store, now: int, n: nat): (answer: seq<nat>)
    ensures |answer| <= c.batch && forall r :: r in answer ==> Removable(st, r, now)
    ensures |answer| < c.batch ==> forall r :: 0 <= r < n && Removable(st, r, now) ==> r in answer
  {
    if n == 0 then []
    else
      var front := Removables(c, st, now, n - 1);
      if |front| < c.batch && Removable(st, n - 1, now) then front + [n - 1] else front
  }

  /** The cleanup query always has an answer. */
  lemma AnswerExists(c: Config, st: Store, now: int)
    requires Inv(st)
    ensures Answers(c, st, now, Removables(c, st, now, st.nextRecord))
  {
    forall r | r in st.records ensures r < st.nextRecord { RecordNumber(st, r); }
  }

  /**
   * The exact condition under which a key stays with its finished task: the record that the task leaves behind has no
   * expiry date.  With an expiry date the key is free from that date on.
   */
  lemma ForeverExactly(c: Config, st: Store, r: nat, record: Record)
    requires Inv(st) && Kept(st, r, record)
    ensures ReturnedForever(c, st, record.owner, record.taskId) <==> record.expiresAt.None?
  {
    hide Inv, Answers, Run, Submit, Removables, NotRenewed, Kept;
    var owner, id := record.owner, record.taskId;
    if record.expiresAt.None? {
      forall later: seq<Event>, again: Submission | NotRenewed(later, id) && again.owner == Option.Some(owner)
        ensures Returned(c, st, later, again, id)
      {
        KeptForever(c, st, r, record, later, again);
      }
    } else {
      var end := record.expiresAt.value;
      var again := Submission(Option.Some(owner), end, Removables(c, st, end, st.nextRecord), false, end, Option.None,
                              end);
      AnswerExists(c, st, end);
      OnlyRecord(st, r, record);
      assert Run(c, st, []) == st by { NoEvents(c, st); }
      assert NotRenewed([], id) by { NothingRenewed(id); }
      NeverAfterExpiry(c, st, id, end, [], again);
    }
  }

  lemma NoEvents(c: Config, st: Store)
    ensures Run(c, st, []) == st
  {}

  lemma NothingRenewed(id: nat)
    ensures NotRenewed([], id)
  {}

  lemma OnlyRecord(st: Store, r: nat, record: Record)
    requires Inv(st) && Kept(st, r, record) && record.expiresAt.Some?
    ensures ExpiresBy(st, record.taskId, record.expiresAt.value)
  {
    forall k | k in st.records && st.records[k].taskId == record.taskId ensures k == r {
      assert BelongsTo(st, st.records[k]) && BelongsTo(st, st.records[r]);
    }
  }

  /** A key is submitted, submitted again when its record expires, and its task is then cancelled by request. */
  function CancelRun(c: Config, owner: Owner): seq<Event> {
    var again := Submission(Option.Some(owner), c.ttl, [], false, c.ttl, Option.None, c.ttl);
    [Submitted(again.(now := 0, createdAt := 0)), Submitted(again), Moved(0, MarkCancelled(c.ttl))]
  }

  /** After that run, which starts from empty tables, the key is never free again. */
  lemma CancelledNeverFree(c: Config, owner: Owner)
    requires Usable(c)
    ensures var st := Run(c, EMPTY, CancelRun(c, owner));
      && Kept(st, 0, Record(owner, 0, Option.None, c.ttl)) && st.tasks[0].status == Cancelled
      && ReturnedForever(c, st, owner, 0)
  {
    hide ReturnedForever, Inv, Run, Submit;
    var events := CancelRun(c, owner);
    var st := Run(c, EMPTY, events);
    assert Kept(st, 0, Record(owner, 0, Option.None, c.ttl)) && st.tasks[0].status == Cancelled by {
      FirstSubmitted(c, owner);
      SubmittedAgain(c, owner);
      RunThree(c, EMPTY, events[0], events[1], events[2]);
      assert [events[0], events[1], events[2]] == events;
      assert st == Step(c, Waiting(owner, Option.None, c.ttl), events[2]);
    }
    EmptyInv();
    RunInv(c, EMPTY, events);
    ForeverExactly(c, st, 0, Record(owner, 0, Option.None, c.ttl));
  }

  lemma RunThree(c: Config, st: Store, x: Event, y: Event, z: Event)
    ensures Run(c, st, [x, y, z]) == Step(c, Step(c, Step(c, st, x), y), z)
  {
    hide Step;
    assert [x, y, z][1..] == [y, z] && [y, z][1..] == [z] && [z][1..] == [];
    var s1 := Step(c, st, x);
    var s2 := Step(c, s1, y);
    assert Run(c, s2, [z]) == Run(c, Step(c, s2, z), []);
    assert Run(c, s1, [y, z]) == Run(c, s2, [z]);
  }

  /** One pending task with its record. */
  function Waiting(owner: Owner, expiresAt: Option<int>, updatedAt: int): Store {
    Store(map[0 := Created(0)], map[0 := Record(owner, 0, expiresAt, updatedAt)], 1, 1, map[0 := owner])
  }

  lemma FirstSubmitted(c: Config, owner: Owner)
    requires Usable(c)
    ensures Step(c, EMPTY, CancelRun(c, owner)[0]) == Waiting(owner, Option.Some(c.ttl), 0)
  {}

  lemma SubmittedAgain(c: Config, owner: Owner)
    requires Usable(c)
    ensures Step(c, Waiting(owner, Option.Some(c.ttl), 0), CancelRun(c, owner)[1]) == Waiting(owner, Option.None, c.ttl)
  {
    var st := Waiting(owner, Option.Some(c.ttl), 0);
    assert Live(st, 0);
    assert Find(st, owner) == Option.Some(0);
  }
}
