/**
 The per-document flush bookkeeping of one `PostgresDocumentPersistence` instance:
 the pending buffer, the timer, the registered flush, the retry counter and the
 suspended `flushDocument` calls.

 A call of `flushDocument` is a task. It waits for the registered flush, or starts
 `flushDocumentOnce` at once; a started flush has taken the pending updates and is in
 flight until its transaction settles. Tasks are never removed, so a task's index is
 its identity.
 */
module FlushMachine {
  import opened Common
  import opened DocumentTables

  datatype Config = Config(flushIntervalMs: nat, maxUpdatesPerBatch: nat, maxFlushRetryAttempts: nat,
                           maxFlushRetryDelayMs: nat)

  /** What the environment schema guarantees: positive integers. */
  predicate ValidConfig(c: Config) {
    c.flushIntervalMs > 0 && c.maxUpdatesPerBatch > 0 && c.maxFlushRetryAttempts > 0 && c.maxFlushRetryDelayMs > 0
  }

  datatype Phase = Waiting(on: nat) | Ready | InFlight(batch: seq<Pending>) | Failing | Done | Threw

  /** `handled`: the caller runs `handleFlushFailure` on rejection (append and timer do, store and close do not). */
  datatype Task = Task(handled: bool, phase: Phase)

  datatype Inst = Inst(pending: seq<Pending>, timer: Option<nat>, current: Option<nat>, retry: nat, tasks: seq<Task>)

  const Fresh: Inst := Inst([], None, None, 0, [])

  /** `scheduleFlush`: an armed timer is kept. */
  function Schedule(s: Inst, delayMs: nat): Inst {
    if s.timer.Some? then s else s.(timer := Some(delayMs))
  }

  /** The synchronous part of `flushDocumentOnce`, run by task `id`. */
  function Start(s: Inst, id: nat): Inst
    requires id < |s.tasks|
  {
    s.(timer := None, pending := [], current := Some(id),
       tasks := s.tasks[id := s.tasks[id].(phase := InFlight(s.pending))])
  }

  /** A call of `flushDocument`, up to its first suspension. */
  function Enter(s: Inst, handled: bool): Inst {
    var id := |s.tasks|;
    if s.current.Some? then s.(tasks := s.tasks + [Task(handled, Waiting(s.current.value))])
    else Start(s.(tasks := s.tasks + [Task(handled, Ready)]), id)
  }

  function Append(s: Inst, u: Pending, c: Config): Inst {
    var s1 := s.(pending := s.pending + [u], retry := 0);
    if |s1.pending| >= c.maxUpdatesPerBatch then Enter(s1, true) else Schedule(s1, c.flushIntervalMs)
  }

  function TimerFires(s: Inst): Inst { Enter(s.(timer := None), true) }

  function Resume(s: Inst, id: nat): Inst
    requires id < |s.tasks|
  {
    Start(s, id)
  }

  function Rejected(t: Task): Task { t.(phase := if t.handled then Failing else Threw) }

  /** A waiter learns the outcome of the flush it awaited. */
  function Wake(t: Task, id: nat, ok: bool): Task {
    if t.phase != Waiting(id) then t else if ok then t.(phase := Ready) else Rejected(t)
  }

  /** The promise of task `id` settles: its registration is dropped and its waiters continue. */
  function Settle(s: Inst, id: nat, ok: bool): Inst
    requires id < |s.tasks|
  {
    var own := if ok then s.tasks[id].(phase := Done) else Rejected(s.tasks[id]);
    s.(current := if s.current == Some(id) then None else s.current,
       tasks := seq(|s.tasks|, j requires 0 <= j < |s.tasks| => if j == id then own else Wake(s.tasks[j], id, ok)))
  }

  /** Call `id` of `flushDocument` returned to a caller outside this class, `store` among them. */
  predicate Returned(s: Inst, id: nat) { id < |s.tasks| && !s.tasks[id].handled && s.tasks[id].phase.Done? }

  predicate Flying(s: Inst, id: nat) { id < |s.tasks| && s.tasks[id].phase.InFlight? }

  /** The transaction of task `id` committed, or there was nothing to flush. */
  function Succeed(s: Inst, id: nat): Inst
    requires Flying(s, id)
  {
    Settle(if s.tasks[id].phase.batch == [] then s else s.(retry := 0), id, true)
  }

  /** The transaction failed; the batch returns in front of the buffer only after a completed ROLLBACK. */
  function Fail(s: Inst, id: nat, restored: bool): Inst
    requires Flying(s, id)
  {
    Settle(if restored then s.(pending := s.tasks[id].phase.batch + s.pending) else s, id, false)
  }

  function Pow2(n: nat): nat { if n == 0 then 1 else 2 * Pow2(n - 1) }

  /** The capped exponential back-off before retry number `attempt`. */
  function RetryDelay(attempt: nat, c: Config): nat
    requires ValidConfig(c) && attempt >= 1
  {
    var backoff := Min(attempt - 1, c.maxFlushRetryAttempts - 1);
    Min(c.flushIntervalMs * Pow2(backoff), c.maxFlushRetryDelayMs)
  }

  /** `handleFlushFailure`, run by the failing task `id`. */
  function HandleFailure(s: Inst, id: nat, c: Config): Inst
    requires ValidConfig(c) && id < |s.tasks|
  {
    var s1 := s.(tasks := s.tasks[id := s.tasks[id].(phase := Done)]);
    if s.pending == [] then s1.(retry := 0)
    else Schedule(s1.(retry := s.retry + 1), RetryDelay(s.retry + 1, c))
  }

  datatype Event =
    | Appended(u: Pending)
    | TimerFired
    | Called                          // store, sync or close call flushDocument
    | Resumed(id: nat)
    | Committed(id: nat)
    | Failed(id: nat, restored: bool)
    | FailureHandled(id: nat)

  predicate Enabled(s: Inst, e: Event) {
    match e
    case Appended(_) => true
    case TimerFired => s.timer.Some?
    case Called => true
    case Resumed(id) => id < |s.tasks| && s.tasks[id].phase.Ready?
    case Committed(id) => Flying(s, id)
    case Failed(id, _) => Flying(s, id) && s.tasks[id].phase.batch != []
    case FailureHandled(id) => id < |s.tasks| && s.tasks[id].phase.Failing?
  }

  function Next(s: Inst, e: Event, c: Config): Inst
    requires ValidConfig(c) && Enabled(s, e)
  {
    match e
    case Appended(u) => Append(s, u, c)
    case TimerFired => TimerFires(s)
    case Called => Enter(s, false)
    case Resumed(id) => Resume(s, id)
    case Committed(id) => Succeed(s, id)
    case Failed(id, restored) => Fail(s, id, restored)
    case FailureHandled(id) => HandleFailure(s, id, c)
  }

  // ---- Conservation of updates --------------------------------------------------------

  function PhaseUpdates(t: Task): multiset<Pending> {
    if t.phase.InFlight? then multiset(t.phase.batch) else multiset{}
  }

  function TaskUpdates(tasks: seq<Task>): multiset<Pending> {
    if tasks == [] then multiset{} else TaskUpdates(tasks[..|tasks| - 1]) + PhaseUpdates(tasks[|tasks| - 1])
  }

  /** Every update the instance still holds, buffered or in flight. */
  function Outstanding(s: Inst): multiset<Pending> { multiset(s.pending) + TaskUpdates(s.tasks) }

  lemma {:induction false} Exchange(x: multiset<Pending>, y: multiset<Pending>, z: multiset<Pending>)
    ensures x + y + z == x + z + y
  {
  }

  lemma {:induction false} Extend(x: multiset<Pending>, y: multiset<Pending>, z: multiset<Pending>)
    requires x == y
    ensures x + z == y + z
  {
  }

  /** Rewriting the tasks changes the total by exactly what task `id` changed, if no other task's updates changed. */
  lemma {:induction false} TaskUpdatesChange(a: seq<Task>, b: seq<Task>, id: nat)
    requires |a| == |b| && id < |a|
    requires forall j :: 0 <= j < |a| && j != id ==> PhaseUpdates(a[j]) == PhaseUpdates(b[j])
    ensures TaskUpdates(b) + PhaseUpdates(a[id]) == TaskUpdates(a) + PhaseUpdates(b[id])
  {
    var n := |a| - 1;
    var x, y := TaskUpdates(a[..n]), TaskUpdates(b[..n]);
    if id == n {
      TaskUpdatesSame(a[..n], b[..n]);
      Exchange(x, PhaseUpdates(a[n]), PhaseUpdates(b[n]));
    } else {
      TaskUpdatesChange(a[..n], b[..n], id);
      Extend(y + PhaseUpdates(a[id]), x + PhaseUpdates(b[id]), PhaseUpdates(a[n]));
      Exchange(y, PhaseUpdates(a[n]), PhaseUpdates(a[id]));
      Exchange(x, PhaseUpdates(a[n]), PhaseUpdates(b[id]));
    }
  }

  lemma {:induction false} TaskUpdatesSame(a: seq<Task>, b: seq<Task>)
    requires |a| == |b|
    requires forall j :: 0 <= j < |a| ==> PhaseUpdates(a[j]) == PhaseUpdates(b[j])
    ensures TaskUpdates(a) == TaskUpdates(b)
  {
    if a != [] {
      TaskUpdatesSame(a[..|a| - 1], b[..|b| - 1]);
    }
  }

  lemma {:induction false} TaskUpdatesAdd(tasks: seq<Task>, t: Task)
    ensures TaskUpdates(tasks + [t]) == TaskUpdates(tasks) + PhaseUpdates(t)
  {
    assert (tasks + [t])[..|tasks|] == tasks;
  }

  lemma {:induction false} StartConserves(s: Inst, id: nat)
    requires id < |s.tasks| && !s.tasks[id].phase.InFlight?
    ensures Outstanding(Start(s, id)) == Outstanding(s)
  {
    var s' := Start(s, id);
    TaskUpdatesChange(s.tasks, s'.tasks, id);
    assert TaskUpdates(s'.tasks) == TaskUpdates(s.tasks) + multiset(s.pending);
  }

  lemma {:induction false} EnterConserves(s: Inst, handled: bool)
    ensures Outstanding(Enter(s, handled)) == Outstanding(s)
  {
    if s.current.Some? {
      TaskUpdatesAdd(s.tasks, Task(handled, Waiting(s.current.value)));
    } else {
      TaskUpdatesAdd(s.tasks, Task(handled, Ready));
      StartConserves(s.(tasks := s.tasks + [Task(handled, Ready)]), |s.tasks|);
    }
  }

  lemma {:induction false} SettleReleases(s: Inst, id: nat, ok: bool)
    requires Flying(s, id)
    ensures TaskUpdates(Settle(s, id, ok).tasks) + multiset(s.tasks[id].phase.batch) == TaskUpdates(s.tasks)
  {
    TaskUpdatesChange(s.tasks, Settle(s, id, ok).tasks, id);
  }

  lemma {:induction false} AppendConserves(s: Inst, u: Pending, c: Config)
    ensures Outstanding(Append(s, u, c)) == Outstanding(s) + multiset{u}
  {
    var s1 := s.(pending := s.pending + [u], retry := 0);
    assert multiset(s1.pending) == multiset(s.pending) + multiset{u};
    Exchange(multiset(s.pending), multiset{u}, TaskUpdates(s.tasks));
    assert Outstanding(s1) == Outstanding(s) + multiset{u};
    if |s1.pending| >= c.maxUpdatesPerBatch {
      EnterConserves(s1, true);
    }
  }

  lemma {:induction false} HandleFailureConserves(s: Inst, id: nat, c: Config)
    requires ValidConfig(c) && id < |s.tasks| && s.tasks[id].phase.Failing?
    ensures Outstanding(HandleFailure(s, id, c)) == Outstanding(s)
  {
    var tasks := s.tasks[id := s.tasks[id].(phase := Done)];
    TaskUpdatesSame(s.tasks, tasks);
    HandleFailureKeeps(s, id, c);
    assert Outstanding(HandleFailure(s, id, c)) == multiset(s.pending) + TaskUpdates(tasks);
  }

  lemma {:induction false} HandleFailureKeeps(s: Inst, id: nat, c: Config)
    requires ValidConfig(c) && id < |s.tasks|
    ensures HandleFailure(s, id, c).pending == s.pending
    ensures HandleFailure(s, id, c).tasks == s.tasks[id := s.tasks[id].(phase := Done)]
  {
  }

  lemma {:induction false} SucceedConserves(s: Inst, id: nat)
    requires Flying(s, id)
    ensures Outstanding(Succeed(s, id)) + multiset(s.tasks[id].phase.batch) == Outstanding(s)
  {
    var s1 := if s.tasks[id].phase.batch == [] then s else s.(retry := 0);
    SettleReleases(s1, id, true);
  }

  lemma {:induction false} FailConserves(s: Inst, id: nat, restored: bool)
    requires Flying(s, id)
    ensures Outstanding(Fail(s, id, restored))
            + (if restored then multiset{} else multiset(s.tasks[id].phase.batch)) == Outstanding(s)
  {
    var batch := s.tasks[id].phase.batch;
    var s1 := if restored then s.(pending := batch + s.pending) else s;
    SettleReleases(s1, id, false);
    assert multiset(batch + s.pending) == multiset(batch) + multiset(s.pending);
  }

  /** The updates an event brings in, writes to the database, or drops for good. */
  function Incoming(e: Event): multiset<Pending> {
    if e.Appended? then multiset{e.u} else multiset{}
  }

  function Written(s: Inst, e: Event): seq<Pending>
    requires Enabled(s, e)
  {
    if e.Committed? then s.tasks[e.id].phase.batch else []
  }

  /** A failed BEGIN and a failed ROLLBACK both skip the restore. */
  function Dropped(s: Inst, e: Event): multiset<Pending>
    requires Enabled(s, e)
  {
    if e.Failed? && !e.restored then multiset(s.tasks[e.id].phase.batch) else multiset{}
  }

  /** One event moves updates and neither invents, duplicates nor forgets any. */
  lemma {:induction false} EventConserves(s: Inst, e: Event, c: Config)
    requires ValidConfig(c) && Enabled(s, e)
    ensures Outstanding(Next(s, e, c)) + multiset(Written(s, e)) + Dropped(s, e) == Outstanding(s) + Incoming(e)
  {
    match e
    case Appended(u) =>
      AppendConserves(s, u, c);
    case TimerFired =>
      EnterConserves(s.(timer := None), true);
    case Called =>
      EnterConserves(s, false);
    case Resumed(id) =>
      StartConserves(s, id);
    case Committed(id) =>
      SucceedConserves(s, id);
    case Failed(id, restored) =>
      FailConserves(s, id, restored);
    case FailureHandled(id) =>
      HandleFailureConserves(s, id, c);
  }

  // ---- Buffered updates are always driven ---------------------------------------------

  /** The registered flush and every awaited flush are in flight. */
  predicate Linked(s: Inst) {
    && (s.current.Some? ==> Flying(s, s.current.value))
    && forall j :: 0 <= j < |s.tasks| && s.tasks[j].phase.Waiting? ==> Flying(s, s.tasks[j].phase.on)
  }

  /** A task that will take the buffer or arm a timer without any further call. */
  predicate Drives(t: Task) { t.phase.Waiting? || t.phase.Ready? || t.phase.Failing? }

  predicate Driven(s: Inst) {
    s.pending != [] ==> s.timer.Some? || exists j :: 0 <= j < |s.tasks| && Drives(s.tasks[j])
  }

  predicate AllHandled(s: Inst) { forall j :: 0 <= j < |s.tasks| ==> s.tasks[j].handled }

  /** Waiting on a flush that is in flight is a real wait: the links survive every event. */
  lemma {:induction false} LinkedStep(s: Inst, e: Event, c: Config)
    requires ValidConfig(c) && Enabled(s, e) && Linked(s)
    ensures Linked(Next(s, e, c))
  {
    var s' := Next(s, e, c);
    forall j | 0 <= j < |s'.tasks| && s'.tasks[j].phase.Waiting? ensures Flying(s', s'.tasks[j].phase.on) {
      if j < |s.tasks| {
        assert s.tasks[j].phase == s'.tasks[j].phase;
      }
    }
  }

  /** Task `t` still drives the buffer after the flush `id` was rejected. */
  predicate Survives(t: Task, id: nat) { Drives(t) && (t.phase == Waiting(id) ==> t.handled) }

  /** The failure of a flush that nobody handles, with no timer and nothing else under way. */
  predicate Strands(s: Inst, e: Event)
    requires Enabled(s, e)
  {
    && e.Failed?
    && !s.tasks[e.id].handled
    && (e.restored || s.pending != [])
    && s.timer.None?
    && forall j :: 0 <= j < |s.tasks| ==> !Survives(s.tasks[j], e.id)
  }

  /** Exactly the unhandled failures leave a non-empty buffer with nothing to drive it. */
  lemma {:induction false} DrivenStep(s: Inst, e: Event, c: Config)
    requires ValidConfig(c) && Enabled(s, e) && Driven(s)
    ensures Driven(Next(s, e, c)) <==> !Strands(s, e)
  {
    var s' := Next(s, e, c);
    if e.Failed? {
      FailedDriven(s, e, c);
    } else if s'.pending != [] && s'.timer.None? {
      if e.Committed? {
        var j :| 0 <= j < |s.tasks| && Drives(s.tasks[j]);
        assert Drives(s'.tasks[j]);
      } else {
        assert Drives(s'.tasks[|s.tasks|]);
      }
    }
  }

  lemma {:induction false} FailedDriven(s: Inst, e: Event, c: Config)
    requires ValidConfig(c) && Enabled(s, e) && Driven(s) && e.Failed?
    ensures Driven(Next(s, e, c)) <==> !Strands(s, e)
  {
    var s' := Next(s, e, c);
    forall j | 0 <= j < |s.tasks|
      ensures Drives(s'.tasks[j]) <==> Survives(s.tasks[j], e.id) || (j == e.id && s.tasks[j].handled)
    {
    }
    if s.tasks[e.id].handled {
      assert Drives(s'.tasks[e.id]);
    } else if j :| 0 <= j < |s.tasks| && Survives(s.tasks[j], e.id) {
      assert Drives(s'.tasks[j]);
    }
  }

  lemma {:induction false} HandledStep(s: Inst, e: Event, c: Config)
    requires ValidConfig(c) && Enabled(s, e) && AllHandled(s) && !e.Called?
    ensures AllHandled(Next(s, e, c))
  {
  }

  /** Whatever happened before, an append leaves the buffer empty, timed or awaited. */
  lemma {:induction false} AppendRearms(s: Inst, u: Pending, c: Config)
    requires ValidConfig(c)
    ensures Driven(Append(s, u, c))
  {
    var s' := Append(s, u, c);
    if s'.pending != [] && s'.timer.None? {
      assert Drives(s'.tasks[|s.tasks|]);
    }
  }

  // ---- Retry delays -------------------------------------------------------------------

  lemma {:induction false} Pow2Monotone(a: nat, b: nat)
    requires a <= b
    ensures 1 <= Pow2(a) <= Pow2(b)
  {
    if a < b {
      Pow2Monotone(a, b - 1);
    } else if a > 0 {
      Pow2Monotone(a - 1, b - 1);
    }
  }

  lemma {:induction false} MulMonotone(k: nat, x: nat, y: nat)
    requires x <= y
    ensures k * x <= k * y
  {
  }

  lemma {:induction false} RetryDelayGrows(a: nat, b: nat, c: Config)
    requires ValidConfig(c) && 1 <= a <= b
    ensures Min(c.flushIntervalMs, c.maxFlushRetryDelayMs) <= RetryDelay(a, c) <= RetryDelay(b, c)
    ensures RetryDelay(b, c) <= c.maxFlushRetryDelayMs
  {
    var m := c.maxFlushRetryAttempts - 1;
    Pow2Monotone(0, Min(a - 1, m));
    Pow2Monotone(Min(a - 1, m), Min(b - 1, m));
    var x, y := Pow2(Min(a - 1, m)), Pow2(Min(b - 1, m));
    MulMonotone(c.flushIntervalMs, 1, x);
    MulMonotone(c.flushIntervalMs, x, y);
  }

  /** The delay starts at the flush interval and doubles with each attempt, up to the attempt threshold and the maximum. */
  lemma {:induction false} RetryDelayDoubles(a: nat, c: Config)
    requires ValidConfig(c) && a >= 1
    ensures RetryDelay(1, c) == Min(c.flushIntervalMs, c.maxFlushRetryDelayMs)
    ensures RetryDelay(a + 1, c) ==
            if a < c.maxFlushRetryAttempts then Min(2 * RetryDelay(a, c), c.maxFlushRetryDelayMs) else RetryDelay(a, c)
  {
    var i, x := c.flushIntervalMs, Pow2(Min(a - 1, c.maxFlushRetryAttempts - 1));
    if a < c.maxFlushRetryAttempts {
      assert Pow2(a) == 2 * x && i * (2 * x) == 2 * (i * x);
    }
  }

  predicate IsRun(states: seq<Inst>, events: seq<Event>, c: Config)
    requires ValidConfig(c)
  {
    |states| == |events| + 1 && forall k: nat | k < |events| :: EventAt(states, events, c, k)
  }

  predicate EventAt(states: seq<Inst>, events: seq<Event>, c: Config, k: nat)
    requires ValidConfig(c) && |states| == |events| + 1 && k < |events|
  {
    Enabled(states[k], events[k]) && states[k + 1] == Next(states[k], events[k], c)
  }

  /** An event that ends a streak of failures. */
  predicate Resets(s: Inst, e: Event)
    requires Enabled(s, e)
  {
    || e.Appended?
    || (e.Committed? && s.tasks[e.id].phase.batch != [])
    || (e.FailureHandled? && s.pending == [])
  }

  /** The failures handled since the last event that ended a streak. */
  function FailuresSince(states: seq<Inst>, events: seq<Event>, n: nat): nat
    requires |states| == |events| + 1 && n <= |events|
  {
    if n == 0 then 0
    else
      var s, e := states[n - 1], events[n - 1];
      if Enabled(s, e) && Resets(s, e) then 0
      else FailuresSince(states, events, n - 1) + (if e.FailureHandled? then 1 else 0)
  }

  /** In every run the counter is the number of failures since then, so the delay doubles with each of them. */
  lemma {:induction false} RetriesCountFailures(states: seq<Inst>, events: seq<Event>, c: Config, n: nat)
    requires ValidConfig(c) && IsRun(states, events, c) && n < |states| && states[0] == Fresh
    ensures states[n].retry == FailuresSince(states, events, n)
  {
    if n > 0 {
      RetriesCountFailures(states, events, c, n - 1);
      assert EventAt(states, events, c, n - 1);
    }
  }

  /** Over consecutive failures the attempt counter never falls, so neither does the delay it selects. */
  lemma {:induction false} RetriesEscalate(states: seq<Inst>, events: seq<Event>, c: Config, i: nat, j: nat)
    requires ValidConfig(c) && IsRun(states, events, c) && i <= j < |states|
    requires forall k :: i <= k < j ==> Enabled(states[k], events[k]) && !Resets(states[k], events[k])
    requires states[i].retry >= 1
    ensures states[i].retry <= states[j].retry
    ensures RetryDelay(states[i].retry, c) <= RetryDelay(states[j].retry, c) <= c.maxFlushRetryDelayMs
  {
    if i < j {
      RetriesEscalate(states, events, c, i, j - 1);
      assert EventAt(states, events, c, j - 1);
    }
    RetryDelayGrows(states[i].retry, states[j].retry, c);
  }

  /** A buffer of appends and timers is driven in every state of every run. */
  lemma {:induction false} DrivenAlways(states: seq<Inst>, events: seq<Event>, c: Config, n: nat)
    requires ValidConfig(c) && IsRun(states, events, c) && n < |states|
    requires states[0] == Fresh && forall k :: 0 <= k < n ==> !events[k].Called?
    ensures Linked(states[n]) && Driven(states[n]) && AllHandled(states[n])
  {
    if n > 0 {
      DrivenAlways(states, events, c, n - 1);
      assert EventAt(states, events, c, n - 1);
      LinkedStep(states[n - 1], events[n - 1], c);
      DrivenStep(states[n - 1], events[n - 1], c);
      HandledStep(states[n - 1], events[n - 1], c);
    }
  }

  /** A flush called by store or close that fails strands its updates: no timer, no task. */
  lemma {:induction false} CalledFlushStrands(u: Pending, c: Config)
    requires ValidConfig(c) && c.maxUpdatesPerBatch > 1
    ensures var events := [Appended(u), Called, Failed(0, true)];
            exists states :: IsRun(states, events, c) && states[0] == Fresh && !Driven(states[3])
  {
    var events := [Appended(u), Called, Failed(0, true)];
    var s1 := Next(Fresh, events[0], c);
    var s2 := Next(s1, events[1], c);
    var s3 := Next(s2, events[2], c);
    assert s1.tasks == [] && s1.pending == [u];
    assert s2.tasks == [Task(false, InFlight([u]))];
    assert s3.tasks == [Task(false, Threw)];
    var states := [Fresh, s1, s2, s3];
    forall k: nat | k < 3 ensures EventAt(states, events, c, k) {
      assert k == 0 || k == 1 || k == 2;
    }
    assert IsRun(states, events, c) && states[0] == Fresh && !Driven(states[3]);
  }
}
