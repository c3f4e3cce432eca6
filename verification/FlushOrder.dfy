/**
 The order in which one instance writes the updates appended to it: while at most one
 non-empty flush is in flight and every failed batch is restored, they are written in the
 order of their appends. Two non-empty flushes at once can swap them.
 */
module FlushOrder {
  import opened Common
  import opened DocumentTables
  import opened FlushMachine

  function BatchOf(t: Task): seq<Pending> { if t.phase.InFlight? then t.phase.batch else [] }

  /** The batches in flight, one after the other. */
  function FlyingUpdates(tasks: seq<Task>): seq<Pending> {
    if tasks == [] then [] else FlyingUpdates(tasks[..|tasks| - 1]) + BatchOf(tasks[|tasks| - 1])
  }

  /** At most one non-empty flush is in flight. */
  predicate OneFlying(tasks: seq<Task>) {
    forall i, j :: 0 <= i < j < |tasks| ==> BatchOf(tasks[i]) == [] || BatchOf(tasks[j]) == []
  }

  /** What the instance holds, oldest first. */
  function Held(s: Inst): seq<Pending> { FlyingUpdates(s.tasks) + s.pending }

  lemma {:induction false} NoneFlying(tasks: seq<Task>)
    requires forall j :: 0 <= j < |tasks| ==> BatchOf(tasks[j]) == []
    ensures FlyingUpdates(tasks) == []
  {
    if tasks != [] {
      NoneFlying(tasks[..|tasks| - 1]);
    }
  }

  lemma {:induction false} OnlyFlying(tasks: seq<Task>, id: nat)
    requires id < |tasks| && forall j :: 0 <= j < |tasks| && j != id ==> BatchOf(tasks[j]) == []
    ensures FlyingUpdates(tasks) == BatchOf(tasks[id])
  {
    var n := |tasks| - 1;
    if id == n {
      NoneFlying(tasks[..n]);
    } else {
      OnlyFlying(tasks[..n], id);
    }
  }

  lemma {:induction false} SameFlying(a: seq<Task>, b: seq<Task>)
    requires |a| == |b| && forall j :: 0 <= j < |a| ==> BatchOf(a[j]) == BatchOf(b[j])
    ensures FlyingUpdates(a) == FlyingUpdates(b)
  {
    if a != [] {
      SameFlying(a[..|a| - 1], b[..|b| - 1]);
    }
  }

  lemma {:induction false} AddFlying(tasks: seq<Task>, t: Task)
    ensures FlyingUpdates(tasks + [t]) == FlyingUpdates(tasks) + BatchOf(t)
  {
    assert (tasks + [t])[..|tasks|] == tasks;
  }

  /** A flush that starts takes the buffer; nothing else is then in flight unless the buffer was empty. */
  lemma {:induction false} StartHolds(s: Inst, id: nat)
    requires id < |s.tasks| && BatchOf(s.tasks[id]) == [] && OneFlying(Start(s, id).tasks)
    ensures Held(Start(s, id)) == Held(s)
  {
    var s' := Start(s, id);
    assert BatchOf(s'.tasks[id]) == s.pending;
    if s.pending == [] {
      SameFlying(s.tasks, s'.tasks);
    } else {
      OnlyFlying(s'.tasks, id);
      forall j | 0 <= j < |s.tasks| ensures BatchOf(s.tasks[j]) == [] {
        assert j != id ==> s'.tasks[j] == s.tasks[j];
      }
      NoneFlying(s.tasks);
    }
  }

  lemma {:induction false} EnterHolds(s: Inst, handled: bool)
    requires OneFlying(Enter(s, handled).tasks)
    ensures Held(Enter(s, handled)) == Held(s)
  {
    if s.current.Some? {
      AddFlying(s.tasks, Task(handled, Waiting(s.current.value)));
    } else {
      AddFlying(s.tasks, Task(handled, Ready));
      StartHolds(s.(tasks := s.tasks + [Task(handled, Ready)]), |s.tasks|);
    }
  }

  /** The settled flush leaves; its batch, if not empty, was all that was in flight. */
  lemma {:induction false} SettleFlies(s: Inst, id: nat, ok: bool)
    requires Flying(s, id) && OneFlying(s.tasks)
    ensures s.tasks[id].phase.batch + FlyingUpdates(Settle(s, id, ok).tasks) == FlyingUpdates(s.tasks)
    ensures s.tasks[id].phase.batch != [] ==> FlyingUpdates(Settle(s, id, ok).tasks) == []
  {
    var s' := Settle(s, id, ok);
    if s.tasks[id].phase.batch == [] {
      SameFlying(s.tasks, s'.tasks);
    } else {
      forall j | 0 <= j < |s.tasks| && j != id ensures BatchOf(s.tasks[j]) == [] && BatchOf(s'.tasks[j]) == [] {
        assert BatchOf(s.tasks[id]) != [];
      }
      OnlyFlying(s.tasks, id);
      NoneFlying(s'.tasks);
    }
  }

  lemma {:induction false} AppendHolds(s: Inst, u: Pending, c: Config)
    requires OneFlying(Append(s, u, c).tasks)
    ensures Held(Append(s, u, c)) == Held(s) + [u]
  {
    var s1 := s.(pending := s.pending + [u], retry := 0);
    assert Held(s1) == Held(s) + [u];
    if |s1.pending| >= c.maxUpdatesPerBatch {
      EnterHolds(s1, true);
    }
  }

  lemma {:induction false} FailHolds(s: Inst, id: nat)
    requires Flying(s, id) && OneFlying(s.tasks) && s.tasks[id].phase.batch != []
    ensures Held(Fail(s, id, true)) == Held(s)
  {
    var batch := s.tasks[id].phase.batch;
    var s1 := s.(pending := batch + s.pending);
    var rest := FlyingUpdates(Settle(s1, id, false).tasks);
    SettleFlies(s1, id, false);
    SettleKeepsBuffer(s1, id, false);
    assert FlyingUpdates(s.tasks) == batch + rest == batch;
  }

  lemma {:induction false} SettleKeepsBuffer(s: Inst, id: nat, ok: bool)
    requires id < |s.tasks|
    ensures Settle(s, id, ok).pending == s.pending
  {
  }

  lemma {:induction false} Associate(a: seq<Pending>, b: seq<Pending>, c: seq<Pending>)
    ensures a + b + c == a + (b + c)
  {
  }

  lemma {:induction false} SucceedHolds(s: Inst, id: nat)
    requires Flying(s, id) && OneFlying(s.tasks)
    ensures s.tasks[id].phase.batch + Held(Succeed(s, id)) == Held(s)
  {
    var s1 := if s.tasks[id].phase.batch == [] then s else s.(retry := 0);
    SettleFlies(s1, id, true);
    SettleKeepsBuffer(s1, id, true);
    Associate(s.tasks[id].phase.batch, FlyingUpdates(Settle(s1, id, true).tasks), s.pending);
  }

  function IncomingSeq(e: Event): seq<Pending> { if e.Appended? then [e.u] else [] }

  lemma {:induction false} HandleFailureHolds(s: Inst, id: nat, c: Config)
    requires ValidConfig(c) && id < |s.tasks| && s.tasks[id].phase.Failing?
    ensures Held(HandleFailure(s, id, c)) == Held(s)
  {
    HandleFailureKeeps(s, id, c);
    SameFlying(s.tasks, HandleFailure(s, id, c).tasks);
  }

  /** One event writes from the front of what is held and appends at its end. */
  lemma {:induction false} OrderStep(s: Inst, e: Event, c: Config)
    requires ValidConfig(c) && Enabled(s, e) && OneFlying(s.tasks) && OneFlying(Next(s, e, c).tasks)
    requires e.Failed? ==> e.restored
    ensures Written(s, e) + Held(Next(s, e, c)) == Held(s) + IncomingSeq(e)
  {
    match e
    case Appended(u) => AppendHolds(s, u, c);
    case TimerFired => EnterHolds(s.(timer := None), true);
    case Called => EnterHolds(s, false);
    case Resumed(id) => StartHolds(s, id);
    case Committed(id) => SucceedHolds(s, id);
    case Failed(id, _) => FailHolds(s, id);
    case FailureHandled(id) => HandleFailureHolds(s, id, c);
  }

  // ---- Whole runs -----------------------------------------------------------------------

  /** The updates appended by the first `n` events. */
  function AppendedBy(events: seq<Event>, n: nat): seq<Pending>
    requires n <= |events|
  {
    if n == 0 then [] else AppendedBy(events, n - 1) + IncomingSeq(events[n - 1])
  }

  /** The updates they wrote, in the order of the commits. */
  function WrittenBy(states: seq<Inst>, events: seq<Event>, n: nat): seq<Pending>
    requires n <= |events| && |states| == |events| + 1
  {
    if n == 0 then []
    else
      WrittenBy(states, events, n - 1) +
      (if Enabled(states[n - 1], events[n - 1]) then Written(states[n - 1], events[n - 1]) else [])
  }

  predicate InOrder(states: seq<Inst>, events: seq<Event>, n: nat)
    requires n <= |events| && |states| == |events| + 1
  {
    WrittenBy(states, events, n) + Held(states[n]) == AppendedBy(events, n)
  }

  lemma {:induction false} WrittenStep(states: seq<Inst>, events: seq<Event>, c: Config, k: nat)
    requires ValidConfig(c) && IsRun(states, events, c) && k < |events|
    ensures Enabled(states[k], events[k]) && states[k + 1] == Next(states[k], events[k], c)
    ensures WrittenBy(states, events, k + 1) == WrittenBy(states, events, k) + Written(states[k], events[k])
  {
    assert EventAt(states, events, c, k);
  }

  lemma {:induction false} RunInOrder(states: seq<Inst>, events: seq<Event>, c: Config, k: nat)
    requires ValidConfig(c) && IsRun(states, events, c) && k < |events| && InOrder(states, events, k)
    requires OneFlying(states[k].tasks) && OneFlying(states[k + 1].tasks)
    requires events[k].Failed? ==> events[k].restored
    ensures InOrder(states, events, k + 1)
  {
    WrittenStep(states, events, c, k);
    OrderStep(states[k], events[k], c);
    Regroup(WrittenBy(states, events, k), Written(states[k], events[k]), Held(states[k + 1]), Held(states[k]),
            AppendedBy(events, k), IncomingSeq(events[k]));
  }

  lemma {:induction false} Regroup(written: seq<Pending>, now: seq<Pending>, held: seq<Pending>, before: seq<Pending>,
                                   appended: seq<Pending>, incoming: seq<Pending>)
    requires written + before == appended && now + held == before + incoming
    ensures written + now + held == appended + incoming
  {
    assert written + now + held == written + (now + held);
    assert written + (before + incoming) == written + before + incoming;
  }

  /**
   Nothing overtakes: what was written, what is in flight and what is buffered, one after the
   other, are the appended updates in their order.
   */
  lemma {:induction false} WrittenInOrder(states: seq<Inst>, events: seq<Event>, c: Config, n: nat)
    requires ValidConfig(c) && IsRun(states, events, c) && n < |states| && states[0] == Fresh
    requires forall m: nat | m <= n :: OneFlying(states[m].tasks)
    requires forall m: nat | m < n && events[m].Failed? :: events[m].restored
    ensures WrittenBy(states, events, n) + (FlyingUpdates(states[n].tasks) + states[n].pending) == AppendedBy(events, n)
  {
    if n > 0 {
      WrittenInOrder(states, events, c, n - 1);
      RunInOrder(states, events, c, n - 1);
    }
  }

  // ---- Two flushes at once --------------------------------------------------------------

  predicate Moves(s: Inst, e: Event, c: Config, s': Inst)
    requires ValidConfig(c)
  {
    Enabled(s, e) && s' == Next(s, e, c)
  }

  /** A run from the beginning, event by event. */
  datatype Trace = Begin | Then(before: Trace, e: Event, s: Inst)

  function End(r: Trace): Inst { if r.Begin? then Fresh else r.s }

  predicate Runs(r: Trace, c: Config)
    requires ValidConfig(c)
  {
    r.Then? ==> Runs(r.before, c) && Moves(End(r.before), r.e, c, r.s)
  }

  function Events(r: Trace): seq<Event> { if r.Begin? then [] else Events(r.before) + [r.e] }

  function States(r: Trace): seq<Inst> { if r.Begin? then [Fresh] else States(r.before) + [r.s] }

  function Wrote(r: Trace): seq<Pending> {
    if r.Begin? then [] else Wrote(r.before) + (if Enabled(End(r.before), r.e) then Written(End(r.before), r.e) else [])
  }

  function Received(r: Trace): seq<Pending> { if r.Begin? then [] else Received(r.before) + IncomingSeq(r.e) }

  lemma {:induction false} TraceIsRun(r: Trace, c: Config)
    requires ValidConfig(c) && Runs(r, c)
    ensures IsRun(States(r), Events(r), c) && States(r)[0] == Fresh && States(r)[|Events(r)|] == End(r)
    ensures WrittenBy(States(r), Events(r), |Events(r)|) == Wrote(r) && AppendedBy(Events(r), |Events(r)|) == Received(r)
  {
    if r.Then? {
      TraceIsRun(r.before, c);
      var states, events, ss, es := States(r.before), Events(r.before), States(r), Events(r);
      forall k: nat | k < |es| ensures EventAt(ss, es, c, k) {
        if k < |events| {
          assert EventAt(states, events, c, k);
        }
      }
      SamePrefix(states, events, ss, es, |events|);
    }
  }

  lemma {:induction false} SamePrefix(states: seq<Inst>, events: seq<Event>, ss: seq<Inst>, es: seq<Event>, n: nat)
    requires |states| == |events| + 1 && |ss| == |es| + 1 && n <= |events| && n <= |es|
    requires states <= ss && events <= es
    ensures WrittenBy(ss, es, n) == WrittenBy(states, events, n) && AppendedBy(es, n) == AppendedBy(events, n)
  {
    if n > 0 {
      SamePrefix(states, events, ss, es, n - 1);
    }
  }

  lemma {:induction false} TwoMoves(r: Trace, c: Config, e1: Event, s1: Inst, e2: Event, s2: Inst) returns (r': Trace)
    requires ValidConfig(c) && Runs(r, c) && Moves(End(r), e1, c, s1) && Moves(s1, e2, c, s2)
    ensures Runs(r', c) && End(r') == s2 && Events(r') == Events(r) + [e1, e2]
    ensures Wrote(r') == Wrote(r) + Written(End(r), e1) + Written(s1, e2)
    ensures Received(r') == Received(r) + IncomingSeq(e1) + IncomingSeq(e2)
  {
    var r1 := Then(r, e1, s1);
    assert Events(r1) == Events(r) + [e1];
    r' := Then(r1, e2, s2);
  }

  lemma {:induction false} FourMoves(r: Trace, c: Config, e1: Event, s1: Inst, e2: Event, s2: Inst, e3: Event, s3: Inst,
                                     e4: Event, s4: Inst) returns (r': Trace)
    requires ValidConfig(c) && Runs(r, c)
    requires Moves(End(r), e1, c, s1) && Moves(s1, e2, c, s2) && Moves(s2, e3, c, s3) && Moves(s3, e4, c, s4)
    ensures Runs(r', c) && End(r') == s4 && Events(r') == Events(r) + [e1, e2, e3, e4]
    ensures Wrote(r') == Wrote(r) + Written(End(r), e1) + Written(s1, e2) + Written(s2, e3) + Written(s3, e4)
    ensures Received(r') == Received(r) + IncomingSeq(e1) + IncomingSeq(e2) + IncomingSeq(e3) + IncomingSeq(e4)
  {
    r' := TwoMoves(r, c, e1, s1, e2, s2);
    r' := TwoMoves(r', c, e3, s3, e4, s4);
  }

  const Ended: Task := Task(false, Done)

  lemma {:induction false} EmptyFlushStarts(a: Pending, c: Config, s1: Inst, s2: Inst)
    requires ValidConfig(c) && c.maxUpdatesPerBatch > 1
    requires s1 == Inst([], None, Some(0), 0, [Task(false, InFlight([]))])
    requires s2 == Inst([a], Some(c.flushIntervalMs), Some(0), 0, [Task(false, InFlight([]))])
    ensures Moves(Fresh, Called, c, s1) && Moves(s1, Appended(a), c, s2)
  {
  }

  lemma {:induction false} WaitersCome(a: Pending, c: Config, s2: Inst, s3: Inst, s4: Inst)
    requires ValidConfig(c)
    requires s2 == Inst([a], Some(c.flushIntervalMs), Some(0), 0, [Task(false, InFlight([]))])
    requires s3 == Inst([a], None, Some(0), 0, [Task(false, InFlight([])), Task(true, Waiting(0))])
    requires s4 == Inst([a], None, Some(0), 0, [Task(false, InFlight([])), Task(true, Waiting(0)), Task(false, Waiting(0))])
    ensures Moves(s2, TimerFired, c, s3) && Moves(s3, Called, c, s4)
  {
  }

  /** While an empty flush runs, the timer's flush and one more call wait for it. */
  lemma {:induction false} WaitersGather(a: Pending, c: Config) returns (r: Trace)
    requires ValidConfig(c) && c.maxUpdatesPerBatch > 1
    ensures Runs(r, c) && Wrote(r) == [] && Received(r) == [a]
    ensures Events(r) == [Called, Appended(a), TimerFired, Called]
    ensures End(r) == Inst([a], None, Some(0), 0, [Task(false, InFlight([])), Task(true, Waiting(0)), Task(false, Waiting(0))])
  {
    var t0, t1 := Task(false, InFlight([])), Task(true, Waiting(0));
    var s1 := Inst([], None, Some(0), 0, [t0]);
    var s2 := Inst([a], Some(c.flushIntervalMs), Some(0), 0, [t0]);
    var s3 := Inst([a], None, Some(0), 0, [t0, t1]);
    var s4 := Inst([a], None, Some(0), 0, [t0, t1, Task(false, Waiting(0))]);
    EmptyFlushStarts(a, c, s1, s2);
    WaitersCome(a, c, s2, s3, s4);
    r := FourMoves(Begin, c, Called, s1, Appended(a), s2, TimerFired, s3, Called, s4);
  }

  lemma {:induction false} WaitersStart(a: Pending, c: Config, s: Inst, s1: Inst, s2: Inst)
    requires ValidConfig(c)
    requires s == Inst([a], None, Some(0), 0, [Task(false, InFlight([])), Task(true, Waiting(0)), Task(false, Waiting(0))])
    requires s1 == Inst([a], None, None, 0, [Ended, Task(true, Ready), Task(false, Ready)])
    requires s2 == Inst([], None, Some(1), 0, [Ended, Task(true, InFlight([a])), Task(false, Ready)])
    ensures Moves(s, Committed(0), c, s1) && Written(s, Committed(0)) == []
    ensures Moves(s1, Resumed(1), c, s2)
  {
  }

  lemma {:induction false} EmptyFlushEnds(a: Pending, c: Config, s2: Inst, s3: Inst, s4: Inst)
    requires ValidConfig(c)
    requires s2 == Inst([], None, Some(1), 0, [Ended, Task(true, InFlight([a])), Task(false, Ready)])
    requires s3 == Inst([], None, Some(2), 0, [Ended, Task(true, InFlight([a])), Task(false, InFlight([]))])
    requires s4 == Inst([], None, None, 0, [Ended, Task(true, InFlight([a])), Ended])
    ensures Moves(s2, Resumed(2), c, s3)
    ensures Moves(s3, Committed(2), c, s4) && Written(s3, Committed(2)) == []
  {
  }

  function UnregisteringEvents(a: Pending): seq<Event> {
    [Called, Appended(a), TimerFired, Called] + [Committed(0), Resumed(1), Resumed(2), Committed(2)]
  }

  /** When it ends both start: the first takes the buffer, the second finds it empty, ends, and ends the registration. */
  lemma {:induction false} UnregisteredFlush(a: Pending, c: Config) returns (r: Trace)
    requires ValidConfig(c) && c.maxUpdatesPerBatch > 1
    ensures Runs(r, c) && Wrote(r) == [] && Received(r) == [a]
    ensures Events(r) == UnregisteringEvents(a)
    ensures End(r) == Inst([], None, None, 0, [Ended, Task(true, InFlight([a])), Ended])
  {
    var first, ready := Task(true, InFlight([a])), Task(false, Ready);
    var s1, s2 := Inst([a], None, None, 0, [Ended, Task(true, Ready), ready]), Inst([], None, Some(1), 0, [Ended, first, ready]);
    var s3, s4 := Inst([], None, Some(2), 0, [Ended, first, Task(false, InFlight([]))]), Inst([], None, None, 0, [Ended, first, Ended]);
    r := WaitersGather(a, c);
    WaitersStart(a, c, End(r), s1, s2);
    EmptyFlushEnds(a, c, s2, s3, s4);
    r := FourMoves(r, c, Committed(0), s1, Resumed(1), s2, Resumed(2), s3, Committed(2), s4);
  }

  lemma {:induction false} SecondStarts(a: Pending, b: Pending, c: Config, s: Inst, s1: Inst, s2: Inst)
    requires ValidConfig(c) && c.maxUpdatesPerBatch > 1
    requires s == Inst([], None, None, 0, [Ended, Task(true, InFlight([a])), Ended])
    requires s1 == Inst([b], Some(c.flushIntervalMs), None, 0, s.tasks)
    requires s2 == Inst([], None, Some(3), 0, [Ended, Task(true, InFlight([a])), Ended, Task(true, InFlight([b]))])
    ensures Moves(s, Appended(b), c, s1) && Moves(s1, TimerFired, c, s2)
  {
  }

  lemma {:induction false} SecondCommits(a: Pending, b: Pending, c: Config, s2: Inst, s3: Inst, s4: Inst)
    requires ValidConfig(c)
    requires s2 == Inst([], None, Some(3), 0, [Ended, Task(true, InFlight([a])), Ended, Task(true, InFlight([b]))])
    requires s3 == Inst([], None, None, 0, [Ended, Task(true, InFlight([a])), Ended, Task(true, Done)])
    requires s4 == Inst([], None, None, 0, [Ended, Task(true, Done), Ended, Task(true, Done)])
    ensures Moves(s2, Committed(3), c, s3) && Written(s2, Committed(3)) == [b]
    ensures Moves(s3, Committed(1), c, s4) && Written(s3, Committed(1)) == [a]
  {
  }

  /** Then the next flush starts beside the one in flight, and may commit before it. */
  lemma {:induction false} OverlapReorders(a: Pending, b: Pending, c: Config) returns (r: Trace)
    requires ValidConfig(c) && c.maxUpdatesPerBatch > 1
    ensures IsRun(States(r), Events(r), c) && States(r)[0] == Fresh
    ensures AppendedBy(Events(r), |Events(r)|) == [a, b] && WrittenBy(States(r), Events(r), |Events(r)|) == [b, a]
    ensures Events(r) == UnregisteringEvents(a) + [Appended(b), TimerFired, Committed(3), Committed(1)]
  {
    r := UnregisteredFlush(a, c);
    var first, second, done := Task(true, InFlight([a])), Task(true, InFlight([b])), Task(true, Done);
    var s1 := Inst([b], Some(c.flushIntervalMs), None, 0, [Ended, first, Ended]);
    var s2 := Inst([], None, Some(3), 0, [Ended, first, Ended, second]);
    var s3 := Inst([], None, None, 0, [Ended, first, Ended, done]);
    var s4 := Inst([], None, None, 0, [Ended, done, Ended, done]);
    SecondStarts(a, b, c, End(r), s1, s2);
    SecondCommits(a, b, c, s2, s3, s4);
    r := FourMoves(r, c, Appended(b), s1, TimerFired, s2, Committed(3), s3, Committed(1), s4);
    TraceIsRun(r, c);
  }
}
