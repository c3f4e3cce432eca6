/**
 What becomes of the adapters' reports, before and after a handoff expires, and what one round of
 the publishing loop leaves behind.
 */
module ExecutionReports {
  import opened Common
  import opened ExecutionQueue

  /** The platform's newest event is number `k`. */
  predicate NewestAt(events: seq<Event>, p: Platform, k: nat) {
    k < |events| && events[k].platform == p && forall j :: k < j < |events| ==> events[j].platform != p
  }

  lemma {:induction false} NewestIsLatest(events: seq<Event>, p: Platform, k: nat)
    requires NewestAt(events, p, k)
    ensures Latest(events, p) == Some(events[k].status)
  {
    var n := |events| - 1;
    if k < n {
      NewestIsLatest(events[..n], p, k);
    }
  }

  lemma {:induction false} LatestIsSomewhere(events: seq<Event>, p: Platform) returns (k: nat)
    requires exists i :: 0 <= i < |events| && events[i].platform == p
    ensures NewestAt(events, p, k)
  {
    var n := |events| - 1;
    if events[n].platform == p {
      k := n;
    } else {
      var front := events[..n];
      var i :| 0 <= i < |events| && events[i].platform == p;
      assert front[i].platform == p;
      k := LatestIsSomewhere(front, p);
    }
  }

  lemma {:induction false} LatestOfNone(events: seq<Event>, p: Platform)
    requires forall k :: 0 <= k < |events| ==> events[k].platform != p
    ensures Latest(events, p) == None
  {
    if events != [] {
      LatestOfNone(events[..|events| - 1], p);
    }
  }

  /** `Latest` is the status of the platform's newest event, if it has any. */
  lemma {:induction false} LatestIsNewest(events: seq<Event>, p: Platform, status: Status)
    ensures Latest(events, p) == Some(status) <==> exists k: nat :: NewestAt(events, p, k) && events[k].status == status
    ensures Latest(events, p) == None <==> forall k :: 0 <= k < |events| ==> events[k].platform != p
  {
    if forall k :: 0 <= k < |events| ==> events[k].platform != p {
      LatestOfNone(events, p);
    } else {
      var k := LatestIsSomewhere(events, p);
      NewestIsLatest(events, p, k);
      forall i: nat | NewestAt(events, p, i) ensures i == k {
      }
    }
  }

  // ---- Recording expiry --------------------------------------------------------------------

  lemma {:induction false} OnlyExpiredAppended(s: Stored, h: Handoff, snapshot: seq<Event>, k: nat)
    requires k <= |h.platforms|
    ensures var r := ExpirePlatforms(s, h, snapshot, k);
            s.events <= r.events && forall i :: |s.events| <= i < |r.events| ==> r.events[i].status == Expired
  {
    if k > 0 {
      OnlyExpiredAppended(s, h, snapshot, k - 1);
    }
  }

  /** In every state of every run: what recording the expiry changes, platform by platform. */
  lemma {:induction false} ExpiryIsRecorded(states: seq<Sys>, steps: seq<Step>, n: nat, h: Handoff, j: nat)
    requires IsRun(states, steps) && n < |states| && states[n].stored.current == Some(h) && j < |h.platforms|
    ensures var (s, r) := (states[n].stored, RecordExpiration(states[n].stored, states[n].now));
            && s.queue.Some? && r.queue.Some? && |s.queue.value.tasks| == |r.queue.value.tasks| == |h.platforms|
            && s.events <= r.events && (forall i :: |s.events| <= i < |r.events| ==> r.events[i].status == Expired)
            && (if h.expiresAt <= states[n].now && Latest(s.events, h.platforms[j]) !in
                   {Some(UserReview), Some(Submitted), Some(Succeeded), Some(Failed), Some(Cancelled), Some(Expired)}
                then r.queue.value.tasks[j].status == Expired && Latest(r.events, h.platforms[j]) == Some(Expired)
                else r.queue.value.tasks[j] == s.queue.value.tasks[j]
                     && Latest(r.events, h.platforms[j]) == Latest(s.events, h.platforms[j]))
  {
    InvAlways(states, steps, n);
    var s, l := states[n].stored, states[n].loops[|states[n].loops| - 1];
    ExpirationEffect(s, l, states[n].now);
    OnlyExpiredAppended(s, h, s.events, |h.platforms|);
  }

  // ---- Reports ----------------------------------------------------------------------------------

  /** What `handleAdapterEvent` answers. */
  predicate Answer(s: Sys, x: Step)
    requires x.AdapterMessage?
  {
    AdapterEvent(s.stored, x.executionId, x.e, x.error, s.now).1
  }

  /** Exactly the reports for the current execution and one of its platforms are stored, before expiry or after a settled status. */
  lemma {:induction false} StoredExactly(s: Sys, x: Step)
    requires x.AdapterMessage?
    ensures Answer(s, x) <==>
            && s.stored.current.Some?
            && s.stored.current.value.executionId == x.executionId
            && x.e.platform in s.stored.current.value.platforms
            && (s.now < s.stored.current.value.expiresAt
                || Latest(s.stored.events, x.e.platform) in
                   {Some(UserReview), Some(Submitted), Some(Succeeded), Some(Failed), Some(Cancelled)})
  {
  }

  /**
   In every run a report after expiry, for a platform without a settled status, is refused. No event but
   expiries is stored; the platform's newest event is then an expiry, and so is its task's status, unless an
   expiry had been recorded before and the publishing loop has moved the task on since.
   */
  lemma {:induction false} LateReportIsRefused(states: seq<Sys>, steps: seq<Step>, n: nat, h: Handoff)
    requires IsRun(states, steps) && n < |steps| && steps[n].AdapterMessage?
    requires states[n].stored.current == Some(h) && h.expiresAt <= states[n].now
    requires Latest(states[n].stored.events, steps[n].e.platform) !in
               {Some(UserReview), Some(Submitted), Some(Succeeded), Some(Failed), Some(Cancelled)}
    ensures !Answer(states[n], steps[n])
    ensures var (s, r, p) := (states[n].stored, states[n + 1].stored, steps[n].e.platform);
            && s.events <= r.events && (forall i :: |s.events| <= i < |r.events| ==> r.events[i].status == Expired)
            && (p in h.platforms ==> Latest(r.events, p) == Some(Expired))
            && s.queue.Some? && r.queue.Some? && |s.queue.value.tasks| == |r.queue.value.tasks| == |h.platforms|
            && forall j :: 0 <= j < |h.platforms| && h.platforms[j] == p ==>
                 (r.queue.value.tasks[j].status == Expired
                  <==> Latest(s.events, p) != Some(Expired) || s.queue.value.tasks[j].status == Expired)
  {
    assert StepAt(states, steps, n);
    StoredExactly(states[n], steps[n]);
    RefusedRecordsOnly(states[n], steps[n]);
    InvAlways(states, steps, n);
    OnlyExpiredAppended(states[n].stored, h, states[n].stored.events, |h.platforms|);
    ExpirationEffect(states[n].stored, states[n].loops[|states[n].loops| - 1], states[n].now);
    forall j | 0 <= j < |h.platforms| && h.platforms[j] == steps[n].e.platform
      ensures Latest(states[n + 1].stored.events, steps[n].e.platform) == Some(Expired)
    {
      ExpiryIsRecorded(states, steps, n, h, j);
    }
  }

  lemma {:induction false} RefusedRecordsOnly(s: Sys, x: Step)
    requires Enabled(s, x) && x.AdapterMessage? && !Answer(s, x)
    ensures Next(s, x).stored == RecordExpiration(s.stored, s.now)
  {
  }

  /** A stored report is the newest event, and the task of its platform has its status and error; before expiry nothing else changes. */
  lemma {:induction false} ReportIsStored(states: seq<Sys>, steps: seq<Step>, n: nat, h: Handoff, j: nat)
    requires IsRun(states, steps) && n < |steps| && steps[n].AdapterMessage? && Answer(states[n], steps[n])
    requires states[n].stored.current == Some(h) && j < |h.platforms|
    ensures var (s, r, e) := (states[n].stored, states[n + 1].stored, steps[n].e);
            && r.current == s.current && s.queue.Some? && r.queue.Some?
            && |s.queue.value.tasks| == |r.queue.value.tasks| == |h.platforms|
            && s.events <= r.events && r.events != s.events && r.events[|r.events| - 1] == e
            && (states[n].now < h.expiresAt ==> r.events == s.events + [e])
            && (h.platforms[j] == e.platform ==>
                  r.queue.value.tasks[j] == s.queue.value.tasks[j].(status := e.status, error := steps[n].error))
            && (h.platforms[j] != e.platform && states[n].now < h.expiresAt ==> r.queue.value.tasks[j] == s.queue.value.tasks[j])
  {
    assert StepAt(states, steps, n);
    InvAlways(states, steps, n);
    var s, now, x := states[n].stored, states[n].now, steps[n];
    var l := states[n].loops[|states[n].loops| - 1];
    StoredExactly(states[n], x);
    assert states[n + 1].stored == AdapterEvent(s, x.executionId, x.e, x.error, now).0;
    var i :| 0 <= i < |h.platforms| && h.platforms[i] == x.e.platform;
    OnlyExpiredAppended(s, h, s.events, |h.platforms|);
    ReportEffect(s, l, x.executionId, x.e, x.error, now, i);
  }

  lemma {:induction false} ReportEffect(s: Stored, l: Loop, id: string, e: Event, error: Option<string>, now: int, i: nat)
    requires TasksOk(s, l) && AdapterEvent(s, id, e, error, now).1 && IsTaskStatus(e.status)
    requires i < |l.handoff.platforms| && l.handoff.platforms[i] == e.platform
    ensures var (r, s1) := (AdapterEvent(s, id, e, error, now).0, RecordExpiration(s, now));
            && r.current == s.current && r.events == s1.events + [e] && r.queue.Some? && s1.queue.Some?
            && |r.queue.value.tasks| == |s1.queue.value.tasks| == |l.handoff.platforms|
            && r.queue.value.tasks[i] == s.queue.value.tasks[i].(status := e.status, error := error)
            && forall j :: 0 <= j < |l.handoff.platforms| && j != i ==> r.queue.value.tasks[j] == s1.queue.value.tasks[j]
  {
    var h, s1 := l.handoff, RecordExpiration(s, now);
    ExpirationEffect(s, l, now);
    UpdateMirrors(Append(s1, e), h, i, e.status, None, Some(error));
    if IsExpired(h, now) {
      assert Suppressed(s.events, h.platforms[i]);
    }
  }

  // ---- One round of the publishing loop -------------------------------------------------------

  /** Up to `n` stretches of the loop, none of which throws, with nothing between them. */
  function Stretches(s: Stored, l: Loop, tab: nat, n: nat): (Stored, Loop) {
    if n == 0 then (s, l)
    else
      var (s1, l1) := Stretches(s, l, tab, n - 1);
      if Running(l1) then LoopStep(s1, l1, false, tab) else (s1, l1)
  }

  /** One platform's task, and the events; everything else as in `s`. */
  predicate Left(s: Stored, r: Stored, j: nat, task: Task, events: seq<Event>)
    requires s.queue.Some? && j < |s.queue.value.tasks|
  {
    && r.current == s.current && r.events == s.events + events
    && r.queue.Some? && r.queue.value.executionId == s.queue.value.executionId
    && r.queue.value.tasks == s.queue.value.tasks[j := task]
  }

  lemma {:induction false} MarkLeaves(s: Stored, r: Stored, h: Handoff, j: nat, task: Task, events: seq<Event>, status: Status,
                                      tab: Option<nat>, error: Option<Option<string>>)
    requires Mirrors(s, h) && j < |h.platforms| && Mirrors(r, h) && Left(s, r, j, task, events)
    ensures var r' := UpdateTask(r, h.executionId, h.platforms[j], status, tab, error);
            && Mirrors(r', h)
            && Left(s, r', j, Task(h.platforms[j], status, if tab.Some? then tab else task.tabId,
                                   if error.Some? then error.value else task.error), events)
  {
    UpdateMirrors(r, h, j, status, tab, error);
  }

  lemma {:induction false} RecordLeaves(s: Stored, r: Stored, h: Handoff, j: nat, task: Task, events: seq<Event>, e: Event)
    requires Mirrors(s, h) && j < |h.platforms| && Mirrors(r, h) && Left(s, r, j, task, events)
    ensures Mirrors(Append(r, e), h) && Left(s, Append(r, e), j, task, events + [e])
  {
    assert s.events + events + [e] == s.events + (events + [e]);
  }

  /** A round that does not throw opens the platform's tab and then injects the adapter, telling both in order. */
  lemma {:induction false} RoundInjects(s: Stored, l: Loop, tab: nat)
    requires Mirrors(s, l.handoff) && Running(l) && l.stage == MarkOpening
    ensures var ((r, l'), p, task) :=
              (Stretches(s, l, tab, 7), l.handoff.platforms[l.index], s.queue.value.tasks[l.index]);
            && l' == l.(stage := RunAdapter(false))
            && Left(s, r, l.index, Task(p, Injecting, Some(tab), task.error), [Event(p, OpeningTabs), Event(p, Injecting)])
  {
    var h, j, p, task := l.handoff, l.index, l.handoff.platforms[l.index], s.queue.value.tasks[l.index];
    var id := h.executionId;
    assert Left(s, s, j, task, []);
    MarkLeaves(s, s, h, j, task, [], OpeningTabs, None, None);
    var r1 := UpdateTask(s, id, p, OpeningTabs, None, None);
    RecordLeaves(s, r1, h, j, Task(p, OpeningTabs, task.tabId, task.error), [], Event(p, OpeningTabs));
    var r2 := Append(r1, Event(p, OpeningTabs));
    MarkLeaves(s, r2, h, j, Task(p, OpeningTabs, task.tabId, task.error), [Event(p, OpeningTabs)], OpeningTabs, Some(tab), None);
    var r3 := UpdateTask(r2, id, p, OpeningTabs, Some(tab), None);
    MarkLeaves(s, r3, h, j, Task(p, OpeningTabs, Some(tab), task.error), [Event(p, OpeningTabs)], Injecting, Some(tab), None);
    var r4 := UpdateTask(r3, id, p, Injecting, Some(tab), None);
    RecordLeaves(s, r4, h, j, Task(p, Injecting, Some(tab), task.error), [Event(p, OpeningTabs)], Event(p, Injecting));
    StretchesAre(s, l, tab);
  }

  lemma {:induction false} StretchesAre(s: Stored, l: Loop, tab: nat)
    requires Running(l) && l.stage == MarkOpening
    ensures var (id, p) := (l.handoff.executionId, l.handoff.platforms[l.index]);
            var r2 := Append(UpdateTask(s, id, p, OpeningTabs, None, None), Event(p, OpeningTabs));
            var r4 := UpdateTask(UpdateTask(r2, id, p, OpeningTabs, Some(tab), None), id, p, Injecting, Some(tab), None);
            Stretches(s, l, tab, 7) == (Append(r4, Event(p, Injecting)), l.(stage := RunAdapter(false)))
  {
    var (id, p) := (l.handoff.executionId, l.handoff.platforms[l.index]);
    var r1 := UpdateTask(s, id, p, OpeningTabs, None, None);
    var r2 := Append(r1, Event(p, OpeningTabs));
    var r3 := UpdateTask(r2, id, p, OpeningTabs, Some(tab), None);
    assert Stretches(s, l, tab, 1) == (r1, l.(stage := RecordOpening));
    assert Stretches(s, l, tab, 2) == (r2, l.(stage := CreateTab));
    assert Stretches(s, l, tab, 3) == (r2, l.(stage := MarkTab(tab)));
    assert Stretches(s, l, tab, 4) == (r3, l.(stage := AwaitTab(tab)));
    assert Stretches(s, l, tab, 5) == (r3, l.(stage := MarkInjecting(tab)));
  }

  /** A stretch that throws ends the platform's round as failed, and the loop goes on with the next platform. */
  lemma {:induction false} ThrowFails(s: Stored, l: Loop, tab: nat)
    requires Mirrors(s, l.handoff) && LoopEnabled(l, true)
    ensures var (p, task, (s1, l1)) := (l.handoff.platforms[l.index], s.queue.value.tasks[l.index], LoopStep(s, l, true, tab));
            var (r, l') := Stretches(s1, l1, tab, 2);
            && l' == Loop(l.handoff, l.index + 1, MarkOpening)
            && Left(s, r, l.index, Task(p, Failed, task.tabId, Some("error")), [Event(p, Failed)])
  {
    var h, j, p, task := l.handoff, l.index, l.handoff.platforms[l.index], s.queue.value.tasks[l.index];
    var failed := l.(stage := MarkFailed);
    assert Left(s, s, j, task, []);
    MarkLeaves(s, s, h, j, task, [], Failed, None, Some(Some("error")));
    var r1 := UpdateTask(s, h.executionId, p, Failed, None, Some(Some("error")));
    RecordLeaves(s, r1, h, j, Task(p, Failed, task.tabId, Some("error")), [], Event(p, Failed));
    assert Stretches(s, failed, tab, 1) == (r1, l.(stage := RecordFailed));
  }

  // ---- The exception ----------------------------------------------------------------------------

  predicate Moves(s: Sys, x: Step, s': Sys) { Enabled(s, x) && s' == Next(s, x) }

  /**
   The exception is real: expiry is recorded while the platform waits, the publishing loop then marks its task
   as opening, and a report that is refused leaves the task so.
   */
  lemma {:induction false} RefusedReportLeavesTaskOpen(id: string, p: Platform, expiresAt: int, e: Event)
    returns (states: seq<Sys>, steps: seq<Step>)
    requires e.platform == p && e.status in {UserReview, Succeeded, Failed}
    ensures IsRun(states, steps) && |steps| == 5
    ensures steps[4] == AdapterMessage(id, e, None) && !Answer(states[4], steps[4]) && states[4].now >= expiresAt
    ensures var r := states[5].stored;
            r.queue.Some? && r.queue.value.tasks == [Task(p, OpeningTabs, None, None)] && Latest(r.events, p) == Some(Expired)
  {
    var h := Handoff(id, [p], expiresAt);
    var loop := Loop(h, 0, MarkOpening);
    var accepted, expired := [Event(p, Accepted)], [Event(p, Accepted), Event(p, Expired)];
    var s0 := Sys(Empty, [], expiresAt - 1);
    var s1 := Sys(Stored(Some(h), accepted, Some(Queue(id, None, [Task(p, Queued, None, None)]))), [loop], expiresAt - 1);
    var s2 := s1.(now := expiresAt);
    var s3 := s2.(stored := Stored(Some(h), expired, Some(Queue(id, None, [Task(p, Expired, None, None)]))));
    var opening := Stored(Some(h), expired, Some(Queue(id, Some(p), [Task(p, OpeningTabs, None, None)])));
    var s4 := Sys(opening, [loop.(stage := RecordOpening)], expiresAt);
    var x := AdapterMessage(id, e, None);
    AcceptsOne(s0, h, s1);
    ExpiresOne(s2, h, s3);
    OpensOne(s3, h, s4);
    RefusesOne(s4, h, x);
    states, steps := [s0, s1, s2, s3, s4, s4], [AcceptHandoff(h), Tick(expiresAt), Poll, RunLoop(0, false, 0), x];
    forall k: nat | k < 5 ensures StepAt(states, steps, k) {
      assert k == 0 || k == 1 || k == 2 || k == 3 || k == 4;
    }
  }

  lemma {:induction false} AcceptsOne(s: Sys, h: Handoff, s': Sys)
    requires s == Sys(Empty, [], h.expiresAt - 1) && |h.platforms| == 1
    requires s' == Sys(Stored(Some(h), [Event(h.platforms[0], Accepted)],
                              Some(Queue(h.executionId, None, [Task(h.platforms[0], Queued, None, None)]))),
                       [Loop(h, 0, MarkOpening)], s.now)
    ensures Moves(s, AcceptHandoff(h), s')
  {
    assert AcceptedEvents(h) == s'.stored.events;
    assert FreshQueue(h).tasks == s'.stored.queue.value.tasks;
    assert Accept(Empty, h) == (s'.stored, true);
  }

  lemma {:induction false} ExpiresOne(s: Sys, h: Handoff, s': Sys)
    requires |h.platforms| == 1 && s.now == h.expiresAt && s.stored.current == Some(h)
    requires s.stored.events == [Event(h.platforms[0], Accepted)]
    requires s.stored.queue == Some(Queue(h.executionId, None, [Task(h.platforms[0], Queued, None, None)]))
    requires s' == s.(stored := Stored(Some(h), s.stored.events + [Event(h.platforms[0], Expired)],
                                       Some(Queue(h.executionId, None, [Task(h.platforms[0], Expired, None, None)]))))
    ensures Moves(s, Poll, s')
  {
    var p := h.platforms[0];
    var updated := UpdatedTasks([Task(p, Queued, None, None)], p, Expired, None, None);
    assert updated == [Task(p, Expired, None, None)];
    LatestAppend([], Event(p, Accepted), p);
    assert [] + [Event(p, Accepted)] == s.stored.events;
    assert ExpirePlatforms(s.stored, h, s.stored.events, 0) == s.stored;
    assert ExpirePlatforms(s.stored, h, s.stored.events, 1) == ExpirePlatform(s.stored, h, s.stored.events, p);
    assert ActivePlatform(updated) == None;
  }

  lemma {:induction false} OpensOne(s: Sys, h: Handoff, s': Sys)
    requires |h.platforms| == 1 && s.loops == [Loop(h, 0, MarkOpening)]
    requires s.stored.queue == Some(Queue(h.executionId, None, [Task(h.platforms[0], Expired, None, None)]))
    requires s' == Sys(s.stored.(queue := Some(Queue(h.executionId, Some(h.platforms[0]),
                                                     [Task(h.platforms[0], OpeningTabs, None, None)]))),
                       [Loop(h, 0, RecordOpening)], s.now)
    ensures Moves(s, RunLoop(0, false, 0), s')
  {
    var p := h.platforms[0];
    var updated := UpdatedTasks([Task(p, Expired, None, None)], p, OpeningTabs, None, None);
    assert updated == [Task(p, OpeningTabs, None, None)];
  }

  lemma {:induction false} RefusesOne(s: Sys, h: Handoff, x: Step)
    requires |h.platforms| == 1 && s.now == h.expiresAt && s.stored.current == Some(h) && s.loops == [Loop(h, 0, RecordOpening)]
    requires s.stored.events == [Event(h.platforms[0], Accepted), Event(h.platforms[0], Expired)]
    requires x.AdapterMessage? && x.e.platform == h.platforms[0] && x.e.status in {UserReview, Succeeded, Failed}
    ensures Moves(s, x, s) && !Answer(s, x)
  {
    LatestAppend([Event(h.platforms[0], Accepted)], Event(h.platforms[0], Expired), h.platforms[0]);
    NothingToExpire(s.stored, h, s.stored.events, 1);
  }
}
