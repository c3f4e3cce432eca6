/**
 The extension's execution queue: acceptance of a handoff, the publishing loop, adapter
 events and expiry. Each handler of the background script, and each stretch of the
 publishing loop between two awaits, is one step; storage and callbacks do not fail it.
 */
module ExecutionQueue {
  import opened Common

  type Platform = string

  datatype Status =
    | Queued | HandoffIssued | Accepted | OpeningTabs | Injecting
    | UserReview | Submitted | Succeeded | Failed | Cancelled | Expired

  predicate Terminal(s: Status) { s in {UserReview, Submitted, Succeeded, Failed, Cancelled, Expired} }

  predicate IsTaskStatus(s: Status) { s != HandoffIssued && s != Accepted }

  /** Statuses that stop `expired` from being recorded, and those after which a late adapter event still counts. */
  predicate Suppresses(s: Status) { s in {UserReview, Submitted, Succeeded, Failed, Cancelled, Expired} }
  predicate AllowsLateEvent(s: Status) { s in {UserReview, Submitted, Succeeded, Failed, Cancelled} }

  datatype Handoff = Handoff(executionId: string, platforms: seq<Platform>, expiresAt: int)

  datatype Task = Task(platform: Platform, status: Status, tabId: Option<nat>, error: Option<string>)

  datatype Queue = Queue(executionId: string, active: Option<Platform>, tasks: seq<Task>)

  datatype Event = Event(platform: Platform, status: Status)

  /** The three session storage items. */
  datatype Stored = Stored(current: Option<Handoff>, events: seq<Event>, queue: Option<Queue>)

  const Empty: Stored := Stored(None, [], None)

  predicate IsExpired(h: Handoff, now: int) { h.expiresAt <= now }

  /** `getActiveQueuePlatform`: the first task that is neither queued nor terminal. */
  function ActivePlatform(tasks: seq<Task>): Option<Platform> {
    if tasks == [] then None
    else if !tasks[0].status.Queued? && !Terminal(tasks[0].status) then Some(tasks[0].platform)
    else ActivePlatform(tasks[1..])
  }

  predicate QueueActive(q: Option<Queue>) {
    q.Some? && exists k :: 0 <= k < |q.value.tasks| && !Terminal(q.value.tasks[k].status)
  }

  function FreshQueue(h: Handoff): Queue {
    Queue(h.executionId, None,
          seq(|h.platforms|, k requires 0 <= k < |h.platforms| => Task(h.platforms[k], Queued, None, None)))
  }

  /**
   An update overwrites the status and those optional fields it names; an update that names
   the error without having one clears it.
   */
  function UpdatedTask(t: Task, p: Platform, status: Status, tabId: Option<nat>, error: Option<Option<string>>): Task {
    if t.platform != p then t
    else Task(t.platform, status, if tabId.Some? then tabId else t.tabId, if error.Some? then error.value else t.error)
  }

  function UpdatedTasks(tasks: seq<Task>, p: Platform, status: Status, tabId: Option<nat>,
                        error: Option<Option<string>>): seq<Task> {
    seq(|tasks|, k requires 0 <= k < |tasks| => UpdatedTask(tasks[k], p, status, tabId, error))
  }

  /** `updateExecutionQueueTask`: the queue of another execution is left alone. */
  function UpdateTask(s: Stored, executionId: string, p: Platform, status: Status,
                      tabId: Option<nat>, error: Option<Option<string>>): Stored {
    if s.queue.None? || s.queue.value.executionId != executionId then s
    else
      var tasks := UpdatedTasks(s.queue.value.tasks, p, status, tabId, error);
      s.(queue := Some(s.queue.value.(tasks := tasks, active := ActivePlatform(tasks))))
  }

  function Append(s: Stored, e: Event): Stored { s.(events := s.events + [e]) }

  /** The newest event of a platform. */
  function Latest(events: seq<Event>, p: Platform): Option<Status> {
    if events == [] then None
    else if events[|events| - 1].platform == p then Some(events[|events| - 1].status)
    else Latest(events[..|events| - 1], p)
  }

  predicate Suppressed(events: seq<Event>, p: Platform) {
    Latest(events, p).Some? && Suppresses(Latest(events, p).value)
  }

  function ExpirePlatform(s: Stored, h: Handoff, snapshot: seq<Event>, p: Platform): Stored {
    if Suppressed(snapshot, p) then s
    else UpdateTask(Append(s, Event(p, Expired)), h.executionId, p, Expired, None, None)
  }

  /** The loop of `recordCurrentHandoffExpiration` over the first `k` platforms, deciding on the snapshot. */
  function ExpirePlatforms(s: Stored, h: Handoff, snapshot: seq<Event>, k: nat): Stored
    requires k <= |h.platforms|
  {
    if k == 0 then s else ExpirePlatform(ExpirePlatforms(s, h, snapshot, k - 1), h, snapshot, h.platforms[k - 1])
  }

  function RecordExpiration(s: Stored, now: int): Stored {
    if s.current.None? || !IsExpired(s.current.value, now) then s
    else ExpirePlatforms(s, s.current.value, s.events, |s.current.value.platforms|)
  }

  /** `shouldRejectExpiredAdapterEvent`. */
  predicate RejectsLate(s: Stored, p: Platform, now: int) {
    && s.current.Some? && IsExpired(s.current.value, now)
    && (Latest(s.events, p).None? || !AllowsLateEvent(Latest(s.events, p).value))
  }

  /** `handleAdapterEvent`, and whether it answers ok. */
  function AdapterEvent(s: Stored, executionId: string, e: Event, error: Option<string>, now: int): (Stored, bool) {
    var s1 := RecordExpiration(s, now);
    if RejectsLate(s, e.platform, now) then (s1, false)
    else if s.current.None? || s.current.value.executionId != executionId then (s1, false)
    else if e.platform !in s.current.value.platforms then (s1, false)
    else
      var s2 := Append(s1, e);
      (if IsTaskStatus(e.status) then UpdateTask(s2, executionId, e.platform, e.status, None, Some(error)) else s2, true)
  }

  function AcceptedEvents(h: Handoff): seq<Event> {
    seq(|h.platforms|, k requires 0 <= k < |h.platforms| => Event(h.platforms[k], Accepted))
  }

  /** `acceptValidatedHandoff` of a valid handoff, and whether it was accepted. */
  function Accept(s: Stored, h: Handoff): (Stored, bool) {
    if QueueActive(s.queue) then (s, false)
    else (Stored(Some(h), AcceptedEvents(h), Some(FreshQueue(h))), true)
  }

  // ---- The publishing loop ------------------------------------------------------------

  /** What the loop does next for its current platform. */
  datatype Stage =
    | MarkOpening | RecordOpening | CreateTab | MarkTab(tabId: nat) | AwaitTab(tabId: nat)
    | MarkInjecting(tabId: nat) | RecordInjecting | RunAdapter(reported: bool) | MarkFailed | RecordFailed

  datatype Loop = Loop(handoff: Handoff, index: nat, stage: Stage)

  predicate Running(l: Loop) { l.index < |l.handoff.platforms| }

  function Advance(l: Loop): Loop { l.(index := l.index + 1, stage := MarkOpening) }

  /** The stretches that can throw into the `catch` of `startPublishingTabs`. */
  predicate MayThrow(g: Stage) { g.CreateTab? || g.AwaitTab? || g.RunAdapter? }

  /** `sendMessage` answers only after the adapter's report was handled. */
  predicate LoopEnabled(l: Loop, throws: bool) {
    Running(l) && if throws then MayThrow(l.stage) else l.stage.RunAdapter? ==> l.stage.reported
  }

  function LoopStep(s: Stored, l: Loop, throws: bool, tabId: nat): (Stored, Loop)
    requires Running(l)
  {
    var id, p := l.handoff.executionId, l.handoff.platforms[l.index];
    if throws then (s, l.(stage := MarkFailed))
    else
      match l.stage
      case MarkOpening => (UpdateTask(s, id, p, OpeningTabs, None, None), l.(stage := RecordOpening))
      case RecordOpening => (Append(s, Event(p, OpeningTabs)), l.(stage := CreateTab))
      case CreateTab => (s, l.(stage := MarkTab(tabId)))
      case MarkTab(tab) => (UpdateTask(s, id, p, OpeningTabs, Some(tab), None), l.(stage := AwaitTab(tab)))
      case AwaitTab(tab) => (s, l.(stage := MarkInjecting(tab)))
      case MarkInjecting(tab) => (UpdateTask(s, id, p, Injecting, Some(tab), None), l.(stage := RecordInjecting))
      case RecordInjecting => (Append(s, Event(p, Injecting)), l.(stage := RunAdapter(false)))
      case RunAdapter(_) => (s, Advance(l))
      case MarkFailed => (UpdateTask(s, id, p, Failed, None, Some(Some("error"))), l.(stage := RecordFailed))
      case RecordFailed => (Append(s, Event(p, Failed)), Advance(l))
  }

  /** A handled adapter message lets the loop that waits for it continue. */
  function Reported(l: Loop, executionId: string, p: Platform): Loop {
    if Running(l) && l.stage.RunAdapter? && l.handoff.executionId == executionId && l.handoff.platforms[l.index] == p
    then l.(stage := RunAdapter(true)) else l
  }

  // ---- The background script ----------------------------------------------------------

  datatype Sys = Sys(stored: Stored, loops: seq<Loop>, now: int)

  datatype Step =
    | AcceptHandoff(h: Handoff)
    | AdapterMessage(executionId: string, e: Event, error: Option<string>)
    | Poll
    | RunLoop(k: nat, throws: bool, tabId: nat)
    | Tick(now: int)

  predicate DistinctPlatforms(h: Handoff) {
    forall i, j :: 0 <= i < j < |h.platforms| ==> h.platforms[i] != h.platforms[j]
  }

  /** Handoffs are valid, with distinct platforms and fresh ids; adapters report results. */
  predicate Enabled(s: Sys, x: Step) {
    match x
    case AcceptHandoff(h) =>
      && DistinctPlatforms(h) && h.platforms != [] && !IsExpired(h, s.now)
      && forall k :: 0 <= k < |s.loops| ==> s.loops[k].handoff.executionId != h.executionId
    case AdapterMessage(_, e, _) => e.status in {UserReview, Succeeded, Failed}
    case Poll => true
    case RunLoop(k, throws, _) => k < |s.loops| && LoopEnabled(s.loops[k], throws)
    case Tick(now) => s.now <= now
  }

  function Next(s: Sys, x: Step): Sys
    requires Enabled(s, x)
  {
    match x
    case AcceptHandoff(h) =>
      var (stored, accepted) := Accept(s.stored, h);
      if accepted then s.(stored := stored, loops := s.loops + [Loop(h, 0, MarkOpening)]) else s
    case AdapterMessage(id, e, error) =>
      s.(stored := AdapterEvent(s.stored, id, e, error, s.now).0,
         loops := seq(|s.loops|, k requires 0 <= k < |s.loops| => Reported(s.loops[k], id, e.platform)))
    case Poll => s.(stored := RecordExpiration(s.stored, s.now))
    case RunLoop(k, throws, tabId) =>
      var (stored, l) := LoopStep(s.stored, s.loops[k], throws, tabId);
      s.(stored := stored, loops := s.loops[k := l])
    case Tick(now) => s.(now := now)
  }

  predicate IsRun(states: seq<Sys>, steps: seq<Step>) {
    && |states| == |steps| + 1
    && states[0].stored == Empty && states[0].loops == []
    && forall k: nat | k < |steps| :: StepAt(states, steps, k)
  }

  predicate StepAt(states: seq<Sys>, steps: seq<Step>, k: nat)
    requires |states| == |steps| + 1 && k < |steps|
  {
    Enabled(states[k], steps[k]) && states[k + 1] == Next(states[k], steps[k])
  }

  predicate Open(s: Status) { s.OpeningTabs? || s.Injecting? }

  /** How the tasks of the current queue stand against its publishing loop. */
  predicate TasksOk(s: Stored, l: Loop) {
    && s.current == Some(l.handoff) && s.queue.Some? && DistinctPlatforms(l.handoff)
    && l.index <= |l.handoff.platforms|
    && var q := s.queue.value;
       && q.executionId == l.handoff.executionId
       && |q.tasks| == |l.handoff.platforms|
       && q.active == ActivePlatform(q.tasks)
       && (forall j :: 0 <= j < |q.tasks| ==> q.tasks[j].platform == l.handoff.platforms[j] && IsTaskStatus(q.tasks[j].status))
       && (forall j :: 0 <= j < |q.tasks| && j < l.index ==> Terminal(q.tasks[j].status))
       && (forall j :: l.index < j < |q.tasks| ==> !Open(q.tasks[j].status))
       && (Running(l) ==> CurrentOk(q.tasks[l.index].status, Latest(s.events, l.handoff.platforms[l.index]), l.stage))
  }

  /** The status of the loop's platform at each stage, unless a report or the expiry has ended it. */
  predicate StatusAt(status: Status, g: Stage) {
    || Terminal(status)
    || (g.MarkOpening? && status.Queued?)
    || ((g.RecordOpening? || g.CreateTab? || g.MarkTab? || g.AwaitTab? || g.MarkInjecting?) && status.OpeningTabs?)
    || ((g.RecordInjecting? || g.RunAdapter?) && status.Injecting?)
    || (g.MarkFailed? && (status.OpeningTabs? || status.Injecting?))
  }

  /** Besides, the platform is terminal once reported, and once its newest event says expired. */
  predicate CurrentOk(status: Status, latest: Option<Status>, g: Stage) {
    && StatusAt(status, g)
    && (g.RunAdapter? ==> (g.reported || latest == Some(Expired) ==> Terminal(status)))
  }

  /** The newest loop belongs to the current queue; the others to executions it has replaced. */
  predicate Inv(s: Sys) {
    && (s.loops == [] ==> s.stored == Empty)
    && (s.loops != [] ==> TasksOk(s.stored, s.loops[|s.loops| - 1]))
    && forall i, j :: 0 <= i < j < |s.loops| ==> s.loops[i].handoff.executionId != s.loops[j].handoff.executionId
  }

  // ---- Expiry -------------------------------------------------------------------------

  lemma {:induction false} LatestAppend(events: seq<Event>, e: Event, p: Platform)
    ensures Latest(events + [e], p) == if e.platform == p then Some(e.status) else Latest(events, p)
  {
    assert (events + [e])[..|events|] == events;
  }

  lemma {:induction false} ExpirePlatformLatest(s: Stored, h: Handoff, snapshot: seq<Event>, last: Platform, p: Platform)
    ensures var r := ExpirePlatform(s, h, snapshot, last);
            && r.current == s.current
            && Latest(r.events, p) == if p == last && !Suppressed(snapshot, p) then Some(Expired) else Latest(s.events, p)
  {
    LatestAppend(s.events, Event(last, Expired), p);
  }

  lemma {:induction false} ExpireLatest(s: Stored, h: Handoff, snapshot: seq<Event>, k: nat, p: Platform)
    requires k <= |h.platforms|
    ensures var r := ExpirePlatforms(s, h, snapshot, k);
            && r.current == s.current
            && Latest(r.events, p) == if p in h.platforms[..k] && !Suppressed(snapshot, p) then Some(Expired) else Latest(s.events, p)
  {
    if k > 0 {
      ExpireLatest(s, h, snapshot, k - 1, p);
      ExpirePlatformLatest(ExpirePlatforms(s, h, snapshot, k - 1), h, snapshot, h.platforms[k - 1], p);
      InPrefix(h.platforms, k, p);
    }
  }

  lemma {:induction false} InPrefix(platforms: seq<Platform>, k: nat, p: Platform)
    requires 0 < k <= |platforms|
    ensures p in platforms[..k] <==> p in platforms[..k - 1] || p == platforms[k - 1]
  {
    assert platforms[..k] == platforms[..k - 1] + [platforms[k - 1]];
  }

  lemma {:induction false} NothingToExpire(s: Stored, h: Handoff, snapshot: seq<Event>, k: nat)
    requires k <= |h.platforms| && forall p :: p in h.platforms ==> Suppressed(snapshot, p)
    ensures ExpirePlatforms(s, h, snapshot, k) == s
  {
    if k > 0 {
      NothingToExpire(s, h, snapshot, k - 1);
      assert h.platforms[k - 1] in h.platforms;
    }
  }

  /** After a recording every platform's newest event is a suppressing one, and another recording does nothing. */
  lemma {:induction false} ExpirationIsRecordedOnce(s: Stored, now: int, later: int)
    requires s.current.Some? && IsExpired(s.current.value, now) && now <= later
    ensures var r := RecordExpiration(s, now);
            && (forall p :: p in s.current.value.platforms ==> Suppressed(r.events, p))
            && RecordExpiration(r, later) == r
  {
    var h, r := s.current.value, RecordExpiration(s, now);
    assert h.platforms[..|h.platforms|] == h.platforms;
    forall p | p in h.platforms ensures Suppressed(r.events, p) {
      ExpireLatest(s, h, s.events, |h.platforms|, p);
    }
    ExpireLatest(s, h, s.events, |h.platforms|, "");
    NothingToExpire(r, h, r.events, |h.platforms|);
  }

  /** The queue mirrors the platforms of a handoff with distinct platforms. */
  predicate Mirrors(s: Stored, h: Handoff) {
    && s.queue.Some? && DistinctPlatforms(h)
    && s.queue.value.executionId == h.executionId
    && |s.queue.value.tasks| == |h.platforms|
    && s.queue.value.active == ActivePlatform(s.queue.value.tasks)
    && forall j :: 0 <= j < |h.platforms| ==> s.queue.value.tasks[j].platform == h.platforms[j]
  }

  /** Among tasks for distinct platforms an update changes the one it names. */
  lemma {:induction false} UpdatesOne(tasks: seq<Task>, platforms: seq<Platform>, j: nat, status: Status, tab: Option<nat>,
                                  error: Option<Option<string>>)
    requires |tasks| == |platforms| && j < |platforms|
    requires forall k :: 0 <= k < |tasks| ==> tasks[k].platform == platforms[k]
    requires forall i, k :: 0 <= i < k < |platforms| ==> platforms[i] != platforms[k]
    ensures var r := UpdatedTasks(tasks, platforms[j], status, tab, error);
            && r[j] == Task(platforms[j], status, if tab.Some? then tab else tasks[j].tabId,
                            if error.Some? then error.value else tasks[j].error)
            && (forall k :: 0 <= k < |r| ==> r[k].platform == platforms[k])
            && (forall k :: 0 <= k < |r| && k != j ==> r[k] == tasks[k])
  {
  }

  lemma {:induction false} UpdateMirrors(s: Stored, h: Handoff, j: nat, status: Status, tab: Option<nat>,
                                     error: Option<Option<string>>)
    requires Mirrors(s, h) && j < |h.platforms|
    ensures var r := UpdateTask(s, h.executionId, h.platforms[j], status, tab, error);
            && Mirrors(r, h) && r.current == s.current && r.events == s.events
            && r.queue.value.tasks[j] == Task(h.platforms[j], status, if tab.Some? then tab else s.queue.value.tasks[j].tabId,
                                              if error.Some? then error.value else s.queue.value.tasks[j].error)
            && forall i :: 0 <= i < |h.platforms| && i != j ==> r.queue.value.tasks[i] == s.queue.value.tasks[i]
  {
    UpdatesOne(s.queue.value.tasks, h.platforms, j, status, tab, error);
  }

  lemma {:induction false} ExpireOne(s: Stored, h: Handoff, j: nat)
    requires Mirrors(s, h) && j < |h.platforms|
    ensures var r := UpdateTask(Append(s, Event(h.platforms[j], Expired)), h.executionId, h.platforms[j], Expired, None, None);
            && Mirrors(r, h) && r.queue.value.tasks[j].status == Expired
            && forall i :: 0 <= i < |h.platforms| && i != j ==> r.queue.value.tasks[i] == s.queue.value.tasks[i]
  {
    var s1 := Append(s, Event(h.platforms[j], Expired));
    assert Mirrors(s1, h);
    UpdateMirrors(s1, h, j, Expired, None, None);
  }

  /** Recording expiry turns exactly the tasks of unsuppressed platforms into expired ones. */
  lemma {:induction false} ExpireTasks(s: Stored, h: Handoff, snapshot: seq<Event>, k: nat)
    requires k <= |h.platforms| && Mirrors(s, h)
    ensures var r := ExpirePlatforms(s, h, snapshot, k);
            && Mirrors(r, h)
            && (forall j :: 0 <= j < k && !Suppressed(snapshot, h.platforms[j]) ==> r.queue.value.tasks[j].status == Expired)
            && (forall j :: 0 <= j < k && Suppressed(snapshot, h.platforms[j]) ==> r.queue.value.tasks[j] == s.queue.value.tasks[j])
            && (forall j :: k <= j < |h.platforms| ==> r.queue.value.tasks[j] == s.queue.value.tasks[j])
  {
    if k > 0 {
      ExpireTasks(s, h, snapshot, k - 1);
      ExpireNext(ExpirePlatforms(s, h, snapshot, k - 1), h, snapshot, k - 1);
    }
  }

  lemma {:induction false} ExpireNext(s: Stored, h: Handoff, snapshot: seq<Event>, j: nat)
    requires j < |h.platforms| && Mirrors(s, h)
    ensures var r := ExpirePlatform(s, h, snapshot, h.platforms[j]);
            && Mirrors(r, h)
            && (if Suppressed(snapshot, h.platforms[j]) then r == s else r.queue.value.tasks[j].status == Expired)
            && (forall i :: 0 <= i < |h.platforms| && i != j ==> r.queue.value.tasks[i] == s.queue.value.tasks[i])
  {
    if !Suppressed(snapshot, h.platforms[j]) {
      ExpireOne(s, h, j);
    }
  }

  // ---- What every step keeps ----------------------------------------------------------

  /** Recording expiry, platform by platform. */
  lemma {:induction false} ExpirationEffect(s: Stored, l: Loop, now: int)
    requires TasksOk(s, l)
    ensures var r := RecordExpiration(s, now);
            && r.current == s.current && Mirrors(r, l.handoff)
            && forall j :: 0 <= j < |l.handoff.platforms| ==>
                 var p := l.handoff.platforms[j];
                 if IsExpired(l.handoff, now) && !Suppressed(s.events, p)
                 then r.queue.value.tasks[j].status == Expired && Latest(r.events, p) == Some(Expired)
                 else r.queue.value.tasks[j] == s.queue.value.tasks[j] && Latest(r.events, p) == Latest(s.events, p)
  {
    var h, n, r := l.handoff, |l.handoff.platforms|, RecordExpiration(s, now);
    if IsExpired(h, now) {
      assert h.platforms[..n] == h.platforms;
      ExpireTasks(s, h, s.events, n);
      ExpireLatest(s, h, s.events, n, "");
      forall j | 0 <= j < n
        ensures Latest(r.events, h.platforms[j]) ==
                if Suppressed(s.events, h.platforms[j]) then Latest(s.events, h.platforms[j]) else Some(Expired)
      {
        ExpireLatest(s, h, s.events, n, h.platforms[j]);
      }
    }
  }

  lemma {:induction false} ExpirationKeeps(s: Stored, l: Loop, now: int)
    requires TasksOk(s, l)
    ensures TasksOk(RecordExpiration(s, now), l)
  {
    ExpirationEffect(s, l, now);
    TasksStayOk(s, RecordExpiration(s, now), l);
  }

  /** Tasks that stay as they are, or expire with a newest event that says so. */
  lemma {:induction false} TasksStayOk(s: Stored, r: Stored, l: Loop)
    requires TasksOk(s, l) && r.current == s.current && Mirrors(r, l.handoff)
    requires forall j :: 0 <= j < |l.handoff.platforms| ==>
               var p := l.handoff.platforms[j];
               || (r.queue.value.tasks[j].status == Expired && Latest(r.events, p) == Some(Expired))
               || (r.queue.value.tasks[j] == s.queue.value.tasks[j] && Latest(r.events, p) == Latest(s.events, p))
    ensures TasksOk(r, l)
  {
  }

  // The loop of the current queue.

  lemma {:induction false} MarkKeeps(s: Stored, l: Loop, status: Status, tab: Option<nat>, error: Option<Option<string>>, g: Stage)
    requires TasksOk(s, l) && Running(l) && IsTaskStatus(status)
    requires !g.RunAdapter? && StatusAt(status, g)
    ensures TasksOk(UpdateTask(s, l.handoff.executionId, l.handoff.platforms[l.index], status, tab, error), l.(stage := g))
  {
    UpdateMirrors(s, l.handoff, l.index, status, tab, error);
  }

  lemma {:induction false} MarkingIs(s: Stored, l: Loop, tab: nat)
    requires Running(l) && Marks(l.stage)
    ensures var (id, p) := (l.handoff.executionId, l.handoff.platforms[l.index]);
            LoopStep(s, l, false, tab) ==
            match l.stage
            case MarkOpening => (UpdateTask(s, id, p, OpeningTabs, None, None), l.(stage := RecordOpening))
            case MarkTab(t) => (UpdateTask(s, id, p, OpeningTabs, Some(t), None), l.(stage := AwaitTab(t)))
            case MarkInjecting(t) => (UpdateTask(s, id, p, Injecting, Some(t), None), l.(stage := RecordInjecting))
            case _ => (UpdateTask(s, id, p, Failed, None, Some(Some("error"))), l.(stage := RecordFailed))
  {
  }

  lemma {:induction false} RecordKeeps(s: Stored, l: Loop, status: Status, g: Stage)
    requires TasksOk(s, l) && Running(l) && status != Expired
    requires StatusAt(s.queue.value.tasks[l.index].status, g) && (g.RunAdapter? ==> !g.reported)
    ensures TasksOk(Append(s, Event(l.handoff.platforms[l.index], status)), l.(stage := g))
  {
    var p := l.handoff.platforms[l.index];
    LatestAppend(s.events, Event(p, status), p);
  }

  lemma {:induction false} EndKeeps(s: Stored, l: Loop, e: Event)
    requires TasksOk(s, l) && Running(l) && l.stage.RecordFailed?
    ensures TasksOk(Append(s, e), Advance(l))
  {
  }

  lemma {:induction false} WaitKeeps(s: Stored, l: Loop, g: Stage)
    requires TasksOk(s, l) && !g.RunAdapter? && (Running(l) ==> StatusAt(s.queue.value.tasks[l.index].status, g))
    ensures TasksOk(s, l.(stage := g))
  {
  }

  lemma {:induction false} AdvanceKeeps(s: Stored, l: Loop)
    requires TasksOk(s, l) && Running(l) && l.stage == RunAdapter(true)
    ensures TasksOk(s, Advance(l))
  {
  }

  predicate Marks(g: Stage) { g.MarkOpening? || g.MarkTab? || g.MarkInjecting? || g.MarkFailed? }

  predicate Records(g: Stage) { g.RecordOpening? || g.RecordInjecting? || g.RecordFailed? }

  lemma {:induction false} MarkingKeeps(s: Stored, l: Loop, tab: nat)
    requires TasksOk(s, l) && Running(l) && Marks(l.stage)
    ensures TasksOk(LoopStep(s, l, false, tab).0, LoopStep(s, l, false, tab).1)
  {
    MarkingIs(s, l, tab);
    match l.stage
    case MarkOpening => MarkKeeps(s, l, OpeningTabs, None, None, RecordOpening);
    case MarkTab(t) => MarkKeeps(s, l, OpeningTabs, Some(t), None, AwaitTab(t));
    case MarkInjecting(t) => MarkKeeps(s, l, Injecting, Some(t), None, RecordInjecting);
    case MarkFailed => MarkKeeps(s, l, Failed, None, Some(Some("error")), RecordFailed);
  }

  lemma {:induction false} RecordingKeeps(s: Stored, l: Loop, tab: nat)
    requires TasksOk(s, l) && Running(l) && Records(l.stage)
    ensures TasksOk(LoopStep(s, l, false, tab).0, LoopStep(s, l, false, tab).1)
  {
    match l.stage
    case RecordOpening => RecordKeeps(s, l, OpeningTabs, CreateTab);
    case RecordInjecting => RecordKeeps(s, l, Injecting, RunAdapter(false));
    case RecordFailed => EndKeeps(s, l, Event(l.handoff.platforms[l.index], Failed));
  }

  lemma {:induction false} WaitingKeeps(s: Stored, l: Loop, tab: nat)
    requires TasksOk(s, l) && LoopEnabled(l, false) && !Marks(l.stage) && !Records(l.stage)
    ensures TasksOk(LoopStep(s, l, false, tab).0, LoopStep(s, l, false, tab).1)
  {
    match l.stage
    case CreateTab => WaitKeeps(s, l, MarkTab(tab));
    case AwaitTab(t) => WaitKeeps(s, l, MarkInjecting(t));
    case RunAdapter(_) => AdvanceKeeps(s, l);
  }

  lemma {:induction false} LoopKeeps(s: Stored, l: Loop, throws: bool, tab: nat)
    requires TasksOk(s, l) && LoopEnabled(l, throws)
    ensures TasksOk(LoopStep(s, l, throws, tab).0, LoopStep(s, l, throws, tab).1)
  {
    if throws {
      WaitKeeps(s, l, MarkFailed);
    } else if Marks(l.stage) {
      MarkingKeeps(s, l, tab);
    } else if Records(l.stage) {
      RecordingKeeps(s, l, tab);
    } else {
      WaitingKeeps(s, l, tab);
    }
  }

  // The loop of an execution that was replaced: its queue updates are ignored, its events are not.

  lemma {:induction false} ForeignEventKeeps(s: Stored, l: Loop, e: Event)
    requires TasksOk(s, l) && e.status != Expired
    ensures TasksOk(Append(s, e), l)
  {
    if Running(l) {
      LatestAppend(s.events, e, l.handoff.platforms[l.index]);
    }
  }

  lemma {:induction false} StaleLoopEffect(s: Stored, stale: Loop, throws: bool, tab: nat)
    requires Running(stale) && (s.queue.Some? ==> stale.handoff.executionId != s.queue.value.executionId)
    ensures var r := LoopStep(s, stale, throws, tab).0;
            r == s || exists e :: r == Append(s, e) && e.status != Expired
  {
  }

  lemma {:induction false} StaleLoopKeeps(s: Stored, l: Loop, stale: Loop, throws: bool, tab: nat)
    requires TasksOk(s, l) && LoopEnabled(stale, throws) && stale.handoff.executionId != l.handoff.executionId
    ensures TasksOk(LoopStep(s, stale, throws, tab).0, l)
  {
    StaleLoopEffect(s, stale, throws, tab);
    var r := LoopStep(s, stale, throws, tab).0;
    if r != s {
      var e :| r == Append(s, e) && e.status != Expired;
      ForeignEventKeeps(s, l, e);
    }
  }

  // Adapter events.

  /** A refused report still leaves the platform of a waiting loop terminal. */
  lemma {:induction false} RefusedKeeps(s: Stored, l: Loop, id: string, e: Event, error: Option<string>, now: int)
    requires TasksOk(s, l) && !AdapterEvent(s, id, e, error, now).1
    ensures TasksOk(AdapterEvent(s, id, e, error, now).0, Reported(l, id, e.platform))
  {
    ExpirationEffect(s, l, now);
    ExpirationKeeps(s, l, now);
    if Reported(l, id, e.platform) != l {
      assert l.handoff.platforms[l.index] in l.handoff.platforms;
      assert RejectsLate(s, e.platform, now);
      assert Terminal(RecordExpiration(s, now).queue.value.tasks[l.index].status);
    }
  }

  lemma {:induction false} TerminalUpdateKeeps(s: Stored, l: Loop, e: Event, error: Option<string>, j: nat)
    requires TasksOk(s, l) && Terminal(e.status) && e.status != Expired
    requires j < |l.handoff.platforms| && l.handoff.platforms[j] == e.platform
    ensures TasksOk(UpdateTask(Append(s, e), l.handoff.executionId, e.platform, e.status, None, Some(error)),
                    Reported(l, l.handoff.executionId, e.platform))
  {
    EventKeepsTasks(s, l, e);
    TerminalKeeps(Append(s, e), l, e.status, error, j);
  }

  /** An event that is not an expiry cannot contradict the current task. */
  lemma {:induction false} EventKeepsTasks(s: Stored, l: Loop, e: Event)
    requires TasksOk(s, l) && e.status != Expired
    ensures TasksOk(Append(s, e), l)
  {
    ForeignEventKeeps(s, l, e);
  }

  lemma {:induction false} TerminalKeeps(s: Stored, l: Loop, status: Status, error: Option<string>, j: nat)
    requires TasksOk(s, l) && Terminal(status) && j < |l.handoff.platforms|
    ensures TasksOk(UpdateTask(s, l.handoff.executionId, l.handoff.platforms[j], status, None, Some(error)),
                    Reported(l, l.handoff.executionId, l.handoff.platforms[j]))
  {
    TerminalStays(s, l, status, error, j);
    if Running(l) && l.handoff.platforms[l.index] == l.handoff.platforms[j] {
      assert j == l.index;
    }
  }

  lemma {:induction false} TerminalStays(s: Stored, l: Loop, status: Status, error: Option<string>, j: nat)
    requires TasksOk(s, l) && Terminal(status) && j < |l.handoff.platforms|
    ensures var r := UpdateTask(s, l.handoff.executionId, l.handoff.platforms[j], status, None, Some(error));
            TasksOk(r, l) && Terminal(r.queue.value.tasks[j].status)
  {
    UpdateMirrors(s, l.handoff, j, status, None, Some(error));
  }

  lemma {:induction false} AdapterKeeps(s: Stored, l: Loop, id: string, e: Event, error: Option<string>, now: int)
    requires TasksOk(s, l) && e.status in {UserReview, Succeeded, Failed}
    ensures TasksOk(AdapterEvent(s, id, e, error, now).0, Reported(l, id, e.platform))
  {
    if AdapterEvent(s, id, e, error, now).1 {
      ExpirationKeeps(s, l, now);
      var j :| 0 <= j < |l.handoff.platforms| && l.handoff.platforms[j] == e.platform;
      TerminalUpdateKeeps(RecordExpiration(s, now), l, e, error, j);
    } else {
      RefusedKeeps(s, l, id, e, error, now);
    }
  }

  lemma {:induction false} AcceptInv(s: Sys, x: Step)
    requires Enabled(s, x) && Inv(s) && x.AcceptHandoff?
    ensures Inv(Next(s, x))
  {
    FreshQueueOk(x.h, s.stored);
  }

  lemma {:induction false} AdapterInv(s: Sys, x: Step)
    requires Enabled(s, x) && Inv(s) && x.AdapterMessage?
    ensures Inv(Next(s, x))
  {
    var s' := Next(s, x);
    AdapterEffect(s, x);
    if s.loops == [] {
      EmptyIgnores(x.executionId, x.e, x.error, s.now);
    } else {
      AdapterKeeps(s.stored, s.loops[|s.loops| - 1], x.executionId, x.e, x.error, s.now);
    }
    SameHandoffs(s, s');
  }

  lemma {:induction false} AdapterEffect(s: Sys, x: Step)
    requires Enabled(s, x) && x.AdapterMessage?
    ensures var s' := Next(s, x);
            && s'.stored == AdapterEvent(s.stored, x.executionId, x.e, x.error, s.now).0
            && |s'.loops| == |s.loops|
            && forall k :: 0 <= k < |s.loops| ==>
                 && s'.loops[k] == Reported(s.loops[k], x.executionId, x.e.platform)
                 && s'.loops[k].handoff == s.loops[k].handoff
  {
  }

  lemma {:induction false} SameHandoffs(s: Sys, s': Sys)
    requires Inv(s) && |s'.loops| == |s.loops|
    requires forall k :: 0 <= k < |s.loops| ==> s'.loops[k].handoff == s.loops[k].handoff
    requires if s.loops == [] then s'.stored == Empty else TasksOk(s'.stored, s'.loops[|s.loops| - 1])
    ensures Inv(s')
  {
  }

  lemma {:induction false} EmptyIgnores(id: string, e: Event, error: Option<string>, now: int)
    ensures AdapterEvent(Empty, id, e, error, now).0 == Empty
  {
  }

  lemma {:induction false} LoopKeepsHandoff(s: Stored, l: Loop, throws: bool, tab: nat)
    requires Running(l)
    ensures LoopStep(s, l, throws, tab).1.handoff == l.handoff
  {
  }

  lemma {:induction false} RunInv(s: Sys, x: Step)
    requires Enabled(s, x) && Inv(s) && x.RunLoop?
    ensures Inv(Next(s, x))
  {
    var m := |s.loops| - 1;
    LoopKeepsHandoff(s.stored, s.loops[x.k], x.throws, x.tabId);
    if x.k == m {
      LoopKeeps(s.stored, s.loops[m], x.throws, x.tabId);
    } else {
      StaleLoopKeeps(s.stored, s.loops[m], s.loops[x.k], x.throws, x.tabId);
    }
  }

  lemma {:induction false} InvStep(s: Sys, x: Step)
    requires Enabled(s, x) && Inv(s)
    ensures Inv(Next(s, x))
  {
    match x
    case AcceptHandoff(_) => AcceptInv(s, x);
    case AdapterMessage(_, _, _) => AdapterInv(s, x);
    case RunLoop(_, _, _) => RunInv(s, x);
    case Tick(_) =>
    case Poll =>
      if s.loops != [] {
        ExpirationKeeps(s.stored, s.loops[|s.loops| - 1], s.now);
      }
  }

  lemma {:induction false} FreshQueueOk(h: Handoff, s: Stored)
    requires DistinctPlatforms(h) && h.platforms != []
    ensures Accept(s, h).1 ==> TasksOk(Accept(s, h).0, Loop(h, 0, MarkOpening))
  {
    AllQueued(FreshQueue(h).tasks);
  }

  lemma {:induction false} AllQueued(tasks: seq<Task>)
    requires forall k :: 0 <= k < |tasks| ==> !Open(tasks[k].status) && IsTaskStatus(tasks[k].status)
    ensures ActivePlatform(tasks) == None
  {
    if tasks != [] {
      AllQueued(tasks[1..]);
    }
  }

  lemma {:induction false} InvAlways(states: seq<Sys>, steps: seq<Step>, n: nat)
    requires IsRun(states, steps) && n < |states|
    ensures Inv(states[n])
  {
    if n > 0 {
      InvAlways(states, steps, n - 1);
      assert StepAt(states, steps, n - 1);
      InvStep(states[n - 1], steps[n - 1]);
    }
  }

  // ---- Results ------------------------------------------------------------------------

  /** `active_platform` is the platform of the first open task. */
  lemma {:induction false} ActiveIsFirstOpen(tasks: seq<Task>)
    requires forall k :: 0 <= k < |tasks| ==> IsTaskStatus(tasks[k].status)
    ensures ActivePlatform(tasks).None? <==> forall k :: 0 <= k < |tasks| ==> !Open(tasks[k].status)
    ensures ActivePlatform(tasks).Some? ==>
              exists k :: 0 <= k < |tasks| && Open(tasks[k].status) && ActivePlatform(tasks) == Some(tasks[k].platform)
                          && forall j :: 0 <= j < k ==> !Open(tasks[j].status)
  {
    if tasks != [] && !Open(tasks[0].status) {
      var rest := tasks[1..];
      ActiveIsFirstOpen(rest);
      assert forall k :: 0 < k < |tasks| ==> tasks[k] == rest[k - 1];
      if ActivePlatform(rest).Some? {
        var k :| 0 <= k < |rest| && Open(rest[k].status) && ActivePlatform(rest) == Some(rest[k].platform)
                 && forall j :: 0 <= j < k ==> !Open(rest[j].status);
        assert Open(tasks[k + 1].status) && forall j :: 0 <= j < k + 1 ==> !Open(tasks[j].status);
      }
    }
  }

  /**
   In every state of every run: the tasks list the accepted handoff's platforms in order,
   at most one is opening or injecting, and it is the one `active_platform` names.
   */
  lemma {:induction false} OneTaskAtATime(states: seq<Sys>, steps: seq<Step>, n: nat)
    requires IsRun(states, steps) && n < |states| && states[n].stored.queue.Some?
    ensures var stored := states[n].stored; var tasks := stored.queue.value.tasks;
            && stored.current.Some? && |tasks| == |stored.current.value.platforms|
            && (forall j :: 0 <= j < |tasks| ==> tasks[j].platform == stored.current.value.platforms[j])
            && (forall i, j :: 0 <= i < |tasks| && 0 <= j < |tasks| && Open(tasks[i].status) && Open(tasks[j].status) ==> i == j)
            && (forall j :: 0 <= j < |tasks| && Open(tasks[j].status) ==> stored.queue.value.active == Some(tasks[j].platform))
  {
    InvAlways(states, steps, n);
    var tasks := states[n].stored.queue.value.tasks;
    ActiveIsFirstOpen(tasks);
  }

  /**
   In every state of every run the tasks follow the current loop: those before its platform have ended, its own
   has the status of the loop's stage or has ended, and those after it are queued or have ended.
   */
  lemma {:induction false} TasksFollowLoop(states: seq<Sys>, steps: seq<Step>, n: nat, j: nat)
    requires IsRun(states, steps) && n < |states| && states[n].loops != []
    ensures var (s, l) := (states[n].stored, states[n].loops[|states[n].loops| - 1]);
            && s.queue.Some? && |s.queue.value.tasks| == |l.handoff.platforms|
            && (j < |l.handoff.platforms| ==>
                  var status := s.queue.value.tasks[j].status;
                  || status in {UserReview, Submitted, Succeeded, Failed, Cancelled, Expired}
                  || (j == l.index && StatusAt(status, l.stage))
                  || (j > l.index && status == Queued))
  {
    InvAlways(states, steps, n);
  }

  /** When the publishing loop of the current execution has ended, expired or not, the queue is inactive. */
  lemma {:induction false} LoopEndsInactive(states: seq<Sys>, steps: seq<Step>, n: nat, k: nat)
    requires IsRun(states, steps) && n < |states| && k < |states[n].loops| && !Running(states[n].loops[k])
    requires states[n].stored.queue.Some?
    requires states[n].loops[k].handoff.executionId == states[n].stored.queue.value.executionId
    ensures !QueueActive(states[n].stored.queue)
  {
    InvAlways(states, steps, n);
  }

  /** A loop whose execution was replaced changes neither the queue nor the current handoff. */
  lemma {:induction false} ReplacedLoopIsHarmless(states: seq<Sys>, steps: seq<Step>, n: nat)
    requires IsRun(states, steps) && n < |steps| && StepAt(states, steps, n)
    requires steps[n].RunLoop? && states[n].stored.queue.Some?
    requires states[n].loops[steps[n].k].handoff.executionId != states[n].stored.queue.value.executionId
    ensures states[n + 1].stored.queue == states[n].stored.queue && states[n + 1].stored.current == states[n].stored.current
  {
  }

  /** A report for another execution than the queue's does what recording expiry does by itself, and nothing more. */
  lemma {:induction false} ForeignReportIsIgnored(states: seq<Sys>, steps: seq<Step>, n: nat)
    requires IsRun(states, steps) && n < |steps| && steps[n].AdapterMessage? && states[n].stored.queue.Some?
    requires steps[n].executionId != states[n].stored.queue.value.executionId
    ensures states[n + 1].stored == RecordExpiration(states[n].stored, states[n].now)
  {
    InvAlways(states, steps, n);
    assert StepAt(states, steps, n);
  }

  // ---- The stored items, updated in place ---------------------------------------------

  class Background {
    var currentHandoff: Option<Handoff>
    var executionEvents: seq<Event>
    var executionQueue: Option<Queue>

    constructor ()
      ensures State() == Empty
    {
      currentHandoff, executionEvents, executionQueue := None, [], None;
    }

    function State(): Stored
      reads this
    {
      Stored(currentHandoff, executionEvents, executionQueue)
    }

    method AppendStoredExecutionEvent(e: Event)
      modifies this
      ensures State() == Append(old(State()), e)
    {
      executionEvents := executionEvents + [e];
    }

    method UpdateExecutionQueueTask(executionId: string, p: Platform, status: Status, tabId: Option<nat>,
                                    error: Option<Option<string>>)
      modifies this
      ensures State() == UpdateTask(old(State()), executionId, p, status, tabId, error)
      ensures currentHandoff == old(currentHandoff) && executionEvents == old(executionEvents)
      ensures old(executionQueue).None? || old(executionQueue).value.executionId != executionId ==>
                executionQueue == old(executionQueue)
      ensures old(executionQueue).Some? && old(executionQueue).value.executionId == executionId ==>
                && executionQueue.Some? && executionQueue.value.executionId == executionId
                && var (before, after) := (old(executionQueue).value.tasks, executionQueue.value.tasks);
                   && |after| == |before|
                   && forall k :: 0 <= k < |before| ==>
                        after[k] == if before[k].platform != p then before[k]
                                    else Task(p, status, if tabId.Some? then tabId else before[k].tabId,
                                              if error.Some? then error.value else before[k].error)
    {
      if executionQueue.None? || executionQueue.value.executionId != executionId {
        return;
      }
      var queue := executionQueue.value;
      var tasks := UpdatedTasks(queue.tasks, p, status, tabId, error);
      executionQueue := Some(queue.(active := ActivePlatform(tasks), tasks := tasks));
    }

    /** `recordCurrentHandoffExpiration`; the answer says whether anything was recorded. */
    method RecordCurrentHandoffExpiration(now: int) returns (recorded: bool)
      modifies this
      ensures State() == RecordExpiration(old(State()), now)
      ensures recorded <==> currentHandoff.Some? && IsExpired(currentHandoff.value, now)
                            && exists p :: p in currentHandoff.value.platforms && Latest(old(executionEvents), p) !in
                                 {Some(UserReview), Some(Submitted), Some(Succeeded), Some(Failed), Some(Cancelled), Some(Expired)}
    {
      recorded := false;
      if currentHandoff.None? || !IsExpired(currentHandoff.value, now) {
        return;
      }
      var handoff, snapshot := currentHandoff.value, executionEvents;
      for k := 0 to |handoff.platforms|
        invariant State() == ExpirePlatforms(old(State()), handoff, snapshot, k)
        invariant currentHandoff == Some(handoff)
        invariant recorded <==> exists p :: p in handoff.platforms[..k] && !Suppressed(snapshot, p)
      {
        var p := handoff.platforms[k];
        assert handoff.platforms[..k + 1] == handoff.platforms[..k] + [p];
        var latest := Latest(snapshot, p);
        if latest.Some? && Suppresses(latest.value) {
          assert Suppressed(snapshot, p);
          continue;
        }
        assert p in handoff.platforms[..k + 1] && !Suppressed(snapshot, p);
        AppendStoredExecutionEvent(Event(p, Expired));
        UpdateExecutionQueueTask(handoff.executionId, p, Expired, None, None);
        recorded := true;
      }
      assert handoff.platforms[..|handoff.platforms|] == handoff.platforms;
    }

    method HandleAdapterEvent(executionId: string, e: Event, error: Option<string>, now: int) returns (ok: bool)
      modifies this
      ensures (State(), ok) == AdapterEvent(old(State()), executionId, e, error, now)
      ensures ok <==>
                && old(currentHandoff).Some? && old(currentHandoff).value.executionId == executionId
                && e.platform in old(currentHandoff).value.platforms
                && (now < old(currentHandoff).value.expiresAt
                    || Latest(old(executionEvents), e.platform) in
                       {Some(UserReview), Some(Submitted), Some(Succeeded), Some(Failed), Some(Cancelled)})
    {
      var handoff := currentHandoff;
      var rejected := RejectsLate(State(), e.platform, now);
      var _ := RecordCurrentHandoffExpiration(now);
      if rejected {
        return false;
      }
      if handoff.None? || handoff.value.executionId != executionId {
        return false;
      }
      if e.platform !in handoff.value.platforms {
        return false;
      }
      AppendStoredExecutionEvent(e);
      if IsTaskStatus(e.status) {
        UpdateExecutionQueueTask(executionId, e.platform, e.status, None, Some(error));
      }
      return true;
    }

    method AcceptValidatedHandoff(handoff: Handoff) returns (accepted: bool)
      modifies this
      ensures (State(), accepted) == Accept(old(State()), handoff)
      ensures accepted <==> old(executionQueue).None? ||
                            forall k :: 0 <= k < |old(executionQueue).value.tasks| ==>
                              old(executionQueue).value.tasks[k].status in {UserReview, Submitted, Succeeded, Failed, Cancelled, Expired}
      ensures !accepted ==> State() == old(State())
      ensures accepted ==>
                && currentHandoff == Some(handoff) && |executionEvents| == |handoff.platforms|
                && executionQueue.Some? && executionQueue.value.executionId == handoff.executionId
                && executionQueue.value.active == None && |executionQueue.value.tasks| == |handoff.platforms|
                && forall k :: 0 <= k < |handoff.platforms| ==>
                     && executionEvents[k] == Event(handoff.platforms[k], Accepted)
                     && executionQueue.value.tasks[k] == Task(handoff.platforms[k], Queued, None, None)
    {
      if QueueActive(executionQueue) {
        return false;
      }
      currentHandoff := Some(handoff);
      executionEvents := [];
      executionQueue := Some(FreshQueue(handoff));
      for k := 0 to |handoff.platforms|
        invariant currentHandoff == Some(handoff) && executionQueue == Some(FreshQueue(handoff))
        invariant executionEvents == AcceptedEvents(handoff)[..k]
      {
        AppendStoredExecutionEvent(Event(handoff.platforms[k], Accepted));
      }
      assert AcceptedEvents(handoff)[..|handoff.platforms|] == AcceptedEvents(handoff);
      return true;
    }

    /** One stretch of `startPublishingTabs` between two awaits. */
    method RunPublishing(l: Loop, throws: bool, tabId: nat) returns (l': Loop)
      requires Running(l)
      modifies this
      ensures (State(), l') == LoopStep(old(State()), l, throws, tabId)
    {
      var id, p := l.handoff.executionId, l.handoff.platforms[l.index];
      if throws {
        return l.(stage := MarkFailed);
      }
      match l.stage
      case MarkOpening =>
        UpdateExecutionQueueTask(id, p, OpeningTabs, None, None);
        l' := l.(stage := RecordOpening);
      case RecordOpening =>
        AppendStoredExecutionEvent(Event(p, OpeningTabs));
        l' := l.(stage := CreateTab);
      case CreateTab =>
        l' := l.(stage := MarkTab(tabId));
      case MarkTab(tab) =>
        UpdateExecutionQueueTask(id, p, OpeningTabs, Some(tab), None);
        l' := l.(stage := AwaitTab(tab));
      case AwaitTab(tab) =>
        l' := l.(stage := MarkInjecting(tab));
      case MarkInjecting(tab) =>
        UpdateExecutionQueueTask(id, p, Injecting, Some(tab), None);
        l' := l.(stage := RecordInjecting);
      case RecordInjecting =>
        AppendStoredExecutionEvent(Event(p, Injecting));
        l' := l.(stage := RunAdapter(false));
      case RunAdapter(_) =>
        l' := Advance(l);
      case MarkFailed =>
        UpdateExecutionQueueTask(id, p, Failed, None, Some(Some("error")));
        l' := l.(stage := RecordFailed);
      case RecordFailed =>
        AppendStoredExecutionEvent(Event(p, Failed));
        l' := Advance(l);
    }
  }
}
