/**
 Read-your-writes routing: the sticky-writer middleware, the replica-lag monitor with its
 cached verdict, and the router that chooses between writer and replica.

 Times are nanoseconds on one clock shared by servers and clients. The replica's applied
 horizon is a non-decreasing function of time: at `t` it shows every commit up to
 `horizon(t)`. A probe that reports a lag is sound if the horizon is at most that far behind.
 */
module ReadRouting {
  import opened Common
  import opened StickyCookie

  const MILLISECOND: int := 1_000_000
  const SECOND: int := 1_000_000_000
  const DEFAULT_TTL: int := 10 * SECOND
  const MAX_TTL: int := 30 * SECOND

  function EffectiveTtl(configured: int): (ttl: int)
    ensures 0 < ttl <= MAX_TTL
    ensures 0 < configured <= MAX_TTL ==> ttl == configured
  {
    Min(if configured <= 0 then DEFAULT_TTL else configured, MAX_TTL)
  }

  // ---- The middleware -----------------------------------------------------------------

  predicate IsPrefix(p: string, s: string) { |p| <= |s| && s[..|p|] == p }

  function TrimSlashes(s: string): string {
    if s != "" && s[0] == '/' then TrimSlashes(s[1..])
    else if s != "" && s[|s| - 1] == '/' then TrimSlashes(s[..|s| - 1])
    else s
  }

  /** `requestPathMatchesStickyPath`, for a sticky path already trimmed of spaces. */
  predicate PathMatches(requestPath: string, stickyPath: string) {
    || stickyPath == "" || stickyPath == "/"
    || (var request := if IsPrefix("/", requestPath) then requestPath else "/" + requestPath;
        var sticky := "/" + TrimSlashes(stickyPath);
        request == sticky || IsPrefix(sticky + "/", request))
  }

  /** A successful request with a method that writes. */
  predicate Writes(status: int, verb: string) {
    200 <= status < 300 && verb in {"POST", "PUT", "PATCH", "DELETE"}
  }

  predicate ShouldRefresh(status: int, verb: string, requestPath: string, stickyPath: string) {
    && 200 <= status < 300
    && PathMatches(requestPath, stickyPath)
    && verb in {"POST", "PUT", "PATCH", "DELETE"}
  }

  /** The browser sends a cookie under its Path, by section 5.1.4 of RFC 6265. */
  predicate CookieSent(requestPath: string, cookiePath: string) {
    || requestPath == cookiePath
    || (IsPrefix(cookiePath, requestPath) && cookiePath != "" && cookiePath[|cookiePath| - 1] == '/')
    || IsPrefix(cookiePath + "/", requestPath)
  }

  /** `stickyWriterCookieUntil`, on the milliseconds parsed from a cookie with a valid signature. */
  function AcceptedUntil(untilMs: int, now: int): Option<int> {
    var until := untilMs * MILLISECOND;
    if untilMs <= 0 || until <= now || until > now + MAX_TTL then None else Some(until)
  }

  /** `stickyWriterActive`. */
  predicate StickyActive(until: Option<int>, now: int) { until.Some? && until.value > now }

  // ---- The lag monitor ----------------------------------------------------------------

  datatype Monitor = Monitor(maxLag: int, checkInterval: int, checkedAt: Option<int>, healthy: bool)

  predicate Cached(m: Monitor, now: int) {
    m.checkedAt.Some? && m.checkInterval > 0 && now - m.checkedAt.value < m.checkInterval
  }

  /** `Healthy` at clock reading `now`, given what the probe would report. */
  function Check(m: Monitor, now: int, lag: Option<int>): (Monitor, bool) {
    if m.maxLag <= 0 then (m, true)
    else if Cached(m, now) then (m, m.healthy)
    else
      var healthy := lag.Some? && lag.value <= m.maxLag;
      (m.(checkedAt := Some(now), healthy := healthy), healthy)
  }

  class ReplicaLagMonitor {
    const maxLag: int
    const checkInterval: int
    var checkedAt: Option<int>
    var healthy: bool

    constructor (maxLag: int, checkInterval: int)
      ensures State() == Monitor(maxLag, checkInterval, None, true)
    {
      this.maxLag, this.checkInterval := maxLag, checkInterval;
      checkedAt, healthy := None, true;
    }

    function State(): Monitor
      reads this
    {
      Monitor(maxLag, checkInterval, checkedAt, healthy)
    }

    method Healthy(now: int, lag: Option<int>) returns (ok: bool)
      modifies this
      ensures (State(), ok) == Check(old(State()), now, lag)
      ensures maxLag <= 0 ==> ok && State() == old(State())
      ensures maxLag > 0 && old(checkedAt).Some? && checkInterval > 0 && now < old(checkedAt).value + checkInterval ==>
                ok == old(healthy) && State() == old(State())
      ensures maxLag > 0 && (old(checkedAt).None? || checkInterval <= 0 || now >= old(checkedAt).value + checkInterval) ==>
                checkedAt == Some(now) && healthy == ok && (ok <==> lag.Some? && lag.value <= maxLag)
    {
      if maxLag <= 0 {
        return true;
      }
      if checkedAt.Some? && checkInterval > 0 && now - checkedAt.value < checkInterval {
        return healthy;
      }
      checkedAt := Some(now);
      healthy := lag.Some? && lag.value <= maxLag;
      return healthy;
    }
  }

  // ---- The router ---------------------------------------------------------------------

  datatype Consistency = StrongRead | ReadYourWrite | EventualRead | AnalyticsRead

  datatype Target = Writer | Replica

  predicate MayUseReplica(c: Consistency) { c.EventualRead? || c.AnalyticsRead? }

  class Router {
    const hasReader: bool
    const checker: ReplicaLagMonitor?

    constructor (hasReader: bool, checker: ReplicaLagMonitor?)
      ensures this.hasReader == hasReader && this.checker == checker
    {
      this.hasReader, this.checker := hasReader, checker;
    }

    /** `Reader`: the lag checker is asked only when nothing else already decides for the writer. */
    method Reader(c: Consistency, sticky: Option<int>, now: int, checkedNow: int, lag: Option<int>) returns (t: Target)
      modifies checker
      ensures c == StrongRead || c == ReadYourWrite || !hasReader || (sticky.Some? && now < sticky.value) ==>
                t == Writer && (checker != null ==> checker.State() == old(checker.State()))
      ensures (c == EventualRead || c == AnalyticsRead) && hasReader && (sticky.None? || sticky.value <= now) ==>
                if checker == null then t == Replica
                else var (m, ok) := Check(old(checker.State()), checkedNow, lag);
                     checker.State() == m && t == (if ok then Replica else Writer)
    {
      if MayUseReplica(c) && hasReader && !StickyActive(sticky, now) {
        var ok := true;
        if checker != null {
          ok := checker.Healthy(checkedNow, lag);
        }
        if ok {
          return Replica;
        }
      }
      return Writer;
    }
  }

  // ---- Client and system --------------------------------------------------------------

  /** The cookie as the browser keeps it: its value, and when Max-Age runs out. */
  datatype Jar = Jar(value: string, dropAt: int)

  datatype Params = Params(ttl: int, stickyPath: string, maxLag: int, checkInterval: int)

  /** `committed` lists the commit times of the client's successful writes, whatever their path; `stamped` when its last cookie was. */
  datatype Sys = Sys(params: Params, monitor: Monitor, jar: Option<Jar>, committed: seq<int>, stamped: int,
                     clientTime: int, sectionTime: int)

  datatype Step =
    | Probe(now: int, at: int, lag: Option<int>)      // another request asks the monitor
    | Write(status: int, verb: string, path: string, commit: int, stamp: int, received: int)
    | Read(consistency: Consistency, path: string, issued: int, arrived: int, decided: int, checked: int, at: int, lag: Option<int>, query: int)

  type Horizon = int -> int

  /** The replica is behind by no more than a reported lag. */
  ghost predicate Sound(at: int, lag: Option<int>, horizon: Horizon) {
    lag.Some? ==> lag.value >= at - horizon(at)
  }

  /**
   The times inside one step are in order, a client acts in sequence and receives its
   cookies in the order they were stamped, and the monitor's lock serialises its sections.
   */
  ghost predicate Enabled(s: Sys, x: Step, horizon: Horizon) {
    match x
    case Probe(now, at, lag) => now <= at && s.sectionTime <= at && Sound(at, lag, horizon)
    case Write(_, _, path, commit, stamp, received) =>
      IsPrefix("/", path) &&
      s.clientTime <= commit <= stamp <= received && (stamp + s.params.ttl) / MILLISECOND <= INT64_MAX
    case Read(_, path, issued, arrived, decided, checked, at, lag, query) =>
      && IsPrefix("/", path)
      && s.clientTime <= issued <= arrived <= decided <= checked <= at <= query
      && s.sectionTime <= at && Sound(at, lag, horizon)
  }

  /** The sticky deadline the server sees on a request that is sent and arrives at these times. */
  function SeenDeadline(s: Sys, path: string, issued: int, arrived: int, sign: Signer): Option<int> {
    if s.jar.None? || issued >= s.jar.value.dropAt || !CookieSent(path, s.params.stickyPath) then None
    else
      var untilMs := ParseUntil(s.jar.value.value, sign);
      if untilMs.None? then None else AcceptedUntil(untilMs.value, arrived)
  }

  predicate AsksMonitor(s: Sys, x: Step, sign: Signer)
    requires x.Read?
  {
    MayUseReplica(x.consistency) && !StickyActive(SeenDeadline(s, x.path, x.issued, x.arrived, sign), x.decided)
  }

  /** The read goes to the replica. */
  predicate FromReplica(s: Sys, x: Step, sign: Signer)
    requires x.Read?
  {
    AsksMonitor(s, x, sign) && Check(s.monitor, x.checked, x.lag).1
  }

  /** `refreshStickyWriter`, as the browser stores it on receipt. */
  function RefreshedJar(ttl: int, stamp: int, received: int, sign: Signer): Jar
    requires stamp + ttl >= 0
  {
    Jar(SignedValue((stamp + ttl) / MILLISECOND, sign), received + ttl / SECOND * SECOND)
  }

  /** A successful write reaches the client with its new cookie. */
  function Refreshed(s: Sys, commit: int, stamp: int, received: int, sign: Signer): Sys
    requires stamp + s.params.ttl >= 0
  {
    s.(jar := Some(RefreshedJar(s.params.ttl, stamp, received, sign)), committed := s.committed + [commit],
       stamped := stamp, clientTime := received)
  }

  function Next(s: Sys, x: Step, sign: Signer): Sys
    requires x.Write? ==> x.stamp + s.params.ttl >= 0
  {
    match x
    case Probe(now, at, lag) =>
      s.(monitor := Check(s.monitor, now, lag).0, sectionTime := at)
    case Write(status, verb, path, commit, stamp, received) =>
      if ShouldRefresh(status, verb, path, s.params.stickyPath)
      then Refreshed(s, commit, stamp, received, sign)
      else s.(committed := if Writes(status, verb) then s.committed + [commit] else s.committed, clientTime := received)
    case Read(_, _, _, _, _, checked, at, lag, query) =>
      if AsksMonitor(s, x, sign)
      then s.(monitor := Check(s.monitor, checked, lag).0, sectionTime := at, clientTime := query)
      else s.(clientTime := query)
  }

  predicate Initial(s: Sys) {
    && s.jar.None? && s.committed == [] && s.clientTime > 0 && s.params.ttl > 0
    && s.monitor == Monitor(s.params.maxLag, s.params.checkInterval, None, true)
  }

  ghost predicate IsRun(states: seq<Sys>, steps: seq<Step>, horizon: Horizon, sign: Signer) {
    && |states| == |steps| + 1
    && Initial(states[0])
    && forall k: nat | k < |steps| :: StepAt(states, steps, horizon, sign, k)
  }

  ghost predicate StepAt(states: seq<Sys>, steps: seq<Step>, horizon: Horizon, sign: Signer, k: nat)
    requires |states| == |steps| + 1 && k < |steps|
  {
    && Enabled(states[k], steps[k], horizon)
    && (steps[k].Write? ==> steps[k].stamp + states[k].params.ttl >= 0)
    && states[k + 1] == Next(states[k], steps[k], sign)
  }

  /** A write that refreshes the cookie, or a read that carries it. */
  predicate InScope(x: Step, stickyPath: string) {
    match x
    case Probe(_, _, _) => true
    case Write(status, verb, path, _, _, _) => Writes(status, verb) ==> PathMatches(path, stickyPath)
    case Read(c, path, _, _, _, _, _, _, _) => MayUseReplica(c) ==> CookieSent(path, stickyPath)
  }

  predicate Scoped(steps: seq<Step>, stickyPath: string) {
    forall k: nat | k < |steps| :: InScope(steps[k], stickyPath)
  }

  ghost predicate Advances(horizon: Horizon) { forall a, b :: a <= b ==> horizon(a) <= horizon(b) }

  /** The read shows what was committed at `w`: the writer has every commit so far, the replica those up to its horizon. */
  predicate Shows(s: Sys, x: Step, w: int, horizon: Horizon, sign: Signer)
    requires x.Read?
  {
    w <= if FromReplica(s, x, sign) then horizon(x.query) else x.query
  }

  /** The read sees every successful write the client completed before it. */
  predicate SeesOwnWrites(s: Sys, x: Step, horizon: Horizon, sign: Signer)
    requires x.Read?
  {
    forall w :: w in s.committed ==> Shows(s, x, w, horizon, sign)
  }

  /** A cached healthy verdict bounds how far the replica can be behind the moment of the check. */
  predicate MonitorOk(s: Sys, horizon: Horizon) {
    && s.monitor.maxLag == s.params.maxLag && s.monitor.checkInterval == s.params.checkInterval
    && (s.monitor.healthy && s.monitor.checkedAt.Some? ==>
          horizon(s.sectionTime) >= s.monitor.checkedAt.value - s.monitor.maxLag)
  }

  predicate ClientOk(s: Sys, sign: Signer) {
    && s.clientTime > 0
    && (s.committed != [] ==>
          && s.jar.Some? && 0 < s.stamped <= s.clientTime
          && ParseUntil(s.jar.value.value, sign) == Some((s.stamped + s.params.ttl) / MILLISECOND)
          && s.stamped + s.params.ttl <= s.jar.value.dropAt)
    && forall w :: w in s.committed ==> w <= s.stamped
  }

  /** A time to live as the middleware normalises it, in whole seconds. */
  predicate WholeTtl(ttl: int) { SECOND <= ttl <= MAX_TTL && ttl % SECOND == 0 }

  /** Any setting in whole seconds is normalised to such a time to live. */
  lemma {:induction false} SettingIsWhole(configured: int)
    requires configured % SECOND == 0
    ensures WholeTtl(EffectiveTtl(configured))
  {
  }

  lemma {:induction false} StepKeepsMonitor(s: Sys, x: Step, horizon: Horizon, sign: Signer)
    requires Advances(horizon) && Enabled(s, x, horizon) && s.params.maxLag > 0 && MonitorOk(s, horizon)
    requires x.Write? ==> x.stamp + s.params.ttl >= 0
    ensures MonitorOk(Next(s, x, sign), horizon)
  {
    assert horizon(s.sectionTime) <= horizon(Next(s, x, sign).sectionTime);
  }

  lemma {:induction false} RefreshedJarReads(ttl: int, stamp: int, received: int, sign: Signer)
    requires Printable(sign) && WholeTtl(ttl) && 0 < stamp <= received && (stamp + ttl) / MILLISECOND <= INT64_MAX
    ensures var jar := RefreshedJar(ttl, stamp, received, sign);
            ParseUntil(jar.value, sign) == Some((stamp + ttl) / MILLISECOND) && jar.dropAt == received + ttl
  {
    CookieRoundTrip((stamp + ttl) / MILLISECOND, sign);
  }

  lemma {:induction false} StepKeepsClient(s: Sys, x: Step, horizon: Horizon, sign: Signer)
    requires Printable(sign) && Enabled(s, x, horizon) && ClientOk(s, sign) && WholeTtl(s.params.ttl)
    requires x.Write? ==> x.stamp + s.params.ttl >= 0
    requires InScope(x, s.params.stickyPath)
    ensures ClientOk(Next(s, x, sign), sign)
  {
    if x.Write? {
      RefreshKeepsClient(s, x.commit, x.stamp, x.received, sign);
    }
  }

  lemma {:induction false} RefreshKeepsClient(s: Sys, commit: int, stamp: int, received: int, sign: Signer)
    requires Printable(sign) && ClientOk(s, sign) && WholeTtl(s.params.ttl)
    requires s.clientTime <= commit <= stamp <= received && (stamp + s.params.ttl) / MILLISECOND <= INT64_MAX
    ensures ClientOk(Refreshed(s, commit, stamp, received, sign), sign)
  {
    RefreshedJarReads(s.params.ttl, stamp, received, sign);
    var s' := Refreshed(s, commit, stamp, received, sign);
    assert forall w :: w in s'.committed ==> w in s.committed || w == commit;
  }

  lemma {:induction false} RunKeeps(states: seq<Sys>, steps: seq<Step>, horizon: Horizon, sign: Signer, n: nat)
    requires Printable(sign) && Advances(horizon) && IsRun(states, steps, horizon, sign) && n < |states|
    requires states[0].params.maxLag > 0 && WholeTtl(states[0].params.ttl) && Scoped(steps, states[0].params.stickyPath)
    ensures MonitorOk(states[n], horizon) && ClientOk(states[n], sign) && states[n].params == states[0].params
  {
    if n > 0 {
      RunKeeps(states, steps, horizon, sign, n - 1);
      assert StepAt(states, steps, horizon, sign, n - 1) && InScope(steps[n - 1], states[0].params.stickyPath);
      StepKeepsMonitor(states[n - 1], steps[n - 1], horizon, sign);
      StepKeepsClient(states[n - 1], steps[n - 1], horizon, sign);
    }
  }

  /** The client's writes lie in its past. */
  predicate WritesArePast(s: Sys) { forall w :: w in s.committed ==> w <= s.clientTime }

  lemma {:induction false} StepKeepsPast(s: Sys, x: Step, horizon: Horizon, sign: Signer)
    requires Enabled(s, x, horizon) && WritesArePast(s) && (x.Write? ==> x.stamp + s.params.ttl >= 0)
    ensures WritesArePast(Next(s, x, sign))
  {
  }

  lemma {:induction false} PastAlways(states: seq<Sys>, steps: seq<Step>, horizon: Horizon, sign: Signer, n: nat)
    requires IsRun(states, steps, horizon, sign) && n < |states|
    ensures WritesArePast(states[n])
  {
    if n > 0 {
      PastAlways(states, steps, horizon, sign, n - 1);
      assert StepAt(states, steps, horizon, sign, n - 1);
      StepKeepsPast(states[n - 1], steps[n - 1], horizon, sign);
    }
  }

  /**
   In every run a strong or read-your-write read shows every commit before it, the client's own among them,
   whatever the time to live, the lag, the paths and the cookie; and it leaves the monitor alone.
   */
  lemma {:induction false} StrongReadsSeeEverything(states: seq<Sys>, steps: seq<Step>, horizon: Horizon, sign: Signer, n: nat)
    requires IsRun(states, steps, horizon, sign) && n < |steps| && steps[n].Read?
    requires steps[n].consistency == StrongRead || steps[n].consistency == ReadYourWrite
    ensures forall w :: w <= steps[n].query ==> Shows(states[n], steps[n], w, horizon, sign)
    ensures SeesOwnWrites(states[n], steps[n], horizon, sign)
    ensures states[n + 1].monitor == states[n].monitor
  {
    PastAlways(states, steps, horizon, sign, n);
    assert StepAt(states, steps, horizon, sign, n);
  }

  /** A replica read comes no earlier than the deadline the last cookie carries. */
  lemma {:induction false} ReplicaReadIsLate(s: Sys, x: Step, horizon: Horizon, sign: Signer)
    requires x.Read? && Enabled(s, x, horizon) && ClientOk(s, sign) && s.committed != []
    requires WholeTtl(s.params.ttl) && CookieSent(x.path, s.params.stickyPath) && AsksMonitor(s, x, sign)
    ensures x.decided >= s.stamped + s.params.ttl - (MILLISECOND - 1)
  {
    var untilMs := (s.stamped + s.params.ttl) / MILLISECOND;
    assert untilMs * MILLISECOND > s.stamped + s.params.ttl - MILLISECOND;
    assert untilMs * MILLISECOND <= x.arrived + MAX_TTL;
  }

  lemma {:induction false} ReplicaIsRecent(s: Sys, x: Step, horizon: Horizon, sign: Signer)
    requires x.Read? && Advances(horizon) && Enabled(s, x, horizon) && MonitorOk(s, horizon) && s.params.maxLag > 0
    requires FromReplica(s, x, sign)
    ensures horizon(x.query) >= x.decided - s.params.maxLag - VerdictAge(s.params.checkInterval)
  {
    assert horizon(s.sectionTime) <= horizon(x.at) <= horizon(x.query);
  }

  /** The greatest age of a verdict that is still used. */
  function VerdictAge(checkInterval: int): int { if checkInterval > 0 then checkInterval - 1 else 0 }

  /** A monitor is active, and the sticky time covers the lag, the age of a verdict and the cookie's rounding. */
  predicate Covers(p: Params) {
    p.maxLag > 0 && p.ttl >= p.maxLag + VerdictAge(p.checkInterval) + MILLISECOND - 1
  }

  /** Read-your-writes over every run of writes and reads under the sticky path and other requests' probes. */
  lemma {:induction false} ReadsOwnWrites(states: seq<Sys>, steps: seq<Step>, horizon: Horizon, sign: Signer, n: nat)
    requires Printable(sign) && Advances(horizon) && IsRun(states, steps, horizon, sign)
    requires n < |steps| && steps[n].Read? && Scoped(steps, states[0].params.stickyPath)
    requires WholeTtl(states[0].params.ttl) && Covers(states[0].params)
    ensures SeesOwnWrites(states[n], steps[n], horizon, sign)
  {
    RunKeeps(states, steps, horizon, sign, n);
    assert StepAt(states, steps, horizon, sign, n) && InScope(steps[n], states[0].params.stickyPath);
    PastAlways(states, steps, horizon, sign, n);
    var s, x := states[n], steps[n];
    if FromReplica(s, x, sign) && s.committed != [] {
      ReplicaReadIsLate(s, x, horizon, sign);
      ReplicaIsRecent(s, x, horizon, sign);
    }
  }

  /** A successful write on a path in scope, and nothing else, gives the client a new cookie. */
  lemma {:induction false} RefreshesExactly(s: Sys, x: Step, sign: Signer)
    requires x.Write? && x.stamp + s.params.ttl >= 0
    ensures Next(s, x, sign).jar ==
            if 200 <= x.status <= 299 && PathMatches(x.path, s.params.stickyPath)
               && (x.verb == "POST" || x.verb == "PUT" || x.verb == "PATCH" || x.verb == "DELETE")
            then Some(Jar(SignedValue((x.stamp + s.params.ttl) / 1_000_000, sign), x.received + s.params.ttl / SECOND * SECOND))
            else s.jar
  {
  }

  /** No cookie keeps reads at the writer for more than half a minute. */
  lemma {:induction false} DeadlineIsNear(s: Sys, path: string, issued: int, arrived: int, sign: Signer)
    ensures var until := SeenDeadline(s, path, issued, arrived, sign);
            until.Some? ==> arrived < until.value <= arrived + 30_000_000_000
  {
  }

  predicate OnlySlashes(s: string) { forall k | 0 <= k < |s| :: s[k] == '/' }

  /** What is trimmed on either side are slashes, and none is left at either end. */
  lemma {:induction false} TrimsSlashes(s: string) returns (left: string, right: string)
    ensures s == left + TrimSlashes(s) + right && OnlySlashes(left) && OnlySlashes(right)
    ensures var t := TrimSlashes(s); t != "" ==> t[0] != '/' && t[|t| - 1] != '/'
  {
    if s != "" && s[0] == '/' {
      left, right := TrimsSlashes(s[1..]);
      assert s == [s[0]] + s[1..];
      left := ['/'] + left;
    } else if s != "" && s[|s| - 1] == '/' {
      left, right := TrimsSlashes(s[..|s| - 1]);
      assert s == s[..|s| - 1] + [s[|s| - 1]];
      right := right + ['/'];
    } else {
      left, right := "", "";
    }
  }

  /** Where a successful write refreshes the cookie and where the browser sends it are the same paths. */
  ghost predicate SamePaths(stickyPath: string) {
    forall path: string | IsPrefix("/", path) :: PathMatches(path, stickyPath) <==> CookieSent(path, stickyPath)
  }

  /** Exactly when the sticky path has no slashes to trim but its first. */
  lemma {:induction false} RefreshedWhereSent(stickyPath: string)
    requires IsPrefix("/", stickyPath)
    ensures SamePaths(stickyPath) <==> TrimSlashes(stickyPath) == stickyPath[1..]
  {
    var left, right := TrimsSlashes(stickyPath[1..]);
    var trimmed := TrimSlashes(stickyPath);
    if trimmed == stickyPath[1..] {
      assert stickyPath == "/" + trimmed;
    } else {
      var path := "/" + trimmed;
      assert |path| < |stickyPath|;
      assert PathMatches(path, stickyPath) && !CookieSent(path, stickyPath) && IsPrefix("/", path);
    }
  }

  // ---- The bound is exact -------------------------------------------------------------

  /** In every run with these parameters, on any paths or on paths in scope only. */
  ghost predicate AlwaysReadsOwnWrites(p: Params, sign: Signer, anywhere: bool) {
    forall states: seq<Sys>, steps: seq<Step>, horizon: Horizon, n: nat
      {:trigger IsRun(states, steps, horizon, sign), steps[n]} ::
      Advances(horizon) && IsRun(states, steps, horizon, sign) && states[0].params == p
      && (anywhere || Scoped(steps, p.stickyPath)) && n < |steps| && steps[n].Read?
      ==> SeesOwnWrites(states[n], steps[n], horizon, sign)
  }

  const STAMP: int := 2 * MILLISECOND - 1

  /** A write stamped one nanosecond before a full millisecond; its deadline is rounded down the most. */
  function WorstWrite(p: Params): Step {
    Write(200, "POST", "/" + TrimSlashes(p.stickyPath), STAMP, STAMP, STAMP)
  }

  function Deadline(p: Params): int { STAMP + p.ttl - (MILLISECOND - 1) }

  /** A read at the rounded deadline, or at the end of Max-Age when no monitor is active. */
  function WorstRead(p: Params): Step {
    var d := if p.maxLag > 0 then Deadline(p) else STAMP + p.ttl;
    Read(EventualRead, p.stickyPath, d, d, d, d, d, if p.maxLag <= 0 || p.checkInterval > 0 then None else Some(p.maxLag), d)
  }

  /** The oldest moment a still usable verdict was taken at. */
  function WorstCheck(p: Params): int { Deadline(p) - VerdictAge(p.checkInterval) }

  lemma {:induction false} WorstPathMatches(stickyPath: string)
    ensures PathMatches("/" + TrimSlashes(stickyPath), stickyPath)
  {
  }

  lemma {:induction false} WorstWriteState(s: Sys, sign: Signer)
    requires Printable(sign) && WholeTtl(s.params.ttl)
    ensures var s' := Next(s, WorstWrite(s.params), sign);
            s' == s.(jar := s'.jar, committed := s.committed + [STAMP], stamped := STAMP, clientTime := STAMP)
            && s'.jar == Some(RefreshedJar(s.params.ttl, STAMP, STAMP, sign))
  {
    WorstPathMatches(s.params.stickyPath);
  }

  lemma {:induction false} WorstReadRoutes(s: Sys, sign: Signer)
    requires Printable(sign) && WholeTtl(s.params.ttl)
    requires s.jar == Some(RefreshedJar(s.params.ttl, STAMP, STAMP, sign))
    ensures AsksMonitor(s, WorstRead(s.params), sign)
  {
    var ttl := s.params.ttl;
    RefreshedJarReads(ttl, STAMP, STAMP, sign);
    WorstDeadline(ttl, if s.params.maxLag > 0 then Deadline(s.params) else STAMP + ttl);
  }

  /** The deadline is rounded down to a whole millisecond, which the worst read does not precede. */
  lemma {:induction false} WorstDeadline(ttl: int, at: int)
    requires WholeTtl(ttl) && at >= STAMP + ttl - (MILLISECOND - 1)
    ensures !StickyActive(AcceptedUntil((STAMP + ttl) / MILLISECOND, at), at)
  {
    assert (STAMP + ttl) / MILLISECOND * MILLISECOND == STAMP + ttl - (MILLISECOND - 1);
  }

  lemma {:induction false} RunOf(states: seq<Sys>, steps: seq<Step>, horizon: Horizon, sign: Signer)
    requires 2 <= |steps| <= 3 && |states| == |steps| + 1 && Initial(states[0])
    requires StepAt(states, steps, horizon, sign, 0) && StepAt(states, steps, horizon, sign, 1)
    requires |steps| == 3 ==> StepAt(states, steps, horizon, sign, 2)
    ensures IsRun(states, steps, horizon, sign)
  {
    forall k: nat | k < |steps| ensures StepAt(states, steps, horizon, sign, k) {
      assert k == 0 || k == 1 || k == 2;
    }
  }

  lemma {:induction false} MissesWrite(s: Sys, x: Step, horizon: Horizon, sign: Signer)
    requires x.Read? && AsksMonitor(s, x, sign) && Check(s.monitor, x.checked, x.lag).1
    requires s.committed == [STAMP] && horizon(x.query) < STAMP
    ensures !SeesOwnWrites(s, x, horizon, sign)
  {
    assert STAMP in s.committed;
  }

  /** Checks, writes and reads at these parameters are steps of a run in scope. */
  lemma {:induction false} WorstScope(p: Params)
    requires IsPrefix("/", p.stickyPath)
    ensures InScope(WorstWrite(p), p.stickyPath) && InScope(WorstRead(p), p.stickyPath)
    ensures IsPrefix("/", WorstWrite(p).path)
  {
    WorstPathMatches(p.stickyPath);
  }

  /** A run of one check, one write and one read, or without the check. */
  lemma {:induction false} Witness(states: seq<Sys>, steps: seq<Step>, horizon: Horizon, p: Params, sign: Signer, n: nat, anywhere: bool)
    requires IsRun(states, steps, horizon, sign) && Advances(horizon) && states[0].params == p
    requires anywhere || Scoped(steps, p.stickyPath)
    requires n < |steps| && steps[n].Read? && !SeesOwnWrites(states[n], steps[n], horizon, sign)
    ensures !AlwaysReadsOwnWrites(p, sign, anywhere)
  {
  }

  /** With a caching monitor: check, write, and read while the verdict is still used. */
  lemma {:induction false} CachedVerdictFails(p: Params, sign: Signer, anywhere: bool)
    requires Printable(sign) && WholeTtl(p.ttl) && IsPrefix("/", p.stickyPath)
    requires !Covers(p) && p.maxLag > 0 && p.checkInterval > 0
    ensures !AlwaysReadsOwnWrites(p, sign, anywhere)
  {
    var at, behind := WorstCheck(p), WorstCheck(p) - p.maxLag;
    var horizon: Horizon := (t: int) => behind;
    var s0 := Sys(p, Monitor(p.maxLag, p.checkInterval, None, true), None, [], 0, 1, Min(0, at));
    var states, steps := CachedRun(s0, at, horizon, sign);
    RunOf(states, steps, horizon, sign);
    WorstScope(p);
    Witness(states, steps, horizon, p, sign, 2, anywhere);
  }

  lemma {:induction false} CachedRun(s0: Sys, at: int, horizon: Horizon, sign: Signer) returns (states: seq<Sys>, steps: seq<Step>)
    requires Printable(sign) && WholeTtl(s0.params.ttl) && IsPrefix("/", s0.params.stickyPath) && !Covers(s0.params)
    requires s0.params.maxLag > 0 && s0.params.checkInterval > 0 && at == WorstCheck(s0.params)
    requires forall t :: horizon(t) == at - s0.params.maxLag
    requires s0 == Sys(s0.params, Monitor(s0.params.maxLag, s0.params.checkInterval, None, true), None, [], 0, 1, Min(0, at))
    ensures steps == [Probe(at, at, Some(s0.params.maxLag)), WorstWrite(s0.params), WorstRead(s0.params)]
    ensures |states| == 4 && states[0] == s0
    ensures StepAt(states, steps, horizon, sign, 0) && StepAt(states, steps, horizon, sign, 1) && StepAt(states, steps, horizon, sign, 2)
    ensures !SeesOwnWrites(states[2], steps[2], horizon, sign)
  {
    var p := s0.params;
    var x0, x1, x2 := Probe(at, at, Some(p.maxLag)), WorstWrite(p), WorstRead(p);
    WorstScope(p);
    var s1 := Next(s0, x0, sign);
    assert s1 == s0.(monitor := Monitor(p.maxLag, p.checkInterval, Some(at), true), sectionTime := at);
    WorstWriteState(s1, sign);
    var s2 := Next(s1, x1, sign);
    WorstReadRoutes(s2, sign);
    MissesWrite(s2, x2, horizon, sign);
    states, steps := [s0, s1, s2, Next(s2, x2, sign)], [x0, x1, x2];
  }

  /** Without caching, or without a monitor: write and read. */
  lemma {:induction false} FreshVerdictFails(p: Params, sign: Signer, anywhere: bool)
    requires Printable(sign) && WholeTtl(p.ttl) && IsPrefix("/", p.stickyPath)
    requires !Covers(p) && (p.maxLag <= 0 || p.checkInterval <= 0)
    ensures !AlwaysReadsOwnWrites(p, sign, anywhere)
  {
    var behind := if p.maxLag > 0 then WorstCheck(p) - p.maxLag else 0;
    var horizon: Horizon := (t: int) => behind;
    var s0 := Sys(p, Monitor(p.maxLag, p.checkInterval, None, true), None, [], 0, 1, 0);
    var x0, x1 := WorstWrite(p), WorstRead(p);
    WorstScope(p);
    WorstWriteState(s0, sign);
    var s1 := Next(s0, x0, sign);
    WorstReadRoutes(s1, sign);
    var states, steps := [s0, s1, Next(s1, x1, sign)], [x0, x1];
    RunOf(states, steps, horizon, sign);
    MissesWrite(s1, x1, horizon, sign);
    Witness(states, steps, horizon, p, sign, 1, anywhere);
  }

  /** Clients read their own writes in every run on paths in scope if and only if the sticky time covers the rest. */
  lemma {:induction false} ReadYourWritesExactly(p: Params, sign: Signer)
    requires Printable(sign) && WholeTtl(p.ttl) && IsPrefix("/", p.stickyPath)
    ensures AlwaysReadsOwnWrites(p, sign, false) <==> Covers(p)
  {
    if Covers(p) {
      forall states: seq<Sys>, steps: seq<Step>, horizon: Horizon, n: nat {:trigger IsRun(states, steps, horizon, sign), steps[n]}
        | Advances(horizon) && IsRun(states, steps, horizon, sign) && states[0].params == p
          && Scoped(steps, p.stickyPath) && n < |steps| && steps[n].Read?
        ensures SeesOwnWrites(states[n], steps[n], horizon, sign)
      {
        ReadsOwnWrites(states, steps, horizon, sign, n);
      }
    } else if p.maxLag > 0 && p.checkInterval > 0 {
      CachedVerdictFails(p, sign, false);
    } else {
      FreshVerdictFails(p, sign, false);
    }
  }

  // ---- Paths out of scope ---------------------------------------------------------------

  /** Under the root path every request is in scope. */
  lemma {:induction false} RootIsScope(states: seq<Sys>, steps: seq<Step>, horizon: Horizon, sign: Signer)
    requires IsRun(states, steps, horizon, sign)
    ensures Scoped(steps, "/")
  {
    forall k: nat | k < |steps| ensures InScope(steps[k], "/") {
      assert StepAt(states, steps, horizon, sign, k);
    }
  }

  function OutsidePath(stickyPath: string): string { if TrimSlashes(stickyPath) != "" then "/" else "/x" }

  lemma {:induction false} OutsideDoesNotMatch(stickyPath: string)
    requires stickyPath != "" && stickyPath != "/"
    ensures !PathMatches(OutsidePath(stickyPath), stickyPath) && IsPrefix("/", OutsidePath(stickyPath))
  {
    var sticky := "/" + TrimSlashes(stickyPath);
    if TrimSlashes(stickyPath) != "" {
      assert |sticky| > 1;
    } else {
      assert sticky == "/" && (sticky + "/")[1] != "/x"[1];
    }
  }

  /** A write outside the sticky path leaves no cookie; the next read may go to a replica that lacks it. */
  lemma {:induction false} OutsideWriteMissed(p: Params, sign: Signer)
    requires Printable(sign) && WholeTtl(p.ttl) && IsPrefix("/", p.stickyPath) && p.stickyPath != "/"
    ensures !AlwaysReadsOwnWrites(p, sign, true)
  {
    var horizon: Horizon := (t: int) => STAMP - 1;
    var s0 := Sys(p, Monitor(p.maxLag, p.checkInterval, None, true), None, [], 0, 1, 0);
    var x0 := Write(200, "POST", OutsidePath(p.stickyPath), STAMP, STAMP, STAMP);
    var x1 := Read(EventualRead, "/", STAMP, STAMP, STAMP, STAMP, STAMP, if p.maxLag > 0 then Some(1) else None, STAMP);
    OutsideDoesNotMatch(p.stickyPath);
    var s1 := Next(s0, x0, sign);
    assert s1 == s0.(committed := [STAMP], clientTime := STAMP);
    var states, steps := [s0, s1, Next(s1, x1, sign)], [x0, x1];
    RunOf(states, steps, horizon, sign);
    MissesWrite(s1, x1, horizon, sign);
    Witness(states, steps, horizon, p, sign, 1, true);
  }

  /** On any paths: if and only if, besides, the sticky path is the root. */
  lemma {:induction false} ReadYourWritesAnywhere(p: Params, sign: Signer)
    requires Printable(sign) && WholeTtl(p.ttl) && IsPrefix("/", p.stickyPath)
    ensures AlwaysReadsOwnWrites(p, sign, true) <==> Covers(p) && p.stickyPath == "/"
  {
    if p.stickyPath != "/" {
      OutsideWriteMissed(p, sign);
    } else if Covers(p) {
      forall states: seq<Sys>, steps: seq<Step>, horizon: Horizon, n: nat {:trigger IsRun(states, steps, horizon, sign), steps[n]}
        | Advances(horizon) && IsRun(states, steps, horizon, sign) && states[0].params == p && n < |steps| && steps[n].Read?
        ensures SeesOwnWrites(states[n], steps[n], horizon, sign)
      {
        RootIsScope(states, steps, horizon, sign);
        ReadsOwnWrites(states, steps, horizon, sign, n);
      }
    } else if p.maxLag > 0 && p.checkInterval > 0 {
      CachedVerdictFails(p, sign, true);
    } else {
      FreshVerdictFails(p, sign, true);
    }
  }
}
