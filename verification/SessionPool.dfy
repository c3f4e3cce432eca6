/**
 The browser-worker's session pool: the lock-protected `Manager`, and the handlers that
 create, delete, expire and shut down sessions as threads over it. A thread moves in
 atomic steps, one per manager call or runtime call; session ids are fresh (UUIDs) and a
 started runtime has a non-zero reference.
 */
module SessionPool {
  import opened Common

  type Id = nat
  type Runtime = nat

  // ---- The manager --------------------------------------------------------------------

  datatype Pool = Pool(sessions: map<Id, Runtime>, reservations: nat, limit: int)

  predicate Full(p: Pool) { p.limit > 0 && |p.sessions| + p.reservations >= p.limit }

  function Release(p: Pool): Pool { if p.reservations > 0 then p.(reservations := p.reservations - 1) else p }

  class Manager {
    var sessions: map<Id, Runtime>
    var reservations: nat
    const limit: int

    constructor WithLimit(limit: int)
      ensures State() == Pool(map[], 0, Max(limit, 0))
    {
      sessions, reservations := map[], 0;
      this.limit := if limit < 0 then 0 else limit;
    }

    function State(): Pool
      reads this
    {
      Pool(sessions, reservations, limit)
    }

    method TryReserve() returns (ok: bool)
      modifies this
      ensures ok <==> limit <= 0 || |old(sessions)| + old(reservations) < limit
      ensures State() == if ok then old(State()).(reservations := old(reservations) + 1) else old(State())
    {
      if limit > 0 && |sessions| + reservations >= limit {
        return false;
      }
      reservations := reservations + 1;
      return true;
    }

    method ReleaseReservation()
      modifies this
      ensures State() == Release(old(State()))
    {
      if reservations > 0 {
        reservations := reservations - 1;
      }
    }

    method Put(id: Id, runtime: Runtime)
      modifies this
      ensures State() == old(State()).(sessions := old(sessions)[id := runtime])
    {
      sessions := sessions[id := runtime];
    }

    method Remove(ref: Id) returns (session: Option<Runtime>)
      modifies this
      ensures session == if ref in old(sessions) then Some(old(sessions)[ref]) else None
      ensures State() == old(State()).(sessions := old(sessions) - {ref})
    {
      if ref !in sessions {
        return None;
      }
      session := Some(sessions[ref]);
      sessions := sessions - {ref};
    }

    /** A snapshot, in some order. */
    method List() returns (ids: seq<Id>)
      ensures forall id :: id in ids <==> id in sessions
      ensures forall i, j :: 0 <= i < j < |ids| ==> ids[i] != ids[j]
    {
      ids := [];
      var rest := sessions.Keys;
      while rest != {}
        invariant forall id :: id in ids <==> id in sessions && id !in rest
        invariant rest <= sessions.Keys
        invariant forall i, j :: 0 <= i < j < |ids| ==> ids[i] != ids[j]
        decreases |rest|
      {
        var id :| id in rest;
        ids, rest := ids + [id], rest - {id};
      }
    }
  }

  // ---- Handlers as threads ------------------------------------------------------------

  /** A creation, a removal that owns the runtime it must stop, or a shutdown with the ids it listed. */
  datatype Thread =
    | Reserved                        // TryReserve succeeded
    | Started(runtime: Runtime)       // StartSession succeeded, the browser is being configured
    | Failed                          // returning an error, the deferred release still to run
    | Published(id: Id)               // Put, reservation still held
    | Arming(id: Id)                  // reservation released, TTL timer still to be set
    | Cleaning(runtime: Runtime)      // removed from the map, StopSession still to be called
    | ShuttingDown(ids: set<Id>)
    | Done

  datatype Sys = Sys(pool: Pool, threads: seq<Thread>, timers: set<Id>,
                     started: seq<Runtime>, stops: seq<Runtime>, ids: set<Id>)    // history

  datatype Step =
    | Create
    | StartRuntime(t: nat, runtime: Runtime)
    | StartFails(t: nat)
    | ConfigureFails(t: nat)
    | PutSession(t: nat, id: Id)
    | ReleaseOnError(t: nat)
    | ReleaseAfterPut(t: nat)
    | ArmTimer(t: nat)
    | Delete(id: Id)
    | TimerFires(id: Id)
    | Shutdown
    | ShutdownNext(t: nat, id: Id)
    | ShutdownEnds(t: nat)
    | StopRuntime(t: nat)

  predicate Enabled(s: Sys, x: Step) {
    match x
    case Create => true
    case StartRuntime(t, r) => t < |s.threads| && s.threads[t].Reserved? && r !in s.started
    case StartFails(t) => t < |s.threads| && s.threads[t].Reserved?
    case ConfigureFails(t) => t < |s.threads| && s.threads[t].Started?
    case PutSession(t, id) => t < |s.threads| && s.threads[t].Started? && id !in s.ids
    case ReleaseOnError(t) => t < |s.threads| && s.threads[t].Failed?
    case ReleaseAfterPut(t) => t < |s.threads| && s.threads[t].Published?
    case ArmTimer(t) => t < |s.threads| && s.threads[t].Arming?
    case Delete(_) => true
    case TimerFires(id) => id in s.timers
    case Shutdown => true
    case ShutdownNext(t, id) => t < |s.threads| && s.threads[t].ShuttingDown? && id in s.threads[t].ids
    case ShutdownEnds(t) => t < |s.threads| && s.threads[t] == ShuttingDown({})
    case StopRuntime(t) => t < |s.threads| && s.threads[t].Cleaning?
  }

  function At(s: Sys, t: nat, thread: Thread): Sys
    requires t < |s.threads|
  {
    s.(threads := s.threads[t := thread])
  }

  /** `Remove` by whichever handler: the one that finds the session owns its runtime. */
  function Take(s: Sys, id: Id): Sys {
    if id !in s.pool.sessions then s
    else s.(pool := s.pool.(sessions := s.pool.sessions - {id}), threads := s.threads + [Cleaning(s.pool.sessions[id])])
  }

  function Next(s: Sys, x: Step): Sys
    requires Enabled(s, x)
  {
    match x
    case Create =>
      if Full(s.pool) then s
      else s.(pool := s.pool.(reservations := s.pool.reservations + 1), threads := s.threads + [Reserved])
    case StartRuntime(t, r) => At(s, t, Started(r)).(started := s.started + [r])
    case StartFails(t) => At(s, t, Failed)
    case ConfigureFails(t) => At(s, t, Failed).(stops := s.stops + [s.threads[t].runtime])
    case PutSession(t, id) =>
      At(s, t, Published(id)).(pool := s.pool.(sessions := s.pool.sessions[id := s.threads[t].runtime]), ids := s.ids + {id})
    case ReleaseOnError(t) => At(s, t, Done).(pool := Release(s.pool))
    case ReleaseAfterPut(t) => At(s, t, Arming(s.threads[t].id)).(pool := Release(s.pool))
    case ArmTimer(t) => At(s, t, Done).(timers := s.timers + {s.threads[t].id})
    case Delete(id) => Take(s, id)
    case TimerFires(id) => Take(s.(timers := s.timers - {id}), id)
    case Shutdown => s.(threads := s.threads + [ShuttingDown(s.pool.sessions.Keys)])
    case ShutdownNext(t, id) => Take(At(s, t, ShuttingDown(s.threads[t].ids - {id})), id)
    case ShutdownEnds(t) => At(s, t, Done)
    case StopRuntime(t) => At(s, t, Done).(stops := s.stops + [s.threads[t].runtime])
  }

  predicate Initial(s: Sys) {
    && s.pool.sessions == map[] && s.pool.reservations == 0 && s.pool.limit >= 0
    && s.threads == [] && s.timers == {} && s.started == [] && s.stops == [] && s.ids == {}
  }

  predicate IsRun(states: seq<Sys>, steps: seq<Step>) {
    && |states| == |steps| + 1
    && Initial(states[0])
    && forall k: nat | k < |steps| :: StepAt(states, steps, k)
  }

  predicate StepAt(states: seq<Sys>, steps: seq<Step>, k: nat)
    requires |states| == |steps| + 1 && k < |steps|
  {
    Enabled(states[k], steps[k]) && states[k + 1] == Next(states[k], steps[k])
  }

  // ---- Capacity -----------------------------------------------------------------------

  /** Holds a reservation. */
  predicate Holds(t: Thread) { t.Reserved? || t.Started? || t.Failed? || t.Published? }

  /** Holds one for a session that is not in the map yet. */
  predicate Unpublished(t: Thread) { t.Reserved? || t.Started? || t.Failed? }

  function Holders(ts: seq<Thread>): nat {
    if ts == [] then 0 else Holders(ts[..|ts| - 1]) + if Holds(ts[|ts| - 1]) then 1 else 0
  }

  function Waiting(ts: seq<Thread>): nat {
    if ts == [] then 0 else Waiting(ts[..|ts| - 1]) + if Unpublished(ts[|ts| - 1]) then 1 else 0
  }

  lemma {:induction false} CountsChange(ts: seq<Thread>, t: nat, thread: Thread)
    requires t < |ts|
    ensures Holders(ts[t := thread]) == Holders(ts) - (if Holds(ts[t]) then 1 else 0) + (if Holds(thread) then 1 else 0)
    ensures Waiting(ts[t := thread]) == Waiting(ts) - (if Unpublished(ts[t]) then 1 else 0) + (if Unpublished(thread) then 1 else 0)
  {
    var n := |ts| - 1;
    if t == n {
      assert ts[t := thread][..n] == ts[..n];
    } else {
      CountsChange(ts[..n], t, thread);
      assert ts[t := thread][..n] == ts[..n][t := thread];
    }
  }

  lemma {:induction false} CountsAdd(ts: seq<Thread>, thread: Thread)
    ensures Holders(ts + [thread]) == Holders(ts) + (if Holds(thread) then 1 else 0)
    ensures Waiting(ts + [thread]) == Waiting(ts) + (if Unpublished(thread) then 1 else 0)
    ensures Waiting(ts) <= Holders(ts)
  {
    assert (ts + [thread])[..|ts|] == ts;
    WaitingHold(ts);
  }

  lemma {:induction false} WaitingHold(ts: seq<Thread>)
    ensures Waiting(ts) <= Holders(ts)
  {
    if ts != [] {
      WaitingHold(ts[..|ts| - 1]);
    }
  }

  /** The counter is exact, and sessions with pending creations fit the limit. */
  predicate CapacityOk(s: Sys) {
    && s.pool.reservations == Holders(s.threads)
    && (s.pool.limit > 0 ==> |s.pool.sessions| + Waiting(s.threads) <= s.pool.limit)
    && s.pool.sessions.Keys <= s.ids
  }

  lemma {:induction false} TakeCapacity(s: Sys, id: Id)
    requires CapacityOk(s)
    ensures CapacityOk(Take(s, id))
  {
    if id in s.pool.sessions {
      CountsAdd(s.threads, Cleaning(s.pool.sessions[id]));
      var fewer := s.pool.sessions - {id};
      assert fewer.Keys == s.pool.sessions.Keys - {id};
      assert |fewer| == |fewer.Keys| && |s.pool.sessions| == |s.pool.sessions.Keys|;
    }
  }

  lemma {:induction false} MoveCapacity(s: Sys, t: nat, thread: Thread)
    requires CapacityOk(s) && t < |s.threads|
    requires Holds(thread) == Holds(s.threads[t]) && Unpublished(thread) == Unpublished(s.threads[t])
    ensures CapacityOk(At(s, t, thread))
  {
    CountsChange(s.threads, t, thread);
  }

  lemma {:induction false} ReleaseCapacity(s: Sys, t: nat, thread: Thread)
    requires CapacityOk(s) && t < |s.threads|
    requires Holds(s.threads[t]) && !Holds(thread) && !Unpublished(thread)
    ensures s.pool.reservations > 0 && CapacityOk(At(s, t, thread).(pool := Release(s.pool)))
  {
    CountsChange(s.threads, t, thread);
  }

  lemma {:induction false} PutCapacity(s: Sys, x: Step)
    requires Enabled(s, x) && CapacityOk(s) && x.PutSession?
    ensures CapacityOk(Next(s, x))
  {
    CountsChange(s.threads, x.t, Published(x.id));
    var more := s.pool.sessions[x.id := s.threads[x.t].runtime];
    assert more.Keys == s.pool.sessions.Keys + {x.id};
    assert |more| == |more.Keys| && |s.pool.sessions| == |s.pool.sessions.Keys|;
  }

  lemma {:induction false} CapacityStep(s: Sys, x: Step)
    requires Enabled(s, x) && CapacityOk(s)
    ensures CapacityOk(Next(s, x))
    ensures x.ReleaseOnError? || x.ReleaseAfterPut? ==> s.pool.reservations > 0
  {
    match x {
      case Create => CountsAdd(s.threads, Reserved);
      case StartRuntime(t, r) => MoveCapacity(s, t, Started(r));
      case StartFails(t) => MoveCapacity(s, t, Failed);
      case ConfigureFails(t) => MoveCapacity(s, t, Failed);
      case PutSession(_, _) => PutCapacity(s, x);
      case ReleaseOnError(t) => ReleaseCapacity(s, t, Done);
      case ReleaseAfterPut(t) => ReleaseCapacity(s, t, Arming(s.threads[t].id));
      case ArmTimer(t) => MoveCapacity(s, t, Done);
      case Delete(id) => TakeCapacity(s, id);
      case TimerFires(id) => TakeCapacity(s.(timers := s.timers - {id}), id);
      case Shutdown => CountsAdd(s.threads, ShuttingDown(s.pool.sessions.Keys));
      case ShutdownNext(t, id) =>
        MoveCapacity(s, t, ShuttingDown(s.threads[t].ids - {id}));
        TakeCapacity(At(s, t, ShuttingDown(s.threads[t].ids - {id})), id);
      case ShutdownEnds(t) => MoveCapacity(s, t, Done);
      case StopRuntime(t) => MoveCapacity(s, t, Done);
    }
  }

  lemma {:induction false} CapacityAlways(states: seq<Sys>, steps: seq<Step>, n: nat)
    requires IsRun(states, steps) && n < |states|
    ensures CapacityOk(states[n]) && states[n].pool.limit == states[0].pool.limit
  {
    if n > 0 {
      CapacityAlways(states, steps, n - 1);
      assert StepAt(states, steps, n - 1);
      CapacityStep(states[n - 1], steps[n - 1]);
    }
  }

  /**
   Live sessions and creations that hold a reservation without a session never exceed a
   positive limit, although Put runs before ReleaseReservation.
   */
  lemma {:induction false} NeverOverCapacity(states: seq<Sys>, steps: seq<Step>, n: nat)
    requires IsRun(states, steps) && n < |states| && states[0].pool.limit > 0
    ensures |states[n].pool.sessions| + Waiting(states[n].threads) <= states[0].pool.limit
  {
    CapacityAlways(states, steps, n);
  }

  /** `ReleaseReservation` always has a reservation to release: the clamp at zero never acts. */
  lemma {:induction false} ClampNeverActs(states: seq<Sys>, steps: seq<Step>, n: nat)
    requires IsRun(states, steps) && n < |steps| && (steps[n].ReleaseOnError? || steps[n].ReleaseAfterPut?)
    ensures states[n].pool.reservations > 0
    ensures states[n + 1].pool.reservations == states[n].pool.reservations - 1
  {
    CapacityAlways(states, steps, n);
    assert StepAt(states, steps, n);
    CapacityStep(states[n], steps[n]);
  }

  /**
   In every run a creation is refused exactly when the limit is positive and the sessions, with the creations
   that have not given their reservation back, fill it; every other creation goes on with a reservation.
   */
  lemma {:induction false} RefusedExactlyWhenFull(states: seq<Sys>, steps: seq<Step>, n: nat)
    requires IsRun(states, steps) && n < |steps| && steps[n].Create?
    ensures var (s, s') := (states[n], states[n + 1]);
            if 0 < s.pool.limit <= |s.pool.sessions| + Holders(s.threads) then s' == s
            else s'.threads == s.threads + [Reserved] && s'.pool == s.pool.(reservations := Holders(s.threads) + 1)
  {
    CapacityAlways(states, steps, n);
    assert StepAt(states, steps, n);
  }

  // ---- Ownership of runtimes ----------------------------------------------------------

  predicate Owns(t: Thread, r: Runtime) { (t.Started? || t.Cleaning?) && t.runtime == r }

  /** How many handlers own the runtime: one that configures its browser, or is about to stop it. */
  function Owners(ts: seq<Thread>, r: Runtime): nat {
    if ts == [] then 0 else Owners(ts[..|ts| - 1], r) + if Owns(ts[|ts| - 1], r) then 1 else 0
  }

  function SessionsOf(sessions: map<Id, Runtime>, r: Runtime): set<Id> {
    set id | id in sessions && sessions[id] == r
  }

  /** Handlers, sessions and past stops of a runtime, counted together. */
  function Places(s: Sys, r: Runtime): nat {
    Owners(s.threads, r) + |SessionsOf(s.pool.sessions, r)| + multiset(s.stops)[r]
  }

  predicate OwnershipOk(s: Sys, r: Runtime) {
    && Places(s, r) == multiset(s.started)[r] <= 1
    && s.pool.sessions.Keys <= s.ids
  }

  lemma {:induction false} OwnersChange(ts: seq<Thread>, t: nat, thread: Thread, r: Runtime)
    requires t < |ts|
    ensures Owners(ts[t := thread], r) == Owners(ts, r) - (if Owns(ts[t], r) then 1 else 0) + (if Owns(thread, r) then 1 else 0)
    ensures Owns(ts[t], r) ==> Owners(ts, r) > 0
  {
    var n := |ts| - 1;
    if t == n {
      assert ts[t := thread][..n] == ts[..n];
    } else {
      OwnersChange(ts[..n], t, thread, r);
      assert ts[t := thread][..n] == ts[..n][t := thread];
    }
  }

  lemma {:induction false} OwnersAdd(ts: seq<Thread>, thread: Thread, r: Runtime)
    ensures Owners(ts + [thread], r) == Owners(ts, r) + (if Owns(thread, r) then 1 else 0)
  {
    assert (ts + [thread])[..|ts|] == ts;
  }

  lemma {:induction false} TakeKeepsOwner(s: Sys, id: Id, r: Runtime)
    requires OwnershipOk(s, r)
    ensures OwnershipOk(Take(s, id), r)
  {
    if id in s.pool.sessions {
      var runtime := s.pool.sessions[id];
      OwnersAdd(s.threads, Cleaning(runtime), r);
      var before, after := SessionsOf(s.pool.sessions, r), SessionsOf(s.pool.sessions - {id}, r);
      assert after == before - {id};
      assert id in before <==> runtime == r;
    }
  }

  lemma {:induction false} MoveKeepsOwner(s: Sys, t: nat, thread: Thread, r: Runtime)
    requires OwnershipOk(s, r) && t < |s.threads| && Owns(thread, r) == Owns(s.threads[t], r)
    ensures OwnershipOk(At(s, t, thread), r)
  {
    OwnersChange(s.threads, t, thread, r);
  }

  lemma {:induction false} StopKeepsOwner(s: Sys, t: nat, thread: Thread, r: Runtime)
    requires OwnershipOk(s, r) && t < |s.threads| && (s.threads[t].Started? || s.threads[t].Cleaning?)
    requires !thread.Started? && !thread.Cleaning?
    ensures OwnershipOk(At(s, t, thread).(stops := s.stops + [s.threads[t].runtime]), r)
  {
    OwnersChange(s.threads, t, thread, r);
    assert multiset(s.stops + [s.threads[t].runtime]) == multiset(s.stops) + multiset{s.threads[t].runtime};
  }

  lemma {:induction false} PutKeepsOwner(s: Sys, x: Step, r: Runtime)
    requires Enabled(s, x) && x.PutSession? && OwnershipOk(s, r)
    ensures OwnershipOk(Next(s, x), r)
  {
    OwnersChange(s.threads, x.t, Published(x.id), r);
    var runtime := s.threads[x.t].runtime;
    var before, after := SessionsOf(s.pool.sessions, r), SessionsOf(s.pool.sessions[x.id := runtime], r);
    assert after == if runtime == r then before + {x.id} else before;
    assert x.id !in before;
  }

  lemma {:induction false} StartKeepsOwner(s: Sys, x: Step, r: Runtime)
    requires Enabled(s, x) && x.StartRuntime? && OwnershipOk(s, r)
    ensures OwnershipOk(Next(s, x), r)
  {
    OwnersChange(s.threads, x.t, Started(x.runtime), r);
    assert multiset(s.started + [x.runtime]) == multiset(s.started) + multiset{x.runtime};
    assert x.runtime !in multiset(s.started);
  }

  lemma {:induction false} AddKeepsOwner(s: Sys, x: Step, r: Runtime)
    requires Enabled(s, x) && (x.Create? || x.Shutdown?) && OwnershipOk(s, r)
    ensures OwnershipOk(Next(s, x), r)
  {
    OwnersAdd(s.threads, if x.Create? then Reserved else ShuttingDown(s.pool.sessions.Keys), r);
  }

  /** Steps of a handler that owns no runtime before or after. */
  predicate Idle(x: Step) { x.StartFails? || x.ReleaseOnError? || x.ReleaseAfterPut? || x.ArmTimer? || x.ShutdownEnds? }

  lemma {:induction false} IdleKeepsOwner(s: Sys, x: Step, r: Runtime)
    requires Enabled(s, x) && Idle(x) && OwnershipOk(s, r)
    ensures OwnershipOk(Next(s, x), r)
  {
    match x
    case StartFails(t) => MoveKeepsOwner(s, t, Failed, r);
    case ReleaseOnError(t) => MoveKeepsOwner(s, t, Done, r);
    case ReleaseAfterPut(t) => MoveKeepsOwner(s, t, Arming(s.threads[t].id), r);
    case ArmTimer(t) => MoveKeepsOwner(s, t, Done, r);
    case ShutdownEnds(t) => MoveKeepsOwner(s, t, Done, r);
  }

  lemma {:induction false} StoppingKeepsOwner(s: Sys, x: Step, r: Runtime)
    requires Enabled(s, x) && (x.ConfigureFails? || x.StopRuntime?) && OwnershipOk(s, r)
    ensures OwnershipOk(Next(s, x), r)
  {
    StopKeepsOwner(s, x.t, if x.ConfigureFails? then Failed else Done, r);
  }

  lemma {:induction false} RemovalKeepsOwner(s: Sys, x: Step, r: Runtime)
    requires Enabled(s, x) && (x.Delete? || x.TimerFires? || x.ShutdownNext?) && OwnershipOk(s, r)
    ensures OwnershipOk(Next(s, x), r)
  {
    match x
    case Delete(id) => TakeKeepsOwner(s, id, r);
    case TimerFires(id) => TakeKeepsOwner(s.(timers := s.timers - {id}), id, r);
    case ShutdownNext(t, id) =>
      MoveKeepsOwner(s, t, ShuttingDown(s.threads[t].ids - {id}), r);
      TakeKeepsOwner(At(s, t, ShuttingDown(s.threads[t].ids - {id})), id, r);
  }

  lemma {:induction false} OwnershipStep(s: Sys, x: Step, r: Runtime)
    requires Enabled(s, x) && OwnershipOk(s, r)
    ensures OwnershipOk(Next(s, x), r)
  {
    if x.Create? || x.Shutdown? {
      AddKeepsOwner(s, x, r);
    } else if Idle(x) {
      IdleKeepsOwner(s, x, r);
    } else if x.ConfigureFails? || x.StopRuntime? {
      StoppingKeepsOwner(s, x, r);
    } else if x.StartRuntime? {
      StartKeepsOwner(s, x, r);
    } else if x.PutSession? {
      PutKeepsOwner(s, x, r);
    } else {
      RemovalKeepsOwner(s, x, r);
    }
  }

  /**
   In every interleaving a started runtime is in exactly one place: one handler owns it, or
   one session holds it, or it has been stopped, once. No other runtime is ever stopped.
   */
  lemma {:induction false} RuntimeHasOneOwner(states: seq<Sys>, steps: seq<Step>, n: nat, r: Runtime)
    requires IsRun(states, steps) && n < |states|
    ensures OwnershipOk(states[n], r)
    ensures Places(states[n], r) == if r in states[n].started then 1 else 0
    ensures multiset(states[n].stops)[r] <= 1
  {
    if n > 0 {
      RuntimeHasOneOwner(states, steps, n - 1, r);
      assert StepAt(states, steps, n - 1);
      OwnershipStep(states[n - 1], steps[n - 1], r);
    } else {
      assert SessionsOf(states[0].pool.sessions, r) == {};
    }
  }

  // ---- Quiescence ---------------------------------------------------------------------

  /** A session in the map has a timer, or a creation that will arm one. */
  predicate Attended(s: Sys, id: Id) {
    id in s.timers || exists t :: 0 <= t < |s.threads| && (s.threads[t] == Published(id) || s.threads[t] == Arming(id))
  }

  predicate AllAttended(s: Sys) { forall id :: id in s.pool.sessions ==> Attended(s, id) }

  lemma {:induction false} AttendedStep(s: Sys, x: Step, id: Id)
    requires Enabled(s, x) && id in Next(s, x).pool.sessions
    requires id in s.pool.sessions ==> Attended(s, id)
    ensures Attended(Next(s, x), id)
  {
    var s' := Next(s, x);
    if id !in s.pool.sessions {
      assert s'.threads[x.t] == Published(id);
    } else if id !in s.timers {
      var t :| 0 <= t < |s.threads| && (s.threads[t] == Published(id) || s.threads[t] == Arming(id));
      if x.ReleaseAfterPut? && x.t == t {
        assert s'.threads[t] == Arming(id);
      } else if !(x.ArmTimer? && x.t == t) {
        assert s'.threads[t] == s.threads[t];
      }
    }
  }

  predicate Quiescent(s: Sys) {
    s.timers == {} && forall t :: 0 <= t < |s.threads| ==> s.threads[t].Done?
  }

  lemma {:induction false} AttendedAlways(states: seq<Sys>, steps: seq<Step>, n: nat)
    requires IsRun(states, steps) && n < |states|
    ensures AllAttended(states[n])
  {
    if n > 0 {
      AttendedAlways(states, steps, n - 1);
      assert StepAt(states, steps, n - 1);
      forall id | id in states[n].pool.sessions ensures Attended(states[n], id) {
        AttendedStep(states[n - 1], steps[n - 1], id);
      }
    }
  }

  lemma {:induction false} NoOwners(ts: seq<Thread>, r: Runtime)
    requires forall t :: 0 <= t < |ts| ==> ts[t].Done?
    ensures Owners(ts, r) == 0
  {
    if ts != [] {
      NoOwners(ts[..|ts| - 1], r);
    }
  }

  /** Once every handler and timer has run, no session is left and every started runtime was stopped exactly once. */
  lemma {:induction false} EveryRuntimeStoppedOnce(states: seq<Sys>, steps: seq<Step>, n: nat)
    requires IsRun(states, steps) && n < |states| && Quiescent(states[n])
    ensures states[n].pool.sessions == map[]
    ensures multiset(states[n].stops) == multiset(states[n].started)
  {
    var s := states[n];
    AttendedAlways(states, steps, n);
    assert forall id :: id in s.pool.sessions ==> Attended(s, id);
    assert s.pool.sessions == map[];
    forall r: Runtime ensures multiset(s.stops)[r] == multiset(s.started)[r] {
      RuntimeHasOneOwner(states, steps, n, r);
      NoOwners(s.threads, r);
      assert SessionsOf(s.pool.sessions, r) == {};
    }
  }

  // ---- The handlers, each called alone --------------------------------------------------

  function RuntimesOf(sessions: map<Id, Runtime>, ids: seq<Id>): (rs: seq<Runtime>)
    requires forall id | id in ids :: id in sessions
    ensures |rs| == |ids| && forall i | 0 <= i < |ids| :: rs[i] == sessions[ids[i]]
  {
    seq(|ids|, i requires 0 <= i < |ids| => sessions[ids[i]])
  }

  class Server {
    const manager: Manager
    var started: seq<Runtime>
    var stops: seq<Runtime>
    var timers: set<Id>

    constructor (manager: Manager)
      ensures this.manager == manager && started == [] && stops == [] && timers == {}
    {
      this.manager := manager;
      started, stops, timers := [], [], {};
    }

    method StopSession(runtime: Runtime)
      modifies `stops
      ensures stops == old(stops) + [runtime]
    {
      stops := stops + [runtime];
    }

    /**
      * The reservation is given back on every path, and a started runtime is either stopped or in the
      * session map with a timer.
      */
    method CreateSession(runtime: Runtime, id: Id, starts: bool, configures: bool) returns (created: bool)
      modifies this, manager
      ensures var room := manager.limit <= 0 || |old(manager.sessions)| + old(manager.reservations) < manager.limit;
              && (created <==> room && starts && configures)
              && started == (if room && starts then old(started) + [runtime] else old(started))
              && stops == (if room && starts && !configures then old(stops) + [runtime] else old(stops))
      ensures manager.State() == if created then old(manager.State()).(sessions := old(manager.sessions)[id := runtime])
                                 else old(manager.State())
      ensures timers == if created then old(timers) + {id} else old(timers)
    {
      created := manager.TryReserve();
      if !created { return false; }
      if !starts {
        manager.ReleaseReservation();
        return false;
      }
      started := started + [runtime];
      if !configures {
        StopSession(runtime);
        manager.ReleaseReservation();
        return false;
      }
      manager.Put(id, runtime);
      manager.ReleaseReservation();
      timers := timers + {id};
    }

    /** Also what the TTL timer does. */
    method DeleteSession(ref: Id)
      modifies `stops, manager
      ensures manager.State() == old(manager.State()).(sessions := old(manager.sessions) - {ref})
      ensures stops == if ref in old(manager.sessions) then old(stops) + [old(manager.sessions)[ref]] else old(stops)
    {
      var session := manager.Remove(ref);
      if session.Some? {
        StopSession(session.value);
      }
    }

    /** Every session's runtime is stopped, once per session, and the map is left empty. */
    method ShutdownSessions() returns (ghost ids: seq<Id>)
      modifies `stops, manager
      ensures manager.State() == old(manager.State()).(sessions := map[])
      ensures forall id :: id in ids <==> id in old(manager.sessions)
      ensures forall i, j :: 0 <= i < j < |ids| ==> ids[i] != ids[j]
      ensures stops == old(stops) + RuntimesOf(old(manager.sessions), ids)
    {
      var listed := manager.List();
      ids := listed;
      ghost var sessions, before := manager.sessions, stops;
      for i := 0 to |listed|
        invariant manager.State() == old(manager.State()).(sessions := manager.sessions)
        invariant manager.sessions == sessions - (set id | id in listed[..i])
        invariant stops == before + RuntimesOf(sessions, listed[..i])
      {
        var removed := manager.Remove(listed[i]);
        assert listed[..i + 1] == listed[..i] + [listed[i]];
        assert listed[i] !in listed[..i];
        if removed.Some? {
          StopSession(removed.value);
          assert RuntimesOf(sessions, listed[..i + 1]) == RuntimesOf(sessions, listed[..i]) + [sessions[listed[i]]];
        }
      }
      assert listed[..|listed|] == listed;
    }
  }
}
