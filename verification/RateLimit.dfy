/**
  * The application rate limiter: fixed windows kept in Redis, the loop over a request's
  * buckets, and the in-place filter for the enabled ones. Times are milliseconds on the
  * Redis server's clock, which does not go back; windows are at least a millisecond.
  */
module RateLimit {
  import opened Common

  type Time = int

  // ---- One Redis key ---------------------------------------------------------------------

  /** A counter and the time after which Redis treats the key as gone. */
  datatype Entry = Entry(count: nat, expires: Time)

  predicate Live(e: Option<Entry>, now: Time) {
    e.Some? && now <= e.value.expires
  }

  /** The script: INCR, then PEXPIRE on the first increment of a window. */
  function Increment(e: Option<Entry>, window: nat, now: Time): Entry {
    if Live(e, now) then e.value.(count := e.value.count + 1) else Entry(1, now + window)
  }

  /** The key after the script ran at each of `times`. */
  function After(times: seq<Time>, window: nat): Option<Entry> {
    if times == [] then None
    else Some(Increment(After(times[..|times| - 1], window), window, times[|times| - 1]))
  }

  /** Whether the last of `times` was within the limit. */
  predicate LastAdmitted(times: seq<Time>, window: nat, limit: int) {
    times != [] && After(times, window).value.count <= limit
  }

  ghost predicate Ordered(times: seq<Time>) {
    forall i, j | 0 <= i < j < |times| :: times[i] <= times[j]
  }

  // ---- How many are admitted ---------------------------------------------------------------

  /** The admitted requests of the window that opened at `start`. */
  function AdmittedInWindow(times: seq<Time>, window: nat, limit: int, start: Time): nat {
    if times == [] then 0
    else
      AdmittedInWindow(times[..|times| - 1], window, limit, start) +
      (if LastAdmitted(times, window, limit) && After(times, window).value.expires == start + window then 1 else 0)
  }

  /** The admitted requests with `from <= time < from + length`. */
  function AdmittedBetween(times: seq<Time>, window: nat, limit: int, from: Time, length: nat): nat {
    if times == [] then 0
    else
      AdmittedBetween(times[..|times| - 1], window, limit, from, length) +
      (if LastAdmitted(times, window, limit) && from <= times[|times| - 1] < from + length then 1 else 0)
  }

  lemma {:induction false} WindowHolds(times: seq<Time>, window: nat)
    requires Ordered(times) && times != []
    ensures var e := After(times, window).value;
            e.count >= 1 && e.expires - window <= times[|times| - 1] <= e.expires
  {
    if |times| > 1 {
      WindowHolds(times[..|times| - 1], window);
    }
  }

  /** Each Redis window admits exactly the smaller of its request count and the limit. */
  /**
    * The counter counts the requests of the window in force: it opened at request `first`, the first after the
    * window before it, and every request since came before it expired.
    */
  lemma {:induction false} CountsOneWindow(times: seq<Time>, window: nat) returns (first: nat)
    requires times != []
    ensures first < |times| && After(times, window) == Some(Entry(|times| - first, times[first] + window))
    ensures forall k | first < k < |times| :: times[k] <= times[first] + window
    ensures first > 0 ==> After(times[..first], window).value.expires < times[first]
  {
    var n := |times| - 1;
    var before := times[..n];
    if Live(After(before, window), times[n]) {
      first := CountsOneWindow(before, window);
      assert before[..first] == times[..first];
    } else {
      first := n;
    }
  }

  lemma {:induction false} WindowAdmits(times: seq<Time>, window: nat, limit: nat, start: Time)
    requires Ordered(times)
    ensures AdmittedInWindow(times, window, limit, start) <= limit
    ensures times != [] ==>
              var e := After(times, window).value;
              && (start + window == e.expires ==> AdmittedInWindow(times, window, limit, start) == Min(e.count, limit))
              && (start + window > e.expires ==> AdmittedInWindow(times, window, limit, start) == 0)
  {
    if times != [] {
      var before := times[..|times| - 1];
      WindowAdmits(before, window, limit, start);
      if before != [] {
        WindowHolds(before, window);
      }
    }
  }

  lemma {:induction false} NothingAdmittedEarlier(times: seq<Time>, window: nat, limit: int, from: Time, length: nat)
    requires Ordered(times) && (times != [] ==> times[|times| - 1] < from)
    ensures AdmittedBetween(times, window, limit, from, length) == 0
  {
    if times != [] {
      NothingAdmittedEarlier(times[..|times| - 1], window, limit, from, length);
    }
  }

  /**
    * In any stretch of one window's length. If the window in force opened before the stretch, its
    * opening request is not in the stretch; a window that opens inside it is the only one to do so.
    */
  lemma {:induction false} StretchSoFar(times: seq<Time>, window: nat, limit: nat, from: Time)
    requires Ordered(times) && limit > 0
    requires times != [] && times[|times| - 1] < from + window
    ensures var e := After(times, window).value;
            AdmittedBetween(times, window, limit, from, window) <=
            if e.expires - window < from then Min(e.count, limit) - 1 else limit - 1 + Min(e.count, limit)
  {
    var before, last := times[..|times| - 1], times[|times| - 1];
    if last < from {
      NothingAdmittedEarlier(times, window, limit, from, window);
      WindowHolds(times, window);
    } else if before != [] {
      StretchSoFar(before, window, limit, from);
      WindowHolds(before, window);
    }
  }

  /** For every request timing, fewer than twice the limit is admitted in any stretch of a window's length. */
  lemma {:induction false} StretchAdmits(times: seq<Time>, window: nat, limit: nat, from: Time)
    requires Ordered(times) && limit > 0
    ensures AdmittedBetween(times, window, limit, from, window) <= 2 * limit - 1
  {
    if times != [] {
      if times[|times| - 1] < from + window {
        StretchSoFar(times, window, limit, from);
      } else {
        StretchAdmits(times[..|times| - 1], window, limit, from);
      }
    }
  }

  // ---- The bound is reached ------------------------------------------------------------------

  function Repeat(at: Time, n: nat): (s: seq<Time>)
    ensures |s| == n && forall k | 0 <= k < n :: s[k] == at
  {
    seq(n, _ => at)
  }

  /** `n` requests at one time, in a window that is already open. */
  lemma {:induction false} Burst(times: seq<Time>, window: nat, limit: nat, from: Time, at: Time, n: nat)
    requires times != [] && Live(After(times, window), at)
    requires After(times, window).value.count + n <= limit && from <= at < from + window
    ensures After(times + Repeat(at, n), window) ==
            Some(After(times, window).value.(count := After(times, window).value.count + n))
    ensures AdmittedBetween(times + Repeat(at, n), window, limit, from, window) ==
            AdmittedBetween(times, window, limit, from, window) + n
  {
    var all := times + Repeat(at, n);
    if n == 0 {
      assert all == times;
    } else {
      Burst(times, window, limit, from, at, n - 1);
      assert all[..|all| - 1] == times + Repeat(at, n - 1);
      assert all[|all| - 1] == at;
    }
  }

  function Worst(window: nat, limit: nat): seq<Time>
    requires limit > 0
  {
    [0] + Repeat(window, limit - 1) + [window + 1] + Repeat(window + 1, limit - 1)
  }

  /** One early request, the rest of its window at the last moment, and a full window right after. */
  lemma {:induction false} StretchBoundIsReached(window: nat, limit: nat)
    requires window >= 2 && limit > 0
    ensures Ordered(Worst(window, limit))
    ensures AdmittedBetween(Worst(window, limit), window, limit, 2, window) == 2 * limit - 1
  {
    var first := [0];
    assert first[..0] == [];
    assert After(first, window) == Some(Entry(1, window));
    assert AdmittedBetween(first, window, limit, 2, window) == 0;
    Burst(first, window, limit, 2, window, limit - 1);
    var full := first + Repeat(window, limit - 1);
    var next := full + [window + 1];
    assert next[..|next| - 1] == full;
    assert After(next, window) == Some(Entry(1, window + 1 + window));
    Burst(next, window, limit, 2, window + 1, limit - 1);
  }

  // ---- All keys ------------------------------------------------------------------------------

  datatype Bucket = Bucket(key: string, limit: int, window: nat)

  /** One evaluation of the script. */
  datatype Hit = Hit(bucket: Bucket, at: Time)

  type Store = map<string, Entry>

  function Lookup(s: Store, key: string): Option<Entry> {
    if key in s then Some(s[key]) else None
  }

  function Apply(s: Store, h: Hit): Store {
    s[h.bucket.key := Increment(Lookup(s, h.bucket.key), h.bucket.window, h.at)]
  }

  function StoreAfter(hits: seq<Hit>): Store {
    if hits == [] then map[] else Apply(StoreAfter(hits[..|hits| - 1]), hits[|hits| - 1])
  }

  function TimesOf(hits: seq<Hit>, key: string): seq<Time> {
    if hits == [] then []
    else
      var h := hits[|hits| - 1];
      TimesOf(hits[..|hits| - 1], key) + (if h.bucket.key == key then [h.at] else [])
  }

  /** A key's counter depends on the evaluations for that key alone. */
  lemma {:induction false} KeysAreIndependent(hits: seq<Hit>, key: string, window: nat)
    requires forall h | h in hits && h.bucket.key == key :: h.bucket.window == window
    ensures Lookup(StoreAfter(hits), key) == After(TimesOf(hits, key), window)
  {
    if hits != [] {
      var before, h := hits[..|hits| - 1], hits[|hits| - 1];
      KeysAreIndependent(before, key, window);
      var times := TimesOf(hits, key);
      if h.bucket.key == key {
        assert times[..|times| - 1] == TimesOf(before, key);
      } else {
        assert times == TimesOf(before, key);
      }
    }
  }

  // ---- The loop over a request's buckets ---------------------------------------------------------

  datatype Verdict = Verdict(bucket: Bucket, current: nat, remaining: int, retryAfter: int, exceeded: bool)

  datatype Checked = Unlimited | Limited(verdict: Verdict) | Unavailable

  function Judge(hits: seq<Hit>, h: Hit): Verdict {
    var e := Increment(Lookup(StoreAfter(hits), h.bucket.key), h.bucket.window, h.at);
    Verdict(h.bucket, e.count, Max(h.bucket.limit - e.count, 0), e.expires - h.at, e.count > h.bucket.limit)
  }

  /**
    * The verdict on a request: exceeded exactly from the first request beyond the limit in the bucket's window,
    * with what is left of the limit and the time to the window's end.
    */
  lemma {:induction false} JudgedByItsWindow(hits: seq<Hit>, h: Hit) returns (first: nat)
    requires forall g | g in hits && g.bucket.key == h.bucket.key :: g.bucket.window == h.bucket.window
    ensures var (times, v) := (TimesOf(hits, h.bucket.key) + [h.at], Judge(hits, h));
            && first < |times| && v.bucket == h.bucket && v.current == |times| - first
            && (v.exceeded <==> |times| - first > h.bucket.limit)
            && v.remaining == (if |times| - first < h.bucket.limit then h.bucket.limit - (|times| - first) else 0)
            && v.retryAfter == times[first] + h.bucket.window - h.at
            && (forall k | first < k < |times| :: times[k] <= times[first] + h.bucket.window)
            && (first > 0 ==> After(times[..first], h.bucket.window).value.expires < times[first])
  {
    var before := TimesOf(hits, h.bucket.key);
    var times := before + [h.at];
    KeysAreIndependent(hits, h.bucket.key, h.bucket.window);
    assert times[..|times| - 1] == before;
    first := CountsOneWindow(times, h.bucket.window);
  }

  /**
    * The evaluations for `bucket` that were answered and within its limit, at
    * `from <= time < from + bucket.window`. The reply to one that ran may have been lost.
    */
  function AdmittedBy(hits: seq<Hit>, answered: seq<bool>, bucket: Bucket, from: Time): nat
    requires |answered| == |hits|
  {
    if hits == [] then 0
    else
      var (last, h) := (|hits| - 1, hits[|hits| - 1]);
      AdmittedBy(hits[..last], answered[..last], bucket, from) +
      (if answered[last] && h.bucket == bucket && !Judge(hits[..last], h).exceeded && from <= h.at < from + bucket.window
       then 1 else 0)
  }

  ghost predicate InTimeOrder(hits: seq<Hit>) {
    forall i, j | 0 <= i < j < |hits| :: hits[i].at <= hits[j].at
  }

  lemma {:induction false} TimesInOrder(hits: seq<Hit>, key: string)
    requires InTimeOrder(hits)
    ensures Ordered(TimesOf(hits, key))
    ensures hits == [] ==> TimesOf(hits, key) == []
    ensures forall t | t in TimesOf(hits, key) :: t <= hits[|hits| - 1].at
  {
    if hits != [] {
      var before, h := hits[..|hits| - 1], hits[|hits| - 1];
      TimesInOrder(before, key);
      var earlier := TimesOf(before, key);
      forall k | 0 <= k < |earlier| ensures earlier[k] <= h.at {
        assert earlier[k] in earlier;
      }
    }
  }

  lemma {:induction false} VerdictsCount(hits: seq<Hit>, answered: seq<bool>, bucket: Bucket, from: Time)
    requires |answered| == |hits| && forall h | h in hits && h.bucket.key == bucket.key :: h.bucket == bucket
    ensures AdmittedBy(hits, answered, bucket, from)
         <= AdmittedBetween(TimesOf(hits, bucket.key), bucket.window, bucket.limit, from, bucket.window)
  {
    if hits != [] {
      var before, h := hits[..|hits| - 1], hits[|hits| - 1];
      var times := TimesOf(hits, bucket.key);
      VerdictsCount(before, answered[..|hits| - 1], bucket, from);
      KeysAreIndependent(before, bucket.key, bucket.window);
      if h.bucket == bucket {
        assert times[..|times| - 1] == TimesOf(before, bucket.key);
      } else {
        assert times == TimesOf(before, bucket.key);
      }
    }
  }

  /**
    * Among any requests for any buckets, with any replies lost: in a stretch of its window's length
    * a bucket lets through fewer than twice its limit.
    */
  lemma {:induction false} BucketIsLimited(hits: seq<Hit>, answered: seq<bool>, bucket: Bucket, from: Time)
    requires |answered| == |hits| && InTimeOrder(hits) && bucket.limit > 0
    requires forall h | h in hits && h.bucket.key == bucket.key :: h.bucket == bucket
    ensures AdmittedBy(hits, answered, bucket, from) <= 2 * bucket.limit - 1
  {
    TimesInOrder(hits, bucket.key);
    VerdictsCount(hits, answered, bucket, from);
    StretchAdmits(TimesOf(hits, bucket.key), bucket.window, bucket.limit, from);
  }

  function HitsOf(buckets: seq<Bucket>, times: seq<Time>): (hits: seq<Hit>)
    requires |buckets| == |times|
    ensures |hits| == |buckets|
  {
    seq(|buckets|, i requires 0 <= i < |buckets| => Hit(buckets[i], times[i]))
  }

  /** The verdict on the `i`th bucket, after the earlier ones were counted. */
  function VerdictAt(earlier: seq<Hit>, buckets: seq<Bucket>, times: seq<Time>, i: nat): Verdict
    requires |buckets| == |times| && i < |buckets|
  {
    Judge(earlier + HitsOf(buckets, times)[..i], HitsOf(buckets, times)[i])
  }

  ghost predicate Passed(earlier: seq<Hit>, buckets: seq<Bucket>, times: seq<Time>, n: nat)
    requires |buckets| == |times| && n <= |buckets|
  {
    forall j: nat | j < n :: !VerdictAt(earlier, buckets, times, j).exceeded
  }

  /** The `i`th verdict is the first with the least remaining among the first `n`. */
  ghost predicate FirstLeast(earlier: seq<Hit>, buckets: seq<Bucket>, times: seq<Time>, n: nat, i: nat)
    requires |buckets| == |times| && i < n <= |buckets|
  {
    var v := VerdictAt(earlier, buckets, times, i);
    forall j: nat | j < n ::
      var w := VerdictAt(earlier, buckets, times, j);
      v.remaining <= w.remaining && (j < i ==> v.remaining < w.remaining)
  }

  /** The verdict kept after the first `n` buckets: the first with the least remaining. */
  ghost predicate Chosen(earlier: seq<Hit>, buckets: seq<Bucket>, times: seq<Time>, n: nat, v: Option<Verdict>)
    requires |times| == |buckets| && n <= |buckets|
  {
    if n == 0 then v.None?
    else exists i: nat :: i < n && v == Some(VerdictAt(earlier, buckets, times, i)) && FirstLeast(earlier, buckets, times, n, i)
  }

  lemma {:induction false} FirstLeastGrows(earlier: seq<Hit>, buckets: seq<Bucket>, times: seq<Time>, n: nat, i: nat)
    requires |buckets| == |times| && n < |buckets|
    requires n > 0 ==> i < n && FirstLeast(earlier, buckets, times, n, i)
    ensures n == 0 ==> FirstLeast(earlier, buckets, times, 1, 0)
    ensures n > 0 ==>
              var better := VerdictAt(earlier, buckets, times, n).remaining < VerdictAt(earlier, buckets, times, i).remaining;
              FirstLeast(earlier, buckets, times, n + 1, if better then n else i)
  {
  }

  lemma {:induction false} ChosenGrows(earlier: seq<Hit>, buckets: seq<Bucket>, times: seq<Time>, n: nat, v: Option<Verdict>)
    requires |times| == |buckets| && n < |buckets| && Chosen(earlier, buckets, times, n, v)
    ensures var next := VerdictAt(earlier, buckets, times, n);
            Chosen(earlier, buckets, times, n + 1,
                   if v.None? || next.remaining < v.value.remaining then Some(next) else v)
  {
    var next := VerdictAt(earlier, buckets, times, n);
    if n == 0 {
      assert FirstLeast(earlier, buckets, times, 1, 0);
    } else {
      var i: nat :| i < n && v == Some(VerdictAt(earlier, buckets, times, i)) && FirstLeast(earlier, buckets, times, n, i);
      FirstLeastGrows(earlier, buckets, times, n, i);
      var best := if next.remaining < v.value.remaining then n else i;
      assert FirstLeast(earlier, buckets, times, n + 1, best);
    }
  }

  class Limiter {
    var store: Store
    ghost var hits: seq<Hit>

    ghost predicate Valid() reads this { store == StoreAfter(hits) }

    constructor ()
      ensures Valid() && hits == []
    {
      store, hits := map[], [];
    }

    /** The script call. After an error the counter may or may not have been incremented. */
    method Evaluate(bucket: Bucket, at: Time) returns (ok: bool, current: nat, ttl: int)
      requires Valid()
      modifies this
      ensures Valid()
      ensures ok ==> hits == old(hits) + [Hit(bucket, at)]
      ensures ok ==> var v := Judge(old(hits), Hit(bucket, at)); current == v.current && ttl == v.retryAfter
      ensures !ok ==> hits == old(hits) || hits == old(hits) + [Hit(bucket, at)]
    {
      ok := *;
      current, ttl := 0, 0;
      var ran: bool := *;
      if ok || ran {
        var e := Increment(Lookup(store, bucket.key), bucket.window, at);
        store := store[bucket.key := e];
        ghost var before := hits;
        hits := hits + [Hit(bucket, at)];
        assert hits[..|hits| - 1] == before;
        if ok {
          current, ttl := e.count, e.expires - at;
        }
      }
    }

    /** The verdict on bucket `i` of a request, or no verdict after an error. */
    method Decide(ghost before: seq<Hit>, buckets: seq<Bucket>, times: seq<Time>, i: nat) returns (v: Option<Verdict>, ghost n: nat)
      requires Valid() && i < |buckets| == |times| && hits == before + HitsOf(buckets, times)[..i]
      modifies this
      ensures Valid()
      ensures i <= n <= i + 1 && hits == before + HitsOf(buckets, times)[..n]
      ensures v.Some? ==> n == i + 1 && v == Some(VerdictAt(before, buckets, times, i))
    {
      NextHit(before, HitsOf(buckets, times), i);
      var ok, current, ttl := Evaluate(buckets[i], times[i]);
      n := if hits == before + HitsOf(buckets, times)[..i] then i else i + 1;
      v := if ok then
             Some(Verdict(buckets[i], current, Max(buckets[i].limit - current, 0), ttl, current > buckets[i].limit))
           else None;
    }

    /**
      * The first exceeded bucket decides and later ones are not counted; otherwise the verdict is the
      * first with the least remaining. An error after no exceeded bucket makes the check unavailable.
      */
    method Check(buckets: seq<Bucket>, times: seq<Time>) returns (r: Checked, ghost n: nat)
      requires Valid() && |times| == |buckets|
      requires forall b | b in buckets :: b.limit > 0
      modifies this
      ensures Valid()
      ensures n <= |buckets| && hits == old(hits) + HitsOf(buckets, times)[..n]
      ensures r.Unlimited? <==> buckets == []
      ensures r.Limited? && r.verdict.exceeded ==>
                n > 0 && r.verdict == VerdictAt(old(hits), buckets, times, n - 1) && Passed(old(hits), buckets, times, n - 1)
      ensures r.Limited? && !r.verdict.exceeded ==>
                n == |buckets| && Passed(old(hits), buckets, times, n) && Chosen(old(hits), buckets, times, n, Some(r.verdict))
      ensures r.Unavailable? && n > 0 ==> Passed(old(hits), buckets, times, n - 1)
    {
      ghost var before := hits;
      assert HitsOf(buckets, times)[..0] == [];
      var selected: Option<Verdict> := None;
      n := 0;
      for i := 0 to |buckets|
        invariant Valid() && n == i && hits == before + HitsOf(buckets, times)[..i]
        invariant Passed(before, buckets, times, i)
        invariant Chosen(before, buckets, times, i, selected)
      {
        ChosenGrows(before, buckets, times, i, selected);
        var decision;
        decision, n := Decide(before, buckets, times, i);
        if decision.None? { return Unavailable, n; }
        var verdict := decision.value;
        if verdict.exceeded { return Limited(verdict), n; }
        if selected.None? || verdict.remaining < selected.value.remaining {
          selected := Some(verdict);
        }
      }
      r := if selected.None? then Unlimited else Limited(selected.value);
    }

    static lemma {:induction false} NextHit(before: seq<Hit>, all: seq<Hit>, i: nat)
      requires i < |all|
      ensures before + all[..i + 1] == before + all[..i] + [all[i]]
      ensures |before + all[..i + 1]| != |before + all[..i]|
    {
    }
  }

  // ---- The in-place filter -------------------------------------------------------------------

  predicate Enabled(b: Bucket) { b.limit > 0 && b.window > 0 }

  function EnabledOf(buckets: seq<Bucket>): seq<Bucket> {
    if buckets == [] then []
    else
      var b := buckets[|buckets| - 1];
      EnabledOf(buckets[..|buckets| - 1]) + (if Enabled(b) then [b] else [])
  }

  lemma {:induction false} EnabledOfShrinks(buckets: seq<Bucket>)
    ensures |EnabledOf(buckets)| <= |buckets|
  {
    if buckets != [] {
      EnabledOfShrinks(buckets[..|buckets| - 1]);
    }
  }

  /** Every bucket with a positive limit and window is kept, as often as it occurs, and no other; their order stays. */
  lemma {:induction false} EnabledOfExactly(buckets: seq<Bucket>, b: Bucket)
    ensures multiset(EnabledOf(buckets))[b] == if b.limit > 0 && b.window > 0 then multiset(buckets)[b] else 0
  {
    if buckets != [] {
      var n := |buckets| - 1;
      EnabledOfExactly(buckets[..n], b);
      assert buckets == buckets[..n] + [buckets[n]];
    }
  }

  lemma {:induction false} EnabledOfSplits(a: seq<Bucket>, b: seq<Bucket>)
    ensures EnabledOf(a + b) == EnabledOf(a) + EnabledOf(b)
  {
    if b == [] {
      assert a + b == a;
    } else {
      var n := |b| - 1;
      EnabledOfSplits(a, b[..n]);
      assert (a + b)[..|a + b| - 1] == a + b[..n];
    }
  }

  /** The result reuses the slice's own array, which is still being read. */
  method EnabledBuckets(buckets: array<Bucket>) returns (n: nat)
    modifies buckets
    ensures n <= buckets.Length && buckets[..n] == EnabledOf(old(buckets[..]))
    ensures buckets[n..] == old(buckets[n..])
  {
    n := 0;
    ghost var was := buckets[..];
    for i := 0 to buckets.Length
      invariant n <= i
      invariant buckets[..n] == EnabledOf(was[..i])
      invariant forall k | n <= k < buckets.Length :: buckets[k] == was[k]
    {
      var bucket := buckets[i];
      assert was[..i + 1][..i] == was[..i];
      if bucket.limit > 0 && bucket.window > 0 {
        buckets[n] := bucket;
        n := n + 1;
      }
    }
    assert was[..buckets.Length] == was;
  }
}
