/**
 The bounded, expiring memory of remotely received update hashes in `RedisCollabPubSub`.

 A JavaScript Map iterates in insertion order and keeps a key's place when its value is
 overwritten; it is modelled as a sequence of entries with distinct hashes.
 */
module RemoteHashMemory {
  import opened Common

  const TTL_MS: int := 60_000
  const MAX_ENTRIES: nat := 4096

  type Hash = string

  datatype Entry = Entry(hash: Hash, expiresAt: int)

  predicate Has(entries: seq<Entry>, h: Hash) { exists k :: 0 <= k < |entries| && entries[k].hash == h }

  predicate Distinct(entries: seq<Entry>) {
    forall i, j :: 0 <= i < j < |entries| ==> entries[i].hash != entries[j].hash
  }

  /** No duplicates, within the bound, and no empty hash (a SHA-256 digest has 64 digits). */
  predicate WellFormed(entries: seq<Entry>) {
    Distinct(entries) && |entries| <= MAX_ENTRIES && forall k :: 0 <= k < |entries| ==> entries[k].hash != ""
  }

  function Without(entries: seq<Entry>, h: Hash): seq<Entry> {
    if entries == [] then []
    else if entries[0].hash == h then Without(entries[1..], h)
    else [entries[0]] + Without(entries[1..], h)
  }

  function Live(entries: seq<Entry>, now: int): seq<Entry> {
    if entries == [] then []
    else if entries[0].expiresAt <= now then Live(entries[1..], now)
    else [entries[0]] + Live(entries[1..], now)
  }

  /** `Map.set`: overwrite in place, or append. */
  function SetHash(entries: seq<Entry>, h: Hash, expiresAt: int): seq<Entry> {
    if entries == [] then [Entry(h, expiresAt)]
    else if entries[0].hash == h then [Entry(h, expiresAt)] + entries[1..]
    else [entries[0]] + SetHash(entries[1..], h, expiresAt)
  }

  lemma {:induction false} WithoutFacts(entries: seq<Entry>, h: Hash)
    ensures forall e :: e in Without(entries, h) <==> e in entries && e.hash != h
    ensures |Without(entries, h)| <= |entries|
    ensures Distinct(entries) ==> Distinct(Without(entries, h))
  {
    if entries != [] {
      WithoutFacts(entries[1..], h);
    }
  }

  lemma {:induction false} LiveFacts(entries: seq<Entry>, now: int)
    ensures forall e :: e in Live(entries, now) <==> e in entries && e.expiresAt > now
    ensures |Live(entries, now)| <= |entries|
    ensures Distinct(entries) ==> Distinct(Live(entries, now))
  {
    if entries != [] {
      LiveFacts(entries[1..], now);
    }
  }

  lemma {:induction false} SetFacts(entries: seq<Entry>, h: Hash, expiresAt: int)
    requires Distinct(entries)
    ensures var r := SetHash(entries, h, expiresAt);
            && (forall e :: e in r <==> e == Entry(h, expiresAt) || (e in entries && e.hash != h))
            && Distinct(r)
            && |entries| <= |r| <= |entries| + 1
            && (|r| > |entries| ==> r[|r| - 1].hash == h)
  {
    if entries != [] && entries[0].hash != h {
      SetFacts(entries[1..], h, expiresAt);
    }
  }

  /** A hash that is set again keeps its place; a new one is the newest. */
  lemma {:induction false} SetKeepsPlaces(entries: seq<Entry>, h: Hash, expiresAt: int)
    ensures var r := SetHash(entries, h, expiresAt);
            && |r| == (if Has(entries, h) then |entries| else |entries| + 1)
            && (forall k :: 0 <= k < |entries| ==> r[k].hash == entries[k].hash)
            && (!Has(entries, h) ==> r[|entries|] == Entry(h, expiresAt))
  {
    if entries != [] && entries[0].hash != h {
      var rest := entries[1..];
      SetKeepsPlaces(rest, h, expiresAt);
      assert Has(entries, h) <==> Has(rest, h) by {
        if k :| 0 <= k < |entries| && entries[k].hash == h {
          assert rest[k - 1].hash == h;
        }
        if k :| 0 <= k < |rest| && rest[k].hash == h {
          assert entries[k + 1].hash == h;
        }
      }
    }
  }

  function Evicted(entries: seq<Entry>): seq<Entry> {
    if |entries| > MAX_ENTRIES then entries[|entries| - MAX_ENTRIES..] else entries
  }

  function Remember(entries: seq<Entry>, h: Hash, now: int): seq<Entry> {
    Evicted(SetHash(Live(entries, now), h, now + TTL_MS))
  }

  lemma {:induction false} SetNonEmpty(entries: seq<Entry>, h: Hash, expiresAt: int)
    requires h != "" && forall k :: 0 <= k < |entries| ==> entries[k].hash != ""
    ensures forall k :: 0 <= k < |SetHash(entries, h, expiresAt)| ==> SetHash(entries, h, expiresAt)[k].hash != ""
  {
    if entries != [] && entries[0].hash != h {
      SetNonEmpty(entries[1..], h, expiresAt);
    }
  }

  /** After a set only the length can be off, by one, and then the new hash is last. */
  lemma {:induction false} SetKeeps(entries: seq<Entry>, h: Hash, now: int)
    requires WellFormed(entries) && h != ""
    ensures var s := SetHash(Live(entries, now), h, now + TTL_MS);
            && Distinct(s) && |s| <= MAX_ENTRIES + 1 && (forall k :: 0 <= k < |s| ==> s[k].hash != "")
            && Entry(h, now + TTL_MS) in s
            && (|s| > MAX_ENTRIES ==> s[|s| - 1] == Entry(h, now + TTL_MS))
  {
    WithoutKeeps(entries, h, now);
    SetInLive(Live(entries, now), h, now + TTL_MS);
  }

  lemma {:induction false} SetInLive(live: seq<Entry>, h: Hash, expiresAt: int)
    requires WellFormed(live) && h != ""
    ensures var s := SetHash(live, h, expiresAt);
            && Distinct(s) && |s| <= MAX_ENTRIES + 1 && (forall k :: 0 <= k < |s| ==> s[k].hash != "")
            && Entry(h, expiresAt) in s
            && (|s| > MAX_ENTRIES ==> s[|s| - 1] == Entry(h, expiresAt))
  {
    var s := SetHash(live, h, expiresAt);
    SetFacts(live, h, expiresAt);
    SetNonEmpty(live, h, expiresAt);
    if |s| > MAX_ENTRIES {
      assert s[|s| - 1] in s;
    }
  }

  /** `rememberRemoteUpdateHash` returns within the bound and keeps the hash it was given. */
  lemma {:induction false} RememberKeeps(entries: seq<Entry>, h: Hash, now: int)
    requires WellFormed(entries) && h != ""
    ensures WellFormed(Remember(entries, h, now)) && |Remember(entries, h, now)| <= 4096
    ensures Entry(h, now + 60_000) in Remember(entries, h, now)
  {
    SetKeeps(entries, h, now);
    var s := SetHash(Live(entries, now), h, now + TTL_MS);
    if |s| > MAX_ENTRIES {
      assert Evicted(s)[MAX_ENTRIES - 1] == s[|s| - 1];
    }
  }

  lemma {:induction false} RememberOnly(entries: seq<Entry>, h: Hash, now: int)
    requires WellFormed(entries)
    ensures forall e :: e in Remember(entries, h, now) ==> e == Entry(h, now + TTL_MS) || e in entries
  {
    LiveFacts(entries, now);
    SetFacts(Live(entries, now), h, now + TTL_MS);
  }

  /** The eviction loop of remembering `stored` deletes `h`. */
  predicate Evicts(entries: seq<Entry>, stored: Hash, now: int, h: Hash) {
    var s := SetHash(Live(entries, now), stored, now + TTL_MS);
    exists k :: 0 <= k < |s| - MAX_ENTRIES && s[k].hash == h
  }

  /** Remembering one hash keeps every other live entry, unless it evicts it. */
  lemma {:induction false} RememberOther(entries: seq<Entry>, stored: Hash, now: int, e: Entry)
    requires WellFormed(entries) && stored != "" && e in entries && e.hash != stored && e.expiresAt > now
    requires !Evicts(entries, stored, now, e.hash)
    ensures e in Remember(entries, stored, now)
  {
    var s := SetHash(Live(entries, now), stored, now + TTL_MS);
    LiveFacts(entries, now);
    SetFacts(Live(entries, now), stored, now + TTL_MS);
    var k :| 0 <= k < |s| && s[k] == e;
    if |s| > MAX_ENTRIES {
      assert k >= |s| - MAX_ENTRIES;
      assert Evicted(s)[k - (|s| - MAX_ENTRIES)] == e;
    }
  }

  lemma {:induction false} EvictedIsGone(entries: seq<Entry>, stored: Hash, now: int, h: Hash)
    requires WellFormed(entries) && stored != "" && Evicts(entries, stored, now, h)
    ensures forall e :: e in Remember(entries, stored, now) ==> e.hash != h
  {
    SetKeeps(entries, stored, now);
    DroppedFront(SetHash(Live(entries, now), stored, now + TTL_MS), h);
  }

  lemma {:induction false} DroppedFront(s: seq<Entry>, h: Hash)
    requires Distinct(s) && exists k :: 0 <= k < |s| - MAX_ENTRIES && s[k].hash == h
    ensures forall e :: e in Evicted(s) ==> e.hash != h
  {
    var k :| 0 <= k < |s| - MAX_ENTRIES && s[k].hash == h;
    forall e | e in Evicted(s) ensures e.hash != h {
      var j :| 0 <= j < |Evicted(s)| && Evicted(s)[j] == e;
      assert s[j + |s| - MAX_ENTRIES] == e;
    }
  }

  lemma {:induction false} WithoutKeeps(entries: seq<Entry>, h: Hash, now: int)
    requires WellFormed(entries)
    ensures WellFormed(Without(entries, h)) && WellFormed(Live(entries, now))
  {
    WithoutFacts(entries, h);
    LiveFacts(entries, now);
    forall k | 0 <= k < |Without(entries, h)| ensures Without(entries, h)[k].hash != "" {
      assert Without(entries, h)[k] in entries;
    }
    forall k | 0 <= k < |Live(entries, now)| ensures Live(entries, now)[k].hash != "" {
      assert Live(entries, now)[k] in entries;
    }
  }

  lemma {:induction false} LiveStep(done: seq<Entry>, e: Entry, rest: seq<Entry>, now: int)
    ensures done + Live([e] + rest, now)
            == if e.expiresAt <= now then done + Live(rest, now) else (done + [e]) + Live(rest, now)
  {
    assert ([e] + rest)[1..] == rest;
  }

  lemma {:induction false} PruneStep(entries: seq<Entry>, k: nat, now: int)
    requires k < |entries|
    ensures var dropped := entries[..k] + entries[k + 1..];
            entries[..k] + Live(entries[k..], now)
            == if entries[k].expiresAt <= now then dropped[..k] + Live(dropped[k..], now)
               else entries[..k + 1] + Live(entries[k + 1..], now)
  {
    var kept, rest := entries[..k], entries[k + 1..];
    LiveStep(kept, entries[k], rest, now);
    assert entries[k..] == [entries[k]] + rest;
    assert (kept + rest)[..k] == kept && (kept + rest)[k..] == rest;
    assert entries[..k + 1] == kept + [entries[k]];
  }

  // ---- The mutable memory -------------------------------------------------------------

  class Memory {
    var entries: seq<Entry>

    ghost predicate Valid()
      reads this
    {
      WellFormed(entries)
    }

    constructor ()
      ensures Valid() && entries == []
    {
      entries := [];
    }

    /** `pruneRemoteUpdateHashes`: delete while iterating. */
    method Prune(now: int)
      modifies this
      ensures entries == Live(old(entries), now)
    {
      ghost var all := entries;
      var k := 0;
      assert entries[..0] + Live(entries[0..], now) == Live(all, now);
      while k < |entries|
        invariant 0 <= k <= |entries|
        invariant entries[..k] + Live(entries[k..], now) == Live(all, now)
        decreases |entries| - k
      {
        PruneStep(entries, k, now);
        if entries[k].expiresAt <= now {
          entries := entries[..k] + entries[k + 1..];
        } else {
          k := k + 1;
        }
      }
      assert entries[k..] == [] && entries[..k] == entries;
    }

    /** `Map.delete`. */
    method Delete(h: Hash)
      requires Valid()
      modifies this
      ensures Valid() && entries == Without(old(entries), h)
    {
      WithoutKeeps(entries, h, 0);
      entries := Without(entries, h);
    }

    /** `rememberRemoteUpdateHash`: prune, set, and evict from the front down to the bound. */
    method RememberHash(h: Hash, now: int)
      requires Valid() && h != ""
      modifies this
      ensures Valid() && entries == Remember(old(entries), h, now)
    {
      RememberKeeps(entries, h, now);
      SetKeeps(entries, h, now);
      Prune(now);
      entries := SetHash(entries, h, now + TTL_MS);
      ghost var all, n := entries, 0;
      while |entries| > MAX_ENTRIES
        invariant 0 <= n <= |all| && entries == all[n..] && (n > 0 ==> |entries| >= MAX_ENTRIES)
      {
        var oldest := entries[0].hash;
        if oldest == "" {
          assert false;
        }
        entries, n := entries[1..], n + 1;
      }
      assert entries == Evicted(all);
    }

    /** `isRemoteUpdate`: a remembered hash is consumed by the first question about it. */
    method IsRemoteUpdate(h: Hash, now: int) returns (remote: bool)
      requires Valid()
      modifies this
      ensures Valid() && entries == Without(Live(old(entries), now), h)
      ensures remote == Has(Live(old(entries), now), h)
    {
      WithoutKeeps(entries, h, now);
      Prune(now);
      ghost var live := entries;
      remote := exists k :: 0 <= k < |entries| && entries[k].hash == h;
      if !remote {
        WithoutAbsent(live, h);
        return;
      }
      Delete(h);
    }
  }

  lemma {:induction false} WithoutAbsent(entries: seq<Entry>, h: Hash)
    requires !Has(entries, h)
    ensures Without(entries, h) == entries
  {
    if entries != [] {
      assert forall k :: 0 <= k < |entries| - 1 ==> entries[1..][k] == entries[k + 1];
      WithoutAbsent(entries[1..], h);
    }
  }

  // ---- Against an unbounded memory ----------------------------------------------------

  datatype Call = Remembered(h: Hash, now: int) | Asked(h: Hash, now: int) | Discarded(h: Hash, now: int)

  function After(entries: seq<Entry>, c: Call): seq<Entry> {
    match c
    case Remembered(h, now) => Remember(entries, h, now)
    case Asked(h, now) => Without(Live(entries, now), h)
    case Discarded(h, _) => Without(entries, h)
  }

  function AfterAll(calls: seq<Call>): seq<Entry> {
    if calls == [] then [] else After(AfterAll(calls[..|calls| - 1]), calls[|calls| - 1])
  }

  predicate Answer(entries: seq<Entry>, c: Call) { c.Asked? && Has(Live(entries, c.now), c.h) }

  /** The unbounded memory: when the latest unconsumed remembering of `h` expires. */
  function Ideal(calls: seq<Call>, h: Hash): Option<int> {
    if calls == [] then None
    else
      var c, before := calls[|calls| - 1], Ideal(calls[..|calls| - 1], h);
      if c.h != h then before
      else
        match c
        case Remembered(_, now) => Some(now + TTL_MS)
        case Asked(_, now) => if before.Some? && before.value > now then None else before
        case Discarded(_, _) => None
  }

  predicate IdealAnswer(calls: seq<Call>, c: Call) {
    c.Asked? && Ideal(calls, c.h).Some? && Ideal(calls, c.h).value > c.now
  }

  /** Hashes are digests and the clock never runs back. */
  predicate Monotone(calls: seq<Call>) {
    calls != [] ==>
      var front, c := calls[..|calls| - 1], calls[|calls| - 1];
      Monotone(front) && c.h != "" && (front != [] ==> front[|front| - 1].now <= c.now)
  }

  /** The memory never overflowed. */
  predicate NoEviction(calls: seq<Call>) {
    calls != [] ==>
      var front, c := calls[..|calls| - 1], calls[|calls| - 1];
      && NoEviction(front)
      && (c.Remembered? ==> |SetHash(Live(AfterAll(front), c.now), c.h, c.now + TTL_MS)| <= MAX_ENTRIES)
  }

  lemma {:induction false} MonotoneCalls(calls: seq<Call>)
    requires Monotone(calls)
    ensures forall i :: 0 <= i < |calls| ==> calls[i].h != "" && calls[i].now <= calls[|calls| - 1].now
  {
    if calls != [] {
      MonotoneCalls(calls[..|calls| - 1]);
    }
  }

  ghost predicate Sound(entries: seq<Entry>, calls: seq<Call>) {
    WellFormed(entries) && forall e :: e in entries ==> Ideal(calls, e.hash) == Some(e.expiresAt)
  }

  lemma {:induction false} IdealStep(calls: seq<Call>, c: Call, h: Hash)
    ensures Ideal(calls + [c], h) ==
            if c.h != h then Ideal(calls, h)
            else match c
              case Remembered(_, now) => Some(now + TTL_MS)
              case Asked(_, now) => if Ideal(calls, h).Some? && Ideal(calls, h).value > now then None else Ideal(calls, h)
              case Discarded(_, _) => None
  {
    assert (calls + [c])[..|calls|] == calls;
  }

  lemma {:induction false} RememberIsSound(entries: seq<Entry>, calls: seq<Call>, c: Call)
    requires Sound(entries, calls) && c.h != "" && c.Remembered?
    ensures Sound(After(entries, c), calls + [c])
  {
    RememberKeeps(entries, c.h, c.now);
    LiveFacts(entries, c.now);
    SetFacts(Live(entries, c.now), c.h, c.now + TTL_MS);
    forall e | e in After(entries, c) ensures Ideal(calls + [c], e.hash) == Some(e.expiresAt) {
      IdealStep(calls, c, e.hash);
      assert e in SetHash(Live(entries, c.now), c.h, c.now + TTL_MS);
    }
  }

  lemma {:induction false} SoundStep(entries: seq<Entry>, calls: seq<Call>, c: Call)
    requires Sound(entries, calls) && c.h != ""
    ensures Sound(After(entries, c), calls + [c])
  {
    if c.Remembered? {
      RememberIsSound(entries, calls, c);
    } else {
      WithoutKeeps(entries, c.h, c.now);
      WithoutKeeps(Live(entries, c.now), c.h, c.now);
      LiveFacts(entries, c.now);
      WithoutFacts(entries, c.h);
      WithoutFacts(Live(entries, c.now), c.h);
      forall e | e in After(entries, c) ensures Ideal(calls + [c], e.hash) == Some(e.expiresAt) {
        IdealStep(calls, c, e.hash);
      }
    }
  }

  lemma {:induction false} MemoryIsSound(calls: seq<Call>)
    requires forall i :: 0 <= i < |calls| ==> calls[i].h != ""
    ensures Sound(AfterAll(calls), calls)
  {
    if calls != [] {
      var front, c := calls[..|calls| - 1], calls[|calls| - 1];
      MemoryIsSound(front);
      SoundStep(AfterAll(front), front, c);
      assert front + [c] == calls;
    }
  }

  /** An entry that the call does not consume, discard, overwrite or evict survives it. */
  lemma {:induction false} SurvivesCall(entries: seq<Entry>, c: Call, e: Entry)
    requires WellFormed(entries) && c.h != "" && e in entries && e.hash != c.h && e.expiresAt > c.now
    requires c.Remembered? ==> |SetHash(Live(entries, c.now), c.h, c.now + TTL_MS)| <= MAX_ENTRIES
    ensures e in After(entries, c)
  {
    match c
    case Remembered(h, now) => RememberOther(entries, h, now, e);
    case Asked(h, now) => AskedOther(entries, h, now, e);
    case Discarded(h, _) => WithoutFacts(entries, h);
  }

  lemma {:induction false} AskedOther(entries: seq<Entry>, h: Hash, now: int, e: Entry)
    requires e in entries && e.hash != h && e.expiresAt > now
    ensures e in Live(entries, now) && e in Without(Live(entries, now), h)
  {
    LiveFacts(entries, now);
    WithoutFacts(Live(entries, now), h);
  }

  lemma {:induction false} MemoryIsComplete(calls: seq<Call>, h: Hash, x: int)
    requires Monotone(calls) && NoEviction(calls)
    requires calls != [] && Ideal(calls, h) == Some(x) && x > calls[|calls| - 1].now
    ensures Entry(h, x) in AfterAll(calls)
  {
    var front, c := calls[..|calls| - 1], calls[|calls| - 1];
    if c.h != h {
      MemoryIsComplete(front, h, x);
    }
    assert WellFormed(AfterAll(front)) by {
      MonotoneCalls(front);
      MemoryIsSound(front);
    }
    CompleteStep(AfterAll(front), c, h, x);
  }

  lemma {:induction false} CompleteStep(entries: seq<Entry>, c: Call, h: Hash, x: int)
    requires WellFormed(entries) && c.h != "" && x > c.now
    requires if c.h != h then Entry(h, x) in entries else c.Remembered? && x == c.now + TTL_MS
    requires c.Remembered? ==> |SetHash(Live(entries, c.now), c.h, c.now + TTL_MS)| <= MAX_ENTRIES
    ensures Entry(h, x) in After(entries, c)
  {
    if c.h != h {
      SurvivesCall(entries, c, Entry(h, x));
    } else {
      RememberKeeps(entries, h, c.now);
    }
  }

  /**
   Whatever was asked before, a true answer is one the unbounded memory gives too; and
   when the memory never overflowed and the clock never ran back, the answers agree.
   */
  lemma {:induction false} AnswersRefineIdeal(calls: seq<Call>, c: Call)
    requires c.Asked? && forall i :: 0 <= i < |calls| ==> calls[i].h != ""
    ensures Answer(AfterAll(calls), c) ==> IdealAnswer(calls, c)
    ensures Monotone(calls + [c]) && NoEviction(calls) ==> (Answer(AfterAll(calls), c) <==> IdealAnswer(calls, c))
  {
    MemoryIsSound(calls);
    var live := Live(AfterAll(calls), c.now);
    LiveFacts(AfterAll(calls), c.now);
    if Has(live, c.h) {
      var k :| 0 <= k < |live| && live[k].hash == c.h;
      assert live[k] in live;
    }
    if Monotone(calls + [c]) && NoEviction(calls) && IdealAnswer(calls, c) {
      assert (calls + [c])[..|calls|] == calls;
      MemoryIsComplete(calls, c.h, Ideal(calls, c.h).value);
      var e := Entry(c.h, Ideal(calls, c.h).value);
      assert e in live;
    }
  }

  function TrueAnswers(calls: seq<Call>, h: Hash): nat {
    if calls == [] then 0
    else
      var front, c := calls[..|calls| - 1], calls[|calls| - 1];
      TrueAnswers(front, h) + if c.h == h && Answer(AfterAll(front), c) then 1 else 0
  }

  function Rememberings(calls: seq<Call>, h: Hash): nat {
    if calls == [] then 0
    else Rememberings(calls[..|calls| - 1], h) + if calls[|calls| - 1] == Remembered(h, calls[|calls| - 1].now) then 1 else 0
  }

  /** A hash is recognised no more often than it was remembered. */
  lemma {:induction false} AnswersNeedRememberings(calls: seq<Call>, h: Hash)
    requires forall i :: 0 <= i < |calls| ==> calls[i].h != ""
    ensures TrueAnswers(calls, h) + (if Ideal(calls, h).Some? then 1 else 0) <= Rememberings(calls, h)
  {
    if calls != [] {
      var front, c := calls[..|calls| - 1], calls[|calls| - 1];
      AnswersNeedRememberings(front, h);
      if c.Asked? {
        AnswersRefineIdeal(front, c);
      }
    }
  }

  /**
   A hash is recognised only within the time to live of a remembering, and neither a true
   answer nor a discard nor a newer remembering came in between.
   */
  lemma {:induction false} AnswersAreRecent(calls: seq<Call>, h: Hash) returns (j: nat)
    requires forall i :: 0 <= i < |calls| ==> calls[i].h != ""
    requires Ideal(calls, h).Some?
    ensures j < |calls| && calls[j] == Remembered(h, Ideal(calls, h).value - TTL_MS)
    ensures forall k :: j < k < |calls| && calls[k].h == h ==> calls[k].Asked? && !Answer(AfterAll(calls[..k]), calls[k])
  {
    var front, c := calls[..|calls| - 1], calls[|calls| - 1];
    if c == Remembered(h, c.now) {
      j := |front|;
    } else {
      assert front + [c] == calls;
      KeptByLast(front, c, h);
      j := AnswersAreRecent(front, h);
      assert calls[j] == front[j];
      forall k | j < k < |calls| && calls[k].h == h ensures calls[k].Asked? && !Answer(AfterAll(calls[..k]), calls[k]) {
        if k < |front| {
          assert calls[..k] == front[..k] && front[k] == calls[k];
        }
      }
    }
  }

  /** The last call, if it is for `h` and did not remember it, was a question answered with false. */
  lemma {:induction false} KeptByLast(front: seq<Call>, c: Call, h: Hash)
    requires c.h != "" && forall i :: 0 <= i < |front| ==> front[i].h != ""
    requires Ideal(front + [c], h).Some? && c != Remembered(h, c.now)
    ensures Ideal(front, h) == Ideal(front + [c], h)
    ensures c.h == h ==> c.Asked? && !Answer(AfterAll(front), c)
  {
    IdealStep(front, c, h);
    if c.Asked? {
      AnswersRefineIdeal(front, c);
    }
  }

  /** A true answer at `c.now` follows a remembering less than 60 seconds old. */
  lemma {:induction false} TrueAnswerIsFresh(calls: seq<Call>, c: Call) returns (j: nat)
    requires Monotone(calls + [c]) && Answer(AfterAll(calls), c)
    ensures j < |calls| && calls[j] == Remembered(c.h, calls[j].now)
    ensures calls[j].now <= c.now < calls[j].now + 60_000
  {
    MonotoneCalls(calls + [c]);
    assert (calls + [c])[..|calls|] == calls;
    MonotoneCalls(calls);
    AnswersRefineIdeal(calls, c);
    j := AnswersAreRecent(calls, c.h);
    assert (calls + [c])[j] == calls[j];
  }
}
