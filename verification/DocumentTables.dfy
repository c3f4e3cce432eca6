/**
 The three database tables of one collaborative document: the row with the sequence
 counter, the compacted snapshot and the batches of updates.

 A CRDT update is a finite set of operations and applying or merging updates is set
 union. A transaction is one function of the tables.
 */
module DocumentTables {
  import opened Common

  type Op = nat

  datatype Pending = Pending(ops: set<Op>, actor: Option<string>)

  datatype Batch = Batch(fromSeq: nat, toSeq: nat, payload: set<Op>, updateCount: nat,
                         actor: Option<string>, createdAt: int)

  datatype Snapshot = Snapshot(ops: set<Op>, compactedUntil: nat)

  datatype Tables = Tables(workspaceId: string, currentSeq: nat, lastEditedBy: Option<string>,
                           snapshot: Option<Snapshot>, batches: seq<Batch>)

  /** `mergeUpdates`: every operation of every update. */
  function Merge(updates: seq<Pending>): set<Op> {
    set p, o | p in updates && o in p.ops :: o
  }

  lemma {:induction false} MergeConcat(a: seq<Pending>, b: seq<Pending>)
    ensures Merge(a + b) == Merge(a) + Merge(b)
  {
    forall o | o in Merge(a) + Merge(b) ensures o in Merge(a + b) {
      if o in Merge(a) {
        var p :| p in a && o in p.ops;
        assert p in a + b;
      } else {
        var p :| p in b && o in p.ops;
        assert p in a + b;
      }
    }
  }

  /** The newest actor that is present and not the empty string. */
  function LastActor(updates: seq<Pending>): (r: Option<string>)
    ensures r.Some? ==> r.value != "" && exists k :: 0 <= k < |updates| && updates[k].actor == r
    ensures r.None? ==> forall k :: 0 <= k < |updates| ==> updates[k].actor in {None, Some("")}
  {
    if updates == [] then None
    else
      var last := updates[|updates| - 1];
      if last.actor.Some? && last.actor.value != "" then last.actor
      else LastActor(updates[..|updates| - 1])
  }

  /** No update after the one it comes from has an actor. */
  lemma {:induction false} LastActorIsNewest(updates: seq<Pending>) returns (k: nat)
    requires LastActor(updates).Some?
    ensures k < |updates| && updates[k].actor == LastActor(updates)
    ensures forall j :: k < j < |updates| ==> updates[j].actor == None || updates[j].actor == Some("")
  {
    var n := |updates| - 1;
    var last := updates[n];
    if last.actor.Some? && last.actor.value != "" {
      k := n;
    } else {
      k := LastActorIsNewest(updates[..n]);
    }
  }

  function OrElse<T>(a: Option<T>, b: Option<T>): Option<T> { if a.Some? then a else b }

  lemma {:induction false} LastActorConcat(a: seq<Pending>, b: seq<Pending>)
    ensures LastActor(a + b) == OrElse(LastActor(b), LastActor(a))
  {
    if b == [] {
      assert a + b == a;
    } else {
      var rest := b[..|b| - 1];
      assert (a + b)[..|a + b| - 1] == a + rest;
      LastActorConcat(a, rest);
    }
  }

  /** The backwards scan of `lastActorUserId`. */
  method LastActorUserId(pending: seq<Pending>) returns (r: Option<string>)
    ensures r == LastActor(pending)
  {
    var index := |pending|;
    assert pending[..index] == pending;
    while index > 0
      invariant 0 <= index <= |pending|
      invariant LastActor(pending) == LastActor(pending[..index])
    {
      index := index - 1;
      assert pending[..index + 1][..index] == pending[..index];
      var actor := pending[index].actor;
      if actor.Some? && actor.value != "" {
        return actor;
      }
    }
    return None;
  }

  function Compacted(t: Tables): nat {
    if t.snapshot.Some? then t.snapshot.value.compactedUntil else 0
  }

  /** The flush transaction: number the updates after the counter and append one batch. */
  function CommitBatch(t: Tables, updates: seq<Pending>, now: int): Tables {
    var actor := LastActor(updates);
    var batch := Batch(t.currentSeq + 1, t.currentSeq + |updates|, Merge(updates), |updates|, actor, now);
    t.(currentSeq := batch.toSeq, lastEditedBy := OrElse(actor, t.lastEditedBy), batches := t.batches + [batch])
  }

  /** The store transaction: the encoded state is compacted up to the counter read under the lock. */
  function StoreSnapshot(t: Tables, encoded: set<Op>): Tables {
    t.(snapshot := Some(Snapshot(encoded, t.currentSeq)))
  }

  predicate Prunable(b: Batch, upTo: nat, cutoff: int) { b.toSeq <= upTo && b.createdAt < cutoff }

  function KeepBatches(batches: seq<Batch>, upTo: nat, cutoff: int): (r: seq<Batch>)
    ensures forall b :: b in r <==> b in batches && !Prunable(b, upTo, cutoff)
  {
    if batches == [] then []
    else
      var rest := KeepBatches(batches[1..], upTo, cutoff);
      if Prunable(batches[0], upTo, cutoff) then rest else [batches[0]] + rest
  }

  function Prune(t: Tables, upTo: nat, cutoff: int): Tables {
    t.(batches := KeepBatches(t.batches, upTo, cutoff))
  }

  /** What `initializeProjectDocument` decides from the row it reads. */
  datatype InitDecision = NotLinked | AlreadyPresent | Incomplete | Insert

  function InitDecide(linked: bool, t: Tables): InitDecision {
    if !linked then NotLinked
    else if t.snapshot.Some? || t.batches != [] then AlreadyPresent
    else if t.currentSeq != 0 then Incomplete
    else Insert
  }

  /** INSERT ... ON CONFLICT DO NOTHING of the project's source content, compacted until 0. */
  function InsertInitial(t: Tables, content: set<Op>): Tables {
    if t.snapshot.Some? then t else t.(snapshot := Some(Snapshot(content, 0)))
  }

  /** Everything `load` applies: the snapshot and the batches that end after it. */
  function Load(t: Tables): set<Op> {
    (if t.snapshot.Some? then t.snapshot.value.ops else {})
    + (set b, o | b in t.batches && b.toSeq > Compacted(t) && o in b.payload :: o)
  }

  /** No batch and no snapshot runs ahead of the counter. */
  predicate Bounded(t: Tables) {
    Compacted(t) <= t.currentSeq && forall b :: b in t.batches ==> b.toSeq <= t.currentSeq
  }

  // What each statement does to the loaded document.

  lemma {:induction false} CommitLoads(t: Tables, updates: seq<Pending>, now: int)
    requires Bounded(t) && updates != []
    ensures Load(CommitBatch(t, updates, now)) == Load(t) + Merge(updates)
    ensures Bounded(CommitBatch(t, updates, now))
  {
    var t' := CommitBatch(t, updates, now);
    var batch := t'.batches[|t.batches|];
    forall o | o in Load(t) + Merge(updates) ensures o in Load(t') {
      if o in Merge(updates) {
        assert batch in t'.batches && o in batch.payload;
      } else if t.snapshot.None? || o !in t.snapshot.value.ops {
        var b :| b in t.batches && b.toSeq > Compacted(t) && o in b.payload;
        assert b in t'.batches;
      }
    }
  }

  lemma {:induction false} StoreLoads(t: Tables, encoded: set<Op>)
    requires Bounded(t)
    ensures Load(StoreSnapshot(t, encoded)) == encoded
    ensures Bounded(StoreSnapshot(t, encoded))
  {
  }

  lemma {:induction false} PruneLoads(t: Tables, upTo: nat, cutoff: int)
    requires Bounded(t) && upTo <= Compacted(t)
    ensures Load(Prune(t, upTo, cutoff)) == Load(t)
    ensures Bounded(Prune(t, upTo, cutoff))
  {
    var t' := Prune(t, upTo, cutoff);
    forall o | o in Load(t) ensures o in Load(t') {
      if t.snapshot.None? || o !in t.snapshot.value.ops {
        var b :| b in t.batches && b.toSeq > Compacted(t) && o in b.payload;
        assert b in t'.batches;
      }
    }
  }

  lemma {:induction false} InitialLoads(t: Tables, content: set<Op>)
    requires Bounded(t)
    ensures Load(InsertInitial(t, content)) == if t.snapshot.Some? then Load(t) else Load(t) + content
    ensures Bounded(InsertInitial(t, content))
  {
  }
}
