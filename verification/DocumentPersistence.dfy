/**
 `PostgresDocumentPersistence`: four maps keyed by document, updated between awaits, and a
 shared database. Each method below is one stretch of code between two awaits, or one
 transaction; its contract is the corresponding step of `FlushMachine` or `DocumentTables`
 on the document it names, and says that every other document is untouched.
 */
module DocumentPersistence {
  import opened Common
  import opened DocumentTables
  import FM = FlushMachine

  /** Where a transaction fails: not at all, at BEGIN, at a statement or COMMIT, or there and again at ROLLBACK. */
  datatype Fault = NoFault | BeginFails | StatementFails | RollbackFails

  class Database {
    var documents: map<string, Tables>
    var projects: map<string, set<Op>>    // initial content of the documents linked to a project

    constructor ()
      ensures documents == map[] && projects == map[]
    {
      documents, projects := map[], map[];
    }

    /** The statements of the flush transaction after its lock. */
    method WriteBatch(d: string, payload: set<Op>, count: nat, actorUserId: Option<string>, now: int)
      requires d in documents
      modifies `documents
      ensures var t := old(documents)[d];
              var batch := Batch(t.currentSeq + 1, t.currentSeq + count, payload, count, actorUserId, now);
              documents == old(documents)[d := t.(currentSeq := batch.toSeq, lastEditedBy := OrElse(actorUserId, t.lastEditedBy),
                                                  batches := t.batches + [batch])]
    {
      var t := documents[d];
      var fromSeq, toSeq := t.currentSeq + 1, t.currentSeq + count;
      t := t.(batches := t.batches + [Batch(fromSeq, toSeq, payload, count, actorUserId, now)]);
      t := t.(currentSeq := toSeq, lastEditedBy := OrElse(actorUserId, t.lastEditedBy));
      documents := documents[d := t];
    }
  }

  /** `lockDocumentAndReadSeq` and `documentWorkspaceId` succeed. */
  predicate Usable(documents: map<string, Tables>, d: string) {
    d in documents && documents[d].workspaceId != ""
  }

  class Persistence {
    const config: FM.Config
    const database: Database
    var pendingUpdates: map<string, seq<Pending>>
    var flushTimers: map<string, nat>
    var flushes: map<string, nat>
    var flushRetryAttempts: map<string, nat>
    var tasks: map<string, seq<FM.Task>>    // the suspended flushDocument calls

    constructor (database: Database, config: FM.Config)
      ensures this.database == database && this.config == config
      ensures forall d :: View(d) == FM.Fresh
    {
      this.database, this.config := database, config;
      pendingUpdates, flushTimers, flushes, flushRetryAttempts, tasks := map[], map[], map[], map[], map[];
    }

    /** The flush machine of document `d`; an absent map entry reads as its default. */
    ghost function View(d: string): FM.Inst
      reads this
    {
      FM.Inst(GetOr(pendingUpdates, d, []),
              if d in flushTimers then Some(flushTimers[d]) else None,
              if d in flushes then Some(flushes[d]) else None,
              GetOr(flushRetryAttempts, d, 0),
              GetOr(tasks, d, []))
    }

    method ScheduleFlush(d: string, delayMs: nat)
      modifies this
      ensures View(d) == FM.Schedule(old(View(d)), delayMs)
      ensures flushTimers == if d in old(flushTimers) then old(flushTimers) else old(flushTimers)[d := delayMs]
      ensures forall e :: e != d ==> View(e) == old(View(e))
    {
      if d in flushTimers {
        return;
      }
      flushTimers := flushTimers[d := delayMs];
    }

    method FlushDocumentOnce(d: string, id: nat)
      requires id < |View(d).tasks|
      modifies this
      ensures View(d) == FM.Start(old(View(d)), id)
      ensures d !in flushTimers && d !in pendingUpdates && flushes == old(flushes)[d := id]
      ensures tasks[d] == old(tasks)[d][id := FM.Task(old(tasks)[d][id].handled, FM.InFlight(GetOr(old(pendingUpdates), d, [])))]
      ensures forall e :: e != d ==> View(e) == old(View(e))
    {
      flushTimers := flushTimers - {d};
      var pending := GetOr(pendingUpdates, d, []);
      pendingUpdates := pendingUpdates - {d};
      flushes := flushes[d := id];
      tasks := tasks[d := tasks[d][id := tasks[d][id].(phase := FM.InFlight(pending))]];
    }

    method FlushDocument(d: string, handled: bool)
      modifies this
      ensures View(d) == FM.Enter(old(View(d)), handled)
      ensures var before, batch := GetOr(old(tasks), d, []), GetOr(old(pendingUpdates), d, []);
              if d in old(flushes)
              then pendingUpdates == old(pendingUpdates) && flushes == old(flushes)
                   && tasks[d] == before + [FM.Task(handled, FM.Waiting(old(flushes)[d]))]
              else d !in pendingUpdates && flushes == old(flushes)[d := |before|]
                   && tasks[d] == before + [FM.Task(handled, FM.InFlight(batch))]
      ensures forall e :: e != d ==> View(e) == old(View(e))
    {
      var id := |GetOr(tasks, d, [])|;
      if d in flushes {
        tasks := tasks[d := GetOr(tasks, d, []) + [FM.Task(handled, FM.Waiting(flushes[d]))]];
      } else {
        tasks := tasks[d := GetOr(tasks, d, []) + [FM.Task(handled, FM.Ready)]];
        FlushDocumentOnce(d, id);
      }
    }

    method AppendUpdate(d: string, update: set<Op>, actor: Option<string>)
      modifies this
      ensures View(d) == FM.Append(old(View(d)), Pending(update, actor), config)
      ensures GetOr(flushRetryAttempts, d, 0) == 0
      ensures var pending := GetOr(old(pendingUpdates), d, []) + [Pending(update, actor)];
              if |pending| < config.maxUpdatesPerBatch
              then GetOr(pendingUpdates, d, []) == pending && GetOr(tasks, d, []) == GetOr(old(tasks), d, []) && d in flushTimers
                   && flushTimers[d] == GetOr(old(flushTimers), d, config.flushIntervalMs)
              else tasks[d] == GetOr(old(tasks), d, []) +
                     [FM.Task(true, if d in old(flushes) then FM.Waiting(old(flushes)[d]) else FM.InFlight(pending))]
      ensures forall e :: e != d ==> View(e) == old(View(e))
    {
      var pending := GetOr(pendingUpdates, d, []) + [Pending(update, actor)];
      pendingUpdates := pendingUpdates[d := pending];
      flushRetryAttempts := flushRetryAttempts - {d};
      if |pending| >= config.maxUpdatesPerBatch {
        FlushDocument(d, true);
      } else {
        ScheduleFlush(d, config.flushIntervalMs);
      }
    }

    method TimerFires(d: string)
      requires d in flushTimers
      modifies this
      ensures View(d) == FM.TimerFires(old(View(d)))
      ensures forall e :: e != d ==> View(e) == old(View(e))
    {
      flushTimers := flushTimers - {d};
      FlushDocument(d, true);
    }

    method Settle(d: string, id: nat, ok: bool)
      requires id < |View(d).tasks|
      modifies this
      ensures View(d) == FM.Settle(old(View(d)), id, ok)
      ensures flushes == if d in old(flushes) && old(flushes)[d] == id then old(flushes) - {d} else old(flushes)
      ensures |tasks[d]| == |old(tasks)[d]|
      ensures forall j :: 0 <= j < |tasks[d]| && j != id && old(tasks)[d][j].phase == FM.Waiting(id) ==>
                tasks[d][j].phase == if ok then FM.Ready else if tasks[d][j].handled then FM.Failing else FM.Threw
      ensures forall j :: 0 <= j < |tasks[d]| && j != id && old(tasks)[d][j].phase != FM.Waiting(id) ==>
                tasks[d][j] == old(tasks)[d][j]
      ensures forall e :: e != d ==> View(e) == old(View(e))
    {
      if d in flushes && flushes[d] == id {
        flushes := flushes - {d};
      }
      var ts := tasks[d];
      var own := if ok then ts[id].(phase := FM.Done) else FM.Rejected(ts[id]);
      tasks := tasks[d := seq(|ts|, j requires 0 <= j < |ts| => if j == id then own else FM.Wake(ts[j], id, ok))];
    }

    /** A failed batch goes in front of what was buffered since. */
    method PutBack(d: string, pending: seq<Pending>)
      modifies `pendingUpdates
      ensures View(d) == old(View(d)).(pending := pending + old(View(d)).pending)
      ensures forall e :: e != d ==> View(e) == old(View(e))
    {
      pendingUpdates := pendingUpdates[d := pending + GetOr(pendingUpdates, d, [])];
    }

    method ForgetFailures(d: string)
      modifies `flushRetryAttempts
      ensures flushRetryAttempts == old(flushRetryAttempts) - {d}
      ensures View(d) == old(View(d)).(retry := 0)
      ensures forall e :: e != d ==> View(e) == old(View(e))
    {
      flushRetryAttempts := flushRetryAttempts - {d};
    }

    /** The transaction of a started flush, to the end of `flushDocumentOnce`. */
    method RunFlush(d: string, id: nat, now: int, fault: Fault)
      requires FM.Flying(View(d), id)
      modifies this, database
      ensures var batch := old(View(d)).tasks[id].phase.batch;
              var ok := batch == [] || (fault.NoFault? && Usable(old(database.documents), d));
              && View(d) == (if ok then FM.Succeed(old(View(d)), id)
                             else FM.Fail(old(View(d)), id, fault.NoFault? || fault.StatementFails?))
              && database.documents == (if ok && batch != []
                                        then old(database.documents)[d := CommitBatch(old(database.documents)[d], batch, now)]
                                        else old(database.documents))
      ensures database.projects == old(database.projects)
      ensures forall e :: e != d ==> View(e) == old(View(e))
      ensures var batch, buffered := old(tasks)[d][id].phase.batch, GetOr(old(pendingUpdates), d, []);
              var failed := batch != [] && (!fault.NoFault? || !Usable(old(database.documents), d));
              GetOr(pendingUpdates, d, []) == if failed && !fault.BeginFails? && !fault.RollbackFails? then batch + buffered else buffered
    {
      var pending := tasks[d][id].phase.batch;
      if pending == [] {
        Settle(d, id, true);
        return;
      }
      var payload := Merge(pending);
      var actorUserId := LastActorUserId(pending);
      if fault.NoFault? && d in database.documents && database.documents[d].workspaceId != "" {
        database.WriteBatch(d, payload, |pending|, actorUserId, now);
        ForgetFailures(d);
        Settle(d, id, true);
      } else {
        if !fault.BeginFails? && !fault.RollbackFails? {
          PutBack(d, pending);
        }
        Settle(d, id, false);
      }
    }

    method HandleFlushFailure(d: string, id: nat)
      requires FM.ValidConfig(config) && id < |View(d).tasks|
      modifies this
      ensures View(d) == FM.HandleFailure(old(View(d)), id, config)
      ensures var failures := GetOr(old(flushRetryAttempts), d, 0) + 1;
              if GetOr(old(pendingUpdates), d, []) == []
              then d !in flushRetryAttempts && flushTimers == old(flushTimers)
              else d in flushRetryAttempts && flushRetryAttempts[d] == failures && d in flushTimers
                   && flushTimers[d] == GetOr(old(flushTimers), d, FM.RetryDelay(failures, config))
      ensures forall e :: e != d ==> View(e) == old(View(e))
    {
      tasks := tasks[d := tasks[d][id := tasks[d][id].(phase := FM.Done)]];
      if |GetOr(pendingUpdates, d, [])| == 0 {
        ForgetFailures(d);
        return;
      }
      var attempt := GetOr(flushRetryAttempts, d, 0) + 1;
      flushRetryAttempts := flushRetryAttempts[d := attempt];
      ScheduleFlush(d, FM.RetryDelay(attempt, config));
    }

    /** The transaction of `store`, with the state it encoded before BEGIN. */
    method StoreTransaction(d: string, encoded: set<Op>, fault: Fault) returns (seqRead: Option<nat>)
      modifies database
      ensures var before := old(database.documents);
              if fault.NoFault? && Usable(before, d)
              then seqRead == Some(before[d].currentSeq) && database.documents == before[d := StoreSnapshot(before[d], encoded)]
              else seqRead.None? && database.documents == before
      ensures database.projects == old(database.projects)
    {
      if !fault.NoFault? || d !in database.documents || database.documents[d].workspaceId == "" {
        return None;
      }
      var t := database.documents[d];
      database.documents := database.documents[d := t.(snapshot := Some(Snapshot(encoded, t.currentSeq)))];
      return Some(t.currentSeq);
    }

    method PruneCompactedBatches(d: string, compactedUntilSeq: nat, cutoff: int)
      modifies database
      ensures d !in old(database.documents) ==> database.documents == old(database.documents)
      ensures d in old(database.documents) ==>
                database.documents == old(database.documents)[d := Prune(old(database.documents)[d], compactedUntilSeq, cutoff)]
      ensures d in old(database.documents) ==>
                forall b :: b in database.documents[d].batches
                  <==> b in old(database.documents)[d].batches && (b.toSeq > compactedUntilSeq || b.createdAt >= cutoff)
      ensures database.projects == old(database.projects)
    {
      if d in database.documents {
        var t := database.documents[d];
        database.documents := database.documents[d := t.(batches := KeepBatches(t.batches, compactedUntilSeq, cutoff))];
      }
    }

    /** `load`: apply the snapshot, then each later batch in turn, to a document that already holds `doc`. */
    method LoadInto(d: string, doc: set<Op>) returns (r: set<Op>)
      ensures r == doc + (if d in database.documents then Load(database.documents[d]) else {})
      ensures d in database.documents ==>
                var t := database.documents[d];
                var upTo := match t.snapshot case Some(snapshot) => snapshot.compactedUntil case None => 0;
                forall o :: o in r <==>
                  || o in doc || (t.snapshot.Some? && o in t.snapshot.value.ops)
                  || exists b :: b in t.batches && b.toSeq > upTo && o in b.payload
    {
      r := doc;
      if d !in database.documents {
        return;
      }
      var t := database.documents[d];
      if t.snapshot.Some? {
        r := r + t.snapshot.value.ops;
      }
      ghost var base := r;
      for k := 0 to |t.batches|
        invariant r == base + set b, o | b in t.batches[..k] && b.toSeq > Compacted(t) && o in b.payload :: o
      {
        assert t.batches[..k + 1] == t.batches[..k] + [t.batches[k]];
        if t.batches[k].toSeq > Compacted(t) {
          r := r + t.batches[k].payload;
        }
      }
      assert t.batches[..|t.batches|] == t.batches;
    }

    /** The read of `initializeProjectDocument` and what it decides. */
    method ReadProject(d: string) returns (decision: InitDecision)
      ensures decision == if d in database.documents then InitDecide(d in database.projects, database.documents[d]) else NotLinked
      ensures decision == NotLinked <==> d !in database.documents || d !in database.projects
      ensures decision == AlreadyPresent ==> database.documents[d].snapshot.Some? || database.documents[d].batches != []
      ensures decision == Incomplete || decision == Insert ==>
                var t := database.documents[d];
                t.snapshot.None? && t.batches == [] && (decision == Insert <==> t.currentSeq == 0)
    {
      if d !in database.documents || d !in database.projects {
        return NotLinked;
      }
      var t := database.documents[d];
      if t.snapshot.Some? || |t.batches| > 0 {
        return AlreadyPresent;
      }
      return if t.currentSeq != 0 then Incomplete else Insert;
    }

    /** Its insert, possibly much later. */
    method InsertState(d: string, content: set<Op>)
      requires d in database.documents
      modifies database
      ensures database.documents == old(database.documents)[d := InsertInitial(old(database.documents)[d], content)]
      ensures database.projects == old(database.projects)
    {
      var t := database.documents[d];
      if t.snapshot.None? {
        database.documents := database.documents[d := t.(snapshot := Some(Snapshot(content, 0)))];
      }
    }
  }
}
