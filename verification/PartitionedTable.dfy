/**
  * One event table in the database and the start-up code that maintains it, statement by
  * statement. Every statement may fail; a failed transaction is rolled back. Each method
  * is proved against the tables of `MonthlyPartitions`.
  */
module PartitionedTable {
  import opened Common
  import opened Calendar
  import opened MonthlyPartitions

  predicate Between(k: Key, from: Instant, to: Instant) { from <= k.at < to }

  /** The rows `SELECT ... FROM <table>_default WHERE created_at >= from AND created_at < to` returns. */
  function DefaultBetween(s: map<Key, Stored>, from: Instant, to: Instant): map<Key, Data> {
    map k | k in s && s[k].place.Default? && Between(k, from, to) :: s[k].data
  }

  function WithoutDefaultBetween(s: map<Key, Stored>, from: Instant, to: Instant): map<Key, Stored> {
    map k | k in s && !(s[k].place.Default? && Between(k, from, to)) :: s[k]
  }

  /** The half-open range between two month starts selects one calendar month. */
  lemma {:induction false} RangeIsMonth(s: map<Key, Stored>, m: int)
    ensures DefaultBetween(s, MonthStart(m), MonthStart(m + 1)) == DefaultRows(s, m)
    ensures WithoutDefaultBetween(s, MonthStart(m), MonthStart(m + 1)) == WithoutDefaultRows(s, m)
  {
    forall k | k in s ensures Between(k, MonthStart(m), MonthStart(m + 1)) <==> MonthOf(k.at) == m {
      MonthsPartitionTime(m, k.at);
    }
    RangeSelects(s, MonthStart(m), MonthStart(m + 1), m);
  }

  lemma {:induction false} RangeSelects(s: map<Key, Stored>, from: Instant, to: Instant, m: int)
    requires forall k | k in s :: Between(k, from, to) <==> MonthOf(k.at) == m
    ensures DefaultBetween(s, from, to) == DefaultRows(s, m)
    ensures WithoutDefaultBetween(s, from, to) == WithoutDefaultRows(s, m)
  {
  }

  lemma {:induction false} SomeBetween(s: map<Key, Stored>, from: Instant, to: Instant)
    ensures (exists k :: k in DefaultBetween(s, from, to))
       <==> (exists k :: k in s && s[k].place.Default? && Between(k, from, to))
  {
    if k :| k in s && s[k].place.Default? && Between(k, from, to) {
      assert k in DefaultBetween(s, from, to);
    }
  }

  lemma {:induction false} DrainSteps(t: Table, from: Instant, to: Instant, m: int)
    requires from == MonthStart(m) && to == MonthStart(m + 1)
    ensures CreateMonth(t.(stored := WithoutDefaultBetween(t.stored, from, to)), m).Some?
    ensures InsertAll(CreateMonth(t.(stored := WithoutDefaultBetween(t.stored, from, to)), m).value, DefaultBetween(t.stored, from, to))
         == Some(WithMonth(t, m))
  {
    RangeIsMonth(t.stored, m);
    DrainIsUpkeep(t, m);
  }

  lemma {:induction false} MonthOfItsStart(m: int)
    ensures MonthOf(MonthStart(m)) == m
  {
    MonthStep(m);
    MonthsPartitionTime(m, MonthStart(m));
  }

  class EventTable {
    var relation: Relation
    var legacies: map<Instant, Legacy>

    constructor (relation: Relation, legacies: map<Instant, Legacy>)
      ensures Current() == State(relation, legacies)
    {
      this.relation, this.legacies := relation, legacies;
    }

    function Current(): State
      reads this
    {
      State(relation, legacies)
    }

    /** Whether the database carries out the next statement. */
    method Succeeds() returns (ok: bool) {
      ok := *;
    }

    method HasDefaultRows(from: Instant, to: Instant) returns (ok: bool, found: bool)
      requires relation.Partitioned? && Routed(relation.table)
      ensures ok ==> found == exists k :: k in DefaultBetween(relation.table.stored, from, to)
    {
      found := false;
      SomeBetween(relation.table.stored, from, to);
      ok := Succeeds();
      if !ok || !relation.table.hasDefault { return; }
      ok := Succeeds();
      if !ok { return; }
      found := exists k | k in relation.table.stored ::
        relation.table.stored[k].place.Default? && Between(k, from, to);
    }

    method Drain(start: Civil, end: Civil) returns (ok: bool)
      requires relation.Partitioned? && end.Index() == start.Index() + 1
      modifies `relation
      ensures relation == if ok then Partitioned(WithMonth(old(relation).table, start.Index())) else old(relation)
    {
      var m, before, table := start.Index(), relation, relation.table;
      var (from, to) := (MonthStart(m), MonthStart(end.Index()));
      DrainSteps(table, from, to, m);
      ok := Succeeds();                      // LOCK TABLE
      if !ok { return; }
      ok := Succeeds();                      // CREATE TEMP TABLE
      if !ok { return; }
      ok := Succeeds();                      // INSERT INTO temp
      if !ok { return; }
      var temp := DefaultBetween(table.stored, from, to);
      ok := Succeeds();                      // DELETE FROM default
      if !ok { return; }
      var emptied := table.(stored := WithoutDefaultBetween(table.stored, from, to));
      relation := Partitioned(emptied);
      ok := Succeeds();                      // CREATE the month
      if !ok { relation := before; return; }
      var created := CreateMonth(emptied, m).value;
      relation := Partitioned(created);
      ok := Succeeds();                      // INSERT INTO table
      if !ok { relation := before; return; }
      relation := Partitioned(InsertAll(created, temp).value);
    }

    method EnsureMonthlyPartition(at: Instant) returns (ok: bool)
      requires relation.Partitioned? && Routed(relation.table)
      modifies `relation
      ensures relation == if ok then Partitioned(WithMonth(old(relation).table, MonthOf(at))) else old(relation)
    {
      var start := MonthStartUtc(at);
      var end := AddMonths(start, 1);
      AddMonthsCounts(start, 1);
      var m := start.Index();
      RangeIsMonth(relation.table.stored, m);
      var found;
      ok, found := HasDefaultRows(MonthStart(m), MonthStart(end.Index()));
      if !ok { return; }
      if found {
        ok := Drain(start, end);
        return;
      }
      NoDefaultRows(relation.table.stored, m);
      CreateIsUpkeep(relation.table, m);
      ok := Succeeds();
      if !ok { return; }
      relation := Partitioned(CreateMonth(relation.table, m).value);
    }

    static lemma {:induction false} NoDefaultRows(s: map<Key, Stored>, m: int)
      requires !exists k :: k in DefaultRows(s, m)
      ensures DefaultRows(s, m) == map[]
    {
    }

    /** Upkeep at a month's first instant is upkeep of that month. */
    method EnsureMonth(month: Civil) returns (ok: bool)
      requires relation.Partitioned? && Routed(relation.table)
      modifies `relation
      ensures relation == if ok then Partitioned(WithMonth(old(relation).table, month.Index())) else old(relation)
    {
      MonthOfItsStart(month.Index());
      ok := EnsureMonthlyPartition(MonthStart(month.Index()));
    }

    method EnsureDefaultPartition() returns (ok: bool)
      requires relation.Partitioned?
      modifies `relation
      ensures relation ==
        if ok then Partitioned(old(relation).table.(hasDefault := true)) else old(relation)
    {
      ok := Succeeds();
      if ok && !relation.table.hasDefault {
        relation := Partitioned(relation.table.(hasDefault := true));
      }
    }

    /** The months reached are consecutive; a failure leaves those done so far. */
    method EnsureRollingPartitions(now: Instant) returns (ok: bool, ghost done: nat)
      requires relation.Partitioned? && Routed(relation.table)
      modifies `relation
      ensures relation == Partitioned(WithMonths(old(relation).table, MonthOf(now) - PAST_MONTHS, done))
      ensures if ok then done == PAST_MONTHS + FUTURE_MONTHS + 1 else done < PAST_MONTHS + FUTURE_MONTHS + 1
    {
      var start := MonthsLater(MonthStartUtc(now), -PAST_MONTHS);
      ghost var table, first := relation.table, start.Index();
      ok := true;
      done := 0;
      for offset := 0 to PAST_MONTHS + FUTURE_MONTHS + 1
        invariant done == offset && ok
        invariant relation == Partitioned(WithMonths(table, first, offset))
      {
        var month := MonthsLater(start, offset);
        MonthsKeepRouting(table, first, offset);
        ok := EnsureMonth(month);
        if !ok { return; }
        done := offset + 1;
      }
    }

    /** The months from the earliest date to the latest, or those before the statement that failed. */
    method EnsureLegacyPartitions(name: Instant) returns (ok: bool, ghost done: nat)
      requires name in legacies
      requires relation.Partitioned? && Routed(relation.table)
      modifies `relation
      ensures relation == Partitioned(WithMonths(old(relation).table, FirstLegacyMonth(legacies[name]), done))
      ensures if ok then done == LegacySpan(legacies[name]) else done <= LegacySpan(legacies[name])
    {
      var rows := legacies[name];
      done := 0;
      ok := Succeeds();
      if !ok || !HasDate(rows) { return; }
      LegacyBounds(rows);
      ok, done := EnsureMonthsBetween(MonthStartUtc(Earliest(rows)), MonthStartUtc(Latest(rows)));
    }

    static lemma {:induction false} LegacyBounds(rows: Legacy)
      requires HasDate(rows)
      ensures MonthStartUtc(Earliest(rows)).Index() == FirstLegacyMonth(rows)
      ensures MonthStartUtc(Latest(rows)).Index() == FirstLegacyMonth(rows) + LegacySpan(rows) - 1
      ensures LegacySpan(rows) > 0
    {
      MonthOfMonotone(Earliest(rows), Latest(rows));
    }

    method EnsureMonthsBetween(start: Civil, end: Civil) returns (ok: bool, ghost done: nat)
      requires start.Index() <= end.Index() && relation.Partitioned? && Routed(relation.table)
      modifies `relation
      ensures relation == Partitioned(WithMonths(old(relation).table, start.Index(), done))
      ensures if ok then done == end.Index() - start.Index() + 1 else done <= end.Index() - start.Index()
    {
      ghost var table, first, last := relation.table, start.Index(), end.Index();
      var month := start;
      ok := true;
      done := 0;
      while month.Index() <= end.Index()
        invariant ok
        invariant done <= last - first + 1 && month.Index() == first + done
        invariant relation == Partitioned(WithMonths(table, first, done))
        decreases end.Index() - month.Index()
      {
        MonthsKeepRouting(table, first, done);
        ok := EnsureMonth(month);
        if !ok { return; }
        month := MonthsLater(month, 1);
        done := done + 1;
      }
    }

    static method MonthsLater(month: Civil, k: int) returns (later: Civil)
      ensures later.Index() == month.Index() + k
    {
      AddMonthsCounts(month, k);
      later := AddMonths(month, k);
    }

    method CopyLegacyRows(name: Instant, now: Instant) returns (ok: bool)
      requires name in legacies && relation.Partitioned?
      modifies `relation
      ensures relation.Partitioned?
      ensures if ok then InsertAll(old(relation).table, Stamped(legacies[name], now)) == Some(relation.table)
              else relation == old(relation)
      ensures ok && old(relation).table.stored == map[] ==> HoldsLegacy(Rows(relation.table), legacies[name], now)
    {
      ok := Succeeds();
      StampedHoldsLegacy(legacies[name], now);
      InsertIntoEmpty(relation.table, Stamped(legacies[name], now));
      var copied := InsertAll(relation.table, Stamped(legacies[name], now));
      if !ok || copied.None? { return false; }
      relation := Partitioned(copied.value);
    }

    static lemma {:induction false} InsertIntoEmpty(t: Table, rows: map<Key, Data>)
      ensures t.stored == map[] && InsertAll(t, rows).Some? ==> Rows(InsertAll(t, rows).value) == rows
    {
      if t.stored == map[] && InsertAll(t, rows).Some? {
        InsertKeeps(t, rows);
        assert Rows(t) == map[];
      }
    }

    /** The new, still empty table with every month the copy needs. */
    method Prepare(name: Instant, now: Instant) returns (r: Outcome)
      requires relation.Missing? && name in legacies
      modifies `relation
      ensures r.Done? ==> relation == Partitioned(Prepared(legacies[name], now))
      ensures r.Failed? && r.at.CreateEmpty? ==> relation.Missing?
      ensures r.Failed? && !r.at.CreateEmpty? ==> relation.Partitioned? && relation.table.stored == map[]
      ensures r.Failed? ==> r.at.CreateEmpty? || r.at.MigrateDefault? || r.at.MigrateRolling? || r.at.MigrateLegacy?
    {
      var ok := Succeeds();
      if !ok { return Failed(CreateEmpty); }
      relation := Partitioned(NO_ROWS);
      ok := EnsureDefaultPartition();
      if !ok { return Failed(MigrateDefault); }
      ghost var done;
      ok, done := EnsureRollingPartitions(now);
      EmptyStaysEmpty(Table(true, {}, map[]), MonthOf(now) - PAST_MONTHS, done);
      if !ok { return Failed(MigrateRolling); }
      ghost var rows, table := legacies[name], relation.table;
      ok, done := EnsureLegacyPartitions(name);
      EmptyStaysEmpty(table, FirstLegacyMonth(rows), done);
      r := if ok then Done else Failed(MigrateLegacy);
    }

    /** The copy is accepted unless the database fails. */
    method CopyAndDrop(name: Instant, now: Instant) returns (r: Outcome)
      requires name in legacies && relation == Partitioned(Prepared(legacies[name], now))
      modifies this
      ensures r.Done? || r == Failed(Copy) || r == Failed(DropLegacy)
      ensures relation == if r == Failed(Copy) then old(relation) else Partitioned(Migrated(old(legacies)[name], now))
      ensures legacies == if r.Done? then old(legacies) - {name} else old(legacies)
    {
      MigrationIsComplete(legacies[name], now);
      var ok := CopyLegacyRows(name, now);
      if !ok { return Failed(Copy); }
      ok := Succeeds();
      if !ok { return Failed(DropLegacy); }
      legacies := legacies - {name};
      r := Done;
    }

    method Migrate(now: Instant) returns (r: Outcome)
      requires relation.Regular?
      modifies this
      ensures r.Done? ==> WholeSecond(now) !in old(legacies) && Current() == Converted(old(Current()), now)
      ensures r.Done? ==> relation.Partitioned? && HoldsLegacy(Rows(relation.table), old(relation).rows, now)
      ensures r.Failed? ==> !r.at.DefaultPartition? && !r.at.RollingMonths? && !r.at.Inspect? && !r.at.CreateTable?
      ensures r.Failed? ==> StartUp(old(Current()), now, r, Current())
    {
      ghost var before, rows := Current(), relation.rows;
      var name := WholeSecond(now);
      var ok := Succeeds();
      if !ok || name in legacies { return Failed(Rename); }
      legacies := legacies[name := relation.rows];
      relation := Missing;
      RenamedThenDropped(before.legacies, name, rows);
      assert Current() == Renamed(before, now);

      r := Prepare(name, now);
      if r.Failed? {
        assert StartUp(before, now, r, Current());
        return;
      }
      PreparedShape(rows, now);
      r := CopyAndDrop(name, now);
      MigratedHoldsLegacy(rows, now);
    }

    static lemma {:induction false} RenamedThenDropped(legacies: map<Instant, Legacy>, name: Instant, rows: Legacy)
      requires name !in legacies
      ensures legacies[name := rows] - {name} == legacies
    {
    }

    method EnsureMonthlyPartitionedTable(now: Instant) returns (r: Outcome)
      requires Sound(Current())
      modifies this
      ensures StartUp(old(Current()), now, r, Current())
      ensures Sound(Current())
      ensures r.Done? && old(relation).Regular? ==>
                relation.Partitioned? && HoldsLegacy(Rows(relation.table), old(relation).rows, now)
    {
      ghost var before := Current();
      var ok := Succeeds();
      if !ok { return Failed(Inspect); }
      if relation.Regular? {
        r := Migrate(now);
        if r.Failed? {
          StartUpStaysSound(before, now, r, Current());
          return;
        }
      } else if relation.Missing? {
        ok := Succeeds();
        if !ok { return Failed(CreateTable); }
        relation := Partitioned(NO_ROWS);
      }
      r := EnsureUpkeep(before, now);
      if r.Done? && before.relation.Regular? {
        StartUpHoldsLegacy(before, now, Current());
      }
    }

    /** The default partition and the rolling months of the converted table. */
    method EnsureUpkeep(ghost before: State, now: Instant) returns (r: Outcome)
      requires Sound(before) && Current() == Converted(before, now)
      requires before.relation.Regular? ==> WholeSecond(now) !in before.legacies
      modifies this
      ensures StartUp(before, now, r, Current())
      ensures Sound(Current())
    {
      ConvertedKeeps(before, now);
      var ok := EnsureDefaultPartition();
      if !ok { return Failed(DefaultPartition); }
      ghost var done;
      ok, done := EnsureRollingPartitions(now);
      assert Current() == PartlyUpkept(before, now, done);
      r := if ok then Done else Failed(RollingMonths);
      StartUpStaysSound(before, now, r, Current());
    }
  }
}
