/**
  * The event tables' monthly partitions: upkeep of the rolling months, draining of the
  * default partition, and migration of a regular table. A table maps each primary key
  * `(id, created_at)` to the row's other columns and to the partition that holds it
  * (PostgreSQL's `tableoid`), so moving a row is visible.
  */
module MonthlyPartitions {
  import opened Common
  import opened Calendar

  const PAST_MONTHS := 12
  const FUTURE_MONTHS := 3

  type Data = nat

  datatype Key = Key(id: nat, at: Instant)

  datatype Place = Default | Monthly(month: int)

  datatype Stored = Stored(place: Place, data: Data)

  datatype Table = Table(hasDefault: bool, months: set<int>, stored: map<Key, Stored>)

  // ---- What PostgreSQL does with one statement ------------------------------------------

  predicate InDefault(s: map<Key, Stored>, k: Key, m: int) {
    k in s && s[k].place.Default? && MonthOf(k.at) == m
  }

  /** The rows of month `m` that the default partition holds. */
  function DefaultRows(s: map<Key, Stored>, m: int): map<Key, Data> {
    map k | k in s && InDefault(s, k, m) :: s[k].data
  }

  function WithoutDefaultRows(s: map<Key, Stored>, m: int): map<Key, Stored> {
    map k | k in s && !InDefault(s, k, m) :: s[k]
  }

  function RouteOf(months: set<int>, at: Instant): Place {
    if MonthOf(at) in months then Monthly(MonthOf(at)) else Default
  }

  function PlaceAll(months: set<int>, rows: map<Key, Data>): map<Key, Stored> {
    map k | k in rows :: Stored(RouteOf(months, k.at), rows[k])
  }

  predicate HasRoom(t: Table, rows: map<Key, Data>) {
    t.hasDefault || forall k | k in rows :: MonthOf(k.at) in t.months
  }

  /** An insert is refused for a taken key, and when no partition takes a row. */
  function InsertAll(t: Table, rows: map<Key, Data>): Option<Table> {
    if rows.Keys !! t.stored.Keys && HasRoom(t, rows)
    then Some(t.(stored := t.stored + PlaceAll(t.months, rows)))
    else None
  }

  /** `CREATE TABLE IF NOT EXISTS ... FOR VALUES FROM ... TO ...`: refused while the default partition holds such rows. */
  function CreateMonth(t: Table, m: int): Option<Table> {
    if m in t.months then Some(t)
    else if DefaultRows(t.stored, m) != map[] then None
    else Some(t.(months := t.months + {m}))
  }

  /** The drain transaction, statement by statement; None when a statement is refused. */
  function DrainMonth(t: Table, m: int): Option<Table> {
    var temp := DefaultRows(t.stored, m);
    var emptied := t.(stored := WithoutDefaultRows(t.stored, m));
    var created := CreateMonth(emptied, m);
    if created.None? then None else InsertAll(created.value, temp)
  }

  /** An insert is accepted exactly if no key is taken and each row has a partition; each row then goes where its date says. */
  lemma {:induction false} InsertPlaces(t: Table, rows: map<Key, Data>)
    ensures InsertAll(t, rows).Some?
       <==> forall k | k in rows :: k !in t.stored && (t.hasDefault || MonthOf(k.at) in t.months)
    ensures InsertAll(t, rows).Some? ==>
              var r := InsertAll(t, rows).value;
              && r.hasDefault == t.hasDefault && r.months == t.months
              && (forall k | k in rows ::
                    k in r.stored && r.stored[k] == Stored(if MonthOf(k.at) in t.months then Monthly(MonthOf(k.at)) else Default, rows[k]))
              && (forall k | k in t.stored :: k in r.stored && r.stored[k] == t.stored[k])
              && (forall k | k in r.stored :: k in rows || k in t.stored)
  {
    if rows.Keys !! t.stored.Keys {
      assert forall k | k in rows :: k !in t.stored;
    } else {
      var k :| k in rows.Keys && k in t.stored.Keys;
    }
  }

  /** A month cannot be created while the default partition holds a row of it, and not otherwise. */
  lemma {:induction false} CreateRefused(t: Table, m: int)
    ensures CreateMonth(t, m).None?
       <==> m !in t.months && exists k :: k in t.stored && t.stored[k].place.Default? && MonthOf(k.at) == m
  {
    if k :| k in t.stored && t.stored[k].place.Default? && MonthOf(k.at) == m {
      assert k in DefaultRows(t.stored, m);
    }
  }

  // ---- What upkeep means ------------------------------------------------------------------

  /** Month `m` exists and the default rows that belong to it are in it. */
  function WithMonth(t: Table, m: int): Table {
    Table(t.hasDefault, t.months + {m},
          map k | k in t.stored :: if InDefault(t.stored, k, m) then Stored(Monthly(m), t.stored[k].data) else t.stored[k])
  }

  function WithMonths(t: Table, first: int, n: nat): Table {
    if n == 0 then t else WithMonth(WithMonths(t, first, n - 1), first + n - 1)
  }

  function MonthRange(first: int, n: nat): set<int> {
    if n == 0 then {} else MonthRange(first, n - 1) + {first + n - 1}
  }

  lemma {:induction false} InMonthRange(first: int, n: nat, m: int)
    ensures m in MonthRange(first, n) <==> first <= m < first + n
  {
    if n > 0 {
      InMonthRange(first, n - 1, m);
    }
  }

  /** The table's rows, as `SELECT` sees them. */
  function Rows(t: Table): map<Key, Data> {
    map k | k in t.stored :: t.stored[k].data
  }

  /** Every row is in its own month's partition if there is one, and in the default partition otherwise. */
  ghost predicate Routed(t: Table) {
    forall k | k in t.stored ::
      t.stored[k].place == RouteOf(t.months, k.at) && (t.stored[k].place.Default? ==> t.hasDefault)
  }

  // ---- The two branches of upkeep meet the same meaning --------------------------------------

  /** The transaction is never refused, whether or not the month has rows to move. */
  lemma {:induction false} DrainIsUpkeep(t: Table, m: int)
    ensures DrainMonth(t, m) == Some(WithMonth(t, m))
  {
    var temp := DefaultRows(t.stored, m);
    var emptied := t.(stored := WithoutDefaultRows(t.stored, m));
    assert DefaultRows(emptied.stored, m) == map[];
    var created := CreateMonth(emptied, m).value;
    assert created.months == t.months + {m};
    assert created.stored + PlaceAll(created.months, temp) == WithMonth(t, m).stored;
  }

  lemma {:induction false} CreateIsUpkeep(t: Table, m: int)
    requires DefaultRows(t.stored, m) == map[]
    ensures CreateMonth(t, m) == Some(WithMonth(t, m))
  {
    forall k | k in t.stored ensures !InDefault(t.stored, k, m) {
      assert k !in DefaultRows(t.stored, m);
    }
    assert WithMonth(t, m).stored == t.stored;
    assert m in t.months ==> t.months + {m} == t.months;
  }

  lemma {:induction false} MonthKeeps(t: Table, m: int)
    ensures Rows(WithMonth(t, m)) == Rows(t)
    ensures Routed(t) ==> Routed(WithMonth(t, m))
  {
  }

  lemma {:induction false} MonthsAdded(t: Table, first: int, n: nat)
    ensures WithMonths(t, first, n).hasDefault == t.hasDefault
    ensures WithMonths(t, first, n).months == t.months + MonthRange(first, n)
  {
    if n > 0 {
      MonthsAdded(t, first, n - 1);
    }
  }

  lemma {:induction false} NextMonthKeepsRows(t: Table, first: int, n: nat)
    requires n > 0
    ensures Rows(WithMonths(t, first, n)) == Rows(WithMonths(t, first, n - 1))
  {
    MonthKeeps(WithMonths(t, first, n - 1), first + n - 1);
  }

  lemma {:induction false} NextMonthKeepsRouting(t: Table, first: int, n: nat)
    requires n > 0 && Routed(WithMonths(t, first, n - 1))
    ensures Routed(WithMonths(t, first, n))
  {
    MonthKeeps(WithMonths(t, first, n - 1), first + n - 1);
  }

  /** Upkeep of consecutive months keeps the rows. */
  lemma {:induction false} MonthsKeepRows(t: Table, first: int, n: nat)
    ensures Rows(WithMonths(t, first, n)) == Rows(t)
  {
    if n > 0 {
      MonthsKeepRows(t, first, n - 1);
      NextMonthKeepsRows(t, first, n);
    }
  }

  /** Upkeep of consecutive months keeps every row where its date says. */
  lemma {:induction false} MonthsKeepRouting(t: Table, first: int, n: nat)
    requires Routed(t)
    ensures Routed(WithMonths(t, first, n))
  {
    if n > 0 {
      MonthsKeepRouting(t, first, n - 1);
      NextMonthKeepsRouting(t, first, n);
    }
  }

  // ---- Statements of any number of services and upkeepers, interleaved ---------------------------

  /** One committed statement, for any month: the emptiness check before a create may be stale. */
  datatype Statement = Insert(rows: map<Key, Data>) | CreateDefault | Create(month: int) | Drain(month: int)

  function Attempt(t: Table, st: Statement): Option<Table> {
    match st
    case Insert(rows) => InsertAll(t, rows)
    case CreateDefault => Some(t.(hasDefault := true))
    case Create(m) => CreateMonth(t, m)
    case Drain(m) => DrainMonth(t, m)
  }

  /** A refused statement changes nothing. */
  function Execute(t: Table, st: Statement): Table {
    var after := Attempt(t, st);
    if after.Some? then after.value else t
  }

  function Inserted(t: Table, st: Statement): map<Key, Data> {
    if st.Insert? && Attempt(t, st).Some? then st.rows else map[]
  }

  function ExecuteAll(t: Table, run: seq<Statement>): Table {
    if run == [] then t else Execute(ExecuteAll(t, run[..|run| - 1]), run[|run| - 1])
  }

  /** The rows whose insert was accepted. */
  function Accepted(t: Table, run: seq<Statement>): map<Key, Data> {
    if run == [] then map[]
    else Accepted(t, run[..|run| - 1]) + Inserted(ExecuteAll(t, run[..|run| - 1]), run[|run| - 1])
  }

  lemma {:induction false} InsertKeeps(t: Table, rows: map<Key, Data>)
    requires InsertAll(t, rows).Some?
    ensures Rows(InsertAll(t, rows).value) == Rows(t) + rows
    ensures Routed(t) ==> Routed(InsertAll(t, rows).value)
  {
    var placed := PlaceAll(t.months, rows);
    forall k ensures k in Rows(InsertAll(t, rows).value) <==> k in (Rows(t) + rows) {
      assert k in t.stored + placed <==> k in t.stored || k in rows;
    }
    if Routed(t) {
      forall k | k in t.stored + placed
        ensures var p := (t.stored + placed)[k].place; p == RouteOf(t.months, k.at) && (p.Default? ==> t.hasDefault)
      {
        assert k in rows ==> placed[k].place == RouteOf(t.months, k.at);
      }
    }
  }

  lemma {:induction false} CreateKeeps(t: Table, m: int)
    requires CreateMonth(t, m).Some?
    ensures Rows(CreateMonth(t, m).value) == Rows(t)
    ensures Routed(t) ==> Routed(CreateMonth(t, m).value)
  {
    if m !in t.months {
      CreateIsUpkeep(t, m);
      MonthKeeps(t, m);
    }
  }

  lemma {:induction false} DrainKeeps(t: Table, m: int)
    ensures Rows(DrainMonth(t, m).value) == Rows(t)
    ensures Routed(t) ==> Routed(DrainMonth(t, m).value)
    ensures DrainMonth(t, m).value.months == t.months + {m} && DrainMonth(t, m).value.hasDefault == t.hasDefault
  {
    DrainIsUpkeep(t, m);
    MonthKeeps(t, m);
  }

  lemma {:induction false} StatementKeepsRows(t: Table, st: Statement)
    ensures Rows(Execute(t, st)) == Rows(t) + Inserted(t, st)
    ensures Inserted(t, st).Keys !! Rows(t).Keys
  {
    if Attempt(t, st).Some? {
      match st {
        case Insert(rows) => InsertKeeps(t, rows);
        case CreateDefault =>
        case Create(m) => CreateKeeps(t, m);
        case Drain(m) => DrainKeeps(t, m);
      }
    }
  }

  lemma {:induction false} StatementKeepsRouting(t: Table, st: Statement)
    requires Routed(t)
    ensures Routed(Execute(t, st))
  {
    if Attempt(t, st).Some? {
      match st {
        case Insert(rows) => InsertKeeps(t, rows);
        case CreateDefault =>
        case Create(m) => CreateKeeps(t, m);
        case Drain(m) => DrainKeeps(t, m);
      }
    }
  }

  lemma {:induction false} SumAssociates(a: map<Key, Data>, b: map<Key, Data>, c: map<Key, Data>)
    ensures (a + b) + c == a + (b + c)
  {
  }

  lemma {:induction false} LastStatement(t: Table, run: seq<Statement>, rows: map<Key, Data>)
    requires run != []
    requires Rows(ExecuteAll(t, run[..|run| - 1])) == rows
    ensures Rows(ExecuteAll(t, run)) == rows + Inserted(ExecuteAll(t, run[..|run| - 1]), run[|run| - 1])
    ensures Inserted(ExecuteAll(t, run[..|run| - 1]), run[|run| - 1]).Keys !! rows.Keys
  {
    StatementKeepsRows(ExecuteAll(t, run[..|run| - 1]), run[|run| - 1]);
  }

  /** In every interleaving the rows are the old ones and those inserted; none is lost or replaced. */
  lemma {:induction false} EveryInterleavingKeepsRows(t: Table, run: seq<Statement>)
    ensures Rows(ExecuteAll(t, run)) == Rows(t) + Accepted(t, run)
    ensures Accepted(t, run).Keys !! Rows(t).Keys
  {
    if run != [] {
      EveryInterleavingKeepsRows(t, run[..|run| - 1]);
      var (earlier, last) := (Accepted(t, run[..|run| - 1]), Inserted(ExecuteAll(t, run[..|run| - 1]), run[|run| - 1]));
      LastStatement(t, run, Rows(t) + earlier);
      SumAssociates(Rows(t), earlier, last);
    }
  }

  /** In every interleaving each row stays where its date says. */
  lemma {:induction false} EveryInterleavingKeepsRouting(t: Table, run: seq<Statement>)
    requires Routed(t)
    ensures Routed(ExecuteAll(t, run))
  {
    if run != [] {
      EveryInterleavingKeepsRouting(t, run[..|run| - 1]);
      StatementKeepsRouting(ExecuteAll(t, run[..|run| - 1]), run[|run| - 1]);
    }
  }

  /** Partitions are never dropped, so a month made by upkeep takes every later row of that month. */
  lemma {:induction false} EveryInterleavingKeepsPartitions(t: Table, run: seq<Statement>)
    ensures t.months <= ExecuteAll(t, run).months && (t.hasDefault ==> ExecuteAll(t, run).hasDefault)
  {
    if run != [] {
      var before, st := ExecuteAll(t, run[..|run| - 1]), run[|run| - 1];
      EveryInterleavingKeepsPartitions(t, run[..|run| - 1]);
      if st.Drain? { DrainKeeps(before, st.month); }
    }
  }

  // ---- Migration of a regular table -----------------------------------------------------------

  /** A row of the old table: its `created_at` may be NULL. The table maps ids to rows. */
  datatype LegacyRow = LegacyRow(created: Option<Instant>, data: Data)

  type Legacy = map<nat, LegacyRow>

  /** The dates `MIN(created_at)` and `MAX(created_at)` range over. */
  function Dates(rows: Legacy): set<Instant> {
    set id | id in rows && rows[id].created.Some? :: rows[id].created.value
  }

  predicate HasDate(rows: Legacy) { exists d :: d in Dates(rows) }

  /** `MIN(created_at)` and `MAX(created_at)`, which skip NULLs. */
  function Earliest(rows: Legacy): Instant
    requires HasDate(rows)
  {
    Least(Dates(rows))
  }

  function Latest(rows: Legacy): Instant
    requires HasDate(rows)
  {
    Greatest(Dates(rows))
  }

  /** `COALESCE(created_at, <now literal>)`: the literal has whole seconds. */
  function DateOf(row: LegacyRow, now: Instant): Instant {
    if row.created.Some? then row.created.value else WholeSecond(now)
  }

  function Stamped(rows: Legacy, now: Instant): map<Key, Data> {
    map id | id in rows :: Key(id, DateOf(rows[id], now)) := rows[id].data
  }

  function FirstLegacyMonth(rows: Legacy): int {
    if !HasDate(rows) then 0 else MonthOf(Earliest(rows))
  }

  function LegacySpan(rows: Legacy): nat {
    if !HasDate(rows) then 0
    else
      MonthOfMonotone(Earliest(rows), Latest(rows));
      MonthOf(Latest(rows)) - MonthOf(Earliest(rows)) + 1
  }

  function Rolling(t: Table, now: Instant): Table {
    WithMonths(t, MonthOf(now) - PAST_MONTHS, PAST_MONTHS + FUTURE_MONTHS + 1)
  }

  /** Upkeep at `now` leaves exactly the months from `now - 12` to `now + 3`, beside those there were. */
  lemma {:induction false} RollingIsSixteenMonths(t: Table, now: Instant, m: int)
    ensures m in Rolling(t, now).months <==> m in t.months || MonthOf(now) - 12 <= m <= MonthOf(now) + 3
  {
    MonthsAdded(t, MonthOf(now) - 12, 16);
    InMonthRange(MonthOf(now) - 12, 16, m);
  }

  /** The new table just before the copy: months made, no row in it. */
  function Prepared(rows: Legacy, now: Instant): Table {
    WithMonths(Rolling(Table(true, {}, map[]), now), FirstLegacyMonth(rows), LegacySpan(rows))
  }

  function MigratedMonths(rows: Legacy, now: Instant): set<int> {
    MonthRange(MonthOf(now) - 12, 16) + MonthRange(FirstLegacyMonth(rows), LegacySpan(rows))
  }

  function Migrated(rows: Legacy, now: Instant): Table {
    Table(true, MigratedMonths(rows, now), PlaceAll(MigratedMonths(rows, now), Stamped(rows, now)))
  }

  lemma {:induction false} EmptyStaysEmpty(t: Table, first: int, n: nat)
    requires t.stored == map[]
    ensures WithMonths(t, first, n) == Table(t.hasDefault, t.months + MonthRange(first, n), map[])
  {
    if n > 0 {
      EmptyStaysEmpty(t, first, n - 1);
    }
  }

  lemma {:induction false} PreparedShape(rows: Legacy, now: Instant)
    ensures Prepared(rows, now) == Table(true, MigratedMonths(rows, now), map[])
  {
    var none := Table(true, {}, map[]);
    EmptyStaysEmpty(none, MonthOf(now) - 12, 16);
    EmptyStaysEmpty(Rolling(none, now), FirstLegacyMonth(rows), LegacySpan(rows));
  }

  /** A dated row's month lies between the earliest and the latest; a row without a date gets `now`'s month. */
  lemma {:induction false} LegacyMonthExists(rows: Legacy, now: Instant, id: nat)
    requires id in rows
    ensures MonthOf(DateOf(rows[id], now)) in MigratedMonths(rows, now)
  {
    if rows[id].created.Some? {
      var at := rows[id].created.value;
      assert at in Dates(rows);
      MonthOfMonotone(Earliest(rows), at);
      MonthOfMonotone(at, Latest(rows));
      InMonthRange(FirstLegacyMonth(rows), LegacySpan(rows), MonthOf(at));
    } else {
      WholeSecondKeepsMonth(now);
      InMonthRange(MonthOf(now) - 12, 16, MonthOf(now));
    }
  }

  /** The copy is accepted; every legacy row ends in its own month's partition and none in the default one. */
  lemma {:induction false} MigrationIsComplete(rows: Legacy, now: Instant)
    ensures InsertAll(Prepared(rows, now), Stamped(rows, now)) == Some(Migrated(rows, now))
    ensures Rows(Migrated(rows, now)) == Stamped(rows, now)
    ensures forall k | k in Migrated(rows, now).stored :: Migrated(rows, now).stored[k].place == Monthly(MonthOf(k.at))
    ensures Routed(Migrated(rows, now))
  {
    PreparedShape(rows, now);
    forall k | k in Stamped(rows, now) ensures MonthOf(k.at) in MigratedMonths(rows, now) {
      LegacyMonthExists(rows, now, k.id);
    }
    var t, placed := Prepared(rows, now), PlaceAll(MigratedMonths(rows, now), Stamped(rows, now));
    assert HasRoom(t, Stamped(rows, now));
    assert map[] + placed == placed;
  }

  /**
    * Row by row: each legacy row is there once, with its data, under its own date, or under `now` in whole
    * seconds if it had none; and there is nothing else.
    */
  ghost predicate HoldsLegacy(result: map<Key, Data>, rows: Legacy, now: Instant) {
    && (forall id | id in rows && rows[id].created.Some? ::
          var key := Key(id, rows[id].created.value); key in result && result[key] == rows[id].data)
    && (forall id | id in rows && rows[id].created.None? ::
          var key := Key(id, now - now % 1_000_000_000); key in result && result[key] == rows[id].data)
    && (forall key | key in result ::
          key.id in rows && key.at == match rows[key.id].created case Some(at) => at case None => now - now % 1_000_000_000)
  }

  lemma {:induction false} StampedHoldsLegacy(rows: Legacy, now: Instant)
    ensures HoldsLegacy(Stamped(rows, now), rows, now)
  {
    forall id | id in rows ensures Key(id, DateOf(rows[id], now)) in Stamped(rows, now) {
    }
  }

  /** The migrated table is the legacy table, row by row. */
  lemma {:induction false} MigratedHoldsLegacy(rows: Legacy, now: Instant)
    ensures HoldsLegacy(Rows(Migrated(rows, now)), rows, now)
    ensures |Rows(Migrated(rows, now))| == |rows|
  {
    MigrationIsComplete(rows, now);
    StampedHoldsLegacy(rows, now);
    SameSize(Rows(Migrated(rows, now)), rows, now);
  }

  lemma {:induction false} SameSize(result: map<Key, Data>, rows: Legacy, now: Instant)
    requires HoldsLegacy(result, rows, now)
    ensures |result| == |rows|
    decreases |rows|
  {
    if id :| id in rows {
      var key := Key(id, match rows[id].created case Some(at) => at case None => now - now % 1_000_000_000);
      assert key in result;
      var fewer, rest := rows - {id}, result - {key};
      assert fewer.Keys == rows.Keys - {id} && rest.Keys == result.Keys - {key};
      assert |rows| == |rows.Keys| && |fewer| == |fewer.Keys| && |result| == |result.Keys| && |rest| == |rest.Keys|;
      SameSize(rest, fewer, now);
    } else {
      assert rows.Keys == {} && result.Keys == {};
      assert |rows| == |rows.Keys| && |result| == |result.Keys|;
    }
  }

  lemma {:induction false} HasDateMeans(rows: Legacy)
    ensures HasDate(rows) <==> exists i :: i in rows && rows[i].created.Some?
  {
    if HasDate(rows) {
      var i := RowOf(rows, Earliest(rows));
    }
    if i :| i in rows && rows[i].created.Some? {
      var d: Instant := rows[i].created.value;
      assert d in Dates(rows);
    }
  }

  lemma {:induction false} RowOf(rows: Legacy, d: Instant) returns (i: nat)
    requires d in Dates(rows)
    ensures i in rows && rows[i].created == Some(d)
  {
    i :| i in rows && rows[i].created == Some(d);
  }

  /** Between the months of two legacy dates. */
  predicate BetweenDates(rows: Legacy, m: int) {
    exists i, j | i in rows && j in rows && rows[i].created.Some? && rows[j].created.Some? ::
      MonthOf(rows[i].created.value) <= m <= MonthOf(rows[j].created.value)
  }

  lemma {:induction false} BetweenFirstAndLast(rows: Legacy, m: int)
    requires HasDate(rows)
    ensures BetweenDates(rows, m) <==> MonthOf(Earliest(rows)) <= m <= MonthOf(Latest(rows))
  {
    var first := RowOf(rows, Earliest(rows));
    var last := RowOf(rows, Latest(rows));
    if i, j :| i in rows && j in rows && rows[i].created.Some? && rows[j].created.Some?
               && MonthOf(rows[i].created.value) <= m <= MonthOf(rows[j].created.value) {
      assert rows[i].created.value in Dates(rows) && rows[j].created.value in Dates(rows);
      MonthOfMonotone(Earliest(rows), rows[i].created.value);
      MonthOfMonotone(rows[j].created.value, Latest(rows));
    }
  }

  /** The months made are those of upkeep and those from the first legacy date to the last. */
  lemma {:induction false} MigratedMonthsAre(rows: Legacy, now: Instant, m: int)
    ensures m in MigratedMonths(rows, now) <==> MonthOf(now) - 12 <= m <= MonthOf(now) + 3 || BetweenDates(rows, m)
  {
    InMonthRange(MonthOf(now) - 12, 16, m);
    InMonthRange(FirstLegacyMonth(rows), LegacySpan(rows), m);
    HasDateMeans(rows);
    if HasDate(rows) {
      BetweenFirstAndLast(rows, m);
    }
  }

  // ---- One service start-up -------------------------------------------------------------------

  /** What the table's name stands for, and the old tables that were renamed and not dropped. */
  datatype Relation = Missing | Regular(rows: Legacy) | Partitioned(table: Table)

  datatype State = State(relation: Relation, legacies: map<Instant, Legacy>)

  /** The statement at which a start-up stopped with an error. */
  datatype Stage =
    | Inspect | Rename | CreateEmpty | MigrateDefault | MigrateRolling | MigrateLegacy | Copy | DropLegacy
    | CreateTable | DefaultPartition | RollingMonths

  datatype Outcome = Done | Failed(at: Stage)

  const NO_ROWS: Table := Table(false, {}, map[])

  function Renamed(s: State, now: Instant): State
    requires s.relation.Regular?
  {
    State(Missing, s.legacies[WholeSecond(now) := s.relation.rows])
  }

  /** The table at the end of migration or creation. */
  function Converted(s: State, now: Instant): State {
    match s.relation
    case Missing => s.(relation := Partitioned(NO_ROWS))
    case Regular(rows) => s.(relation := Partitioned(Migrated(rows, now)))
    case Partitioned(_) => s
  }

  function Upkept(t: Table, now: Instant): Table {
    Rolling(t.(hasDefault := true), now)
  }

  function PartlyUpkept(s: State, now: Instant, n: nat): State {
    var t := Converted(s, now).relation.table;
    State(Partitioned(WithMonths(t.(hasDefault := true), MonthOf(now) - PAST_MONTHS, n)), s.legacies)
  }

  /** A start-up from `s` at time `now` that ends with `r` in `s2`. */
  ghost predicate StartUp(s: State, now: Instant, r: Outcome, s2: State) {
    var migrating := s.relation.Regular? && WholeSecond(now) !in s.legacies;
    match r
    case Done =>
      (s.relation.Regular? ==> migrating) &&
      s2 == State(Partitioned(Upkept(Converted(s, now).relation.table, now)), s.legacies)
    case Failed(stage) =>
      match stage
      case Inspect => s2 == s
      case Rename => s.relation.Regular? && s2 == s
      case CreateEmpty => migrating && s2 == Renamed(s, now)
      case MigrateDefault | MigrateRolling | MigrateLegacy | Copy =>
        migrating && s2.legacies == Renamed(s, now).legacies &&
        s2.relation.Partitioned? && s2.relation.table.stored == map[]
      case DropLegacy => migrating && s2 == State(Converted(s, now).relation, Renamed(s, now).legacies)
      case CreateTable => s.relation.Missing? && s2 == s
      case DefaultPartition => (s.relation.Regular? ==> migrating) && s2 == Converted(s, now)
      case RollingMonths =>
        (s.relation.Regular? ==> migrating) &&
        exists n: nat | n < 16 :: s2 == PartlyUpkept(s, now, n)
  }

  /** The rows a reader of the table sees, a NULL date read as `now`. */
  function Visible(r: Relation, now: Instant): map<Key, Data> {
    match r
    case Missing => map[]
    case Regular(rows) => Stamped(rows, now)
    case Partitioned(t) => Rows(t)
  }

  ghost predicate Sound(s: State) {
    s.relation.Partitioned? ==> Routed(s.relation.table)
  }

  /** The stages between the renaming of the old table and the copy of its rows. */
  predicate Strands(r: Outcome) {
    r.Failed? && (r.at.CreateEmpty? || r.at.MigrateDefault? || r.at.MigrateRolling? || r.at.MigrateLegacy? || r.at.Copy?)
  }

  lemma {:induction false} ConvertedKeeps(s: State, now: Instant)
    requires Sound(s)
    ensures Routed(Converted(s, now).relation.table)
    ensures Rows(Converted(s, now).relation.table) == Visible(s.relation, now)
  {
    if s.relation.Regular? {
      MigrationIsComplete(s.relation.rows, now);
    }
  }

  lemma {:induction false} PartlyUpkeptKeeps(t: Table, now: Instant, n: nat)
    requires Routed(t)
    ensures Rows(WithMonths(t.(hasDefault := true), MonthOf(now) - 12, n)) == Rows(t)
    ensures Routed(WithMonths(t.(hasDefault := true), MonthOf(now) - 12, n))
  {
    var u := t.(hasDefault := true);
    assert Rows(u) == Rows(t);
    assert Routed(u);
    MonthsKeepRows(u, MonthOf(now) - 12, n);
    MonthsKeepRouting(u, MonthOf(now) - 12, n);
  }

  lemma {:induction false} StartUpStaysSound(s: State, now: Instant, r: Outcome, s2: State)
    requires Sound(s) && StartUp(s, now, r, s2)
    ensures Sound(s2)
    ensures !Strands(r) ==> Visible(s2.relation, now) == Visible(s.relation, now)
  {
    ConvertedKeeps(s, now);
    var t := Converted(s, now).relation.table;
    if r.Done? {
      PartlyUpkeptKeeps(t, now, 16);
    } else if r.at.RollingMonths? {
      var n: nat :| n < 16 && s2 == PartlyUpkept(s, now, n);
      PartlyUpkeptKeeps(t, now, n);
    }
  }

  /** A start-up that migrated a table and ended without an error holds the legacy rows, row by row. */
  lemma {:induction false} StartUpHoldsLegacy(s: State, now: Instant, s2: State)
    requires Sound(s) && s.relation.Regular? && StartUp(s, now, Done, s2)
    ensures s2.relation.Partitioned? && HoldsLegacy(Rows(s2.relation.table), s.relation.rows, now)
  {
    StartUpStaysSound(s, now, Done, s2);
    StampedHoldsLegacy(s.relation.rows, now);
  }

  /**
    * A start-up leaves the visible rows as they were unless it stopped between the rename and the copy
    * of a table with rows. Then none is visible, and all of them are in the renamed table.
    */
  lemma {:induction false} RowsStayVisibleUnlessStranded(s: State, now: Instant, r: Outcome, s2: State)
    requires Sound(s) && StartUp(s, now, r, s2)
    ensures Visible(s2.relation, now) == Visible(s.relation, now)
       <==> !(Strands(r) && exists id :: id in s.relation.rows)
    ensures Strands(r) ==>
              Visible(s2.relation, now) == map[] && s2.legacies == s.legacies[WholeSecond(now) := s.relation.rows]
  {
    StartUpStaysSound(s, now, r, s2);
    if Strands(r) {
      assert s.relation.Regular?;
      var seen := Visible(s2.relation, now);
      assert seen == map[];
      if id :| id in s.relation.rows {
        assert Key(id, DateOf(s.relation.rows[id], now)) in Stamped(s.relation.rows, now);
      } else {
        assert Stamped(s.relation.rows, now) == map[];
      }
    }
  }

  /** The migration that stops after the rename is not taken up by the next start-up, which succeeds without the rows. */
  lemma {:induction false} RetryDoesNotResume(rows: Legacy, now: Instant, later: Instant)
    ensures var s0, s1 := State(Regular(rows), map[]), State(Missing, map[WholeSecond(now) := rows]);
            StartUp(s0, now, Failed(CreateEmpty), s1) &&
            exists s2 :: StartUp(s1, later, Done, s2) && Visible(s2.relation, later) == map[] && s2.legacies == s1.legacies
  {
    var s0, s1 := State(Regular(rows), map[]), State(Missing, map[WholeSecond(now) := rows]);
    assert Renamed(s0, now) == s1;
    var s2 := State(Partitioned(Upkept(NO_ROWS, later)), s1.legacies);
    EmptyStaysEmpty(NO_ROWS.(hasDefault := true), MonthOf(later) - 12, 16);
    assert StartUp(s1, later, Done, s2);
    assert Visible(s2.relation, later) == map[];
  }

  // ---- Any number of start-ups, with writes between them ---------------------------------------

  datatype Event = Boot(now: Instant, outcome: Outcome) | Write(st: Statement)

  ghost predicate Next(s: State, e: Event, s2: State) {
    match e
    case Boot(now, r) => StartUp(s, now, r, s2)
    case Write(st) =>
      s.relation.Partitioned? && s2 == s.(relation := Partitioned(Execute(s.relation.table, st)))
  }

  function Written(s: State, e: Event): map<Key, Data> {
    if e.Write? && s.relation.Partitioned? then Inserted(s.relation.table, e.st) else map[]
  }

  /** The run `states[0], events[0], states[1], ...`, and the rows its writes added. */
  ghost predicate IsRun(states: seq<State>, events: seq<Event>, written: map<Key, Data>)
    decreases |events|
  {
    |states| == |events| + 1 &&
    if events == [] then written == map[]
    else
      var n := |events| - 1;
      exists before ::
        IsRun(states[..n + 1], events[..n], before) &&
        Next(states[n], events[n], states[n + 1]) &&
        written == before + Written(states[n], events[n])
  }

  /** `s` has the rows of `s0` and the written ones, correctly placed, and the same renamed tables. */
  ghost predicate Continues(s0: State, s: State, written: map<Key, Data>) {
    && Sound(s) && !s.relation.Regular?
    && s.legacies == s0.legacies
    && Visible(s.relation, 0) == Visible(s0.relation, 0) + written
  }

  lemma {:induction false} EventKeeps(s: State, e: Event, s2: State)
    requires Sound(s) && !s.relation.Regular? && Next(s, e, s2)
    ensures Sound(s2) && !s2.relation.Regular?
    ensures s2.legacies == s.legacies
    ensures Visible(s2.relation, 0) == Visible(s.relation, 0) + Written(s, e)
  {
    match e {
      case Boot(now, r) =>
        StartUpStaysSound(s, now, r, s2);
      case Write(st) =>
        StatementKeepsRows(s.relation.table, st);
        StatementKeepsRouting(s.relation.table, st);
    }
  }

  lemma {:induction false} EventContinues(s0: State, s: State, before: map<Key, Data>, added: map<Key, Data>, s2: State)
    requires Continues(s0, s, before)
    requires Sound(s2) && !s2.relation.Regular? && s2.legacies == s.legacies
    requires Visible(s2.relation, 0) == Visible(s.relation, 0) + added
    ensures Continues(s0, s2, before + added)
  {
    SumAssociates(Visible(s0.relation, 0), before, added);
  }

  /**
    * Once the name no longer stands for a regular table, start-ups at any times and with any outcomes
    * keep the rows and the routing; and a renamed table that an earlier start-up left behind is never
    * touched again, so its rows never come back by themselves.
    */
  lemma {:induction false} LaterStartUpsKeepRows(states: seq<State>, events: seq<Event>, written: map<Key, Data>)
    requires IsRun(states, events, written)
    requires Sound(states[0]) && !states[0].relation.Regular?
    ensures Continues(states[0], states[|events|], written)
    decreases |events|
  {
    var s0 := states[0];
    if events == [] {
      assert Visible(s0.relation, 0) + map[] == Visible(s0.relation, 0);
    } else {
      var n := |events| - 1;
      var before :|
        IsRun(states[..n + 1], events[..n], before) &&
        Next(states[n], events[n], states[n + 1]) &&
        written == before + Written(states[n], events[n]);
      LaterStartUpsKeepRows(states[..n + 1], events[..n], before);
      EventKeeps(states[n], events[n], states[n + 1]);
      EventContinues(s0, states[n], before, Written(states[n], events[n]), states[n + 1]);
    }
  }
}
