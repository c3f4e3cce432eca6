/**
  * The UTC month arithmetic behind the monthly partitions: the civil date
  * normalisation of Go's `time.Date`, month starts as instants, and the month
  * an instant falls in.
  *
  * An instant is a number of nanoseconds since 1970-01-01 UTC and may be
  * negative. A month is numbered `year * 12 + (month - 1)`.
  */
module Calendar {
  type Instant = int

  const SECOND: int := 1_000_000_000
  /** January 1970. */
  const EPOCH: int := 23_640

  datatype Civil = Civil(year: int, month: int) {
    predicate Valid() { 1 <= month <= 12 }

    function Index(): int { year * 12 + month - 1 }
  }

  function FromIndex(i: int): (c: Civil)
    ensures c.Valid() && c.Index() == i
  {
    Civil(i / 12, i % 12 + 1)
  }

  /** `norm(hi, lo, 12)` of Go's time package: brings `lo` into 0..11 and carries into `hi`. */
  function Norm(hi: int, lo: int): (r: (int, int))
    ensures 0 <= r.1 < 12
    ensures r.0 * 12 + r.1 == hi * 12 + lo
  {
    var n := if lo < 0 then (-lo - 1) / 12 + 1 else 0;
    var (h, l) := (hi - n, lo + n * 12);
    if l >= 12 then (h + l / 12, l - l / 12 * 12) else (h, l)
  }

  /** `AddDate(0, k, 0)` on the first day of a month. */
  function AddMonths(c: Civil, k: int): Civil {
    var (year, month) := Norm(c.year, c.month + k - 1);
    Civil(year, month + 1)
  }

  /** Adding months is addition on month numbers, whatever year boundaries are crossed either way. */
  lemma {:induction false} AddMonthsCounts(c: Civil, k: int)
    ensures AddMonths(c, k).Valid()
    ensures AddMonths(c, k).Index() == c.Index() + k
    ensures AddMonths(c, k) == FromIndex(c.Index() + k)
  {
    var next := AddMonths(c, k);
    IndexInjective(next, FromIndex(c.Index() + k));
  }

  lemma {:induction false} IndexInjective(a: Civil, b: Civil)
    requires a.Valid() && b.Valid() && a.Index() == b.Index()
    ensures a == b
  {
  }

  predicate IsLeap(year: int) {
    year % 4 == 0 && (year % 100 != 0 || year % 400 == 0)
  }

  function DaysIn(i: int): (n: int)
    ensures 28 <= n <= 31
  {
    var c := FromIndex(i);
    if c.month == 2 then (if IsLeap(c.year) then 29 else 28)
    else if c.month == 4 || c.month == 6 || c.month == 9 || c.month == 11 then 30
    else 31
  }

  /** Days from 1970-01-01 to the first day of month `i`, counted month by month. */
  function FirstDay(i: int): int
    decreases if i < EPOCH then EPOCH - i else i - EPOCH
  {
    if i == EPOCH then 0
    else if i < EPOCH then FirstDay(i + 1) - DaysIn(i)
    else FirstDay(i - 1) + DaysIn(i - 1)
  }

  /** Midnight UTC on the first day of month `i`. */
  function MonthStart(i: int): Instant {
    FirstDay(i) * 86_400_000_000_000
  }

  lemma {:induction false} MonthLength(i: int)
    ensures FirstDay(i + 1) == FirstDay(i) + DaysIn(i)
  {
  }

  lemma {:induction false} MonthStep(i: int)
    ensures MonthStart(i) + 28 * 86_400_000_000_000 <= MonthStart(i + 1)
  {
    MonthLength(i);
  }

  lemma {:induction false} MonthStartsIncrease(i: int, j: int)
    requires i < j
    ensures MonthStart(i) < MonthStart(j)
    decreases j - i
  {
    MonthStep(j - 1);
    if i < j - 1 {
      MonthStartsIncrease(i, j - 1);
    }
  }

  predicate InMonth(i: int, t: Instant) {
    MonthStart(i) <= t < MonthStart(i + 1)
  }

  function MonthAtOrBefore(i: int, t: Instant): int
    decreases MonthStart(i) - t
  {
    MonthStep(i - 1);
    if MonthStart(i) <= t then i else MonthAtOrBefore(i - 1, t)
  }

  function MonthAtOrAfter(i: int, t: Instant): int
    decreases t - MonthStart(i)
  {
    MonthStep(i);
    if t < MonthStart(i + 1) then i else MonthAtOrAfter(i + 1, t)
  }

  /** The month whose year and number `value.UTC()` reports. */
  function MonthOf(t: Instant): int {
    if t < MonthStart(EPOCH) then MonthAtOrBefore(EPOCH, t) else MonthAtOrAfter(EPOCH, t)
  }

  lemma {:induction false} SearchBefore(i: int, t: Instant)
    requires t < MonthStart(i + 1)
    ensures InMonth(MonthAtOrBefore(i, t), t)
    decreases MonthStart(i) - t
  {
    MonthStep(i - 1);
    if t < MonthStart(i) {
      SearchBefore(i - 1, t);
    }
  }

  lemma {:induction false} SearchAfter(i: int, t: Instant)
    requires MonthStart(i) <= t
    ensures InMonth(MonthAtOrAfter(i, t), t)
    decreases t - MonthStart(i)
  {
    MonthStep(i);
    if MonthStart(i + 1) <= t {
      SearchAfter(i + 1, t);
    }
  }

  lemma {:induction false} MonthOfFinds(t: Instant)
    ensures InMonth(MonthOf(t), t)
  {
    MonthStep(EPOCH);
    if t < MonthStart(EPOCH) { SearchBefore(EPOCH, t); } else { SearchAfter(EPOCH, t); }
  }

  /** The months cut the time line into disjoint ranges that leave nothing out. */
  lemma {:induction false} MonthsPartitionTime(i: int, t: Instant)
    ensures InMonth(i, t) <==> i == MonthOf(t)
  {
    MonthOfFinds(t);
    var m := MonthOf(t);
    if i < m {
      if i + 1 < m { MonthStartsIncrease(i + 1, m); }
    } else if m < i {
      if m + 1 < i { MonthStartsIncrease(m + 1, i); }
    }
  }

  lemma {:induction false} MonthOfMonotone(s: Instant, t: Instant)
    requires s <= t
    ensures MonthOf(s) <= MonthOf(t)
  {
    var a, b := MonthOf(s), MonthOf(t);
    MonthsPartitionTime(a, s);
    MonthsPartitionTime(b, t);
    if b + 1 < a {
      MonthStartsIncrease(b + 1, a);
    }
  }

  /** The instant a timestamp literal denotes: the literal has no fraction of a second. */
  function WholeSecond(t: Instant): Instant {
    t - t % SECOND
  }

  lemma {:induction false} WholeSecondKeepsMonth(t: Instant)
    ensures WholeSecond(t) <= t < WholeSecond(t) + SECOND
    ensures MonthOf(WholeSecond(t)) == MonthOf(t)
  {
    var m := MonthOf(t);
    MonthsPartitionTime(m, t);
    var seconds := FirstDay(m) * 86_400;
    assert MonthStart(m) == seconds * SECOND;
    assert t / SECOND >= seconds;
    MonthsPartitionTime(m, WholeSecond(t));
  }

  /** `monthStartUTC`: the first instant of the month, as a civil month. */
  function MonthStartUtc(t: Instant): (c: Civil)
    ensures c.Valid()
  {
    FromIndex(MonthOf(t))
  }
}
