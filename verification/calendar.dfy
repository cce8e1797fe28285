/**
 * Naive (time-zone-free) calendar timestamps as pandas holds them in a
 * datetime64 column: a proleptic Gregorian date plus the time of day in
 * nanoseconds, ordered chronologically, and the calendar-aligned buckets
 * (hour, day, month, year) that `resample` groups them into.
 */
module Calendar {

  const NanosPerHour: int := 3_600_000_000_000
  const NanosPerDay: int := 24 * NanosPerHour

  datatype Date = Date(year: int, month: int, day: int)

  /** A point in time: a calendar date and the nanoseconds elapsed since its midnight. */
  datatype DateTime = DateTime(date: Date, nanos: int)

  predicate IsLeapYear(y: int) {
    y % 4 == 0 && (y % 100 != 0 || y % 400 == 0)
  }

  function DaysInMonth(y: int, m: int): (n: int)
    requires 1 <= m <= 12
    ensures 28 <= n <= 31
    ensures n == 29 <==> m == 2 && IsLeapYear(y)
  {
    if m == 2 then (if IsLeapYear(y) then 29 else 28)
    else if m == 4 || m == 6 || m == 9 || m == 11 then 30
    else 31
  }

  predicate ValidDate(d: Date) {
    1 <= d.month <= 12 && 1 <= d.day <= DaysInMonth(d.year, d.month)
  }

  predicate Valid(t: DateTime) {
    ValidDate(t.date) && 0 <= t.nanos < NanosPerDay
  }

  /** A well-formed timestamp, the only kind a datetime64 column can hold. */
  type Timestamp = t: DateTime | Valid(t) witness DateTime(Date(1970, 1, 1), 0)

  /** Chronological order of dates: by year, then month, then day. */
  predicate DateBefore(a: Date, b: Date) {
    a.year < b.year ||
    (a.year == b.year && (a.month < b.month || (a.month == b.month && a.day < b.day)))
  }

  /** Chronological order of timestamps: by date, then by time of day. */
  predicate Before(a: DateTime, b: DateTime) {
    DateBefore(a.date, b.date) || (a.date == b.date && a.nanos < b.nanos)
  }

  /** The `<=` of pandas timestamps. */
  predicate NotAfter(a: DateTime, b: DateTime) {
    a == b || Before(a, b)
  }

  /** A calendar date promoted to a timestamp, as `pd.to_datetime(date)` does: its midnight. */
  function Midnight(d: Date): (t: DateTime)
    ensures ValidDate(d) ==> Valid(t)
    ensures forall u :: Valid(u) ==> (Before(u, t) <==> DateBefore(u.date, d))
    ensures forall u :: Valid(u) && u.date == d ==> NotAfter(t, u)
  {
    DateTime(d, 0)
  }

  /** The calendar day after `d`. */
  function NextDay(d: Date): (n: Date)
    requires ValidDate(d)
    ensures ValidDate(n) && DateBefore(d, n)
  {
    if d.day < DaysInMonth(d.year, d.month) then Date(d.year, d.month, d.day + 1)
    else if d.month < 12 then Date(d.year, d.month + 1, 1)
    else Date(d.year + 1, 1, 1)
  }

  /** No valid date lies strictly between a date and the day after it. */
  lemma NothingBetweenDays(d: Date, e: Date)
    requires ValidDate(d) && ValidDate(e) && DateBefore(d, e)
    ensures !DateBefore(e, NextDay(d))
  {
  }

  /** The resampling granularities offered: 'H', 'D', 'M' and 'A' in pandas' terms. */
  datatype Granularity = Hour | Day | Month | Year

  /** `k` is the first instant of a bucket of granularity `g`. */
  predicate Aligned(g: Granularity, k: DateTime) {
    Valid(k) &&
    match g
    case Hour => k.nanos % NanosPerHour == 0
    case Day => k.nanos == 0
    case Month => k.nanos == 0 && k.date.day == 1
    case Year => k.nanos == 0 && k.date.day == 1 && k.date.month == 1
  }

  /** The first instant after the bucket that starts at `k`. */
  function BucketEnd(g: Granularity, k: DateTime): (e: DateTime)
    requires Aligned(g, k)
    ensures Valid(e) && Aligned(g, e) && Before(k, e)
  {
    match g
    case Hour =>
      if k.nanos + NanosPerHour < NanosPerDay then DateTime(k.date, k.nanos + NanosPerHour)
      else Midnight(NextDay(k.date))
    case Day => Midnight(NextDay(k.date))
    case Month =>
      if k.date.month < 12 then Midnight(Date(k.date.year, k.date.month + 1, 1))
      else Midnight(Date(k.date.year + 1, 1, 1))
    case Year => Midnight(Date(k.date.year + 1, 1, 1))
  }

  /** `t` falls in the half-open interval [k, BucketEnd(g, k)). */
  predicate InBucket(g: Granularity, k: DateTime, t: DateTime)
    requires Aligned(g, k)
  {
    NotAfter(k, t) && Before(t, BucketEnd(g, k))
  }

  /** The start of the calendar bucket of granularity `g` that contains `t`. */
  function Truncate(g: Granularity, t: DateTime): (k: DateTime)
    requires Valid(t)
    ensures Aligned(g, k) && NotAfter(k, t)
  {
    match g
    case Hour => DateTime(t.date, t.nanos - t.nanos % NanosPerHour)
    case Day => Midnight(t.date)
    case Month => Midnight(Date(t.date.year, t.date.month, 1))
    case Year => Midnight(Date(t.date.year, 1, 1))
  }

  /**
   * Buckets are calendar-aligned and partition the time line: `t` lies in the
   * bucket that starts at Truncate(g, t), and in no other bucket.
   */
  lemma TruncateIsTheBucket(g: Granularity, t: DateTime, k: DateTime)
    requires Valid(t)
    ensures InBucket(g, Truncate(g, t), t)
    ensures Aligned(g, k) && InBucket(g, k, t) ==> k == Truncate(g, t)
  {
    if Aligned(g, k) && InBucket(g, k, t) {
      if DateBefore(k.date, t.date) {
        match g
        case Hour =>
          if k.nanos + NanosPerHour >= NanosPerDay {
            NothingBetweenDays(k.date, t.date);
          }
        case Day =>
          NothingBetweenDays(k.date, t.date);
        case Month =>
        case Year =>
      }
    }
  }

  /** Truncating is idempotent: a bucket start is its own bucket. */
  lemma TruncateIdempotent(g: Granularity, t: DateTime)
    requires Valid(t)
    ensures Truncate(g, Truncate(g, t)) == Truncate(g, t)
  {
  }

  /** Truncating is monotone, so bucketing never reorders timestamps. */
  lemma TruncateMonotone(g: Granularity, a: DateTime, b: DateTime)
    requires Valid(a) && Valid(b) && NotAfter(a, b)
    ensures NotAfter(Truncate(g, a), Truncate(g, b))
  {
  }
}
