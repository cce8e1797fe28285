/**
 * The aggregation half of `plot_confidence`: an empty frame yields "no data";
 * otherwise the rows are grouped into calendar-aligned buckets of the chosen
 * granularity and each non-empty bucket contributes one point, the mean of
 * its rows' confidences, in chronological order.
 */
module Resampling {
  import opened Calendar
  import opened Filtering

  /** One point of the resampled series: a bucket (by its first instant) and its mean confidence. */
  datatype Point = Point(bucket: DateTime, mean: real)

  /** What plot_confidence produces. */
  datatype Plot =
    | NoDataToPlot                  // the frame was empty; nothing is resampled
    | UnknownTimeFrame(name: string) // no branch sets the series, so plotting it fails
    | Chart(series: seq<Point>)

  /** The granularity each time-frame name selects ('H', 'D', 'M', 'A'). */
  function ParseTimeFrame(name: string): (g: Option<Granularity>)
    ensures name == "Hourly" <==> g == Some(Hour)
    ensures name == "Daily" <==> g == Some(Day)
    ensures name == "Monthly" <==> g == Some(Month)
    ensures name == "Yearly" <==> g == Some(Year)
  {
    if name == "Hourly" then Some(Hour)
    else if name == "Daily" then Some(Day)
    else if name == "Monthly" then Some(Month)
    else if name == "Yearly" then Some(Year)
    else None
  }

  /** The bucket a record falls into. */
  function BucketOf(g: Granularity, r: Record): DateTime {
    Truncate(g, r.timestamp)
  }

  /** The buckets that hold at least one record. */
  function Buckets(rs: seq<Record>, g: Granularity): set<DateTime> {
    set r | r in rs :: BucketOf(g, r)
  }

  lemma BucketsByIndex(rs: seq<Record>, g: Granularity, k: DateTime)
    ensures k in Buckets(rs, g) <==> exists i :: 0 <= i < |rs| && BucketOf(g, rs[i]) == k
  {
    if k in Buckets(rs, g) {
      var r :| r in rs && BucketOf(g, r) == k;
      var i :| 0 <= i < |rs| && rs[i] == r;
    }
  }

  /** The mask that picks the records of bucket `k`. */
  function BucketMask(g: Granularity, k: DateTime): Record -> bool {
    r => BucketOf(g, r) == k
  }

  /** The records of one bucket, in frame order. */
  function Bucket(rs: seq<Record>, g: Granularity, k: DateTime): seq<Record> {
    Select(rs, BucketMask(g, k))
  }

  /**
   * A bucket holds exactly the records whose timestamps truncate to its key,
   * as often as the frame holds them; it is empty exactly when no record maps to it.
   */
  lemma BucketContents(rs: seq<Record>, g: Granularity, k: DateTime)
    ensures forall r :: r in Bucket(rs, g, k) <==> r in rs && BucketOf(g, r) == k
    ensures Bucket(rs, g, k) != [] <==> k in Buckets(rs, g)
    ensures forall x :: multiset(Bucket(rs, g, k))[x] == if BucketOf(g, x) == k then multiset(rs)[x] else 0
    ensures (forall i :: 0 <= i < |rs| ==> BucketOf(g, rs[i]) == k) ==> Bucket(rs, g, k) == rs
  {
    BucketMembership(rs, g, k);
    BucketNonEmpty(rs, g, k);
    SelectMultiplicities(rs, BucketMask(g, k));
    if forall i :: 0 <= i < |rs| ==> BucketOf(g, rs[i]) == k {
      SelectKeepsAll(rs, BucketMask(g, k));
    }
  }

  lemma BucketMembership(rs: seq<Record>, g: Granularity, k: DateTime)
    ensures forall r :: r in Bucket(rs, g, k) <==> r in rs && BucketOf(g, r) == k
  {
    var b := Bucket(rs, g, k);
    forall r | r in rs && BucketOf(g, r) == k ensures r in b {
      var i :| 0 <= i < |rs| && rs[i] == r;
      assert BucketMask(g, k)(rs[i]);
    }
  }

  lemma BucketNonEmpty(rs: seq<Record>, g: Granularity, k: DateTime)
    ensures Bucket(rs, g, k) != [] <==> k in Buckets(rs, g)
  {
    var b := Bucket(rs, g, k);
    BucketMembership(rs, g, k);
    if k in Buckets(rs, g) {
      var r :| r in rs && BucketOf(g, r) == k;
      assert r in b;
    }
    if b != [] {
      assert b[0] in b;
    }
  }

  /** Every key drawn from the non-empty buckets has records. */
  lemma BucketsNonEmpty(rs: seq<Record>, g: Granularity, ks: seq<DateTime>)
    requires forall k :: k in ks ==> k in Buckets(rs, g)
    ensures forall k :: k in ks ==> Bucket(rs, g, k) != []
  {
    forall k | k in ks ensures Bucket(rs, g, k) != [] {
      BucketContents(rs, g, k);
    }
  }

  function Confidences(rs: seq<Record>): (cs: seq<real>)
    ensures |cs| == |rs|
  {
    seq(|rs|, i requires 0 <= i < |rs| => rs[i].confidence)
  }

  // ---------------------------------------------------------------------------
  // Arithmetic mean over the reals

  function Sum(xs: seq<real>): real {
    if xs == [] then 0.0 else xs[0] + Sum(xs[1..])
  }

  function Min(xs: seq<real>): (m: real)
    requires xs != []
    ensures m in xs && forall x :: x in xs ==> m <= x
  {
    if |xs| == 1 then xs[0]
    else
      var rest := Min(xs[1..]);
      assert xs == [xs[0]] + xs[1..];
      if xs[0] <= rest then xs[0] else rest
  }

  function Max(xs: seq<real>): (m: real)
    requires xs != []
    ensures m in xs && forall x :: x in xs ==> x <= m
  {
    if |xs| == 1 then xs[0]
    else
      var rest := Max(xs[1..]);
      assert xs == [xs[0]] + xs[1..];
      if xs[0] >= rest then xs[0] else rest
  }

  lemma {:induction false} SumBounds(xs: seq<real>, lo: real, hi: real)
    requires forall x :: x in xs ==> lo <= x <= hi
    ensures (|xs| as real) * lo <= Sum(xs) <= (|xs| as real) * hi
  {
    if xs != [] {
      assert forall x :: x in xs[1..] ==> x in xs;
      assert xs[0] in xs;
      SumBounds(xs[1..], lo, hi);
      var n := |xs[1..]| as real;
      assert (|xs| as real) * lo == n * lo + lo;
      assert (|xs| as real) * hi == n * hi + hi;
    }
  }

  /**
   * The arithmetic mean: the value that, counted once per element, gives the
   * sum; it lies between the smallest and the largest value averaged.
   */
  function Mean(xs: seq<real>): (m: real)
    requires xs != []
    ensures (|xs| as real) * m == Sum(xs)
    ensures Min(xs) <= m <= Max(xs)
  {
    var n, s := |xs| as real, Sum(xs);
    SumBounds(xs, Min(xs), Max(xs));
    QuotientBounds(s, n, Min(xs), Max(xs));
    s / n
  }

  lemma QuotientBounds(s: real, n: real, lo: real, hi: real)
    requires n > 0.0 && n * lo <= s <= n * hi
    ensures lo <= s / n <= hi
    ensures n * (s / n) == s
  {
  }

  // ---------------------------------------------------------------------------
  // Bucket keys in chronological order

  predicate StrictlyIncreasing(ks: seq<DateTime>) {
    forall i, j :: 0 <= i < j < |ks| ==> Before(ks[i], ks[j])
  }

  /** Adds `k` to a chronological list of distinct keys, keeping it so. */
  function InsertKey(ks: seq<DateTime>, k: DateTime): (out: seq<DateTime>)
    requires StrictlyIncreasing(ks)
    ensures StrictlyIncreasing(out)
    ensures forall x :: x in out <==> x in ks || x == k
  {
    if ks == [] then [k]
    else if k == ks[0] then ks
    else if Before(k, ks[0]) then [k] + ks
    else
      var rest := InsertKey(ks[1..], k);
      assert forall x :: x in rest ==> Before(ks[0], x);
      [ks[0]] + rest
  }

  /** The non-empty buckets, each once, earliest first. */
  function BucketKeys(rs: seq<Record>, g: Granularity): (ks: seq<DateTime>)
    ensures StrictlyIncreasing(ks)
    ensures forall k :: k in ks <==> k in Buckets(rs, g)
  {
    if rs == [] then []
    else
      var ks := InsertKey(BucketKeys(rs[1..], g), BucketOf(g, rs[0]));
      assert forall k :: k in Buckets(rs, g) <==> k == BucketOf(g, rs[0]) || k in Buckets(rs[1..], g) by {
        forall k ensures k in Buckets(rs, g) <==> k == BucketOf(g, rs[0]) || k in Buckets(rs[1..], g) {
          if k in Buckets(rs, g) && k != BucketOf(g, rs[0]) {
            var r :| r in rs && BucketOf(g, r) == k;
            assert r in rs[1..];
          }
          if k in Buckets(rs[1..], g) {
            var r :| r in rs[1..] && BucketOf(g, r) == k;
            assert r in rs;
          }
        }
      }
      ks
  }

  lemma {:induction false} DistinctCardinality(ks: seq<DateTime>)
    requires StrictlyIncreasing(ks)
    ensures |set k | k in ks| == |ks|
  {
    if ks != [] {
      DistinctCardinality(ks[1..]);
      assert (set k | k in ks) == {ks[0]} + (set k | k in ks[1..]);
      assert ks[0] !in ks[1..];
    }
  }

  /** The mean confidence of the records of a non-empty bucket. */
  function BucketMean(rs: seq<Record>, g: Granularity, k: DateTime): (m: real)
    requires Bucket(rs, g, k) != []
    ensures Min(Confidences(Bucket(rs, g, k))) <= m <= Max(Confidences(Bucket(rs, g, k)))
  {
    var b := Bucket(rs, g, k);
    var cs := Confidences(b);
    assert |cs| == |b|;
    Mean(cs)
  }

  /** A chronological list holding exactly the elements of `s` enumerates `s`, each once. */
  lemma KeysEnumerateBuckets(ks: seq<DateTime>, s: set<DateTime>)
    requires StrictlyIncreasing(ks)
    requires forall k :: k in ks <==> k in s
    ensures |s| == |ks|
    ensures forall k :: k in s ==> exists i :: 0 <= i < |ks| && ks[i] == k
  {
    DistinctCardinality(ks);
    assert (set k | k in ks) == s;
  }

  /** One point per listed bucket, in the order listed. */
  function PointsOf(rs: seq<Record>, g: Granularity, ks: seq<DateTime>): (ps: seq<Point>)
    requires forall k :: k in ks ==> Bucket(rs, g, k) != []
    ensures |ps| == |ks|
    ensures forall i :: 0 <= i < |ks| ==> ps[i].bucket == ks[i] && ps[i].mean == BucketMean(rs, g, ks[i])
  {
    if ks == [] then [] else [Point(ks[0], BucketMean(rs, g, ks[0]))] + PointsOf(rs, g, ks[1..])
  }

  /**
   * The resampled series: one point per non-empty bucket, in chronological
   * order, whose value is the mean confidence of that bucket's records.
   */
  function Resample(rs: seq<Record>, g: Granularity): (series: seq<Point>)
    ensures |series| == |Buckets(rs, g)|
    ensures forall i, j :: 0 <= i < j < |series| ==> Before(series[i].bucket, series[j].bucket)
    ensures forall i :: 0 <= i < |series| ==> series[i].bucket in Buckets(rs, g)
    ensures forall k :: k in Buckets(rs, g) ==> exists i :: 0 <= i < |series| && series[i].bucket == k
    ensures forall i :: 0 <= i < |series| ==> series[i].mean == BucketMean(rs, g, series[i].bucket)
  {
    var ks := BucketKeys(rs, g);
    KeysEnumerateBuckets(ks, Buckets(rs, g));
    BucketsNonEmpty(rs, g, ks);
    PointsOf(rs, g, ks)
  }

  lemma NoRepeatedKey(ks: seq<DateTime>, k: DateTime)
    requires StrictlyIncreasing(ks)
    requires forall k' :: k' in ks ==> k' == k
    ensures |ks| <= 1
  {
    assert |ks| >= 2 ==> ks[0] in ks && ks[1] in ks && Before(ks[0], ks[1]);
  }

  /** Records that all fall in one bucket give a single point: their overall mean. */
  lemma SingleBucket(rs: seq<Record>, g: Granularity, k: DateTime)
    requires rs != []
    requires forall i :: 0 <= i < |rs| ==> BucketOf(g, rs[i]) == k
    ensures Resample(rs, g) == [Point(k, Mean(Confidences(rs)))]
  {
    var ks := BucketKeys(rs, g);
    BucketsByIndex(rs, g, k);
    forall k' | k' in ks ensures k' == k {
      BucketsByIndex(rs, g, k');
    }
    NoRepeatedKey(ks, k);
    BucketContents(rs, g, k);
    assert ks == [k];
  }

  /**
   * plot_confidence up to the figure: "no data" for an empty frame (checked
   * first, so no time frame is ever looked at), an unusable time-frame name,
   * or the resampled series.
   */
  function PlotConfidence(rs: seq<Record>, timeFrame: string): (p: Plot)
    ensures p == NoDataToPlot <==> rs == []
    ensures rs != [] ==> (p.UnknownTimeFrame? <==> ParseTimeFrame(timeFrame) == None)
    ensures p.Chart? ==> p.series != [] && p.series == Resample(rs, ParseTimeFrame(timeFrame).value)
  {
    if rs == [] then NoDataToPlot
    else match ParseTimeFrame(timeFrame)
      case None => UnknownTimeFrame(timeFrame)
      case Some(g) =>
        assert BucketOf(g, rs[0]) in Buckets(rs, g);
        Chart(Resample(rs, g))
  }

  // ---------------------------------------------------------------------------
  // What the series says about the records

  /** All records of the buckets the points name, counted with multiplicity. */
  function Regrouped(rs: seq<Record>, g: Granularity, ps: seq<Point>): multiset<Record> {
    if ps == [] then multiset{} else multiset(Bucket(rs, g, ps[0].bucket)) + Regrouped(rs, g, ps[1..])
  }

  /** Some point of `ps` is keyed `k`. */
  predicate NamesBucket(ps: seq<Point>, k: DateTime) {
    exists i :: 0 <= i < |ps| && ps[i].bucket == k
  }

  lemma NamesBucketCons(ps: seq<Point>, k: DateTime)
    requires ps != []
    ensures NamesBucket(ps, k) <==> ps[0].bucket == k || NamesBucket(ps[1..], k)
  {
    if NamesBucket(ps, k) && ps[0].bucket != k {
      var i :| 0 <= i < |ps| && ps[i].bucket == k;
      assert ps[1..][i - 1] == ps[i];
    }
    if NamesBucket(ps[1..], k) {
      var i :| 0 <= i < |ps[1..]| && ps[1..][i].bucket == k;
      assert ps[i + 1] == ps[1..][i];
    }
  }

  lemma {:induction false} RegroupedMultiplicity(rs: seq<Record>, g: Granularity, ps: seq<Point>, x: Record)
    requires forall i, j :: 0 <= i < j < |ps| ==> ps[i].bucket != ps[j].bucket
    ensures Regrouped(rs, g, ps)[x] == if NamesBucket(ps, BucketOf(g, x)) then multiset(rs)[x] else 0
  {
    if ps != [] {
      var rest := ps[1..];
      assert forall i, j :: 0 <= i < j < |rest| ==> rest[i].bucket != rest[j].bucket by {
        forall i, j | 0 <= i < j < |rest| ensures rest[i].bucket != rest[j].bucket {
          assert rest[i] == ps[i + 1] && rest[j] == ps[j + 1];
        }
      }
      RegroupedMultiplicity(rs, g, rest, x);
      BucketContents(rs, g, ps[0].bucket);
      NamesBucketCons(ps, BucketOf(g, x));
      var here := multiset(Bucket(rs, g, ps[0].bucket))[x];
      assert here == if BucketOf(g, x) == ps[0].bucket then multiset(rs)[x] else 0;
      assert Regrouped(rs, g, ps)[x] == here + Regrouped(rs, g, rest)[x];
      if ps[0].bucket == BucketOf(g, x) {
        assert !NamesBucket(rest, BucketOf(g, x)) by {
          forall i | 0 <= i < |rest| ensures rest[i].bucket != BucketOf(g, x) {
            assert rest[i] == ps[i + 1];
          }
        }
      }
    }
  }

  /**
   * The buckets of the series partition the frame: together they hold every
   * record exactly as often as the frame does, and nothing else.
   */
  lemma ResamplePartitionsRecords(rs: seq<Record>, g: Granularity)
    ensures Regrouped(rs, g, Resample(rs, g)) == multiset(rs)
  {
    var series := Resample(rs, g);
    forall x ensures Regrouped(rs, g, series)[x] == multiset(rs)[x] {
      RegroupedMultiplicity(rs, g, series, x);
      if x in rs {
        assert BucketOf(g, x) in Buckets(rs, g);
        var i :| 0 <= i < |series| && series[i].bucket == BucketOf(g, x);
      }
    }
  }

  /**
   * Every record lies in exactly one point's bucket: the one that starts at
   * its truncated timestamp, whose calendar interval contains the record.
   */
  lemma RecordInExactlyOnePoint(rs: seq<Record>, g: Granularity, r: Record)
    requires r in rs
    ensures exists i :: 0 <= i < |Resample(rs, g)| && Resample(rs, g)[i].bucket == BucketOf(g, r)
    ensures forall i :: 0 <= i < |Resample(rs, g)| ==>
              (r in Bucket(rs, g, Resample(rs, g)[i].bucket) <==> Resample(rs, g)[i].bucket == BucketOf(g, r))
    ensures InBucket(g, BucketOf(g, r), r.timestamp)
    ensures forall k :: Aligned(g, k) && InBucket(g, k, r.timestamp) ==> k == BucketOf(g, r)
  {
    var series := Resample(rs, g);
    assert BucketOf(g, r) in Buckets(rs, g);
    var i :| 0 <= i < |series| && series[i].bucket == BucketOf(g, r);
    forall k | Aligned(g, k) && InBucket(g, k, r.timestamp) ensures k == BucketOf(g, r) {
      TruncateIsTheBucket(g, r.timestamp, k);
    }
    TruncateIsTheBucket(g, r.timestamp, BucketOf(g, r));
  }

  /** Each point's mean lies between the least and the greatest confidence in its bucket. */
  lemma ResampleMeanBounds(rs: seq<Record>, g: Granularity, p: Point)
    requires p in Resample(rs, g)
    ensures p.bucket in Buckets(rs, g)
    ensures Min(Confidences(Bucket(rs, g, p.bucket))) <= p.mean <= Max(Confidences(Bucket(rs, g, p.bucket)))
  {
    var series := Resample(rs, g);
    var i :| 0 <= i < |series| && series[i] == p;
  }

  /** Confidences confined to [lo, hi] (for instance probabilities) give means in [lo, hi]. */
  lemma ResampleWithinBounds(rs: seq<Record>, g: Granularity, lo: real, hi: real)
    requires forall r :: r in rs ==> lo <= r.confidence <= hi
    ensures forall p :: p in Resample(rs, g) ==> lo <= p.mean <= hi
  {
    forall p | p in Resample(rs, g) ensures lo <= p.mean <= hi {
      ResampleMeanBounds(rs, g, p);
      var b := Bucket(rs, g, p.bucket);
      var cs := Confidences(b);
      var lowest :| 0 <= lowest < |cs| && cs[lowest] == Min(cs);
      var highest :| 0 <= highest < |cs| && cs[highest] == Max(cs);
      assert b[lowest] in b && b[highest] in b;
    }
  }
}
