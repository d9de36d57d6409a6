/**
 * Resampling an irregular series into even buckets, and holding values over gaps,
 * `crates/libsubby/src/history.rs:44-118`.
 */
module History {
  import opened Prelude
  import opened Balance

  datatype Point = Point(at: Timestamp, value: real)

  /** Division the way machine integers do it, towards zero. */
  function Quotient(a: int, b: nat): int
    requires b > 0
  {
    if a >= 0 then a / b else -((-a) / b)
  }

  function Millis(at: Timestamp): int { Quotient(at, 1_000_000) }

  /** The range and how it is cut. */
  datatype Grid = Grid(since: Timestamp, until: Timestamp, buckets: nat) {
    function Span(): (r: int)
      ensures r >= 1
    {
      if Millis(until) - Millis(since) < 1 then 1 else Millis(until) - Millis(since)
    }

    function Offset(p: Point): int { Millis(p.at) - Millis(since) }

    predicate Covers(p: Point) { Offset(p) >= 0 && p.at <= until }

    /** The bucket of a point in the range. */
    function Index(p: Point): (k: nat)
      requires buckets > 0 && Covers(p)
      ensures k < buckets
    {
      var index := Scaled(Offset(p), buckets, Span());
      if index < buckets then index else buckets - 1
    }
  }

  function Scaled(offset: nat, buckets: nat, span: int): (r: nat)
    requires span >= 1
  {
    DivNonNegative(offset * buckets, span);
    offset * buckets / span
  }

  lemma DivNonNegative(a: nat, b: int)
    requires b >= 1
    ensures a / b >= 0
  {
  }

  predicate Falls(grid: Grid, p: Point, k: nat) { grid.buckets > 0 && grid.Covers(p) && grid.Index(p) == k }

  function CountIn(points: seq<Point>, grid: Grid, k: nat): nat {
    if points == [] then 0
    else CountIn(points[..|points| - 1], grid, k) + if Falls(grid, points[|points| - 1], k) then 1 else 0
  }

  function SumIn(points: seq<Point>, grid: Grid, k: nat): real {
    if points == [] then 0.0
    else
      SumIn(points[..|points| - 1], grid, k)
      + if Falls(grid, points[|points| - 1], k) then points[|points| - 1].value else 0.0
  }

  function MeanIn(points: seq<Point>, grid: Grid, k: nat): Option<real> {
    if CountIn(points, grid, k) > 0 then Some(SumIn(points, grid, k) / CountIn(points, grid, k) as real) else None
  }

  /** One slot for each bucket: the average of its points, if there are any. */
  method Resample(points: seq<Point>, grid: Grid) returns (out: seq<Option<real>>)
    ensures |out| == grid.buckets
    ensures forall k :: 0 <= k < grid.buckets ==> out[k] == MeanIn(points, grid, k)
  {
    var buckets := grid.buckets;
    var sums := new real[buckets](_ => 0.0);
    var counts := new nat[buckets](_ => 0);
    if buckets == 0 {
      return [];
    }
    var i := 0;
    while i < |points|
      invariant 0 <= i <= |points|
      invariant forall k :: 0 <= k < buckets ==>
                  sums[k] == SumIn(points[..i], grid, k) && counts[k] == CountIn(points[..i], grid, k)
    {
      var p := points[i];
      assert points[..i + 1][..i] == points[..i];
      if grid.Covers(p) {
        var index := grid.Index(p);
        sums[index] := sums[index] + p.value;
        counts[index] := counts[index] + 1;
      }
      i := i + 1;
    }
    assert points[..i] == points;
    out := [];
    var k := 0;
    while k < buckets
      invariant 0 <= k <= buckets && |out| == k
      invariant forall j :: 0 <= j < buckets ==>
                  sums[j] == SumIn(points, grid, j) && counts[j] == CountIn(points, grid, j)
      invariant forall j :: 0 <= j < k ==> out[j] == MeanIn(points, grid, j)
    {
      out := out + [if counts[k] > 0 then Some(sums[k] / counts[k] as real) else None];
      k := k + 1;
    }
  }

  // ---- Where a point falls ----

  lemma QuotientMonotone(a: int, b: int, d: nat)
    requires d > 0 && a <= b
    ensures Quotient(a, d) <= Quotient(b, d)
  {
    if a >= 0 {
      DivMonotone(a, b, d);
    } else if b < 0 {
      DivMonotone(-b, -a, d);
    } else {
      DivNonNegative(-a, d);
      DivNonNegative(b, d);
    }
  }

  lemma Times(a: int, b: int, d: int)
    requires a <= b && d >= 0
    ensures d * a <= d * b
  {
  }

  lemma DivFacts(a: int, d: int)
    requires d > 0
    ensures d * (a / d) <= a < d * (a / d + 1)
  {
  }

  lemma DivMonotone(a: int, b: int, d: int)
    requires 0 <= a <= b && d > 0
    ensures a / d <= b / d
  {
    DivFacts(a, d);
    DivFacts(b, d);
    if b / d < a / d {
      Times(b / d + 1, a / d, d);
    }
  }

  /** The first instant that counts as no earlier than `since`: whole milliseconds are counted towards the epoch. */
  function RangeStart(since: Timestamp): Timestamp {
    if since >= 1_000_000 then since - since % 1_000_000
    else if since >= 0 then -999_999
    else since + (-since) % 1_000_000 - 999_999
  }

  /** The range holds the points from its first millisecond on, up to its very end and no further. */
  lemma RangeHolds(grid: Grid, p: Point)
    ensures grid.Covers(p) <==> RangeStart(grid.since) <= p.at <= grid.until
    ensures grid.since <= p.at <= grid.until ==> grid.Covers(p)
    ensures grid.Covers(p) ==> p.at > grid.since - 2_000_000
  {
    MilliReached(p.at, grid.since);
  }

  lemma MilliReached(at: Timestamp, since: Timestamp)
    ensures Millis(at) >= Millis(since) <==> RangeStart(since) <= at
    ensures since - 2_000_000 < RangeStart(since) <= since
  {
    var d := 1_000_000;
    if since >= d {
      assert since % d == since - d * (since / d);
      if at >= 0 {
        DivBounds(at, d, since / d);
      } else {
        DivNonNegative(-at, d);
        DivBounds(since, d, 1);
      }
    } else if since >= 0 {
      DivBounds(since, d, 1);
      DivNonNegative(since, d);
      if at >= 0 {
        DivNonNegative(at, d);
      } else {
        DivBounds(-at, d, 1);
        DivNonNegative(-at, d);
      }
    } else {
      var q := (-since) / d;
      assert (-since) % d == -since - d * q;
      DivNonNegative(-since, d);
      if at >= 0 {
        DivNonNegative(at, d);
      } else {
        DivBounds(-at, d, q + 1);
      }
    }
  }

  lemma OffsetFits(grid: Grid, p: Point)
    requires grid.Covers(p)
    ensures 0 <= grid.Offset(p) <= grid.Span()
  {
    QuotientMonotone(p.at, grid.until, 1_000_000);
  }

  /** The buckets cut the range evenly: bucket `k` begins at `k / buckets` of it, and the last holds its very end. */
  lemma BucketBounds(grid: Grid, p: Point, k: nat)
    requires grid.buckets > 0 && RangeStart(grid.since) <= p.at <= grid.until && k < grid.buckets
    ensures var offset := Millis(p.at) - Millis(grid.since);
            var span := if Millis(grid.until) - Millis(grid.since) < 1 then 1
                        else Millis(grid.until) - Millis(grid.since);
            && grid.Covers(p)
            && (grid.Index(p) == k <==>
                  && k * span <= offset * grid.buckets
                  && (offset * grid.buckets < (k + 1) * span || k == grid.buckets - 1))
  {
    hide RangeStart, Millis, Scaled;
    RangeHolds(grid, p);
    IndexBounds(grid, p, k);
  }

  lemma IndexBounds(grid: Grid, p: Point, k: nat)
    requires grid.buckets > 0 && grid.Covers(p) && k < grid.buckets
    ensures grid.Index(p) == k <==>
              && k * grid.Span() <= grid.Offset(p) * grid.buckets
              && (grid.Offset(p) * grid.buckets < (k + 1) * grid.Span() || k == grid.buckets - 1)
  {
    OffsetFits(grid, p);
    DivBounds(grid.Offset(p) * grid.buckets, grid.Span(), k);
    DivBounds(grid.Offset(p) * grid.buckets, grid.Span(), k + 1);
  }

  lemma DivBounds(a: nat, b: int, k: nat)
    requires b >= 1
    ensures a / b >= k <==> k * b <= a
  {
    var q := a / b;
    DivFacts(a, b);
    if q >= k {
      Times(k, q, b);
    } else {
      Times(q + 1, k, b);
    }
  }

  /** A later point never falls in an earlier bucket. */
  lemma BucketsInOrder(grid: Grid, p: Point, q: Point)
    requires grid.buckets > 0 && RangeStart(grid.since) <= p.at <= q.at <= grid.until
    ensures grid.Covers(p) && grid.Covers(q)
    ensures grid.Index(p) <= grid.Index(q)
  {
    hide RangeStart;
    RangeHolds(grid, p);
    QuotientMonotone(p.at, q.at, 1_000_000);
    var a, b := grid.Offset(p), grid.Offset(q);
    Times(a, b, grid.buckets);
    DivMonotone(a * grid.buckets, b * grid.buckets, grid.Span());
  }

  // ---- Nothing is lost or counted twice ----

  function Covered(points: seq<Point>, grid: Grid): nat {
    if points == [] then 0
    else
      Covered(points[..|points| - 1], grid)
      + if RangeStart(grid.since) <= points[|points| - 1].at <= grid.until then 1 else 0
  }

  function CoveredSum(points: seq<Point>, grid: Grid): real {
    if points == [] then 0.0
    else
      CoveredSum(points[..|points| - 1], grid)
      + if RangeStart(grid.since) <= points[|points| - 1].at <= grid.until then points[|points| - 1].value else 0.0
  }

  /** The counts, and the sums, of the first `n` buckets together. */
  function Counts(points: seq<Point>, grid: Grid, n: nat): nat {
    if n == 0 then 0 else Counts(points, grid, n - 1) + CountIn(points, grid, n - 1)
  }

  function Sums(points: seq<Point>, grid: Grid, n: nat): real {
    if n == 0 then 0.0 else Sums(points, grid, n - 1) + SumIn(points, grid, n - 1)
  }

  lemma {:induction false} OneMorePoint(points: seq<Point>, grid: Grid, p: Point, n: nat)
    requires grid.buckets > 0
    ensures var falls := grid.Covers(p) && grid.Index(p) < n;
            && Counts(points + [p], grid, n) == Counts(points, grid, n) + (if falls then 1 else 0)
            && Sums(points + [p], grid, n) == Sums(points, grid, n) + (if falls then p.value else 0.0)
  {
    if n > 0 {
      OneMorePoint(points, grid, p, n - 1);
      assert (points + [p])[..|points|] == points;
    }
  }

  /** The buckets together hold every point of the range once: their counts and sums add up to the range's. */
  lemma {:induction false} ResampleConserves(points: seq<Point>, grid: Grid)
    requires grid.buckets > 0
    ensures Counts(points, grid, grid.buckets) == Covered(points, grid)
    ensures Sums(points, grid, grid.buckets) == CoveredSum(points, grid)
  {
    if points == [] {
      NoPoints(grid, grid.buckets);
    } else {
      var init, p := points[..|points| - 1], points[|points| - 1];
      assert init + [p] == points;
      ResampleConserves(init, grid);
      RangeHolds(grid, p);
      OneMorePoint(init, grid, p, grid.buckets);
    }
  }

  lemma {:induction false} NoPoints(grid: Grid, n: nat)
    ensures Counts([], grid, n) == 0 && Sums([], grid, n) == 0.0
  {
    if n > 0 {
      NoPoints(grid, n - 1);
    }
  }

  /** A mean stays within the bounds of the values. */
  lemma MeansStayWithin(points: seq<Point>, grid: Grid, k: nat, low: real, high: real)
    requires forall i :: 0 <= i < |points| && Falls(grid, points[i], k) ==> low <= points[i].value <= high
    ensures MeanIn(points, grid, k).Some? ==> low <= MeanIn(points, grid, k).value <= high
  {
    hide SumIn, CountIn, Falls;
    SumsStayWithin(points, grid, k, low, high);
    if CountIn(points, grid, k) > 0 {
      Between(SumIn(points, grid, k), CountIn(points, grid, k) as real, low, high);
    }
  }

  lemma Between(sum: real, n: real, low: real, high: real)
    requires n > 0.0 && low * n <= sum <= high * n
    ensures low <= sum / n <= high
  {
    assert (sum / n) * n == sum;
    Cancels(low, sum / n, n);
    Cancels(sum / n, high, n);
  }

  lemma Cancels(a: real, b: real, n: real)
    requires n > 0.0 && a * n <= b * n
    ensures a <= b
  {
    assert (b - a) * n == b * n - a * n;
  }

  lemma {:induction false} SumsStayWithin(points: seq<Point>, grid: Grid, k: nat, low: real, high: real)
    requires forall i :: 0 <= i < |points| && Falls(grid, points[i], k) ==> low <= points[i].value <= high
    ensures low * CountIn(points, grid, k) as real <= SumIn(points, grid, k) <= high * CountIn(points, grid, k) as real
  {
    hide Falls;
    if points != [] {
      var init := points[..|points| - 1];
      SumsStayWithin(init, grid, k, low, high);
      var n := CountIn(init, grid, k) as real;
      assert low * (n + 1.0) == low * n + low && high * (n + 1.0) == high * n + high;
    }
  }

  // ---- Holding over gaps ----

  /**
   * How many empty buckets a value is held over. There is no limit when a bucket is shorter than a millisecond,
   * or when the hold is negative by a bucket or more.
   */
  function MaxRun(grid: Grid, holdMillis: int): (r: nat)
    requires grid.buckets > 0
  {
    var bucketMillis := Quotient(grid.Span(), grid.buckets);
    if bucketMillis > 0 then
      var run := Quotient(holdMillis, bucketMillis);
      if 0 <= run <= USIZE_MAX then run else USIZE_MAX
    else USIZE_MAX
  }

  /** The last bucket up to `k` that has a sample, or -1. */
  function LastSample(samples: seq<Option<real>>, k: int): (j: int)
    requires -1 <= k < |samples|
    ensures -1 <= j <= k
    ensures j >= 0 ==> samples[j].Some?
    ensures forall i :: j < i <= k ==> samples[i].None?
    decreases k + 1
  {
    if k == -1 || samples[k].Some? then k else LastSample(samples, k - 1)
  }

  /** The nearest sample at most `maxRun` buckets back. */
  function HeldAt(samples: seq<Option<real>>, maxRun: nat, k: nat): Option<real>
    requires k < |samples|
  {
    var j := LastSample(samples, k);
    if j >= 0 && k - j <= maxRun then samples[j] else None
  }

  /** Each empty slot takes the value before it, as far as a value reaches. */
  method Hold(slots: array<Option<real>>, maxRun: nat)
    modifies slots
    ensures forall k :: 0 <= k < slots.Length ==> slots[k] == HeldAt(old(slots[..]), maxRun, k)
  {
    ghost var samples := slots[..];
    var last: Option<real> := None;
    var run := 0;
    var i := 0;
    while i < slots.Length
      invariant 0 <= i <= slots.Length
      invariant forall k :: 0 <= k < i ==> slots[k] == HeldAt(samples, maxRun, k)
      invariant forall k :: i <= k < slots.Length ==> slots[k] == samples[k]
      invariant run == i - 1 - LastSample(samples, i - 1) || (LastSample(samples, i - 1) == -1 && run == i)
      invariant last == if i == 0 then None else HeldAt(samples, maxRun, i - 1)
    {
      if slots[i].Some? {
        last := slots[i];
        run := 0;
      } else {
        run := run + 1;
        if run <= maxRun {
          slots[i] := last;
        } else {
          last := None;
        }
      }
      i := i + 1;
    }
  }

  method ResampleHeld(points: seq<Point>, grid: Grid, holdMillis: int) returns (out: array<Option<real>>)
    ensures fresh(out) && out.Length == grid.buckets
    ensures grid.buckets > 0 ==>
              var means := seq(grid.buckets, k requires 0 <= k < grid.buckets => MeanIn(points, grid, k));
              forall k :: 0 <= k < grid.buckets ==> out[k] == HeldAt(means, MaxRun(grid, holdMillis), k)
  {
    var means := Resample(points, grid);
    out := new Option<real>[|means|](i requires 0 <= i < |means| => means[i]);
    if grid.buckets > 0 {
      assert out[..] == means;
      Hold(out, MaxRun(grid, holdMillis));
      assert means == seq(grid.buckets, k requires 0 <= k < grid.buckets => MeanIn(points, grid, k));
    }
  }

  /** How far back a value may come from: at most the hold, unless there is no limit. */
  predicate Reaches(grid: Grid, holdMillis: int, run: nat)
    requires grid.buckets > 0
  {
    var width := Quotient(grid.Span(), grid.buckets);
    width == 0 || holdMillis <= -width || run * width <= holdMillis || run == 0
  }

  lemma RunBound(grid: Grid, holdMillis: int, run: nat)
    requires grid.buckets > 0 && run <= USIZE_MAX
    ensures run <= MaxRun(grid, holdMillis) <==> Reaches(grid, holdMillis, run)
  {
    var width := Quotient(grid.Span(), grid.buckets);
    DivNonNegative(grid.Span(), grid.buckets);
    if width > 0 && holdMillis >= 0 {
      DivBounds(holdMillis, width, run);
      DivNonNegative(holdMillis, width);
    } else if width > 0 {
      DivBounds(-holdMillis, width, 1);
      DivNonNegative(-holdMillis, width);
      assert run * width >= 0;
    }
  }

  /** A slot holds a value exactly when some sample is within reach of it, and then it is the nearest one's. */
  lemma HeldWithinReach(grid: Grid, holdMillis: int, samples: seq<Option<real>>, k: nat)
    requires 0 < grid.buckets <= USIZE_MAX && |samples| == grid.buckets && k < |samples|
    ensures HeldAt(samples, MaxRun(grid, holdMillis), k).Some? <==>
              exists j :: 0 <= j <= k && samples[j].Some? && Reaches(grid, holdMillis, k - j)
    ensures forall j :: 0 <= j <= k && samples[j].Some? && (forall i :: j < i <= k ==> samples[i].None?) ==>
              Reaches(grid, holdMillis, k - j) ==>
                HeldAt(samples, MaxRun(grid, holdMillis), k) == samples[j]
  {
    hide Reaches, MaxRun;
    var last := LastSample(samples, k);
    if last >= 0 {
      RunBound(grid, holdMillis, k - last);
    }
    forall j | 0 <= j <= k && samples[j].Some? && Reaches(grid, holdMillis, k - j)
      ensures j <= last && k - j <= MaxRun(grid, holdMillis)
    {
      RunBound(grid, holdMillis, k - j);
    }
  }
}
