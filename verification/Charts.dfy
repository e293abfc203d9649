/** Dashboard charts: traffic rows of a period are gathered into equal time buckets. */
module Charts {
  import opened GoArithmetic
  import opened Options
  import opened TrafficTotals

  const PERIOD_1H := "1h"
  const PERIOD_7D := "7d"
  const PERIOD_30D := "30d"

  /** Period.Duration in seconds; an unknown period lasts a day. */
  function Duration(period: string): (seconds: int)
    ensures seconds >= 3600
  {
    if period == PERIOD_1H then 3600
    else if period == PERIOD_7D then 7 * 24 * 3600
    else if period == PERIOD_30D then 30 * 24 * 3600
    else 24 * 3600
  }

  datatype TrafficRow = TrafficRow(ts: int, totals: Totals)

  datatype TrafficBucket = TrafficBucket(ts: int, totals: Totals)

  function Step(duration: int, buckets: int): (step: int)
    requires buckets > 0 && duration > 0
    ensures step >= 1
  {
    if duration / buckets < 1 then 1 else duration / buckets
  }

  /** What the rows with lo <= ts < hi add up to. */
  function Within(rows: seq<TrafficRow>, lo: int, hi: int): Totals {
    if rows == [] then NOTHING
    else
      var r := rows[|rows| - 1];
      var before := Within(rows[..|rows| - 1], lo, hi);
      if lo <= r.ts < hi then Plus(before, r.totals) else before
  }

  /** Where the i-th bucket of a window begins. */
  function At(start: int, step: int, i: int): int {
    start + i * step
  }

  /** The i-th bucket of a window: its rows are those of its own span that lie inside
      the window. */
  function Bucket(rows: seq<TrafficRow>, start: int, end: int, step: int, i: nat): TrafficBucket {
    TrafficBucket(At(start, step, i), Within(rows, At(start, step, i), Min(end, At(start, step, i + 1))))
  }

  /** The bucket index of an offset is the one whose span contains it. */
  lemma DivisionFindsSpan(x: int, step: int, i: int)
    requires x >= 0 && step > 0
    ensures x / step == i <==> i * step <= x < (i + 1) * step
  {
    var q := x / step;
    QuotientSpan(x, step, q);
    if i < q { ProductGrows(i + 1, q, step); }
    if i > q { ProductGrows(q + 1, i, step); }
  }

  lemma QuotientSpan(x: int, step: int, q: int)
    requires x >= 0 && step > 0 && q == x / step
    ensures q * step <= x < (q + 1) * step
  {
    assert x == q * step + x % step;
    assert (q + 1) * step == q * step + step;
  }

  lemma ProductGrows(a: int, b: int, step: int)
    requires a <= b && step > 0
    ensures a * step <= b * step
  {
    assert (b - a) * step >= 0;
  }

  lemma BucketOf(ts: int, start: int, step: int, i: nat)
    requires step > 0
    ensures At(start, step, i) <= ts < At(start, step, i + 1) <==> ts >= start && (ts - start) / step == i
  {
    if start <= ts {
      DivisionFindsSpan(ts - start, step, i);
    } else {
      ProductGrows(0, i, step);
    }
  }

  lemma RowLandsInOneBucket(r: TrafficRow, rows: seq<TrafficRow>, start: int, end: int, step: int, i: nat)
    requires step > 0
    ensures var lo, hi := At(start, step, i), Min(end, At(start, step, i + 1));
            Within(rows + [r], lo, hi)
            == if start <= r.ts < end && (r.ts - start) / step == i
               then Plus(Within(rows, lo, hi), r.totals) else Within(rows, lo, hi)
  {
    assert (rows + [r])[..|rows|] == rows;
    BucketOf(r.ts, start, step, i);
    hide At;
  }

  /** QueryTrafficSeries over the rows its query returns: exactly `buckets` points,
      each holding exactly the rows of its span. */
  method QueryTrafficSeries(rows: seq<TrafficRow>, period: string, buckets: int, now: int)
      returns (series: Option<seq<TrafficBucket>>)
    ensures series.None? <==> buckets <= 0
    ensures series.Some? ==>
              var start := now - Duration(period);
              var step := Step(Duration(period), buckets);
              && |series.value| == buckets
              && forall i :: 0 <= i < buckets ==> series.value[i] == Bucket(rows, start, now, step, i)
    ensures series.Some? ==>
              now - series.value[0].ts == if period == "1h" then 3600 else if period == "7d" then 604800
                                          else if period == "30d" then 2592000 else 86400
  {
    if buckets <= 0 {
      return None;
    }
    var duration := Duration(period);
    var step := duration / buckets;
    if step < 1 {
      step := 1;
    }
    var end := now;
    var start := end - duration;
    var points := seq(buckets, i requires 0 <= i < buckets => TrafficBucket(At(start, step, i), NOTHING));
    var n := 0;
    while n < |rows|
      invariant 0 <= n <= |rows|
      invariant |points| == buckets
      invariant forall i :: 0 <= i < buckets ==> points[i] == Bucket(rows[..n], start, end, step, i)
    {
      var row := rows[n];
      ghost var was := points;
      assert rows[..n + 1] == rows[..n] + [row];
      if row.ts >= start && row.ts < end {
        var idx := (row.ts - start) / step;
        if 0 <= idx < |points| {
          points := points[idx := points[idx].(totals := Plus(points[idx].totals, row.totals))];
        }
      }
      forall i | 0 <= i < buckets
        ensures points[i] == Bucket(rows[..n + 1], start, end, step, i)
      {
        RowLandsInOneBucket(row, rows[..n], start, end, step, i);
        assert was[i] == Bucket(rows[..n], start, end, step, i);
      }
      n := n + 1;
    }
    assert rows[..|rows|] == rows;
    return Some(points);
  }

  // ---- totals over the chart ----

  /** The sum of the first n buckets. */
  function ChartTotal(rows: seq<TrafficRow>, start: int, end: int, step: int, n: nat): Totals {
    if n == 0 then NOTHING
    else Plus(ChartTotal(rows, start, end, step, n - 1), Bucket(rows, start, end, step, n - 1).totals)
  }

  lemma {:induction false} WithinSplits(rows: seq<TrafficRow>, lo: int, mid: int, hi: int)
    requires lo <= mid <= hi
    ensures Within(rows, lo, hi) == Plus(Within(rows, lo, mid), Within(rows, mid, hi))
    decreases |rows|
  {
    hide Plus;
    if rows == [] {
      PlusNothing(NOTHING);
    } else {
      var before := rows[..|rows| - 1];
      WithinSplits(before, lo, mid, hi);
      PlusShuffle(Within(before, lo, mid), Within(before, mid, hi), rows[|rows| - 1].totals);
    }
  }

  lemma {:induction false} WithinEmptySpan(rows: seq<TrafficRow>, lo: int, hi: int)
    requires hi <= lo
    ensures Within(rows, lo, hi) == NOTHING
    decreases |rows|
  {
    if rows != [] {
      WithinEmptySpan(rows[..|rows| - 1], lo, hi);
    }
  }

  lemma SpanGrows(start: int, step: int, n: nat)
    requires step > 0
    ensures start == At(start, step, 0) <= At(start, step, n) <= At(start, step, n + 1)
  {
    ProductGrows(0, n, step);
    ProductGrows(n, n + 1, step);
  }

  /** Summed over its buckets a chart counts each row of the covered span once. */
  lemma {:induction false} ChartCountsOnce(rows: seq<TrafficRow>, start: int, end: int, step: int, n: nat)
    requires step > 0 && start <= end
    ensures ChartTotal(rows, start, end, step, n) == Within(rows, start, Min(end, At(start, step, n)))
    decreases n
  {
    hide Within, Plus, At;
    SpanGrows(start, step, n);
    if n == 0 {
      WithinEmptySpan(rows, start, start);
    } else {
      ChartCountsOnce(rows, start, end, step, n - 1);
      SpanGrows(start, step, n - 1);
      var lo, hi := At(start, step, n - 1), Min(end, At(start, step, n));
      assert Bucket(rows, start, end, step, n - 1).totals == Within(rows, lo, hi);
      if lo <= end {
        WithinSplits(rows, start, lo, hi);
      } else {
        WithinEmptySpan(rows, lo, hi);
        WithinConnections(rows, start, end);
        PlusNothing(Within(rows, start, end));
      }
    }
  }

  lemma {:induction false} WithinConnections(rows: seq<TrafficRow>, lo: int, hi: int)
    ensures Within(rows, lo, hi).connections >= 0
    decreases |rows|
  {
    if rows != [] {
      WithinConnections(rows[..|rows| - 1], lo, hi);
    }
  }

  predicate DividesOrExceeds(buckets: int, duration: int)
    requires buckets > 0
  {
    duration % buckets == 0 || buckets >= duration
  }

  lemma BucketsCoverIff(duration: int, buckets: int, now: int)
    requires duration > 0 && buckets > 0
    ensures now <= At(now - duration, Step(duration, buckets), buckets)
            <==> DividesOrExceeds(buckets, duration)
  {
    var q := duration / buckets;
    assert duration == buckets * q + duration % buckets;
    if q < 1 {
      assert buckets * q <= 0;
    } else if buckets >= duration {
      assert buckets * q >= buckets;
    }
  }

  ghost predicate ChartConserves(rows: seq<TrafficRow>, duration: int, buckets: int, now: int)
    requires duration > 0 && buckets > 0
  {
    ChartTotal(rows, now - duration, now, Step(duration, buckets), buckets)
    == Within(rows, now - duration, now)
  }

  /** A chart conserves the totals of its window, whatever the rows, if and only if the
      bucket count divides the window or is at least its length; otherwise the end of
      the window falls outside the last bucket. */
  lemma ChartConservesIff(duration: int, buckets: int, now: int)
    requires duration > 0 && buckets > 0
    ensures DividesOrExceeds(buckets, duration)
            <==> forall rows: seq<TrafficRow> :: ChartConserves(rows, duration, buckets, now)
  {
    hide *;
    BucketsCoverIff(duration, buckets, now);
    if DividesOrExceeds(buckets, duration) {
      forall rows: seq<TrafficRow>
        ensures ChartConserves(rows, duration, buckets, now)
      {
        ConservesWhen(rows, duration, buckets, now);
      }
    } else {
      var r := TrafficRow(now - 1, Totals(1, 0, 0));
      LastRowIsLost(r, duration, buckets, now);
    }
  }

  lemma ConservesWhen(rows: seq<TrafficRow>, duration: int, buckets: int, now: int)
    requires duration > 0 && buckets > 0
    ensures var covered := At(now - duration, Step(duration, buckets), buckets);
            && (ChartConserves(rows, duration, buckets, now)
                <==> Within(rows, now - duration, Min(now, covered)) == Within(rows, now - duration, now))
            && (now <= covered ==> ChartConserves(rows, duration, buckets, now))
  {
    hide At, Within, ChartTotal;
    ChartCountsOnce(rows, now - duration, now, Step(duration, buckets), buckets);
  }

  lemma LastRowIsLost(r: TrafficRow, duration: int, buckets: int, now: int)
    requires duration > 0 && buckets > 0 && r == TrafficRow(now - 1, Totals(1, 0, 0))
    requires At(now - duration, Step(duration, buckets), buckets) < now
    ensures !ChartConserves([r], duration, buckets, now)
  {
    hide At, Within, Min;
    ConservesWhen([r], duration, buckets, now);
    RowAtTheEnd(r, now - duration, At(now - duration, Step(duration, buckets), buckets), now);
  }

  lemma RowAtTheEnd(r: TrafficRow, start: int, early: int, end: int)
    requires r == TrafficRow(end - 1, Totals(1, 0, 0)) && start < end && early < end
    ensures Within([r], start, end) != Within([r], start, Min(end, early))
  {
  }
}
