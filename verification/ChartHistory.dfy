/** What the dashboard's charts show of a history of scrapes and retention cycles. */
module ChartHistory {
  import opened Charts
  import opened GoArithmetic
  import opened Options
  import opened Retention
  import opened Traffic
  import TrafficHistory
  import opened TrafficTotals

  // ---- the query ----

  datatype HourlyRow = HourlyRow(key: HourKey, totals: Totals)

  /** The rows list the table, each key once. */
  ghost predicate ListsTable(listed: seq<HourlyRow>, table: map<HourKey, Totals>) {
    && (forall i, j :: 0 <= i < j < |listed| ==> listed[i].key != listed[j].key)
    && (forall i :: 0 <= i < |listed| ==> listed[i].key in table && listed[i].totals == table[listed[i].key])
    && (forall k :: k in table ==> exists i :: 0 <= i < |listed| && listed[i].key == k)
  }

  function OfSamples(samples: seq<SampleRow>, cutoff: int): seq<TrafficRow> {
    if samples == [] then []
    else
      var r := samples[|samples| - 1];
      OfSamples(samples[..|samples| - 1], cutoff)
      + if r.ts >= cutoff then [TrafficRow(r.ts, RowTotals(r))] else []
  }

  function OfHours(listed: seq<HourlyRow>, cutoff: int): seq<TrafficRow> {
    if listed == [] then []
    else
      var r := listed[|listed| - 1];
      OfHours(listed[..|listed| - 1], cutoff)
      + if r.key.hourTs >= cutoff then [TrafficRow(r.key.hourTs, r.totals)] else []
  }

  /** queryTrafficRows before its GROUP BY: samples, and for 30 days hourly rows as well. */
  function Selected(period: string, samples: seq<SampleRow>, listed: seq<HourlyRow>, cutoff: int): seq<TrafficRow> {
    OfSamples(samples, cutoff) + if period == PERIOD_30D then OfHours(listed, cutoff) else []
  }

  /** GROUP BY ts keeps what the rows of each instant add up to. */
  ghost predicate SameByInstant(a: seq<TrafficRow>, b: seq<TrafficRow>) {
    forall ts :: AtInstant(a, ts) == AtInstant(b, ts)
  }

  function AtInstant(rows: seq<TrafficRow>, ts: int): Totals {
    Within(rows, ts, ts + 1)
  }

  lemma {:induction false} GroupingKeepsSpans(a: seq<TrafficRow>, b: seq<TrafficRow>, lo: int, hi: int)
    requires SameByInstant(a, b)
    ensures Within(a, lo, hi) == Within(b, lo, hi)
    decreases hi - lo
  {
    hide Within;
    if hi <= lo {
      WithinEmptySpan(a, lo, hi);
      WithinEmptySpan(b, lo, hi);
    } else {
      GroupingKeepsSpans(a, b, lo, hi - 1);
      WithinSplits(a, lo, hi - 1, hi);
      WithinSplits(b, lo, hi - 1, hi);
      assert AtInstant(a, hi - 1) == AtInstant(b, hi - 1);
    }
  }

  /** What was recorded in a span. */
  function RecordedWithin(rows: seq<SampleRow>, lo: int, hi: int): Totals {
    if rows == [] then NOTHING
    else
      var r := rows[|rows| - 1];
      var before := RecordedWithin(rows[..|rows| - 1], lo, hi);
      if lo <= r.ts < hi then Plus(before, RowTotals(r)) else before
  }

  /** It sums both directions over all users, and takes the maximum of the connections. */
  lemma {:induction false} RecordedIsSum(rows: seq<SampleRow>, lo: int, hi: int)
    ensures RecordedWithin(rows, lo, hi).bytesIn == BytesBetween(rows, None, lo, hi, In)
    ensures RecordedWithin(rows, lo, hi).bytesOut == BytesBetween(rows, None, lo, hi, Out)
    ensures RecordedWithin(rows, lo, hi).connections >= 0
    ensures forall r :: r in rows && lo <= r.ts < hi ==> r.connections <= RecordedWithin(rows, lo, hi).connections
    ensures RecordedWithin(rows, lo, hi).connections == 0
            || exists r :: r in rows && lo <= r.ts < hi && r.connections == RecordedWithin(rows, lo, hi).connections
    decreases |rows|
  {
    if rows != [] {
      var n := |rows| - 1;
      RecordedIsSum(rows[..n], lo, hi);
      assert rows == rows[..n] + [rows[n]];
    }
  }

  // ---- samples ----

  lemma {:induction false} NewerAppend(rows: seq<SampleRow>, r: SampleRow, cutoff: int)
    ensures Newer(rows + [r], cutoff) == Newer(rows, cutoff) + if r.ts >= cutoff then [r] else []
  {
    assert (rows + [r])[..|rows|] == rows;
  }

  lemma {:induction false} NewerTwice(rows: seq<SampleRow>, early: int, late: int)
    requires early <= late
    ensures Newer(Newer(rows, early), late) == Newer(rows, late)
    decreases |rows|
  {
    if rows != [] {
      var n := |rows| - 1;
      NewerTwice(rows[..n], early, late);
      if rows[n].ts >= early {
        NewerAppend(Newer(rows[..n], early), rows[n], late);
      }
    }
  }

  lemma {:induction false} BatchKeepsSamples(t: Tables, batch: seq<Sample>, ts: int, deleted: int)
    requires t.samples == Newer(TrafficHistory.Rows(t.log), deleted) && ts >= deleted
    ensures var t' := StoreBatch(t, batch, ts); t'.samples == Newer(TrafficHistory.Rows(t'.log), deleted)
    decreases |batch|
  {
    hide Newer, StoreSample;
    if batch != [] {
      var n := |batch| - 1;
      BatchKeepsSamples(t, batch[..n], ts, deleted);
      SampleKeepsSamples(StoreBatch(t, batch[..n], ts), batch[n], ts, deleted);
    }
  }

  lemma SampleKeepsSamples(t: Tables, s: Sample, ts: int, deleted: int)
    requires t.samples == Newer(TrafficHistory.Rows(t.log), deleted) && ts >= deleted
    ensures var t' := StoreSample(t, s, ts); t'.samples == Newer(TrafficHistory.Rows(t'.log), deleted)
  {
    hide Newer, UpsertDay, HasSample, CounterDelta;
    if !HasSample(t.samples, s.userLabel, ts) {
      var t' := StoreSample(t, s, ts);
      var row := t'.samples[|t.samples|];
      assert TrafficHistory.Rows(t'.log) == TrafficHistory.Rows(t.log) + [row];
      NewerAppend(TrafficHistory.Rows(t.log), row, deleted);
    }
  }

  lemma {:induction false} DeletedBeforeFolded(events: seq<TrafficHistory.Event>)
    requires TrafficHistory.Orderly(events)
    ensures 0 <= TrafficHistory.Deleted(events) <= TrafficHistory.Folded(events)
    ensures TrafficHistory.Deleted(events) % 3600 == 0
    decreases |events|
  {
    if events != [] {
      DeletedBeforeFolded(events[..|events| - 1]);
    }
  }

  /** In every orderly history the samples that are left are exactly those recorded from the
      latest deletion cutoff on, in order. */
  lemma {:induction false} SamplesAreTheNewerRows(events: seq<TrafficHistory.Event>)
    requires TrafficHistory.Orderly(events)
    ensures var t := TrafficHistory.After(events);
            t.samples == Newer(TrafficHistory.Rows(t.log), TrafficHistory.Deleted(events))
    decreases |events|
  {
    hide Newer, StoreBatch, Aggregated, Older;
    if events == [] {
      NothingIsNewer();
    } else {
      var before := events[..|events| - 1];
      var t := TrafficHistory.After(before);
      SamplesAreTheNewerRows(before);
      match events[|events| - 1]
      case Scrape(batch, ts) =>
        BatchKeepsSamples(t, batch, ts, TrafficHistory.Deleted(before));
      case Retain(m, h, failing) =>
        TrafficHistory.RetentionLeavesUsageAlone(t, m, h, failing);
        DeletedBeforeFolded(before);
        RetainedSamples(t, m, h, failing);
        NewerTwice(TrafficHistory.Rows(t.log), TrafficHistory.Deleted(before), m);
    }
  }

  lemma NothingIsNewer()
    ensures NO_TABLES.samples == Newer(TrafficHistory.Rows([]), 0)
  {
  }

  lemma RetainedSamples(t: Tables, m: int, h: int, failing: nat)
    ensures Retained(t, m, h, failing).samples == if failing >= 2 then Newer(t.samples, m) else t.samples
  {
    hide Newer, Older, Summary;
  }

  lemma {:induction false} WithinOfNewer(rows: seq<SampleRow>, deleted: int, cutoff: int, lo: int, hi: int)
    requires lo >= deleted && lo >= cutoff
    ensures Within(OfSamples(Newer(rows, deleted), cutoff), lo, hi) == RecordedWithin(rows, lo, hi)
    decreases |rows|
  {
    hide Plus, RowTotals;
    if rows != [] {
      var n := |rows| - 1;
      var r := rows[n];
      WithinOfNewer(rows[..n], deleted, cutoff, lo, hi);
      if r.ts >= deleted {
        var kept := Newer(rows[..n], deleted);
        assert (kept + [r])[..|kept|] == kept;
        if r.ts >= cutoff {
          var shown := OfSamples(kept, cutoff);
          assert (shown + [TrafficRow(r.ts, RowTotals(r))])[..|shown|] == shown;
        } else {
          assert OfSamples(kept + [r], cutoff) == OfSamples(kept, cutoff) + [] == OfSamples(kept, cutoff);
        }
      }
    }
  }

  // ---- hours ----

  /** What the rows of a set of hours add up to. */
  function InHours(rows: seq<SampleRow>, hours: set<HourKey>): Totals {
    if rows == [] then NOTHING
    else
      var r := rows[|rows| - 1];
      var before := InHours(rows[..|rows| - 1], hours);
      if KeyOf(r) in hours then Plus(before, RowTotals(r)) else before
  }

  lemma {:induction false} OneMoreHour(rows: seq<SampleRow>, hours: set<HourKey>, k: HourKey)
    requires k !in hours
    ensures InHours(rows, hours + {k}) == Plus(InHours(rows, hours), Summary(rows, k))
    ensures InHours(rows, hours).connections >= 0
    decreases |rows|
  {
    hide KeyOf, RowTotals, Plus;
    if rows == [] {
      PlusNothing(NOTHING);
    } else {
      var n := |rows| - 1;
      OneMoreHour(rows[..n], hours, k);
      PlusShuffle(InHours(rows[..n], hours), Summary(rows[..n], k), RowTotals(rows[n]));
    }
  }

  lemma {:induction false} EmptyHoursAddNothing(rows: seq<SampleRow>, hours: set<HourKey>, more: set<HourKey>)
    requires hours !! more && forall k :: k in more ==> Summary(rows, k) == NOTHING
    ensures InHours(rows, hours + more) == InHours(rows, hours)
    decreases |more|
  {
    hide InHours, Summary;
    if more == {} {
      assert hours + more == hours;
    } else {
      var k :| k in more;
      EmptyHoursAddNothing(rows, hours, more - {k});
      OneMoreHour(rows, hours + (more - {k}), k);
      assert hours + (more - {k}) + {k} == hours + more;
      PlusNothing(InHours(rows, hours + (more - {k})));
    }
  }

  lemma {:induction false} HoursAreSpan(rows: seq<SampleRow>, hours: set<HourKey>, lo: int, hi: int)
    requires forall r :: r in rows ==> (KeyOf(r) in hours <==> lo <= r.ts < hi)
    ensures InHours(rows, hours) == RecordedWithin(rows, lo, hi)
    decreases |rows|
  {
    hide KeyOf, RowTotals, Plus;
    if rows != [] {
      var n := |rows| - 1;
      assert rows[n] in rows;
      forall r | r in rows[..n]
        ensures KeyOf(r) in hours <==> lo <= r.ts < hi
      {
        assert r in rows;
      }
      HoursAreSpan(rows[..n], hours, lo, hi);
    }
  }

  function ShownHours(listed: seq<HourlyRow>, lo: int, hi: int): set<HourKey> {
    set i | 0 <= i < |listed| && lo <= listed[i].key.hourTs < hi :: listed[i].key
  }

  lemma {:induction false} WithinOfHours(listed: seq<HourlyRow>, rows: seq<SampleRow>, cutoff: int, hi: int)
    requires forall i, j :: 0 <= i < j < |listed| ==> listed[i].key != listed[j].key
    requires forall i :: 0 <= i < |listed| && cutoff <= listed[i].key.hourTs < hi ==>
               listed[i].totals == Summary(rows, listed[i].key)
    ensures Within(OfHours(listed, cutoff), cutoff, hi) == InHours(rows, ShownHours(listed, cutoff, hi))
    decreases |listed|
  {
    hide Summary, Plus, InHours;
    if listed == [] {
      NoHours(rows);
      assert ShownHours(listed, cutoff, hi) == {};
    } else {
      var n := |listed| - 1;
      var r := listed[n];
      WithinOfHours(listed[..n], rows, cutoff, hi);
      var before := OfHours(listed[..n], cutoff);
      assert (before + [TrafficRow(r.key.hourTs, r.totals)])[..|before|] == before;
      if cutoff <= r.key.hourTs < hi {
        assert r.key !in ShownHours(listed[..n], cutoff, hi);
        OneMoreHour(rows, ShownHours(listed[..n], cutoff, hi), r.key);
        assert ShownHours(listed, cutoff, hi) == ShownHours(listed[..n], cutoff, hi) + {r.key} by {
          ShownHoursOfLast(listed, cutoff, hi);
        }
      } else {
        ShownHoursOfLast(listed, cutoff, hi);
        assert ShownHours(listed, cutoff, hi) == ShownHours(listed[..n], cutoff, hi);
        assert before + [] == before;
      }
    }
  }

  lemma NoHours(rows: seq<SampleRow>)
    ensures InHours(rows, {}) == NOTHING
  {
    forall r: SampleRow | r in rows
      ensures KeyOf(r) in {} <==> 0 <= r.ts < 0
    {
    }
    HoursAreSpan(rows, {}, 0, 0);
    NoSpan(rows);
  }

  lemma {:induction false} NoSpan(rows: seq<SampleRow>)
    ensures RecordedWithin(rows, 0, 0) == NOTHING
    decreases |rows|
  {
    if rows != [] {
      NoSpan(rows[..|rows| - 1]);
    }
  }

  lemma ShownHoursOfLast(listed: seq<HourlyRow>, lo: int, hi: int)
    requires listed != []
    ensures var n := |listed| - 1;
            ShownHours(listed, lo, hi)
            == ShownHours(listed[..n], lo, hi) + if lo <= listed[n].key.hourTs < hi then {listed[n].key} else {}
  {
    var n := |listed| - 1;
    forall k | k in ShownHours(listed[..n], lo, hi)
      ensures k in ShownHours(listed, lo, hi)
    {
      var i :| 0 <= i < n && lo <= listed[..n][i].key.hourTs < hi && listed[..n][i].key == k;
      assert listed[i].key == k;
    }
    forall k | k in ShownHours(listed, lo, hi)
      ensures k in ShownHours(listed[..n], lo, hi) || (k == listed[n].key && lo <= listed[n].key.hourTs < hi)
    {
      var i :| 0 <= i < |listed| && lo <= listed[i].key.hourTs < hi && listed[i].key == k;
      if i < n {
        assert listed[..n][i].key == k;
      }
    }
  }

  // ---- charts of a history ----

  /** The first hour boundary at or after an instant. */
  function HourFrom(ts: int): int {
    if ts % 3600 == 0 then ts else ts - ts % 3600 + 3600
  }

  lemma {:induction false} RecordedSplits(rows: seq<SampleRow>, lo: int, mid: int, hi: int)
    requires lo <= mid <= hi
    ensures RecordedWithin(rows, lo, hi) == Plus(RecordedWithin(rows, lo, mid), RecordedWithin(rows, mid, hi))
    decreases |rows|
  {
    hide Plus, RowTotals;
    if rows == [] {
      PlusNothing(NOTHING);
    } else {
      var n := |rows| - 1;
      RecordedSplits(rows[..n], lo, mid, hi);
      PlusShuffle(RecordedWithin(rows[..n], lo, mid), RecordedWithin(rows[..n], mid, hi), RowTotals(rows[n]));
    }
  }

  lemma {:induction false} WithinAppend(a: seq<TrafficRow>, b: seq<TrafficRow>, lo: int, hi: int)
    ensures Within(a + b, lo, hi) == Plus(Within(a, lo, hi), Within(b, lo, hi))
    ensures Within(a, lo, hi).connections >= 0
    decreases |b|
  {
    hide Plus;
    WithinConnections(a, lo, hi);
    if b == [] {
      assert a + b == a;
      PlusNothing(Within(a, lo, hi));
    } else {
      var n := |b| - 1;
      assert (a + b)[..|a + b| - 1] == a + b[..n];
      WithinAppend(a, b[..n], lo, hi);
      PlusShuffle(Within(a, lo, hi), Within(b[..n], lo, hi), b[n].totals);
    }
  }

  /** A chart that starts at or after the latest deletion shows exactly what was recorded
      from its start on, second by second: those of an hour, a day and, right after a cycle
      with the default horizon, a week. */
  lemma RecentChartIsExact(events: seq<TrafficHistory.Event>, period: string, listed: seq<HourlyRow>,
                           rows: seq<TrafficRow>, start: int, end: int)
    requires TrafficHistory.Orderly(events) && start >= TrafficHistory.Deleted(events)
    requires period != PERIOD_30D
    requires SameByInstant(rows, Selected(period, TrafficHistory.After(events).samples, listed, start))
    ensures Within(rows, start, end)
            == RecordedWithin(TrafficHistory.Rows(TrafficHistory.After(events).log), start, end)
  {
    hide Within, RecordedWithin, OfSamples, Newer, SameByInstant, TrafficHistory.After, TrafficHistory.Orderly;
    var t := TrafficHistory.After(events);
    SamplesAreTheNewerRows(events);
    GroupingKeepsSpans(rows, Selected(period, t.samples, listed, start), start, end);
    assert OfSamples(t.samples, start) + [] == OfSamples(t.samples, start);
    WithinOfNewer(TrafficHistory.Rows(t.log), TrafficHistory.Deleted(events), start, start, end);
  }

  /** A settled hourly table holds, for every hour between the horizon and the latest
      deletion, the summary of what was recorded, and nothing for other hours. */
  lemma HourIsKept(events: seq<TrafficHistory.Event>, k: HourKey)
    requires TrafficHistory.Orderly(events) && TrafficHistory.Folded(events) == TrafficHistory.Deleted(events)
    ensures var t := TrafficHistory.After(events);
            && (k in t.hourly ==> k.hourTs < TrafficHistory.Deleted(events))
            && (TrafficHistory.Horizon(events) <= k.hourTs < TrafficHistory.Deleted(events)
                ==> HourlyTotals(t, k) == Summary(TrafficHistory.Rows(t.log), k))
  {
    hide Summary, Older, TrafficHistory.After, TrafficHistory.Orderly;
    TrafficHistory.RetentionConserves(events, k);
    TrafficHistory.SettledTablesReport(events, k);
  }

  lemma SpanOfHours(rows: seq<SampleRow>, shown: set<HourKey>, start: int, deleted: int)
    requires 0 < start <= deleted && deleted % 3600 == 0
    requires forall k :: k in shown ==> start <= k.hourTs < deleted
    requires forall k: HourKey :: start <= k.hourTs < deleted && k !in shown ==> Summary(rows, k) == NOTHING
    ensures InHours(rows, shown) == RecordedWithin(rows, HourFrom(start), deleted)
  {
    hide Summary, InHours, RecordedWithin;
    var from := HourFrom(start);
    var more := set r | r in rows && from <= r.ts < deleted && KeyOf(r) !in shown :: KeyOf(r);
    forall r | r in rows
      ensures KeyOf(r) in shown ==> from <= r.ts < deleted
      ensures from <= r.ts < deleted ==> start <= KeyOf(r).hourTs < deleted
    {
      HourInSpan(r.ts, start, deleted);
    }
    EmptyHoursAddNothing(rows, shown, more);
    HoursAreSpan(rows, shown + more, from, deleted);
  }

  lemma HourInSpan(ts: int, start: int, deleted: int)
    requires 0 < start <= deleted && deleted % 3600 == 0
    ensures start <= HourFloor(ts) < deleted <==> HourFrom(start) <= ts < deleted
  {
    HourFloorKeepsBoundary(ts, deleted);
    HourFloorKeepsBoundary(ts, HourFrom(start));
    HourFloorIsAligned(ts);
  }

  lemma HourFloorIsAligned(ts: int)
    ensures HourFloor(ts) % 3600 == 0
  {
    var q := if ts >= 0 then ts / 3600 else -(-ts / 3600);
    var floor := HourFloor(ts);
    assert floor == 3600 * q;
    var past := floor / 3600 - q;
    assert floor % 3600 == -3600 * past;
    assert past == 0;
  }

  lemma HoursShowRecorded(events: seq<TrafficHistory.Event>, listed: seq<HourlyRow>, start: int, end: int)
    requires TrafficHistory.Orderly(events) && TrafficHistory.Folded(events) == TrafficHistory.Deleted(events)
    requires 0 < start <= TrafficHistory.Deleted(events) <= end && TrafficHistory.Horizon(events) <= start
    requires ListsTable(listed, TrafficHistory.After(events).hourly)
    ensures Within(OfHours(listed, start), start, end)
            == RecordedWithin(TrafficHistory.Rows(TrafficHistory.After(events).log),
                              HourFrom(start), TrafficHistory.Deleted(events))
  {
    hide Within, RecordedWithin, OfHours, InHours, Summary, KeyOf, HourFrom;
    hide TrafficHistory.After, TrafficHistory.Orderly;
    var t := TrafficHistory.After(events);
    var log := TrafficHistory.Rows(t.log);
    var deleted := TrafficHistory.Deleted(events);
    DeletedBeforeFolded(events);
    forall k: HourKey
      ensures k in t.hourly ==> k.hourTs < deleted
      ensures start <= k.hourTs < deleted ==> HourlyTotals(t, k) == Summary(log, k)
    {
      HourIsKept(events, k);
    }
    WithinOfHours(listed, log, start, end);
    forall k: HourKey | start <= k.hourTs < deleted && k !in ShownHours(listed, start, end)
      ensures Summary(log, k) == NOTHING
    {
      assert k !in t.hourly;
    }
    SpanOfHours(log, ShownHours(listed, start, end), start, deleted);
  }

  /** The 30-day chart of settled tables shows exactly what was recorded from the first hour
      boundary of its window on: of the hour the window begins in, samples that were folded
      are not shown, so up to an hour is missing at its left edge. */
  lemma LongChartIsExact(events: seq<TrafficHistory.Event>, listed: seq<HourlyRow>,
                         rows: seq<TrafficRow>, start: int, end: int)
    requires TrafficHistory.Orderly(events) && TrafficHistory.Folded(events) == TrafficHistory.Deleted(events)
    requires 0 < start <= TrafficHistory.Deleted(events) <= end && TrafficHistory.Horizon(events) <= start
    requires ListsTable(listed, TrafficHistory.After(events).hourly)
    requires SameByInstant(rows, Selected(PERIOD_30D, TrafficHistory.After(events).samples, listed, start))
    ensures Within(rows, start, end)
            == RecordedWithin(TrafficHistory.Rows(TrafficHistory.After(events).log), HourFrom(start), end)
  {
    hide Within, RecordedWithin, OfSamples, OfHours, Newer, SameByInstant, Plus, ListsTable;
    hide TrafficHistory.After, TrafficHistory.Orderly;
    var t := TrafficHistory.After(events);
    var log := TrafficHistory.Rows(t.log);
    var deleted := TrafficHistory.Deleted(events);
    DeletedBeforeFolded(events);
    SamplesAreTheNewerRows(events);
    GroupingKeepsSpans(rows, Selected(PERIOD_30D, t.samples, listed, start), start, end);
    WithinAppend(OfSamples(t.samples, start), OfHours(listed, start), start, end);
    HoursShowRecorded(events, listed, start, end);
    SamplesFromDeletion(log, deleted, start, end);
    RecordedSplits(log, HourFrom(start), deleted, end);
    PlusCommutes(RecordedWithin(log, deleted, end), RecordedWithin(log, HourFrom(start), deleted));
  }

  lemma PlusCommutes(a: Totals, b: Totals)
    ensures Plus(a, b) == Plus(b, a)
  {
  }

  /** Of the samples that are left none is before the deletion cutoff. */
  lemma {:induction false} SamplesFromDeletion(rows: seq<SampleRow>, deleted: int, start: int, end: int)
    requires start <= deleted <= end
    ensures Within(OfSamples(Newer(rows, deleted), start), start, end) == RecordedWithin(rows, deleted, end)
    decreases |rows|
  {
    hide Plus, RowTotals;
    if rows != [] {
      var n := |rows| - 1;
      var r := rows[n];
      SamplesFromDeletion(rows[..n], deleted, start, end);
      if r.ts >= deleted {
        var kept := Newer(rows[..n], deleted);
        assert (kept + [r])[..|kept|] == kept;
        var shown := OfSamples(kept, start);
        assert (shown + [TrafficRow(r.ts, RowTotals(r))])[..|shown|] == shown;
      }
    }
  }

  /** So a chart whose bucket count divides its window, or is at least its length, sums up
      to what was recorded. */
  lemma LongChartTotals(events: seq<TrafficHistory.Event>, listed: seq<HourlyRow>,
                        rows: seq<TrafficRow>, buckets: int, now: int)
    requires TrafficHistory.Orderly(events) && TrafficHistory.Folded(events) == TrafficHistory.Deleted(events)
    requires buckets > 0 && DividesOrExceeds(buckets, 2592000)
    requires var start := now - 2592000;
             && 0 < start <= TrafficHistory.Deleted(events) <= now && TrafficHistory.Horizon(events) <= start
             && ListsTable(listed, TrafficHistory.After(events).hourly)
             && SameByInstant(rows, Selected(PERIOD_30D, TrafficHistory.After(events).samples, listed, start))
    ensures var start := now - 2592000;
            ChartTotal(rows, start, now, Step(2592000, buckets), buckets)
            == RecordedWithin(TrafficHistory.Rows(TrafficHistory.After(events).log), HourFrom(start), now)
  {
    hide Within, RecordedWithin, ChartTotal, Step, DividesOrExceeds, HourFrom, SameByInstant, ListsTable;
    hide TrafficHistory.After, TrafficHistory.Orderly;
    LongChartIsExact(events, listed, rows, now - 2592000, now);
    ChartConservesIff(2592000, buckets, now);
    assert ChartConserves(rows, 2592000, buckets, now);
  }
}
