/** Retention: minute samples past their horizon are folded into hourly rows and
    deleted, hourly rows past theirs are deleted. */
module Retention {
  import opened GoArithmetic
  import opened Options
  import opened Traffic
  import opened TrafficTotals

  const MINUTE_RETENTION_DAYS := 7
  const HOURLY_RETENTION_DAYS := 30

  function KeyOf(r: SampleRow): HourKey {
    HourKey(r.userLabel, HourFloor(r.ts))
  }

  function RowTotals(r: SampleRow): Totals {
    Totals(r.bytesIn, r.bytesOut, r.connections)
  }

  /** Sums of bytes and maximum of connections over the rows of one user and hour. */
  function Summary(rows: seq<SampleRow>, k: HourKey): Totals {
    if rows == [] then NOTHING
    else
      var before := Summary(rows[..|rows| - 1], k);
      var r := rows[|rows| - 1];
      if KeyOf(r) == k then Plus(before, RowTotals(r)) else before
  }

  function Older(rows: seq<SampleRow>, cutoff: int): seq<SampleRow> {
    if rows == [] then []
    else
      var r := rows[|rows| - 1];
      var before := Older(rows[..|rows| - 1], cutoff);
      if r.ts < cutoff then before + [r] else before
  }

  function Newer(rows: seq<SampleRow>, cutoff: int): seq<SampleRow> {
    if rows == [] then []
    else
      var r := rows[|rows| - 1];
      var before := Newer(rows[..|rows| - 1], cutoff);
      if r.ts < cutoff then before else before + [r]
  }

  /** Some sample of the hour is older than the cutoff. */
  ghost predicate Retires(rows: seq<SampleRow>, cutoff: int, k: HourKey) {
    exists r :: r in rows && r.ts < cutoff && KeyOf(r) == k
  }

  function Keys(rows: seq<SampleRow>): set<HourKey> {
    set r | r in rows :: KeyOf(r)
  }

  /** INSERT OR REPLACE INTO traffic_hourly ... GROUP BY user_label, hour_ts. */
  function Aggregated(t: Tables, cutoff: int): Tables {
    var retired := Older(t.samples, cutoff);
    t.(hourly := t.hourly + map k | k in Keys(retired) :: Summary(retired, k))
  }

  function WithoutOldSamples(t: Tables, cutoff: int): Tables {
    t.(samples := Newer(t.samples, cutoff))
  }

  function WithoutOldHourly(t: Tables, cutoff: int): Tables {
    t.(hourly := map k | k in t.hourly && k.hourTs >= cutoff :: t.hourly[k])
  }

  /** One complete retention cycle. */
  function Cycle(t: Tables, minuteCutoff: int, hourlyCutoff: int): Tables {
    WithoutOldHourly(WithoutOldSamples(Aggregated(t, minuteCutoff), minuteCutoff), hourlyCutoff)
  }

  /** A cycle whose step number `failing` fails, 3 or more for one that gets through. */
  function Retained(t: Tables, minuteCutoff: int, hourlyCutoff: int, failing: nat): Tables {
    if failing == 0 then t
    else if failing == 1 then Aggregated(t, minuteCutoff)
    else if failing == 2 then WithoutOldSamples(Aggregated(t, minuteCutoff), minuteCutoff)
    else Cycle(t, minuteCutoff, hourlyCutoff)
  }

  function HourlyTotals(t: Tables, k: HourKey): Totals {
    if k in t.hourly then t.hourly[k] else NOTHING
  }

  /** What both tables together report for one user and hour. */
  function Reported(t: Tables, k: HourKey): Totals {
    Plus(HourlyTotals(t, k), Summary(t.samples, k))
  }

  // ---- what a summary is ----

  /** A group's bytes are those of its rows, each counted once, and its connections are
      their maximum: appending a row adds its bytes and raises the maximum. */
  lemma {:induction false} SummaryAppend(rows: seq<SampleRow>, r: SampleRow, k: HourKey)
    ensures Summary(rows + [r], k)
            == if KeyOf(r) == k then Plus(Summary(rows, k), RowTotals(r)) else Summary(rows, k)
  {
    assert (rows + [r])[..|rows|] == rows;
  }

  lemma {:induction false} SummaryIsMaximum(rows: seq<SampleRow>, k: HourKey)
    ensures Summary(rows, k).connections >= 0
    ensures forall r :: r in rows && KeyOf(r) == k ==> r.connections <= Summary(rows, k).connections
    ensures Summary(rows, k).connections == 0
            || exists r :: r in rows && KeyOf(r) == k && r.connections == Summary(rows, k).connections
    decreases |rows|
  {
    hide KeyOf;
    if rows != [] {
      var n := |rows| - 1;
      SummaryIsMaximum(rows[..n], k);
      assert rows == rows[..n] + [rows[n]];
    }
  }

  /** The bytes of some rows in one direction: those of one user, or of all, that lie in a
      span of time. */
  function BytesBetween(rows: seq<SampleRow>, user: Option<string>, lo: int, hi: int, dir: Direction): int {
    if rows == [] then 0
    else
      var r := rows[|rows| - 1];
      BytesBetween(rows[..|rows| - 1], user, lo, hi, dir)
      + if (user.None? || user.value == r.userLabel) && lo <= r.ts < hi
        then (match dir case In => r.bytesIn case Out => r.bytesOut) else 0
  }

  /** A group sums each direction over the rows of its user in the sixty minutes from its
      hour on. */
  lemma {:induction false} SummaryIsSum(rows: seq<SampleRow>, k: HourKey)
    requires k.hourTs >= 0 && k.hourTs % 3600 == 0 && forall i :: 0 <= i < |rows| ==> rows[i].ts >= 0
    ensures Summary(rows, k).bytesIn == BytesBetween(rows, Some(k.userLabel), k.hourTs, k.hourTs + 3600, In)
    ensures Summary(rows, k).bytesOut == BytesBetween(rows, Some(k.userLabel), k.hourTs, k.hourTs + 3600, Out)
    decreases |rows|
  {
    hide HourFloor;
    if rows != [] {
      var n := |rows| - 1;
      SummaryIsSum(rows[..n], k);
      InHour(rows[n].ts, k.hourTs);
    }
  }

  lemma InHour(ts: int, hour: int)
    requires ts >= 0 && hour >= 0 && hour % 3600 == 0
    ensures HourFloor(ts) == hour <==> hour <= ts < hour + 3600
  {
    var past := ts / 3600 - hour / 3600;
    assert hour == 3600 * (hour / 3600);
    assert HourFloor(ts) == 3600 * (ts / 3600);
    assert HourFloor(ts) - hour == 3600 * past;
  }

  // ---- splitting the samples at a cutoff ----

  lemma {:induction false} SplitMembers(rows: seq<SampleRow>, cutoff: int, r: SampleRow)
    ensures r in Older(rows, cutoff) <==> r in rows && r.ts < cutoff
    ensures r in Newer(rows, cutoff) <==> r in rows && r.ts >= cutoff
    ensures multiset(Newer(rows, cutoff))[r] == if r.ts >= cutoff then multiset(rows)[r] else 0
    decreases |rows|
  {
    if rows != [] {
      SplitMembers(rows[..|rows| - 1], cutoff, r);
      assert rows == rows[..|rows| - 1] + [rows[|rows| - 1]];
    }
  }

  lemma {:induction false} SplitSummary(rows: seq<SampleRow>, cutoff: int, k: HourKey)
    ensures Summary(rows, k) == Plus(Summary(Older(rows, cutoff), k), Summary(Newer(rows, cutoff), k))
    ensures Summary(rows, k).connections >= 0
    decreases |rows|
  {
    hide KeyOf, RowTotals, Plus;
    if rows == [] {
      PlusNothing(NOTHING);
    } else {
      var n := |rows| - 1;
      SplitSummary(rows[..n], cutoff, k);
      var o, e := Older(rows[..n], cutoff), Newer(rows[..n], cutoff);
      SummaryAppend(o, rows[n], k);
      SummaryAppend(e, rows[n], k);
      PlusShuffle(Summary(o, k), Summary(e, k), RowTotals(rows[n]));
    }
  }

  lemma {:induction false} SummaryOfAbsent(rows: seq<SampleRow>, k: HourKey)
    requires k !in Keys(rows)
    ensures Summary(rows, k) == NOTHING
    decreases |rows|
  {
    if rows != [] {
      var before := rows[..|rows| - 1];
      assert KeyOf(rows[|rows| - 1]) in Keys(rows);
      forall r | r in before
        ensures KeyOf(r) in Keys(rows)
      {
        assert r in rows;
      }
      assert Keys(before) <= Keys(rows);
      SummaryOfAbsent(before, k);
    }
  }

  // ---- one cycle ----

  /** The hourly row of an hour is rebuilt from the samples that are being retired, so
      anything the row held before is replaced, not added to. */
  lemma CycleReports(t: Tables, minuteCutoff: int, hourlyCutoff: int, k: HourKey)
    requires k.hourTs >= hourlyCutoff
    ensures var retired := Older(t.samples, minuteCutoff);
            Reported(Cycle(t, minuteCutoff, hourlyCutoff), k)
            == if k in Keys(retired) then Summary(t.samples, k) else Reported(t, k)
  {
    hide Older, Newer, Summary, Keys;
    var retired := Older(t.samples, minuteCutoff);
    var live := Newer(t.samples, minuteCutoff);
    var after := Cycle(t, minuteCutoff, hourlyCutoff);
    SplitSummary(t.samples, minuteCutoff, k);
    assert after.samples == live;
    if k in Keys(retired) {
      assert HourlyTotals(after, k) == Summary(retired, k);
    } else {
      SummaryOfAbsent(retired, k);
      assert HourlyTotals(after, k) == HourlyTotals(t, k);
      SummaryIsNonNegative(live, k);
      PlusNothing(Summary(live, k));
    }
  }

  lemma SummaryIsNonNegative(rows: seq<SampleRow>, k: HourKey)
    ensures Summary(rows, k).connections >= 0
  {
    SplitSummary(rows, 0, k);
  }

  /** A cycle keeps the bytes of a retained user and hour if and only if it does not
      have to fold samples into an hourly row that already holds bytes. */
  lemma CycleConservesIff(t: Tables, minuteCutoff: int, hourlyCutoff: int, k: HourKey)
    requires k.hourTs >= hourlyCutoff
    ensures var before := Reported(t, k);
            var after := Reported(Cycle(t, minuteCutoff, hourlyCutoff), k);
            (after.bytesIn == before.bytesIn && after.bytesOut == before.bytesOut)
            <==> (k !in Keys(Older(t.samples, minuteCutoff))
                  || (HourlyTotals(t, k).bytesIn == 0 && HourlyTotals(t, k).bytesOut == 0))
  {
    CycleReports(t, minuteCutoff, hourlyCutoff, k);
  }

  /** Between a failed delete and the next cycle the retired samples are in both tables:
      every hour they lie in is reported with their bytes twice. */
  lemma HalfCycleCountsTwice(t: Tables, cutoff: int, k: HourKey)
    requires k in Keys(Older(t.samples, cutoff))
    ensures var half := Reported(Retained(t, cutoff, 0, 1), k);
            var whole := Summary(t.samples, k);
            var retired := Summary(Older(t.samples, cutoff), k);
            && half.bytesIn == whole.bytesIn + retired.bytesIn
            && half.bytesOut == whole.bytesOut + retired.bytesOut
  {
    hide Older, Summary, Keys;
  }

  function Arrive(t: Tables, rows: seq<SampleRow>): Tables {
    t.(samples := t.samples + rows)
  }

  /** A crash between aggregating and deleting is repaired by a later cycle, whatever the
      two cutoffs and whatever samples arrive in between: its result is that of the later
      cycle alone. */
  lemma CrashThenRerun(t: Tables, arrivals: seq<SampleRow>, crashCutoff: int, minuteCutoff: int, hourlyCutoff: int)
    requires crashCutoff <= minuteCutoff
    ensures Cycle(Arrive(Aggregated(t, crashCutoff), arrivals), minuteCutoff, hourlyCutoff)
            == Cycle(Arrive(t, arrivals), minuteCutoff, hourlyCutoff)
  {
    hide KeyOf, Summary, Older, Newer;
    var early := Older(t.samples, crashCutoff);
    var late := Older(t.samples + arrivals, minuteCutoff);
    RetiredStaysRetired(t.samples, arrivals, crashCutoff, minuteCutoff);
    ReplacingTwice(t.hourly, map k | k in Keys(early) :: Summary(early, k),
                   map k | k in Keys(late) :: Summary(late, k));
    assert Aggregated(Arrive(Aggregated(t, crashCutoff), arrivals), minuteCutoff)
           == Aggregated(Arrive(t, arrivals), minuteCutoff);
  }

  lemma RetiredStaysRetired(rows: seq<SampleRow>, arrivals: seq<SampleRow>, early: int, late: int)
    requires early <= late
    ensures Keys(Older(rows, early)) <= Keys(Older(rows + arrivals, late))
  {
    hide KeyOf, Older;
    forall k | k in Keys(Older(rows, early))
      ensures k in Keys(Older(rows + arrivals, late))
    {
      var r :| r in Older(rows, early) && KeyOf(r) == k;
      SplitMembers(rows, early, r);
      SplitMembers(rows + arrivals, late, r);
    }
  }

  lemma ReplacingTwice(table: map<HourKey, Totals>, early: map<HourKey, Totals>, late: map<HourKey, Totals>)
    requires early.Keys <= late.Keys
    ensures (table + early) + late == table + late
  {
  }

  // ---- why the cutoffs must be hour boundaries ----

  /** A cutoff inside an hour cuts the samples around it in two, and the cycle that retires
      the rest of the hour replaces the row of the first part. Run subtracts whole days
      from the current second, so this is what two runs with the default horizons do to
      the bytes of the second before the first cutoff, unless the first starts on an hour. */
  lemma TwoCyclesLoseBytes(t: Tables, now: int, later: int, a: SampleRow, b: SampleRow)
    requires now > MINUTE_RETENTION_DAYS * 86400 && now % 3600 != 0
    requires now + 3600 <= later <= now + 22 * 86400
    requires t.samples == [a, b] && a.userLabel == b.userLabel && a.connections >= 0 && b.connections >= 0
    requires a.ts == now - MINUTE_RETENTION_DAYS * 86400 - 1 && b.ts == a.ts + 1
    ensures var first := Cycle(t, now - MINUTE_RETENTION_DAYS * 86400, now - HOURLY_RETENTION_DAYS * 86400);
            var second := Cycle(first, later - MINUTE_RETENTION_DAYS * 86400, later - HOURLY_RETENTION_DAYS * 86400);
            var k := KeyOf(a);
            && KeyOf(b) == k
            && Reported(second, k) == RowTotals(b)
            && Summary([a, b], k) == Plus(RowTotals(a), RowTotals(b))
  {
    hide HourFloor, Cycle, Keys, Older, Newer, Summary, Plus;
    var cutoff := now - MINUTE_RETENTION_DAYS * 86400;
    var cutoff' := later - MINUTE_RETENTION_DAYS * 86400;
    InsideAnHour(cutoff);
    assert KeyOf(a) == KeyOf(b);
    hide KeyOf;
    TwoRows(a, b, cutoff, cutoff', KeyOf(a));
    CycleSamples(t, cutoff, now - HOURLY_RETENTION_DAYS * 86400);
    CycleReports(Cycle(t, cutoff, now - HOURLY_RETENTION_DAYS * 86400),
                 cutoff', later - HOURLY_RETENTION_DAYS * 86400, KeyOf(a));
  }

  lemma InsideAnHour(ts: int)
    requires ts > 0 && ts % 3600 != 0
    ensures HourFloor(ts - 1) == HourFloor(ts) && ts - 3600 < HourFloor(ts) < ts
  {
  }

  lemma CycleSamples(t: Tables, m: int, h: int)
    ensures Cycle(t, m, h).samples == Newer(t.samples, m)
  {
  }

  lemma TwoRows(a: SampleRow, b: SampleRow, cutoff: int, later: int, k: HourKey)
    requires k == KeyOf(a) == KeyOf(b)
    requires a.ts < cutoff <= b.ts < later && a.connections >= 0 && b.connections >= 0
    ensures Summary([a, b], k) == Plus(RowTotals(a), RowTotals(b))
    ensures Newer([a, b], cutoff) == [b]
    ensures Summary([b], k) == RowTotals(b)
    ensures k in Keys(Older([b], later))
  {
    hide KeyOf, Summary, Newer, Older;
    OneRow(a, k);
    OneRow(b, k);
    assert [a] + [b] == [a, b];
    SummaryAppend([a], b, k);
    assert Newer([a, b], cutoff) == [b] by {
      NewerOfTwo(a, b, cutoff);
    }
    SplitMembers([b], later, b);
  }

  lemma OneRow(r: SampleRow, k: HourKey)
    requires KeyOf(r) == k && r.connections >= 0
    ensures Summary([r], k) == RowTotals(r)
  {
    hide KeyOf;
    assert [r][..0] == [];
    assert Summary([r], k) == Plus(Summary([], k), RowTotals(r));
  }

  lemma NewerOfTwo(a: SampleRow, b: SampleRow, cutoff: int)
    requires a.ts < cutoff <= b.ts
    ensures Newer([a, b], cutoff) == [b]
  {
    assert [a, b][..1] == [a] && [a][..0] == [];
    assert Newer([a], cutoff) == [];
  }

  // ---- what every step keeps ----

  /** What is known about an hour when samples before `deleted` were folded and deleted,
      rows for the samples before `aggregated` were written, and hourly rows before
      `horizon` deleted: deleted hours are in the hourly table alone, every other hourly
      row is one the next cycle replaces, and, wherever the row counts, the tables hold
      the summary of all that arrived. */
  ghost predicate Sound(t: Tables, deleted: int, aggregated: int, horizon: int, arrived: seq<SampleRow>, k: HourKey) {
    && 0 <= deleted <= aggregated && deleted % 3600 == 0 && aggregated % 3600 == 0
    && Separated(t, deleted, aggregated)
    && (k.hourTs >= horizon ==> Kept(t, deleted, k) == Summary(arrived, k))
  }

  ghost predicate Separated(t: Tables, deleted: int, aggregated: int) {
    && (forall r :: r in t.samples ==> r.ts >= deleted)
    && (forall j :: j in t.hourly && j.hourTs >= deleted ==> j in Keys(Older(t.samples, aggregated)))
  }

  /** The table that counts for an hour. */
  function Kept(t: Tables, deleted: int, k: HourKey): Totals {
    if k.hourTs < deleted then HourlyTotals(t, k) else Summary(t.samples, k)
  }

  lemma HourOfSample(ts: int, bound: int)
    requires bound >= 0 && bound % 3600 == 0
    ensures ts >= bound ==> HourFloor(ts) >= bound
    ensures 0 <= ts < bound ==> HourFloor(ts) < bound
  {
    if bound > 0 {
      HourFloorKeepsBoundary(ts, bound);
    }
  }

  /** With nothing half done no hour is in both tables, and they report what arrived. */
  lemma SettledReports(t: Tables, deleted: int, horizon: int, arrived: seq<SampleRow>, k: HourKey)
    requires Sound(t, deleted, deleted, horizon, arrived, k)
    ensures forall j :: j in t.hourly ==> j.hourTs < deleted
    ensures forall r :: r in t.samples ==> KeyOf(r).hourTs >= deleted
    ensures k.hourTs >= horizon ==> Reported(t, k) == Summary(arrived, k)
  {
    hide Summary, Plus, HourFloor, Older;
    forall j | j in Keys(Older(t.samples, deleted))
      ensures false
    {
      var r :| r in Older(t.samples, deleted) && KeyOf(r) == j;
      SplitMembers(t.samples, deleted, r);
    }
    forall r | r in t.samples
      ensures KeyOf(r).hourTs >= deleted
    {
      HourOfSample(r.ts, deleted);
    }
    SummaryIsNonNegative(t.samples, k);
    if k.hourTs < deleted {
      assert k !in Keys(t.samples);
      SummaryOfAbsent(t.samples, k);
      SummaryIsNonNegative(arrived, k);
      if k.hourTs >= horizon {
        PlusNothing(HourlyTotals(t, k));
      }
    } else {
      PlusNothing(Summary(t.samples, k));
    }
  }

  lemma ArriveStaysSound(t: Tables, row: SampleRow, deleted: int, aggregated: int, horizon: int,
                         arrived: seq<SampleRow>, k: HourKey)
    requires Sound(t, deleted, aggregated, horizon, arrived, k) && row.ts >= deleted
    ensures Sound(Arrive(t, [row]), deleted, aggregated, horizon, arrived + [row], k)
  {
    hide Summary, Plus, RowTotals, HourFloor, Older;
    RetiredStaysRetired(t.samples, [row], aggregated, aggregated);
    SummaryAppend(t.samples, row, k);
    SummaryAppend(arrived, row, k);
    HourOfSample(row.ts, deleted);
  }

  lemma AggregateStaysSound(t: Tables, m: int, deleted: int, aggregated: int, horizon: int,
                            arrived: seq<SampleRow>, k: HourKey)
    requires Sound(t, deleted, aggregated, horizon, arrived, k)
    requires aggregated <= m && m % 3600 == 0
    ensures Sound(Aggregated(t, m), deleted, m, horizon, arrived, k)
  {
    hide Summary, HourFloor, Older;
    assert t.samples + [] == t.samples;
    RetiredStaysRetired(t.samples, [], aggregated, m);
    if k in Keys(Older(t.samples, m)) {
      var r :| r in Older(t.samples, m) && KeyOf(r) == k;
      SplitMembers(t.samples, m, r);
      HourOfSample(r.ts, deleted);
    }
  }

  /** Deleting right after aggregating: the hours now deleted are exactly those whose rows
      were just written. */
  lemma DeleteStaysSound(t: Tables, m: int, deleted: int, aggregated: int, horizon: int,
                         arrived: seq<SampleRow>, k: HourKey)
    requires Sound(t, deleted, aggregated, horizon, arrived, k)
    requires aggregated <= m && m % 3600 == 0
    ensures Sound(WithoutOldSamples(Aggregated(t, m), m), m, m, horizon, arrived, k)
  {
    var half := Aggregated(t, m);
    var after := WithoutOldSamples(half, m);
    AggregateStaysSound(t, m, deleted, aggregated, horizon, arrived, k);
    DeletedAreSeparated(half, m, deleted);
    FoldedKeeps(t, m, deleted, aggregated, k);
  }

  lemma DeletedAreSeparated(half: Tables, m: int, deleted: int)
    requires Separated(half, deleted, m) && 0 <= deleted <= m && m % 3600 == 0
    ensures Separated(WithoutOldSamples(half, m), m, m)
  {
    hide HourFloor, Older, Newer;
    forall r | r in Newer(half.samples, m)
      ensures r.ts >= m
    {
      SplitMembers(half.samples, m, r);
    }
    forall j | j in half.hourly && j.hourTs >= m
      ensures false
    {
      var r :| r in Older(half.samples, m) && KeyOf(r) == j;
      SplitMembers(half.samples, m, r);
      HourOfSample(r.ts, m);
    }
  }

  lemma FoldedKeeps(t: Tables, m: int, deleted: int, aggregated: int, k: HourKey)
    requires Separated(t, deleted, aggregated)
    requires 0 <= deleted <= aggregated <= m && deleted % 3600 == 0 && m % 3600 == 0
    ensures Kept(WithoutOldSamples(Aggregated(t, m), m), m, k) == Kept(t, deleted, k)
  {
    hide Summary, HourFloor, Older, Newer, Plus;
    var old', new' := Older(t.samples, m), Newer(t.samples, m);
    SplitSummary(t.samples, m, k);
    SummaryIsNonNegative(old', k);
    SummaryIsNonNegative(new', k);
    assert t.samples + [] == t.samples;
    RetiredStaysRetired(t.samples, [], aggregated, m);
    if k.hourTs >= m {
      forall r | r in old'
        ensures KeyOf(r) != k
      {
        SplitMembers(t.samples, m, r);
        HourOfSample(r.ts, m);
      }
      assert k !in Keys(old');
      SummaryOfAbsent(old', k);
      PlusNothing(Summary(new', k));
    } else {
      forall r | r in new'
        ensures KeyOf(r) != k
      {
        SplitMembers(t.samples, m, r);
        HourOfSample(r.ts, m);
      }
      assert k !in Keys(new');
      SummaryOfAbsent(new', k);
      PlusNothing(Summary(old', k));
      if k in Keys(old') {
        var r :| r in old' && KeyOf(r) == k;
        SplitMembers(t.samples, m, r);
        HourOfSample(r.ts, deleted);
      } else {
        SummaryOfAbsent(old', k);
      }
    }
  }

  lemma ExpireStaysSound(t: Tables, h: int, deleted: int, horizon: int, arrived: seq<SampleRow>, k: HourKey)
    requires Sound(t, deleted, deleted, horizon, arrived, k) && horizon <= h
    ensures Sound(WithoutOldHourly(t, h), deleted, deleted, h, arrived, k)
  {
    hide Summary, HourFloor, Older;
  }

  // ---- the retainer ----

  class Retainer {
    const db: TrafficDb
    const minuteRetentionDays: int
    const hourlyRetentionDays: int

    function MinuteDays(): (days: int)
      ensures days > 0
    {
      if minuteRetentionDays > 0 then minuteRetentionDays else MINUTE_RETENTION_DAYS
    }

    function HourlyDays(): (days: int)
      ensures days > 0
    {
      if hourlyRetentionDays > 0 then hourlyRetentionDays else HOURLY_RETENTION_DAYS
    }

    constructor (db: TrafficDb, minuteDays: int, hourlyDays: int)
      ensures this.db == db && minuteRetentionDays == minuteDays && hourlyRetentionDays == hourlyDays
    {
      this.db := db;
      minuteRetentionDays, hourlyRetentionDays := minuteDays, hourlyDays;
    }

    /** AggregateOldSamples: the hours of the old samples get a row each, in place of any
        row they had, and no other row changes. */
    method AggregateOldSamples(cutoff: int, fails: bool) returns (ok: bool)
      modifies db`hourly
      ensures ok == !fails
      ensures !ok ==> db.hourly == old(db.hourly)
      ensures ok ==> forall k ::
                (k in db.hourly <==> k in old(db.hourly) || Retires(db.samples, cutoff, k))
      ensures ok ==> forall k :: k in db.hourly ==>
                if Retires(db.samples, cutoff, k)
                then db.hourly[k] == Summary(Older(db.samples, cutoff), k)
                else k in old(db.hourly) && db.hourly[k] == old(db.hourly)[k]
    {
      if fails {
        return false;
      }
      hide GroupsOf, Older, KeyOf, Plus, RowTotals, Summary, Retires;
      var groups: map<HourKey, Totals> := map[];
      var i := 0;
      NoGroups(cutoff);
      while i < |db.samples|
        invariant 0 <= i <= |db.samples| && db.hourly == old(db.hourly)
        invariant GroupsOf(groups, Older(db.samples[..i], cutoff))
      {
        var r := db.samples[i];
        OlderOneMore(db.samples, i, cutoff);
        if r.ts < cutoff {
          var k := KeyOf(r);
          GroupOneMore(groups, Older(db.samples[..i], cutoff), r);
          groups := groups[k := Plus(if k in groups then groups[k] else NOTHING, RowTotals(r))];
        }
        i := i + 1;
      }
      assert db.samples[..i] == db.samples;
      OverlayByKey(db.samples, cutoff, db.hourly, groups);
      db.hourly := db.hourly + groups;
      return true;
    }

    /** DeleteOldSamples: exactly the rows before the cutoff go, each as often as it was
        there, and the others keep their order. */
    method DeleteOldSamples(cutoff: int, fails: bool) returns (ok: bool)
      modifies db`samples
      ensures ok == !fails
      ensures !ok ==> db.samples == old(db.samples)
      ensures ok ==> db.samples == Newer(old(db.samples), cutoff)
      ensures ok ==> forall r :: multiset(db.samples)[r]
                                 == if r.ts >= cutoff then multiset(old(db.samples))[r] else 0
    {
      if fails {
        return false;
      }
      ghost var was := db.samples;
      var kept: seq<SampleRow> := [];
      for i := 0 to |db.samples|
        invariant db.samples == was
        invariant kept == Newer(db.samples[..i], cutoff)
      {
        assert db.samples[..i + 1][..i] == db.samples[..i];
        if db.samples[i].ts >= cutoff {
          kept := kept + [db.samples[i]];
        }
      }
      assert db.samples[..|db.samples|] == db.samples;
      db.samples := kept;
      forall r: SampleRow
        ensures multiset(kept)[r] == if r.ts >= cutoff then multiset(was)[r] else 0
      {
        SplitMembers(was, cutoff, r);
      }
      return true;
    }

    /** DeleteOldHourly: exactly the rows of hours before the cutoff go, and the others
        keep their totals. */
    method DeleteOldHourly(cutoff: int, fails: bool) returns (ok: bool)
      modifies db`hourly
      ensures ok == !fails
      ensures !ok ==> db.hourly == old(db.hourly)
      ensures ok ==> forall k :: k in db.hourly <==> k in old(db.hourly) && k.hourTs >= cutoff
      ensures ok ==> forall k :: k in db.hourly ==> db.hourly[k] == old(db.hourly)[k]
    {
      if fails {
        return false;
      }
      ghost var was := db.hourly;
      var pending := db.hourly.Keys;
      while pending != {}
        invariant pending <= was.Keys
        invariant forall k :: k in db.hourly <==> k in was && (k in pending || k.hourTs >= cutoff)
        invariant forall k :: k in db.hourly ==> db.hourly[k] == was[k]
        decreases |pending|
      {
        var k :| k in pending;
        pending := pending - {k};
        if k.hourTs < cutoff {
          db.hourly := db.hourly - {k};
        }
      }
      return true;
    }

    method DeleteOldOps(cutoff: int, fails: bool) returns (ok: bool)
      modifies db`opsSamples
      ensures ok == !fails
      ensures ok ==> forall ts :: ts in db.opsSamples <==> ts in old(db.opsSamples) && ts >= cutoff
      ensures !ok ==> db.opsSamples == old(db.opsSamples)
    {
      if fails {
        return false;
      }
      var kept := [];
      for i := 0 to |db.opsSamples|
        invariant db.opsSamples == old(db.opsSamples)
        invariant forall ts :: ts in kept <==> ts in db.opsSamples[..i] && ts >= cutoff
      {
        assert db.opsSamples[..i + 1] == db.opsSamples[..i] + [db.opsSamples[i]];
        if db.opsSamples[i] >= cutoff {
          kept := kept + [db.opsSamples[i]];
        }
      }
      assert db.opsSamples[..|db.opsSamples|] == db.opsSamples;
      db.opsSamples := kept;
      return true;
    }

    /** Run: `failing` is the number of the first step whose transaction fails, 4 or more
        for none. It touches neither the daily totals nor the baselines. */
    method Run(now: int, failing: nat) returns (ok: bool)
      modifies db`samples, db`hourly, db`opsSamples
      ensures var m := now - MinuteDays() * 86400;
              var h := now - HourlyDays() * 86400;
              && (ok <==> failing >= 4)
              && db.Contents() == Retained(old(db.Contents()), m, h, failing)
              && (ok ==> forall ts :: ts in db.opsSamples <==> ts in old(db.opsSamples) && ts >= m)
              && (!ok ==> db.opsSamples == old(db.opsSamples))
    {
      hide Keys, Older, Newer, Summary, Retires, Aggregated, WithoutOldHourly;
      var minuteCutoff := now - MinuteDays() * 86400;
      var hourlyCutoff := now - HourlyDays() * 86400;
      ghost var t := db.Contents();
      ok := AggregateOldSamples(minuteCutoff, failing == 0);
      if !ok { return; }
      GroupsAreOfOldSamples(t.samples, minuteCutoff);
      AggregatedByKey(t, minuteCutoff, db.hourly);
      ok := DeleteOldSamples(minuteCutoff, failing == 1);
      if !ok { return; }
      ok := DeleteOldHourly(hourlyCutoff, failing == 2);
      if !ok { return; }
      ExpiredByKey(WithoutOldSamples(Aggregated(t, minuteCutoff), minuteCutoff), hourlyCutoff, db.hourly);
      ok := DeleteOldOps(minuteCutoff, failing == 3);
    }
  }

  lemma OverlayByKey(rows: seq<SampleRow>, cutoff: int, table: map<HourKey, Totals>, groups: map<HourKey, Totals>)
    requires GroupsOf(groups, Older(rows, cutoff))
    ensures var after := table + groups;
            && (forall k :: k in after <==> k in table || Retires(rows, cutoff, k))
            && (forall k :: k in after ==>
                  if Retires(rows, cutoff, k) then after[k] == Summary(Older(rows, cutoff), k)
                  else k in table && after[k] == table[k])
  {
    hide Keys, Older, Summary, Retires;
    GroupsAreOfOldSamples(rows, cutoff);
  }

  lemma ExpiredByKey(t: Tables, cutoff: int, hourly: map<HourKey, Totals>)
    requires forall k :: k in hourly <==> k in t.hourly && k.hourTs >= cutoff
    requires forall k :: k in hourly ==> hourly[k] == t.hourly[k]
    ensures t.(hourly := hourly) == WithoutOldHourly(t, cutoff)
  {
  }

  lemma AggregatedByKey(t: Tables, cutoff: int, hourly: map<HourKey, Totals>)
    requires forall k :: k in hourly <==> k in t.hourly || Retires(t.samples, cutoff, k)
    requires forall k :: k in hourly ==>
               if Retires(t.samples, cutoff, k) then hourly[k] == Summary(Older(t.samples, cutoff), k)
               else k in t.hourly && hourly[k] == t.hourly[k]
    ensures t.(hourly := hourly) == Aggregated(t, cutoff)
  {
    hide Keys, Older, Summary, Retires;
    GroupsAreOfOldSamples(t.samples, cutoff);
  }

  /** Two runs of a retainer with the default horizons, the first at any second that is not
      the first of its hour: of two samples of one user and hour one second apart, the bytes
      of the earlier are in no table afterwards. */
  method TwoRunsLoseBytes(r: Retainer, now: int, later: int, a: SampleRow, b: SampleRow)
    requires r.minuteRetentionDays <= 0 && r.hourlyRetentionDays <= 0
    requires now > MINUTE_RETENTION_DAYS * 86400 && now % 3600 != 0
    requires now + 3600 <= later <= now + 22 * 86400
    requires r.db.samples == [a, b] && a.userLabel == b.userLabel && a.connections >= 0 && b.connections >= 0
    requires a.ts == now - MINUTE_RETENTION_DAYS * 86400 - 1 && b.ts == a.ts + 1
    modifies r.db
    ensures KeyOf(a) == KeyOf(b)
    ensures Reported(r.db.Contents(), KeyOf(a)) == RowTotals(b)
  {
    hide Cycle, Reported, KeyOf, RowTotals, Summary;
    TwoCyclesLoseBytes(r.db.Contents(), now, later, a, b);
    var _ := r.Run(now, 4);
    var _ := r.Run(later, 4);
  }

  /** The groups of a GROUP BY over some rows. */
  ghost predicate GroupsOf(groups: map<HourKey, Totals>, rows: seq<SampleRow>) {
    groups.Keys == Keys(rows) && forall k :: k in groups ==> groups[k] == Summary(rows, k)
  }

  lemma NoGroups(cutoff: int)
    ensures GroupsOf(map[], Older([], cutoff))
  {
  }

  lemma OlderOneMore(rows: seq<SampleRow>, i: nat, cutoff: int)
    requires i < |rows|
    ensures var before := Older(rows[..i], cutoff);
            Older(rows[..i + 1], cutoff) == if rows[i].ts < cutoff then before + [rows[i]] else before
  {
    assert rows[..i + 1][..i] == rows[..i];
  }

  lemma GroupOneMore(groups: map<HourKey, Totals>, rows: seq<SampleRow>, r: SampleRow)
    requires GroupsOf(groups, rows)
    ensures var k := KeyOf(r);
            GroupsOf(groups[k := Plus(if k in groups then groups[k] else NOTHING, RowTotals(r))], rows + [r])
  {
    hide KeyOf, Plus, RowTotals, Summary;
    assert Keys(rows + [r]) == Keys(rows) + {KeyOf(r)} by {
      KeysOneMore(rows, r);
    }
    hide Keys;
    forall k
      ensures Summary(rows + [r], k) == if KeyOf(r) == k then Plus(Summary(rows, k), RowTotals(r)) else Summary(rows, k)
    {
      SummaryAppend(rows, r, k);
    }
    if KeyOf(r) !in groups {
      SummaryOfAbsent(rows, KeyOf(r));
    }
  }

  lemma KeysOneMore(rows: seq<SampleRow>, r: SampleRow)
    ensures Keys(rows + [r]) == Keys(rows) + {KeyOf(r)}
  {
    hide KeyOf;
  }

  lemma GroupsAreOfOldSamples(rows: seq<SampleRow>, cutoff: int)
    ensures forall k :: k in Keys(Older(rows, cutoff)) <==> Retires(rows, cutoff, k)
  {
    hide KeyOf, Older;
    forall r: SampleRow
      ensures r in Older(rows, cutoff) <==> r in rows && r.ts < cutoff
    {
      SplitMembers(rows, cutoff, r);
    }
  }

  /** By default a sample stays for seven days and an hour for thirty: after a run no sample
      and no hourly row is older, and none that is younger is gone. */
  method DefaultRunKeeps(r: Retainer, now: int)
    requires r.minuteRetentionDays <= 0 && r.hourlyRetentionDays <= 0
    modifies r.db
    ensures forall row :: multiset(r.db.samples)[row]
                          == if row.ts >= now - 604800 then multiset(old(r.db.samples))[row] else 0
    ensures forall k :: k in r.db.hourly ==> k.hourTs >= now - 2592000
    ensures forall k :: k in old(r.db.hourly) && k.hourTs >= now - 2592000 ==> k in r.db.hourly
  {
    hide Summary, Keys, Older;
    ghost var was := r.db.samples;
    var _ := r.Run(now, 4);
    assert r.db.samples == Newer(was, now - 604800);
    forall row: SampleRow
      ensures multiset(r.db.samples)[row] == if row.ts >= now - 604800 then multiset(was)[row] else 0
    {
      SplitMembers(was, now - 604800, row);
    }
  }
}
