/** The traffic sampler: cumulative per-user counters scraped from the proxy become
    per-scrape deltas, accumulated by day for the quota engine. */
module Traffic {
  import opened GoArithmetic
  import opened Options
  import opened TrafficTotals

  /** One scraped user: cumulative counters since the proxy started. */
  datatype Sample = Sample(userLabel: string, bytesIn: int, bytesOut: int, connections: int)

  /** A row of traffic_samples: what was added since the previous scrape. */
  datatype SampleRow = SampleRow(userLabel: string, ts: int, bytesIn: int, bytesOut: int, connections: int)

  /** A row of traffic_daily. */
  datatype DayRow = DayRow(userLabel: string, dayTs: int, bytesIn: int, bytesOut: int, connections: int)

  /** The key of a row of traffic_hourly. */
  datatype HourKey = HourKey(userLabel: string, hourTs: int)

  /** A row of traffic_counters: the baseline the next delta is taken against. */
  datatype Counter = Counter(bytesIn: int, bytesOut: int, updatedTs: int)

  /** A delta that was stored, with the scrape it came from. No table keeps this history:
      it is what the tables are measured against. */
  datatype Recorded = Recorded(row: SampleRow, sample: Sample)

  datatype Tables = Tables(
    samples: seq<SampleRow>,
    hourly: map<HourKey, Totals>,
    daily: seq<DayRow>,
    counters: map<string, Counter>,
    log: seq<Recorded>)

  const NO_TABLES := Tables([], map[], [], map[], [])

  datatype Direction = In | Out

  function Bytes(row: SampleRow, dir: Direction): int {
    if dir == In then row.bytesIn else row.bytesOut
  }

  function Cumulative(s: Sample, dir: Direction): int {
    if dir == In then s.bytesIn else s.bytesOut
  }

  // ---- one scrape ----

  /** The growth of one counter; a counter below its baseline was reset. */
  function Growth(cur: int, prev: int): int {
    if cur >= prev then cur - prev else cur
  }

  /** counterDelta: the stored deltas of a sample. */
  function CounterDelta(counters: map<string, Counter>, s: Sample): (int, int) {
    if s.userLabel !in counters then (s.bytesIn, s.bytesOut)
    else
      var prev := counters[s.userLabel];
      (Growth(s.bytesIn, prev.bytesIn), Growth(s.bytesOut, prev.bytesOut))
  }

  predicate SameDay(r: DayRow, d: DayRow) {
    r.userLabel == d.userLabel && r.dayTs == d.dayTs
  }

  function Merged(r: DayRow, d: DayRow): DayRow {
    r.(bytesIn := r.bytesIn + d.bytesIn, bytesOut := r.bytesOut + d.bytesOut,
       connections := Max(r.connections, d.connections))
  }

  /** INSERT ... ON CONFLICT(user_label, day_ts) DO UPDATE on traffic_daily. */
  function UpsertDay(daily: seq<DayRow>, d: DayRow): seq<DayRow> {
    if daily == [] then [d]
    else if SameDay(daily[0], d) then [Merged(daily[0], d)] + daily[1..]
    else [daily[0]] + UpsertDay(daily[1..], d)
  }

  predicate HasSample(samples: seq<SampleRow>, user: string, ts: int) {
    exists i :: 0 <= i < |samples| && samples[i].userLabel == user && samples[i].ts == ts
  }

  /** The effect of one sample of a scrape. A second row for the same user and
      instant is skipped, and then neither the daily total nor the baseline moves. */
  function StoreSample(t: Tables, s: Sample, ts: int): Tables {
    if HasSample(t.samples, s.userLabel, ts) then t
    else
      var (deltaIn, deltaOut) := CounterDelta(t.counters, s);
      var row := SampleRow(s.userLabel, ts, deltaIn, deltaOut, s.connections);
      t.(samples := t.samples + [row],
         daily := UpsertDay(t.daily, DayRow(s.userLabel, DayFloor(ts), deltaIn, deltaOut, s.connections)),
         counters := t.counters[s.userLabel := Counter(s.bytesIn, s.bytesOut, ts)],
         log := t.log + [Recorded(row, s)])
  }

  /** The effect of a whole scrape. */
  function StoreBatch(t: Tables, batch: seq<Sample>, ts: int): Tables {
    if batch == [] then t
    else StoreSample(StoreBatch(t, batch[..|batch| - 1], ts), batch[|batch| - 1], ts)
  }

  // ---- conservation ----

  /** All bytes ever recorded for a user. */
  function SumRecorded(log: seq<Recorded>, user: string, dir: Direction): int {
    if log == [] then 0
    else
      var e := log[|log| - 1];
      SumRecorded(log[..|log| - 1], user, dir)
      + (if e.row.userLabel == user then Bytes(e.row, dir) else 0)
  }

  /** The cumulative value in the latest scrape that was recorded for a user. */
  function LastSeen(log: seq<Recorded>, user: string, dir: Direction): int {
    if log == [] then 0
    else
      var e := log[|log| - 1];
      if e.row.userLabel == user then Cumulative(e.sample, dir)
      else LastSeen(log[..|log| - 1], user, dir)
  }

  /** The sum of the values from which the counter was seen to drop. */
  function SumDropped(log: seq<Recorded>, user: string, dir: Direction): int {
    if log == [] then 0
    else
      var e := log[|log| - 1];
      var before := log[..|log| - 1];
      var prev := LastSeen(before, user, dir);
      SumDropped(before, user, dir)
      + (if e.row.userLabel == user && Cumulative(e.sample, dir) < prev then prev else 0)
  }

  function Baseline(counters: map<string, Counter>, user: string, dir: Direction): int {
    if user !in counters then 0
    else if dir == In then counters[user].bytesIn
    else counters[user].bytesOut
  }

  /** What was recorded is the baseline plus the baseline at every observed drop. */
  ghost predicate Conserved(t: Tables, user: string, dir: Direction) {
    && Baseline(t.counters, user, dir) == LastSeen(t.log, user, dir)
    && SumRecorded(t.log, user, dir)
       == Baseline(t.counters, user, dir) + SumDropped(t.log, user, dir)
  }

  lemma StoreSampleConserves(t: Tables, s: Sample, ts: int, user: string, dir: Direction)
    requires Conserved(t, user, dir)
    ensures Conserved(StoreSample(t, s, ts), user, dir)
  {
  }

  lemma {:induction false} StoreBatchConserves(t: Tables, batch: seq<Sample>, ts: int, user: string, dir: Direction)
    requires Conserved(t, user, dir)
    ensures Conserved(StoreBatch(t, batch, ts), user, dir)
    decreases |batch|
  {
    if batch != [] {
      var before := batch[..|batch| - 1];
      StoreBatchConserves(t, before, ts, user, dir);
      StoreSampleConserves(StoreBatch(t, before, ts), batch[|batch| - 1], ts, user, dir);
    }
  }

  // ---- the daily index ----

  /** The SUM of Recalculate over traffic_daily. */
  function Usage(daily: seq<DayRow>, user: string, since: int): int {
    if daily == [] then 0
    else
      (if daily[0].userLabel == user && daily[0].dayTs >= since
       then daily[0].bytesIn + daily[0].bytesOut else 0)
      + Usage(daily[1..], user, since)
  }

  /** The bytes of every delta ever recorded at or after an instant. */
  function ExactUsage(log: seq<Recorded>, user: string, since: int): int {
    if log == [] then 0
    else
      var e := log[|log| - 1].row;
      ExactUsage(log[..|log| - 1], user, since)
      + (if e.userLabel == user && e.ts >= since then e.bytesIn + e.bytesOut else 0)
  }

  /** The daily row a history should have produced for one user and day. */
  function DaySummary(log: seq<Recorded>, user: string, day: int): Option<DayRow> {
    if log == [] then None
    else
      var e := log[|log| - 1].row;
      var before := DaySummary(log[..|log| - 1], user, day);
      if e.userLabel != user || DayFloor(e.ts) != day then before
      else
        var d := DayRow(user, day, e.bytesIn, e.bytesOut, e.connections);
        if before.None? then Some(d) else Some(Merged(before.value, d))
  }

  function FindDay(daily: seq<DayRow>, user: string, day: int): Option<DayRow> {
    if daily == [] then None
    else if daily[0].userLabel == user && daily[0].dayTs == day then Some(daily[0])
    else FindDay(daily[1..], user, day)
  }

  lemma {:induction false} UpsertDayAddsToUsage(daily: seq<DayRow>, d: DayRow, user: string, since: int)
    ensures Usage(UpsertDay(daily, d), user, since)
            == Usage(daily, user, since)
               + if d.userLabel == user && d.dayTs >= since then d.bytesIn + d.bytesOut else 0
    decreases |daily|
  {
    if daily == [] {
    } else if SameDay(daily[0], d) {
    } else {
      UpsertDayAddsToUsage(daily[1..], d, user, since);
    }
  }

  lemma {:induction false} UpsertDayFind(daily: seq<DayRow>, d: DayRow, user: string, day: int)
    ensures var was := FindDay(daily, user, day);
            FindDay(UpsertDay(daily, d), user, day)
            == if d.userLabel != user || d.dayTs != day then was
               else if was.None? then Some(d) else Some(Merged(was.value, d))
    decreases |daily|
  {
    if daily == [] {
    } else if SameDay(daily[0], d) {
    } else {
      UpsertDayFind(daily[1..], d, user, day);
    }
  }

  /** The usage a period start yields is exact, for every history. */
  ghost predicate UsageExact(t: Tables, user: string, since: int) {
    Usage(t.daily, user, since) == ExactUsage(t.log, user, since)
  }

  ghost predicate DayExact(t: Tables, user: string, day: int) {
    FindDay(t.daily, user, day) == DaySummary(t.log, user, day)
  }

  lemma StoreSampleKeepsIndex(t: Tables, s: Sample, ts: int, user: string, since: int, day: int)
    requires since > 0 && since % 86400 == 0
    requires UsageExact(t, user, since) && DayExact(t, user, day)
    ensures UsageExact(StoreSample(t, s, ts), user, since)
    ensures DayExact(StoreSample(t, s, ts), user, day)
  {
    var t' := StoreSample(t, s, ts);
    if !HasSample(t.samples, s.userLabel, ts) {
      assert t'.log[..|t'.log| - 1] == t.log;
      var e := t'.log[|t'.log| - 1].row;
      var d := DayRow(s.userLabel, DayFloor(ts), e.bytesIn, e.bytesOut, s.connections);
      UpsertDayAddsToUsage(t.daily, d, user, since);
      UpsertDayFind(t.daily, d, user, day);
      DayFloorKeepsBoundary(ts, since);
    }
  }

  lemma {:induction false} StoreBatchKeepsIndex(t: Tables, batch: seq<Sample>, ts: int,
                                                user: string, since: int, day: int)
    requires since > 0 && since % 86400 == 0
    requires UsageExact(t, user, since) && DayExact(t, user, day)
    ensures UsageExact(StoreBatch(t, batch, ts), user, since)
    ensures DayExact(StoreBatch(t, batch, ts), user, day)
    decreases |batch|
  {
    if batch != [] {
      var before := batch[..|batch| - 1];
      StoreBatchKeepsIndex(t, before, ts, user, since, day);
      StoreSampleKeepsIndex(StoreBatch(t, before, ts), batch[|batch| - 1], ts, user, since, day);
    }
  }

  // ---- the store function ----

  class TrafficDb {
    var samples: seq<SampleRow>
    var hourly: map<HourKey, Totals>
    var daily: seq<DayRow>
    var counters: map<string, Counter>
    /** The instants of the rows of ops_samples. */
    var opsSamples: seq<int>
    ghost var log: seq<Recorded>

    ghost function Contents(): Tables
      reads this
    {
      Tables(samples, hourly, daily, counters, log)
    }

    constructor ()
      ensures Contents() == NO_TABLES && opsSamples == []
    {
      samples, hourly, daily, counters, opsSamples := [], map[], [], map[], [];
      log := [];
    }

    /** counterDelta: growth since the baseline, or the whole counter after a reset. */
    method Delta(s: Sample) returns (deltaIn: int, deltaOut: int)
      ensures (deltaIn, deltaOut) == CounterDelta(counters, s)
      ensures forall dir ::
                var delta := if dir == In then deltaIn else deltaOut;
                var baseline := Baseline(counters, s.userLabel, dir);
                && (delta == Cumulative(s, dir) - baseline || delta == Cumulative(s, dir))
                && (0 <= baseline && 0 <= Cumulative(s, dir) ==> 0 <= delta <= Cumulative(s, dir))
    {
      deltaIn, deltaOut := s.bytesIn, s.bytesOut;
      if s.userLabel in counters {
        var prev := counters[s.userLabel];
        if s.bytesIn >= prev.bytesIn {
          deltaIn := s.bytesIn - prev.bytesIn;
        }
        if s.bytesOut >= prev.bytesOut {
          deltaOut := s.bytesOut - prev.bytesOut;
        }
      }
    }

    /** The statements of one sample. */
    method StoreOne(s: Sample, ts: int)
      modifies this`samples, this`daily, this`counters, this`log
      ensures Contents() == StoreSample(old(Contents()), s, ts)
    {
      hide UpsertDay, HasSample, DayFloor, CounterDelta;
      var deltaIn, deltaOut := Delta(s);
      if !HasSample(samples, s.userLabel, ts) {
        var row := SampleRow(s.userLabel, ts, deltaIn, deltaOut, s.connections);
        samples := samples + [row];
        daily := UpsertDay(daily, DayRow(s.userLabel, DayFloor(ts), deltaIn, deltaOut, s.connections));
        counters := counters[s.userLabel := Counter(s.bytesIn, s.bytesOut, ts)];
        log := log + [Recorded(row, s)];
      }
    }

    /** DBStoreFn. `failure` is the index of the sample whose statements fail, or the
        batch length for a failing commit; then the transaction is rolled back. */
    method Store(batch: seq<Sample>, ts: int, failure: Option<nat>) returns (ok: bool)
      modifies this`samples, this`daily, this`counters, this`log
      ensures ok <==> batch == [] || failure.None? || failure.value > |batch|
      ensures Contents() == if ok then StoreBatch(old(Contents()), batch, ts) else old(Contents())
    {
      hide StoreSample;
      if |batch| == 0 {
        return true;
      }
      var samples0, daily0, counters0 := samples, daily, counters;
      ghost var log0 := log;
      var i := 0;
      while i < |batch|
        invariant 0 <= i <= |batch|
        invariant failure.None? || failure.value >= i
        invariant Contents() == StoreBatch(old(Contents()), batch[..i], ts)
      {
        assert batch[..i + 1][..i] == batch[..i];
        if failure == Some(i) {
          samples, daily, counters := samples0, daily0, counters0;
          log := log0;
          return false;
        }
        StoreOne(batch[i], ts);
        i := i + 1;
      }
      assert batch[..|batch|] == batch;
      if failure == Some(|batch|) {
        samples, daily, counters := samples0, daily0, counters0;
        log := log0;
        return false;
      }
      return true;
    }
  }
}
