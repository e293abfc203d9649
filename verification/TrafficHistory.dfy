/** Whole histories of the traffic tables: scrapes in any order with retention cycles, each
    of which may fail at any step. Samples, hourly rows, daily rows and baselines are all
    measured against the one history of recorded deltas. */
module TrafficHistory {
  import opened GoArithmetic
  import opened Options
  import opened Retention
  import opened Traffic

  datatype Event =
    | Scrape(batch: seq<Sample>, ts: int)
    | Retain(minuteCutoff: int, hourlyCutoff: int, failing: nat)

  function Happens(t: Tables, e: Event): Tables {
    match e
    case Scrape(batch, ts) => StoreBatch(t, batch, ts)
    case Retain(m, h, failing) => Retained(t, m, h, failing)
  }

  function After(events: seq<Event>): Tables {
    if events == [] then NO_TABLES else Happens(After(events[..|events| - 1]), events[|events| - 1])
  }

  /** Retention changes neither the daily totals nor the baselines. */
  lemma RetentionLeavesUsageAlone(t: Tables, m: int, h: int, failing: nat)
    ensures var t' := Retained(t, m, h, failing);
            t'.daily == t.daily && t'.counters == t.counters && t'.log == t.log
  {
    hide Older, Newer, Summary;
  }

  // ---- counters and the daily index ----

  /** Over any history, resets, repeated timestamps and retention included, each direction
      records exactly the stored baseline plus the value at each observed drop. */
  lemma {:induction false} CounterConservation(events: seq<Event>, user: string, dir: Direction)
    ensures Conserved(After(events), user, dir)
    decreases |events|
  {
    hide Retained, StoreBatch;
    if events != [] {
      var before := After(events[..|events| - 1]);
      CounterConservation(events[..|events| - 1], user, dir);
      match events[|events| - 1]
      case Scrape(batch, ts) => StoreBatchConserves(before, batch, ts, user, dir);
      case Retain(m, h, failing) => RetentionLeavesUsageAlone(before, m, h, failing);
    }
  }

  /** In every reachable state the daily index holds, for each user and day, the sums
      and the connection maximum of that day's history, and the usage since a day
      boundary equals the sum of every delta recorded from that instant on. */
  lemma {:induction false} DailyIndexExact(events: seq<Event>, user: string, since: int, day: int)
    requires since > 0 && since % 86400 == 0
    ensures UsageExact(After(events), user, since)
    ensures DayExact(After(events), user, day)
    decreases |events|
  {
    hide Retained, StoreBatch;
    if events != [] {
      var before := After(events[..|events| - 1]);
      DailyIndexExact(events[..|events| - 1], user, since, day);
      match events[|events| - 1]
      case Scrape(batch, ts) => StoreBatchKeepsIndex(before, batch, ts, user, since, day);
      case Retain(m, h, failing) => RetentionLeavesUsageAlone(before, m, h, failing);
    }
  }

  /** For a period start in the middle of a day one scrape at that very instant is
      already miscounted. */
  lemma UnalignedStartMiscounts(user: string, since: int)
    requires since > 0 && since % 86400 != 0
    ensures !UsageExact(After([Scrape([Sample(user, 1, 0, 1)], since)]), user, since)
  {
    var batch := [Sample(user, 1, 0, 1)];
    var events := [Scrape(batch, since)];
    UnalignedBoundaryMisfiles(since);
    assert events[..0] == [] && batch[..0] == [];
    assert After([]) == NO_TABLES;
    assert StoreBatch(NO_TABLES, [], since) == NO_TABLES;
    var t := After(events);
    assert t == StoreSample(NO_TABLES, batch[0], since);
    assert t.daily == [DayRow(user, DayFloor(since), 1, 0, 1)];
    assert t.daily[1..] == [] && |t.log| == 1 && t.log[..0] == [];
    assert Usage(t.daily, user, since) == 0;
    assert ExactUsage(t.log, user, since) == 1;
  }

  /** Snapping period starts to the day is exactly what the usage sum needs: a
      positive start counts every history correctly if and only if it is a day boundary. */
  lemma UsageExactIffAligned(user: string, since: int)
    requires since > 0
    ensures since % 86400 == 0 <==> forall events: seq<Event> :: UsageExact(After(events), user, since)
  {
    if since % 86400 == 0 {
      forall events: seq<Event>
        ensures UsageExact(After(events), user, since)
      {
        DailyIndexExact(events, user, since, 0);
      }
    } else {
      UnalignedStartMiscounts(user, since);
    }
  }

  // ---- against a proxy that restarts ----

  /** What can happen to one user's counter, and to the tables in between. */
  datatype ProxyEvent =
    | Transfer(bytes: nat)
    | Restart
    | ScrapeUser(ts: int, other: nat, connections: int)
    | ScrapeOther(sample: Sample, ts: int)
    | RetainTables(minuteCutoff: int, hourlyCutoff: int, failing: nat)

  /** The proxy's counter for one user and direction, the bytes truly transferred, and
      whether the proxy ever restarted. */
  datatype World = World(t: Tables, counter: nat, truth: nat, restarted: bool)

  const NEW_WORLD := World(NO_TABLES, 0, 0, false)

  function UserSample(w: World, user: string, dir: Direction, other: nat, connections: int): Sample {
    if dir == In then Sample(user, w.counter, other, connections)
    else Sample(user, other, w.counter, connections)
  }

  function Step(w: World, e: ProxyEvent, user: string, dir: Direction): World {
    match e
    case Transfer(n) => w.(counter := w.counter + n, truth := w.truth + n)
    case Restart => w.(counter := 0, restarted := true)
    case ScrapeUser(ts, other, connections) =>
      w.(t := StoreSample(w.t, UserSample(w, user, dir, other, connections), ts))
    case ScrapeOther(s, ts) =>
      if s.userLabel == user then w else w.(t := StoreSample(w.t, s, ts))
    case RetainTables(m, h, failing) => w.(t := Retained(w.t, m, h, failing))
  }

  function AfterSteps(steps: seq<ProxyEvent>, user: string, dir: Direction): World {
    if steps == [] then NEW_WORLD
    else Step(AfterSteps(steps[..|steps| - 1], user, dir), steps[|steps| - 1], user, dir)
  }

  /** What is recorded, together with what the next scrape would add, stays within the
      bytes truly transferred, and equals them until the proxy first restarts. */
  ghost predicate Honest(w: World, user: string, dir: Direction) {
    var recorded := SumRecorded(w.t.log, user, dir);
    var base := Baseline(w.t.counters, user, dir);
    && base >= 0
    && recorded >= 0
    && recorded + Growth(w.counter, base) <= w.truth
    && (!w.restarted ==> base <= w.counter && recorded + Growth(w.counter, base) == w.truth)
  }

  lemma StoreSampleTotals(t: Tables, s: Sample, ts: int, user: string, dir: Direction)
    ensures var t' := StoreSample(t, s, ts);
            var base := Baseline(t.counters, user, dir);
            if HasSample(t.samples, s.userLabel, ts) then t' == t
            else if s.userLabel != user then
              && Baseline(t'.counters, user, dir) == base
              && SumRecorded(t'.log, user, dir) == SumRecorded(t.log, user, dir)
            else
              && Baseline(t'.counters, user, dir) == Cumulative(s, dir)
              && SumRecorded(t'.log, user, dir)
                 == SumRecorded(t.log, user, dir) + Growth(Cumulative(s, dir), base)
  {
    hide HasSample, UpsertDay, DayFloor;
    var t' := StoreSample(t, s, ts);
    if !HasSample(t.samples, s.userLabel, ts) {
      assert t'.log[..|t'.log| - 1] == t.log;
    }
  }

  lemma StepStaysHonest(w: World, e: ProxyEvent, user: string, dir: Direction)
    requires Honest(w, user, dir)
    ensures Honest(Step(w, e, user, dir), user, dir)
  {
    hide Retained, StoreSample, HasSample, SumRecorded;
    match e
    case Transfer(n) =>
    case Restart =>
    case ScrapeUser(ts, other, connections) =>
      StoreSampleTotals(w.t, UserSample(w, user, dir, other, connections), ts, user, dir);
    case ScrapeOther(s, ts) =>
      StoreSampleTotals(w.t, s, ts, user, dir);
    case RetainTables(m, h, failing) =>
      RetentionLeavesUsageAlone(w.t, m, h, failing);
  }

  /** Traffic is never counted twice, over every run of transfers, restarts, scrapes and
      retention cycles. */
  lemma {:induction false} NeverOvercounts(steps: seq<ProxyEvent>, user: string, dir: Direction)
    ensures Honest(AfterSteps(steps, user, dir), user, dir)
    decreases |steps|
  {
    if steps != [] {
      var before := steps[..|steps| - 1];
      NeverOvercounts(before, user, dir);
      StepStaysHonest(AfterSteps(before, user, dir), steps[|steps| - 1], user, dir);
    }
  }

  // ---- samples and hourly rows ----

  function Rows(log: seq<Recorded>): seq<SampleRow> {
    seq(|log|, i requires 0 <= i < |log| => log[i].row)
  }

  /** The cutoff of the latest cycle that deleted samples. */
  function Deleted(events: seq<Event>): int {
    if events == [] then 0
    else
      var e := events[|events| - 1];
      if e.Retain? && e.failing >= 2 then e.minuteCutoff else Deleted(events[..|events| - 1])
  }

  /** The cutoff of the latest cycle that wrote hourly rows. */
  function Folded(events: seq<Event>): int {
    if events == [] then 0
    else
      var e := events[|events| - 1];
      if e.Retain? && e.failing >= 1 then e.minuteCutoff else Folded(events[..|events| - 1])
  }

  /** The cutoff of the latest cycle that deleted hourly rows. */
  function Horizon(events: seq<Event>): int {
    if events == [] then 0
    else
      var e := events[|events| - 1];
      if e.Retain? && e.failing >= 3 then e.hourlyCutoff else Horizon(events[..|events| - 1])
  }

  /** Cutoffs are hour boundaries and never move back, and no sample arrives with a
      timestamp before those that were deleted. */
  ghost predicate Orderly(events: seq<Event>) {
    events == [] ||
    (var e := events[|events| - 1];
     var before := events[..|events| - 1];
     && Orderly(before)
     && match e
        case Scrape(_, ts) => ts >= Deleted(before)
        case Retain(m, h, _) => m % 3600 == 0 && Folded(before) <= m && Horizon(before) <= h)
  }

  lemma {:induction false} BatchStaysSound(t: Tables, batch: seq<Sample>, ts: int,
                                           deleted: int, folded: int, horizon: int, k: HourKey)
    requires Sound(t, deleted, folded, horizon, Rows(t.log), k) && ts >= deleted
    ensures Sound(StoreBatch(t, batch, ts), deleted, folded, horizon, Rows(StoreBatch(t, batch, ts).log), k)
    decreases |batch|
  {
    hide Sound;
    if batch != [] {
      var n := |batch| - 1;
      var before := StoreBatch(t, batch[..n], ts);
      BatchStaysSound(t, batch[..n], ts, deleted, folded, horizon, k);
      SampleStaysSound(before, batch[n], ts, deleted, folded, horizon, k);
    }
  }

  lemma SampleStaysSound(t: Tables, s: Sample, ts: int, deleted: int, folded: int, horizon: int, k: HourKey)
    requires Sound(t, deleted, folded, horizon, Rows(t.log), k) && ts >= deleted
    ensures Sound(StoreSample(t, s, ts), deleted, folded, horizon, Rows(StoreSample(t, s, ts).log), k)
  {
    hide Summary, Older, UpsertDay, HasSample, CounterDelta;
    if !HasSample(t.samples, s.userLabel, ts) {
      var t' := StoreSample(t, s, ts);
      var row := t'.samples[|t.samples|];
      assert Rows(t'.log) == Rows(t.log) + [row];
      ArriveStaysSound(t, row, deleted, folded, horizon, Rows(t.log), k);
    }
  }

  lemma RetainStaysSound(t: Tables, m: int, h: int, failing: nat,
                         deleted: int, folded: int, horizon: int, arrived: seq<SampleRow>, k: HourKey)
    requires Sound(t, deleted, folded, horizon, arrived, k)
    requires m % 3600 == 0 && folded <= m && horizon <= h
    ensures Sound(Retained(t, m, h, failing),
                  if failing >= 2 then m else deleted,
                  if failing >= 1 then m else folded,
                  if failing >= 3 then h else horizon, arrived, k)
  {
    hide Sound, Aggregated, WithoutOldSamples, WithoutOldHourly;
    if failing == 1 {
      AggregateStaysSound(t, m, deleted, folded, horizon, arrived, k);
    } else if failing >= 2 {
      DeleteStaysSound(t, m, deleted, folded, horizon, arrived, k);
      if failing >= 3 {
        ExpireStaysSound(WithoutOldSamples(Aggregated(t, m), m), h, m, horizon, arrived, k);
      }
    }
  }

  /** Retention conserves traffic. In every orderly history, whatever cycles failed half
      way, the table that counts for an hour at or after the horizon holds exactly the
      bytes and the connection maximum of all that was ever recorded for it. */
  lemma {:induction false} RetentionConserves(events: seq<Event>, k: HourKey)
    requires Orderly(events)
    ensures Sound(After(events), Deleted(events), Folded(events), Horizon(events), Rows(After(events).log), k)
    decreases |events|
  {
    hide Sound, Retained, StoreBatch;
    if events == [] {
      NothingIsSound(k);
    } else {
      var before := events[..|events| - 1];
      RetentionConserves(before, k);
      match events[|events| - 1]
      case Scrape(batch, ts) =>
        BatchStaysSound(After(before), batch, ts, Deleted(before), Folded(before), Horizon(before), k);
      case Retain(m, h, failing) =>
        RetentionLeavesUsageAlone(After(before), m, h, failing);
        RetainStaysSound(After(before), m, h, failing, Deleted(before), Folded(before), Horizon(before),
                         Rows(After(before).log), k);
    }
  }

  lemma NothingIsSound(k: HourKey)
    ensures Sound(NO_TABLES, 0, 0, 0, Rows([]), k)
  {
  }

  /** Once the latest cycle got past its deletion no hour is in both tables, and the two
      together report exactly what was recorded, whatever cycles failed before. */
  lemma SettledTablesReport(events: seq<Event>, k: HourKey)
    requires Orderly(events) && Folded(events) == Deleted(events)
    ensures var t := After(events);
            && (forall j :: j in t.hourly ==> j.hourTs < Deleted(events))
            && (forall r :: r in t.samples ==> KeyOf(r).hourTs >= Deleted(events))
            && (k.hourTs >= Horizon(events) ==> Reported(t, k) == Summary(Rows(t.log), k))
  {
    hide After, Summary, Reported, KeyOf;
    RetentionConserves(events, k);
    SettledReports(After(events), Deleted(events), Horizon(events), Rows(After(events).log), k);
  }

  // ---- a day's row, summed up ----

  /** The row of a day holds both directions summed over that day's rows of the user and
      their connection maximum; there is none exactly if the user has no row that day. */
  ghost predicate SumsDay(row: Option<DayRow>, rows: seq<SampleRow>, user: string, day: int) {
    && (row.Some? <==> exists i :: 0 <= i < |rows| && OnDay(rows[i], user, day))
    && (row.Some? ==>
          var d := row.value;
          && d.userLabel == user && d.dayTs == day
          && d.bytesIn == BytesBetween(rows, Some(user), day, day + 86400, In)
          && d.bytesOut == BytesBetween(rows, Some(user), day, day + 86400, Out)
          && (forall i :: 0 <= i < |rows| && OnDay(rows[i], user, day) ==> rows[i].connections <= d.connections)
          && (exists i :: 0 <= i < |rows| && OnDay(rows[i], user, day) && rows[i].connections == d.connections))
  }

  predicate OnDay(r: SampleRow, user: string, day: int) {
    r.userLabel == user && day <= r.ts < day + 86400
  }

  lemma {:induction false} SummarySumsDay(log: seq<Recorded>, user: string, day: int)
    requires day >= 0 && day % 86400 == 0 && forall i :: 0 <= i < |log| ==> log[i].row.ts >= 0
    ensures SumsDay(DaySummary(log, user, day), Rows(log), user, day)
    decreases |log|
  {
    hide DayFloor, SumsDay;
    if log == [] {
      NoDay(user, day);
    } else {
      var n := |log| - 1;
      var before := DaySummary(log[..n], user, day);
      SummarySumsDay(log[..n], user, day);
      InDay(log[n].row.ts, day);
      assert Rows(log) == Rows(log[..n]) + [log[n].row];
      OneMoreRow(before, Rows(log[..n]), log[n].row, user, day);
    }
  }

  lemma NoDay(user: string, day: int)
    ensures SumsDay(None, Rows([]), user, day)
  {
  }

  lemma {:induction false} NoBytes(rows: seq<SampleRow>, user: string, day: int, dir: Direction)
    requires forall i :: 0 <= i < |rows| ==> !OnDay(rows[i], user, day)
    ensures BytesBetween(rows, Some(user), day, day + 86400, dir) == 0
    decreases |rows|
  {
    if rows != [] {
      NoBytes(rows[..|rows| - 1], user, day, dir);
    }
  }

  lemma BytesOfMore(rows: seq<SampleRow>, r: SampleRow, user: string, day: int, dir: Direction)
    ensures BytesBetween(rows + [r], Some(user), day, day + 86400, dir)
            == BytesBetween(rows, Some(user), day, day + 86400, dir)
               + if OnDay(r, user, day) then (if dir == In then r.bytesIn else r.bytesOut) else 0
  {
    assert (rows + [r])[..|rows|] == rows;
  }

  lemma OneMoreRow(before: Option<DayRow>, rows: seq<SampleRow>, r: SampleRow, user: string, day: int)
    requires SumsDay(before, rows, user, day)
    ensures var d := DayRow(user, day, r.bytesIn, r.bytesOut, r.connections);
            var after := if before.None? then Some(d) else Some(Merged(before.value, d));
            SumsDay(if OnDay(r, user, day) then after else before, rows + [r], user, day)
  {
    hide BytesBetween;
    BytesOfMore(rows, r, user, day, In);
    BytesOfMore(rows, r, user, day, Out);
    var more := rows + [r];
    assert more[|rows|] == r;
    assert forall i :: 0 <= i < |rows| ==> more[i] == rows[i];
    if before.None? {
      NoBytes(rows, user, day, In);
      NoBytes(rows, user, day, Out);
    }
  }

  lemma InDay(ts: int, day: int)
    requires ts >= 0 && day >= 0 && day % 86400 == 0
    ensures DayFloor(ts) == day <==> day <= ts < day + 86400
  {
    var past := ts / 86400 - day / 86400;
    assert day == 86400 * (day / 86400);
    assert DayFloor(ts) == 86400 * (ts / 86400);
    assert DayFloor(ts) - day == 86400 * past;
  }

  /** In every reachable state the daily row of a user and day sums that day's rows. */
  lemma DailyRowsAreSums(events: seq<Event>, user: string, day: int)
    requires day >= 0 && day % 86400 == 0
    requires forall i :: 0 <= i < |After(events).log| ==> After(events).log[i].row.ts >= 0
    ensures SumsDay(FindDay(After(events).daily, user, day), Rows(After(events).log), user, day)
  {
    hide After, SumsDay, FindDay, DaySummary, Rows;
    DailyIndexExact(events, user, 86400, day);
    SummarySumsDay(After(events).log, user, day);
  }
}
