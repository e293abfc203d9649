/** What the tables record, told from the scrapes alone: no baseline, no table and no history
    kept by the store function is used. */
module ScrapeLog {
  import opened Options
  import opened Retention
  import opened Traffic
  import TrafficHistory
  import ChartHistory

  /** One sample as it was scraped. */
  datatype Scraped = Scraped(sample: Sample, ts: int)

  function OfBatch(batch: seq<Sample>, ts: int): seq<Scraped> {
    if batch == [] then [] else OfBatch(batch[..|batch| - 1], ts) + [Scraped(batch[|batch| - 1], ts)]
  }

  /** Everything that was scraped, in order. */
  function ScrapesOf(events: seq<TrafficHistory.Event>): seq<Scraped> {
    if events == [] then []
    else
      ScrapesOf(events[..|events| - 1])
      + match events[|events| - 1]
        case Scrape(batch, ts) => OfBatch(batch, ts)
        case Retain(_, _, _) => []
  }

  /** A user was scraped at an instant. */
  predicate Seen(scrapes: seq<Scraped>, user: string, ts: int) {
    exists i :: 0 <= i < |scrapes| && scrapes[i].sample.userLabel == user && scrapes[i].ts == ts
  }

  /** Of the samples of one user and instant the first. */
  function FirstOnes(scrapes: seq<Scraped>): seq<Scraped> {
    if scrapes == [] then []
    else
      var before, x := scrapes[..|scrapes| - 1], scrapes[|scrapes| - 1];
      FirstOnes(before) + if Seen(before, x.sample.userLabel, x.ts) then [] else [x]
  }

  /** The latest sample of a user. */
  function Latest(scrapes: seq<Scraped>, user: string): Option<Sample> {
    if scrapes == [] then None
    else
      var x := scrapes[|scrapes| - 1];
      if x.sample.userLabel == user then Some(x.sample) else Latest(scrapes[..|scrapes| - 1], user)
  }

  /** How far a counter has come since another reading of it; it starts over when the proxy
      restarts. */
  function Since(now: int, before: int): int {
    if now < before then now else now - before
  }

  /** The row of a sample, after those before it. */
  function RowOf(before: seq<Scraped>, x: Scraped): SampleRow {
    var s := x.sample;
    match Latest(before, s.userLabel)
    case None => SampleRow(s.userLabel, x.ts, s.bytesIn, s.bytesOut, s.connections)
    case Some(prev) =>
      SampleRow(s.userLabel, x.ts, Since(s.bytesIn, prev.bytesIn), Since(s.bytesOut, prev.bytesOut), s.connections)
  }

  function RowsOf(firsts: seq<Scraped>): seq<SampleRow> {
    if firsts == [] then []
    else RowsOf(firsts[..|firsts| - 1]) + [RowOf(firsts[..|firsts| - 1], firsts[|firsts| - 1])]
  }

  lemma {:induction false} SeenAmongFirst(scrapes: seq<Scraped>, user: string, ts: int)
    ensures Seen(FirstOnes(scrapes), user, ts) <==> Seen(scrapes, user, ts)
    decreases |scrapes|
  {
    hide Seen;
    if scrapes != [] {
      var before, x := scrapes[..|scrapes| - 1], scrapes[|scrapes| - 1];
      SeenAmongFirst(before, user, ts);
      assert scrapes == before + [x];
      SeenOneMore(before, x, user, ts);
      if Seen(before, x.sample.userLabel, x.ts) {
        assert FirstOnes(before) + [] == FirstOnes(before);
      } else {
        SeenOneMore(FirstOnes(before), x, user, ts);
      }
    } else {
      assert FirstOnes(scrapes) == scrapes;
    }
  }

  lemma SeenOneMore(scrapes: seq<Scraped>, x: Scraped, user: string, ts: int)
    ensures Seen(scrapes + [x], user, ts) <==> Seen(scrapes, user, ts) || (x.sample.userLabel == user && x.ts == ts)
  {
    var more := scrapes + [x];
    assert more[|scrapes|] == x;
    if Seen(scrapes, user, ts) {
      var i :| 0 <= i < |scrapes| && scrapes[i].sample.userLabel == user && scrapes[i].ts == ts;
      assert more[i] == scrapes[i];
    }
  }

  lemma FirstOnesOfMore(scrapes: seq<Scraped>, x: Scraped)
    ensures FirstOnes(scrapes + [x])
            == if Seen(scrapes, x.sample.userLabel, x.ts) then FirstOnes(scrapes) else FirstOnes(scrapes) + [x]
  {
    hide Seen;
    assert (scrapes + [x])[..|scrapes|] == scrapes;
    assert FirstOnes(scrapes) + [] == FirstOnes(scrapes);
  }

  lemma RowsOfMore(firsts: seq<Scraped>, x: Scraped)
    ensures RowsOf(firsts + [x]) == RowsOf(firsts) + [RowOf(firsts, x)]
  {
    hide RowOf;
    assert (firsts + [x])[..|firsts|] == firsts;
  }

  lemma LatestOfMore(firsts: seq<Scraped>, x: Scraped, user: string)
    ensures Latest(firsts + [x], user) == if x.sample.userLabel == user then Some(x.sample) else Latest(firsts, user)
  {
    assert (firsts + [x])[..|firsts|] == firsts;
  }

  lemma {:induction false} RowsAreOf(firsts: seq<Scraped>)
    ensures |RowsOf(firsts)| == |firsts|
    ensures forall i :: 0 <= i < |firsts| ==>
              RowsOf(firsts)[i].userLabel == firsts[i].sample.userLabel && RowsOf(firsts)[i].ts == firsts[i].ts
    decreases |firsts|
  {
    if firsts != [] {
      RowsAreOf(firsts[..|firsts| - 1]);
    }
  }

  // ---- the tables agree ----

  /** The baseline of every user is its latest sample. */
  ghost predicate BaselinesAgree(counters: map<string, Counter>, firsts: seq<Scraped>) {
    forall user ::
      match Latest(firsts, user)
      case None => user !in counters
      case Some(s) => user in counters && counters[user].bytesIn == s.bytesIn && counters[user].bytesOut == s.bytesOut
  }

  ghost predicate Agrees(t: Tables, scrapes: seq<Scraped>, deleted: int) {
    && TrafficHistory.Rows(t.log) == RowsOf(FirstOnes(scrapes))
    && BaselinesAgree(t.counters, FirstOnes(scrapes))
    && t.samples == Newer(TrafficHistory.Rows(t.log), deleted)
  }

  /** Among the samples that are left an instant is found exactly if it was scraped. */
  lemma FoundIffSeen(t: Tables, scrapes: seq<Scraped>, deleted: int, user: string, ts: int)
    requires Agrees(t, scrapes, deleted) && ts >= deleted
    ensures HasSample(t.samples, user, ts) <==> Seen(scrapes, user, ts)
  {
    hide FirstOnes, RowsOf, Newer, BaselinesAgree, TrafficHistory.Rows;
    var firsts := FirstOnes(scrapes);
    var rows := RowsOf(firsts);
    SeenAmongFirst(scrapes, user, ts);
    RowsAreOf(firsts);
    if HasSample(t.samples, user, ts) {
      var i :| 0 <= i < |t.samples| && t.samples[i].userLabel == user && t.samples[i].ts == ts;
      SplitMembers(rows, deleted, t.samples[i]);
      var j :| 0 <= j < |rows| && rows[j] == t.samples[i];
      assert firsts[j].sample.userLabel == user && firsts[j].ts == ts;
    }
    if Seen(firsts, user, ts) {
      var j :| 0 <= j < |firsts| && firsts[j].sample.userLabel == user && firsts[j].ts == ts;
      SplitMembers(rows, deleted, rows[j]);
      var i :| 0 <= i < |t.samples| && t.samples[i] == rows[j];
      assert t.samples[i].userLabel == user && t.samples[i].ts == ts;
    }
  }

  lemma SampleAgrees(t: Tables, scrapes: seq<Scraped>, deleted: int, s: Sample, ts: int)
    requires Agrees(t, scrapes, deleted) && ts >= deleted
    ensures Agrees(StoreSample(t, s, ts), scrapes + [Scraped(s, ts)], deleted)
  {
    hide FirstOnes, RowsOf, Newer, HasSample, UpsertDay, Seen, TrafficHistory.Rows, BaselinesAgree, RowOf, CounterDelta;
    var x := Scraped(s, ts);
    var firsts := FirstOnes(scrapes);
    FoundIffSeen(t, scrapes, deleted, s.userLabel, ts);
    FirstOnesOfMore(scrapes, x);
    if !HasSample(t.samples, s.userLabel, ts) {
      var t' := StoreSample(t, s, ts);
      RowIsOfScrape(t, firsts, s, ts);
      RowsOfMore(firsts, x);
      BaselineMoves(t.counters, firsts, x);
      ChartHistory.SampleKeepsSamples(t, s, ts, deleted);
      RowsOfLog(t.log, t'.log[|t.log|]);
    }
  }

  lemma RowsOfLog(log: seq<Recorded>, r: Recorded)
    ensures TrafficHistory.Rows(log + [r]) == TrafficHistory.Rows(log) + [r.row]
  {
  }

  lemma RowIsOfScrape(t: Tables, firsts: seq<Scraped>, s: Sample, ts: int)
    requires BaselinesAgree(t.counters, firsts) && !HasSample(t.samples, s.userLabel, ts)
    ensures var t' := StoreSample(t, s, ts);
            && |t'.log| == |t.log| + 1 && t'.log[..|t.log|] == t.log
            && t'.log[|t.log|].row == RowOf(firsts, Scraped(s, ts))
  {
    hide HasSample, UpsertDay, Latest;
  }

  lemma BaselineMoves(counters: map<string, Counter>, firsts: seq<Scraped>, x: Scraped)
    requires BaselinesAgree(counters, firsts)
    ensures var s := x.sample;
            BaselinesAgree(counters[s.userLabel := Counter(s.bytesIn, s.bytesOut, x.ts)], firsts + [x])
  {
    hide Latest;
    forall user
      ensures Latest(firsts + [x], user) == if x.sample.userLabel == user then Some(x.sample) else Latest(firsts, user)
    {
      LatestOfMore(firsts, x, user);
    }
  }

  lemma {:induction false} BatchAgrees(t: Tables, scrapes: seq<Scraped>, deleted: int, batch: seq<Sample>, ts: int)
    requires Agrees(t, scrapes, deleted) && ts >= deleted
    ensures Agrees(StoreBatch(t, batch, ts), scrapes + OfBatch(batch, ts), deleted)
    decreases |batch|
  {
    hide Agrees, StoreSample;
    if batch == [] {
      assert scrapes + [] == scrapes;
    } else {
      var n := |batch| - 1;
      BatchAgrees(t, scrapes, deleted, batch[..n], ts);
      SampleAgrees(StoreBatch(t, batch[..n], ts), scrapes + OfBatch(batch[..n], ts), deleted, batch[n], ts);
      assert scrapes + OfBatch(batch[..n], ts) + [Scraped(batch[n], ts)]
             == scrapes + (OfBatch(batch[..n], ts) + [Scraped(batch[n], ts)]);
    }
  }

  lemma NothingAgrees()
    ensures Agrees(NO_TABLES, [], 0)
  {
  }

  /** In every orderly history of scrapes and retention cycles, whatever cycles failed, the
      recorded rows are exactly those of the scrapes: for each user and instant one row, with
      the connections of the first sample scraped then and the growth of both counters since
      the user's row before it, or the whole counter after a restart. */
  lemma {:induction false} RowsAreScraped(events: seq<TrafficHistory.Event>)
    requires TrafficHistory.Orderly(events)
    ensures TrafficHistory.Rows(TrafficHistory.After(events).log) == RowsOf(FirstOnes(ScrapesOf(events)))
    ensures Agrees(TrafficHistory.After(events), ScrapesOf(events), TrafficHistory.Deleted(events))
    decreases |events|
  {
    hide Agrees, StoreBatch, Retained, FirstOnes, RowsOf;
    if events == [] {
      NothingAgrees();
    } else {
      var before := events[..|events| - 1];
      var t := TrafficHistory.After(before);
      RowsAreScraped(before);
      match events[|events| - 1] {
        case Scrape(batch, ts) =>
          BatchAgrees(t, ScrapesOf(before), TrafficHistory.Deleted(before), batch, ts);
        case Retain(m, h, failing) =>
          assert ScrapesOf(before) + [] == ScrapesOf(before);
          RetainAgrees(events);
      }
    }
    AgreedRows(TrafficHistory.After(events), ScrapesOf(events), TrafficHistory.Deleted(events));
  }

  lemma AgreedRows(t: Tables, scrapes: seq<Scraped>, deleted: int)
    requires Agrees(t, scrapes, deleted)
    ensures TrafficHistory.Rows(t.log) == RowsOf(FirstOnes(scrapes))
  {
    hide FirstOnes, RowsOf, BaselinesAgree;
  }

  lemma RetainAgrees(events: seq<TrafficHistory.Event>)
    requires TrafficHistory.Orderly(events) && events != [] && events[|events| - 1].Retain?
    requires var before := events[..|events| - 1];
             Agrees(TrafficHistory.After(before), ScrapesOf(before), TrafficHistory.Deleted(before))
    ensures Agrees(TrafficHistory.After(events), ScrapesOf(events[..|events| - 1]), TrafficHistory.Deleted(events))
  {
    hide Retained, FirstOnes, RowsOf, BaselinesAgree, Newer, TrafficHistory.Orderly, ScrapesOf;
    var e := events[|events| - 1];
    TrafficHistory.RetentionLeavesUsageAlone(
      TrafficHistory.After(events[..|events| - 1]), e.minuteCutoff, e.hourlyCutoff, e.failing);
    ChartHistory.SamplesAreTheNewerRows(events);
  }
}
