/** Where the quota engine and the sampler meet: in every reachable state of the panel the
    usage a user is charged with is exact. */
module QuotaUsage {
  import opened GoArithmetic
  import opened Options
  import opened QuotaPeriod
  import opened Traffic
  import opened Users
  import opened PanelModel
  import TrafficHistory

  /** A period start is unset or a day boundary. */
  predicate AlignedStart(u: User) {
    u.quotaPeriodStart >= 0 && u.quotaPeriodStart % 86400 == 0
  }

  predicate Aligned(users: seq<User>) {
    forall i :: 0 <= i < |users| ==> AlignedStart(users[i])
  }

  /** The clock is not negative. */
  predicate ClockRuns(e: PanelModel.Event) {
    match e
    case Tick(faults) => forall i :: 0 <= i < |faults| ==> faults[i].now >= 0
    case Handle(r, _) => (r.QuotaSet? || r.QuotaReset?) ==> r.now >= 0
    case TrafficRecorded(_) => true
    case BulkSuspend(_, _, _) => true
    case Create(_, _, _) => true
    case ProxyRestarts => true
  }

  /** What the handlers pass is snapped. */
  lemma DayFloorIsAligned(now: int)
    requires now >= 0
    ensures DayFloor(now) >= 0 && DayFloor(now) % 86400 == 0
  {
    var floor := DayFloor(now);
    var past := floor / 86400 - now / 86400;
    assert floor == 86400 * (now / 86400);
    assert floor % 86400 == -86400 * past;
    assert past == 0;
  }

  lemma RolledIsAligned(period: string, start: int, now: int)
    requires start >= 0 && start % 86400 == 0
    ensures Rolled(period, start, now) >= 0 && Rolled(period, start, now) % 86400 == 0
  {
    if 0 < start <= now {
      RolledContainsNow(period, start, now);
    } else if start > now && start > 0 {
      PeriodEndAdvances(period, start);
    }
  }

  lemma RolloverKeepsAligned(p: Panel, user: string, now: int, dbFails: bool, outcome: ReloadOutcome)
    requires Aligned(p.users) && now >= 0
    ensures Aligned(RolledOverPanel(p, user, now, dbFails, outcome).0.users)
  {
    hide RolledOver, Desired, AlignedStart;
    var i := IndexOfLabel(p.users, user);
    if i >= 0 {
      RolledOverIsAligned(p.users[i], now);
    }
  }

  lemma RolledOverIsAligned(u: User, now: int)
    requires AlignedStart(u) && now >= 0
    ensures AlignedStart(RolledOver(u, now))
  {
    hide DayFloor, Rolled;
    DayFloorIsAligned(now);
    RolledIsAligned(u.quotaPeriod, u.quotaPeriodStart, now);
  }

  lemma RecalculateKeepsAligned(p: Panel, user: string, dbFails: bool, outcome: ReloadOutcome)
    requires Aligned(p.users)
    ensures Aligned(RecalculatedPanel(p, user, dbFails, outcome).0.users)
  {
  }

  lemma {:induction false} TickKeepsAligned(p: Panel, labels: seq<string>, faults: seq<TickFault>)
    requires Aligned(p.users) && |faults| <= |labels|
    requires forall i :: 0 <= i < |faults| ==> faults[i].now >= 0
    ensures Aligned(Ticked(p, labels, faults).users)
    decreases |faults|
  {
    hide RolledOverPanel, RecalculatedPanel;
    if faults != [] {
      var f := faults[0];
      RolloverKeepsAligned(p, labels[0], f.now, f.rolloverDbFails, f.rolloverReload);
      var q := RolledOverPanel(p, labels[0], f.now, f.rolloverDbFails, f.rolloverReload).0;
      RecalculateKeepsAligned(q, labels[0], f.recalculateDbFails, f.recalculateReload);
      TickKeepsAligned(TickedUser(p, labels[0], f), labels[1..], faults[1..]);
    }
  }

  lemma EditIsAligned(u: User, daily: seq<DayRow>, r: PanelModel.Request)
    requires AlignedStart(u) && Edited(u, r).Some? && (r.QuotaSet? || r.QuotaReset? ==> r.now >= 0)
    ensures var e := Edited(u, r).value; AlignedStart(e) && AlignedStart(Restored(e, Listed(u, daily), r))
  {
    hide DayFloor, HasDays, Usage;
    if r.QuotaSet? || r.QuotaReset? {
      DayFloorIsAligned(r.now);
    }
  }

  lemma HandlerKeepsAligned(p: Panel, r: PanelModel.Request, f: HandlerFaults)
    requires Aligned(p.users) && ClockRuns(Handle(r, f))
    ensures Aligned(Handled(p, r, f).0.users)
  {
    hide Applied, RecalculatedPanel, Edited, Restored, Listed, AlignedStart;
    var i := IndexOfId(p.users, r.id);
    if i >= 0 && Edited(p.users[i], r).Some? {
      EditIsAligned(p.users[i], p.daily, r);
      ListedKeepsName(p.users[i], p.daily);
      var e := Edited(p.users[i], r).value;
      var q := Applied(p.(users := p.users[i := e]), f.reload);
      AppliedKeepsTable(p.(users := p.users[i := e]), f.reload);
      RecalculateKeepsAligned(q, p.users[i].userLabel, f.recalculateDbFails, f.recalculateReload);
    }
  }

  lemma {:induction false} EveryRunIsAligned(events: seq<PanelModel.Event>)
    requires forall i :: 0 <= i < |events| ==> ClockRuns(events[i])
    ensures Aligned(PanelModel.AfterRun(events).users)
    decreases |events|
  {
    hide Handled, Created, Ticked, BulkSuspended, AlignedStart;
    if events != [] {
      var before := PanelModel.AfterRun(events[..|events| - 1]);
      EveryRunIsAligned(events[..|events| - 1]);
      match events[|events| - 1]
      case TrafficRecorded(daily) =>
      case Tick(faults) =>
        assert ClockRuns(events[|events| - 1]);
        if |faults| <= |Labels(before.users)| {
          TickKeepsAligned(before, Labels(before.users), faults);
        }
      case Handle(r, f) =>
        HandlerKeepsAligned(before, r, f);
      case BulkSuspend(ids, failingWrite, f) =>
        BulkKeepsAligned(before, ids, failingWrite, f);
      case Create(user, secret, f) =>
        CreateKeepsAligned(before, user, secret, f);
      case ProxyRestarts =>
    }
  }

  lemma BulkKeepsAligned(p: Panel, ids: seq<int>, failingWrite: Option<nat>, f: HandlerFaults)
    requires Aligned(p.users)
    ensures Aligned(BulkSuspended(p, ids, failingWrite, f).0.users)
  {
    hide Desired;
  }

  lemma CreateKeepsAligned(p: Panel, user: string, secret: string, f: HandlerFaults)
    requires Aligned(p.users)
    ensures Aligned(Created(p, user, secret, f).0.users)
  {
  }

  /** Whatever the run of ticks, handlers and failures, and whatever the scrapes and
      retention cycles behind the daily index, a user with a running period is charged
      exactly the sum of all deltas ever recorded from the start of that period on. */
  lemma ChargedIsExact(events: seq<PanelModel.Event>, history: seq<TrafficHistory.Event>, i: nat)
    requires forall k :: 0 <= k < |events| ==> ClockRuns(events[k])
    requires i < |PanelModel.AfterRun(events).users|
    requires PanelModel.AfterRun(events).daily == TrafficHistory.After(history).daily
    ensures var p := PanelModel.AfterRun(events);
            var u := p.users[i];
            Charged(u, p.daily)
            == if u.quotaPeriodStart == 0 then 0
               else ExactUsage(TrafficHistory.After(history).log, u.userLabel, u.quotaPeriodStart)
  {
    hide PanelModel.AfterRun, TrafficHistory.After;
    EveryRunIsAligned(events);
    var u := PanelModel.AfterRun(events).users[i];
    assert AlignedStart(u);
    if u.quotaPeriodStart > 0 {
      TrafficHistory.DailyIndexExact(history, u.userLabel, u.quotaPeriodStart, 0);
    }
  }
}
