/** Quota periods: where a period that starts at a given instant ends, and how the
    start moves when periods elapse. */
module QuotaPeriod {
  import opened GoArithmetic
  import opened Calendar

  const PERIOD_DAILY := "daily"
  const PERIOD_WEEKLY := "weekly"
  const PERIOD_MONTHLY := "monthly"

  /** The date part of addMonthClamped. */
  function NextMonthClamped(t: Date): Date
    requires ValidDate(t)
  {
    var (nextY, nextM) := NextMonth(t.y, t.m);
    var lastDay := GoDayCount(nextY, nextM + 1, 0);
    var last := if lastDay >= 0 then CivilDate(lastDay).d else 0;
    Date(nextY, nextM, if t.d > last then last else t.d)
  }

  /** The last day of the next month is found through day 0 of the month after it,
      and the day is clamped to it. */
  lemma NextMonthClampedDate(t: Date)
    requires ValidDate(t)
    ensures ValidDate(NextMonthClamped(t))
    ensures MonthIndex(NextMonthClamped(t)) == MonthIndex(t) + 1
    ensures NextMonthClamped(t).d ==
            Min(t.d, DaysInMonth(NextMonthClamped(t).y, NextMonthClamped(t).m))
    ensures 28 <= DayNumber(NextMonthClamped(t)) - DayNumber(t) <= 31
  {
    var (nextY, nextM) := NextMonth(t.y, t.m);
    DayZeroIsLastDay(nextY, nextM);
    NextMonthStart(t.y, t.m);
  }

  /** The UTC calendar day of an instant. */
  function DateOf(ts: int): Date
    requires ts >= 0
  {
    CivilDate(ts / 86400)
  }

  /** addMonthClamped: the clamped date of the next month at the same time of day. */
  function AddMonthClamped(ts: int): int
    requires ts >= 0
  {
    CivilRoundTrip(ts / 86400, DateOf(ts));
    NextMonthClampedDate(DateOf(ts));
    DayNumber(NextMonthClamped(DateOf(ts))) * 86400 + ts % 86400
  }

  /** PeriodEnd: an unknown period name counts as monthly, and a start that is not
      positive has no end. */
  function PeriodEnd(period: string, start: int): int {
    if start <= 0 then 0
    else if period == PERIOD_DAILY then start + 86400
    else if period == PERIOD_WEEKLY then start + 7 * 86400
    else AddMonthClamped(start)
  }

  /** A monthly period is 28 to 31 days long, ends in exactly the next calendar
      month, on the same day or the last one that month has, at the same time of day. */
  lemma MonthlyPeriodEnd(start: int)
    requires start > 0
    ensures var end := AddMonthClamped(start);
            && start + 28 * 86400 <= end <= start + 31 * 86400
            && end % 86400 == start % 86400
            && MonthIndex(DateOf(end)) == MonthIndex(DateOf(start)) + 1
            && ValidDate(DateOf(end))
            && DateOf(end).d == Min(DateOf(start).d, DaysInMonth(DateOf(end).y, DateOf(end).m))
  {
    var t := DateOf(start);
    CivilRoundTrip(start / 86400, t);
    NextMonthClampedDate(t);
    var next := NextMonthClamped(t);
    CivilRoundTrip(DayNumber(next), next);
    assert AddMonthClamped(start) / 86400 == DayNumber(next);
  }

  /** Every period of a positive start ends strictly later, at most 31 days later,
      and on a day boundary when it starts on one. */
  lemma PeriodEndAdvances(period: string, start: int)
    requires start > 0
    ensures start + 86400 <= PeriodEnd(period, start) <= start + 31 * 86400
    ensures PeriodEnd(period, start) % 86400 == start % 86400
  {
    hide AddMonthClamped, CivilDate, DaysInMonth;
    MonthlyPeriodEnd(start);
  }

  /** The start of the period that contains `now`, reached one period at a time:
      what the catch-up loop of RolloverIfDue computes. */
  function Rolled(period: string, start: int, now: int): int
    decreases now - start
  {
    if start > 0 && PeriodEnd(period, start) <= now then
      PeriodEndAdvances(period, start);
      Rolled(period, PeriodEnd(period, start), now)
    else
      start
  }

  /** k periods on from a start. */
  function PeriodsOn(period: string, start: int, k: nat): int {
    if k == 0 then start else PeriodEnd(period, PeriodsOn(period, start, k - 1))
  }

  /** Whatever the downtime, the rolled start is the start of the period that
      contains `now`, and it keeps the alignment of the first start. */
  lemma {:induction false} RolledContainsNow(period: string, start: int, now: int)
    requires 0 < start <= now
    ensures start <= Rolled(period, start, now) <= now
    ensures now < PeriodEnd(period, Rolled(period, start, now))
    ensures Rolled(period, start, now) % 86400 == start % 86400
    decreases now - start
  {
    PeriodEndAdvances(period, start);
    if PeriodEnd(period, start) <= now {
      RolledContainsNow(period, PeriodEnd(period, start), now);
    }
  }

  /** Rolling at t1 and again at t2 is rolling once at t2. */
  lemma {:induction false} RolledPathIndependent(period: string, start: int, t1: int, t2: int)
    requires t1 <= t2
    ensures Rolled(period, Rolled(period, start, t1), t2) == Rolled(period, start, t2)
    decreases t1 - start
  {
    if start > 0 && PeriodEnd(period, start) <= t1 {
      PeriodEndAdvances(period, start);
      RolledPathIndependent(period, PeriodEnd(period, start), t1, t2);
    }
  }

  lemma {:induction false} PeriodsOnGrow(period: string, start: int, k: nat)
    requires start > 0
    ensures PeriodsOn(period, start, k) >= start
    decreases k
  {
    hide PeriodEnd;
    if k > 0 {
      PeriodsOnGrow(period, start, k - 1);
      PeriodEndAdvances(period, PeriodsOn(period, start, k - 1));
    }
  }

  lemma {:induction false} PeriodsOnShift(period: string, start: int, k: nat)
    ensures PeriodsOn(period, PeriodEnd(period, start), k) == PeriodsOn(period, start, k + 1)
    decreases k
  {
    hide PeriodEnd;
    if k > 0 {
      PeriodsOnShift(period, start, k - 1);
    }
  }

  /** The rolled start is the k-th period start exactly when that period contains
      `now`; so no period is skipped and none is entered early. */
  lemma {:induction false} RolledIsTheContainingPeriod(period: string, start: int, now: int, k: nat)
    requires start > 0
    requires PeriodsOn(period, start, k) <= now < PeriodsOn(period, start, k + 1)
    ensures Rolled(period, start, now) == PeriodsOn(period, start, k)
    decreases k
  {
    hide PeriodEnd;
    if k > 0 {
      PeriodEndAdvances(period, start);
      PeriodsOnShift(period, start, k - 1);
      PeriodsOnShift(period, start, k);
      PeriodsOnGrow(period, PeriodEnd(period, start), k - 1);
      RolledIsTheContainingPeriod(period, PeriodEnd(period, start), now, k - 1);
    }
  }

  /** The shortest of the k months after a month. */
  function ShortestMonth(index: int, k: nat): int
    requires index >= 12 * EPOCH_YEAR
  {
    if k == 0 then 31
    else Min(ShortestMonth(index, k - 1), DaysInMonth((index + k) / 12, (index + k) % 12 + 1))
  }

  lemma {:induction false} ShortestMonthBound(index: int, k: nat)
    requires index >= 12 * EPOCH_YEAR
    ensures 28 <= ShortestMonth(index, k) <= 31
    decreases k
  {
    if k > 0 {
      ShortestMonthBound(index, k - 1);
    }
  }

  lemma MonthLengthAtMost31(t: Date)
    requires ValidDate(t)
    ensures t.d <= 31
  {
  }

  lemma MonthlyStep(start: int)
    requires start > 0
    ensures var end := PeriodEnd(PERIOD_MONTHLY, start);
            && end > 0
            && end % 86400 == start % 86400
            && ValidDate(DateOf(end))
            && MonthIndex(DateOf(end)) == MonthIndex(DateOf(start)) + 1
            && DateOf(end).d == Min(DateOf(start).d, DaysInMonth(DateOf(end).y, DateOf(end).m))
  {
    hide AddMonthClamped, CivilDate;
    MonthlyPeriodEnd(start);
  }

  /** Over k monthly periods the month advances by exactly k, and the day of the
      month is the first day clamped by every month passed on the way: a short month
      shifts all later periods for good, though never below min(day, 28). */
  lemma {:induction false} MonthlyDrift(start: int, k: nat)
    requires start > 0
    ensures var t := PeriodsOn(PERIOD_MONTHLY, start, k);
            && t > 0
            && ValidDate(DateOf(t))
            && MonthIndex(DateOf(t)) == MonthIndex(DateOf(start)) + k
            && MonthIndex(DateOf(start)) >= 12 * EPOCH_YEAR
            && DateOf(t).d == Min(DateOf(start).d, ShortestMonth(MonthIndex(DateOf(start)), k))
            && DateOf(t).d >= Min(DateOf(start).d, 28)
            && t % 86400 == start % 86400
    decreases k
  {
    hide PeriodEnd, CivilDate, DaysInMonth, IsLeap;
    CivilRoundTrip(start / 86400, DateOf(start));
    ShortestMonthBound(MonthIndex(DateOf(start)), k);
    if k == 0 {
      MonthLengthAtMost31(DateOf(start));
    } else {
      MonthlyDrift(start, k - 1);
      var prev := PeriodsOn(PERIOD_MONTHLY, start, k - 1);
      MonthlyStep(prev);
      var t := DateOf(PeriodEnd(PERIOD_MONTHLY, prev));
      assert MonthIndex(t) / 12 == t.y && MonthIndex(t) % 12 + 1 == t.m;
    }
  }

  /** Midnight of a valid date, as an instant. */
  lemma MidnightOf(t: Date)
    requires ValidDate(t)
    ensures DateOf(DayNumber(t) * 86400) == t
  {
    hide DayNumber, CivilDate, ValidDate;
    var n := DayNumber(t);
    assert (n * 86400) / 86400 == n;
    CivilRoundTrip(n, t);
  }

  lemma FebruaryIsShortest(y: int)
    requires y >= EPOCH_YEAR && !IsLeap(y)
    ensures ShortestMonth(12 * y, 2) == 28
  {
    hide IsLeap;
    var index := 12 * y;
    assert (index + 1) / 12 == y && (index + 1) % 12 == 1;
    assert (index + 2) / 12 == y && (index + 2) % 12 == 2;
    assert ShortestMonth(index, 0) == 31;
    assert ShortestMonth(index, 1) == 28;
  }

  /** Periods are not anchored to the first day of the month they started on: from
      31 January 2023 the third period starts on 28 March, not on 31 March. */
  lemma MonthlyPeriodsAreNotAnchored()
    ensures var start := DayNumber(Date(2023, 1, 31)) * 86400;
            && DateOf(PeriodsOn(PERIOD_MONTHLY, start, 2)) == Date(2023, 3, 28)
  {
    hide DateOf, PeriodsOn, ShortestMonth;
    var jan := Date(2023, 1, 31);
    var start := DayNumber(jan) * 86400;
    assert start > 0 by {
      LeapRuleClosedForm(2023);
    }
    MidnightOf(jan);
    MonthlyDrift(start, 2);
    FebruaryIsShortest(2023);
    var t := DateOf(PeriodsOn(PERIOD_MONTHLY, start, 2));
    assert 12 * t.y + t.m - 1 == 12 * 2023 + 2;
  }

  /** Days and weeks have a fixed length, so the rolled start is the first start plus a whole
      number of them, the last before the clock. */
  lemma {:induction false} FixedPeriodsRoll(period: string, start: int, now: int)
    requires 0 < start <= now && (period == "daily" || period == "weekly")
    ensures var length := if period == "daily" then 86400 else 604800;
            Rolled(period, start, now) == start + (now - start) / length * length
    decreases now - start
  {
    var length := if period == "daily" then 86400 else 604800;
    assert PeriodEnd(period, start) == start + length;
    if start + length <= now {
      FixedPeriodsRoll(period, start + length, now);
      OneLess(now - start, length);
    } else {
      assert (now - start) / length == 0;
    }
  }

  lemma OneLess(x: int, length: int)
    requires length == 86400 || length == 604800
    ensures (x - length) / length == x / length - 1
  {
  }
}
