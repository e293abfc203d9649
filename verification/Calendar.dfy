/** The proleptic Gregorian calendar from 1970 on, as the day arithmetic behind
    time.Date and Time.Date: month lengths of section 5.7 of RFC 3339, leap years
    of its Appendix C. Days are counted from 1970-01-01, which is day 0. */
module Calendar {

  const EPOCH_YEAR := 1970

  datatype Date = Date(y: int, m: int, d: int)

  predicate IsLeap(y: int) {
    y % 4 == 0 && (y % 100 != 0 || y % 400 == 0)
  }

  function DaysInYear(y: int): (n: int)
    ensures n == 365 || n == 366
  {
    if IsLeap(y) then 366 else 365
  }

  function DaysInMonth(y: int, m: int): (n: int)
    requires 1 <= m <= 12
    ensures 28 <= n <= 31
  {
    if m == 2 then (if IsLeap(y) then 29 else 28)
    else if m == 4 || m == 6 || m == 9 || m == 11 then 30
    else 31
  }

  function DaysBeforeYear(y: int): (n: nat)
    requires y >= EPOCH_YEAR
    decreases y
  {
    if y == EPOCH_YEAR then 0 else DaysBeforeYear(y - 1) + DaysInYear(y - 1)
  }

  function DaysBeforeMonth(y: int, m: int): (n: nat)
    requires 1 <= m <= 13
    decreases m
  {
    if m == 1 then 0 else DaysBeforeMonth(y, m - 1) + DaysInMonth(y, m - 1)
  }

  predicate ValidDate(t: Date) {
    t.y >= EPOCH_YEAR && 1 <= t.m <= 12 && 1 <= t.d <= DaysInMonth(t.y, t.m)
  }

  /** The number of the first day of a month. */
  function MonthStart(y: int, m: int): nat
    requires y >= EPOCH_YEAR && 1 <= m <= 12
  {
    DaysBeforeYear(y) + DaysBeforeMonth(y, m)
  }

  function DayNumber(t: Date): nat
    requires ValidDate(t)
  {
    MonthStart(t.y, t.m) + t.d - 1
  }

  /** time.Date's day count: month overflow carries into the year, and a day
      outside the month counts on from the month's first day. */
  function GoDayCount(y: int, m: int, d: int): int
    requires y >= EPOCH_YEAR && 1 <= m <= 24
  {
    (if m > 12 then MonthStart(y + 1, m - 12) else MonthStart(y, m)) + d - 1
  }

  function YearSearch(n: nat, y: int): Date
    requires y >= EPOCH_YEAR
    decreases n
  {
    if n < DaysInYear(y) then MonthSearch(n, y, 1) else YearSearch(n - DaysInYear(y), y + 1)
  }

  function MonthSearch(n: nat, y: int, m: int): Date
    requires 1 <= m <= 12
    decreases 12 - m
  {
    if n < DaysInMonth(y, m) || m == 12 then Date(y, m, n + 1)
    else MonthSearch(n - DaysInMonth(y, m), y, m + 1)
  }

  /** Time.Date on a day number. */
  function CivilDate(n: nat): Date {
    YearSearch(n, EPOCH_YEAR)
  }

  lemma YearIsTwelveMonths(y: int)
    ensures DaysBeforeMonth(y, 13) == DaysInYear(y)
  {
  }

  lemma MonthAdvances(y: int, m: int)
    requires 1 <= m <= 12
    ensures DaysBeforeMonth(y, m + 1) == DaysBeforeMonth(y, m) + DaysInMonth(y, m)
  {
    hide IsLeap, DaysInMonth;
  }

  lemma {:induction false} MonthSearchSound(n: nat, y: int, m: int)
    requires y >= EPOCH_YEAR && 1 <= m <= 12
    requires DaysBeforeMonth(y, m) + n < DaysBeforeMonth(y, 13)
    ensures ValidDate(MonthSearch(n, y, m)) && MonthSearch(n, y, m).y == y
    ensures DayNumber(MonthSearch(n, y, m)) == MonthStart(y, m) + n
    decreases 12 - m
  {
    hide IsLeap, DaysInMonth, DaysBeforeYear, DaysBeforeMonth;
    MonthAdvances(y, m);
    if n < DaysInMonth(y, m) || m == 12 {
    } else {
      MonthSearchSound(n - DaysInMonth(y, m), y, m + 1);
    }
  }

  lemma {:induction false} YearSearchSound(n: nat, y: int)
    requires y >= EPOCH_YEAR
    ensures ValidDate(YearSearch(n, y))
    ensures DayNumber(YearSearch(n, y)) == DaysBeforeYear(y) + n
    decreases n
  {
    hide IsLeap, DaysInMonth, DaysInYear, MonthSearch;
    YearIsTwelveMonths(y);
    if n < DaysInYear(y) {
      MonthSearchSound(n, y, 1);
    } else {
      YearSearchSound(n - DaysInYear(y), y + 1);
    }
  }

  lemma {:induction false} MonthStartsGrow(y: int, m: int, k: int)
    requires 1 <= m <= k <= 13
    ensures DaysBeforeMonth(y, m) <= DaysBeforeMonth(y, k)
    ensures m < k ==> DaysBeforeMonth(y, m) + DaysInMonth(y, m) <= DaysBeforeMonth(y, k)
    decreases k
  {
    hide IsLeap, DaysInMonth;
    if m < k {
      MonthStartsGrow(y, m, k - 1);
    }
  }

  lemma {:induction false} YearStartsGrow(y: int, z: int)
    requires EPOCH_YEAR <= y < z
    ensures DaysBeforeYear(y) + DaysInYear(y) <= DaysBeforeYear(z)
    decreases z
  {
    if y + 1 < z {
      YearStartsGrow(y, z - 1);
    }
  }

  /** A day number belongs to at most one date. */
  lemma DayNumberInjective(a: Date, b: Date)
    requires ValidDate(a) && ValidDate(b) && DayNumber(a) == DayNumber(b)
    ensures a == b
  {
    hide IsLeap, DaysInMonth, DaysInYear, DaysBeforeYear, DaysBeforeMonth;
    DayWithinYear(a);
    DayWithinYear(b);
    if a.y < b.y { YearStartsGrow(a.y, b.y); }
    if b.y < a.y { YearStartsGrow(b.y, a.y); }
    if a.m < b.m { MonthStartsGrow(a.y, a.m, b.m); }
    if b.m < a.m { MonthStartsGrow(a.y, b.m, a.m); }
  }

  lemma DayWithinYear(a: Date)
    requires ValidDate(a)
    ensures DaysBeforeYear(a.y) <= DayNumber(a) < DaysBeforeYear(a.y) + DaysInYear(a.y)
  {
    hide IsLeap, DaysInMonth, DaysInYear, DaysBeforeYear, DaysBeforeMonth;
    YearIsTwelveMonths(a.y);
    MonthStartsGrow(a.y, a.m, 13);
  }

  /** Time.Date and time.Date are inverse, both ways. */
  lemma CivilRoundTrip(n: nat, t: Date)
    ensures ValidDate(CivilDate(n)) && DayNumber(CivilDate(n)) == n
    ensures ValidDate(t) && DayNumber(t) == n ==> CivilDate(n) == t
  {
    YearSearchSound(n, EPOCH_YEAR);
    if ValidDate(t) && DayNumber(t) == n {
      DayNumberInjective(CivilDate(n), t);
    }
  }

  /** Leap years up to and including year z, by inclusion and exclusion. */
  function LeapsThrough(z: int): int {
    z / 4 - z / 100 + z / 400
  }

  lemma LeapStep(z: int)
    ensures LeapsThrough(z) - LeapsThrough(z - 1) == if IsLeap(z) then 1 else 0
  {
    QuotientsStep(z);
    CenturiesAreDivisible(z);
  }

  lemma QuotientsStep(z: int)
    ensures z / 4 - (z - 1) / 4 == if z % 4 == 0 then 1 else 0
    ensures z / 100 - (z - 1) / 100 == if z % 100 == 0 then 1 else 0
    ensures z / 400 - (z - 1) / 400 == if z % 400 == 0 then 1 else 0
  {
  }

  lemma CenturiesAreDivisible(z: int)
    ensures z % 400 == 0 ==> z % 100 == 0
    ensures z % 100 == 0 ==> z % 4 == 0
  {
    if z % 400 == 0 {
      var past := z / 100 - 4 * (z / 400);
      assert z % 100 == -100 * past;
      assert past == 0;
    }
    if z % 100 == 0 {
      var past := z / 4 - 25 * (z / 100);
      assert z % 4 == -4 * past;
      assert past == 0;
    }
  }

  /** The year-by-year count of days agrees with the closed form of the leap rule. */
  lemma {:induction false} LeapRuleClosedForm(y: int)
    requires y >= EPOCH_YEAR
    ensures DaysBeforeYear(y) ==
            365 * (y - EPOCH_YEAR) + LeapsThrough(y - 1) - LeapsThrough(EPOCH_YEAR - 1)
    decreases y
  {
    hide LeapsThrough, IsLeap;
    if y > EPOCH_YEAR {
      LeapRuleClosedForm(y - 1);
      LeapStep(y - 1);
    }
  }

  function NextMonth(y: int, m: int): (int, int) {
    if m + 1 > 12 then (y + 1, 1) else (y, m + 1)
  }

  /** Months counted from year 0, so that consecutive months differ by one. */
  function MonthIndex(t: Date): int {
    12 * t.y + t.m - 1
  }

  lemma NextMonthStart(y: int, m: int)
    requires y >= EPOCH_YEAR && 1 <= m <= 12
    ensures MonthStart(NextMonth(y, m).0, NextMonth(y, m).1) == MonthStart(y, m) + DaysInMonth(y, m)
  {
  }

  /** "Day 0 of the month after" names the last day of a month. */
  lemma DayZeroIsLastDay(y: int, m: int)
    requires y >= EPOCH_YEAR && 1 <= m <= 12
    ensures GoDayCount(y, m + 1, 0) >= 0
    ensures CivilDate(GoDayCount(y, m + 1, 0)) == Date(y, m, DaysInMonth(y, m))
  {
    NextMonthStart(y, m);
    var last := Date(y, m, DaysInMonth(y, m));
    assert GoDayCount(y, m + 1, 0) == DayNumber(last);
    CivilRoundTrip(DayNumber(last), last);
  }

  const MONTH_OFFSETS := [0, 31, 59, 90, 120, 151, 181, 212, 243, 273, 304, 334]

  /** The days before a month within its year. */
  lemma {:induction false} MonthOffsets(y: int, m: int)
    requires 1 <= m <= 12
    ensures DaysBeforeMonth(y, m) == MONTH_OFFSETS[m - 1] + if m > 2 && IsLeap(y) then 1 else 0
    decreases m
  {
    hide IsLeap;
    if m > 1 {
      MonthOffsets(y, m - 1);
    }
  }

  /** Months that are counted from March on have their lengths in a regular pattern. */
  function FromMarch(m: int): int {
    (153 * (if m <= 2 then m + 9 else m - 3) + 2) / 5
  }

  lemma FromMarchIs(m: int)
    requires 1 <= m <= 12
    ensures FromMarch(m) == MONTH_OFFSETS[m - 1] + if m <= 2 then 306 else -59
  {
    if m <= 4 {
      assert m == 1 || m == 2 || m == 3 || m == 4;
    } else if m <= 8 {
      assert m == 5 || m == 6 || m == 7 || m == 8;
    } else {
      assert m == 9 || m == 10 || m == 11 || m == 12;
    }
  }

  lemma YearStart(y: int)
    requires y >= EPOCH_YEAR
    ensures DaysBeforeYear(y) == 365 * y + LeapsThrough(y - 1) - 719527
  {
    hide IsLeap, DaysBeforeYear;
    LeapRuleClosedForm(y);
    assert LeapsThrough(EPOCH_YEAR - 1) == 477;
  }

  /** Counting days one year and one month at a time agrees with the closed form for years
      that begin in March, in which February is last. */
  lemma DayNumberClosedForm(t: Date)
    requires ValidDate(t)
    ensures var y := if t.m <= 2 then t.y - 1 else t.y;
            DayNumber(t) == 365 * y + (y / 4 - y / 100 + y / 400)
                            + (153 * (if t.m <= 2 then t.m + 9 else t.m - 3) + 2) / 5 + t.d - 1 - 719468
  {
    hide IsLeap, DaysBeforeYear, DaysBeforeMonth, DaysInMonth, LeapsThrough, FromMarch;
    YearStart(t.y);
    MonthOffsets(t.y, t.m);
    FromMarchIs(t.m);
    LeapStep(t.y);
    var y := if t.m <= 2 then t.y - 1 else t.y;
    assert DayNumber(t) == 365 * y + LeapsThrough(y) + FromMarch(t.m) + t.d - 1 - 719468;
    InFull(y, t.m);
  }

  lemma InFull(y: int, m: int)
    ensures LeapsThrough(y) == y / 4 - y / 100 + y / 400
    ensures FromMarch(m) == (153 * (if m <= 2 then m + 9 else m - 3) + 2) / 5
  {
  }
}
