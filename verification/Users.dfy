/** Rows of the users table and the statements that change their quota columns. */
module Users {
  import opened GoArithmetic
  import opened ProxyUsers
  import opened QuotaPeriod
  import opened Traffic

  datatype User = User(
    id: int, userLabel: string, secretHex: string, enabled: bool, deleted: bool,
    quotaBytes: int, quotaPeriod: string, quotaWarnPct: int, quotaSuspended: bool,
    quotaPeriodStart: int, quotaUsedBytes: int, quotaWarned: bool)

  /** Users the proxy should serve. */
  predicate Serves(u: User) {
    u.enabled && !u.deleted && !u.quotaSuspended
  }

  /** The entries applyTeleproxyConfig renders, in table order. */
  function Desired(users: seq<User>): seq<UserEntry> {
    if users == [] then []
    else if Serves(users[0]) then [UserEntry(users[0].userLabel, users[0].secretHex)] + Desired(users[1..])
    else Desired(users[1..])
  }

  /** Rows that agree on whom to serve give the proxy the same entries. */
  lemma {:induction false} DesiredDependsOnServed(a: seq<User>, b: seq<User>)
    requires |a| == |b|
    requires forall i :: 0 <= i < |a| ==>
               && Serves(a[i]) == Serves(b[i])
               && (Serves(a[i]) ==> a[i].userLabel == b[i].userLabel && a[i].secretHex == b[i].secretHex)
    ensures Desired(a) == Desired(b)
    decreases |a|
  {
    if a != [] {
      assert Serves(a[0]) == Serves(b[0]);
      DesiredDependsOnServed(a[1..], b[1..]);
    }
  }

  /** The primary key and the UNIQUE constraint on labels, deleted rows included. */
  ghost predicate KeysUnique(users: seq<User>) {
    && (forall i, j :: 0 <= i < j < |users| ==> users[i].id != users[j].id)
    && (forall i, j :: 0 <= i < j < |users| ==> users[i].userLabel != users[j].userLabel)
  }

  // ---- Recalculate ----

  /** The usage Recalculate charges a user with; without a period start, none. */
  function Charged(u: User, daily: seq<DayRow>): int {
    if u.quotaPeriodStart != 0 then Usage(daily, u.userLabel, u.quotaPeriodStart) else 0
  }

  /** The soft limit, in 64-bit arithmetic. */
  function WarnThreshold(quotaBytes: int, warnPct: int): int {
    var product := WrapInt64(quotaBytes * warnPct);
    if product >= 0 then product / 100 else -((-product) / 100)
  }

  predicate WarningDue(u: User, used: int) {
    u.quotaBytes > 0 && !u.quotaWarned && u.quotaWarnPct > 0
    && used >= WarnThreshold(u.quotaBytes, u.quotaWarnPct)
  }

  function Recalculated(u: User, used: int): User {
    u.(quotaUsedBytes := used,
       quotaSuspended := u.quotaSuspended || (u.quotaBytes > 0 && used >= u.quotaBytes),
       quotaWarned := u.quotaWarned || WarningDue(u, used))
  }

  /** The percentages SetQuota accepts, over 64-bit quotas. */
  predicate QuotaInRange(u: User) {
    0 <= u.quotaBytes <= MAX_INT64 && 0 <= u.quotaWarnPct <= 100
  }

  /** The product of quota and percentage may overflow, but never so that the soft
      limit ends up above the hard one: whoever is over the quota is over the
      threshold. */
  lemma ThresholdNeverAboveQuota(quotaBytes: int, warnPct: int)
    requires 0 < quotaBytes <= MAX_INT64 && 1 <= warnPct <= 100
    ensures WarnThreshold(quotaBytes, warnPct) <= quotaBytes
  {
    hide WrapInt64;
    var x := quotaBytes * warnPct;
    ShareIsPositiveAndWithinWhole(quotaBytes, warnPct);
    WrapBelow(x);
    assert WrapInt64(x) <= x;
  }

  lemma ShareIsPositiveAndWithinWhole(quotaBytes: int, warnPct: int)
    requires 0 < quotaBytes && 1 <= warnPct <= 100
    ensures 0 < quotaBytes * warnPct <= 100 * quotaBytes
  {
  }

  /** Without overflow the warning is due exactly from the configured percentage of the
      quota on; with overflow the threshold is always too low, so the warning comes early. */
  lemma ThresholdExactIff(quotaBytes: int, warnPct: int)
    requires 0 < quotaBytes <= MAX_INT64 && 1 <= warnPct <= 100
    ensures WarnThreshold(quotaBytes, warnPct) == quotaBytes * warnPct / 100
            <==> quotaBytes * warnPct <= MAX_INT64
    ensures WarnThreshold(quotaBytes, warnPct) <= quotaBytes * warnPct / 100
  {
    hide WrapInt64;
    ShareIsPositiveAndWithinWhole(quotaBytes, warnPct);
    WrapBelow(quotaBytes * warnPct);
  }

  lemma WrapBelow(x: int)
    requires x >= 0
    ensures x <= MAX_INT64 ==> WrapInt64(x) == x
    ensures x > MAX_INT64 ==> WrapInt64(x) <= x - TWO_TO_64 && WrapInt64(x) <= MAX_INT64
  {
    if x > MAX_INT64 && x < TWO_TO_64 {
      assert x % TWO_TO_64 == x;
    }
  }

  /** A user is warned before using a single byte exactly if the low 64 bits of the product
      are below 100 or read as a negative number. */
  lemma WarnsAtOnceIff(quotaBytes: int, warnPct: int)
    requires 0 < quotaBytes <= MAX_INT64 && 1 <= warnPct <= 100
    ensures WarnThreshold(quotaBytes, warnPct) <= 0
            <==> var low := quotaBytes * warnPct % TWO_TO_64; low < 100 || low > MAX_INT64
  {
    WrappedThreshold(quotaBytes * warnPct % TWO_TO_64);
  }

  lemma WrappedThreshold(low: int)
    requires 0 <= low < TWO_TO_64
    ensures var product := if low > MAX_INT64 then low - TWO_TO_64 else low;
            (if product >= 0 then product / 100 else -((-product) / 100)) <= 0 <==> low < 100 || low > MAX_INT64
  {
  }

  /** Two overflowing quotas: one is warned about at zero usage, the other far too early. */
  lemma OverflowingQuotas()
    ensures WarnThreshold(0x4000_0000_0000_0000, 100) == 0
    ensures WarnThreshold(6148914691237517206, 3) == 30000
  {
    assert 0x4000_0000_0000_0000 * 100 == 25 * TWO_TO_64;
    assert 6148914691237517206 * 3 == TWO_TO_64 + 3000002;
    assert WrapInt64(6148914691237517206 * 3) == 3000002;
  }

  // ---- the other statements ----

  /** The row RolloverIfDue leaves: a first start is only initialised, and a period
      that has not ended is left alone. */
  function RolledOver(u: User, now: int): User {
    if u.quotaPeriodStart == 0 then u.(quotaPeriodStart := DayFloor(now))
    else if Rolled(u.quotaPeriod, u.quotaPeriodStart, now) == u.quotaPeriodStart then u
    else
      u.(quotaUsedBytes := 0, quotaWarned := false, quotaSuspended := false,
         quotaPeriodStart := Rolled(u.quotaPeriod, u.quotaPeriodStart, now))
  }

  predicate QuotaArgumentsValid(bytes: int, period: string, warnPct: int) {
    && (period == PERIOD_DAILY || period == PERIOD_WEEKLY || period == PERIOD_MONTHLY)
    && 0 <= warnPct <= 100
    && bytes >= 0
  }

  function WithQuota(u: User, bytes: int, period: string, warnPct: int, nowTs: int): User {
    var fresh' := u.quotaPeriod != period || u.quotaPeriodStart == 0;
    if bytes == 0 && !fresh' then
      u.(quotaBytes := 0, quotaWarnPct := warnPct, quotaWarned := false, quotaSuspended := false)
    else if fresh' then
      u.(quotaBytes := bytes, quotaPeriod := period, quotaWarnPct := warnPct, quotaPeriodStart := nowTs,
         quotaUsedBytes := 0, quotaWarned := false, quotaSuspended := false)
    else
      u.(quotaBytes := bytes, quotaWarnPct := warnPct)
  }

  function WithReset(u: User, nowTs: int): User {
    u.(quotaUsedBytes := 0, quotaWarned := false, quotaSuspended := false, quotaPeriodStart := nowTs)
  }

  /** RestoreQuotaState: every quota column back to a captured row. */
  function WithQuotaOf(u: User, prev: User): User {
    u.(quotaBytes := prev.quotaBytes, quotaPeriod := prev.quotaPeriod, quotaWarnPct := prev.quotaWarnPct,
       quotaSuspended := prev.quotaSuspended, quotaPeriodStart := prev.quotaPeriodStart,
       quotaUsedBytes := prev.quotaUsedBytes, quotaWarned := prev.quotaWarned)
  }

  // ---- escalation over the life of a row ----

  /** Everything that changes the quota columns of a row. */
  datatype QuotaStep =
    | Recalculate(used: int)
    | Rollover(now: int)
    | SetQuota(bytes: int, period: string, warnPct: int, nowTs: int)
    | ResetQuota(nowTs: int)
    | SetSuspended(suspended: bool)
    | RestoreQuota(prev: User)

  function StepRow(u: User, s: QuotaStep): User {
    match s
    case Recalculate(used) => Recalculated(u, used)
    case Rollover(now) => RolledOver(u, now)
    case SetQuota(bytes, period, warnPct, nowTs) =>
      if QuotaArgumentsValid(bytes, period, warnPct) then WithQuota(u, bytes, period, warnPct, nowTs) else u
    case ResetQuota(nowTs) => WithReset(u, nowTs)
    case SetSuspended(b) => u.(quotaSuspended := b)
    case RestoreQuota(prev) => WithQuotaOf(u, prev)
  }

  function StepsRow(u: User, steps: seq<QuotaStep>): User {
    if steps == [] then u else StepRow(StepsRow(u, steps[..|steps| - 1]), steps[|steps| - 1])
  }

  predicate EmitsWarning(u: User, s: QuotaStep) {
    s.Recalculate? && WarningDue(u, s.used)
  }

  /** The number of audit warnings a sequence of steps emits. */
  function Warnings(u: User, steps: seq<QuotaStep>): nat {
    if steps == [] then 0
    else
      var before := steps[..|steps| - 1];
      Warnings(u, before) + if EmitsWarning(StepsRow(u, before), steps[|steps| - 1]) then 1 else 0
  }

  /** The number of steps that clear quota_warned. */
  function Clears(u: User, steps: seq<QuotaStep>): nat {
    if steps == [] then 0
    else
      var before := steps[..|steps| - 1];
      var row := StepsRow(u, before);
      Clears(u, before)
      + if row.quotaWarned && !StepRow(row, steps[|steps| - 1]).quotaWarned then 1 else 0
  }

  /** At most one warning per time quota_warned is cleared, and one more: over every
      run of ticks, rollovers, quota changes, resets and restores. */
  lemma {:induction false} OneWarningPerClear(u: User, steps: seq<QuotaStep>)
    ensures Warnings(u, steps) + (if u.quotaWarned then 1 else 0)
            <= Clears(u, steps) + (if StepsRow(u, steps).quotaWarned then 1 else 0)
    ensures Warnings(u, steps) <= 1 + Clears(u, steps)
    decreases |steps|
  {
    if steps != [] {
      OneWarningPerClear(u, steps[..|steps| - 1]);
    }
  }

  /** Recalculate only escalates: it never lifts a suspension or a warning, it suspends
      exactly who is over a quota, and whoever it suspends has been warned. */
  lemma RecalculateEscalates(u: User, used: int)
    requires QuotaInRange(u)
    ensures u.quotaSuspended ==> Recalculated(u, used).quotaSuspended
    ensures u.quotaWarned ==> Recalculated(u, used).quotaWarned
    ensures Recalculated(u, used).quotaSuspended && !u.quotaSuspended
            ==> used >= u.quotaBytes > 0 && (u.quotaWarnPct >= 1 ==> Recalculated(u, used).quotaWarned)
    ensures used >= u.quotaBytes > 0 ==> Recalculated(u, used).quotaSuspended
    ensures Recalculated(Recalculated(u, used), used) == Recalculated(u, used)
  {
    if u.quotaBytes > 0 && u.quotaWarnPct >= 1 {
      ThresholdNeverAboveQuota(u.quotaBytes, u.quotaWarnPct);
    }
  }

  /** A user who exceeds a quota stays suspended for the rest of the period: only a
      rollover, an unlimited quota or new period, a reset, an explicit lift or a restore
      ends a suspension. */
  lemma OnlyTheseLiftSuspension(u: User, s: QuotaStep)
    requires u.quotaSuspended && !StepRow(u, s).quotaSuspended
    ensures match s
            case Recalculate(_) => false
            case Rollover(now) => 0 < PeriodEnd(u.quotaPeriod, u.quotaPeriodStart) <= now
            case SetQuota(bytes, period, _, _) =>
              bytes == 0 || period != u.quotaPeriod || u.quotaPeriodStart == 0
            case ResetQuota(_) => true
            case SetSuspended(b) => !b
            case RestoreQuota(prev) => !prev.quotaSuspended
  {
    if s.Rollover? && u.quotaPeriodStart > 0 {
      PeriodEndAdvances(u.quotaPeriod, u.quotaPeriodStart);
    }
  }
}
