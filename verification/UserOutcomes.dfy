/** What becomes of a user: what a period that ends, a recalculation, a tick and each kind
    of request leave in the row and in the running proxy, column by column. */
module UserOutcomes {
  import opened GoArithmetic
  import opened Options
  import opened ProxyUsers
  import opened QuotaPeriod
  import opened Traffic
  import opened Users
  import opened PanelModel

  // ---- who is served ----

  /** Some entry of the running proxy carries the label. */
  ghost predicate HasLabel(entries: seq<UserEntry>, user: string) {
    exists k :: 0 <= k < |entries| && entries[k].userLabel == user
  }

  predicate MayConnect(u: User) {
    u.enabled && !u.deleted && !u.quotaSuspended
  }

  /** The entries are exactly those of the users that may connect. */
  lemma {:induction false} DesiredMembers(users: seq<User>, e: UserEntry)
    ensures e in Desired(users)
            <==> exists i :: 0 <= i < |users| && MayConnect(users[i])
                             && users[i].userLabel == e.userLabel && users[i].secretHex == e.secret
    decreases |users|
  {
    if users != [] {
      DesiredMembers(users[1..], e);
      assert forall i :: 1 <= i < |users| ==> users[i] == users[1..][i - 1];
    }
  }

  lemma {:induction false} LabelsServed(users: seq<User>, user: string)
    ensures HasLabel(Desired(users), user)
            <==> exists i :: 0 <= i < |users| && MayConnect(users[i]) && users[i].userLabel == user
  {
    var entries := Desired(users);
    if HasLabel(entries, user) {
      var k :| 0 <= k < |entries| && entries[k].userLabel == user;
      DesiredMembers(users, entries[k]);
    }
    if i :| 0 <= i < |users| && MayConnect(users[i]) && users[i].userLabel == user {
      var e := UserEntry(user, users[i].secretHex);
      DesiredMembers(users, e);
      var k :| 0 <= k < |entries| && entries[k] == e;
    }
  }

  /** Labels are unique, so a user is served under its label exactly if it may connect, and
      then with its own secret alone. */
  lemma ServedIff(users: seq<User>, i: nat)
    requires KeysUnique(users) && i < |users|
    ensures HasLabel(Desired(users), users[i].userLabel) <==> MayConnect(users[i])
    ensures MayConnect(users[i]) ==> UserEntry(users[i].userLabel, users[i].secretHex) in Desired(users)
    ensures forall e :: e in Desired(users) && e.userLabel == users[i].userLabel ==> e.secret == users[i].secretHex
  {
    hide Desired, MayConnect;
    LabelsServed(users, users[i].userLabel);
    DesiredMembers(users, UserEntry(users[i].userLabel, users[i].secretHex));
    forall e | e in Desired(users) && e.userLabel == users[i].userLabel
      ensures e.secret == users[i].secretHex
    {
      DesiredMembers(users, e);
    }
  }

  // ---- finding a row ----

  /** The one undeleted row that a label names. */
  ghost predicate Named(users: seq<User>, i: nat, user: string) {
    KeysUnique(users) && i < |users| && users[i].userLabel == user && !users[i].deleted
  }

  lemma NamedIsFound(users: seq<User>, i: nat, user: string)
    requires Named(users, i, user)
    ensures IndexOfLabel(users, user) == i
  {
  }

  lemma ListedIsFound(users: seq<User>, i: nat)
    requires KeysUnique(users) && i < |users| && !users[i].deleted
    ensures IndexOfId(users, users[i].id) == i
  {
  }

  lemma KeysStay(users: seq<User>, i: nat, u: User)
    requires KeysUnique(users) && i < |users| && u.id == users[i].id && u.userLabel == users[i].userLabel
    ensures KeysUnique(users[i := u])
  {
  }

  // ---- a period that ends ----

  /** RolloverIfDue on a user whose period is over: the new period is the one that contains
      the clock, usage, warning and suspension are cleared, no other column and no other row
      changes, and a suspended user the reload reaches is served again. */
  lemma EndedPeriodStartsAfresh(p: Panel, user: string, i: nat, now: int, outcome: ReloadOutcome)
    requires Named(p.users, i, user) && 0 < p.users[i].quotaPeriodStart
    requires PeriodEnd(p.users[i].quotaPeriod, p.users[i].quotaPeriodStart) <= now
    ensures var (q, rolled, ok) := RolledOverPanel(p, user, now, false, outcome);
            var u := p.users[i];
            var start := Rolled(u.quotaPeriod, u.quotaPeriodStart, now);
            && rolled
            && q.users == p.users[i := u.(quotaUsedBytes := 0, quotaWarned := false, quotaSuspended := false,
                                          quotaPeriodStart := start)]
            && u.quotaPeriodStart < start <= now < PeriodEnd(u.quotaPeriod, start)
            && q.audit == p.audit + [QuotaRollover(user)]
            && (u.enabled && outcome.ReloadWorks? && (u.quotaSuspended || p.live == Desired(p.users)) ==>
                  UserEntry(user, u.secretHex) in q.live)
  {
    hide Desired, Applied, PeriodEnd;
    var u := p.users[i];
    NamedIsFound(p.users, i, user);
    PeriodEndAdvances(u.quotaPeriod, u.quotaPeriodStart);
    RolledContainsNow(u.quotaPeriod, u.quotaPeriodStart, now);
    var start := Rolled(u.quotaPeriod, u.quotaPeriodStart, now);
    var u' := u.(quotaUsedBytes := 0, quotaWarned := false, quotaSuspended := false, quotaPeriodStart := start);
    assert u'.quotaPeriodStart != u.quotaPeriodStart by { StartMoves(u.quotaPeriod, u.quotaPeriodStart, now); }
    var q := p.(users := p.users[i := u'], audit := p.audit + [QuotaRollover(user)]);
    AppliedKeepsTable(q, outcome);
    AppliedKeepsAudit(q, outcome);
    KeysStay(p.users, i, u');
    ServedIff(q.users, i);
    ServedIff(p.users, i);
  }

  lemma StartMoves(period: string, start: int, now: int)
    requires start > 0 && PeriodEnd(period, start) <= now
    ensures Rolled(period, start, now) > start
  {
    hide PeriodEnd;
    PeriodEndAdvances(period, start);
    RolledContainsNow(period, PeriodEnd(period, start), now);
  }

  lemma AppliedKeepsAudit(p: Panel, outcome: ReloadOutcome)
    ensures Applied(p, outcome).audit == p.audit
  {
    hide Desired;
  }

  /** Before the end nothing happens; a period that never started gets the day of the clock
      as its start and nothing else; a failing transaction changes nothing. */
  lemma RunningPeriodIsLeft(p: Panel, user: string, i: nat, now: int, dbFails: bool, outcome: ReloadOutcome)
    requires Named(p.users, i, user)
    ensures var (q, rolled, ok) := RolledOverPanel(p, user, now, dbFails, outcome);
            var u := p.users[i];
            && (dbFails ==> q == p && !ok)
            && (u.quotaPeriodStart < 0 || now < PeriodEnd(u.quotaPeriod, u.quotaPeriodStart) ==>
                  u.quotaPeriodStart != 0 ==> q == p && !rolled && ok == !dbFails)
            && (u.quotaPeriodStart == 0 && now >= 0 && !dbFails ==>
                  q == p.(users := p.users[i := u.(quotaPeriodStart := now - now % 86400)]) && !rolled && ok)
  {
    hide PeriodEnd;
    NamedIsFound(p.users, i, user);
    assert p.users[i := p.users[i]] == p.users;
  }

  // ---- recalculation ----

  /** What a quota and a percentage call for at some usage, without 64-bit overflow. */
  predicate OverQuota(u: User, used: int) {
    u.quotaBytes > 0 && used >= u.quotaBytes
  }

  predicate OverThreshold(u: User, used: int) {
    u.quotaBytes > 0 && u.quotaWarnPct > 0 && used >= u.quotaBytes * u.quotaWarnPct / 100
  }

  predicate QuotaFits(u: User) {
    0 <= u.quotaBytes <= MAX_INT64 && 0 <= u.quotaWarnPct <= 100 && u.quotaBytes * u.quotaWarnPct <= MAX_INT64
  }

  /** The row Recalculate leaves: the usage of the period, suspended or warned exactly if it
      was or is due; nothing else changes. */
  lemma RowIsDecided(u: User, used: int)
    ensures var u' := Recalculated(u, used);
            && u' == u.(quotaUsedBytes := used, quotaSuspended := u'.quotaSuspended, quotaWarned := u'.quotaWarned)
            && (u'.quotaSuspended <==> u.quotaSuspended || OverQuota(u, used))
            && (QuotaFits(u) ==> (u'.quotaWarned <==> u.quotaWarned || OverThreshold(u, used)))
  {
    hide WarnThreshold;
    if QuotaFits(u) && u.quotaBytes > 0 && u.quotaWarnPct > 0 {
      ThresholdExactIff(u.quotaBytes, u.quotaWarnPct);
    }
  }

  /** Recalculate on the whole panel: the named row is decided, the audit gains a warning
      and a suspension exactly when the row does, and a user it suspends is no longer
      served once the reload works. */
  lemma RecalculationDecides(p: Panel, user: string, i: nat, outcome: ReloadOutcome)
    requires Named(p.users, i, user)
    ensures var (q, ok) := RecalculatedPanel(p, user, false, outcome);
            var u := p.users[i];
            var used := if u.quotaPeriodStart == 0 then 0 else Usage(p.daily, user, u.quotaPeriodStart);
            var u' := q.users[i];
            && q.users == p.users[i := u'] && q.daily == p.daily
            && u'.quotaUsedBytes == used
            && u' == Recalculated(u, used)
            && q.audit == p.audit + (if u'.quotaWarned && !u.quotaWarned then [QuotaWarning(user)] else [])
                          + (if u'.quotaSuspended && !u.quotaSuspended then [QuotaSuspend(user)] else [])
            && (u'.quotaSuspended && !u.quotaSuspended && outcome.ReloadWorks? ==> !HasLabel(q.live, user))
            && (q.live == p.live || q.live == Desired(q.users))
  {
    hide Desired, Applied, Usage;
    NamedIsFound(p.users, i, user);
    var u := p.users[i];
    var used := Charged(u, p.daily);
    var u' := Recalculated(u, used);
    RowIsDecided(u, used);
    WarningIsNew(u, used);
    var q := p.(users := p.users[i := u'],
                audit := p.audit + (if u'.quotaWarned && !u.quotaWarned then [QuotaWarning(user)] else [])
                         + (if u'.quotaSuspended && !u.quotaSuspended then [QuotaSuspend(user)] else []));
    AppliedKeepsTable(q, outcome);
    AppliedKeepsAudit(q, outcome);
    KeysStay(p.users, i, u');
    ServedIff(q.users, i);
  }

  lemma WarningIsNew(u: User, used: int)
    ensures WarningDue(u, used) <==> Recalculated(u, used).quotaWarned && !u.quotaWarned
  {
    hide WarnThreshold;
  }

  // ---- requests that succeed ----

  /** A listed user, and a schedule in which nothing fails up to the reload. */
  ghost predicate Reaches(p: Panel, i: nat, f: HandlerFaults) {
    && KeysUnique(p.users) && i < |p.users| && !p.users[i].deleted
    && !f.listFails && !f.writeFails && f.reload.ReloadWorks?
  }

  /** The table after a request's own write, which the reload has brought to both files and
      the proxy. */
  ghost predicate Reached(p: Panel, q: Panel, users: seq<User>) {
    && q.users == users && q.daily == p.daily && q.audit == p.audit && q.reloadPending == p.reloadPending
    && q.usersJson == q.toml == Some(Desired(users)) && q.live == Desired(users)
  }

  lemma ReloadReaches(p: Panel, users: seq<User>)
    ensures Reached(p, Applied(p.(users := users), ReloadWorks), users)
  {
    hide Desired;
  }

  /** A request for a listed user, once its row is written and reloaded. */
  lemma RequestReaches(p: Panel, r: PanelModel.Request, i: nat, f: HandlerFaults, u: User) returns (q: Panel)
    requires Reaches(p, i, f) && p.users[i].id == r.id && Edited(p.users[i], r) == Some(u)
    ensures Reached(p, q, p.users[i := u])
    ensures Handled(p, r, f)
            == if Recalculates(r) then
                 (RecalculatedPanel(q, p.users[i].userLabel, f.recalculateDbFails, f.recalculateReload).0, Done)
               else (q, Done)
  {
    hide Edited, Restored, Desired, Listed, RecalculatedPanel, Applied;
    ListedIsFound(p.users, i);
    ListedKeepsName(p.users[i], p.daily);
    q := Applied(p.(users := p.users[i := u]), f.reload);
    ReloadReaches(p, p.users[i := u]);
  }

  /** Deleting a user: its row is marked, every other row is as before, no request finds it
      any more, and the proxy no longer serves its label. */
  lemma DeletedIsGone(p: Panel, i: nat, f: HandlerFaults)
    requires Reaches(p, i, f)
    ensures var (q, answer) := Handled(p, Delete(p.users[i].id), f);
            && answer == Done
            && q.users == p.users[i := p.users[i].(deleted := true)]
            && IndexOfId(q.users, p.users[i].id) < 0 && IndexOfLabel(q.users, p.users[i].userLabel) < 0
            && !HasLabel(q.live, p.users[i].userLabel)
  {
    hide Handled, Desired, IndexOfId, IndexOfLabel;
    var u := p.users[i].(deleted := true);
    var q := RequestReaches(p, Delete(p.users[i].id), i, f, u);
    KeysStay(p.users, i, u);
    ServedIff(q.users, i);
    AbsentFromLists(q.users, i);
  }

  lemma AbsentFromLists(users: seq<User>, i: nat)
    requires KeysUnique(users) && i < |users| && users[i].deleted
    ensures IndexOfId(users, users[i].id) < 0 && IndexOfLabel(users, users[i].userLabel) < 0
  {
  }

  /** Toggling a user flips its flag and nothing else, and the proxy serves it exactly if it
      is enabled and not suspended now. */
  lemma ToggledIsFlipped(p: Panel, i: nat, f: HandlerFaults)
    requires Reaches(p, i, f)
    ensures var u := p.users[i];
            var (q, answer) := Handled(p, Toggle(u.id), f);
            && answer == Done
            && q.users == p.users[i := u.(enabled := !u.enabled)]
            && (HasLabel(q.live, u.userLabel) <==> !u.enabled && !u.quotaSuspended)
  {
    hide Handled, Desired;
    var u := p.users[i].(enabled := !p.users[i].enabled);
    var q := RequestReaches(p, Toggle(p.users[i].id), i, f, u);
    KeysStay(p.users, i, u);
    ServedIff(q.users, i);
  }

  /** Rotating a secret replaces it, and a served user is served with the new one alone; a
      user without a secret is refused. */
  lemma RotatedIsReplaced(p: Panel, i: nat, secret: string, f: HandlerFaults)
    requires Reaches(p, i, f)
    ensures var u := p.users[i];
            var (q, answer) := Handled(p, Rotate(u.id, secret), f);
            if u.secretHex == "" then answer == Refused && q == p
            else
              && answer == Done
              && q.users == p.users[i := u.(secretHex := secret)]
              && (MayConnect(u) ==> UserEntry(u.userLabel, secret) in q.live)
              && (forall e :: e in q.live && e.userLabel == u.userLabel ==> e.secret == secret)
  {
    if p.users[i].secretHex == "" {
      ListedIsFound(p.users, i);
    } else {
      hide Handled, Desired;
      var u := p.users[i].(secretHex := secret);
      var q := RequestReaches(p, Rotate(p.users[i].id, secret), i, f, u);
      KeysStay(p.users, i, u);
      ServedIff(q.users, i);
    }
  }

  /** What a request leaves that wrote a row, reloaded and then recalculated. If the
      recalculation's own transaction fails the written row stays; otherwise it is decided by
      its usage, and the proxy follows once the second reload works. */
  ghost predicate Recounted(p: Panel, q: Panel, i: nat, u: User, f: HandlerFaults)
    requires i < |p.users|
  {
    var u' := Recalculated(u, UsageOf(u, p.daily));
    if f.recalculateDbFails then Reached(p, q, p.users[i := u])
    else
      && q.users == p.users[i := u']
      && (f.recalculateReload.ReloadWorks? && u'.quotaSuspended ==> !HasLabel(q.live, u.userLabel))
      && (f.recalculateReload.ReloadWorks? && MayConnect(u') ==> UserEntry(u.userLabel, u.secretHex) in q.live)
  }

  function UsageOf(u: User, daily: seq<DayRow>): int {
    if u.quotaPeriodStart == 0 then 0 else Usage(daily, u.userLabel, u.quotaPeriodStart)
  }

  lemma RecountAfterReload(p: Panel, m: Panel, i: nat, u: User, f: HandlerFaults)
    requires KeysUnique(p.users) && i < |p.users| && !p.users[i].deleted
    requires u.id == p.users[i].id && u.userLabel == p.users[i].userLabel && !u.deleted
    requires Reached(p, m, p.users[i := u])
    ensures var q := RecalculatedPanel(m, u.userLabel, f.recalculateDbFails, f.recalculateReload).0;
            && Recounted(p, q, i, u, f)
            && i < |q.users|
            && (!f.recalculateDbFails ==>
                  (q.users[i].quotaSuspended <==> u.quotaSuspended || OverQuota(u, UsageOf(u, p.daily))))
  {
    hide Desired, Usage, Recalculated;
    if f.recalculateDbFails {
    } else {
      hide RecalculatedPanel;
      var outcome := f.recalculateReload;
      KeysStay(p.users, i, u);
      RecalculationDecides(m, u.userLabel, i, outcome);
      RowIsDecided(u, UsageOf(u, p.daily));
      RecalculateStaysInSync(m, u.userLabel, false, outcome);
      NamedIsFound(m.users, i, u.userLabel);
      var q := RecalculatedPanel(m, u.userLabel, false, outcome).0;
      assert m.users[i := q.users[i]] == p.users[i := q.users[i]];
      KeysStay(p.users, i, q.users[i]);
      ServedIff(q.users, i);
    }
  }

  /** The clock's day, as the handlers snap it. */
  function DayOf(now: int): int
    requires now >= 0
  {
    now - now % 86400
  }

  /** Lifting or imposing a suspension by hand: a user who is suspended is not served; one
      whose suspension is lifted stays free exactly if its usage is within its quota, for
      the recalculation that follows suspends it again otherwise. */
  lemma SuspensionIsSet(p: Panel, i: nat, f: HandlerFaults)
    requires Reaches(p, i, f)
    ensures var u := p.users[i];
            var (q, answer) := Handled(p, SuspendToggle(u.id), f);
            && answer == Done
            && Recounted(p, q, i, u.(quotaSuspended := !u.quotaSuspended), f)
            && i < |q.users|
            && (!f.recalculateDbFails ==>
                  (q.users[i].quotaSuspended <==> !u.quotaSuspended || OverQuota(u, UsageOf(u, p.daily))))
  {
    hide Handled, Desired, Usage, RecalculatedPanel, Recounted;
    var u := p.users[i].(quotaSuspended := !p.users[i].quotaSuspended);
    var m := RequestReaches(p, SuspendToggle(p.users[i].id), i, f, u);
    RecountAfterReload(p, m, i, u, f);
  }

  /** Resetting a quota: the period starts over on the clock's day, and what counts from now
      on is the usage since then; earlier warnings and suspensions are gone. */
  lemma ResetStartsOver(p: Panel, i: nat, now: int, f: HandlerFaults)
    requires Reaches(p, i, f) && now >= 86400
    ensures var u := p.users[i];
            var (q, answer) := Handled(p, QuotaReset(u.id, now), f);
            && answer == Done
            && Recounted(p, q, i, u.(quotaUsedBytes := 0, quotaWarned := false, quotaSuspended := false,
                                     quotaPeriodStart := DayOf(now)), f)
            && i < |q.users|
            && (!f.recalculateDbFails ==>
                  (q.users[i].quotaSuspended <==> OverQuota(u, Usage(p.daily, u.userLabel, DayOf(now)))))
  {
    hide Handled, Desired, Usage, RecalculatedPanel, Recounted;
    var u := p.users[i].(quotaUsedBytes := 0, quotaWarned := false, quotaSuspended := false,
                         quotaPeriodStart := DayOf(now));
    DayOfIsPositive(now);
    var m := RequestReaches(p, QuotaReset(p.users[i].id, now), i, f, u);
    RecountAfterReload(p, m, i, u, f);
  }

  lemma DayOfIsPositive(now: int)
    requires now >= 86400
    ensures DayOf(now) > 0
  {
  }

  /** What setting a quota writes: the three settings as given; the period starts over only
      when its name changes or it never started; suspension and warning are cleared then,
      or when the quota is lifted, and kept otherwise. */
  function QuotaWritten(u: User, bytes: int, period: string, warnPct: int, today: int): User {
    var startsOver := u.quotaPeriod != period || u.quotaPeriodStart == 0;
    u.(quotaBytes := bytes, quotaPeriod := period, quotaWarnPct := warnPct,
       quotaPeriodStart := if startsOver then today else u.quotaPeriodStart,
       quotaUsedBytes := if startsOver then 0 else u.quotaUsedBytes,
       quotaWarned := u.quotaWarned && !startsOver && bytes != 0,
       quotaSuspended := u.quotaSuspended && !startsOver && bytes != 0)
  }

  /** Setting a quota: valid arguments, and no others, are stored, and the usage of the
      resulting period decides about suspension. A suspended user whose quota is merely
      raised stays suspended. */
  lemma QuotaIsStored(p: Panel, i: nat, bytes: int, period: string, warnPct: int, now: int, f: HandlerFaults)
    requires Reaches(p, i, f) && now >= 0
    ensures var u := p.users[i];
            var (q, answer) := Handled(p, QuotaSet(u.id, bytes, period, warnPct, now), f);
            if bytes < 0 || !(0 <= warnPct <= 100) || period !in ["daily", "weekly", "monthly"] then
              answer == Refused && q == p
            else
              var w := QuotaWritten(u, bytes, period, warnPct, DayOf(now));
              && answer == Done
              && Recounted(p, q, i, w, f)
              && i < |q.users|
              && (!f.recalculateDbFails ==>
                    (q.users[i].quotaSuspended <==> w.quotaSuspended || OverQuota(w, UsageOf(w, p.daily))))
  {
    hide Handled, Desired, Usage, RecalculatedPanel, Recounted;
    var r := QuotaSet(p.users[i].id, bytes, period, warnPct, now);
    var u := p.users[i];
    QuotaWrites(u, bytes, period, warnPct, now);
    if bytes < 0 || !(0 <= warnPct <= 100) || period !in ["daily", "weekly", "monthly"] {
      InvalidIsRefused(p, r, i, f);
    } else {
      var w := QuotaWritten(u, bytes, period, warnPct, DayOf(now));
      var m := RequestReaches(p, r, i, f, w);
      RecountAfterReload(p, m, i, w, f);
    }
  }

  lemma InvalidIsRefused(p: Panel, r: PanelModel.Request, i: nat, f: HandlerFaults)
    requires Reaches(p, i, f) && p.users[i].id == r.id && Edited(p.users[i], r).None?
    ensures Handled(p, r, f) == (p, Refused)
  {
    hide Edited, Restored, Listed, Applied, RecalculatedPanel;
    ListedIsFound(p.users, i);
  }

  lemma QuotaWrites(u: User, bytes: int, period: string, warnPct: int, now: int)
    requires now >= 0
    ensures Edited(u, QuotaSet(u.id, bytes, period, warnPct, now))
            == if bytes < 0 || !(0 <= warnPct <= 100) || period !in ["daily", "weekly", "monthly"] then None
               else Some(QuotaWritten(u, bytes, period, warnPct, DayOf(now)))
  {
  }

  /** Creating a user adds one enabled row under a fresh id, without a quota, and the proxy
      serves it next to all others. */
  lemma CreatedIsServed(p: Panel, user: string, secret: string, f: HandlerFaults)
    requires KeysUnique(p.users) && Created(p, user, secret, f).1.Done?
    ensures var q := Created(p, user, secret, f).0;
            var n := |p.users|;
            && |q.users| == n + 1 && q.users[..n] == p.users
            && q.users[n].userLabel == user && q.users[n].secretHex == secret && MayConnect(q.users[n])
            && q.users[n].quotaBytes == 0 && q.users[n].quotaPeriodStart == 0
            && q.users[n].quotaPeriod == "monthly" && q.users[n].quotaWarnPct == 80
            && KeysUnique(q.users)
            && q.live == Desired(p.users) + [UserEntry(user, secret)]
  {
    hide Desired, KeysUnique, LabelTaken, ActiveCount;
    CreateKeepsKeysUnique(p, user, secret, f);
    DesiredAppend(p.users, NewUser(NextId(p.users), user, secret));
  }

  // ---- ticks ----

  /** The row after a period that ended, or never started, has been dealt with. */
  function RowInPeriod(u: User, now: int): User
    requires now >= 0
  {
    if u.quotaPeriodStart == 0 then u.(quotaPeriodStart := DayOf(now))
    else if 0 < u.quotaPeriodStart && PeriodEnd(u.quotaPeriod, u.quotaPeriodStart) <= now then
      u.(quotaUsedBytes := 0, quotaWarned := false, quotaSuspended := false,
         quotaPeriodStart := Rolled(u.quotaPeriod, u.quotaPeriodStart, now))
    else u
  }

  /** What a tick makes of a row: first the period, then the usage in it decides. */
  function RowAfterTick(u: User, now: int, daily: seq<DayRow>): User
    requires now >= 0
  {
    var w := RowInPeriod(u, now);
    Recalculated(w, UsageOf(w, daily))
  }

  lemma PeriodOfTick(p: Panel, user: string, i: nat, f: TickFault)
    requires Named(p.users, i, user) && Faultless(f) && f.now >= 0
    ensures var (q, _, ok) := RolledOverPanel(p, user, f.now, f.rolloverDbFails, f.rolloverReload);
            ok && q.users == p.users[i := RowInPeriod(p.users[i], f.now)] && q.daily == p.daily
  {
    hide PeriodEnd, Rolled, Desired, Applied;
    var u := p.users[i];
    RunningPeriodIsLeft(p, user, i, f.now, false, f.rolloverReload);
    assert p.users[i := p.users[i]] == p.users;
    if 0 < u.quotaPeriodStart && PeriodEnd(u.quotaPeriod, u.quotaPeriodStart) <= f.now {
      EndedPeriodStartsAfresh(p, user, i, f.now, f.rolloverReload);
      RolloverKeepsDaily(p, user, f.now, f.rolloverReload);
    }
  }

  lemma RolloverKeepsDaily(p: Panel, user: string, now: int, outcome: ReloadOutcome)
    ensures var (q, _, ok) := RolledOverPanel(p, user, now, false, outcome);
            q.daily == p.daily && (outcome.ReloadWorks? && IndexOfLabel(p.users, user) >= 0 ==> ok)
  {
    hide Rolled, Desired, DayFloor;
  }

  lemma RowOfTick(p: Panel, user: string, i: nat, f: TickFault)
    requires Named(p.users, i, user) && Faultless(f) && f.now >= 0
    ensures var q := TickedUser(p, user, f);
            q.users == p.users[i := RowAfterTick(p.users[i], f.now, p.daily)] && q.daily == p.daily
  {
    hide PeriodEnd, Rolled, Desired, Usage, Recalculated, RolledOverPanel, RecalculatedPanel;
    var m := RolledOverPanel(p, user, f.now, f.rolloverDbFails, f.rolloverReload).0;
    PeriodOfTick(p, user, i, f);
    KeysStay(p.users, i, RowInPeriod(p.users[i], f.now));
    RecalculationDecides(m, user, i, f.recalculateReload);
  }

  lemma TickKeepsNames(u: User, now: int, daily: seq<DayRow>)
    requires now >= 0
    ensures var u' := RowAfterTick(u, now, daily);
            u'.id == u.id && u'.userLabel == u.userLabel && u'.deleted == u.deleted && u'.enabled == u.enabled
  {
    hide Usage, PeriodEnd, Rolled;
  }

  ghost predicate Distinct(labels: seq<string>) {
    forall j, k :: 0 <= j < k < |labels| ==> labels[j] != labels[k]
  }

  lemma {:induction false} RowsOfTick(p: Panel, labels: seq<string>, faults: seq<TickFault>, i: nat)
    requires KeysUnique(p.users) && i < |p.users| && !p.users[i].deleted
    requires |faults| <= |labels| && Distinct(labels)
    requires forall k :: 0 <= k < |labels| ==> IndexOfLabel(p.users, labels[k]) >= 0
    requires forall k :: 0 <= k < |faults| ==> Faultless(faults[k]) && faults[k].now >= 0
    ensures var q := Ticked(p, labels, faults);
            && |q.users| == |p.users| && q.daily == p.daily && KeysUnique(q.users)
            && (forall k :: 0 <= k < |faults| && labels[k] == p.users[i].userLabel ==>
                  q.users[i] == RowAfterTick(p.users[i], faults[k].now, p.daily))
            && ((forall k :: 0 <= k < |faults| ==> labels[k] != p.users[i].userLabel) ==> q.users[i] == p.users[i])
    decreases |faults|
  {
    hide RowAfterTick, TickedUser, Desired, IndexOfLabel, KeysUnique;
    if faults != [] {
      var f := faults[0];
      var j := IndexOfLabel(p.users, labels[0]);
      assert Named(p.users, j, labels[0]);
      var u' := RowAfterTick(p.users[j], f.now, p.daily);
      RowOfTick(p, labels[0], j, f);
      TickKeepsNames(p.users[j], f.now, p.daily);
      KeysStay(p.users, j, u');
      var q := TickedUser(p, labels[0], f);
      forall k | 0 <= k < |labels[1..]|
        ensures IndexOfLabel(q.users, labels[1..][k]) >= 0
      {
        RowsKeepTheirNames(p, labels[0], labels[k + 1], f);
      }
      RowsOfTick(q, labels[1..], faults[1..], i);
      OneNamed(p.users, i, j, labels[0]);
      assert forall k :: 1 <= k < |faults| ==> faults[k] == faults[1..][k - 1] && labels[k] == labels[1..][k - 1];
    }
  }

  lemma OneNamed(users: seq<User>, i: nat, j: nat, user: string)
    requires KeysUnique(users) && i < |users| && j < |users| && users[j].userLabel == user
    ensures users[i].userLabel == user <==> i == j
  {
  }

  lemma {:induction false} LabelIsListed(users: seq<User>, i: nat) returns (k: nat)
    requires i < |users| && !users[i].deleted
    ensures k < |Labels(users)| && Labels(users)[k] == users[i].userLabel
    decreases |users|
  {
    if i == 0 {
      k := 0;
    } else {
      k := LabelIsListed(users[1..], i - 1);
      if !users[0].deleted {
        k := k + 1;
      }
    }
  }

  lemma {:induction false} LabelIsOf(users: seq<User>, k: nat) returns (i: nat)
    requires k < |Labels(users)|
    ensures i < |users| && !users[i].deleted && Labels(users)[k] == users[i].userLabel
    decreases |users|
  {
    if users[0].deleted {
      i := LabelIsOf(users[1..], k);
      i := i + 1;
    } else if k == 0 {
      i := 0;
    } else {
      i := LabelIsOf(users[1..], k - 1);
      i := i + 1;
    }
  }

  lemma {:induction false} LabelsAreDistinct(users: seq<User>)
    requires KeysUnique(users)
    ensures Distinct(Labels(users))
    decreases |users|
  {
    if users != [] {
      LabelsAreDistinct(users[1..]);
      var rest := Labels(users[1..]);
      forall k | 0 <= k < |rest|
        ensures rest[k] != users[0].userLabel
      {
        var i := LabelIsOf(users[1..], k);
        assert users[1..][i] == users[i + 1];
      }
    }
  }

  /** A tick without failures, cut short or not: it moves every user it reaches into the
      period that contains the clock, charges the usage of that period, and suspends
      exactly who was suspended in it already or is over quota; users it does not reach and
      deleted ones keep their rows. */
  lemma TickDecidesRows(p: Panel, faults: seq<TickFault>, i: nat)
    requires KeysUnique(p.users) && i < |p.users| && !p.users[i].deleted && |faults| <= |Labels(p.users)|
    requires forall k :: 0 <= k < |faults| ==> Faultless(faults[k]) && faults[k].now >= 0
    ensures var q := Ticked(p, Labels(p.users), faults);
            && |q.users| == |p.users| && q.daily == p.daily && KeysUnique(q.users)
            && exists k :: 0 <= k < |Labels(p.users)| && Labels(p.users)[k] == p.users[i].userLabel
                           && q.users[i] == (if k < |faults| then RowAfterTick(p.users[i], faults[k].now, p.daily)
                                             else p.users[i])
  {
    hide RowAfterTick, Ticked, Labels, KeysUnique, Faultless;
    LabelsAreDistinct(p.users);
    forall k | 0 <= k < |Labels(p.users)|
      ensures IndexOfLabel(p.users, Labels(p.users)[k]) >= 0
    {
      LabelsAreFound(p.users, k);
    }
    RowsOfTick(p, Labels(p.users), faults, i);
    var k := LabelIsListed(p.users, i);
    assert Labels(p.users)[k] == p.users[i].userLabel;
  }

  /** Quotas are enforced: after a whole tick without failures, from any panel in sync, every
      user in the table is charged exactly its usage, nobody over quota is served, and the
      proxy serves a user exactly if it is enabled and not suspended. */
  lemma TickEnforcesQuotas(p: Panel, faults: seq<TickFault>, i: nat)
    requires InSync(p) && KeysUnique(p.users) && i < |p.users| && !p.users[i].deleted
    requires |faults| == |Labels(p.users)|
    requires forall k :: 0 <= k < |faults| ==> Faultless(faults[k]) && faults[k].now >= 0
    ensures var q := Ticked(p, Labels(p.users), faults);
            && i < |q.users|
            && var u, u' := p.users[i], q.users[i];
            && u'.userLabel == u.userLabel
            && u'.quotaUsedBytes == UsageOf(u', q.daily)
            && (OverQuota(u', u'.quotaUsedBytes) ==> u'.quotaSuspended)
            && (u'.quotaSuspended && !OverQuota(u', u'.quotaUsedBytes) ==>
                  u.quotaSuspended && (u.quotaPeriodStart == 0 || u'.quotaPeriodStart == u.quotaPeriodStart))
            && (HasLabel(q.live, u.userLabel) <==> u.enabled && !u'.quotaSuspended)
  {
    hide RowAfterTick, Ticked, Labels, KeysUnique, Faultless, Desired, IndexOfLabel;
    TickDecidesRows(p, faults, i);
    var labels := Labels(p.users);
    var q := Ticked(p, labels, faults);
    var k :| 0 <= k < |labels| && labels[k] == p.users[i].userLabel
             && q.users[i] == (if k < |faults| then RowAfterTick(p.users[i], faults[k].now, p.daily) else p.users[i]);
    TickedRowIsSettled(p.users[i], faults[k].now, p.daily);
    forall j | 0 <= j < |labels|
      ensures IndexOfLabel(p.users, labels[j]) >= 0
    {
      LabelsAreFound(p.users, j);
    }
    TickRepairs(p, labels, faults);
    ServedIff(q.users, i);
  }

  lemma TickedRowIsSettled(u: User, now: int, daily: seq<DayRow>)
    requires now >= 0
    ensures var u' := RowAfterTick(u, now, daily);
            && u'.userLabel == u.userLabel && u'.enabled == u.enabled && u'.deleted == u.deleted
            && u'.quotaUsedBytes == UsageOf(u', daily)
            && (OverQuota(u', u'.quotaUsedBytes) ==> u'.quotaSuspended)
            && (u'.quotaSuspended && !OverQuota(u', u'.quotaUsedBytes) ==>
                  u.quotaSuspended && (u.quotaPeriodStart == 0 || u'.quotaPeriodStart == u.quotaPeriodStart))
  {
    hide Usage, PeriodEnd, Rolled;
    RowIsDecided(RowInPeriod(u, now), UsageOf(RowInPeriod(u, now), daily));
  }

  // ---- the sixteen secrets of the proxy ----

  predicate IsActive(u: User) {
    u.enabled && !u.deleted
  }

  lemma {:induction false} ActiveAfterChange(users: seq<User>, i: nat, u: User)
    requires i < |users|
    ensures ActiveCount(users[i := u])
            == ActiveCount(users) - (if IsActive(users[i]) then 1 else 0) + (if IsActive(u) then 1 else 0)
    decreases |users|
  {
    if i == 0 {
      assert users[0 := u][1..] == users[1..];
    } else {
      assert users[i := u][1..] == users[1..][i - 1 := u];
      ActiveAfterChange(users[1..], i - 1, u);
    }
  }

  lemma {:induction false} ActiveAfterAppend(users: seq<User>, u: User)
    ensures ActiveCount(users + [u]) == ActiveCount(users) + if IsActive(u) then 1 else 0
    decreases |users|
  {
    if users == [] {
      assert users + [u] == [u] && [u][1..] == [];
    } else {
      assert (users + [u])[1..] == users[1..] + [u];
      ActiveAfterAppend(users[1..], u);
    }
  }

  /** A creation that is done leaves at most sixteen active users. */
  lemma CreationKeepsLimit(p: Panel, user: string, secret: string, f: HandlerFaults)
    requires KeysUnique(p.users) && Created(p, user, secret, f).1.Done?
    ensures ActiveCount(Created(p, user, secret, f).0.users) == ActiveCount(p.users) + 1 <= 16
  {
    hide Desired, KeysUnique, LabelTaken;
    CreatedIsServed(p, user, secret, f);
    var users := Created(p, user, secret, f).0.users;
    assert users == p.users + [users[|p.users|]];
    ActiveAfterAppend(p.users, users[|p.users|]);
  }

  /** A toggle asks for no limit: of sixteen or fewer active users it makes more than
      sixteen exactly if there are sixteen and the user is disabled. */
  lemma ToggleExceedsLimitIff(p: Panel, i: nat, f: HandlerFaults)
    requires Reaches(p, i, f) && ActiveCount(p.users) <= 16
    ensures ActiveCount(Handled(p, Toggle(p.users[i].id), f).0.users) > 16
            <==> ActiveCount(p.users) == 16 && !p.users[i].enabled
  {
    hide Handled, KeysUnique, HasLabel;
    ToggledIsFlipped(p, i, f);
    ActiveAfterChange(p.users, i, p.users[i].(enabled := !p.users[i].enabled));
  }
}
