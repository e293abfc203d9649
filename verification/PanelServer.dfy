/** The quota service and the panel's user handlers as they run: statements that update
    the users table, the files and the proxy one after another. Each method is tied to
    the function of the whole state that PanelModel reasons about. */
module PanelServer {
  import opened GoArithmetic
  import opened Options
  import opened ProxyUsers
  import opened QuotaPeriod
  import opened Traffic
  import opened Users
  import opened PanelModel

  /** A bulk handler has noted the previous flag of row j. */
  predicate Remembers(changed: seq<(int, bool)>, j: int) {
    exists c :: 0 <= c < |changed| && changed[c].0 == j
  }

  lemma RemembersMore(changed: seq<(int, bool)>, i: int, flag: bool)
    ensures forall j :: Remembers(changed + [(i, flag)], j) <==> Remembers(changed, j) || j == i
  {
    var more := changed + [(i, flag)];
    assert more[|changed|].0 == i;
    forall j | Remembers(changed, j)
      ensures Remembers(more, j)
    {
      var c :| 0 <= c < |changed| && changed[c].0 == j;
      assert more[c].0 == j;
    }
  }

  /** Of some rows, those the ids name are suspended and no other has changed. */
  ghost predicate SuspendedAmong(before: seq<User>, users: seq<User>, ids: seq<int>) {
    && |users| == |before|
    && forall j :: 0 <= j < |users| ==>
         users[j] == if before[j].id in ids && IndexOfId(before, before[j].id) == j
                     then before[j].(quotaSuspended := true) else before[j]
  }

  /** What is needed to take a bulk suspension back: the previous flag of every row that
      has changed. */
  ghost predicate Noted(before: seq<User>, users: seq<User>, changed: seq<(int, bool)>) {
    && |users| == |before|
    && (forall j :: 0 <= j < |users| ==>
          users[j] == before[j] || users[j] == before[j].(quotaSuspended := true))
    && (forall c :: 0 <= c < |changed| ==>
          0 <= changed[c].0 < |before| && changed[c].1 == before[changed[c].0].quotaSuspended)
    && (forall j :: 0 <= j < |users| && users[j] != before[j] ==> Remembers(changed, j))
  }

  lemma NothingSuspended(users: seq<User>)
    ensures SuspendedAmong(users, users, []) && Noted(users, users, [])
  {
  }

  lemma SuspendOneMore(before: seq<User>, users: seq<User>, ids: seq<int>, id: int)
    requires SuspendedAmong(before, users, ids)
    ensures var i := IndexOfId(before, id);
            SuspendedAmong(before, if i >= 0 then users[i := users[i].(quotaSuspended := true)] else users, ids + [id])
  {
    hide IndexOfId;
  }

  lemma NoteOneMore(before: seq<User>, users: seq<User>, changed: seq<(int, bool)>, i: int)
    requires Noted(before, users, changed) && 0 <= i < |users|
    ensures var more := changed + [(i, before[i].quotaSuspended)];
            Noted(before, users, more) && Noted(before, users[i := users[i].(quotaSuspended := true)], more)
  {
    hide Remembers;
    RemembersMore(changed, i, before[i].quotaSuspended);
  }

  lemma SuspendedAmongIs(before: seq<User>, users: seq<User>, ids: seq<int>)
    requires SuspendedAmong(before, users, ids)
    ensures users == WithSuspended(before, ids)
  {
    hide IndexOfId;
  }

  /** A listed row differs from the stored one in its usage alone. */
  lemma ListedIsStored(u: User, daily: seq<DayRow>)
    ensures Listed(u, daily) == u.(quotaUsedBytes := Listed(u, daily).quotaUsedBytes)
  {
    hide HasDays, Usage;
  }

  class Server {
    var users: seq<User>
    var daily: seq<DayRow>
    var usersJson: Option<seq<UserEntry>>
    var toml: Option<seq<UserEntry>>
    var live: seq<UserEntry>
    var reloadPending: bool
    var audit: seq<Audit>

    ghost function State(): Panel
      reads this
    {
      Panel.Panel(users, daily, usersJson, toml, live, reloadPending, audit)
    }

    constructor ()
      ensures State() == NEW_PANEL
    {
      users, daily, live, audit := [], [], [], [];
      usersJson, toml, reloadPending := None, None, false;
    }

    // ---- applying the table ----

    method ApplyTeleproxyConfig(outcome: ReloadOutcome) returns (ok: bool)
      modifies this`usersJson, this`toml, this`live
      ensures ok <==> outcome.ReloadWorks?
      ensures State() == Applied(old(State()), outcome)
    {
      if outcome == ListFails {
        return false;
      }
      var entries := [];
      var i := 0;
      assert users[0..] == users;
      while i < |users|
        invariant 0 <= i <= |users|
        invariant entries + Desired(users[i..]) == Desired(users)
      {
        assert users[i..][1..] == users[i + 1..];
        if users[i].enabled && !users[i].deleted && !users[i].quotaSuspended {
          entries := entries + [UserEntry(users[i].userLabel, users[i].secretHex)];
        }
        i := i + 1;
      }
      assert entries == Desired(users);
      if outcome == UsersJsonFails {
        usersJson := None;
        return false;
      }
      usersJson := Some(entries);
      if outcome == TomlFails {
        toml := None;
        return false;
      }
      toml := Some(entries);
      if outcome == SignalFails {
        return false;
      }
      live := entries;
      return true;
    }

    // ---- the quota service ----

    method RunReload(outcome: ReloadOutcome) returns (ok: bool)
      modifies this`usersJson, this`toml, this`live, this`reloadPending
      ensures ok <==> outcome.ReloadWorks?
      ensures State() == Reloaded(old(State()), outcome)
    {
      ok := ApplyTeleproxyConfig(outcome);
      reloadPending := !ok;
    }

    method FindLabel(user: string) returns (row: int)
      ensures row == IndexOfLabel(users, user)
    {
      row := 0;
      assert users[0..] == users;
      while row < |users|
        invariant 0 <= row <= |users|
        invariant var rest := IndexOfLabel(users[row..], user);
                  IndexOfLabel(users, user) == if rest < 0 then -1 else row + rest
      {
        assert users[row..][1..] == users[row + 1..];
        if users[row].userLabel == user && !users[row].deleted {
          return;
        }
        row := row + 1;
      }
      row := -1;
    }

    /** The catch-up loop of RolloverIfDue: elapsed periods are passed one at a time. */
    method CatchUp(period: string, periodStart: int, now: int) returns (cur: int, rolled: bool)
      ensures cur == Rolled(period, periodStart, now)
      ensures rolled <==> cur != periodStart
    {
      rolled := false;
      cur := periodStart;
      while true
        invariant Rolled(period, cur, now) == Rolled(period, periodStart, now)
        invariant rolled ==> periodStart < cur
        invariant !rolled ==> cur == periodStart
        decreases now - cur
      {
        var end := PeriodEnd(period, cur);
        if cur > 0 {
          PeriodEndAdvances(period, cur);
        }
        if end <= 0 || now < end {
          break;
        }
        cur := end;
        rolled := true;
      }
    }

    method RolloverIfDue(user: string, now: int, dbFails: bool, outcome: ReloadOutcome)
        returns (rolled: bool, ok: bool)
      modifies this`users, this`usersJson, this`toml, this`live, this`reloadPending, this`audit
      ensures (State(), rolled, ok) == RolledOverPanel(old(State()), user, now, dbFails, outcome)
    {
      hide Rolled, DayFloor, Desired;
      if dbFails {
        return false, false;
      }
      var i := FindLabel(user);
      if i < 0 {
        return false, false;
      }
      var period, periodStart, wasSuspended :=
        users[i].quotaPeriod, users[i].quotaPeriodStart, users[i].quotaSuspended;
      if periodStart == 0 {
        users := users[i := users[i].(quotaPeriodStart := DayFloor(now))];
        return false, true;
      }
      var cur;
      cur, rolled := CatchUp(period, periodStart, now);
      if !rolled {
        assert users[i := users[i]] == users;
        return false, true;
      }
      users := users[i := users[i].(quotaUsedBytes := 0, quotaWarned := false, quotaSuspended := false,
                                    quotaPeriodStart := cur)];
      audit := audit + [QuotaRollover(user)];
      ok := true;
      if wasSuspended {
        ok := RunReload(outcome);
      }
    }

    /** The decision part of Recalculate: usage, suspension and the one-shot warning. */
    method Decide(u: User) returns (used: int, suspended: bool, warned: bool, emitWarning: bool)
      ensures used == Charged(u, daily)
      ensures Recalculated(u, used)
              == u.(quotaUsedBytes := used, quotaSuspended := suspended, quotaWarned := warned)
      ensures emitWarning == WarningDue(u, used)
    {
      used := 0;
      if u.quotaPeriodStart != 0 {
        used := Usage(daily, u.userLabel, u.quotaPeriodStart);
      }
      suspended := u.quotaSuspended;
      if u.quotaBytes > 0 && used >= u.quotaBytes {
        suspended := true;
      }
      warned := u.quotaWarned;
      emitWarning := false;
      if u.quotaBytes > 0 && !u.quotaWarned && u.quotaWarnPct > 0 {
        if used >= WarnThreshold(u.quotaBytes, u.quotaWarnPct) {
          warned := true;
          emitWarning := true;
        }
      }
    }

    method Recalculate(user: string, dbFails: bool, outcome: ReloadOutcome) returns (ok: bool)
      modifies this`users, this`usersJson, this`toml, this`live, this`reloadPending, this`audit
      ensures (State(), ok) == RecalculatedPanel(old(State()), user, dbFails, outcome)
    {
      hide Charged, WarningDue, Desired, IndexOfLabel;
      if dbFails {
        return false;
      }
      var i := FindLabel(user);
      if i < 0 {
        return false;
      }
      var u := users[i];
      var used, suspended, warned, emitWarning := Decide(u);
      users := users[i := u.(quotaUsedBytes := used, quotaSuspended := suspended, quotaWarned := warned)];
      var events := if emitWarning then [QuotaWarning(user)] else [];
      if suspended != u.quotaSuspended {
        audit := audit + events + [QuotaSuspend(user)];
        ok := RunReload(outcome);
      } else {
        assert audit + events + [] == audit + events;
        audit := audit + events;
        ok := true;
        if reloadPending {
          ok := RunReload(outcome);
        }
      }
    }

    method ListLabels() returns (labels: seq<string>)
      ensures labels == Labels(users)
    {
      labels := [];
      var i := 0;
      assert users[0..] == users;
      while i < |users|
        invariant 0 <= i <= |users|
        invariant labels + Labels(users[i..]) == Labels(users)
      {
        assert users[i..][1..] == users[i + 1..];
        if !users[i].deleted {
          labels := labels + [users[i].userLabel];
        }
        i := i + 1;
      }
    }

    /** tickAll; it stops after |faults| users when its context is cancelled. */
    method TickAll(faults: seq<TickFault>)
      modifies this`users, this`usersJson, this`toml, this`live, this`reloadPending, this`audit
      requires |faults| <= |Labels(users)|
      ensures State() == Ticked(old(State()), Labels(old(users)), faults)
    {
      hide RolledOverPanel, RecalculatedPanel, Labels;
      var labels := ListLabels();
      var i := 0;
      assert labels[0..] == labels && faults[0..] == faults;
      while i < |faults|
        invariant 0 <= i <= |faults| <= |labels|
        invariant Ticked(State(), labels[i..], faults[i..]) == Ticked(old(State()), labels, faults)
      {
        assert labels[i..][1..] == labels[i + 1..] && faults[i..][1..] == faults[i + 1..];
        var f := faults[i];
        var _, ok := RolloverIfDue(labels[i], f.now, f.rolloverDbFails, f.rolloverReload);
        if ok {
          var _ := Recalculate(labels[i], f.recalculateDbFails, f.recalculateReload);
        }
        i := i + 1;
      }
      assert faults[i..] == [];
    }

    // ---- user handlers ----

    /** The target of a request among the listed users. */
    method FindTarget(id: int) returns (row: int)
      ensures row == IndexOfId(users, id)
    {
      row := 0;
      assert users[0..] == users;
      while row < |users|
        invariant 0 <= row <= |users|
        invariant var rest := IndexOfId(users[row..], id);
                  IndexOfId(users, id) == if rest < 0 then -1 else row + rest
      {
        assert users[row..][1..] == users[row + 1..];
        if users[row].id == id && !users[row].deleted {
          return;
        }
        row := row + 1;
      }
      row := -1;
    }

    method HandleUserToggle(id: int, f: HandlerFaults) returns (answer: Answer)
      modifies this`users, this`usersJson, this`toml, this`live
      ensures (State(), answer) == Handled(old(State()), Toggle(id), f)
    {
      hide Applied, Listed, IndexOfId;
      if f.listFails { return Refused; }
      var i := FindTarget(id);
      if i < 0 { return Refused; }
      var target := users[i];
      ListedIsStored(target, daily);
      if f.writeFails { return Refused; }
      users := users[i := users[i].(enabled := !target.enabled)];
      AppliedKeepsTable(State(), f.reload);
      var ok := ApplyTeleproxyConfig(f.reload);
      if !ok {
        users := users[i := users[i].(enabled := target.enabled)];
        return RolledBack;
      }
      return Done;
    }

    method HandleUserDelete(id: int, f: HandlerFaults) returns (answer: Answer)
      modifies this`users, this`usersJson, this`toml, this`live
      ensures (State(), answer) == Handled(old(State()), Delete(id), f)
    {
      hide Applied, Listed, IndexOfId;
      if f.listFails { return Refused; }
      var i := FindTarget(id);
      if i < 0 || f.writeFails { return Refused; }
      ListedIsStored(users[i], daily);
      users := users[i := users[i].(deleted := true)];
      AppliedKeepsTable(State(), f.reload);
      var ok := ApplyTeleproxyConfig(f.reload);
      if !ok {
        users := users[i := users[i].(deleted := false)];
        return RolledBack;
      }
      return Done;
    }

    method HandleUserRotate(id: int, secret: string, f: HandlerFaults) returns (answer: Answer)
      modifies this`users, this`usersJson, this`toml, this`live
      ensures (State(), answer) == Handled(old(State()), Rotate(id, secret), f)
    {
      hide Applied, Listed, IndexOfId;
      if f.listFails { return Refused; }
      var i := FindTarget(id);
      if i < 0 { return Refused; }
      ListedIsStored(users[i], daily);
      var oldSecret := users[i].secretHex;
      if oldSecret == "" || f.writeFails { return Refused; }
      users := users[i := users[i].(secretHex := secret)];
      AppliedKeepsTable(State(), f.reload);
      var ok := ApplyTeleproxyConfig(f.reload);
      if !ok {
        users := users[i := users[i].(secretHex := oldSecret)];
        return RolledBack;
      }
      return Done;
    }

    method HandleUserQuotaSet(id: int, bytes: int, period: string, warnPct: int, now: int, f: HandlerFaults)
        returns (answer: Answer)
      modifies this`users, this`usersJson, this`toml, this`live, this`reloadPending, this`audit
      ensures (State(), answer)
              == Handled(old(State()), QuotaSet(id, bytes, period, warnPct, now), f)
    {
      hide Applied, Listed, IndexOfId, RecalculatedPanel, DayFloor, WithQuota, QuotaArgumentsValid;
      if f.listFails { return Refused; }
      var i := FindTarget(id);
      if i < 0 { return Refused; }
      ListedIsStored(users[i], daily);
      var prev := Listed(users[i], daily);
      var ok := SetQuota(i, bytes, period, warnPct, DayFloor(now), f.writeFails);
      if !ok { return Refused; }
      AppliedKeepsTable(State(), f.reload);
      ok := ApplyTeleproxyConfig(f.reload);
      if !ok {
        users := users[i := WithQuotaOf(users[i], prev)];
        return RolledBack;
      }
      var _ := Recalculate(prev.userLabel, f.recalculateDbFails, f.recalculateReload);
      return Done;
    }

    /** UserRepo.SetQuota on the row at hand. */
    method SetQuota(i: int, bytes: int, period: string, warnPct: int, nowTs: int, writeFails: bool)
        returns (ok: bool)
      requires 0 <= i < |users|
      modifies this`users
      ensures ok <==> QuotaArgumentsValid(bytes, period, warnPct) && !writeFails
      ensures users == if ok then old(users)[i := WithQuota(old(users)[i], bytes, period, warnPct, nowTs)]
                       else old(users)
    {
      if period != PERIOD_DAILY && period != PERIOD_WEEKLY && period != PERIOD_MONTHLY {
        return false;
      }
      if warnPct < 0 || warnPct > 100 {
        return false;
      }
      if bytes < 0 || writeFails {
        return false;
      }
      var u := users[i];
      if bytes == 0 {
        if u.quotaPeriod != period || u.quotaPeriodStart == 0 {
          u := u.(quotaBytes := 0, quotaPeriod := period, quotaWarnPct := warnPct, quotaPeriodStart := nowTs,
                  quotaUsedBytes := 0, quotaWarned := false, quotaSuspended := false);
        } else {
          u := u.(quotaBytes := 0, quotaWarnPct := warnPct, quotaWarned := false, quotaSuspended := false);
        }
      } else if u.quotaPeriod != period || u.quotaPeriodStart == 0 {
        u := u.(quotaBytes := bytes, quotaPeriod := period, quotaWarnPct := warnPct, quotaPeriodStart := nowTs,
                quotaUsedBytes := 0, quotaWarned := false, quotaSuspended := false);
      } else {
        u := u.(quotaBytes := bytes, quotaWarnPct := warnPct);
      }
      users := users[i := u];
      return true;
    }

    method HandleUserQuotaReset(id: int, now: int, f: HandlerFaults) returns (answer: Answer)
      modifies this`users, this`usersJson, this`toml, this`live, this`reloadPending, this`audit
      ensures (State(), answer) == Handled(old(State()), QuotaReset(id, now), f)
    {
      hide Applied, Listed, IndexOfId, RecalculatedPanel, DayFloor;
      if f.listFails { return Refused; }
      var i := FindTarget(id);
      if i < 0 || f.writeFails { return Refused; }
      ListedIsStored(users[i], daily);
      var prev := Listed(users[i], daily);
      users := users[i := users[i].(quotaUsedBytes := 0, quotaWarned := false, quotaSuspended := false,
                                    quotaPeriodStart := DayFloor(now))];
      AppliedKeepsTable(State(), f.reload);
      var ok := ApplyTeleproxyConfig(f.reload);
      if !ok {
        users := users[i := WithQuotaOf(users[i], prev)];
        return RolledBack;
      }
      var _ := Recalculate(prev.userLabel, f.recalculateDbFails, f.recalculateReload);
      return Done;
    }

    method HandleUserSuspendToggle(id: int, f: HandlerFaults) returns (answer: Answer)
      modifies this`users, this`usersJson, this`toml, this`live, this`reloadPending, this`audit
      ensures (State(), answer) == Handled(old(State()), SuspendToggle(id), f)
    {
      hide Applied, Listed, IndexOfId, RecalculatedPanel, DayFloor;
      if f.listFails { return Refused; }
      var i := FindTarget(id);
      if i < 0 || f.writeFails { return Refused; }
      var target := users[i];
      ListedIsStored(target, daily);
      users := users[i := users[i].(quotaSuspended := !target.quotaSuspended)];
      AppliedKeepsTable(State(), f.reload);
      var ok := ApplyTeleproxyConfig(f.reload);
      if !ok {
        users := users[i := users[i].(quotaSuspended := target.quotaSuspended)];
        return RolledBack;
      }
      var _ := Recalculate(target.userLabel, f.recalculateDbFails, f.recalculateReload);
      return Done;
    }

    method HandleUserCreate(user: string, secret: string, f: HandlerFaults) returns (answer: Answer)
      modifies this`users, this`usersJson, this`toml, this`live
      ensures (State(), answer) == Created(old(State()), user, secret, f)
    {
      if f.listFails || ActiveCount(users) >= MAX_ACTIVE_USERS || LabelTaken(users, user) || f.writeFails {
        return Refused;
      }
      ghost var before := users;
      var u := NewUser(NextId(users), user, secret);
      users := users + [u];
      var ok := ApplyTeleproxyConfig(f.reload);
      if !ok {
        users := users[|users| - 1 := u.(deleted := true)];
        assert users == before + [u.(deleted := true)];
        return RolledBack;
      }
      return Done;
    }

    // ---- bulk handlers ----

    /** handleUserBulkSuspend: `failingWrite` is the position of the id whose write fails.
        Afterwards either every listed user among the ids is suspended and the proxy
        serves accordingly, or the table and the proxy are as before. */
    method HandleUserBulkSuspend(ids: seq<int>, failingWrite: Option<nat>, f: HandlerFaults)
        returns (answer: Answer)
      modifies this`users, this`usersJson, this`toml, this`live
      ensures (State(), answer) == BulkSuspended(old(State()), ids, failingWrite, f)
      ensures !answer.Done? ==> users == old(users) && live == old(live)
      ensures answer.Done? ==>
                && |users| == |old(users)|
                && (forall j :: 0 <= j < |users| ==>
                      users[j] == if users[j].id in ids && IndexOfId(old(users), users[j].id) == j
                                  then old(users)[j].(quotaSuspended := true) else old(users)[j])
                && live == Desired(users)
    {
      hide IndexOfId, Desired, Noted, SuspendedAmong;
      if |ids| == 0 || f.listFails {
        return Refused;
      }
      ghost var before := users;
      var changed, ok := SuspendListed(ids, failingWrite);
      if !ok {
        RestoreSuspended(changed, before);
        return Refused;
      }
      SuspendedAmongIs(before, users, ids);
      ok := ApplyTeleproxyConfig(f.reload);
      if !ok {
        RestoreSuspended(changed, before);
        return RolledBack;
      }
      return Done;
    }

    /** The loop of the bulk handler: each listed user is noted and suspended. */
    method SuspendListed(ids: seq<int>, failingWrite: Option<nat>)
        returns (changed: seq<(int, bool)>, ok: bool)
      modifies this`users
      ensures ok <==> !(failingWrite.Some? && failingWrite.value < |ids|
                        && IndexOfId(old(users), ids[failingWrite.value]) >= 0)
      ensures ok ==> SuspendedAmong(old(users), users, ids)
      ensures Noted(old(users), users, changed)
    {
      hide IndexOfId, SuspendedAmong, Noted;
      var before := users;
      changed := [];
      NothingSuspended(before);
      var k := 0;
      while k < |ids|
        invariant 0 <= k <= |ids|
        invariant |users| == |before|
        invariant failingWrite.Some? && failingWrite.value < k ==> IndexOfId(before, ids[failingWrite.value]) < 0
        invariant SuspendedAmong(before, users, ids[..k])
        invariant Noted(before, users, changed)
      {
        assert ids[..k + 1] == ids[..k] + [ids[k]];
        SuspendOneMore(before, users, ids[..k], ids[k]);
        var i := IndexOfId(before, ids[k]);
        if i >= 0 {
          NoteOneMore(before, users, changed, i);
          changed := changed + [(i, before[i].quotaSuspended)];
          if failingWrite == Some(k) {
            return changed, false;
          }
          users := users[i := users[i].(quotaSuspended := true)];
        }
        k := k + 1;
      }
      assert ids[..|ids|] == ids;
      ok := true;
    }

    /** The restore closure of the bulk handlers: every recorded flag is written back. */
    method RestoreSuspended(changed: seq<(int, bool)>, ghost before: seq<User>)
      requires Noted(before, users, changed)
      modifies this`users
      ensures users == before
    {
      var c := 0;
      while c < |changed|
        invariant 0 <= c <= |changed|
        invariant |users| == |before|
        invariant forall j :: 0 <= j < |users| ==>
                    users[j] == before[j] || users[j] == before[j].(quotaSuspended := true)
        invariant forall j :: 0 <= j < |users| && users[j] != before[j] ==>
                    exists d :: c <= d < |changed| && changed[d].0 == j
      {
        var i := changed[c].0;
        users := users[i := users[i].(quotaSuspended := changed[c].1)];
        c := c + 1;
      }
    }

    // ---- whole runs ----

    method HandleUser(r: Request, f: HandlerFaults) returns (answer: Answer)
      modifies this`users, this`usersJson, this`toml, this`live, this`reloadPending, this`audit
      ensures (State(), answer) == Handled(old(State()), r, f)
    {
      hide Handled;
      match r {
        case Toggle(id) => answer := HandleUserToggle(id, f);
        case Delete(id) => answer := HandleUserDelete(id, f);
        case Rotate(id, secret) => answer := HandleUserRotate(id, secret, f);
        case QuotaSet(id, bytes, period, warnPct, now) =>
          answer := HandleUserQuotaSet(id, bytes, period, warnPct, now, f);
        case QuotaReset(id, now) => answer := HandleUserQuotaReset(id, now, f);
        case SuspendToggle(id) => answer := HandleUserSuspendToggle(id, f);
      }
    }

    /** One thing that happens to the panel. */
    method Handle(e: Event)
      modifies this
      ensures State() == Happens(old(State()), e)
    {
      hide Handled, BulkSuspended, Created, Ticked, Labels, Desired;
      match e {
        case TrafficRecorded(rows) =>
          daily := rows;
        case Tick(faults) =>
          var labels := ListLabels();
          if |faults| <= |labels| {
            TickAll(faults);
          }
        case Handle(r, f) =>
          var _ := HandleUser(r, f);
        case BulkSuspend(ids, failingWrite, f) =>
          var _ := HandleUserBulkSuspend(ids, failingWrite, f);
        case Create(user, secret, f) =>
          var _ := HandleUserCreate(user, secret, f);
        case ProxyRestarts =>
          live := if toml.Some? then toml.value else [];
      }
    }

    /** Whole runs of the server: whatever is called in whatever order and fails, the proxy
        serves the table or a reload is pending, provided that it does not restart by itself
        after a handler whose reload failed at the file or the signal. */
    method Run(events: seq<Event>)
      requires InSync(State()) && KeysUnique(users) && RestartsComeEarly(State(), events)
      modifies this
      ensures State() == AfterFrom(old(State()), events)
      ensures InSync(State()) && KeysUnique(users)
    {
      hide Happens, InSync, KeysUnique, RestartsComeEarly;
      ghost var p := State();
      var i := 0;
      while i < |events|
        invariant 0 <= i <= |events|
        invariant State() == AfterFrom(p, events[..i])
      {
        assert events[..i + 1][..i] == events[..i];
        Handle(events[i]);
        i := i + 1;
      }
      assert events[..|events|] == events;
      NeverSilentlyDrifts(p, events);
      KeysStayUnique(p, events);
    }
  }
}
