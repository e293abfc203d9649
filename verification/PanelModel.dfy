/** The users table, the proxy that serves it and the work both the quota service and
    the panel's user handlers do on them, as functions of the whole state. */
module PanelModel {
  import opened GoArithmetic
  import opened Options
  import opened ProxyUsers
  import opened QuotaPeriod
  import opened Traffic
  import opened Users

  const MAX_ACTIVE_USERS := 16

  /** How one attempt to apply the table to the proxy goes. */
  datatype ReloadOutcome =
    | ReloadWorks
    | ListFails        // the users table cannot be read
    | UsersJsonFails   // users.json is left torn
    | TomlFails        // users.json is written, teleproxy.toml is left torn
    | SignalFails      // both files are written, the proxy does not reload

  datatype Audit =
    | QuotaRollover(user: string)
    | QuotaWarning(user: string)
    | QuotaSuspend(user: string)

  /** `live` is what the running proxy has loaded; a torn or missing file is None. */
  datatype Panel = Panel(
    users: seq<User>,
    daily: seq<DayRow>,
    usersJson: Option<seq<UserEntry>>,
    toml: Option<seq<UserEntry>>,
    live: seq<UserEntry>,
    reloadPending: bool,
    audit: seq<Audit>)

  const NEW_PANEL := Panel([], [], None, None, [], false, [])

  /** The live proxy serves exactly the users it should, or a reload is due. */
  ghost predicate InSync(p: Panel) {
    p.live == Desired(p.users) || p.reloadPending
  }

  // ---- applying the table ----

  /** applyTeleproxyConfig with a reload. */
  function Applied(p: Panel, outcome: ReloadOutcome): Panel {
    var entries := Desired(p.users);
    match outcome
    case ListFails => p
    case UsersJsonFails => p.(usersJson := None)
    case TomlFails => p.(usersJson := Some(entries), toml := None)
    case SignalFails => p.(usersJson := Some(entries), toml := Some(entries))
    case ReloadWorks => p.(usersJson := Some(entries), toml := Some(entries), live := entries)
  }

  /** runReload: a failure is remembered for the next recalculation. */
  function Reloaded(p: Panel, outcome: ReloadOutcome): Panel {
    Applied(p, outcome).(reloadPending := !outcome.ReloadWorks?)
  }

  // ---- the quota service ----

  /** The row a label names among the users that are not deleted, or -1. */
  function IndexOfLabel(users: seq<User>, user: string): (i: int)
    ensures -1 <= i < |users|
    ensures i >= 0 ==> users[i].userLabel == user && !users[i].deleted
    ensures i < 0 ==> forall j :: 0 <= j < |users| ==> users[j].userLabel != user || users[j].deleted
  {
    if users == [] then -1
    else if users[0].userLabel == user && !users[0].deleted then 0
    else
      var i := IndexOfLabel(users[1..], user);
      assert forall j :: 1 <= j < |users| ==> users[j] == users[1..][j - 1];
      if i < 0 then -1 else i + 1
  }

  /** RolloverIfDue: the new state, whether a period ended, and whether it succeeded.
      `dbFails` is a failure of any statement of its transaction. */
  function RolledOverPanel(p: Panel, user: string, now: int, dbFails: bool, outcome: ReloadOutcome)
    : (Panel, bool, bool)
  {
    var i := IndexOfLabel(p.users, user);
    if dbFails || i < 0 then (p, false, false)
    else
      var u := p.users[i];
      var u' := RolledOver(u, now);
      var rolled := u.quotaPeriodStart != 0 && u'.quotaPeriodStart != u.quotaPeriodStart;
      var q := p.(users := p.users[i := u'],
                  audit := if rolled then p.audit + [QuotaRollover(user)] else p.audit);
      if rolled && u.quotaSuspended then (Reloaded(q, outcome), true, outcome.ReloadWorks?)
      else (q, rolled, true)
  }

  /** Recalculate: the new state, and whether it succeeded. */
  function RecalculatedPanel(p: Panel, user: string, dbFails: bool, outcome: ReloadOutcome): (Panel, bool) {
    var i := IndexOfLabel(p.users, user);
    if dbFails || i < 0 then (p, false)
    else
      var u := p.users[i];
      var used := Charged(u, p.daily);
      var u' := Recalculated(u, used);
      var q := p.(users := p.users[i := u'],
                  audit := p.audit
                           + (if WarningDue(u, used) then [QuotaWarning(user)] else [])
                           + (if u'.quotaSuspended && !u.quotaSuspended then [QuotaSuspend(user)] else []));
      if u'.quotaSuspended != u.quotaSuspended || p.reloadPending
      then (Reloaded(q, outcome), outcome.ReloadWorks?)
      else (q, true)
  }

  /** One user's share of a tick: the clock and what fails. */
  datatype TickFault = TickFault(
    now: int, rolloverDbFails: bool, rolloverReload: ReloadOutcome,
    recalculateDbFails: bool, recalculateReload: ReloadOutcome)

  predicate Faultless(f: TickFault) {
    !f.rolloverDbFails && f.rolloverReload.ReloadWorks? && !f.recalculateDbFails && f.recalculateReload.ReloadWorks?
  }

  function TickedUser(p: Panel, user: string, f: TickFault): Panel {
    var (q, _, ok) := RolledOverPanel(p, user, f.now, f.rolloverDbFails, f.rolloverReload);
    if !ok then q else RecalculatedPanel(q, user, f.recalculateDbFails, f.recalculateReload).0
  }

  function Labels(users: seq<User>): seq<string> {
    if users == [] then []
    else if users[0].deleted then Labels(users[1..])
    else [users[0].userLabel] + Labels(users[1..])
  }

  /** tickAll over the first |faults| labels; fewer than all when it is cancelled. */
  function Ticked(p: Panel, labels: seq<string>, faults: seq<TickFault>): Panel
    requires |faults| <= |labels|
    decreases |faults|
  {
    if faults == [] then p
    else Ticked(TickedUser(p, labels[0], faults[0]), labels[1..], faults[1..])
  }

  // ---- the user handlers ----

  /** A handler refuses and changes nothing, applies its change, or takes it back. */
  datatype Answer = Refused | Done | RolledBack

  datatype Request =
    | Toggle(id: int)
    | Delete(id: int)
    | Rotate(id: int, secret: string)
    | QuotaSet(id: int, bytes: int, period: string, warnPct: int, now: int)
    | QuotaReset(id: int, now: int)
    | SuspendToggle(id: int)

  /** What fails while a handler runs: listing the users, its own write, the reload,
      and the recalculation it ends with. Restoring is assumed to succeed. */
  datatype HandlerFaults = HandlerFaults(
    listFails: bool, writeFails: bool, reload: ReloadOutcome,
    recalculateDbFails: bool, recalculateReload: ReloadOutcome)

  /** The row a request is about among the listed users, or -1. */
  function IndexOfId(users: seq<User>, id: int): (i: int)
    ensures -1 <= i < |users|
    ensures i >= 0 ==> users[i].id == id && !users[i].deleted
    ensures i < 0 ==> forall j :: 0 <= j < |users| ==> users[j].id != id || users[j].deleted
  {
    if users == [] then -1
    else if users[0].id == id && !users[0].deleted then 0
    else
      var i := IndexOfId(users[1..], id);
      assert forall j :: 1 <= j < |users| ==> users[j] == users[1..][j - 1];
      if i < 0 then -1 else i + 1
  }

  predicate HasDays(daily: seq<DayRow>, user: string, since: int) {
    exists i :: 0 <= i < |daily| && daily[i].userLabel == user && daily[i].dayTs >= since
  }

  /** A row as List reports it: the usage is the current sum when there is one. */
  function Listed(u: User, daily: seq<DayRow>): User {
    if HasDays(daily, u.userLabel, u.quotaPeriodStart)
    then u.(quotaUsedBytes := Usage(daily, u.userLabel, u.quotaPeriodStart)) else u
  }

  /** The row after a handler's own write; None when the request is refused. */
  function Edited(u: User, r: Request): Option<User> {
    match r
    case Toggle(_) => Some(u.(enabled := !u.enabled))
    case Delete(_) => Some(u.(deleted := true))
    case Rotate(_, secret) => if u.secretHex == "" then None else Some(u.(secretHex := secret))
    case QuotaSet(_, bytes, period, warnPct, now) =>
      if QuotaArgumentsValid(bytes, period, warnPct)
      then Some(WithQuota(u, bytes, period, warnPct, DayFloor(now))) else None
    case QuotaReset(_, now) => Some(WithReset(u, DayFloor(now)))
    case SuspendToggle(_) => Some(u.(quotaSuspended := !u.quotaSuspended))
  }

  /** The row after the handler takes its write back, given the row it had listed. */
  function Restored(u: User, prev: User, r: Request): User {
    match r
    case Toggle(_) => u.(enabled := prev.enabled)
    case Delete(_) => u.(deleted := false)
    case Rotate(_, _) => u.(secretHex := prev.secretHex)
    case QuotaSet(_, _, _, _, _) => WithQuotaOf(u, prev)
    case QuotaReset(_, _) => WithQuotaOf(u, prev)
    case SuspendToggle(_) => u.(quotaSuspended := prev.quotaSuspended)
  }

  predicate Recalculates(r: Request) {
    r.QuotaSet? || r.QuotaReset? || r.SuspendToggle?
  }

  function Handled(p: Panel, r: Request, f: HandlerFaults): (Panel, Answer) {
    var i := IndexOfId(p.users, r.id);
    if f.listFails || i < 0 then (p, Refused)
    else
      var prev := Listed(p.users[i], p.daily);
      var edited := Edited(p.users[i], r);
      if f.writeFails || edited.None? then (p, Refused)
      else
        var q := Applied(p.(users := p.users[i := edited.value]), f.reload);
        if !f.reload.ReloadWorks? then
          (q.(users := q.users[i := Restored(edited.value, prev, r)]), RolledBack)
        else if Recalculates(r) then
          (RecalculatedPanel(q, prev.userLabel, f.recalculateDbFails, f.recalculateReload).0, Done)
        else (q, Done)
  }

  /** The listed users among the ids, suspended. */
  function WithSuspended(users: seq<User>, ids: seq<int>): seq<User> {
    seq(|users|, j requires 0 <= j < |users| =>
      if users[j].id in ids && IndexOfId(users, users[j].id) == j
      then users[j].(quotaSuspended := true) else users[j])
  }

  /** handleUserBulkSuspend: `failingWrite` is the position of the id whose write fails. */
  function BulkSuspended(p: Panel, ids: seq<int>, failingWrite: Option<nat>, f: HandlerFaults): (Panel, Answer) {
    if ids == [] || f.listFails then (p, Refused)
    else if failingWrite.Some? && failingWrite.value < |ids| && IndexOfId(p.users, ids[failingWrite.value]) >= 0
    then (p, Refused)
    else
      var q := Applied(p.(users := WithSuspended(p.users, ids)), f.reload);
      if f.reload.ReloadWorks? then (q, Done) else (q.(users := p.users), RolledBack)
  }

  // ---- creating a user ----

  function ActiveCount(users: seq<User>): nat {
    if users == [] then 0
    else (if users[0].enabled && !users[0].deleted then 1 else 0) + ActiveCount(users[1..])
  }

  predicate LabelTaken(users: seq<User>, user: string) {
    exists i :: 0 <= i < |users| && users[i].userLabel == user
  }

  /** AUTOINCREMENT over rows that are never removed. */
  function NextId(users: seq<User>): (id: int)
    ensures id >= 1 && forall i :: 0 <= i < |users| ==> users[i].id < id
  {
    if users == [] then 1
    else
      var n := NextId(users[..|users| - 1]);
      if users[|users| - 1].id >= n then users[|users| - 1].id + 1 else n
  }

  function NewUser(id: int, user: string, secret: string): User {
    User(id, user, secret, true, false, 0, PERIOD_MONTHLY, 80, false, 0, 0, false)
  }

  /** handleUserCreate for a well-formed label: the new user is soft-deleted again when
      the reload fails. */
  function Created(p: Panel, user: string, secret: string, f: HandlerFaults): (Panel, Answer) {
    if f.listFails || ActiveCount(p.users) >= MAX_ACTIVE_USERS || LabelTaken(p.users, user) || f.writeFails
    then (p, Refused)
    else
      var u := NewUser(NextId(p.users), user, secret);
      var q := Applied(p.(users := p.users + [u]), f.reload);
      if f.reload.ReloadWorks? then (q, Done)
      else (q.(users := p.users + [u.(deleted := true)]), RolledBack)
  }

  // ---- what one step keeps ----

  lemma ReplacingUnservedChange(users: seq<User>, i: int, u': User)
    requires 0 <= i < |users|
    requires Serves(u') == Serves(users[i])
    requires Serves(u') ==> u'.userLabel == users[i].userLabel && u'.secretHex == users[i].secretHex
    ensures Desired(users[i := u']) == Desired(users)
  {
    DesiredDependsOnServed(users[i := u'], users);
  }

  lemma RolloverStaysInSync(p: Panel, user: string, now: int, dbFails: bool, outcome: ReloadOutcome)
    requires InSync(p)
    ensures InSync(RolledOverPanel(p, user, now, dbFails, outcome).0)
    ensures outcome.ReloadWorks? && !p.reloadPending
            ==> !RolledOverPanel(p, user, now, dbFails, outcome).0.reloadPending
  {
    var i := IndexOfLabel(p.users, user);
    if !dbFails && i >= 0 {
      var u := p.users[i];
      var u' := RolledOver(u, now);
      if Serves(u') == Serves(u) {
        ReplacingUnservedChange(p.users, i, u');
      }
    }
  }

  lemma RecalculateStaysInSync(p: Panel, user: string, dbFails: bool, outcome: ReloadOutcome)
    requires InSync(p)
    ensures var (q, ok) := RecalculatedPanel(p, user, dbFails, outcome);
            && InSync(q)
            && (ok ==> q.live == Desired(q.users) && !q.reloadPending)
            && (outcome.ReloadWorks? && !dbFails && IndexOfLabel(p.users, user) >= 0 ==> ok)
  {
    var i := IndexOfLabel(p.users, user);
    if !dbFails && i >= 0 {
      var u := p.users[i];
      var u' := Recalculated(u, Charged(u, p.daily));
      if u'.quotaSuspended == u.quotaSuspended {
        ReplacingUnservedChange(p.users, i, u');
      }
    }
  }

  /** Taking a write back leaves every column as it was, except that the cached usage
      becomes the listed one after a quota change. */
  lemma RestoreUndoesEdit(u: User, daily: seq<DayRow>, r: Request)
    requires Edited(u, r).Some? && (r.Delete? ==> !u.deleted)
    ensures Restored(Edited(u, r).value, Listed(u, daily), r)
            == if r.QuotaSet? || r.QuotaReset? then Listed(u, daily) else u
  {
    hide DayFloor, HasDays, Usage;
  }

  lemma RestoredServes(u: User, daily: seq<DayRow>, r: Request)
    requires Edited(u, r).Some? && !u.deleted
    ensures var back := Restored(Edited(u, r).value, Listed(u, daily), r);
            Serves(back) == Serves(u) && back.userLabel == u.userLabel && back.secretHex == u.secretHex
  {
    hide Edited, Restored;
    RestoreUndoesEdit(u, daily, r);
  }

  lemma AppliedKeepsTable(p: Panel, outcome: ReloadOutcome)
    ensures Applied(p, outcome).users == p.users && Applied(p, outcome).daily == p.daily
    ensures Applied(p, outcome).reloadPending == p.reloadPending
    ensures Applied(p, outcome).live == if outcome.ReloadWorks? then Desired(p.users) else p.live
  {
    hide Desired;
  }

  /** A handler whose reload fails leaves the proxy serving what it served, and the
      table naming whom it named; a handler that succeeds brings both together. */
  lemma HandlerStaysInSync(p: Panel, r: Request, f: HandlerFaults)
    requires InSync(p)
    ensures var (q, answer) := Handled(p, r, f);
            && InSync(q)
            && (answer.RolledBack? ==> q.live == p.live && Desired(q.users) == Desired(p.users)
                                       && q.reloadPending == p.reloadPending)
            && (answer.Refused? ==> q == p)
            && (answer.Done? <==> !f.listFails && !f.writeFails && f.reload.ReloadWorks?
                                  && IndexOfId(p.users, r.id) >= 0
                                  && Edited(p.users[IndexOfId(p.users, r.id)], r).Some?)
            && (answer.Done? && f.recalculateReload.ReloadWorks? ==> q.live == Desired(q.users))
  {
    hide Edited, Restored, Listed, Serves, Desired, Applied, RecalculatedPanel;
    var i := IndexOfId(p.users, r.id);
    if !f.listFails && i >= 0 && !f.writeFails && Edited(p.users[i], r).Some? {
      var e := Edited(p.users[i], r).value;
      var prev := Listed(p.users[i], p.daily);
      var q := Applied(p.(users := p.users[i := e]), f.reload);
      AppliedKeepsTable(p.(users := p.users[i := e]), f.reload);
      if !f.reload.ReloadWorks? {
        RestoredServes(p.users[i], p.daily, r);
        assert q.users[i := Restored(e, prev, r)] == p.users[i := Restored(e, prev, r)];
        ReplacingUnservedChange(p.users, i, Restored(e, prev, r));
      } else if Recalculates(r) {
        RecalculateKeepsLive(q, prev.userLabel, f.recalculateDbFails, f.recalculateReload);
        RecalculateStaysInSync(q, prev.userLabel, f.recalculateDbFails, f.recalculateReload);
      }
    }
  }

  lemma RecalculateKeepsLive(p: Panel, user: string, dbFails: bool, outcome: ReloadOutcome)
    requires p.live == Desired(p.users)
    ensures var q := RecalculatedPanel(p, user, dbFails, outcome).0;
            outcome.ReloadWorks? ==> q.live == Desired(q.users)
  {
    hide Desired, Charged, Recalculated, WarningDue, Applied;
    RecalculateStaysInSync(p, user, dbFails, outcome);
  }

  lemma CreateStaysInSync(p: Panel, user: string, secret: string, f: HandlerFaults)
    requires InSync(p)
    ensures var (q, answer) := Created(p, user, secret, f);
            && InSync(q)
            && (answer.RolledBack? ==> q.live == p.live && Desired(q.users) == Desired(p.users))
            && (answer.Done? ==> q.live == Desired(q.users) == Desired(p.users) + [UserEntry(user, secret)])
  {
    DesiredAppend(p.users, NewUser(NextId(p.users), user, secret));
    DesiredAppend(p.users, NewUser(NextId(p.users), user, secret).(deleted := true));
  }

  lemma {:induction false} DesiredAppend(users: seq<User>, u: User)
    ensures Desired(users + [u])
            == if Serves(u) then Desired(users) + [UserEntry(u.userLabel, u.secretHex)] else Desired(users)
    decreases |users|
  {
    if users == [] {
      assert users + [u] == [u] && [u][1..] == [];
    } else {
      assert (users + [u])[1..] == users[1..] + [u];
      DesiredAppend(users[1..], u);
    }
  }

  lemma BulkStaysInSync(p: Panel, ids: seq<int>, failingWrite: Option<nat>, f: HandlerFaults)
    requires InSync(p)
    ensures var (q, answer) := BulkSuspended(p, ids, failingWrite, f);
            && InSync(q)
            && (answer.Done? ==> q.live == Desired(q.users))
            && (!answer.Done? ==> q.users == p.users && q.live == p.live)
  {
  }

  // ---- whole runs ----

  /** Everything that happens to a panel, one step after another. The proxy's unit starts it
      again when it stops by itself. */
  datatype Event =
    | TrafficRecorded(daily: seq<DayRow>)
    | Tick(faults: seq<TickFault>)
    | Handle(request: Request, failures: HandlerFaults)
    | BulkSuspend(ids: seq<int>, failingWrite: Option<nat>, failures: HandlerFaults)
    | Create(user: string, secret: string, failures: HandlerFaults)
    | ProxyRestarts

  /** What a starting proxy loads; without a readable file it serves nobody. */
  function OnDisk(p: Panel): seq<UserEntry> {
    if p.toml.Some? then p.toml.value else []
  }

  function ProxyRestarted(p: Panel): Panel {
    p.(live := OnDisk(p))
  }

  function Happens(p: Panel, e: Event): Panel {
    match e
    case TrafficRecorded(daily) => p.(daily := daily)
    case Tick(faults) =>
      var labels := Labels(p.users);
      if |faults| <= |labels| then Ticked(p, labels, faults) else p
    case Handle(r, f) => Handled(p, r, f).0
    case BulkSuspend(ids, failingWrite, f) => BulkSuspended(p, ids, failingWrite, f).0
    case Create(user, secret, f) => Created(p, user, secret, f).0
    case ProxyRestarts => ProxyRestarted(p)
  }

  function AfterFrom(p: Panel, events: seq<Event>): Panel {
    if events == [] then p
    else Happens(AfterFrom(p, events[..|events| - 1]), events[|events| - 1])
  }

  function AfterRun(events: seq<Event>): Panel {
    AfterFrom(NEW_PANEL, events)
  }

  /** The file serves the table, or a reload is due. */
  ghost predicate FileInSync(p: Panel) {
    OnDisk(p) == Desired(p.users) || p.reloadPending
  }

  predicate SparesFile(outcome: ReloadOutcome) {
    !outcome.TomlFails? && !outcome.SignalFails?
  }

  /** The event does not include a handler whose reload fails once it has reached
      teleproxy.toml. Whatever the quota service runs into does not matter. */
  predicate LeavesFileInSync(e: Event) {
    match e
    case Handle(_, f) => SparesFile(f.reload)
    case BulkSuspend(_, _, f) => SparesFile(f.reload)
    case Create(_, _, f) => SparesFile(f.reload)
    case TrafficRecorded(_) => true
    case Tick(_) => true
    case ProxyRestarts => true
  }

  /** The schedules in which the proxy may restart by itself: never after a handler whose
      reload failed at the file or the signal. Other failures are free, and so is
      everything after the last restart. */
  ghost predicate RestartsComeEarly(p: Panel, events: seq<Event>) {
    forall j :: 0 <= j < |events| && events[j].ProxyRestarts? ==> FileInSync(p) && AllLeaveFileInSync(events[..j])
  }

  predicate AllLeaveFileInSync(events: seq<Event>) {
    forall i :: 0 <= i < |events| ==> LeavesFileInSync(events[i])
  }

  lemma {:induction false} TickStaysInSync(p: Panel, labels: seq<string>, faults: seq<TickFault>)
    requires InSync(p) && |faults| <= |labels|
    ensures InSync(Ticked(p, labels, faults))
    decreases |faults|
  {
    if faults != [] {
      TickUserStaysInSync(p, labels[0], faults[0]);
      TickStaysInSync(TickedUser(p, labels[0], faults[0]), labels[1..], faults[1..]);
    }
  }

  lemma TickUserStaysInSync(p: Panel, user: string, f: TickFault)
    requires InSync(p)
    ensures InSync(TickedUser(p, user, f))
    ensures Faultless(f) && IndexOfLabel(p.users, user) >= 0
            ==> var q := TickedUser(p, user, f); q.live == Desired(q.users) && !q.reloadPending
  {
    hide RecalculatedPanel, RolledOver;
    RolloverStaysInSync(p, user, f.now, f.rolloverDbFails, f.rolloverReload);
    var q := RolledOverPanel(p, user, f.now, f.rolloverDbFails, f.rolloverReload).0;
    RecalculateStaysInSync(q, user, f.recalculateDbFails, f.recalculateReload);
    RowsKeepTheirNames(p, user, user, f);
  }

  lemma HappensStaysInSync(p: Panel, e: Event)
    requires InSync(p) && (e.ProxyRestarts? ==> InSync(ProxyRestarted(p)))
    ensures InSync(Happens(p, e))
  {
    hide Handled, Created, Ticked, BulkSuspended;
    match e
    case TrafficRecorded(daily) =>
    case Tick(faults) =>
      if |faults| <= |Labels(p.users)| {
        TickStaysInSync(p, Labels(p.users), faults);
      }
    case Handle(r, f) => HandlerStaysInSync(p, r, f);
    case BulkSuspend(ids, failingWrite, f) => BulkStaysInSync(p, ids, failingWrite, f);
    case Create(user, secret, f) => CreateStaysInSync(p, user, secret, f);
    case ProxyRestarts =>
  }

  // ---- the file, for a proxy that restarts ----

  lemma RolloverKeepsFile(p: Panel, user: string, now: int, dbFails: bool, outcome: ReloadOutcome)
    requires FileInSync(p)
    ensures FileInSync(RolledOverPanel(p, user, now, dbFails, outcome).0)
  {
    hide Rolled, DayFloor;
    var i := IndexOfLabel(p.users, user);
    if !dbFails && i >= 0 && Serves(RolledOver(p.users[i], now)) == Serves(p.users[i]) {
      ReplacingUnservedChange(p.users, i, RolledOver(p.users[i], now));
    }
  }

  lemma RecalculateKeepsFile(p: Panel, user: string, dbFails: bool, outcome: ReloadOutcome)
    requires FileInSync(p)
    ensures FileInSync(RecalculatedPanel(p, user, dbFails, outcome).0)
  {
    hide Charged, WarningDue;
    var i := IndexOfLabel(p.users, user);
    if !dbFails && i >= 0 {
      var u := p.users[i];
      var u' := Recalculated(u, Charged(u, p.daily));
      if u'.quotaSuspended == u.quotaSuspended {
        ReplacingUnservedChange(p.users, i, u');
      }
    }
  }

  lemma {:induction false} TickKeepsFile(p: Panel, labels: seq<string>, faults: seq<TickFault>)
    requires FileInSync(p) && |faults| <= |labels|
    ensures FileInSync(Ticked(p, labels, faults))
    decreases |faults|
  {
    hide FileInSync, RolledOverPanel, RecalculatedPanel;
    if faults != [] {
      var f := faults[0];
      RolloverKeepsFile(p, labels[0], f.now, f.rolloverDbFails, f.rolloverReload);
      var q := RolledOverPanel(p, labels[0], f.now, f.rolloverDbFails, f.rolloverReload).0;
      RecalculateKeepsFile(q, labels[0], f.recalculateDbFails, f.recalculateReload);
      TickKeepsFile(TickedUser(p, labels[0], f), labels[1..], faults[1..]);
    }
  }

  lemma HandlerKeepsFile(p: Panel, r: Request, f: HandlerFaults)
    requires FileInSync(p) && SparesFile(f.reload)
    ensures FileInSync(Handled(p, r, f).0)
  {
    hide RecalculatedPanel, Edited, Restored, Serves;
    var i := IndexOfId(p.users, r.id);
    if !f.listFails && i >= 0 && !f.writeFails && Edited(p.users[i], r).Some? {
      var e := Edited(p.users[i], r).value;
      var prev := Listed(p.users[i], p.daily);
      var q := Applied(p.(users := p.users[i := e]), f.reload);
      if f.reload.ReloadWorks? {
        RecalculateKeepsFile(q, prev.userLabel, f.recalculateDbFails, f.recalculateReload);
      } else {
        assert q.users[i := Restored(e, prev, r)] == p.users[i := Restored(e, prev, r)];
        RestoredServes(p.users[i], p.daily, r);
        ReplacingUnservedChange(p.users, i, Restored(e, prev, r));
      }
    }
  }

  lemma CreateKeepsFile(p: Panel, user: string, secret: string, f: HandlerFaults)
    requires FileInSync(p) && SparesFile(f.reload)
    ensures FileInSync(Created(p, user, secret, f).0)
  {
    DesiredAppend(p.users, NewUser(NextId(p.users), user, secret).(deleted := true));
  }

  lemma HappensKeepsFile(p: Panel, e: Event)
    requires FileInSync(p) && LeavesFileInSync(e)
    ensures FileInSync(Happens(p, e))
  {
    hide Handled, Created, Ticked, Desired;
    match e
    case TrafficRecorded(daily) =>
    case Tick(faults) =>
      if |faults| <= |Labels(p.users)| {
        TickKeepsFile(p, Labels(p.users), faults);
      }
    case Handle(r, f) => HandlerKeepsFile(p, r, f);
    case BulkSuspend(ids, failingWrite, f) =>
    case Create(user, secret, f) => CreateKeepsFile(p, user, secret, f);
    case ProxyRestarts =>
  }

  /** The live config never silently drifts: in every run of ticks, recorded traffic and
      user handlers, under every combination of failures, the proxy serves exactly the
      enabled users that are neither deleted nor suspended, or a reload is pending. The
      proxy may restart by itself at any time before the first handler whose reload fails
      at teleproxy.toml or at the signal; up to there the file serves the table as well. */
  lemma {:induction false} NeverSilentlyDrifts(p: Panel, events: seq<Event>)
    requires InSync(p) && RestartsComeEarly(p, events)
    ensures InSync(AfterFrom(p, events))
    ensures FileInSync(p) && AllLeaveFileInSync(events) ==> FileInSync(AfterFrom(p, events))
    decreases |events|
  {
    hide Happens, InSync, FileInSync, LeavesFileInSync;
    if events != [] {
      var n := |events| - 1;
      EarlierRestartsComeEarly(p, events, n);
      NeverSilentlyDrifts(p, events[..n]);
      var before := AfterFrom(p, events[..n]);
      if FileInSync(p) && AllLeaveFileInSync(events[..n]) && LeavesFileInSync(events[n]) {
        HappensKeepsFile(before, events[n]);
      }
      RestartServesFile(before);
      HappensStaysInSync(before, events[n]);
    }
  }

  lemma RestartServesFile(p: Panel)
    ensures InSync(ProxyRestarted(p)) <==> FileInSync(p)
  {
  }

  lemma EarlierRestartsComeEarly(p: Panel, events: seq<Event>, n: nat)
    requires n <= |events| && RestartsComeEarly(p, events)
    ensures RestartsComeEarly(p, events[..n])
  {
    hide FileInSync, LeavesFileInSync;
    forall j | 0 <= j < n && events[..n][j].ProxyRestarts?
      ensures FileInSync(p) && AllLeaveFileInSync(events[..n][..j])
    {
      assert events[..n][..j] == events[..j] && events[j].ProxyRestarts?;
    }
  }

  // ---- a tick repairs ----

  /** The same rows, as far as naming them goes. */
  ghost predicate RowsStay(a: seq<User>, b: seq<User>) {
    && |a| == |b|
    && forall j :: 0 <= j < |a| ==>
         b[j].id == a[j].id && b[j].userLabel == a[j].userLabel && b[j].deleted == a[j].deleted
  }

  lemma OneRowStays(users: seq<User>, i: int, u': User)
    requires 0 <= i < |users|
    requires u'.id == users[i].id && u'.userLabel == users[i].userLabel && u'.deleted == users[i].deleted
    ensures RowsStay(users, users[i := u'])
  {
  }

  lemma RolledOverKeepsName(u: User, now: int)
    ensures var u' := RolledOver(u, now); u'.id == u.id && u'.userLabel == u.userLabel && u'.deleted == u.deleted
  {
    hide Rolled, DayFloor;
  }

  lemma RolloverKeepsRows(p: Panel, user: string, now: int, dbFails: bool, outcome: ReloadOutcome)
    ensures RowsStay(p.users, RolledOverPanel(p, user, now, dbFails, outcome).0.users)
  {
    hide RolledOver, Applied, RowsStay;
    var i := IndexOfLabel(p.users, user);
    if !dbFails && i >= 0 {
      var u' := RolledOver(p.users[i], now);
      RolledOverKeepsName(p.users[i], now);
      OneRowStays(p.users, i, u');
      AppliedKeepsTable(p.(users := p.users[i := u'], audit := p.audit + [QuotaRollover(user)]), outcome);
    } else {
      SameRowsStay(p.users);
    }
  }

  lemma SameRowsStay(users: seq<User>)
    ensures RowsStay(users, users)
  {
  }

  lemma RecalculateKeepsRows(p: Panel, user: string, dbFails: bool, outcome: ReloadOutcome)
    ensures RowsStay(p.users, RecalculatedPanel(p, user, dbFails, outcome).0.users)
  {
    hide Charged, WarningDue, Recalculated, Applied, RowsStay;
    var i := IndexOfLabel(p.users, user);
    if !dbFails && i >= 0 {
      var u := p.users[i];
      var used := Charged(u, p.daily);
      var u' := Recalculated(u, used);
      RecalculatedKeepsName(u, used);
      OneRowStays(p.users, i, u');
      var events := p.audit
                    + (if WarningDue(u, used) then [QuotaWarning(user)] else [])
                    + (if u'.quotaSuspended && !u.quotaSuspended then [QuotaSuspend(user)] else []);
      AppliedKeepsTable(p.(users := p.users[i := u'], audit := events), outcome);
    } else {
      SameRowsStay(p.users);
    }
  }

  lemma RecalculatedKeepsName(u: User, used: int)
    ensures var u' := Recalculated(u, used);
            u'.id == u.id && u'.userLabel == u.userLabel && u'.deleted == u.deleted
  {
  }

  lemma RowsKeepTheirNames(p: Panel, user: string, other: string, f: TickFault)
    ensures var q := RolledOverPanel(p, user, f.now, f.rolloverDbFails, f.rolloverReload).0;
            IndexOfLabel(p.users, other) >= 0 ==> IndexOfLabel(q.users, other) >= 0
    ensures IndexOfLabel(p.users, other) >= 0
            ==> IndexOfLabel(TickedUser(p, user, f).users, other) >= 0
  {
    hide RolledOverPanel, RecalculatedPanel;
    var q := RolledOverPanel(p, user, f.now, f.rolloverDbFails, f.rolloverReload).0;
    RolloverKeepsRows(p, user, f.now, f.rolloverDbFails, f.rolloverReload);
    RecalculateKeepsRows(q, user, f.recalculateDbFails, f.recalculateReload);
  }

  lemma {:induction false} LabelsAreFound(users: seq<User>, k: int)
    requires 0 <= k < |Labels(users)|
    ensures IndexOfLabel(users, Labels(users)[k]) >= 0
    decreases |users|
  {
    if users[0].deleted {
      LabelsAreFound(users[1..], k);
    } else if k > 0 {
      LabelsAreFound(users[1..], k - 1);
    }
  }

  lemma {:induction false} TickRepairs(p: Panel, labels: seq<string>, faults: seq<TickFault>)
    requires InSync(p) && 0 < |faults| <= |labels|
    requires forall k :: 0 <= k < |labels| ==> IndexOfLabel(p.users, labels[k]) >= 0
    requires forall k :: 0 <= k < |faults| ==> Faultless(faults[k])
    ensures var q := Ticked(p, labels, faults); q.live == Desired(q.users) && !q.reloadPending
    decreases |faults|
  {
    hide TickedUser, Desired;
    TickUserStaysInSync(p, labels[0], faults[0]);
    var q := TickedUser(p, labels[0], faults[0]);
    if |faults| > 1 {
      forall k | 0 <= k < |labels[1..]|
        ensures IndexOfLabel(q.users, labels[1..][k]) >= 0
      {
        RowsKeepTheirNames(p, labels[0], labels[k + 1], faults[0]);
      }
      TickRepairs(q, labels[1..], faults[1..]);
    }
  }

  /** Whatever failed before, one tick without failures over a table with at least one
      user brings the live proxy back to the table. */
  lemma EveryRunIsRepairable(events: seq<Event>, faults: seq<TickFault>)
    requires RestartsComeEarly(NEW_PANEL, events)
    requires 0 < |faults| <= |Labels(AfterRun(events).users)|
    requires forall k :: 0 <= k < |faults| ==> Faultless(faults[k])
    ensures var q := AfterRun(events + [Tick(faults)]); q.live == Desired(q.users) && !q.reloadPending
  {
    var p := AfterRun(events);
    NeverSilentlyDrifts(NEW_PANEL, events);
    forall k | 0 <= k < |Labels(p.users)|
      ensures IndexOfLabel(p.users, Labels(p.users)[k]) >= 0
    {
      LabelsAreFound(p.users, k);
    }
    TickRepairs(p, Labels(p.users), faults);
    assert (events + [Tick(faults)])[..|events|] == events;
  }

  // ---- the files behind the live proxy ----

  /** A handler's rollback restores the table but not the files: after a reload that
      failed at the signal, teleproxy.toml holds the entries of the change that was
      taken back, with nothing pending that would rewrite it. The file agrees with the
      table exactly when the reload failed before reaching the file, and the file agreed
      already, or when the change did not concern whom the proxy serves. */
  lemma RolledBackFileAgreesIff(p: Panel, r: Request, f: HandlerFaults)
    requires Handled(p, r, f).1.RolledBack?
    ensures var q := Handled(p, r, f).0;
            var edited := Edited(p.users[IndexOfId(p.users, r.id)], r).value;
            var after := Desired(p.users[IndexOfId(p.users, r.id) := edited]);
            q.toml == Some(Desired(q.users))
            <==> match f.reload
                 case ListFails => p.toml == Some(Desired(p.users))
                 case UsersJsonFails => p.toml == Some(Desired(p.users))
                 case TomlFails => false
                 case SignalFails => after == Desired(p.users)
                 case ReloadWorks => false
  {
    var i := IndexOfId(p.users, r.id);
    var e := Edited(p.users[i], r).value;
    var prev := Listed(p.users[i], p.daily);
    RestoreUndoesEdit(p.users[i], p.daily, r);
    var q := Applied(p.(users := p.users[i := e]), f.reload);
    assert q.users[i := Restored(e, prev, r)] == p.users[i := Restored(e, prev, r)];
    ReplacingUnservedChange(p.users, i, Restored(e, prev, r));
  }

  /** So a proxy that restarts by itself after a rolled-back handler, with nothing pending,
      serves the table exactly in these cases. */
  lemma RestartAfterRollbackIff(p: Panel, r: Request, f: HandlerFaults)
    requires Handled(p, r, f).1.RolledBack? && !p.reloadPending
    ensures var q := Handled(p, r, f).0;
            var edited := Edited(p.users[IndexOfId(p.users, r.id)], r).value;
            var after := Desired(p.users[IndexOfId(p.users, r.id) := edited]);
            InSync(ProxyRestarted(q))
            <==> match f.reload
                 case ListFails => OnDisk(p) == Desired(p.users)
                 case UsersJsonFails => OnDisk(p) == Desired(p.users)
                 case TomlFails => Desired(p.users) == []
                 case SignalFails => after == Desired(p.users)
                 case ReloadWorks => false
  {
    var i := IndexOfId(p.users, r.id);
    var e := Edited(p.users[i], r).value;
    var prev := Listed(p.users[i], p.daily);
    RestoreUndoesEdit(p.users[i], p.daily, r);
    var q := Applied(p.(users := p.users[i := e]), f.reload);
    assert q.users[i := Restored(e, prev, r)] == p.users[i := Restored(e, prev, r)];
    ReplacingUnservedChange(p.users, i, Restored(e, prev, r));
  }

  lemma {:induction false} ServingOneLess(users: seq<User>, i: int, u': User)
    requires 0 <= i < |users| && Serves(users[i]) && !Serves(u')
    ensures |Desired(users[i := u'])| == |Desired(users)| - 1
    decreases |users|
  {
    if i == 0 {
      assert users[i := u'][1..] == users[1..];
    } else {
      assert users[i := u'][1..] == users[1..][i - 1 := u'];
      ServingOneLess(users[1..], i - 1, u');
    }
  }

  /** It happens to every served user: a toggle whose reload fails at the signal is taken
      back in the table, and teleproxy.toml goes on without the user. Nothing is pending,
      and the next restart of the proxy drops the user. */
  lemma ToggleLeavesFileBehind(p: Panel, id: int, f: HandlerFaults)
    requires p.live == Desired(p.users) && !p.reloadPending
    requires IndexOfId(p.users, id) >= 0 && Serves(p.users[IndexOfId(p.users, id)])
    requires !f.listFails && !f.writeFails && f.reload.SignalFails?
    ensures var (q, answer) := Handled(p, Toggle(id), f);
            && answer.RolledBack? && Desired(q.users) == Desired(p.users)
            && InSync(q) && !q.reloadPending
            && q.toml != Some(Desired(q.users))
            && !InSync(ProxyRestarted(q))
  {
    var i := IndexOfId(p.users, id);
    ServingOneLess(p.users, i, p.users[i].(enabled := false));
    HandlerStaysInSync(p, Toggle(id), f);
    RolledBackFileAgreesIff(p, Toggle(id), f);
    RestartAfterRollbackIff(p, Toggle(id), f);
  }

  /** And it is reached in two steps from an empty panel. */
  lemma FileIsLeftBehind(user: string, secret: string, works: HandlerFaults, fails: HandlerFaults)
    requires works == HandlerFaults(false, false, ReloadWorks, false, ReloadWorks)
    requires fails == works.(reload := SignalFails)
    ensures var q := AfterRun([Create(user, secret, works), Handle(Toggle(1), fails)]);
            && InSync(q) && !q.reloadPending
            && q.toml != Some(Desired(q.users))
            && !InSync(ProxyRestarted(q))
  {
    hide Handled;
    var events := [Create(user, secret, works), Handle(Toggle(1), fails)];
    assert events[..1] == [events[0]] && events[..1][..0] == [];
    var p := AfterRun(events[..1]);
    assert AfterRun(events) == Happens(p, events[1]);
    FirstUser(user, secret, works);
    assert [events[0]][..0] == [] && AfterFrom(NEW_PANEL, []) == NEW_PANEL;
    assert p == Happens(NEW_PANEL, events[0]);
    ToggleLeavesFileBehind(p, 1, fails);
  }

  lemma FirstUser(user: string, secret: string, works: HandlerFaults)
    requires works == HandlerFaults(false, false, ReloadWorks, false, ReloadWorks)
    ensures var p := Created(NEW_PANEL, user, secret, works).0;
            && p.users == [NewUser(1, user, secret)]
            && IndexOfId(p.users, 1) == 0
            && p.live == Desired(p.users) && !p.reloadPending
  {
  }

  // ---- labels and keys ----

  /** Rows are never removed, and keep their id and label. */
  ghost predicate NamesKept(a: seq<User>, b: seq<User>) {
    && |a| <= |b|
    && forall j :: 0 <= j < |a| ==> b[j].id == a[j].id && b[j].userLabel == a[j].userLabel
  }

  lemma {:induction false} TickKeepsNames(p: Panel, labels: seq<string>, faults: seq<TickFault>)
    requires |faults| <= |labels|
    ensures var q := Ticked(p, labels, faults); |q.users| == |p.users| && NamesKept(p.users, q.users)
    decreases |faults|
  {
    hide RolledOverPanel, RecalculatedPanel;
    if faults != [] {
      var f := faults[0];
      RolloverKeepsRows(p, labels[0], f.now, f.rolloverDbFails, f.rolloverReload);
      var q := RolledOverPanel(p, labels[0], f.now, f.rolloverDbFails, f.rolloverReload).0;
      RecalculateKeepsRows(q, labels[0], f.recalculateDbFails, f.recalculateReload);
      TickKeepsNames(TickedUser(p, labels[0], f), labels[1..], faults[1..]);
    }
  }

  lemma EditKeepsName(u: User, prev: User, r: Request)
    ensures Edited(u, r).Some? ==> Edited(u, r).value.id == u.id && Edited(u, r).value.userLabel == u.userLabel
    ensures Restored(u, prev, r).id == u.id && Restored(u, prev, r).userLabel == u.userLabel
  {
    hide DayFloor;
  }

  lemma ListedKeepsName(u: User, daily: seq<DayRow>)
    ensures Listed(u, daily).userLabel == u.userLabel
  {
  }

  lemma OneNameKept(users: seq<User>, i: int, u': User)
    requires 0 <= i < |users| && u'.id == users[i].id && u'.userLabel == users[i].userLabel
    ensures NamesKept(users, users[i := u'])
  {
  }

  lemma HandlerKeepsNames(p: Panel, r: Request, f: HandlerFaults)
    ensures var q := Handled(p, r, f).0; |q.users| == |p.users| && NamesKept(p.users, q.users)
  {
    hide Applied, RecalculatedPanel, Edited, Restored, Listed;
    var i := IndexOfId(p.users, r.id);
    if i >= 0 && Edited(p.users[i], r).Some? {
      var prev := Listed(p.users[i], p.daily);
      var e := Edited(p.users[i], r).value;
      EditKeepsName(p.users[i], prev, r);
      EditKeepsName(e, prev, r);
      ListedKeepsName(p.users[i], p.daily);
      AppliedKeepsTable(p.(users := p.users[i := e]), f.reload);
      OneNameKept(p.users, i, e);
      OneNameKept(p.users, i, Restored(e, prev, r));
      assert p.users[i := e][i := Restored(e, prev, r)] == p.users[i := Restored(e, prev, r)];
      RecalculateKeepsRows(Applied(p.(users := p.users[i := e]), f.reload), p.users[i].userLabel,
                           f.recalculateDbFails, f.recalculateReload);
    }
  }

  /** A step either keeps all rows' names and adds none, or creates a user. */
  lemma HappensKeepsNames(p: Panel, e: Event)
    ensures NamesKept(p.users, Happens(p, e).users)
    ensures !e.Create? ==> |Happens(p, e).users| == |p.users|
  {
    hide Handled, Ticked, Desired;
    match e
    case TrafficRecorded(daily) =>
    case Tick(faults) =>
      if |faults| <= |Labels(p.users)| {
        TickKeepsNames(p, Labels(p.users), faults);
      }
    case Handle(r, f) => HandlerKeepsNames(p, r, f);
    case BulkSuspend(ids, failingWrite, f) =>
    case Create(user, secret, f) =>
    case ProxyRestarts =>
  }

  lemma {:induction false} RunKeepsNames(p: Panel, events: seq<Event>)
    ensures NamesKept(p.users, AfterFrom(p, events).users)
    decreases |events|
  {
    hide Happens;
    if events != [] {
      RunKeepsNames(p, events[..|events| - 1]);
      HappensKeepsNames(AfterFrom(p, events[..|events| - 1]), events[|events| - 1]);
    }
  }

  /** A label any row ever had is refused for good: after every later sequence of events,
      whatever has become of the row. */
  lemma UsedLabelIsNeverFree(p: Panel, later: seq<Event>, user: string, secret: string, f: HandlerFaults)
    requires LabelTaken(p.users, user)
    ensures var q := AfterFrom(p, later);
            LabelTaken(q.users, user) && Created(q, user, secret, f) == (q, Refused)
  {
    RunKeepsNames(p, later);
    var i :| 0 <= i < |p.users| && p.users[i].userLabel == user;
    assert AfterFrom(p, later).users[i].userLabel == user;
  }

  /** The documented rule: a label must be free among the users that are not deleted. */
  predicate FreeAsDocumented(users: seq<User>, user: string) {
    forall i :: 0 <= i < |users| && users[i].userLabel == user ==> users[i].deleted
  }

  predicate DeletedRowHas(users: seq<User>, user: string) {
    exists i :: 0 <= i < |users| && users[i].userLabel == user && users[i].deleted
  }

  /** Where nothing else stands in the way, a label that is free as documented is refused
      if and only if a deleted row has it: the UNIQUE constraint counts deleted rows. */
  lemma DocumentedLabelRuleFailsIff(p: Panel, user: string, secret: string, f: HandlerFaults)
    requires !f.listFails && !f.writeFails && ActiveCount(p.users) < MAX_ACTIVE_USERS
    requires FreeAsDocumented(p.users, user)
    ensures Created(p, user, secret, f).1.Refused? <==> DeletedRowHas(p.users, user)
  {
    if LabelTaken(p.users, user) {
      var i :| 0 <= i < |p.users| && p.users[i].userLabel == user;
      assert p.users[i].deleted;
    }
    if DeletedRowHas(p.users, user) {
      var i :| 0 <= i < |p.users| && p.users[i].userLabel == user && p.users[i].deleted;
      assert p.users[i].userLabel == user;
    }
  }

  /** In particular a creation whose reload fails uses its label up: the row it leaves is
      deleted, the label is free as documented, and no later creation gets it. */
  lemma RolledBackCreationUsesLabelUp(p: Panel, user: string, secret: string, f: HandlerFaults,
                                      later: seq<Event>, again: string, g: HandlerFaults)
    requires Created(p, user, secret, f).1.RolledBack?
    ensures var q := Created(p, user, secret, f).0;
            && FreeAsDocumented(q.users, user) && DeletedRowHas(q.users, user)
            && Created(AfterFrom(q, later), user, again, g).1.Refused?
  {
    var q := Created(p, user, secret, f).0;
    assert q.users[|p.users|].userLabel == user && q.users[|p.users|].deleted;
    UsedLabelIsNeverFree(q, later, user, again, g);
  }

  lemma CreateKeepsKeysUnique(p: Panel, user: string, secret: string, f: HandlerFaults)
    requires KeysUnique(p.users)
    ensures KeysUnique(Created(p, user, secret, f).0.users)
  {
    hide KeysUnique, Applied, LabelTaken, ActiveCount;
    var u := NewUser(NextId(p.users), user, secret);
    AppliedKeepsTable(p.(users := p.users + [u]), f.reload);
    if !LabelTaken(p.users, user) {
      KeysUniqueAppend(p.users, u);
      KeysUniqueAppend(p.users, u.(deleted := true));
    }
  }

  lemma KeysUniqueAppend(users: seq<User>, u: User)
    requires KeysUnique(users) && !LabelTaken(users, u.userLabel)
    requires forall i :: 0 <= i < |users| ==> users[i].id < u.id
    ensures KeysUnique(users + [u])
  {
  }

  /** Ids and labels stay unique over every run, so `WHERE id=?` and `WHERE label=?` name
      at most one row. */
  lemma {:induction false} KeysStayUnique(p: Panel, events: seq<Event>)
    requires KeysUnique(p.users)
    ensures KeysUnique(AfterFrom(p, events).users)
    decreases |events|
  {
    hide Ticked, Handled, BulkSuspended, Created, ProxyRestarted;
    if events != [] {
      var before, e := AfterFrom(p, events[..|events| - 1]), events[|events| - 1];
      KeysStayUnique(p, events[..|events| - 1]);
      HappensKeepsNames(before, e);
      if e.Create? {
        CreateKeepsKeysUnique(before, e.user, e.secret, e.failures);
      }
    }
  }
}
