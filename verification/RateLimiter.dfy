/** Failed logins per address: five failures within a window of five minutes block the
    address for an hour. Times are nanoseconds since the zero time of the clock. */
module RateLimiter {
  import opened Options

  const MAX_FAILURES := 5
  const SECOND := 1_000_000_000
  const FAILURE_WINDOW := 300 * SECOND
  const BLOCK_DURATION := 3600 * SECOND
  const ZERO_TIME := 0

  datatype IpRecord = IpRecord(failures: int, windowEnd: int, blockedUntil: int)

  const NEW_RECORD := IpRecord(0, ZERO_TIME, ZERO_TIME)

  /** The record of an address that failed at `now`. */
  function AfterFailure(rec: Option<IpRecord>, now: int): IpRecord {
    var r := if rec.Some? then rec.value else NEW_RECORD;
    var s := if now > r.windowEnd then r.(failures := 1, windowEnd := now + FAILURE_WINDOW)
             else r.(failures := r.failures + 1);
    if s.failures >= MAX_FAILURES then s.(blockedUntil := now + BLOCK_DURATION) else s
  }

  predicate Blocked(rec: Option<IpRecord>, now: int) {
    rec.Some? && now < rec.value.blockedUntil
  }

  class Limiter {
    var records: map<string, IpRecord>

    constructor ()
      ensures records == map[]
    {
      records := map[];
    }

    function RecordOf(ip: string): Option<IpRecord>
      reads this
    {
      if ip in records then Some(records[ip]) else None
    }

    method IsBlocked(ip: string, now: int) returns (blocked: bool)
      ensures blocked <==> Blocked(RecordOf(ip), now)
    {
      if ip !in records {
        return false;
      }
      blocked := now < records[ip].blockedUntil;
    }

    method RecordFailure(ip: string, now: int)
      modifies this
      ensures RecordOf(ip) == Some(AfterFailure(old(RecordOf(ip)), now))
      ensures forall other :: other != ip ==> RecordOf(other) == old(RecordOf(other))
    {
      if ip !in records {
        records := records[ip := NEW_RECORD];
      }
      var rec := records[ip];
      if now > rec.windowEnd {
        rec := rec.(failures := 0, windowEnd := now + FAILURE_WINDOW);
      }
      rec := rec.(failures := rec.failures + 1);
      if rec.failures >= MAX_FAILURES {
        rec := rec.(blockedUntil := now + BLOCK_DURATION);
      }
      records := records[ip := rec];
    }

    method RecordSuccess(ip: string)
      modifies this
      ensures RecordOf(ip) == None
      ensures forall other :: other != ip ==> RecordOf(other) == old(RecordOf(other))
    {
      records := records - {ip};
    }

    /** A failing login attempt, checked and recorded as one step: it is admitted, and
        counts, unless the address is blocked. */
    method FailingAttempt(ip: string, now: int) returns (admitted: bool)
      modifies this
      ensures admitted <==> !Blocked(old(RecordOf(ip)), now)
      ensures RecordOf(ip) == Attempted(old(RecordOf(ip)), now)
      ensures forall other :: other != ip ==> RecordOf(other) == old(RecordOf(other))
    {
      var blocked := IsBlocked(ip, now);
      if blocked {
        return false;
      }
      RecordFailure(ip, now);
      return true;
    }
  }

  // ---- failing attempts of one address ----

  /** A whole schedule of failing attempts of an address that has no record: however it goes,
      at most eight of them are admitted in the five minutes from `lo` on. */
  method FailingAttempts(l: Limiter, ip: string, times: seq<int>, lo: int) returns (within: nat)
    requires l.RecordOf(ip) == None && NonDecreasing(times)
    modifies l
    ensures l.RecordOf(ip) == AfterAttempts(times)
    ensures forall other :: other != ip ==> l.RecordOf(other) == old(l.RecordOf(other))
    ensures within == AdmittedWithin(times, lo, lo + FAILURE_WINDOW) && within <= 8
  {
    hide Attempted, Blocked;
    within := 0;
    for i := 0 to |times|
      invariant l.RecordOf(ip) == AfterAttempts(times[..i])
      invariant forall other :: other != ip ==> l.RecordOf(other) == old(l.RecordOf(other))
      invariant within == AdmittedWithin(times[..i], lo, lo + FAILURE_WINDOW)
    {
      assert times[..i + 1][..i] == times[..i];
      var admitted := l.FailingAttempt(ip, times[i]);
      if admitted && lo <= times[i] <= lo + FAILURE_WINDOW {
        within := within + 1;
      }
    }
    assert times[..|times|] == times;
    AtMostEightPerWindow(times, lo);
  }

  function Attempted(rec: Option<IpRecord>, now: int): Option<IpRecord> {
    if Blocked(rec, now) then rec else Some(AfterFailure(rec, now))
  }

  function AfterAttempts(times: seq<int>): Option<IpRecord> {
    if times == [] then None
    else Attempted(AfterAttempts(times[..|times| - 1]), times[|times| - 1])
  }

  /** The number of admitted attempts in the closed interval [lo, hi]. */
  function AdmittedWithin(times: seq<int>, lo: int, hi: int): nat {
    if times == [] then 0
    else
      var before := times[..|times| - 1];
      var now := times[|times| - 1];
      AdmittedWithin(before, lo, hi)
      + if !Blocked(AfterAttempts(before), now) && lo <= now <= hi then 1 else 0
  }

  predicate NonDecreasing(times: seq<int>) {
    && (forall i :: 0 <= i < |times| ==> times[i] > ZERO_TIME)
    && (forall i, j :: 0 <= i <= j < |times| ==> times[i] <= times[j])
  }

  /** The facts about the current window that bound what any interval of a window's length
      from `lo` on has admitted: `n` so far, none of it after `now`. */
  ghost predicate WindowFacts(rec: Option<IpRecord>, lo: int, n: nat, now: int) {
    match rec
    case None => n == 0
    case Some(r) =>
      var start := r.windowEnd - FAILURE_WINDOW;
      && 1 <= r.failures <= MAX_FAILURES
      && ZERO_TIME < start <= now
      && (now < lo ==> n == 0)
      && (r.failures == MAX_FAILURES ==>
            start + BLOCK_DURATION <= r.blockedUntil
            && (start < lo && n > 0 ==> lo + BLOCK_DURATION <= r.blockedUntil))
      && (if start < lo then n <= r.failures - 1
          else n <= 8 && (start <= lo + FAILURE_WINDOW ==> n <= 3 + r.failures))
  }

  lemma AttemptKeepsWindowFacts(rec: Option<IpRecord>, lo: int, n: nat, before: int, now: int)
    requires WindowFacts(rec, lo, n, before) && before <= now && now > ZERO_TIME
    ensures var n' := n + if !Blocked(rec, now) && lo <= now <= lo + FAILURE_WINDOW then 1 else 0;
            WindowFacts(Attempted(rec, now), lo, n', now)
  {
  }

  lemma {:induction false} WindowFactsHold(times: seq<int>, lo: int)
    requires NonDecreasing(times)
    ensures WindowFacts(AfterAttempts(times), lo, AdmittedWithin(times, lo, lo + FAILURE_WINDOW),
                        if times == [] then 0 else times[|times| - 1])
    decreases |times|
  {
    if times != [] {
      var before := times[..|times| - 1];
      WindowFactsHold(before, lo);
      AttemptKeepsWindowFacts(AfterAttempts(before), lo, AdmittedWithin(before, lo, lo + FAILURE_WINDOW),
                              if before == [] then 0 else before[|before| - 1], times[|times| - 1]);
    }
  }

  /** Whatever the attempts of an address without a success, any closed interval of five
      minutes admits at most eight of them: at most three that end one window and five
      that open the next. */
  lemma AtMostEightPerWindow(times: seq<int>, lo: int)
    requires NonDecreasing(times)
    ensures AdmittedWithin(times, lo, lo + 300_000_000_000) <= 8
  {
    WindowFactsHold(times, lo);
  }

  /** Eight is reached: one failure, three at the very end of its window, and five right
      after it. */
  lemma EightIsReached()
    ensures var w := 1 + FAILURE_WINDOW;
            var times := [1, w, w, w, w + 1, w + 1, w + 1, w + 1, w + 1];
            NonDecreasing(times) && AdmittedWithin(times, w, w + FAILURE_WINDOW) == 8
  {
    var w := 1 + FAILURE_WINDOW;
    var hi := w + FAILURE_WINDOW;
    NothingYet(w, hi);
    hide AfterAttempts, AdmittedWithin;
    var t1 := OneMore([], 1, w, hi);
    var t2 := OneMore(t1, w, w, hi);
    var t3 := OneMore(t2, w, w, hi);
    var t4 := OneMore(t3, w, w, hi);
    assert AfterAttempts(t4) == Some(IpRecord(4, w, 0));
    var t5 := OneMore(t4, w + 1, w, hi);
    var t6 := OneMore(t5, w + 1, w, hi);
    var t7 := OneMore(t6, w + 1, w, hi);
    var t8 := OneMore(t7, w + 1, w, hi);
    var t9 := OneMore(t8, w + 1, w, hi);
    assert t9 == [1, w, w, w, w + 1, w + 1, w + 1, w + 1, w + 1];
  }

  lemma OneMore(times: seq<int>, now: int, lo: int, hi: int) returns (more: seq<int>)
    ensures more == times + [now]
    ensures AfterAttempts(more) == Attempted(AfterAttempts(times), now)
    ensures AdmittedWithin(more, lo, hi)
            == AdmittedWithin(times, lo, hi)
               + if !Blocked(AfterAttempts(times), now) && lo <= now <= hi then 1 else 0
  {
    more := times + [now];
    assert more[..|times|] == times;
  }

  lemma NothingYet(lo: int, hi: int)
    ensures AfterAttempts([]) == None && AdmittedWithin([], lo, hi) == 0
  {
  }

  /** The fifth failure of a window blocks for the full hour, and the first failure after
      the block starts a fresh window at count 1. */
  lemma FifthFailureBlocks(times: seq<int>, fifth: int, later: int)
    requires NonDecreasing(times + [fifth]) && later >= fifth
    requires var rec := AfterAttempts(times);
             rec.Some? && rec.value.failures == 4 && fifth <= rec.value.windowEnd
             && !Blocked(rec, fifth)
    ensures var rec := AfterAttempts(times + [fifth]);
            && (Blocked(rec, later) <==> later < fifth + 3_600_000_000_000)
            && (!Blocked(rec, later) ==>
                  Attempted(rec, later).value.failures == 1
                  && Attempted(rec, later).value.windowEnd == later + 300_000_000_000)
  {
    assert (times + [fifth])[..|times|] == times;
    assert NonDecreasing(times) by {
      assert forall i :: 0 <= i < |times| ==> (times + [fifth])[i] == times[i];
    }
    WindowFactsHold(times, 0);
    if times != [] {
      assert (times + [fifth])[|times| - 1] <= (times + [fifth])[|times|];
    }
  }
}
