/** One-shot recovery codes: concurrent requests each look up, remove and store inside a
    transaction that holds the database's single writer lock from its first statement. */
module RecoveryCodes {
  import opened Options

  /** What the database column holds; the empty list is stored as empty text. */
  datatype Column = NoText | Json(hashes: seq<string>)

  function EncodeRecoveryHashes(hashes: seq<string>): Column {
    if |hashes| == 0 then NoText else Json(hashes)
  }

  function DecodeRecoveryHashes(c: Column): seq<string> {
    match c
    case NoText => []
    case Json(hashes) => hashes
  }

  /** Whether a plaintext code matches a stored hash; bcrypt is not part of this model. */
  type Matcher = (string, string) -> bool

  /** The first stored hash a code matches, or -1. */
  function FirstMatch(hashes: seq<string>, code: string, matches: Matcher): (i: int)
    ensures -1 <= i < |hashes|
    ensures i >= 0 ==> matches(hashes[i], code) && forall j :: 0 <= j < i ==> !matches(hashes[j], code)
    ensures i < 0 ==> forall j :: 0 <= j < |hashes| ==> !matches(hashes[j], code)
  {
    if hashes == [] then -1
    else if matches(hashes[0], code) then 0
    else
      var i := FirstMatch(hashes[1..], code, matches);
      assert forall j :: 1 <= j < |hashes| ==> hashes[j] == hashes[1..][j - 1];
      if i < 0 then -1 else i + 1
  }

  function RemoveAt(hashes: seq<string>, i: int): seq<string>
    requires 0 <= i < |hashes|
  {
    hashes[..i] + hashes[i + 1..]
  }

  /** Removing an entry takes exactly that entry out of the column. */
  lemma RemoveAtTakesOne(hashes: seq<string>, i: int)
    requires 0 <= i < |hashes|
    ensures multiset(DecodeRecoveryHashes(EncodeRecoveryHashes(RemoveAt(hashes, i)))) + multiset{hashes[i]}
            == multiset(hashes)
  {
    assert hashes == hashes[..i] + [hashes[i]] + hashes[i + 1..];
  }

  // ---- one request on its own ----

  /** The admin row. */
  class Admin {
    var totpRecoveryCodes: Column

    constructor (hashes: seq<string>)
      ensures totpRecoveryCodes == EncodeRecoveryHashes(hashes)
    {
      totpRecoveryCodes := EncodeRecoveryHashes(hashes);
    }

    /** ConsumeRecoveryCode without concurrency. The result is the pair of what it returns:
        a match, and no error. A failing commit still returns the match; when the COMMIT
        worked and only closing the connection failed, the entry is gone all the same. */
    method ConsumeRecoveryCode(code: string, matches: Matcher, beginFails: bool, statementFails: bool,
                               commitFails: bool, closeFails: bool)
        returns (matched: bool, ok: bool)
      modifies this
      ensures var hashes := DecodeRecoveryHashes(old(totpRecoveryCodes));
              var i := FirstMatch(hashes, code, matches);
              && (matched <==> code != "" && !beginFails && !statementFails && i >= 0)
              && (ok <==> code == "" || (!beginFails && !statementFails && !commitFails && !closeFails))
              && totpRecoveryCodes == (if matched && !commitFails then EncodeRecoveryHashes(RemoveAt(hashes, i))
                                       else old(totpRecoveryCodes))
    {
      if code == "" {
        return false, true;
      }
      if beginFails || statementFails {
        return false, false;
      }
      var hashes := DecodeRecoveryHashes(totpRecoveryCodes);
      var matchIdx := 0;
      assert hashes[0..] == hashes;
      while matchIdx < |hashes| && !matches(hashes[matchIdx], code)
        invariant 0 <= matchIdx <= |hashes|
        invariant var rest := FirstMatch(hashes[matchIdx..], code, matches);
                  FirstMatch(hashes, code, matches) == if rest < 0 then -1 else matchIdx + rest
      {
        assert hashes[matchIdx..][1..] == hashes[matchIdx + 1..];
        matchIdx := matchIdx + 1;
      }
      if matchIdx == |hashes| {
        return false, !commitFails && !closeFails;
      }
      hashes := hashes[..matchIdx] + hashes[matchIdx + 1..];
      if commitFails {
        return true, false;
      }
      totpRecoveryCodes := EncodeRecoveryHashes(hashes);
      return true, !closeFails;
    }
  }

  // ---- concurrent requests ----

  /** Where a request stands. `Found` and `Written` remember the list it read and the
      entry it found. */
  datatype Phase =
    | Waiting                                   // before BEGIN IMMEDIATE
    | Begun                                     // holds the writer lock
    | HasRead(hashes: seq<string>)
    | Found(hashes: seq<string>, index: int)
    | Written(entry: string)
    | Accepted(entry: string)                   // matched, committed or not
    | Rejected

  datatype Request = Request(code: string, phase: Phase)

  /** `column` is committed, `draft` is what the lock holder sees; `saved` and `unsaved`
      list the entries of accepted requests whose commit worked and failed. */
  datatype System = System(
    column: Column, draft: Column, holder: Option<nat>, requests: seq<Request>,
    history: seq<string>, saved: seq<string>, unsaved: seq<string>)

  function InPhase(s: System, p: nat, phase: Phase): (s': System)
    requires p < |s.requests|
    ensures |s'.requests| == |s.requests|
  {
    s.(requests := s.requests[p := s.requests[p].(phase := phase)])
  }

  /** Rollback: the draft is dropped and the lock released. */
  function Aborted(s: System, p: nat): System
    requires p < |s.requests|
  {
    InPhase(s, p, Rejected).(draft := s.column, holder := None)
  }

  /** How a step goes. A COMMIT that works is one that works whatever closing its connection
      comes to, since callers look at the match alone; one that fails is rolled back or leaves
      its transaction open on the connection, which goes back to the pool. */
  datatype Luck = Works | Fails | LeavesOpen

  /** The lock held by a transaction that no request will end. */
  function Stuck(s: System): System {
    s.(holder := Some(|s.requests|))
  }

  /** One step of request p; a request that waits for the lock does not move. */
  function Step(s: System, p: nat, luck: Luck, matches: Matcher): (s': System)
    requires p < |s.requests|
    ensures |s'.requests| == |s.requests|
  {
    hide FirstMatch, InPhase;
    var code := s.requests[p].code;
    match s.requests[p].phase
    case Waiting =>
      if code == "" || !luck.Works? then InPhase(s, p, Rejected)
      else if s.holder.Some? then s
      else InPhase(s, p, Begun).(draft := s.column, holder := Some(p))
    case Begun =>
      if !luck.Works? then Aborted(s, p) else InPhase(s, p, HasRead(DecodeRecoveryHashes(s.draft)))
    case HasRead(hashes) =>
      var i := FirstMatch(hashes, code, matches);
      if i >= 0 then InPhase(s, p, Found(hashes, i))
      else if luck.Works? then Aborted(s, p).(history := s.history + [code])
      else if luck.LeavesOpen? then Stuck(Aborted(s, p))
      else Aborted(s, p)
    case Found(hashes, i) =>
      if !luck.Works? || !(0 <= i < |hashes|) then Aborted(s, p)
      else InPhase(s, p, Written(hashes[i])).(draft := EncodeRecoveryHashes(RemoveAt(hashes, i)))
    case Written(entry) =>
      var accepted := InPhase(s, p, Accepted(entry)).(holder := None);
      if luck.Works? then
        accepted.(column := s.draft, history := s.history + [code], saved := s.saved + [entry])
      else if luck.LeavesOpen? then
        Stuck(accepted.(unsaved := s.unsaved + [entry]))
      else
        accepted.(draft := s.column, unsaved := s.unsaved + [entry])
    case Accepted(_) => s
    case Rejected => s
  }

  datatype Move = Move(request: nat, luck: Luck)

  function Start(hashes: seq<string>, codes: seq<string>): System {
    var c := EncodeRecoveryHashes(hashes);
    System(c, c, None, seq(|codes|, i requires 0 <= i < |codes| => Request(codes[i], Waiting)), [], [], [])
  }

  /** The state after an interleaving; moves of unknown requests do nothing. */
  function Interleaved(hashes: seq<string>, codes: seq<string>, moves: seq<Move>, matches: Matcher): (s: System)
    ensures |s.requests| == |codes|
  {
    hide Step;
    if moves == [] then Start(hashes, codes)
    else
      var s := Interleaved(hashes, codes, moves[..|moves| - 1], matches);
      var m := moves[|moves| - 1];
      if m.request < |codes| then Step(s, m.request, m.luck, matches) else s
  }

  lemma StepKeepsRequests(s: System, p: nat, luck: Luck, matches: Matcher)
    requires p < |s.requests|
    ensures forall q :: 0 <= q < |s.requests| ==>
              && Step(s, p, luck, matches).requests[q].code == s.requests[q].code
              && (q != p ==> Step(s, p, luck, matches).requests[q] == s.requests[q])
  {
  }

  // ---- the serial reference ----

  /** Codes consumed one after another with nothing in between. */
  datatype Serial = Serial(hashes: seq<string>, accepted: seq<string>)

  function Consumed(s: Serial, code: string, matches: Matcher): Serial {
    var i := FirstMatch(s.hashes, code, matches);
    if i < 0 then s else Serial(RemoveAt(s.hashes, i), s.accepted + [s.hashes[i]])
  }

  function ConsumedAll(hashes: seq<string>, codes: seq<string>, matches: Matcher): Serial {
    if codes == [] then Serial(hashes, [])
    else Consumed(ConsumedAll(hashes, codes[..|codes| - 1], matches), codes[|codes| - 1], matches)
  }

  predicate InTransaction(phase: Phase) {
    phase.Begun? || phase.HasRead? || phase.Found? || phase.Written?
  }

  /** What every step keeps: the holder of the lock is the one request in a transaction,
      it works on the committed list, and the committed state is that of the serial
      reference. */
  ghost predicate Serializable(s: System, hashes: seq<string>, matches: Matcher) {
    var serial := ConsumedAll(hashes, s.history, matches);
    && DecodeRecoveryHashes(s.column) == serial.hashes
    && s.saved == serial.accepted
    && (forall p :: 0 <= p < |s.requests| ==> (InTransaction(s.requests[p].phase) <==> s.holder == Some(p)))
    && (forall p :: 0 <= p < |s.requests| ==> RequestSound(s, s.requests[p], matches))
  }

  ghost predicate RequestSound(s: System, r: Request, matches: Matcher) {
    var stored := DecodeRecoveryHashes(s.column);
    match r.phase
    case Begun => s.draft == s.column
    case HasRead(hashes) => hashes == stored
    case Found(hashes, i) => hashes == stored && 0 <= i < |hashes| && i == FirstMatch(hashes, r.code, matches)
    case Written(entry) =>
      var i := FirstMatch(stored, r.code, matches);
      0 <= i < |stored| && entry == stored[i] && DecodeRecoveryHashes(s.draft) == RemoveAt(stored, i)
    case Accepted(entry) => matches(entry, r.code)
    case Waiting => true
    case Rejected => true
  }

  lemma ConsumedAllAppend(hashes: seq<string>, history: seq<string>, code: string, matches: Matcher)
    ensures ConsumedAll(hashes, history + [code], matches)
            == Consumed(ConsumedAll(hashes, history, matches), code, matches)
  {
  }

  /** The steps of the one request that moves. */
  lemma MoverStaysSound(s: System, p: nat, luck: Luck, hashes: seq<string>, matches: Matcher)
    requires p < |s.requests| && Serializable(s, hashes, matches)
    ensures var s' := Step(s, p, luck, matches);
            && RequestSound(s', s'.requests[p], matches)
            && (InTransaction(s'.requests[p].phase) <==> s'.holder == Some(p))
            && (s'.holder == s.holder || s.holder == Some(p) || s'.holder == Some(p))
  {
    hide ConsumedAll, FirstMatch, RemoveAt;
    assert RequestSound(s, s.requests[p], matches);
  }

  lemma CommittedIsSerial(s: System, p: nat, luck: Luck, hashes: seq<string>, matches: Matcher)
    requires p < |s.requests| && Serializable(s, hashes, matches)
    ensures var s' := Step(s, p, luck, matches);
            var serial := ConsumedAll(hashes, s'.history, matches);
            DecodeRecoveryHashes(s'.column) == serial.hashes && s'.saved == serial.accepted
  {
    hide ConsumedAll, FirstMatch, RemoveAt;
    assert RequestSound(s, s.requests[p], matches);
    ConsumedAllAppend(hashes, s.history, s.requests[p].code, matches);
  }

  /** A step that changes what is committed or drafted is one of the lock's holder. */
  lemma OthersStaySound(s: System, p: nat, q: nat, luck: Luck, hashes: seq<string>, matches: Matcher)
    requires p < |s.requests| && q < |s.requests| && p != q && Serializable(s, hashes, matches)
    ensures var s' := Step(s, p, luck, matches);
            && RequestSound(s', s.requests[q], matches)
            && (s'.holder == Some(q) <==> s.holder == Some(q))
  {
    hide ConsumedAll, FirstMatch, RemoveAt;
    assert RequestSound(s, s.requests[q], matches);
    assert InTransaction(s.requests[q].phase) <==> s.holder == Some(q);
    assert InTransaction(s.requests[p].phase) <==> s.holder == Some(p);
  }

  lemma StepStaysSerializable(s: System, p: nat, luck: Luck, hashes: seq<string>, matches: Matcher)
    requires p < |s.requests| && Serializable(s, hashes, matches)
    ensures Serializable(Step(s, p, luck, matches), hashes, matches)
  {
    hide Step, RequestSound, ConsumedAll, DecodeRecoveryHashes;
    var s' := Step(s, p, luck, matches);
    StepKeepsRequests(s, p, luck, matches);
    MoverStaysSound(s, p, luck, hashes, matches);
    CommittedIsSerial(s, p, luck, hashes, matches);
    forall q | 0 <= q < |s'.requests|
      ensures RequestSound(s', s'.requests[q], matches)
      ensures InTransaction(s'.requests[q].phase) <==> s'.holder == Some(q)
    {
      if q != p {
        OthersStaySound(s, p, q, luck, hashes, matches);
      }
    }
  }

  /** Every interleaving of requests under the writer lock is serial: the stored list and
      the entries of the committed acceptances are those of consuming the committed codes
      one after another, and every accepted entry matches the code it was accepted for. */
  lemma {:induction false} InterleavingsAreSerial(
      hashes: seq<string>, codes: seq<string>, moves: seq<Move>, matches: Matcher)
    ensures Serializable(Interleaved(hashes, codes, moves, matches), hashes, matches)
    decreases |moves|
  {
    if moves != [] {
      InterleavingsAreSerial(hashes, codes, moves[..|moves| - 1], matches);
      var m := moves[|moves| - 1];
      if m.request < |codes| {
        StepStaysSerializable(Interleaved(hashes, codes, moves[..|moves| - 1], matches),
                              m.request, m.luck, hashes, matches);
      }
    }
  }

  lemma {:induction false} SerialConserves(hashes: seq<string>, codes: seq<string>, matches: Matcher)
    ensures var serial := ConsumedAll(hashes, codes, matches);
            && multiset(serial.hashes) + multiset(serial.accepted) == multiset(hashes)
            && |serial.hashes| + |serial.accepted| == |hashes|
    decreases |codes|
  {
    if codes != [] {
      var before := ConsumedAll(hashes, codes[..|codes| - 1], matches);
      SerialConserves(hashes, codes[..|codes| - 1], matches);
      var i := FirstMatch(before.hashes, codes[|codes| - 1], matches);
      if i >= 0 {
        RemoveAtTakesOne(before.hashes, i);
      }
    }
  }

  // ---- one-shot ----

  function CountAccepted(requests: seq<Request>): nat {
    if requests == [] then 0
    else CountAccepted(requests[..|requests| - 1]) + if requests[|requests| - 1].phase.Accepted? then 1 else 0
  }

  lemma {:induction false} CountAfterStep(requests: seq<Request>, p: int, r: Request)
    requires 0 <= p < |requests|
    ensures CountAccepted(requests[p := r])
            == CountAccepted(requests) + (if r.phase.Accepted? then 1 else 0)
               - (if requests[p].phase.Accepted? then 1 else 0)
    decreases |requests|
  {
    var changed := requests[p := r];
    var n := |requests| - 1;
    if p == n {
      assert changed[..n] == requests[..n];
    } else {
      assert changed[..n] == requests[..n][p := r];
      CountAfterStep(requests[..n], p, r);
    }
  }

  /** The entries requests were accepted for. */
  function AcceptedEntries(requests: seq<Request>): multiset<string> {
    if requests == [] then multiset{}
    else AcceptedEntries(requests[..|requests| - 1]) + EntryOf(requests[|requests| - 1])
  }

  function EntryOf(r: Request): multiset<string> {
    if r.phase.Accepted? then multiset{r.phase.entry} else multiset{}
  }

  lemma {:induction false} EntriesAfterStep(requests: seq<Request>, p: int, r: Request)
    requires 0 <= p < |requests| && !requests[p].phase.Accepted?
    ensures AcceptedEntries(requests[p := r]) == AcceptedEntries(requests) + EntryOf(r)
    decreases |requests|
  {
    hide AcceptedEntries;
    var changed := requests[p := r];
    var n := |requests| - 1;
    EntriesOfLast(requests);
    EntriesOfLast(changed);
    if p == n {
      assert changed[..n] == requests[..n];
    } else {
      assert changed[..n] == requests[..n][p := r];
      EntriesAfterStep(requests[..n], p, r);
      LastTwoSwapped(AcceptedEntries(requests[..n]), EntryOf(r), EntryOf(requests[n]));
    }
  }

  lemma EntriesOfLast(requests: seq<Request>)
    requires requests != []
    ensures AcceptedEntries(requests)
            == AcceptedEntries(requests[..|requests| - 1]) + EntryOf(requests[|requests| - 1])
  {
    hide EntryOf;
  }

  lemma LastTwoSwapped(a: multiset<string>, b: multiset<string>, c: multiset<string>)
    ensures a + b + c == a + c + b
  {
  }

  /** The moves that met a request with its list written and whose COMMIT did not work. */
  function CommitsFailed(hashes: seq<string>, codes: seq<string>, moves: seq<Move>, matches: Matcher): nat {
    if moves == [] then 0
    else
      var before := moves[..|moves| - 1];
      var m := moves[|moves| - 1];
      CommitsFailed(hashes, codes, before, matches)
      + if m.request < |codes| && FailsToCommit(Interleaved(hashes, codes, before, matches), m) then 1 else 0
  }

  predicate FailsToCommit(s: System, m: Move)
    requires m.request < |s.requests|
  {
    s.requests[m.request].phase.Written? && !m.luck.Works?
  }

  /** The logs hold what the requests were accepted for and how many COMMITs failed. */
  lemma {:induction false} AcceptancesAreLogged(
      hashes: seq<string>, codes: seq<string>, moves: seq<Move>, matches: Matcher)
    ensures var s := Interleaved(hashes, codes, moves, matches);
            && CountAccepted(s.requests) == |s.saved| + |s.unsaved|
            && AcceptedEntries(s.requests) == multiset(s.saved) + multiset(s.unsaved)
            && |s.unsaved| == CommitsFailed(hashes, codes, moves, matches)
    decreases |moves|
  {
    hide Step, CountAccepted, AcceptedEntries;
    if moves == [] {
      NoneAcceptedAtStart(Start(hashes, codes).requests);
    } else {
      AcceptancesAreLogged(hashes, codes, moves[..|moves| - 1], matches);
      var m := moves[|moves| - 1];
      if m.request < |codes| {
        StepLogsAcceptance(Interleaved(hashes, codes, moves[..|moves| - 1], matches), m.request, m.luck, matches);
      }
    }
  }

  lemma StepLogsAcceptance(s: System, p: nat, luck: Luck, matches: Matcher)
    requires p < |s.requests| && CountAccepted(s.requests) == |s.saved| + |s.unsaved|
    requires AcceptedEntries(s.requests) == multiset(s.saved) + multiset(s.unsaved)
    ensures var s' := Step(s, p, luck, matches);
            && CountAccepted(s'.requests) == |s'.saved| + |s'.unsaved|
            && AcceptedEntries(s'.requests) == multiset(s'.saved) + multiset(s'.unsaved)
            && |s'.unsaved| == |s.unsaved| + if FailsToCommit(s, Move(p, luck)) then 1 else 0
  {
    hide CountAccepted, AcceptedEntries, Step;
    var s' := Step(s, p, luck, matches);
    var r := s'.requests[p];
    StepKeepsOthers(s, p, luck, matches);
    CountAfterStep(s.requests, p, r);
    if s.requests[p].phase.Accepted? {
      AcceptedStays(s, p, luck, matches);
    } else {
      EntriesAfterStep(s.requests, p, r);
      StepLogsEntry(s, p, luck, matches);
      if r.phase.Accepted? {
        LogOneMore(s.saved, s.unsaved, r.phase.entry);
      } else {
        assert AcceptedEntries(s.requests) + multiset{} == AcceptedEntries(s.requests);
      }
    }
  }

  lemma StepKeepsOthers(s: System, p: nat, luck: Luck, matches: Matcher)
    requires p < |s.requests|
    ensures Step(s, p, luck, matches).requests == s.requests[p := Step(s, p, luck, matches).requests[p]]
  {
    hide Step;
    StepKeepsRequests(s, p, luck, matches);
  }

  lemma AcceptedStays(s: System, p: nat, luck: Luck, matches: Matcher)
    requires p < |s.requests| && s.requests[p].phase.Accepted?
    ensures Step(s, p, luck, matches) == s
  {
  }

  /** A step that accepts logs its entry, as saved exactly when its COMMIT worked. */
  lemma StepLogsEntry(s: System, p: nat, luck: Luck, matches: Matcher)
    requires p < |s.requests| && !s.requests[p].phase.Accepted?
    ensures var s' := Step(s, p, luck, matches);
            var r := s'.requests[p];
            && (r.phase.Accepted? <==> s.requests[p].phase.Written?)
            && s'.saved == (if r.phase.Accepted? && luck.Works? then s.saved + [r.phase.entry] else s.saved)
            && s'.unsaved == (if r.phase.Accepted? && !luck.Works? then s.unsaved + [r.phase.entry] else s.unsaved)
  {
    hide FirstMatch, RemoveAt, EncodeRecoveryHashes, DecodeRecoveryHashes;
  }

  lemma LogOneMore(saved: seq<string>, unsaved: seq<string>, entry: string)
    ensures multiset(saved + [entry]) + multiset(unsaved) == multiset(saved) + multiset(unsaved) + multiset{entry}
    ensures multiset(saved) + multiset(unsaved + [entry]) == multiset(saved) + multiset(unsaved) + multiset{entry}
  {
  }

  lemma {:induction false} NoneAcceptedAtStart(requests: seq<Request>)
    requires forall i :: 0 <= i < |requests| ==> requests[i].phase.Waiting?
    ensures CountAccepted(requests) == 0 && AcceptedEntries(requests) == multiset{}
    decreases |requests|
  {
    if requests != [] {
      NoneAcceptedAtStart(requests[..|requests| - 1]);
    }
  }

  /** Recovery codes are one-shot under every interleaving. The accepted requests plus the
      remaining entries are as many as the initial entries and the COMMITs that failed, so
      they make up the initial number if and only if no COMMIT of an accepted request
      failed; and then what was accepted and what remains are exactly the initial entries. */
  lemma CodesAreOneShot(hashes: seq<string>, codes: seq<string>, moves: seq<Move>, matches: Matcher)
    ensures var s := Interleaved(hashes, codes, moves, matches);
            var remaining := DecodeRecoveryHashes(s.column);
            var failed := CommitsFailed(hashes, codes, moves, matches);
            && multiset(remaining) + multiset(s.saved) == multiset(hashes)
            && multiset(s.saved) <= AcceptedEntries(s.requests)
            && CountAccepted(s.requests) + |remaining| == |hashes| + failed
            && (CountAccepted(s.requests) + |remaining| == |hashes| <==> failed == 0)
            && (failed == 0 ==> AcceptedEntries(s.requests) + multiset(remaining) == multiset(hashes))
  {
    hide Interleaved, CommitsFailed, CountAccepted, AcceptedEntries, ConsumedAll;
    var s := Interleaved(hashes, codes, moves, matches);
    InterleavingsAreSerial(hashes, codes, moves, matches);
    SerialConserves(hashes, s.history, matches);
    AcceptancesAreLogged(hashes, codes, moves, matches);
  }

  /** In particular over all moves that work, in whatever order. */
  lemma WorkingRunsConserve(hashes: seq<string>, codes: seq<string>, moves: seq<Move>, matches: Matcher)
    requires forall i :: 0 <= i < |moves| ==> moves[i].luck.Works?
    ensures var s := Interleaved(hashes, codes, moves, matches);
            var remaining := DecodeRecoveryHashes(s.column);
            && CountAccepted(s.requests) + |remaining| == |hashes|
            && AcceptedEntries(s.requests) + multiset(remaining) == multiset(hashes)
  {
    hide Interleaved, CommitsFailed, CountAccepted, AcceptedEntries;
    CodesAreOneShot(hashes, codes, moves, matches);
    WorkingMovesDoNotFail(hashes, codes, moves, matches);
  }

  lemma {:induction false} WorkingMovesDoNotFail(
      hashes: seq<string>, codes: seq<string>, moves: seq<Move>, matches: Matcher)
    requires forall i :: 0 <= i < |moves| ==> moves[i].luck.Works?
    ensures CommitsFailed(hashes, codes, moves, matches) == 0
    decreases |moves|
  {
    hide Interleaved;
    if moves != [] {
      WorkingMovesDoNotFail(hashes, codes, moves[..|moves| - 1], matches);
    }
  }

  // ---- one request's five moves ----

  /** The five steps of a request that finds its code: all work up to its COMMIT. */
  function FiveSteps(s: System, p: nat, commit: Luck, matches: Matcher): System
    requires p < |s.requests|
  {
    hide Step;
    var begun := Step(s, p, Works, matches);
    var read := Step(begun, p, Works, matches);
    var found := Step(read, p, Works, matches);
    var written := Step(found, p, Works, matches);
    Step(written, p, commit, matches)
  }

  /** On a free lock it is accepted for the first entry its code matches. When its COMMIT
      works exactly that entry is gone, in whatever order the others were; when it fails
      every entry is still there. */
  lemma FiveStepsAccept(s: System, p: nat, commit: Luck, i: nat, matches: Matcher)
    requires p < |s.requests| && s.requests[p].phase.Waiting? && s.requests[p].code != "" && s.holder.None?
    requires var hashes := DecodeRecoveryHashes(s.column);
             && i < |hashes| && matches(hashes[i], s.requests[p].code)
             && (forall j :: 0 <= j < i ==> !matches(hashes[j], s.requests[p].code))
             && !commit.LeavesOpen?
    ensures var hashes := DecodeRecoveryHashes(s.column);
            var s' := FiveSteps(s, p, commit, matches);
            && s'.requests == s.requests[p := Request(s.requests[p].code, Accepted(hashes[i]))]
            && DecodeRecoveryHashes(s'.column) == (if commit.Works? then hashes[..i] + hashes[i + 1..] else hashes)
            && s'.holder.None?
  {
    hide FirstMatch;
    var hashes := DecodeRecoveryHashes(s.column);
    var kept := EncodeRecoveryHashes(hashes[..i] + hashes[i + 1..]);
    FirstMatchIs(hashes, s.requests[p].code, i, matches);
    var begun := InPhase(s, p, Begun).(draft := s.column, holder := Some(p));
    var read := InPhase(begun, p, HasRead(hashes));
    var found := InPhase(read, p, Found(hashes, i));
    var written := InPhase(found, p, Written(hashes[i])).(draft := kept);
    hide DecodeRecoveryHashes;
    assert Step(s, p, Works, matches) == begun;
    assert Step(begun, p, Works, matches) == read;
    assert Step(read, p, Works, matches) == found;
    assert Step(found, p, Works, matches) == written;
    var s' := FiveSteps(s, p, commit, matches);
    assert s'.requests == s.requests[p := Request(s.requests[p].code, Accepted(hashes[i]))];
    if commit.Works? {
      assert s'.column == kept;
      EncodeRoundTrip(hashes[..i] + hashes[i + 1..]);
    }
  }

  lemma EncodeRoundTrip(hashes: seq<string>)
    ensures DecodeRecoveryHashes(EncodeRecoveryHashes(hashes)) == hashes
  {
  }

  lemma FirstMatchIs(hashes: seq<string>, code: string, i: nat, matches: Matcher)
    requires i < |hashes| && matches(hashes[i], code) && forall j :: 0 <= j < i ==> !matches(hashes[j], code)
    ensures FirstMatch(hashes, code, matches) == i
  {
  }

  function FiveMoves(p: nat, commit: Luck): seq<Move> {
    [Move(p, Works), Move(p, Works), Move(p, Works), Move(p, Works), Move(p, commit)]
  }

  lemma FiveMovesOf(hashes: seq<string>, codes: seq<string>, moves: seq<Move>, p: nat, commit: Luck, matches: Matcher)
    requires p < |codes|
    ensures Interleaved(hashes, codes, moves + FiveMoves(p, commit), matches)
            == FiveSteps(Interleaved(hashes, codes, moves, matches), p, commit, matches)
  {
    hide Step, Interleaved;
    var m1 := OneMove(hashes, codes, moves, Move(p, Works), matches);
    var m2 := OneMove(hashes, codes, m1, Move(p, Works), matches);
    var m3 := OneMove(hashes, codes, m2, Move(p, Works), matches);
    var m4 := OneMove(hashes, codes, m3, Move(p, Works), matches);
    var m5 := OneMove(hashes, codes, m4, Move(p, commit), matches);
    assert m5 == moves + FiveMoves(p, commit);
  }

  /** After any interleaving that leaves the lock free, five working moves of a request that
      has not begun accept it for the first stored entry its code matches and take exactly
      that entry out; no other request is touched. */
  lemma FreeLockAccepts(hashes: seq<string>, codes: seq<string>, moves: seq<Move>, p: nat, i: nat, matches: Matcher)
    requires p < |codes|
    requires var s := Interleaved(hashes, codes, moves, matches);
             var stored := DecodeRecoveryHashes(s.column);
             && s.requests[p].phase.Waiting? && s.requests[p].code != "" && s.holder.None?
             && i < |stored| && matches(stored[i], s.requests[p].code)
             && forall j :: 0 <= j < i ==> !matches(stored[j], s.requests[p].code)
    ensures var s := Interleaved(hashes, codes, moves, matches);
            var s' := Interleaved(hashes, codes, moves + FiveMoves(p, Works), matches);
            var stored := DecodeRecoveryHashes(s.column);
            && s'.requests == s.requests[p := Request(s.requests[p].code, Accepted(stored[i]))]
            && DecodeRecoveryHashes(s'.column) == stored[..i] + stored[i + 1..]
            && s'.holder.None?
  {
    hide Interleaved, FiveSteps, DecodeRecoveryHashes;
    FiveMovesOf(hashes, codes, moves, p, Works, matches);
    FiveStepsAccept(Interleaved(hashes, codes, moves, matches), p, Works, i, matches);
  }

  /** Whose code matches nothing is rejected, and nothing is stored. */
  lemma FreeLockRejects(hashes: seq<string>, codes: seq<string>, moves: seq<Move>, p: nat, matches: Matcher)
    requires p < |codes|
    requires var s := Interleaved(hashes, codes, moves, matches);
             var stored := DecodeRecoveryHashes(s.column);
             && s.requests[p].phase.Waiting? && s.holder.None?
             && (s.requests[p].code == "" || forall j :: 0 <= j < |stored| ==> !matches(stored[j], s.requests[p].code))
    ensures var s := Interleaved(hashes, codes, moves, matches);
            var s' := Interleaved(hashes, codes, moves + FiveMoves(p, Works), matches);
            && s'.requests == s.requests[p := Request(s.requests[p].code, Rejected)]
            && s'.column == s.column && s'.holder.None?
  {
    hide Interleaved, FiveSteps, DecodeRecoveryHashes;
    FiveMovesOf(hashes, codes, moves, p, Works, matches);
    FiveStepsReject(Interleaved(hashes, codes, moves, matches), p, matches);
  }

  lemma FiveStepsReject(s: System, p: nat, matches: Matcher)
    requires p < |s.requests| && s.requests[p].phase.Waiting? && s.holder.None?
    requires var stored := DecodeRecoveryHashes(s.column);
             s.requests[p].code == "" || forall j :: 0 <= j < |stored| ==> !matches(stored[j], s.requests[p].code)
    ensures var s' := FiveSteps(s, p, Works, matches);
            && s'.requests == s.requests[p := Request(s.requests[p].code, Rejected)]
            && s'.column == s.column && s'.holder.None?
  {
    var hashes := DecodeRecoveryHashes(s.column);
    var code := s.requests[p].code;
    assert code != "" ==> FirstMatch(hashes, code, matches) < 0;
    hide DecodeRecoveryHashes, FirstMatch;
    var end := if code == "" then InPhase(s, p, Rejected)
               else InPhase(s, p, Rejected).(draft := s.column, history := s.history + [code]);
    if code != "" {
      var begun := InPhase(s, p, Begun).(draft := s.column, holder := Some(p));
      var read := InPhase(begun, p, HasRead(hashes));
      assert Step(s, p, Works, matches) == begun;
      assert Step(begun, p, Works, matches) == read;
      assert Step(read, p, Works, matches) == Aborted(read, p).(history := s.history + [code]);
      assert Aborted(read, p).requests == end.requests;
    }
    assert Step(end, p, Works, matches) == end;
  }

  lemma OneMove(hashes: seq<string>, codes: seq<string>, moves: seq<Move>, m: Move, matches: Matcher)
      returns (more: seq<Move>)
    requires m.request < |codes|
    ensures more == moves + [m]
    ensures Interleaved(hashes, codes, more, matches)
            == Step(Interleaved(hashes, codes, moves, matches), m.request, m.luck, matches)
  {
    hide Step;
    more := moves + [m];
    assert more[..|moves|] == moves;
  }

  /** With failing COMMITs a code is not one-shot: two requests with the same code, one
      after the other, are both accepted for the same entry, and it is still stored. */
  lemma FailedCommitsAcceptTwice(entry: string, code: string, matches: Matcher)
    requires matches(entry, code) && code != ""
    ensures var s := Interleaved([entry], [code, code], FiveMoves(0, Fails) + FiveMoves(1, Fails), matches);
            && s.requests == [Request(code, Accepted(entry)), Request(code, Accepted(entry))]
            && DecodeRecoveryHashes(s.column) == [entry]
  {
    hide Step, FiveSteps;
    var hashes, codes := [entry], [code, code];
    assert [] + FiveMoves(0, Fails) == FiveMoves(0, Fails);
    FiveMovesOf(hashes, codes, [], 0, Fails, matches);
    FiveMovesOf(hashes, codes, FiveMoves(0, Fails), 1, Fails, matches);
    var s := Start(hashes, codes);
    assert Interleaved(hashes, codes, [], matches) == s;
    FiveStepsAccept(s, 0, Fails, 0, matches);
    FiveStepsAccept(FiveSteps(s, 0, Fails, matches), 1, Fails, 0, matches);
  }

  // ---- a race ----

  predicate Finished(r: Request) {
    r.phase.Accepted? || r.phase.Rejected?
  }

  function CountFinished(requests: seq<Request>): nat {
    if requests == [] then 0
    else CountFinished(requests[..|requests| - 1]) + if Finished(requests[|requests| - 1]) then 1 else 0
  }

  lemma {:induction false} FinishedAfterStep(requests: seq<Request>, p: int, r: Request)
    requires 0 <= p < |requests|
    ensures CountFinished(requests[p := r])
            == CountFinished(requests) + (if Finished(r) then 1 else 0) - (if Finished(requests[p]) then 1 else 0)
    decreases |requests|
  {
    var changed := requests[p := r];
    var n := |requests| - 1;
    if p == n {
      assert changed[..n] == requests[..n];
    } else {
      assert changed[..n] == requests[..n][p := r];
      FinishedAfterStep(requests[..n], p, r);
    }
  }

  lemma {:induction false} AllFinished(requests: seq<Request>)
    requires forall i :: 0 <= i < |requests| ==> Finished(requests[i])
    ensures CountFinished(requests) == |requests|
    decreases |requests|
  {
    if requests != [] {
      AllFinished(requests[..|requests| - 1]);
    }
  }

  lemma {:induction false} NoneFinishedAtStart(requests: seq<Request>)
    requires forall i :: 0 <= i < |requests| ==> requests[i].phase.Waiting?
    ensures CountFinished(requests) == 0
    decreases |requests|
  {
    if requests != [] {
      NoneFinishedAtStart(requests[..|requests| - 1]);
    }
  }

  function Copies(code: string, n: nat): seq<string> {
    seq(n, i => code)
  }

  /** Every working step that finishes a request commits its code. */
  lemma WorkingStepCommits(s: System, p: nat, hashes: seq<string>, matches: Matcher)
    requires p < |s.requests| && Serializable(s, hashes, matches) && s.requests[p].code != ""
    ensures var s' := Step(s, p, Works, matches);
            if Finished(s'.requests[p]) && !Finished(s.requests[p]) then s'.history == s.history + [s.requests[p].code]
            else s'.history == s.history && (Finished(s'.requests[p]) <==> Finished(s.requests[p]))
  {
    hide ConsumedAll, FirstMatch, RemoveAt;
    assert RequestSound(s, s.requests[p], matches);
  }

  ghost predicate RacesOn(s: System, code: string) {
    && (forall q :: 0 <= q < |s.requests| ==> s.requests[q].code == code)
    && s.history == Copies(code, CountFinished(s.requests))
  }

  lemma {:induction false} RaceGoesOn(hashes: seq<string>, code: string, n: nat, moves: seq<Move>, matches: Matcher)
    requires code != "" && forall i :: 0 <= i < |moves| ==> moves[i].luck.Works?
    ensures RacesOn(Interleaved(hashes, Copies(code, n), moves, matches), code)
    decreases |moves|
  {
    hide Step, CountFinished, Serializable;
    if moves == [] {
      NoneFinishedAtStart(Start(hashes, Copies(code, n)).requests);
    } else {
      var before := moves[..|moves| - 1];
      var m := moves[|moves| - 1];
      RaceGoesOn(hashes, code, n, before, matches);
      if m.request < n {
        var s := Interleaved(hashes, Copies(code, n), before, matches);
        InterleavingsAreSerial(hashes, Copies(code, n), before, matches);
        RaceStep(s, m.request, hashes, code, matches);
      }
    }
  }

  lemma RaceStep(s: System, p: nat, hashes: seq<string>, code: string, matches: Matcher)
    requires p < |s.requests| && Serializable(s, hashes, matches) && RacesOn(s, code) && code != ""
    ensures RacesOn(Step(s, p, Works, matches), code)
  {
    hide Step, CountFinished, Serializable;
    var s' := Step(s, p, Works, matches);
    WorkingStepCommits(s, p, hashes, matches);
    StepKeepsRequests(s, p, Works, matches);
    StepKeepsOthers(s, p, Works, matches);
    FinishedAfterStep(s.requests, p, s'.requests[p]);
    OneMoreCopy(code, CountFinished(s.requests));
  }

  lemma OneMoreCopy(code: string, n: nat)
    ensures Copies(code, n) + [code] == Copies(code, n + 1)
  {
  }

  function Matching(hashes: seq<string>, code: string, matches: Matcher): nat {
    if hashes == [] then 0 else (if matches(hashes[0], code) then 1 else 0) + Matching(hashes[1..], code, matches)
  }

  lemma {:induction false} MatchingAfterRemoval(hashes: seq<string>, code: string, matches: Matcher)
    ensures var i := FirstMatch(hashes, code, matches);
            if i < 0 then Matching(hashes, code, matches) == 0
            else Matching(RemoveAt(hashes, i), code, matches) == Matching(hashes, code, matches) - 1
    decreases |hashes|
  {
    if hashes != [] {
      var i := FirstMatch(hashes, code, matches);
      if i == 0 {
        assert RemoveAt(hashes, 0) == hashes[1..];
      } else {
        MatchingAfterRemoval(hashes[1..], code, matches);
        if i > 0 {
          assert RemoveAt(hashes, i) == [hashes[0]] + RemoveAt(hashes[1..], i - 1);
          assert RemoveAt(hashes, i)[1..] == RemoveAt(hashes[1..], i - 1);
        }
      }
    }
  }

  /** n consumptions of one code in a row take as many of its entries as there are, up to n. */
  lemma {:induction false} SerialRace(hashes: seq<string>, code: string, n: nat, matches: Matcher)
    ensures var serial := ConsumedAll(hashes, Copies(code, n), matches);
            var stored := Matching(hashes, code, matches);
            && |serial.accepted| == (if n <= stored then n else stored)
            && Matching(serial.hashes, code, matches) == stored - |serial.accepted|
    decreases n
  {
    hide FirstMatch, RemoveAt, Matching;
    if n > 0 {
      SerialRace(hashes, code, n - 1, matches);
      assert Copies(code, n)[..n - 1] == Copies(code, n - 1);
      MatchingAfterRemoval(ConsumedAll(hashes, Copies(code, n - 1), matches).hashes, code, matches);
    }
  }

  /** A race for one code: however n requests with the same code interleave, once all of
      them are through and every call has worked, exactly as many were accepted as there were
      entries for the code, or all n if there were more. So one stored entry lets exactly one
      of two concurrent requests in, and two entries let in both. */
  lemma RaceIsDecided(hashes: seq<string>, code: string, n: nat, moves: seq<Move>, matches: Matcher)
    requires code != "" && forall i :: 0 <= i < |moves| ==> moves[i].luck.Works?
    requires var s := Interleaved(hashes, Copies(code, n), moves, matches);
             forall q :: 0 <= q < |s.requests| ==> Finished(s.requests[q])
    ensures var s := Interleaved(hashes, Copies(code, n), moves, matches);
            var stored := Matching(hashes, code, matches);
            CountAccepted(s.requests) == if n <= stored then n else stored
  {
    hide Interleaved, CountAccepted, CountFinished, CommitsFailed, AcceptedEntries, Matching, ConsumedAll;
    var s := Interleaved(hashes, Copies(code, n), moves, matches);
    RaceGoesOn(hashes, code, n, moves, matches);
    AllFinished(s.requests);
    InterleavingsAreSerial(hashes, Copies(code, n), moves, matches);
    AcceptancesAreLogged(hashes, Copies(code, n), moves, matches);
    WorkingMovesDoNotFail(hashes, Copies(code, n), moves, matches);
    SerialRace(hashes, code, n, matches);
  }
}
