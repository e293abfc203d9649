/** What the lines of nginx.conf say, given by their grammar, and what the patch makes of a
    text: stated without the matcher that searches it and the reader of its numbers. */
module NginxDirectives {
  import opened GoArithmetic
  import opened Options
  import opened Text
  import opened Lines
  import opened Numbers
  import opened NginxMainConf

  // ---- the grammar of the lines ----

  predicate OnlyBlanks(s: string) {
    forall i :: 0 <= i < |s| ==> s[i] == ' ' || s[i] == '\t'
  }

  /** A line that sets a directive to a number: indent, name, gap, number, `;` and whatever
      follows. */
  predicate SettingForm(line: string, name: string, indent: string, gap: string, zeros: nat, n: nat,
                        space: string, rest: string)
  {
    && OnlyBlanks(indent) && OnlyBlanks(gap) && gap != "" && OnlyBlanks(space)
    && line == indent + (name + (gap + (Zeros(zeros) + Itoa(n) + (space + (";" + rest)))))
  }

  ghost predicate Setting(line: string, name: string, indent: string, n: nat) {
    exists gap, zeros, space, rest :: SettingForm(line, name, indent, gap, zeros, n, space, rest)
  }

  ghost predicate IsSetting(line: string, name: string) {
    exists indent, n :: Setting(line, name, indent, n)
  }

  predicate EventsForm(line: string, indent: string, gap: string, end: string) {
    && OnlyBlanks(indent) && OnlyBlanks(gap) && OnlyBlanks(end)
    && line == indent + ("events" + (gap + ("{" + end)))
  }

  ghost predicate OpensEvents(line: string) {
    exists indent, gap, end :: EventsForm(line, indent, gap, end)
  }

  predicate NoSpace(s: string) {
    forall i :: 0 <= i < |s| ==> s[i] != ' ' && s[i] != '\t' && s[i] != '\n' && s[i] != '\r' && s[i] != '\U{0C}'
  }

  predicate ProcessesForm(line: string, indent: string, gap: string, token: string, space: string, rest: string) {
    && OnlyBlanks(indent) && OnlyBlanks(gap) && gap != "" && NoSpace(token) && token != "" && OnlyBlanks(space)
    && line == indent + ("worker_processes" + (gap + (token + (space + (";" + rest)))))
  }

  ghost predicate SetsProcesses(line: string) {
    exists indent, gap, token, space, rest :: ProcessesForm(line, indent, gap, token, space, rest)
  }

  /** The names, floors and lines of the two directives, as they are written in the file. */
  function DirectiveName(d: Directive): string {
    if d == WorkerConnections then "worker_connections" else "worker_rlimit_nofile"
  }

  function DirectiveFloor(d: Directive): nat {
    if d == WorkerConnections then 4096 else 16384
  }

  const TAG := "; # managed by tgproxy"

  function FloorLine(d: Directive): string {
    if d == WorkerConnections then "worker_connections 4096" + TAG else "worker_rlimit_nofile 16384" + TAG
  }

  function AddedLine(d: Directive): string {
    if d == WorkerConnections then "    " + FloorLine(d) else FloorLine(d)
  }

  /** The line a missing directive goes after. */
  ghost predicate Opens(line: string, d: Directive) {
    if d == WorkerConnections then OpensEvents(line) else SetsProcesses(line)
  }

  // ---- the matcher knows the grammar ----

  lemma LeadingBlanks(blanks: string, rest: string)
    requires OnlyBlanks(blanks) && rest != "" && rest[0] != ' ' && rest[0] != '\t'
    ensures var s := blanks + rest;
            Blanks(s) == |blanks| && s[..|blanks|] == blanks && s[|blanks|..] == rest
  {
    BlanksThen(blanks, rest);
  }

  lemma SplitBlanks(s: string) returns (blanks: string, rest: string)
    ensures blanks == s[..Blanks(s)] && rest == s[Blanks(s)..] && s == blanks + rest && OnlyBlanks(blanks)
  {
    blanks, rest := s[..Blanks(s)], s[Blanks(s)..];
  }

  lemma SplitDigits(s: string) returns (digits: string, rest: string)
    ensures digits == s[..Digits(s)] && rest == s[Digits(s)..] && s == digits + rest && OnlyDigits(digits)
  {
    digits, rest := s[..Digits(s)], s[Digits(s)..];
  }

  lemma PrefixThen(s: string, prefix: string)
    requires HasPrefix(s, prefix)
    ensures s == prefix + s[|prefix|..]
  {
  }

  lemma NameStarts(d: Directive, after: string)
    ensures var s := Name(d) + after;
            s[0] == 'w' && HasPrefix(s, Name(d)) && s[|Name(d)|..] == after && Name(d) == DirectiveName(d)
  {
  }

  lemma NumberStarts(zeros: nat, n: nat)
    ensures var digits := Zeros(zeros) + Itoa(n); digits != "" && OnlyDigits(digits)
    ensures Decimal(Zeros(zeros) + Itoa(n)) == n
  {
    ItoaIsDigits(n);
    ZerosAreDigits(zeros);
    ZerosThen(zeros, Itoa(n));
    DecimalOfItoa(n);
  }

  lemma ValueOfForm(indent: string, gap: string, digits: string, space: string, rest: string)
    requires OnlyBlanks(gap) && gap != "" && OnlyDigits(digits) && digits != "" && OnlyBlanks(space)
    ensures Value(indent, gap + (digits + (space + (";" + rest)))) == Some(Capture(indent, digits))
  {
    hide Blanks, Digits;
    var tail := space + (";" + rest);
    var number := digits + tail;
    assert (";" + rest)[0] == ';';
    assert number[0] == digits[0];
    LeadingBlanks(gap, number);
    LeadingBlanks(space, ";" + rest);
    assert tail[0] == if space == "" then ';' else space[0];
    DigitsThen(digits, tail);
    assert number[|digits|..] == tail && number[..|digits|] == digits;
    assert tail[|space|] == ';';
  }

  lemma FormOfValue(indent: string, after: string)
      returns (gap: string, digits: string, space: string, rest: string)
    requires Value(indent, after).Some?
    ensures OnlyBlanks(gap) && gap != "" && OnlyDigits(digits) && digits != "" && OnlyBlanks(space)
    ensures after == gap + (digits + (space + (";" + rest)))
    ensures Value(indent, after) == Some(Capture(indent, digits))
  {
    hide Blanks, Digits, OnlyBlanks, OnlyDigits;
    var number, tail, end;
    gap, number := SplitBlanks(after);
    digits, tail := SplitDigits(number);
    space, end := SplitBlanks(tail);
    rest := end[1..];
    FirstAndRest(end);
  }

  lemma CapturesForm(line: string, d: Directive, indent: string, n: nat)
    requires Setting(line, DirectiveName(d), indent, n)
    ensures Captured(line, d).Some? && Captured(line, d).value.indent == indent
    ensures Decimal(Captured(line, d).value.digits) == n
  {
    hide Value, Blanks, Decimal, Itoa, Zeros;
    var gap, zeros, space, rest :| SettingForm(line, DirectiveName(d), indent, gap, zeros, n, space, rest);
    var digits := Zeros(zeros) + Itoa(n);
    var after := gap + (digits + (space + (";" + rest)));
    NumberStarts(zeros, n);
    ValueOfForm(indent, gap, digits, space, rest);
    NameStarts(d, after);
    LeadingBlanks(indent, Name(d) + after);
    assert Captured(line, d) == Value(indent, after);
  }

  lemma FormOfCaptured(line: string, d: Directive) returns (n: nat)
    requires Captured(line, d).Some?
    ensures Setting(line, DirectiveName(d), Captured(line, d).value.indent, n)
  {
    hide Value, Blanks, Decimal, Itoa, Zeros;
    var indent, rest := SplitBlanks(line);
    PrefixThen(rest, Name(d));
    var after := rest[|Name(d)|..];
    NameStarts(d, after);
    var gap, digits, space, more := FormOfValue(indent, after);
    var zeros;
    zeros, n := DigitsAreNumber(digits);
    assert SettingForm(line, DirectiveName(d), indent, gap, zeros, n, space, more);
  }

  /** The first two expressions match exactly the lines of their form. */
  lemma CapturedIff(line: string, d: Directive)
    ensures Captured(line, d).Some? <==> IsSetting(line, DirectiveName(d))
  {
    hide Captured, Setting;
    if Captured(line, d).Some? {
      var n := FormOfCaptured(line, d);
    }
    if IsSetting(line, DirectiveName(d)) {
      var indent, n :| Setting(line, DirectiveName(d), indent, n);
      CapturesForm(line, d, indent, n);
    }
  }

  lemma EventsAnchor(line: string, indent: string, gap: string, end: string)
    requires EventsForm(line, indent, gap, end)
    ensures Anchor(line, WorkerConnections)
  {
    hide Blanks;
    var brace := "{" + end;
    var open' := gap + brace;
    var rest := "events" + open';
    assert rest[0] == 'e' && brace[0] == '{' && brace[1..] == end;
    LeadingBlanks(indent, rest);
    assert HasPrefix(rest, "events") && rest[|"events"|..] == open';
    LeadingBlanks(gap, brace);
    AllAreBlanks(end);
  }

  lemma AllAreBlanks(s: string)
    requires OnlyBlanks(s)
    ensures Blanks(s) == |s|
  {
    BlanksThen(s, "");
    assert s + "" == s;
  }

  lemma AnchorEvents(line: string)
    requires Anchor(line, WorkerConnections)
    ensures OpensEvents(line)
  {
    hide Blanks, OpensEvents;
    var indent, rest := SplitBlanks(line);
    PrefixThen(rest, "events");
    var after := rest[|"events"|..];
    var gap, brace := SplitBlanks(after);
    var end, none := SplitBlanks(brace[1..]);
    OpensWith(line, indent, rest, after, gap, brace, end, none);
  }

  lemma OpensWith(line: string, indent: string, rest: string, after: string, gap: string, brace: string,
                  end: string, none: string)
    requires line == indent + rest && rest == "events" + after && after == gap + brace
    requires brace != "" && brace[0] == '{' && brace[1..] == end + none && none == ""
    requires OnlyBlanks(indent) && OnlyBlanks(gap) && OnlyBlanks(end)
    ensures OpensEvents(line)
  {
    hide OnlyBlanks;
    FirstAndRest(brace);
    assert end + none == end;
    assert EventsForm(line, indent, gap, end);
  }

  lemma FirstAndRest(s: string)
    requires s != ""
    ensures s == [s[0]] + s[1..]
  {
  }

  lemma {:induction false} TokenThen(token: string, rest: string)
    requires NoSpace(token)
    ensures TokenLength(token + rest) == |token| + TokenLength(rest)
    decreases |token|
  {
    if token == "" {
      assert token + rest == rest;
    } else {
      assert (token + rest)[1..] == token[1..] + rest;
      TokenThen(token[1..], rest);
    }
  }

  lemma TokenForm(token: string, space: string, rest: string)
    requires NoSpace(token) && token != "" && OnlyBlanks(space)
    ensures TokenThenSemicolon(token + (space + (";" + rest)))
  {
    var end := space + (";" + rest);
    var s := token + end;
    TokenThen(token, end);
    if space == "" {
      assert end == ";" + rest;
      assert TokenLength(end) == 1 + TokenLength(rest) by { assert end[1..] == rest; }
      assert s[|token|] == ';';
    } else {
      assert end[0] == space[0];
      assert TokenLength(end) == 0;
      assert s[|token|..] == end;
      LeadingBlanks(space, ";" + rest);
      assert end[|space|] == ';';
    }
  }

  lemma {:induction false} TokenIsNoSpace(s: string)
    ensures NoSpace(s[..TokenLength(s)])
    decreases |s|
  {
    if s != [] && !Space(s[0]) {
      TokenIsNoSpace(s[1..]);
      assert s[..TokenLength(s)] == [s[0]] + s[1..][..TokenLength(s[1..])];
    }
  }

  lemma FormOfToken(s: string) returns (token: string, space: string, rest: string)
    requires TokenThenSemicolon(s)
    ensures NoSpace(token) && token != "" && OnlyBlanks(space) && s == token + (space + (";" + rest))
  {
    hide TokenLength, Blanks, OnlyBlanks, NoSpace;
    var n := TokenLength(s);
    TokenIsNoSpace(s);
    if a :| 1 <= a < n && s[a] == ';' {
      token, space, rest := s[..a], "", s[a + 1..];
      CutToken(s, n, a);
    } else {
      var end;
      token := s[..n];
      space, end := SplitBlanks(s[n..]);
      rest := end[1..];
      FirstAndRest(end);
    }
  }

  lemma CutToken(s: string, n: nat, a: nat)
    requires a < n <= |s| && NoSpace(s[..n])
    ensures NoSpace(s[..a]) && OnlyBlanks("") && s == s[..a] + ("" + ([s[a]] + s[a + 1..]))
  {
    assert "" + ([s[a]] + s[a + 1..]) == [s[a]] + s[a + 1..];
    assert s[..n][..a] == s[..a];
  }

  lemma ProcessesAnchor(line: string, indent: string, gap: string, token: string, space: string, rest: string)
    requires ProcessesForm(line, indent, gap, token, space, rest)
    ensures Anchor(line, WorkerRlimitNofile)
  {
    hide Blanks, TokenThenSemicolon;
    var last := token + (space + (";" + rest));
    var after := gap + last;
    var named := "worker_processes" + after;
    assert named[0] == 'w' && last[0] == token[0];
    LeadingBlanks(indent, named);
    assert HasPrefix(named, "worker_processes") && named[|"worker_processes"|..] == after;
    LeadingBlanks(gap, last);
    TokenForm(token, space, rest);
  }

  lemma AnchorProcesses(line: string)
    requires Anchor(line, WorkerRlimitNofile)
    ensures SetsProcesses(line)
  {
    hide Blanks, TokenThenSemicolon;
    var indent, named := SplitBlanks(line);
    PrefixThen(named, "worker_processes");
    var gap, last := SplitBlanks(named[|"worker_processes"|..]);
    var token, space, rest := FormOfToken(last);
    assert ProcessesForm(line, indent, gap, token, space, rest);
  }

  /** And so do the other two. */
  lemma AnchorIff(line: string, d: Directive)
    ensures Anchor(line, d) <==> Opens(line, d)
  {
    hide Anchor, EventsForm, ProcessesForm;
    if Anchor(line, d) {
      if d == WorkerConnections { AnchorEvents(line); } else { AnchorProcesses(line); }
    }
    if OpensEvents(line) {
      var indent, gap, end :| EventsForm(line, indent, gap, end);
      EventsAnchor(line, indent, gap, end);
    }
    if SetsProcesses(line) {
      var indent, gap, token, space, rest :| ProcessesForm(line, indent, gap, token, space, rest);
      ProcessesAnchor(line, indent, gap, token, space, rest);
    }
  }

  // ---- what becomes of a text ----

  ghost predicate NoneBefore(ls: seq<string>, k: nat, d: Directive)
    requires k <= |ls|
  {
    forall j :: 0 <= j < k ==> !IsSetting(ls[j], DirectiveName(d))
  }

  ghost predicate NoneOpensBefore(ls: seq<string>, k: nat, d: Directive)
    requires k <= |ls|
  {
    forall j :: 0 <= j < k ==> !Opens(ls[j], d)
  }

  lemma FirstIs(ls: seq<string>, k: nat, p: Pattern)
    requires k <= |ls| && forall j :: 0 <= j < k ==> !Matches(ls[j], p)
    requires k < |ls| ==> Matches(ls[k], p)
    ensures FirstMatch(ls, p) == if k < |ls| then k else -1
  {
    hide Matches;
    NoneBeforeFirstMatch(ls, p);
  }

  lemma FirstSettingIs(ls: seq<string>, k: nat, d: Directive)
    requires k <= |ls| && NoneBefore(ls, k, d)
    requires k < |ls| ==> IsSetting(ls[k], DirectiveName(d))
    ensures FirstMatch(ls, Sets(d)) == if k < |ls| then k else -1
  {
    hide Captured, IsSetting, FirstMatch, DirectiveName;
    forall j | 0 <= j < |ls|
      ensures Matches(ls[j], Sets(d)) <==> IsSetting(ls[j], DirectiveName(d))
    {
      CapturedIff(ls[j], d);
    }
    FirstIs(ls, k, Sets(d));
  }

  lemma FirstOpeningIs(ls: seq<string>, k: nat, d: Directive)
    requires k <= |ls| && NoneOpensBefore(ls, k, d)
    requires k < |ls| ==> Opens(ls[k], d)
    ensures FirstMatch(ls, Anchors(d)) == if k < |ls| then k else -1
  {
    hide Anchor, Opens, FirstMatch;
    forall j | 0 <= j < |ls|
      ensures Matches(ls[j], Anchors(d)) <==> Opens(ls[j], d)
    {
      AnchorIff(ls[j], d);
    }
    FirstIs(ls, k, Anchors(d));
  }

  lemma TagIs()
    ensures "; " + MARKER == TAG
  {
  }

  lemma ConnectionsText()
    ensures "worker_connections" + (" " + "4096") == "worker_connections 4096"
  {
  }

  lemma NofileText()
    ensures "worker_rlimit_nofile" + (" " + "16384") == "worker_rlimit_nofile 16384"
  {
  }

  lemma Regrouped(a: string, b: string, c: string, d: string, e: string)
    ensures a + (b + (c + (d + e))) == a + ((b + (c + d)) + e)
  {
    assert c + (d + e) == (c + d) + e;
    assert b + ((c + d) + e) == (b + (c + d)) + e;
  }

  lemma ManagedLineText(indent: string, d: Directive)
    ensures ManagedLine(indent, d) == indent + FloorLine(d)
  {
    hide Itoa, ManagedLine;
    FloorText(d);
    ManagedLineIs(indent, d);
    TagIs();
    Regrouped(indent, Name(d), " ", Itoa(Floor(d)), TAG);
    if d == WorkerConnections { ConnectionsText(); } else { NofileText(); }
  }

  lemma AddedLineText(d: Directive)
    ensures ManagedLine(InsertIndent(d), d) == AddedLine(d)
  {
    hide ManagedLine, FloorLine;
    ManagedLineText(InsertIndent(d), d);
    assert "" + FloorLine(d) == FloorLine(d);
  }

  /** A text whose first line of the directive sets it to a number, zeros in front and any
      blanks included: below the floor exactly that line is rewritten, keeping its indent,
      and at or above the floor, beyond 64 bits included, nothing changes. */
  lemma NumberIsRaised(s: string, d: Directive, k: nat, indent: string, n: nat)
    requires k < |LinesOf(s)| && NoneBefore(LinesOf(s), k, d)
    requires Setting(LinesOf(s)[k], DirectiveName(d), indent, n)
    ensures LinesOf(PatchOne(s, d))
            == if n < DirectiveFloor(d) then LinesOf(s)[k := indent + FloorLine(d)] else LinesOf(s)
  {
    hide LinesOf, Captured, Setting, PatchOne, FirstMatch, ManagedLine, NoneBefore, Decimal, FloorLine;
    var ls := LinesOf(s);
    assert IsSetting(ls[k], DirectiveName(d));
    FirstSettingIs(ls, k, d);
    CapturesForm(ls[k], d, indent, n);
    PatchOneIsPatchLines(s, d);
    ManagedLineText(indent, d);
    assert Floor(d) == DirectiveFloor(d) <= MAX_INT64;
    assert ls[..k] + [indent + FloorLine(d)] + ls[k + 1..] == ls[k := indent + FloorLine(d)];
  }

  lemma InsertAfter(ls: seq<string>, a: nat, line: string)
    requires a < |ls|
    ensures Replaced(ls, a, [ls[a], line]) == ls[..a + 1] + [line] + ls[a + 1..]
  {
  }

  /** A text without the directive gets it at its floor, right after the first line that
      opens its place; without such a line nothing changes. */
  lemma MissingIsAdded(s: string, d: Directive, a: nat)
    requires a <= |LinesOf(s)| && NoneBefore(LinesOf(s), |LinesOf(s)|, d) && NoneOpensBefore(LinesOf(s), a, d)
    requires a < |LinesOf(s)| ==> Opens(LinesOf(s)[a], d)
    ensures var ls := LinesOf(s);
            LinesOf(PatchOne(s, d)) == if a < |ls| then ls[..a + 1] + [AddedLine(d)] + ls[a + 1..] else ls
  {
    hide LinesOf, Opens, PatchOne, FirstMatch, ManagedLine, NoneBefore, NoneOpensBefore, AddedLine, Captured, Replaced;
    hide Anchor, TooLow, IsSetting, InsertIndent, Join;
    var ls := LinesOf(s);
    FirstSettingIs(ls, |ls|, d);
    FirstOpeningIs(ls, a, d);
    PatchOneIsPatchLines(s, d);
    AddedLineText(d);
    if a < |ls| {
      InsertAfter(ls, a, AddedLine(d));
    }
  }

  lemma PatchedIsSettled(s: string, d: Directive)
    ensures Settled(LinesOf(PatchMainConf(s)), d)
  {
    hide LinesOf, PatchOne, PatchLines, Settled;
    var t := PatchOne(s, WorkerConnections);
    PatchOneIsPatchLines(s, WorkerConnections);
    PatchOneIsPatchLines(t, WorkerRlimitNofile);
    if d == WorkerConnections {
      PatchSettles(LinesOf(s), WorkerConnections);
      PatchKeepsSettled(LinesOf(t), WorkerRlimitNofile, WorkerConnections);
    } else {
      PatchSettles(LinesOf(t), WorkerRlimitNofile);
    }
  }

  /** In every patched text the first line of either directive sets it to at least its
      floor. */
  lemma EveryFloorIsMet(s: string, d: Directive, k: nat, indent: string, n: nat)
    requires k < |LinesOf(PatchMainConf(s))| && NoneBefore(LinesOf(PatchMainConf(s)), k, d)
    requires Setting(LinesOf(PatchMainConf(s))[k], DirectiveName(d), indent, n)
    ensures n >= DirectiveFloor(d)
  {
    hide LinesOf, PatchMainConf, Captured, Setting, FirstMatch, Matching, NoneBefore, Decimal;
    var after := LinesOf(PatchMainConf(s));
    assert IsSetting(after[k], DirectiveName(d));
    FirstSettingIs(after, k, d);
    FirstMatchIsFirstMatching(after, Sets(d));
    PatchedIsSettled(s, d);
    CapturesForm(after[k], d, indent, n);
    assert Floor(d) == DirectiveFloor(d) <= MAX_INT64;
  }
}
