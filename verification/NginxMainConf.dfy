/** The in-place patch of the distribution's nginx.conf: worker_connections and
    worker_rlimit_nofile are raised to the project's floors. */
module NginxMainConf {
  import opened GoArithmetic
  import opened Options
  import opened Text
  import opened Lines
  import opened Numbers

  /** The two directives the patch manages. */
  datatype Directive = WorkerConnections | WorkerRlimitNofile

  const MARKER := "# managed by tgproxy"

  function Name(d: Directive): string {
    match d
    case WorkerConnections => "worker_connections"
    case WorkerRlimitNofile => "worker_rlimit_nofile"
  }

  function Floor(d: Directive): int {
    match d
    case WorkerConnections => 4096
    case WorkerRlimitNofile => 16384
  }

  // ---- the four regular expressions, on one line ----

  predicate Blank(c: char) {
    c == ' ' || c == '\t'
  }

  /** The length of the leading blanks. */
  function Blanks(s: string): (n: nat)
    ensures n <= |s|
    ensures n < |s| ==> !Blank(s[n])
    ensures forall k :: 0 <= k < n ==> Blank(s[k])
  {
    if s == [] || !Blank(s[0]) then 0 else 1 + Blanks(s[1..])
  }

  /** The length of the leading digits. */
  function Digits(s: string): (n: nat)
    ensures n <= |s|
    ensures n < |s| ==> !IsDigit(s[n])
    ensures forall k :: 0 <= k < n ==> IsDigit(s[k])
  {
    if s == [] || !IsDigit(s[0]) then 0 else 1 + Digits(s[1..])
  }

  datatype Capture = Capture(indent: string, digits: string)

  /** `^([ \t]*)NAME[ \t]+(\d+)[ \t]*;.*$` */
  function Captured(line: string, d: Directive): Option<Capture> {
    var indent := Blanks(line);
    var rest := line[indent..];
    if !HasPrefix(rest, Name(d)) then None
    else Value(line[..indent], rest[|Name(d)|..])
  }

  /** The part of the expression after the directive's name. */
  function Value(indent: string, after: string): Option<Capture> {
    var gap := Blanks(after);
    var number := after[gap..];
    var n := Digits(number);
    var tail := number[n..];
    if gap >= 1 && n >= 1 && Blanks(tail) < |tail| && tail[Blanks(tail)] == ';'
    then Some(Capture(indent, number[..n]))
    else None
  }

  predicate Space(c: char) {
    c == ' ' || c == '\t' || c == '\n' || c == '\r' || c == '\U{0C}'
  }

  /** The line a missing directive is inserted after: `^[ \t]*events[ \t]*\{[ \t]*$`, and
      `^[ \t]*worker_processes[ \t]+\S+[ \t]*;.*$`. */
  predicate Anchor(line: string, d: Directive) {
    var rest := line[Blanks(line)..];
    match d
    case WorkerConnections =>
      HasPrefix(rest, "events") &&
      (var open' := rest[|"events"|..];
       var brace := open'[Blanks(open')..];
       brace != "" && brace[0] == '{' && Blanks(brace[1..]) == |brace[1..]|)
    case WorkerRlimitNofile =>
      HasPrefix(rest, "worker_processes") &&
      (var after := rest[|"worker_processes"|..];
       Blanks(after) >= 1 && TokenThenSemicolon(after[Blanks(after)..]))
  }

  /** The length of the leading token. */
  function TokenLength(s: string): (n: nat)
    ensures n <= |s|
  {
    if s == [] || Space(s[0]) then 0 else 1 + TokenLength(s[1..])
  }

  /** `^\S+[ \t]*;`: the token may itself contain the semicolon, after its first
      character. */
  predicate TokenThenSemicolon(s: string) {
    var n := TokenLength(s);
    var rest := s[n..];
    && n >= 1
    && ((exists a :: 1 <= a < n && s[a] == ';')
        || (Blanks(rest) < |rest| && rest[Blanks(rest)] == ';'))
  }

  // ---- the patch, on the text ----

  datatype Pattern = Sets(d: Directive) | Anchors(d: Directive)

  predicate Matches(line: string, p: Pattern) {
    match p
    case Sets(d) => Captured(line, d).Some?
    case Anchors(d) => Anchor(line, d)
  }

  datatype Span = Span(start: nat, end: nat)

  /** FindStringIndex: the first line that matches. */
  function FindLine(s: string, p: Pattern): (span: Option<Span>)
    ensures span.Some? ==> span.value.start <= span.value.end <= |s|
  {
    var e := FirstLine(s);
    FirstOrLater(Matches(s[..e], p), e, if e == |s| then None else FindLine(s[e + 1..], p))
  }

  /** The span of the first line if it matches, else one found after it. */
  function FirstOrLater(matches: bool, e: nat, later: Option<Span>): Option<Span> {
    if matches then Some(Span(0, e))
    else if later.None? then None
    else Some(Span(e + 1 + later.value.start, e + 1 + later.value.end))
  }

  /** The line the patch writes. */
  function ManagedLine(indent: string, d: Directive): string {
    indent + Name(d) + " " + Itoa(Floor(d)) + "; " + MARKER
  }

  function InsertIndent(d: Directive): string {
    match d
    case WorkerConnections => "    "
    case WorkerRlimitNofile => ""
  }

  /** The line sets the directive to a readable value below its floor. */
  predicate TooLow(line: string, d: Directive) {
    Captured(line, d).Some? &&
    (var value := Atoi(Captured(line, d).value.digits);
     value.Some? && value.value < Floor(d))
  }

  /** patchDirective */
  function PatchDirective(s: string, d: Directive): string {
    var span := FindLine(s, Sets(d));
    if span.None? then s
    else
      var line := s[span.value.start..span.value.end];
      if !TooLow(line, d) then s
      else s[..span.value.start] + ManagedLine(Captured(line, d).value.indent, d) + s[span.value.end..]
  }

  /** One half of PatchMainConf: raise the directive, or insert it when it is missing. */
  function PatchOne(s: string, d: Directive): string {
    var t := PatchDirective(s, d);
    if FindLine(t, Sets(d)).Some? then t
    else
      var anchor := FindLine(t, Anchors(d));
      if anchor.None? then t
      else t[..anchor.value.end] + ("\n" + ManagedLine(InsertIndent(d), d)) + t[anchor.value.end..]
  }

  function PatchMainConf(s: string): string {
    PatchOne(PatchOne(s, WorkerConnections), WorkerRlimitNofile)
  }

  // ---- the patch, on lines ----

  /** The index of the first line that matches, or -1. */
  function FirstMatch(ls: seq<string>, p: Pattern): (k: int)
    ensures -1 <= k < |ls|
    ensures k >= 0 ==> Matches(ls[k], p)
  {
    hide Matches;
    if ls == [] then -1
    else if Matches(ls[0], p) then 0
    else
      var k := FirstMatch(ls[1..], p);
      if k < 0 then -1 else k + 1
  }

  /** It is the first: no line before it matches, and none at all if there is none. */
  lemma {:induction false} NoneBeforeFirstMatch(ls: seq<string>, p: Pattern)
    ensures var k := FirstMatch(ls, p);
            forall j :: 0 <= j < (if k >= 0 then k else |ls|) ==> !Matches(ls[j], p)
    decreases |ls|
  {
    hide Matches;
    if ls != [] && !Matches(ls[0], p) {
      NoneBeforeFirstMatch(ls[1..], p);
      assert forall j :: 1 <= j < |ls| ==> ls[j] == ls[1..][j - 1];
    }
  }

  function Replaced(ls: seq<string>, k: int, lines: seq<string>): seq<string>
    requires 0 <= k < |ls|
  {
    ls[..k] + lines + ls[k + 1..]
  }

  /** What PatchOne does to the lines: at most one line is rewritten or added. */
  function PatchLines(ls: seq<string>, d: Directive): seq<string> {
    var k := FirstMatch(ls, Sets(d));
    if k >= 0 then
      if TooLow(ls[k], d) then Replaced(ls, k, [ManagedLine(Captured(ls[k], d).value.indent, d)]) else ls
    else
      var a := FirstMatch(ls, Anchors(d));
      if a >= 0 then Replaced(ls, a, [ls[a], ManagedLine(InsertIndent(d), d)]) else ls
  }

  // ---- the two views agree ----

  lemma ReplacedFirst(h: string, rest: seq<string>, rs: seq<string>)
    ensures Replaced([h] + rest, 0, rs) == rs + rest
  {
  }

  lemma TailWithNewline(s: string, e: nat)
    requires e < |s| && s[e] == '\n'
    ensures s[e..] == "\n" + s[e + 1..]
  {
  }

  lemma SpliceFirstLine(s: string, rs: seq<string>)
    requires rs != [] && forall k :: 0 <= k < |rs| ==> OneLine(rs[k])
    ensures LinesOf(Join(rs) + s[FirstLine(s)..]) == Replaced(LinesOf(s), 0, rs)
    ensures LinesOf(s)[0] == s[..FirstLine(s)]
  {
    hide FirstLine, LinesOf, Join, OneLine, Replaced;
    var e := FirstLine(s);
    LinesUnfold(s);
    if e == |s| {
      LinesOfJoin(rs);
      assert Join(rs) + s[e..] == Join(rs);
      assert s[..e] == s;
      assert LinesOf(s) == [s] + [];
      ReplacedFirst(s, [], rs);
    } else {
      LinesOfJoinThen(rs, s[e + 1..]);
      TailWithNewline(s, e);
      ReplacedFirst(s[..e], LinesOf(s[e + 1..]), rs);
    }
  }

  function Spanned(s: string, span: Span): string
    requires span.start <= span.end <= |s|
  {
    s[span.start..span.end]
  }

  function Spliced(s: string, span: Span, text: string): string
    requires span.start <= span.end <= |s|
  {
    s[..span.start] + text + s[span.end..]
  }

  lemma SpliceLaterLine(s: string, e: nat, later: string, span: Span, text: string)
    requires e == FirstLine(s) < |s| && later == s[e + 1..] && span.start <= span.end <= |later|
    ensures var span' := Span(e + 1 + span.start, e + 1 + span.end);
            && Spanned(s, span') == Spanned(later, span)
            && LinesOf(Spliced(s, span', text)) == [s[..e]] + LinesOf(Spliced(later, span, text))
  {
    hide FirstLine, LinesOf, Spanned, Spliced;
    LinesAfterFirst(s[..e], Spliced(later, span, text));
    SplicedAfter(s, e, span, text);
  }

  lemma SplicedAfter(s: string, e: nat, span: Span, text: string)
    requires e < |s| && s[e] == '\n' && span.start <= span.end <= |s| - e - 1
    ensures var later := s[e + 1..];
            var span' := Span(e + 1 + span.start, e + 1 + span.end);
            && Spanned(s, span') == Spanned(later, span)
            && Spliced(s, span', text) == s[..e] + "\n" + Spliced(later, span, text)
  {
    SlicesAfter(s, e, span.start, span.end);
    Regroup(s[..e], "\n", s[e + 1..][..span.start], text, s[e + 1..][span.end..]);
  }

  lemma Regroup(line: string, end: string, before: string, text: string, after: string)
    ensures line + end + before + text + after == line + end + (before + text + after)
  {
  }

  lemma SlicesAfter(s: string, e: nat, a: nat, b: nat)
    requires e < |s| && s[e] == '\n' && a <= b <= |s| - e - 1
    ensures var later := s[e + 1..];
            && s[e + 1 + a..e + 1 + b] == later[a..b]
            && s[..e + 1 + a] == s[..e] + "\n" + later[..a]
            && s[e + 1 + b..] == later[b..]
  {
  }

  lemma ReplacedShift(h: string, ls: seq<string>, k: int, rs: seq<string>)
    requires 0 <= k < |ls|
    ensures Replaced([h] + ls, k + 1, rs) == [h] + Replaced(ls, k, rs)
  {
  }

  lemma FirstMatchUnfold(h: string, ls: seq<string>, p: Pattern)
    ensures FirstMatch([h], p) == if Matches(h, p) then 0 else -1
    ensures FirstMatch([h] + ls, p) ==
            if Matches(h, p) then 0 else if FirstMatch(ls, p) < 0 then -1 else FirstMatch(ls, p) + 1
  {
  }

  /** The text holds a matching span whose replacement replaces the k-th line. */
  ghost predicate SpanIsLine(s: string, span: Span, k: int, rs: seq<string>)
    requires rs != []
  {
    && 0 <= k < |LinesOf(s)|
    && span.start <= span.end <= |s|
    && LinesOf(s)[k] == Spanned(s, span)
    && LinesOf(Spliced(s, span, Join(rs))) == Replaced(LinesOf(s), k, rs)
  }

  lemma SpanOfFirstLine(s: string, rs: seq<string>)
    requires rs != [] && forall k :: 0 <= k < |rs| ==> OneLine(rs[k])
    ensures SpanIsLine(s, Span(0, FirstLine(s)), 0, rs)
  {
    hide FirstLine, LinesOf, Join;
    SpliceFirstLine(s, rs);
    assert s[..0] + Join(rs) + s[FirstLine(s)..] == Join(rs) + s[FirstLine(s)..];
  }

  lemma SpanOfLaterLine(s: string, e: nat, later: string, span: Span, k: int, rs: seq<string>)
    requires rs != [] && e == FirstLine(s) < |s| && later == s[e + 1..]
    requires SpanIsLine(later, span, k, rs)
    ensures SpanIsLine(s, Span(e + 1 + span.start, e + 1 + span.end), k + 1, rs)
  {
    hide FirstLine, LinesOf, Join, Replaced, Spanned, Spliced;
    LinesUnfold(s);
    LaterLine(s[..e], LinesOf(later), k);
    SpliceLaterLine(s, e, later, span, Join(rs));
    ReplacedShift(s[..e], LinesOf(later), k, rs);
  }

  lemma LaterLine(h: string, ls: seq<string>, k: int)
    requires 0 <= k < |ls|
    ensures |[h] + ls| == |ls| + 1 && ([h] + ls)[k + 1] == ls[k]
  {
  }

  lemma SpanLine(s: string, span: Span, k: int, rs: seq<string>)
    requires rs != [] && SpanIsLine(s, span, k, rs)
    ensures 0 <= k < |LinesOf(s)| && span.start <= span.end <= |s|
    ensures LinesOf(s)[k] == s[span.start..span.end]
    ensures LinesOf(s[..span.start] + Join(rs) + s[span.end..]) == Replaced(LinesOf(s), k, rs)
  {
    hide LinesOf, Join, Replaced;
  }

  lemma FindLineUnfold(s: string, p: Pattern)
    ensures var e := FirstLine(s);
            FindLine(s, p)
            == FirstOrLater(Matches(s[..e], p), e, if e == |s| then None else FindLine(s[e + 1..], p))
  {
    hide Matches, FirstLine, FirstOrLater, OneLine;
  }

  /** The search on the text finds the first matching line, and replacing its span
      replaces that line. */
  lemma {:induction false} FindLineIsFirstMatch(s: string, p: Pattern, rs: seq<string>)
    requires rs != [] && forall k :: 0 <= k < |rs| ==> OneLine(rs[k])
    ensures FindLine(s, p).None? <==> FirstMatch(LinesOf(s), p) < 0
    ensures FindLine(s, p).Some? ==>
              SpanIsLine(s, FindLine(s, p).value, FirstMatch(LinesOf(s), p), rs)
    decreases |s|
  {
    hide Matches, FirstLine, LinesOf, FirstMatch, SpanIsLine, FindLine;
    var e := FirstLine(s);
    LinesUnfold(s);
    FindLineUnfold(s, p);
    if e == |s| {
      assert s[..e] == s;
      FirstMatchUnfold(s, [], p);
      SpanOfFirstLine(s, rs);
    } else {
      FirstMatchUnfold(s[..e], LinesOf(s[e + 1..]), p);
      SpanOfFirstLine(s, rs);
      FindLineIsFirstMatch(s[e + 1..], p, rs);
      var later := FindLine(s[e + 1..], p);
      if later.Some? {
        SpanOfLaterLine(s, e, s[e + 1..], later.value, FirstMatch(LinesOf(s[e + 1..]), p), rs);
      }
    }
  }

  // ---- the lines the patch writes ----

  lemma {:induction false} BlanksThen(indent: string, rest: string)
    requires forall k :: 0 <= k < |indent| ==> Blank(indent[k])
    requires rest == "" || !Blank(rest[0])
    ensures Blanks(indent + rest) == |indent|
    decreases |indent|
  {
    if indent == "" {
      assert indent + rest == rest;
    } else {
      assert (indent + rest)[1..] == indent[1..] + rest;
      BlanksThen(indent[1..], rest);
    }
  }

  lemma {:induction false} DigitsThen(number: string, rest: string)
    requires forall k :: 0 <= k < |number| ==> IsDigit(number[k])
    requires rest == "" || !IsDigit(rest[0])
    ensures Digits(number + rest) == |number|
    decreases |number|
  {
    if number == "" {
      assert number + rest == rest;
    } else {
      assert (number + rest)[1..] == number[1..] + rest;
      DigitsThen(number[1..], rest);
    }
  }

  lemma FloorIsReadable(d: Directive, text: string)
    requires text == if d == WorkerConnections then "4096" else "16384"
    ensures Atoi(text) == Some(Floor(d))
    ensures text != "" && forall k :: 0 <= k < |text| ==> IsDigit(text[k])
  {
    hide Decimal;
    if d == WorkerConnections {
      DecimalOf4096();
    } else {
      DecimalOf16384();
    }
  }

  lemma DecimalOf4096()
    ensures Decimal("4096") == 4096
  {
    hide Decimal;
    DecimalOfNothing();
    DecimalStep("", '4');
    DecimalStep("4", '0');
    DecimalStep("40", '9');
    DecimalStep("409", '6');
    assert "" + ['4'] == "4" && "4" + ['0'] == "40" && "40" + ['9'] == "409" && "409" + ['6'] == "4096";
  }

  lemma DecimalOf16384()
    ensures Decimal("16384") == 16384
  {
    hide Decimal;
    DecimalOfNothing();
    DecimalStep("", '1');
    DecimalStep("1", '6');
    DecimalStep("16", '3');
    DecimalStep("163", '8');
    DecimalStep("1638", '4');
    assert "" + ['1'] == "1" && "1" + ['6'] == "16" && "16" + ['3'] == "163" && "163" + ['8'] == "1638"
           && "1638" + ['4'] == "16384";
  }

  /** The floor as text. */
  lemma FloorText(d: Directive)
    ensures Itoa(Floor(d)) == if d == WorkerConnections then "4096" else "16384"
  {
    if d == WorkerConnections {
      assert Itoa(4) == "4" && Itoa(40) == "40" && Itoa(409) == "409";
    } else {
      assert Itoa(1) == "1" && Itoa(16) == "16" && Itoa(163) == "163" && Itoa(1638) == "1638";
    }
  }

  predicate AllBlank(s: string) {
    forall k :: 0 <= k < |s| ==> Blank(s[k])
  }

  lemma ValueOfNumber(indent: string, number: string, tail: string)
    requires number != "" && forall k :: 0 <= k < |number| ==> IsDigit(number[k])
    requires tail != "" && tail[0] == ';'
    ensures Value(indent, " " + (number + tail)) == Some(Capture(indent, number))
  {
    var after := " " + (number + tail);
    BlanksThen(" ", number + tail);
    DigitsThen(number, tail);
    BlanksThen("", tail);
    assert "" + tail == tail;
    hide Blanks, Digits;
    assert after[1..] == number + tail;
    assert (number + tail)[|number|..] == tail && (number + tail)[..|number|] == number;
  }

  lemma CapturedOfDirective(indent: string, d: Directive, after: string)
    requires AllBlank(indent)
    ensures Captured(indent + (Name(d) + after), d) == Value(indent, after)
  {
    var rest := Name(d) + after;
    assert rest[0] == Name(d)[0];
    BlanksThen(indent, rest);
    hide Blanks, Value;
    assert (indent + rest)[..|indent|] == indent && (indent + rest)[|indent|..] == rest;
    assert rest[|Name(d)|..] == after;
  }

  lemma ManagedIsOneLine(indent: string, d: Directive)
    requires AllBlank(indent)
    ensures OneLine(ManagedLine(indent, d))
  {
    FloorText(d);
    var number := Itoa(Floor(d));
    hide Itoa;
    assert OneLine(indent) && OneLine(Name(d)) && OneLine(number);
    assert OneLine("; ") && OneLine(MARKER) && OneLine(" ");
  }

  /** A line the patch writes is one line, sets its directive and sets it to the floor. */
  lemma ManagedLineSets(indent: string, d: Directive)
    requires AllBlank(indent)
    ensures Captured(ManagedLine(indent, d), d) == Some(Capture(indent, Itoa(Floor(d))))
    ensures !TooLow(ManagedLine(indent, d), d)
    ensures OneLine(ManagedLine(indent, d))
  {
    FloorText(d);
    ManagedIsOneLine(indent, d);
    var number := Itoa(Floor(d));
    var tail := "; " + MARKER;
    FloorIsReadable(d, number);
    ValueOfNumber(indent, number, tail);
    CapturedOfDirective(indent, d, " " + (number + tail));
    hide *;
    assert ManagedLine(indent, d) == indent + (Name(d) + (" " + (number + tail))) by { ManagedLineIs(indent, d); }
    TooLowIs(ManagedLine(indent, d), d, Capture(indent, number));
  }

  lemma ManagedLineIs(indent: string, d: Directive)
    ensures ManagedLine(indent, d) == indent + (Name(d) + (" " + (Itoa(Floor(d)) + ("; " + MARKER))))
  {
    hide Itoa, Name, Floor;
    FromTheRight(indent, Name(d), " ", Itoa(Floor(d)), "; ", MARKER);
  }

  lemma FromTheRight(a: string, b: string, c: string, d: string, e: string, f: string)
    ensures a + b + c + d + e + f == a + (b + (c + (d + (e + f))))
  {
    assert d + e + f == d + (e + f);
    assert c + (d + e + f) == c + d + e + f;
    assert b + (c + d + e + f) == b + c + d + e + f;
  }

  lemma TooLowIs(line: string, d: Directive, c: Capture)
    requires Captured(line, d) == Some(c)
    ensures TooLow(line, d) <==> Atoi(c.digits).Some? && Atoi(c.digits).value < Floor(d)
  {
  }

  lemma CapturedIndentIsBlank(line: string, d: Directive)
    requires Captured(line, d).Some?
    ensures AllBlank(Captured(line, d).value.indent)
  {
  }

  lemma PrefixAt(s: string, prefix: string, i: nat)
    requires HasPrefix(s, prefix) && i < |prefix|
    ensures i < |s| && s[i] == prefix[i]
  {
  }

  /** No line answers to two of the expressions. */
  lemma SetsExcludesOthers(line: string, d: Directive, p: Pattern)
    requires Matches(line, Sets(d)) && p != Sets(d)
    ensures !Matches(line, p)
  {
    hide Value, Blanks, TokenThenSemicolon, HasPrefix;
    var rest := line[Blanks(line)..];
    PrefixAt(rest, Name(d), 0);
    PrefixAt(rest, Name(d), 7);
    match p
    case Sets(other) =>
      if HasPrefix(rest, Name(other)) { PrefixAt(rest, Name(other), 7); }
    case Anchors(WorkerConnections) =>
      if HasPrefix(rest, "events") { PrefixAt(rest, "events", 0); }
    case Anchors(WorkerRlimitNofile) =>
      if HasPrefix(rest, "worker_processes") { PrefixAt(rest, "worker_processes", 7); }
  }

  lemma RaiseIsReplacement(s: string, d: Directive)
    requires FindLine(s, Sets(d)).Some?
    ensures LinesOf(PatchOne(s, d)) == PatchLines(LinesOf(s), d)
  {
    hide LinesOf, Join, FindLine, FirstMatch, Captured, Anchor, TooLow, ManagedLine, Replaced, SpanIsLine;
    var ls := LinesOf(s);
    var k := FirstMatch(ls, Sets(d));
    var any := [""];
    FindLineIsFirstMatch(s, Sets(d), any);
    SpanLine(s, FindLine(s, Sets(d)).value, k, any);
    if TooLow(ls[k], d) {
      TooLowCaptures(ls[k], d);
      var m := ManagedLine(Captured(ls[k], d).value.indent, d);
      ManagedLineSets(Captured(ls[k], d).value.indent, d);
      FindLineIsFirstMatch(s, Sets(d), [m]);
      SpanLine(s, FindLine(s, Sets(d)).value, k, [m]);
      JoinOne(m);
      var t := PatchDirective(s, d);
      assert LinesOf(t) == Replaced(ls, k, [m]);
      ReplacedAt(ls, k, [m]);
      NoneBeforeFirstMatch(LinesOf(t), Sets(d));
      FindLineIsFirstMatch(t, Sets(d), any);
    }
  }

  lemma InsertIsReplacement(s: string, d: Directive)
    requires FindLine(s, Sets(d)).None?
    ensures LinesOf(PatchOne(s, d)) == PatchLines(LinesOf(s), d)
  {
    hide LinesOf, Join, FindLine, FirstMatch, Captured, Anchor, TooLow, ManagedLine, Replaced, SpanIsLine;
    var ls := LinesOf(s);
    var m := ManagedLine(InsertIndent(d), d);
    ManagedLineSets(InsertIndent(d), d);
    FindLineIsFirstMatch(s, Sets(d), [m]);
    FindLineIsFirstMatch(s, Anchors(d), [m]);
    var anchor := FindLine(s, Anchors(d));
    if anchor.Some? {
      var a := FirstMatch(ls, Anchors(d));
      EveryLineIsOne(s, a);
      var rs := [ls[a], m];
      FindLineIsFirstMatch(s, Anchors(d), rs);
      SpanLine(s, anchor.value, a, rs);
      JoinTwo(ls[a], m);
      assert s[..anchor.value.end] + ("\n" + m)
             == s[..anchor.value.start] + (ls[a] + "\n" + m);
    }
  }

  lemma TooLowCaptures(line: string, d: Directive)
    requires TooLow(line, d)
    ensures Captured(line, d).Some? && AllBlank(Captured(line, d).value.indent)
  {
  }

  lemma ReplacedAt(ls: seq<string>, k: int, rs: seq<string>)
    requires 0 <= k < |ls| && rs != []
    ensures k < |Replaced(ls, k, rs)| && Replaced(ls, k, rs)[k] == rs[0]
  {
  }

  /** The patch of the text is the patch of its lines. */
  lemma PatchOneIsPatchLines(s: string, d: Directive)
    ensures LinesOf(PatchOne(s, d)) == PatchLines(LinesOf(s), d)
  {
    if FindLine(s, Sets(d)).Some? {
      RaiseIsReplacement(s, d);
    } else {
      InsertIsReplacement(s, d);
    }
  }

  lemma JoinOne(a: string)
    ensures Join([a]) == a
  {
  }

  lemma JoinTwo(a: string, b: string)
    ensures Join([a, b]) == a + "\n" + b
  {
  }

  // ---- what the patch does to the directives ----

  /** The lines that match, in order, and those that do not. */
  function Matching(ls: seq<string>, p: Pattern): seq<string> {
    if ls == [] then []
    else if Matches(ls[0], p) then [ls[0]] + Matching(ls[1..], p)
    else Matching(ls[1..], p)
  }

  function Others(ls: seq<string>, p: Pattern): seq<string> {
    if ls == [] then []
    else if Matches(ls[0], p) then Others(ls[1..], p)
    else [ls[0]] + Others(ls[1..], p)
  }

  lemma {:induction false} MatchingConcat(a: seq<string>, b: seq<string>, p: Pattern)
    ensures Matching(a + b, p) == Matching(a, p) + Matching(b, p)
    ensures Others(a + b, p) == Others(a, p) + Others(b, p)
    decreases |a|
  {
    hide Matches;
    if a == [] {
      assert a + b == b;
    } else {
      assert (a + b)[1..] == a[1..] + b;
      MatchingConcat(a[1..], b, p);
    }
  }

  lemma {:induction false} NoMatching(ls: seq<string>, p: Pattern)
    requires forall j :: 0 <= j < |ls| ==> !Matches(ls[j], p)
    ensures Matching(ls, p) == [] && Others(ls, p) == ls
    decreases |ls|
  {
    if ls != [] {
      NoMatching(ls[1..], p);
    }
  }

  lemma MatchingReplaced(ls: seq<string>, k: int, rs: seq<string>, p: Pattern)
    requires 0 <= k < |ls|
    ensures Matching(ls, p) == Matching(ls[..k], p) + Matching([ls[k]], p) + Matching(ls[k + 1..], p)
    ensures Others(ls, p) == Others(ls[..k], p) + Others([ls[k]], p) + Others(ls[k + 1..], p)
    ensures Matching(Replaced(ls, k, rs), p)
            == Matching(ls[..k], p) + Matching(rs, p) + Matching(ls[k + 1..], p)
    ensures Others(Replaced(ls, k, rs), p)
            == Others(ls[..k], p) + Others(rs, p) + Others(ls[k + 1..], p)
  {
    hide Matching, Others;
    assert ls == ls[..k] + [ls[k]] + ls[k + 1..];
    MatchingConcat(ls[..k] + [ls[k]], ls[k + 1..], p);
    MatchingConcat(ls[..k], [ls[k]], p);
    MatchingConcat(ls[..k] + rs, ls[k + 1..], p);
    MatchingConcat(ls[..k], rs, p);
  }

  lemma MatchingOne(line: string, p: Pattern)
    ensures Matching([line], p) == if Matches(line, p) then [line] else []
    ensures Others([line], p) == if Matches(line, p) then [] else [line]
  {
  }

  lemma FirstMatchIsFirstMatching(ls: seq<string>, p: Pattern)
    ensures FirstMatch(ls, p) < 0 <==> Matching(ls, p) == []
    ensures FirstMatch(ls, p) >= 0 ==>
              && Matching(ls, p)[0] == ls[FirstMatch(ls, p)]
              && Matching(ls[..FirstMatch(ls, p)], p) == []
  {
    hide Matches, Matching, Others;
    var k := FirstMatch(ls, p);
    if k < 0 {
      NoneBeforeFirstMatch(ls, p);
      NoMatching(ls, p);
    } else {
      MatchingReplaced(ls, k, [], p);
      MatchingOne(ls[k], p);
      NoneBeforeFirstMatch(ls, p);
      NoMatching(ls[..k], p);
    }
  }

  /** The effective value of a directive, that of its first line, if it can be read. */
  function Effective(ls: seq<string>, d: Directive): Option<int> {
    var lines := Matching(ls, Sets(d));
    if lines == [] || Captured(lines[0], d).None? then None
    else Atoi(Captured(lines[0], d).value.digits)
  }

  function After(seq': seq<string>): seq<string> {
    if seq' == [] then [] else seq'[1..]
  }

  /** What one half of the patch promises about the directive it manages. */
  ghost predicate Raises(before: seq<string>, after: seq<string>, d: Directive) {
    var was, now := Matching(before, Sets(d)), Matching(after, Sets(d));
    && Others(after, Sets(d)) == Others(before, Sets(d))
    && After(now) == After(was)
    && (now == [] <==> was == [] && Matching(before, Anchors(d)) == [])
    && Effective(after, d) ==
       if was != [] then
         (if Effective(before, d).Some? then Some(Max(Effective(before, d).value, Floor(d))) else None)
       else if Matching(before, Anchors(d)) != [] then Some(Floor(d))
       else None
  }

  /** No line but the first of the directive changes; it is raised to the floor and never
      lowered; a missing directive is added exactly when there is a line to add it after. */
  lemma PatchLinesRaises(ls: seq<string>, d: Directive)
    ensures Raises(ls, PatchLines(ls, d), d)
  {
    hide Matches, Matching, Others, Captured, Atoi, Anchor, ManagedLine, Replaced, AllBlank;
    var k := FirstMatch(ls, Sets(d));
    FirstMatchIsFirstMatching(ls, Sets(d));
    FirstMatchIsFirstMatching(ls, Anchors(d));
    if k >= 0 {
      EffectiveOfFirst(ls, d, k);
      if TooLow(ls[k], d) {
        CapturedIndentIsBlank(ls[k], d);
        RewriteRaises(ls, d, k, Captured(ls[k], d).value.indent);
      }
    } else if FirstMatch(ls, Anchors(d)) >= 0 {
      InsertIndentIsBlank(d);
      InsertRaises(ls, d, FirstMatch(ls, Anchors(d)), InsertIndent(d));
    }
  }

  lemma EffectiveOfFirst(ls: seq<string>, d: Directive, k: int)
    requires 0 <= k < |ls| && Matching(ls, Sets(d)) != [] && Matching(ls, Sets(d))[0] == ls[k]
    requires Matches(ls[k], Sets(d))
    ensures TooLow(ls[k], d) <==> Effective(ls, d).Some? && Effective(ls, d).value < Floor(d)
  {
    hide Matching, Captured, Atoi;
  }

  /** Rewriting the first matching line as another matching one. */
  lemma SwapFirst(ls: seq<string>, k: int, m: string, p: Pattern)
    requires 0 <= k < |ls| && k == FirstMatch(ls, p) && Matches(m, p)
    ensures Matching(ls, p) != [] && Matching(ls, p)[0] == ls[k]
    ensures Matching(Replaced(ls, k, [m]), p) == [m] + After(Matching(ls, p))
    ensures Others(Replaced(ls, k, [m]), p) == Others(ls, p)
  {
    hide Matching, Others, Matches, Replaced, FirstMatch, Captured, Anchor;
    FirstMatchIsFirstMatching(ls, p);
    MatchingReplaced(ls, k, [m], p);
    MatchingOne(ls[k], p);
    MatchingOne(m, p);
    var rest := Matching(ls[k + 1..], p);
    assert Matching(ls, p) == [] + [ls[k]] + rest == [ls[k]] + rest;
    assert Matching(Replaced(ls, k, [m]), p) == [] + [m] + rest == [m] + rest;
  }

  /** Adding the only matching line after one that does not match. */
  lemma AddFirst(ls: seq<string>, a: int, m: string, p: Pattern)
    requires 0 <= a < |ls| && FirstMatch(ls, p) < 0 && Matches(m, p)
    ensures Matching(ls, p) == []
    ensures Matching(Replaced(ls, a, [ls[a], m]), p) == [m]
    ensures Others(Replaced(ls, a, [ls[a], m]), p) == Others(ls, p)
  {
    hide Matching, Others, Matches, Replaced;
    NoneBeforeFirstMatch(ls, p);
    NoMatching(ls, p);
    NoMatching(ls[..a], p);
    NoMatching(ls[a + 1..], p);
    MatchingReplaced(ls, a, [ls[a]] + [m], p);
    MatchingConcat([ls[a]], [m], p);
    MatchingOne(ls[a], p);
    MatchingOne(m, p);
    assert [ls[a]] + [m] == [ls[a], m];
    assert Matching([ls[a], m], p) == [] + [m] == [m];
    assert Others([ls[a], m], p) == [ls[a]] + [] == [ls[a]];
    assert [] + [m] + [] == [m];
    assert ls == ls[..a] + [ls[a]] + ls[a + 1..];
  }

  lemma EffectiveOfManaged(ls: seq<string>, d: Directive, indent: string)
    requires AllBlank(indent)
    requires Matching(ls, Sets(d)) != [] && Matching(ls, Sets(d))[0] == ManagedLine(indent, d)
    ensures Effective(ls, d) == Some(Floor(d))
  {
    hide Matching, Captured, ManagedLine, Itoa, Atoi, AllBlank, TooLow;
    ManagedLineSets(indent, d);
    FloorText(d);
    FloorIsReadable(d, Itoa(Floor(d)));
  }

  lemma ManagedMatches(indent: string, d: Directive)
    requires AllBlank(indent)
    ensures Matches(ManagedLine(indent, d), Sets(d))
  {
    ManagedLineSets(indent, d);
  }

  lemma RewriteRaises(ls: seq<string>, d: Directive, k: int, indent: string)
    requires 0 <= k < |ls| && k == FirstMatch(ls, Sets(d)) && TooLow(ls[k], d) && AllBlank(indent)
    ensures Raises(ls, Replaced(ls, k, [ManagedLine(indent, d)]), d)
  {
    hide Matches, Matching, Others, Captured, TooLow, ManagedLine, Replaced, AllBlank, Effective, Floor, FirstMatch;
    var m := ManagedLine(indent, d);
    var after := Replaced(ls, k, [m]);
    ManagedMatches(indent, d);
    SwapFirst(ls, k, m, Sets(d));
    EffectiveOfFirst(ls, d, k);
    assert After(Matching(after, Sets(d))) == After(Matching(ls, Sets(d)));
    EffectiveOfManaged(after, d, indent);
  }

  lemma InsertRaises(ls: seq<string>, d: Directive, a: int, indent: string)
    requires FirstMatch(ls, Sets(d)) < 0 && 0 <= a < |ls| && a == FirstMatch(ls, Anchors(d)) && AllBlank(indent)
    ensures Raises(ls, Replaced(ls, a, [ls[a], ManagedLine(indent, d)]), d)
  {
    hide Matches, Matching, Others, Captured, TooLow, ManagedLine, Replaced, AllBlank, Anchor, Floor, FirstMatch;
    var m := ManagedLine(indent, d);
    var after := Replaced(ls, a, [ls[a], m]);
    ManagedMatches(indent, d);
    FirstMatchIsFirstMatching(ls, Anchors(d));
    AddFirst(ls, a, m, Sets(d));
    assert After([m]) == After([]);
    EffectiveOfManaged(after, d, indent);
  }

  lemma InsertIndentIsBlank(d: Directive)
    ensures AllBlank(InsertIndent(d))
  {
  }

  /** The lines of every other expression are left alone. */
  lemma PatchLinesKeepsOthers(ls: seq<string>, d: Directive, p: Pattern)
    requires p != Sets(d)
    ensures Matching(PatchLines(ls, d), p) == Matching(ls, p)
  {
    hide Matching, Matches, FirstMatch, TooLow, Captured, ManagedLine, Replaced, InsertIndent, AllBlank;
    var k := FirstMatch(ls, Sets(d));
    var a := FirstMatch(ls, Anchors(d));
    if k >= 0 {
      if TooLow(ls[k], d) {
        TooLowCaptures(ls[k], d);
        SetsExcludesOthers(ls[k], d, p);
        RewriteKeepsOthers(ls, d, p, k, Captured(ls[k], d).value.indent);
      }
    } else if a >= 0 {
      InsertIndentIsBlank(d);
      AddKeepsOthers(ls, d, p, a, InsertIndent(d));
    }
  }

  lemma RewriteKeepsOthers(ls: seq<string>, d: Directive, p: Pattern, k: int, indent: string)
    requires 0 <= k < |ls| && AllBlank(indent) && p != Sets(d) && !Matches(ls[k], p)
    ensures Matching(Replaced(ls, k, [ManagedLine(indent, d)]), p) == Matching(ls, p)
  {
    hide Matching, Others, Matches, ManagedLine, Replaced, AllBlank;
    var m := ManagedLine(indent, d);
    ManagedMatches(indent, d);
    SetsExcludesOthers(m, d, p);
    MatchingReplaced(ls, k, [m], p);
    MatchingOne(ls[k], p);
    MatchingOne(m, p);
  }

  lemma AddKeepsOthers(ls: seq<string>, d: Directive, p: Pattern, a: int, indent: string)
    requires 0 <= a < |ls| && p != Sets(d) && AllBlank(indent)
    ensures Matching(Replaced(ls, a, [ls[a], ManagedLine(indent, d)]), p) == Matching(ls, p)
  {
    hide Matching, Others, Matches, ManagedLine, Replaced, AllBlank;
    var m := ManagedLine(indent, d);
    ManagedMatches(indent, d);
    SetsExcludesOthers(m, d, p);
    MatchingReplaced(ls, a, [ls[a]] + [m], p);
    MatchingConcat([ls[a]], [m], p);
    MatchingOne(m, p);
    assert [ls[a]] + [m] == [ls[a], m];
  }

  /** There is nothing left for the patch to do about a directive. */
  predicate Settled(ls: seq<string>, d: Directive) {
    var lines := Matching(ls, Sets(d));
    if lines == [] then Matching(ls, Anchors(d)) == [] else !TooLow(lines[0], d)
  }

  lemma SettledIsFixed(ls: seq<string>, d: Directive)
    requires Settled(ls, d)
    ensures PatchLines(ls, d) == ls
  {
    FirstMatchIsFirstMatching(ls, Sets(d));
    FirstMatchIsFirstMatching(ls, Anchors(d));
  }

  lemma PatchSettles(ls: seq<string>, d: Directive)
    ensures Settled(PatchLines(ls, d), d)
  {
    hide Matches, Matching, Others, Captured, Atoi, Anchor, PatchLines;
    var after := PatchLines(ls, d);
    PatchLinesRaises(ls, d);
    PatchLinesKeepsOthers(ls, d, Anchors(d));
    FirstMatchIsFirstMatching(after, Sets(d));
    if Matching(after, Sets(d)) != [] {
      var k := FirstMatch(after, Sets(d));
      EffectiveOfFirst(after, d, k);
    }
  }

  lemma PatchKeepsSettled(ls: seq<string>, d: Directive, other: Directive)
    requires d != other && Settled(ls, other)
    ensures Settled(PatchLines(ls, d), other)
  {
    PatchLinesKeepsOthers(ls, d, Sets(other));
    PatchLinesKeepsOthers(ls, d, Anchors(other));
  }

  /** Patching a patched file changes nothing, for every text whatever. */
  lemma PatchMainConfIdempotent(s: string)
    ensures PatchMainConf(PatchMainConf(s)) == PatchMainConf(s)
  {
    hide LinesOf, PatchOne, PatchLines, Settled, Join;
    var t := PatchOne(s, WorkerConnections);
    var u := PatchOne(t, WorkerRlimitNofile);
    PatchOneIsPatchLines(s, WorkerConnections);
    PatchOneIsPatchLines(t, WorkerRlimitNofile);
    PatchSettles(LinesOf(s), WorkerConnections);
    PatchSettles(LinesOf(t), WorkerRlimitNofile);
    PatchKeepsSettled(LinesOf(t), WorkerRlimitNofile, WorkerConnections);
    SettledIsFixed(LinesOf(u), WorkerConnections);
    SettledIsFixed(LinesOf(u), WorkerRlimitNofile);
    PatchOneIsPatchLines(u, WorkerConnections);
    var v := PatchOne(u, WorkerConnections);
    JoinLines(u);
    JoinLines(v);
    assert v == u;
    PatchOneIsPatchLines(v, WorkerRlimitNofile);
    JoinLines(PatchOne(v, WorkerRlimitNofile));
  }

  /** PatchMainConf is, half by half, a patch of the lines that raises one directive and
      touches no line of the other; together it leaves both at or above their floors
      wherever they can be read or added. */
  lemma PatchMainConfRaises(s: string)
    ensures var before := LinesOf(s);
            var middle := LinesOf(PatchOne(s, WorkerConnections));
            var after := LinesOf(PatchMainConf(s));
            && Raises(before, middle, WorkerConnections)
            && Raises(middle, after, WorkerRlimitNofile)
            && Matching(after, Sets(WorkerConnections)) == Matching(middle, Sets(WorkerConnections))
            && Matching(middle, Sets(WorkerRlimitNofile)) == Matching(before, Sets(WorkerRlimitNofile))
            && Matching(middle, Anchors(WorkerRlimitNofile)) == Matching(before, Anchors(WorkerRlimitNofile))
            && (forall d :: Effective(after, d).Some? ==> Effective(after, d).value >= Floor(d))
            && (forall d :: Effective(before, d).Some? ==>
                  && Effective(after, d).Some?
                  && Effective(after, d).value >= Effective(before, d).value)
  {
    hide LinesOf, PatchOne, PatchLines, Matching, Others, Captured, Atoi;
    var t := PatchOne(s, WorkerConnections);
    PatchOneIsPatchLines(s, WorkerConnections);
    PatchOneIsPatchLines(t, WorkerRlimitNofile);
    PatchLinesRaises(LinesOf(s), WorkerConnections);
    PatchLinesRaises(LinesOf(t), WorkerRlimitNofile);
    PatchLinesKeepsOthers(LinesOf(s), WorkerConnections, Sets(WorkerRlimitNofile));
    PatchLinesKeepsOthers(LinesOf(s), WorkerConnections, Anchors(WorkerRlimitNofile));
    PatchLinesKeepsOthers(LinesOf(t), WorkerRlimitNofile, Sets(WorkerConnections));
    var before, middle, after := LinesOf(s), LinesOf(t), LinesOf(PatchMainConf(s));
    assert Effective(after, WorkerConnections) == Effective(middle, WorkerConnections);
    assert Effective(middle, WorkerRlimitNofile) == Effective(before, WorkerRlimitNofile);
    forall d | Effective(before, d).Some?
      ensures Effective(after, d).Some? && Effective(after, d).value >= Effective(before, d).value
    {
      assert Matching(before, Sets(d)) != [];
      assert d == WorkerConnections || d == WorkerRlimitNofile;
    }
  }
}
