/** A text as the sequence of its lines: the view that multi-line regular expressions
    anchored at both ends of a line have of it. */
module Lines {

  /** The length of the first line. */
  function FirstLine(s: string): (e: nat)
    ensures e <= |s|
    ensures e < |s| ==> s[e] == '\n'
    ensures OneLine(s[..e])
  {
    if s == [] || s[0] == '\n' then 0
    else
      var e := FirstLine(s[1..]);
      assert s[..e + 1] == [s[0]] + s[1..][..e];
      e + 1
  }

  predicate OneLine(s: string) {
    '\n' !in s
  }

  function LinesOf(s: string): (ls: seq<string>)
    ensures ls != []
  {
    var e := FirstLine(s);
    if e == |s| then [s] else [s[..e]] + LinesOf(s[e + 1..])
  }

  function Join(ls: seq<string>): string
    requires ls != []
  {
    if |ls| == 1 then ls[0] else ls[0] + "\n" + Join(ls[1..])
  }

  lemma LinesUnfold(s: string)
    ensures var e := FirstLine(s);
            LinesOf(s) == if e == |s| then [s] else [s[..e]] + LinesOf(s[e + 1..])
  {
    hide FirstLine;
  }

  lemma JoinUnfold(line: string, more: seq<string>)
    ensures Join([line]) == line
    ensures more != [] ==> Join([line] + more) == line + "\n" + Join(more)
  {
    assert ([line] + more)[1..] == more;
  }

  lemma SplitAt(s: string, e: nat)
    requires e < |s|
    ensures s == s[..e] + [s[e]] + s[e + 1..]
  {
  }

  /** Splitting loses nothing. */
  lemma {:induction false} JoinLines(s: string)
    ensures Join(LinesOf(s)) == s
    decreases |s|
  {
    hide FirstLine, OneLine, LinesOf, Join;
    LinesUnfold(s);
    var e := FirstLine(s);
    if e == |s| {
      JoinUnfold(s, []);
    } else {
      JoinLines(s[e + 1..]);
      JoinUnfold(s[..e], LinesOf(s[e + 1..]));
      SplitAt(s, e);
    }
  }

  lemma {:induction false} EveryLineIsOne(s: string, k: int)
    requires 0 <= k < |LinesOf(s)|
    ensures OneLine(LinesOf(s)[k])
    decreases |s|
  {
    hide FirstLine, LinesOf;
    LinesUnfold(s);
    var e := FirstLine(s);
    if e == |s| {
      assert s[..e] == s;
    } else if k > 0 {
      EveryLineIsOne(s[e + 1..], k - 1);
    }
  }

  lemma {:induction false} FirstLineOf(line: string, rest: string)
    requires OneLine(line)
    requires rest == [] || rest[0] == '\n'
    ensures FirstLine(line + rest) == |line|
    decreases |line|
  {
    if line == [] {
      assert line + rest == rest;
    } else {
      assert (line + rest)[1..] == line[1..] + rest;
      assert line[0] in line;
      FirstLineOf(line[1..], rest);
    }
  }

  /** A text that starts with a whole line and a newline, and a text that is one line. */
  lemma LinesAfterFirst(line: string, rest: string)
    requires OneLine(line)
    ensures LinesOf(line + "\n" + rest) == [line] + LinesOf(rest)
    ensures LinesOf(line) == [line]
  {
    var s := line + "\n" + rest;
    FirstLineOf(line, "\n" + rest);
    assert s == line + ("\n" + rest);
    assert s[..|line|] == line && s[|line| + 1..] == rest;
    FirstLineOf(line, "");
    assert line + "" == line;
  }

  /** Joining lines and splitting again gives the lines back. */
  lemma {:induction false} LinesOfJoin(ls: seq<string>)
    requires ls != [] && forall k :: 0 <= k < |ls| ==> OneLine(ls[k])
    ensures LinesOf(Join(ls)) == ls
    decreases |ls|
  {
    if |ls| == 1 {
      LinesAfterFirst(ls[0], "");
    } else {
      LinesOfJoin(ls[1..]);
      LinesAfterFirst(ls[0], Join(ls[1..]));
    }
  }

  lemma {:induction false} LinesOfJoinThen(rs: seq<string>, rest: string)
    requires rs != [] && forall k :: 0 <= k < |rs| ==> OneLine(rs[k])
    ensures LinesOf(Join(rs) + ("\n" + rest)) == rs + LinesOf(rest)
    decreases |rs|
  {
    hide LinesOf;
    if |rs| == 1 {
      LinesAfterFirst(rs[0], rest);
      assert Join(rs) + ("\n" + rest) == rs[0] + "\n" + rest;
    } else {
      var more := Join(rs[1..]) + ("\n" + rest);
      LinesOfJoinThen(rs[1..], rest);
      LinesAfterFirst(rs[0], more);
      assert Join(rs) + ("\n" + rest) == rs[0] + "\n" + more;
    }
  }

  lemma FirstThenRest(line: string, rest: string, more: string)
    ensures line + "\n" + rest + ("\n" + more) == line + "\n" + (rest + ("\n" + more))
  {
  }

  /** A newline between two texts ends the last line of the first. */
  lemma {:induction false} LinesConcat(a: string, b: string)
    ensures LinesOf(a + ("\n" + b)) == LinesOf(a) + LinesOf(b)
    decreases |a|
  {
    hide FirstLine, OneLine, LinesOf;
    var e := FirstLine(a);
    LinesUnfold(a);
    if e == |a| {
      assert a[..e] == a;
      LinesAfterFirst(a, b);
      assert a + ("\n" + b) == a + "\n" + b;
    } else {
      var rest := a[e + 1..];
      SplitAt(a, e);
      LinesConcat(rest, b);
      LinesAfterFirst(a[..e], rest + ("\n" + b));
      FirstThenRest(a[..e], rest, b);
      assert [a[..e]] + (LinesOf(rest) + LinesOf(b)) == [a[..e]] + LinesOf(rest) + LinesOf(b);
    }
  }

  lemma OneMoreLine(s: string, line: string)
    requires OneLine(line)
    ensures LinesOf(s + ("\n" + line)) == LinesOf(s) + [line]
  {
    LinesConcat(s, line);
    LinesAfterFirst(line, "");
  }
}
