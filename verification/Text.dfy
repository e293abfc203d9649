/** Byte strings: searching, prefixes and suffixes, decimal numbers. */
module Text {

  predicate OccursAt(s: string, needle: string, i: int) {
    0 <= i && i + |needle| <= |s| && s[i..i + |needle|] == needle
  }

  /** strings.Contains */
  predicate Contains(s: string, needle: string) {
    exists i :: 0 <= i <= |s| && OccursAt(s, needle, i)
  }

  predicate HasPrefix(s: string, prefix: string) {
    prefix <= s
  }

  predicate HasSuffix(s: string, suffix: string) {
    |suffix| <= |s| && s[|s| - |suffix|..] == suffix
  }

  predicate Free(s: string, c: char) {
    c !in s
  }

  lemma FreeConcat(a: string, b: string, c: char)
    ensures Free(a + b, c) <==> Free(a, c) && Free(b, c)
  {
  }

  // ---- searching a concatenation for a text that ends in a mark ----

  /** A needle that ends in a mark and has it nowhere else can only end at marks. Text
      free of the mark adds no occurrence. */
  lemma MarkFreeTextAddsNothing(t: string, s: string, stem: string, mark: char)
    requires Free(s, mark)
    ensures Contains(t + s, stem + [mark]) <==> Contains(t, stem + [mark])
  {
    var needle := stem + [mark];
    if Contains(t + s, needle) {
      var i :| 0 <= i <= |t + s| && OccursAt(t + s, needle, i);
      assert (t + s)[i..i + |needle|][|stem|] == mark;
      assert (t + s)[i + |stem|] == mark;
      assert i + |needle| <= |t|;
      assert t[i..i + |needle|] == (t + s)[i..i + |needle|];
      assert OccursAt(t, needle, i);
    }
    if Contains(t, needle) {
      var i :| 0 <= i <= |t| && OccursAt(t, needle, i);
      assert t[i..i + |needle|] == (t + s)[i..i + |needle|];
      assert OccursAt(t + s, needle, i);
    }
  }

  /** A mark adds an occurrence exactly when the mark-free text before it ends in the
      stem. */
  lemma MarkAddsSuffixMatch(t: string, s: string, stem: string, mark: char)
    requires Free(s, mark) && Free(stem, mark)
    requires t == "" || t[|t| - 1] == mark
    ensures Contains(t + s + [mark], stem + [mark]) <==> Contains(t, stem + [mark]) || HasSuffix(s, stem)
  {
    var needle := stem + [mark];
    var whole := t + s + [mark];
    if Contains(whole, needle) {
      var i :| 0 <= i <= |whole| && OccursAt(whole, needle, i);
      MatchIsOldOrSuffix(t, s, stem, mark, i);
    }
    if Contains(t, needle) {
      var i :| 0 <= i <= |t| && OccursAt(t, needle, i);
      assert t[i..i + |needle|] == whole[i..i + |needle|];
      assert OccursAt(whole, needle, i);
    }
    if HasSuffix(s, stem) {
      SuffixMatches(t, s, stem, mark);
    }
  }

  lemma MatchIsOldOrSuffix(t: string, s: string, stem: string, mark: char, i: int)
    requires Free(s, mark) && Free(stem, mark)
    requires t == "" || t[|t| - 1] == mark
    requires OccursAt(t + s + [mark], stem + [mark], i)
    ensures OccursAt(t, stem + [mark], i) || HasSuffix(s, stem)
  {
    MatchEndsAtMark(t, s, stem, mark, i);
    var needle := stem + [mark];
    var whole := t + s + [mark];
    var e := i + |stem|;
    if e < |t| {
      assert t[i..i + |needle|] == whole[i..i + |needle|];
    } else {
      assert s[|s| - |stem|..] == whole[i..e];
      assert whole[i..e] == whole[i..i + |needle|][..|stem|];
    }
  }

  /** The last character of a match is a mark, and none of the others is. */
  lemma MatchEndsAtMark(t: string, s: string, stem: string, mark: char, i: int)
    requires Free(s, mark) && Free(stem, mark)
    requires t == "" || t[|t| - 1] == mark
    requires OccursAt(t + s + [mark], stem + [mark], i)
    ensures i + |stem| < |t| || (i + |stem| == |t| + |s| && |t| <= i)
  {
    var whole := t + s + [mark];
    var e := i + |stem|;
    assert whole[e] == mark by {
      assert whole[i..e + 1][|stem|] == (stem + [mark])[|stem|];
    }
    forall k | |t| <= k < |t| + |s|
      ensures whole[k] != mark
    {
      assert whole[k] == s[k - |t|];
    }
    forall k | i <= k < e
      ensures whole[k] != mark
    {
      assert whole[i..e + 1][k - i] == stem[k - i];
    }
    assert t != "" ==> whole[|t| - 1] == mark;
  }

  lemma SuffixMatches(t: string, s: string, stem: string, mark: char)
    requires HasSuffix(s, stem)
    ensures Contains(t + s + [mark], stem + [mark])
  {
    var whole := t + s + [mark];
    var i := |t| + |s| - |stem|;
    assert whole[i..] == s[|s| - |stem|..] + [mark];
    assert OccursAt(whole, stem + [mark], i);
  }
}
