/** Reading teleproxy.toml back: a reader that goes by quotes, keys and lines alone, and what
    it makes of a rendered configuration. */
module TeleproxyReader {
  import opened Lines
  import opened Numbers
  import opened Options
  import opened ProxyUsers
  import opened Teleproxy
  import opened Text

  // ---- the reader ----

  /** A quoted value and the text between it and the value before it. */
  datatype Token = Token(before: string, value: string)

  function UpToQuote(s: string): (n: nat)
    ensures n <= |s|
  {
    if s == "" || s[0] == '"' then 0 else 1 + UpToQuote(s[1..])
  }

  predicate HasQuote(s: string) {
    UpToQuote(s) < |s|
  }

  /** The text behind the first quote. */
  function BehindQuote(s: string): (rest: string)
    requires HasQuote(s)
    ensures |rest| < |s|
  {
    s[UpToQuote(s) + 1..]
  }

  function BeforeQuote(s: string): string {
    s[..UpToQuote(s)]
  }

  /** The quoted values of a text in order, and the text after the last one. */
  function Tokens(s: string): (seq<Token>, string)
    decreases |s|
  {
    hide UpToQuote;
    if !HasQuote(s) || !HasQuote(BehindQuote(s)) then ([], s)
    else
      var value := BehindQuote(s);
      var (more, tail) := Tokens(BehindQuote(value));
      ([Token(BeforeQuote(s), BeforeQuote(value))] + more, tail)
  }

  predicate WordChar(c: char) {
    'a' <= c <= 'z' || '0' <= c <= '9' || c == '_'
  }

  /** Where the word at the end of a text starts. */
  function WordStart(s: string): (n: nat)
    ensures n <= |s|
  {
    if s == "" || !WordChar(s[|s| - 1]) then |s| else WordStart(s[..|s| - 1])
  }

  /** The key of a value: the word before the ` = ` in front of it. */
  function KeyOf(t: Token): string {
    if HasSuffix(t.before, " = ") then
      var s := t.before[..|t.before| - 3];
      s[WordStart(s)..]
    else ""
  }

  /** The first value with a key. */
  function ValueOf(ts: seq<Token>, key: string): Option<string> {
    if ts == [] then None
    else if KeyOf(ts[0]) == key then Some(ts[0].value)
    else ValueOf(ts[1..], key)
  }

  /** The value is the key of a new secret block. */
  predicate StartsBlock(t: Token) {
    HasSuffix(t.before, "[[secret]]\nkey = ")
  }

  /** The secret blocks: a key and the label after it. */
  function UsersOf(ts: seq<Token>): seq<UserEntry> {
    if |ts| < 2 then []
    else if StartsBlock(ts[0]) && KeyOf(ts[1]) == "label" then
      [UserEntry(ts[1].value, ts[0].value)] + UsersOf(ts[2..])
    else UsersOf(ts[1..])
  }

  /** The unquoted setting of a name in some lines. */
  function SettingOf(ls: seq<string>, name: string): Option<string> {
    if ls == [] then None
    else if HasPrefix(ls[0], name + " = ") then Some(ls[0][|name| + 3..])
    else SettingOf(ls[1..], name)
  }

  predicate HasLine(s: string, line: string) {
    line in LinesOf(s)
  }

  /** A line outside all quotes. */
  predicate AnyLine(ts: seq<Token>, tail: string, line: string) {
    HasLine(tail, line) || exists i :: 0 <= i < |ts| && HasLine(ts[i].before, line)
  }

  function IntOf(s: string): int {
    if s != "" && s[0] == '-' then -Decimal(s[1..]) else Decimal(s)
  }

  // ---- quotes ----

  lemma {:induction false} UpToFirstQuote(a: string, rest: string)
    requires Free(a, '"')
    ensures UpToQuote(a + (QUOTE + rest)) == |a|
    ensures UpToQuote(a) == |a|
    decreases |a|
  {
    if a == "" {
      assert a + (QUOTE + rest) == QUOTE + rest;
    } else {
      assert (a + (QUOTE + rest))[1..] == a[1..] + (QUOTE + rest);
      assert a[0] in a;
      UpToFirstQuote(a[1..], rest);
    }
  }

  lemma CutAtQuote(a: string, rest: string)
    requires Free(a, '"')
    ensures var s := a + (QUOTE + rest); HasQuote(s) && BeforeQuote(s) == a && BehindQuote(s) == rest
  {
    UpToFirstQuote(a, rest);
  }

  lemma TokensOfQuoted(before: string, value: string, rest: string)
    requires Free(before, '"') && Free(value, '"')
    ensures Tokens(before + (QUOTE + (value + (QUOTE + rest))))
            == ([Token(before, value)] + Tokens(rest).0, Tokens(rest).1)
  {
    hide HasQuote, BeforeQuote, BehindQuote;
    CutAtQuote(before, value + (QUOTE + rest));
    CutAtQuote(value, rest);
  }

  lemma TokensOfPlain(s: string)
    requires Free(s, '"')
    ensures Tokens(s) == ([], s)
  {
    UpToFirstQuote(s, "");
  }

  /** The text whose tokens are given. */
  function Woven(ts: seq<Token>, tail: string): string {
    if ts == [] then tail
    else ts[0].before + (QUOTE + (ts[0].value + (QUOTE + Woven(ts[1..], tail))))
  }

  predicate PlainToken(t: Token) {
    Free(t.before, '"') && Free(t.value, '"')
  }

  lemma {:induction false} TokensOfWoven(ts: seq<Token>, tail: string)
    requires Free(tail, '"') && AllPlain(ts)
    ensures Tokens(Woven(ts, tail)) == (ts, tail)
    decreases |ts|
  {
    hide Tokens, Free;
    if ts == [] {
      TokensOfPlain(tail);
    } else {
      assert PlainToken(ts[0]);
      TokensOfWoven(ts[1..], tail);
      TokensOfQuoted(ts[0].before, ts[0].value, Woven(ts[1..], tail));
      assert ts == [ts[0]] + ts[1..];
    }
  }

  lemma FiveConcat(a: string, b: string, c: string, d: string, e: string, f: string)
    ensures a + (b + (c + (d + e))) + f == a + (b + (c + (d + (e + f))))
  {
    assert d + (e + f) == d + e + f;
    assert c + (d + e + f) == c + (d + e) + f;
    assert b + (c + (d + e) + f) == b + (c + (d + e)) + f;
  }

  lemma {:induction false} WovenMore(ts: seq<Token>, tail: string, text: string)
    ensures Woven(ts, tail) + text == Woven(ts, tail + text)
    decreases |ts|
  {
    if ts != [] {
      WovenMore(ts[1..], tail, text);
      FiveConcat(ts[0].before, QUOTE, ts[0].value, QUOTE, Woven(ts[1..], tail), text);
    }
  }

  lemma WovenOne(t: Token, tail: string)
    ensures Woven([t], tail) == t.before + (QUOTE + (t.value + (QUOTE + tail)))
  {
    assert [t][1..] == [];
  }

  lemma {:induction false} WovenJoin(a: seq<Token>, b: seq<Token>, tail: string)
    ensures Woven(a + b, tail) == Woven(a, Woven(b, tail))
    decreases |a|
  {
    if a == [] {
      assert a + b == b;
    } else {
      assert (a + b)[1..] == a[1..] + b;
      WovenJoin(a[1..], b, tail);
    }
  }

  lemma QuotedIs(before: string, value: string, after: string)
    ensures Quoted(before, value, after) == before + (QUOTE + (value + (QUOTE + after)))
  {
    assert before + QUOTE + value + QUOTE + after == before + (QUOTE + (value + (QUOTE + after)));
  }

  /** One more quoted value behind a text. */
  lemma WovenThen(ts: seq<Token>, tail: string, before: string, value: string, after: string)
    ensures Woven(ts, tail) + Quoted(before, value, after) == Woven(ts + [Token(tail + before, value)], after)
  {
    hide Woven, Quoted;
    var text := QUOTE + (value + (QUOTE + after));
    QuotedIs(before, value, after);
    WovenMore(ts, tail, before + text);
    assert tail + (before + text) == (tail + before) + text;
    WovenOne(Token(tail + before, value), after);
    WovenJoin(ts, [Token(tail + before, value)], after);
  }

  // ---- the tokens of a rendered configuration ----

  function DomainTokens(c: Config): seq<Token> {
    if c.tlsBackend != "" then
      [Token(Head(c) + "\ndomain = [{ name = ", DomainName(c)), Token("" + ", backend = ", c.tlsBackend)]
    else [Token(Head(c) + "\ndomain = ", DomainName(c))]
  }

  function AfterDomain(c: Config): string {
    if c.tlsBackend != "" then " }]" else ""
  }

  function UpstreamTokens(c: Config): seq<Token> {
    if c.socks5Addr != "" then [Token(AfterDomain(c) + "\nsocks5 = ", Socks5Url(c))] else []
  }

  function AfterUpstream(c: Config): string {
    if c.socks5Addr != "" then "" else AfterDomain(c)
  }

  function BeforeUsers(c: Config): string {
    AfterUpstream(c) + (Ja4Part(c) + "\n")
  }

  function UserTokens(tail: string, users: seq<UserEntry>): seq<Token>
    decreases |users|
  {
    if users == [] then []
    else
      [Token(tail + "\n[[secret]]\nkey = ", users[0].secret), Token("" + "\nlabel = ", users[0].userLabel)]
      + UserTokens("\n", users[1..])
  }

  function AfterUsers(tail: string, users: seq<UserEntry>): string {
    if users == [] then tail else "\n"
  }

  function TokensOf(c: Config): seq<Token> {
    DomainTokens(c) + UpstreamTokens(c) + UserTokens(BeforeUsers(c), c.users)
  }

  lemma TwoMore(ts: seq<Token>, tail: string, b1: string, v1: string, b2: string, v2: string, after: string)
    ensures Woven(ts, tail) + (Quoted(b1, v1, "") + Quoted(b2, v2, after))
            == Woven(ts + [Token(tail + b1, v1), Token("" + b2, v2)], after)
  {
    hide Woven, Quoted;
    var one := ts + [Token(tail + b1, v1)];
    WovenThen(ts, tail, b1, v1, "");
    WovenThen(one, "", b2, v2, after);
    assert one + [Token("" + b2, v2)] == ts + [Token(tail + b1, v1), Token("" + b2, v2)];
    Reassociate(Woven(ts, tail), Quoted(b1, v1, ""), Quoted(b2, v2, after));
  }

  lemma {:induction false} UsersPartOfFirst(users: seq<UserEntry>)
    requires users != []
    ensures UsersPart(users) == UserPart(users[0]) + UsersPart(users[1..])
    decreases |users|
  {
    hide UserPart;
    var n := |users| - 1;
    if n == 0 {
      assert users[..0] == [] && users[1..] == [];
      assert "" + UserPart(users[0]) == UserPart(users[0]) + "";
    } else {
      UsersPartOfFirst(users[..n]);
      assert users[..n][1..] == users[1..][..n - 1];
      assert users[1..][n - 1] == users[n];
      Reassociate(UserPart(users[0]), UsersPart(users[1..][..n - 1]), UserPart(users[n]));
    }
  }

  lemma {:induction false} UsersWoven(ts: seq<Token>, tail: string, users: seq<UserEntry>)
    ensures Woven(ts, tail) + UsersPart(users) == Woven(ts + UserTokens(tail, users), AfterUsers(tail, users))
    decreases |users|
  {
    hide Woven, Quoted, UsersPart;
    if users == [] {
      assert UsersPart(users) == "" by { NoUsersPart(users); }
      assert ts + [] == ts;
      assert Woven(ts, tail) + "" == Woven(ts, tail);
    } else {
      var u := users[0];
      var pair := [Token(tail + "\n[[secret]]\nkey = ", u.secret), Token("" + "\nlabel = ", u.userLabel)];
      UsersPartOfFirst(users);
      Reassociate(Woven(ts, tail), UserPart(u), UsersPart(users[1..]));
      TwoMore(ts, tail, "\n[[secret]]\nkey = ", u.secret, "\nlabel = ", u.userLabel, "\n");
      UsersWoven(ts + pair, "\n", users[1..]);
      assert ts + pair + UserTokens("\n", users[1..]) == ts + (pair + UserTokens("\n", users[1..]));
    }
  }

  lemma NoUsersPart(users: seq<UserEntry>)
    requires users == []
    ensures UsersPart(users) == ""
  {
  }

  lemma DomainWoven(c: Config)
    ensures Head(c) + DomainPart(c) == Woven(DomainTokens(c), AfterDomain(c))
  {
    hide Head, Quoted, Woven, DomainName;
    assert Woven([], Head(c)) == Head(c) by { WovenNothing(Head(c)); }
    if c.tlsBackend != "" {
      TwoMore([], Head(c), "\ndomain = [{ name = ", DomainName(c), ", backend = ", c.tlsBackend, " }]");
      assert [] + DomainTokens(c) == DomainTokens(c);
    } else {
      WovenThen([], Head(c), "\ndomain = ", DomainName(c), "");
      assert [] + DomainTokens(c) == DomainTokens(c);
    }
  }

  lemma WovenNothing(tail: string)
    ensures Woven([], tail) == tail
  {
  }

  lemma UpstreamWoven(c: Config)
    ensures Woven(DomainTokens(c), AfterDomain(c)) + Socks5Part(c)
            == Woven(DomainTokens(c) + UpstreamTokens(c), AfterUpstream(c))
  {
    hide Head, Quoted, Woven, DomainTokens, AfterDomain, Socks5Url;
    if c.socks5Addr != "" {
      WovenThen(DomainTokens(c), AfterDomain(c), "\nsocks5 = ", Socks5Url(c), "");
    } else {
      assert DomainTokens(c) + [] == DomainTokens(c);
      assert Woven(DomainTokens(c), AfterDomain(c)) + "" == Woven(DomainTokens(c), AfterDomain(c));
    }
  }

  lemma RenderIsWoven(c: Config)
    ensures Render(c) == Woven(TokensOf(c), AfterUsers(BeforeUsers(c), c.users))
  {
    hide Head, DomainPart, Socks5Part, Ja4Part, UsersPart, Woven, DomainTokens, UpstreamTokens, UserTokens;
    hide AfterDomain, AfterUpstream, AfterUsers;
    var front := DomainTokens(c) + UpstreamTokens(c);
    DomainWoven(c);
    UpstreamWoven(c);
    WovenMore(front, AfterUpstream(c), Ja4Part(c) + "\n");
    UsersWoven(front, BeforeUsers(c), c.users);
    Reassociate(Head(c) + DomainPart(c) + Socks5Part(c), Ja4Part(c), "\n");
  }

  // ---- no quotes outside the values ----

  lemma TokensArePlain(c: Config)
    requires QuoteFree(c)
    ensures AllPlain(TokensOf(c)) && Free(AfterUsers(BeforeUsers(c), c.users), '"')
  {
    hide Head, Ja4Part, Free, DomainName, Socks5Url, UserTokens, AllPlain, DomainTokens, UpstreamTokens;
    HeadIsQuoteFree(c);
    OtherTextIsQuoteFree();
    DomainIsPlain(c);
    UpstreamIsPlain(c);
    FreeConcat(AfterUpstream(c), Ja4Part(c) + "\n", '"');
    UserTokensArePlain(BeforeUsers(c), c.users);
    PlainConcat(DomainTokens(c), UpstreamTokens(c));
    PlainConcat(DomainTokens(c) + UpstreamTokens(c), UserTokens(BeforeUsers(c), c.users));
  }

  lemma DomainIsPlain(c: Config)
    requires QuoteFree(c)
    ensures AllPlain(DomainTokens(c))
  {
    hide Head, Free, DomainName;
    HeadIsQuoteFree(c);
    NameDirective();
    BackendDirective();
    DomainDirective();
    OtherTextIsQuoteFree();
    FreeConcat(Head(c), "\ndomain = [{ name = ", '"');
    FreeConcat(Head(c), "\ndomain = ", '"');
    FreeConcat("", ", backend = ", '"');
  }

  lemma UpstreamIsPlain(c: Config)
    requires QuoteFree(c)
    ensures AllPlain(UpstreamTokens(c))
  {
    hide Free, Socks5Url;
    OtherTextIsQuoteFree();
    UrlIsQuoteFree(c);
    FreeConcat(AfterDomain(c), "\nsocks5 = ", '"');
  }

  lemma OtherTextIsQuoteFree()
    ensures Free("", '"') && Free("\n", '"') && Free(" }]", '"') && Free("\nsocks5 = ", '"')
  {
  }

  lemma UrlIsQuoteFree(c: Config)
    requires Free(c.socks5Addr, '"')
    ensures Free(Socks5Url(c), '"')
  {
  }

  ghost predicate AllPlain(ts: seq<Token>) {
    forall i :: 0 <= i < |ts| ==> PlainToken(ts[i])
  }

  lemma PlainConcat(a: seq<Token>, b: seq<Token>)
    requires AllPlain(a) && AllPlain(b)
    ensures AllPlain(a + b)
  {
    hide PlainToken;
  }

  lemma UserPairIsPlain(tail: string, u: UserEntry)
    requires Free(tail, '"') && Free(u.secret, '"') && Free(u.userLabel, '"')
    ensures AllPlain([Token(tail + "\n[[secret]]\nkey = ", u.secret), Token("" + "\nlabel = ", u.userLabel)])
  {
    hide Free;
    KeyDirective();
    LabelDirective();
    OtherTextIsQuoteFree();
    FreeConcat(tail, "\n[[secret]]\nkey = ", '"');
    FreeConcat("", "\nlabel = ", '"');
  }

  lemma {:induction false} UserTokensArePlain(tail: string, users: seq<UserEntry>)
    requires Free(tail, '"')
    requires forall i :: 0 <= i < |users| ==> Free(users[i].secret, '"') && Free(users[i].userLabel, '"')
    ensures AllPlain(UserTokens(tail, users))
    decreases |users|
  {
    hide Free, AllPlain;
    if users == [] {
      NothingIsPlain();
    } else {
      OtherTextIsQuoteFree();
      UserPairIsPlain(tail, users[0]);
      UserTokensArePlain("\n", users[1..]);
      PlainConcat([Token(tail + "\n[[secret]]\nkey = ", users[0].secret), Token("" + "\nlabel = ", users[0].userLabel)],
                  UserTokens("\n", users[1..]));
    }
  }

  lemma NothingIsPlain()
    ensures AllPlain([])
  {
  }

  /** The tokens a reader finds are exactly those. */
  lemma TokensOfRender(c: Config)
    requires QuoteFree(c)
    ensures Tokens(Render(c)) == (TokensOf(c), AfterUsers(BeforeUsers(c), c.users))
  {
    hide Tokens, Render, TokensOf, QuoteFree, Free, AfterUsers, BeforeUsers;
    RenderIsWoven(c);
    TokensArePlain(c);
    TokensOfWoven(TokensOf(c), AfterUsers(BeforeUsers(c), c.users));
  }

  // ---- keys ----

  predicate Word(s: string) {
    forall i :: 0 <= i < |s| ==> WordChar(s[i])
  }

  lemma {:induction false} WordAtEnd(front: string, word: string)
    requires front == "" || !WordChar(front[|front| - 1])
    requires Word(word)
    ensures WordStart(front + word) == |front|
    decreases |word|
  {
    if word == "" {
      assert front + word == front;
    } else {
      var n := |word| - 1;
      assert (front + word)[..|front + word| - 1] == front + word[..n];
      WordAtEnd(front, word[..n]);
    }
  }

  lemma KeyIs(t: Token, front: string, word: string)
    requires t.before == front + (word + " = ") && Word(word)
    requires front != "" && !WordChar(front[|front| - 1])
    ensures KeyOf(t) == word
  {
    hide WordStart;
    var s := t.before[..|t.before| - 3];
    assert t.before[|t.before| - 3..] == " = ";
    assert s == front + word;
    WordAtEnd(front, word);
    assert s[|front|..] == word;
  }

  /** A directive ends in a key behind a character that is not part of a word. */
  lemma DirectiveKey(t: Token, tail: string, directive: string, stem: string, word: string)
    requires t.before == tail + directive && directive == stem + (word + " = ") && Word(word)
    requires stem != "" && !WordChar(stem[|stem| - 1])
    ensures KeyOf(t) == word
  {
    hide KeyOf, Word;
    assert tail + (stem + (word + " = ")) == (tail + stem) + (word + " = ");
    assert (tail + stem)[|tail + stem| - 1] == stem[|stem| - 1];
    KeyIs(t, tail + stem, word);
  }

  lemma Directives()
    ensures "\ndomain = [{ name = " == "\ndomain = [{ " + ("name" + " = ") && Word("name")
    ensures ", backend = " == ", " + ("backend" + " = ") && Word("backend")
    ensures "\ndomain = " == "\n" + ("domain" + " = ") && Word("domain")
  {
  }

  lemma MoreDirectives()
    ensures "\nsocks5 = " == "\n" + ("socks5" + " = ") && Word("socks5")
    ensures "\n[[secret]]\nkey = " == "\n[[secret]]\n" + ("key" + " = ") && Word("key")
    ensures "\nlabel = " == "\n" + ("label" + " = ") && Word("label")
  {
  }

  lemma KeysOfDomain(c: Config)
    ensures var ts := DomainTokens(c);
            if c.tlsBackend != "" then |ts| == 2 && KeyOf(ts[0]) == "name" && KeyOf(ts[1]) == "backend"
            else |ts| == 1 && KeyOf(ts[0]) == "domain"
  {
    hide KeyOf, Head, Word;
    Directives();
    var ts := DomainTokens(c);
    if c.tlsBackend != "" {
      DirectiveKey(ts[0], Head(c), "\ndomain = [{ name = ", "\ndomain = [{ ", "name");
      DirectiveKey(ts[1], "", ", backend = ", ", ", "backend");
    } else {
      DirectiveKey(ts[0], Head(c), "\ndomain = ", "\n", "domain");
    }
  }

  lemma KeysOfUpstream(c: Config)
    ensures c.socks5Addr != "" ==> KeyOf(UpstreamTokens(c)[0]) == "socks5"
  {
    hide KeyOf, Word, AfterDomain;
    MoreDirectives();
    if c.socks5Addr != "" {
      DirectiveKey(UpstreamTokens(c)[0], AfterDomain(c), "\nsocks5 = ", "\n", "socks5");
    }
  }

  lemma KeysOfUser(tail: string, users: seq<UserEntry>)
    requires users != []
    ensures var ts := UserTokens(tail, users);
            && |ts| >= 2 && KeyOf(ts[0]) == "key" && KeyOf(ts[1]) == "label" && StartsBlock(ts[0])
            && ts[0].value == users[0].secret && ts[1].value == users[0].userLabel
            && ts[2..] == UserTokens("\n", users[1..])
  {
    hide KeyOf, Word;
    MoreDirectives();
    var ts := UserTokens(tail, users);
    DirectiveKey(ts[0], tail, "\n[[secret]]\nkey = ", "\n[[secret]]\n", "key");
    DirectiveKey(ts[1], "", "\nlabel = ", "\n", "label");
    BlockStarts(tail);
  }

  lemma BlockStarts(tail: string)
    ensures HasSuffix(tail + "\n[[secret]]\nkey = ", "[[secret]]\nkey = ")
  {
    assert "\n[[secret]]\nkey = " == "\n" + "[[secret]]\nkey = ";
    assert tail + "\n[[secret]]\nkey = " == (tail + "\n") + "[[secret]]\nkey = ";
  }

  /** A value with another key starts no block. */
  lemma OtherKeyNoBlock(t: Token)
    requires StartsBlock(t)
    ensures KeyOf(t) == "key"
  {
    hide KeyOf;
    var n := |t.before| - |"[[secret]]\nkey = "|;
    BlockStem();
    assert t.before == t.before[..n] + "[[secret]]\nkey = ";
    DirectiveKey(t, t.before[..n], "[[secret]]\nkey = ", "[[secret]]\n", "key");
  }

  lemma BlockStem()
    ensures "[[secret]]\nkey = " == "[[secret]]\n" + ("key" + " = ") && Word("key")
  {
  }

  // ---- reading the values ----

  lemma {:induction false} UsersOfTokens(tail: string, users: seq<UserEntry>)
    ensures UsersOf(UserTokens(tail, users)) == users
    decreases |users|
  {
    hide UserTokens, KeyOf, StartsBlock;
    if users == [] {
      NoUserTokens(tail);
    } else {
      KeysOfUser(tail, users);
      UsersOfTokens("\n", users[1..]);
    }
  }

  lemma NoUserTokens(tail: string)
    ensures UserTokens(tail, []) == []
  {
  }

  lemma {:induction false} UsersBehind(front: seq<Token>, ts: seq<Token>)
    requires forall i :: 0 <= i < |front| ==> KeyOf(front[i]) != "key"
    ensures UsersOf(front + ts) == UsersOf(ts)
    decreases |front|
  {
    hide KeyOf, StartsBlock;
    if front == [] {
      assert front + ts == ts;
    } else {
      assert (front + ts)[1..] == front[1..] + ts;
      if StartsBlock(front[0]) { OtherKeyNoBlock(front[0]); }
      UsersBehind(front[1..], ts);
      if |front + ts| < 2 {
        assert ts == [];
      }
    }
  }

  lemma {:induction false} ValueBehind(front: seq<Token>, ts: seq<Token>, key: string)
    requires forall i :: 0 <= i < |front| ==> KeyOf(front[i]) != key
    ensures ValueOf(front + ts, key) == ValueOf(ts, key)
    decreases |front|
  {
    hide KeyOf;
    if front == [] {
      assert front + ts == ts;
    } else {
      assert (front + ts)[1..] == front[1..] + ts;
      ValueBehind(front[1..], ts, key);
    }
  }

  lemma {:induction false} NoValueOfUsers(tail: string, users: seq<UserEntry>, key: string)
    requires key != "key" && key != "label"
    ensures ValueOf(UserTokens(tail, users), key) == None
    decreases |users|
  {
    hide UserTokens, KeyOf;
    if users == [] {
      NoUserTokens(tail);
    } else {
      var ts := UserTokens(tail, users);
      KeysOfUser(tail, users);
      NoValueOfUsers("\n", users[1..], key);
      assert ts[1..][1..] == ts[2..];
    }
  }

  /** The keys in front of the secret blocks. */
  lemma FrontKeys(c: Config)
    ensures var front := DomainTokens(c) + UpstreamTokens(c);
            forall i :: 0 <= i < |front| ==>
              KeyOf(front[i]) == "name" || KeyOf(front[i]) == "backend" || KeyOf(front[i]) == "domain"
              || KeyOf(front[i]) == "socks5"
  {
    hide KeyOf, DomainTokens;
    KeysOfDomain(c);
    KeysOfUpstream(c);
  }

  /** Every user is read back, in order, the secret as the key and the label as the label. */
  lemma UsersReadBack(c: Config)
    requires QuoteFree(c)
    ensures UsersOf(Tokens(Render(c)).0) == c.users
  {
    hide Render, Tokens, KeyOf, UserTokens, DomainTokens, UpstreamTokens, UsersOf, QuoteFree, BeforeUsers, AfterUsers;
    TokensOfRender(c);
    FrontKeys(c);
    UsersBehind(DomainTokens(c) + UpstreamTokens(c), UserTokens(BeforeUsers(c), c.users));
    UsersOfTokens(BeforeUsers(c), c.users);
  }

  /** The domain and its backend are read back: the wildcard mask when there is one, the mask
      host otherwise. */
  lemma DomainReadsBack(c: Config)
    requires QuoteFree(c)
    ensures var ts := Tokens(Render(c)).0;
            var domain := if c.wildcardMask != "" then c.wildcardMask else c.maskHost;
            && ValueOf(ts, if c.tlsBackend != "" then "name" else "domain") == Some(domain)
            && ValueOf(ts, if c.tlsBackend != "" then "domain" else "name") == None
            && ValueOf(ts, "backend") == if c.tlsBackend != "" then Some(c.tlsBackend) else None
  {
    hide Render, Tokens, KeyOf, UserTokens, UpstreamTokens, QuoteFree, BeforeUsers, AfterUsers, Head;
    TokensOfRender(c);
    KeysOfDomain(c);
    KeysOfUpstream(c);
    var d, u, us := DomainTokens(c), UpstreamTokens(c), UserTokens(BeforeUsers(c), c.users);
    assert d + u + us == d + (u + us);
    NoValueOfUsers(BeforeUsers(c), c.users, "name");
    NoValueOfUsers(BeforeUsers(c), c.users, "domain");
    NoValueOfUsers(BeforeUsers(c), c.users, "backend");
    UpstreamIsOne(c);
    ValueBehind(u, us, "name");
    ValueBehind(u, us, "domain");
    ValueBehind(u, us, "backend");
    if c.tlsBackend != "" {
      ValueBehind(d, u + us, "domain");
      assert (d + (u + us))[1..][0] == d[1];
    } else {
      ValueBehind(d, u + us, "name");
      ValueBehind(d, u + us, "backend");
    }
  }

  lemma UpstreamIsOne(c: Config)
    ensures UpstreamTokens(c) == [] || (|UpstreamTokens(c)| == 1 && c.socks5Addr != "")
    ensures c.socks5Addr == "" ==> UpstreamTokens(c) == []
    ensures c.socks5Addr != "" ==> |UpstreamTokens(c)| == 1 && UpstreamTokens(c)[0].value == Socks5Url(c)
  {
  }

  /** The upstream is read back, with the scheme `socks5://` put in front of an address that
      has neither it nor `socks5h://`; without an address there is none. */
  lemma UpstreamReadsBack(c: Config)
    requires QuoteFree(c)
    ensures ValueOf(Tokens(Render(c)).0, "socks5")
            == if c.socks5Addr == "" then None
               else if "socks5://" <= c.socks5Addr || "socks5h://" <= c.socks5Addr then Some(c.socks5Addr)
               else Some("socks5://" + c.socks5Addr)
  {
    hide Render, Tokens, KeyOf, UserTokens, DomainTokens, UpstreamTokens, QuoteFree, BeforeUsers, AfterUsers;
    TokensOfRender(c);
    KeysOfDomain(c);
    KeysOfUpstream(c);
    UpstreamIsOne(c);
    var d, u, us := DomainTokens(c), UpstreamTokens(c), UserTokens(BeforeUsers(c), c.users);
    assert d + u + us == d + (u + us);
    ValueBehind(d, u + us, "socks5");
    NoValueOfUsers(BeforeUsers(c), c.users, "socks5");
    if c.socks5Addr == "" {
      assert u + us == us;
    }
  }

  // ---- the unquoted settings ----

  function PortLine(c: Config): string {
    "port = " + Itoa(c.port)
  }

  function StatsLine(c: Config): string {
    "stats_port = " + Itoa(c.statsPort)
  }

  function ClampLine(c: Config): string {
    "mss_clamp = " + Bool(c.mssClamp)
  }

  function HeadLines(c: Config): seq<string> {
    [PortLine(c), StatsLine(c), "http_stats = true", "direct = true", ClampLine(c),
     "dc_probe_interval = 60", "drain_timeout_secs = 60"]
  }

  lemma NamedLines()
    ensures "\nstats_port = " == "\n" + "stats_port = " && "\nmss_clamp = " == "\n" + "mss_clamp = "
    ensures "\nhttp_stats = true" == "\n" + "http_stats = true" && "\ndirect = true" == "\n" + "direct = true"
  {
  }

  lemma TimerLines()
    ensures "\ndc_probe_interval = 60" == "\n" + "dc_probe_interval = 60"
    ensures "\ndrain_timeout_secs = 60" == "\n" + "drain_timeout_secs = 60"
  {
  }

  /** The head, one line after another. */
  lemma HeadByLines(c: Config)
    ensures Head(c) == PortLine(c) + ("\n" + StatsLine(c)) + ("\n" + "http_stats = true") + ("\n" + "direct = true")
                       + ("\n" + ClampLine(c)) + ("\n" + "dc_probe_interval = 60") + ("\n" + "drain_timeout_secs = 60")
  {
    hide Itoa, Bool;
    NamedLines();
    TimerLines();
    var p := "port = " + Itoa(c.port);
    EndOfLine(p, "\n", "stats_port = ", Itoa(c.statsPort));
    var m := p + ("\n" + StatsLine(c)) + ("\n" + "http_stats = true") + ("\n" + "direct = true");
    EndOfLine(m, "\n", "mss_clamp = ", Bool(c.mssClamp));
  }

  lemma EndOfLine(s: string, end: string, name: string, value: string)
    ensures s + (end + name) + value == s + (end + (name + value))
  {
  }

  lemma NumberIsOneLine(name: string, n: int)
    requires OneLine(name)
    ensures OneLine(name + Itoa(n))
  {
    ItoaIsPlain(n, '\n');
  }

  lemma FixedLinesAreLines(b: bool)
    ensures OneLine("port = ") && OneLine("stats_port = ") && OneLine("http_stats = true") && OneLine("direct = true")
    ensures OneLine("mss_clamp = " + Bool(b))
  {
  }

  lemma TimersAreLines()
    ensures OneLine("dc_probe_interval = 60") && OneLine("drain_timeout_secs = 60")
  {
  }

  lemma LinesOfHead(c: Config)
    ensures LinesOf(Head(c)) == HeadLines(c)
  {
    hide LinesOf, OneLine, Itoa, Bool, Head;
    HeadByLines(c);
    FixedLinesAreLines(c.mssClamp);
    TimersAreLines();
    NumberIsOneLine("port = ", c.port);
    NumberIsOneLine("stats_port = ", c.statsPort);
    SevenLines(PortLine(c), StatsLine(c), "http_stats = true", "direct = true", ClampLine(c),
               "dc_probe_interval = 60", "drain_timeout_secs = 60");
  }

  lemma SevenLines(a: string, b: string, c: string, d: string, e: string, f: string, g: string)
    requires OneLine(a) && OneLine(b) && OneLine(c) && OneLine(d) && OneLine(e) && OneLine(f) && OneLine(g)
    ensures LinesOf(a + ("\n" + b) + ("\n" + c) + ("\n" + d) + ("\n" + e) + ("\n" + f) + ("\n" + g))
            == [a, b, c, d, e, f, g]
  {
    hide LinesOf, OneLine;
    LinesAfterFirst(a, "");
    var s2 := a + ("\n" + b);
    var s3 := s2 + ("\n" + c);
    var s4 := s3 + ("\n" + d);
    var s5 := s4 + ("\n" + e);
    var s6 := s5 + ("\n" + f);
    OneMoreLine(a, b);
    OneMoreLine(s2, c);
    OneMoreLine(s3, d);
    OneMoreLine(s4, e);
    OneMoreLine(s5, f);
    OneMoreLine(s6, g);
    assert [a] + [b] + [c] + [d] + [e] + [f] + [g] == [a, b, c, d, e, f, g];
  }

  /** The first value's directive, without its newline. */
  lemma DomainLines(c: Config)
    ensures exists line :: LinesOf(DomainTokens(c)[0].before) == HeadLines(c) + [line]
                           && (line == "domain = " || line == "domain = [{ name = ")
  {
    hide LinesOf, OneLine, Head, HeadLines;
    LinesOfHead(c);
    DomainStarts();
    var line := if c.tlsBackend != "" then "domain = [{ name = " else "domain = ";
    OneMoreLine(Head(c), line);
    assert LinesOf(DomainTokens(c)[0].before) == HeadLines(c) + [line];
  }

  lemma DomainStarts()
    ensures "\ndomain = " == "\n" + "domain = " && OneLine("domain = ")
    ensures "\ndomain = [{ name = " == "\n" + "domain = [{ name = " && OneLine("domain = [{ name = ")
  {
  }

  lemma SettingHere(ls: seq<string>, name: string, value: string)
    requires ls != [] && ls[0] == name + " = " + value
    ensures SettingOf(ls, name) == Some(value)
  {
    assert (name + " = " + value)[|name| + 3..] == value;
  }

  lemma SettingLater(ls: seq<string>, name: string)
    requires ls != [] && !HasPrefix(ls[0], name + " = ")
    ensures SettingOf(ls, name) == SettingOf(ls[1..], name)
  {
  }

  lemma {:induction false} SettingAt(ls: seq<string>, k: nat, name: string, value: string)
    requires k < |ls| && ls[k] == name + " = " + value
    requires forall j :: 0 <= j < k ==> !HasPrefix(ls[j], name + " = ")
    ensures SettingOf(ls, name) == Some(value)
    decreases k
  {
    hide HasPrefix, SettingOf;
    if k == 0 {
      SettingHere(ls, name, value);
    } else {
      SettingLater(ls, name);
      SettingAt(ls[1..], k - 1, name, value);
    }
  }

  lemma OtherFirst(line: string, other: string)
    requires line != "" && other != "" && line[0] != other[0]
    ensures !HasPrefix(line, other)
  {
  }

  lemma Starts(c: Config)
    ensures PortLine(c)[0] == 'p' && StatsLine(c)[0] == 's' && ClampLine(c)[0] == 'm'
    ensures PortLine(c) == "port" + " = " + Itoa(c.port)
    ensures StatsLine(c) == "stats_port" + " = " + Itoa(c.statsPort)
    ensures ClampLine(c) == "mss_clamp" + " = " + Bool(c.mssClamp)
  {
    hide Itoa, Bool;
    assert "port = " == "port" + " = " && "stats_port = " == "stats_port" + " = ";
    assert "mss_clamp = " == "mss_clamp" + " = ";
  }

  lemma IntOfItoa(n: int)
    ensures IntOf(Itoa(n)) == n
  {
    if n < 0 {
      DecimalOfItoa(-n);
      assert ("-" + Itoa(-n))[1..] == Itoa(-n);
    } else {
      DecimalOfItoa(n);
      ItoaIsDigits(n);
    }
  }

  /** The two ports and the clamp are read back from the lines in front of the first value;
      a removed user's sessions are closed after a minute. */
  lemma SettingsReadBack(c: Config)
    requires QuoteFree(c)
    ensures var ts := Tokens(Render(c)).0;
            && ts != []
            && var ls := LinesOf(ts[0].before);
            && SettingOf(ls, "port").Some? && IntOf(SettingOf(ls, "port").value) == c.port
            && SettingOf(ls, "stats_port").Some? && IntOf(SettingOf(ls, "stats_port").value) == c.statsPort
            && SettingOf(ls, "mss_clamp") == Some(if c.mssClamp then "true" else "false")
            && SettingOf(ls, "direct") == Some("true") && SettingOf(ls, "drain_timeout_secs") == Some("60")
  {
    hide Render, Tokens, QuoteFree, LinesOf, SettingOf, HasPrefix, IntOf, Itoa, UserTokens, UpstreamTokens;
    TokensOfRender(c);
    DomainLines(c);
    var ts := Tokens(Render(c)).0;
    assert ts[0] == DomainTokens(c)[0];
    SettingsOfLines(c, LinesOf(ts[0].before));
    IntOfItoa(c.port);
    IntOfItoa(c.statsPort);
  }

  lemma SettingsOfLines(c: Config, ls: seq<string>)
    requires |ls| >= 7 && ls[..7] == HeadLines(c)
    ensures SettingOf(ls, "port") == Some(Itoa(c.port))
    ensures SettingOf(ls, "stats_port") == Some(Itoa(c.statsPort))
    ensures SettingOf(ls, "mss_clamp") == Some(Bool(c.mssClamp))
    ensures SettingOf(ls, "direct") == Some("true") && SettingOf(ls, "drain_timeout_secs") == Some("60")
  {
    hide Itoa, Bool, SettingOf, HasPrefix, PortLine, StatsLine, ClampLine;
    Starts(c);
    assert forall j :: 0 <= j < 7 ==> ls[j] == HeadLines(c)[j];
    PortsAreFirst(ls, Itoa(c.port), Itoa(c.statsPort));
    ClampIsFourth(ls, Bool(c.mssClamp));
    DirectIsThird(ls);
    DrainIsSixth(ls);
  }

  lemma PortsAreFirst(ls: seq<string>, port: string, statsPort: string)
    requires |ls| >= 2 && ls[0] == "port" + " = " + port && ls[1] == "stats_port" + " = " + statsPort
    ensures SettingOf(ls, "port") == Some(port) && SettingOf(ls, "stats_port") == Some(statsPort)
  {
    hide SettingOf, HasPrefix;
    SettingAt(ls, 0, "port", port);
    OtherFirst(ls[0], "stats_port" + " = ");
    SettingAt(ls, 1, "stats_port", statsPort);
  }

  lemma ClampIsFourth(ls: seq<string>, value: string)
    requires |ls| >= 7 && ls[4] == "mss_clamp" + " = " + value
    requires forall j :: 0 <= j < 4 ==> ls[j] != "" && ls[j][0] != 'm'
    ensures SettingOf(ls, "mss_clamp") == Some(value)
  {
    hide SettingOf, HasPrefix;
    forall j | 0 <= j < 4
      ensures !HasPrefix(ls[j], "mss_clamp" + " = ")
    {
      OtherFirst(ls[j], "mss_clamp" + " = ");
    }
    SettingAt(ls, 4, "mss_clamp", value);
  }

  lemma DirectIsThird(ls: seq<string>)
    requires |ls| >= 7 && ls[3] == "direct = true"
    requires forall j :: 0 <= j < 3 ==> ls[j] != "" && ls[j][0] != 'd'
    ensures SettingOf(ls, "direct") == Some("true")
  {
    hide SettingOf, HasPrefix;
    forall j | 0 <= j < 3
      ensures !HasPrefix(ls[j], "direct" + " = ")
    {
      OtherFirst(ls[j], "direct" + " = ");
    }
    assert "direct = true" == "direct" + " = " + "true";
    SettingAt(ls, 3, "direct", "true");
  }

  lemma DrainIsSixth(ls: seq<string>)
    requires |ls| >= 7 && ls[3] == "direct = true" && ls[5] == "dc_probe_interval = 60"
    requires ls[6] == "drain_timeout_secs = 60"
    requires forall j :: 0 <= j < 5 && j != 3 ==> ls[j] != "" && ls[j][0] != 'd'
    ensures SettingOf(ls, "drain_timeout_secs") == Some("60")
  {
    hide SettingOf, HasPrefix;
    OtherSecond();
    forall j | 0 <= j < 6
      ensures !HasPrefix(ls[j], "drain_timeout_secs" + " = ")
    {
      if j != 3 && j != 5 { OtherFirst(ls[j], "drain_timeout_secs" + " = "); }
    }
    assert "drain_timeout_secs = 60" == "drain_timeout_secs" + " = " + "60";
    SettingAt(ls, 6, "drain_timeout_secs", "60");
  }

  lemma OtherSecond()
    ensures !HasPrefix("direct = true", "drain_timeout_secs" + " = ")
    ensures !HasPrefix("dc_probe_interval = 60", "drain_timeout_secs" + " = ")
  {
    assert "direct = true"[1] != ("drain_timeout_secs" + " = ")[1];
    assert "dc_probe_interval = 60"[1] != ("drain_timeout_secs" + " = ")[1];
  }

  // ---- the statistics line ----

  const JA4_LINE := "ja4_log = true"

  lemma LineOfConcat(a: string, b: string, line: string)
    ensures HasLine(a + ("\n" + b), line) <==> HasLine(a, line) || HasLine(b, line)
  {
    hide LinesOf;
    LinesConcat(a, b);
  }

  lemma LineOfOne(a: string, line: string)
    requires OneLine(a)
    ensures HasLine(a, line) <==> a == line
  {
    hide LinesOf;
    LinesAfterFirst(a, "");
  }

  lemma NotJa4(a: string)
    requires OneLine(a) && (a == "" || a[0] != 'j')
    ensures !HasLine(a, JA4_LINE)
  {
    LineOfOne(a, JA4_LINE);
  }

  lemma PieceLines()
    ensures "\n[[secret]]\nkey = " == "\n" + ("[[secret]]" + ("\n" + "key = "))
    ensures OneLine("[[secret]]") && OneLine("key = ")
    ensures "" + "\nlabel = " == "" + ("\n" + "label = ") && OneLine("label = ")
  {
  }

  lemma MorePieceLines()
    ensures "\nsocks5 = " == "\n" + "socks5 = " && OneLine("socks5 = ")
    ensures OneLine(" }]") && OneLine("") && OneLine(", backend = ") && "\n" == "" + ("\n" + "")
  {
  }

  lemma Ja4Lines()
    ensures "\n\n[stats]\nja4_log = true" + "\n"
            == "\n" + ("" + ("\n" + ("[stats]" + ("\n" + (JA4_LINE + ("\n" + ""))))))
    ensures OneLine("[stats]") && OneLine(JA4_LINE)
  {
  }

  lemma HeadHasNoJa4(c: Config)
    ensures !HasLine(DomainTokens(c)[0].before, JA4_LINE)
  {
    hide LinesOf, Itoa, Bool;
    DomainLines(c);
    Starts(c);
    hide PortLine, StatsLine, ClampLine;
    var line :| LinesOf(DomainTokens(c)[0].before) == HeadLines(c) + [line]
                && (line == "domain = " || line == "domain = [{ name = ");
    var ls := HeadLines(c) + [line];
    assert JA4_LINE[0] == 'j';
    forall i | 0 <= i < |ls|
      ensures ls[i] != JA4_LINE
    {
      assert ls[i][0] != 'j';
    }
  }

  lemma FrontHasNoJa4(c: Config, i: nat)
    requires i < |DomainTokens(c) + UpstreamTokens(c)|
    ensures !HasLine((DomainTokens(c) + UpstreamTokens(c))[i].before, JA4_LINE)
  {
    hide HasLine, OneLine, Head;
    MorePieceLines();
    HeadHasNoJa4(c);
    var d := |DomainTokens(c)|;
    if i >= d {
      LineOfConcat(AfterDomain(c), "socks5 = ", JA4_LINE);
      NotJa4(AfterDomain(c));
      NotJa4("socks5 = ");
    } else if i == 1 {
      assert "" + ", backend = " == ", backend = ";
      NotJa4(", backend = ");
    }
  }

  lemma Ja4OfTail(c: Config)
    ensures HasLine(BeforeUsers(c), JA4_LINE) <==> c.ja4Log
  {
    hide HasLine, OneLine;
    MorePieceLines();
    Ja4Lines();
    NotJa4(AfterUpstream(c));
    NotJa4("");
    NotJa4("[stats]");
    LineOfOne(JA4_LINE, JA4_LINE);
    if c.ja4Log {
      var rest := "" + ("\n" + ("[stats]" + ("\n" + (JA4_LINE + ("\n" + "")))));
      LineOfConcat(AfterUpstream(c), rest, JA4_LINE);
      LineOfConcat("", "[stats]" + ("\n" + (JA4_LINE + ("\n" + ""))), JA4_LINE);
      LineOfConcat("[stats]", JA4_LINE + ("\n" + ""), JA4_LINE);
      LineOfConcat(JA4_LINE, "", JA4_LINE);
    } else {
      assert Ja4Part(c) + "\n" == "\n" + "";
      LineOfConcat(AfterUpstream(c), "", JA4_LINE);
    }
  }

  lemma {:induction false} Ja4OfUsers(tail: string, users: seq<UserEntry>)
    ensures AnyLine(UserTokens(tail, users), AfterUsers(tail, users), JA4_LINE) <==> HasLine(tail, JA4_LINE)
    decreases |users|
  {
    hide HasLine, OneLine;
    if users == [] {
      NoUserTokens(tail);
    } else {
      var ts := UserTokens(tail, users);
      PieceLines();
      MorePieceLines();
      LineOfConcat(tail, "[[secret]]" + ("\n" + "key = "), JA4_LINE);
      LineOfConcat("[[secret]]", "key = ", JA4_LINE);
      LineOfConcat("", "label = ", JA4_LINE);
      LineOfConcat("", "", JA4_LINE);
      NotJa4("[[secret]]");
      NotJa4("key = ");
      NotJa4("label = ");
      NotJa4("");
      Ja4OfUsers("\n", users[1..]);
      AnyOfRest(ts, AfterUsers(tail, users));
    }
  }

  lemma AnyOfRest(ts: seq<Token>, tail: string)
    requires |ts| >= 2
    ensures AnyLine(ts, tail, JA4_LINE)
            <==> HasLine(ts[0].before, JA4_LINE) || HasLine(ts[1].before, JA4_LINE) || AnyLine(ts[2..], tail, JA4_LINE)
  {
    hide HasLine;
    assert forall i :: 2 <= i < |ts| ==> ts[i] == ts[2..][i - 2];
  }

  /** The statistics line stands outside all quotes exactly when it was asked for. */
  lemma Ja4ReadsBack(c: Config)
    requires QuoteFree(c)
    ensures var (ts, tail) := Tokens(Render(c)); AnyLine(ts, tail, "ja4_log = true") <==> c.ja4Log
  {
    hide Render, Tokens, QuoteFree, HasLine, UserTokens, AfterUsers, BeforeUsers, DomainTokens, UpstreamTokens;
    TokensOfRender(c);
    Ja4OfTail(c);
    Ja4OfUsers(BeforeUsers(c), c.users);
    var front, us := DomainTokens(c) + UpstreamTokens(c), UserTokens(BeforeUsers(c), c.users);
    var tail := AfterUsers(BeforeUsers(c), c.users);
    forall i | 0 <= i < |front|
      ensures !HasLine(front[i].before, JA4_LINE)
    {
      FrontHasNoJa4(c, i);
    }
    AnyBehind(front, us, tail);
  }

  lemma AnyBehind(front: seq<Token>, ts: seq<Token>, tail: string)
    requires forall i :: 0 <= i < |front| ==> !HasLine(front[i].before, JA4_LINE)
    ensures AnyLine(front + ts, tail, JA4_LINE) <==> AnyLine(ts, tail, JA4_LINE)
  {
    hide HasLine;
    var all := front + ts;
    if i :| 0 <= i < |all| && HasLine(all[i].before, JA4_LINE) {
      assert all[i] == ts[i - |front|];
    }
    if i :| 0 <= i < |ts| && HasLine(ts[i].before, JA4_LINE) {
      assert all[i + |front|] == ts[i];
    }
  }
}
