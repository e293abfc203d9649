/** teleproxy.toml: how it is rendered and how the running mode is read back from it. */
module Teleproxy {
  import opened Numbers
  import opened ProxyUsers
  import opened Text

  datatype Config = Config(
    port: int, maskHost: string, tlsBackend: string, wildcardMask: string, statsPort: int,
    socks5Addr: string, mssClamp: bool, ja4Log: bool, users: seq<UserEntry>)

  datatype Mode = Single | Bridge

  function DomainName(c: Config): string {
    if c.wildcardMask != "" then c.wildcardMask else c.maskHost
  }

  /** The upstream of the socks5 directive: a scheme is added when the address has none. */
  function Socks5Url(c: Config): string {
    if c.socks5Addr == "" then ""
    else if HasPrefix(c.socks5Addr, "socks5://") || HasPrefix(c.socks5Addr, "socks5h://") then c.socks5Addr
    else "socks5://" + c.socks5Addr
  }

  function Bool(b: bool): string {
    if b then "true" else "false"
  }

  const QUOTE := "\""

  /** A quoted value, its directive before it and the text after it. */
  function Quoted(before: string, value: string, after: string): string {
    before + QUOTE + value + QUOTE + after
  }

  function Head(c: Config): string {
    "port = " + Itoa(c.port) + "\nstats_port = " + Itoa(c.statsPort)
    + "\nhttp_stats = true" + "\ndirect = true" + "\nmss_clamp = " + Bool(c.mssClamp)
    + "\ndc_probe_interval = 60" + "\ndrain_timeout_secs = 60"
  }

  function DomainPart(c: Config): string {
    if c.tlsBackend != "" then
      Quoted("\ndomain = [{ name = ", DomainName(c), "") + Quoted(", backend = ", c.tlsBackend, " }]")
    else Quoted("\ndomain = ", DomainName(c), "")
  }

  function Socks5Part(c: Config): string {
    if c.socks5Addr != "" then Quoted("\nsocks5 = ", Socks5Url(c), "") else ""
  }

  function Ja4Part(c: Config): string {
    if c.ja4Log then "\n\n[stats]\nja4_log = true" else ""
  }

  function UserPart(u: UserEntry): string {
    Quoted("\n[[secret]]\nkey = ", u.secret, "") + Quoted("\nlabel = ", u.userLabel, "\n")
  }

  function UsersPart(users: seq<UserEntry>): string {
    if users == [] then ""
    else UsersPart(users[..|users| - 1]) + UserPart(users[|users| - 1])
  }

  /** Config.Render */
  function Render(c: Config): string {
    Head(c) + DomainPart(c) + Socks5Part(c) + Ja4Part(c) + "\n" + UsersPart(c.users)
  }

  lemma UpstreamIsInOnePart(c: Config, addr: string)
    ensures var d := c.(socks5Addr := addr);
            Head(d) == Head(c) && DomainPart(d) == DomainPart(c) && Ja4Part(d) == Ja4Part(c)
  {
    hide Itoa, Bool, Quoted;
  }

  lemma LongerWithUpstream(c: Config, addr: string)
    requires c.socks5Addr == "" && addr != ""
    ensures |Render(c.(socks5Addr := addr))| > |Render(c)|
  {
    hide Head, DomainPart, Ja4Part, UsersPart, Socks5Url;
    UpstreamIsInOnePart(c, addr);
  }

  const SOCKS5_STEM := "socks5 = "

  /** DetectMode on the contents of the file. */
  function DetectMode(contents: string): Mode {
    if Contains(contents, SOCKS5_STEM + QUOTE) then Bridge else Single
  }

  // ---- reading the mode back ----

  predicate QuoteFree(c: Config) {
    && Free(DomainName(c), '"') && Free(c.tlsBackend, '"') && Free(c.socks5Addr, '"')
    && forall i :: 0 <= i < |c.users| ==> Free(c.users[i].secret, '"') && Free(c.users[i].userLabel, '"')
  }

  /** A rendered field ends in the very text that introduces the socks5 directive. */
  predicate FieldMimicsSocks5(c: Config) {
    || HasSuffix(DomainName(c), SOCKS5_STEM)
    || HasSuffix(c.tlsBackend, SOCKS5_STEM)
    || AnyUserMimicsSocks5(c.users)
  }

  predicate UserMimicsSocks5(u: UserEntry) {
    HasSuffix(u.secret, SOCKS5_STEM) || HasSuffix(u.userLabel, SOCKS5_STEM)
  }

  /** Text up to and including the latest quote, if any, and the text after it. */
  predicate Split(t: string, tail: string) {
    (t == "" || t[|t| - 1] == '"') && Free(tail, '"')
  }

  /** Appending a quoted value adds a match exactly when its directive or the value
      itself ends like the socks5 directive. */
  lemma AppendQuoted(t: string, tail: string, before: string, value: string, after: string)
      returns (t': string)
    requires Split(t, tail) && Free(before, '"') && Free(value, '"') && Free(after, '"')
    requires |before| >= |SOCKS5_STEM|
    ensures t + tail + Quoted(before, value, after) == t' + after && Split(t', after)
    ensures Contains(t', SOCKS5_STEM + QUOTE)
            <==> Contains(t, SOCKS5_STEM + QUOTE)
                 || HasSuffix(before, SOCKS5_STEM) || HasSuffix(value, SOCKS5_STEM)
  {
    hide Contains, HasSuffix;
    var opened' := t + (tail + before) + QUOTE;
    t' := opened' + value + QUOTE;
    FreeConcat(tail, before, '"');
    MarkAddsSuffixMatch(t, tail + before, SOCKS5_STEM, '"');
    MarkAddsSuffixMatch(opened', value, SOCKS5_STEM, '"');
    SuffixOfConcat(tail, before, SOCKS5_STEM);
    assert t + tail + Quoted(before, value, after) == t' + after;
  }

  lemma SuffixOfConcat(a: string, b: string, suffix: string)
    requires |suffix| <= |b|
    ensures HasSuffix(a + b, suffix) <==> HasSuffix(b, suffix)
  {
    assert (a + b)[|a + b| - |suffix|..] == b[|b| - |suffix|..];
  }

  /** The text before a quoted value that is not the socks5 directive. */
  predicate OtherDirective(before: string) {
    Free(before, '"') && |before| >= |SOCKS5_STEM| && !HasSuffix(before, SOCKS5_STEM)
  }

  lemma EndsOtherwise(before: string, n: nat, c: char)
    requires n >= |SOCKS5_STEM| && |before| == n && before[n - 4] == c && c != '5' && Free(before, '"')
    ensures OtherDirective(before)
  {
    assert |SOCKS5_STEM| == 9 && SOCKS5_STEM[5] == '5';
    assert before[n - 9..][5] == before[n - 4];
  }

  lemma KeyDirective()
    ensures OtherDirective("\n[[secret]]\nkey = ")
  {
    hide OtherDirective;
    EndsOtherwise("\n[[secret]]\nkey = ", 18, 'y');
  }

  lemma LabelDirective()
    ensures OtherDirective("\nlabel = ")
  {
    hide OtherDirective;
    EndsOtherwise("\nlabel = ", 9, 'l');
  }

  lemma NameDirective()
    ensures OtherDirective("\ndomain = [{ name = ")
  {
    hide OtherDirective;
    EndsOtherwise("\ndomain = [{ name = ", 20, 'e');
  }

  lemma BackendDirective()
    ensures OtherDirective(", backend = ")
  {
    hide OtherDirective;
    EndsOtherwise(", backend = ", 12, 'd');
  }

  lemma DomainDirective()
    ensures OtherDirective("\ndomain = ")
  {
    hide OtherDirective;
    EndsOtherwise("\ndomain = ", 10, 'n');
  }

  /** Two quoted values in a row add a match exactly when one of them ends like the
      socks5 directive. */
  lemma AppendTwo(t: string, tail: string, before1: string, value1: string,
                  before2: string, value2: string, after: string) returns (t': string)
    requires Split(t, tail) && OtherDirective(before1) && OtherDirective(before2)
    requires Free(value1, '"') && Free(value2, '"') && Free(after, '"')
    ensures t + tail + (Quoted(before1, value1, "") + Quoted(before2, value2, after)) == t' + after
    ensures Split(t', after)
    ensures Contains(t', SOCKS5_STEM + QUOTE)
            <==> Contains(t, SOCKS5_STEM + QUOTE) || HasSuffix(value1, SOCKS5_STEM) || HasSuffix(value2, SOCKS5_STEM)
  {
    hide Contains, HasSuffix, Quoted;
    var first, second := Quoted(before1, value1, ""), Quoted(before2, value2, after);
    var t1 := AppendQuoted(t, tail, before1, value1, "");
    t' := AppendQuoted(t1, "", before2, value2, after);
    assert t1 + "" == t1;
    Reassociate(t + tail, first, second);
  }

  lemma Reassociate(a: string, b: string, c: string)
    ensures a + b + c == a + (b + c)
  {
  }

  lemma AppendUser(t: string, tail: string, u: UserEntry) returns (t': string)
    requires Split(t, tail) && Free(u.secret, '"') && Free(u.userLabel, '"')
    ensures t + tail + UserPart(u) == t' + "\n" && Split(t', "\n")
    ensures Contains(t', SOCKS5_STEM + QUOTE)
            <==> Contains(t, SOCKS5_STEM + QUOTE) || UserMimicsSocks5(u)
  {
    hide Contains, HasSuffix, Quoted, OtherDirective;
    KeyDirective();
    LabelDirective();
    t' := AppendTwo(t, tail, "\n[[secret]]\nkey = ", u.secret, "\nlabel = ", u.userLabel, "\n");
  }

  lemma NoUserMimics(users: seq<UserEntry>)
    requires users == []
    ensures !AnyUserMimicsSocks5(users)
  {
  }

  lemma AnyOfLast(users: seq<UserEntry>)
    requires users != []
    ensures AnyUserMimicsSocks5(users)
            <==> AnyUserMimicsSocks5(users[..|users| - 1]) || UserMimicsSocks5(users[|users| - 1])
  {
  }

  predicate AnyUserMimicsSocks5(users: seq<UserEntry>) {
    exists i :: 0 <= i < |users| && UserMimicsSocks5(users[i])
  }

  lemma {:induction false} AppendUsers(t: string, tail: string, users: seq<UserEntry>)
      returns (t': string, tail': string)
    requires Split(t, tail)
    requires forall i :: 0 <= i < |users| ==> Free(users[i].secret, '"') && Free(users[i].userLabel, '"')
    ensures t + tail + UsersPart(users) == t' + tail' && Split(t', tail')
    ensures Contains(t', SOCKS5_STEM + QUOTE)
            <==> Contains(t, SOCKS5_STEM + QUOTE) || AnyUserMimicsSocks5(users)
    decreases |users|
  {
    hide UserPart, UserMimicsSocks5, Contains, AnyUserMimicsSocks5;
    if users == [] {
      NoUserMimics(users);
      t', tail' := t, tail;
    } else {
      var init, last := users[..|users| - 1], users[|users| - 1];
      var t1, tail1 := AppendUsers(t, tail, init);
      t' := AppendUser(t1, tail1, last);
      tail' := "\n";
      assert t + tail + UsersPart(users) == (t + tail + UsersPart(init)) + UserPart(last);
      AnyOfLast(users);
    }
  }

  lemma AppendDomain(t: string, tail: string, c: Config) returns (t': string, tail': string)
    requires Split(t, tail) && QuoteFree(c)
    ensures t + tail + DomainPart(c) == t' + tail' && Split(t', tail')
    ensures Contains(t', SOCKS5_STEM + QUOTE)
            <==> Contains(t, SOCKS5_STEM + QUOTE)
                 || HasSuffix(DomainName(c), SOCKS5_STEM) || HasSuffix(c.tlsBackend, SOCKS5_STEM)
  {
    hide Contains, HasSuffix, Quoted, OtherDirective, DomainName;
    NameDirective();
    BackendDirective();
    DomainDirective();
    if c.tlsBackend != "" {
      tail' := " }]";
      t' := AppendTwo(t, tail, "\ndomain = [{ name = ", DomainName(c), ", backend = ", c.tlsBackend, tail');
    } else {
      tail' := "";
      EmptyMimicsNothing();
      t' := AppendPlain(t, tail, "\ndomain = ", DomainName(c));
    }
  }

  lemma EmptyMimicsNothing()
    ensures !HasSuffix("", SOCKS5_STEM)
  {
  }

  lemma AppendPlain(t: string, tail: string, before: string, value: string) returns (t': string)
    requires Split(t, tail) && OtherDirective(before) && Free(value, '"')
    ensures t + tail + Quoted(before, value, "") == t' + "" && Split(t', "")
    ensures Contains(t', SOCKS5_STEM + QUOTE)
            <==> Contains(t, SOCKS5_STEM + QUOTE) || HasSuffix(value, SOCKS5_STEM)
  {
    hide Contains, HasSuffix, Quoted;
    t' := AppendQuoted(t, tail, before, value, "");
  }

  lemma AppendSocks5(t: string, tail: string, c: Config) returns (t': string, tail': string)
    requires Split(t, tail) && QuoteFree(c)
    ensures t + tail + Socks5Part(c) == t' + tail' && Split(t', tail')
    ensures Contains(t', SOCKS5_STEM + QUOTE)
            <==> Contains(t, SOCKS5_STEM + QUOTE) || c.socks5Addr != ""
  {
    if c.socks5Addr != "" {
      var directive := "\nsocks5 = ";
      assert HasSuffix(directive, SOCKS5_STEM);
      tail' := "";
      t' := AppendQuoted(t, tail, directive, Socks5Url(c), "");
    } else {
      t', tail' := t, tail;
    }
  }

  lemma HeadIsQuoteFree(c: Config)
    ensures Free(Head(c), '"') && Free(Ja4Part(c) + "\n", '"')
  {
    ItoaIsPlain(c.port, '"');
    ItoaIsPlain(c.statsPort, '"');
    DirectivesAreQuoteFree();
    TimersAreQuoteFree();
    SwitchesAreQuoteFree(c.mssClamp, c);
    hide Free, Itoa, Bool;
    var s1 := "port = " + Itoa(c.port);
    var s2 := s1 + "\nstats_port = " + Itoa(c.statsPort);
    var s3 := s2 + "\nhttp_stats = true" + "\ndirect = true";
    var s4 := s3 + "\nmss_clamp = " + Bool(c.mssClamp);
    FreeConcat("port = ", Itoa(c.port), '"');
    FreeConcat(s1, "\nstats_port = ", '"');
    FreeConcat(s1 + "\nstats_port = ", Itoa(c.statsPort), '"');
    FreeConcat(s2, "\nhttp_stats = true", '"');
    FreeConcat(s2 + "\nhttp_stats = true", "\ndirect = true", '"');
    FreeConcat(s3, "\nmss_clamp = ", '"');
    FreeConcat(s3 + "\nmss_clamp = ", Bool(c.mssClamp), '"');
    FreeConcat(s4, "\ndc_probe_interval = 60", '"');
    FreeConcat(s4 + "\ndc_probe_interval = 60", "\ndrain_timeout_secs = 60", '"');
    FreeConcat(Ja4Part(c), "\n", '"');
  }

  lemma DirectivesAreQuoteFree()
    ensures Free("port = ", '"') && Free("\nstats_port = ", '"') && Free("\n", '"')
    ensures Free("\nhttp_stats = true", '"') && Free("\ndirect = true", '"') && Free("\nmss_clamp = ", '"')
  {
  }

  lemma TimersAreQuoteFree()
    ensures Free("\ndc_probe_interval = 60", '"') && Free("\ndrain_timeout_secs = 60", '"')
  {
  }

  lemma SwitchesAreQuoteFree(b: bool, c: Config)
    ensures Free(Bool(b), '"') && Free(Ja4Part(c), '"')
  {
    FreeConcat("\n\n[stats]", "\nja4_log = true", '"');
    assert "\n\n[stats]" + "\nja4_log = true" == "\n\n[stats]\nja4_log = true";
  }

  /** For a configuration whose fields contain no quote, the mode read back is Bridge
      exactly when an upstream is configured, or some field ends in `socks5 = `: the
      detector looks for that text before any quote. */
  lemma DetectModeOfRender(c: Config)
    requires QuoteFree(c)
    ensures DetectMode(Render(c)) == Bridge <==> c.socks5Addr != "" || FieldMimicsSocks5(c)
  {
    hide Head, DomainPart, Socks5Part, Ja4Part, UsersPart, Contains, HasSuffix, AnyUserMimicsSocks5, Free;
    HeadIsQuoteFree(c);
    NothingInEmpty();
    var t1, tail1 := AppendDomain("", Head(c), c);
    var t2, tail2 := AppendSocks5(t1, tail1, c);
    var mid := Ja4Part(c) + "\n";
    FreeConcat(tail2, mid, '"');
    var t4, tail4 := AppendUsers(t2, tail2 + mid, c.users);
    Reassociate(t2, tail2, mid);
    Reassociate(Head(c) + DomainPart(c) + Socks5Part(c), Ja4Part(c), "\n");
    assert "" + Head(c) == Head(c);
    assert Render(c) == t4 + tail4;
    MarkFreeTextAddsNothing(t4, tail4, SOCKS5_STEM, '"');
  }

  lemma NothingInEmpty()
    ensures !Contains("", SOCKS5_STEM + QUOTE)
  {
  }

  /** The documented precondition of Render, no quotes and no newlines in its fields, is
      not enough: this Single configuration meets it and reads back as Bridge. */
  lemma DocumentedPreconditionIsTooWeak()
    ensures var c := Config(443, "socks5 = ", "", "", 9091, "", true, true, []);
            QuoteFree(c) && Free(c.maskHost, '\n') && DetectMode(Render(c)) == Bridge
  {
    var c := Config(443, "socks5 = ", "", "", 9091, "", true, true, []);
    hide Render, DetectMode;
    assert HasSuffix(DomainName(c), SOCKS5_STEM);
    DetectModeOfRender(c);
  }

  predicate SpaceFree(c: Config) {
    && Free(DomainName(c), ' ') && Free(c.tlsBackend, ' ')
    && forall i :: 0 <= i < |c.users| ==> Free(c.users[i].secret, ' ') && Free(c.users[i].userLabel, ' ')
  }

  /** Fields free of quotes and spaces, which host names, hex secrets and validated
      labels are, always read back as the mode they were rendered for. */
  lemma DetectModeInvertsRender(c: Config)
    requires QuoteFree(c) && SpaceFree(c)
    ensures DetectMode(Render(c)) == if c.socks5Addr != "" then Bridge else Single
  {
    hide HasSuffix, Render;
    DetectModeOfRender(c);
    SpaceFreeNeverMimics(DomainName(c));
    SpaceFreeNeverMimics(c.tlsBackend);
    forall i | 0 <= i < |c.users|
      ensures !UserMimicsSocks5(c.users[i])
    {
      SpaceFreeNeverMimics(c.users[i].secret);
      SpaceFreeNeverMimics(c.users[i].userLabel);
    }
  }

  lemma SpaceFreeNeverMimics(s: string)
    ensures HasSuffix(s, SOCKS5_STEM) ==> !Free(s, ' ')
  {
    if HasSuffix(s, SOCKS5_STEM) {
      assert s[|s| - |SOCKS5_STEM|..][|SOCKS5_STEM| - 1] == s[|s| - 1];
      assert SOCKS5_STEM[|SOCKS5_STEM| - 1] == ' ';
      assert s[|s| - 1] in s;
    }
  }
}
