/** The mode across reloads: a reload renders teleproxy.toml for the mode it reads from the
    very file it is about to overwrite. */
module ReloadMode {
  import opened Options
  import opened ProxyUsers
  import opened Teleproxy
  import opened Text

  const SOCKS5_ADDR := "127.0.0.1:1080"

  /** currentMode: the activity of sing-box counts only when there is no readable file. */
  function CurrentMode(file: Option<string>, singboxActive: bool): Mode {
    if file.Some? then DetectMode(file.value) else if singboxActive then Bridge else Single
  }

  /** How the write of one reload goes: whole, not begun, or cut off after some characters.
      The file is truncated and written in place. */
  datatype Write = Whole | Refused | Torn(length: nat)

  datatype Reload = Reload(users: seq<UserEntry>, write: Write)

  function Rendered(settings: Config, mode: Mode, users: seq<UserEntry>): string {
    Render(settings.(socks5Addr := if mode.Bridge? then SOCKS5_ADDR else "", users := users))
  }

  function Reloaded(file: Option<string>, singboxActive: bool, settings: Config, r: Reload): Option<string> {
    var text := Rendered(settings, CurrentMode(file, singboxActive), r.users);
    match r.write
    case Whole => Some(text)
    case Refused => file
    case Torn(n) => Some(if n < |text| then text[..n] else text)
  }

  function AfterReloads(file: Option<string>, singboxActive: bool, settings: Config, rs: seq<Reload>): Option<string> {
    if rs == [] then file
    else Reloaded(AfterReloads(file, singboxActive, settings, rs[..|rs| - 1]), singboxActive, settings, rs[|rs| - 1])
  }

  /** The rendered text up to and including the quote that opens the upstream. */
  function UpToUpstream(settings: Config): string {
    BeforeUpstream(settings) + QUOTE
  }

  /** Fields without quotes, none of which ends like the directive. */
  predicate Plain(settings: Config, users: seq<UserEntry>) {
    QuoteFree(settings.(socks5Addr := SOCKS5_ADDR, users := users)) && !FieldMimicsSocks5(settings.(users := users))
  }

  // ---- what a cut-off text says ----

  lemma PrefixContainsLess(s: string, n: nat, needle: string)
    requires n <= |s| && Contains(s[..n], needle)
    ensures Contains(s, needle)
  {
    var i :| 0 <= i <= n && OccursAt(s[..n], needle, i);
    assert s[i..i + |needle|] == s[..n][i..i + |needle|];
    assert OccursAt(s, needle, i);
  }

  /** The rendered text up to the quote that opens the upstream. */
  function BeforeUpstream(settings: Config): string {
    Head(settings) + DomainPart(settings) + "\nsocks5 = "
  }

  lemma BeforeTheQuote(settings: Config, users: seq<UserEntry>)
    requires Plain(settings, users)
    ensures !Contains(BeforeUpstream(settings), SOCKS5_STEM + QUOTE)
  {
    hide Head, DomainPart, HasSuffix, Contains, Free;
    var c := settings.(socks5Addr := SOCKS5_ADDR, users := users);
    SettingsRenderAlike(settings, c);
    HeadIsQuoteFree(c);
    NothingInEmpty();
    assert DomainName(c) == DomainName(settings.(users := users));
    var t, tail := AppendDomain("", Head(c), c);
    var directive := "\nsocks5 = ";
    DirectiveIsQuoteFree();
    FreeConcat(tail, directive, '"');
    MarkFreeTextAddsNothing(t, tail + directive, SOCKS5_STEM, '"');
    Regrouped(Head(c), DomainPart(c), directive, t, tail);
  }

  lemma DirectiveIsQuoteFree()
    ensures Free("\nsocks5 = ", '"') && HasSuffix("\nsocks5 = ", SOCKS5_STEM)
  {
  }

  lemma Regrouped(head: string, domain: string, directive: string, t: string, tail: string)
    requires "" + head + domain == t + tail
    ensures head + domain + directive == t + (tail + directive)
  {
    assert "" + head + domain == head + domain;
  }

  /** Neither the head nor the domain depends on the upstream or the users. */
  lemma SettingsRenderAlike(a: Config, b: Config)
    requires b == a.(socks5Addr := b.socks5Addr, users := b.users)
    ensures Head(a) == Head(b) && DomainPart(a) == DomainPart(b)
  {
  }

  lemma TheQuoteCompletes(u: string)
    requires HasSuffix(u, SOCKS5_STEM)
    ensures Contains(u + QUOTE, SOCKS5_STEM + QUOTE)
  {
    var i := |u| - |SOCKS5_STEM|;
    assert (u + QUOTE)[i..] == u[i..] + QUOTE;
    assert OccursAt(u + QUOTE, SOCKS5_STEM + QUOTE, i);
  }

  /** A Bridge configuration that is cut off is read as Bridge exactly if the cut leaves the
      quote that opens the upstream. */
  lemma TornBridgeIff(settings: Config, users: seq<UserEntry>, n: nat)
    requires Plain(settings, users) && n <= |Rendered(settings, Bridge, users)|
    ensures DetectMode(Rendered(settings, Bridge, users)[..n]) == Bridge <==> n >= |UpToUpstream(settings)|
    ensures |Rendered(settings, Bridge, users)| >= |UpToUpstream(settings)|
  {
    hide Rendered, BeforeUpstream, Contains, HasSuffix, Plain;
    var text := Rendered(settings, Bridge, users);
    var u := BeforeUpstream(settings);
    var rest := UpstreamStarts(settings, users);
    TheQuoteCompletes(u);
    BeforeTheQuote(settings, users);
    if n >= |u| + 1 {
      assert text[..n][..|u| + 1] == u + QUOTE;
      PrefixContainsLess(text[..n], |u| + 1, SOCKS5_STEM + QUOTE);
    } else if Contains(text[..n], SOCKS5_STEM + QUOTE) {
      assert text[..n] == u[..n];
      PrefixContainsLess(u, n, SOCKS5_STEM + QUOTE);
    }
  }

  lemma UpstreamStarts(settings: Config, users: seq<UserEntry>) returns (rest: string)
    ensures Rendered(settings, Bridge, users) == BeforeUpstream(settings) + QUOTE + rest
    ensures HasSuffix(BeforeUpstream(settings), SOCKS5_STEM)
  {
    hide Head, DomainPart, Ja4Part, UsersPart, Socks5Url;
    var c := settings.(socks5Addr := SOCKS5_ADDR, users := users);
    SettingsRenderAlike(settings, c);
    rest := Socks5Url(c) + QUOTE + Ja4Part(c) + "\n" + UsersPart(users);
    DirectiveIsQuoteFree();
    SuffixOfConcat(Head(settings) + DomainPart(settings), "\nsocks5 = ", SOCKS5_STEM);
    Reassociated(Head(c) + DomainPart(c), "\nsocks5 = ", Socks5Url(c), Ja4Part(c), UsersPart(users));
  }

  lemma Reassociated(front: string, directive: string, url: string, stats: string, users: string)
    ensures front + (directive + QUOTE + url + QUOTE + "") + stats + "\n" + users
            == front + directive + QUOTE + (url + QUOTE + stats + "\n" + users)
  {
  }

  /** A Single configuration is read as Single wherever it is cut off. */
  lemma TornSingle(settings: Config, users: seq<UserEntry>, n: nat)
    requires Plain(settings, users) && n <= |Rendered(settings, Single, users)|
    ensures DetectMode(Rendered(settings, Single, users)[..n]) == Single
  {
    hide Render, Contains, QuoteFree, FieldMimicsSocks5;
    var c := settings.(socks5Addr := "", users := users);
    WithoutUpstream(settings, users);
    DetectModeOfRender(c);
    if Contains(Render(c)[..n], SOCKS5_STEM + QUOTE) {
      PrefixContainsLess(Render(c), n, SOCKS5_STEM + QUOTE);
    }
  }

  lemma WithoutUpstream(settings: Config, users: seq<UserEntry>)
    requires Plain(settings, users)
    ensures var c := settings.(socks5Addr := "", users := users); QuoteFree(c) && !FieldMimicsSocks5(c)
  {
    hide HasSuffix;
  }

  // ---- runs of reloads ----

  predicate KeepsUpstream(settings: Config, r: Reload) {
    r.write.Torn? ==> r.write.length >= |UpToUpstream(settings)|
  }

  lemma ReloadKeepsBridgeIff(file: Option<string>, singboxActive: bool, settings: Config, r: Reload)
    requires Plain(settings, r.users) && CurrentMode(file, singboxActive) == Bridge
    ensures CurrentMode(Reloaded(file, singboxActive, settings, r), singboxActive) == Bridge
            <==> KeepsUpstream(settings, r)
  {
    hide Rendered, DetectMode, Plain, UpToUpstream;
    var text := Rendered(settings, Bridge, r.users);
    TornBridgeIff(settings, r.users, |text|);
    assert text[..|text|] == text;
    if r.write.Torn? && r.write.length < |text| {
      TornBridgeIff(settings, r.users, r.write.length);
    }
  }

  lemma ReloadKeepsSingle(file: Option<string>, singboxActive: bool, settings: Config, r: Reload)
    requires Plain(settings, r.users) && CurrentMode(file, singboxActive) == Single
    ensures CurrentMode(Reloaded(file, singboxActive, settings, r), singboxActive) == Single
  {
    hide Rendered, DetectMode, Plain;
    var text := Rendered(settings, Single, r.users);
    TornSingle(settings, r.users, |text|);
    assert text[..|text|] == text;
    if r.write.Torn? && r.write.length < |text| {
      TornSingle(settings, r.users, r.write.length);
    }
  }

  /** Only when there is no file does the activity of sing-box count: the first reload then
      writes the mode it stands for. */
  lemma FirstReloadFollowsActivity(singboxActive: bool, settings: Config, users: seq<UserEntry>)
    requires Plain(settings, users)
    ensures var file := Reloaded(None, singboxActive, settings, Reload(users, Whole));
            file.Some? && (DetectMode(file.value) == Bridge <==> singboxActive)
  {
    hide Rendered, DetectMode, Plain;
    var text := Rendered(settings, if singboxActive then Bridge else Single, users);
    assert text[..|text|] == text;
    if singboxActive {
      TornBridgeIff(settings, users, |text|);
    } else {
      TornSingle(settings, users, |text|);
    }
  }

  /** Over any run of reloads Bridge mode is kept if and only if no write is cut off before
      the upstream; once one is, every later reload renders Single, however active sing-box
      is and however well they go. */
  lemma {:induction false} BridgeIsKeptIff(file: Option<string>, singboxActive: bool, settings: Config, rs: seq<Reload>)
    requires CurrentMode(file, singboxActive) == Bridge
    requires forall i :: 0 <= i < |rs| ==> Plain(settings, rs[i].users)
    ensures CurrentMode(AfterReloads(file, singboxActive, settings, rs), singboxActive) == Bridge
            <==> forall i :: 0 <= i < |rs| ==> KeepsUpstream(settings, rs[i])
    decreases |rs|
  {
    hide Reloaded, Plain, KeepsUpstream, CurrentMode;
    if rs != [] {
      var n := |rs| - 1;
      BridgeIsKeptIff(file, singboxActive, settings, rs[..n]);
      var before := AfterReloads(file, singboxActive, settings, rs[..n]);
      if CurrentMode(before, singboxActive) == Bridge {
        ReloadKeepsBridgeIff(before, singboxActive, settings, rs[n]);
      } else {
        ReloadKeepsSingle(before, singboxActive, settings, rs[n]);
        assert exists i :: 0 <= i < n && !KeepsUpstream(settings, rs[..n][i]);
      }
    }
  }
}
