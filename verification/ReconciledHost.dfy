/** What a completed run of reconcile leaves on disk, file by file and read back from the
    files themselves. */
module ReconciledHost {
  import opened Options
  import opened ProxyUsers
  import opened Teleproxy
  import opened Text
  import opened Lines
  import opened NginxMainConf
  import opened TeleproxyReader
  import opened Reconcile

  /** Every file was written. */
  predicate WroteAll(outcome: Outcome) {
    outcome == Done || outcome == ReloadFailed || outcome == RestartFailed
  }

  /** A panel domain with a certificate: the proxy then hides behind the panel's own site. */
  predicate WithTls(s: Settings) {
    s.panelDomain != "" && s.panelCertPath != "" && s.panelKeyPath != ""
  }

  predicate WithAcme(s: Settings) {
    s.acmeEmail != "" && s.panelDomain != ""
  }

  /** The mode that counts: the recorded one, or that of a configuration that can be read, or
      that of the settings. */
  function ModeCalledFor(files: Files, s: Settings, f: Faults): Mode {
    match s.recordedMode
    case Some(mode) => mode
    case None =>
      if TeleproxyToml !in files || f.fails(ReadForMode) then s.mode
      else if Contains(files[TeleproxyToml], "socks5 = " + "\"") then Bridge else Single
  }

  lemma ModeIsCalledFor(files: Files, s: Settings, f: Faults)
    ensures EffectiveMode(files, s, f) == ModeCalledFor(files, s, f)
  {
    hide Contains;
  }

  predicate SettingsQuoteFree(s: Settings, users: seq<UserEntry>) {
    && Free(s.panelDomain, '"') && Free(s.maskHost, '"') && Free(s.tlsBackend, '"') && Free(s.wildcardMask, '"')
    && forall i :: 0 <= i < |users| ==> Free(users[i].secret, '"') && Free(users[i].userLabel, '"')
  }

  lemma AddressesAreQuoteFree()
    ensures Free("127.0.0.1:9443", '"') && Free("127.0.0.1:1080", '"') && Free("", '"')
  {
  }

  lemma ConfigIsQuoteFree(s: Settings, mode: Mode, users: seq<UserEntry>)
    requires SettingsQuoteFree(s, users)
    ensures QuoteFree(ProxyConfig(s, mode, users))
  {
    hide Free;
    AddressesAreQuoteFree();
  }

  /** The proxy's configuration on disk names exactly the given users with their own secrets,
      goes through the local upstream exactly in Bridge mode, and fronts the panel's site
      when that has a certificate and the mask host otherwise. */
  lemma ProxyConfigOnDisk(h: HostState, h': HostState, outcome: Outcome, restarts: Restarts,
                          s: Settings, users: seq<UserEntry>, t: Templates, f: Faults)
    requires Ran(h, h', outcome, restarts, s, users, t, f) && WroteAll(outcome)
    requires SettingsQuoteFree(s, users)
    ensures TeleproxyToml in h'.files
    ensures var (ts, tail) := Tokens(h'.files[TeleproxyToml]);
            var host := if WithTls(s) then s.panelDomain else s.maskHost;
            var backend := if WithTls(s) then "127.0.0.1:9443" else s.tlsBackend;
            && UsersOf(ts) == users
            && ValueOf(ts, "socks5")
               == (if ModeCalledFor(h.files, s, f) == Bridge then Some("socks5://127.0.0.1:1080") else None)
            && ValueOf(ts, if backend != "" then "name" else "domain")
               == Some(if s.wildcardMask != "" then s.wildcardMask else host)
            && ValueOf(ts, "backend") == (if backend != "" then Some(backend) else None)
            && (AnyLine(ts, tail, "ja4_log = true") <==> s.ja4Log)
  {
    hide EffectiveMode, NginxFiles, ServiceFiles, Changed, WritesWork, Interrupted, Due, Restarted, Goal, IsLegacy;
    hide Render, Tokens, UsersOf, ValueOf, AnyLine, QuoteFree, SettingsQuoteFree, ModeCalledFor;
    var mode := EffectiveMode(h.files, s, f);
    var c := ProxyConfig(s, mode, users);
    TargetByPart(h, s, users, t, f);
    ConfigIsQuoteFree(s, mode, users);
    UsersReadBack(c);
    DomainReadsBack(c);
    UpstreamReadsBack(c);
    Ja4ReadsBack(c);
    ModeIsCalledFor(h.files, s, f);
    LocalUpstream();
    assert h'.files[TeleproxyToml] == Render(c);
  }

  lemma LocalUpstream()
    ensures !("socks5://" <= "127.0.0.1:1080") && !("socks5h://" <= "127.0.0.1:1080")
    ensures "socks5://" + "127.0.0.1:1080" == "socks5://127.0.0.1:1080"
  {
    assert "socks5://"[0] != "127.0.0.1:1080"[0] && "socks5h://"[0] != "127.0.0.1:1080"[0];
  }

  lemma PortsOnDisk(h: HostState, h': HostState, outcome: Outcome, restarts: Restarts,
                    s: Settings, users: seq<UserEntry>, t: Templates, f: Faults)
    requires Ran(h, h', outcome, restarts, s, users, t, f) && WroteAll(outcome)
    requires SettingsQuoteFree(s, users)
    ensures TeleproxyToml in h'.files
    ensures var ts := Tokens(h'.files[TeleproxyToml]).0;
            && ts != []
            && var ls := LinesOf(ts[0].before);
            && SettingOf(ls, "port").Some? && IntOf(SettingOf(ls, "port").value) == s.port
            && SettingOf(ls, "stats_port").Some? && IntOf(SettingOf(ls, "stats_port").value) == 9091
            && SettingOf(ls, "mss_clamp") == Some(if s.mssClamp then "true" else "false")
  {
    hide EffectiveMode, NginxFiles, ServiceFiles, Changed, WritesWork, Interrupted, Due, Restarted, Goal, IsLegacy;
    hide Render, Tokens, SettingOf, IntOf, QuoteFree, SettingsQuoteFree, LinesOf;
    var mode := EffectiveMode(h.files, s, f);
    var c := ProxyConfig(s, mode, users);
    TargetByPart(h, s, users, t, f);
    ConfigIsQuoteFree(s, mode, users);
    SettingsReadBack(c);
    assert h'.files[TeleproxyToml] == Render(c);
  }

  /** The units: those of the proxy and the panel, and in Bridge mode that of sing-box. */
  lemma UnitsOnDisk(h: HostState, h': HostState, outcome: Outcome, restarts: Restarts,
                    s: Settings, users: seq<UserEntry>, t: Templates, f: Faults)
    requires Ran(h, h', outcome, restarts, s, users, t, f) && WroteAll(outcome)
    ensures TeleproxyUnit in h'.files && h'.files[TeleproxyUnit] == t.proxyUnit
    ensures PanelUnit in h'.files && h'.files[PanelUnit] == t.panelUnit(s)
    ensures if EffectiveMode(h.files, s, f) == Bridge
            then SingboxUnit in h'.files && h'.files[SingboxUnit] == t.singboxUnit
            else Content(h'.files, SingboxUnit) == Content(h.files, SingboxUnit)
  {
    hide Toml, EffectiveMode, NginxFiles, ServiceFiles, Changed, WritesWork, Interrupted, Due, Restarted, NewStub;
    var mode := EffectiveMode(h.files, s, f);
    ServiceFilesByKey(s, mode, users, t);
    PartsAreApart(h.files, s, mode, users, t, f);
    assert SingboxUnit !in NGINX_KEYS && TeleproxyUnit !in NGINX_KEYS && PanelUnit !in NGINX_KEYS;
  }

  /** A legacy stub page, whatever its line ends, is replaced by the new one, any other page
      is kept, and none is made. */
  lemma StubOnDisk(h: HostState, h': HostState, outcome: Outcome, restarts: Restarts,
                   s: Settings, users: seq<UserEntry>, t: Templates, f: Faults)
    requires Ran(h, h', outcome, restarts, s, users, t, f) && WroteAll(outcome)
    ensures StubIndex in h'.files <==> StubIndex in h.files
    ensures StubIndex in h.files ==>
              h'.files[StubIndex] == if TrimLineEnds(h.files[StubIndex]) == TrimLineEnds(t.legacyStub)
                                     then t.defaultStub else h.files[StubIndex]
  {
    hide Toml, EffectiveMode, NginxFiles, ServiceFiles, Changed, WritesWork, Interrupted, Due, Restarted;
    hide TrimLineEnds, Goal;
    TargetByPart(h, s, users, t, f);
  }

  /** Trailing line ends do not count, and nothing else is cut. */
  lemma {:induction false} TrimmedIs(s: string) returns (ends: string)
    ensures s == TrimLineEnds(s) + ends && forall i :: 0 <= i < |ends| ==> ends[i] == '\r' || ends[i] == '\n'
    ensures TrimLineEnds(s) != "" ==> var last := TrimLineEnds(s)[|TrimLineEnds(s)| - 1]; last != '\r' && last != '\n'
    decreases |s|
  {
    if s != "" && (s[|s| - 1] == '\r' || s[|s| - 1] == '\n') {
      ends := TrimmedIs(s[..|s| - 1]);
      ends := ends + [s[|s| - 1]];
    } else {
      ends := "";
    }
  }

  /** nginx: the patched main configuration where there is one, the snippet with ACME, the
      stub site always and linked, the TLS stub and the panel's site exactly with a
      certificate, and no default site. */
  lemma NginxOnDisk(h: HostState, h': HostState, outcome: Outcome, restarts: Restarts,
                    s: Settings, users: seq<UserEntry>, t: Templates, f: Faults)
    requires Ran(h, h', outcome, restarts, s, users, t, f) && WroteAll(outcome) && Calm(f)
    ensures MainConf in h.files ==> Content(h'.files, MainConf) == PatchMainConf(h.files[MainConf])
    ensures MainConf !in h.files ==> MainConf !in h'.files
    ensures Content(h'.files, AcmeSnippet) == if WithAcme(s) then t.acmeSnippet else Content(h.files, AcmeSnippet)
    ensures Content(h'.files, StubSite) == t.stubSite(WithAcme(s))
    ensures Content(h'.files, TlsStubSite) == if WithTls(s) then t.tlsStubSite(s) else Content(h.files, TlsStubSite)
    ensures Content(h'.files, PanelSite) == if WithTls(s) then t.panelSite(s) else Content(h.files, PanelSite)
    ensures h'.links == h.links + if WithTls(s) then {StubLink, TlsStubLink, PanelLink} else {StubLink}
    ensures !h'.defaultSite
  {
    hide Toml, EffectiveMode, NginxFiles, ServiceFiles, Changed, WritesWork, Interrupted, Due, Restarted;
    hide PatchMainConf, Goal, IsLegacy;
    TargetByPart(h, s, users, t, f);
    NginxGoalByKey(h.files, s, t, f);
    assert MainConf in NGINX_KEYS && AcmeSnippet in NGINX_KEYS && StubSite in NGINX_KEYS;
    assert TlsStubSite in NGINX_KEYS && PanelSite in NGINX_KEYS;
  }
}
