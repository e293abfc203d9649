/** Reconcile: every file the installation manages is brought to what the settings call
    for, and the services whose files changed are restarted. */
module Reconcile {
  import opened Options
  import opened ProxyUsers
  import opened Teleproxy
  import opened NginxMainConf

  /** The files Reconcile manages, each at a path of its own. */
  datatype FileKey =
    | TeleproxyToml | TeleproxyUnit | PanelUnit | SingboxUnit
    | MainConf | AcmeSnippet | StubSite | TlsStubSite | PanelSite
    | StubIndex

  datatype Site = StubLink | TlsStubLink | PanelLink

  datatype Service = ProxyService | PanelService | NginxService

  /** Services that are due for a restart, or were restarted. */
  datatype Restarts = Restarts(proxy: bool, panel: bool, nginx: bool)

  const NO_RESTARTS := Restarts(false, false, false)

  type Files = map<FileKey, string>

  /** The merged settings. `recordedMode` is what the database records, if anything; it
      has then been merged into `mode`. */
  datatype Settings = Settings(
    recordedMode: Option<Mode>, mode: Mode,
    port: int, maskHost: string, tlsBackend: string, wildcardMask: string,
    mssClamp: bool, ja4Log: bool,
    panelDomain: string, panelCertPath: string, panelKeyPath: string, acmeEmail: string)

  /** The texts produced by the systemd and nginx templates, whatever they are. */
  datatype Templates = Templates(
    proxyUnit: string, panelUnit: Settings -> string, singboxUnit: string,
    acmeSnippet: string, stubSite: bool -> string,
    tlsStubSite: Settings -> string, panelSite: Settings -> string,
    defaultStub: string, legacyStub: string)

  /** Every call that can fail; `ReadOld` is the read whose error is ignored. */
  datatype Call =
    | ReadConfig | ReadSettings | ReadUsers
    | ReadForMode | ReadMainConf | ReadOld(file: FileKey) | ReadStub
    | Write(file: FileKey) | MakeAcmeRoot | Link(site: Site) | RemoveDefault
    | DaemonReload | Restart(service: Service)

  /** Which calls fail, what a failed in-place write leaves, and whether a failed restart
      has taken effect all the same. */
  datatype Faults = Faults(fails: Call -> bool, torn: Option<string>, landed: bool)

  /** `ReloadFailed` and `RestartFailed` come after every file was written. */
  datatype Outcome = Done | ReadFailed | WriteFailed | ReloadFailed | RestartFailed

  // ---- what the settings call for ----

  /** The mode read from the configuration on disk, unless the database records one. */
  function EffectiveMode(files: Files, s: Settings, f: Faults): Mode {
    if s.recordedMode.Some? then s.recordedMode.value
    else if TeleproxyToml in files && !f.fails(ReadForMode) then DetectMode(files[TeleproxyToml])
    else s.mode
  }

  predicate HasTlsBackend(s: Settings) {
    s.panelDomain != "" && s.panelCertPath != "" && s.panelKeyPath != ""
  }

  predicate UsesAcme(s: Settings) {
    s.acmeEmail != "" && s.panelDomain != ""
  }

  function ProxyConfig(s: Settings, mode: Mode, users: seq<UserEntry>): Config {
    Config(s.port,
           if HasTlsBackend(s) then s.panelDomain else s.maskHost,
           if HasTlsBackend(s) then "127.0.0.1:9443" else s.tlsBackend,
           s.wildcardMask, 9091,
           if mode.Bridge? then "127.0.0.1:1080" else "",
           s.mssClamp, s.ja4Log, users)
  }

  function Toml(s: Settings, mode: Mode, users: seq<UserEntry>): string {
    Render(ProxyConfig(s, mode, users))
  }

  function ServiceFiles(s: Settings, mode: Mode, users: seq<UserEntry>, t: Templates): Files {
    map[TeleproxyToml := Toml(s, mode, users), TeleproxyUnit := t.proxyUnit, PanelUnit := t.panelUnit(s)]
    + if mode.Bridge? then map[SingboxUnit := t.singboxUnit] else map[]
  }

  /** nginx.conf is patched when it can be read. */
  function NginxFiles(files: Files, s: Settings, t: Templates, f: Faults): Files {
    (if MainConf in files && !f.fails(ReadMainConf) then map[MainConf := PatchMainConf(files[MainConf])] else map[])
    + (if UsesAcme(s) then map[AcmeSnippet := t.acmeSnippet] else map[])
    + map[StubSite := t.stubSite(UsesAcme(s))]
    + (if HasTlsBackend(s) then map[TlsStubSite := t.tlsStubSite(s), PanelSite := t.panelSite(s)] else map[])
  }

  function Sites(s: Settings): set<Site> {
    if HasTlsBackend(s) then {StubLink, TlsStubLink, PanelLink} else {StubLink}
  }

  /** bytes.TrimRight(_, "\r\n") */
  function TrimLineEnds(s: string): string {
    if s != "" && (s[|s| - 1] == '\r' || s[|s| - 1] == '\n') then TrimLineEnds(s[..|s| - 1]) else s
  }

  predicate IsLegacy(files: Files, t: Templates) {
    StubIndex in files && TrimLineEnds(files[StubIndex]) == TrimLineEnds(t.legacyStub)
  }

  /** What the comparison before a write sees: a file that cannot be read counts as empty. */
  function Seen(files: Files, k: FileKey, f: Faults): string {
    if k in files && !f.fails(ReadOld(k)) then files[k] else ""
  }

  /** The part of `wanted` that differs from what is there. */
  function Changed(files: Files, wanted: Files, f: Faults): Files {
    map k | k in wanted && Seen(files, k, f) != wanted[k] :: wanted[k]
  }

  // ---- a whole run ----

  datatype HostState = HostState(
    files: Files, links: set<Site>, defaultSite: bool,
    /** The configuration the running proxy was started with. */
    loaded: string)

  /** All that is written. */
  function Goal(files: Files, s: Settings, users: seq<UserEntry>, t: Templates, f: Faults): Files {
    ServiceFiles(s, EffectiveMode(files, s, f), users, t)
    + Changed(files, NginxFiles(files, s, t, f), f)
    + NewStub(files, t)
  }

  /** Everything on disk once all files are written. */
  function Target(h: HostState, s: Settings, users: seq<UserEntry>, t: Templates, f: Faults): HostState {
    HostState(
      h.files + Goal(h.files, s, users, t, f),
      h.links + Sites(s),
      h.defaultSite && f.fails(RemoveDefault),
      h.loaded)
  }

  function Due(h: HostState, s: Settings, users: seq<UserEntry>, t: Templates, f: Faults): Restarts {
    var mode := EffectiveMode(h.files, s, f);
    Restarts(
      Seen(h.files, TeleproxyToml, f) != Toml(s, mode, users),
      Seen(h.files, PanelUnit, f) != t.panelUnit(s),
      || Changed(h.files, NginxFiles(h.files, s, t, f), f) != map[]
      || !(Sites(s) <= h.links)
      || IsLegacy(h.files, t)
      || (h.defaultSite && !f.fails(RemoveDefault)))
  }

  /** The services are restarted in order, up to the first that fails. */
  function Restarted(due: Restarts, f: Faults): Restarts {
    var proxyOk := due.proxy ==> !f.fails(Restart(ProxyService));
    var panelOk := due.panel ==> !f.fails(Restart(PanelService));
    Restarts(
      due.proxy && proxyOk,
      due.panel && proxyOk && panelOk,
      due.nginx && proxyOk && panelOk && !f.fails(Restart(NginxService)))
  }

  predicate ReadsFail(f: Faults) {
    f.fails(ReadConfig) || f.fails(ReadSettings) || f.fails(ReadUsers)
  }

  predicate ServiceWritesWork(mode: Mode, f: Faults) {
    && !f.fails(Write(TeleproxyToml)) && !f.fails(Write(TeleproxyUnit)) && !f.fails(Write(PanelUnit))
    && (mode.Bridge? ==> !f.fails(Write(SingboxUnit)))
  }

  predicate FileWorks(goal: Files, k: FileKey, f: Faults) {
    k in goal ==> !f.fails(Write(k))
  }

  predicate SiteWorks(goal: Files, links: set<Site>, k: FileKey, site: Site, f: Faults) {
    FileWorks(goal, k, f) && (site !in links ==> !f.fails(Link(site)))
  }

  predicate NginxWritesWork(goal: Files, links: set<Site>, s: Settings, f: Faults) {
    && FileWorks(goal, MainConf, f)
    && (UsesAcme(s) ==> !f.fails(MakeAcmeRoot)) && FileWorks(goal, AcmeSnippet, f)
    && SiteWorks(goal, links, StubSite, StubLink, f)
    && (HasTlsBackend(s) ==> SiteWorks(goal, links, TlsStubSite, TlsStubLink, f)
                             && SiteWorks(goal, links, PanelSite, PanelLink, f))
  }

  predicate StubWorks(files: Files, t: Templates, f: Faults) {
    StubIndex in files ==> !f.fails(ReadStub) && (IsLegacy(files, t) ==> !f.fails(Write(StubIndex)))
  }

  /** Exactly when every file gets written. */
  predicate WritesWork(h: HostState, s: Settings, t: Templates, f: Faults) {
    && ServiceWritesWork(EffectiveMode(h.files, s, f), f)
    && NginxWritesWork(Changed(h.files, NginxFiles(h.files, s, t, f), f), h.links, s, f)
    && StubWorks(h.files, t, f)
  }

  function Only(wanted: Files, keys: set<FileKey>): Files {
    map k | k in wanted && k in keys :: wanted[k]
  }

  /** Some files are as wanted, each written whole, and all others as they were. */
  ghost predicate Partly(was: Files, now: Files, wanted: Files) {
    exists keys: set<FileKey> :: now == was + Only(wanted, keys)
  }

  function NewStub(files: Files, t: Templates): Files {
    if IsLegacy(files, t) then map[StubIndex := t.defaultStub] else map[]
  }

  /** What one run of Reconcile does. Only the stub page, which is not replaced
      atomically, can be torn. */
  ghost predicate Ran(h: HostState, h': HostState, outcome: Outcome, restarts: Restarts,
                      s: Settings, users: seq<UserEntry>, t: Templates, f: Faults) {
    if ReadsFail(f) then outcome == ReadFailed && h' == h && restarts == NO_RESTARTS
    else if !WritesWork(h, s, t, f) then
      outcome == WriteFailed && restarts == NO_RESTARTS && Interrupted(h, h', s, users, t, f)
    else
      var due := Due(h, s, users, t, f);
      && h'.(loaded := h.loaded) == Target(h, s, users, t, f)
      && TeleproxyToml in h'.files
      && restarts == (if f.fails(DaemonReload) then NO_RESTARTS else Restarted(due, f))
      && outcome == (if f.fails(DaemonReload) then ReloadFailed
                     else if restarts == due then Done else RestartFailed)
      && h'.loaded == (if restarts.proxy || (outcome == RestartFailed && due.proxy && f.landed)
                       then h'.files[TeleproxyToml] else h.loaded)
  }

  /** A run that could not write everything. */
  ghost predicate Interrupted(h: HostState, h': HostState, s: Settings, users: seq<UserEntry>,
                              t: Templates, f: Faults) {
    var mode := EffectiveMode(h.files, s, f);
    && (|| Partly(h.files, h'.files, Goal(h.files, s, users, t, f))
        || (IsLegacy(h.files, t) && f.fails(Write(StubIndex))
            && StubIndex in h'.files && f.torn == Some(h'.files[StubIndex])
            && Partly(h.files - {StubIndex}, h'.files - {StubIndex}, Goal(h.files, s, users, t, f) - {StubIndex})))
    && (!f.fails(Write(TeleproxyToml)) ==>
          TeleproxyToml in h'.files && h'.files[TeleproxyToml] == Toml(s, mode, users))
    && h.links <= h'.links <= h.links + Sites(s)
    && h'.defaultSite == h.defaultSite && h'.loaded == h.loaded
  }

  /** What the writing part of a run does; the default site is dealt with after it. */
  ghost predicate Wrote(h: HostState, h': HostState, due: Restarts, ok: bool,
                        s: Settings, users: seq<UserEntry>, t: Templates, f: Faults) {
    && ok == WritesWork(h, s, t, f)
    && (if ok then
          && h' == HostState(h.files + Goal(h.files, s, users, t, f), h.links + Sites(s), h.defaultSite, h.loaded)
          && due.(nginx := due.nginx || (h.defaultSite && !f.fails(RemoveDefault))) == Due(h, s, users, t, f)
          && TeleproxyToml in h'.files
        else Interrupted(h, h', s, users, t, f))
  }

  class Host {
    var files: Files
    var links: set<Site>
    var defaultSite: bool
    /** The configuration the running proxy was started with. */
    var loaded: string

    ghost function Now(): HostState
      reads this
    {
      HostState(files, links, defaultSite, loaded)
    }

    constructor (files: Files, links: set<Site>, defaultSite: bool, loaded: string)
      ensures Now() == HostState(files, links, defaultSite, loaded)
    {
      this.files, this.links, this.defaultSite, this.loaded := files, links, defaultSite, loaded;
    }

    /** writeFile: a temporary file renamed over the old one. */
    method WriteFile(k: FileKey, data: string, f: Faults) returns (ok: bool)
      modifies this`files
      ensures ok == !f.fails(Write(k))
      ensures files == if ok then old(files)[k := data] else old(files)
    {
      ok := !f.fails(Write(k));
      if ok {
        files := files[k := data];
      }
    }

    method WriteFileIfChanged(k: FileKey, data: string, f: Faults) returns (changed: bool, ok: bool)
      modifies this`files
      ensures changed == (Seen(old(files), k, f) != data)
      ensures changed == ((if k in old(files) && !f.fails(ReadOld(k)) then old(files)[k] else "") != data)
      ensures ok == !(changed && f.fails(Write(k)))
      ensures files == if changed && ok then old(files)[k := data] else old(files)
    {
      changed, ok := Seen(files, k, f) != data, true;
      if changed {
        ok := WriteFile(k, data, f);
      }
    }

    method EnsureNginxSiteEnabled(site: Site, f: Faults) returns (enabled: bool, ok: bool)
      modifies this`links
      ensures ok == !(site !in old(links) && f.fails(Link(site)))
      ensures ok ==> enabled == (site !in old(links)) && links == old(links) + {site}
      ensures !ok ==> links == old(links)
    {
      if site in links {
        return false, true;
      }
      if f.fails(Link(site)) {
        return false, false;
      }
      links := links + {site};
      return true, true;
    }

    /** The first part of Reconcile: teleproxy.toml and the systemd units. */
    method WriteServiceFiles(s: Settings, mode: Mode, users: seq<UserEntry>, t: Templates, f: Faults)
        returns (proxyChanged: bool, panelChanged: bool, ok: bool)
      modifies this`files
      ensures ok <==> ServiceWritesWork(mode, f)
      ensures ok ==> files == old(files) + ServiceFiles(s, mode, users, t)
      ensures ok ==> proxyChanged == (Seen(old(files), TeleproxyToml, f) != Toml(s, mode, users))
      ensures ok ==> panelChanged == (Seen(old(files), PanelUnit, f) != t.panelUnit(s))
      ensures Partly(old(files), files, ServiceFiles(s, mode, users, t))
      ensures !f.fails(Write(TeleproxyToml)) ==>
                TeleproxyToml in files && files[TeleproxyToml] == Toml(s, mode, users)
    {
      hide Toml, Partly, Only, Seen, ServiceFiles;
      ghost var goal := ServiceFiles(s, mode, users, t);
      ServiceFilesByKey(s, mode, users, t);
      var toml := Toml(s, mode, users);
      proxyChanged, panelChanged := Seen(files, TeleproxyToml, f) != toml, false;
      ghost var done: set<FileKey> := {};
      NothingYet(files, goal);
      ok := WriteFile(TeleproxyToml, toml, f);
      if !ok { return; }
      done := Advance(old(files), goal, done, TeleproxyToml);
      ok := WriteFile(TeleproxyUnit, t.proxyUnit, f);
      if !ok { return; }
      done := Advance(old(files), goal, done, TeleproxyUnit);
      SeenOfOther(old(files), goal, done, PanelUnit, f);
      panelChanged := Seen(files, PanelUnit, f) != t.panelUnit(s);
      ok := WriteFile(PanelUnit, t.panelUnit(s), f);
      if !ok { return; }
      done := Advance(old(files), goal, done, PanelUnit);
      if mode.Bridge? {
        ok := WriteFile(SingboxUnit, t.singboxUnit, f);
        if !ok { return; }
      }
      done := Advance(old(files), goal, done, SingboxUnit);
      AllWritten(goal, done);
    }

    /** WriteFileIfChanged as one more step from `was` towards `goal`. */
    method SyncFile(k: FileKey, data: string, f: Faults, ghost was: Files, ghost goal: Files, ghost done: set<FileKey>)
        returns (changed: bool, ok: bool, ghost done': set<FileKey>)
      requires k !in done && files == was + Only(goal, done)
      requires k in goal <==> Seen(was, k, f) != data
      requires k in goal ==> goal[k] == data
      modifies this`files
      ensures changed <==> k in goal
      ensures ok <==> FileWorks(goal, k, f)
      ensures done' == if ok then done + {k} else done
      ensures files == was + Only(goal, done') && Partly(was, files, goal)
    {
      hide Only, Partly, Seen;
      SeenOfOther(was, goal, done, k, f);
      changed, ok := WriteFileIfChanged(k, data, f);
      done' := Advance(was, goal, done, k);
      if !ok {
        done' := done;
      }
    }

    /** A site's file, and the link that enables it. */
    method SyncSite(k: FileKey, site: Site, data: string, f: Faults,
                    ghost was: Files, ghost goal: Files, ghost done: set<FileKey>)
        returns (changed: bool, ok: bool, ghost done': set<FileKey>)
      requires k !in done && files == was + Only(goal, done)
      requires k in goal <==> Seen(was, k, f) != data
      requires k in goal ==> goal[k] == data
      modifies this`files, this`links
      ensures ok <==> SiteWorks(goal, old(links), k, site, f)
      ensures ok ==> changed == (k in goal || site !in old(links))
      ensures ok ==> done' == done + {k} && links == old(links) + {site}
      ensures !ok ==> links == old(links)
      ensures files == was + Only(goal, done') && Partly(was, files, goal)
    {
      hide Only, Partly, Seen;
      changed, ok, done' := SyncFile(k, data, f, was, goal, done);
      if ok {
        var enabled;
        enabled, ok := EnsureNginxSiteEnabled(site, f);
        changed := changed || enabled;
      }
    }

    /** The two sites of a panel domain. */
    method WriteTlsSites(s: Settings, t: Templates, f: Faults,
                         ghost was: Files, ghost goal: Files, ghost done: set<FileKey>)
        returns (changed: bool, ok: bool, ghost done': set<FileKey>)
      requires TlsStubSite !in done && PanelSite !in done && files == was + Only(goal, done)
      requires TlsStubSite in goal <==> Seen(was, TlsStubSite, f) != t.tlsStubSite(s)
      requires TlsStubSite in goal ==> goal[TlsStubSite] == t.tlsStubSite(s)
      requires PanelSite in goal <==> Seen(was, PanelSite, f) != t.panelSite(s)
      requires PanelSite in goal ==> goal[PanelSite] == t.panelSite(s)
      modifies this`files, this`links
      ensures ok <==> SiteWorks(goal, old(links), TlsStubSite, TlsStubLink, f)
                      && SiteWorks(goal, old(links), PanelSite, PanelLink, f)
      ensures ok ==> changed == (TlsStubSite in goal || PanelSite in goal || !({TlsStubLink, PanelLink} <= old(links)))
      ensures ok ==> done' == done + {TlsStubSite, PanelSite} && links == old(links) + {TlsStubLink, PanelLink}
      ensures old(links) <= links <= old(links) + {TlsStubLink, PanelLink}
      ensures files == was + Only(goal, done') && Partly(was, files, goal)
    {
      hide Only, Partly, Seen, FileWorks;
      changed, ok, done' := SyncSite(TlsStubSite, TlsStubLink, t.tlsStubSite(s), f, was, goal, done);
      if ok {
        var more;
        more, ok, done' := SyncSite(PanelSite, PanelLink, t.panelSite(s), f, was, goal, done');
        changed := changed || more;
      }
    }

    /** The patched nginx.conf and the ACME snippet. */
    method WriteMainConf(s: Settings, t: Templates, f: Faults, ghost was: Files, ghost goal: Files)
        returns (changed: bool, ok: bool, ghost done: set<FileKey>)
      requires files == was
      requires MainConf in goal <==> MainConf in was && !f.fails(ReadMainConf)
                                     && Seen(was, MainConf, f) != PatchMainConf(was[MainConf])
      requires MainConf in goal ==> goal[MainConf] == PatchMainConf(was[MainConf])
      requires AcmeSnippet in goal <==> UsesAcme(s) && Seen(was, AcmeSnippet, f) != t.acmeSnippet
      requires AcmeSnippet in goal ==> goal[AcmeSnippet] == t.acmeSnippet
      modifies this`files
      ensures ok <==> FileWorks(goal, MainConf, f) && (UsesAcme(s) ==> !f.fails(MakeAcmeRoot))
                      && FileWorks(goal, AcmeSnippet, f)
      ensures ok ==> changed == (MainConf in goal || AcmeSnippet in goal)
      ensures ok ==> goal.Keys * {MainConf, AcmeSnippet} <= done
      ensures done <= {MainConf, AcmeSnippet} && files == was + Only(goal, done) && Partly(was, files, goal)
    {
      hide PatchMainConf, Partly, Only, Seen, FileWorks;
      changed, ok, done := false, true, {};
      NothingYet(was, goal);
      NothingToWrite(goal, MainConf, f);
      NothingToWrite(goal, AcmeSnippet, f);
      if MainConf in files && !f.fails(ReadMainConf) {
        changed, ok, done := SyncFile(MainConf, PatchMainConf(files[MainConf]), f, was, goal, done);
        if !ok { return; }
      }
      if UsesAcme(s) {
        if f.fails(MakeAcmeRoot) { return changed, false, done; }
        var more;
        more, ok, done := SyncFile(AcmeSnippet, t.acmeSnippet, f, was, goal, done);
        changed := changed || more;
      }
    }

    /** The second part: nginx.conf, the snippet and the sites. */
    method WriteNginxFiles(s: Settings, t: Templates, f: Faults) returns (nginxChanged: bool, ok: bool)
      modifies this`files, this`links
      ensures ok <==> NginxWritesWork(Changed(old(files), NginxFiles(old(files), s, t, f), f), old(links), s, f)
      ensures ok ==> files == old(files) + Changed(old(files), NginxFiles(old(files), s, t, f), f)
      ensures ok ==> links == old(links) + Sites(s)
      ensures ok ==> nginxChanged == (Changed(old(files), NginxFiles(old(files), s, t, f), f) != map[]
                                      || !(Sites(s) <= old(links)))
      ensures Partly(old(files), files, Changed(old(files), NginxFiles(old(files), s, t, f), f))
      ensures old(links) <= links <= old(links) + Sites(s)
    {
      hide PatchMainConf, Partly, Only, Seen, Changed, NginxFiles, FileWorks, SiteWorks;
      ghost var was, goal := files, Changed(files, NginxFiles(files, s, t, f), f);
      NginxGoalByKey(files, s, t, f);
      NothingYet(files, goal);
      ghost var done;
      nginxChanged, ok, done := WriteMainConf(s, t, f, was, goal);
      if !ok { return; }
      var changed;
      changed, ok, done := SyncSite(StubSite, StubLink, t.stubSite(UsesAcme(s)), f, was, goal, done);
      if !ok { return; }
      nginxChanged := nginxChanged || changed;
      if HasTlsBackend(s) {
        OtherLink(goal, old(links), StubLink, TlsStubSite, TlsStubLink, f);
        OtherLink(goal, old(links), StubLink, PanelSite, PanelLink, f);
        changed, ok, done := WriteTlsSites(s, t, f, was, goal, done);
        if !ok { return; }
        nginxChanged := nginxChanged || changed;
      }
      AllWritten(goal, done);
      NoneChanged(goal);
    }

    /** MigrateStubIfLegacy on the page of the web root. */
    method MigrateStubIfLegacy(t: Templates, f: Faults) returns (migrated: bool, ok: bool)
      modifies this`files
      ensures ok <==> StubWorks(old(files), t, f)
      ensures ok ==> migrated == IsLegacy(old(files), t)
      ensures ok ==> files == old(files) + NewStub(old(files), t)
      ensures !ok ==>
                || files == old(files)
                || (IsLegacy(old(files), t) && f.fails(Write(StubIndex)) && f.torn.Some?
                    && files == old(files)[StubIndex := f.torn.value])
    {
      if StubIndex !in files {
        return false, true;
      }
      if f.fails(ReadStub) {
        return false, false;
      }
      if !IsLegacy(files, t) {
        return false, true;
      }
      if f.fails(Write(StubIndex)) {
        if f.torn.Some? {
          files := files[StubIndex := f.torn.value];
        }
        return false, false;
      }
      files := files[StubIndex := t.defaultStub];
      return true, true;
    }

    /** The last part: the services whose files changed. */
    method RestartServices(due: Restarts, f: Faults) returns (restarts: Restarts)
      requires TeleproxyToml in files
      modifies this`loaded
      ensures restarts == Restarted(due, f)
      ensures loaded == if restarts.proxy || (restarts != due && due.proxy && f.landed)
                        then files[TeleproxyToml] else old(loaded)
    {
      restarts := NO_RESTARTS;
      if due.proxy {
        if !f.fails(Restart(ProxyService)) || f.landed {
          loaded := files[TeleproxyToml];
        }
        if f.fails(Restart(ProxyService)) { return; }
        restarts := restarts.(proxy := true);
      }
      if due.panel {
        if f.fails(Restart(PanelService)) { return; }
        restarts := restarts.(panel := true);
      }
      if due.nginx {
        if f.fails(Restart(NginxService)) { return; }
        restarts := restarts.(nginx := true);
      }
    }

    /** Every file in turn, up to the first that fails. */
    method WriteFiles(s: Settings, users: seq<UserEntry>, t: Templates, f: Faults)
        returns (due: Restarts, ok: bool)
      modifies this`files, this`links
      ensures Wrote(old(Now()), Now(), due, ok, s, users, t, f)
    {
      hide Toml, PatchMainConf, DetectMode, TrimLineEnds, Changed, NginxFiles, ServiceFiles, Only, Partly, Seen;
      hide ServiceWritesWork, NginxWritesWork, StubWorks, IsLegacy, HasTlsBackend, UsesAcme;
      hide NewStub, EffectiveMode, Interrupted, Wrote;
      ghost var was := files;
      var mode := EffectiveMode(files, s, f);
      ghost var first := ServiceFiles(s, mode, users, t);
      ghost var second := Changed(files, NginxFiles(files, s, t, f), f);
      ghost var third := NewStub(files, t);
      PartsAreApart(was, s, mode, users, t, f);
      due := NO_RESTARTS;
      var proxyChanged, panelChanged;
      proxyChanged, panelChanged, ok := WriteServiceFiles(s, mode, users, t, f);
      if !ok {
        InterruptedInServices(old(Now()), Now(), s, users, t, f);
        NotAllWritten(old(Now()), Now(), due, s, users, t, f);
        return;
      }
      var nginxChanged;
      nginxChanged, ok := WriteNginxFiles(s, t, f);
      if !ok {
        InterruptedInNginx(old(Now()), Now(), s, users, t, f);
        NotAllWritten(old(Now()), Now(), due, s, users, t, f);
        return;
      }
      ghost var written := files;
      AddPart(was, first, second);
      var migrated;
      migrated, ok := MigrateStubIfLegacy(t, f);
      if !ok {
        InterruptedInStub(old(Now()), Now(), written, s, users, t, f);
        NotAllWritten(old(Now()), Now(), due, s, users, t, f);
        return;
      }
      AddPart(was, first + second, third);
      due := Restarts(proxyChanged, panelChanged, nginxChanged || migrated);
      EverythingWritten(old(Now()), Now(), due, first, second, third, s, users, t, f);
    }

    method Reconcile(s: Settings, users: seq<UserEntry>, t: Templates, f: Faults)
        returns (outcome: Outcome, restarts: Restarts)
      modifies this
      ensures Ran(old(Now()), Now(), outcome, restarts, s, users, t, f)
    {
      hide Goal, WritesWork, Due, Interrupted, Restarted;
      outcome, restarts := ReadFailed, NO_RESTARTS;
      if f.fails(ReadConfig) || f.fails(ReadSettings) || f.fails(ReadUsers) {
        return;
      }
      var due, ok := WriteFiles(s, users, t, f);
      if !ok {
        return WriteFailed, restarts;
      }
      if defaultSite && !f.fails(RemoveDefault) {
        defaultSite := false;
        due := due.(nginx := true);
      }
      if f.fails(DaemonReload) {
        return ReloadFailed, restarts;
      }
      restarts := RestartServices(due, f);
      outcome := if restarts == due then Done else RestartFailed;
    }
  }

  // ---- a second run ----

  /** No read whose error is ignored goes wrong, and the default site can be removed. Every
      other call may fail. */
  ghost predicate Calm(f: Faults) {
    && !f.fails(ReadForMode) && !f.fails(ReadMainConf) && !f.fails(RemoveDefault)
    && forall k :: !f.fails(ReadOld(k))
  }

  predicate StubsDiffer(t: Templates) {
    TrimLineEnds(t.defaultStub) != TrimLineEnds(t.legacyStub)
  }

  /** What decides whether a mode survives being written and read back. */
  predicate ModeSticks(s: Settings, mode: Mode, users: seq<UserEntry>) {
    s.recordedMode.Some? || mode.Bridge? || !FieldMimicsSocks5(ProxyConfig(s, mode, users))
  }

  /** A run after the configuration was written for a mode settles on the same mode, when
      nothing else is recorded, exactly if no Single configuration has a field that ends
      like the socks5 directive. */
  lemma ModeSurvivesIff(files: Files, s: Settings, mode: Mode, users: seq<UserEntry>, f: Faults)
    requires TeleproxyToml in files && files[TeleproxyToml] == Toml(s, mode, users)
    requires s.recordedMode.Some? ==> mode == s.recordedMode.value
    requires QuoteFree(ProxyConfig(s, mode, users)) && !f.fails(ReadForMode)
    ensures EffectiveMode(files, s, f) == mode <==> ModeSticks(s, mode, users)
  {
    hide Render, DetectMode, FieldMimicsSocks5, QuoteFree;
    DetectModeOfRender(ProxyConfig(s, mode, users));
  }

  lemma RecordedModeCounts(files: Files, s: Settings, f: Faults)
    ensures s.recordedMode.Some? ==> EffectiveMode(files, s, f) == s.recordedMode.value
  {
  }

  /** Host names, hex secrets and validated labels hold no spaces: then it always does. */
  lemma SpaceFreeModeSticks(s: Settings, mode: Mode, users: seq<UserEntry>)
    requires QuoteFree(ProxyConfig(s, mode, users)) && SpaceFree(ProxyConfig(s, mode, users))
    ensures ModeSticks(s, mode, users)
  {
    hide Render, DetectMode, FieldMimicsSocks5, QuoteFree, SpaceFree;
    DetectModeInvertsRender(ProxyConfig(s, mode, users));
    DetectModeOfRender(ProxyConfig(s, mode, users));
  }

  lemma OtherModeOtherToml(s: Settings, users: seq<UserEntry>)
    ensures Toml(s, Single, users) != Toml(s, Bridge, users)
  {
    hide Render, HasTlsBackend;
    LongerWithUpstream(ProxyConfig(s, Single, users), "127.0.0.1:1080");
  }

  /** Once all files are written there is nothing left to write: not for nginx, whose
      patch is idempotent, and not for the stub page. */
  lemma NothingLeftForNginx(files: Files, goal: Files, s: Settings, t: Templates, f1: Faults, f2: Faults)
    requires Calm(f1) && Calm(f2)
    requires goal == Changed(files, NginxFiles(files, s, t, f1), f1)
    ensures Changed(files + goal, NginxFiles(files + goal, s, t, f2), f2) == map[]
  {
    hide PatchMainConf, Changed, NginxFiles, UsesAcme, HasTlsBackend;
    NginxGoalByKey(files, s, t, f1);
    NginxGoalByKey(files + goal, s, t, f2);
    if MainConf in files {
      PatchMainConfIdempotent(files[MainConf]);
    }
    NoneChanged(Changed(files + goal, NginxFiles(files + goal, s, t, f2), f2));
  }

  /** The state after a run that wrote everything, by part. */
  lemma TargetByPart(h: HostState, s: Settings, users: seq<UserEntry>, t: Templates, f: Faults)
    ensures var h' := Target(h, s, users, t, f);
            var mode := EffectiveMode(h.files, s, f);
            var nginx := h.files + Changed(h.files, NginxFiles(h.files, s, t, f), f);
            && (forall k :: k in ServiceFiles(s, mode, users, t) ==>
                  k in h'.files && h'.files[k] == ServiceFiles(s, mode, users, t)[k])
            && TeleproxyToml in h'.files && h'.files[TeleproxyToml] == Toml(s, mode, users)
            && PanelUnit in h'.files && h'.files[PanelUnit] == t.panelUnit(s)
            && (forall k :: k in NGINX_KEYS ==>
                  (k in h'.files <==> k in nginx) && (k in nginx ==> h'.files[k] == nginx[k]))
            && (StubIndex in h'.files <==> StubIndex in h.files)
            && (StubIndex in h.files ==>
                  h'.files[StubIndex] == if IsLegacy(h.files, t) then t.defaultStub else h.files[StubIndex])
  {
    hide PatchMainConf, Toml, TrimLineEnds, EffectiveMode, Changed, NginxFiles, ServiceFiles;
    var mode := EffectiveMode(h.files, s, f);
    PartsAreApart(h.files, s, mode, users, t, f);
    ServiceFilesByKey(s, mode, users, t);
    assert PanelUnit in SERVICE_KEYS && TeleproxyToml in SERVICE_KEYS;
    assert StubIndex !in SERVICE_KEYS && StubIndex !in NGINX_KEYS;
    assert SERVICE_KEYS !! NGINX_KEYS;
  }

  lemma WrittenStubIsNotLegacy(h: HostState, s: Settings, users: seq<UserEntry>, t: Templates, f: Faults)
    requires StubsDiffer(t)
    ensures !IsLegacy(Target(h, s, users, t, f).files, t)
  {
    hide Target, TrimLineEnds;
    TargetByPart(h, s, users, t, f);
  }

  /** A second run over what a first one wrote finds nothing to do, whatever service
      restarts either of them goes through, exactly if the mode survives. */
  lemma FixpointIff(h: HostState, h': HostState, s: Settings, users: seq<UserEntry>, t: Templates,
                    f1: Faults, f2: Faults)
    requires Calm(f1) && Calm(f2) && StubsDiffer(t)
    requires QuoteFree(ProxyConfig(s, EffectiveMode(h.files, s, f1), users))
    requires h'.(loaded := h.loaded) == Target(h, s, users, t, f1)
    ensures Target(h', s, users, t, f2) == h' && Due(h', s, users, t, f2) == NO_RESTARTS
            <==> ModeSticks(s, EffectiveMode(h.files, s, f1), users)
  {
    hide Toml, ModeSticks, EffectiveMode, Changed, NginxFiles, ServiceFiles, PatchMainConf, QuoteFree, IsLegacy;
    var mode := EffectiveMode(h.files, s, f1);
    TargetByPart(h, s, users, t, f1);
    RecordedModeCounts(h.files, s, f1);
    ModeSurvivesIff(h'.files, s, mode, users, f2);
    WrittenStubIsNotLegacy(h, s, users, t, f1);
    var nginx := Changed(h.files, NginxFiles(h.files, s, t, f1), f1);
    NothingLeftForNginx(h.files, nginx, s, t, f1, f2);
    NginxGoalIsLocal(h.files + nginx, h'.files, s, t, f2);
    if ModeSticks(s, mode, users) {
      NothingDue(h', s, mode, users, t, f2);
    } else {
      OtherModeOtherToml(s, users);
    }
  }

  lemma NothingDue(h: HostState, s: Settings, mode: Mode, users: seq<UserEntry>, t: Templates, f: Faults)
    requires mode == EffectiveMode(h.files, s, f) && Calm(f) && !h.defaultSite && Sites(s) <= h.links
    requires forall k :: k in ServiceFiles(s, mode, users, t) ==>
               k in h.files && h.files[k] == ServiceFiles(s, mode, users, t)[k]
    requires Changed(h.files, NginxFiles(h.files, s, t, f), f) == map[]
    requires !IsLegacy(h.files, t)
    ensures Target(h, s, users, t, f) == h && Due(h, s, users, t, f) == NO_RESTARTS
    ensures forall k :: k in Goal(h.files, s, users, t, f) ==>
              k in h.files && h.files[k] == Goal(h.files, s, users, t, f)[k]
  {
    hide Toml, EffectiveMode, Changed, NginxFiles, PatchMainConf, IsLegacy, Sites, ServiceFiles;
    ServiceFilesByKey(s, mode, users, t);
    assert h.files + Goal(h.files, s, users, t, f) == h.files;
    assert h.links + Sites(s) == h.links;
  }

  /** Reconcile is a fixpoint: after a run that wrote every file, whether or not its
      restarts went through, a second run leaves the host as it is and restarts nothing.
      The second run may even fail, at any call. */
  lemma SecondRunChangesNothing(h: HostState, h1: HostState, h2: HostState,
                                o1: Outcome, o2: Outcome, r1: Restarts, r2: Restarts,
                                s: Settings, users: seq<UserEntry>, t: Templates, f1: Faults, f2: Faults)
    requires Calm(f1) && Calm(f2) && StubsDiffer(t)
    requires QuoteFree(ProxyConfig(s, EffectiveMode(h.files, s, f1), users))
    requires ModeSticks(s, EffectiveMode(h.files, s, f1), users)
    requires Ran(h, h1, o1, r1, s, users, t, f1) && o1 != ReadFailed && o1 != WriteFailed
    requires Ran(h1, h2, o2, r2, s, users, t, f2)
    ensures h2 == h1 && r2 == NO_RESTARTS
    ensures EffectiveMode(h1.files, s, f2) == EffectiveMode(h.files, s, f1)
    ensures o2 == ReloadFailed || o2 == Done || o2 == ReadFailed || o2 == WriteFailed
  {
    hide QuoteFree, ModeSticks, EffectiveMode, Changed, NginxFiles, ServiceFiles, PatchMainConf, WritesWork;
    hide IsLegacy, Toml, Partly;
    FixpointIff(h, h1, s, users, t, f1, f2);
    ModeAfterRun(h, h1, s, users, t, f1, f2);
    WrittenStubIsNotLegacy(h, s, users, t, f1);
    if Interrupted(h1, h2, s, users, t, f2) {
      PartOfNothing(h1.files, h2.files, Goal(h1.files, s, users, t, f2));
    }
  }

  lemma ModeAfterRun(h: HostState, h': HostState, s: Settings, users: seq<UserEntry>, t: Templates,
                     f1: Faults, f2: Faults)
    requires QuoteFree(ProxyConfig(s, EffectiveMode(h.files, s, f1), users)) && Calm(f2)
    requires ModeSticks(s, EffectiveMode(h.files, s, f1), users)
    requires h'.(loaded := h.loaded) == Target(h, s, users, t, f1)
    ensures EffectiveMode(h'.files, s, f2) == EffectiveMode(h.files, s, f1)
  {
    hide Toml, ModeSticks, EffectiveMode, Changed, NginxFiles, ServiceFiles, QuoteFree, IsLegacy, Target;
    TargetByPart(h, s, users, t, f1);
    RecordedModeCounts(h.files, s, f1);
    ModeSurvivesIff(h'.files, s, EffectiveMode(h.files, s, f1), users, f2);
  }

  lemma PartOfNothing(was: Files, now: Files, goal: Files)
    requires was + goal == was && Partly(was, now, goal)
    ensures now == was
  {
  }

  // ---- what is restarted ----

  /** A due service is restarted unless its own restart fails or that of a due service before
      it, in the order proxy, panel, nginx; nothing else is. */
  lemma RestartsStopAtFailure(due: Restarts, f: Faults)
    ensures var done := Restarted(due, f);
            && (done.proxy <==> due.proxy && !f.fails(Restart(ProxyService)))
            && (done.panel <==> due.panel && !f.fails(Restart(PanelService)) && (due.proxy ==> done.proxy))
            && (done.nginx <==> due.nginx && !f.fails(Restart(NginxService))
                                && (due.proxy ==> done.proxy) && (due.panel ==> done.panel))
  {
  }

  function Content(files: Files, k: FileKey): string {
    if k in files then files[k] else ""
  }

  /** When a restart is due: the proxy's follows teleproxy.toml, the panel's its unit, and
      nginx's whatever nginx reads. */
  lemma RestartsFollowChanges(h: HostState, s: Settings, users: seq<UserEntry>, t: Templates, f: Faults)
    requires Calm(f) && StubsDiffer(t)
    ensures var h' := Target(h, s, users, t, f);
            var due := Due(h, s, users, t, f);
            && (due.proxy <==> Content(h'.files, TeleproxyToml) != Content(h.files, TeleproxyToml))
            && (due.panel <==> Content(h'.files, PanelUnit) != Content(h.files, PanelUnit))
            && (due.nginx <==>
                || (exists k :: k in NGINX_KEYS + {StubIndex} && Content(h'.files, k) != Content(h.files, k))
                || h'.links != h.links
                || h'.defaultSite != h.defaultSite)
  {
    hide Toml, EffectiveMode, PatchMainConf, TrimLineEnds;
    var h' := Target(h, s, users, t, f);
    var goal := Changed(h.files, NginxFiles(h.files, s, t, f), f);
    TargetByPart(h, s, users, t, f);
    hide Target, Due, NginxFiles, ServiceFiles;
    forall k | k in goal
      ensures k in NGINX_KEYS && Content(h'.files, k) != Content(h.files, k)
    {
      PartsAreApart(h.files, s, EffectiveMode(h.files, s, f), users, t, f);
    }
    forall k | k in NGINX_KEYS && k !in goal
      ensures Content(h'.files, k) == Content(h.files, k)
    {
    }
    NginxDueIff(h, s, users, t, f, goal);
  }

  /** The gap: changed units of the proxy and of sing-box are written and never make any
      service due, so the processes go on under the units they were started from. */
  lemma ChangedUnitsRestartNothing(h: HostState, s: Settings, users: seq<UserEntry>, t: Templates, f: Faults,
                                   proxyUnit: string, singboxUnit: string)
    ensures var t' := t.(proxyUnit := proxyUnit, singboxUnit := singboxUnit);
            var h' := Target(h, s, users, t', f);
            && Due(h, s, users, t', f) == Due(h, s, users, t, f)
            && TeleproxyUnit in h'.files && h'.files[TeleproxyUnit] == proxyUnit
            && (EffectiveMode(h.files, s, f).Bridge? ==>
                  SingboxUnit in h'.files && h'.files[SingboxUnit] == singboxUnit)
  {
    hide PatchMainConf, Toml, EffectiveMode, Changed, NginxFiles, ServiceFiles, Target, Seen, TrimLineEnds;
    var t' := t.(proxyUnit := proxyUnit, singboxUnit := singboxUnit);
    var mode := EffectiveMode(h.files, s, f);
    NginxFilesIgnoreUnits(h.files, s, t, f, proxyUnit, singboxUnit);
    TargetByPart(h, s, users, t', f);
    ServiceFilesByKey(s, mode, users, t');
  }

  lemma NginxFilesIgnoreUnits(files: Files, s: Settings, t: Templates, f: Faults,
                              proxyUnit: string, singboxUnit: string)
    ensures NginxFiles(files, s, t.(proxyUnit := proxyUnit, singboxUnit := singboxUnit), f)
            == NginxFiles(files, s, t, f)
  {
    hide PatchMainConf, UsesAcme, HasTlsBackend;
  }

  lemma NginxDueIff(h: HostState, s: Settings, users: seq<UserEntry>, t: Templates, f: Faults, goal: Files)
    requires goal == Changed(h.files, NginxFiles(h.files, s, t, f), f)
    requires Calm(f) && StubsDiffer(t)
    ensures Due(h, s, users, t, f).nginx
            <==> goal != map[] || Target(h, s, users, t, f).links != h.links || IsLegacy(h.files, t)
                 || Target(h, s, users, t, f).defaultSite != h.defaultSite
    ensures Due(h, s, users, t, f).proxy
            <==> Content(h.files, TeleproxyToml) != Toml(s, EffectiveMode(h.files, s, f), users)
    ensures Due(h, s, users, t, f).panel <==> Content(h.files, PanelUnit) != t.panelUnit(s)
    ensures IsLegacy(h.files, t)
            <==> Content(Target(h, s, users, t, f).files, StubIndex) != Content(h.files, StubIndex)
  {
    hide Toml, EffectiveMode, PatchMainConf, TrimLineEnds, NginxFiles, ServiceFiles, Changed;
    TargetByPart(h, s, users, t, f);
  }

  /** After a run that succeeds, the proxy runs the configuration on disk exactly if the
      run changed it or the proxy already ran it: a restart is never made up for. */
  lemma ProxyIsLiveIff(h: HostState, h': HostState, restarts: Restarts,
                       s: Settings, users: seq<UserEntry>, t: Templates, f: Faults)
    requires Ran(h, h', Done, restarts, s, users, t, f) && Calm(f)
    ensures TeleproxyToml in h'.files
    ensures h'.loaded == h'.files[TeleproxyToml]
            <==> h.loaded == h'.files[TeleproxyToml]
                 || Content(h.files, TeleproxyToml) != h'.files[TeleproxyToml]
  {
    hide Toml, EffectiveMode, NginxFiles, ServiceFiles, Changed, WritesWork, Interrupted, Target, IsLegacy;
    TargetByPart(h, s, users, t, f);
    TargetKeepsLoaded(h, s, users, t, f);
  }

  /** The configuration on disk is the one the settings call for, and the proxy runs
      another. */
  predicate Stale(h: HostState, s: Settings, mode: Mode, users: seq<UserEntry>) {
    && TeleproxyToml in h.files && h.files[TeleproxyToml] == Toml(s, mode, users)
    && h.loaded != h.files[TeleproxyToml]
  }

  /** A run that wrote a new teleproxy.toml and stopped before the restart leaves the proxy
      on its old configuration. */
  lemma LostRestart(h: HostState, h': HostState, outcome: Outcome, restarts: Restarts,
                    s: Settings, users: seq<UserEntry>, t: Templates, f: Faults)
    requires Ran(h, h', outcome, restarts, s, users, t, f)
    requires outcome == WriteFailed || outcome == ReloadFailed || (outcome == RestartFailed && !f.landed)
    requires !f.fails(Write(TeleproxyToml)) && !restarts.proxy
    requires h.loaded != Toml(s, EffectiveMode(h.files, s, f), users)
    ensures Stale(h', s, EffectiveMode(h.files, s, f), users)
  {
    hide Toml, EffectiveMode, NginxFiles, ServiceFiles, Changed, WritesWork, Goal, IsLegacy;
    TargetByPart(h, s, users, t, f);
  }

  /** It happens: on every host whose proxy runs something else, a run in which nothing but
      the daemon reload fails. */
  lemma LostRestartHappens(h: HostState, s: Settings, users: seq<UserEntry>, t: Templates, f: Faults)
    requires forall c :: f.fails(c) <==> c == DaemonReload
    ensures var h' := Target(h, s, users, t, f);
            && Ran(h, h', ReloadFailed, NO_RESTARTS, s, users, t, f)
            && (h.loaded != Toml(s, EffectiveMode(h.files, s, f), users)
                ==> Stale(h', s, EffectiveMode(h.files, s, f), users))
  {
    hide Toml, EffectiveMode, NginxFiles, ServiceFiles, Changed, IsLegacy, WritesWork;
    hide Target, Due, Restarted, Interrupted, ReadsFail;
    OthersWork(h, s, t, f);
    TargetByPart(h, s, users, t, f);
    TargetKeepsLoaded(h, s, users, t, f);
  }

  lemma TargetKeepsLoaded(h: HostState, s: Settings, users: seq<UserEntry>, t: Templates, f: Faults)
    ensures Target(h, s, users, t, f).loaded == h.loaded
  {
    hide EffectiveMode, NginxFiles, ServiceFiles, Changed, IsLegacy;
  }

  lemma OthersWork(h: HostState, s: Settings, t: Templates, f: Faults)
    requires forall c :: f.fails(c) <==> c == DaemonReload
    ensures WritesWork(h, s, t, f) && !ReadsFail(f) && f.fails(DaemonReload) && !f.fails(Write(TeleproxyToml))
  {
    hide EffectiveMode, NginxFiles, Changed, IsLegacy, UsesAcme, HasTlsBackend, FileWorks;
    forall goal: Files, k: FileKey
      ensures FileWorks(goal, k, f)
    {
      EveryFileWorks(goal, k, f);
    }
  }

  lemma EveryFileWorks(goal: Files, k: FileKey, f: Faults)
    requires forall c :: f.fails(c) <==> c == DaemonReload
    ensures FileWorks(goal, k, f)
  {
  }

  datatype Run = Run(outcome: Outcome, restarts: Restarts, faults: Faults)

  /** No number of later runs with the same inputs, successful or not, makes up for it. */
  lemma {:induction false} StaleForever(hs: seq<HostState>, runs: seq<Run>,
                                        s: Settings, mode: Mode, users: seq<UserEntry>, t: Templates)
    requires |hs| == |runs| + 1 && Stale(hs[0], s, mode, users)
    requires forall i :: 0 <= i < |runs| ==>
               Calm(runs[i].faults)
               && Ran(hs[i], hs[i + 1], runs[i].outcome, runs[i].restarts, s, users, t, runs[i].faults)
    requires s.recordedMode.Some? ==> mode == s.recordedMode.value
    requires QuoteFree(ProxyConfig(s, mode, users)) && ModeSticks(s, mode, users)
    ensures Stale(hs[|runs|], s, mode, users)
  {
    hide Toml, EffectiveMode, QuoteFree, ModeSticks, Ran;
    if runs != [] {
      var last := |runs| - 1;
      StaleForever(hs[..|runs|], runs[..last], s, mode, users, t);
      var before, run := hs[last], runs[last];
      ModeSurvivesIff(before.files, s, mode, users, run.faults);
      TomlStays(before, hs[|runs|], run.outcome, run.restarts, s, users, t, run.faults);
    }
  }

  lemma TomlStays(h: HostState, h': HostState, outcome: Outcome, restarts: Restarts,
                  s: Settings, users: seq<UserEntry>, t: Templates, f: Faults)
    requires Ran(h, h', outcome, restarts, s, users, t, f) && Calm(f)
    requires TeleproxyToml in h.files && h.files[TeleproxyToml] == Toml(s, EffectiveMode(h.files, s, f), users)
    ensures TeleproxyToml in h'.files && h'.files[TeleproxyToml] == h.files[TeleproxyToml]
    ensures !restarts.proxy && h'.loaded == h.loaded
  {
    hide Toml, EffectiveMode, NginxFiles, ServiceFiles, Changed, WritesWork, NewStub, PatchMainConf, Goal, IsLegacy;
    TargetByPart(h, s, users, t, f);
    if Interrupted(h, h', s, users, t, f) {
      var goal := Goal(h.files, s, users, t, f);
      GoalToml(h.files, s, users, t, f);
      if Partly(h.files, h'.files, goal) {
        var keys :| h'.files == h.files + Only(goal, keys);
      } else {
        var keys :| h'.files - {StubIndex} == (h.files - {StubIndex}) + Only(goal - {StubIndex}, keys);
        assert TeleproxyToml in h'.files - {StubIndex};
      }
    }
  }

  lemma GoalToml(files: Files, s: Settings, users: seq<UserEntry>, t: Templates, f: Faults)
    ensures var goal := Goal(files, s, users, t, f);
            TeleproxyToml in goal && goal[TeleproxyToml] == Toml(s, EffectiveMode(files, s, f), users)
  {
    hide Toml, EffectiveMode, PatchMainConf, NginxFiles, ServiceFiles, Changed, NewStub;
    ServiceFilesByKey(s, EffectiveMode(files, s, f), users, t);
    PartsAreApart(files, s, EffectiveMode(files, s, f), users, t, f);
    assert TeleproxyToml !in NGINX_KEYS;
  }

  // ---- progress through the writes ----

  lemma NothingYet(was: Files, wanted: Files)
    ensures was == was + Only(wanted, {})
    ensures Partly(was, was, wanted)
  {
  }

  /** One more file done; a file that is not wanted takes no write. */
  lemma Advance(was: Files, wanted: Files, done: set<FileKey>, k: FileKey) returns (done': set<FileKey>)
    ensures done' == done + {k}
    ensures var before := was + Only(wanted, done);
            var after := was + Only(wanted, done');
            && after == (if k in wanted then before[k := wanted[k]] else before)
            && Partly(was, before, wanted) && Partly(was, after, wanted)
  {
    done' := done + {k};
    assert was + Only(wanted, done')
           == if k in wanted then (was + Only(wanted, done))[k := wanted[k]] else was + Only(wanted, done);
  }

  lemma AllWritten(wanted: Files, done: set<FileKey>)
    requires wanted.Keys <= done
    ensures Only(wanted, done) == wanted
  {
  }

  lemma AddPart(was: Files, first: Files, next: Files)
    ensures was + first + next == was + (first + next)
  {
  }

  lemma AllPartly(was: Files, wanted: Files)
    ensures Partly(was, was + wanted, wanted)
  {
    AllWritten(wanted, wanted.Keys);
    assert was + wanted == was + Only(wanted, wanted.Keys);
  }

  lemma PartlyFirst(was: Files, now: Files, first: Files, rest: Files)
    requires Partly(was, now, first) && first.Keys !! rest.Keys
    ensures Partly(was, now, first + rest)
  {
    var keys :| now == was + Only(first, keys);
    assert Only(first + rest, keys * first.Keys) == Only(first, keys);
    assert now == was + Only(first + rest, keys * first.Keys);
  }

  lemma PartlyElsewhere(was: Files, now: Files, wanted: Files, k: FileKey)
    requires Partly(was, now, wanted) && k !in wanted
    ensures (k in now <==> k in was) && (k in was ==> now[k] == was[k])
  {
  }

  lemma PartlyNext(was: Files, now: Files, first: Files, next: Files)
    requires Partly(was + first, now, next) && first.Keys !! next.Keys
    ensures Partly(was, now, first + next)
  {
    hide Only;
    var keys :| now == was + first + Only(next, keys);
    OnlyAfterAll(first, next, keys);
    AddPart(was, first, Only(next, keys));
    assert now == was + Only(first + next, first.Keys + keys);
  }

  lemma OnlyAfterAll(first: Files, next: Files, keys: set<FileKey>)
    requires first.Keys !! next.Keys
    ensures Only(first + next, first.Keys + keys) == first + Only(next, keys)
  {
  }

  lemma PartlyWithout(was: Files, now: Files, wanted: Files, k: FileKey)
    requires Partly(was, now, wanted)
    ensures Partly(was - {k}, now - {k}, wanted - {k})
  {
    var keys :| now == was + Only(wanted, keys);
    assert now - {k} == (was - {k}) + Only(wanted - {k}, keys);
  }

  lemma ServiceFilesByKey(s: Settings, mode: Mode, users: seq<UserEntry>, t: Templates)
    ensures var first := ServiceFiles(s, mode, users, t);
            && first.Keys <= {TeleproxyToml, TeleproxyUnit, PanelUnit, SingboxUnit}
            && TeleproxyToml in first && first[TeleproxyToml] == Toml(s, mode, users)
            && PanelUnit in first && first[PanelUnit] == t.panelUnit(s)
            && TeleproxyUnit in first && first[TeleproxyUnit] == t.proxyUnit
            && (SingboxUnit in first <==> mode.Bridge?)
            && (SingboxUnit in first ==> first[SingboxUnit] == t.singboxUnit)
  {
    hide Toml;
  }

  const SERVICE_KEYS := {TeleproxyToml, TeleproxyUnit, PanelUnit, SingboxUnit}
  const NGINX_KEYS := {MainConf, AcmeSnippet, StubSite, TlsStubSite, PanelSite}

  lemma NothingToWrite(goal: Files, k: FileKey, f: Faults)
    ensures k !in goal ==> FileWorks(goal, k, f)
  {
  }

  lemma OtherLink(goal: Files, links: set<Site>, other: Site, k: FileKey, site: Site, f: Faults)
    requires other != site
    ensures SiteWorks(goal, links + {other}, k, site, f) <==> SiteWorks(goal, links, k, site, f)
  {
  }

  lemma NoneChanged(goal: Files)
    requires goal.Keys <= {MainConf, AcmeSnippet, StubSite, TlsStubSite, PanelSite}
    ensures goal != map[] <==> MainConf in goal || AcmeSnippet in goal || StubSite in goal
                               || TlsStubSite in goal || PanelSite in goal
  {
  }

  /** What is written for nginx depends only on the nginx files. */
  lemma NginxGoalIsLocal(a: Files, b: Files, s: Settings, t: Templates, f: Faults)
    requires forall k :: k in NGINX_KEYS ==> (k in a <==> k in b) && (k in a ==> a[k] == b[k])
    ensures Changed(a, NginxFiles(a, s, t, f), f) == Changed(b, NginxFiles(b, s, t, f), f)
  {
    hide PatchMainConf, Changed, NginxFiles, Seen, UsesAcme, HasTlsBackend;
    NginxGoalByKey(a, s, t, f);
    NginxGoalByKey(b, s, t, f);
    forall k | k in NGINX_KEYS
      ensures Seen(a, k, f) == Seen(b, k, f)
    {
      SeenIsLocal(a, b, k, f);
    }
    assert MainConf in NGINX_KEYS && AcmeSnippet in NGINX_KEYS && StubSite in NGINX_KEYS;
    assert TlsStubSite in NGINX_KEYS && PanelSite in NGINX_KEYS;
    SameByKey(Changed(a, NginxFiles(a, s, t, f), f), Changed(b, NginxFiles(b, s, t, f), f));
  }

  lemma SeenIsLocal(a: Files, b: Files, k: FileKey, f: Faults)
    requires (k in a <==> k in b) && (k in a ==> a[k] == b[k])
    ensures Seen(a, k, f) == Seen(b, k, f)
  {
  }

  lemma SameByKey(a: Files, b: Files)
    requires a.Keys <= NGINX_KEYS && b.Keys <= NGINX_KEYS
    requires forall k :: k in NGINX_KEYS ==> (k in a <==> k in b) && (k in a ==> a[k] == b[k])
    ensures a == b
  {
  }

  /** The three parts write different files, and none changes what another goes by. */
  lemma PartsAreApart(was: Files, s: Settings, mode: Mode, users: seq<UserEntry>, t: Templates, f: Faults)
    ensures var first := ServiceFiles(s, mode, users, t);
            var second := Changed(was, NginxFiles(was, s, t, f), f);
            var third := NewStub(was, t);
            && first.Keys <= SERVICE_KEYS && second.Keys <= NGINX_KEYS && third.Keys <= {StubIndex}
            && TeleproxyToml in first && first[TeleproxyToml] == Toml(s, mode, users)
            && first.Keys !! second.Keys && (first + second).Keys !! third.Keys
            && Changed(was + first, NginxFiles(was + first, s, t, f), f) == second
            && NewStub(was + (first + second), t) == third
            && IsLegacy(was + (first + second), t) == IsLegacy(was, t)
            && (StubWorks(was + (first + second), t, f) <==> StubWorks(was, t, f))
  {
    hide PatchMainConf, Toml, Changed, NginxFiles, ServiceFiles, Seen, NewStub, IsLegacy, StubWorks;
    var first := ServiceFiles(s, mode, users, t);
    var second := Changed(was, NginxFiles(was, s, t, f), f);
    ServiceFilesByKey(s, mode, users, t);
    NginxGoalByKey(was, s, t, f);
    KeysApart(first, second);
    StubIsLocal(was, first + second, t, f);
    OthersStay(was, first);
    NginxGoalIsLocal(was, was + first, s, t, f);
  }

  lemma KeysApart(first: Files, second: Files)
    requires first.Keys <= SERVICE_KEYS && second.Keys <= NGINX_KEYS
    ensures first.Keys !! second.Keys && (first + second).Keys !! {StubIndex}
  {
    assert SERVICE_KEYS !! NGINX_KEYS && StubIndex !in SERVICE_KEYS && StubIndex !in NGINX_KEYS;
  }

  lemma StubIsLocal(was: Files, more: Files, t: Templates, f: Faults)
    requires StubIndex !in more
    ensures NewStub(was + more, t) == NewStub(was, t) && NewStub(was, t).Keys <= {StubIndex}
    ensures IsLegacy(was + more, t) == IsLegacy(was, t)
    ensures StubWorks(was + more, t, f) <==> StubWorks(was, t, f)
  {
    hide TrimLineEnds;
  }

  lemma OthersStay(was: Files, first: Files)
    requires first.Keys <= SERVICE_KEYS
    ensures forall k :: k in NGINX_KEYS ==>
              (k in was + first <==> k in was) && (k in was ==> (was + first)[k] == was[k])
  {
    assert SERVICE_KEYS !! NGINX_KEYS;
  }

  lemma InterruptedInServices(h: HostState, h': HostState, s: Settings, users: seq<UserEntry>, t: Templates, f: Faults)
    requires h' == h.(files := h'.files)
    requires var mode := EffectiveMode(h.files, s, f);
             && Partly(h.files, h'.files, ServiceFiles(s, mode, users, t))
             && (!f.fails(Write(TeleproxyToml)) ==>
                   TeleproxyToml in h'.files && h'.files[TeleproxyToml] == Toml(s, mode, users))
    ensures Interrupted(h, h', s, users, t, f)
  {
    hide Toml, Changed, NginxFiles, ServiceFiles, NewStub, Partly, Sites, EffectiveMode;
    var mode := EffectiveMode(h.files, s, f);
    var first := ServiceFiles(s, mode, users, t);
    var second := Changed(h.files, NginxFiles(h.files, s, t, f), f);
    PartsAreApart(h.files, s, mode, users, t, f);
    PartlyFirst(h.files, h'.files, first, second);
    PartlyFirst(h.files, h'.files, first + second, NewStub(h.files, t));
  }

  lemma NotAllWritten(h: HostState, h': HostState, due: Restarts,
                      s: Settings, users: seq<UserEntry>, t: Templates, f: Faults)
    requires Interrupted(h, h', s, users, t, f)
    requires !ServiceWritesWork(EffectiveMode(h.files, s, f), f)
             || !NginxWritesWork(Changed(h.files, NginxFiles(h.files, s, t, f), f), h.links, s, f)
             || !StubWorks(h.files, t, f)
    ensures Wrote(h, h', due, false, s, users, t, f)
  {
    hide Interrupted, Changed, NginxFiles, EffectiveMode, ServiceWritesWork, NginxWritesWork, StubWorks;
  }

  lemma EverythingWritten(h: HostState, h': HostState, due: Restarts, first: Files, second: Files, third: Files,
                          s: Settings, users: seq<UserEntry>, t: Templates, f: Faults)
    requires var mode := EffectiveMode(h.files, s, f);
             && first == ServiceFiles(s, mode, users, t)
             && second == Changed(h.files, NginxFiles(h.files, s, t, f), f)
             && third == NewStub(h.files, t)
             && ServiceWritesWork(mode, f) && NginxWritesWork(second, h.links, s, f) && StubWorks(h.files, t, f)
             && due == Restarts(Seen(h.files, TeleproxyToml, f) != Toml(s, mode, users),
                                Seen(h.files, PanelUnit, f) != t.panelUnit(s),
                                second != map[] || !(Sites(s) <= h.links) || IsLegacy(h.files, t))
    requires h' == HostState(h.files + (first + second + third), h.links + Sites(s), h.defaultSite, h.loaded)
    requires TeleproxyToml in first
    ensures Wrote(h, h', due, true, s, users, t, f)
  {
    hide Toml, Changed, NginxFiles, ServiceFiles, NewStub, EffectiveMode, Seen, IsLegacy, Sites, Interrupted;
    hide ServiceWritesWork, NginxWritesWork, StubWorks;
  }

  lemma InterruptedInNginx(h: HostState, h': HostState, s: Settings, users: seq<UserEntry>, t: Templates, f: Faults)
    requires h' == h.(files := h'.files, links := h'.links) && h.links <= h'.links <= h.links + Sites(s)
    requires var mode := EffectiveMode(h.files, s, f);
             var first := ServiceFiles(s, mode, users, t);
             Partly(h.files + first, h'.files, Changed(h.files, NginxFiles(h.files, s, t, f), f))
    ensures Interrupted(h, h', s, users, t, f)
  {
    hide Toml, Changed, NginxFiles, ServiceFiles, NewStub, Partly, Sites, EffectiveMode;
    var mode := EffectiveMode(h.files, s, f);
    var first := ServiceFiles(s, mode, users, t);
    var second := Changed(h.files, NginxFiles(h.files, s, t, f), f);
    PartsAreApart(h.files, s, mode, users, t, f);
    PartlyElsewhere(h.files + first, h'.files, second, TeleproxyToml);
    PartlyNext(h.files, h'.files, first, second);
    PartlyFirst(h.files, h'.files, first + second, NewStub(h.files, t));
  }

  lemma InterruptedInStub(h: HostState, h': HostState, written: Files,
                          s: Settings, users: seq<UserEntry>, t: Templates, f: Faults)
    requires h' == h.(files := h'.files, links := h.links + Sites(s))
    requires var mode := EffectiveMode(h.files, s, f);
             var first := ServiceFiles(s, mode, users, t);
             written == h.files + (first + Changed(h.files, NginxFiles(h.files, s, t, f), f))
    requires h'.files == written
             || (IsLegacy(h.files, t) && f.fails(Write(StubIndex)) && f.torn.Some?
                 && h'.files == written[StubIndex := f.torn.value])
    ensures Interrupted(h, h', s, users, t, f)
  {
    hide Toml, Changed, NginxFiles, ServiceFiles, NewStub, Partly, Sites, EffectiveMode;
    var mode := EffectiveMode(h.files, s, f);
    var first := ServiceFiles(s, mode, users, t);
    var second := Changed(h.files, NginxFiles(h.files, s, t, f), f);
    var third := NewStub(h.files, t);
    PartsAreApart(h.files, s, mode, users, t, f);
    AllPartly(h.files, first + second);
    PartlyFirst(h.files, written, first + second, third);
    if h'.files != written {
      assert written - {StubIndex} == h'.files - {StubIndex};
      PartlyWithout(h.files, written, first + second + third, StubIndex);
    }
  }

  lemma SeenOfOther(was: Files, wanted: Files, done: set<FileKey>, k: FileKey, f: Faults)
    requires k !in done
    ensures Seen(was + Only(wanted, done), k, f) == Seen(was, k, f)
  {
  }

  /** The nginx files to be written, one by one. */
  lemma NginxGoalByKey(files: Files, s: Settings, t: Templates, f: Faults)
    ensures var goal := Changed(files, NginxFiles(files, s, t, f), f);
            && (MainConf in goal <==> MainConf in files && !f.fails(ReadMainConf)
                                      && Seen(files, MainConf, f) != PatchMainConf(files[MainConf]))
            && (MainConf in goal ==> goal[MainConf] == PatchMainConf(files[MainConf]))
            && (AcmeSnippet in goal <==> UsesAcme(s) && Seen(files, AcmeSnippet, f) != t.acmeSnippet)
            && (AcmeSnippet in goal ==> goal[AcmeSnippet] == t.acmeSnippet)
            && (StubSite in goal <==> Seen(files, StubSite, f) != t.stubSite(UsesAcme(s)))
            && (StubSite in goal ==> goal[StubSite] == t.stubSite(UsesAcme(s)))
            && (TlsStubSite in goal <==> HasTlsBackend(s) && Seen(files, TlsStubSite, f) != t.tlsStubSite(s))
            && (TlsStubSite in goal ==> goal[TlsStubSite] == t.tlsStubSite(s))
            && (PanelSite in goal <==> HasTlsBackend(s) && Seen(files, PanelSite, f) != t.panelSite(s))
            && (PanelSite in goal ==> goal[PanelSite] == t.panelSite(s))
            && goal.Keys <= {MainConf, AcmeSnippet, StubSite, TlsStubSite, PanelSite}
  {
    hide PatchMainConf, Seen, UsesAcme, HasTlsBackend, NginxFiles, Changed;
    NginxFilesByKey(files, s, t, f);
    ChangedByKey(files, NginxFiles(files, s, t, f), f);
  }

  lemma NginxFilesByKey(files: Files, s: Settings, t: Templates, f: Faults)
    ensures var wanted := NginxFiles(files, s, t, f);
            && (MainConf in wanted <==> MainConf in files && !f.fails(ReadMainConf))
            && (MainConf in wanted ==> wanted[MainConf] == PatchMainConf(files[MainConf]))
            && (AcmeSnippet in wanted <==> UsesAcme(s))
            && (AcmeSnippet in wanted ==> wanted[AcmeSnippet] == t.acmeSnippet)
            && StubSite in wanted && wanted[StubSite] == t.stubSite(UsesAcme(s))
            && (TlsStubSite in wanted <==> HasTlsBackend(s)) && (PanelSite in wanted <==> HasTlsBackend(s))
            && (TlsStubSite in wanted ==> wanted[TlsStubSite] == t.tlsStubSite(s))
            && (PanelSite in wanted ==> wanted[PanelSite] == t.panelSite(s))
            && wanted.Keys <= {MainConf, AcmeSnippet, StubSite, TlsStubSite, PanelSite}
  {
    hide PatchMainConf, UsesAcme, HasTlsBackend;
  }

  lemma ChangedByKey(files: Files, wanted: Files, f: Faults)
    ensures var changed := Changed(files, wanted, f);
            && changed.Keys <= wanted.Keys
            && (forall k :: k in wanted ==> (k in changed <==> Seen(files, k, f) != wanted[k]))
            && (forall k :: k in changed ==> changed[k] == wanted[k])
  {
    hide Seen;
  }
}
