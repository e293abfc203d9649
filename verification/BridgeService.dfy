/** Switching between Single and Bridge mode: three files and two services, changed step
    by step, with a rollback when any step fails. */
module BridgeService {
  import opened Options
  import opened ProxyUsers
  import opened Nodes
  import T = Teleproxy

  const SOCKS5_ADDR := "127.0.0.1:1080"

  /** A failed in-place write may leave a file that cannot be read. */
  datatype File<T> = Missing | Torn | Holds(content: T)

  /** Every call that can fail. Queries of service states are answered truthfully. */
  datatype Call =
    // forward calls
    | LoadNodes | SnapshotNodes | SaveNodes | Download
    | WriteSingbox | SaveCursor | WriteUnit | WriteToml
    | EnableSingbox | StartSingbox | RestartTeleproxy
    | StopSingbox | DisableSingbox | SnapshotToml
    | ListUsers | SaveSetting
    // a service that was started but is not active when it is checked
    | SingboxDies | TeleproxyDies
    // calls made to undo
    | SnapshotSingbox | RestoreSingbox | RestoreNodes | RestoreToml
    | RestoreStop | RestoreDisable | RestoreRestart | RestoreStart

  /** One schedule of failures: which calls fail, whether a failed write tears its file,
      and whether a service is up after a failed start or stop. */
  datatype Faults = Faults(fails: Call -> bool, tears: bool, up: bool)

  predicate RestoresWork(f: Faults) {
    && !f.fails(SnapshotSingbox) && !f.fails(RestoreSingbox) && !f.fails(RestoreNodes)
    && !f.fails(RestoreToml) && !f.fails(RestoreStop) && !f.fails(RestoreDisable)
    && !f.fails(RestoreRestart) && !f.fails(RestoreStart)
  }

  /** Load: a missing list is empty, a torn one an error. */
  function Loaded(file: File<NodeList>): Option<NodeList> {
    match file
    case Missing => Some(NO_NODES)
    case Torn => None
    case Holds(nl) => Some(nl)
  }

  function Readable<T>(file: File<T>): Option<T> {
    if file.Holds? then Some(file.content) else None
  }

  /** The list Enable saves first. */
  function WithNode(nl: NodeList, node: Node, strategy: string): NodeList {
    NodeList(nl.nodes + [node.(id := MaxId(nl.nodes) + 1, enabled := true)],
             if strategy != "" then NormalizeStrategy(strategy) else nl.strategy,
             nl.roundRobinCursor)
  }

  /** The list that is stored once it has been rendered. */
  function AfterRender(nl: NodeList): NodeList {
    CursorMoved(nl, NormalizeStrategy(nl.strategy))
  }

  /** Rendering and storing the list gets through. */
  predicate Renders(nl: NodeList, f: Faults) {
    && EnoughNodes(nl)
    && !f.fails(WriteSingbox)
    && (AfterRender(nl) != nl ==> !f.fails(SaveCursor))
  }

  class Host {
    var nodesFile: File<NodeList>
    var singboxJson: File<Document>
    var singboxUnit: File<string>
    var toml: File<T.Config>
    var sbActive: bool
    /** The document sing-box was last started with; a running one does not read it again. */
    var loaded: Option<Document>
    var sbEnabled: bool
    var tpActive: bool
    var modeSetting: string
    const settings: T.Config
    const unit: string

    constructor (settings: T.Config, unit: string)
      ensures Sound()
      ensures this.settings == settings && this.unit == unit
    {
      nodesFile, singboxJson, singboxUnit, toml := Missing, Missing, Missing, Missing;
      sbActive, loaded, sbEnabled, tpActive, modeSetting := false, None, false, false, "";
      this.settings, this.unit := settings, unit;
    }

    /** What every handler keeps: node ids are pairwise distinct, and while sing-box runs
        its configuration lists exactly the enabled nodes, enough of them for the strategy. */
    ghost predicate Sound()
      reads this
    {
      && (nodesFile.Holds? ==> DistinctIds(nodesFile.content.nodes))
      && (sbActive ==> InStep())
    }

    /** sing-box.json lists exactly the enabled nodes of the stored list, enough of them for
        the strategy. */
    predicate InStep()
      reads this
    {
      && nodesFile.Holds? && singboxJson.Holds?
      && EnoughNodes(nodesFile.content)
      && Lists(singboxJson.content, nodesFile.content)
    }

    /** A running sing-box works by the document on disk. */
    predicate Live()
      reads this
    {
      sbActive ==> singboxJson.Holds? && loaded == Readable(singboxJson)
    }

    /** sing-box starts without any handler: its unit restarts it five seconds after it
        failed, or someone starts it. That is sound exactly if the files are in step. */
    method SingboxStarts() returns (sound: bool)
      requires Sound()
      modifies this`sbActive, this`loaded
      ensures sbActive && loaded == Readable(singboxJson)
      ensures sound <==> Sound()
      ensures sound <==> old(InStep())
    {
      sbActive, loaded := true, Readable(singboxJson);
      sound := InStep();
    }

    function SingleConfig(users: seq<UserEntry>): T.Config {
      settings.(socks5Addr := "", users := users)
    }

    function BridgeConfig(users: seq<UserEntry>): T.Config {
      settings.(socks5Addr := SOCKS5_ADDR, users := users)
    }

    // ---- single steps ----

    method WriteSingboxJson(d: Document, fails: bool, f: Faults) returns (ok: bool)
      modifies this`singboxJson
      ensures ok == !fails
      ensures singboxJson == if ok then Holds(d) else if f.tears then Torn else old(singboxJson)
    {
      if fails {
        if f.tears { singboxJson := Torn; }
        return false;
      }
      singboxJson := Holds(d);
      return true;
    }

    method WriteTeleproxyToml(c: File<T.Config>, fails: bool, f: Faults) returns (ok: bool)
      modifies this`toml
      ensures ok == !fails
      ensures toml == if ok then c else if f.tears then Torn else old(toml)
    {
      if fails {
        if f.tears { toml := Torn; }
        return false;
      }
      toml := c;
      return true;
    }

    // ---- Enable ----

    /** Everything forward in Enable works. */
    ghost predicate EnableWorks(node: Node, strategy: string, downloads: bool, f: Faults)
      reads this
    {
      && Saves(f)
      && (downloads ==> !f.fails(Download))
      && Renders(WithNode(Loaded(nodesFile).value, node, strategy), f)
      && !f.fails(WriteUnit) && !f.fails(WriteToml)
      && !f.fails(EnableSingbox) && !f.fails(StartSingbox) && !f.fails(RestartTeleproxy)
      && !f.fails(SingboxDies) && !f.fails(TeleproxyDies)
    }

    /** Enable gets as far as changing the stored node list. */
    ghost predicate Saves(f: Faults)
      reads this
    {
      !f.fails(LoadNodes) && Loaded(nodesFile).Some? && !f.fails(SnapshotNodes) && !f.fails(SaveNodes)
    }

    /** Enable is all or nothing. It returns no error exactly when every step works, and
        then the node is appended with a fresh id, sing-box.json and a SOCKS5 config are
        written and both services are up. An error before the list is saved changes
        nothing; any later one leaves the list as it was, a Single config and sing-box
        stopped and disabled, each as far as its own restoring call works. */
    method Enable(node: Node, users: seq<UserEntry>, strategy: string, downloads: bool, f: Faults)
        returns (ok: bool)
      modifies this
      ensures ok <==> old(EnableWorks(node, strategy, downloads, f))
      ensures ok ==>
                var nl := WithNode(Loaded(old(nodesFile)).value, node, strategy);
                && nodesFile == Holds(AfterRender(nl))
                && DocumentOf(nl).Some? && singboxJson == Holds(DocumentOf(nl).value)
                && singboxUnit == Holds(unit)
                && toml == Holds(settings.(socks5Addr := "127.0.0.1:1080", users := users))
                && sbActive && sbEnabled && tpActive && Live()
      ensures !old(Saves(f)) ==> unchanged(this)
      ensures old(Saves(f)) && !ok ==>
                && (!f.fails(RestoreNodes) ==> nodesFile == old(nodesFile))
                && (!f.fails(RestoreToml) ==> toml == Holds(settings.(socks5Addr := "", users := users)))
                && (!f.fails(RestoreStop) ==> !sbActive)
                && (!f.fails(RestoreDisable) ==> !sbEnabled)
                && (!f.fails(RestoreRestart) ==> tpActive)
      ensures modeSetting == old(modeSetting)
      ensures old(Sound()) && RestoresWork(f) ==> Sound()
    {
      hide Lists, EnoughNodes, DocumentOf, WithNode, AfterRender, NormalizeStrategy, DistinctIds, MaxId, Renders;
      if f.fails(LoadNodes) || nodesFile.Torn? {
        return false;
      }
      var nl := if nodesFile.Holds? then nodesFile.content else NO_NODES;
      if f.fails(SnapshotNodes) {
        return false;
      }
      var snapshot := nodesFile;
      nl := Added(nl, node, strategy);
      if f.fails(SaveNodes) {
        return false;
      }
      nodesFile := Holds(nl);
      NoNodesAreDistinct();
      AddedKeepsDistinct(Loaded(snapshot).value, node, strategy);
      ok := EnableSaved(nl, users, downloads, f);
      if !ok {
        Rollback(snapshot, users, f);
      } else {
        SavedIsSound(nl, singboxJson.content);
      }
    }

    /** The list Enable saves: the node under the next free id. */
    method Added(nl: NodeList, node: Node, strategy: string) returns (added: NodeList)
      ensures added == WithNode(nl, node, strategy)
    {
      hide MaxId, NormalizeStrategy;
      var fresh' := NextId(nl.nodes);
      added := nl.(nodes := nl.nodes + [node.(id := fresh', enabled := true)]);
      if strategy != "" {
        added := added.(strategy := NormalizeStrategy(strategy));
      }
    }

    /** Rendering: the document, if the list has enough nodes for one, and the list with its
        cursor moved on. */
    method RenderDocument(nl: NodeList) returns (doc: Option<Document>, rendered: NodeList)
      ensures doc == DocumentOf(nl)
      ensures rendered == AfterRender(nl)
    {
      hide RenderOrder, CursorMoved, ToOutbounds, NormalizeStrategy, ConfigValid, Build;
      var strategy := NormalizeStrategy(nl.strategy);
      var outbounds;
      outbounds, rendered := RenderOutbounds(nl, strategy);
      var c := SingboxConfig(strategy, outbounds);
      doc := if ConfigValid(c) then Some(Build(c)) else None;
    }

    /** The steps of Enable after the list is saved, up to the health check. */
    method EnableSaved(nl: NodeList, users: seq<UserEntry>, downloads: bool, f: Faults) returns (ok: bool)
      requires nodesFile == Holds(nl)
      modifies this`nodesFile, this`singboxJson, this`singboxUnit, this`toml,
               this`sbActive, this`loaded, this`sbEnabled, this`tpActive
      ensures ok <==>
                && (downloads ==> !f.fails(Download)) && Renders(nl, f)
                && !f.fails(WriteUnit) && !f.fails(WriteToml)
                && !f.fails(EnableSingbox) && !f.fails(StartSingbox) && !f.fails(RestartTeleproxy)
                && !f.fails(SingboxDies) && !f.fails(TeleproxyDies)
      ensures ok ==>
                && nodesFile == Holds(AfterRender(nl))
                && DocumentOf(nl).Some? && singboxJson == Holds(DocumentOf(nl).value)
                && singboxUnit == Holds(unit) && toml == Holds(BridgeConfig(users))
                && sbActive && sbEnabled && tpActive && Live()
    {
      hide Lists, EnoughNodes, DocumentOf, AfterRender;
      if downloads && f.fails(Download) {
        return false;
      }
      var doc, rendered := RenderDocument(nl);
      DocumentListsEnabled(nl);
      OnlyCursorMoves(nl);
      if doc.None? {
        return false;
      }
      ok := WriteSingboxJson(doc.value, f.fails(WriteSingbox), f);
      if !ok { return; }
      if rendered.roundRobinCursor != nl.roundRobinCursor {
        if f.fails(SaveCursor) {
          return false;
        }
        nodesFile := Holds(rendered);
      }
      if f.fails(WriteUnit) {
        if f.tears { singboxUnit := Torn; }
        return false;
      }
      singboxUnit := Holds(unit);
      ok := WriteTeleproxyToml(Holds(BridgeConfig(users)), f.fails(WriteToml), f);
      if ok {
        ok := StartServices(f);
      }
    }

    /** sing-box is enabled and started, teleproxy restarted, and both are checked. */
    method StartServices(f: Faults) returns (ok: bool)
      modifies this`sbActive, this`loaded, this`sbEnabled, this`tpActive
      ensures ok <==> !f.fails(EnableSingbox) && !f.fails(StartSingbox) && !f.fails(RestartTeleproxy)
                      && !f.fails(SingboxDies) && !f.fails(TeleproxyDies)
      ensures ok ==> sbActive && sbEnabled && tpActive && loaded == Readable(singboxJson)
    {
      if f.fails(EnableSingbox) {
        return false;
      }
      sbEnabled := true;
      if f.fails(StartSingbox) {
        sbActive := f.up;
        return false;
      }
      sbActive, loaded := !f.fails(SingboxDies), Readable(singboxJson);
      if f.fails(RestartTeleproxy) {
        tpActive := f.up;
        return false;
      }
      tpActive := !f.fails(TeleproxyDies);
      return sbActive && tpActive;
    }

    /** rollback: every part is attempted whatever happens to the others. */
    method Rollback(snapshot: File<NodeList>, users: seq<UserEntry>, f: Faults)
      modifies this`nodesFile, this`toml, this`sbActive, this`sbEnabled, this`tpActive
      ensures !f.fails(RestoreNodes) ==> nodesFile == snapshot
      ensures !f.fails(RestoreToml) ==> toml == Holds(SingleConfig(users))
      ensures !f.fails(RestoreStop) ==> !sbActive
      ensures !f.fails(RestoreDisable) ==> !sbEnabled
      ensures !f.fails(RestoreRestart) ==> tpActive
    {
      if !f.fails(RestoreNodes) {
        nodesFile := snapshot;
      }
      var _ := WriteTeleproxyToml(Holds(SingleConfig(users)), f.fails(RestoreToml), f);
      if !f.fails(RestoreStop) {
        sbActive := false;
      }
      if !f.fails(RestoreDisable) {
        sbEnabled := false;
      }
      tpActive := if f.fails(RestoreRestart) then f.up else true;
    }

    // ---- Disable ----

    /** Disable returns no error exactly when every step works; then sing-box is stopped
        and disabled and teleproxy runs on a Single config. If stopping or disabling fails
        nothing is undone: teleproxy.toml keeps its contents, and after a failed disable
        sing-box stays stopped. If writing, restarting or the check fails, an existing
        teleproxy.toml gets its contents back and sing-box its prior activity, but
        sing-box stays disabled at boot. */
    method Disable(users: seq<UserEntry>, f: Faults) returns (ok: bool)
      modifies this`toml, this`sbActive, this`loaded, this`sbEnabled, this`tpActive
      ensures ok <==> !f.fails(SnapshotToml) && !f.fails(StopSingbox) && !f.fails(DisableSingbox)
                      && !f.fails(WriteToml) && !f.fails(RestartTeleproxy) && !f.fails(TeleproxyDies)
      ensures ok ==> toml == Holds(settings.(socks5Addr := "", users := users))
      ensures ok ==> !sbActive && !sbEnabled && tpActive
      ensures f.fails(SnapshotToml) ==> unchanged(this)
      ensures !f.fails(SnapshotToml) && f.fails(StopSingbox) ==>
                toml == old(toml) && sbEnabled == old(sbEnabled) && tpActive == old(tpActive)
      ensures !f.fails(SnapshotToml) && !f.fails(StopSingbox) && f.fails(DisableSingbox) ==>
                toml == old(toml) && !sbActive && sbEnabled == old(sbEnabled) && tpActive == old(tpActive)
      ensures !ok && !f.fails(SnapshotToml) && !f.fails(StopSingbox) && !f.fails(DisableSingbox) ==>
                && (!f.fails(RestoreToml) && old(toml) != Missing ==> toml == old(toml))
                && (!f.fails(RestoreStart) ==> sbActive == old(sbActive))
                && !sbEnabled
                && (!f.fails(RestoreToml) && !f.fails(RestoreRestart) && old(toml) != Missing ==> tpActive)
      ensures RestoresWork(f) && sbActive ==> old(sbActive)
    {
      if f.fails(SnapshotToml) {
        return false;
      }
      var snapshot := toml;
      var sbWasActive := sbActive;
      if f.fails(StopSingbox) {
        sbActive := sbActive && f.up;
        return false;
      }
      sbActive := false;
      if f.fails(DisableSingbox) {
        return false;
      }
      sbEnabled := false;
      ok := WriteTeleproxyToml(Holds(SingleConfig(users)), f.fails(WriteToml), f);
      if ok {
        if f.fails(RestartTeleproxy) {
          tpActive := f.up;
          ok := false;
        } else {
          tpActive := !f.fails(TeleproxyDies);
          ok := tpActive;
        }
      }
      if !ok {
        DisableRollback(snapshot, sbWasActive, f);
      }
    }

    method DisableRollback(snapshot: File<T.Config>, sbWasActive: bool, f: Faults)
      modifies this`toml, this`sbActive, this`loaded, this`tpActive
      ensures !f.fails(RestoreToml) && snapshot != Missing ==> toml == snapshot
      ensures snapshot == Missing ==> toml == old(toml)
      ensures !f.fails(RestoreStart) && sbWasActive ==> sbActive && loaded == Readable(singboxJson)
      ensures !sbWasActive ==> sbActive == old(sbActive)
      ensures !f.fails(RestoreToml) && !f.fails(RestoreRestart) && snapshot != Missing ==> tpActive
    {
      if snapshot != Missing {
        var ok := WriteTeleproxyToml(snapshot, f.fails(RestoreToml), f);
        if ok {
          tpActive := if f.fails(RestoreRestart) then f.up else true;
        }
      }
      if sbWasActive {
        if f.fails(RestoreStart) {
          sbActive := f.up;
        } else {
          sbActive, loaded := true, Readable(singboxJson);
        }
      }
    }

    // ---- RerenderConfig ----

    /** Re-renders sing-box.json from a node list; a running sing-box goes on with what it
        loaded. On success the file holds the list's document and the moved cursor is
        stored; on failure an existing file gets its contents back. */
    method RerenderConfig(nl: NodeList, f: Faults) returns (ok: bool)
      requires nodesFile == Holds(nl)
      modifies this`nodesFile, this`singboxJson
      ensures ok <==> Renders(nl, f)
      ensures ok ==> nodesFile == Holds(AfterRender(nl))
                     && DocumentOf(nl).Some? && singboxJson == Holds(DocumentOf(nl).value)
      ensures !ok ==> nodesFile == Holds(nl)
      ensures !ok && old(singboxJson) != Missing && !f.fails(SnapshotSingbox) && !f.fails(RestoreSingbox)
              ==> singboxJson == old(singboxJson)
    {
      hide Lists, EnoughNodes, DocumentOf, AfterRender, EnabledOf;
      DocumentListsEnabled(nl);
      NoneIsNotEnough(nl);
      OnlyCursorMoves(nl);
      var active := Active(nl.nodes);
      if |active| == 0 {
        return false;
      }
      var doc, rendered := RenderDocument(nl);
      if doc.None? {
        return false;
      }
      var snapshot := if f.fails(SnapshotSingbox) then Missing else singboxJson;
      ok := WriteSingboxJson(doc.value, f.fails(WriteSingbox), f);
      if ok {
        if rendered.roundRobinCursor != nl.roundRobinCursor {
          if f.fails(SaveCursor) {
            ok := false;
          } else {
            nodesFile := Holds(rendered);
          }
        }
      }
      if !ok && snapshot != Missing && !f.fails(RestoreSingbox) {
        singboxJson := snapshot;
      }
    }
  }

  /** What the two switches write is read back as the mode switched to. */
  lemma SwitchIsReadBack(settings: T.Config, users: seq<UserEntry>)
    requires var c := settings.(socks5Addr := "", users := users); T.QuoteFree(c) && T.SpaceFree(c)
    ensures T.DetectMode(T.Render(settings.(socks5Addr := "127.0.0.1:1080", users := users))) == T.Bridge
    ensures T.DetectMode(T.Render(settings.(socks5Addr := "", users := users))) == T.Single
  {
    hide T.DetectMode, T.Render;
    var c := settings.(socks5Addr := "127.0.0.1:1080", users := users);
    AddressIsQuoteFree();
    assert T.DomainName(c) == T.DomainName(settings.(socks5Addr := "", users := users));
    T.DetectModeInvertsRender(c);
    T.DetectModeInvertsRender(settings.(socks5Addr := "", users := users));
  }

  lemma AddressIsQuoteFree()
    ensures '"' !in "127.0.0.1:1080"
  {
  }

  lemma AppendingFreshId(nodes: seq<Node>, n: Node)
    requires n.id == MaxId(nodes) + 1
    ensures DistinctIds(nodes) ==> DistinctIds(nodes + [n])
  {
  }

  lemma NoNodesAreDistinct()
    ensures DistinctIds(NO_NODES.nodes)
  {
  }

  lemma AddedKeepsDistinct(nl: NodeList, node: Node, strategy: string)
    ensures DistinctIds(nl.nodes) ==> DistinctIds(WithNode(nl, node, strategy).nodes)
  {
    hide DistinctIds, MaxId, NormalizeStrategy;
    AppendingFreshId(nl.nodes, node.(id := MaxId(nl.nodes) + 1, enabled := true));
  }

  lemma OnlyCursorMoves(nl: NodeList)
    ensures AfterRender(nl) == nl.(roundRobinCursor := AfterRender(nl).roundRobinCursor)
  {
    RenderIsRotation(nl, NormalizeStrategy(nl.strategy));
  }

  lemma NoneIsNotEnough(nl: NodeList)
    ensures EnoughNodes(nl) ==> |EnabledOf(nl.nodes)| > 0
  {
    hide EnabledOf, NormalizeStrategy;
  }

  /** Stored and rendered, the list and the document agree even after the cursor has moved. */
  lemma SavedIsSound(updated: NodeList, doc: Document)
    requires DocumentOf(updated) == Some(doc)
    ensures EnoughNodes(AfterRender(updated)) && Lists(doc, AfterRender(updated))
    ensures AfterRender(updated).nodes == updated.nodes && AfterRender(updated).strategy == updated.strategy
  {
    hide Lists, EnoughNodes, DocumentOf, AfterRender;
    DocumentListsEnabled(updated);
    ListsIgnoresCursor(doc, updated, AfterRender(updated).roundRobinCursor);
    OnlyCursorMoves(updated);
  }
}
