/** The panel handlers that edit the bridge's node list and switch modes. Handlers run one
    at a time; `users` are the entries read from the users table. */
module BridgePanel {
  import opened Options
  import opened ProxyUsers
  import opened Nodes
  import opened BridgeService

  /** A handler refuses before changing anything, applies its change, or fails after it
      has begun and takes the change back. */
  datatype Answer = Refused | Done | RolledBack

  const MODE_BRIDGE := "bridge"
  const MODE_SINGLE := "single"

  // ---- edits of the list ----

  function IndexOfNode(nodes: seq<Node>, id: int): (i: int)
    ensures -1 <= i < |nodes|
    ensures i >= 0 ==> nodes[i].id == id
    ensures i < 0 ==> !HasId(nodes, id)
  {
    if nodes == [] then -1
    else if nodes[0].id == id then 0
    else
      var i := IndexOfNode(nodes[1..], id);
      assert forall j :: 1 <= j < |nodes| ==> nodes[j] == nodes[1..][j - 1];
      if i < 0 then -1 else i + 1
  }

  /** The fields the edit form changes; credentials are not among them. */
  datatype NodeEdit = NodeEdit(
    tag: string, host: string, port: int, sni: string, flow: string, cipher: string,
    congestionControl: string, fingerprint: string)

  function EditedNode(n: Node, e: NodeEdit): Node {
    var m := n.(tag := e.tag, host := e.host, port := e.port, sni := e.sni, flow := e.flow,
                cipher := e.cipher, congestionControl := e.congestionControl);
    if n.kind == VLESS_REALITY
    then m.(fingerprint := if e.fingerprint == "" then "chrome" else e.fingerprint) else m
  }

  function WithEdit(nodes: seq<Node>, id: int, e: NodeEdit): seq<Node> {
    var i := IndexOfNode(nodes, id);
    if i < 0 then nodes else nodes[i := EditedNode(nodes[i], e)]
  }

  function Edited(nl: NodeList, id: int, e: NodeEdit): NodeList {
    nl.(nodes := WithEdit(nl.nodes, id, e))
  }

  function WithToggle(nodes: seq<Node>, id: int): seq<Node> {
    var i := IndexOfNode(nodes, id);
    if i < 0 then nodes else nodes[i := nodes[i].(enabled := !nodes[i].enabled)]
  }

  function WithLatency(nodes: seq<Node>, id: int, latency: int, checked: int): seq<Node> {
    var i := IndexOfNode(nodes, id);
    if i < 0 then nodes else nodes[i := nodes[i].(lastLatency := latency, lastChecked := Some(checked))]
  }

  /** Every node but those with the id. */
  function Without(nodes: seq<Node>, id: int): seq<Node> {
    if nodes == [] then []
    else if nodes[0].id == id then Without(nodes[1..], id)
    else [nodes[0]] + Without(nodes[1..], id)
  }

  lemma {:induction false} WithoutMembers(nodes: seq<Node>, id: int, n: Node)
    ensures n in Without(nodes, id) <==> n in nodes && n.id != id
    decreases |nodes|
  {
    if nodes != [] {
      WithoutMembers(nodes[1..], id, n);
    }
  }

  lemma HasIdOfTail(nodes: seq<Node>, id: int)
    requires nodes != []
    ensures HasId(nodes, id) <==> nodes[0].id == id || HasId(nodes[1..], id)
  {
  }

  /** Removing by id removes exactly that node and keeps ids distinct. */
  lemma {:induction false} WithoutKeepsDistinct(nodes: seq<Node>, id: int)
    requires DistinctIds(nodes)
    ensures DistinctIds(Without(nodes, id)) && !HasId(Without(nodes, id), id)
    ensures |Without(nodes, id)| == if HasId(nodes, id) then |nodes| - 1 else |nodes|
    decreases |nodes|
  {
    if nodes != [] {
      WithoutKeepsDistinct(nodes[1..], id);
      if nodes[0].id == id {
        assert !HasId(nodes[1..], id);
      } else {
        forall n | n in Without(nodes[1..], id)
          ensures n.id != nodes[0].id
        {
          WithoutMembers(nodes[1..], id, n);
        }
        HasIdOfTail(nodes, id);
      }
    }
  }

  /** The three in-place edits keep every id. */
  lemma EditsKeepIds(nodes: seq<Node>, id: int, e: NodeEdit, latency: int, checked: int)
    requires DistinctIds(nodes)
    ensures DistinctIds(WithEdit(nodes, id, e)) && DistinctIds(WithToggle(nodes, id))
    ensures DistinctIds(WithLatency(nodes, id, latency, checked))
  {
  }

  /** A latency is not part of what a node renders to. */
  lemma {:induction false} LatencyRendersAlike(nodes: seq<Node>, i: int, latency: int, checked: int)
    requires 0 <= i < |nodes|
    ensures var noted := nodes[i := nodes[i].(lastLatency := latency, lastChecked := Some(checked))];
            && |EnabledOf(noted)| == |EnabledOf(nodes)|
            && ToOutbounds(EnabledOf(noted)) == ToOutbounds(EnabledOf(nodes))
    decreases |nodes|
  {
    var n := nodes[i].(lastLatency := latency, lastChecked := Some(checked));
    assert NodeToOutbound(n) == NodeToOutbound(nodes[i]);
    if i > 0 {
      LatencyRendersAlike(nodes[1..], i - 1, latency, checked);
      assert nodes[i := n][1..] == nodes[1..][i - 1 := n];
    } else {
      assert nodes[i := n][1..] == nodes[1..];
    }
  }

  // ---- storing a list ----

  /** A stored list comes back as it was; the first save of a missing list stores it. */
  ghost predicate Stores(file: File<NodeList>, nl: NodeList) {
    Loaded(file) == Some(nl)
  }

  /** Every call made to store a list and, while sing-box runs, to render it works. */
  predicate StoringWorks(active: bool, nl: NodeList, f: Faults) {
    !f.fails(SaveNodes) && (active ==> Renders(nl, f))
  }

  /** Every call made to leave Bridge mode works. */
  predicate LeavingWorks(f: Faults) {
    && !f.fails(ListUsers) && !f.fails(SnapshotToml) && !f.fails(StopSingbox) && !f.fails(DisableSingbox)
    && !f.fails(WriteToml) && !f.fails(RestartTeleproxy) && !f.fails(TeleproxyDies)
  }

  /** The stored list can be read and names the node. */
  predicate Finds(file: File<NodeList>, id: int, f: Faults) {
    !f.fails(LoadNodes) && Loaded(file).Some? && HasId(Loaded(file).value.nodes, id)
  }

  lemma FoundIsNamed(nodes: seq<Node>, id: int)
    ensures IndexOfNode(nodes, id) >= 0 <==> HasId(nodes, id)
  {
  }

  /** saveNodeListWithRerenderRollback: the updated list is stored and, while sing-box
      runs, rendered; if that fails the current list is stored again. */
  method SaveNodeListWithRerenderRollback(h: Host, current: NodeList, updated: NodeList, f: Faults)
      returns (ok: bool)
    requires Stores(h.nodesFile, current)
    modifies h`nodesFile, h`singboxJson
    ensures ok <==> StoringWorks(h.sbActive, updated, f)
    ensures ok ==> h.nodesFile == Holds(if h.sbActive then AfterRender(updated) else updated)
    ensures ok && h.sbActive ==>
              DocumentOf(updated).Some? && h.singboxJson == Holds(DocumentOf(updated).value)
    ensures ok && h.sbActive ==> (h.Live() <==> h.loaded == DocumentOf(updated))
    ensures !h.sbActive ==> h.singboxJson == old(h.singboxJson)
    ensures !ok && RestoresWork(f) ==> h.nodesFile == old(h.nodesFile) || h.nodesFile == Holds(current)
    ensures !ok && RestoresWork(f) && old(h.singboxJson) != Missing ==> h.singboxJson == old(h.singboxJson)
    ensures !ok && f.fails(SaveNodes) ==> h.nodesFile == old(h.nodesFile) && h.singboxJson == old(h.singboxJson)
  {
    if f.fails(SaveNodes) {
      return false;
    }
    h.nodesFile := Holds(updated);
    ok := RerenderSingboxIfActive(h, updated, f);
    if !ok && !f.fails(RestoreNodes) {
      h.nodesFile := Holds(current);
    }
  }

  method RerenderSingboxIfActive(h: Host, nl: NodeList, f: Faults) returns (ok: bool)
    requires h.nodesFile == Holds(nl)
    modifies h`nodesFile, h`singboxJson
    ensures ok <==> (h.sbActive ==> Renders(nl, f))
    ensures ok ==> h.nodesFile == Holds(if h.sbActive then AfterRender(nl) else nl)
    ensures ok && h.sbActive ==> DocumentOf(nl).Some? && h.singboxJson == Holds(DocumentOf(nl).value)
    ensures !h.sbActive ==> h.singboxJson == old(h.singboxJson)
    ensures !ok && RestoresWork(f) && old(h.singboxJson) != Missing ==> h.singboxJson == old(h.singboxJson)
  {
    if !h.sbActive {
      return true;
    }
    ok := h.RerenderConfig(nl, f);
  }

  /** The stored list after a handler: as given, with the cursor moved when it was
      rendered. */
  ghost predicate NowStores(h: Host, nl: NodeList)
    reads h
  {
    h.nodesFile == Holds(if h.sbActive then AfterRender(nl) else nl)
  }

  // ---- mode switches ----

  method EnableBridgeModeWithNode(h: Host, node: Node, users: seq<UserEntry>, installed: bool, f: Faults)
      returns (ok: bool)
    modifies h
    ensures ok <==> !f.fails(ListUsers) && old(h.EnableWorks(node, "", !installed, f))
    ensures ok ==> h.Live()
    ensures ok ==> h.sbActive && h.nodesFile == Holds(AfterRender(WithNode(Loaded(old(h.nodesFile)).value, node, "")))
    ensures ok && !f.fails(SaveSetting) ==> h.modeSetting == MODE_BRIDGE
    ensures !ok ==> h.modeSetting == old(h.modeSetting)
    ensures !ok && RestoresWork(f) ==> h.nodesFile == old(h.nodesFile)
    ensures old(h.Sound()) && RestoresWork(f) ==> h.Sound()
  {
    if f.fails(ListUsers) {
      return false;
    }
    ok := h.Enable(node, users, "", !installed, f);
    if ok && !f.fails(SaveSetting) {
      h.modeSetting := MODE_BRIDGE;
    }
  }

  method DisableBridgeMode(h: Host, users: seq<UserEntry>, f: Faults) returns (ok: bool)
    modifies h`toml, h`sbActive, h`loaded, h`sbEnabled, h`tpActive, h`modeSetting
    ensures ok <==> LeavingWorks(f)
    ensures ok ==> h.toml == Holds(h.SingleConfig(users)) && !h.sbActive && !h.sbEnabled && h.tpActive
    ensures ok && !f.fails(SaveSetting) ==> h.modeSetting == MODE_SINGLE
    ensures !ok ==> h.modeSetting == old(h.modeSetting)
    ensures !ok && RestoresWork(f) && old(h.toml) != Missing ==> h.toml == old(h.toml)
    ensures RestoresWork(f) && h.sbActive ==> old(h.sbActive)
  {
    if f.fails(ListUsers) {
      return false;
    }
    ok := h.Disable(users, f);
    if ok && !f.fails(SaveSetting) {
      h.modeSetting := MODE_SINGLE;
    }
  }

  method HandleBridgeDisable(h: Host, users: seq<UserEntry>, f: Faults) returns (answer: Answer)
    modifies h
    ensures answer == if LeavingWorks(f) then Done else RolledBack
    ensures answer.Done? ==> h.toml == Holds(h.SingleConfig(users)) && !h.sbActive && !h.sbEnabled && h.tpActive
    ensures h.nodesFile == old(h.nodesFile) && h.singboxJson == old(h.singboxJson)
    ensures old(h.Sound()) && RestoresWork(f) ==> h.Sound()
  {
    var ok := DisableBridgeMode(h, users, f);
    answer := if ok then Done else RolledBack;
  }

  // ---- handlers that edit the list ----

  /** Adding a node while sing-box is down switches to Bridge mode. */
  method AddFirstNode(h: Host, node: Node, users: seq<UserEntry>, installed: bool, f: Faults)
      returns (answer: Answer)
    modifies h
    ensures answer.Done? ==>
              && Loaded(old(h.nodesFile)).Some? && h.nodesFile.Holds?
              && var was := Loaded(old(h.nodesFile)).value;
              && h.nodesFile.content.nodes == was.nodes + [node.(id := MaxId(was.nodes) + 1, enabled := true)]
              && h.nodesFile.content.strategy == was.strategy
              && h.sbActive
    ensures answer == if !f.fails(ListUsers) && old(h.EnableWorks(node, "", !installed, f)) then Done else RolledBack
    ensures answer.Done? ==> h.Live()
    ensures answer.RolledBack? && RestoresWork(f) ==> h.nodesFile == old(h.nodesFile)
    ensures old(h.Sound()) && RestoresWork(f) ==> h.Sound()
  {
    var ok := EnableBridgeModeWithNode(h, node, users, installed, f);
    if ok {
      var nl := WithNode(Loaded(old(h.nodesFile)).value, node, "");
      RenderIsRotation(nl, NormalizeStrategy(nl.strategy));
    }
    return if ok then Done else RolledBack;
  }

  /** handleBridgeAddNode and its manual variant, for a node that was parsed. */
  method HandleBridgeAddNode(h: Host, node: Node, users: seq<UserEntry>, installed: bool, f: Faults)
      returns (answer: Answer)
    requires h.Sound()
    modifies h
    ensures answer.Done? ==>
              && Loaded(old(h.nodesFile)).Some? && h.nodesFile.Holds?
              && var was := Loaded(old(h.nodesFile)).value;
              && h.nodesFile.content.nodes == was.nodes + [node.(id := MaxId(was.nodes) + 1, enabled := true)]
              && h.nodesFile.content.strategy == was.strategy
              && h.sbActive
    ensures answer == if !old(h.sbActive) then
                        if !f.fails(ListUsers) && old(h.EnableWorks(node, "", !installed, f)) then Done else RolledBack
                      else if (!installed && f.fails(Download)) || f.fails(LoadNodes) then Refused
                      else if StoringWorks(true, Appended(old(h.nodesFile).content, node), f) then Done
                      else RolledBack
    ensures answer.Refused? ==> unchanged(h)
    ensures answer.RolledBack? && RestoresWork(f) ==> Loaded(h.nodesFile) == Loaded(old(h.nodesFile))
    ensures RestoresWork(f) ==> h.Sound()
  {
    hide Lists, EnoughNodes;
    if !h.sbActive {
      answer := AddFirstNode(h, node, users, installed, f);
    } else if (!installed && f.fails(Download)) || f.fails(LoadNodes) {
      answer := Refused;
    } else {
      answer := AddToRunning(h, node, f);
    }
  }

  /** The list with one more node, enabled and under a fresh id. */
  function Appended(nl: NodeList, node: Node): NodeList {
    nl.(nodes := nl.nodes + [node.(id := MaxId(nl.nodes) + 1, enabled := true)])
  }

  /** Adding a node to a running bridge appends it and renders again. */
  method AddToRunning(h: Host, node: Node, f: Faults) returns (answer: Answer)
    requires h.Sound() && h.sbActive
    modifies h`nodesFile, h`singboxJson
    ensures answer.Done? ==>
              && h.nodesFile.Holds?
              && var was := old(h.nodesFile).content;
              && h.nodesFile.content.nodes == was.nodes + [node.(id := MaxId(was.nodes) + 1, enabled := true)]
              && h.nodesFile.content.strategy == was.strategy
    ensures answer == if StoringWorks(true, Appended(old(h.nodesFile).content, node), f) then Done else RolledBack
    ensures answer.Done? && old(h.Live()) ==> !h.Live()
    ensures answer.RolledBack? && RestoresWork(f) ==> h.nodesFile == old(h.nodesFile)
    ensures RestoresWork(f) ==> h.Sound()
  {
    hide CursorMoved, RenderOrder, DocumentOf, Renders, NormalizeStrategy;
    var nl := h.nodesFile.content;
    var fresh' := NextId(nl.nodes);
    var added := node.(id := fresh', enabled := true);
    var updated := nl.(nodes := nl.nodes + [added]);
    AppendingFreshId(nl.nodes, added);
    var ok := SaveNodeListWithRerenderRollback(h, nl, updated, f);
    if ok {
      SavedIsSound(updated, h.singboxJson.content);
      if old(h.Live()) {
        OneMoreEnabled(nl.nodes, added);
        OtherNumberOtherDocument(nl, updated, h.loaded);
      }
      return Done;
    }
    return RolledBack;
  }

  lemma {:induction false} OneMoreEnabled(nodes: seq<Node>, n: Node)
    ensures |EnabledOf(nodes + [n])| == |EnabledOf(nodes)| + if n.enabled then 1 else 0
    decreases |nodes|
  {
    if nodes == [] {
      assert nodes + [n] == [n] && [n][1..] == [];
    } else {
      assert (nodes + [n])[1..] == nodes[1..] + [n];
      OneMoreEnabled(nodes[1..], n);
    }
  }

  lemma {:induction false} ToggledNumber(nodes: seq<Node>, i: int)
    requires 0 <= i < |nodes|
    ensures |EnabledOf(nodes[i := nodes[i].(enabled := !nodes[i].enabled)])| != |EnabledOf(nodes)|
    decreases |nodes|
  {
    var n := nodes[i].(enabled := !nodes[i].enabled);
    if i == 0 {
      assert nodes[i := n][1..] == nodes[1..];
    } else {
      assert nodes[i := n][1..] == nodes[1..][i - 1 := n];
      ToggledNumber(nodes[1..], i - 1);
    }
  }

  /** A document that lists one list is never that of a list with another number of enabled
      nodes. */
  lemma OtherNumberOtherDocument(was: NodeList, now: NodeList, loaded: Option<Document>)
    requires loaded.Some? && Lists(loaded.value, was)
    requires |EnabledOf(now.nodes)| != |EnabledOf(was.nodes)|
    ensures DocumentOf(now) != loaded
  {
    hide EnabledOf, IsRotation, StrategyGroup, ConfigValid;
    RotationKeepsElements(RenderedEnabled(was.nodes), loaded.value.outbounds);
    DocumentListsEnabled(now);
    if DocumentOf(now).Some? {
      RotationKeepsElements(RenderedEnabled(now.nodes), DocumentOf(now).value.outbounds);
    }
  }

  /** handleBridgeEditNode */
  method HandleBridgeEditNode(h: Host, id: int, e: NodeEdit, f: Faults) returns (answer: Answer)
    requires h.Sound()
    modifies h`nodesFile, h`singboxJson
    ensures answer.Done? ==>
              && Loaded(old(h.nodesFile)).Some?
              && var was := Loaded(old(h.nodesFile)).value;
              && HasId(was.nodes, id)
              && NowStores(h, was.(nodes := WithEdit(was.nodes, id, e)))
    ensures answer == if e.tag == "" || e.host == "" || !(1 <= e.port <= 65535) || !Finds(old(h.nodesFile), id, f)
                      then Refused
                      else
                        var was := Loaded(old(h.nodesFile)).value;
                        if StoringWorks(h.sbActive, was.(nodes := WithEdit(was.nodes, id, e)), f)
                        then Done else RolledBack
    ensures answer.Done? && h.sbActive ==>
              (h.Live() <==> h.loaded == DocumentOf(Edited(Loaded(old(h.nodesFile)).value, id, e)))
    ensures answer.Refused? ==> unchanged(h)
    ensures answer.RolledBack? && RestoresWork(f) ==>
              Loaded(h.nodesFile) == Loaded(old(h.nodesFile)) && (h.sbActive ==> h.singboxJson == old(h.singboxJson))
    ensures !old(h.sbActive) ==> h.singboxJson == old(h.singboxJson)
    ensures RestoresWork(f) ==> h.Sound()
  {
    if e.tag == "" || e.host == "" || e.port < 1 || e.port > 65535 {
      return Refused;
    }
    if f.fails(LoadNodes) || h.nodesFile.Torn? {
      return Refused;
    }
    var nl := if h.nodesFile.Holds? then h.nodesFile.content else NO_NODES;
    var i := FindNode(nl.nodes, id);
    FoundIsNamed(nl.nodes, id);
    if i < 0 {
      return Refused;
    }
    var updated := nl.(nodes := nl.nodes[i := EditedNode(nl.nodes[i], e)]);
    EditsKeepIds(nl.nodes, id, e, 0, 0);
    var ok := SaveNodeListWithRerenderRollback(h, nl, updated, f);
    if ok && h.sbActive {
      SavedIsSound(updated, h.singboxJson.content);
    }
    return if ok then Done else RolledBack;
  }

  /** The search loop of the handlers. */
  method FindNode(nodes: seq<Node>, id: int) returns (i: int)
    ensures i == IndexOfNode(nodes, id)
  {
    i := 0;
    assert nodes[0..] == nodes;
    while i < |nodes|
      invariant 0 <= i <= |nodes|
      invariant var rest := IndexOfNode(nodes[i..], id);
                IndexOfNode(nodes, id) == if rest < 0 then -1 else i + rest
    {
      assert nodes[i..][1..] == nodes[i + 1..];
      if nodes[i].id == id {
        return;
      }
      i := i + 1;
    }
    i := -1;
  }

  function StoredOrLeft(active: bool, updated: NodeList, f: Faults): Answer {
    if active && EnabledOf(updated.nodes) == [] then
      if f.fails(SaveNodes) then Refused else if LeavingWorks(f) then Done else RolledBack
    else if StoringWorks(active, updated, f) then Done
    else RolledBack
  }

  /** What the toggle and delete handlers do with the updated list: a running sing-box
      whose last enabled node goes away is switched to Single mode, otherwise the list
      is stored and rendered. */
  method StoreOrLeaveBridge(h: Host, nl: NodeList, updated: NodeList, users: seq<UserEntry>, f: Faults)
      returns (answer: Answer)
    requires h.Sound() && Stores(h.nodesFile, nl) && DistinctIds(updated.nodes)
    modifies h
    ensures answer == StoredOrLeft(old(h.sbActive), updated, f)
    ensures answer.Done? ==> NowStores(h, updated)
    ensures old(h.sbActive) && EnabledOf(updated.nodes) == [] ==>
              (answer.Done? ==> !h.sbActive && !h.sbEnabled && h.tpActive && h.toml == Holds(h.SingleConfig(users)))
    ensures !(old(h.sbActive) && EnabledOf(updated.nodes) == []) ==>
              && h.sbActive == old(h.sbActive) && h.sbEnabled == old(h.sbEnabled) && h.tpActive == old(h.tpActive)
              && h.toml == old(h.toml) && h.modeSetting == old(h.modeSetting) && h.loaded == old(h.loaded)
    ensures answer.Done? && h.sbActive ==> (h.Live() <==> h.loaded == DocumentOf(updated))
    ensures answer.Refused? ==> unchanged(h)
    ensures answer.RolledBack? && RestoresWork(f) ==> Loaded(h.nodesFile) == Some(nl)
    ensures !old(h.sbActive) ==> h.singboxJson == old(h.singboxJson)
    ensures RestoresWork(f) ==> h.Sound()
  {
    var active := Active(updated.nodes);
    if h.sbActive && |active| == 0 {
      if f.fails(SaveNodes) {
        return Refused;
      }
      h.nodesFile := Holds(updated);
      var ok := DisableBridgeMode(h, users, f);
      if !ok {
        if !f.fails(RestoreNodes) {
          h.nodesFile := Holds(nl);
        }
        return RolledBack;
      }
      return Done;
    }
    var ok := SaveNodeListWithRerenderRollback(h, nl, updated, f);
    if ok && h.sbActive {
      SavedIsSound(updated, h.singboxJson.content);
    }
    return if ok then Done else RolledBack;
  }

  /** handleBridgeToggleNode */
  method HandleBridgeToggleNode(h: Host, id: int, users: seq<UserEntry>, f: Faults) returns (answer: Answer)
    requires h.Sound()
    modifies h
    ensures answer.Done? ==>
              && Loaded(old(h.nodesFile)).Some?
              && var was := Loaded(old(h.nodesFile)).value;
              && HasId(was.nodes, id)
              && NowStores(h, was.(nodes := WithToggle(was.nodes, id)))
    ensures answer == if !Finds(old(h.nodesFile), id, f) then Refused
                      else
                        var was := Loaded(old(h.nodesFile)).value;
                        StoredOrLeft(old(h.sbActive), was.(nodes := WithToggle(was.nodes, id)), f)
    ensures answer.Done? ==>
              if old(h.sbActive) && EnabledOf(WithToggle(Loaded(old(h.nodesFile)).value.nodes, id)) == []
              then !h.sbActive && !h.sbEnabled && h.tpActive && h.toml == Holds(h.SingleConfig(users))
              else h.sbActive == old(h.sbActive) && h.toml == old(h.toml) && h.modeSetting == old(h.modeSetting)
    ensures answer.Done? && h.sbActive && old(h.Live()) ==> !h.Live()
    ensures answer.Refused? ==> unchanged(h)
    ensures answer.RolledBack? && RestoresWork(f) ==> Loaded(h.nodesFile) == Loaded(old(h.nodesFile))
    ensures !old(h.sbActive) ==> h.singboxJson == old(h.singboxJson)
    ensures RestoresWork(f) ==> h.Sound()
  {
    if f.fails(LoadNodes) || h.nodesFile.Torn? {
      return Refused;
    }
    var nl := if h.nodesFile.Holds? then h.nodesFile.content else NO_NODES;
    var i := FindNode(nl.nodes, id);
    FoundIsNamed(nl.nodes, id);
    if i < 0 {
      return Refused;
    }
    var nodes := nl.nodes[i := nl.nodes[i].(enabled := !nl.nodes[i].enabled)];
    EditsKeepIds(nl.nodes, id, NodeEdit("", "", 0, "", "", "", "", ""), 0, 0);
    ToggledNumber(nl.nodes, i);
    ghost var loaded := h.loaded;
    if h.sbActive && h.Live() {
      OtherNumberOtherDocument(nl, nl.(nodes := nodes), loaded);
    }
    answer := StoreOrLeaveBridge(h, nl, nl.(nodes := nodes), users, f);
  }

  /** handleBridgeDeleteNode: the list is filtered in place, every node with the id goes. */
  method HandleBridgeDeleteNode(h: Host, id: int, users: seq<UserEntry>, f: Faults) returns (answer: Answer)
    requires h.Sound()
    modifies h
    ensures answer.Done? ==>
              && Loaded(old(h.nodesFile)).Some?
              && var was := Loaded(old(h.nodesFile)).value;
              && HasId(was.nodes, id)
              && NowStores(h, was.(nodes := Without(was.nodes, id)))
    ensures answer == if !Finds(old(h.nodesFile), id, f) then Refused
                      else
                        var was := Loaded(old(h.nodesFile)).value;
                        StoredOrLeft(old(h.sbActive), was.(nodes := Without(was.nodes, id)), f)
    ensures answer.Done? ==>
              if old(h.sbActive) && EnabledOf(Without(Loaded(old(h.nodesFile)).value.nodes, id)) == []
              then !h.sbActive && !h.sbEnabled && h.tpActive && h.toml == Holds(h.SingleConfig(users))
              else h.sbActive == old(h.sbActive) && h.toml == old(h.toml) && h.modeSetting == old(h.modeSetting)
    ensures answer.Done? && h.sbActive ==>
              var was := Loaded(old(h.nodesFile)).value;
              (h.Live() <==> h.loaded == DocumentOf(was.(nodes := Without(was.nodes, id))))
    ensures answer.Refused? ==> unchanged(h)
    ensures answer.RolledBack? && RestoresWork(f) ==> Loaded(h.nodesFile) == Loaded(old(h.nodesFile))
    ensures !old(h.sbActive) ==> h.singboxJson == old(h.singboxJson)
    ensures RestoresWork(f) ==> h.Sound()
  {
    if f.fails(LoadNodes) || h.nodesFile.Torn? {
      return Refused;
    }
    var nl := if h.nodesFile.Holds? then h.nodesFile.content else NO_NODES;
    var filtered, found := Filter(nl.nodes, id);
    if !found {
      return Refused;
    }
    WithoutKeepsDistinct(nl.nodes, id);
    answer := StoreOrLeaveBridge(h, nl, nl.(nodes := filtered), users, f);
  }

  method Filter(nodes: seq<Node>, id: int) returns (filtered: seq<Node>, found: bool)
    ensures filtered == Without(nodes, id)
    ensures found <==> HasId(nodes, id)
  {
    filtered, found := [], false;
    var i := 0;
    assert nodes[0..] == nodes;
    while i < |nodes|
      invariant 0 <= i <= |nodes|
      invariant filtered + Without(nodes[i..], id) == Without(nodes, id)
      invariant found <==> exists j :: 0 <= j < i && nodes[j].id == id
    {
      assert nodes[i..][1..] == nodes[i + 1..];
      if nodes[i].id == id {
        found := true;
      } else {
        filtered := filtered + [nodes[i]];
      }
      i := i + 1;
    }
  }

  /** handleBridgePingNode stores a latency without rendering. */
  method HandleBridgePingNode(h: Host, id: int, latency: Option<nat>, now: int, f: Faults)
      returns (answer: Answer)
    requires h.Sound()
    modifies h`nodesFile
    ensures answer.Done? ==>
              && Loaded(old(h.nodesFile)).Some?
              && var was := Loaded(old(h.nodesFile)).value;
              && HasId(was.nodes, id)
              && h.nodesFile == Holds(was.(nodes := WithLatency(was.nodes, id,
                                             if latency.Some? then latency.value else 0, now)))
    ensures answer == if Finds(old(h.nodesFile), id, f) && !f.fails(SaveNodes) then Done else Refused
    ensures answer.Refused? ==> unchanged(h)
    ensures h.Sound()
  {
    if f.fails(LoadNodes) || h.nodesFile.Torn? {
      return Refused;
    }
    var nl := if h.nodesFile.Holds? then h.nodesFile.content else NO_NODES;
    var i := FindNode(nl.nodes, id);
    FoundIsNamed(nl.nodes, id);
    if i < 0 {
      return Refused;
    }
    var measured := if latency.Some? then latency.value else 0;
    var nodes := nl.nodes[i := nl.nodes[i].(lastLatency := measured, lastChecked := Some(now))];
    if f.fails(SaveNodes) {
      return Refused;
    }
    h.nodesFile := Holds(nl.(nodes := nodes));
    EditsKeepIds(nl.nodes, id, NodeEdit("", "", 0, "", "", "", "", ""), measured, now);
    LatencyRendersAlike(nl.nodes, i, measured, now);
    return Done;
  }

  /** handleBridgeSetStrategy */
  method HandleBridgeSetStrategy(h: Host, strategy: string, f: Faults) returns (answer: Answer)
    requires h.Sound()
    modifies h`nodesFile, h`singboxJson
    ensures answer.Done? ==>
              && Loaded(old(h.nodesFile)).Some?
              && var updated := Loaded(old(h.nodesFile)).value.(strategy := strategy);
              && NormalizeStrategy(strategy) == strategy
              && NowStores(h, updated)
    ensures answer == if NormalizeStrategy(strategy) != strategy || f.fails(LoadNodes) || Loaded(old(h.nodesFile)).None?
                      then Refused
                      else
                        var updated := Loaded(old(h.nodesFile)).value.(strategy := strategy);
                        if !EnoughNodes(updated) then Refused
                        else if StoringWorks(h.sbActive, updated, f) then Done else RolledBack
    ensures answer.Done? && h.sbActive ==>
              (h.Live() <==> h.loaded == DocumentOf(Loaded(old(h.nodesFile)).value.(strategy := strategy)))
    ensures answer.Refused? ==> unchanged(h)
    ensures answer.RolledBack? && RestoresWork(f) ==> Loaded(h.nodesFile) == Loaded(old(h.nodesFile))
    ensures !old(h.sbActive) ==> h.singboxJson == old(h.singboxJson)
    ensures RestoresWork(f) ==> h.Sound()
  {
    if strategy != URLTEST && strategy != FALLBACK && strategy != ROUNDROBIN && strategy != SELECTOR {
      return Refused;
    }
    if f.fails(LoadNodes) || h.nodesFile.Torn? {
      return Refused;
    }
    var nl := if h.nodesFile.Holds? then h.nodesFile.content else NO_NODES;
    var active := Active(nl.nodes);
    if strategy == ROUNDROBIN && |active| < 2 {
      return Refused;
    }
    if |active| < 1 {
      return Refused;
    }
    var updated := nl.(strategy := strategy);
    var ok := SaveNodeListWithRerenderRollback(h, nl, updated, f);
    if ok && h.sbActive {
      SavedIsSound(updated, h.singboxJson.content);
    }
    return if ok then Done else RolledBack;
  }

  // ---- edits while sing-box is down ----

  /** An edit stored while sing-box is down goes unnoticed by the document exactly if the
      node is disabled or renders as before. */
  lemma EditWhileDownIff(d: Document, nl: NodeList, id: int, e: NodeEdit)
    requires Lists(d, nl) && HasId(nl.nodes, id)
    ensures var n := nl.nodes[IndexOfNode(nl.nodes, id)];
            Lists(d, nl.(nodes := WithEdit(nl.nodes, id, e)))
            <==> !n.enabled || RenderedNode(EditedNode(n, e)) == RenderedNode(n)
  {
    hide Lists, RenderedNode;
    FoundIsNamed(nl.nodes, id);
    var i := IndexOfNode(nl.nodes, id);
    StillListsIff(d, nl, i, EditedNode(nl.nodes[i], e));
  }

  /** A toggle never does. */
  lemma ToggleWhileDownShows(d: Document, nl: NodeList, id: int)
    requires Lists(d, nl) && HasId(nl.nodes, id)
    ensures !Lists(d, nl.(nodes := WithToggle(nl.nodes, id)))
  {
    hide Lists, RenderedNode;
    FoundIsNamed(nl.nodes, id);
    var i := IndexOfNode(nl.nodes, id);
    StillListsIff(d, nl, i, nl.nodes[i].(enabled := !nl.nodes[i].enabled));
  }

  lemma {:induction false} EnabledWithout(nodes: seq<Node>, id: int)
    requires DistinctIds(nodes) && HasId(nodes, id)
    ensures var n := nodes[IndexOfNode(nodes, id)];
            && (!n.enabled ==> EnabledOf(Without(nodes, id)) == EnabledOf(nodes))
            && (n.enabled ==> |EnabledOf(Without(nodes, id))| == |EnabledOf(nodes)| - 1)
    decreases |nodes|
  {
    if nodes[0].id == id {
      AbsentWithout(nodes[1..], id);
    } else {
      HasIdOfTail(nodes, id);
      EnabledWithout(nodes[1..], id);
    }
  }

  lemma {:induction false} AbsentWithout(nodes: seq<Node>, id: int)
    requires forall i :: 0 <= i < |nodes| ==> nodes[i].id != id
    ensures Without(nodes, id) == nodes
    decreases |nodes|
  {
    if nodes != [] {
      AbsentWithout(nodes[1..], id);
    }
  }

  /** A node deleted while sing-box is down goes unnoticed exactly if it was disabled. */
  lemma DeleteWhileDownIff(d: Document, nl: NodeList, id: int)
    requires Lists(d, nl) && DistinctIds(nl.nodes) && HasId(nl.nodes, id)
    ensures Lists(d, nl.(nodes := Without(nl.nodes, id))) <==> !nl.nodes[IndexOfNode(nl.nodes, id)].enabled
  {
    hide EnabledOf, Without, IsRotation, StrategyGroup;
    EnabledWithout(nl.nodes, id);
    RotationKeepsElements(RenderedEnabled(nl.nodes), d.outbounds);
    if Lists(d, nl.(nodes := Without(nl.nodes, id))) {
      RotationKeepsElements(RenderedEnabled(Without(nl.nodes, id)), d.outbounds);
    }
  }

  predicate PicksByHand(strategy: string) {
    strategy == SELECTOR || strategy == ROUNDROBIN
  }

  /** A strategy chosen while sing-box is down goes unnoticed exactly if it is the one that
      was in effect, or both are written as a selector. */
  lemma StrategyWhileDownIff(d: Document, nl: NodeList, strategy: string)
    requires Lists(d, nl) && NormalizeStrategy(strategy) == strategy
    ensures Lists(d, nl.(strategy := strategy))
            <==> var was := NormalizeStrategy(nl.strategy);
                 strategy == was || (PicksByHand(strategy) && PicksByHand(was))
  {
    hide EnabledOf, IsRotation;
    GroupsDiffer(strategy, NormalizeStrategy(nl.strategy), EntryTags(d.outbounds));
  }

  lemma GroupsDiffer(a: string, b: string, tags: seq<string>)
    requires NormalizeStrategy(a) == a && NormalizeStrategy(b) == b
    ensures StrategyGroup(a, tags) == StrategyGroup(b, tags) <==> a == b || (PicksByHand(a) && PicksByHand(b))
  {
  }

  /** The run that breaks the bridge: sing-box stops by itself, a node is toggled while it
      is down, so that the list is stored and not rendered, and sing-box comes back on the
      configuration from before. It does so from every sound host, for every stored node. */
  method CrashToggleRestart(h: Host, id: int, users: seq<UserEntry>, f: Faults) returns (sound: bool)
    requires h.Sound() && h.sbActive && Finds(h.nodesFile, id, f) && !f.fails(SaveNodes) && RestoresWork(f)
    modifies h
    ensures !sound && !h.Sound()
  {
    hide Lists, EnoughNodes;
    ghost var nl := h.nodesFile.content;
    ToggleWhileDownShows(h.singboxJson.content, nl, id);
    h.sbActive := false;
    var _ := HandleBridgeToggleNode(h, id, users, f);
    assert h.nodesFile == Holds(nl.(nodes := WithToggle(nl.nodes, id)));
    sound := h.SingboxStarts();
  }

  // ---- whole runs ----

  datatype Request =
    | Enable(node: Node)
    | Disable
    | Add(node: Node, installed: bool)
    | Edit(id: int, edit: NodeEdit)
    | Toggle(id: int)
    | Delete(id: int)
    | Ping(id: int, latency: Option<nat>, now: int)
    | SetStrategy(strategy: string)
    | SingboxStops
    | SingboxStarts

  /** The bridge invariant over whole runs: from a sound host on, every sequence of
      requests under every schedule of forward failures leaves the host sound at every
      handler boundary, with sing-box stopping by itself between handlers and coming back
      while the files are in step. The run ends at the first start that finds them out of
      step; that is the only way it gets unsound. */
  method Run(h: Host, requests: seq<(Request, seq<UserEntry>, Faults)>) returns (broken: Option<nat>)
    requires h.Sound()
    requires forall i :: 0 <= i < |requests| ==> RestoresWork(requests[i].2)
    modifies h
    ensures h.Sound() <==> broken.None?
    ensures broken.Some? ==>
              broken.value < |requests| && requests[broken.value].0.SingboxStarts? && h.sbActive && !h.InStep()
  {
    for i := 0 to |requests|
      invariant h.Sound()
    {
      if requests[i].0.SingboxStarts? {
        var sound := h.SingboxStarts();
        if !sound {
          return Some(i);
        }
      } else {
        Handle(h, requests[i].0, requests[i].1, requests[i].2);
      }
    }
    return None;
  }

  method Handle(h: Host, request: Request, users: seq<UserEntry>, f: Faults)
    requires h.Sound() && RestoresWork(f) && !request.SingboxStarts?
    modifies h
    ensures h.Sound()
  {
    match request
    case Enable(node) =>
      var _ := h.Enable(node, users, "", true, f);
    case Disable =>
      var _ := HandleBridgeDisable(h, users, f);
    case Add(node, installed) =>
      var _ := HandleBridgeAddNode(h, node, users, installed, f);
    case Edit(id, e) =>
      var _ := HandleBridgeEditNode(h, id, e, f);
    case Toggle(id) =>
      var _ := HandleBridgeToggleNode(h, id, users, f);
    case Delete(id) =>
      var _ := HandleBridgeDeleteNode(h, id, users, f);
    case Ping(id, latency, now) =>
      var _ := HandleBridgePingNode(h, id, latency, now, f);
    case SetStrategy(strategy) =>
      var _ := HandleBridgeSetStrategy(h, strategy, f);
    case SingboxStops =>
      h.sbActive := false;
  }
}
