/** Bridge nodes, the routing strategy and the sing-box configuration rendered from them. */
module Nodes {
  import opened Options

  const URLTEST := "urltest"
  const FALLBACK := "fallback"
  const ROUNDROBIN := "roundrobin"
  const SELECTOR := "selector"

  const VLESS_REALITY := "vless-reality"
  const TROJAN := "trojan"
  const SHADOWSOCKS := "shadowsocks"
  const HYSTERIA2 := "hysteria2"
  const TUIC := "tuic"

  datatype Node = Node(
    id: int, kind: string, tag: string, host: string, port: int, uuid: string, flow: string,
    sni: string, publicKey: string, shortId: string, fingerprint: string, password: string,
    cipher: string, congestionControl: string, enabled: bool, lastLatency: int, lastChecked: Option<int>)

  /** The contents of outbounds.json. */
  datatype NodeList = NodeList(nodes: seq<Node>, strategy: string, roundRobinCursor: int)

  const NO_NODES := NodeList([], "", 0)

  datatype Outbound = Outbound(
    kind: string, tag: string, server: string, port: int, uuid: string, flow: string, tlsServer: string,
    publicKey: string, shortId: string, fingerprint: string, password: string, cipher: string,
    congestionControl: string)

  function NodeToOutbound(n: Node): Outbound {
    var kind := if n.kind == TROJAN || n.kind == SHADOWSOCKS || n.kind == HYSTERIA2 || n.kind == TUIC
                then n.kind else VLESS_REALITY;
    Outbound(kind, n.tag, n.host, n.port, n.uuid, n.flow, n.sni, n.publicKey, n.shortId, n.fingerprint,
             n.password, n.cipher, n.congestionControl)
  }

  function ToOutbounds(nodes: seq<Node>): (obs: seq<Outbound>)
    ensures |obs| == |nodes|
    ensures forall i :: 0 <= i < |nodes| ==> obs[i] == NodeToOutbound(nodes[i])
  {
    seq(|nodes|, i requires 0 <= i < |nodes| => NodeToOutbound(nodes[i]))
  }

  function NormalizeStrategy(strategy: string): string {
    if strategy == URLTEST || strategy == FALLBACK || strategy == ROUNDROBIN || strategy == SELECTOR
    then strategy else URLTEST
  }

  // ---- the list ----

  /** The enabled nodes, in order. */
  function EnabledOf(nodes: seq<Node>): seq<Node> {
    if nodes == [] then []
    else if nodes[0].enabled then [nodes[0]] + EnabledOf(nodes[1..])
    else EnabledOf(nodes[1..])
  }

  /** NodeList.Active */
  method Active(nodes: seq<Node>) returns (active: seq<Node>)
    ensures active == EnabledOf(nodes)
  {
    active := [];
    var i := 0;
    assert nodes[0..] == nodes;
    while i < |nodes|
      invariant 0 <= i <= |nodes|
      invariant active + EnabledOf(nodes[i..]) == EnabledOf(nodes)
    {
      assert nodes[i..][1..] == nodes[i + 1..];
      if nodes[i].enabled {
        active := active + [nodes[i]];
      }
      i := i + 1;
    }
  }

  predicate DistinctIds(nodes: seq<Node>) {
    forall i, j :: 0 <= i < j < |nodes| ==> nodes[i].id != nodes[j].id
  }

  predicate HasId(nodes: seq<Node>, id: int) {
    exists i :: 0 <= i < |nodes| && nodes[i].id == id
  }

  /** The largest id, and 0 when every id is below 1. */
  function MaxId(nodes: seq<Node>): (max: int)
    ensures max >= 0
    ensures forall i :: 0 <= i < |nodes| ==> nodes[i].id <= max
    ensures max > 0 ==> HasId(nodes, max)
  {
    if nodes == [] then 0
    else
      var before := MaxId(nodes[..|nodes| - 1]);
      var last := nodes[|nodes| - 1].id;
      assert forall i :: 0 <= i < |nodes| - 1 ==> nodes[i] == nodes[..|nodes| - 1][i];
      assert last > before ==> nodes[|nodes| - 1].id == last;
      if last > before then last else before
  }

  /** NodeList.NextID: unused, and one more than the largest id in use. */
  method NextId(nodes: seq<Node>) returns (id: int)
    ensures id == MaxId(nodes) + 1
    ensures id >= 1 && !HasId(nodes, id)
  {
    var max := 0;
    for i := 0 to |nodes|
      invariant max == MaxId(nodes[..i])
    {
      assert nodes[..i + 1][..i] == nodes[..i];
      if nodes[i].id > max {
        max := nodes[i].id;
      }
    }
    assert nodes[..|nodes|] == nodes;
    id := max + 1;
  }

  // ---- rotation ----

  /** Go's remainder by a positive length, brought to 0 when it is negative. */
  function Offset(cursor: int, n: nat): (offset: nat)
    requires n > 0
    ensures offset < n
  {
    if cursor >= 0 then cursor % n else 0
  }

  predicate Rotates(strategy: string, n: nat) {
    strategy == ROUNDROBIN && n > 1
  }

  /** The order in which the enabled nodes are rendered. */
  function RenderOrder(nl: NodeList, strategy: string): seq<Node> {
    var active := EnabledOf(nl.nodes);
    if Rotates(strategy, |active|) then
      var offset := Offset(nl.roundRobinCursor, |active|);
      active[offset..] + active[..offset]
    else active
  }

  /** The list with the cursor moved on by one render. */
  function CursorMoved(nl: NodeList, strategy: string): NodeList {
    var n := |EnabledOf(nl.nodes)|;
    if Rotates(strategy, n) then nl.(roundRobinCursor := (Offset(nl.roundRobinCursor, n) + 1) % n) else nl
  }

  /** renderOutbounds */
  method RenderOutbounds(nl: NodeList, strategy: string) returns (outbounds: seq<Outbound>, rendered: NodeList)
    ensures outbounds == ToOutbounds(RenderOrder(nl, strategy))
    ensures rendered == CursorMoved(nl, strategy)
  {
    hide EnabledOf, NodeToOutbound;
    var active := Active(nl.nodes);
    rendered := nl;
    if strategy == ROUNDROBIN && |active| > 1 {
      var offset := if nl.roundRobinCursor >= 0 then nl.roundRobinCursor % |active|
                    else -((-nl.roundRobinCursor) % |active|);
      if offset < 0 {
        offset := 0;
      }
      active := active[offset..] + active[..offset];
      rendered := nl.(roundRobinCursor := (offset + 1) % |active|);
    }
    assert active == RenderOrder(nl, strategy);
    outbounds := [];
    for i := 0 to |active|
      invariant |outbounds| == i
      invariant forall k :: 0 <= k < i ==> outbounds[k] == NodeToOutbound(active[k])
    {
      outbounds := outbounds + [NodeToOutbound(active[i])];
    }
  }

  predicate IsRotation<T(==)>(a: seq<T>, b: seq<T>) {
    exists k :: 0 <= k <= |a| && b == a[k..] + a[..k]
  }

  lemma OrderIsRotation(nl: NodeList, strategy: string) returns (k: nat)
    ensures var active := EnabledOf(nl.nodes);
            k <= |active| && RenderOrder(nl, strategy) == active[k..] + active[..k]
  {
    hide EnabledOf;
    var active := EnabledOf(nl.nodes);
    k := if Rotates(strategy, |active|) then Offset(nl.roundRobinCursor, |active|) else 0;
    assert active[0..] + active[..0] == active;
  }

  lemma OutboundsOfRotated(nodes: seq<Node>, k: nat)
    requires k <= |nodes|
    ensures var obs := ToOutbounds(nodes); ToOutbounds(nodes[k..] + nodes[..k]) == obs[k..] + obs[..k]
  {
    hide NodeToOutbound;
  }

  /** For any stored cursor, stale or negative, a render is a rotation of the enabled
      nodes and leaves the cursor in range. */
  lemma RenderIsRotation(nl: NodeList, strategy: string)
    ensures IsRotation(ToOutbounds(EnabledOf(nl.nodes)), ToOutbounds(RenderOrder(nl, strategy)))
    ensures Rotates(strategy, |EnabledOf(nl.nodes)|) ==>
              0 <= CursorMoved(nl, strategy).roundRobinCursor < |EnabledOf(nl.nodes)|
    ensures CursorMoved(nl, strategy).nodes == nl.nodes && CursorMoved(nl, strategy).strategy == nl.strategy
  {
    hide EnabledOf, RenderOrder, ToOutbounds;
    var k := OrderIsRotation(nl, strategy);
    OutboundsOfRotated(EnabledOf(nl.nodes), k);
  }

  /** The list after k renders. */
  function AfterRenders(nl: NodeList, k: nat): NodeList {
    if k == 0 then nl else CursorMoved(AfterRenders(nl, k - 1), ROUNDROBIN)
  }

  lemma ModSmall(x: nat, n: nat)
    requires 0 < n && x <= n
    ensures x % n == if x == n then 0 else x
  {
  }

  /** Which node comes first after k renders, counted on from the first one. */
  function Wrapped(start: nat, k: nat, n: nat): int {
    if start + k < n then start + k else start + k - n
  }

  lemma {:induction false} OffsetAfterRenders(nl: NodeList, k: nat)
    requires 1 < |EnabledOf(nl.nodes)| && k <= |EnabledOf(nl.nodes)|
    ensures AfterRenders(nl, k).nodes == nl.nodes
    ensures Offset(AfterRenders(nl, k).roundRobinCursor, |EnabledOf(nl.nodes)|)
            == Wrapped(Offset(nl.roundRobinCursor, |EnabledOf(nl.nodes)|), k, |EnabledOf(nl.nodes)|)
    decreases k
  {
    if k > 0 {
      var n := |EnabledOf(nl.nodes)|;
      OffsetAfterRenders(nl, k - 1);
      var before := Offset(AfterRenders(nl, k - 1).roundRobinCursor, n);
      ModSmall(before + 1, n);
      ModSmall(AfterRenders(nl, k).roundRobinCursor, n);
    }
  }

  /** The turn at which the j-th enabled node comes first. */
  function TurnOf(nl: NodeList, j: int): int
    requires 0 <= j < |EnabledOf(nl.nodes)|
  {
    var n := |EnabledOf(nl.nodes)|;
    var start := Offset(nl.roundRobinCursor, n);
    if j >= start then j - start else j + n - start
  }

  /** Round robin is fair: over n consecutive renders of an unchanged list of n enabled
      nodes every node is rendered first exactly once. */
  lemma RoundRobinIsFair(nl: NodeList, j: int, k: nat)
    requires var n := |EnabledOf(nl.nodes)|; n > 1 && 0 <= j < n && k < n
    ensures 0 <= TurnOf(nl, j) < |EnabledOf(nl.nodes)|
    ensures var order := RenderOrder(AfterRenders(nl, k), ROUNDROBIN);
            && order != []
            && (k == TurnOf(nl, j) ==> order[0] == EnabledOf(nl.nodes)[j])
            && (DistinctIds(nl.nodes) && order[0] == EnabledOf(nl.nodes)[j] ==> k == TurnOf(nl, j))
  {
    var active := EnabledOf(nl.nodes);
    var n := |active|;
    var start := Offset(nl.roundRobinCursor, n);
    OffsetAfterRenders(nl, k);
    if DistinctIds(nl.nodes) {
      EnabledKeepsDistinct(nl.nodes);
    }
  }

  lemma {:induction false} EnabledAreMembers(nodes: seq<Node>)
    ensures forall i :: 0 <= i < |EnabledOf(nodes)| ==> EnabledOf(nodes)[i] in nodes
    decreases |nodes|
  {
    if nodes != [] {
      EnabledAreMembers(nodes[1..]);
    }
  }

  lemma {:induction false} EnabledKeepsDistinct(nodes: seq<Node>)
    requires DistinctIds(nodes)
    ensures DistinctIds(EnabledOf(nodes))
    decreases |nodes|
  {
    if nodes != [] {
      EnabledKeepsDistinct(nodes[1..]);
      EnabledAreMembers(nodes[1..]);
    }
  }

  // ---- sing-box.json ----

  datatype SingboxConfig = SingboxConfig(strategy: string, outbounds: seq<Outbound>)

  /** Config.Validate */
  predicate ConfigValid(c: SingboxConfig) {
    if c.strategy == ROUNDROBIN then |c.outbounds| >= 2 else |c.outbounds| >= 1
  }

  /** The group outbound named "proxy" that the route ends in. */
  datatype Group = Group(
    kind: string, members: seq<string>, selected: Option<string>, probes: bool, interrupts: bool)

  /** The JSON object of one outbound, by its type: each type has the members its protocol
      needs and no others. Parts that are the same in every object of a type are left out,
      and a flow that is not given is the empty one. */
  datatype Entry =
    | VlessEntry(tag: string, server: string, serverPort: int, uuid: string, serverName: string,
                 fingerprint: string, publicKey: string, shortId: string, flow: string)
    | TrojanEntry(tag: string, server: string, serverPort: int, password: string, serverName: string)
    | ShadowsocksEntry(tag: string, server: string, serverPort: int, cipher: string, password: string)
    | Hysteria2Entry(tag: string, server: string, serverPort: int, password: string, serverName: string)
    | TuicEntry(tag: string, server: string, serverPort: int, uuid: string, password: string,
                congestionControl: string, serverName: string)

  /** The rendered document: one entry per outbound and the group over their tags. The
      SOCKS inbound, the direct outbound and the route are the same in every document. */
  datatype Document = Document(outbounds: seq<Entry>, group: Group)

  function StrategyGroup(strategy: string, tags: seq<string>): Group {
    if strategy == URLTEST then Group("urltest", tags, None, true, false)
    else if strategy == FALLBACK then Group("urltest", tags, None, true, true)
    else if strategy == SELECTOR || strategy == ROUNDROBIN then
      Group("selector", tags, if |tags| > 0 then Some(tags[0]) else None, false, false)
    else Group("urltest", tags, None, false, false)
  }

  function Tags(outbounds: seq<Outbound>): (tags: seq<string>)
    ensures |tags| == |outbounds|
  {
    seq(|outbounds|, i requires 0 <= i < |outbounds| => outbounds[i].tag)
  }

  function EntryTags(entries: seq<Entry>): (tags: seq<string>)
    ensures |tags| == |entries|
  {
    seq(|entries|, i requires 0 <= i < |entries| => entries[i].tag)
  }

  /** buildOutbound */
  function Rendered(o: Outbound): Entry {
    if o.kind == TROJAN then TrojanEntry(o.tag, o.server, o.port, o.password, o.tlsServer)
    else if o.kind == SHADOWSOCKS then ShadowsocksEntry(o.tag, o.server, o.port, o.cipher, o.password)
    else if o.kind == HYSTERIA2 then Hysteria2Entry(o.tag, o.server, o.port, o.password, o.tlsServer)
    else if o.kind == TUIC then
      TuicEntry(o.tag, o.server, o.port, o.uuid, o.password,
                if o.congestionControl == "" then "bbr" else o.congestionControl, o.tlsServer)
    else
      VlessEntry(o.tag, o.server, o.port, o.uuid, o.tlsServer,
                 if o.fingerprint == "" then "chrome" else o.fingerprint, o.publicKey, o.shortId, o.flow)
  }

  function RenderedAll(outbounds: seq<Outbound>): (obs: seq<Entry>)
    ensures |obs| == |outbounds|
    ensures forall i :: 0 <= i < |outbounds| ==> obs[i] == Rendered(outbounds[i])
  {
    seq(|outbounds|, i requires 0 <= i < |outbounds| => Rendered(outbounds[i]))
  }

  /** Config.build */
  function Build(c: SingboxConfig): Document {
    Document(RenderedAll(c.outbounds), StrategyGroup(c.strategy, Tags(c.outbounds)))
  }

  /** The document a node list renders to; None when it has too few enabled nodes. */
  function DocumentOf(nl: NodeList): Option<Document> {
    var strategy := NormalizeStrategy(nl.strategy);
    var c := SingboxConfig(strategy, ToOutbounds(RenderOrder(nl, strategy)));
    if ConfigValid(c) then Some(Build(c)) else None
  }

  /** Enough enabled nodes for the strategy. */
  predicate EnoughNodes(nl: NodeList) {
    |EnabledOf(nl.nodes)| >= if NormalizeStrategy(nl.strategy) == ROUNDROBIN then 2 else 1
  }

  /** The document lists exactly the enabled nodes, up to rotation, under the strategy. */
  predicate Lists(d: Document, nl: NodeList) {
    && IsRotation(RenderedAll(ToOutbounds(EnabledOf(nl.nodes))), d.outbounds)
    && d.group == StrategyGroup(NormalizeStrategy(nl.strategy), EntryTags(d.outbounds))
  }

  lemma RenderedOfRotated(obs: seq<Outbound>, k: nat)
    requires k <= |obs|
    ensures var all := RenderedAll(obs); RenderedAll(obs[k..] + obs[..k]) == all[k..] + all[..k]
  {
    hide Rendered;
  }

  lemma TagsOfRendered(obs: seq<Outbound>)
    ensures EntryTags(RenderedAll(obs)) == Tags(obs)
  {
    forall i | 0 <= i < |obs|
      ensures RenderedAll(obs)[i].tag == obs[i].tag
    {
    }
    hide Rendered;
  }

  /** A list renders exactly when it has enough enabled nodes for its strategy, and then
      the document lists exactly those. */
  lemma DocumentListsEnabled(nl: NodeList)
    ensures DocumentOf(nl).Some? <==> EnoughNodes(nl)
    ensures DocumentOf(nl).Some? ==> Lists(DocumentOf(nl).value, nl)
  {
    hide EnabledOf, RenderOrder, ToOutbounds, RenderedAll, Tags, EntryTags, StrategyGroup, NormalizeStrategy;
    var strategy := NormalizeStrategy(nl.strategy);
    var active := EnabledOf(nl.nodes);
    var k := OrderIsRotation(nl, strategy);
    OutboundsOfRotated(active, k);
    RenderedOfRotated(ToOutbounds(active), k);
    TagsOfRendered(ToOutbounds(RenderOrder(nl, strategy)));
  }

  /** Moving the cursor, or noting a latency, does not change what a list renders to up
      to rotation. */
  lemma ListsIgnoresCursor(d: Document, nl: NodeList, cursor: int)
    ensures Lists(d, nl.(roundRobinCursor := cursor)) == Lists(d, nl)
    ensures EnoughNodes(nl.(roundRobinCursor := cursor)) == EnoughNodes(nl)
  {
  }

  // ---- a document and a list that has moved on ----

  lemma RotationKeepsElements<T>(a: seq<T>, b: seq<T>)
    requires IsRotation(a, b)
    ensures multiset(a) == multiset(b) && |a| == |b|
  {
    var k :| 0 <= k <= |a| && b == a[k..] + a[..k];
    assert a == a[..k] + a[k..];
  }

  /** What an enabled node renders to. */
  function RenderedNode(n: Node): Entry {
    Rendered(NodeToOutbound(n))
  }

  function RenderedEnabled(nodes: seq<Node>): (obs: seq<Entry>)
    ensures |obs| == |EnabledOf(nodes)|
  {
    RenderedAll(ToOutbounds(EnabledOf(nodes)))
  }

  /** The rendered enabled nodes, one node at a time. */
  lemma RenderedOfFirst(nodes: seq<Node>)
    requires nodes != []
    ensures RenderedEnabled(nodes)
            == (if nodes[0].enabled then [RenderedNode(nodes[0])] else []) + RenderedEnabled(nodes[1..])
  {
    hide RenderedAll, ToOutbounds, RenderedNode;
    var rest := EnabledOf(nodes[1..]);
    if nodes[0].enabled {
      RenderedOfCons(nodes[0], rest);
    } else {
      assert [] + RenderedEnabled(nodes[1..]) == RenderedEnabled(nodes[1..]);
    }
  }

  lemma RenderedOfCons(n: Node, rest: seq<Node>)
    ensures RenderedAll(ToOutbounds([n] + rest)) == [RenderedNode(n)] + RenderedAll(ToOutbounds(rest))
  {
    hide Rendered, NodeToOutbound;
    assert ToOutbounds([n] + rest) == [NodeToOutbound(n)] + ToOutbounds(rest);
  }

  /** How often an outbound stands for a node. */
  function StandsFor(o: Entry, n: Node): nat {
    if n.enabled && RenderedNode(n) == o then 1 else 0
  }

  function Count(nodes: seq<Node>, o: Entry): nat {
    multiset(RenderedEnabled(nodes))[o]
  }

  lemma CountOfFirst(nodes: seq<Node>, o: Entry)
    requires nodes != []
    ensures Count(nodes, o) == StandsFor(o, nodes[0]) + Count(nodes[1..], o)
  {
    hide RenderedEnabled, RenderedNode;
    RenderedOfFirst(nodes);
    var first := if nodes[0].enabled then [RenderedNode(nodes[0])] else [];
    assert multiset(RenderedEnabled(nodes)) == multiset(first) + multiset(RenderedEnabled(nodes[1..]));
  }

  lemma {:induction false} CountWith(nodes: seq<Node>, i: int, m: Node, o: Entry)
    requires 0 <= i < |nodes|
    ensures Count(nodes[i := m], o) == Count(nodes, o) - StandsFor(o, nodes[i]) + StandsFor(o, m)
    decreases |nodes|
  {
    hide Count, StandsFor;
    CountOfFirst(nodes, o);
    CountOfFirst(nodes[i := m], o);
    if i == 0 {
      assert nodes[i := m][1..] == nodes[1..];
    } else {
      assert nodes[i := m][1..] == nodes[1..][i - 1 := m];
      CountWith(nodes[1..], i - 1, m, o);
    }
  }

  lemma {:induction false} RenderedAlike(nodes: seq<Node>, i: int, m: Node)
    requires 0 <= i < |nodes| && m.enabled == nodes[i].enabled
    requires m.enabled ==> RenderedNode(m) == RenderedNode(nodes[i])
    ensures RenderedEnabled(nodes[i := m]) == RenderedEnabled(nodes)
    decreases |nodes|
  {
    hide RenderedEnabled, RenderedNode;
    RenderedOfFirst(nodes);
    RenderedOfFirst(nodes[i := m]);
    if i == 0 {
      assert nodes[i := m][1..] == nodes[1..];
    } else {
      assert nodes[i := m][1..] == nodes[1..][i - 1 := m];
      RenderedAlike(nodes[1..], i - 1, m);
    }
  }

  /** A document that lists a list still lists it after one node changed if and only if the
      change does not show: the node is as enabled as it was, and if it is enabled it renders
      alike. */
  lemma StillListsIff(d: Document, nl: NodeList, i: int, m: Node)
    requires Lists(d, nl) && 0 <= i < |nl.nodes|
    ensures Lists(d, nl.(nodes := nl.nodes[i := m]))
            <==> m.enabled == nl.nodes[i].enabled
                 && (m.enabled ==> RenderedNode(m) == RenderedNode(nl.nodes[i]))
  {
    hide EnabledOf, RenderedNode, IsRotation, StrategyGroup;
    var n := nl.nodes[i];
    var was, now := RenderedEnabled(nl.nodes), RenderedEnabled(nl.nodes[i := m]);
    RotationKeepsElements(was, d.outbounds);
    CountWith(nl.nodes, i, m, RenderedNode(n));
    CountWith(nl.nodes, i, m, RenderedNode(m));
    if Lists(d, nl.(nodes := nl.nodes[i := m])) {
      RotationKeepsElements(now, d.outbounds);
    } else if m.enabled == n.enabled && (m.enabled ==> RenderedNode(m) == RenderedNode(n)) {
      RenderedAlike(nl.nodes, i, m);
    }
  }
}
