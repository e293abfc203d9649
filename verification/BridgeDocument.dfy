/** What the rendered sing-box document says about the nodes it was rendered from: where each
    entry connects, which entry traffic goes through, and which edits change it. */
module BridgeDocument {
  import opened Options
  import opened Nodes
  import opened BridgePanel

  // ---- entries ----

  /** The entry reaches the node: its address, and what its protocol presents. Whatever is
      not one of the other four types is VLESS with Reality. */
  predicate Reaches(e: Entry, n: Node) {
    && e.tag == n.tag && e.server == n.host && e.serverPort == n.port
    && (e.TrojanEntry? <==> n.kind == "trojan")
    && (e.ShadowsocksEntry? <==> n.kind == "shadowsocks")
    && (e.Hysteria2Entry? <==> n.kind == "hysteria2")
    && (e.TuicEntry? <==> n.kind == "tuic")
    && match e
       case TrojanEntry(_, _, _, password, serverName) => password == n.password && serverName == n.sni
       case ShadowsocksEntry(_, _, _, cipher, password) => cipher == n.cipher && password == n.password
       case Hysteria2Entry(_, _, _, password, serverName) => password == n.password && serverName == n.sni
       case TuicEntry(_, _, _, uuid, password, congestion, serverName) =>
         && uuid == n.uuid && password == n.password && serverName == n.sni
         && congestion == if n.congestionControl == "" then "bbr" else n.congestionControl
       case VlessEntry(_, _, _, uuid, serverName, fingerprint, publicKey, shortId, flow) =>
         && uuid == n.uuid && serverName == n.sni && publicKey == n.publicKey && shortId == n.shortId
         && flow == n.flow && fingerprint == if n.fingerprint == "" then "chrome" else n.fingerprint
  }

  lemma RenderedReaches(n: Node)
    ensures Reaches(RenderedNode(n), n)
  {
  }

  /** The enabled nodes of two lists in a row are those of the first and then of the second,
      and of a single node that node if it is enabled: each in its place, and no others. */
  lemma {:induction false} EnabledIsFilter(a: seq<Node>, b: seq<Node>, n: Node)
    ensures EnabledOf(a + b) == EnabledOf(a) + EnabledOf(b)
    ensures EnabledOf([n]) == if n.enabled then [n] else []
    decreases |a|
  {
    assert [n][1..] == [];
    if a == [] {
      assert a + b == b;
    } else {
      assert (a + b)[1..] == a[1..] + b;
      EnabledIsFilter(a[1..], b, n);
    }
  }

  /** Which of n enabled nodes is rendered first: by the cursor under round robin, stale ones
      included, and the first one otherwise. */
  function FirstRendered(nl: NodeList, n: nat): (first: nat)
    requires n > 0
    ensures first < n
  {
    if nl.strategy == "roundrobin" && nl.roundRobinCursor >= 0 then nl.roundRobinCursor % n else 0
  }

  lemma FirstIsOffset(nl: NodeList, n: nat)
    requires n > 0
    ensures FirstRendered(nl, n) == if nl.strategy == "roundrobin" then Offset(nl.roundRobinCursor, n) else 0
  {
  }

  /** The place of the i-th rendered node among n. */
  function Place(first: nat, i: nat, n: nat): int {
    if first + i < n then first + i else first + i - n
  }

  /** A list is rendered if it has an enabled node, or two of them for round robin; then the
      document has one entry for each enabled node, in order from the cursor on, each of
      which reaches its node, and a group over their tags. */
  lemma DocumentReachesNodes(nl: NodeList)
    ensures DocumentOf(nl).Some? <==> |EnabledOf(nl.nodes)| >= if nl.strategy == "roundrobin" then 2 else 1
    ensures DocumentOf(nl).Some? ==>
              var d := DocumentOf(nl).value;
              var active := EnabledOf(nl.nodes);
              var n := |active|;
              && |d.outbounds| == n > 0
              && (forall i :: 0 <= i < n ==> Reaches(d.outbounds[i], active[Place(FirstRendered(nl, n), i, n)]))
              && |d.group.members| == n && (forall i :: 0 <= i < n ==> d.group.members[i] == d.outbounds[i].tag)
  {
    hide EnabledOf, DocumentOf, Lists, FirstRendered, Reaches, Place;
    DocumentListsEnabled(nl);
    if DocumentOf(nl).Some? {
      EntriesInOrder(nl);
      GroupOfTags(nl);
    }
  }

  lemma EntriesInOrder(nl: NodeList)
    requires DocumentOf(nl).Some?
    ensures var d := DocumentOf(nl).value;
            var active := EnabledOf(nl.nodes);
            var n := |active|;
            && |d.outbounds| == n > 0
            && forall i :: 0 <= i < n ==> Reaches(d.outbounds[i], active[Place(FirstRendered(nl, n), i, n)])
  {
    hide EnabledOf, Rendered, NodeToOutbound, StrategyGroup, Reaches, FirstRendered, Offset;
    var strategy := NormalizeStrategy(nl.strategy);
    var order := RenderOrder(nl, strategy);
    var d := DocumentOf(nl).value;
    FirstIsOffset(nl, |EnabledOf(nl.nodes)|);
    forall i | 0 <= i < |order|
      ensures Reaches(d.outbounds[i], order[i])
    {
      RenderedReaches(order[i]);
      assert d.outbounds[i] == RenderedNode(order[i]);
    }
  }

  lemma GroupOfTags(nl: NodeList)
    requires DocumentOf(nl).Some?
    ensures var d := DocumentOf(nl).value; d.group.members == EntryTags(d.outbounds)
  {
    hide EnabledOf, RenderOrder, ToOutbounds, RenderedAll, Tags, EntryTags;
    TagsOfRendered(ToOutbounds(RenderOrder(nl, NormalizeStrategy(nl.strategy))));
  }

  // ---- the group ----

  /** Manual selection and round robin pin the first entry; fallback cuts connections when
      the choice changes; every other name, known or not, leaves the choice to probing. */
  lemma GroupFollowsStrategy(nl: NodeList)
    requires DocumentOf(nl).Some?
    ensures var d := DocumentOf(nl).value;
            && d.outbounds != []
            && d.group == if nl.strategy == "selector" || nl.strategy == "roundrobin" then
                            Group("selector", EntryTags(d.outbounds), Some(d.outbounds[0].tag), false, false)
                          else Group("urltest", EntryTags(d.outbounds), None, true, nl.strategy == "fallback")
  {
    hide EnabledOf, RenderOrder, ToOutbounds, RenderedAll, Tags;
    TagsOfRendered(ToOutbounds(RenderOrder(nl, NormalizeStrategy(nl.strategy))));
  }

  /** Round robin is fair in what sing-box does: over n renders of an unchanged list of n
      enabled nodes with different tags, every node is the default of the selector exactly
      once. */
  lemma DefaultRotates(nl: NodeList, j: int, k: nat)
    requires nl.strategy == "roundrobin"
    requires var n := |EnabledOf(nl.nodes)|; n > 1 && 0 <= j < n && k < n
    ensures 0 <= TurnOf(nl, j) < |EnabledOf(nl.nodes)|
    ensures var d := DocumentOf(AfterRenders(nl, k));
            && d.Some? && d.value.outbounds != []
            && d.value.group.selected == Some(d.value.outbounds[0].tag)
            && (k == TurnOf(nl, j) ==> Reaches(d.value.outbounds[0], EnabledOf(nl.nodes)[j]))
            && (k == TurnOf(nl, j) ==> d.value.group.selected == Some(EnabledOf(nl.nodes)[j].tag))
            && (TagsDiffer(EnabledOf(nl.nodes)) && d.value.group.selected == Some(EnabledOf(nl.nodes)[j].tag) ==>
                  k == TurnOf(nl, j))
  {
    hide EnabledOf, DocumentOf, Reaches, FirstRendered, Offset;
    var m := AfterRenders(nl, k);
    OffsetAfterRenders(nl, k);
    StrategyStays(nl, k);
    DocumentReachesNodes(m);
    GroupFollowsStrategy(m);
    var d := DocumentOf(m).value;
    var first := Offset(m.roundRobinCursor, |EnabledOf(nl.nodes)|);
    FirstIsOffset(m, |EnabledOf(nl.nodes)|);
    assert Place(first, 0, |EnabledOf(nl.nodes)|) == first;
    assert Reaches(d.outbounds[0], EnabledOf(nl.nodes)[first]);
    ReachesTag(d.outbounds[0], EnabledOf(nl.nodes)[first]);
  }

  lemma ReachesTag(e: Entry, n: Node)
    requires Reaches(e, n)
    ensures e.tag == n.tag
  {
  }

  predicate TagsDiffer(nodes: seq<Node>) {
    forall i, j :: 0 <= i < j < |nodes| ==> nodes[i].tag != nodes[j].tag
  }

  lemma {:induction false} StrategyStays(nl: NodeList, k: nat)
    ensures AfterRenders(nl, k).strategy == nl.strategy
    decreases k
  {
    hide EnabledOf;
    if k > 0 {
      StrategyStays(nl, k - 1);
    }
  }

  // ---- edits ----

  /** The fields a node's protocol uses beside its address. */
  predicate SameConnection(a: Node, b: Node)
    requires a.kind == b.kind
  {
    if a.kind == "trojan" || a.kind == "hysteria2" then a.password == b.password && a.sni == b.sni
    else if a.kind == "shadowsocks" then a.cipher == b.cipher && a.password == b.password
    else if a.kind == "tuic" then
      && a.uuid == b.uuid && a.password == b.password && a.sni == b.sni
      && (if a.congestionControl == "" then "bbr" else a.congestionControl)
         == (if b.congestionControl == "" then "bbr" else b.congestionControl)
    else
      && a.uuid == b.uuid && a.sni == b.sni && a.publicKey == b.publicKey && a.shortId == b.shortId
      && a.flow == b.flow
      && (if a.fingerprint == "" then "chrome" else a.fingerprint)
         == (if b.fingerprint == "" then "chrome" else b.fingerprint)
  }

  /** Two nodes of one type render alike exactly if they agree on tag, address and what their
      protocol uses: a flow does not show on a Trojan node. */
  lemma RendersAlikeIff(a: Node, b: Node)
    requires a.kind == b.kind
    ensures RenderedNode(a) == RenderedNode(b)
            <==> a.tag == b.tag && a.host == b.host && a.port == b.port && SameConnection(a, b)
  {
  }

  /** The edit form changes these fields of the first node with the id and nothing else: not
      its type, credentials or state, and no other node. */
  lemma EditChangesForm(nodes: seq<Node>, i: nat, e: NodeEdit)
    requires DistinctIds(nodes) && i < |nodes|
    ensures var n := nodes[i];
            WithEdit(nodes, n.id, e)
            == nodes[i := Node(n.id, n.kind, e.tag, e.host, e.port, n.uuid, e.flow, e.sni, n.publicKey, n.shortId,
                               if n.kind != "vless-reality" then n.fingerprint
                               else if e.fingerprint == "" then "chrome" else e.fingerprint,
                               n.password, e.cipher, e.congestionControl, n.enabled, n.lastLatency, n.lastChecked)]
  {
    IndexIs(nodes, i);
  }

  /** Toggling changes the one flag of the one node, and a ping its latency. */
  lemma ToggleAndPingChangeOne(nodes: seq<Node>, i: nat, latency: int, now: int)
    requires DistinctIds(nodes) && i < |nodes|
    ensures WithToggle(nodes, nodes[i].id) == nodes[i := nodes[i].(enabled := !nodes[i].enabled)]
    ensures WithLatency(nodes, nodes[i].id, latency, now)
            == nodes[i := nodes[i].(lastLatency := latency, lastChecked := Some(now))]
  {
    IndexIs(nodes, i);
  }

  lemma IndexIs(nodes: seq<Node>, i: nat)
    requires DistinctIds(nodes) && i < |nodes|
    ensures IndexOfNode(nodes, nodes[i].id) == i
  {
    FoundIsNamed(nodes, nodes[i].id);
    assert HasId(nodes, nodes[i].id);
  }

  /** What remains after a deletion are the other nodes, in order. */
  lemma {:induction false} DeletionKeepsOthers(nodes: seq<Node>, i: nat)
    requires DistinctIds(nodes) && i < |nodes|
    ensures Without(nodes, nodes[i].id) == nodes[..i] + nodes[i + 1..]
    decreases |nodes|
  {
    var id := nodes[i].id;
    if i == 0 {
      AbsentWithout(nodes[1..], id);
      assert nodes[..0] + nodes[1..] == nodes[1..];
    } else {
      DeletionKeepsOthers(nodes[1..], i - 1);
      OneBefore(nodes, i);
    }
  }

  lemma OneBefore(nodes: seq<Node>, i: nat)
    requires 0 < i < |nodes|
    ensures nodes[1..][i - 1] == nodes[i]
    ensures [nodes[0]] + (nodes[1..][..i - 1] + nodes[1..][i..]) == nodes[..i] + nodes[i + 1..]
  {
  }
}
