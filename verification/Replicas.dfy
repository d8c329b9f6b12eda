/** Merging the state of a peer (internal/control/store.go:331-446) and what a merge means for every
    single entry: last writer wins. */
module Replicas {
  import opened Text
  import opened Cluster
  import opened Counters
  import opened Lww
  import opened Migration
  import opened Steps
  import SampleMerge
  import Tokens
  import TrafficLog

  /* ---------- the merge ---------- */

  function ReadNode(key: string, n: ServerNode): Option<ServerNode> {
    var id := if n.id == "" then SanitizeId(key) else n.id;
    if id == "" then None else Some(n.(id := id, controlUrl := NormalizeUrl(n.controlUrl)))
  }

  function PickNode(local: Option<ServerNode>, n: ServerNode): ServerNode {
    if local.None? then n
    else if n.updatedAt > local.value.updatedAt || (local.value.nodeToken == "" && n.nodeToken != "")
    then if n.nodeToken == "" then n.(nodeToken := local.value.nodeToken) else n
    else local.value
  }

  function ReadClient(key: string, c: Client): Option<Client> {
    var id := if c.id == "" then SanitizeId(key) else c.id;
    if id == "" then None else Some(c.(id := id))
  }

  function PickClient(local: Option<Client>, c: Client): Client {
    if local.None? || c.updatedAt > local.value.updatedAt then c else local.value
  }

  function ReadProxy(key: string, p: Proxy): Option<Proxy> {
    var id := if p.id == "" then key else p.id;
    if id == "" then None else Some(p.(id := id))
  }

  function PickProxy(local: Option<Proxy>, p: Proxy): Proxy {
    if local.None? || p.updatedAt > local.value.updatedAt then p else local.value
  }

  const NODES := Rules(ReadNode, (n: ServerNode) => n.id, PickNode)
  const CLIENTS := Rules(ReadClient, (c: Client) => c.id, PickClient)
  const PROXIES := Rules(ReadProxy, (p: Proxy) => p.id, PickProxy)

  lemma KeyedIsKeyed(st: State)
    requires KeyedById(st)
    ensures Keyed(st.nodes, NODES) && Keyed(st.clients, CLIENTS) && Keyed(st.proxies, PROXIES)
    ensures forall id <- st.nodes :: ReadNode(id, st.nodes[id]) == Some(st.nodes[id].(controlUrl := NormalizeUrl(st.nodes[id].controlUrl)))
    ensures forall id <- st.clients :: ReadClient(id, st.clients[id]) == Some(st.clients[id])
    ensures forall id <- st.proxies :: ReadProxy(id, st.proxies[id]) == Some(st.proxies[id])
  {
    forall k | k in st.nodes ensures Names(st.nodes, k, k, NODES) {}
    forall k | k in st.clients ensures Names(st.clients, k, k, CLIENTS) {}
    forall k | k in st.proxies ensures Names(st.proxies, k, k, PROXIES) {}
  }

  function MergeConfig(local: Config, remote: Config): Config {
    if local.authToken == "" && remote.authToken != "" then local.(authToken := remote.authToken) else local
  }

  /** The entries joined, before the closing recount. */
  ghost function Joined(st: State, remote: State, now: Time): State
    requires KeyedById(remote)
  {
    KeyedIsKeyed(remote);
    State(MergeConfig(st.config, remote.config),
          JoinMaps(st.nodes, remote.nodes, NODES), JoinMaps(st.clients, remote.clients, CLIENTS),
          JoinMaps(st.proxies, remote.proxies, PROXIES),
          Tokens.MergeTokens(st.tokens, remote.tokens, now),
          SampleMerge.Merge(st.samples, remote.samples, TrafficLog.MAX_SAMPLES, now))
  }

  /** MergeState */
  ghost function MergeState(st: State, remote: State, now: Time): (r: State)
    requires KeyedById(st) && KeyedById(remote)
    ensures KeyedById(r) && CountsOk(r)
  {
    JoinedKeyed(st, remote, now);
    RecountCounts(Joined(st, remote, now));
    Recount(Joined(st, remote, now))
  }

  lemma JoinedKeyed(st: State, remote: State, now: Time)
    requires KeyedById(st) && KeyedById(remote)
    ensures KeyedById(Joined(st, remote, now))
  {
    NodesJoinKeyed(st.nodes, remote.nodes);
    ClientsJoinKeyed(st.clients, remote.clients);
    ProxiesJoinKeyed(st.proxies, remote.proxies);
  }

  lemma NodesJoinKeyed(local: map<string, ServerNode>, remote: map<string, ServerNode>)
    requires NodesKeyed(local) && NodesKeyed(remote)
    ensures forall id <- remote :: ReadNode(id, remote[id]).Some?
    ensures NodesKeyed(JoinMaps(local, remote, NODES))
  {}

  lemma ClientsJoinKeyed(local: map<string, Client>, remote: map<string, Client>)
    requires ClientsKeyed(local) && ClientsKeyed(remote)
    ensures forall id <- remote :: ReadClient(id, remote[id]).Some?
    ensures ClientsKeyed(JoinMaps(local, remote, CLIENTS))
  {}

  lemma ProxiesJoinKeyed(local: map<string, Proxy>, remote: map<string, Proxy>)
    requires ProxiesKeyed(local) && ProxiesKeyed(remote)
    ensures forall id <- remote :: ReadProxy(id, remote[id]).Some?
    ensures ProxiesKeyed(JoinMaps(local, remote, PROXIES))
  {}

  /* ---------- registers ---------- */

  datatype Key = NodeKey(id: string) | ClientKey(id: string) | ProxyKey(id: string)

  /** An entry without what is not replicated: derived counters, and the spelling of a control URL. */
  datatype Core = NodeCore(node: ServerNode) | ClientCore(client: Client) | ProxyCore(proxy: Proxy)

  function CoreOfNode(n: ServerNode): Core {
    NodeCore(n.(clientCount := 0, proxyCount := 0, controlUrl := CanonicalUrl(n.controlUrl)))
  }

  function CoreOfClient(c: Client): Core { ClientCore(c.(proxyCount := 0)) }

  function At(c: Core): Time {
    match c
    case NodeCore(n) => n.updatedAt
    case ClientCore(d) => d.updatedAt
    case ProxyCore(p) => p.updatedAt
  }

  function RegNode(m: map<string, ServerNode>, id: string): Option<Core> { if id in m then Some(CoreOfNode(m[id])) else None }

  function RegClient(m: map<string, Client>, id: string): Option<Core> { if id in m then Some(CoreOfClient(m[id])) else None }

  function RegProxy(m: map<string, Proxy>, id: string): Option<Core> { if id in m then Some(ProxyCore(m[id])) else None }

  /** What a replica says about one key. */
  function Reg(st: State, k: Key): Option<Core> {
    match k
    case NodeKey(id) => RegNode(st.nodes, id)
    case ClientKey(id) => RegClient(st.clients, id)
    case ProxyKey(id) => RegProxy(st.proxies, id)
  }

  /** The later of two registers; on a tie the first. */
  function Later(a: Option<Core>, b: Option<Core>): Option<Core> {
    if b.None? then a else if a.None? || At(b.value) > At(a.value) then b else a
  }

  ghost predicate TokensSet(st: State) { forall id <- st.nodes :: st.nodes[id].nodeToken != "" }

  /** Last writer wins, for every entry: a merge takes the later of the two sides. */
  lemma MergeIsLater(st: State, remote: State, now: Time, k: Key)
    requires KeyedById(st) && KeyedById(remote) && TokensSet(st) && TokensSet(remote)
    ensures Reg(MergeState(st, remote, now), k) == Later(Reg(st, k), Reg(remote, k))
  {
    RecountKeepsRegisters(Joined(st, remote, now), k);
    match k {
      case NodeKey(id) => NodesLater(st.nodes, remote.nodes, id);
      case ClientKey(id) => ClientsLater(st.clients, remote.clients, id);
      case ProxyKey(id) => ProxiesLater(st.proxies, remote.proxies, id);
    }
  }

  lemma NodesLater(local: map<string, ServerNode>, remote: map<string, ServerNode>, id: string)
    requires NodesKeyed(local) && NodesKeyed(remote)
    requires (forall n <- local :: local[n].nodeToken != "") && (forall n <- remote :: remote[n].nodeToken != "")
    ensures forall n <- remote :: ReadNode(n, remote[n]).Some?
    ensures RegNode(JoinMaps(local, remote, NODES), id) == Later(RegNode(local, id), RegNode(remote, id))
  {
    if id in remote { NormalizeKeepsCanonical(remote[id].controlUrl); }
  }

  lemma ClientsLater(local: map<string, Client>, remote: map<string, Client>, id: string)
    requires ClientsKeyed(local) && ClientsKeyed(remote)
    ensures forall n <- remote :: ReadClient(n, remote[n]).Some?
    ensures RegClient(JoinMaps(local, remote, CLIENTS), id) == Later(RegClient(local, id), RegClient(remote, id))
  {}

  lemma ProxiesLater(local: map<string, Proxy>, remote: map<string, Proxy>, id: string)
    requires ProxiesKeyed(local) && ProxiesKeyed(remote)
    ensures forall n <- remote :: ReadProxy(n, remote[n]).Some?
    ensures RegProxy(JoinMaps(local, remote, PROXIES), id) == Later(RegProxy(local, id), RegProxy(remote, id))
  {}

  lemma RecountKeepsRegisters(st: State, k: Key)
    ensures Reg(Recount(st), k) == Reg(st, k)
  {}

  lemma MergeKeepsTokensSet(st: State, remote: State, now: Time)
    requires KeyedById(st) && KeyedById(remote) && TokensSet(st) && TokensSet(remote)
    ensures TokensSet(MergeState(st, remote, now))
  {
    KeyedIsKeyed(remote);
  }

  /** A node entry is replaced by an older one exactly when the local entry lacks a node token that the
      remote one has; non-empty tokens are therefore needed for last-writer-wins. */
  lemma OlderNodeWinsIff(local: ServerNode, remote: ServerNode)
    requires remote.updatedAt < local.updatedAt
    ensures PickNode(Some(local), remote) != local <==> local.nodeToken == "" && remote.nodeToken != ""
  {}

  /* ---------- local steps stamp what they change ---------- */

  /** Every register is as before or carries the time of the step. */
  ghost predicate Stamped(st: State, r: State, now: Time) {
    forall k :: Reg(r, k) == Reg(st, k) || (Reg(r, k).Some? && At(Reg(r, k).value) == now)
  }

  lemma StampedCompose(a: State, b: State, c: State, now: Time)
    requires Stamped(a, b, now) && Stamped(b, c, now)
    ensures Stamped(a, c, now)
  {
    forall k ensures Reg(c, k) == Reg(a, k) || (Reg(c, k).Some? && At(Reg(c, k).value) == now) {
      assert Reg(c, k) == Reg(b, k) || (Reg(c, k).Some? && At(Reg(c, k).value) == now);
      assert Reg(b, k) == Reg(a, k) || (Reg(b, k).Some? && At(Reg(b, k).value) == now);
    }
  }

  lemma BeforeStamped(st: State, op: Op, now: Time)
    ensures Stamped(st, Before(st, op, now), now)
  {
    var b := Before(st, op, now);
    BeforeShape(st, op, now);
    forall k ensures Reg(b, k) == Reg(st, k) || (Reg(b, k).Some? && At(Reg(b, k).value) == now) {
      match k {
        case NodeKey(id) => NodesStamped(st, op, now, id);
        case ClientKey(id) => ClientsStamped(st, op, now, id);
        case ProxyKey(id) => ProxiesStamped(st, op, now, id);
      }
    }
  }

  lemma NodesStamped(st: State, op: Op, now: Time, id: string)
    ensures var m := Before(st, op, now).nodes;
            Lookup(m, id) == Lookup(st.nodes, id) || (id in m && m[id].updatedAt == now)
  {}

  lemma ClientsStamped(st: State, op: Op, now: Time, id: string)
    ensures var m := Before(st, op, now).clients;
            Lookup(m, id) == Lookup(st.clients, id) || (id in m && m[id].updatedAt == now)
  {
    if op.OpPlugin? { ObservedStamped(st.clients, EventClient(op.event), op.event, EventNode(op.node, op.event), now, id); }
  }

  lemma ObservedStamped(clients: map<string, Client>, c: string, ev: PluginEvent, nodeId: string, now: Time, id: string)
    ensures var m := ObservedClients(clients, c, ev, nodeId, now);
            Lookup(m, id) == Lookup(clients, id) || (id in m && m[id].updatedAt == now)
  {}

  lemma ProxiesStamped(st: State, op: Op, now: Time, id: string)
    ensures var m := Before(st, op, now).proxies;
            Lookup(m, id) == Lookup(st.proxies, id) || (id in m && m[id].updatedAt == now)
  {
    BeforeShape(st, op, now);
    if op.OpPlugin? {
      var n, c := EventNode(op.node, op.event), EventClient(op.event);
      OpenedStamped(st.proxies, ProxyId(n, c, op.event.proxyName), op.event, c, n, now, id);
    }
  }

  lemma OpenedStamped(proxies: map<string, Proxy>, pid: string, ev: PluginEvent, c: string, nodeId: string, now: Time, id: string)
    ensures var m := ObservedProxies(proxies, pid, ev, c, nodeId, now);
            Lookup(m, id) == Lookup(proxies, id) || (id in m && m[id].updatedAt == now)
  {}

  lemma SettleStamped(st: State, now: Time)
    requires KeyedById(st)
    ensures Stamped(st, Settle(st, now), now)
  {
    hide Recommend, ClientsOn, ProxiesOn, ProxiesOf, CanonicalUrl;
    SettleShape(st, now);
    var r := Settle(st, now);
    forall k ensures Reg(r, k) == Reg(st, k) || (Reg(r, k).Some? && At(Reg(r, k).value) == now) {
      if k.ClientKey? && k.id in st.clients {
        assert SameButTarget(Recount(st).clients[k.id], r.clients[k.id], now);
      }
    }
  }

  /** The discipline that gossip relies on: whatever a local step changes in a node, client or proxy,
      counters aside, it stamps with its own time, and it deletes nothing. */
  lemma StepStamps(st: State, op: Op, now: Time)
    requires KeyedById(st)
    ensures Stamped(st, Apply(st, op, now), now)
  {
    BeforeStamped(st, op, now);
    BeforeKeyed(st, op, now);
    if Settles(st, op) {
      SettleStamped(Before(st, op, now), now);
      StampedCompose(st, Before(st, op, now), Apply(st, op, now), now);
    }
  }

  lemma StepKeepsTokensSet(st: State, op: Op, now: Time)
    requires KeyedById(st) && TokensSet(st) && (op.OpJoin? ==> op.nodeToken != "")
    ensures TokensSet(Apply(st, op, now))
  {
    BeforeKeyed(st, op, now);
    BeforeKeepsTokensSet(st, op, now);
    SettleShape(Before(st, op, now), now);
  }

  lemma BeforeKeepsTokensSet(st: State, op: Op, now: Time)
    requires TokensSet(st) && (op.OpJoin? ==> op.nodeToken != "")
    ensures TokensSet(Before(st, op, now))
  {
    BeforeShape(st, op, now);
  }

  /* ---------- from registers back to states ---------- */

  ghost predicate StableUrls(st: State) { forall id <- st.nodes :: StableUrl(st.nodes[id].controlUrl) }

  /** Equal registers and right counters leave nothing to differ but the spelling of URLs ... */
  lemma RegistersDetermineUpToUrls(a: State, b: State)
    requires KeyedById(a) && KeyedById(b) && CountsOk(a) && CountsOk(b) && forall k :: Reg(a, k) == Reg(b, k)
    ensures a.clients == b.clients && a.proxies == b.proxies && a.nodes.Keys == b.nodes.Keys
    ensures forall id <- a.nodes :: a.nodes[id] == b.nodes[id].(controlUrl := a.nodes[id].controlUrl)
  {
    forall id ensures id in a.nodes <==> id in b.nodes { assert Reg(a, NodeKey(id)) == Reg(b, NodeKey(id)); }
    forall id ensures id in a.clients <==> id in b.clients { assert Reg(a, ClientKey(id)) == Reg(b, ClientKey(id)); }
    forall id ensures id in a.proxies <==> id in b.proxies { assert Reg(a, ProxyKey(id)) == Reg(b, ProxyKey(id)); }
    forall id | id in a.proxies ensures a.proxies[id] == b.proxies[id] { assert Reg(a, ProxyKey(id)) == Reg(b, ProxyKey(id)); }
    assert a.proxies == b.proxies;
    forall id | id in a.clients ensures a.clients[id] == b.clients[id] { assert Reg(a, ClientKey(id)) == Reg(b, ClientKey(id)); }
    assert a.clients == b.clients;
    forall id | id in a.nodes ensures a.nodes[id] == b.nodes[id].(controlUrl := a.nodes[id].controlUrl) {
      assert Reg(a, NodeKey(id)) == Reg(b, NodeKey(id));
    }
  }

  /** ... and with stable URLs nothing at all. */
  lemma RegistersDetermine(a: State, b: State)
    requires KeyedById(a) && KeyedById(b) && CountsOk(a) && CountsOk(b) && StableUrls(a) && StableUrls(b)
    requires forall k :: Reg(a, k) == Reg(b, k)
    ensures a.nodes == b.nodes && a.clients == b.clients && a.proxies == b.proxies
  {
    RegistersDetermineUpToUrls(a, b);
    forall id | id in a.nodes ensures a.nodes[id] == b.nodes[id] {
      assert Reg(a, NodeKey(id)) == Reg(b, NodeKey(id));
      StableIsCanonical(a.nodes[id].controlUrl);
      StableIsCanonical(b.nodes[id].controlUrl);
    }
  }

  lemma MergeKeepsStableUrls(st: State, remote: State, now: Time)
    requires KeyedById(st) && KeyedById(remote) && StableUrls(st) && StableUrls(remote)
    ensures StableUrls(MergeState(st, remote, now))
  {
    KeyedIsKeyed(remote);
  }

  lemma StepKeepsStableUrls(st: State, op: Op, now: Time)
    requires KeyedById(st) && StableUrls(st) && (op.OpJoin? ==> StableUrl(NormalizeUrl(op.req.controlUrl)))
    ensures StableUrls(Apply(st, op, now))
  {
    BeforeKeyed(st, op, now);
    BeforeKeepsStableUrls(st, op, now);
    SettleShape(Before(st, op, now), now);
  }

  lemma BeforeKeepsStableUrls(st: State, op: Op, now: Time)
    requires StableUrls(st) && (op.OpJoin? ==> StableUrl(NormalizeUrl(op.req.controlUrl)))
    ensures StableUrls(Before(st, op, now))
  {
    BeforeShape(st, op, now);
  }

  /** The first copy of a node that another replica takes spells the control URL as the original
      exactly when that URL is stable. */
  lemma FirstCopyIff(st: State, remote: State, now: Time, id: string)
    requires KeyedById(st) && KeyedById(remote) && id in remote.nodes && id !in st.nodes
    ensures MergeState(st, remote, now).nodes[id].controlUrl == remote.nodes[id].controlUrl <==>
            StableUrl(remote.nodes[id].controlUrl)
  {
    KeyedIsKeyed(remote);
  }

  /** The merge takes the node's entry from the remote side. */
  predicate Newer(local: map<string, ServerNode>, remote: map<string, ServerNode>, id: string) {
    id in remote && (id in local ==> remote[id].updatedAt > local[id].updatedAt)
  }

  /** The control URL after a merge: the remote one normalised, or the local one as it was. */
  lemma MergedUrl(st: State, remote: State, now: Time, id: string)
    requires KeyedById(st) && KeyedById(remote) && TokensSet(st) && TokensSet(remote) && (id in st.nodes || id in remote.nodes)
    ensures id in MergeState(st, remote, now).nodes
    ensures var n := MergeState(st, remote, now).nodes[id];
            if Newer(st.nodes, remote.nodes, id)
            then n.controlUrl == NormalizeUrl(remote.nodes[id].controlUrl) && n.updatedAt == remote.nodes[id].updatedAt
            else n.controlUrl == st.nodes[id].controlUrl && n.updatedAt == st.nodes[id].updatedAt
  {
    KeyedIsKeyed(remote);
  }
}
