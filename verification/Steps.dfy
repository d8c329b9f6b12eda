/** The local steps of a control plane as functions of its state
    (internal/control/service.go:23-174, 286-351, 415-503, internal/control/store.go:294-317,
    internal/control/token.go:25-71).  Raw identifiers are sanitized first, as in the source. */
module Steps {
  import opened Text
  import opened Cluster
  import opened Counters
  import opened Migration
  import opened Preference
  import Network
  import Tokens
  import TrafficLog

  datatype JoinRequest = JoinRequest(token: string, nodeId: string, name: string, publicAddr: string, controlUrl: string, bindPort: int)

  datatype PluginOp = Login | Ping | NewProxy | CloseProxy | Logout | OtherOp

  datatype PluginEvent = PluginEvent(op: PluginOp, user: string, clientId: string, remoteAddr: string, nodeId: string,
                                     proxyName: string, proxyType: string, remotePort: int)

  /* ---------- joining ---------- */

  function JoiningId(req: JoinRequest): string { SanitizeId(req.nodeId) }

  function JoinError(st: State, req: JoinRequest, now: Time): Option<Error> {
    if JoiningId(req) == "" || TrimSpace(req.publicAddr) == "" then Some(InvalidJoinRequest)
    else Tokens.Consume(st.tokens, req.token, JoiningId(req), now).1
  }

  function JoinedNode(nodes: map<string, ServerNode>, req: JoinRequest, nodeToken: string, now: Time): ServerNode {
    var id := JoiningId(req);
    var name := if TrimSpace(req.name) == "" then id else TrimSpace(req.name);
    var port := if req.bindPort == 0 then 7000 else req.bindPort;
    var known := Lookup(nodes, id);
    ServerNode(id, name, TrimSpace(req.publicAddr), NormalizeUrl(req.controlUrl), port, Online, nodeToken,
               if known.Some? then known.value.clientCount else 0, if known.Some? then known.value.proxyCount else 0,
               NO_NETWORK, NO_TRAFFIC, if known.Some? && known.value.joinedAt != 0 then known.value.joinedAt else now, now, now)
  }

  /** JoinNode.  A join that fails on its token may still drop the expired token. */
  function Join(st: State, req: JoinRequest, nodeToken: string, now: Time): State {
    var id := JoiningId(req);
    if id == "" || TrimSpace(req.publicAddr) == "" then st
    else
      var (tokens, error) := Tokens.Consume(st.tokens, req.token, id, now);
      if error.Some? then st.(tokens := tokens)
      else st.(tokens := tokens, nodes := st.nodes[id := JoinedNode(st.nodes, req, nodeToken, now)])
  }

  /* ---------- heartbeat and leave ---------- */

  function TokenError(n: ServerNode, token: string): Option<Error> {
    if token == "" then Some(NodeTokenRequired)
    else if n.nodeToken != token then Some(NodeTokenMismatch)
    else None
  }

  function HeartbeatError(st: State, rawId: string, req: Network.HeartbeatRequest): Option<Error> {
    if SanitizeId(rawId) !in st.nodes then Some(NodeNotFound) else TokenError(st.nodes[SanitizeId(rawId)], req.nodeToken)
  }

  /** The node and the samples after a heartbeat's measurements. */
  function Measured(n: ServerNode, samples: seq<TrafficSample>, req: Network.HeartbeatRequest, now: Time):
    (ServerNode, seq<TrafficSample>)
  {
    var network := Network.HeartbeatNetwork(req, now);
    var m := n.(status := Online, lastSeenAt := now, updatedAt := now,
                network := if network.Some? then network.value else n.network);
    match TrafficLog.NormalizeCounters(req.traffic, now)
    case None => (m, samples)
    case Some(t) => (m.(traffic := t), TrafficLog.Record(samples, n.id, t, now))
  }

  /** A heartbeat of the known node `id`, before the closing recount. */
  function Beat(st: State, id: string, req: Network.HeartbeatRequest, now: Time): State
    requires id in st.nodes
  {
    var (n, samples) := Measured(st.nodes[id], st.samples, req, now);
    st.(nodes := st.nodes[id := n], samples := samples)
  }

  /** What heartbeat, leave and plugin event end with: recount, then recommend. */
  ghost function Settle(st: State, now: Time): State
    requires KeyedById(st)
  {
    RecountCounts(st);
    Recommend(Recount(st), now)
  }

  function LeaveError(st: State, rawId: string, token: string, requireToken: bool): Option<Error> {
    if SanitizeId(rawId) !in st.nodes then Some(NodeNotFound)
    else if requireToken || token != "" then TokenError(st.nodes[SanitizeId(rawId)], token)
    else None
  }

  /** A node leaves and takes its clients and proxies with it. */
  function Departed(st: State, id: string, now: Time): State
    requires id in st.nodes
  {
    st.(nodes := st.nodes[id := st.nodes[id].(status := Offline, lastSeenAt := now, updatedAt := now)],
        clients := map c | c in st.clients ::
          if st.clients[c].nodeId == id then st.clients[c].(status := Disconnected, updatedAt := now) else st.clients[c],
        proxies := map p | p in st.proxies ::
          if st.proxies[p].nodeId == id then st.proxies[p].(status := Closed, updatedAt := now) else st.proxies[p])
  }

  /* ---------- plugin events ---------- */

  function EventNode(rawId: string, ev: PluginEvent): string {
    var id := SanitizeId(FirstNonEmpty([rawId, ev.nodeId])); if id == "" then "unknown" else id
  }

  function EventClient(ev: PluginEvent): string {
    var id := SanitizeId(FirstNonEmpty([ev.clientId, ev.user, ev.remoteAddr])); if id == "" then "anonymous" else id
  }

  function ProxyId(nodeId: string, clientId: string, name: string): string {
    SanitizeId(nodeId + "-" + clientId + "-" + FirstNonEmpty([name, "proxy"]))
  }

  /** A node that is seen again. */
  function Touched(nodes: map<string, ServerNode>, id: string, now: Time): map<string, ServerNode> {
    if id in nodes then nodes[id := nodes[id].(lastSeenAt := now, status := Online, updatedAt := now)] else nodes
  }

  /** upsertClientLocked, with the client online */
  function Seen(clients: map<string, Client>, id: string, ev: PluginEvent, nodeId: string, now: Time): Client {
    var c := if id in clients then clients[id]
             else Client(id, "", Disconnected, "", "", Idle, "", 0, "", 0, now, 0, 0);
    c.(user := TrimSpace(ev.user), nodeId := nodeId, remoteAddr := TrimSpace(ev.remoteAddr), lastSeenAt := now,
       updatedAt := now, status := Connected)
  }

  function Opened(proxies: map<string, Proxy>, pid: string, ev: PluginEvent, clientId: string, nodeId: string, now: Time): Proxy {
    Proxy(pid, FirstNonEmpty([ev.proxyName, pid]), FirstNonEmpty([ev.proxyType, "tcp"]), clientId, ev.user, nodeId, Open,
          ev.remotePort, if pid in proxies then proxies[pid].createdAt else now, now)
  }

  function ObservedClients(clients: map<string, Client>, id: string, ev: PluginEvent, nodeId: string, now: Time): map<string, Client> {
    match ev.op
    case Login | Ping | NewProxy => clients[id := Seen(clients, id, ev, nodeId, now)]
    case Logout => if id in clients then clients[id := clients[id].(status := Disconnected, updatedAt := now)] else clients
    case CloseProxy | OtherOp => clients
  }

  function ObservedProxies(proxies: map<string, Proxy>, pid: string, ev: PluginEvent, clientId: string, nodeId: string, now: Time):
    map<string, Proxy>
  {
    match ev.op
    case NewProxy => proxies[pid := Opened(proxies, pid, ev, clientId, nodeId, now)]
    case CloseProxy => if pid in proxies then proxies[pid := proxies[pid].(status := Closed, updatedAt := now)] else proxies
    case _ => proxies
  }

  function Observed(st: State, nodeId: string, clientId: string, ev: PluginEvent, now: Time): State {
    st.(nodes := Touched(st.nodes, nodeId, now),
        clients := ObservedClients(st.clients, clientId, ev, nodeId, now),
        proxies := ObservedProxies(st.proxies, ProxyId(nodeId, clientId, ev.proxyName), ev, clientId, nodeId, now))
  }

  lemma EventIds(rawId: string, ev: PluginEvent)
    ensures EventNode(rawId, ev) != "" && SanitizedId(EventNode(rawId, ev))
    ensures EventClient(ev) != ""
    ensures ProxyId(EventNode(rawId, ev), EventClient(ev), ev.proxyName) != ""
  {
    var n, c := EventNode(rawId, ev), EventClient(ev);
    SanitizeFixpoint(FirstNonEmpty([rawId, ev.nodeId]));
    var rest := "-" + c + "-" + FirstNonEmpty([ev.proxyName, "proxy"]);
    assert n + "-" + c + "-" + FirstNonEmpty([ev.proxyName, "proxy"]) == n + rest;
    SanitizeNonEmpty(n, rest);
  }

  lemma ObservedKeyed(st: State, rawId: string, ev: PluginEvent, now: Time)
    requires KeyedById(st)
    ensures KeyedById(Observed(st, EventNode(rawId, ev), EventClient(ev), ev, now))
  {
    EventIds(rawId, ev);
    ClientsKept(st.clients, EventClient(ev), ev, EventNode(rawId, ev), now);
    ProxiesKept(st.proxies, ProxyId(EventNode(rawId, ev), EventClient(ev), ev.proxyName), ev, EventClient(ev), EventNode(rawId, ev), now);
  }

  lemma ClientsKept(clients: map<string, Client>, id: string, ev: PluginEvent, nodeId: string, now: Time)
    requires ClientsKeyed(clients) && id != ""
    ensures ClientsKeyed(ObservedClients(clients, id, ev, nodeId, now))
  {}

  lemma ProxiesKept(proxies: map<string, Proxy>, pid: string, ev: PluginEvent, clientId: string, nodeId: string, now: Time)
    requires ProxiesKeyed(proxies) && pid != ""
    ensures ProxiesKeyed(ObservedProxies(proxies, pid, ev, clientId, nodeId, now))
  {}

  /* ---------- targets, configuration, tokens ---------- */

  function SwitchError(st: State, clientId: string, nodeId: string, now: Time): Option<Error> {
    if clientId !in st.clients then Some(ClientNotFound)
    else if nodeId !in st.nodes then Some(NodeNotFound)
    else if !IsOnline(st.nodes[nodeId], now) then Some(NoAvailableNode)
    else None
  }

  function SetTargetError(st: State, rawClient: string, rawNode: string, now: Time): Option<Error> {
    if SanitizeId(rawClient) in st.clients && SanitizeId(rawNode) == "" then None
    else SwitchError(st, SanitizeId(rawClient), SanitizeId(rawNode), now)
  }

  /** SetClientTarget; an empty node clears the target. */
  function SetTarget(st: State, rawClient: string, rawNode: string, now: Time): State {
    if SetTargetError(st, rawClient, rawNode, now).Some? then st
    else
      var id, n := SanitizeId(rawClient), SanitizeId(rawNode);
      st.(clients := st.clients[id := st.clients[id].(
        preferredNodeId := n, migrationState := if n == "" then Idle else Manual,
        migrationReason := if n == "" then "" else "manual switch from control plane",
        migrationUpdatedAt := now, updatedAt := now)])
  }

  /** AutoSwitchClientTarget */
  function AutoSwitch(st: State, rawClient: string, rawNode: string, reason: string, now: Time): State {
    var id, n := SanitizeId(rawClient), SanitizeId(rawNode);
    if SwitchError(st, id, n, now).Some? then st
    else st.(clients := st.clients[id := st.clients[id].(
           preferredNodeId := n, migrationState := Manual,
           migrationReason := FirstNonEmpty([TrimSpace(reason), "automatic switch from control plane"]),
           migrationUpdatedAt := now, updatedAt := now)])
  }

  /** UpdateConfig.  A negative gap is refused, but only after the migration switch was set. */
  function UpdateConfig(st: State, auto: Option<bool>, gap: Option<int>): State {
    var c := if auto.Some? then st.config.(autoMigration := auto.value) else st.config;
    st.(config := if gap.Some? && gap.value >= 0 then c.(scoreGap := gap.value) else c)
  }

  /** A refused update leaves the configuration alone exactly when it does not name the other switch position. */
  lemma RefusedUpdateIff(st: State, auto: Option<bool>, gap: int)
    requires gap < 0
    ensures UpdateConfig(st, auto, Some(gap)) == st <==> auto.None? || auto.value == st.config.autoMigration
  {
    if auto.Some? { assert UpdateConfig(st, auto, Some(gap)).config.autoMigration == auto.value; }
  }

  function CreateToken(st: State, value: string, ttl: int, uses: int, now: Time): State {
    st.(tokens := st.tokens[value := Tokens.NewToken(value, ttl, uses, now)])
  }

  /* ---------- all local steps ---------- */

  datatype Op =
    | OpJoin(req: JoinRequest, nodeToken: string)
    | OpHeartbeat(node: string, beat: Network.HeartbeatRequest)
    | OpLeave(node: string, token: string, requireToken: bool)
    | OpPlugin(node: string, event: PluginEvent)
    | OpSetTarget(client: string, node: string)
    | OpAutoSwitch(client: string, node: string, reason: string)
    | OpConfig(auto: Option<bool>, gap: Option<int>)
    | OpToken(value: string, ttl: int, uses: int)

  /** The state after the step, but before the recount and the recommendations that close
      heartbeats, leaves and plugin events. */
  function Before(st: State, op: Op, now: Time): State {
    match op
    case OpJoin(req, nodeToken) => Join(st, req, nodeToken, now)
    case OpHeartbeat(node, beat) => if HeartbeatError(st, node, beat).Some? then st else Beat(st, SanitizeId(node), beat, now)
    case OpLeave(node, token, requireToken) =>
      if LeaveError(st, node, token, requireToken).Some? then st else Departed(st, SanitizeId(node), now)
    case OpPlugin(node, event) => Observed(st, EventNode(node, event), EventClient(event), event, now)
    case OpSetTarget(client, node) => SetTarget(st, client, node, now)
    case OpAutoSwitch(client, node, reason) => AutoSwitch(st, client, node, reason, now)
    case OpConfig(auto, gap) => UpdateConfig(st, auto, gap)
    case OpToken(value, ttl, uses) => CreateToken(st, value, ttl, uses, now)
  }

  predicate Settles(st: State, op: Op) {
    match op
    case OpHeartbeat(node, beat) => HeartbeatError(st, node, beat).None?
    case OpLeave(node, token, requireToken) => LeaveError(st, node, token, requireToken).None?
    case OpPlugin(_, _) => true
    case _ => false
  }

  ghost function Apply(st: State, op: Op, now: Time): (r: State)
    requires KeyedById(st)
    ensures KeyedById(r)
  {
    BeforeKeyed(st, op, now);
    SettleKeyed(Before(st, op, now), now);
    if Settles(st, op) then Settle(Before(st, op, now), now) else Before(st, op, now)
  }

  lemma SettleKeyed(st: State, now: Time)
    requires KeyedById(st)
    ensures KeyedById(Settle(st, now))
  {
    RecountCounts(st);
    PassIdempotent(Recount(st), now);
  }

  lemma BeforeKeyed(st: State, op: Op, now: Time)
    requires KeyedById(st)
    ensures KeyedById(Before(st, op, now))
  {
    if op.OpPlugin? { ObservedKeyed(st, op.node, op.event, now); }
  }

  lemma ApplySettles(st: State, op: Op, now: Time)
    requires KeyedById(st) && Settles(st, op)
    ensures KeyedById(Before(st, op, now)) && Apply(st, op, now) == Settle(Before(st, op, now), now)
  {
    BeforeKeyed(st, op, now);
  }

  /** Settling changes counters and targets only. */
  lemma SettleShape(st: State, now: Time)
    requires KeyedById(st)
    ensures var r := Settle(st, now);
            && r == Recount(st).(clients := r.clients) && r.clients.Keys == st.clients.Keys
            && (forall id <- st.clients :: SameButTarget(Recount(st).clients[id], r.clients[id], now))
            && (!st.config.autoMigration ==> r == Recount(st))
  {
    hide Recount, OnlineSet, Scores, BestNode, ShouldMigrate, Reason;
    RecountCounts(st);
    RecountKeys(st);
  }

  lemma RecountKeys(st: State)
    ensures Recount(st).clients.Keys == st.clients.Keys && Recount(st).config == st.config
  {}

  /** The two clients differ in their target only, and then the second is stamped. */
  predicate SameButTarget(c: Client, d: Client, now: Time) {
    d == c || d == c.(preferredNodeId := d.preferredNodeId, migrationState := d.migrationState,
                      migrationReason := d.migrationReason, migrationUpdatedAt := d.migrationUpdatedAt, updatedAt := now)
  }

  /** Which part of the state a step can touch at all. */
  lemma BeforeShape(st: State, op: Op, now: Time)
    ensures var b := Before(st, op, now);
            && (!op.OpConfig? ==> b.config == st.config)
            && (!op.OpJoin? && !op.OpToken? ==> b.tokens == st.tokens)
            && (!op.OpHeartbeat? ==> b.samples == st.samples)
            && (!op.OpLeave? && !op.OpPlugin? ==> b.proxies == st.proxies)
            && (op.OpConfig? || op.OpToken? ==> b.nodes == st.nodes && b.clients == st.clients)
            && (op.OpJoin? || op.OpHeartbeat? ==> b.clients == st.clients)
            && (op.OpSetTarget? || op.OpAutoSwitch? ==> b.nodes == st.nodes)
  {}
}
