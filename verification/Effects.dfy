/** What single steps leave in the state, entry by entry (internal/control/service.go:23-174, 286-351, 429-503). */
module Effects {
  import opened Text
  import opened Cluster
  import opened Counters
  import opened History
  import opened Migration
  import opened Preference
  import opened Steps
  import Network
  import Runs
  import Tokens
  import TrafficLog
  import TrafficRuns

  /* ---------- plugin events ---------- */

  predicate SamePlace(c: Client, d: Client) { d.status == c.status && d.nodeId == c.nodeId }

  /** What an event on node `n` about client `c` does to the clients: a login, a ping or a new proxy connects it
      there, a logout disconnects it where it is, and all other clients stay. */
  ghost predicate ClientsOutcome(C: map<string, Client>, D: map<string, Client>, op: PluginOp, n: string, c: string) {
    && D.Keys == (if op.Login? || op.Ping? || op.NewProxy? then C.Keys + {c} else C.Keys)
    && (forall d <- C :: d != c ==> SamePlace(C[d], D[d]))
    && (c in D ==>
          if op.Login? || op.Ping? || op.NewProxy? then D[c].status.Connected? && D[c].nodeId == n
          else if op.Logout? then D[c].status.Disconnected? && D[c].nodeId == C[c].nodeId
          else SamePlace(C[c], D[c]))
  }

  /** What it does to the proxies: a new proxy is open there, with the name, type and port of the event, a close
      closes a known one, and all other proxies stay as they are. */
  ghost predicate ProxiesOutcome(P: map<string, Proxy>, Q: map<string, Proxy>, ev: PluginEvent, n: string, c: string, p: string, now: Time) {
    && (forall q :: q != p ==> Lookup(Q, q) == Lookup(P, q))
    && (if ev.op.NewProxy? then
          && p in Q && Q[p].status.Open? && Q[p].nodeId == n && Q[p].clientId == c && Q[p].user == ev.user
          && Q[p].remotePort == ev.remotePort && Q[p].updatedAt == now && Q[p].createdAt == (if p in P then P[p].createdAt else now)
          && Q[p].name == (if TrimSpace(ev.proxyName) != "" then TrimSpace(ev.proxyName) else TrimSpace(p))
          && Q[p].kind == (if TrimSpace(ev.proxyType) != "" then TrimSpace(ev.proxyType) else "tcp")
        else if ev.op.CloseProxy? && p in P then p in Q && Q[p] == P[p].(status := Closed, updatedAt := now)
        else Q == P)
  }

  lemma PluginOutcome(st: State, rawId: string, ev: PluginEvent, now: Time)
    requires KeyedById(st)
    ensures var r, n, c := Apply(st, OpPlugin(rawId, ev), now), EventNode(rawId, ev), EventClient(ev);
            && ClientsOutcome(st.clients, r.clients, ev.op, n, c)
            && ProxiesOutcome(st.proxies, r.proxies, ev, n, c, ProxyId(n, c, ev.proxyName), now)
  {
    hide EventNode, EventClient, ProxyId, TrimSpace, FirstNonEmpty, ClientsOutcome, ProxiesOutcome, ObservedProxies, ObservedClients, Settle;
    var op, n, c := OpPlugin(rawId, ev), EventNode(rawId, ev), EventClient(ev);
    BeforeKeyed(st, op, now);
    ApplySettles(st, op, now);
    hide Apply;
    ObservedClientsOutcome(st.clients, c, ev, n, now);
    ObservedProxiesOutcome(st.proxies, ProxyId(n, c, ev.proxyName), ev, c, n, now);
    SettleKeepsStatus(Before(st, op, now), now);
    PlacesSettle(st.clients, Before(st, op, now).clients, Apply(st, op, now).clients, ev.op, n, c);
  }

  lemma PlacesSettle(C: map<string, Client>, B: map<string, Client>, D: map<string, Client>, op: PluginOp, n: string, c: string)
    requires ClientsOutcome(C, B, op, n, c) && D.Keys == B.Keys && forall d <- B :: D[d].status == B[d].status && D[d].nodeId == B[d].nodeId
    ensures ClientsOutcome(C, D, op, n, c)
  {}

  lemma ObservedClientsOutcome(C: map<string, Client>, c: string, ev: PluginEvent, n: string, now: Time)
    ensures ClientsOutcome(C, ObservedClients(C, c, ev, n, now), ev.op, n, c)
  {
    hide TrimSpace;
  }

  lemma ObservedProxiesOutcome(P: map<string, Proxy>, p: string, ev: PluginEvent, c: string, n: string, now: Time)
    ensures ProxiesOutcome(P, ObservedProxies(P, p, ev, c, n, now), ev, n, c, p, now)
  {
    FirstOfTwo(ev.proxyName, p);
    FirstOfTwo(ev.proxyType, "tcp");
    assert TrimSpace("tcp") == "tcp";
    hide TrimSpace, FirstNonEmpty;
  }

  /** ... and what else is known of a client that an event shows: who and from where, and since when. */
  lemma ShownClientSays(st: State, rawId: string, ev: PluginEvent, now: Time)
    requires KeyedById(st) && (ev.op.Login? || ev.op.Ping? || ev.op.NewProxy?)
    ensures var r, c := Apply(st, OpPlugin(rawId, ev), now), EventClient(ev);
            && c in r.clients
            && var d := r.clients[c];
            && d.user == TrimSpace(ev.user) && d.remoteAddr == TrimSpace(ev.remoteAddr) && d.lastSeenAt == now && d.updatedAt == now
            && d.firstSeenAt == if c in st.clients then st.clients[c].firstSeenAt else now
  {
    hide EventNode, EventClient, ProxyId, TrimSpace, FirstNonEmpty, Settle;
    var op := OpPlugin(rawId, ev);
    BeforeKeyed(st, op, now);
    ApplySettles(st, op, now);
    hide Apply;
    var b, c := Before(st, op, now), EventClient(ev);
    assert c in b.clients && b.clients[c] == Seen(st.clients, c, ev, EventNode(rawId, ev), now);
    hide Before;
    SettleShape(b, now);
    assert SameButTarget(Recount(b).clients[c], Settle(b, now).clients[c], now);
  }

  lemma FirstOfTwo(a: string, b: string)
    ensures FirstNonEmpty([a, b]) == if TrimSpace(a) != "" then TrimSpace(a) else TrimSpace(b)
  {
    hide TrimSpace;
    assert [b][1..] == [];
    assert FirstNonEmpty([b]) == TrimSpace(b);
    assert [a, b][1..] == [b];
  }

  /** Opening a proxy of a known client on a known node raises their proxy counters by one if it was not open,
      and leaves all other proxy counters alone. */
  lemma NewProxyCounts(st: State, rawId: string, ev: PluginEvent, now: Time)
    requires KeyedById(st) && CountsOk(st) && ev.op.NewProxy? && EventNode(rawId, ev) in st.nodes && EventClient(ev) in st.clients
    requires ProxyAt(st, ProxyId(EventNode(rawId, ev), EventClient(ev), ev.proxyName)).None?
    ensures var r, n, c := Apply(st, OpPlugin(rawId, ev), now), EventNode(rawId, ev), EventClient(ev);
            && r.nodes.Keys == st.nodes.Keys && r.clients.Keys == st.clients.Keys
            && (forall m <- st.nodes :: r.nodes[m].proxyCount == st.nodes[m].proxyCount + if m == n then 1 else 0)
            && (forall d <- st.clients :: r.clients[d].proxyCount == st.clients[d].proxyCount + if d == c then 1 else 0)
  {
    hide EventNode, EventClient, ProxyId, TrimSpace, Apply, CountsOk, KeyedById, FirstNonEmpty;
    var n, c, r := EventNode(rawId, ev), EventClient(ev), Apply(st, OpPlugin(rawId, ev), now);
    PluginOutcome(st, rawId, ev, now);
    EventCounts(st, rawId, ev, now);
    assert r.clients.Keys == st.clients.Keys;
    hide ClientsOutcome;
    assert NewlyOpen(st.proxies, r.proxies, ProxyId(n, c, ev.proxyName), n, c);
    hide ProxiesOutcome;
    CountsFollow(st, r, ProxyId(n, c, ev.proxyName), n, c);
  }

  lemma CountsFollow(st: State, r: State, p: string, n: string, c: string)
    requires CountsOk(st) && CountsOk(r) && r.nodes.Keys == st.nodes.Keys && r.clients.Keys == st.clients.Keys
    requires NewlyOpen(st.proxies, r.proxies, p, n, c)
    ensures forall m <- st.nodes :: r.nodes[m].proxyCount == st.nodes[m].proxyCount + if m == n then 1 else 0
    ensures forall d <- st.clients :: r.clients[d].proxyCount == st.clients[d].proxyCount + if d == c then 1 else 0
  {
    hide ProxiesOn, ProxiesOf, ClientsOn, NewlyOpen;
    forall m | m in st.nodes ensures r.nodes[m].proxyCount == st.nodes[m].proxyCount + if m == n then 1 else 0 {
      OneMoreOpen(st.proxies, r.proxies, p, n, c, m, c);
    }
    forall d | d in st.clients ensures r.clients[d].proxyCount == st.clients[d].proxyCount + if d == c then 1 else 0 {
      OneMoreOpen(st.proxies, r.proxies, p, n, c, n, d);
    }
  }

  lemma EventCounts(st: State, rawId: string, ev: PluginEvent, now: Time)
    requires KeyedById(st)
    ensures var r := Apply(st, OpPlugin(rawId, ev), now); CountsOk(r) && r.nodes.Keys == st.nodes.Keys
  {
    var op := OpPlugin(rawId, ev);
    BeforeKeyed(st, op, now);
    Runs.SettleCounts(Before(st, op, now), now);
    SettleKeepsStatus(Before(st, op, now), now);
    BeforeNodes(st, rawId, ev, now);
    hide CountsOk, Settle, Before;
  }

  lemma BeforeNodes(st: State, rawId: string, ev: PluginEvent, now: Time)
    ensures Before(st, OpPlugin(rawId, ev), now).nodes.Keys == st.nodes.Keys
  {}

  /** Only the proxy `p` changed, and it was opened at this place. */
  ghost predicate NewlyOpen(P: map<string, Proxy>, Q: map<string, Proxy>, p: string, n: string, c: string) {
    && p in Q && Q[p].status.Open? && Q[p].nodeId == n && Q[p].clientId == c && !(p in P && P[p].status.Open?)
    && forall q :: q != p ==> Lookup(Q, q) == Lookup(P, q)
  }

  lemma OneMoreOpen(P: map<string, Proxy>, Q: map<string, Proxy>, p: string, n: string, c: string, m: string, d: string)
    requires NewlyOpen(P, Q, p, n, c)
    ensures |ProxiesOn(Q, m)| == |ProxiesOn(P, m)| + if m == n then 1 else 0
    ensures |ProxiesOf(Q, d)| == |ProxiesOf(P, d)| + if d == c then 1 else 0
  {
    OneMoreMember(ProxiesOn(P, m), ProxiesOn(Q, m), p, m == n) by {
      forall q ensures q in ProxiesOn(Q, m) <==> q in ProxiesOn(P, m) || (m == n && q == p) {
        if q != p { assert Lookup(Q, q) == Lookup(P, q); }
      }
    }
    OneMoreMember(ProxiesOf(P, d), ProxiesOf(Q, d), p, d == c) by {
      forall q ensures q in ProxiesOf(Q, d) <==> q in ProxiesOf(P, d) || (d == c && q == p) {
        if q != p { assert Lookup(Q, q) == Lookup(P, q); }
      }
    }
  }

  lemma OneMoreMember(S: set<string>, T: set<string>, p: string, joins: bool)
    requires p !in S && forall q :: q in T <==> q in S || (joins && q == p)
    ensures |T| == |S| + if joins then 1 else 0
  {
    assert T == if joins then S + {p} else S;
  }

  /** Who an event speaks of: a sanitized identifier given first is taken as it is; a blank one leaves the choice to
      the next, and at the end there is a name for the nameless. */
  lemma EventNames(rawId: string, ev: PluginEvent, id: string)
    requires id != "" && SanitizedId(id)
    ensures rawId == id || (TrimSpace(rawId) == "" && ev.nodeId == id) ==> EventNode(rawId, ev) == id
    ensures TrimSpace(rawId) == "" && TrimSpace(ev.nodeId) == "" ==> EventNode(rawId, ev) == "unknown"
    ensures ev.clientId == id || (TrimSpace(ev.clientId) == "" && ev.user == id) ==> EventClient(ev) == id
    ensures TrimSpace(ev.clientId) == "" && TrimSpace(ev.user) == "" && ev.remoteAddr == id ==> EventClient(ev) == id
    ensures TrimSpace(ev.clientId) == "" && TrimSpace(ev.user) == "" && TrimSpace(ev.remoteAddr) == "" ==> EventClient(ev) == "anonymous"
  {
    SanitizedHasNoSpace(id);
    SanitizeFixpoint(id);
    SanitizeFixpoint("");
    assert TrimSpace("") == "";
    hide TrimSpace, SanitizeId, SanitizedId;
    FirstOfTwo(rawId, ev.nodeId);
    FirstOfThree(ev.clientId, ev.user, ev.remoteAddr);
  }

  lemma FirstOfThree(a: string, b: string, c: string)
    ensures FirstNonEmpty([a, b, c]) == if TrimSpace(a) != "" then TrimSpace(a) else if TrimSpace(b) != "" then TrimSpace(b) else TrimSpace(c)
  {
    hide TrimSpace;
    FirstOfTwo(b, c);
    assert [a, b, c][1..] == [b, c];
  }

  /* ---------- leaving ---------- */

  /** The node, its clients and its proxies went offline; the clients, proxies and nodes of others keep status and place. */
  ghost predicate WentOffline(st: State, r: State, id: string, now: Time) {
    && r.clients.Keys == st.clients.Keys && r.proxies.Keys == st.proxies.Keys && r.nodes.Keys == st.nodes.Keys
    && (forall c <- st.clients :: r.clients[c].nodeId == st.clients[c].nodeId
          && r.clients[c].status == if st.clients[c].nodeId == id then Disconnected else st.clients[c].status)
    && (forall p <- st.proxies ::
          r.proxies[p] == if st.proxies[p].nodeId == id then st.proxies[p].(status := Closed, updatedAt := now) else st.proxies[p])
    && (forall n <- st.nodes :: r.nodes[n].status == (if n == id then Offline else st.nodes[n].status)
                                && r.nodes[n].lastSeenAt == (if n == id then now else st.nodes[n].lastSeenAt))
  }

  /** An accepted leave does this, and nothing to others. */
  lemma LeaveOutcome(st: State, rawId: string, token: string, requireToken: bool, now: Time)
    requires KeyedById(st) && LeaveError(st, rawId, token, requireToken).None?
    ensures WentOffline(st, Apply(st, OpLeave(rawId, token, requireToken), now), SanitizeId(rawId), now)
  {
    hide WentOffline, SanitizeId, TokenError, Departed;
    var op, id := OpLeave(rawId, token, requireToken), SanitizeId(rawId);
    BeforeKeyed(st, op, now);
    ApplySettles(st, op, now);
    hide Apply;
    DepartedOutcome(st, id, now);
    SettleKeepsStatus(Before(st, op, now), now);
    OfflineSettles(st, Departed(st, id, now), Apply(st, op, now), id, now);
  }

  lemma DepartedOutcome(st: State, id: string, now: Time)
    requires id in st.nodes
    ensures WentOffline(st, Departed(st, id, now), id, now)
  {}

  lemma OfflineSettles(st: State, d: State, r: State, id: string, now: Time)
    requires WentOffline(st, d, id, now) && r.clients.Keys == d.clients.Keys && r.proxies == d.proxies && r.nodes.Keys == d.nodes.Keys
    requires forall c <- d.clients :: r.clients[c].status == d.clients[c].status && r.clients[c].nodeId == d.clients[c].nodeId
    requires forall n <- d.nodes :: r.nodes[n].status == d.nodes[n].status && r.nodes[n].lastSeenAt == d.nodes[n].lastSeenAt
    ensures WentOffline(st, r, id, now)
  {}

  /* ---------- joining ---------- */

  /** A join is accepted exactly with an identifier, an address and a live token that has uses left. */
  lemma JoinAcceptedIff(st: State, req: JoinRequest, now: Time)
    ensures JoinError(st, req, now).None? <==>
            && SanitizeId(req.nodeId) != "" && TrimSpace(req.publicAddr) != ""
            && req.token in st.tokens && now < st.tokens[req.token].expiresAt && st.tokens[req.token].usesLeft > 0
    ensures SanitizeId(req.nodeId) != "" && TrimSpace(req.publicAddr) != "" ==>
            && (JoinError(st, req, now) == Some(InvalidToken) <==> req.token !in st.tokens)
            && (JoinError(st, req, now) == Some(TokenExpired) <==> req.token in st.tokens && now >= st.tokens[req.token].expiresAt)
  {
    hide SanitizeId, TrimSpace;
  }

  /** The node that an accepted join leaves: what the request says, with the defaults filled in, online as of
      now, and with nothing measured yet. */
  predicate JoinedAs(n: ServerNode, req: JoinRequest, nodeToken: string, now: Time) {
    && n.id == SanitizeId(req.nodeId) && n.publicAddr == TrimSpace(req.publicAddr) && n.controlUrl == NormalizeUrl(req.controlUrl)
    && n.name == (if TrimSpace(req.name) != "" then TrimSpace(req.name) else n.id)
    && n.bindPort == (if req.bindPort != 0 then req.bindPort else 7000)
    && n.nodeToken == nodeToken && n.status.Online? && n.lastSeenAt == now && n.updatedAt == now
    && !Network.HasMeasurement(n.network) && TrafficRuns.Silent(n.traffic)
  }

  lemma JoinOutcome(st: State, req: JoinRequest, nodeToken: string, now: Time)
    requires KeyedById(st) && JoinError(st, req, now).None?
    ensures var r, id := Apply(st, OpJoin(req, nodeToken), now), SanitizeId(req.nodeId);
            && id in r.nodes && JoinedAs(r.nodes[id], req, nodeToken, now)
            && r.nodes[id].joinedAt == (if id in st.nodes && st.nodes[id].joinedAt != 0 then st.nodes[id].joinedAt else now)
            && (id in st.nodes ==> r.nodes[id].clientCount == st.nodes[id].clientCount && r.nodes[id].proxyCount == st.nodes[id].proxyCount)
            && (forall n :: n != id ==> Lookup(r.nodes, n) == Lookup(st.nodes, n))
            && r.clients == st.clients && r.proxies == st.proxies && r.samples == st.samples
  {
    hide SanitizeId, TrimSpace, NormalizeUrl, Tokens.Consume;
  }

  /** A refused join changes nothing, but that it removes an expired token. */
  lemma JoinRefused(st: State, req: JoinRequest, nodeToken: string, now: Time)
    requires KeyedById(st) && JoinError(st, req, now).Some?
    ensures Apply(st, OpJoin(req, nodeToken), now) ==
              if JoinError(st, req, now) == Some(TokenExpired) then st.(tokens := st.tokens - {req.token}) else st
  {
    hide SanitizeId, TrimSpace;
  }

  /** The errors of heartbeats and leaves: an unknown node, a missing token, or a wrong one. */
  lemma ReportRefusals(st: State, rawId: string, beat: Network.HeartbeatRequest, token: string, requireToken: bool)
    ensures var id, e, f := SanitizeId(rawId), HeartbeatError(st, rawId, beat), LeaveError(st, rawId, token, requireToken);
            && (e == Some(NodeNotFound) <==> id !in st.nodes) && (f == Some(NodeNotFound) <==> id !in st.nodes)
            && (e == Some(NodeTokenRequired) <==> id in st.nodes && beat.nodeToken == "")
            && (f == Some(NodeTokenRequired) <==> id in st.nodes && token == "" && requireToken)
            && (e == Some(NodeTokenMismatch) <==> id in st.nodes && beat.nodeToken != "" && beat.nodeToken != st.nodes[id].nodeToken)
            && (f == Some(NodeTokenMismatch) <==> id in st.nodes && token != "" && token != st.nodes[id].nodeToken)
  {
    hide SanitizeId;
  }

  /* ---------- heartbeats ---------- */

  /** An accepted heartbeat shows the node online, stores what it measured and reported, and records the report. */
  lemma HeartbeatOutcome(st: State, rawId: string, beat: Network.HeartbeatRequest, now: Time)
    requires KeyedById(st) && HeartbeatError(st, rawId, beat).None?
    ensures var r, id := Apply(st, OpHeartbeat(rawId, beat), now), SanitizeId(rawId);
            && id in st.nodes && r.nodes.Keys == st.nodes.Keys
            && var n := r.nodes[id];
            && n.status.Online? && n.lastSeenAt == now && n.updatedAt == now && n.nodeToken == st.nodes[id].nodeToken
            && (if Network.HeartbeatNetwork(beat, now).Some? then n.network == Network.HeartbeatNetwork(beat, now).value
                else n.network == st.nodes[id].network)
            && (if TrafficRuns.Silent(beat.traffic) && beat.traffic.measuredAt == 0 then n.traffic == st.nodes[id].traffic
                else n.traffic.totalIn == TrafficRuns.Floor(beat.traffic.totalIn) && n.traffic.totalOut == TrafficRuns.Floor(beat.traffic.totalOut)
                     && n.traffic.connections == TrafficRuns.Floor(beat.traffic.connections) && n.traffic.proxies == beat.traffic.proxies
                     && n.traffic.measuredAt == if beat.traffic.measuredAt != 0 then beat.traffic.measuredAt else now)
            && r.samples == TrafficLog.RecordAll(st.samples, [TrafficLog.Report(id, beat.traffic, now)])
  {
    hide SanitizeId, TokenError, Network.HeartbeatNetwork, TrafficLog.Record, TrafficLog.RecordAll, Settle;
    var op := OpHeartbeat(rawId, beat);
    BeforeKeyed(st, op, now);
    ApplySettles(st, op, now);
    hide Apply;
    SettleShape(Before(st, op, now), now);
    TrafficRuns.RecordedOne(st.samples, TrafficLog.Report(SanitizeId(rawId), beat.traffic, now));
  }

  /* ---------- targets ---------- */

  /** A switch is refused exactly for an unknown client, an unknown node, or one silent for more than 90 seconds. */
  lemma SwitchAcceptedIff(st: State, client: string, node: string, now: Time)
    ensures SwitchError(st, client, node, now).None? <==>
            client in st.clients && SeenAt(st, node).Some? && now - SeenAt(st, node).value <= 90 * 1_000_000_000
  {}

  /** Setting a target is refused like a switch, but a known client's target can always be cleared; and the errors. */
  lemma TargetRefusals(st: State, client: string, node: string, now: Time)
    ensures var c, n := SanitizeId(client), SanitizeId(node);
            var e := SetTargetError(st, client, node, now);
            && (e.None? <==> c in st.clients && (n == "" || SwitchError(st, c, n, now).None?))
            && (e == Some(ClientNotFound) <==> c !in st.clients) && (SwitchError(st, c, n, now) == Some(ClientNotFound) <==> c !in st.clients)
            && (e == Some(NodeNotFound) <==> c in st.clients && n != "" && n !in st.nodes)
  {
    hide SanitizeId;
  }

  /** A target by hand, its clearing, and an automatic switch concern one client, and there the target only. */
  lemma TargetOutcome(st: State, op: Op, now: Time)
    requires KeyedById(st)
    requires (op.OpSetTarget? && SetTargetError(st, op.client, op.node, now).None?)
             || (op.OpAutoSwitch? && SwitchError(st, SanitizeId(op.client), SanitizeId(op.node), now).None?)
    ensures var r, c, n := Apply(st, op, now), SanitizeId(op.client), SanitizeId(op.node);
            && r == st.(clients := r.clients) && r.clients.Keys == st.clients.Keys && c in st.clients
            && (forall d <- st.clients :: d != c ==> r.clients[d] == st.clients[d])
            && SameButTarget(st.clients[c], r.clients[c], now) && r.clients[c].updatedAt == now && r.clients[c].migrationUpdatedAt == now
            && r.clients[c].preferredNodeId == n && r.clients[c].migrationState == (if n == "" then Idle else Manual)
            && (n != "" ==> SwitchError(st, c, n, now).None?) && (r.clients[c].migrationReason == "" <==> n == "")
  {
    hide SanitizeId, TrimSpace;
    if op.OpAutoSwitch? {
      var c, n := SanitizeId(op.client), SanitizeId(op.node);
      assert n in st.nodes && n != "";
      FirstOfTwo(TrimSpace(op.reason), "automatic switch from control plane");
      assert TrimSpace("automatic switch from control plane") == "automatic switch from control plane" by { TrimReason(); }
    }
    hide FirstNonEmpty;
  }

  lemma TrimReason()
    ensures TrimSpace("automatic switch from control plane") == "automatic switch from control plane"
  {
    TrimFixpoint("automatic switch from control plane", IsSpace);
  }

  /* ---------- the recommendation pass ---------- */

  /** The node was seen at most 90 seconds ago and has not left. */
  predicate Reporting(nodes: map<string, ServerNode>, id: string, now: Time) {
    id in nodes && nodes[id].status.Online? && now - nodes[id].lastSeenAt <= 90 * 1_000_000_000
  }

  function ScoreOf(nodes: map<string, ServerNode>, id: string, now: Time): int
    requires id in nodes
  {
    Network.Score(nodes[id].network, now)
  }

  /** Some reporting node beats this one by the configured gap, or by 15 if that is not positive. */
  ghost predicate Outscored(st: State, id: string, now: Time)
    requires id in st.nodes
  {
    exists m :: Reporting(st.nodes, m, now)
                && ScoreOf(st.nodes, m, now) - ScoreOf(st.nodes, id, now) >= if st.config.scoreGap > 0 then st.config.scoreGap else 15
  }

  /** The reason given for a move: the own node does not report, or the two scores. */
  function WhyMove(nodes: map<string, ServerNode>, own: string, target: string, now: Time): string
    requires target in nodes
  {
    "prefer node " + target +
    if !Reporting(nodes, own, now) then " because current node " + own + " is offline"
    else " score=" + Itoa(ScoreOf(nodes, target, now)) + " over " + own + " score=" + Itoa(ScoreOf(nodes, own, now))
  }

  /** What a pass does to one client.  It touches only connected clients with a node, while migration is on and some node
      reports; these it tells to move to a reporting node with the best score exactly when their own node does not report
      or is outscored, and takes any other target from them. */
  lemma PassOutcome(st: State, now: Time, id: string)
    requires KeyedById(st) && id in st.clients
    ensures var c, r := st.clients[id], Recommend(st, now);
            && id in r.clients && r == st.(clients := r.clients) && r.clients.Keys == st.clients.Keys
            && var d := r.clients[id];
            && SameButTarget(c, d, now)
            && (if !st.config.autoMigration || !(exists m :: Reporting(st.nodes, m, now)) || !c.status.Connected? || c.nodeId == "" then d == c
                else if !Reporting(st.nodes, c.nodeId, now) || Outscored(st, c.nodeId, now) then
                  && d.migrationState.Pending? && d.preferredNodeId != c.nodeId && Reporting(st.nodes, d.preferredNodeId, now)
                  && (forall m :: Reporting(st.nodes, m, now) ==> ScoreOf(st.nodes, m, now) <= ScoreOf(st.nodes, d.preferredNodeId, now))
                  && (d != c ==> d.migrationUpdatedAt == now) && d.migrationReason == WhyMove(st.nodes, c.nodeId, d.preferredNodeId, now)
                else d.migrationState.Idle? && d.preferredNodeId == "" && d.migrationReason == "")
  {
    OnlineReports(st, now);
    hide NodesKeyed, ClientsKeyed, BestNode, Scores, OnlineSet, Itoa, Reason, WhyMove;
    if Active(st, now) && Follows(st.clients[id]) {
      PassDecides(st, now, id);
      BestIsBest(st.nodes, now);
      ScoresAre(st.nodes, now);
      ReasonIsWhy(st, st.clients[id], now);
    }
  }

  lemma ReasonIsWhy(st: State, c: Client, now: Time)
    requires KeyedById(st) && OnlineSet(st.nodes, now) != {}
    ensures BestNode(st.nodes, now).id in st.nodes
    ensures Reason(c, BestNode(st.nodes, now), Scores(st.nodes, now)) == WhyMove(st.nodes, c.nodeId, BestNode(st.nodes, now).id, now)
  {
    hide NodesKeyed, ClientsKeyed, BestNode, Scores, OnlineSet, Itoa;
    var best := BestNode(st.nodes, now);
    BestIsBest(st.nodes, now);
    ScoresAre(st.nodes, now);
    var a, b, x := "prefer node " + best.id, " because current node " + c.nodeId + " is offline", " score=" + Itoa(best.network.score);
    if c.nodeId in Scores(st.nodes, now) {
      SentenceJoins(best.id, Itoa(best.network.score), c.nodeId, Itoa(Scores(st.nodes, now)[c.nodeId]));
    } else {
      assert "prefer node " + best.id + " because current node " + c.nodeId + " is offline" == a + b;
    }
  }

  lemma SentenceJoins(best: string, score: string, own: string, other: string)
    ensures "prefer node " + best + " score=" + score + " over " + own + " score=" + other
         == "prefer node " + best + (" score=" + score + " over " + own + " score=" + other)
  {}

  lemma OnlineReports(st: State, now: Time)
    ensures OnlineSet(st.nodes, now) != {} <==> exists m :: Reporting(st.nodes, m, now)
  {
    hide Network.Refresh;
    if n :| n in OnlineSet(st.nodes, now) {
      var m :| m in st.nodes && IsOnline(st.nodes[m], now) && Refreshed(st.nodes[m], now) == n;
      assert Reporting(st.nodes, m, now);
    }
    if m :| Reporting(st.nodes, m, now) { assert Refreshed(st.nodes[m], now) in OnlineSet(st.nodes, now); }
  }

  lemma ScoresAre(nodes: map<string, ServerNode>, now: Time)
    ensures forall m :: m in Scores(nodes, now) <==> Reporting(nodes, m, now)
    ensures forall m :: Reporting(nodes, m, now) ==> Scores(nodes, now)[m] == ScoreOf(nodes, m, now)
  {
    forall m | Reporting(nodes, m, now) ensures Scores(nodes, now)[m] == ScoreOf(nodes, m, now) {
      Network.RefreshIdempotent(nodes[m].network, now);
    }
    hide Network.Refresh, Network.Score;
  }

  /** A pass announces exactly the clients that it tells something new: those it changed and left pending. */
  lemma AnnouncedIff(st: State, now: Time, id: string)
    requires KeyedById(st) && id in st.clients
    ensures id in Announced(st, now) <==>
            Recommend(st, now).clients[id] != st.clients[id] && Recommend(st, now).clients[id].migrationState.Pending?
  {
    hide Reason, Scores, BestNode, OnlineSet, NodesKeyed, ClientsKeyed;
  }

  /** A step that ends with a pass recounts first: while some node reports, the target of every followed client that is
      left pending is preferred to all other reporting nodes under the counters that the step leaves, which are right. */
  lemma SettledTargets(st: State, op: Op, now: Time, id: string)
    requires KeyedById(st) && Settles(st, op)
    ensures CountsOk(Apply(st, op, now))
    ensures PreferredTarget(Apply(st, op, now), now, id)
  {
    hide Recommend, Recount, Apply, PreferredTarget, CountsOk;
    BeforeKeyed(st, op, now);
    ApplySettles(st, op, now);
    var b := Before(st, op, now);
    Runs.SettleCounts(b, now);
    RecountCounts(b);
    PassPrefers(Recount(b), now, id);
  }

  ghost predicate PreferredTarget(r: State, now: Time, id: string) {
    r.config.autoMigration && (exists m :: Reporting(r.nodes, m, now)) && id in r.clients && Migration.Follows(r.clients[id])
    && r.clients[id].migrationState.Pending? ==>
      && r.clients[id].preferredNodeId in r.nodes
      && forall m :: Reporting(r.nodes, m, now) && m != r.clients[id].preferredNodeId ==>
           Prefer(Refreshed(r.nodes[r.clients[id].preferredNodeId], now), Refreshed(r.nodes[m], now))
  }

  lemma PassPrefers(c: State, now: Time, id: string)
    requires KeyedById(c)
    ensures PreferredTarget(Recommend(c, now), now, id)
  {
    OnlineReports(c, now);
    if Active(c, now) && id in c.clients && Migration.Follows(c.clients[id]) {
      PassDecides(c, now, id);
      BestIsBest(c.nodes, now);
      hide Prefer, Network.Refresh, Advise, BestNode;
      var best := BestNode(c.nodes, now);
      assert best == Refreshed(c.nodes[best.id], now) by { BestIsRefreshed(c, now); }
      forall m | Reporting(c.nodes, m, now) && m != best.id ensures Prefer(best, Refreshed(c.nodes[m], now)) {
        assert Refreshed(c.nodes[m], now) in OnlineSet(c.nodes, now);
      }
    }
  }

  lemma BestIsRefreshed(c: State, now: Time)
    requires KeyedById(c) && OnlineSet(c.nodes, now) != {}
    ensures var b := BestNode(c.nodes, now); b.id in c.nodes && b == Refreshed(c.nodes[b.id], now)
  {
    hide Network.Refresh;
    OnlineIdsDistinct(c.nodes, now);
    RankingFacts(OnlineSet(c.nodes, now));
    var b := BestNode(c.nodes, now);
    assert b in OnlineSet(c.nodes, now);
  }
}
