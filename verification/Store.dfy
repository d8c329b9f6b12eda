/** The control plane's store: each method is one step under the source's lock, with the clock and fresh
    random tokens passed in (internal/control/store.go, internal/control/service.go,
    internal/control/traffic.go, internal/control/token.go). */
module ControlStore {
  import opened Text
  import opened Cluster
  import opened Counters
  import opened Events
  import opened Migration
  import opened Preference
  import opened Sorting
  import opened Steps
  import opened StringLists
  import Lww
  import Network
  import Peers
  import Replicas
  import SampleMerge
  import Tokens
  import TrafficLog

  datatype Candidate = Candidate(clientId: string, nodeId: string, reason: string)

  predicate ByClient(a: Candidate, b: Candidate) {
    if a.clientId != b.clientId then StrLess(a.clientId, b.clientId) else StrLess(a.nodeId, b.nodeId)
  }

  const ANNOUNCEMENT := "client.migration_recommended"

  /** The events of a pass that recommends `best` to the clients `ids`. */
  function Announcements(best: string, ids: seq<string>, now: Time): seq<Event> {
    seq(|ids|, i requires 0 <= i < |ids| => NewEvent(ANNOUNCEMENT, best, ids[i], "", now))
  }

  /** The announcements of one pass share an identifier: whatever is merged later, one of them is left at most. */
  lemma AnnouncementsCollapse(local: seq<Event>, remote: seq<Event>, best: string, ids: seq<string>, now: Time)
    ensures |ById(local, remote).Values * Elements(Announcements(best, ids, now))| <= 1
    ensures IdsDiffer(Announcements(best, ids, now)) <==> |ids| <= 1
  {
    var all := Announcements(best, ids, now);
    SharedIdLeavesOne(local, remote, Elements(all), EventId(now, ANNOUNCEMENT));
    if |ids| > 1 { assert all[0].id == all[1].id; }
  }

  /** Each announcement names the best node and one client. */
  lemma AnnouncementsSay(best: string, ids: seq<string>, now: Time)
    ensures var all := Announcements(best, ids, now);
            && |all| == |ids|
            && forall i :: 0 <= i < |ids| ==>
                 && all[i].kind == "client.migration_recommended" && all[i].nodeId == best && all[i].clientId == ids[i]
                 && all[i].proxyId == "" && all[i].createdAt == now
  {}

  ghost function BestId(st: State, now: Time): string
    requires KeyedById(st)
  {
    if Active(st, now) then BestNode(st.nodes, now).id else ""
  }

  /** One announcement per client to which the pass gives a new recommendation, in some order. */
  ghost predicate Announces(st: State, now: Time, ids: seq<string>)
    requires KeyedById(st)
  {
    Distinct(ids) && Elements(ids) == Announced(st, now)
  }

  predicate ToTell(c: Client, best: ServerNode, scores: map<string, int>, gap: int) {
    Follows(c) && ShouldMigrate(c, best, scores, gap) && !Recommended(c, best, Reason(c, best, scores))
  }

  /** The events of the pass that closes a step which has led to `st`. */
  ghost predicate PassLog(st: State, now: Time, logged: seq<Event>)
    requires KeyedById(st)
  {
    RecountCounts(st);
    exists told :: Announces(Recount(st), now, told) && logged == Announcements(BestId(Recount(st), now), told, now)
  }

  /** ... of the step `op` on `st`. */
  ghost predicate StepLog(st: State, op: Op, now: Time, logged: seq<Event>)
    requires KeyedById(st)
  {
    BeforeKeyed(st, op, now);
    PassLog(Before(st, op, now), now, logged)
  }

  /** The event of a plugin event, if it has one. */
  function Observation(clients: map<string, Client>, proxies: map<string, Proxy>, id: string, client: string, ev: PluginEvent, now: Time):
    seq<Event>
  {
    var pid := ProxyId(id, client, ev.proxyName);
    match ev.op
    case Login => [NewEvent("client.login", id, client, "", now)]
    case Ping => [NewEvent("client.ping", id, client, "", now)]
    case NewProxy => [NewEvent("proxy.online", id, client, pid, now)]
    case CloseProxy => if pid in proxies then [NewEvent("proxy.closed", id, client, pid, now)] else []
    case Logout => if client in clients then [NewEvent("client.logout", id, client, "", now)] else []
    case OtherOp => [NewEvent("plugin.other", id, client, "", now)]
  }

  /** What is logged for a plugin event: one entry for every operation, but none for the closing of an unknown proxy or
      the logout of an unknown client; only entries about proxies name one. */
  lemma ObservationSays(clients: map<string, Client>, proxies: map<string, Proxy>, n: string, c: string, ev: PluginEvent, now: Time)
    ensures var log, p := Observation(clients, proxies, n, c, ev, now), ProxyId(n, c, ev.proxyName);
            && (log == [] <==> (ev.op.CloseProxy? && p !in proxies) || (ev.op.Logout? && c !in clients))
            && |log| <= 1
            && forall e :: e in log ==>
                 && e.nodeId == n && e.clientId == c && e.createdAt == now
                 && e.proxyId == (if ev.op.NewProxy? || ev.op.CloseProxy? then p else "")
                 && (e.kind == "client.login" <==> ev.op.Login?) && (e.kind == "client.ping" <==> ev.op.Ping?)
                 && (e.kind == "client.logout" <==> ev.op.Logout?)
                 && (e.kind == "proxy.online" <==> ev.op.NewProxy?) && (e.kind == "proxy.closed" <==> ev.op.CloseProxy?)
  {
    hide ProxyId;
    KindsDiffer();
  }

  lemma KindsDiffer()
    ensures Distinct(["client.login", "client.ping", "client.logout", "proxy.online", "proxy.closed", "plugin.other"])
  {}

  lemma ToldAll(st: State, now: Time, told: seq<string>)
    requires KeyedById(st) && Active(st, now)
    requires Told(told, st.clients, {}, BestNode(st.nodes, now), Scores(st.nodes, now), EffectiveGap(st.config))
    ensures Announces(st, now, told)
  {}

  /** The pass does to every client what its loop body does. */
  lemma AdvisedAll(st: State, now: Time, clients: map<string, Client>)
    requires KeyedById(st) && Active(st, now) && clients.Keys == st.clients.Keys
    requires forall id <- clients ::
               clients[id] == Advise(st.clients[id], BestNode(st.nodes, now), Scores(st.nodes, now), EffectiveGap(st.config), now)
    ensures st.(clients := clients) == Recommend(st, now)
  {
    hide Advise, Scores;
  }

  /** `told` are the clients outside `todo` that the pass has news for, each once. */
  ghost predicate Told(told: seq<string>, C: map<string, Client>, todo: set<string>, best: ServerNode, scores: map<string, int>, gap: int) {
    Distinct(told) && forall id :: id in told <==> id in C && id !in todo && ToTell(C[id], best, scores, gap)
  }

  lemma ToldNone(C: map<string, Client>, best: ServerNode, scores: map<string, int>, gap: int)
    ensures Told([], C, C.Keys, best, scores, gap)
  {}

  lemma TellOne(told: seq<string>, C: map<string, Client>, todo: set<string>, id: string, best: ServerNode,
                scores: map<string, int>, gap: int)
    requires id in todo && id in C && Told(told, C, todo, best, scores, gap)
    ensures Told(if ToTell(C[id], best, scores, gap) then told + [id] else told, C, todo - {id}, best, scores, gap)
  {
    assert id !in told;
    forall i | 0 <= i < |told| ensures told[i] != id { assert told[i] in told; }
  }

  lemma AnnounceNone(events: seq<Event>, best: string, now: Time)
    requires |events| <= MAX_EVENTS
    ensures Last(events + Announcements(best, [], now), MAX_EVENTS) == events
  {
    assert events + Announcements(best, [], now) == events;
  }

  lemma AnnounceOne(events: seq<Event>, best: string, told: seq<string>, id: string, now: Time)
    ensures Last(Last(events + Announcements(best, told, now), MAX_EVENTS) + [NewEvent(ANNOUNCEMENT, best, id, "", now)], MAX_EVENTS)
         == Last(events + Announcements(best, told + [id], now), MAX_EVENTS)
  {
    LastAppends(events, Announcements(best, told, now), [NewEvent(ANNOUNCEMENT, best, id, "", now)], MAX_EVENTS);
    assert Announcements(best, told + [id], now) == Announcements(best, told, now) + [NewEvent(ANNOUNCEMENT, best, id, "", now)];
  }

  class Store {
    var config: Config
    var peers: seq<string>
    var nodes: map<string, ServerNode>
    var clients: map<string, Client>
    var proxies: map<string, Proxy>
    var tokens: map<string, JoinToken>
    var events: seq<Event>
    var samples: seq<TrafficSample>

    function Contents(): State
      reads this
    {
      State(config, nodes, clients, proxies, tokens, samples)
    }

    ghost predicate Valid()
      reads this
    {
      KeyedById(Contents()) && |events| <= MAX_EVENTS
    }

    constructor ()
      ensures Valid() && Contents() == EMPTY && CountsOk(Contents())
      ensures peers == [] && events == []
    {
      config, nodes, clients, proxies := EMPTY.config, map[], map[], map[];
      tokens, samples, events, peers := map[], [], [], [];
    }

    /* ---------- events ---------- */

    method AddEvent(e: Event)
      modifies this`events
      ensures events == Last(old(events) + [e], MAX_EVENTS) && events[|events| - 1] == e && |events| <= 500
    {
      events := events + [e];
      if |events| > MAX_EVENTS {
        events := events[|events| - MAX_EVENTS..];
      }
    }

    /* ---------- counters ---------- */

    method RecomputeNodeCounts()
      modifies this`nodes, this`clients
      ensures Contents() == Recount(old(Contents()))
    {
      hide ClientTally, ProxyTally, OwnerTally, WithOwned, WithProxies, Recount;
      ZeroNodeCounts();
      CountClients();
      CountProxies();
      hide WithClients, Zeroed;
      FullTallies(old(Contents()));
      ZeroEnds(old(clients));
      Overwrites(old(nodes), ClientTally(old(clients), {}), ProxyTally(proxies, {}));
      OverwritesOwned(old(clients), OwnerTally(proxies, {}));
    }

    method ZeroNodeCounts()
      modifies this`nodes
      ensures nodes == map id | id in old(nodes) :: old(nodes)[id].(clientCount := 0, proxyCount := 0)
    {
      var todo := nodes.Keys;
      while todo != {}
        invariant todo <= nodes.Keys == old(nodes).Keys
        invariant forall id <- nodes ::
          nodes[id] == if id in todo then old(nodes)[id] else old(nodes)[id].(clientCount := 0, proxyCount := 0)
        decreases todo
      {
        var id :| id in todo;
        todo := todo - {id};
        nodes := nodes[id := nodes[id].(clientCount := 0, proxyCount := 0)];
      }
    }

    method CountClients()
      requires forall id <- nodes :: nodes[id].clientCount == 0
      modifies this`nodes, this`clients
      ensures nodes == WithClients(old(nodes), ClientTally(old(clients), {}))
      ensures clients == Zeroed(old(clients), {})
    {
      hide ClientTally, WithClients, Zeroed;
      ghost var N, C := nodes, clients;
      var todo := clients.Keys;
      ZeroTallies(C, proxies);
      ZerosStay(N, C, ClientTally(C, todo));
      ZeroEnds(C);
      while todo != {}
        invariant todo <= C.Keys && clients == Zeroed(C, todo)
        invariant nodes == WithClients(N, ClientTally(C, todo))
        decreases todo
      {
        var c :| c in todo;
        ZeroOne(C, todo, c);
        ClientMet(C, todo, c);
        MoreOnNode(N, ClientTally(C, todo), ClientTally(C, todo - {c}), C[c].nodeId, C[c].status.Connected?);
        todo := todo - {c};
        clients := clients[c := clients[c].(proxyCount := 0)];
        var client := clients[c];
        if client.status.Connected? {
          if client.nodeId in nodes {
            nodes := nodes[client.nodeId := nodes[client.nodeId].(clientCount := nodes[client.nodeId].clientCount + 1)];
          }
        }
      }
    }

    method CountProxies()
      requires forall id <- nodes :: nodes[id].proxyCount == 0
      requires forall id <- clients :: clients[id].proxyCount == 0
      modifies this`nodes, this`clients
      ensures nodes == WithProxies(old(nodes), ProxyTally(proxies, {})) && clients == WithOwned(old(clients), OwnerTally(proxies, {}))
    {
      hide ProxyTally, OwnerTally, WithProxies, WithOwned;
      ghost var N, C, P := nodes, clients, proxies;
      var todo := proxies.Keys;
      ZeroTallies(C, P);
      ZerosStay(N, C, ProxyTally(P, todo));
      ZerosStay(N, C, OwnerTally(P, todo));
      while todo != {}
        invariant todo <= P.Keys
        invariant nodes == WithProxies(N, ProxyTally(P, todo)) && clients == WithOwned(C, OwnerTally(P, todo))
        decreases todo
      {
        var p :| p in todo;
        ProxyMet(P, todo, p);
        MoreOnNode(N, ProxyTally(P, todo), ProxyTally(P, todo - {p}), P[p].nodeId, P[p].status.Open?);
        MoreOfClient(C, OwnerTally(P, todo), OwnerTally(P, todo - {p}), P[p].clientId, P[p].status.Open?);
        todo := todo - {p};
        var proxy := proxies[p];
        if !proxy.status.Open? {
          continue;
        }
        if proxy.clientId in clients {
          clients := clients[proxy.clientId := clients[proxy.clientId].(proxyCount := clients[proxy.clientId].proxyCount + 1)];
        }
        if proxy.nodeId in nodes {
          nodes := nodes[proxy.nodeId := nodes[proxy.nodeId].(proxyCount := nodes[proxy.nodeId].proxyCount + 1)];
        }
      }
    }

    /* ---------- online nodes and selection ---------- */

    method OnlineNodes(now: Time) returns (online: array<ServerNode>)
      requires Valid()
      ensures fresh(online)
      ensures Elements(online[..]) == OnlineSet(nodes, now) && Distinct(online[..])
    {
      var list: seq<ServerNode> := [];
      var todo := nodes.Keys;
      while todo != {}
        invariant todo <= nodes.Keys
        invariant forall n ::
          n in list <==> n.id in nodes && n.id !in todo && IsOnline(nodes[n.id], now) && n == Refreshed(nodes[n.id], now)
        invariant Distinct(list)
        decreases todo
      {
        var id :| id in todo;
        todo := todo - {id};
        var node := nodes[id];
        if node.status.Online? && now - node.lastSeenAt <= ONLINE_WINDOW {
          list := list + [node.(network := Network.Refresh(node.network, now))];
        }
      }
      forall n ensures n in Elements(list) <==> n in OnlineSet(nodes, now) {
        if n in OnlineSet(nodes, now) {
          var id :| id in nodes && IsOnline(nodes[id], now) && Refreshed(nodes[id], now) == n;
        }
      }
      online := new ServerNode[|list|](i requires 0 <= i < |list| => list[i]);
      assert online[..] == list;
    }

    /** selectNodesLocked with a client, a mode, a limit and nodes to leave out. */
    method SelectNodes(client: string, mode: Mode, limit: int, exclude: seq<string>, now: Time) returns (r: Result<seq<ServerNode>, Error>)
      requires Valid()
      ensures DistinctIds(OnlineSet(nodes, now)) && DistinctIds(Eligible(OnlineSet(nodes, now), exclude))
      ensures r == Selection(Eligible(OnlineSet(nodes, now), exclude), Lookup(clients, SanitizeId(client)), mode, limit)
    {
      OnlineIdsDistinct(nodes, now);
      var online := OnlineNodes(now);
      var n := FilterExcludedNodes(online, exclude);
      r := SelectNodesForClient(online, n, Lookup(clients, SanitizeId(client)), mode, limit);
    }

    /* ---------- migration ---------- */

    method ApplyMigrationRecommendations(now: Time) returns (ghost told: seq<string>)
      requires Valid()
      modifies this`clients, this`events
      ensures Valid() && Contents() == Recommend(old(Contents()), now)
      ensures Announces(old(Contents()), now, told)
      ensures events == Last(old(events) + Announcements(BestId(old(Contents()), now), told, now), MAX_EVENTS)
    {
      told := [];
      if !config.autoMigration {
        return;
      }
      var online := OnlineNodes(now);
      if online.Length == 0 {
        assert OnlineSet(nodes, now) == Elements(online[..]) == {};
        return;
      }
      assert online[0] in Elements(online[..]);
      OnlineIdsDistinct(nodes, now);
      assert online[..online.Length] == online[..];
      SortSlice(online, online.Length, Prefer);
      assert online[..online.Length] == online[..];
      Sorting.ListingIs(Prefer, OnlineSet(nodes, now), Ranking(OnlineSet(nodes, now)));
      var best := online[0];
      assert best == BestNode(nodes, now);
      var onlineById := IndexById(online, now);
      var gap := config.scoreGap;
      if gap <= 0 {
        gap := 15;
      }
      told := AdviseAll(best, onlineById, gap, now);
      Migration.PassIdempotent(old(Contents()), now);
    }

    method IndexById(online: array<ServerNode>, now: Time) returns (m: map<string, ServerNode>)
      requires Valid() && Elements(online[..]) == OnlineSet(nodes, now)
      ensures m.Keys == Scores(nodes, now).Keys && forall id <- m :: m[id].network.score == Scores(nodes, now)[id]
    {
      m := map[];
      for i := 0 to online.Length
        invariant forall id <- m :: id in Scores(nodes, now) && m[id].network.score == Scores(nodes, now)[id]
        invariant forall j :: 0 <= j < i ==> online[j].id in m
      {
        assert online[i] in Elements(online[..]);
        m := m[online[i].id := online[i]];
      }
      forall id | id in Scores(nodes, now) ensures id in m {
        assert Refreshed(nodes[id], now) in Elements(online[..]);
        var j :| 0 <= j < online.Length && online[..][j] == Refreshed(nodes[id], now);
      }
    }

    /** The loop of the pass over the clients, in any order. */
    method AdviseAll(best: ServerNode, online: map<string, ServerNode>, gap: int, now: Time) returns (ghost told: seq<string>)
      requires Valid() && Active(Contents(), now) && best == BestNode(nodes, now) && gap == EffectiveGap(config)
      requires online.Keys == Scores(nodes, now).Keys && forall id <- online :: online[id].network.score == Scores(nodes, now)[id]
      modifies this`clients, this`events
      ensures Contents() == Recommend(old(Contents()), now) && |events| <= MAX_EVENTS
      ensures Announces(old(Contents()), now, told)
      ensures events == Last(old(events) + Announcements(best.id, told, now), MAX_EVENTS)
    {
      hide Told, Advise, ToTell, Scores, Announcements, NewEvent, Announced, Recommend, BestNode, Announces, EffectiveGap;
      told := [];
      AnnounceNone(events, best.id, now);
      ToldNone(clients, best, Scores(nodes, now), gap);
      ghost var st := Contents();
      ghost var scores, C := Scores(nodes, now), clients;
      var todo := clients.Keys;
      while todo != {}
        invariant todo <= clients.Keys == C.Keys
        invariant forall id <- clients :: clients[id] == if id in todo then C[id] else Advise(C[id], best, scores, gap, now)
        invariant Told(told, C, todo, best, scores, gap)
        invariant |events| <= MAX_EVENTS && events == Last(old(events) + Announcements(best.id, told, now), MAX_EVENTS)
        decreases todo
      {
        var id :| id in todo;
        TellOne(told, C, todo, id, best, scores, gap);
        todo := todo - {id};
        var announce := AdviseOne(id, best, online, gap, now);
        if announce {
          AnnounceOne(old(events), best.id, told, id, now);
          AddEvent(NewEvent(ANNOUNCEMENT, best.id, id, "", now));
          told := told + [id];
        }
      }
      ToldAll(st, now, told);
      AdvisedAll(st, now, clients);
    }

    /** The loop body: recommend, clear, or leave alone. */
    method AdviseOne(id: string, best: ServerNode, online: map<string, ServerNode>, gap: int, now: Time) returns (announce: bool)
      requires id in clients
      requires online.Keys == Scores(nodes, now).Keys && forall n <- online :: online[n].network.score == Scores(nodes, now)[n]
      modifies this`clients
      ensures var scores := Scores(nodes, now);
              && clients == old(clients)[id := Advise(old(clients)[id], best, scores, gap, now)]
              && (announce <==> ToTell(old(clients)[id], best, scores, gap))
    {
      announce := false;
      var client := clients[id];
      if !client.status.Connected? || client.nodeId == "" {
        return;
      }
      var currentOnline := client.nodeId in online;
      if !currentOnline || (best.id != client.nodeId && best.network.score - online[client.nodeId].network.score >= gap) {
        var reason := if currentOnline
          then "prefer node " + best.id + " score=" + Itoa(best.network.score) + " over " + client.nodeId + " score="
               + Itoa(online[client.nodeId].network.score)
          else "prefer node " + best.id + " because current node " + client.nodeId + " is offline";
        if client.preferredNodeId != best.id || !client.migrationState.Pending? || client.migrationReason != reason {
          clients := clients[id := client.(preferredNodeId := best.id, migrationState := Pending, migrationReason := reason,
                                           migrationUpdatedAt := now, updatedAt := now)];
          announce := true;
        }
        return;
      }
      if client.preferredNodeId != "" || !client.migrationState.Idle? || client.migrationReason != "" {
        clients := clients[id := client.(preferredNodeId := "", migrationState := Idle, migrationReason := "",
                                         migrationUpdatedAt := 0, updatedAt := now)];
      }
    }

    /** The close of heartbeats, leaves and plugin events; `logged` are the pass's announcements. */
    method SettleAll(now: Time) returns (ghost logged: seq<Event>)
      requires Valid()
      modifies this`nodes, this`clients, this`events
      ensures Valid() && Contents() == Settle(old(Contents()), now)
      ensures PassLog(old(Contents()), now, logged)
      ensures events == Last(old(events) + logged, MAX_EVENTS)
    {
      RecountCounts(Contents());
      RecomputeNodeCounts();
      ghost var told := ApplyMigrationRecommendations(now);
      logged := Announcements(BestId(Recount(old(Contents())), now), told, now);
    }

    /** ... and one last event. */
    method SettleAndLog(now: Time, e: Event) returns (ghost logged: seq<Event>)
      requires Valid()
      modifies this`nodes, this`clients, this`events
      ensures nodes.Keys == old(nodes).Keys
      ensures Valid() && Contents() == Settle(old(Contents()), now)
      ensures PassLog(old(Contents()), now, logged)
      ensures events == Last(old(events) + logged + [e], MAX_EVENTS)
    {
      logged := SettleAll(now);
      LastAppends(old(events), logged, [e], MAX_EVENTS);
      assert old(events) + (logged + [e]) == old(events) + logged + [e];
      AddEvent(e);
    }

    /* ---------- traffic ---------- */

    method LastTrafficSample(nodeId: string) returns (s: TrafficSample)
      ensures s == TrafficLog.LastFor(samples, nodeId)
    {
      var i := |samples|;
      assert samples[..i] == samples;
      while i > 0
        invariant 0 <= i <= |samples|
        invariant TrafficLog.LastFor(samples, nodeId) == TrafficLog.LastFor(samples[..i], nodeId)
      {
        i := i - 1;
        if samples[i].nodeId == nodeId {
          return samples[i];
        }
        assert samples[..i + 1][..i] == samples[..i];
      }
      s := TrafficLog.NO_SAMPLE;
    }

    /** The samples lie in a backing array, which is compacted in place and then sliced. */
    method PruneTrafficSamples(now: Time)
      modifies this`samples
      ensures samples == TrafficLog.Prune(old(samples), now) && |samples| <= 100000
    {
      if |samples| == 0 {
        return;
      }
      var all := samples;
      var backing := new TrafficSample[|all|](i requires 0 <= i < |all| => all[i]);
      assert backing[..] == samples;
      var n := CompactSamples(backing, now - TrafficLog.RETENTION);
      var first := 0;
      if n > TrafficLog.MAX_SAMPLES {
        first := n - TrafficLog.MAX_SAMPLES;
      }
      samples := backing[..n][first..];
    }

    method RecordTraffic(nodeId: string, traffic: TrafficCounters, now: Time) returns (ok: bool)
      modifies this`nodes, this`samples
      ensures ok <==> nodeId in old(nodes) && TrafficLog.NormalizeCounters(traffic, now).Some?
      ensures if ok then var t := TrafficLog.NormalizeCounters(traffic, now).value;
                         && nodes == old(nodes)[nodeId := old(nodes)[nodeId].(traffic := t)]
                         && samples == TrafficLog.Record(old(samples), nodeId, t, now)
              else nodes == old(nodes) && samples == old(samples)
    {
      var normal := TrafficLog.NormalizeCounters(traffic, now);
      if normal.None? || nodeId !in nodes {
        return false;
      }
      var t := normal.value;
      nodes := nodes[nodeId := nodes[nodeId].(traffic := t)];
      var previous := LastTrafficSample(nodeId);
      if previous.at != 0 && now - previous.at < MINUTE {
        return true;
      }
      var sample := TrafficSample(nodeId, t.measuredAt, t.totalIn, t.totalOut, 0, 0, t.connections);
      if previous.at != 0 {
        sample := sample.(deltaIn := TrafficLog.PositiveDelta(previous.totalIn, t.totalIn),
                          deltaOut := TrafficLog.PositiveDelta(previous.totalOut, t.totalOut));
      }
      samples := samples + [sample];
      PruneTrafficSamples(now);
      ok := true;
    }

    /* ---------- joining ---------- */

    method CreateJoinToken(value: string, ttl: int, uses: int, now: Time) returns (token: JoinToken)
      requires Valid()
      modifies this`tokens, this`events
      ensures Valid() && Contents() == Apply(old(Contents()), OpToken(value, ttl, uses), now)
      ensures token == tokens[value] && events == Last(old(events) + [NewEvent("token.created", "", "", "", now)], MAX_EVENTS)
    {
      var lifetime, count := ttl, uses;
      if lifetime <= 0 {
        lifetime := 120 * MINUTE;
      }
      if count <= 0 {
        count := 1;
      }
      token := JoinToken(value, count, now + lifetime, now, []);
      tokens := tokens[value := token];
      AddEvent(NewEvent("token.created", "", "", "", now));
    }

    method ConsumeJoinToken(value: string, nodeId: string, now: Time) returns (error: Option<Error>)
      modifies this`tokens
      ensures (tokens, error) == Tokens.Consume(old(tokens), value, nodeId, now)
    {
      if value !in tokens {
        return Some(InvalidToken);
      }
      var token := tokens[value];
      if now >= token.expiresAt {
        tokens := tokens - {value};
        return Some(TokenExpired);
      }
      if token.usesLeft <= 0 {
        return Some(TokenUsed);
      }
      tokens := tokens[value := token.(usesLeft := token.usesLeft - 1, usedBy := token.usedBy + [nodeId])];
      error := None;
    }

    method JoinNode(req: JoinRequest, nodeToken: string, now: Time) returns (r: Result<ServerNode, Error>)
      requires Valid()
      modifies this`tokens, this`nodes, this`events, this`peers
      ensures Valid() && Contents() == Apply(old(Contents()), OpJoin(req, nodeToken), now)
      ensures match JoinError(old(Contents()), req, now)
              case Some(e) => r == Err(e) && events == old(events) && peers == old(peers)
              case None =>
                && JoiningId(req) in nodes && r == Ok(nodes[JoiningId(req)])
                && events == Last(old(events) + [NewEvent("node.joined", JoiningId(req), "", "", now)], MAX_EVENTS)
                && peers == (if NormalizeUrl(req.controlUrl) == "" then old(peers)
                             else WithoutUrl(Peers.WithUrls(old(peers), [NormalizeUrl(req.controlUrl)]), config.publicUrl))
    {
      hide SanitizeId, TrimSpace, NormalizeUrl, Tokens.Consume, WithoutUrl, Peers.WithUrls;
      var id, addr, url := SanitizeId(req.nodeId), TrimSpace(req.publicAddr), NormalizeUrl(req.controlUrl);
      if id == "" || addr == "" {
        return Err(InvalidJoinRequest);
      }
      var error := ConsumeJoinToken(req.token, id, now);
      if error.Some? {
        return Err(error.value);
      }
      PutNode(req, nodeToken, now);
      LearnPeer(url);
      AddEvent(NewEvent("node.joined", id, "", "", now));
      r := Ok(nodes[id]);
    }

    method PutNode(req: JoinRequest, nodeToken: string, now: Time)
      modifies this`nodes
      ensures nodes == old(nodes)[JoiningId(req) := JoinedNode(old(nodes), req, nodeToken, now)]
    {
      var id, name, port := SanitizeId(req.nodeId), TrimSpace(req.name), req.bindPort;
      if port == 0 {
        port := 7000;
      }
      if name == "" {
        name := id;
      }
      var node := ServerNode(id, name, TrimSpace(req.publicAddr), NormalizeUrl(req.controlUrl), port, Online, nodeToken,
                             0, 0, NO_NETWORK, NO_TRAFFIC, now, now, now);
      if id in nodes {
        node := node.(clientCount := nodes[id].clientCount, proxyCount := nodes[id].proxyCount);
        if nodes[id].joinedAt != 0 {
          node := node.(joinedAt := nodes[id].joinedAt);
        }
      }
      nodes := nodes[id := node];
    }

    method LearnPeer(url: string)
      modifies this`peers
      ensures peers == if url == "" then old(peers) else WithoutUrl(Peers.WithUrls(old(peers), [url]), config.publicUrl)
    {
      if url != "" {
        peers := MergeLists(peers, [url], NormalizeUrl);
        peers := RemoveUrl(peers, config.publicUrl);
      }
    }

    /* ---------- heartbeat and leave ---------- */

    method ValidateNodeToken(node: ServerNode, token: string) returns (error: Option<Error>)
      ensures error == TokenError(node, token)
    {
      if token == "" {
        return Some(NodeTokenRequired);
      }
      if node.nodeToken != token {
        return Some(NodeTokenMismatch);
      }
      error := None;
    }

    method HeartbeatNode(rawId: string, req: Network.HeartbeatRequest, now: Time)
      returns (r: Result<ServerNode, Error>, ghost logged: seq<Event>)
      requires Valid()
      modifies this
      ensures Valid() && Contents() == Apply(old(Contents()), OpHeartbeat(rawId, req), now) && peers == old(peers)
      ensures match HeartbeatError(old(Contents()), rawId, req)
              case Some(e) => r == Err(e) && events == old(events)
              case None =>
                && SanitizeId(rawId) in nodes && r == Ok(nodes[SanitizeId(rawId)])
                && StepLog(old(Contents()), OpHeartbeat(rawId, req), now, logged)
                && events == Last(old(events) + logged + [NewEvent("node.heartbeat", SanitizeId(rawId), "", "", now)], MAX_EVENTS)
    {
      hide SanitizeId, Beat, Settle, PassLog;
      logged := [];
      var id := SanitizeId(rawId);
      if id !in nodes {
        return Err(NodeNotFound), [];
      }
      var error := ValidateNodeToken(nodes[id], req.nodeToken);
      if error.Some? {
        return Err(error.value), [];
      }
      ApplySettles(Contents(), OpHeartbeat(rawId, req), now);
      BeatNode(id, req, now);
      logged := SettleAndLog(now, NewEvent("node.heartbeat", id, "", "", now));
      r := Ok(nodes[id]);
    }

    method BeatNode(id: string, req: Network.HeartbeatRequest, now: Time)
      requires Valid() && id in nodes
      modifies this`nodes, this`samples
      ensures id in nodes && Contents() == Beat(old(Contents()), id, req, now)
    {
      assert nodes[id].id == id;
      hide TrafficLog.Record, TrafficLog.NormalizeCounters, Network.HeartbeatNetwork, NodesKeyed, ClientsKeyed, ProxiesKeyed;
      nodes := nodes[id := nodes[id].(status := Online, lastSeenAt := now, updatedAt := now)];
      var network := Network.HeartbeatNetwork(req, now);
      if network.Some? {
        nodes := nodes[id := nodes[id].(network := network.value)];
      }
      var _ := RecordTraffic(id, req.traffic, now);
    }

    method LeaveNode(rawId: string, token: string, requireToken: bool, now: Time)
      returns (r: Result<ServerNode, Error>, ghost logged: seq<Event>)
      requires Valid()
      modifies this
      ensures Valid() && Contents() == Apply(old(Contents()), OpLeave(rawId, token, requireToken), now) && peers == old(peers)
      ensures match LeaveError(old(Contents()), rawId, token, requireToken)
              case Some(e) => r == Err(e) && events == old(events)
              case None =>
                && SanitizeId(rawId) in nodes && r == Ok(nodes[SanitizeId(rawId)])
                && StepLog(old(Contents()), OpLeave(rawId, token, requireToken), now, logged)
                && events == Last(old(events) + logged + [NewEvent("node.left", SanitizeId(rawId), "", "", now)], MAX_EVENTS)
    {
      hide SanitizeId, Departed, Settle, PassLog;
      logged := [];
      var id := SanitizeId(rawId);
      if id !in nodes {
        return Err(NodeNotFound), [];
      }
      if requireToken || token != "" {
        var error := ValidateNodeToken(nodes[id], token);
        if error.Some? {
          return Err(error.value), [];
        }
      }
      ApplySettles(Contents(), OpLeave(rawId, token, requireToken), now);
      DepartNode(id, now);
      logged := SettleAndLog(now, NewEvent("node.left", id, "", "", now));
      r := Ok(nodes[id]);
    }

    method DepartNode(id: string, now: Time)
      requires id in nodes
      modifies this`nodes, this`clients, this`proxies
      ensures id in nodes && Contents() == Departed(old(Contents()), id, now)
    {
      nodes := nodes[id := nodes[id].(status := Offline, lastSeenAt := now, updatedAt := now)];
      CloseClients(id, now);
      CloseProxies(id, now);
    }

    method CloseClients(nodeId: string, now: Time)
      modifies this`clients
      ensures clients == map c | c in old(clients) ::
        if old(clients)[c].nodeId == nodeId then old(clients)[c].(status := Disconnected, updatedAt := now) else old(clients)[c]
    {
      var todo := clients.Keys;
      while todo != {}
        invariant todo <= clients.Keys == old(clients).Keys
        invariant forall c <- clients ::
          clients[c] == if c !in todo && old(clients)[c].nodeId == nodeId
                        then old(clients)[c].(status := Disconnected, updatedAt := now) else old(clients)[c]
        decreases todo
      {
        var c :| c in todo;
        todo := todo - {c};
        if clients[c].nodeId == nodeId {
          clients := clients[c := clients[c].(status := Disconnected, updatedAt := now)];
        }
      }
    }

    method CloseProxies(nodeId: string, now: Time)
      modifies this`proxies
      ensures proxies == map p | p in old(proxies) ::
        if old(proxies)[p].nodeId == nodeId then old(proxies)[p].(status := Closed, updatedAt := now) else old(proxies)[p]
    {
      var todo := proxies.Keys;
      while todo != {}
        invariant todo <= proxies.Keys == old(proxies).Keys
        invariant forall p <- proxies ::
          proxies[p] == if p !in todo && old(proxies)[p].nodeId == nodeId
                        then old(proxies)[p].(status := Closed, updatedAt := now) else old(proxies)[p]
        decreases todo
      {
        var p :| p in todo;
        todo := todo - {p};
        if proxies[p].nodeId == nodeId {
          proxies := proxies[p := proxies[p].(status := Closed, updatedAt := now)];
        }
      }
    }

    /* ---------- plugin events ---------- */

    method UpsertClient(id: string, ev: PluginEvent, nodeId: string, now: Time)
      modifies this`clients
      ensures clients == old(clients)[id := Seen(old(clients), id, ev, nodeId, now)]
    {
      if id !in clients {
        clients := clients[id := Client(id, "", Disconnected, "", "", Idle, "", 0, "", 0, now, 0, 0)];
      }
      clients := clients[id := clients[id].(user := TrimSpace(ev.user), nodeId := nodeId, remoteAddr := TrimSpace(ev.remoteAddr),
                                            lastSeenAt := now, updatedAt := now)];
      clients := clients[id := clients[id].(status := Connected)];
    }

    method ApplyPluginEvent(rawId: string, ev: PluginEvent, now: Time) returns (ghost logged: seq<Event>)
      requires Valid()
      modifies this
      ensures Valid() && Contents() == Apply(old(Contents()), OpPlugin(rawId, ev), now) && peers == old(peers)
      ensures StepLog(old(Contents()), OpPlugin(rawId, ev), now, logged)
      ensures events == Last(old(events)
                             + (Observation(old(clients), old(proxies), EventNode(rawId, ev), EventClient(ev), ev, now) + logged),
                             MAX_EVENTS)
    {
      hide SanitizeId, FirstNonEmpty, Observed, Observation, PassLog, Settle, Announcements, Announces, Apply, Recount, BestId;
      var id := SanitizeId(FirstNonEmpty([rawId, ev.nodeId]));
      if id == "" {
        id := "unknown";
      }
      var client := SanitizeId(FirstNonEmpty([ev.clientId, ev.user, ev.remoteAddr]));
      if client == "" {
        client := "anonymous";
      }
      ApplySettles(Contents(), OpPlugin(rawId, ev), now);
      ObserveAll(id, client, ev, now);
      logged := SettleAll(now);
      LastAppends(old(events), Observation(old(clients), old(proxies), id, client, ev, now), logged, MAX_EVENTS);
    }

    method ObserveAll(id: string, client: string, ev: PluginEvent, now: Time)
      requires |events| <= MAX_EVENTS
      modifies this`nodes, this`clients, this`proxies, this`events
      ensures Contents() == Observed(old(Contents()), id, client, ev, now)
      ensures events == Last(old(events) + Observation(old(clients), old(proxies), id, client, ev, now), MAX_EVENTS)
    {
      TouchNode(id, now);
      ObserveEvent(id, client, ev, now);
    }

    method TouchNode(id: string, now: Time)
      modifies this`nodes
      ensures nodes == Touched(old(nodes), id, now)
    {
      if id in nodes {
        nodes := nodes[id := nodes[id].(lastSeenAt := now, status := Online, updatedAt := now)];
      }
    }

    method ObserveEvent(id: string, client: string, ev: PluginEvent, now: Time)
      requires |events| <= MAX_EVENTS
      modifies this`clients, this`proxies, this`events
      ensures clients == ObservedClients(old(clients), client, ev, id, now)
      ensures proxies == ObservedProxies(old(proxies), ProxyId(id, client, ev.proxyName), ev, client, id, now)
      ensures events == Last(old(events) + Observation(old(clients), old(proxies), id, client, ev, now), MAX_EVENTS)
    {
      hide SanitizeId, FirstNonEmpty, TrimSpace;
      var pid := ProxyId(id, client, ev.proxyName);
      var kind, proxy := "plugin.other", "";
      match ev.op {
        case Login =>
          UpsertClient(client, ev, id, now);
          kind := "client.login";
        case Ping =>
          UpsertClient(client, ev, id, now);
          kind := "client.ping";
        case NewProxy =>
          UpsertClient(client, ev, id, now);
          var created := if pid in proxies then proxies[pid].createdAt else now;
          proxies := proxies[pid := Proxy(pid, FirstNonEmpty([ev.proxyName, pid]), FirstNonEmpty([ev.proxyType, "tcp"]), client,
                                          ev.user, id, Open, ev.remotePort, created, now)];
          kind, proxy := "proxy.online", pid;
        case CloseProxy =>
          if pid !in proxies {
            return;
          }
          proxies := proxies[pid := proxies[pid].(status := Closed, updatedAt := now)];
          kind, proxy := "proxy.closed", pid;
        case Logout =>
          if client !in clients {
            return;
          }
          clients := clients[client := clients[client].(status := Disconnected, updatedAt := now)];
          kind := "client.logout";
        case OtherOp =>
      }
      AddEvent(NewEvent(kind, id, client, proxy, now));
    }

    /* ---------- targets and configuration ---------- */

    method SetClientTarget(rawClient: string, rawNode: string, now: Time) returns (r: Result<Client, Error>)
      requires Valid()
      modifies this`clients, this`events
      ensures Valid() && Contents() == Apply(old(Contents()), OpSetTarget(rawClient, rawNode), now)
      ensures match SetTargetError(old(Contents()), rawClient, rawNode, now)
              case Some(e) => r == Err(e) && events == old(events)
              case None =>
                && SanitizeId(rawClient) in clients && r == Ok(clients[SanitizeId(rawClient)])
                && events == Last(old(events) + [if SanitizeId(rawNode) != ""
                     then NewEvent("client.manual_switch", SanitizeId(rawNode), SanitizeId(rawClient), "", now)
                     else NewEvent("client.manual_switch_cleared", clients[SanitizeId(rawClient)].nodeId, SanitizeId(rawClient), "", now)],
                     MAX_EVENTS)
    {
      hide SanitizeId;
      var id, n := SanitizeId(rawClient), SanitizeId(rawNode);
      if id !in clients {
        return Err(ClientNotFound);
      }
      var client := clients[id];
      if n != "" {
        if n !in nodes {
          return Err(NodeNotFound);
        }
        if !nodes[n].status.Online? || now - nodes[n].lastSeenAt > ONLINE_WINDOW {
          return Err(NoAvailableNode);
        }
        client := client.(preferredNodeId := n, migrationState := Manual, migrationReason := "manual switch from control plane");
        AddEvent(NewEvent("client.manual_switch", n, client.id, "", now));
      } else {
        client := client.(preferredNodeId := "", migrationState := Idle, migrationReason := "");
        AddEvent(NewEvent("client.manual_switch_cleared", client.nodeId, client.id, "", now));
      }
      client := client.(migrationUpdatedAt := now, updatedAt := now);
      clients := clients[id := client];
      r := Ok(client);
    }

    method AutoSwitchClientTarget(rawClient: string, rawNode: string, reason: string, now: Time) returns (r: Result<Client, Error>)
      requires Valid()
      modifies this`clients, this`events
      ensures Valid() && Contents() == Apply(old(Contents()), OpAutoSwitch(rawClient, rawNode, reason), now)
      ensures match SwitchError(old(Contents()), SanitizeId(rawClient), SanitizeId(rawNode), now)
              case Some(e) => r == Err(e) && events == old(events)
              case None =>
                && SanitizeId(rawClient) in clients && r == Ok(clients[SanitizeId(rawClient)])
                && events == Last(old(events) + [NewEvent("client.auto_switch", SanitizeId(rawNode), SanitizeId(rawClient), "", now)],
                                  MAX_EVENTS)
    {
      hide SanitizeId, FirstNonEmpty, TrimSpace;
      var id, n := SanitizeId(rawClient), SanitizeId(rawNode);
      if id !in clients {
        return Err(ClientNotFound);
      }
      if n !in nodes {
        return Err(NodeNotFound);
      }
      if !nodes[n].status.Online? || now - nodes[n].lastSeenAt > ONLINE_WINDOW {
        return Err(NoAvailableNode);
      }
      var client := clients[id].(preferredNodeId := n, migrationState := Manual,
                                 migrationReason := FirstNonEmpty([TrimSpace(reason), "automatic switch from control plane"]),
                                 migrationUpdatedAt := now, updatedAt := now);
      clients := clients[id := client];
      AddEvent(NewEvent("client.auto_switch", n, id, "", now));
      r := Ok(client);
    }

    /** The pending clients with their targets, by client. */
    method AutoSwitchCandidates() returns (list: seq<Candidate>)
      requires Valid()
      ensures !config.autoMigration ==> list == []
      ensures config.autoMigration ==> StrictTotal(ByClient, Candidates(clients)) && Lists(ByClient, Candidates(clients), list)
      ensures forall i, j :: 0 <= i < j < |list| ==> StrLess(list[i].clientId, list[j].clientId)
    {
      if !config.autoMigration {
        return [];
      }
      var found: seq<Candidate> := [];
      var todo := clients.Keys;
      while todo != {}
        invariant todo <= clients.Keys
        invariant forall c :: c in found <==> c.clientId !in todo && c in Candidates(clients)
        invariant Distinct(found)
        decreases todo
      {
        var id :| id in todo;
        todo := todo - {id};
        var client := clients[id];
        if client.migrationState.Pending? && client.preferredNodeId != "" {
          found := found + [Candidate(client.id, client.preferredNodeId, client.migrationReason)];
        }
      }
      assert Elements(found) == Candidates(clients);
      CandidateOrder(clients);
      var a := new Candidate[|found|](i requires 0 <= i < |found| => found[i]);
      assert a[..] == found && a[..|found|] == found;
      SortSlice(a, |found|, ByClient);
      list := a[..|found|];
      forall i, j | 0 <= i < j < |list| ensures StrLess(list[i].clientId, list[j].clientId) {
        assert ByClient(list[i], list[j]) && list[i] in Elements(list) && list[j] in Elements(list);
        StrLessIrreflexive(list[i].nodeId);
      }
    }

    method UpdateClusterConfig(auto: Option<bool>, gap: Option<int>, now: Time) returns (r: Result<Config, Error>)
      requires Valid()
      modifies this`config
      ensures Valid() && Contents() == Apply(old(Contents()), OpConfig(auto, gap), now)
      ensures r == if gap.Some? && gap.value < 0 then Err(NegativeGap) else Ok(config)
      ensures r.Ok? ==> (auto.Some? ==> config.autoMigration == auto.value) && (gap.Some? ==> config.scoreGap == gap.value)
      ensures r.Err? ==> (config == old(config) <==> auto.None? || auto.value == old(config).autoMigration)
    {
      if auto.Some? {
        config := config.(autoMigration := auto.value);
      }
      if gap.Some? {
        if gap.value < 0 {
          return Err(NegativeGap);
        }
        config := config.(scoreGap := gap.value);
      }
      r := Ok(config);
    }

    /* ---------- peers ---------- */

    /** MergeState.  The remote state may be malformed: the ghost results are the orders in which its
        maps were visited.  For a state as replicas hold it, the order does not matter. */
    method MergeState(remote: State, remotePeers: seq<string>, remoteEvents: seq<Event>, source: string, now: Time)
      returns (ghost nodeOrder: seq<string>, ghost clientOrder: seq<string>, ghost proxyOrder: seq<string>, ghost peerOrder: seq<string>)
      requires Valid()
      modifies this
      ensures Valid() && CountsOk(Contents())
      ensures Lww.Visits(nodeOrder, remote.nodes) && Lww.Visits(peerOrder, remote.nodes)
      ensures Lww.Visits(clientOrder, remote.clients) && Lww.Visits(proxyOrder, remote.proxies)
      ensures Contents() == Recount(MergedInOrder(old(Contents()), remote, nodeOrder, clientOrder, proxyOrder, now))
      ensures KeyedById(remote) ==> Contents() == Replicas.MergeState(old(Contents()), remote, now)
      ensures config.autoMigration == old(config).autoMigration && config.scoreGap == old(config).scoreGap
      ensures config.publicUrl == old(config).publicUrl
      ensures config.authToken == if old(config).authToken != "" then old(config).authToken else remote.config.authToken
      ensures MergedEvents(old(events), remoteEvents, events)
      ensures peers == Peers.FromUrls(
                Peers.FromLists(old(peers), old(config).publicUrl, remotePeers, NormalizeUrl(remote.config.publicUrl),
                                NormalizeUrl(source)),
                Peers.NodeUrls(remote.nodes, peerOrder))
    {
      hide MergedInOrder, Recount, CountsOk, MergedEvents, Peers.FromLists, Peers.FromUrls, Peers.NodeUrls;
      hide NormalizeUrl, Replicas.MergeState;
      ghost var st := Contents();
      MergePeerLists(remotePeers, NormalizeUrl(remote.config.publicUrl), NormalizeUrl(source));
      peerOrder := AddNodePeers(remote.nodes);
      nodeOrder, clientOrder, proxyOrder := MergeEntries(remote, now);
      events := MergeEvents(events, remoteEvents);
      MergedStaysKeyed(st, remote, nodeOrder, clientOrder, proxyOrder, now);
      RecountCounts(Contents());
      RecomputeNodeCounts();
      if KeyedById(remote) {
        MergedIsMerge(st, remote, nodeOrder, clientOrder, proxyOrder, now);
      }
    }

    method MergeEntries(remote: State, now: Time)
      returns (ghost nodeOrder: seq<string>, ghost clientOrder: seq<string>, ghost proxyOrder: seq<string>)
      modifies this`config, this`nodes, this`tokens, this`clients, this`proxies, this`samples
      ensures Lww.Visits(nodeOrder, remote.nodes) && Lww.Visits(clientOrder, remote.clients) && Lww.Visits(proxyOrder, remote.proxies)
      ensures Contents() == MergedInOrder(old(Contents()), remote, nodeOrder, clientOrder, proxyOrder, now)
      ensures config.autoMigration == old(config).autoMigration && config.scoreGap == old(config).scoreGap
      ensures config.publicUrl == old(config).publicUrl
      ensures config.authToken == if old(config).authToken != "" then old(config).authToken else remote.config.authToken
    {
      if config.authToken == "" && remote.config.authToken != "" {
        config := config.(authToken := remote.config.authToken);
      }
      nodes, nodeOrder := Lww.MergeMaps(nodes, remote.nodes, Replicas.NODES);
      MergeRemoteTokens(remote.tokens, now);
      clients, clientOrder := Lww.MergeMaps(clients, remote.clients, Replicas.CLIENTS);
      proxies, proxyOrder := Lww.MergeMaps(proxies, remote.proxies, Replicas.PROXIES);
      samples := SampleMerge.MergeTrafficSamples(samples, remote.samples, now);
    }

    method MergePeerLists(remotePeers: seq<string>, remotePublic: string, source: string)
      modifies this`peers
      ensures peers == Peers.FromLists(old(peers), config.publicUrl, remotePeers, remotePublic, source)
    {
      var theirs := MergeLists([], remotePeers, NormalizeUrl);
      if remotePublic != "" {
        theirs := RemoveUrl(theirs, remotePublic);
      }
      peers := MergeLists(peers, theirs, NormalizeUrl);
      peers := MergeLists(peers, [source, remotePublic], NormalizeUrl);
      if config.publicUrl != "" {
        peers := RemoveUrl(peers, config.publicUrl);
      }
    }

    /** The peer part of the node loop. */
    method AddNodePeers(remote: map<string, ServerNode>) returns (ghost order: seq<string>)
      modifies this`peers
      ensures Lww.Visits(order, remote) && peers == Peers.FromUrls(old(peers), Peers.NodeUrls(remote, order))
    {
      hide Lww.Visits, Peers.NodeUrl, Peers.FromUrls, Peers.NodeUrls;
      order := [];
      Peers.NoUrls(old(peers), remote);
      Lww.VisitsNone(remote);
      var todo := remote.Keys;
      while todo != {}
        invariant todo <= remote.Keys && Lww.Visits(order, remote - todo) && forall k :: k in order ==> k in remote
        invariant peers == Peers.FromUrls(old(peers), Peers.NodeUrls(remote, order))
        decreases todo
      {
        var k :| k in todo;
        Lww.VisitsMore(order, remote, todo, k);
        todo := todo - {k};
        var url := Peers.NodeUrl(k, remote[k]);
        Peers.NodeUrlNext(old(peers), remote, order, k);
        if url != "" {
          peers := MergeLists(peers, [url], NormalizeUrl);
        }
        order := order + [k];
      }
    }

    method MergeRemoteTokens(remote: map<string, JoinToken>, now: Time)
      modifies this`tokens
      ensures tokens == Tokens.MergeTokens(old(tokens), remote, now)
    {
      var todo := remote.Keys;
      while todo != {}
        invariant todo <= remote.Keys
        invariant tokens == Tokens.MergeTokens(old(tokens), remote - todo, now)
        decreases todo
      {
        var v :| v in todo;
        Tokens.MergeTokensStep(old(tokens), remote, todo, v, now);
        assert Lookup(tokens, v) == Lookup(old(tokens), v);
        todo := todo - {v};
        var theirs := remote[v];
        if now < theirs.expiresAt {
          if v !in tokens {
            tokens := tokens[v := theirs];
          } else {
            var ours := tokens[v];
            if theirs.usesLeft < ours.usesLeft || |theirs.usedBy| > |ours.usedBy| || theirs.expiresAt < ours.expiresAt {
              var users := MergeLists(ours.usedBy, theirs.usedBy, TrimSpace);
              tokens := tokens[v := ours.(usesLeft := theirs.usesLeft, expiresAt := theirs.expiresAt, usedBy := users)];
            }
          }
        }
      }
      assert remote - {} == remote;
    }
  }

  /* ---------- slices ---------- */

  /** Moves the samples from the cutoff on to the front, in order and in place, and returns how many they are. */
  method CompactSamples(a: array<TrafficSample>, cutoff: Time) returns (n: nat)
    modifies a
    ensures n <= a.Length && a[..n] == TrafficLog.Keep(old(a[..]), cutoff)
  {
    ghost var was := a[..];
    n := 0;
    for i := 0 to a.Length
      invariant n <= i && a[i..] == was[i..]
      invariant a[..n] == TrafficLog.Keep(was[..i], cutoff)
    {
      ghost var tail := a[i..];
      assert a[i] == tail[0] == was[i] && tail[1..] == was[i + 1..] == a[i + 1..];
      assert was[..i + 1][..i] == was[..i];
      if !(a[i].at == 0 || a[i].at < cutoff) {
        ghost var front := a[..n];
        a[n] := a[i];
        assert a[..n + 1] == front + [was[i]];
        assert a[i + 1..] == tail[1..];
        n := n + 1;
      }
    }
    assert was[..a.Length] == was;
  }

  /** Moves the nodes that are not excluded to the front, in place, and returns how many they are. */
  method FilterExcludedNodes(nodes: array<ServerNode>, exclude: seq<string>) returns (n: nat)
    requires Distinct(nodes[..])
    modifies nodes
    ensures n <= nodes.Length && Distinct(nodes[..n])
    ensures Elements(nodes[..n]) == Eligible(Elements(old(nodes[..])), exclude)
  {
    var excluded: set<string> := {};
    for i := 0 to |exclude|
      invariant excluded == ExcludedIds(exclude[..i])
    {
      assert exclude[..i + 1] == exclude[..i] + [exclude[i]];
      if SanitizeId(exclude[i]) != "" {
        excluded := excluded + {SanitizeId(exclude[i])};
      }
    }
    assert exclude[..|exclude|] == exclude;
    ghost var was := nodes[..];
    n := 0;
    for i := 0 to nodes.Length
      invariant n <= i && nodes[i..] == was[i..]
      invariant Distinct(nodes[..n])
      invariant forall x :: x in nodes[..n] <==> x in was[..i] && x.id !in excluded
    {
      ghost var tail := nodes[i..];
      assert nodes[i] == tail[0] == was[i] && tail[1..] == was[i + 1..] == nodes[i + 1..];
      assert was[..i + 1] == was[..i] + [was[i]];
      if nodes[i].id !in excluded {
        assert was[i] !in was[..i];
        assert was[i] !in nodes[..n];
        ghost var front := nodes[..n];
        nodes[n] := nodes[i];
        assert nodes[..n + 1] == front + [was[i]];
        assert nodes[i + 1..] == tail[1..];
        n := n + 1;
      }
    }
    assert was[..nodes.Length] == was;
  }

  /** selectNodesForClient on the first n nodes of the slice. */
  method SelectNodesForClient(nodes: array<ServerNode>, n: nat, client: Option<Client>, mode: Mode, limit: int)
    returns (r: Result<seq<ServerNode>, Error>)
    requires n <= nodes.Length && Distinct(nodes[..n]) && DistinctIds(Elements(nodes[..n]))
    modifies nodes
    ensures DistinctIds(Elements(old(nodes[..n]))) && r == Selection(Elements(old(nodes[..n])), client, mode, limit)
  {
    ghost var S := Elements(nodes[..n]);
    DistinctCardinality(nodes[..n]);
    if n == 0 {
      return Err(NoAvailableNode);
    }
    assert nodes[..n][0] in S;
    PreferIsStrictTotal(S);
    SortSlice(nodes, n, Prefer);
    Sorting.ListingIs(Prefer, S, Ranking(S));
    assert nodes[..n] == Ranking(S);
    if mode.Aggregate? {
      return Ok(nodes[..n]);
    } else if mode.OtherMode? {
      return Err(UnsupportedMode);
    }
    var k := 1;
    if mode.Failover? {
      k := if limit <= 0 || limit > n then n else limit;
    }
    if mode.Single? || k == 1 {
      var pinned := PinnedNode(nodes[..n], client);
      if pinned.Some? {
        return Ok([pinned.value]);
      }
    }
    assert nodes[..k] == nodes[..n][..k];
    r := Ok(nodes[..k]);
  }

  method FindNode(nodes: seq<ServerNode>, id: string) returns (r: Option<ServerNode>)
    ensures r.Some? ==> r.value in Elements(nodes) && r.value.id == id
    ensures r.None? ==> !HasNode(Elements(nodes), id)
  {
    for i := 0 to |nodes|
      invariant forall j :: 0 <= j < i ==> nodes[j].id != id
    {
      if nodes[i].id == id {
        return Some(nodes[i]);
      }
    }
    r := None;
  }

  method PinnedNode(nodes: seq<ServerNode>, client: Option<Client>) returns (r: Option<ServerNode>)
    requires DistinctIds(Elements(nodes))
    ensures r.Some? <==> Pins(Elements(nodes), client)
    ensures r.Some? ==> PinnedTo(Elements(nodes), client, r.value)
  {
    PinsIff(Elements(nodes), client);
    r := None;
    if client.None? {
      return;
    }
    var c := client.value;
    if c.preferredNodeId != "" && c.migrationState.Manual? {
      r := FindNode(nodes, c.preferredNodeId);
      if r.Some? {
        return;
      }
    }
    if c.nodeId != "" {
      r := FindNode(nodes, c.nodeId);
    }
  }

  /* ---------- helpers of the methods ---------- */

  function Candidates(clients: map<string, Client>): set<Candidate> {
    set id | id in clients && clients[id].migrationState.Pending? && clients[id].preferredNodeId != "" ::
      Candidate(clients[id].id, clients[id].preferredNodeId, clients[id].migrationReason)
  }

  /** The candidates are the pending clients that have a target, each with that target and its reason. */
  lemma CandidatesAre(clients: map<string, Client>, c: Candidate)
    requires ClientsKeyed(clients)
    ensures c in Candidates(clients) <==>
            && c.clientId in clients && clients[c.clientId].migrationState.Pending? && clients[c.clientId].preferredNodeId == c.nodeId
            && c.nodeId != "" && clients[c.clientId].migrationReason == c.reason
  {
    if c.clientId in clients { assert clients[c.clientId].id == c.clientId; }
  }

  /** After an active pass a followed client is a candidate exactly when its node is offline or beaten by the
      gap, and then for the best node. */
  lemma CandidatesFollowPass(st: State, now: Time, id: string)
    requires KeyedById(st) && Active(st, now) && id in st.clients && Follows(st.clients[id])
    ensures var r, scores := Recommend(st, now), Scores(st.nodes, now);
            && KeyedById(r)
            && ((exists c :: c in Candidates(r.clients) && c.clientId == id) <==>
                  st.clients[id].nodeId !in scores || Beaten(scores, st.clients[id].nodeId, EffectiveGap(st.config)))
            && forall c :: c in Candidates(r.clients) && c.clientId == id ==>
                 c.nodeId == BestNode(st.nodes, now).id && c.nodeId != st.clients[id].nodeId
  {
    PassDecides(st, now, id);
    PassIdempotent(st, now);
    BestIsBest(st.nodes, now);
    var r := Recommend(st, now);
    var d := r.clients[id];
    hide Recommend, Scores, BestNode, Beaten, EffectiveGap;
    forall c: Candidate | c.clientId == id
      ensures c in Candidates(r.clients) <==>
                (d.migrationState.Pending? && d.preferredNodeId != "" && c == Candidate(id, d.preferredNodeId, d.migrationReason))
    {
      CandidatesAre(r.clients, c);
    }
    var x := Candidate(id, d.preferredNodeId, d.migrationReason);
    assert x in Candidates(r.clients) <==> d.migrationState.Pending? && d.preferredNodeId != "";
  }

  lemma CandidateOrder(clients: map<string, Client>)
    requires ClientsKeyed(clients)
    ensures StrictTotal(ByClient, Candidates(clients))
  {
    var S := Candidates(clients);
    forall x, y | x in S && y in S ensures Trichotomy(ByClient, x, y) {
      assert x.clientId == y.clientId ==> x == y;
      StrLessIrreflexive(x.nodeId);
      StrLessTotal(x.clientId, y.clientId);
      if StrLess(x.clientId, y.clientId) && StrLess(y.clientId, x.clientId) {
        StrLessTransitive(x.clientId, y.clientId, x.clientId);
        StrLessIrreflexive(x.clientId);
      }
    }
    forall x, y, z | x in S && y in S && z in S ensures Transitive(ByClient, x, y, z) {
      if StrLess(x.clientId, y.clientId) && StrLess(y.clientId, z.clientId) {
        StrLessTransitive(x.clientId, y.clientId, z.clientId);
        StrLessIrreflexive(x.clientId);
      }
      if StrLess(x.nodeId, y.nodeId) && StrLess(y.nodeId, z.nodeId) { StrLessTransitive(x.nodeId, y.nodeId, z.nodeId); }
    }
  }

  /** The merge with the remote maps visited in these orders. */
  ghost function MergedInOrder(st: State, remote: State, no: seq<string>, co: seq<string>, po: seq<string>, now: Time): State
    requires Lww.Visits(no, remote.nodes) && Lww.Visits(co, remote.clients) && Lww.Visits(po, remote.proxies)
  {
    State(Replicas.MergeConfig(st.config, remote.config),
          Lww.MergeInOrder(st.nodes, remote.nodes, no, Replicas.NODES),
          Lww.MergeInOrder(st.clients, remote.clients, co, Replicas.CLIENTS),
          Lww.MergeInOrder(st.proxies, remote.proxies, po, Replicas.PROXIES),
          Tokens.MergeTokens(st.tokens, remote.tokens, now),
          SampleMerge.Merge(st.samples, remote.samples, TrafficLog.MAX_SAMPLES, now))
  }

  lemma {:induction false} NodesStayKeyed(m: map<string, ServerNode>, remote: map<string, ServerNode>, order: seq<string>)
    requires NodesKeyed(m) && forall k :: k in order ==> k in remote
    ensures NodesKeyed(Lww.MergeInOrder(m, remote, order, Replicas.NODES))
  {
    if order != [] { NodesStayKeyed(m, remote, order[..|order| - 1]); }
  }

  lemma {:induction false} ClientsStayKeyed(m: map<string, Client>, remote: map<string, Client>, order: seq<string>)
    requires ClientsKeyed(m) && forall k :: k in order ==> k in remote
    ensures ClientsKeyed(Lww.MergeInOrder(m, remote, order, Replicas.CLIENTS))
  {
    if order != [] { ClientsStayKeyed(m, remote, order[..|order| - 1]); }
  }

  lemma {:induction false} ProxiesStayKeyed(m: map<string, Proxy>, remote: map<string, Proxy>, order: seq<string>)
    requires ProxiesKeyed(m) && forall k :: k in order ==> k in remote
    ensures ProxiesKeyed(Lww.MergeInOrder(m, remote, order, Replicas.PROXIES))
  {
    if order != [] { ProxiesStayKeyed(m, remote, order[..|order| - 1]); }
  }

  /** Whatever the remote maps hold, the merged ones are keyed by their entries' identifiers. */
  lemma MergedStaysKeyed(st: State, remote: State, no: seq<string>, co: seq<string>, po: seq<string>, now: Time)
    requires KeyedById(st) && Lww.Visits(no, remote.nodes) && Lww.Visits(co, remote.clients) && Lww.Visits(po, remote.proxies)
    ensures KeyedById(MergedInOrder(st, remote, no, co, po, now))
  {
    NodesStayKeyed(st.nodes, remote.nodes, no);
    ClientsStayKeyed(st.clients, remote.clients, co);
    ProxiesStayKeyed(st.proxies, remote.proxies, po);
  }

  lemma MergedIsMerge(st: State, remote: State, no: seq<string>, co: seq<string>, po: seq<string>, now: Time)
    requires KeyedById(st) && KeyedById(remote)
    requires Lww.Visits(no, remote.nodes) && Lww.Visits(co, remote.clients) && Lww.Visits(po, remote.proxies)
    ensures Recount(MergedInOrder(st, remote, no, co, po, now)) == Replicas.MergeState(st, remote, now)
  {
    MergedIsJoined(st, remote, no, co, po, now);
  }

  /** For a remote state as replicas hold it every order gives the join. */
  lemma MergedIsJoined(st: State, remote: State, no: seq<string>, co: seq<string>, po: seq<string>, now: Time)
    requires KeyedById(remote) && Lww.Visits(no, remote.nodes) && Lww.Visits(co, remote.clients) && Lww.Visits(po, remote.proxies)
    ensures MergedInOrder(st, remote, no, co, po, now) == Replicas.Joined(st, remote, now)
  {
    Replicas.KeyedIsKeyed(remote);
    Lww.MergeIsJoin(st.nodes, remote.nodes, no, Replicas.NODES);
    Lww.MergeIsJoin(st.clients, remote.clients, co, Replicas.CLIENTS);
    Lww.MergeIsJoin(st.proxies, remote.proxies, po, Replicas.PROXIES);
  }
}
