/** The derived load counters (internal/control/service.go:547-571). */
module Counters {
  import opened Cluster
  import opened Sums

  function ClientsOn(clients: map<string, Client>, nodeId: string): set<string> {
    set c | c in clients && clients[c].status.Connected? && clients[c].nodeId == nodeId
  }

  function ProxiesOn(proxies: map<string, Proxy>, nodeId: string): set<string> {
    set p | p in proxies && proxies[p].status.Open? && proxies[p].nodeId == nodeId
  }

  function ProxiesOf(proxies: map<string, Proxy>, clientId: string): set<string> {
    set p | p in proxies && proxies[p].status.Open? && proxies[p].clientId == clientId
  }

  /** Every counter equals the number of entries it stands for. */
  ghost predicate CountsOk(st: State) {
    && (forall id <- st.nodes :: st.nodes[id].clientCount == |ClientsOn(st.clients, id)|
                              && st.nodes[id].proxyCount == |ProxiesOn(st.proxies, id)|)
    && (forall id <- st.clients :: st.clients[id].proxyCount == |ProxiesOf(st.proxies, id)|)
  }

  /** The state with every counter set to the number of entries it stands for. */
  function Recount(st: State): State {
    st.(nodes := map id | id in st.nodes :: st.nodes[id].(clientCount := |ClientsOn(st.clients, id)|,
                                                          proxyCount := |ProxiesOn(st.proxies, id)|),
        clients := map id | id in st.clients :: st.clients[id].(proxyCount := |ProxiesOf(st.proxies, id)|))
  }

  lemma RecountCounts(st: State)
    ensures CountsOk(Recount(st))
    ensures KeyedById(st) ==> KeyedById(Recount(st))
  {
    var r := Recount(st);
    forall id ensures ClientsOn(r.clients, id) == ClientsOn(st.clients, id) {}
  }

  /** Recounting is the only way to make the counters right that leaves the rest alone. */
  lemma RecountIsFixpoint(st: State)
    ensures CountsOk(st) <==> Recount(st) == st
  {
    RecountCounts(st);
    if CountsOk(st) {
      assert Recount(st).nodes == st.nodes && Recount(st).clients == st.clients;
    }
  }

  /** The node of each connected client, and of each open proxy. */
  function ClientHome(clients: map<string, Client>): map<string, string> {
    map c | c in clients && clients[c].status.Connected? :: clients[c].nodeId
  }

  function ProxyHome(proxies: map<string, Proxy>): map<string, string> {
    map p | p in proxies && proxies[p].status.Open? :: proxies[p].nodeId
  }

  /** The nodes' client counters add up to the connected clients on known nodes. */
  lemma ClientCountsAddUp(st: State)
    requires CountsOk(st)
    ensures Sum(map id | id in st.nodes :: st.nodes[id].clientCount) ==
            |set c | c in st.clients && st.clients[c].status.Connected? && st.clients[c].nodeId in st.nodes|
  {
    var home := ClientHome(st.clients);
    var counts := map id | id in st.nodes :: st.nodes[id].clientCount;
    forall id | id in counts ensures counts[id] == |Fiber(home, id)| {
      assert Fiber(home, id) == ClientsOn(st.clients, id);
    }
    FibersAddUp(counts, home);
    assert Within(home, counts.Keys) ==
      set c | c in st.clients && st.clients[c].status.Connected? && st.clients[c].nodeId in st.nodes;
  }

  /** The nodes' proxy counters add up to the open proxies on known nodes. */
  lemma ProxyCountsAddUp(st: State)
    requires CountsOk(st)
    ensures Sum(map id | id in st.nodes :: st.nodes[id].proxyCount) ==
            |set p | p in st.proxies && st.proxies[p].status.Open? && st.proxies[p].nodeId in st.nodes|
  {
    var home := ProxyHome(st.proxies);
    var counts := map id | id in st.nodes :: st.nodes[id].proxyCount;
    forall id | id in counts ensures counts[id] == |Fiber(home, id)| {
      assert Fiber(home, id) == ProxiesOn(st.proxies, id);
    }
    FibersAddUp(counts, home);
    assert Within(home, counts.Keys) ==
      set p | p in st.proxies && st.proxies[p].status.Open? && st.proxies[p].nodeId in st.nodes;
  }

  /* ---------- counting one entry at a time ---------- */

  lemma TakeOne(S: set<string>, todo: set<string>, k: string)
    requires k in todo
    ensures |S - (todo - {k})| == |S - todo| + if k in S then 1 else 0
  {
    if k in S {
      assert S - (todo - {k}) == S - todo + {k};
    } else {
      assert S - (todo - {k}) == S - todo;
    }
  }

  /** How many of `S` were met when `todo` is left. */
  function Met(S: set<string>, todo: set<string>): int { |S - todo| }

  lemma MetMore(S: set<string>, todo: set<string>, k: string)
    requires k in todo
    ensures Met(S, todo - {k}) == Met(S, todo) + if k in S then 1 else 0
  {
    TakeOne(S, todo, k);
  }

  lemma MetEnds(S: set<string>, all: set<string>)
    requires S <= all
    ensures Met(S, all) == 0 && Met(S, {}) == |S|
  {
    assert S - all == {} && S - {} == S;
  }

  /** Per node or client, how many were met when `todo` is left. */
  function ClientTally(C: map<string, Client>, todo: set<string>): string -> int { id => Met(ClientsOn(C, id), todo) }

  function ProxyTally(P: map<string, Proxy>, todo: set<string>): string -> int { id => Met(ProxiesOn(P, id), todo) }

  function OwnerTally(P: map<string, Proxy>, todo: set<string>): string -> int { id => Met(ProxiesOf(P, id), todo) }

  function WithClients(N: map<string, ServerNode>, f: string -> int): map<string, ServerNode> {
    map id | id in N :: N[id].(clientCount := f(id))
  }

  function WithProxies(N: map<string, ServerNode>, f: string -> int): map<string, ServerNode> {
    map id | id in N :: N[id].(proxyCount := f(id))
  }

  function WithOwned(C: map<string, Client>, f: string -> int): map<string, Client> {
    map id | id in C :: C[id].(proxyCount := f(id))
  }

  /** `g` counts one more than `f` at `h`, if `more`. */
  ghost predicate Counts(f: string -> int, g: string -> int, h: string, more: bool) {
    forall id :: g(id) == f(id) + if more && id == h then 1 else 0
  }

  lemma ClientMet(C: map<string, Client>, todo: set<string>, c: string)
    requires c in todo && c in C
    ensures Counts(ClientTally(C, todo), ClientTally(C, todo - {c}), C[c].nodeId, C[c].status.Connected?)
  {
    forall id ensures ClientTally(C, todo - {c})(id) ==
                      ClientTally(C, todo)(id) + if C[c].status.Connected? && id == C[c].nodeId then 1 else 0
    {
      MetMore(ClientsOn(C, id), todo, c);
    }
  }

  lemma ProxyMet(P: map<string, Proxy>, todo: set<string>, p: string)
    requires p in todo && p in P
    ensures Counts(ProxyTally(P, todo), ProxyTally(P, todo - {p}), P[p].nodeId, P[p].status.Open?)
    ensures Counts(OwnerTally(P, todo), OwnerTally(P, todo - {p}), P[p].clientId, P[p].status.Open?)
  {
    forall id ensures ProxyTally(P, todo - {p})(id) == ProxyTally(P, todo)(id) + if P[p].status.Open? && id == P[p].nodeId then 1 else 0 {
      MetMore(ProxiesOn(P, id), todo, p);
    }
    forall id ensures OwnerTally(P, todo - {p})(id) == OwnerTally(P, todo)(id) + if P[p].status.Open? && id == P[p].clientId then 1 else 0 {
      MetMore(ProxiesOf(P, id), todo, p);
    }
  }

  lemma MoreOnNode(N: map<string, ServerNode>, f: string -> int, g: string -> int, h: string, more: bool)
    requires Counts(f, g, h, more)
    ensures var m := WithClients(N, f);
            WithClients(N, g) == if more && h in m then m[h := m[h].(clientCount := m[h].clientCount + 1)] else m
    ensures var m := WithProxies(N, f);
            WithProxies(N, g) == if more && h in m then m[h := m[h].(proxyCount := m[h].proxyCount + 1)] else m
  {}

  lemma MoreOfClient(C: map<string, Client>, f: string -> int, g: string -> int, h: string, more: bool)
    requires Counts(f, g, h, more)
    ensures var m := WithOwned(C, f);
            WithOwned(C, g) == if more && h in m then m[h := m[h].(proxyCount := m[h].proxyCount + 1)] else m
  {}

  /** Before anything is counted. */
  lemma NothingMet(C: map<string, Client>, P: map<string, Proxy>, id: string)
    ensures ClientTally(C, C.Keys)(id) == 0 && ProxyTally(P, P.Keys)(id) == 0 && OwnerTally(P, P.Keys)(id) == 0
    ensures ClientTally(C, {})(id) == |ClientsOn(C, id)|
    ensures ProxyTally(P, {})(id) == |ProxiesOn(P, id)| && OwnerTally(P, {})(id) == |ProxiesOf(P, id)|
  {
    MetEnds(ClientsOn(C, id), C.Keys);
    MetEnds(ProxiesOn(P, id), P.Keys);
    MetEnds(ProxiesOf(P, id), P.Keys);
  }

  lemma ZerosStay(N: map<string, ServerNode>, C: map<string, Client>, f: string -> int)
    requires forall id :: f(id) == 0
    ensures (forall id <- N :: N[id].clientCount == 0) ==> WithClients(N, f) == N
    ensures (forall id <- N :: N[id].proxyCount == 0) ==> WithProxies(N, f) == N
    ensures (forall id <- C :: C[id].proxyCount == 0) ==> WithOwned(C, f) == C
  {}

  lemma ZeroTallies(C: map<string, Client>, P: map<string, Proxy>)
    ensures forall id :: ClientTally(C, C.Keys)(id) == 0
    ensures forall id :: ProxyTally(P, P.Keys)(id) == 0
    ensures forall id :: OwnerTally(P, P.Keys)(id) == 0
  {
    forall id ensures ClientTally(C, C.Keys)(id) == 0 && ProxyTally(P, P.Keys)(id) == 0 && OwnerTally(P, P.Keys)(id) == 0 {
      NothingMet(C, P, id);
    }
  }

  /** What the counters stand for, as functions of the identifier. */
  function ClientTotals(C: map<string, Client>): string -> int { id => |ClientsOn(C, id)| }

  function ProxyTotals(P: map<string, Proxy>): string -> int { id => |ProxiesOn(P, id)| }

  function OwnerTotals(P: map<string, Proxy>): string -> int { id => |ProxiesOf(P, id)| }

  lemma RecountNodes(st: State)
    ensures Recount(st).nodes == WithProxies(WithClients(st.nodes, ClientTotals(st.clients)), ProxyTotals(st.proxies))
  {}

  lemma RecountClients(st: State)
    ensures Recount(st).clients == WithOwned(st.clients, OwnerTotals(st.proxies))
  {}

  lemma SameTallies(N: map<string, ServerNode>, C: map<string, Client>, f: string -> int, g: string -> int)
    requires forall id :: f(id) == g(id)
    ensures WithClients(N, f) == WithClients(N, g) && WithProxies(N, f) == WithProxies(N, g) && WithOwned(C, f) == WithOwned(C, g)
  {}

  lemma FullTotals(C: map<string, Client>, P: map<string, Proxy>)
    ensures forall id :: ClientTally(C, {})(id) == ClientTotals(C)(id)
    ensures forall id :: ProxyTally(P, {})(id) == ProxyTotals(P)(id)
    ensures forall id :: OwnerTally(P, {})(id) == OwnerTotals(P)(id)
  {
    forall id ensures ClientTally(C, {})(id) == ClientTotals(C)(id) && ProxyTally(P, {})(id) == ProxyTotals(P)(id)
                   && OwnerTally(P, {})(id) == OwnerTotals(P)(id) {
      NothingMet(C, P, id);
    }
  }

  /** The full tallies are the recount. */
  lemma FullTallies(st: State)
    ensures Recount(st) ==
            st.(nodes := WithProxies(WithClients(st.nodes, ClientTally(st.clients, {})), ProxyTally(st.proxies, {})),
                clients := WithOwned(st.clients, OwnerTally(st.proxies, {})))
  {
    FullTotals(st.clients, st.proxies);
    FullTalliesFrom(st, ClientTally(st.clients, {}), ProxyTally(st.proxies, {}), OwnerTally(st.proxies, {}),
                    ClientTotals(st.clients), ProxyTotals(st.proxies), OwnerTotals(st.proxies));
    RecountNodes(st);
    RecountClients(st);
  }

  lemma FullTalliesFrom(st: State, f: string -> int, g: string -> int, h: string -> int,
                        f': string -> int, g': string -> int, h': string -> int)
    requires forall id :: f(id) == f'(id)
    requires forall id :: g(id) == g'(id)
    requires forall id :: h(id) == h'(id)
    ensures WithProxies(WithClients(st.nodes, f), g) == WithProxies(WithClients(st.nodes, f'), g')
    ensures WithOwned(st.clients, h) == WithOwned(st.clients, h')
  {
    SameTallies(st.nodes, st.clients, f, f');
    SameTallies(WithClients(st.nodes, f), st.clients, g, g');
    SameTallies(st.nodes, st.clients, h, h');
  }

  /** The clients' counters are set to 0, except those in `todo`. */
  function Zeroed(C: map<string, Client>, todo: set<string>): map<string, Client> {
    map id | id in C :: if id in todo then C[id] else C[id].(proxyCount := 0)
  }

  lemma ZeroOne(C: map<string, Client>, todo: set<string>, c: string)
    requires c in todo && c in C
    ensures var m := Zeroed(C, todo);
            && m.Keys == C.Keys && m[c] == C[c] && Zeroed(C, todo - {c}) == m[c := m[c].(proxyCount := 0)]
  {}

  lemma ZeroEnds(C: map<string, Client>)
    ensures Zeroed(C, C.Keys) == C && Zeroed(C, {}) == map id | id in C :: C[id].(proxyCount := 0)
  {}

  lemma Overwrites(N: map<string, ServerNode>, f: string -> int, g: string -> int)
    ensures WithProxies(WithClients(map id | id in N :: N[id].(clientCount := 0, proxyCount := 0), f), g) ==
            WithProxies(WithClients(N, f), g)
  {}

  lemma OverwritesOwned(C: map<string, Client>, f: string -> int)
    ensures WithOwned(map id | id in C :: C[id].(proxyCount := 0), f) == WithOwned(C, f)
  {}
}
