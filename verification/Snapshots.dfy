/** What the control plane shows of its nodes, clients and proxies (internal/control/store.go:151-245). */
module Snapshots {
  import opened Text
  import opened Cluster
  import opened Counters
  import opened Preference
  import opened Sorting
  import opened StringLists
  import opened Sums
  import ControlStore
  import Effects
  import Network

  /** A silent node is shown offline; its token is not shown. */
  function ShownNode(n: ServerNode, now: Time): ServerNode {
    n.(status := if n.status.Online? && now - n.lastSeenAt > ONLINE_WINDOW then Offline else n.status,
       network := Network.Refresh(n.network, now), nodeToken := "")
  }

  predicate Up(nodes: map<string, ServerNode>, id: string, now: Time) { id in nodes && IsOnline(nodes[id], now) }

  /** Clients and proxies on nodes that are not online are shown offline and closed. */
  function ShownClient(c: Client, nodes: map<string, ServerNode>, now: Time): Client {
    if Up(nodes, c.nodeId, now) then c else c.(status := Disconnected)
  }

  function ShownProxy(p: Proxy, nodes: map<string, ServerNode>, now: Time): Proxy {
    if Up(nodes, p.nodeId, now) then p else p.(status := Closed)
  }

  datatype Summary = Summary(onlineNodes: nat, offlineNodes: nat, onlineClients: nat, onlineProxies: nat, availablePorts: nat)

  datatype View = View(nodes: seq<ServerNode>, clients: seq<Client>, proxies: seq<Proxy>, summary: Summary)

  /* ---------- lists by identifier ---------- */

  function Less<T>(id: T -> string): (T, T) -> bool { (a, b) => StrLess(id(a), id(b)) }

  function IdsOf<T>(list: seq<T>, id: T -> string): seq<string> { seq(|list|, i requires 0 <= i < |list| => id(list[i])) }

  /** `list` shows every entry of the map once, by identifier. */
  ghost predicate Shows<T>(list: seq<T>, m: map<string, T>, show: T -> T, id: T -> string) {
    IdsOf(list, id) == SortedStrings(m.Keys) && forall x :: x in list ==> id(x) in m && x == show(m[id(x)])
  }

  lemma ByIdIsStrictTotal<T(!new)>(m: map<string, T>, show: T -> T, id: T -> string, S: set<T>)
    requires forall x :: x in S ==> id(x) in m && x == show(m[id(x)])
    ensures StrictTotal(Less(id), S)
  {
    StringsStrictTotal(m.Keys);
    forall x, y | x in S && y in S ensures Trichotomy(Less(id), x, y) {
      assert Trichotomy(StrLess, id(x), id(y));
    }
    forall x, y, z | x in S && y in S && z in S ensures Transitive(Less(id), x, y, z) {
      assert Transitive(StrLess, id(x), id(y), id(z));
    }
  }

  lemma SortedShows<T(!new)>(m: map<string, T>, show: T -> T, id: T -> string, list: seq<T>)
    requires Sorted(Less(id), list) && (forall x :: x in list ==> id(x) in m && x == show(m[id(x)]))
    requires forall k <- m :: show(m[k]) in list && id(show(m[k])) == k
    ensures Shows(list, m, show, id)
  {
    var ids := IdsOf(list, id);
    forall k ensures k in Elements(ids) <==> k in m {
      if k in m {
        var i :| 0 <= i < |list| && list[i] == show(m[k]);
        assert ids[i] == k;
      }
      if k in Elements(ids) {
        var i :| 0 <= i < |ids| && ids[i] == k;
        assert list[i] in list;
      }
    }
    assert Elements(ids) == m.Keys;
    assert Sorted(StrLess, ids);
    StringsStrictTotal(m.Keys);
    ListingUnique(StrLess, m.Keys, ids, SortedStrings(m.Keys));
  }

  /** Collects the entries in map order and sorts them. */
  method Collect<T(!new)>(m: map<string, T>, show: T -> T, id: T -> string) returns (list: seq<T>)
    requires forall k <- m :: id(show(m[k])) == k
    ensures Shows(list, m, show, id)
  {
    var found: seq<T> := [];
    var todo := m.Keys;
    while todo != {}
      invariant todo <= m.Keys && Distinct(found)
      invariant forall x :: x in found <==> id(x) in m && id(x) !in todo && x == show(m[id(x)])
      decreases todo
    {
      var k :| k in todo;
      assert show(m[k]) !in Elements(found);
      DistinctSnoc(found, show(m[k]));
      todo := todo - {k};
      found := found + [show(m[k])];
    }
    ByIdIsStrictTotal(m, show, id, Elements(found));
    var a := new T[|found|](i requires 0 <= i < |found| => found[i]);
    assert a[..] == found && a[..|found|] == found;
    SortSlice(a, |found|, Less(id));
    list := a[..|found|];
    Sorting.ListingExists(Less(id), Elements(found));
    assert Elements(list) == Elements(found) && Sorted(Less(id), list);
    forall x ensures x in list <==> x in found { assert x in list <==> x in Elements(list); assert x in found <==> x in Elements(found); }
    SortedShows(m, show, id, list);
  }

  method Count<T>(list: seq<T>, p: T -> bool) returns (n: nat)
    ensures n == CountOf(list, p)
  {
    n := 0;
    for i := 0 to |list|
      invariant n == CountOf(list[..i], p)
    {
      assert list[..i + 1][..i] == list[..i];
      if p(list[i]) {
        n := n + 1;
      }
    }
    assert list[..|list|] == list;
  }

  function CountOf<T>(list: seq<T>, p: T -> bool): nat {
    if list == [] then 0 else CountOf(list[..|list| - 1], p) + if p(list[|list| - 1]) then 1 else 0
  }

  lemma {:induction false} CountIsCardinality<T>(list: seq<T>, p: T -> bool, id: T -> string, S: set<string>)
    requires Distinct(IdsOf(list, id))
    requires forall k :: k in S <==> exists i :: 0 <= i < |list| && p(list[i]) && id(list[i]) == k
    ensures CountOf(list, p) == |S|
  {
    if list == [] {
      assert S == {};
    } else {
      var rest, x := list[..|list| - 1], list[|list| - 1];
      assert list == rest + [x];
      assert IdsOf(list, id) == IdsOf(rest, id) + [id(x)];
      var R := if p(x) then S - {id(x)} else S;
      forall i, j | 0 <= i < j < |rest| ensures IdsOf(rest, id)[i] != IdsOf(rest, id)[j] {
        assert IdsOf(list, id)[i] != IdsOf(list, id)[j];
      }
      forall k ensures k in R <==> exists i :: 0 <= i < |rest| && p(rest[i]) && id(rest[i]) == k {
        if k in R {
          var i :| 0 <= i < |list| && p(list[i]) && id(list[i]) == k;
          assert i < |rest| && rest[i] == list[i];
        }
        if exists i :: 0 <= i < |rest| && p(rest[i]) && id(rest[i]) == k {
          var i :| 0 <= i < |rest| && p(rest[i]) && id(rest[i]) == k;
          assert list[i] == rest[i];
          assert IdsOf(list, id)[i] != IdsOf(list, id)[|rest|];
        }
      }
      CountIsCardinality(rest, p, id, R);
      if p(x) { assert id(list[|rest|]) == id(x); assert S == R + {id(x)}; }
    }
  }

  lemma CountShown<T>(list: seq<T>, m: map<string, T>, show: T -> T, id: T -> string, p: T -> bool, S: set<string>)
    requires Shows(list, m, show, id) && (forall k <- m :: id(show(m[k])) == k)
    requires forall k :: k in S <==> k in m && p(show(m[k]))
    ensures CountOf(list, p) == |S| && |list| == |m|
  {
    var ids := IdsOf(list, id);
    forall k ensures k in S <==> exists i :: 0 <= i < |list| && p(list[i]) && id(list[i]) == k {
      if k in S {
        assert k in Elements(SortedStrings(m.Keys));
        var i :| 0 <= i < |ids| && ids[i] == k;
        assert list[i] in list && p(list[i]) && id(list[i]) == k;
      }
      if exists i :: 0 <= i < |list| && p(list[i]) && id(list[i]) == k {
        var i :| 0 <= i < |list| && p(list[i]) && id(list[i]) == k;
        assert list[i] in list;
      }
    }
    CountIsCardinality(list, p, id, S);
    assert |list| == |ids| == |m.Keys|;
  }

  /* ---------- the snapshot ---------- */

  const NODE_ID: ServerNode -> string := (n: ServerNode) => n.id
  const CLIENT_ID: Client -> string := (c: Client) => c.id
  const PROXY_ID: Proxy -> string := (p: Proxy) => p.id

  function NodeShow(now: Time): ServerNode -> ServerNode { n => ShownNode(n, now) }

  function ClientShow(nodes: map<string, ServerNode>, now: Time): Client -> Client { c => ShownClient(c, nodes, now) }

  function ProxyShow(nodes: map<string, ServerNode>, now: Time): Proxy -> Proxy { p => ShownProxy(p, nodes, now) }

  function UpNodes(st: State, now: Time): set<string> { set id | id in st.nodes && Up(st.nodes, id, now) }

  /** The clients shown online, and the proxies shown open. */
  function UpClients(st: State, now: Time): set<string> {
    set c | c in st.clients && ShownClient(st.clients[c], st.nodes, now).status.Connected?
  }

  function UpProxies(st: State, now: Time): set<string> {
    set p | p in st.proxies && ShownProxy(st.proxies[p], st.nodes, now).status.Open?
  }

  method Snapshot(store: ControlStore.Store, now: Time) returns (v: View)
    requires store.Valid()
    ensures Shows(v.nodes, store.nodes, NodeShow(now), NODE_ID)
    ensures Shows(v.clients, store.clients, ClientShow(store.nodes, now), CLIENT_ID)
    ensures Shows(v.proxies, store.proxies, ProxyShow(store.nodes, now), PROXY_ID)
    ensures v.summary.onlineNodes == |UpNodes(store.Contents(), now)|
    ensures v.summary.onlineNodes + v.summary.offlineNodes == v.summary.availablePorts == |store.nodes|
    ensures v.summary.onlineClients == |UpClients(store.Contents(), now)|
    ensures v.summary.onlineProxies == |UpProxies(store.Contents(), now)|
  {
    ghost var st := store.Contents();
    var nodes := Collect(store.nodes, NodeShow(now), NODE_ID);
    var clients := Collect(store.clients, ClientShow(store.nodes, now), CLIENT_ID);
    var proxies := Collect(store.proxies, ProxyShow(store.nodes, now), PROXY_ID);
    hide Shows;
    var up: ServerNode -> bool := (n: ServerNode) => n.status.Online?;
    var connected: Client -> bool := (c: Client) => c.status.Connected?;
    var open: Proxy -> bool := (p: Proxy) => p.status.Open?;
    var onlineNodes := Count(nodes, up);
    var onlineClients := Count(clients, connected);
    var onlineProxies := Count(proxies, open);
    CountShown(nodes, store.nodes, NodeShow(now), NODE_ID, up, UpNodes(st, now));
    CountShown(clients, store.clients, ClientShow(store.nodes, now), CLIENT_ID, connected, UpClients(st, now));
    CountShown(proxies, store.proxies, ProxyShow(store.nodes, now), PROXY_ID, open, UpProxies(st, now));
    CountBound(nodes, up);
    v := View(nodes, clients, proxies, Summary(onlineNodes, |nodes| - onlineNodes, onlineClients, onlineProxies, |nodes|));
  }

  lemma {:induction false} CountBound<T>(list: seq<T>, p: T -> bool)
    ensures CountOf(list, p) <= |list|
  {
    if list != [] { CountBound(list[..|list| - 1], p); }
  }

  /** What is shown of single entries: a client or proxy as connected or open exactly when it is and its node reports, a
      node that has been silent for more than 90 seconds as offline, with its score of now and without its token. */
  lemma ShownEntries(nodes: map<string, ServerNode>, n: ServerNode, c: Client, p: Proxy, now: Time)
    ensures var m := ShownNode(n, now);
            && m == n.(status := m.status, network := m.network, nodeToken := "")
            && (m.status.Online? <==> n.status.Online? && now - n.lastSeenAt <= 90 * 1_000_000_000)
            && (!m.status.Online? ==> m.status == if n.status.Online? then Offline else n.status)
            && m.network.score == Network.Score(n.network, now)
    ensures var d := ShownClient(c, nodes, now);
            && d == c.(status := d.status)
            && (d.status.Connected? <==> c.status.Connected? && Effects.Reporting(nodes, c.nodeId, now))
    ensures var q := ShownProxy(p, nodes, now);
            && q == p.(status := q.status)
            && (q.status.Open? <==> p.status.Open? && Effects.Reporting(nodes, p.nodeId, now))
  {
    Network.RefreshIdempotent(n.network, now);
    hide Network.Refresh, Network.Score;
  }

  /** With right counters, a node that is shown online shows as many clients and proxies as it counts, and
      any other node shows none. */
  lemma LoadIsShown(st: State, now: Time, id: string)
    requires CountsOk(st) && id in st.nodes
    ensures |set c | c in UpClients(st, now) && st.clients[c].nodeId == id| ==
            if IsOnline(st.nodes[id], now) then st.nodes[id].clientCount else 0
    ensures |set p | p in UpProxies(st, now) && st.proxies[p].nodeId == id| ==
            if IsOnline(st.nodes[id], now) then st.nodes[id].proxyCount else 0
  {
    var C := set c | c in UpClients(st, now) && st.clients[c].nodeId == id;
    var P := set p | p in UpProxies(st, now) && st.proxies[p].nodeId == id;
    if IsOnline(st.nodes[id], now) {
      assert C == ClientsOn(st.clients, id) && P == ProxiesOn(st.proxies, id);
    } else {
      assert C == {} && P == {};
    }
  }

  /** The counters of the nodes shown online add up to the clients shown online ... */
  lemma ShownClientsAddUp(st: State, now: Time)
    requires CountsOk(st)
    ensures Sum(map id | id in UpNodes(st, now) :: st.nodes[id].clientCount) == |UpClients(st, now)|
  {
    var home := ClientHome(st.clients);
    var counts := map id | id in UpNodes(st, now) :: st.nodes[id].clientCount;
    forall id | id in counts ensures counts[id] == |Fiber(home, id)| {
      assert Fiber(home, id) == ClientsOn(st.clients, id);
    }
    FibersAddUp(counts, home);
    assert Within(home, counts.Keys) == UpClients(st, now);
  }

  /** ... and to the proxies shown open. */
  lemma ShownProxiesAddUp(st: State, now: Time)
    requires CountsOk(st)
    ensures Sum(map id | id in UpNodes(st, now) :: st.nodes[id].proxyCount) == |UpProxies(st, now)|
  {
    var home := ProxyHome(st.proxies);
    var counts := map id | id in UpNodes(st, now) :: st.nodes[id].proxyCount;
    forall id | id in counts ensures counts[id] == |Fiber(home, id)| {
      assert Fiber(home, id) == ProxiesOn(st.proxies, id);
    }
    FibersAddUp(counts, home);
    assert Within(home, counts.Keys) == UpProxies(st, now);
  }
}
