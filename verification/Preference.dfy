/** The scheduler's order of nodes and the selection of nodes for a client
    (internal/control/service.go:192-284, 704-729). */
module Preference {
  import opened Text
  import opened Cluster
  import opened Sorting
  import Network

  /** The comparison that sortNodesByPreference passes to sort.Slice. */
  predicate Prefer(a: ServerNode, b: ServerNode) {
    if a.network.score != b.network.score then a.network.score > b.network.score
    else if a.clientCount != b.clientCount then a.clientCount < b.clientCount
    else if a.proxyCount != b.proxyCount then a.proxyCount < b.proxyCount
    else if a.network.latencyMs != b.network.latencyMs then
      if a.network.latencyMs == 0 then false
      else if b.network.latencyMs == 0 then true
      else a.network.latencyMs < b.network.latencyMs
    else if a.network.bandwidthBps != b.network.bandwidthBps then a.network.bandwidthBps > b.network.bandwidthBps
    else StrLess(a.id, b.id)
  }

  /** What a node is ranked by, worst last in every component; latency 0 means infinite. */
  function Rank(n: ServerNode): seq<int> {
    [-n.network.score, n.clientCount, n.proxyCount,
     if n.network.latencyMs == 0 then 1 else 0, n.network.latencyMs, -n.network.bandwidthBps]
  }

  predicate LexLess(a: seq<int>, b: seq<int>)
    requires |a| == |b|
  {
    a != [] && (a[0] < b[0] || (a[0] == b[0] && LexLess(a[1..], b[1..])))
  }

  lemma {:induction false} LexTotal(a: seq<int>, b: seq<int>)
    requires |a| == |b|
    ensures a == b ==> !LexLess(a, b)
    ensures a != b ==> LexLess(a, b) != LexLess(b, a)
  {
    if a != [] {
      LexTotal(a[1..], b[1..]);
      assert a == [a[0]] + a[1..] && b == [b[0]] + b[1..];
    }
  }

  lemma {:induction false} LexTransitive(a: seq<int>, b: seq<int>, c: seq<int>)
    requires |a| == |b| == |c| && LexLess(a, b) && LexLess(b, c)
    ensures LexLess(a, c)
  {
    if a[0] == b[0] == c[0] { LexTransitive(a[1..], b[1..], c[1..]); }
  }

  lemma {:induction false} LexUnfold(a: seq<int>, b: seq<int>, k: nat)
    requires |a| == |b| && k <= |a|
    requires a[..k] == b[..k]
    ensures LexLess(a, b) == LexLess(a[k..], b[k..])
  {
    if k > 0 {
      assert a[0] == a[..k][0] && b[0] == b[..k][0];
      assert a[1..][..k - 1] == a[..k][1..] && b[1..][..k - 1] == b[..k][1..];
      LexUnfold(a[1..], b[1..], k - 1);
      assert a[1..][k - 1..] == a[k..] && b[1..][k - 1..] == b[k..];
    }
  }

  lemma {:induction false} FirstDifference(a: seq<int>, b: seq<int>) returns (k: nat)
    requires |a| == |b| && a != b
    ensures k < |a| && a[k] != b[k] && a[..k] == b[..k]
  {
    if a[0] != b[0] {
      k := 0;
    } else {
      assert a == [a[0]] + a[1..] && b == [b[0]] + b[1..];
      var j := FirstDifference(a[1..], b[1..]);
      k := j + 1;
      assert a[..k] == [a[0]] + a[1..][..j] && b[..k] == [b[0]] + b[1..][..j];
    }
  }

  lemma RankDecides(a: ServerNode, b: ServerNode, k: nat)
    requires k < 6 && Rank(a)[k] != Rank(b)[k]
    requires forall i :: 0 <= i < k ==> Rank(a)[i] == Rank(b)[i]
    ensures Prefer(a, b) <==> Rank(a)[k] < Rank(b)[k]
  {
    var r, s := Rank(a), Rank(b);
    assert k > 0 ==> r[0] == s[0];
    assert k > 1 ==> r[1] == s[1];
    assert k > 2 ==> r[2] == s[2];
    assert k > 3 ==> r[3] == s[3];
    assert k > 4 ==> r[4] == s[4];
  }

  /** The comparison is the lexicographic order of the ranks, with the ID as the last word. */
  lemma PreferIsLexicographic(a: ServerNode, b: ServerNode)
    ensures Prefer(a, b) <==> LexLess(Rank(a), Rank(b)) || (Rank(a) == Rank(b) && StrLess(a.id, b.id))
  {
    var r, s := Rank(a), Rank(b);
    if r == s {
      LexTotal(r, s);
      assert r[0] == s[0] && r[1] == s[1] && r[2] == s[2] && r[4] == s[4] && r[5] == s[5];
    } else {
      var k := FirstDifference(r, s);
      LexUnfold(r, s, k);
      assert LexLess(r, s) <==> r[k] < s[k];
      forall i | 0 <= i < k ensures r[i] == s[i] {
        assert r[..k][i] == s[..k][i];
      }
      RankDecides(a, b, k);
    }
  }

  ghost predicate DistinctIds(S: set<ServerNode>) {
    forall a, b :: a in S && b in S && a.id == b.id ==> a == b
  }

  /** On nodes with different IDs the comparison is a strict total order. */
  lemma PreferIsStrictTotal(S: set<ServerNode>)
    requires DistinctIds(S)
    ensures StrictTotal(Prefer, S)
  {
    forall x, y | x in S && y in S ensures Trichotomy(Prefer, x, y) {
      PreferIsLexicographic(x, y);
      PreferIsLexicographic(y, x);
      LexTotal(Rank(x), Rank(y));
      StrLessIrreflexive(x.id);
      StrLessTotal(x.id, y.id);
      if StrLess(x.id, y.id) && StrLess(y.id, x.id) { StrLessTransitive(x.id, y.id, x.id); }
    }
    forall x, y, z | x in S && y in S && z in S ensures Transitive(Prefer, x, y, z) {
      if Prefer(x, y) && Prefer(y, z) {
        PreferIsLexicographic(x, y);
        PreferIsLexicographic(y, z);
        PreferIsLexicographic(x, z);
        if LexLess(Rank(x), Rank(y)) && LexLess(Rank(y), Rank(z)) { LexTransitive(Rank(x), Rank(y), Rank(z)); }
        if Rank(x) == Rank(y) == Rank(z) { StrLessTransitive(x.id, y.id, z.id); }
      }
    }
  }

  /* ---------- online nodes ---------- */

  predicate IsOnline(n: ServerNode, now: Time) {
    n.status.Online? && now - n.lastSeenAt <= ONLINE_WINDOW
  }

  function Refreshed(n: ServerNode, now: Time): ServerNode { n.(network := Network.Refresh(n.network, now)) }

  /** The refreshed copies that onlineNodesLocked collects. */
  function OnlineSet(nodes: map<string, ServerNode>, now: Time): set<ServerNode> {
    set id | id in nodes && IsOnline(nodes[id], now) :: Refreshed(nodes[id], now)
  }

  lemma OnlineIdsDistinct(nodes: map<string, ServerNode>, now: Time)
    requires NodesKeyed(nodes)
    ensures DistinctIds(OnlineSet(nodes, now))
    ensures StrictTotal(Prefer, OnlineSet(nodes, now))
  {
    PreferIsStrictTotal(OnlineSet(nodes, now));
  }

  /** The online nodes, the preferred first. */
  ghost function Ranking(S: set<ServerNode>): (r: seq<ServerNode>)
    requires DistinctIds(S)
    ensures Lists(Prefer, S, r)
  {
    PreferIsStrictTotal(S);
    Listing(Prefer, S)
  }

  lemma RankingFacts(S: set<ServerNode>)
    requires DistinctIds(S)
    ensures Distinct(Ranking(S)) && |Ranking(S)| == |S|
    ensures S != {} ==> Ranking(S)[0] in S
    ensures forall n :: n in S ==> n in Ranking(S) && n.network.score <= Ranking(S)[0].network.score
  {
    PreferIsStrictTotal(S);
    var r := Ranking(S);
    SortedIsDistinct(Prefer, S, r);
    forall n | n in S ensures n in r && n.network.score <= r[0].network.score {
      HeadIsLeast(Prefer, S, r, n);
      assert n in Elements(r);
    }
    if S != {} { assert r[0] in Elements(r); }
  }

  /* ---------- selection ---------- */

  datatype Mode = Aggregate | Failover | Single | OtherMode

  /** The IDs the exclusion list stands for. */
  function ExcludedIds(exclude: seq<string>): set<string> {
    set x | x in exclude && SanitizeId(x) != "" :: SanitizeId(x)
  }

  function Eligible(S: set<ServerNode>, exclude: seq<string>): set<ServerNode> {
    set n | n in S && n.id !in ExcludedIds(exclude)
  }

  /** The node among `S` that a client is pinned to: its manual target, else its current node. */
  predicate PinnedTo(S: set<ServerNode>, client: Option<Client>, n: ServerNode) {
    client.Some? && n in S &&
    var c := client.value;
    if c.preferredNodeId != "" && c.migrationState.Manual? && HasNode(S, c.preferredNodeId)
    then n.id == c.preferredNodeId
    else c.nodeId != "" && n.id == c.nodeId
  }

  ghost predicate Pins(S: set<ServerNode>, client: Option<Client>) { exists n :: PinnedTo(S, client, n) }

  predicate HasNode(S: set<ServerNode>, id: string) { exists m :: m in S && m.id == id }

  predicate HasTarget(S: set<ServerNode>, client: Option<Client>) {
    && client.Some? && client.value.migrationState.Manual? && client.value.preferredNodeId != ""
    && HasNode(S, client.value.preferredNodeId)
  }

  predicate HasCurrent(S: set<ServerNode>, client: Option<Client>) {
    client.Some? && client.value.nodeId != "" && HasNode(S, client.value.nodeId)
  }

  lemma PinsIff(S: set<ServerNode>, client: Option<Client>)
    ensures Pins(S, client) <==> HasTarget(S, client) || HasCurrent(S, client)
  {
    if HasTarget(S, client) {
      var n :| n in S && n.id == client.value.preferredNodeId;
      assert PinnedTo(S, client, n);
    } else if HasCurrent(S, client) {
      var n :| n in S && n.id == client.value.nodeId;
      assert PinnedTo(S, client, n);
    }
  }

  function EffectiveLimit(S: set<ServerNode>, limit: int): nat {
    if limit <= 0 || limit > |S| then |S| else limit
  }

  /** selectNodesForClient on the eligible nodes `S`. */
  ghost function Selection(S: set<ServerNode>, client: Option<Client>, mode: Mode, limit: int): Result<seq<ServerNode>, Error>
    requires DistinctIds(S)
  {
    RankingFacts(S);
    if S == {} then Err(NoAvailableNode)
    else if mode.Aggregate? then Ok(Ranking(S))
    else if mode.OtherMode? then Err(UnsupportedMode)
    else if (mode.Single? || EffectiveLimit(S, limit) == 1) && Pins(S, client) then
      var n :| PinnedTo(S, client, n);
      Ok([n])
    else Ok(Ranking(S)[..if mode.Single? then 1 else EffectiveLimit(S, limit)])
  }

  /** Every selected node is eligible and none is selected twice; a selection is never empty, and it
      fails only for want of nodes or for an unknown mode. */
  lemma SelectionSound(S: set<ServerNode>, client: Option<Client>, mode: Mode, limit: int)
    requires DistinctIds(S)
    ensures Selection(S, client, mode, limit).Err? <==> S == {} || mode.OtherMode?
    ensures var r := Selection(S, client, mode, limit);
            r.Ok? ==> r.value != [] && Elements(r.value) <= S
                      && forall i, j :: 0 <= i < j < |r.value| ==> r.value[i].id != r.value[j].id
  {
    RankingFacts(S);
    var r := Selection(S, client, mode, limit);
    if r.Ok? {
      forall n | n in r.value ensures n in S {
        if n in Ranking(S) { assert n in Elements(Ranking(S)); }
      }
      forall i, j | 0 <= i < j < |r.value| ensures r.value[i].id != r.value[j].id {
        assert r.value[i] in r.value && r.value[j] in r.value;
      }
    }
  }

  /** Without a pin the selection is the best of the ranking: each selected node is preferred to each
      one left out, aggregate leaves none out, failover keeps `limit` and single keeps one. */
  lemma SelectionOptimal(S: set<ServerNode>, client: Option<Client>, mode: Mode, limit: int)
    requires DistinctIds(S) && S != {} && !mode.OtherMode?
    requires mode.Aggregate? || (mode.Failover? && EffectiveLimit(S, limit) > 1) || !Pins(S, client)
    ensures var r := Selection(S, client, mode, limit).value;
            && Sorted(Prefer, r)
            && (forall a, b :: a in r && b in S && b !in r ==> Prefer(a, b))
            && |r| == (if mode.Aggregate? then |S| else if mode.Single? then 1 else EffectiveLimit(S, limit))
  {
    RankingFacts(S);
    var ranking, r := Ranking(S), Selection(S, client, mode, limit).value;
    assert r == ranking[..|r|];
    forall a, b | a in r && b in S && b !in r ensures Prefer(a, b) {
      var i :| 0 <= i < |r| && r[i] == a;
      assert b in ranking;
      var j :| 0 <= j < |ranking| && ranking[j] == b;
      assert j >= |r|;
    }
  }

  /** Single and one-node failover return the manual target if it is eligible, else the current node
      if that is eligible, else the most preferred node. */
  lemma SelectionPins(S: set<ServerNode>, client: Option<Client>, mode: Mode, limit: int)
    requires DistinctIds(S) && S != {} && (mode.Single? || (mode.Failover? && EffectiveLimit(S, limit) == 1))
    ensures var r := Selection(S, client, mode, limit);
            && r.Ok? && |r.value| == 1
            && var n := r.value[0];
            && n in S
            && (if HasTarget(S, client) then n.id == client.value.preferredNodeId
                else if HasCurrent(S, client) then n.id == client.value.nodeId
                else forall m :: m in S ==> m == n || Prefer(n, m))
  {
    RankingFacts(S);
    PinsIff(S, client);
    if !Pins(S, client) {
      forall m | m in S ensures m == Ranking(S)[0] || Prefer(Ranking(S)[0], m) {
        HeadIsLeast(Prefer, S, Ranking(S), m);
      }
    }
  }
}
