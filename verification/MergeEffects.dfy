/** What a merge leaves, entry by entry (internal/control/store.go:331-446, internal/control/traffic.go:154-180). */
module MergeEffects {
  import opened Text
  import opened Cluster
  import opened Replicas
  import opened Sorting
  import opened StringLists
  import Lww
  import Peers
  import SampleMerge
  import Tokens
  import TrafficLog

  /* ---------- nodes ---------- */

  /** A remote node entry is taken when there is no local one, when it is later, or when only it has a token. */
  predicate TakesNode(local: map<string, ServerNode>, remote: map<string, ServerNode>, id: string) {
    id in remote && (id !in local || remote[id].updatedAt > local[id].updatedAt || (local[id].nodeToken == "" && remote[id].nodeToken != ""))
  }

  /** Every merged node is the local or the taken remote entry; it keeps a local token that the remote one lacks, and
      the rest of it, counters aside, is copied. */
  lemma MergedNode(st: State, remote: State, now: Time, id: string)
    requires KeyedById(st) && KeyedById(remote)
    ensures var m := MergeState(st, remote, now).nodes;
            && (id in m <==> id in st.nodes || id in remote.nodes)
            && (id in m ==>
                  var n := if TakesNode(st.nodes, remote.nodes, id) then remote.nodes[id] else st.nodes[id];
                  && m[id] == n.(nodeToken := m[id].nodeToken, controlUrl := m[id].controlUrl, clientCount := m[id].clientCount,
                                 proxyCount := m[id].proxyCount)
                  && m[id].controlUrl == (if TakesNode(st.nodes, remote.nodes, id) then NormalizeUrl(n.controlUrl) else n.controlUrl)
                  && m[id].nodeToken == if n.nodeToken == "" && id in st.nodes then st.nodes[id].nodeToken else n.nodeToken)
  {
    KeyedIsKeyed(remote);
    hide NormalizeUrl;
  }

  /** So a token is never lost: a merged node has none exactly when neither side had one. */
  lemma TokensStay(st: State, remote: State, now: Time, id: string)
    requires KeyedById(st) && KeyedById(remote) && (id in st.nodes || id in remote.nodes)
    ensures var m := MergeState(st, remote, now).nodes;
            && id in m
            && (m[id].nodeToken == "" <==> (id in st.nodes ==> st.nodes[id].nodeToken == "") && (id in remote.nodes ==> remote.nodes[id].nodeToken == ""))
  {
    MergedNode(st, remote, now, id);
    hide NormalizeUrl;
  }

  /** Entries without an identifier are named by their key: nodes and clients by the sanitized key, proxies by the
      key itself; what is not named then is skipped. */
  lemma UnnamedEntries(key: string, n: ServerNode, c: Client, p: Proxy)
    requires n.id == "" && c.id == "" && p.id == ""
    ensures Lww.MergeOne(map[], key, n, NODES) ==
              if SanitizeId(key) == "" then map[] else map[SanitizeId(key) := n.(id := SanitizeId(key), controlUrl := NormalizeUrl(n.controlUrl))]
    ensures Lww.MergeOne(map[], key, c, CLIENTS) == if SanitizeId(key) == "" then map[] else map[SanitizeId(key) := c.(id := SanitizeId(key))]
    ensures Lww.MergeOne(map[], key, p, PROXIES) == if key == "" then map[] else map[key := p.(id := key)]
  {
    hide SanitizeId, NormalizeUrl;
  }

  /* ---------- join tokens ---------- */

  /** An unknown token is copied while it lives; a known one takes over the uses and the expiry of a live copy that
      has fewer uses, more users or an earlier expiry, and then also its users. */
  lemma MergedTokens(local: map<string, JoinToken>, remote: map<string, JoinToken>, now: Time, v: string)
    ensures var m := Tokens.MergeTokens(local, remote, now);
            && (v in m <==> v in local || (v in remote && now < remote[v].expiresAt))
            && (v in m && v !in local ==> m[v] == remote[v])
            && (v in local ==>
                  if v in remote && now < remote[v].expiresAt
                     && (remote[v].usesLeft < local[v].usesLeft || remote[v].expiresAt < local[v].expiresAt
                         || |remote[v].usedBy| > |local[v].usedBy|)
                  then m[v] == local[v].(usesLeft := remote[v].usesLeft, expiresAt := remote[v].expiresAt, usedBy := m[v].usedBy)
                       && Elements(m[v].usedBy) == AllUsers(local[v].usedBy + remote[v].usedBy) && |m[v].usedBy| == |Elements(m[v].usedBy)|
                  else m[v] == local[v])
  {
    if v in local && v in remote { UsersJoined(local[v].usedBy, remote[v].usedBy); }
    hide SortedStrings, Normalized, AllUsers, Elements;
  }

  /** The users without blanks around them, and without empty ones. */
  function AllUsers(users: seq<string>): set<string> { set y | y in users && TrimSpace(y) != "" :: TrimSpace(y) }

  lemma UsersJoined(a: seq<string>, b: seq<string>)
    ensures var s := SortedStrings(Normalized(a, TrimSpace) + Normalized(b, TrimSpace));
            Elements(s) == AllUsers(a + b) && |s| == |Elements(s)|
  {
    assert Normalized(a, TrimSpace) + Normalized(b, TrimSpace) == AllUsers(a + b);
  }

  /* ---------- traffic samples ---------- */

  /** The sample can be kept: it names a node and a time within seven days, and no other one of that node and
      second is later. */
  predicate Candidate(U: set<TrafficSample>, x: TrafficSample, now: Time) {
    && x in U && x.nodeId != "" && x.at != 0 && now - x.at <= 7 * 24 * 60 * 60 * 1_000_000_000
    && forall y :: y in U && y.nodeId == x.nodeId && y.at / 1_000_000_000 == x.at / 1_000_000_000 ==> y.at <= x.at
  }

  predicate Later(y: TrafficSample, x: TrafficSample) { y.at > x.at || (y.at == x.at && StrLess(x.nodeId, y.nodeId)) }

  /** A merge of consistent logs holds, in order of time, exactly those samples that can be kept and have fewer than
      100000 later ones. */
  lemma MergedSamples(local: seq<TrafficSample>, remote: seq<TrafficSample>, now: Time)
    requires SampleMerge.Consistent(Elements(local) + Elements(remote))
    ensures var U, m := Elements(local) + Elements(remote), SampleMerge.Merge(local, remote, TrafficLog.MAX_SAMPLES, now);
            && (forall x :: x in m <==> Candidate(U, x, now) && |set y | y in U && Candidate(U, y, now) && Later(y, x)| < 100000)
            && (forall i, j :: 0 <= i < j < |m| ==> Later(m[j], m[i]))
  {
    var U, m := Elements(local) + Elements(remote), SampleMerge.Merge(local, remote, TrafficLog.MAX_SAMPLES, now);
    var B := SampleMerge.Best(U, now - TrafficLog.RETENTION);
    SampleMerge.MergeIsTopOfBest(local, remote, TrafficLog.MAX_SAMPLES, now);
    hide SampleMerge.Merge, SampleMerge.Consistent, StrLess;
    forall x ensures x in B <==> Candidate(U, x, now) {}
    forall x ensures x in m <==> x in B && |SampleMerge.Above(B, x)| < 100000 {
      assert x in m <==> x in Elements(m);
    }
    forall x ensures SampleMerge.Above(B, x) == set y | y in U && Candidate(U, y, now) && Later(y, x) {}
    forall i, j | 0 <= i < j < |m| ensures Later(m[j], m[i]) { assert SampleMerge.SampleLess(m[i], m[j]); }
  }

  /* ---------- peers ---------- */

  /** When normalising changes nothing any more, the peers after the lists of a merge are the own and the remote ones,
      the source and the remote's public URL, without the own one. */
  lemma MergedPeers(peers: seq<string>, own: string, remotePeers: seq<string>, remotePublic: string, source: string)
    requires StableUrl(own) && StableUrl(remotePublic) && StableUrl(source)
    requires Peers.AllStable(peers) && Peers.AllStable(remotePeers)
    ensures Elements(Peers.FromLists(peers, own, remotePeers, remotePublic, source)) ==
              Elements(peers) + Elements(remotePeers) + {remotePublic, source} - {own, ""}
  {
    hide NormalizeUrl, Elements, Peers.WithUrls, Peers.OwnRemoved;
    WithStableUrls([], remotePeers);
    var theirs := Peers.WithUrls([], remotePeers);
    WithoutOwn(theirs, remotePublic);
    var rest := Peers.OwnRemoved(theirs, remotePublic);
    WithStableUrls(peers, rest);
    var all := Peers.WithUrls(peers, rest);
    WithStableUrls(all, [source, remotePublic]);
    WithoutOwn(Peers.WithUrls(all, [source, remotePublic]), own);
    TwoElements(source, remotePublic);
    PeerSets(Elements(peers), Elements(remotePeers), remotePublic, source, own);
  }

  /** What the node loop adds to the peers for one remote entry: its control URL, unless the entry is skipped. */
  lemma NodePeer(key: string, n: ServerNode)
    ensures Peers.NodeUrl(key, n) == if n.id != "" || SanitizeId(key) != "" then NormalizeUrl(n.controlUrl) else ""
  {
    hide SanitizeId, NormalizeUrl;
  }

  lemma TwoElements(a: string, b: string)
    ensures Elements([a, b]) == {a, b} && Elements<string>([]) == {}
  {}

  lemma PeerSets(P: set<string>, R: set<string>, p: string, s: string, o: string)
    ensures P + ({} + R - {""} - {p}) - {""} + {s, p} - {""} - {o} == P + R + {p, s} - {o, ""}
  {}

  lemma WithStableUrls(peers: seq<string>, urls: seq<string>)
    requires Peers.AllStable(peers) && forall u :: u in urls ==> StableUrl(u)
    ensures Peers.AllStable(Peers.WithUrls(peers, urls))
    ensures Elements(Peers.WithUrls(peers, urls)) == Elements(peers) + Elements(urls) - {""}
  {
    assert Normalized(peers, NormalizeUrl) == Elements(peers);
    assert Normalized(urls, NormalizeUrl) == Elements(urls) - {""};
    var r := Peers.WithUrls(peers, urls);
    assert "" !in Elements(peers);
    assert forall u :: u in r ==> u in Elements(r);
    assert Elements(r) == Elements(peers) + Elements(urls) - {""};
  }

  lemma WithoutOwn(peers: seq<string>, own: string)
    requires Peers.AllStable(peers) && StableUrl(own)
    ensures Peers.AllStable(Peers.OwnRemoved(peers, own))
    ensures Elements(Peers.OwnRemoved(peers, own)) == Elements(peers) - {own}
  {
    WithoutUrlElements(peers, own);
    var r := Peers.OwnRemoved(peers, own);
    assert Normalized(peers, NormalizeUrl) == Elements(peers);
    assert "" !in Elements(peers);
    assert Elements(r) == Elements(peers) - {own};
    assert forall u :: u in r ==> u in Elements(r);
  }
}
