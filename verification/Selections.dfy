/** What a selection returns, in terms of the nodes themselves (internal/control/service.go:192-284). */
module Selections {
  import opened Text
  import opened Cluster
  import opened Effects
  import opened Preference
  import opened Sorting
  import Network

  /* ---------- selections ---------- */

  /** The reporting nodes that no entry of the list excludes. */
  function Available(nodes: map<string, ServerNode>, exclude: seq<string>, now: Time): set<string> {
    set m | m in nodes && Reporting(nodes, m, now) && forall x :: x in exclude ==> SanitizeId(x) != m
  }

  /** The manual target of the client, else its current node, if that is available. */
  function Pin(client: Option<Client>, available: set<string>): Option<string> {
    if client.None? then None
    else if client.value.migrationState.Manual? && client.value.preferredNodeId in available then Some(client.value.preferredNodeId)
    else if client.value.nodeId in available then Some(client.value.nodeId)
    else None
  }

  function HowMany(mode: Mode, limit: int, available: nat): nat {
    if mode.Single? then 1 else if mode.Failover? && 0 < limit <= available then limit else available
  }

  lemma AvailableIds(nodes: map<string, ServerNode>, exclude: seq<string>, now: Time)
    requires NodesKeyed(nodes)
    ensures var S := Eligible(OnlineSet(nodes, now), exclude);
            && DistinctIds(S) && |S| == |Available(nodes, exclude, now)|
            && (forall id :: HasNode(S, id) <==> id in Available(nodes, exclude, now))
            && (forall n :: n in S ==> n.id in nodes && n == Refreshed(nodes[n.id], now))
  {
    OnlineIdsDistinct(nodes, now);
    var S, A := Eligible(OnlineSet(nodes, now), exclude), Available(nodes, exclude, now);
    hide Network.Refresh, SanitizeId;
    forall id ensures HasNode(S, id) <==> id in A {
      if id in A { assert Refreshed(nodes[id], now) in S; }
    }
    SameSize(S, A);
  }

  lemma {:induction false} SameSize(S: set<ServerNode>, A: set<string>)
    requires (forall n :: n in S ==> n.id in A) && (forall id :: id in A ==> HasNode(S, id)) && DistinctIds(S)
    ensures |S| == |A|
    decreases |A|
  {
    if id :| id in A {
      var n :| n in S && n.id == id;
      forall m | m in A - {id} ensures HasNode(S - {n}, m) {
        var k :| k in S && k.id == m;
        assert k in S - {n};
      }
      SameSize(S - {n}, A - {id});
    }
  }

  /** A selection is refused exactly when no node is available or for an unknown mode; else it has as many nodes as
      the mode asks for, all available, with their refreshed measurements, and none twice. */
  lemma SelectionOutcome(st: State, client: Option<Client>, mode: Mode, limit: int, exclude: seq<string>, now: Time)
    requires KeyedById(st)
    ensures var S, A := Eligible(OnlineSet(st.nodes, now), exclude), Available(st.nodes, exclude, now);
            && DistinctIds(S)
            && var r := Selection(S, client, mode, limit);
            && (r.Err? <==> A == {} || mode.OtherMode?) && (r.Err? ==> r.error == if A == {} then NoAvailableNode else UnsupportedMode)
            && (r.Ok? ==>
                  && |r.value| == HowMany(mode, limit, |A|)
                  && (forall i, j :: 0 <= i < j < |r.value| ==> r.value[i].id != r.value[j].id)
                  && (forall n :: n in r.value ==> n.id in A && n == Refreshed(st.nodes[n.id], now)))
  {
    var S, A := Eligible(OnlineSet(st.nodes, now), exclude), Available(st.nodes, exclude, now);
    AvailableIds(st.nodes, exclude, now);
    SelectionSound(S, client, mode, limit);
    EmptyToo(S, A);
    SelectionSize(S, client, mode, limit);
    hide Eligible, OnlineSet, Available, Network.Refresh, DistinctIds, Selection;
    var r := Selection(S, client, mode, limit);
    if r.Ok? {
      forall n | n in r.value ensures n.id in A && n == Refreshed(st.nodes[n.id], now) {
        assert n in Elements(r.value) && HasNode(S, n.id);
      }
    }
  }

  lemma EmptyToo(S: set<ServerNode>, A: set<string>)
    requires |S| == |A|
    ensures S == {} <==> A == {}
  {
    assert S == {} <==> |S| == 0;
    assert A == {} <==> |A| == 0;
  }

  lemma SelectionSize(S: set<ServerNode>, client: Option<Client>, mode: Mode, limit: int)
    requires DistinctIds(S)
    ensures var r := Selection(S, client, mode, limit);
            && (r.Ok? ==> |r.value| == HowMany(mode, limit, |S|)) && (r.Err? ==> r.error == if S == {} then NoAvailableNode else UnsupportedMode)
  {
    RankingFacts(S);
    if S != {} { assert |S| > 0; }
  }

  /** A node that is asked for alone, other than by aggregate, is the pinned one if there is one. */
  lemma PinnedOutcome(st: State, client: Option<Client>, mode: Mode, limit: int, exclude: seq<string>, now: Time)
    requires KeyedById(st) && (mode.Single? || mode.Failover?)
    requires var A := Available(st.nodes, exclude, now); HowMany(mode, limit, |A|) == 1 && Pin(client, A).Some?
    ensures var S, A := Eligible(OnlineSet(st.nodes, now), exclude), Available(st.nodes, exclude, now);
            && DistinctIds(S)
            && Selection(S, client, mode, limit) == Ok([Refreshed(st.nodes[Pin(client, A).value], now)])
  {
    var S, A := Eligible(OnlineSet(st.nodes, now), exclude), Available(st.nodes, exclude, now);
    SelectionOutcome(st, client, mode, limit, exclude, now);
    AvailableIds(st.nodes, exclude, now);
    PinsAre(st.nodes, S, client, A);
    EmptyToo(S, A);
    hide Eligible, OnlineSet, Available, Network.Refresh, DistinctIds, Selection, HasTarget, HasCurrent;
    SelectionPins(S, client, mode, limit);
    var list := Selection(S, client, mode, limit).value;
    assert list[0] in list && list == [list[0]];
  }

  /** The pin among the eligible nodes is the one by identifier. */
  lemma PinsAre(nodes: map<string, ServerNode>, S: set<ServerNode>, client: Option<Client>, A: set<string>)
    requires NodesKeyed(nodes) && (forall id :: HasNode(S, id) <==> id in A) && forall id :: id in A ==> id in nodes
    ensures Pin(client, A).Some? <==> HasTarget(S, client) || HasCurrent(S, client)
    ensures HasTarget(S, client) ==> Pin(client, A) == Some(client.value.preferredNodeId)
    ensures !HasTarget(S, client) && HasCurrent(S, client) ==> Pin(client, A) == Some(client.value.nodeId)
  {
    hide HasNode;
  }
}
