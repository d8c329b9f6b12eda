/** Migration recommendations (internal/control/service.go:731-782). */
module Migration {
  import opened Text
  import opened Cluster
  import opened Preference
  import Network

  function EffectiveGap(config: Config): int { if config.scoreGap <= 0 then 15 else config.scoreGap }

  /** The refreshed score of every online node. */
  function Scores(nodes: map<string, ServerNode>, now: Time): map<string, int> {
    map id | id in nodes && IsOnline(nodes[id], now) :: Network.Refresh(nodes[id].network, now).score
  }

  /** The most preferred online node. */
  ghost function BestNode(nodes: map<string, ServerNode>, now: Time): ServerNode
    requires NodesKeyed(nodes) && OnlineSet(nodes, now) != {}
  {
    OnlineIdsDistinct(nodes, now);
    RankingFacts(OnlineSet(nodes, now));
    Ranking(OnlineSet(nodes, now))[0]
  }

  predicate Follows(c: Client) { c.status.Connected? && c.nodeId != "" }

  predicate ShouldMigrate(c: Client, best: ServerNode, scores: map<string, int>, gap: int) {
    c.nodeId !in scores || (best.id != c.nodeId && best.network.score - scores[c.nodeId] >= gap)
  }

  function Reason(c: Client, best: ServerNode, scores: map<string, int>): string {
    if c.nodeId !in scores then "prefer node " + best.id + " because current node " + c.nodeId + " is offline"
    else "prefer node " + best.id + " score=" + Itoa(best.network.score) + " over " + c.nodeId + " score=" + Itoa(scores[c.nodeId])
  }

  predicate Recommended(c: Client, best: ServerNode, reason: string) {
    c.preferredNodeId == best.id && c.migrationState.Pending? && c.migrationReason == reason
  }

  predicate NoTarget(c: Client) { c.preferredNodeId == "" && c.migrationState.Idle? && c.migrationReason == "" }

  /** What the pass does to one client. */
  function Advise(c: Client, best: ServerNode, scores: map<string, int>, gap: int, now: Time): Client {
    if !Follows(c) then c
    else if ShouldMigrate(c, best, scores, gap) then
      var reason := Reason(c, best, scores);
      if Recommended(c, best, reason) then c
      else c.(preferredNodeId := best.id, migrationState := Pending, migrationReason := reason,
              migrationUpdatedAt := now, updatedAt := now)
    else if NoTarget(c) then c
    else c.(preferredNodeId := "", migrationState := Idle, migrationReason := "", migrationUpdatedAt := 0, updatedAt := now)
  }

  predicate Active(st: State, now: Time) { st.config.autoMigration && OnlineSet(st.nodes, now) != {} }

  /** The recommendation pass. */
  ghost function Recommend(st: State, now: Time): State
    requires KeyedById(st)
  {
    if !Active(st, now) then st
    else
      var best, scores := BestNode(st.nodes, now), Scores(st.nodes, now);
      st.(clients := map id | id in st.clients :: Advise(st.clients[id], best, scores, EffectiveGap(st.config), now))
  }

  /** The clients for which the pass logs a recommendation. */
  ghost function Announced(st: State, now: Time): set<string>
    requires KeyedById(st)
  {
    if !Active(st, now) then {}
    else
      var best, scores := BestNode(st.nodes, now), Scores(st.nodes, now);
      set id | id in st.clients && Follows(st.clients[id]) && ShouldMigrate(st.clients[id], best, scores, EffectiveGap(st.config))
               && !Recommended(st.clients[id], best, Reason(st.clients[id], best, scores))
  }

  /* ---------- what a pass establishes ---------- */

  /** The best node is online, no online node beats it, and `Scores` holds its score. */
  lemma BestIsBest(nodes: map<string, ServerNode>, now: Time)
    requires NodesKeyed(nodes) && OnlineSet(nodes, now) != {}
    ensures var b := BestNode(nodes, now);
            && b.id in Scores(nodes, now) && b.id != "" && Scores(nodes, now)[b.id] == b.network.score
            && (forall id <- Scores(nodes, now) :: Scores(nodes, now)[id] <= b.network.score)
            && (forall n :: n in OnlineSet(nodes, now) ==> n == b || Prefer(b, n))
  {
    var S := OnlineSet(nodes, now);
    OnlineIdsDistinct(nodes, now);
    RankingFacts(S);
    var b := BestNode(nodes, now);
    assert b in S;
    forall id | id in Scores(nodes, now) ensures Scores(nodes, now)[id] <= b.network.score {
      assert Refreshed(nodes[id], now) in S;
    }
    forall n | n in S ensures n == b || Prefer(b, n) {
      Sorting.HeadIsLeast(Prefer, S, Ranking(S), n);
    }
  }

  /** Some online node beats node `id` by the gap. */
  ghost predicate Beaten(scores: map<string, int>, id: string, gap: int)
    requires id in scores
  {
    exists m :: m in scores && scores[m] - scores[id] >= gap
  }

  /** After a pass with migration on and a node online, a client that is online on some node is
      pending exactly when that node is not online or some online node beats it by the gap; its
      target is then the most preferred online node and not its own, and otherwise it has no target. */
  lemma PassDecides(st: State, now: Time, id: string)
    requires KeyedById(st) && Active(st, now) && id in st.clients && Follows(st.clients[id])
    ensures var c := Recommend(st, now).clients[id];
            var scores := Scores(st.nodes, now);
            && (c.migrationState.Pending? <==> c.nodeId !in scores || Beaten(scores, c.nodeId, EffectiveGap(st.config)))
            && (c.migrationState.Pending? ==> c.preferredNodeId == BestNode(st.nodes, now).id && c.preferredNodeId != c.nodeId)
            && (!c.migrationState.Pending? ==> NoTarget(c))
            && c.nodeId == st.clients[id].nodeId
  {
    BestIsBest(st.nodes, now);
    var scores, best := Scores(st.nodes, now), BestNode(st.nodes, now);
    var c := st.clients[id];
    if c.nodeId in scores && ShouldMigrate(c, best, scores, EffectiveGap(st.config)) {
      assert Beaten(scores, c.nodeId, EffectiveGap(st.config)) by { assert scores[best.id] - scores[c.nodeId] >= EffectiveGap(st.config); }
    }
  }

  /** Clients that are offline or on no node are left alone. */
  lemma PassSkipsOthers(st: State, now: Time, id: string)
    requires KeyedById(st) && id in st.clients && !Follows(st.clients[id])
    ensures Recommend(st, now).clients[id] == st.clients[id]
  {}

  lemma AdviseIdempotent(c: Client, best: ServerNode, scores: map<string, int>, gap: int, now: Time)
    ensures var d := Advise(c, best, scores, gap, now);
            && Advise(d, best, scores, gap, now) == d
            && d.id == c.id && d.status == c.status && d.nodeId == c.nodeId
            && (Follows(d) && ShouldMigrate(d, best, scores, gap) ==> Recommended(d, best, Reason(d, best, scores)))
  {}

  /** A second pass at the same time changes nothing and logs nothing. */
  lemma PassIdempotent(st: State, now: Time)
    requires KeyedById(st)
    ensures KeyedById(Recommend(st, now))
    ensures Recommend(Recommend(st, now), now) == Recommend(st, now)
    ensures Announced(Recommend(st, now), now) == {}
  {
    var r := Recommend(st, now);
    if Active(st, now) {
      var best, scores, gap := BestNode(st.nodes, now), Scores(st.nodes, now), EffectiveGap(st.config);
      forall id | id in st.clients
        ensures Advise(r.clients[id], best, scores, gap, now) == r.clients[id] && r.clients[id].id == st.clients[id].id
        ensures id !in Announced(r, now)
      {
        AdviseIdempotent(st.clients[id], best, scores, gap, now);
      }
      assert Recommend(r, now).clients == r.clients;
    }
  }

  /** The time stamp of a recommendation is cleared with it, but one left by a cleared manual target stays. */
  lemma ClearedTimeIff(st: State, now: Time, id: string)
    requires KeyedById(st) && Active(st, now) && id in st.clients && Follows(st.clients[id])
    requires NoTarget(Recommend(st, now).clients[id])
    ensures Recommend(st, now).clients[id].migrationUpdatedAt == 0 <==>
            !NoTarget(st.clients[id]) || st.clients[id].migrationUpdatedAt == 0
  {
    BestIsBest(st.nodes, now);
  }

  /** While migration is on, a pass clears or overwrites the manual target of every followed client. */
  lemma PassDropsManual(st: State, now: Time, id: string)
    requires KeyedById(st) && id in st.clients && st.clients[id].migrationState.Manual?
    ensures Recommend(st, now).clients[id].migrationState.Manual? <==> !Active(st, now) || !Follows(st.clients[id])
  {}

  /** Scores differ by at most 79, so with a larger gap only clients on offline nodes are told to move. */
  lemma LargeGapOnlyOffline(st: State, now: Time, id: string)
    requires KeyedById(st) && Active(st, now) && EffectiveGap(st.config) > 79 && id in st.clients && Follows(st.clients[id])
    ensures Recommend(st, now).clients[id].migrationState.Pending? <==> st.clients[id].nodeId !in Scores(st.nodes, now)
  {
    PassDecides(st, now, id);
    var scores := Scores(st.nodes, now);
    forall n | n in scores ensures 21 <= scores[n] <= 100 {
      Network.RefreshIdempotent(st.nodes[n].network, now);
      Network.ScoreRange(st.nodes[n].network, now);
    }
  }
}
