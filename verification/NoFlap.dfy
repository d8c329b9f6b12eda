/** Migration does not flap: while passes run under fixed scores, a client that follows its
    recommendation is never told to move again, whatever the other clients do
    (internal/control/service.go:415-427, 470-503, 731-782, cmd/frp-cluster/main.go:137-154). */
module NoFlap {
  import opened Text
  import opened Cluster
  import opened Counters
  import opened Migration
  import opened Preference
  import opened Steps
  import opened Runs
  import Sums
  import Tokens

  predicate TopScore(scores: map<string, int>, id: string) {
    id in scores && forall m <- scores :: scores[m] <= scores[id]
  }

  /** The node is offline or beaten by the gap. */
  ghost predicate Astray(nodeId: string, scores: map<string, int>, gap: int) {
    nodeId !in scores || Beaten(scores, nodeId, gap)
  }

  /** The client exists and its node is neither offline nor beaten. */
  ghost predicate Settled(st: State, id: string, scores: map<string, int>, gap: int) {
    id in st.clients && !Astray(st.clients[id].nodeId, scores, gap)
  }

  /** A target, recommended or set by a switch, is a node with the top score, and only an astray client
      has one that it has not reached. */
  ghost predicate Told(c: Client, scores: map<string, int>, gap: int) {
    c.migrationState.Idle?
    || (TopScore(scores, c.preferredNodeId) && (Astray(c.nodeId, scores, gap) || c.nodeId == c.preferredNodeId))
  }

  ghost predicate ToldIn(st: State, id: string, scores: map<string, int>, gap: int) {
    id in st.clients ==> Told(st.clients[id], scores, gap)
  }

  /* ---------- the steps of a run ---------- */

  /** If the step ends with an active pass, it is one under these scores and this gap. */
  ghost predicate Steady(st: State, t: Timed, scores: map<string, int>, gap: int) {
    var b := Before(st, t.op, t.now);
    Settles(st, t.op) && b.config.autoMigration && Scores(b.nodes, t.now) != map[] ==>
      Scores(b.nodes, t.now) == scores && EffectiveGap(b.config) == gap
  }

  /** The node to which the step directs the client by hand or by an automatic switch. */
  function Directed(st: State, t: Timed, id: string): Option<string> {
    match t.op
    case OpSetTarget(c, n) => if SanitizeId(c) == id && SetTargetError(st, c, n, t.now).None? then Some(SanitizeId(n)) else None
    case OpAutoSwitch(c, n, _) =>
      if SanitizeId(c) == id && SwitchError(st, SanitizeId(c), SanitizeId(n), t.now).None? then Some(SanitizeId(n)) else None
    case _ => None
  }

  /** Targets are set for this client only to carry out what it was told already, or cleared. */
  predicate CarriesOut(st: State, t: Timed, id: string) {
    match Directed(st, t, id)
    case None => true
    case Some(n) => n == "" || (id in st.clients && !st.clients[id].migrationState.Idle? && st.clients[id].preferredNodeId == n)
  }

  /** The step takes this client to another node. */
  predicate Moves(st: State, t: Timed, id: string) {
    var b := Before(st, t.op, t.now);
    id in st.clients && id in b.clients && b.clients[id].nodeId != st.clients[id].nodeId
  }

  /** If this client moves, it goes where it was told to go. */
  predicate Obeys(st: State, t: Timed, id: string) {
    Moves(st, t, id) ==>
      !st.clients[id].migrationState.Idle? && Before(st, t.op, t.now).clients[id].nodeId == st.clients[id].preferredNodeId
  }

  /** What the run demands of a step: steady passes, and a client `id` that stays or obeys.  Nothing is
      demanded of the other clients, of joins, leaves, heartbeats, or of when clients connect. */
  ghost predicate Calm(st: State, t: Timed, id: string, scores: map<string, int>, gap: int) {
    Steady(st, t, scores, gap) && CarriesOut(st, t, id) && Obeys(st, t, id)
  }

  /* ---------- a pass ---------- */

  lemma ScoresNonEmpty(nodes: map<string, ServerNode>, now: Time)
    ensures OnlineSet(nodes, now) != {} <==> Scores(nodes, now) != map[]
  {
    if n :| n in OnlineSet(nodes, now) {
      var id :| id in nodes && IsOnline(nodes[id], now) && Refreshed(nodes[id], now) == n;
      assert id in Scores(nodes, now);
    }
    if id :| id in Scores(nodes, now) {
      assert Refreshed(nodes[id], now) in OnlineSet(nodes, now);
    }
  }

  /** A pass moves nobody, and tells a client to move only if it is astray, to a node with the top score. */
  lemma PassTells(r: State, now: Time, id: string, scores: map<string, int>, gap: int)
    requires KeyedById(r) && id in r.clients && Told(r.clients[id], scores, gap)
    requires Active(r, now) ==> Scores(r.nodes, now) == scores && EffectiveGap(r.config) == gap
    ensures var s := Recommend(r, now);
            && id in s.clients && s.clients[id].nodeId == r.clients[id].nodeId && Told(s.clients[id], scores, gap)
            && (id in Announced(r, now) ==> Astray(r.clients[id].nodeId, scores, gap))
  {
    if Active(r, now) {
      if Follows(r.clients[id]) {
        AnyPassTells(r, now, id);
        PassDecides(r, now, id);
        AnnouncedAstray(r, now, id);
      } else {
        PassSkipsOthers(r, now, id);
      }
    }
  }

  /** Whatever a client's target was, an active pass over a followed client leaves it told. */
  lemma AnyPassTells(r: State, now: Time, id: string)
    requires KeyedById(r) && Active(r, now) && id in r.clients && Follows(r.clients[id])
    ensures Told(Recommend(r, now).clients[id], Scores(r.nodes, now), EffectiveGap(r.config))
  {
    BestIsBest(r.nodes, now);
    PassDecides(r, now, id);
  }

  lemma AnnouncedAstray(r: State, now: Time, id: string)
    requires KeyedById(r) && Active(r, now)
    ensures id in Announced(r, now) ==> Astray(r.clients[id].nodeId, Scores(r.nodes, now), EffectiveGap(r.config))
  {
    if id in Announced(r, now) {
      BestIsBest(r.nodes, now);
      var best, scores, c := BestNode(r.nodes, now), Scores(r.nodes, now), r.clients[id];
      if c.nodeId in scores {
        assert scores[best.id] - scores[c.nodeId] >= EffectiveGap(r.config);
      }
    }
  }

  lemma RecountKeepsScores(b: State, now: Time)
    ensures Scores(Recount(b).nodes, now) == Scores(b.nodes, now)
  {}

  lemma RecountKeepsTold(b: State, id: string, scores: map<string, int>, gap: int)
    ensures var r := Recount(b);
            && r.config == b.config && r.clients.Keys == b.clients.Keys
            && (id in b.clients ==> r.clients[id].nodeId == b.clients[id].nodeId
                                    && Told(r.clients[id], scores, gap) == Told(b.clients[id], scores, gap))
  {
    hide TopScore, Astray;
  }

  lemma SettleTells(b: State, now: Time, id: string, scores: map<string, int>, gap: int)
    requires KeyedById(b) && id in b.clients && Told(b.clients[id], scores, gap)
    requires b.config.autoMigration && Scores(b.nodes, now) != map[] ==> Scores(b.nodes, now) == scores && EffectiveGap(b.config) == gap
    ensures var s := Settle(b, now);
            && id in s.clients && s.clients[id].nodeId == b.clients[id].nodeId && Told(s.clients[id], scores, gap)
    ensures KeyedById(Recount(b)) && (id in Announced(Recount(b), now) ==> Astray(b.clients[id].nodeId, scores, gap))
  {
    RecountCounts(b);
    RecountKeepsScores(b, now);
    RecountKeepsTold(b, id, scores, gap);
    ScoresNonEmpty(Recount(b).nodes, now);
    hide Told, Astray, Scores, Recount, Recommend, OnlineSet;
    PassTells(Recount(b), now, id, scores, gap);
  }

  /* ---------- a step ---------- */

  /** What a step does to one client before the pass: it may direct it, or see it on a node. */
  lemma ClientBefore(st: State, t: Timed, id: string)
    requires KeyedById(st)
    ensures var b := Before(st, t.op, t.now);
            && (id in st.clients ==> id in b.clients)
            && (id in b.clients && id !in st.clients ==> b.clients[id].migrationState.Idle?)
            && (id in st.clients ==>
                  var c, d := st.clients[id], b.clients[id];
                  if Directed(st, t, id).Some?
                  then d.nodeId == c.nodeId && d.preferredNodeId == Directed(st, t, id).value
                       && d.migrationState == if Directed(st, t, id).value == "" then Idle else Manual
                  else d.migrationState == c.migrationState && d.preferredNodeId == c.preferredNodeId)
  {
    hide SanitizeId, TrimSpace, FirstNonEmpty, NormalizeUrl, Tokens.Consume, Measured;
    if t.op.OpPlugin? {
      SeenBefore(st.clients, EventClient(t.op.event), t.op.event, EventNode(t.op.node, t.op.event), t.now, id);
    }
  }

  lemma SeenBefore(clients: map<string, Client>, c: string, ev: PluginEvent, nodeId: string, now: Time, id: string)
    ensures var m := ObservedClients(clients, c, ev, nodeId, now);
            && (id in clients ==> id in m && m[id].migrationState == clients[id].migrationState
                                  && m[id].preferredNodeId == clients[id].preferredNodeId)
            && (id in m && id !in clients ==> m[id].migrationState.Idle?)
  {}

  lemma TopIsNotAstray(scores: map<string, int>, id: string, gap: int)
    requires TopScore(scores, id) && gap > 0
    ensures !Astray(id, scores, gap)
  {}

  lemma BeforeTells(st: State, t: Timed, id: string, scores: map<string, int>, gap: int)
    requires KeyedById(st) && gap > 0 && ToldIn(st, id, scores, gap) && CarriesOut(st, t, id) && Obeys(st, t, id)
    ensures var b := Before(st, t.op, t.now);
            && ToldIn(b, id, scores, gap) && (id in st.clients ==> id in b.clients)
            && (Moves(st, t, id) ==> !Settled(st, id, scores, gap) && Settled(b, id, scores, gap))
            && (Settled(st, id, scores, gap) ==> Settled(b, id, scores, gap))
  {
    ClientBefore(st, t, id);
    if Moves(st, t, id) { TopIsNotAstray(scores, st.clients[id].preferredNodeId, gap); }
    hide Before, TopScore, Astray, Directed;
  }

  /** A calm step moves the client only if it was astray, and then settles it; a settled client stays
      settled, and the closing pass tells it nothing. */
  lemma CalmStep(st: State, t: Timed, id: string, scores: map<string, int>, gap: int)
    requires KeyedById(st) && gap > 0 && ToldIn(st, id, scores, gap) && Calm(st, t, id, scores, gap)
    ensures var r := Apply(st, t.op, t.now);
            && ToldIn(r, id, scores, gap)
            && (Moves(st, t, id) ==> !Settled(st, id, scores, gap) && Settled(r, id, scores, gap))
            && (Settled(st, id, scores, gap) ==> Settled(r, id, scores, gap) && !Advises(st, t, id))
  {
    var b := Before(st, t.op, t.now);
    BeforeKeyed(st, t.op, t.now);
    BeforeTells(st, t, id, scores, gap);
    if Settles(st, t.op) {
      hide Before, Told, Astray, Moves, Settle;
      SettleShape(b, t.now);
      if id in b.clients { SettleTells(b, t.now, id, scores, gap); }
    }
  }

  /** The step's closing pass recommends the client to move. */
  ghost predicate Advises(st: State, t: Timed, id: string)
    requires KeyedById(st)
  {
    Settles(st, t.op) &&
    (BeforeKeyed(st, t.op, t.now);
     RecountCounts(Before(st, t.op, t.now));
     id in Announced(Recount(Before(st, t.op, t.now)), t.now))
  }

  /* ---------- runs ---------- */

  ghost predicate CalmRun(st: State, steps: seq<Timed>, id: string, scores: map<string, int>, gap: int)
    requires KeyedById(st)
  {
    forall i :: 0 <= i < |steps| ==> Calm(Run(st, steps[..i]), steps[i], id, scores, gap)
  }

  /** How often the client moves in the run. */
  ghost function MoveCount(st: State, steps: seq<Timed>, id: string): nat
    requires KeyedById(st)
  {
    if steps == [] then 0
    else MoveCount(st, steps[..|steps| - 1], id) + if Moves(Run(st, steps[..|steps| - 1]), steps[|steps| - 1], id) then 1 else 0
  }

  /** The moves that a client has ahead of it at most. */
  ghost function Ahead(st: State, id: string, scores: map<string, int>, gap: int): nat {
    if Settled(st, id, scores, gap) then 0 else 1
  }

  lemma CalmPrefix(st: State, steps: seq<Timed>, n: nat, id: string, scores: map<string, int>, gap: int)
    requires KeyedById(st) && CalmRun(st, steps, id, scores, gap) && n <= |steps|
    ensures CalmRun(st, steps[..n], id, scores, gap)
  {
    forall i | 0 <= i < n ensures Calm(Run(st, steps[..n][..i]), steps[..n][i], id, scores, gap) {
      assert steps[..n][..i] == steps[..i];
    }
  }

  /** Over any run, whatever the loads become and whatever others do: a client moves at most once, and
      only if it was not settled at the start; when it has moved it is settled. */
  lemma {:induction false} MovesBounded(st: State, steps: seq<Timed>, id: string, scores: map<string, int>, gap: int)
    requires KeyedById(st) && gap > 0 && ToldIn(st, id, scores, gap) && CalmRun(st, steps, id, scores, gap)
    ensures ToldIn(Run(st, steps), id, scores, gap)
    ensures MoveCount(st, steps, id) + Ahead(Run(st, steps), id, scores, gap) <= Ahead(st, id, scores, gap)
  {
    hide Calm, Settled, Moves, ToldIn;
    if steps != [] {
      var n := |steps| - 1;
      CalmPrefix(st, steps, n, id, scores, gap);
      MovesBounded(st, steps[..n], id, scores, gap);
      CalmStep(Run(st, steps[..n]), steps[n], id, scores, gap);
    }
  }

  ghost function MoveCounts(st: State, steps: seq<Timed>, ids: set<string>): map<string, int>
    requires KeyedById(st)
  {
    map id | id in ids :: MoveCount(st, steps, id)
  }

  ghost function Unsettled(st: State, ids: set<string>, scores: map<string, int>, gap: int): set<string> {
    set id | id in ids && !Settled(st, id, scores, gap)
  }

  lemma OneMoreCount(st: State, steps: seq<Timed>, ids: set<string>, id: string)
    requires KeyedById(st) && id in ids
    ensures Sums.Sum(MoveCounts(st, steps, ids)) == MoveCount(st, steps, id) + Sums.Sum(MoveCounts(st, steps, ids - {id}))
  {
    hide MoveCount;
    Sums.SumTake(MoveCounts(st, steps, ids), id);
    assert MoveCounts(st, steps, ids) - {id} == MoveCounts(st, steps, ids - {id});
  }

  lemma OneMoreClient(st: State, steps: seq<Timed>, ids: set<string>, id: string, scores: map<string, int>, gap: int)
    requires KeyedById(st) && id in ids
    ensures Sums.Sum(MoveCounts(st, steps, ids)) == MoveCount(st, steps, id) + Sums.Sum(MoveCounts(st, steps, ids - {id}))
    ensures |Unsettled(st, ids, scores, gap)| == |Unsettled(st, ids - {id}, scores, gap)| + Ahead(st, id, scores, gap)
  {
    hide MoveCount, Settled;
    OneMoreCount(st, steps, ids, id);
    hide MoveCounts;
    var all, others := Unsettled(st, ids, scores, gap), Unsettled(st, ids - {id}, scores, gap);
    assert all == if Settled(st, id, scores, gap) then others else others + {id};
  }

  /** All moves of a set of clients: at most one for each that was not settled at the start. */
  lemma {:induction false} TotalMovesBounded(st: State, steps: seq<Timed>, ids: set<string>, scores: map<string, int>, gap: int)
    requires KeyedById(st) && gap > 0
    requires forall id :: id in ids ==> ToldIn(st, id, scores, gap) && CalmRun(st, steps, id, scores, gap)
    ensures Sums.Sum(MoveCounts(st, steps, ids)) <= |Unsettled(st, ids, scores, gap)|
    decreases |ids|
  {
    hide ToldIn, CalmRun, MoveCount, Settled;
    if ids == {} {
      assert MoveCounts(st, steps, ids) == map[];
    } else {
      var id :| id in ids;
      TotalMovesBounded(st, steps, ids - {id}, scores, gap);
      MovesBounded(st, steps, id, scores, gap);
      OneMoreClient(st, steps, ids, id, scores, gap);
    }
  }

  lemma RunStep(st: State, steps: seq<Timed>, n: nat)
    requires KeyedById(st) && n < |steps|
    ensures Run(st, steps[..n + 1]) == Apply(Run(st, steps[..n]), steps[n].op, steps[n].now)
  {
    assert steps[..n + 1][..n] == steps[..n];
  }

  lemma StepAt(st: State, steps: seq<Timed>, id: string, scores: map<string, int>, gap: int, n: nat)
    requires KeyedById(st) && gap > 0 && ToldIn(st, id, scores, gap) && CalmRun(st, steps, id, scores, gap) && n < |steps|
    ensures var r := Run(st, steps[..n]);
            && (Moves(r, steps[n], id) ==> !Settled(r, id, scores, gap) && Settled(Run(st, steps[..n + 1]), id, scores, gap))
            && (Settled(r, id, scores, gap) ==> Settled(Run(st, steps[..n + 1]), id, scores, gap) && !Advises(r, steps[n], id))
  {
    hide Calm, Settled, Moves, ToldIn, Advises;
    CalmPrefix(st, steps, n, id, scores, gap);
    MovesBounded(st, steps[..n], id, scores, gap);
    CalmStep(Run(st, steps[..n]), steps[n], id, scores, gap);
    RunStep(st, steps, n);
  }

  /** A settled client stays settled through the rest of the run ... */
  lemma SettledForGood(st: State, steps: seq<Timed>, id: string, scores: map<string, int>, gap: int, i: nat, j: nat)
    requires KeyedById(st) && gap > 0 && ToldIn(st, id, scores, gap) && CalmRun(st, steps, id, scores, gap)
    requires i <= j <= |steps| && Settled(Run(st, steps[..i]), id, scores, gap)
    ensures Settled(Run(st, steps[..j]), id, scores, gap)
  {
    hide Settled, Moves, ToldIn, CalmRun, Advises, Run;
    var settled := (n: nat) => n <= |steps| && Settled(Run(st, steps[..n]), id, scores, gap);
    forall n: nat | i <= n < j && settled(n) ensures settled(n + 1) {
      StepAt(st, steps, id, scores, gap, n);
    }
    Persists(settled, i, j);
  }

  lemma {:induction false} Persists(p: nat -> bool, i: nat, j: nat)
    requires i <= j && p(i) && forall n: nat :: i <= n < j && p(n) ==> p(n + 1)
    ensures p(j)
  {
    if i < j {
      Persists(p, i, j - 1);
      assert p(j - 1 + 1);
    }
  }

  /** ... so after its move no later pass recommends the client to move, and it never moves again. */
  lemma NeverAgain(st: State, steps: seq<Timed>, id: string, scores: map<string, int>, gap: int, i: nat, j: nat)
    requires KeyedById(st) && gap > 0 && ToldIn(st, id, scores, gap) && CalmRun(st, steps, id, scores, gap)
    requires i < j < |steps| && Moves(Run(st, steps[..i]), steps[i], id)
    ensures Settled(Run(st, steps[..j]), id, scores, gap)
    ensures !Advises(Run(st, steps[..j]), steps[j], id) && !Moves(Run(st, steps[..j]), steps[j], id)
  {
    hide Settled, Moves, ToldIn, CalmRun, Advises;
    StepAt(st, steps, id, scores, gap, i);
    SettledForGood(st, steps, id, scores, gap, i + 1, j);
    StepAt(st, steps, id, scores, gap, j);
  }

  /* ---------- how a pending client gets to its target ---------- */

  /** A login can name exactly the non-empty sanitized nodes and clients. */
  lemma LoginReachesIff(node: string, client: string)
    ensures (exists raw, ev :: LogsIn(raw, ev, node, client)) <==>
            node != "" && client != "" && SanitizedId(node) && SanitizedId(client)
  {
    hide LogsIn, SanitizedId;
    if node != "" && client != "" && SanitizedId(node) && SanitizedId(client) { LoginExists(node, client); }
    forall raw, ev | LogsIn(raw, ev, node, client) ensures node != "" && client != "" && SanitizedId(node) && SanitizedId(client) {
      LoginNames(raw, ev, node, client);
    }
  }

  lemma LoginExists(node: string, client: string)
    requires node != "" && client != "" && SanitizedId(node) && SanitizedId(client)
    ensures LogsIn(node, PluginEvent(Login, "", client, "", node, "", "", 0), node, client)
  {
    SanitizedHasNoSpace(node);
    SanitizedHasNoSpace(client);
    SanitizeFixpoint(node);
    SanitizeFixpoint(client);
    hide SanitizeId, SanitizedId, TrimSpace;
  }

  lemma LoginNames(raw: string, ev: PluginEvent, node: string, client: string)
    requires LogsIn(raw, ev, node, client)
    ensures node != "" && client != "" && SanitizedId(node) && SanitizedId(client)
  {
    EventIds(raw, ev);
    SanitizeFixpoint(FirstNonEmpty([ev.clientId, ev.user, ev.remoteAddr]));
    hide SanitizeId, FirstNonEmpty;
  }

  predicate LogsIn(raw: string, ev: PluginEvent, node: string, client: string) {
    ev.op.Login? && EventNode(raw, ev) == node && EventClient(ev) == client
  }

  /** The login of a pending client at its target is a calm step that moves it and settles it. */
  lemma PendingCanMove(st: State, id: string, raw: string, ev: PluginEvent, now: Time, scores: map<string, int>, gap: int)
    requires KeyedById(st) && gap > 0 && id in st.clients && Told(st.clients[id], scores, gap)
    requires st.config.autoMigration ==> Scores(st.nodes, now) == scores && EffectiveGap(st.config) == gap
    requires !st.clients[id].migrationState.Idle? && st.clients[id].nodeId != st.clients[id].preferredNodeId
    requires LogsIn(raw, ev, st.clients[id].preferredNodeId, id) && st.clients[id].preferredNodeId in Scores(st.nodes, now)
    ensures var t := Timed(OpPlugin(raw, ev), now);
            Calm(st, t, id, scores, gap) && Moves(st, t, id) && Settled(Apply(st, t.op, t.now), id, scores, gap)
  {
    var t := Timed(OpPlugin(raw, ev), now);
    LoginEffect(st, id, raw, ev, now);
    TouchKeepsScores(st.nodes, st.clients[id].preferredNodeId, now);
    assert Calm(st, t, id, scores, gap) && Moves(st, t, id);
    hide Calm, Moves, Settled, Told;
    CalmStep(st, t, id, scores, gap);
  }

  /** After an active pass some calm step moves a followed client exactly when the pass left it pending, if
      its identifier and that of the best node are sanitized: the runs that nobody can continue with a move
      are those in which nobody is pending. */
  lemma CanMoveIff(r: State, id: string, now: Time)
    requires KeyedById(r) && Active(r, now) && id in r.clients && Follows(r.clients[id])
    requires id != "" && SanitizedId(id) && SanitizedId(BestNode(r.nodes, now).id)
    ensures var st := Recommend(r, now);
            && KeyedById(st) && id in st.clients
            && ((exists t: Timed :: Calm(st, t, id, Scores(r.nodes, now), EffectiveGap(r.config)) && Moves(st, t, id))
                <==> st.clients[id].migrationState.Pending?)
  {
    var st, scores, gap := Recommend(r, now), Scores(r.nodes, now), EffectiveGap(r.config);
    PassDecides(r, now, id);
    AnyPassTells(r, now, id);
    BestIsBest(r.nodes, now);
    if st.clients[id].migrationState.Pending? {
      var p := st.clients[id].preferredNodeId;
      LoginExists(p, id);
      PendingCanMove(st, id, p, PluginEvent(Login, "", id, "", p, "", "", 0), now, scores, gap);
    }
  }

  lemma LoginEffect(st: State, id: string, raw: string, ev: PluginEvent, now: Time)
    requires id in st.clients && LogsIn(raw, ev, st.clients[id].preferredNodeId, id)
    ensures var p := st.clients[id].preferredNodeId;
            var b := Before(st, OpPlugin(raw, ev), now);
            && b.nodes == Touched(st.nodes, p, now) && b.config == st.config
            && id in b.clients && b.clients[id].nodeId == p && b.clients[id].status.Connected?
  {}

  lemma TouchKeepsScores(nodes: map<string, ServerNode>, p: string, now: Time)
    requires p in Scores(nodes, now)
    ensures Scores(Touched(nodes, p, now), now) == Scores(nodes, now)
  {}

  /** Single selection keeps a pending client on its node while that is eligible ... */
  lemma PendingIsPinned(st: State, id: string, now: Time, exclude: seq<string>)
    requires KeyedById(st) && id in st.clients && st.clients[id].migrationState.Pending?
    requires HasNode(Eligible(OnlineSet(st.nodes, now), exclude), st.clients[id].nodeId) && st.clients[id].nodeId != ""
    ensures var S := Eligible(OnlineSet(st.nodes, now), exclude);
            && DistinctIds(S)
            && var r := Selection(S, Some(st.clients[id]), Single, 0);
               r.Ok? && |r.value| == 1 && r.value[0].id == st.clients[id].nodeId
  {
    OnlineIdsDistinct(st.nodes, now);
    SelectionPins(Eligible(OnlineSet(st.nodes, now), exclude), Some(st.clients[id]), Single, 0);
  }

  /** ... and the automatic switch of a candidate is a calm step that keeps its target and makes single
      selection serve that target. */
  lemma SwitchServesTarget(st: State, id: string, reason: string, now: Time, scores: map<string, int>, gap: int, exclude: seq<string>)
    requires KeyedById(st) && gap > 0 && id in st.clients && Told(st.clients[id], scores, gap)
    requires st.clients[id].migrationState.Pending? && SanitizedId(id)
    requires var p := st.clients[id].preferredNodeId;
             p in Scores(st.nodes, now) && SanitizedId(p) && p !in ExcludedIds(exclude)
    ensures var p := st.clients[id].preferredNodeId;
            var t := Timed(OpAutoSwitch(id, p, reason), now);
            var r := Apply(st, t.op, t.now);
            var S := Eligible(OnlineSet(r.nodes, now), exclude);
            && Calm(st, t, id, scores, gap) && HasManualTarget(r, id, p) && Told(r.clients[id], scores, gap)
            && DistinctIds(S) && Selection(S, Lookup(r.clients, id), Single, 0) == Ok([Refreshed(r.nodes[p], now)])
  {
    var p := st.clients[id].preferredNodeId;
    SanitizeFixpoint(id);
    SanitizeFixpoint(p);
    var t := Timed(OpAutoSwitch(id, p, reason), now);
    CalmStep(st, t, id, scores, gap);
    TargetSelected(Apply(st, t.op, t.now), id, p, now, exclude, Single, 0);
  }
}
