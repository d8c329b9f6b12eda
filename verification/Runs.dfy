/** What every run of local steps on one replica keeps: the counters, a manual target, the uses of a
    join token and the traffic log. */
module Runs {
  import opened Text
  import opened Cluster
  import opened Counters
  import opened Migration
  import opened Preference
  import opened Steps
  import Network
  import Tokens
  import TrafficLog

  datatype Timed = Timed(op: Op, now: Time)

  ghost function Run(st: State, steps: seq<Timed>): (r: State)
    requires KeyedById(st)
    ensures KeyedById(r)
  {
    if steps == [] then st
    else Apply(Run(st, steps[..|steps| - 1]), steps[|steps| - 1].op, steps[|steps| - 1].now)
  }

  /* ---------- counters ---------- */

  predicate SameLoad(a: Client, b: Client) {
    a.status == b.status && a.nodeId == b.nodeId && a.proxyCount == b.proxyCount
  }

  /** Changing nothing but targets keeps the counters right. */
  lemma TargetsKeepCounts(st: State, clients: map<string, Client>)
    requires CountsOk(st) && clients.Keys == st.clients.Keys && forall id <- st.clients :: SameLoad(st.clients[id], clients[id])
    ensures CountsOk(st.(clients := clients))
  {
    forall n ensures ClientsOn(st.clients, n) == ClientsOn(clients, n) {
      forall c ensures c in ClientsOn(st.clients, n) <==> c in ClientsOn(clients, n) {
        if c in clients { assert SameLoad(st.clients[c], clients[c]); }
      }
    }
    forall id | id in clients ensures clients[id].proxyCount == |ProxiesOf(st.proxies, id)| {
      assert SameLoad(st.clients[id], clients[id]);
    }
  }

  /** Heartbeat, leave and plugin event end with right counters whatever they were before. */
  lemma SettleCounts(st: State, now: Time)
    requires KeyedById(st)
    ensures CountsOk(Settle(st, now))
  {
    hide CountsOk, ClientsOn, ProxiesOn, ProxiesOf, Recommend;
    RecountCounts(st);
    SettleShape(st, now);
    var r := Settle(st, now);
    forall id | id in r.clients ensures SameLoad(Recount(st).clients[id], r.clients[id]) {
      assert SameButTarget(Recount(st).clients[id], r.clients[id], now);
    }
    TargetsKeepCounts(Recount(st), r.clients);
  }

  predicate Unreferenced(st: State, id: string) { ClientsOn(st.clients, id) == {} && ProxiesOn(st.proxies, id) == {} }

  /** A join keeps the counters right exactly when the node is known or nobody is on it yet: a new
      node starts at zero even if clients already named it. */
  lemma JoinCountsIff(st: State, req: JoinRequest, nodeToken: string, now: Time)
    requires KeyedById(st) && CountsOk(st) && JoinError(st, req, now).None?
    ensures CountsOk(Join(st, req, nodeToken, now)) <==> JoiningId(req) in st.nodes || Unreferenced(st, JoiningId(req))
  {
    hide SanitizeId, TrimSpace, NormalizeUrl, Tokens.Consume;
    var id, r := JoiningId(req), Join(st, req, nodeToken, now);
    assert r.nodes == st.nodes[id := JoinedNode(st.nodes, req, nodeToken, now)];
    if CountsOk(r) && id !in st.nodes {
      assert id in r.nodes && r.nodes[id].clientCount == 0 && r.nodes[id].proxyCount == 0;
    }
  }

  /** Every local step keeps the counters right, a join under that condition. */
  lemma StepKeepsCounts(st: State, op: Op, now: Time)
    requires KeyedById(st) && CountsOk(st)
    requires op.OpJoin? && JoinError(st, op.req, now).None? ==> JoiningId(op.req) in st.nodes || Unreferenced(st, JoiningId(op.req))
    ensures CountsOk(Apply(st, op, now))
  {
    if Settles(st, op) {
      BeforeKeyed(st, op, now);
      SettleCounts(Before(st, op, now), now);
    } else {
      BeforeKeepsCounts(st, op, now);
    }
  }

  lemma BeforeKeepsCounts(st: State, op: Op, now: Time)
    requires KeyedById(st) && CountsOk(st) && !Settles(st, op)
    requires op.OpJoin? && JoinError(st, op.req, now).None? ==> JoiningId(op.req) in st.nodes || Unreferenced(st, JoiningId(op.req))
    ensures CountsOk(Before(st, op, now))
  {
    var b := Before(st, op, now);
    BeforeShape(st, op, now);
    if op.OpJoin? && JoinError(st, op.req, now).None? {
      JoinCountsIff(st, op.req, op.nodeToken, now);
    } else if op.OpSetTarget? || op.OpAutoSwitch? {
      TargetsOnly(st, op, now);
      TargetsKeepCounts(st, b.clients);
      assert b == st.(clients := b.clients);
    }
  }

  lemma TargetsOnly(st: State, op: Op, now: Time)
    requires op.OpSetTarget? || op.OpAutoSwitch?
    ensures Before(st, op, now).clients.Keys == st.clients.Keys
    ensures forall id <- st.clients :: SameLoad(st.clients[id], Before(st, op, now).clients[id])
  {}

  /** When a node leaves, none of its clients stays online and none of its proxies open. */
  lemma LeaveCascades(st: State, rawId: string, token: string, requireToken: bool, now: Time)
    requires KeyedById(st) && LeaveError(st, rawId, token, requireToken).None?
    ensures var r, id := Apply(st, OpLeave(rawId, token, requireToken), now), SanitizeId(rawId);
            && Unreferenced(r, id) && id in r.nodes
            && r.nodes[id].status.Offline? && r.nodes[id].clientCount == 0 && r.nodes[id].proxyCount == 0
  {
    BeforeKeyed(st, OpLeave(rawId, token, requireToken), now);
    DepartedEmpty(st, SanitizeId(rawId), now);
  }

  lemma DepartedEmpty(st: State, id: string, now: Time)
    requires id in st.nodes && KeyedById(Departed(st, id, now))
    ensures var r := Settle(Departed(st, id, now), now);
            && Unreferenced(r, id) && id in r.nodes
            && r.nodes[id].status.Offline? && r.nodes[id].clientCount == 0 && r.nodes[id].proxyCount == 0
  {
    hide Recommend;
    var d := Departed(st, id, now);
    SettleCounts(d, now);
    SettleShape(d, now);
    var r := Settle(d, now);
    forall c | c in r.clients && r.clients[c].nodeId == id ensures !r.clients[c].status.Connected? {
      assert SameButTarget(Recount(d).clients[c], r.clients[c], now);
    }
    assert ClientsOn(r.clients, id) == {} && ProxiesOn(r.proxies, id) == {};
  }

  /* ---------- manual targets ---------- */

  /** The step neither sets a target for the client nor switches migration on. */
  predicate LeavesTarget(op: Op, client: string) {
    match op
    case OpSetTarget(c, _) => SanitizeId(c) != client
    case OpAutoSwitch(c, _, _) => SanitizeId(c) != client
    case OpConfig(auto, _) => auto != Some(true)
    case _ => true
  }

  predicate HasManualTarget(st: State, client: string, target: string) {
    client in st.clients && st.clients[client].migrationState.Manual? && st.clients[client].preferredNodeId == target
  }

  lemma BeforeKeepsTarget(st: State, op: Op, now: Time, client: string, target: string)
    requires !st.config.autoMigration && HasManualTarget(st, client, target) && LeavesTarget(op, client)
    ensures HasManualTarget(Before(st, op, now), client, target) && !Before(st, op, now).config.autoMigration
  {
    BeforeShape(st, op, now);
    match op {
      case OpPlugin(node, event) =>
        SeenKeepsTarget(st.clients, EventClient(event), event, EventNode(node, event), now, client);
      case OpLeave(_, _, _) =>
      case _ =>
    }
  }

  lemma SeenKeepsTarget(clients: map<string, Client>, id: string, ev: PluginEvent, nodeId: string, now: Time, client: string)
    requires client in clients
    ensures var m := ObservedClients(clients, id, ev, nodeId, now);
            && client in m && m[client].migrationState == clients[client].migrationState
            && m[client].preferredNodeId == clients[client].preferredNodeId
  {}

  lemma StepKeepsTarget(st: State, op: Op, now: Time, client: string, target: string)
    requires KeyedById(st) && !st.config.autoMigration && HasManualTarget(st, client, target) && LeavesTarget(op, client)
    ensures HasManualTarget(Apply(st, op, now), client, target) && !Apply(st, op, now).config.autoMigration
  {
    BeforeKeyed(st, op, now);
    BeforeKeepsTarget(st, op, now, client, target);
    SettleShape(Before(st, op, now), now);
  }

  /** With migration off a manual target survives every run that does not re-target the client. */
  lemma {:induction false} RunKeepsTarget(st: State, steps: seq<Timed>, client: string, target: string)
    requires KeyedById(st) && !st.config.autoMigration && HasManualTarget(st, client, target)
    requires forall i :: 0 <= i < |steps| ==> LeavesTarget(steps[i].op, client)
    ensures HasManualTarget(Run(st, steps), client, target) && !Run(st, steps).config.autoMigration
  {
    if steps != [] {
      var rest := steps[..|steps| - 1];
      RunKeepsTarget(st, rest, client, target);
      StepKeepsTarget(Run(st, rest), steps[|steps| - 1].op, steps[|steps| - 1].now, client, target);
    }
  }

  /** ... and after it single and one-node failover return that target while it is online and not excluded. */
  lemma TargetIsServed(st: State, steps: seq<Timed>, client: string, target: string, now: Time, exclude: seq<string>,
                       mode: Mode, limit: int)
    requires KeyedById(st) && !st.config.autoMigration && HasManualTarget(st, client, target) && target != ""
    requires forall i :: 0 <= i < |steps| ==> LeavesTarget(steps[i].op, client)
    requires var r := Run(st, steps);
             && target in r.nodes && IsOnline(r.nodes[target], now) && target !in ExcludedIds(exclude)
             && (mode.Single? || (mode.Failover? && limit == 1))
    ensures var r := Run(st, steps);
            var S := Eligible(OnlineSet(r.nodes, now), exclude);
            && DistinctIds(S)
            && Selection(S, Lookup(r.clients, client), mode, limit) == Ok([Refreshed(r.nodes[target], now)])
  {
    RunKeepsTarget(st, steps, client, target);
    TargetSelected(Run(st, steps), client, target, now, exclude, mode, limit);
  }

  lemma TargetSelected(r: State, client: string, target: string, now: Time, exclude: seq<string>, mode: Mode, limit: int)
    requires KeyedById(r) && HasManualTarget(r, client, target) && target != ""
    requires target in r.nodes && IsOnline(r.nodes[target], now) && target !in ExcludedIds(exclude)
    requires mode.Single? || (mode.Failover? && limit == 1)
    ensures var S := Eligible(OnlineSet(r.nodes, now), exclude);
            && DistinctIds(S)
            && Selection(S, Lookup(r.clients, client), mode, limit) == Ok([Refreshed(r.nodes[target], now)])
  {
    OnlineIdsDistinct(r.nodes, now);
    var S, n := Eligible(OnlineSet(r.nodes, now), exclude), Refreshed(r.nodes[target], now);
    assert n in S && n.id == target && DistinctIds(S);
    assert HasTarget(S, Lookup(r.clients, client)) by { assert HasNode(S, target); }
    SelectionPins(S, Lookup(r.clients, client), mode, limit);
    var m := Selection(S, Lookup(r.clients, client), mode, limit).value;
    assert m[0] in S && m[0].id == n.id;
    assert m == [n];
  }

  /** An update that is refused for its gap can cost a client its manual target: exactly when it names the
      migration switch on, the next pass with a node online drops the target of a followed client. */
  lemma RefusedUpdateDropsTargetIff(st: State, auto: Option<bool>, gap: int, now: Time, client: string, target: string)
    requires KeyedById(st) && !st.config.autoMigration && HasManualTarget(st, client, target) && gap < 0
    requires Follows(st.clients[client]) && OnlineSet(st.nodes, now) != {}
    ensures var u := UpdateConfig(st, auto, Some(gap));
            KeyedById(u) && (HasManualTarget(Recommend(u, now), client, target) <==> auto != Some(true))
  {
    PassDropsManual(UpdateConfig(st, auto, Some(gap)), now, client);
  }

  /* ---------- join tokens ---------- */

  predicate Admits(st: State, op: Op, now: Time, value: string) {
    op.OpJoin? && op.req.token == value && JoinError(st, op.req, now).None?
  }

  /** The joins that a run lets in with the token `value`. */
  ghost function Admitted(st: State, steps: seq<Timed>, value: string): nat
    requires KeyedById(st)
  {
    if steps == [] then 0
    else
      var rest, last := steps[..|steps| - 1], steps[|steps| - 1];
      Admitted(st, rest, value) + if Admits(Run(st, rest), last.op, last.now, value) then 1 else 0
  }

  /** What a token promises: the uses left and the uses made add up, and the expiry stands. */
  predicate TokenKept(tokens: map<string, JoinToken>, value: string, uses: int, expiresAt: Time, admitted: nat) {
    if value in tokens
    then var t := tokens[value];
         t.usesLeft >= 0 && t.usesLeft + |t.usedBy| == uses && |t.usedBy| == admitted && t.expiresAt == expiresAt
    else admitted <= uses
  }

  lemma StepKeepsToken(st: State, op: Op, now: Time, value: string, uses: int, expiresAt: Time, admitted: nat)
    requires KeyedById(st) && TokenKept(st.tokens, value, uses, expiresAt, admitted)
    requires op.OpToken? ==> op.value != value
    ensures TokenKept(Apply(st, op, now).tokens, value, uses, expiresAt, admitted + if Admits(st, op, now, value) then 1 else 0)
    ensures Admits(st, op, now, value) ==> now < expiresAt
  {
    BeforeKeyed(st, op, now);
    BeforeKeepsToken(st, op, now, value, uses, expiresAt, admitted);
    SettleShape(Before(st, op, now), now);
  }

  lemma BeforeKeepsToken(st: State, op: Op, now: Time, value: string, uses: int, expiresAt: Time, admitted: nat)
    requires TokenKept(st.tokens, value, uses, expiresAt, admitted)
    requires op.OpToken? ==> op.value != value
    ensures TokenKept(Before(st, op, now).tokens, value, uses, expiresAt, admitted + if Admits(st, op, now, value) then 1 else 0)
    ensures Admits(st, op, now, value) ==> now < expiresAt
  {
    BeforeShape(st, op, now);
  }

  /** A token created with u uses admits at most u joins in any run, none at or after its expiry; while
      it exists, the uses left plus the number of its users is u. */
  lemma {:induction false} RunKeepsToken(st: State, steps: seq<Timed>, value: string, ttl: int, uses: int, created: Time)
    requires KeyedById(st)
    requires forall i :: 0 <= i < |steps| && steps[i].op.OpToken? ==> steps[i].op.value != value
    ensures var t := Tokens.NewToken(value, ttl, uses, created);
            var s0 := CreateToken(st, value, ttl, uses, created);
            && KeyedById(s0)
            && TokenKept(Run(s0, steps).tokens, value, t.usesLeft, t.expiresAt, Admitted(s0, steps, value))
            && Admitted(s0, steps, value) <= t.usesLeft
  {
    var t := Tokens.NewToken(value, ttl, uses, created);
    var s0 := CreateToken(st, value, ttl, uses, created);
    if steps != [] {
      var rest, last := steps[..|steps| - 1], steps[|steps| - 1];
      RunKeepsToken(st, rest, value, ttl, uses, created);
      StepKeepsToken(Run(s0, rest), last.op, last.now, value, t.usesLeft, t.expiresAt, Admitted(s0, rest, value));
    }
  }

  /** The nodes that a run lets in with the token `value`, in order. */
  ghost function AdmittedIds(st: State, steps: seq<Timed>, value: string): seq<string>
    requires KeyedById(st)
  {
    if steps == [] then []
    else
      var rest, last := steps[..|steps| - 1], steps[|steps| - 1];
      AdmittedIds(st, rest, value) + if Admits(Run(st, rest), last.op, last.now, value) then [SanitizeId(last.op.req.nodeId)] else []
  }

  /** The token is as created, but for its uses; or it was removed after its expiry. */
  predicate TokenLog(tokens: map<string, JoinToken>, value: string, uses: int, expiresAt: Time, created: Time, ids: seq<string>, last: Time) {
    if value in tokens then tokens[value] == JoinToken(value, uses - |ids|, expiresAt, created, ids) else last >= expiresAt
  }

  lemma StepKeepsTokenLog(st: State, op: Op, now: Time, value: string, uses: int, expiresAt: Time, created: Time, ids: seq<string>, last: Time)
    requires KeyedById(st) && TokenLog(st.tokens, value, uses, expiresAt, created, ids, last) && last <= now
    requires op.OpToken? ==> op.value != value
    ensures TokenLog(Apply(st, op, now).tokens, value, uses, expiresAt, created,
                     ids + if Admits(st, op, now, value) then [SanitizeId(op.req.nodeId)] else [], now)
  {
    BeforeKeyed(st, op, now);
    BeforeKeepsTokenLog(st, op, now, value, uses, expiresAt, created, ids, last);
    SettleShape(Before(st, op, now), now);
    hide SanitizeId, TrimSpace, NormalizeUrl, TokenLog, Before;
  }

  lemma BeforeKeepsTokenLog(st: State, op: Op, now: Time, value: string, uses: int, expiresAt: Time, created: Time, ids: seq<string>, last: Time)
    requires TokenLog(st.tokens, value, uses, expiresAt, created, ids, last) && last <= now
    requires op.OpToken? ==> op.value != value
    ensures TokenLog(Before(st, op, now).tokens, value, uses, expiresAt, created,
                     ids + if Admits(st, op, now, value) then [SanitizeId(op.req.nodeId)] else [], now)
  {
    hide SanitizeId, TrimSpace, NormalizeUrl;
    BeforeShape(st, op, now);
    assert ids + [] == ids;
  }

  lemma {:induction false} RunKeepsTokenLog(st: State, steps: seq<Timed>, value: string, ttl: int, uses: int, created: Time)
    requires KeyedById(st) && ClockForward(created, steps)
    requires forall i :: 0 <= i < |steps| && steps[i].op.OpToken? ==> steps[i].op.value != value
    ensures var s0 := CreateToken(st, value, ttl, uses, created);
            && KeyedById(s0)
            && TokenLog(Run(s0, steps).tokens, value, if uses > 0 then uses else 1,
                        created + (if ttl > 0 then ttl else 2 * 60 * 60 * 1_000_000_000), created,
                        AdmittedIds(s0, steps, value), LastTime(created, steps))
  {
    hide Apply, TokenLog;
    CreatedTokenLog(st, value, ttl, uses, created);
    if steps != [] {
      var rest, last := steps[..|steps| - 1], steps[|steps| - 1];
      RunKeepsTokenLog(st, rest, value, ttl, uses, created);
      var s0 := CreateToken(st, value, ttl, uses, created);
      StepKeepsTokenLog(Run(s0, rest), last.op, last.now, value, if uses > 0 then uses else 1,
                        created + (if ttl > 0 then ttl else 2 * 60 * 60 * 1_000_000_000), created,
                        AdmittedIds(s0, rest, value), LastTime(created, rest));
    }
  }

  lemma CreatedTokenLog(st: State, value: string, ttl: int, uses: int, created: Time)
    ensures TokenLog(CreateToken(st, value, ttl, uses, created).tokens, value, if uses > 0 then uses else 1,
                     created + (if ttl > 0 then ttl else 2 * 60 * 60 * 1_000_000_000), created, [], created)
  {}

  /** After any run under a clock that does not go back, a join with the token is let in exactly when it has an
      identifier and an address, the token's life is not over, and fewer nodes were let in than it has uses. */
  lemma AdmittedIff(st: State, steps: seq<Timed>, value: string, ttl: int, uses: int, created: Time, req: JoinRequest, now: Time)
    requires KeyedById(st) && ClockForward(created, steps) && LastTime(created, steps) <= now && req.token == value
    requires forall i :: 0 <= i < |steps| && steps[i].op.OpToken? ==> steps[i].op.value != value
    ensures var s0 := CreateToken(st, value, ttl, uses, created);
            && KeyedById(s0)
            && (JoinError(Run(s0, steps), req, now).None? <==>
                  && SanitizeId(req.nodeId) != "" && TrimSpace(req.publicAddr) != ""
                  && now < created + (if ttl > 0 then ttl else 2 * 60 * 60 * 1_000_000_000)
                  && |AdmittedIds(s0, steps, value)| < if uses > 0 then uses else 1)
  {
    RunKeepsTokenLog(st, steps, value, ttl, uses, created);
    hide SanitizeId, TrimSpace, Run, AdmittedIds;
  }

  /* ---------- traffic ---------- */

  predicate ServerStamped(op: Op) { op.OpHeartbeat? ==> op.beat.traffic.measuredAt == 0 }

  lemma StepKeepsLog(st: State, op: Op, last: Time, now: Time)
    requires KeyedById(st) && TrafficLog.LogOk(st.samples, last) && 0 < last <= now && ServerStamped(op)
    ensures TrafficLog.LogOk(Apply(st, op, now).samples, now)
  {
    BeforeKeyed(st, op, now);
    BeforeKeepsLog(st, op, last, now);
    SettleShape(Before(st, op, now), now);
  }

  lemma BeforeKeepsLog(st: State, op: Op, last: Time, now: Time)
    requires KeyedById(st) && TrafficLog.LogOk(st.samples, last) && 0 < last <= now && ServerStamped(op)
    ensures TrafficLog.LogOk(Before(st, op, now).samples, now)
  {
    BeforeShape(st, op, now);
    LogLater(st.samples, last, now);
    if op.OpHeartbeat? && Settles(st, op) {
      BeatKeepsLog(st, SanitizeId(op.node), op.beat, last, now);
    }
  }

  lemma LogLater(s: seq<TrafficSample>, last: Time, now: Time)
    requires TrafficLog.LogOk(s, last) && last <= now
    ensures TrafficLog.LogOk(s, now)
  {}

  lemma BeatKeepsLog(st: State, id: string, beat: Network.HeartbeatRequest, last: Time, now: Time)
    requires NodesKeyed(st.nodes) && id in st.nodes
    requires TrafficLog.LogOk(st.samples, last) && 0 < last <= now && beat.traffic.measuredAt == 0
    ensures TrafficLog.LogOk(Beat(st, id, beat, now).samples, now)
  {
    var reports := [TrafficLog.Report(id, beat.traffic, now)];
    assert reports[..0] == [];
    TrafficLog.RunKeepsLogOk(st.samples, last, reports);
    assert Beat(st, id, beat, now).samples == TrafficLog.RecordAll(st.samples, reports);
  }

  ghost predicate ClockForward(start: Time, steps: seq<Timed>) {
    && (forall i :: 0 <= i < |steps| ==> start <= steps[i].now)
    && (forall i, j :: 0 <= i < j < |steps| ==> steps[i].now <= steps[j].now)
  }

  function LastTime(start: Time, steps: seq<Timed>): Time {
    if steps == [] then start else steps[|steps| - 1].now
  }

  /** Every run of one replica with server-stamped traffic keeps the sample log in order, a minute apart
      per node, with deltas that telescope (TrafficLog.DeltasTelescope). */
  lemma {:induction false} RunKeepsLog(st: State, start: Time, steps: seq<Timed>)
    requires KeyedById(st) && TrafficLog.LogOk(st.samples, start) && 0 < start && ClockForward(start, steps)
    requires forall i :: 0 <= i < |steps| ==> ServerStamped(steps[i].op)
    ensures TrafficLog.LogOk(Run(st, steps).samples, LastTime(start, steps))
  {
    if steps != [] {
      var rest := steps[..|steps| - 1];
      RunKeepsLog(st, start, rest);
      StepKeepsLog(Run(st, rest), steps[|steps| - 1].op, LastTime(start, rest), steps[|steps| - 1].now);
    }
  }
}
