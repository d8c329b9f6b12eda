/** The state of one replica is what its history says: where a client is, whether a proxy is open, when a
    node was last seen and with which token it must report follow from the last step that speaks of it
    (internal/control/service.go:23-174, 286-351). */
module History {
  import opened Text
  import opened Cluster
  import opened Counters
  import opened Preference
  import opened Runs
  import opened Steps
  import Network
  import Tokens

  /* ---------- the last step that speaks of something ---------- */

  /** Something to be seen in a state, the steps that make it `x`, and those that end its being `x`. */
  datatype Fact<!X> = Fact(at: State -> Option<X>, sets: (State, Timed, X) -> bool, ends: (State, Timed, X) -> bool)

  /** It is `x` after a step exactly when the step makes it so, or it was so before and the step does not end it. */
  ghost predicate Persists<X(!new)>(f: Fact<X>) {
    forall st: State, s: Timed, x: X :: KeyedById(st) ==> Carried(f, st, s, x)
  }

  ghost predicate Carried<X>(f: Fact<X>, st: State, s: Timed, x: X)
    requires KeyedById(st)
  {
    f.at(Apply(st, s.op, s.now)) == Some(x) <==> f.sets(st, s, x) || (f.at(st) == Some(x) && !f.ends(st, s, x))
  }

  /** No step from the `k`-th on ended its being `x`. */
  ghost predicate NotEnded<X>(f: Fact<X>, st: State, steps: seq<Timed>, k: nat, x: X)
    requires KeyedById(st)
  {
    forall j: nat :: k <= j < |steps| ==> !f.ends(Run(st, steps[..j]), steps[j], x)
  }

  /** The last step that speaks of it made it `x`; or no step does, and it was `x` at the start. */
  ghost predicate LastSet<X(!new)>(f: Fact<X>, st: State, steps: seq<Timed>, x: X)
    requires KeyedById(st)
  {
    || (f.at(st) == Some(x) && NotEnded(f, st, steps, 0, x))
    || exists k: nat :: k < |steps| && f.sets(Run(st, steps[..k]), steps[k], x) && NotEnded(f, st, steps, k + 1, x)
  }

  /** So what is to be seen after any run is what the last step that speaks of it said. */
  lemma {:induction false} HistoryDecides<X(!new)>(f: Fact<X>, st: State, steps: seq<Timed>, x: X)
    requires KeyedById(st) && Persists(f)
    ensures f.at(Run(st, steps)) == Some(x) <==> LastSet(f, st, steps, x)
  {
    if steps != [] {
      var rest, s := steps[..|steps| - 1], steps[|steps| - 1];
      HistoryDecides(f, st, rest, x);
      assert Carried(f, Run(st, rest), s, x);
      LastSetStep(f, st, rest, s, x);
      assert steps == rest + [s];
    }
  }

  lemma NotEndedStep<X>(f: Fact<X>, st: State, rest: seq<Timed>, s: Timed, k: nat, x: X)
    requires KeyedById(st) && k <= |rest|
    ensures NotEnded(f, st, rest + [s], k, x) <==> NotEnded(f, st, rest, k, x) && !f.ends(Run(st, rest), s, x)
  {
    var steps := rest + [s];
    hide Run, KeyedById;
    assert steps[..|rest|] == rest && steps[|rest|] == s;
    forall j: nat | j < |rest| ensures steps[..j] == rest[..j] && steps[j] == rest[j] {}
  }

  lemma LastSetStep<X(!new)>(f: Fact<X>, st: State, rest: seq<Timed>, s: Timed, x: X)
    requires KeyedById(st)
    ensures LastSet(f, st, rest + [s], x) <==> f.sets(Run(st, rest), s, x) || (LastSet(f, st, rest, x) && !f.ends(Run(st, rest), s, x))
  {
    hide Run, Apply, KeyedById, NotEnded;
    var steps := rest + [s];
    assert steps[..|rest|] == rest && steps[|rest|] == s;
    NothingLeft(f, st, steps, x);
    forall k: nat | k <= |rest|
      ensures steps[..k] == rest[..k] && (k < |rest| ==> steps[k] == rest[k]) && (NotEnded(f, st, steps, k, x) <==> NotEnded(f, st, rest, k, x) && !f.ends(Run(st, rest), s, x))
    {
      NotEndedStep(f, st, rest, s, k, x);
    }
  }

  lemma NothingLeft<X>(f: Fact<X>, st: State, steps: seq<Timed>, x: X)
    requires KeyedById(st)
    ensures NotEnded(f, st, steps, |steps|, x)
  {}

  /* ---------- where a client is ---------- */

  /** The node on which the client is connected. */
  function ClientAt(st: State, c: string): Option<string> {
    if c in st.clients && st.clients[c].status.Connected? then Some(st.clients[c].nodeId) else None
  }

  /** The event shows the client connected. */
  predicate ShowsClient(op: Op, c: string) {
    op.OpPlugin? && (op.event.op.Login? || op.event.op.Ping? || op.event.op.NewProxy?) && EventClient(op.event) == c
  }

  predicate Places(op: Op, c: string, n: string) { ShowsClient(op, c) && EventNode(op.node, op.event) == n }

  predicate LogsOut(op: Op, c: string) { op.OpPlugin? && op.event.op.Logout? && EventClient(op.event) == c }

  predicate Leaves(st: State, op: Op, n: string) {
    op.OpLeave? && SanitizeId(op.node) == n && LeaveError(st, op.node, op.token, op.requireToken).None?
  }

  predicate Unplaces(st: State, op: Op, c: string, n: string) { ShowsClient(op, c) || LogsOut(op, c) || Leaves(st, op, n) }

  lemma SettleKeepsStatus(st: State, now: Time)
    requires KeyedById(st)
    ensures var r := Settle(st, now);
            && r.clients.Keys == st.clients.Keys && r.proxies == st.proxies && r.nodes.Keys == st.nodes.Keys
            && (forall c <- st.clients :: r.clients[c].status == st.clients[c].status && r.clients[c].nodeId == st.clients[c].nodeId)
            && (forall id <- st.nodes :: r.nodes[id].status == st.nodes[id].status && r.nodes[id].lastSeenAt == st.nodes[id].lastSeenAt
                                         && r.nodes[id].nodeToken == st.nodes[id].nodeToken)
  {
    SettleShape(st, now);
    forall c | c in st.clients ensures Settle(st, now).clients[c].status == st.clients[c].status
      && Settle(st, now).clients[c].nodeId == st.clients[c].nodeId
    {
      assert SameButTarget(Recount(st).clients[c], Settle(st, now).clients[c], now);
    }
  }

  /** Exactly these steps change where a client is: an event that shows it, its logout, and the leave of its node. */
  lemma ClientStepIff(st: State, op: Op, now: Time, c: string, n: string)
    requires KeyedById(st)
    ensures ClientAt(Apply(st, op, now), c) == Some(n) <==>
            Places(op, c, n) || (ClientAt(st, c) == Some(n) && !Unplaces(st, op, c, n))
  {
    BeforeKeyed(st, op, now);
    ClientBeforeIff(st, op, now, c, n);
    SettleKeepsStatus(Before(st, op, now), now);
  }

  lemma ClientBeforeIff(st: State, op: Op, now: Time, c: string, n: string)
    ensures ClientAt(Before(st, op, now), c) == Some(n) <==>
            Places(op, c, n) || (ClientAt(st, c) == Some(n) && !Unplaces(st, op, c, n))
  {
    BeforeShape(st, op, now);
    hide EventNode, EventClient, SanitizeId, FirstNonEmpty, TrimSpace, ProxyId;
  }

  function ClientFact(c: string): Fact<string> {
    Fact(st => ClientAt(st, c), (st, s: Timed, n) => Places(s.op, c, n), (st, s: Timed, n) => Unplaces(st, s.op, c, n))
  }

  /** After any run a client is connected to a node exactly when the last step that speaks of the client
      shows it there and the node has not left since. */
  lemma ClientHistory(st: State, steps: seq<Timed>, c: string, n: string)
    requires KeyedById(st)
    ensures ClientAt(Run(st, steps), c) == Some(n) <==> LastSet(ClientFact(c), st, steps, n)
  {
    hide Places, Unplaces, ClientAt, Apply;
    var f := ClientFact(c);
    forall r: State, s: Timed, x: string | KeyedById(r) ensures Carried(f, r, s, x) { ClientStepIff(r, s.op, s.now, c, x); }
    HistoryDecides(f, st, steps, n);
  }

  /* ---------- open proxies ---------- */

  datatype Place = Place(node: string, client: string)

  /** The node and the client of the proxy while it is open. */
  function ProxyAt(st: State, p: string): Option<Place> {
    if p in st.proxies && st.proxies[p].status.Open? then Some(Place(st.proxies[p].nodeId, st.proxies[p].clientId)) else None
  }

  /** The event is about this proxy of this client on this node. */
  predicate Concerns(op: Op, p: string, x: Place) {
    op.OpPlugin? && x == Place(EventNode(op.node, op.event), EventClient(op.event)) && ProxyId(x.node, x.client, op.event.proxyName) == p
  }

  predicate Opens(op: Op, p: string, x: Place) { Concerns(op, p, x) && op.event.op.NewProxy? }

  /** Another opening, the closing, or the leave of its node. */
  predicate Closes(st: State, op: Op, p: string, x: Place) {
    || (op.OpPlugin? && (op.event.op.NewProxy? || op.event.op.CloseProxy?)
        && Concerns(op, p, Place(EventNode(op.node, op.event), EventClient(op.event))))
    || Leaves(st, op, x.node)
  }

  lemma ProxyStepIff(st: State, op: Op, now: Time, p: string, x: Place)
    requires KeyedById(st)
    ensures ProxyAt(Apply(st, op, now), p) == Some(x) <==> Opens(op, p, x) || (ProxyAt(st, p) == Some(x) && !Closes(st, op, p, x))
  {
    BeforeKeyed(st, op, now);
    ProxyBeforeIff(st, op, now, p, x);
    SettleKeepsStatus(Before(st, op, now), now);
  }

  lemma ProxyBeforeIff(st: State, op: Op, now: Time, p: string, x: Place)
    ensures ProxyAt(Before(st, op, now), p) == Some(x) <==> Opens(op, p, x) || (ProxyAt(st, p) == Some(x) && !Closes(st, op, p, x))
  {
    BeforeShape(st, op, now);
    hide EventNode, EventClient, SanitizeId, FirstNonEmpty, TrimSpace, ProxyId;
  }

  function ProxyFact(p: string): Fact<Place> {
    Fact(st => ProxyAt(st, p), (st, s: Timed, x) => Opens(s.op, p, x), (st, s: Timed, x) => Closes(st, s.op, p, x))
  }

  /** After any run a proxy is open exactly when the last event about it opened it, and it is open on the
      node and for the client of that event; unless that node has left since. */
  lemma ProxyHistory(st: State, steps: seq<Timed>, p: string, x: Place)
    requires KeyedById(st)
    ensures ProxyAt(Run(st, steps), p) == Some(x) <==> LastSet(ProxyFact(p), st, steps, x)
  {
    hide Opens, Closes, ProxyAt, Apply;
    var f := ProxyFact(p);
    forall r: State, s: Timed, y: Place | KeyedById(r) ensures Carried(f, r, s, y) { ProxyStepIff(r, s.op, s.now, p, y); }
    HistoryDecides(f, st, steps, x);
  }

  /* ---------- nodes that report ---------- */

  /** When the node was seen last, while it has not left. */
  function SeenAt(st: State, id: string): Option<Time> {
    if id in st.nodes && st.nodes[id].status.Online? then Some(st.nodes[id].lastSeenAt) else None
  }

  predicate Joins(st: State, op: Op, now: Time, id: string) { op.OpJoin? && JoiningId(op.req) == id && JoinError(st, op.req, now).None? }

  /** An accepted join or heartbeat, or an event on a known node. */
  predicate Signs(st: State, op: Op, now: Time, id: string) {
    || Joins(st, op, now, id)
    || (op.OpHeartbeat? && SanitizeId(op.node) == id && HeartbeatError(st, op.node, op.beat).None?)
    || (op.OpPlugin? && EventNode(op.node, op.event) == id && id in st.nodes)
  }

  lemma SeenStepIff(st: State, op: Op, now: Time, id: string, t: Time)
    requires KeyedById(st)
    ensures SeenAt(Apply(st, op, now), id) == Some(t) <==>
            (Signs(st, op, now, id) && t == now) || (SeenAt(st, id) == Some(t) && !Signs(st, op, now, id) && !Leaves(st, op, id))
  {
    BeforeKeyed(st, op, now);
    SeenBeforeIff(st, op, now, id, t);
    SettleKeepsStatus(Before(st, op, now), now);
  }

  lemma SeenBeforeIff(st: State, op: Op, now: Time, id: string, t: Time)
    ensures SeenAt(Before(st, op, now), id) == Some(t) <==>
            (Signs(st, op, now, id) && t == now) || (SeenAt(st, id) == Some(t) && !Signs(st, op, now, id) && !Leaves(st, op, id))
  {
    BeforeShape(st, op, now);
    hide EventNode, EventClient, SanitizeId, FirstNonEmpty, TrimSpace, ProxyId, NormalizeUrl, Tokens.Consume, TokenError;
  }

  function SeenFact(id: string): Fact<Time> {
    Fact(st => SeenAt(st, id), (st, s: Timed, t) => Signs(st, s.op, s.now, id) && t == s.now,
         (st, s: Timed, t) => Signs(st, s.op, s.now, id) || Leaves(st, s.op, id))
  }

  lemma SeenHistory(st: State, steps: seq<Timed>, id: string, t: Time)
    requires KeyedById(st)
    ensures SeenAt(Run(st, steps), id) == Some(t) <==> LastSet(SeenFact(id), st, steps, t)
  {
    hide Signs, Leaves, SeenAt, Apply;
    var f := SeenFact(id);
    forall r: State, s: Timed, y: Time | KeyedById(r) ensures Carried(f, r, s, y) { SeenStepIff(r, s.op, s.now, id, y); }
    HistoryDecides(f, st, steps, t);
  }

  /** After any run a node can be selected exactly when its last sign is at most 90 seconds old and it has
      not left since. */
  lemma OnlineHistory(st: State, steps: seq<Timed>, id: string, now: Time)
    requires KeyedById(st)
    ensures (exists n :: n in OnlineSet(Run(st, steps).nodes, now) && n.id == id) <==>
            exists t :: now - t <= 90 * 1_000_000_000 && LastSet(SeenFact(id), st, steps, t)
  {
    var r := Run(st, steps);
    hide LastSet, Run, Network.Refresh;
    if n :| n in OnlineSet(r.nodes, now) && n.id == id {
      SeenHistory(st, steps, id, r.nodes[id].lastSeenAt);
    }
    if t :| now - t <= 90 * 1_000_000_000 && LastSet(SeenFact(id), st, steps, t) {
      SeenHistory(st, steps, id, t);
      assert Refreshed(r.nodes[id], now) in OnlineSet(r.nodes, now);
    }
  }

  /* ---------- node tokens ---------- */

  function TokenOf(st: State, id: string): Option<string> { if id in st.nodes then Some(st.nodes[id].nodeToken) else None }

  lemma TokenStepIff(st: State, op: Op, now: Time, id: string, token: string)
    requires KeyedById(st)
    ensures TokenOf(Apply(st, op, now), id) == Some(token) <==>
            (Joins(st, op, now, id) && op.nodeToken == token) || (TokenOf(st, id) == Some(token) && !Joins(st, op, now, id))
  {
    BeforeKeyed(st, op, now);
    TokenBeforeIff(st, op, now, id, token);
    SettleKeepsStatus(Before(st, op, now), now);
  }

  lemma TokenBeforeIff(st: State, op: Op, now: Time, id: string, token: string)
    ensures TokenOf(Before(st, op, now), id) == Some(token) <==>
            (Joins(st, op, now, id) && op.nodeToken == token) || (TokenOf(st, id) == Some(token) && !Joins(st, op, now, id))
  {
    BeforeShape(st, op, now);
    hide EventNode, EventClient, SanitizeId, FirstNonEmpty, TrimSpace, ProxyId, NormalizeUrl, Tokens.Consume, TokenError;
  }

  function TokenFact(id: string): Fact<string> {
    Fact(st => TokenOf(st, id), (st, s: Timed, t) => Joins(st, s.op, s.now, id) && s.op.nodeToken == t,
         (st, s: Timed, t) => Joins(st, s.op, s.now, id))
  }

  /** After any run a heartbeat is accepted exactly when it carries the token of the node's last accepted
      join, which is not empty; a leave also when it carries none and none is required. */
  lemma ReportAcceptedIff(st: State, steps: seq<Timed>, rawId: string, beat: Network.HeartbeatRequest, token: string, requireToken: bool)
    requires KeyedById(st)
    ensures var r, id := Run(st, steps), SanitizeId(rawId);
            && (HeartbeatError(r, rawId, beat).None? <==> beat.nodeToken != "" && LastSet(TokenFact(id), st, steps, beat.nodeToken))
            && (LeaveError(r, rawId, token, requireToken).None? <==>
                  if token == "" then id in r.nodes && !requireToken else LastSet(TokenFact(id), st, steps, token))
  {
    var id := SanitizeId(rawId);
    hide Apply, Joins, SanitizeId, Run;
    var f := TokenFact(id);
    forall r: State, s: Timed, y: string | KeyedById(r) ensures Carried(f, r, s, y) { TokenStepIff(r, s.op, s.now, id, y); }
    HistoryDecides(f, st, steps, beat.nodeToken);
    HistoryDecides(f, st, steps, token);
    hide LastSet;
  }
}
