/** Replicas that write locally and merge each other's states in any order, late or repeatedly
    (internal/control/store.go:331-446, cmd/frp-cluster/main.go:203-241). */
module Gossip {
  import opened Text
  import opened Cluster
  import opened Counters
  import opened Replicas
  import opened Steps

  datatype Write = Write(key: Key, core: Core)

  /** A state together with all writes that went into it. */
  datatype Replica = Replica(state: State, absorbed: set<Write>)

  /** `mail` holds every state that was ever read from a replica and may still be merged somewhere. */
  datatype World = World(replicas: seq<Replica>, mail: set<Replica>, log: set<Write>)

  datatype Step = Local(at: nat, op: Op, now: Time) | Send(from: nat) | Deliver(to: nat, message: Replica, now: Time)

  function KeysOf(st: State): set<Key> {
    (set id | id in st.nodes :: NodeKey(id)) + (set id | id in st.clients :: ClientKey(id)) + (set id | id in st.proxies :: ProxyKey(id))
  }

  /** The writes of a local step: the registers it changed. */
  function Writes(st: State, r: State): set<Write> {
    set k | k in KeysOf(r) && Reg(r, k) != Reg(st, k) && Reg(r, k).Some? :: Write(k, Reg(r, k).value)
  }

  /** Local writes carry a time that no write anywhere had.  With `stable`, joining nodes have URLs that
      normalisation leaves alone once normalised. */
  ghost predicate Enabled(w: World, s: Step, stable: bool) {
    match s
    case Local(r, op, now) =>
      && r < |w.replicas| && (op.OpJoin? ==> op.nodeToken != "")
      && (stable && op.OpJoin? ==> StableUrl(NormalizeUrl(op.req.controlUrl)))
      && forall x :: x in w.log ==> At(x.core) != now
    case Send(r) => r < |w.replicas|
    case Deliver(r, m, _) => r < |w.replicas| && m in w.mail
  }

  /* ---------- the invariant ---------- */

  /** `o` is the latest write to `k` in `S`. */
  ghost predicate Latest(S: set<Write>, k: Key, o: Option<Core>) {
    match o
    case None => forall x :: x in S ==> x.key != k
    case Some(c) => Write(k, c) in S && forall x :: x in S && x.key == k ==> At(x.core) <= At(c)
  }

  /** No two different writes to one key at one time. */
  ghost predicate Functional(S: set<Write>) {
    forall x, y :: x in S && y in S && x.key == y.key && At(x.core) == At(y.core) ==> x == y
  }

  /** The entry is among the writes. */
  ghost predicate Held(S: set<Write>, k: Key, o: Option<Core>) { o.Some? ==> Write(k, o.value) in S }

  /** Every entry of the replica is one of the writes that it absorbed. */
  ghost predicate ReplicaOk(x: Replica, log: set<Write>, stable: bool) {
    && KeyedById(x.state) && TokensSet(x.state) && (stable ==> StableUrls(x.state)) && x.absorbed <= log
    && forall k :: Held(x.absorbed, k, Reg(x.state, k))
  }

  ghost predicate Inv(w: World, stable: bool) {
    && Functional(w.log)
    && (forall r :: 0 <= r < |w.replicas| ==> ReplicaOk(w.replicas[r], w.log, stable))
    && (forall m :: m in w.mail ==> ReplicaOk(m, w.log, stable))
  }

  lemma InvIsKeyed(w: World, stable: bool)
    requires Inv(w, stable)
    ensures WorldKeyed(w)
  {
    forall r | 0 <= r < |w.replicas| ensures KeyedById(w.replicas[r].state) { assert ReplicaOk(w.replicas[r], w.log, stable); }
    forall m | m in w.mail ensures KeyedById(m.state) { assert ReplicaOk(m, w.log, stable); }
  }

  ghost predicate WorldKeyed(w: World) {
    && (forall r :: 0 <= r < |w.replicas| ==> KeyedById(w.replicas[r].state))
    && (forall m :: m in w.mail ==> KeyedById(m.state))
  }

  ghost function Next(w: World, s: Step, stable: bool): World
    requires WorldKeyed(w) && Enabled(w, s, stable)
  {
    match s
    case Local(r, op, now) =>
      var x := w.replicas[r];
      var st := Apply(x.state, op, now);
      var written := Writes(x.state, st);
      w.(replicas := w.replicas[r := Replica(st, x.absorbed + written)], log := w.log + written)
    case Send(r) => w.(mail := w.mail + {w.replicas[r]})
    case Deliver(r, m, now) =>
      var x := w.replicas[r];
      w.(replicas := w.replicas[r := Replica(MergeState(x.state, m.state, now), x.absorbed + m.absorbed)])
  }

  lemma LatestJoins(S: set<Write>, T: set<Write>, log: set<Write>, k: Key, a: Option<Core>, b: Option<Core>)
    requires Functional(log) && S <= log && T <= log && Latest(S, k, a) && Latest(T, k, b)
    ensures Latest(S + T, k, Later(a, b))
  {}

  lemma WritesFacts(st: State, r: State, now: Time)
    requires Stamped(st, r, now)
    ensures forall x :: x in Writes(st, r) ==> At(x.core) == now && Reg(r, x.key) == Some(x.core) && Reg(st, x.key) != Some(x.core)
    ensures forall k :: Reg(r, k) != Reg(st, k) ==> Reg(r, k).Some? && Write(k, Reg(r, k).value) in Writes(st, r)
  {
    forall k | Reg(r, k) != Reg(st, k) ensures Reg(r, k).Some? && Write(k, Reg(r, k).value) in Writes(st, r) {
      assert k in KeysOf(r);
    }
    forall x | x in Writes(st, r)
      ensures At(x.core) == now && Reg(r, x.key) == Some(x.core) && Reg(st, x.key) != Some(x.core)
    {
      var k :| k in KeysOf(r) && Reg(r, k) != Reg(st, k) && Reg(r, k).Some? && x == Write(k, Reg(r, k).value);
    }
  }

  lemma LocalKeepsReplica(x: Replica, log: set<Write>, op: Op, now: Time, stable: bool)
    requires ReplicaOk(x, log, stable) && (op.OpJoin? ==> op.nodeToken != "")
    requires stable && op.OpJoin? ==> StableUrl(NormalizeUrl(op.req.controlUrl))
    ensures var st := Apply(x.state, op, now);
            var written := Writes(x.state, st);
            && ReplicaOk(Replica(st, x.absorbed + written), log + written, stable)
            && forall y :: y in written ==> At(y.core) == now
  {
    var st := Apply(x.state, op, now);
    var written := Writes(x.state, st);
    StepStamps(x.state, op, now);
    StepKeepsTokensSet(x.state, op, now);
    if stable { StepKeepsStableUrls(x.state, op, now); }
    WritesFacts(x.state, st, now);
    forall k ensures Held(x.absorbed + written, k, Reg(st, k)) {
      assert Held(x.absorbed, k, Reg(x.state, k));
    }
  }

  lemma FreshFunctional(log: set<Write>, st: State, r: State, now: Time)
    requires Functional(log) && Stamped(st, r, now) && forall x :: x in log ==> At(x.core) != now
    ensures Functional(log + Writes(st, r))
  {
    WritesFacts(st, r, now);
  }

  lemma LargerLog(x: Replica, log: set<Write>, more: set<Write>, stable: bool)
    requires ReplicaOk(x, log, stable) && log <= more
    ensures ReplicaOk(x, more, stable)
  {
    forall k ensures Held(x.absorbed, k, Reg(x.state, k)) {}
  }

  lemma DeliverKeepsReplica(x: Replica, m: Replica, log: set<Write>, now: Time, stable: bool)
    requires Functional(log) && ReplicaOk(x, log, stable) && ReplicaOk(m, log, stable)
    ensures ReplicaOk(Replica(MergeState(x.state, m.state, now), x.absorbed + m.absorbed), log, stable)
  {
    MergeKeepsTokensSet(x.state, m.state, now);
    if stable { MergeKeepsStableUrls(x.state, m.state, now); }
    forall k ensures Held(x.absorbed + m.absorbed, k, Reg(MergeState(x.state, m.state, now), k)) {
      MergeIsLater(x.state, m.state, now, k);
      assert Held(x.absorbed, k, Reg(x.state, k)) && Held(m.absorbed, k, Reg(m.state, k));
    }
  }

  lemma LocalKeepsInv(w: World, r: nat, op: Op, now: Time, stable: bool)
    requires Inv(w, stable) && Enabled(w, Local(r, op, now), stable)
    ensures WorldKeyed(w) && Inv(Next(w, Local(r, op, now), stable), stable)
  {
    InvIsKeyed(w, stable);
    var x := w.replicas[r];
    assert ReplicaOk(x, w.log, stable);
    var st := Apply(x.state, op, now);
    var log := w.log + Writes(x.state, st);
    LocalKeepsReplica(x, w.log, op, now, stable);
    StepStamps(x.state, op, now);
    FreshFunctional(w.log, x.state, st, now);
    forall i | 0 <= i < |w.replicas| ensures ReplicaOk(w.replicas[i], log, stable) { LargerLog(w.replicas[i], w.log, log, stable); }
    forall m | m in w.mail ensures ReplicaOk(m, log, stable) { LargerLog(m, w.log, log, stable); }
  }

  /** Every step keeps it: each entry of each replica is a write that it absorbed. */
  lemma StepKeepsInv(w: World, s: Step, stable: bool)
    requires Inv(w, stable) && Enabled(w, s, stable)
    ensures WorldKeyed(w) && Inv(Next(w, s, stable), stable)
  {
    InvIsKeyed(w, stable);
    match s {
      case Local(r, op, now) => LocalKeepsInv(w, r, op, now, stable);
      case Send(r) =>
      case Deliver(r, m, now) => DeliverKeepsReplica(w.replicas[r], m, w.log, now, stable);
    }
  }

  /* ---------- runs ---------- */

  ghost predicate IsRun(worlds: seq<World>, steps: seq<Step>, stable: bool) {
    && |worlds| == |steps| + 1
    && forall i :: 0 <= i < |steps| ==>
         WorldKeyed(worlds[i]) && Enabled(worlds[i], steps[i], stable) && worlds[i + 1] == Next(worlds[i], steps[i], stable)
  }

  /** Empty replicas that have absorbed nothing. */
  predicate Initial(w: World) {
    w.mail == {} && w.log == {} && forall r :: 0 <= r < |w.replicas| ==>
      w.replicas[r].absorbed == {} && w.replicas[r].state.nodes == map[] && w.replicas[r].state.clients == map[]
      && w.replicas[r].state.proxies == map[]
  }

  lemma {:induction false} RunKeepsInv(worlds: seq<World>, steps: seq<Step>, stable: bool, i: nat)
    requires IsRun(worlds, steps, stable) && Initial(worlds[0]) && i <= |steps|
    ensures Inv(worlds[i], stable)
  {
    if i > 0 {
      RunKeepsInv(worlds, steps, stable, i - 1);
      StepKeepsInv(worlds[i - 1], steps[i - 1], stable);
    }
  }

  lemma Agreement(x: Replica, y: Replica, log: set<Write>, stable: bool, k: Key)
    requires Functional(log) && ReplicaOk(x, log, stable) && ReplicaOk(y, log, stable)
    ensures Reg(x.state, k).Some? && Reg(y.state, k).Some? && At(Reg(x.state, k).value) == At(Reg(y.state, k).value)
            ==> Reg(x.state, k) == Reg(y.state, k)
    ensures Latest(x.absorbed, k, Reg(x.state, k)) && Latest(y.absorbed, k, Reg(y.state, k)) && x.absorbed == y.absorbed
            ==> Reg(x.state, k) == Reg(y.state, k)
  {
    var c, d := Reg(x.state, k), Reg(y.state, k);
    assert Held(x.absorbed, k, c) && Held(y.absorbed, k, d);
    if c.Some? { assert Write(k, c.value) in log; }
    if d.Some? { assert Write(k, d.value) in log; }
  }

  /* ---------- the latest write ---------- */

  /** The replica holds, for every key, the latest write that it absorbed. */
  ghost predicate HoldsLatest(x: Replica) { forall k :: Latest(x.absorbed, k, Reg(x.state, k)) }

  ghost predicate AllLatest(w: World) { forall r :: 0 <= r < |w.replicas| ==> HoldsLatest(w.replicas[r]) }

  /** A local step changes an entry that carries a later time than its own. */
  ghost predicate OverwritesLater(w: World, s: Step)
    requires WorldKeyed(w)
  {
    s.Local? && s.at < |w.replicas| && exists k :: PutsBack(w.replicas[s.at].state, Apply(w.replicas[s.at].state, s.op, s.now), s.now, k)
  }

  predicate PutsBack(st: State, r: State, now: Time, k: Key) {
    Reg(r, k) != Reg(st, k) && Reg(st, k).Some? && At(Reg(st, k).value) > now
  }

  /** A local step keeps the latest write of a key exactly when it does not put the key back in time: a
      replica never compares its own time with the entry it overwrites. */
  lemma LocalKeepsLatestIff(x: Replica, log: set<Write>, stable: bool, op: Op, now: Time, k: Key)
    requires ReplicaOk(x, log, stable) && Latest(x.absorbed, k, Reg(x.state, k))
    ensures var st := Apply(x.state, op, now);
            Latest(x.absorbed + Writes(x.state, st), k, Reg(st, k)) <==> !PutsBack(x.state, st, now, k)
  {
    var st := Apply(x.state, op, now);
    StepStamps(x.state, op, now);
    WritesFacts(x.state, st, now);
    hide Apply, Reg, Writes;
    LatestIff(x.absorbed, Writes(x.state, st), k, Reg(x.state, k), Reg(st, k), now);
  }

  lemma LatestIff(S: set<Write>, written: set<Write>, k: Key, a: Option<Core>, b: Option<Core>, now: Time)
    requires Latest(S, k, a) && (forall x :: x in written ==> At(x.core) == now)
    requires if b == a then forall x :: x in written ==> x.key != k
             else b.Some? && Write(k, b.value) in written
    ensures Latest(S + written, k, b) <==> b == a || a.None? || At(a.value) <= now
  {
    hide At;
    if b != a && a.Some? { assert Write(k, a.value) in S + written; }
  }

  ghost predicate LatestInv(w: World) { AllLatest(w) && forall m :: m in w.mail ==> HoldsLatest(m) }

  lemma LocalKeepsHolds(x: Replica, log: set<Write>, stable: bool, op: Op, now: Time)
    requires ReplicaOk(x, log, stable) && HoldsLatest(x)
    ensures var st := Apply(x.state, op, now);
            HoldsLatest(Replica(st, x.absorbed + Writes(x.state, st))) <==> forall k :: !PutsBack(x.state, st, now, k)
  {
    hide Latest, Apply, Writes, PutsBack, Reg, Held, TokensSet, StableUrls;
    var st := Apply(x.state, op, now);
    forall k ensures Latest(x.absorbed + Writes(x.state, st), k, Reg(st, k)) <==> !PutsBack(x.state, st, now, k) {
      LocalKeepsLatestIff(x, log, stable, op, now, k);
    }
  }

  lemma DeliverKeepsHolds(x: Replica, m: Replica, log: set<Write>, now: Time, stable: bool)
    requires Functional(log) && ReplicaOk(x, log, stable) && ReplicaOk(m, log, stable) && HoldsLatest(x) && HoldsLatest(m)
    ensures HoldsLatest(Replica(MergeState(x.state, m.state, now), x.absorbed + m.absorbed))
  {
    hide Latest, MergeState, Reg, TokensSet, StableUrls, Held;
    forall k ensures Latest(x.absorbed + m.absorbed, k, Reg(MergeState(x.state, m.state, now), k)) {
      MergeIsLater(x.state, m.state, now, k);
      LatestJoins(x.absorbed, m.absorbed, log, k, Reg(x.state, k), Reg(m.state, k));
    }
  }

  /** A step keeps the latest writes everywhere exactly when it does not overwrite a later entry. */
  lemma StepKeepsLatestIff(w: World, s: Step, stable: bool)
    requires Inv(w, stable) && WorldKeyed(w) && Enabled(w, s, stable) && LatestInv(w)
    ensures !OverwritesLater(w, s) ==> LatestInv(Next(w, s, stable))
    ensures OverwritesLater(w, s) ==> !AllLatest(Next(w, s, stable))
  {
    hide HoldsLatest, ReplicaOk, Apply, Writes, PutsBack, MergeState;
    match s {
      case Local(r, op, now) =>
        assert ReplicaOk(w.replicas[r], w.log, stable);
        LocalKeepsHolds(w.replicas[r], w.log, stable, op, now);
        var x := Next(w, s, stable).replicas[r];
        assert OverwritesLater(w, s) ==> !HoldsLatest(x);
      case Send(r) =>
      case Deliver(r, m, now) => DeliverKeepsHolds(w.replicas[r], m, w.log, now, stable);
    }
  }

  lemma {:induction false} RunKeepsLatest(worlds: seq<World>, steps: seq<Step>, stable: bool, i: nat)
    requires IsRun(worlds, steps, stable) && Initial(worlds[0]) && i <= |steps|
    requires forall j :: 0 <= j < i ==> !OverwritesLater(worlds[j], steps[j])
    ensures LatestInv(worlds[i])
  {
    if i == 0 {
      forall r | 0 <= r < |worlds[0].replicas| ensures HoldsLatest(worlds[0].replicas[r]) {}
    } else {
      RunKeepsLatest(worlds, steps, stable, i - 1);
      RunKeepsInv(worlds, steps, stable, i - 1);
      StepKeepsLatestIff(worlds[i - 1], steps[i - 1], stable);
    }
  }

  /** In a run with fresh times every replica always holds the latest write it absorbed, for each key,
      exactly when no local step overwrites an entry with a later time than its own. */
  lemma RunLatestIff(worlds: seq<World>, steps: seq<Step>, stable: bool)
    requires IsRun(worlds, steps, stable) && Initial(worlds[0])
    ensures (forall i :: 0 <= i <= |steps| ==> AllLatest(worlds[i])) <==> (forall i :: 0 <= i < |steps| ==> !OverwritesLater(worlds[i], steps[i]))
  {
    hide AllLatest, OverwritesLater, Initial, Enabled, Next;
    if i :| 0 <= i < |steps| && OverwritesLater(worlds[i], steps[i]) {
      FirstOverwrite(worlds, steps, stable, i);
    } else {
      forall i | 0 <= i <= |steps| ensures AllLatest(worlds[i]) { RunKeepsLatest(worlds, steps, stable, i); }
    }
  }

  lemma {:induction false} FirstOverwrite(worlds: seq<World>, steps: seq<Step>, stable: bool, i: nat)
    requires IsRun(worlds, steps, stable) && Initial(worlds[0]) && i < |steps| && OverwritesLater(worlds[i], steps[i])
    ensures exists j :: 0 <= j <= |steps| && !AllLatest(worlds[j])
    decreases i
  {
    hide AllLatest, OverwritesLater, Initial, Enabled, Next;
    if j: nat :| j < i && OverwritesLater(worlds[j], steps[j]) {
      FirstOverwrite(worlds, steps, stable, j);
    } else {
      RunKeepsLatest(worlds, steps, stable, i);
      RunKeepsInv(worlds, steps, stable, i);
      StepKeepsLatestIff(worlds[i], steps[i], stable);
      assert !AllLatest(worlds[i + 1]);
    }
  }

  /** In every run two replicas that hold entries of one key and time hold the same entry, counters aside;
      as long as no step overwrote a later entry, replicas that absorbed the same writes agree. */
  lemma RunAgrees(worlds: seq<World>, steps: seq<Step>, stable: bool, i: nat, a: nat, b: nat, k: Key)
    requires IsRun(worlds, steps, stable) && Initial(worlds[0]) && i <= |steps|
    requires a < |worlds[i].replicas| && b < |worlds[i].replicas|
    ensures var x, y := worlds[i].replicas[a], worlds[i].replicas[b];
            && (Reg(x.state, k).Some? && Reg(y.state, k).Some? && At(Reg(x.state, k).value) == At(Reg(y.state, k).value)
                ==> Reg(x.state, k) == Reg(y.state, k))
            && ((forall j :: 0 <= j < i ==> !OverwritesLater(worlds[j], steps[j])) && x.absorbed == y.absorbed
                ==> Reg(x.state, k) == Reg(y.state, k))
  {
    RunKeepsInv(worlds, steps, stable, i);
    hide OverwritesLater, Initial, Enabled, Next;
    if forall j :: 0 <= j < i ==> !OverwritesLater(worlds[j], steps[j]) {
      RunKeepsLatest(worlds, steps, stable, i);
      assert HoldsLatest(worlds[i].replicas[a]) && HoldsLatest(worlds[i].replicas[b]);
    }
    Agreement(worlds[i].replicas[a], worlds[i].replicas[b], worlds[i].log, stable, k);
  }

  /* ---------- one exchange ---------- */

  /** syncPeer: pull and merge, then push the result, which the peer merges. */
  ghost function Pulled(a: State, b: State, now: Time): State
    requires KeyedById(a) && KeyedById(b)
  { MergeState(a, b, now) }

  ghost function Pushed(a: State, b: State, pulledAt: Time, now: Time): State
    requires KeyedById(a) && KeyedById(b)
  { MergeState(b, Pulled(a, b, pulledAt), now) }

  /** Two entries written at one time that are not the same. */
  predicate Clash(a: Option<Core>, b: Option<Core>) { a.Some? && b.Some? && At(a.value) == At(b.value) && a != b }

  /** For any two replicas whose nodes have tokens, an exchange makes an entry agree exactly when the two
      sides did not write it differently at one time. */
  lemma ExchangeAgreesIff(a: State, b: State, pulledAt: Time, now: Time, k: Key)
    requires KeyedById(a) && KeyedById(b) && TokensSet(a) && TokensSet(b)
    ensures Reg(Pulled(a, b, pulledAt), k) == Reg(Pushed(a, b, pulledAt, now), k) <==> !Clash(Reg(a, k), Reg(b, k))
  {
    MergeKeepsTokensSet(a, b, pulledAt);
    hide Reg, TokensSet, Later, Clash, At, KeyedById, CountsOk;
    MergeIsLater(a, b, pulledAt, k);
    MergeIsLater(b, Pulled(a, b, pulledAt), now, k);
    LaterTwice(Reg(a, k), Reg(b, k));
  }

  lemma LaterTwice(a: Option<Core>, b: Option<Core>)
    ensures Later(a, b) == Later(b, Later(a, b)) <==> !Clash(a, b)
  {}

  /** Both sides spell the node's control URL in one way, or the spelling to be copied is a stable one. */
  predicate SpelledAlike(a: map<string, ServerNode>, b: map<string, ServerNode>, id: string) {
    if id in a && id in b && a[id].updatedAt == b[id].updatedAt then a[id].controlUrl == b[id].controlUrl
    else if id in a && (id in b ==> a[id].updatedAt > b[id].updatedAt) then StableUrl(a[id].controlUrl)
    else id in b ==> StableUrl(b[id].controlUrl)
  }

  lemma ExchangeUrls(a: State, b: State, pulledAt: Time, now: Time, id: string)
    requires KeyedById(a) && KeyedById(b) && TokensSet(a) && TokensSet(b) && (id in a.nodes || id in b.nodes)
    ensures id in Pulled(a, b, pulledAt).nodes && id in Pushed(a, b, pulledAt, now).nodes
    ensures Pulled(a, b, pulledAt).nodes[id].controlUrl == Pushed(a, b, pulledAt, now).nodes[id].controlUrl
            <==> SpelledAlike(a.nodes, b.nodes, id)
  {
    MergeKeepsTokensSet(a, b, pulledAt);
    hide MergeState, NormalizeUrl, KeyedById, TokensSet, CountsOk;
    MergedUrl(a, b, pulledAt, id);
    MergedUrl(b, Pulled(a, b, pulledAt), now, id);
  }

  /** Without clashes clients and proxies are the same after an exchange, counters included, and the nodes
      are exactly when their control URLs are spelled alike. */
  lemma ExchangeEqualisesNodesIff(a: State, b: State, pulledAt: Time, now: Time)
    requires KeyedById(a) && KeyedById(b) && TokensSet(a) && TokensSet(b) && forall k :: !Clash(Reg(a, k), Reg(b, k))
    ensures var p, q := Pulled(a, b, pulledAt), Pushed(a, b, pulledAt, now);
            && p.clients == q.clients && p.proxies == q.proxies
            && (p.nodes == q.nodes <==> forall id :: SpelledAlike(a.nodes, b.nodes, id))
  {
    hide MergeState, Clash, Reg, TokensSet;
    var p, q := Pulled(a, b, pulledAt), Pushed(a, b, pulledAt, now);
    forall k ensures Reg(p, k) == Reg(q, k) { ExchangeAgreesIff(a, b, pulledAt, now, k); }
    RegistersDetermineUpToUrls(p, q);
    hide CountsOk, KeyedById, SpelledAlike;
    forall id ensures SpelledAlike(a.nodes, b.nodes, id) <==> (id in p.nodes ==> p.nodes[id].controlUrl == q.nodes[id].controlUrl) {
      ExchangedNode(a, b, pulledAt, now, id);
    }
  }

  lemma ExchangedNode(a: State, b: State, pulledAt: Time, now: Time, id: string)
    requires KeyedById(a) && KeyedById(b) && TokensSet(a) && TokensSet(b)
    ensures var p, q := Pulled(a, b, pulledAt), Pushed(a, b, pulledAt, now);
            && (id in p.nodes <==> id in q.nodes)
            && (SpelledAlike(a.nodes, b.nodes, id) <==> (id in p.nodes ==> p.nodes[id].controlUrl == q.nodes[id].controlUrl))
  {
    if id in a.nodes || id in b.nodes {
      ExchangeUrls(a, b, pulledAt, now, id);
    } else {
      MergeKeepsTokensSet(a, b, pulledAt);
      MergeIsLater(a, b, pulledAt, NodeKey(id));
      MergeIsLater(b, Pulled(a, b, pulledAt), now, NodeKey(id));
    }
  }

  /** Two replicas are the same after an exchange, counters included, exactly when no entry was written
      differently on both sides at one time and all control URLs are spelled alike. */
  lemma ExchangeEqualisesIff(a: State, b: State, pulledAt: Time, now: Time)
    requires KeyedById(a) && KeyedById(b) && TokensSet(a) && TokensSet(b)
    ensures var p, q := Pulled(a, b, pulledAt), Pushed(a, b, pulledAt, now);
            p.nodes == q.nodes && p.clients == q.clients && p.proxies == q.proxies
            <==> Reconcilable(a, b)
  {
    hide MergeState, Clash, TokensSet, SpelledAlike;
    var p, q := Pulled(a, b, pulledAt), Pushed(a, b, pulledAt, now);
    if p.nodes == q.nodes && p.clients == q.clients && p.proxies == q.proxies {
      forall k ensures !Clash(Reg(a, k), Reg(b, k)) { ExchangeAgreesIff(a, b, pulledAt, now, k); }
    }
    if forall k :: !Clash(Reg(a, k), Reg(b, k)) {
      ExchangeEqualisesNodesIff(a, b, pulledAt, now);
    }
  }

  /** No entry was written differently on both sides at one time, and all control URLs are spelled alike. */
  ghost predicate Reconcilable(a: State, b: State) {
    (forall k :: !Clash(Reg(a, k), Reg(b, k))) && forall id :: SpelledAlike(a.nodes, b.nodes, id)
  }

  /** After an undisturbed exchange both sides have the same registers, clients and proxies and right
      counters; their nodes are identical exactly when the control URLs are spelled alike, as they are
      when all URLs are stable. */
  lemma ExchangeConverges(worlds: seq<World>, steps: seq<Step>, stable: bool, i: nat, a: nat, b: nat, pulledAt: Time, now: Time)
    requires IsRun(worlds, steps, stable) && Initial(worlds[0]) && i <= |steps|
    requires a < |worlds[i].replicas| && b < |worlds[i].replicas|
    ensures var x, y := worlds[i].replicas[a].state, worlds[i].replicas[b].state;
            && KeyedById(x) && KeyedById(y)
            && var p, q := Pulled(x, y, pulledAt), Pushed(x, y, pulledAt, now);
            && CountsOk(p) && CountsOk(q) && (forall k :: Reg(p, k) == Reg(q, k))
            && p.clients == q.clients && p.proxies == q.proxies
            && (p.nodes == q.nodes <==> forall id :: SpelledAlike(x.nodes, y.nodes, id))
            && (stable ==> p.nodes == q.nodes)
  {
    RunKeepsInv(worlds, steps, stable, i);
    ExchangeOf(worlds[i].replicas[a], worlds[i].replicas[b], worlds[i].log, stable, pulledAt, now);
  }

  lemma ExchangeOf(x: Replica, y: Replica, log: set<Write>, stable: bool, pulledAt: Time, now: Time)
    requires Functional(log) && ReplicaOk(x, log, stable) && ReplicaOk(y, log, stable)
    ensures var p, q := Pulled(x.state, y.state, pulledAt), Pushed(x.state, y.state, pulledAt, now);
            && CountsOk(p) && CountsOk(q) && (forall k :: Reg(p, k) == Reg(q, k))
            && p.clients == q.clients && p.proxies == q.proxies
            && (p.nodes == q.nodes <==> forall id :: SpelledAlike(x.state.nodes, y.state.nodes, id))
            && (stable ==> p.nodes == q.nodes)
  {
    forall k ensures !Clash(Reg(x.state, k), Reg(y.state, k)) {
      Agreement(x, y, log, stable, k);
    }
    hide Reg, Clash, MergeState, CountsOk, SpelledAlike;
    forall k ensures Reg(Pulled(x.state, y.state, pulledAt), k) == Reg(Pushed(x.state, y.state, pulledAt, now), k) {
      ExchangeAgreesIff(x.state, y.state, pulledAt, now, k);
    }
    ExchangeEqualisesNodesIff(x.state, y.state, pulledAt, now);
    if stable {
      StableIsAlike(x.state, y.state);
    }
  }

  lemma StableIsAlike(a: State, b: State)
    requires StableUrls(a) && StableUrls(b) && forall k :: !Clash(Reg(a, k), Reg(b, k))
    ensures forall id :: SpelledAlike(a.nodes, b.nodes, id)
  {
    hide StableUrl, CanonicalUrl;
    forall id ensures SpelledAlike(a.nodes, b.nodes, id) {
      assert !Clash(Reg(a, NodeKey(id)), Reg(b, NodeKey(id)));
      if id in a.nodes && id in b.nodes {
        StableIsCanonical(a.nodes[id].controlUrl);
        StableIsCanonical(b.nodes[id].controlUrl);
      }
    }
  }
}
