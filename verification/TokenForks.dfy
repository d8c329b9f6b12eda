/** One join token admitting pairwise different nodes on several replicas: exactly when a merge hands uses
    back (internal/control/token.go:56-71, internal/control/store.go:371-387). */
module TokenForks {
  import opened Text
  import opened Cluster
  import opened Sorting
  import opened Tokens
  import opened TokenRuns

  /* ---------- what holds until uses come back ---------- */

  /** The uses taken from a copy. */
  function Taken(t: JoinToken, uses: int): int { uses - t.usesLeft }

  /** `depth` says for every node how many uses were taken from the copy that admitted it, its own included.
      A copy has the nodes of smaller depth only, and one of its very depth. */
  ghost predicate CopyOk(t: JoinToken, uses: int, expiresAt: Time, depth: map<string, int>) {
    var T, U := Taken(t, uses), Elements(t.usedBy);
    && t.expiresAt == expiresAt && Joiners(t.usedBy) && |U| == |t.usedBy|
    && 0 <= T <= uses && T <= |U| && (T == 1 ==> |U| == 1)
    && (forall x :: x in U ==> x in depth && 1 <= depth[x] <= T)
    && (T > 0 ==> exists x :: x in U && depth[x] == T)
  }

  /** A replica takes ever more uses from its copy, if it has one. */
  ghost predicate PlaceOk(js: seq<string>, c: Option<JoinToken>, clock: Time, uses: int, expiresAt: Time, depth: map<string, int>) {
    && (forall x :: x in js ==> x in depth)
    && (forall i, j :: 0 <= i < j < |js| ==> depth[js[i]] < depth[js[j]])
    && (c.None? ==> js == [] || clock >= expiresAt)
    && (c.Some? ==> CopyOk(c.value, uses, expiresAt, depth) && forall x :: x in js ==> depth[x] <= Taken(c.value, uses))
  }

  ghost predicate ForkInv(w: World, uses: int, expiresAt: Time, depth: map<string, int>) {
    && Sized(w) && depth.Keys == Elements(Flatten(w.joined))
    && (forall t :: t in w.mail ==> CopyOk(t, uses, expiresAt, depth))
    && (forall r :: 0 <= r < |w.copies| ==> PlaceOk(w.joined[r], w.copies[r], w.clocks[r], uses, expiresAt, depth))
  }

  lemma MergeKeepsCopy(c: JoinToken, t: JoinToken, uses: int, expiresAt: Time, depth: map<string, int>)
    requires CopyOk(c, uses, expiresAt, depth) && CopyOk(t, uses, expiresAt, depth)
    requires MergeToken(c, t).usesLeft <= c.usesLeft
    ensures CopyOk(MergeToken(c, t), uses, expiresAt, depth)
  {
    var m := MergeToken(c, t);
    if LooksNewer(t, c) {
      MergedUsers(c, t);
      var A, B := Elements(c.usedBy), Elements(t.usedBy);
      assert Elements(m.usedBy) == A + B && m.usesLeft == t.usesLeft;
      SubsetSize(B, A + B);
      if Taken(c, uses) == 0 { assert A == {} && A + B == B; }
    }
  }

  lemma UseKeepsCopy(c: JoinToken, n: string, uses: int, expiresAt: Time, depth: map<string, int>)
    requires CopyOk(c, uses, expiresAt, depth) && c.usesLeft > 0 && n !in depth && n != "" && SanitizedId(n)
    ensures CopyOk(Used(c, n), uses, expiresAt, depth[n := Taken(c, uses) + 1])
  {
    var d := Used(c, n);
    assert Elements(d.usedBy) == Elements(c.usedBy) + {n};
    assert n !in Elements(c.usedBy);
    if Taken(d, uses) == 1 { assert Elements(c.usedBy) == {}; }
    assert n in Elements(d.usedBy);
  }

  lemma DeeperCopy(c: JoinToken, n: string, k: int, uses: int, expiresAt: Time, depth: map<string, int>)
    requires CopyOk(c, uses, expiresAt, depth) && n !in depth
    ensures CopyOk(c, uses, expiresAt, depth[n := k])
  {
    var T, U := Taken(c, uses), Elements(c.usedBy);
    if T > 0 {
      var x :| x in U && depth[x] == T;
      assert depth[n := k][x] == T;
    }
  }

  lemma DeeperPlace(js: seq<string>, c: Option<JoinToken>, clock: Time, n: string, k: int, uses: int, expiresAt: Time, depth: map<string, int>)
    requires PlaceOk(js, c, clock, uses, expiresAt, depth) && n !in depth
    ensures PlaceOk(js, c, clock, uses, expiresAt, depth[n := k])
  {
    assert forall i :: 0 <= i < |js| ==> js[i] in js;
    if c.Some? { DeeperCopy(c.value, n, k, uses, expiresAt, depth); }
  }

  lemma PlaceJoins(js: seq<string>, c: JoinToken, clock: Time, now: Time, n: string, uses: int, expiresAt: Time, depth: map<string, int>)
    requires PlaceOk(js, Some(c), clock, uses, expiresAt, depth) && n !in depth && c.usesLeft > 0 && n != "" && SanitizedId(n)
    ensures PlaceOk(js + [n], Some(Used(c, n)), now, uses, expiresAt, depth[n := Taken(c, uses) + 1])
  {
    assert forall i :: 0 <= i < |js| ==> js[i] in js;
    UseKeepsCopy(c, n, uses, expiresAt, depth);
    hide CopyOk;
  }

  /** As long as the nodes differ and no uses come back, a step keeps the invariant. */
  lemma ForkStep(w: World, s: Step, uses: int, expiresAt: Time, depth: map<string, int>) returns (d: map<string, int>)
    requires ForkInv(w, uses, expiresAt, depth) && Enabled(w, s) && !Raises(w, s) && Repeats(Next(w, s).joined) == 0
    ensures ForkInv(Next(w, s), uses, expiresAt, d)
  {
    hide CopyOk, PlaceOk, Raises;
    d := depth;
    match s {
      case Admit(r, n, now) => d := ForkAdmit(w, r, n, now, uses, expiresAt, depth);
      case Send(r) => assert CopyOk(w.copies[r].value, uses, expiresAt, depth) by { PlaceCopy(w, r, uses, expiresAt, depth); }
      case Receive(r, t, now) => ForkReceive(w, r, t, now, uses, expiresAt, depth);
    }
  }

  /** What an attempt to join does. */
  lemma AdmitCases(w: World, r: nat, n: string, now: Time)
    requires Sized(w) && Enabled(w, Admit(r, n, now))
    ensures var v, c := Next(w, Admit(r, n, now)), w.copies[r];
            && v.mail == w.mail && v.clocks == w.clocks[r := now]
            && if v.joined == w.joined then v.copies == w.copies || (v.copies == w.copies[r := None] && c.Some? && Expired(c.value, now))
               else v.joined == w.joined[r := w.joined[r] + [n]] && c.Some? && c.value.usesLeft > 0 && v.copies == w.copies[r := Some(Used(c.value, n))]
  {
    assert w.copies[r := w.copies[r]] == w.copies;
    var js := w.joined[r];
    assert |js + [n]| != |js|;
    assert w.joined[r := js + [n]] != w.joined;
  }

  lemma ForkAdmit(w: World, r: nat, n: string, now: Time, uses: int, expiresAt: Time, depth: map<string, int>) returns (d: map<string, int>)
    requires ForkInv(w, uses, expiresAt, depth) && Enabled(w, Admit(r, n, now)) && Repeats(Next(w, Admit(r, n, now)).joined) == 0
    ensures ForkInv(Next(w, Admit(r, n, now)), uses, expiresAt, d)
  {
    AdmitCases(w, r, n, now);
    var v := Next(w, Admit(r, n, now));
    hide Next, CopyOk, PlaceOk, Elements, Flatten, Repeats, Joiners, Used, Expired;
    if v.joined != w.joined {
      d := ForkJoin(w, v, r, n, now, uses, expiresAt, depth);
    } else {
      d := depth;
      PlaceLater(w.joined[r], w.copies[r], v.copies[r], w.clocks[r], now, uses, expiresAt, depth);
    }
  }

  lemma PlaceLater(js: seq<string>, c: Option<JoinToken>, e: Option<JoinToken>, clock: Time, now: Time, uses: int, expiresAt: Time, depth: map<string, int>)
    requires PlaceOk(js, c, clock, uses, expiresAt, depth) && clock <= now
    requires e == c || (e == None && c.Some? && Expired(c.value, now))
    ensures PlaceOk(js, e, now, uses, expiresAt, depth)
  {}

  lemma ForkJoin(w: World, v: World, r: nat, n: string, now: Time, uses: int, expiresAt: Time, depth: map<string, int>) returns (d: map<string, int>)
    requires ForkInv(w, uses, expiresAt, depth) && r < |w.copies| && w.copies[r].Some? && Repeats(v.joined) == 0
    requires n != "" && SanitizedId(n) && w.copies[r].value.usesLeft > 0
    requires v == World(w.copies[r := Some(Used(w.copies[r].value, n))], w.clocks[r := now], w.mail, w.joined[r := w.joined[r] + [n]])
    ensures ForkInv(v, uses, expiresAt, d)
  {
    var c := w.copies[r].value;
    var k := Taken(c, uses) + 1;
    d := depth[n := k];
    JoinIsNew(w.joined, r, n, k, depth);
    hide CopyOk, PlaceOk, Flatten, Elements, Repeats, Used, Taken, SanitizedId;
    PlaceJoins(w.joined[r], c, w.clocks[r], now, n, uses, expiresAt, depth);
    Deeper(w, n, k, uses, expiresAt, depth);
    forall q | 0 <= q < |v.copies| ensures PlaceOk(v.joined[q], v.copies[q], v.clocks[q], uses, expiresAt, d) {
      if q != r { assert v.joined[q] == w.joined[q] && v.copies[q] == w.copies[q] && v.clocks[q] == w.clocks[q]; }
    }
  }

  lemma JoinIsNew(joined: seq<seq<string>>, r: nat, n: string, k: int, depth: map<string, int>)
    requires r < |joined| && Repeats(joined[r := joined[r] + [n]]) == 0 && depth.Keys == Elements(Flatten(joined))
    ensures n !in depth && depth[n := k].Keys == Elements(Flatten(joined[r := joined[r] + [n]]))
  {
    FlattenAppend(joined, r, n);
    ElementsAtMost(Flatten(joined));
    assert depth[n := k].Keys == depth.Keys + {n};
  }

  lemma Deeper(w: World, n: string, k: int, uses: int, expiresAt: Time, depth: map<string, int>)
    requires ForkInv(w, uses, expiresAt, depth) && n !in depth
    ensures forall t :: t in w.mail ==> CopyOk(t, uses, expiresAt, depth[n := k])
    ensures forall r :: 0 <= r < |w.copies| ==> PlaceOk(w.joined[r], w.copies[r], w.clocks[r], uses, expiresAt, depth[n := k])
  {
    hide CopyOk, PlaceOk, Flatten;
    forall t | CopyOk(t, uses, expiresAt, depth) ensures CopyOk(t, uses, expiresAt, depth[n := k]) {
      DeeperCopy(t, n, k, uses, expiresAt, depth);
    }
    forall q | 0 <= q < |w.copies| ensures PlaceOk(w.joined[q], w.copies[q], w.clocks[q], uses, expiresAt, depth[n := k]) {
      DeeperPlace(w.joined[q], w.copies[q], w.clocks[q], n, k, uses, expiresAt, depth);
    }
  }

  lemma PlaceCopy(w: World, r: nat, uses: int, expiresAt: Time, depth: map<string, int>)
    requires ForkInv(w, uses, expiresAt, depth) && r < |w.copies| && w.copies[r].Some?
    ensures CopyOk(w.copies[r].value, uses, expiresAt, depth)
  {
    hide CopyOk;
    assert PlaceOk(w.joined[r], w.copies[r], w.clocks[r], uses, expiresAt, depth);
  }

  lemma ForkReceive(w: World, r: nat, t: JoinToken, now: Time, uses: int, expiresAt: Time, depth: map<string, int>)
    requires ForkInv(w, uses, expiresAt, depth) && Enabled(w, Receive(r, t, now)) && !Raises(w, Receive(r, t, now))
    ensures ForkInv(Next(w, Receive(r, t, now)), uses, expiresAt, depth)
  {
    var v := Next(w, Receive(r, t, now));
    assert !UsesRise(w.copies[r], v.copies[r]);
    if v.copies[r] != w.copies[r] && w.copies[r].Some? {
      MergeKeepsCopy(w.copies[r].value, t, uses, expiresAt, depth);
    }
  }

  /* ---------- what it takes for uses to come back ---------- */

  /** Different depths from 1 to T leave room for T nodes. */
  lemma {:induction false} FewDepths(S: set<string>, depth: map<string, int>, T: int)
    requires T >= 0 && forall x :: x in S ==> x in depth && 1 <= depth[x] <= T
    requires forall x, y :: x in S && y in S && depth[x] == depth[y] ==> x == y
    ensures |S| <= T
    decreases T
  {
    if x :| x in S && depth[x] == T {
      FewDepths(S - {x}, depth, T - 1);
    } else if S != {} {
      var y :| y in S;
      FewDepths(S, depth, T - 1);
    }
  }

  /** At least five joins, at least two of them outside each single replica. */
  predicate Spread(joined: seq<seq<string>>) {
    |Flatten(joined)| >= 5 && forall r :: 0 <= r < |joined| ==> |Flatten(joined)| >= |joined[r]| + 2
  }

  lemma SpreadWithin(p: seq<seq<string>>, plan: seq<seq<string>>)
    requires Within(p, plan) && Spread(p)
    ensures Spread(plan)
  {
    WithinCounts(p, plan);
  }

  /** The returning copy has two nodes more than it has uses taken, and lacks one that the other copy has. */
  lemma RaiseNeeds(w: World, s: Step, uses: int, expiresAt: Time, depth: map<string, int>)
    requires ForkInv(w, uses, expiresAt, depth) && Enabled(w, s) && Raises(w, s) && Repeats(w.joined) == 0
    ensures uses >= 3 && Spread(w.joined)
  {
    var r :| 0 <= r < |w.copies| && UsesRise(w.copies[r], Next(w, s).copies[r]);
    var c, t := w.copies[r].value, s.t;
    MergeRaisesIff(c, t);
    hide PlaceOk, Flatten, Joiners, Next, Raises;
    var all := Elements(Flatten(w.joined));
    assert |all| == |Flatten(w.joined)|;
    RaisingCopies(c, t, all, uses, expiresAt, depth);
    forall q | 0 <= q < |w.joined| ensures |Flatten(w.joined)| >= |w.joined[q]| + 2 {
      OutsideOf(w, q, Elements(t.usedBy), Taken(t, uses), uses, expiresAt, depth);
    }
  }

  lemma RaisingCopies(c: JoinToken, t: JoinToken, all: set<string>, uses: int, expiresAt: Time, depth: map<string, int>)
    requires CopyOk(c, uses, expiresAt, depth) && CopyOk(t, uses, expiresAt, depth) && depth.Keys == all
    requires t.usesLeft > c.usesLeft && |t.usedBy| > |c.usedBy|
    ensures uses >= 3 && |all| >= 5 && |Elements(t.usedBy)| >= Taken(t, uses) + 2
  {
    hide Joiners;
    var U := Elements(t.usedBy);
    assert |U| >= Taken(t, uses) + 2;
    var y :| y in Elements(c.usedBy) && depth[y] == Taken(c, uses);
    assert y !in U && U + {y} <= all;
    SubsetSize(U + {y}, all);
  }

  lemma OutsideOf(w: World, q: nat, U: set<string>, T: int, uses: int, expiresAt: Time, depth: map<string, int>)
    requires ForkInv(w, uses, expiresAt, depth) && q < |w.joined| && Repeats(w.joined) == 0
    requires U <= depth.Keys && T >= 0 && |U| >= T + 2 && forall x :: x in U ==> 1 <= depth[x] <= T
    ensures |Flatten(w.joined)| >= |w.joined[q]| + 2
  {
    var js := w.joined[q];
    var J, all := Elements(js), Elements(Flatten(w.joined));
    assert PlaceOk(js, w.copies[q], w.clocks[q], uses, expiresAt, depth);
    forall x, y | x in U * J && y in U * J && depth[x] == depth[y] ensures x == y {
      var i, j :| 0 <= i < |js| && 0 <= j < |js| && js[i] == x && js[j] == y;
    }
    FewDepths(U * J, depth, T);
    assert |U| == |U * J| + |U - J|;
    assert Distinct(js);
    DistinctCardinality(js);
    assert J <= all;
    SubsetSize(U - J, all - J);
  }

  lemma FreshInv(value: string, ttl: int, uses: int, now: Time, replicas: nat)
    requires replicas > 0
    ensures var t := NewToken(value, ttl, uses, now); ForkInv(Fresh(t, replicas, now), t.usesLeft, t.expiresAt, map[])
  {
    NothingJoined(replicas);
    var t := NewToken(value, ttl, uses, now);
    assert Elements(t.usedBy) == {};
  }

  lemma {:induction false} NothingJoined(replicas: nat)
    ensures Flatten(seq(replicas, _ => [])) == []
  {
    if replicas > 0 {
      NothingJoined(replicas - 1);
      var none, fewer: seq<seq<string>> := seq(replicas, _ => []), seq(replicas - 1, _ => []);
      assert none[..replicas - 1] == fewer;
    }
  }

  ghost predicate RaisesAt(steps: seq<Step>, worlds: seq<World>, i: nat) {
    i < |steps| && i < |worlds| && Sized(worlds[i]) && Enabled(worlds[i], steps[i]) && Raises(worlds[i], steps[i])
  }

  lemma {:induction false} ForkRun(w: World, steps: seq<Step>, worlds: seq<World>, uses: int, expiresAt: Time, i: nat) returns (d: map<string, int>)
    requires IsRun(w, steps, worlds) && i <= |steps| && ForkInv(w, uses, expiresAt, map[]) && Repeats(worlds[i].joined) == 0
    requires forall j: nat :: j < i ==> !RaisesAt(steps, worlds, j)
    ensures ForkInv(worlds[i], uses, expiresAt, d)
  {
    if i == 0 {
      d := map[];
    } else {
      StepGrows(worlds[i - 1], steps[i - 1]);
      NoRepeatsWithin(worlds[i - 1].joined, worlds[i].joined);
      d := ForkRun(w, steps, worlds, uses, expiresAt, i - 1);
      assert !RaisesAt(steps, worlds, i - 1);
      d := ForkStep(worlds[i - 1], steps[i - 1], uses, expiresAt, d);
    }
  }

  lemma NoRepeatsWithin(p: seq<seq<string>>, plan: seq<seq<string>>)
    requires Within(p, plan) && Repeats(plan) == 0
    ensures Repeats(p) == 0
  {
    WithinCounts(p, plan);
    ElementsAtMost(Flatten(p));
  }

  /** Whatever the replicas do: when pairwise different nodes join with one token and uses come back, the
      token has three uses, and there are five joins, two of them outside each replica. */
  lemma {:induction false} DistinctRaiseNeeds(value: string, ttl: int, uses: int, now: Time, replicas: nat, steps: seq<Step>, worlds: seq<World>, i: nat)
    requires replicas > 0 && IsRun(Fresh(NewToken(value, ttl, uses, now), replicas, now), steps, worlds)
    requires RaisesAt(steps, worlds, i) && Repeats(worlds[|steps|].joined) == 0
    ensures NewToken(value, ttl, uses, now).usesLeft >= 3 && Spread(worlds[|steps|].joined)
    decreases i
  {
    var t := NewToken(value, ttl, uses, now);
    var w := Fresh(t, replicas, now);
    hide Repeats, Within, Spread, Fresh, Enabled, Next, ForkInv, Raises;
    if j: nat :| j < i && RaisesAt(steps, worlds, j) {
      DistinctRaiseNeeds(value, ttl, uses, now, replicas, steps, worlds, j);
    } else {
      FreshInv(value, ttl, uses, now, replicas);
      RunGrows(w, steps, worlds, i, |steps|);
      NoRepeatsWithin(worlds[i].joined, worlds[|steps|].joined);
      var d := ForkRun(w, steps, worlds, t.usesLeft, t.expiresAt, i);
      RaiseNeeds(worlds[i], steps[i], t.usesLeft, t.expiresAt, d);
      SpreadWithin(worlds[i].joined, worlds[|steps|].joined);
    }
  }
}
