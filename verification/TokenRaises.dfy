/** Runs in which a merge hands uses of a join token back, and exactly which joins allow them
    (internal/control/token.go:56-71, internal/control/store.go:371-387). */
module TokenRaises {
  import opened Text
  import opened Cluster
  import opened Sorting
  import opened Tokens
  import opened TokenRuns
  import opened TokenForks

  /** In this run the replicas admit these nodes, and step `i` hands uses back. */
  ghost predicate RaisingRun(w: World, steps: seq<Step>, worlds: seq<World>, i: nat, joined: seq<seq<string>>) {
    IsRun(w, steps, worlds) && worlds[|steps|].joined == joined && RaisesAt(steps, worlds, i)
  }

  /** Some run that admits these nodes hands uses back. */
  ghost predicate CanRaise(w: World, joined: seq<seq<string>>) {
    exists steps, worlds, i :: RaisingRun(w, steps, worlds, i, joined)
  }

  /* ---------- building runs ---------- */

  ghost predicate Reached(w0: World, w: World) {
    Sized(w) && exists steps, worlds :: IsRun(w0, steps, worlds) && worlds[|steps|] == w
  }

  lemma RunSnoc(w: World, steps: seq<Step>, worlds: seq<World>, s: Step)
    requires IsRun(w, steps, worlds) && Sized(worlds[|steps|]) && Enabled(worlds[|steps|], s)
    ensures IsRun(w, steps + [s], worlds + [Next(worlds[|steps|], s)])
  {
    var steps', worlds' := steps + [s], worlds + [Next(worlds[|steps|], s)];
    hide Next, Enabled;
    forall i | 0 <= i < |steps'|
      ensures Sized(worlds'[i]) && Enabled(worlds'[i], steps'[i]) && worlds'[i + 1] == Next(worlds'[i], steps'[i])
    {
      if i < |steps| { assert steps'[i] == steps[i] && worlds'[i] == worlds[i] && worlds'[i + 1] == worlds[i + 1]; }
    }
  }

  lemma ReachNext(w0: World, w: World, s: Step)
    requires Reached(w0, w) && Enabled(w, s)
    ensures Reached(w0, Next(w, s))
  {
    hide Enabled, Next;
    var steps, worlds :| IsRun(w0, steps, worlds) && worlds[|steps|] == w;
    RunSnoc(w0, steps, worlds, s);
    var more := worlds + [Next(w, s)];
    assert more[|steps + [s]|] == Next(w, s);
  }

  lemma RaiseReached(w0: World, w: World, s: Step)
    requires Reached(w0, w) && Enabled(w, s) && Raises(w, s)
    ensures CanRaise(w0, Next(w, s).joined)
  {
    hide Enabled, Next, Raises;
    var steps, worlds :| IsRun(w0, steps, worlds) && worlds[|steps|] == w;
    RunSnoc(w0, steps, worlds, s);
    var steps', worlds' := steps + [s], worlds + [Next(w, s)];
    assert steps'[|steps|] == s && worlds'[|steps|] == w && worlds'[|steps'|] == Next(w, s);
    assert RaisesAt(steps', worlds', |steps|);
    assert RaisingRun(w0, steps', worlds', |steps|, Next(w, s).joined);
  }

  predicate Ready(w: World, now: Time) { Sized(w) && forall r :: 0 <= r < |w.clocks| ==> w.clocks[r] == now }

  lemma DoAdmit(w0: World, w: World, r: nat, n: string, now: Time) returns (v: World)
    requires Reached(w0, w) && Ready(w, now) && r < |w.copies| && w.copies[r].Some? && n != "" && SanitizedId(n)
    requires !Expired(w.copies[r].value, now) && w.copies[r].value.usesLeft > 0
    ensures Reached(w0, v) && Ready(v, now)
    ensures v == w.(copies := w.copies[r := Some(Used(w.copies[r].value, n))], joined := w.joined[r := w.joined[r] + [n]])
  {
    v := Next(w, Admit(r, n, now));
    AdmitCases(w, r, n, now);
    assert w.clocks[r := now] == w.clocks;
    assert Used(w.copies[r].value, n) != w.copies[r].value;
    ReachNext(w0, w, Admit(r, n, now));
  }

  lemma DoSend(w0: World, w: World, r: nat, now: Time) returns (v: World)
    requires Reached(w0, w) && Ready(w, now) && r < |w.copies| && w.copies[r].Some?
    ensures Reached(w0, v) && Ready(v, now) && v == w.(mail := w.mail + {w.copies[r].value})
  {
    v := Next(w, Send(r));
    ReachNext(w0, w, Send(r));
  }

  lemma DoReceive(w0: World, w: World, r: nat, t: JoinToken, now: Time) returns (v: World)
    requires Reached(w0, w) && Ready(w, now) && r < |w.copies| && t in w.mail && !Expired(t, now)
    ensures Reached(w0, v) && Ready(v, now)
    ensures v == w.(copies := w.copies[r := Some(if w.copies[r].None? then t else MergeToken(w.copies[r].value, t))])
  {
    hide MergeToken;
    v := Next(w, Receive(r, t, now));
    assert w.clocks[r := now] == w.clocks;
    ReachNext(w0, w, Receive(r, t, now));
  }

  /* ---------- all joins one after the other ---------- */

  /** The token after these nodes used one and the same copy. */
  function Raw(t: JoinToken, s: seq<string>): JoinToken { t.(usesLeft := t.usesLeft - |s|, usedBy := t.usedBy + s) }

  predicate Unused(c: Option<JoinToken>, t: JoinToken) { c == None || c == Some(t) }

  ghost predicate Sent(mail: set<JoinToken>, t: JoinToken, s: seq<string>) { forall j :: 0 <= j <= |s| ==> Raw(t, s[..j]) in mail }

  /** Replicas that admitted nobody have the first copy or none, those after `n` none; some other one has the last copy. */
  ghost predicate Handed(w: World, t: JoinToken, s: seq<string>, n: nat)
    requires Sized(w)
  {
    && (forall r :: 0 <= r < |w.copies| && w.joined[r] == [] ==> Unused(w.copies[r], t))
    && (forall r :: n < r < |w.copies| ==> w.copies[r] == None)
    && (s != [] ==> exists r :: 0 <= r < |w.copies| && w.joined[r] != [] && w.copies[r] == Some(Raw(t, s)))
  }

  predicate JoinedSoFar(joined: seq<seq<string>>, plan: seq<seq<string>>, n: nat, k: nat)
    requires n < |plan| && k <= |plan[n]|
  {
    |joined| == |plan| && forall r :: 0 <= r < |plan| ==> joined[r] == if r < n then plan[r] else if r == n then plan[n][..k] else []
  }

  /** The first `n` replicas admitted their nodes, each with the copy of the one before it, and the `n`-th
      replica the first `k` of its own; every copy was sent. */
  ghost predicate Lined(w: World, t: JoinToken, plan: seq<seq<string>>, n: nat, k: nat, now: Time)
    requires n < |plan| && k <= |plan[n]|
  {
    var s := Flatten(plan[..n]) + plan[n][..k];
    && Ready(w, now) && JoinedSoFar(w.joined, plan, n, k) && Sent(w.mail, t, s) && Handed(w, t, s, n)
    && (if k > 0 then w.copies[n] == Some(Raw(t, s)) else n > 0 ==> w.copies[n] == None)
  }

  lemma {:induction false} Line(t: JoinToken, plan: seq<seq<string>>, n: nat, k: nat, now: Time) returns (w: World)
    requires n < |plan| && k <= |plan[n]| && |Flatten(plan)| <= t.usesLeft && t.usedBy == [] && !Expired(t, now)
    requires forall r :: 0 <= r < |plan| ==> Joiners(plan[r])
    ensures Reached(Fresh(t, |plan|, now), w) && Lined(w, t, plan, n, k, now)
    decreases n, k
  {
    hide Flatten, Joiners, Lined, Reached, Expired, Fresh;
    if n == 0 && k == 0 {
      w := FirstSent(t, plan, now);
    } else if k == 0 {
      w := Line(t, plan, n - 1, |plan[n - 1]|, now);
      NextReplica(w, t, plan, n - 1, now);
    } else {
      w := Line(t, plan, n, k - 1, now);
      w := LineOne(Fresh(t, |plan|, now), w, t, plan, n, k - 1, now);
    }
  }

  lemma NextReplica(w: World, t: JoinToken, plan: seq<seq<string>>, n: nat, now: Time)
    requires n + 1 < |plan| && Lined(w, t, plan, n, |plan[n]|, now)
    ensures Lined(w, t, plan, n + 1, 0, now)
  {
    assert plan[..n + 1][..n] == plan[..n] && plan[n][..|plan[n]|] == plan[n] && plan[n + 1][..0] == [];
    var s := Flatten(plan[..n]) + plan[n];
    assert Flatten(plan[..n + 1]) + plan[n + 1][..0] == s;
    hide Flatten, Sent;
    assert Handed(w, t, s, n + 1);
  }

  lemma FirstSent(t: JoinToken, plan: seq<seq<string>>, now: Time) returns (w: World)
    requires plan != [] && t.usedBy == [] && !Expired(t, now)
    ensures Reached(Fresh(t, |plan|, now), w) && Lined(w, t, plan, 0, 0, now)
  {
    var w0 := Fresh(t, |plan|, now);
    var none: seq<Step> := [];
    assert IsRun(w0, none, [w0]) && [w0][|none|] == w0;
    w := DoSend(w0, w0, 0, now);
    assert Raw(t, []) == t;
    hide Reached, Raw;
    assert Flatten(plan[..0]) + plan[0][..0] == [];
  }

  lemma {:induction false} FlattenPrefix(plan: seq<seq<string>>, n: nat)
    requires n < |plan|
    ensures |Flatten(plan[..n])| + |plan[n]| <= |Flatten(plan)|
  {
    if n == |plan| - 1 {
      assert plan[..n] == plan[..|plan| - 1];
    } else {
      var l := |plan| - 1;
      FlattenPrefix(plan[..l], n);
      assert plan[..l][..n] == plan[..n];
    }
  }

  /** Replica `n` has the latest copy; if it admitted nobody yet, it receives it. */
  lemma Enter(w0: World, w: World, t: JoinToken, plan: seq<seq<string>>, n: nat, k: nat, now: Time) returns (v: World)
    requires n < |plan| && k < |plan[n]| && t.usedBy == [] && !Expired(t, now) && Reached(w0, w) && Lined(w, t, plan, n, k, now)
    ensures Reached(w0, v) && v == w.(copies := w.copies[n := Some(Raw(t, Flatten(plan[..n]) + plan[n][..k]))])
  {
    hide Reached;
    var s := Flatten(plan[..n]) + plan[n][..k];
    v := w;
    if k == 0 {
      assert s[..|s|] == s;
      assert Raw(t, s) in w.mail;
      if n == 0 { assert plan[..0] == []; assert Raw(t, s) == t; }
      v := DoReceive(w0, v, n, Raw(t, s), now);
    } else {
      assert w.copies[n := w.copies[n]] == w.copies;
    }
  }

  lemma NextNode(plan: seq<seq<string>>, n: nat, k: nat)
    requires n < |plan| && k < |plan[n]| && Joiners(plan[n])
    ensures var s := Flatten(plan[..n]) + plan[n][..k];
            && |s| < |Flatten(plan)| && s + [plan[n][k]] == Flatten(plan[..n]) + plan[n][..k + 1]
            && plan[n][..k] + [plan[n][k]] == plan[n][..k + 1] && plan[n][k] != "" && SanitizedId(plan[n][k])
  {
    FlattenPrefix(plan, n);
    assert plan[n][..k + 1] == plan[n][..k] + [plan[n][k]] && plan[n][k] in plan[n];
  }

  /** One more node joins at replica `n`. */
  lemma LineOne(w0: World, w: World, t: JoinToken, plan: seq<seq<string>>, n: nat, k: nat, now: Time) returns (v: World)
    requires n < |plan| && k < |plan[n]| && |Flatten(plan)| <= t.usesLeft && t.usedBy == [] && !Expired(t, now)
    requires Joiners(plan[n]) && Reached(w0, w) && Lined(w, t, plan, n, k, now)
    ensures Reached(w0, v) && Lined(v, t, plan, n, k + 1, now)
  {
    var s, x := Flatten(plan[..n]) + plan[n][..k], plan[n][k];
    var s' := s + [x];
    NextNode(plan, n, k);
    hide Flatten, Reached, SanitizedId, Joiners;
    v := Enter(w0, w, t, plan, n, k, now);
    v := AdmitAndSend(w0, v, t, s, n, x, now);
    assert v == World(w.copies[n := Some(Raw(t, s'))], w.clocks, w.mail + {Raw(t, s')}, w.joined[n := w.joined[n] + [x]]);
    hide Raw, Expired, Joiners, Sent, Handed;
    SentMore(w.mail, t, s, x);
    HandedOn(w, v, t, s, s', n);
  }

  lemma AdmitAndSend(w0: World, w: World, t: JoinToken, s: seq<string>, r: nat, x: string, now: Time) returns (v: World)
    requires Reached(w0, w) && Ready(w, now) && r < |w.copies| && w.copies[r] == Some(Raw(t, s)) && x != "" && SanitizedId(x)
    requires !Expired(t, now) && |s| < t.usesLeft
    ensures Reached(w0, v) && Ready(v, now)
    ensures v == World(w.copies[r := Some(Raw(t, s + [x]))], w.clocks, w.mail + {Raw(t, s + [x])}, w.joined[r := w.joined[r] + [x]])
  {
    hide Reached;
    assert Used(Raw(t, s), x) == Raw(t, s + [x]);
    v := DoAdmit(w0, w, r, x, now);
    v := DoSend(w0, v, r, now);
  }

  lemma SentMore(mail: set<JoinToken>, t: JoinToken, s: seq<string>, x: string)
    requires Sent(mail, t, s)
    ensures Sent(mail + {Raw(t, s + [x])}, t, s + [x])
  {
    hide Raw;
    var s' := s + [x];
    forall j | 0 <= j <= |s'| ensures Raw(t, s'[..j]) in mail + {Raw(t, s')} {
      if j <= |s| { assert s'[..j] == s[..j]; } else { assert s'[..j] == s'; }
    }
  }

  lemma HandedOn(w: World, v: World, t: JoinToken, s: seq<string>, s': seq<string>, n: nat)
    requires Sized(w) && Sized(v) && |v.copies| == |w.copies| && n < |w.copies| && Handed(w, t, s, n)
    requires v.joined[n] != [] && v.copies[n] == Some(Raw(t, s'))
    requires forall r :: 0 <= r < |w.copies| && r != n ==> v.copies[r] == w.copies[r] && v.joined[r] == w.joined[r]
    ensures Handed(v, t, s', n)
  {
    hide Raw;
  }

  /* ---------- two repeated joins ---------- */

  /** All replicas had their turn. */
  lemma LineAll(t: JoinToken, plan: seq<seq<string>>, now: Time) returns (w: World)
    requires plan != [] && |Flatten(plan)| <= t.usesLeft && t.usedBy == [] && !Expired(t, now)
    requires forall r :: 0 <= r < |plan| ==> Joiners(plan[r])
    ensures Reached(Fresh(t, |plan|, now), w) && Ready(w, now) && w.joined == plan
    ensures Sent(w.mail, t, Flatten(plan)) && Handed(w, t, Flatten(plan), |plan| - 1)
  {
    var n := |plan| - 1;
    assert plan[n][..|plan[n]|] == plan[n];
    hide Flatten, Reached, Joiners, Sent, Handed;
    w := Line(t, plan, n, |plan[n]|, now);
    assert Flatten(plan[..n]) + plan[n] == Flatten(plan) by { FlattenLast(plan); }
  }

  lemma FlattenLast(plan: seq<seq<string>>)
    requires plan != []
    ensures Flatten(plan) == Flatten(plan[..|plan| - 1]) + plan[|plan| - 1]
  {}

  lemma {:induction false} FlattenJoiners(plan: seq<seq<string>>)
    requires forall r :: 0 <= r < |plan| ==> Joiners(plan[r])
    ensures Joiners(Flatten(plan))
  {
    if plan != [] { FlattenJoiners(plan[..|plan| - 1]); }
  }

  /** The older copy looks newer: it lists a repeated user twice, and the later copy only once. */
  lemma OlderCopyRaises(t: JoinToken, s: seq<string>)
    requires Joiners(s) && |s| >= |Elements(s)| + 2 && t.usedBy == []
    ensures var c := MergeToken(t, Raw(t, s));
            var old1 := Raw(t, s[..|s| - 1]);
            MergeToken(c, old1).usesLeft == c.usesLeft + 1
  {
    var new1 := Raw(t, s);
    assert new1.usedBy == s;
    var c := MergeToken(t, new1);
    MergedUsers(t, new1);
    assert Elements(t.usedBy) == {};
    assert |c.usedBy| == |Elements(s)|;
  }

  /** Wherever the nodes join: with two repeated joins and a replica without joins some run hands uses back. */
  lemma RepeatsRaise(t: JoinToken, plan: seq<seq<string>>, p: nat, now: Time)
    requires p < |plan| && plan[p] == [] && Repeats(plan) >= 2 && |Flatten(plan)| <= t.usesLeft
    requires t.usedBy == [] && !Expired(t, now) && forall r :: 0 <= r < |plan| ==> Joiners(plan[r])
    ensures CanRaise(Fresh(t, |plan|, now), plan)
  {
    var w0, s := Fresh(t, |plan|, now), Flatten(plan);
    FlattenJoiners(plan);
    var w := LineAll(t, plan, now);
    hide Reached, Joiners, Flatten;
    HandBack(w0, w, t, s, p, now);
  }

  lemma HandBack(w0: World, w: World, t: JoinToken, s: seq<string>, p: nat, now: Time)
    requires Reached(w0, w) && Ready(w, now) && p < |w.copies| && Unused(w.copies[p], t) && Sent(w.mail, t, s)
    requires Joiners(s) && |s| >= |Elements(s)| + 2 && t.usedBy == [] && !Expired(t, now)
    ensures CanRaise(w0, w.joined)
  {
    assert s[..0] == [] && s[..|s|] == s && Raw(t, []) == t;
    var old1 := Raw(t, s[..|s| - 1]);
    assert t in w.mail && Raw(t, s) in w.mail && old1 in w.mail;
    OlderCopyRaises(t, s);
    assert MergeToken(t, t) == t;
    hide Reached, Joiners, Sent, MergeToken, CanRaise, Elements;
    var v := DoReceive(w0, w, p, t, now);
    v := DoReceive(w0, v, p, Raw(t, s), now);
    RaiseAt(w0, v, p, old1, now);
  }

  lemma RaiseAt(w0: World, w: World, r: nat, m: JoinToken, now: Time)
    requires Reached(w0, w) && Ready(w, now) && r < |w.copies| && w.copies[r].Some? && m in w.mail && !Expired(m, now)
    requires MergeToken(w.copies[r].value, m).usesLeft > w.copies[r].value.usesLeft
    ensures CanRaise(w0, w.joined)
  {
    hide Reached, MergeToken;
    var s := Receive(r, m, now);
    assert UsesRise(w.copies[r], Next(w, s).copies[r]);
    RaiseReached(w0, w, s);
  }

  function AllAt(replicas: nat, c: nat, s: seq<string>): seq<seq<string>> { seq(replicas, r => if r == c then s else []) }

  lemma {:induction false} FlattenAllAt(replicas: nat, c: nat, s: seq<string>)
    ensures Flatten(AllAt(replicas, c, s)) == if c < replicas then s else []
  {
    if replicas > 0 {
      FlattenAllAt(replicas - 1, c, s);
      assert AllAt(replicas, c, s)[..replicas - 1] == AllAt(replicas - 1, c, s);
    }
  }

  /** Some run that admits these nodes at one of at least two replicas hands uses back, exactly when two or
      more of the joins are repetitions. */
  lemma RepeatsRaiseIff(value: string, ttl: int, uses: int, now: Time, replicas: nat, c: nat, s: seq<string>)
    requires replicas >= 2 && c < replicas && Joiners(s) && |s| <= NewToken(value, ttl, uses, now).usesLeft
    ensures CanRaise(Fresh(NewToken(value, ttl, uses, now), replicas, now), AllAt(replicas, c, s)) <==> |s| >= |Elements(s)| + 2
  {
    var t := NewToken(value, ttl, uses, now);
    var plan := AllAt(replicas, c, s);
    if FewRepeats(s) {
      forall steps, worlds, i ensures !RaisingRun(Fresh(t, replicas, now), steps, worlds, i, plan) {
        if RaisingRun(Fresh(t, replicas, now), steps, worlds, i, plan) {
          assert OnlyAt(plan, c);
          NewTokenRunSafe(value, ttl, uses, now, replicas, steps, worlds, c, i);
        }
      }
    } else {
      FlattenAllAt(replicas, c, s);
      RepeatsRaise(t, plan, if c == 0 then 1 else 0, now);
    }
  }

  /* ---------- different nodes at several replicas ---------- */

  /** The copy has `k` uses taken and these users. */
  ghost predicate Holds(c: Option<JoinToken>, t: JoinToken, k: int, U: set<string>) {
    && c.Some? && c.value.usesLeft == t.usesLeft - k && c.value.expiresAt == t.expiresAt
    && Joiners(c.value.usedBy) && Elements(c.value.usedBy) == U && |c.value.usedBy| == |U|
  }

  lemma RawHolds(t: JoinToken, s: seq<string>)
    requires t.usedBy == [] && Joiners(s) && |Elements(s)| == |s|
    ensures Holds(Some(Raw(t, s)), t, |s|, Elements(s))
  {
    assert Raw(t, s).usedBy == s;
  }

  lemma MergeHolds(a: JoinToken, b: JoinToken, t: JoinToken, j: int, A: set<string>, k: int, B: set<string>)
    requires Holds(Some(a), t, j, A) && Holds(Some(b), t, k, B)
    ensures if k > j || |B| > |A| then Holds(Some(MergeToken(a, b)), t, k, A + B) else MergeToken(a, b) == a
  {
    hide Joiners;
    if k > j || |B| > |A| { MergedUsers(a, b); }
  }

  /** An unused replica receives the token and admits one node. */
  lemma JoinFirst(w0: World, w: World, t: JoinToken, r: nat, y: string, now: Time) returns (v: World)
    requires Reached(w0, w) && Ready(w, now) && r < |w.copies| && Unused(w.copies[r], t) && t in w.mail && w.joined[r] == []
    requires t.usedBy == [] && t.usesLeft > 0 && !Expired(t, now) && y != "" && SanitizedId(y)
    ensures Reached(w0, v) && Ready(v, now)
    ensures v == w.(copies := w.copies[r := Some(Raw(t, [y]))], joined := w.joined[r := [y]])
  {
    hide Reached;
    v := DoReceive(w0, w, r, t, now);
    assert v.copies[r] == Some(t) by { assert MergeToken(t, t) == t; }
    assert Used(t, y) == Raw(t, [y]) && w.joined[r] + [y] == [y];
    v := DoAdmit(w0, v, r, y, now);
  }

  /** A chain of three joins: its second copy was sent, and `x` has the third one. */
  ghost predicate Chain(w: World, t: JoinToken, s: seq<string>, x: nat) {
    && Sized(w) && x < |w.copies| && |s| == 3 && Joiners(s) && |Elements(s)| == 3 && t.usedBy == [] && t.usesLeft >= 3
    && t in w.mail && Raw(t, s[..2]) in w.mail && w.copies[x] == Some(Raw(t, s))
  }

  lemma FirstTwo(s: seq<string>)
    requires |s| == 3 && |Elements(s)| == 3 && Joiners(s)
    ensures Joiners(s[..2]) && |Elements(s[..2])| == 2 && Elements(s) == Elements(s[..2]) + {s[2]}
  {
    var h := s[..2];
    assert s == h + [s[2]];
    forall x | x in h ensures x in s {}
    ElementsAtMost(h);
    assert Elements(s) == Elements(h) + {s[2]};
  }

  /** `r` takes over a copy, and sends what it has then. */
  lemma TakeAndSend(w0: World, w: World, r: nat, m: JoinToken, t: JoinToken, j: int, A: set<string>, k: int, B: set<string>, now: Time) returns (v: World)
    requires Reached(w0, w) && Ready(w, now) && r < |w.copies| && m in w.mail && !Expired(t, now)
    requires Holds(w.copies[r], t, j, A) && Holds(Some(m), t, k, B) && (k > j || |B| > |A|)
    ensures Reached(w0, v) && Ready(v, now) && r < |v.copies| && v.copies[r].Some? && Holds(v.copies[r], t, k, A + B)
    ensures v == w.(copies := w.copies[r := v.copies[r]], mail := w.mail + {v.copies[r].value})
  {
    MergeHolds(w.copies[r].value, m, t, j, A, k, B);
    hide Reached, MergeToken, Joiners, Elements;
    v := DoReceive(w0, w, r, m, now);
    v := DoSend(w0, v, r, now);
  }

  /** With two other nodes at `d` and `e` their copies and the second one of the chain are mixed into one with
      two uses taken and four users, which `x` takes for a newer one. */
  lemma MixAndRaise(w0: World, w: World, t: JoinToken, s: seq<string>, x: nat, d: nat, e: nat, y: string, k: int, E: set<string>, now: Time)
    requires Reached(w0, w) && Ready(w, now) && !Expired(t, now) && Chain(w, t, s, x)
    requires d < |w.copies| && e < |w.copies| && x != d && x != e && d != e && y !in Elements(s)
    requires Holds(w.copies[d], t, 1, {y}) && Holds(w.copies[e], t, k, E) && k <= 2 && |E| <= 2 && |Elements(s) + {y} + E| == 5
    ensures CanRaise(w0, w.joined)
  {
    var a := Elements(s[..2]);
    FirstTwo(s);
    RawHolds(t, s);
    RawHolds(t, s[..2]);
    MixedUsers(Elements(s), a, s[2], y, E);
    hide Reached, Joiners, Elements, MergeToken, Raw;
    var v := TakeAndSend(w0, w, d, Raw(t, s[..2]), t, 1, {y}, 2, a, now);
    v := TakeAndSend(w0, v, e, v.copies[d].value, t, k, E, 2, {y} + a, now);
    MergeHolds(v.copies[x].value, v.copies[e].value, t, 3, Elements(s), 2, E + ({y} + a));
    RaiseAt(w0, v, x, v.copies[e].value, now);
  }

  lemma MixedUsers(S: set<string>, a: set<string>, z: string, y: string, E: set<string>)
    requires S == a + {z} && |a| == 2 && y !in S && |S + {y} + E| == 5
    ensures |{y} + a| == 3 && |E + ({y} + a)| >= 4
  {
    assert S + {y} + E == E + ({y} + a) + {z};
  }

  lemma PairHolds(t: JoinToken, y: string, z: string)
    requires t.usedBy == [] && Joiners([y, z]) && y != z
    ensures y != "" && SanitizedId(y) && z != "" && SanitizedId(z)
    ensures Holds(Some(t), t, 0, {}) && Holds(Some(Raw(t, [y])), t, 1, {y}) && Holds(Some(Raw(t, [z])), t, 1, {z})
    ensures Holds(Some(Used(Raw(t, [y]), z)), t, 2, {y, z})
  {
    assert y in [y, z] && z in [y, z];
    assert Elements([y]) == {y} && Elements([z]) == {z} && Elements([y, z]) == {y, z};
    assert Joiners([y]) && Joiners([z]);
    assert Elements(t.usedBy) == {};
    hide SanitizedId;
    RawHolds(t, [y]);
    RawHolds(t, [z]);
    RawHolds(t, [y, z]);
    assert [y] + [z] == [y, z];
    assert Used(Raw(t, [y]), z) == Raw(t, [y, z]);
  }

  /** The pair is different from the chain and in itself. */
  lemma PairDiffers(S: set<string>, y: string, z: string)
    requires |S| == 3 && |S + {y, z}| == 5
    ensures y != z && y !in S && S + {y} + {z} == S + {y} + {y, z} == S + {y, z}
  {
    assert S + {y, z} == (S + {y}) + {z} == (S + {z}) + {y};
  }

  /** An unused replica receives the copy with one use taken. */
  lemma Keep(w0: World, w: World, t: JoinToken, p: nat, y: string, now: Time) returns (v: World)
    requires Reached(w0, w) && Ready(w, now) && p < |w.copies| && Unused(w.copies[p], t) && t in w.mail && Raw(t, [y]) in w.mail
    requires !Expired(t, now) && Holds(Some(t), t, 0, {}) && Holds(Some(Raw(t, [y])), t, 1, {y})
    ensures Reached(w0, v) && Ready(v, now) && p < |v.copies| && v.copies[p].Some? && Holds(v.copies[p], t, 1, {y})
    ensures v == w.(copies := w.copies[p := v.copies[p]], mail := w.mail + {v.copies[p].value})
  {
    hide Reached, Holds;
    v := DoReceive(w0, w, p, t, now);
    assert v.copies[p] == Some(t) by { assert MergeToken(t, t) == t; }
    v := TakeAndSend(w0, v, p, Raw(t, [y]), t, 0, {}, 1, {y}, now);
    assert {} + {y} == {y};
  }

  /** Two joins at replica `b`, whose first copy replica `p` keeps. */
  lemma JoinTwice(w0: World, w: World, t: JoinToken, b: nat, p: nat, y: string, z: string, now: Time) returns (v: World)
    requires Reached(w0, w) && Ready(w, now) && !Expired(t, now) && b < |w.copies| && p < |w.copies| && b != p && w.joined[b] == []
    requires Unused(w.copies[b], t) && Unused(w.copies[p], t) && t in w.mail && t.usesLeft >= 3 && t.usedBy == []
    requires Joiners([y, z]) && y != z
    ensures Reached(w0, v) && Ready(v, now) && |v.copies| == |w.copies| && v.joined == w.joined[b := [y, z]] && v.mail >= w.mail
    ensures Holds(v.copies[p], t, 1, {y}) && Holds(v.copies[b], t, 2, {y, z})
    ensures forall r :: 0 <= r < |w.copies| && r != b && r != p ==> v.copies[r] == w.copies[r]
  {
    PairHolds(t, y, z);
    hide Reached, Joiners, SanitizedId, Holds;
    v := JoinFirst(w0, w, t, b, y, now);
    v := DoSend(w0, v, b, now);
    v := Keep(w0, v, t, p, y, now);
    v := DoAdmit(w0, v, b, z, now);
    hide Raw, Used, Expired;
    assert [y] + [z] == [y, z];
    assert v.joined == w.joined[b := [y, z]];
  }

  lemma TwoAtOne(w0: World, w: World, t: JoinToken, s: seq<string>, x: nat, b: nat, p: nat, y: string, z: string, now: Time)
    requires Reached(w0, w) && Ready(w, now) && !Expired(t, now) && Chain(w, t, s, x)
    requires b < |w.copies| && p < |w.copies| && x != b && x != p && b != p && w.joined[b] == []
    requires Unused(w.copies[b], t) && Unused(w.copies[p], t)
    requires Joiners([y, z]) && |Elements(s) + {y, z}| == 5
    ensures CanRaise(w0, w.joined[b := [y, z]])
  {
    PairDiffers(Elements(s), y, z);
    hide Reached, Joiners, Elements, Holds, CanRaise, Raw;
    var v := JoinTwice(w0, w, t, b, p, y, z, now);
    MixAndRaise(w0, v, t, s, x, p, b, y, 2, {y, z}, now);
  }

  /** One join at each of two replicas. */
  lemma OneAtTwo(w0: World, w: World, t: JoinToken, s: seq<string>, x: nat, b: nat, c: nat, y: string, z: string, now: Time)
    requires Reached(w0, w) && Ready(w, now) && !Expired(t, now) && Chain(w, t, s, x)
    requires b < |w.copies| && c < |w.copies| && x != b && x != c && b != c && w.joined[b] == w.joined[c] == []
    requires Unused(w.copies[b], t) && Unused(w.copies[c], t)
    requires Joiners([y, z]) && |Elements(s) + {y, z}| == 5
    ensures CanRaise(w0, w.joined[b := [y]][c := [z]])
  {
    PairDiffers(Elements(s), y, z);
    PairHolds(t, y, z);
    hide Reached, Joiners, Elements, SanitizedId, Raw, Holds, CanRaise;
    var v := JoinFirst(w0, w, t, b, y, now);
    v := JoinFirst(w0, v, t, c, z, now);
    assert v.joined == w.joined[b := [y]][c := [z]];
    MixAndRaise(w0, v, t, s, x, b, c, y, 1, {z}, now);
  }

  /* ---------- from the numbers of joins to a run ---------- */

  lemma {:induction false} FlattenWithout(plan: seq<seq<string>>, r: nat)
    requires r < |plan|
    ensures |Flatten(plan[r := []])| == |Flatten(plan)| - |plan[r]|
  {
    var l := |plan| - 1;
    var q := plan[r := []];
    if r == l {
      assert q[..l] == plan[..l];
    } else {
      FlattenWithout(plan[..l], r);
      assert q[..l] == plan[..l][r := []];
    }
  }

  lemma {:induction false} SomeJoin(plan: seq<seq<string>>) returns (r: nat)
    requires Flatten(plan) != []
    ensures r < |plan| && plan[r] != []
  {
    var l := |plan| - 1;
    r := l;
    if plan[l] == [] { r := SomeJoin(plan[..l]); }
  }

  /** The joins up to the `n`-th from the end. */
  function Cut(plan: seq<seq<string>>, n: nat): seq<seq<string>> {
    if plan == [] then []
    else
      var x := plan[|plan| - 1];
      var k := if n < |x| then n else |x|;
      Cut(plan[..|plan| - 1], n - k) + [x[..k]]
  }

  lemma {:induction false} CutWithin(plan: seq<seq<string>>, n: nat)
    ensures Within(Cut(plan, n), plan)
  {
    if plan != [] {
      var x := plan[|plan| - 1];
      CutWithin(plan[..|plan| - 1], n - if n < |x| then n else |x|);
    }
  }

  lemma {:induction false} CutCounts(plan: seq<seq<string>>, n: nat)
    ensures |Flatten(Cut(plan, n))| == if n < |Flatten(plan)| then n else |Flatten(plan)|
  {
    if plan != [] {
      var h, x := plan[..|plan| - 1], plan[|plan| - 1];
      var k := if n < |x| then n else |x|;
      CutCounts(h, n - k);
      CutLast(plan, n, k);
      FlattenLast(plan);
      hide Cut, Flatten;
    }
  }

  lemma CutLast(plan: seq<seq<string>>, n: nat, k: nat)
    requires plan != [] && k == if n < |plan[|plan| - 1]| then n else |plan[|plan| - 1]|
    ensures Flatten(Cut(plan, n)) == Flatten(Cut(plan[..|plan| - 1], n - k)) + plan[|plan| - 1][..k]
  {
    var c, y := Cut(plan[..|plan| - 1], n - k), plan[|plan| - 1][..k];
    assert Cut(plan, n) == c + [y];
    hide Cut;
    FlattenLast(c + [y]);
    assert (c + [y])[..|c|] == c;
  }

  /** Two joins that can be left out of the chain: of one replica, or one each of two. */
  ghost predicate FreePair(plan: seq<seq<string>>, b: nat, c: nat) {
    && b < |plan| && c < |plan| && plan[b] != [] && plan[c] != []
    && (b == c ==> |plan[b]| >= 2) && |Flatten(plan[b := []][c := []])| >= 3
  }

  lemma FindPair(plan: seq<seq<string>>) returns (b: nat, c: nat)
    requires Spread(plan)
    ensures FreePair(plan, b, c)
  {
    hide Flatten;
    var q, k := plan, 0;
    if a: nat :| a < |plan| && |plan[a]| >= 3 {
      FlattenWithout(plan, a);
      q := plan[a := []];
    }
    b := SomeJoin(q);
    FlattenWithout(q, b);
    FlattenWithout(plan, b);
    c := b;
    if |plan[b]| == 1 {
      c := SomeJoin(q[b := []]);
      FlattenWithout(q[b := []], c);
      FlattenWithout(plan, c);
      FlattenWithout(plan[b := []], c);
      if |plan[c]| >= 2 { b := c; }
    }
    FlattenWithout(plan[b := []], c);
  }

  /** The chain of three joins that leaves the pair alone. */
  lemma ChainOf(plan: seq<seq<string>>, b: nat, c: nat) returns (chain: seq<seq<string>>)
    requires FreePair(plan, b, c)
    ensures |Flatten(chain)| == 3 && Within(chain, plan) && chain[b] == chain[c] == []
  {
    var q := plan[b := []][c := []];
    chain := Cut(q, 3);
    CutWithin(q, 3);
    CutCounts(q, 3);
  }

  /** The joins of the chain and of the pair. */
  function WithPair(chain: seq<seq<string>>, b: nat, c: nat, y: string, z: string): seq<seq<string>>
    requires b < |chain| && c < |chain|
  {
    if b == c then chain[b := [y, z]] else chain[b := [y]][c := [z]]
  }

  lemma PairCounts(chain: seq<seq<string>>, b: nat, c: nat, y: string, z: string)
    requires b < |chain| && c < |chain| && chain[b] == chain[c] == []
    ensures |Flatten(WithPair(chain, b, c, y, z))| == |Flatten(chain)| + 2
    ensures Elements(Flatten(WithPair(chain, b, c, y, z))) == Elements(Flatten(chain)) + {y, z}
  {
    hide Flatten, Elements;
    var one := chain[b := chain[b] + [y]];
    assert chain[b] + [y] == [y] && [y] + [z] == [y, z];
    if b != c { assert one[c] + [z] == [z]; }
    assert WithPair(chain, b, c, y, z) == one[c := one[c] + [z]];
    FlattenAppend(chain, b, y);
    FlattenAppend(one, c, z);
  }

  lemma PairWithin(plan: seq<seq<string>>, chain: seq<seq<string>>, b: nat, c: nat, y: string, z: string)
    requires Within(chain, plan) && b < |chain| && c < |chain|
    requires if b == c then |plan[b]| >= 2 && plan[b][0] == y && plan[b][1] == z
             else plan[b] != [] && plan[c] != [] && plan[b][0] == y && plan[c][0] == z
    ensures Within(WithPair(chain, b, c, y, z), plan)
  {}

  /** The pair that joins after the chain. */
  lemma PairOf(plan: seq<seq<string>>, chain: seq<seq<string>>, b: nat, c: nat) returns (y: string, z: string)
    requires FreePair(plan, b, c) && Repeats(plan) == 0 && forall r :: 0 <= r < |plan| ==> Joiners(plan[r])
    requires |Flatten(chain)| == 3 && Within(chain, plan) && chain[b] == chain[c] == []
    ensures Within(WithPair(chain, b, c, y, z), plan) && Joiners([y, z])
    ensures |Elements(Flatten(chain))| == 3 && |Elements(Flatten(chain)) + {y, z}| == 5
  {
    hide Flatten, Joiners, WithPair, Elements;
    y, z := plan[b][0], if b == c then plan[b][1] else plan[c][0];
    PairJoiners(plan[b], plan[c], y, z);
    PairWithin(plan, chain, b, c, y, z);
    PairCounts(chain, b, c, y, z);
    NoRepeatsWithin(chain, plan);
    NoRepeatsWithin(WithPair(chain, b, c, y, z), plan);
  }

  lemma PairJoiners(a: seq<string>, b: seq<string>, y: string, z: string)
    requires Joiners(a) && Joiners(b) && y in a && z in b
    ensures Joiners([y, z])
  {}

  /** With five joins, two of them outside each replica, and one replica without joins. */
  lemma SpreadRaises(t: JoinToken, plan: seq<seq<string>>, p: nat, now: Time)
    requires p < |plan| && plan[p] == [] && Spread(plan) && Repeats(plan) == 0 && t.usesLeft >= 3
    requires t.usedBy == [] && !Expired(t, now) && forall r :: 0 <= r < |plan| ==> Joiners(plan[r])
    ensures exists joined :: Within(joined, plan) && CanRaise(Fresh(t, |plan|, now), joined)
  {
    hide Reached, Joiners, Elements, Chain, CanRaise, Flatten, Repeats, Expired, Fresh;
    var b, c := FindPair(plan);
    var chain := ChainOf(plan, b, c);
    var y, z := PairOf(plan, chain, b, c);
    var w, x := ChainReached(t, plan, chain, now);
    assert WithPair(chain, b, c, y, z) == if b == c then chain[b := [y, z]] else chain[b := [y]][c := [z]];
    if b == c {
      TwoAtOne(Fresh(t, |plan|, now), w, t, Flatten(chain), x, b, p, y, z, now);
    } else {
      OneAtTwo(Fresh(t, |plan|, now), w, t, Flatten(chain), x, b, c, y, z, now);
    }
  }

  lemma ChainReached(t: JoinToken, plan: seq<seq<string>>, chain: seq<seq<string>>, now: Time) returns (w: World, x: nat)
    requires |Flatten(chain)| == 3 == |Elements(Flatten(chain))| && Within(chain, plan) && t.usesLeft >= 3
    requires t.usedBy == [] && !Expired(t, now) && forall r :: 0 <= r < |plan| ==> Joiners(plan[r])
    ensures Reached(Fresh(t, |plan|, now), w) && Ready(w, now) && w.joined == chain
    ensures Chain(w, t, Flatten(chain), x) && w.joined[x] != []
    ensures forall r :: 0 <= r < |chain| && chain[r] == [] ==> Unused(w.copies[r], t)
  {
    var s := Flatten(chain);
    forall r | 0 <= r < |chain| ensures Joiners(chain[r]) { PrefixJoiners(chain[r], plan[r]); }
    FlattenJoiners(chain);
    hide Reached, Joiners, Elements, Flatten, Expired;
    w := LineAll(t, chain, now);
    assert s[..0] == [] && Raw(t, []) == t && s[..3] == s;
    var r :| 0 <= r < |w.copies| && w.joined[r] != [] && w.copies[r] == Some(Raw(t, s));
    x := r;
  }

  lemma PrefixJoiners(a: seq<string>, b: seq<string>)
    requires a <= b && Joiners(b)
    ensures Joiners(a)
  {
    forall x | x in a ensures x in b {}
  }

  /** Pairwise different nodes may join, each replica admitting at most those of its list and one of them
      none.  Some such run hands uses back exactly when the token has three uses and the lists hold five
      nodes, two of them outside each list. */
  lemma DistinctRaisesIff(value: string, ttl: int, uses: int, now: Time, plan: seq<seq<string>>, p: nat)
    requires p < |plan| && plan[p] == [] && Repeats(plan) == 0 && forall r :: 0 <= r < |plan| ==> Joiners(plan[r])
    ensures (exists joined :: Within(joined, plan) && CanRaise(Fresh(NewToken(value, ttl, uses, now), |plan|, now), joined))
            <==> NewToken(value, ttl, uses, now).usesLeft >= 3 && Spread(plan)
  {
    var t := NewToken(value, ttl, uses, now);
    forall joined | Within(joined, plan) && CanRaise(Fresh(t, |plan|, now), joined) ensures t.usesLeft >= 3 && Spread(plan) {
      var steps, worlds, i :| RaisingRun(Fresh(t, |plan|, now), steps, worlds, i, joined);
      NoRepeatsWithin(joined, plan);
      DistinctRaiseNeeds(value, ttl, uses, now, |plan|, steps, worlds, i);
      SpreadWithin(joined, plan);
    }
    if t.usesLeft >= 3 && Spread(plan) {
      SpreadRaises(t, plan, p, now);
    }
  }
}
