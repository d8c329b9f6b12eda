/** The copies of one join token on many replicas that admit nodes and merge each other's states in any
    order, late or repeatedly (internal/control/token.go:56-71, internal/control/store.go:371-387). */
module TokenRuns {
  import opened Text
  import opened Cluster
  import opened Sorting
  import opened StringLists
  import opened Tokens

  /** The replicas' copies, and the nodes that each replica admitted. */
  datatype World = World(copies: seq<Option<JoinToken>>, clocks: seq<Time>, mail: set<JoinToken>, joined: seq<seq<string>>)

  datatype Step = Admit(at: nat, nodeId: string, now: Time) | Send(from: nat) | Receive(to: nat, t: JoinToken, now: Time)

  predicate Sized(w: World) { |w.copies| == |w.clocks| == |w.joined| }

  ghost predicate Enabled(w: World, s: Step)
    requires Sized(w)
  {
    match s
    case Admit(r, n, now) => r < |w.copies| && w.clocks[r] <= now && n != "" && SanitizedId(n)
    case Send(r) => r < |w.copies| && w.copies[r].Some?
    case Receive(r, t, now) => r < |w.copies| && t in w.mail && w.clocks[r] <= now
  }

  ghost function Next(w: World, s: Step): (v: World)
    requires Sized(w) && Enabled(w, s)
    ensures Sized(v) && |v.copies| == |w.copies|
  {
    match s
    case Admit(r, n, now) =>
      var c := ConsumeCopy(w.copies[r], n, now);
      var joined := if c.Some? && c != w.copies[r] then w.joined[r := w.joined[r] + [n]] else w.joined;
      w.(copies := w.copies[r := c], clocks := w.clocks[r := now], joined := joined)
    case Send(r) => w.(mail := w.mail + {w.copies[r].value})
    case Receive(r, t, now) =>
      w.(copies := w.copies[r := MergeCopy(w.copies[r], t, now)], clocks := w.clocks[r := now])
  }

  /** The step hands some copy uses back. */
  ghost predicate Raises(w: World, s: Step)
    requires Sized(w) && Enabled(w, s)
  {
    exists r :: 0 <= r < |w.copies| && UsesRise(w.copies[r], Next(w, s).copies[r])
  }

  predicate UsesRise(before: Option<JoinToken>, after: Option<JoinToken>) {
    before.Some? && after.Some? && after.value.usesLeft > before.value.usesLeft
  }

  ghost predicate IsRun(w: World, steps: seq<Step>, worlds: seq<World>) {
    && |worlds| == |steps| + 1 && worlds[0] == w
    && forall i :: 0 <= i < |steps| ==> Sized(worlds[i]) && Enabled(worlds[i], steps[i]) && worlds[i + 1] == Next(worlds[i], steps[i])
  }

  /** A new token at replica 0; the other replicas do not have it yet. */
  function Fresh(t: JoinToken, replicas: nat, now: Time): World
    requires replicas > 0
  {
    World([Some(t)] + seq(replicas - 1, _ => None), seq(replicas, _ => now), {}, seq(replicas, _ => []))
  }

  /* ---------- the joins of all replicas ---------- */

  function Flatten(plan: seq<seq<string>>): seq<string> {
    if plan == [] then [] else Flatten(plan[..|plan| - 1]) + plan[|plan| - 1]
  }

  /** How many of the joins are by nodes that have another one. */
  function Repeats(plan: seq<seq<string>>): int { |Flatten(plan)| - |Elements(Flatten(plan))| }

  /** Each replica has at most the joins of the other list, in its order. */
  predicate Within(p: seq<seq<string>>, plan: seq<seq<string>>) {
    |p| == |plan| && forall r :: 0 <= r < |p| ==> p[r] <= plan[r]
  }

  lemma {:induction false} FlattenAppend(p: seq<seq<string>>, r: nat, n: string)
    requires r < |p|
    ensures var q := p[r := p[r] + [n]];
            |Flatten(q)| == |Flatten(p)| + 1 && Elements(Flatten(q)) == Elements(Flatten(p)) + {n}
  {
    var l := |p| - 1;
    var q := p[r := p[r] + [n]];
    if r == l {
      assert q[..l] == p[..l] && q[l] == p[l] + [n];
      assert Flatten(q) == Flatten(p) + [n];
    } else {
      FlattenAppend(p[..l], r, n);
      assert q[..l] == p[..l][r := p[..l][r] + [n]] && q[l] == p[l];
      assert Elements(Flatten(q)) == Elements(Flatten(q[..l])) + Elements(p[l]);
      assert Elements(Flatten(p)) == Elements(Flatten(p[..l])) + Elements(p[l]);
    }
  }

  lemma {:induction false} ElementsAtMost(s: seq<string>)
    ensures |Elements(s)| <= |s|
  {
    if s != [] {
      var t := s[..|s| - 1];
      ElementsAtMost(t);
      assert s == t + [s[|s| - 1]];
      assert Elements(s) == Elements(t) + {s[|s| - 1]};
    }
  }

  /** Fewer joins have no more repetitions, and no other nodes. */
  lemma {:induction false} WithinCounts(p: seq<seq<string>>, plan: seq<seq<string>>)
    requires Within(p, plan)
    ensures Repeats(p) <= Repeats(plan) && Elements(Flatten(p)) <= Elements(Flatten(plan))
    ensures |Flatten(p)| <= |Flatten(plan)|
    ensures forall r :: 0 <= r < |p| ==> |Flatten(p)| - |p[r]| <= |Flatten(plan)| - |plan[r]|
  {
    if p != [] {
      var l := |p| - 1;
      WithinCounts(p[..l], plan[..l]);
      AppendCounts(Flatten(p[..l]), p[l], Flatten(plan[..l]), plan[l]);
    }
  }

  lemma AppendCounts(a: seq<string>, x: seq<string>, b: seq<string>, y: seq<string>)
    requires x <= y && Elements(a) <= Elements(b) && |a| - |Elements(a)| <= |b| - |Elements(b)|
    ensures Elements(a + x) <= Elements(b + y)
    ensures |a + x| - |Elements(a + x)| <= |b + y| - |Elements(b + y)|
  {
    var tail := y[|x|..];
    ElementsAtMost(tail);
    assert y == x + tail;
    assert Elements(a + x) == Elements(a) + Elements(x);
    assert Elements(b + y) == Elements(b) + Elements(x) + Elements(tail);
    hide Elements;
    var gained := Elements(b + y) - Elements(a + x);
    var A, B, T := Elements(a), Elements(b), Elements(tail);
    SubsetSize(gained, (B - A) + T);
    assert |(B - A) + T| <= |B - A| + |T|;
    assert |B - A| == |B| - |A|;
  }

  lemma WithinTrans(a: seq<seq<string>>, b: seq<seq<string>>, c: seq<seq<string>>)
    requires Within(a, b) && Within(b, c)
    ensures Within(a, c)
  {}

  lemma StepGrows(w: World, s: Step)
    requires Sized(w) && Enabled(w, s)
    ensures Within(w.joined, Next(w, s).joined)
  {}

  lemma {:induction false} RunGrows(w: World, steps: seq<Step>, worlds: seq<World>, i: nat, j: nat)
    requires IsRun(w, steps, worlds) && i <= j <= |steps|
    ensures Within(worlds[i].joined, worlds[j].joined)
  {
    if i < j {
      RunGrows(w, steps, worlds, i, j - 1);
      StepGrows(worlds[j - 1], steps[j - 1]);
      WithinTrans(worlds[i].joined, worlds[j - 1].joined, worlds[j].joined);
    }
  }

  ghost predicate Joiners(s: seq<string>) { forall x :: x in s ==> x != "" && SanitizedId(x) }

  lemma JoinersNormalized(users: seq<string>)
    requires Joiners(users)
    ensures Normalized(users, TrimSpace) == Elements(users)
  {
    forall x | x in users ensures TrimSpace(x) == x && x != "" { SanitizedHasNoSpace(x); }
  }

  /** What a merge of two copies does to the users. */
  lemma MergedUsers(local: JoinToken, remote: JoinToken)
    requires Joiners(local.usedBy) && Joiners(remote.usedBy) && LooksNewer(remote, local)
    ensures var m := MergeToken(local, remote);
            && m == local.(usesLeft := remote.usesLeft, expiresAt := remote.expiresAt, usedBy := m.usedBy)
            && Elements(m.usedBy) == Elements(local.usedBy) + Elements(remote.usedBy) && |m.usedBy| == |Elements(m.usedBy)|
            && Joiners(m.usedBy)
  {
    JoinersNormalized(local.usedBy);
    JoinersNormalized(remote.usedBy);
    var m := MergeToken(local, remote);
    SortedElements(Elements(local.usedBy) + Elements(remote.usedBy));
    forall x | x in m.usedBy ensures x != "" && SanitizedId(x) { assert x in Elements(m.usedBy); }
  }

  lemma SortedElements(S: set<string>)
    ensures Elements(SortedStrings(S)) == S && |SortedStrings(S)| == |S|
  {}

  /* ---------- one replica that admits nodes ---------- */

  /** Only replica `c` admits nodes. */
  predicate OnlyAt(joined: seq<seq<string>>, c: nat) {
    c < |joined| && forall r :: 0 <= r < |joined| && r != c ==> joined[r] == []
  }

  /** The token after the nodes `joiners` used it: its users in any order, and a repeated one perhaps once only. */
  ghost predicate Stage(t: JoinToken, uses: int, expiresAt: Time, joiners: seq<string>) {
    && t.usesLeft == uses - |joiners| && t.expiresAt == expiresAt
    && Elements(t.usedBy) == Elements(joiners) && |Elements(joiners)| <= |t.usedBy| <= |joiners|
  }

  /** At most one of the joins is by a node that had joined before. */
  predicate FewRepeats(s: seq<string>) { |s| <= |Elements(s)| + 1 }

  /** A prefix has no more repetitions, and no other users. */
  lemma PrefixRepeats(s: seq<string>, k: nat)
    requires k <= |s|
    ensures k - |Elements(s[..k])| <= |s| - |Elements(s)|
    ensures Elements(s[..k]) <= Elements(s)
  {
    var head, tail := s[..k], s[k..];
    assert s == head + tail;
    assert Elements(s) == Elements(head) + Elements(tail);
    ElementsAtMost(tail);
  }

  /** Merging two stages gives the later one, so the fewer uses. */
  lemma StagesMerge(local: JoinToken, remote: JoinToken, uses: int, expiresAt: Time, joiners: seq<string>, k: nat, j: nat)
    requires Joiners(joiners) && FewRepeats(joiners) && k <= |joiners| && j <= |joiners|
    requires Stage(local, uses, expiresAt, joiners[..k]) && Stage(remote, uses, expiresAt, joiners[..j])
    ensures Stage(MergeToken(local, remote), uses, expiresAt, joiners[..if k < j then j else k])
    ensures MergeToken(local, remote).usesLeft == if remote.usesLeft < local.usesLeft then remote.usesLeft else local.usesLeft
  {
    if k <= j {
      assert joiners[..j][..k] == joiners[..k];
      forall x | x in joiners[..j] ensures x in joiners {}
      LaterStageMerges(local, remote, uses, expiresAt, joiners[..j], k);
    } else {
      PrefixRepeats(joiners, k);
    }
  }

  lemma LaterStageMerges(local: JoinToken, remote: JoinToken, uses: int, expiresAt: Time, s: seq<string>, k: nat)
    requires Joiners(s) && k <= |s|
    requires Stage(local, uses, expiresAt, s[..k]) && Stage(remote, uses, expiresAt, s)
    ensures Stage(MergeToken(local, remote), uses, expiresAt, s)
    ensures MergeToken(local, remote).usesLeft == remote.usesLeft
  {
    PrefixRepeats(s, k);
    forall x | x in local.usedBy ensures x in s { assert x in Elements(local.usedBy); }
    forall x | x in remote.usedBy ensures x in s { assert x in Elements(remote.usedBy); }
    ElementsAtMost(s);
    if LooksNewer(remote, local) {
      MergedUsers(local, remote);
      assert Elements(s[..k]) + Elements(s) == Elements(s);
    } else if k == |s| {
      assert s[..k] == s;
    }
  }

  ghost predicate SomeStage(t: JoinToken, uses: int, expiresAt: Time, joiners: seq<string>) {
    exists k: nat :: k <= |joiners| && Stage(t, uses, expiresAt, joiners[..k])
  }

  /** Every copy anywhere is the token at some earlier moment; the admitting replica has the latest one,
      unless it has not received the token yet or the token has expired there. */
  ghost predicate TokenInv(w: World, c: nat, uses: int, expiresAt: Time) {
    && Sized(w) && OnlyAt(w.joined, c)
    && var joiners := w.joined[c];
    && Joiners(joiners) && FewRepeats(joiners) && |joiners| <= uses
    && (forall r :: 0 <= r < |w.copies| && w.copies[r].Some? ==> SomeStage(w.copies[r].value, uses, expiresAt, joiners))
    && (forall t :: t in w.mail ==> SomeStage(t, uses, expiresAt, joiners))
    && (if w.copies[c].Some? then Stage(w.copies[c].value, uses, expiresAt, joiners) else joiners == [] || w.clocks[c] >= expiresAt)
  }

  lemma StageStays(t: JoinToken, uses: int, expiresAt: Time, joiners: seq<string>, n: string)
    requires SomeStage(t, uses, expiresAt, joiners)
    ensures SomeStage(t, uses, expiresAt, joiners + [n])
  {
    var k: nat :| k <= |joiners| && Stage(t, uses, expiresAt, joiners[..k]);
    assert (joiners + [n])[..k] == joiners[..k];
  }

  lemma MergeKeepsStage(c: JoinToken, t: JoinToken, uses: int, expiresAt: Time, joiners: seq<string>)
    requires Joiners(joiners) && FewRepeats(joiners) && SomeStage(c, uses, expiresAt, joiners) && SomeStage(t, uses, expiresAt, joiners)
    ensures SomeStage(MergeToken(c, t), uses, expiresAt, joiners)
    ensures MergeToken(c, t).usesLeft == if t.usesLeft < c.usesLeft then t.usesLeft else c.usesLeft
    ensures Stage(c, uses, expiresAt, joiners) ==> Stage(MergeToken(c, t), uses, expiresAt, joiners)
  {
    var k: nat :| k <= |joiners| && Stage(c, uses, expiresAt, joiners[..k]);
    var j: nat :| j <= |joiners| && Stage(t, uses, expiresAt, joiners[..j]);
    StagesMerge(c, t, uses, expiresAt, joiners, k, j);
    assert Stage(MergeToken(c, t), uses, expiresAt, joiners[..if k < j then j else k]);
    assert joiners[..|joiners|] == joiners;
    if Stage(c, uses, expiresAt, joiners) {
      StagesMerge(c, t, uses, expiresAt, joiners, |joiners|, j);
    }
  }

  /** With one admitting replica and at most one repeated join no step raises the uses left of any copy, a
      merge leaves the minimum of the two, and no more than `uses` nodes are ever admitted, none of
      them at or after the expiry. */
  lemma TokenStepSafe(w: World, s: Step, c: nat, uses: int, expiresAt: Time)
    requires TokenInv(w, c, uses, expiresAt) && Enabled(w, s)
    requires OnlyAt(Next(w, s).joined, c) && FewRepeats(Next(w, s).joined[c])
    ensures TokenInv(Next(w, s), c, uses, expiresAt) && !Raises(w, s)
    ensures s.Receive? && w.copies[s.to].Some? && !Expired(s.t, s.now) ==>
              Next(w, s).copies[s.to].Some? && Next(w, s).copies[s.to].value.usesLeft ==
                if s.t.usesLeft < w.copies[s.to].value.usesLeft then s.t.usesLeft else w.copies[s.to].value.usesLeft
    ensures s.Admit? && Next(w, s).joined != w.joined ==> s.now < expiresAt
  {
    match s {
      case Admit(r, n, now) =>
        AdmitKeepsInv(w, r, n, now, c, uses, expiresAt);
      case Send(r) =>
      case Receive(r, t, now) =>
        if !Expired(t, now) && w.copies[r].Some? {
          MergeKeepsStage(w.copies[r].value, t, uses, expiresAt, w.joined[c]);
        }
        var k: nat :| k <= |w.joined[c]| && Stage(t, uses, expiresAt, w.joined[c][..k]);
    }
  }

  lemma UseKeepsStage(c: JoinToken, uses: int, expiresAt: Time, joiners: seq<string>, n: string)
    requires Stage(c, uses, expiresAt, joiners)
    ensures Stage(Used(c, n), uses, expiresAt, joiners + [n])
  {
    var d := Used(c, n);
    assert Elements(d.usedBy) == Elements(c.usedBy) + {n};
    assert Elements(joiners + [n]) == Elements(joiners) + {n};
  }

  lemma AdmitKeepsInv(w: World, r: nat, n: string, now: Time, c: nat, uses: int, expiresAt: Time)
    requires TokenInv(w, c, uses, expiresAt) && Enabled(w, Admit(r, n, now))
    requires var v := Next(w, Admit(r, n, now)); OnlyAt(v.joined, c) && FewRepeats(v.joined[c])
    ensures TokenInv(Next(w, Admit(r, n, now)), c, uses, expiresAt)
    ensures Next(w, Admit(r, n, now)).joined != w.joined ==> now < expiresAt
  {
    var v := Next(w, Admit(r, n, now));
    var j := w.joined[c];
    if v.joined != w.joined {
      assert v.joined[r] == w.joined[r] + [n] != [];
      var t := w.copies[c].value;
      assert v.joined[c] == j + [n] && v.copies[c] == Some(Used(t, n));
      UseKeepsStage(t, uses, expiresAt, j, n);
      assert |v.joined[c]| <= uses;
      hide Stage, FewRepeats;
      forall t | SomeStage(t, uses, expiresAt, j) ensures SomeStage(t, uses, expiresAt, v.joined[c]) {
        StageStays(t, uses, expiresAt, j, n);
      }
      assert v.joined[c][..|v.joined[c]|] == v.joined[c];
      assert SomeStage(v.copies[c].value, uses, expiresAt, v.joined[c]);
    }
  }

  lemma OnlyAtWithin(p: seq<seq<string>>, plan: seq<seq<string>>, c: nat)
    requires Within(p, plan) && OnlyAt(plan, c) && FewRepeats(plan[c])
    ensures OnlyAt(p, c) && FewRepeats(p[c])
  {
    assert p[c] == plan[c][..|p[c]|];
    PrefixRepeats(plan[c], |p[c]|);
  }

  /** The invariant along a whole run. */
  lemma {:induction false} TokenRunSafe(w: World, steps: seq<Step>, worlds: seq<World>, c: nat, uses: int, expiresAt: Time, i: nat)
    requires TokenInv(w, c, uses, expiresAt) && IsRun(w, steps, worlds) && i <= |steps|
    requires OnlyAt(worlds[i].joined, c) && FewRepeats(worlds[i].joined[c])
    ensures TokenInv(worlds[i], c, uses, expiresAt)
    ensures i > 0 ==> !Raises(worlds[i - 1], steps[i - 1])
  {
    if i > 0 {
      StepGrows(worlds[i - 1], steps[i - 1]);
      OnlyAtWithin(worlds[i - 1].joined, worlds[i].joined, c);
      TokenRunSafe(w, steps, worlds, c, uses, expiresAt, i - 1);
      TokenStepSafe(worlds[i - 1], steps[i - 1], c, uses, expiresAt);
    }
  }

  lemma NewTokenInv(value: string, ttl: int, uses: int, now: Time, replicas: nat, c: nat)
    requires c < replicas
    ensures var t := NewToken(value, ttl, uses, now); TokenInv(Fresh(t, replicas, now), c, t.usesLeft, t.expiresAt)
  {
    var t := NewToken(value, ttl, uses, now);
    assert Stage(t, t.usesLeft, t.expiresAt, []);
    var none: seq<string> := [];
    assert none[..0] == none;
  }

  /** From the new token on, over every run in which one replica admits all nodes and at most one join is
      repeated: no step hands uses back, and no more nodes are admitted than the token has uses. */
  lemma NewTokenRunSafe(value: string, ttl: int, uses: int, now: Time, replicas: nat, steps: seq<Step>, worlds: seq<World>, c: nat, i: nat)
    requires c < replicas && IsRun(Fresh(NewToken(value, ttl, uses, now), replicas, now), steps, worlds) && i < |steps|
    requires OnlyAt(worlds[|steps|].joined, c) && FewRepeats(worlds[|steps|].joined[c])
    ensures !Raises(worlds[i], steps[i])
    ensures |worlds[|steps|].joined[c]| <= NewToken(value, ttl, uses, now).usesLeft
  {
    var t := NewToken(value, ttl, uses, now);
    NewTokenInv(value, ttl, uses, now, replicas, c);
    var w := Fresh(t, replicas, now);
    RunGrows(w, steps, worlds, i + 1, |steps|);
    OnlyAtWithin(worlds[i + 1].joined, worlds[|steps|].joined, c);
    hide Raises, FewRepeats, Fresh, Enabled, Next, OnlyAt, Within;
    TokenRunSafe(w, steps, worlds, c, t.usesLeft, t.expiresAt, i + 1);
    TokenRunSafe(w, steps, worlds, c, t.usesLeft, t.expiresAt, |steps|);
  }
}
