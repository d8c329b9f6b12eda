/** The merge of two replicas' traffic samples (internal/control/traffic.go:154-180): the later sample
    of each node and second, then the newest MAX_SAMPLES of those. */
module SampleMerge {
  import opened Text
  import opened Cluster
  import opened Sorting
  import opened TrafficLog

  datatype SampleKey = SampleKey(nodeId: string, second: int)

  function KeyOf(x: TrafficSample): SampleKey { SampleKey(x.nodeId, x.at / SECOND) }

  predicate Counted(x: TrafficSample, cutoff: Time) { x.nodeId != "" && x.at != 0 && x.at >= cutoff }

  /** byKey after the source's first loop over `s`. */
  function ByKey(s: seq<TrafficSample>, cutoff: Time): map<SampleKey, TrafficSample> {
    if s == [] then map[]
    else Absorb(ByKey(s[..|s| - 1], cutoff), s[|s| - 1], cutoff)
  }

  function Absorb(m: map<SampleKey, TrafficSample>, x: TrafficSample, cutoff: Time): map<SampleKey, TrafficSample> {
    if Counted(x, cutoff) && (KeyOf(x) !in m || x.at > m[KeyOf(x)].at) then m[KeyOf(x) := x] else m
  }

  predicate SampleLess(a: TrafficSample, b: TrafficSample) {
    if a.at == b.at then StrLess(a.nodeId, b.nodeId) else a.at < b.at
  }

  /** No two samples share a key. */
  ghost predicate Keyed(S: set<TrafficSample>) {
    forall x, y :: x in S && y in S && KeyOf(x) == KeyOf(y) ==> x == y
  }

  lemma SampleOrder(S: set<TrafficSample>)
    requires Keyed(S)
    ensures StrictTotal(SampleLess, S)
  {
    forall x, y | x in S && y in S ensures Trichotomy(SampleLess, x, y) {
      StrLessIrreflexive(x.nodeId);
      StrLessTotal(x.nodeId, y.nodeId);
      if StrLess(x.nodeId, y.nodeId) && StrLess(y.nodeId, x.nodeId) { StrLessTransitive(x.nodeId, y.nodeId, x.nodeId); }
    }
    forall x, y, z | x in S && y in S && z in S ensures Transitive(SampleLess, x, y, z) {
      SampleLessTransitive(x, y, z);
    }
  }

  lemma SampleLessTransitive(x: TrafficSample, y: TrafficSample, z: TrafficSample)
    ensures SampleLess(x, y) && SampleLess(y, z) ==> SampleLess(x, z)
  {
    if StrLess(x.nodeId, y.nodeId) && StrLess(y.nodeId, z.nodeId) { StrLessTransitive(x.nodeId, y.nodeId, z.nodeId); }
  }

  lemma {:induction false} ByKeyIsKeyed(s: seq<TrafficSample>, cutoff: Time)
    ensures forall k <- ByKey(s, cutoff) :: KeyOf(ByKey(s, cutoff)[k]) == k
    ensures Keyed(ByKey(s, cutoff).Values)
  {
    if s != [] { ByKeyIsKeyed(s[..|s| - 1], cutoff); }
  }

  ghost function MergeAll(s: seq<TrafficSample>, cap: nat, cutoff: Time): seq<TrafficSample> {
    ByKeyIsKeyed(s, cutoff);
    SampleOrder(ByKey(s, cutoff).Values);
    Last(Listing(SampleLess, ByKey(s, cutoff).Values), cap)
  }

  ghost function Merge(local: seq<TrafficSample>, remote: seq<TrafficSample>, cap: nat, now: Time): seq<TrafficSample> {
    MergeAll(local + remote, cap, now - RETENTION)
  }

  /** mergeTrafficSamples */
  method MergeTrafficSamples(local: seq<TrafficSample>, remote: seq<TrafficSample>, now: Time) returns (out: seq<TrafficSample>)
    ensures out == Merge(local, remote, MAX_SAMPLES, now) && |out| <= 100000
  {
    var all := local + remote;
    var byKey: map<SampleKey, TrafficSample> := map[];
    for i := 0 to |all|
      invariant byKey == ByKey(all[..i], now - RETENTION)
    {
      assert all[..i + 1][..i] == all[..i];
      var x := all[i];
      if !(x.nodeId == "" || x.at == 0 || x.at < now - RETENTION) {
        if KeyOf(x) !in byKey || x.at > byKey[KeyOf(x)].at {
          byKey := byKey[KeyOf(x) := x];
        }
      }
    }
    assert all[..|all|] == all;
    ByKeyIsKeyed(all, now - RETENTION);
    SampleOrder(byKey.Values);
    hide ByKey, Counted, StrictTotal;
    var todo := byKey.Keys;
    var list: seq<TrafficSample> := [];
    while todo != {}
      invariant todo <= byKey.Keys
      invariant Elements(list) == set k | k in byKey && k !in todo :: byKey[k]
      invariant Distinct(list)
      decreases todo
    {
      var k :| k in todo;
      ghost var before := Elements(list);
      list := list + [byKey[k]];
      todo := todo - {k};
      assert Elements(list) == before + {byKey[k]};
    }
    assert Elements(list) == byKey.Values;
    var a := new TrafficSample[|list|](i requires 0 <= i < |list| => list[i]);
    assert a[..] == list;
    assert a[..|list|] == list;
    SortSlice(a, |list|, SampleLess);
    out := a[..|list|];
    if |out| > MAX_SAMPLES {
      out := out[|out| - MAX_SAMPLES..];
    }
  }

  /* ---------- the merge as an operation on sets ---------- */

  /** Samples of one node and time are one sample. */
  ghost predicate Consistent(S: set<TrafficSample>) {
    forall x, y :: x in S && y in S && x.nodeId == y.nodeId && x.at == y.at ==> x == y
  }

  predicate IsBest(S: set<TrafficSample>, cutoff: Time, x: TrafficSample) {
    x in S && Counted(x, cutoff) && forall y :: y in S && KeyOf(y) == KeyOf(x) ==> y.at <= x.at
  }

  /** The latest counted sample of every key. */
  function Best(S: set<TrafficSample>, cutoff: Time): set<TrafficSample> { set x | x in S && IsBest(S, cutoff, x) }

  function Above(S: set<TrafficSample>, x: TrafficSample): set<TrafficSample> { set y | y in S && SampleLess(x, y) }

  /** The samples of `S` with fewer than `cap` newer ones. */
  function Top(S: set<TrafficSample>, cap: nat): set<TrafficSample> { set x | x in S && |Above(S, x)| < cap }

  lemma BestKeyed(S: set<TrafficSample>, cutoff: Time)
    requires Consistent(S)
    ensures Keyed(Best(S, cutoff))
  {
    forall x, y | x in Best(S, cutoff) && y in Best(S, cutoff) && KeyOf(x) == KeyOf(y) ensures x == y {
      assert IsBest(S, cutoff, x) && IsBest(S, cutoff, y);
    }
  }

  predicate Held(x: TrafficSample, k: SampleKey, s: seq<TrafficSample>, cutoff: Time) {
    x in s && KeyOf(x) == k && Counted(x, cutoff)
  }

  /** What ByKey holds, without the order of the samples. */
  lemma {:induction false} ByKeyHoldsLatest(s: seq<TrafficSample>, cutoff: Time)
    ensures forall k :: k in ByKey(s, cutoff) ==> Held(ByKey(s, cutoff)[k], k, s, cutoff)
    ensures forall y :: y in s && Counted(y, cutoff) ==> KeyOf(y) in ByKey(s, cutoff) && y.at <= ByKey(s, cutoff)[KeyOf(y)].at
  {
    if s != [] {
      var t, x := s[..|s| - 1], s[|s| - 1];
      ByKeyHoldsLatest(t, cutoff);
      assert s == t + [x];
      var m, n := ByKey(t, cutoff), ByKey(s, cutoff);
      forall k | k in n ensures Held(n[k], k, s, cutoff) {
        assert (n != m && k == KeyOf(x)) || (k in m && n[k] == m[k] && Held(m[k], k, t, cutoff));
      }
    }
  }

  lemma ByKeyIsBest(s: seq<TrafficSample>, cutoff: Time)
    requires Consistent(Elements(s))
    ensures ByKey(s, cutoff).Values == Best(Elements(s), cutoff)
  {
    var m, S := ByKey(s, cutoff), Elements(s);
    ByKeyHoldsLatest(s, cutoff);
    forall x | x in m.Values ensures x in Best(S, cutoff) {
      var k :| k in m && m[k] == x;
      assert Held(m[k], k, s, cutoff);
      assert IsBest(S, cutoff, x);
    }
    forall x | x in Best(S, cutoff) ensures x in m.Values {
      assert IsBest(S, cutoff, x) && x in s;
      var b := m[KeyOf(x)];
      assert Held(b, KeyOf(x), s, cutoff);
      assert b in S && b in m.Values && b.at == x.at;
    }
  }

  /** The last `cap` of a listing are the top `cap` of the set. */
  lemma LastIsTop(S: set<TrafficSample>, s: seq<TrafficSample>, cap: nat)
    requires StrictTotal(SampleLess, S) && Lists(SampleLess, S, s)
    ensures Lists(SampleLess, Top(S, cap), Last(s, cap))
  {
    var t := Last(s, cap);
    var d := |s| - |t|;
    forall x | x in Elements(t) ensures x in Top(S, cap) {
      var i :| 0 <= i < |t| && t[i] == x;
      assert s[d + i] == x && x in Elements(s);
      AboveAt(S, s, d + i);
    }
    forall x | x in Top(S, cap) ensures x in Elements(t) {
      assert x in Elements(s);
      var i :| 0 <= i < |s| && s[i] == x;
      AboveAt(S, s, i);
      assert t[i - d] == x;
    }
  }

  /** A set with an element outside its top has a full top, and all of the top is above that element. */
  lemma TopIsFull(S: set<TrafficSample>, cap: nat, x: TrafficSample)
    requires StrictTotal(SampleLess, S) && x in S && x !in Top(S, cap)
    ensures |Top(S, cap)| == cap
    ensures forall y :: y in Top(S, cap) ==> SampleLess(x, y)
  {
    var s := Listing(SampleLess, S);
    LastIsTop(S, s, cap);
    SubsetStrictTotal(SampleLess, S, Top(S, cap));
    SortedIsDistinct(SampleLess, Top(S, cap), Last(s, cap));
    assert x in Elements(s);
    var i :| 0 <= i < |s| && s[i] == x;
    AboveAt(S, s, i);
    forall y | y in Top(S, cap) ensures SampleLess(x, y) {
      assert y in Elements(s);
      var j :| 0 <= j < |s| && s[j] == y;
      AboveAt(S, s, j);
    }
  }

  lemma AboveAt(S: set<TrafficSample>, s: seq<TrafficSample>, i: nat)
    requires StrictTotal(SampleLess, S) && Lists(SampleLess, S, s) && i < |s|
    ensures |Above(S, s[i])| == |s| - i - 1
  {
    SortedIsDistinct(SampleLess, S, s);
    var t := s[i + 1..];
    DistinctCardinality(t);
    forall y ensures y in Above(S, s[i]) <==> y in Elements(t) {
      if y in Above(S, s[i]) {
        assert y in Elements(s) && s[i] in Elements(s);
        var j :| 0 <= j < |s| && s[j] == y;
        assert Trichotomy(SampleLess, s[i], s[j]);
        assert j > i;
        assert t[j - i - 1] == y;
      }
      if y in Elements(t) {
        var j :| 0 <= j < |t| && t[j] == y;
        assert s[i + 1 + j] == y && y in Elements(s);
      }
    }
    assert Above(S, s[i]) == Elements(t);
  }

  /** `m` lists what a merge of the samples in U keeps. */
  ghost predicate IsTop(U: set<TrafficSample>, cap: nat, cutoff: Time, m: seq<TrafficSample>) {
    Lists(SampleLess, Top(Best(U, cutoff), cap), m)
  }

  /** The last `cap` of the best samples in order are the top `cap` of them. */
  lemma NewestIsTop(U: set<TrafficSample>, cap: nat, cutoff: Time)
    requires Consistent(U)
    ensures var B := Best(U, cutoff);
            && StrictTotal(SampleLess, B)
            && Lists(SampleLess, Top(B, cap), Last(Listing(SampleLess, B), cap))
  {
    var B := Best(U, cutoff);
    BestKeyed(U, cutoff);
    SampleOrder(B);
    LastIsTop(B, Listing(SampleLess, B), cap);
  }

  lemma MergeAllIsTop(s: seq<TrafficSample>, U: set<TrafficSample>, cap: nat, cutoff: Time)
    requires Consistent(U) && Elements(s) == U
    ensures IsTop(U, cap, cutoff, MergeAll(s, cap, cutoff))
  {
    ByKeyIsBest(s, cutoff);
    NewestIsTop(U, cap, cutoff);
  }

  /** A merge lists the top of the best of both sides. */
  lemma MergeIsTopOfBest(local: seq<TrafficSample>, remote: seq<TrafficSample>, cap: nat, now: Time)
    requires Consistent(Elements(local) + Elements(remote))
    ensures IsTop(Elements(local) + Elements(remote), cap, now - RETENTION, Merge(local, remote, cap, now))
  {
    assert Elements(local + remote) == Elements(local) + Elements(remote);
    MergeAllIsTop(local + remote, Elements(local) + Elements(remote), cap, now - RETENTION);
  }

  /* ---------- truncation does not lose what matters ---------- */

  function Keys(S: set<TrafficSample>): set<SampleKey> { set x | x in S :: KeyOf(x) }

  lemma {:induction false} KeyedCardinality(S: set<TrafficSample>)
    requires Keyed(S)
    ensures |Keys(S)| == |S|
  {
    if S != {} {
      var x :| x in S;
      KeyedCardinality(S - {x});
      assert Keys(S) == Keys(S - {x}) + {KeyOf(x)};
      assert KeyOf(x) !in Keys(S - {x});
    }
  }

  /** If every key of `P` occurs in `Q` then `P` is no larger. */
  lemma KeyedSmaller(P: set<TrafficSample>, Q: set<TrafficSample>)
    requires Keyed(P) && Keyed(Q)
    requires forall x :: x in P ==> exists y :: y in Q && KeyOf(y) == KeyOf(x)
    ensures |P| <= |Q|
  {
    KeyedCardinality(P);
    KeyedCardinality(Q);
    assert Keys(P) <= Keys(Q);
    SubsetSize(Keys(P), Keys(Q));
  }

  /** Every counted sample is below or equal to the best sample of its key. */
  lemma {:induction false} BestOfKey(S: set<TrafficSample>, cutoff: Time, x: TrafficSample) returns (b: TrafficSample)
    requires x in S && Counted(x, cutoff)
    ensures b in Best(S, cutoff) && KeyOf(b) == KeyOf(x) && x.at <= b.at
    decreases set y | y in S && y.at > x.at
  {
    if IsBest(S, cutoff, x) {
      b := x;
    } else {
      var y :| y in S && KeyOf(y) == KeyOf(x) && y.at > x.at;
      var P, Q := set z | z in S && z.at > y.at, set z | z in S && z.at > x.at;
      assert y in Q && y !in P && P <= Q;
      b := BestOfKey(S, cutoff, y);
    }
  }

  /** A counted entry of one best set has no more above it than the same entry in a larger one. */
  lemma AboveGrows(A: set<TrafficSample>, U: set<TrafficSample>, early: Time, cutoff: Time, x: TrafficSample)
    requires A <= U && Consistent(U) && early <= cutoff <= x.at
    ensures |Above(Best(A, early), x)| <= |Above(Best(U, cutoff), x)|
  {
    BestKeyed(A, early);
    BestKeyed(U, cutoff);
    var P, Q := Above(Best(A, early), x), Above(Best(U, cutoff), x);
    forall y | y in P ensures exists z :: z in Q && KeyOf(z) == KeyOf(y) {
      var z := BestOfKey(U, cutoff, y);
      assert z in Q;
    }
    KeyedSmaller(P, Q);
  }

  /** The heart of the matter: what truncation drops stays outranked by every later merge, also when the
      cutoff has moved on. */
  lemma TruncationIsHarmless(A: set<TrafficSample>, C: set<TrafficSample>, cap: nat, early: Time, cutoff: Time)
    requires Consistent(A + C) && early <= cutoff
    ensures Top(Best(Top(Best(A, early), cap) + C, cutoff), cap) == Top(Best(A + C, cutoff), cap)
  {
    var T := Top(Best(A, early), cap);
    var V, W := Best(T + C, cutoff), Best(A + C, cutoff);
    forall w | w in Top(W, cap) ensures w in Top(V, cap) {
      TopSurvives(A, C, cap, early, cutoff, w);
    }
    forall v | v in Top(V, cap) ensures v in Top(W, cap) {
      NothingElseRises(A, C, cap, early, cutoff, v);
    }
  }

  lemma NothingElseRises(A: set<TrafficSample>, C: set<TrafficSample>, cap: nat, early: Time, cutoff: Time, v: TrafficSample)
    requires Consistent(A + C) && early <= cutoff
    requires var V := Best(Top(Best(A, early), cap) + C, cutoff);
             v in Top(V, cap) && Top(Best(A + C, cutoff), cap) <= Top(V, cap)
    ensures v in Top(Best(A + C, cutoff), cap)
  {
    var T := Top(Best(A, early), cap);
    var V, W := Best(T + C, cutoff), Best(A + C, cutoff);
    var w := BestOfKey(A + C, cutoff, v);
    BestKeyed(T + C, cutoff);
    BestKeyed(A + C, cutoff);
    SampleOrder(W);
    if w in Top(W, cap) {
      assert w in V && v in V;
    } else {
      TopIsFull(W, cap, w);
      forall y | y in Top(W, cap) ensures y in Above(V, v) {
        assert y in Top(V, cap) && SampleLess(w, y);
        SampleLessTransitive(v, w, y);
      }
      SubsetSize(Top(W, cap), Above(V, v));
      assert false;
    }
  }

  lemma TopSurvives(A: set<TrafficSample>, C: set<TrafficSample>, cap: nat, early: Time, cutoff: Time, w: TrafficSample)
    requires Consistent(A + C) && early <= cutoff && w in Top(Best(A + C, cutoff), cap)
    ensures w in Top(Best(Top(Best(A, early), cap) + C, cutoff), cap)
  {
    var T := Top(Best(A, early), cap);
    assert IsBest(A + C, cutoff, w);
    if w in A {
      assert IsBest(A, early, w);
      AboveGrows(A, A + C, early, cutoff, w);
      assert w in T;
    }
    assert IsBest(T + C, cutoff, w);
    AboveGrows(T + C, A + C, cutoff, cutoff, w);
  }

  /* ---------- the laws ---------- */

  lemma SubsetConsistent(S: set<TrafficSample>, R: set<TrafficSample>)
    requires Consistent(S) && R <= S
    ensures Consistent(R)
  {}

  /** A merge into a truncated merge lists what one merge of everything would keep. */
  lemma MergeChain(A: set<TrafficSample>, C: set<TrafficSample>, cap: nat, early: Time, cutoff: Time, m: seq<TrafficSample>, r: seq<TrafficSample>)
    requires Consistent(A + C) && early <= cutoff
    requires IsTop(A, cap, early, m) && IsTop(Elements(m) + C, cap, cutoff, r)
    ensures IsTop(A + C, cap, cutoff, r)
  {
    TruncationIsHarmless(A, C, cap, early, cutoff);
  }

  lemma TopUnique(U: set<TrafficSample>, cap: nat, cutoff: Time, m: seq<TrafficSample>, n: seq<TrafficSample>)
    requires Consistent(U) && IsTop(U, cap, cutoff, m) && IsTop(U, cap, cutoff, n)
    ensures m == n
  {
    TopOrder(U, cap, cutoff);
    ListingUnique(SampleLess, Top(Best(U, cutoff), cap), m, n);
  }

  lemma TopOrder(U: set<TrafficSample>, cap: nat, cutoff: Time)
    requires Consistent(U)
    ensures StrictTotal(SampleLess, Top(Best(U, cutoff), cap))
  {
    NewestIsTop(U, cap, cutoff);
    SubsetStrictTotal(SampleLess, Best(U, cutoff), Top(Best(U, cutoff), cap));
  }

  type Combine = (seq<TrafficSample>, seq<TrafficSample>) -> seq<TrafficSample>

  /** `f` lists the top of the best of both sides, as a merge does. */
  ghost predicate Merges(f: Combine, cap: nat, cutoff: Time) {
    forall a, b {:trigger IsTop(Elements(a) + Elements(b), cap, cutoff, f(a, b))} ::
      Consistent(Elements(a) + Elements(b)) ==> IsTop(Elements(a) + Elements(b), cap, cutoff, f(a, b))
  }

  lemma MergesStaysInside(f: Combine, cap: nat, cutoff: Time, a: seq<TrafficSample>, b: seq<TrafficSample>, U: set<TrafficSample>)
    requires Merges(f, cap, cutoff) && Consistent(U) && Elements(a) + Elements(b) <= U
    ensures IsTop(Elements(a) + Elements(b), cap, cutoff, f(a, b)) && Elements(f(a, b)) <= U
  {
    SubsetConsistent(U, Elements(a) + Elements(b));
  }

  lemma MergesChain(f: Combine, cap: nat, cutoff: Time, a: seq<TrafficSample>, b: seq<TrafficSample>, c: seq<TrafficSample>,
                    U: set<TrafficSample>)
    requires Merges(f, cap, cutoff) && Consistent(U) && U == Elements(a) + Elements(b) + Elements(c)
    ensures IsTop(U, cap, cutoff, f(f(a, b), c)) && IsTop(U, cap, cutoff, f(c, f(a, b)))
  {
    var m := f(a, b);
    MergesStaysInside(f, cap, cutoff, a, b, U);
    MergesStaysInside(f, cap, cutoff, m, c, U);
    MergesStaysInside(f, cap, cutoff, c, m, U);
    assert Elements(c) + Elements(m) == Elements(m) + Elements(c);
    MergeChain(Elements(a) + Elements(b), Elements(c), cap, cutoff, cutoff, m, f(m, c));
    MergeChain(Elements(a) + Elements(b), Elements(c), cap, cutoff, cutoff, m, f(c, m));
  }

  lemma MergesAssociates(f: Combine, cap: nat, cutoff: Time, a: seq<TrafficSample>, b: seq<TrafficSample>, c: seq<TrafficSample>)
    requires Merges(f, cap, cutoff) && Consistent(Elements(a) + Elements(b) + Elements(c))
    ensures f(f(a, b), c) == f(a, f(b, c))
  {
    var U := Elements(a) + Elements(b) + Elements(c);
    assert U == Elements(b) + Elements(c) + Elements(a);
    MergesChain(f, cap, cutoff, a, b, c, U);
    MergesChain(f, cap, cutoff, b, c, a, U);
    TopUnique(U, cap, cutoff, f(f(a, b), c), f(a, f(b, c)));
  }

  lemma MergesCommutes(f: Combine, cap: nat, cutoff: Time, a: seq<TrafficSample>, b: seq<TrafficSample>)
    requires Merges(f, cap, cutoff) && Consistent(Elements(a) + Elements(b))
    ensures f(a, b) == f(b, a)
  {
    var U := Elements(a) + Elements(b);
    assert U == Elements(b) + Elements(a);
    MergesStaysInside(f, cap, cutoff, a, b, U);
    MergesStaysInside(f, cap, cutoff, b, a, U);
    TopUnique(U, cap, cutoff, f(a, b), f(b, a));
  }

  lemma MergesAbsorbs(f: Combine, cap: nat, cutoff: Time, a: seq<TrafficSample>, b: seq<TrafficSample>, x: seq<TrafficSample>)
    requires Merges(f, cap, cutoff) && Consistent(Elements(a) + Elements(b)) && (x == b || x == f(a, b))
    ensures f(f(a, b), x) == f(a, b)
  {
    var U := Elements(a) + Elements(b);
    MergesStaysInside(f, cap, cutoff, a, b, U);
    assert U == Elements(a) + Elements(b) + Elements(x);
    MergesChain(f, cap, cutoff, a, b, x, U);
    TopUnique(U, cap, cutoff, f(f(a, b), x), f(a, b));
  }

  lemma MergeMerges(f: Combine, cap: nat, now: Time)
    requires forall a, b :: f(a, b) == Merge(a, b, cap, now)
    ensures Merges(f, cap, now - RETENTION)
  {
    forall a, b | Consistent(Elements(a) + Elements(b))
      ensures IsTop(Elements(a) + Elements(b), cap, now - RETENTION, f(a, b))
    {
      MergeIsTopOfBest(a, b, cap, now);
    }
  }

  lemma MergeCommutes(a: seq<TrafficSample>, b: seq<TrafficSample>, cap: nat, now: Time)
    requires Consistent(Elements(a) + Elements(b))
    ensures Merge(a, b, cap, now) == Merge(b, a, cap, now)
  {
    var f := (x, y) => Merge(x, y, cap, now);
    MergeMerges(f, cap, now);
    MergesCommutes(f, cap, now - RETENTION, a, b);
  }

  /** One cutoff and one cap: merging is associative although every merge truncates. */
  lemma MergeAssociates(a: seq<TrafficSample>, b: seq<TrafficSample>, c: seq<TrafficSample>, cap: nat, now: Time)
    requires Consistent(Elements(a) + Elements(b) + Elements(c))
    ensures Merge(Merge(a, b, cap, now), c, cap, now) == Merge(a, Merge(b, c, cap, now), cap, now)
  {
    var f := (x, y) => Merge(x, y, cap, now);
    MergeMerges(f, cap, now);
    MergesAssociates(f, cap, now - RETENTION, a, b, c);
  }

  /** Merging again with something already merged changes nothing. */
  lemma MergeAbsorbs(a: seq<TrafficSample>, b: seq<TrafficSample>, x: seq<TrafficSample>, cap: nat, now: Time)
    requires Consistent(Elements(a) + Elements(b))
    requires x == b || x == Merge(a, b, cap, now)
    ensures Merge(Merge(a, b, cap, now), x, cap, now) == Merge(a, b, cap, now)
  {
    var f := (y, z) => Merge(y, z, cap, now);
    MergeMerges(f, cap, now);
    MergesAbsorbs(f, cap, now - RETENTION, a, b, x);
  }

  /** Two samples of one node and time that differ are merged in favour of the side that is first:
      for single samples order matters exactly then. */
  lemma SingleMergeCommutesIff(x: TrafficSample, y: TrafficSample, now: Time)
    requires x.nodeId == y.nodeId && x.at == y.at && Counted(x, now - RETENTION)
    ensures Merge([x], [y], MAX_SAMPLES, now) == Merge([y], [x], MAX_SAMPLES, now) <==> x == y
  {
    FirstWins(x, y, now);
    FirstWins(y, x, now);
  }

  lemma FirstWins(x: TrafficSample, y: TrafficSample, now: Time)
    requires x.nodeId == y.nodeId && x.at == y.at && Counted(x, now - RETENTION)
    ensures Elements(Merge([x], [y], MAX_SAMPLES, now)) == {x}
  {
    var c := now - RETENTION;
    assert [x] + [y] == [x, y] && [x, y][..1] == [x];
    assert ByKey([x], c) == Absorb(map[], x, c) == map[KeyOf(x) := x];
    assert ByKey([x, y], c) == Absorb(map[KeyOf(x) := x], y, c) == map[KeyOf(x) := x];
    ByKeyIsKeyed([x, y], c);
    assert ByKey([x, y], c).Values == {x};
    SampleOrder({x});
    var s := Listing(SampleLess, {x});
    SortedIsDistinct(SampleLess, {x}, s);
    assert |s| == 1;
  }

  /** After a pull and a later push the peer has what one merge of both logs at the later time gives. */
  lemma PushedSamples(a: seq<TrafficSample>, b: seq<TrafficSample>, cap: nat, pulledAt: Time, now: Time)
    requires Consistent(Elements(a) + Elements(b)) && pulledAt <= now
    ensures Merge(b, Merge(a, b, cap, pulledAt), cap, now) == Merge(a, b, cap, now)
  {
    hide IsTop, Consistent, Elements, Merge, MergeAll, ByKey, Top, Best;
    var U, B, m := Elements(a) + Elements(b), Elements(b), Merge(a, b, cap, pulledAt);
    MergeIsTopOfBest(a, b, cap, pulledAt);
    MergeIsTopOfBest(a, b, cap, now);
    TopInside(U, cap, pulledAt - RETENTION, m);
    assert B + Elements(m) <= U;
    SubsetConsistent(U, B + Elements(m));
    MergeIsTopOfBest(b, m, cap, now);
    ChainUnique(U, B, cap, pulledAt - RETENTION, now - RETENTION, m, Merge(b, m, cap, now), Merge(a, b, cap, now));
  }

  lemma TopInside(U: set<TrafficSample>, cap: nat, cutoff: Time, m: seq<TrafficSample>)
    requires IsTop(U, cap, cutoff, m)
    ensures Elements(m) <= U
  {
    var T := Top(Best(U, cutoff), cap);
    assert Elements(m) == T;
    assert T <= U;
  }

  lemma ChainUnique(U: set<TrafficSample>, B: set<TrafficSample>, cap: nat, early: Time, cutoff: Time,
                    m: seq<TrafficSample>, r: seq<TrafficSample>, d: seq<TrafficSample>)
    requires Consistent(U) && B <= U && early <= cutoff
    requires IsTop(U, cap, early, m) && IsTop(B + Elements(m), cap, cutoff, r) && IsTop(U, cap, cutoff, d)
    ensures r == d
  {
    hide IsTop, Consistent, Elements;
    assert U + B == U;
    assert B + Elements(m) == Elements(m) + B;
    MergeChain(U, B, cap, early, cutoff, m, r);
    TopUnique(U, cap, cutoff, r, d);
  }
}
