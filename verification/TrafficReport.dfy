/** The traffic report of a replica (internal/control/traffic.go:94-152). */
module TrafficReport {
  import opened Text
  import opened Cluster
  import opened Network
  import opened Sorting
  import opened Sums
  import opened TrafficLog
  import opened SampleMerge

  datatype Totals = Totals(totalIn: int, totalOut: int, deltaIn: int, deltaOut: int)
  datatype NodeTraffic = NodeTraffic(nodeId: string, totals: Totals)
  datatype Series = Series(samples: seq<TrafficSample>, totals: Totals, nodes: seq<NodeTraffic>)

  type Ledger = map<string, Totals>

  const NOTHING := Totals(0, 0, 0, 0)
  const DAY := 24 * 60 * MINUTE

  function Cutoff(window: int, now: Time): Time {
    now - (if window <= 0 || window > RETENTION then DAY else window)
  }

  function InWindow(s: seq<TrafficSample>, cutoff: Time): seq<TrafficSample> {
    if s == [] then []
    else InWindow(s[..|s| - 1], cutoff) + (if s[|s| - 1].at < cutoff then [] else [s[|s| - 1]])
  }

  /** The live counters of the nodes that have any. */
  function Live(nodes: map<string, ServerNode>, now: Time): Ledger {
    map id | id in nodes && NormalizeCounters(nodes[id].traffic, now).Some? ::
      var t := NormalizeCounters(nodes[id].traffic, now).value; Totals(t.totalIn, t.totalOut, 0, 0)
  }

  function Entry(m: Ledger, id: string): Totals { if id in m then m[id] else NOTHING }

  function Post(m: Ledger, x: TrafficSample): Ledger {
    var e := Entry(m, x.nodeId);
    m[x.nodeId := Totals(Max(e.totalIn, x.totalIn), Max(e.totalOut, x.totalOut), e.deltaIn + x.deltaIn, e.deltaOut + x.deltaOut)]
  }

  function PostAll(m: Ledger, s: seq<TrafficSample>): Ledger {
    if s == [] then m else Post(PostAll(m, s[..|s| - 1]), s[|s| - 1])
  }

  function Delta(t: Totals, d: Direction): int { if d.In? then t.deltaIn else t.deltaOut }

  function Total(t: Totals, d: Direction): int { if d.In? then t.totalIn else t.totalOut }

  function Deltas(m: Ledger, d: Direction): map<string, int> { map id | id in m :: Delta(m[id], d) }

  function Counters(m: Ledger, d: Direction): map<string, int> { map id | id in m :: Total(m[id], d) }

  function AllDeltas(s: seq<TrafficSample>, d: Direction): int {
    if s == [] then 0 else AllDeltas(s[..|s| - 1], d) + DeltaOf(s[|s| - 1], d)
  }

  /* ---------- what a ledger says ---------- */

  lemma {:induction false} DeltaSumOfPrefix(s: seq<TrafficSample>, t: seq<TrafficSample>, d: Direction, id: string, n: nat)
    requires n <= |s| && n <= |t| && s[..n] == t[..n]
    ensures DeltaSum(s, d, id, 0, n) == DeltaSum(t, d, id, 0, n)
  {
    if n > 0 {
      assert s[n - 1] == s[..n][n - 1] && t[n - 1] == t[..n][n - 1];
      assert s[..n - 1] == s[..n][..n - 1] && t[..n - 1] == t[..n][..n - 1];
      DeltaSumOfPrefix(s, t, d, id, n - 1);
    }
  }

  /** A node's delta is the sum of the deltas of its posted samples, and nothing else is listed. */
  lemma {:induction false} LedgerDeltas(m: Ledger, s: seq<TrafficSample>, d: Direction, id: string)
    ensures Delta(Entry(PostAll(m, s), id), d) == Delta(Entry(m, id), d) + DeltaSum(s, d, id, 0, |s|)
    ensures id in PostAll(m, s) <==> id in m || exists i :: 0 <= i < |s| && s[i].nodeId == id
  {
    if s != [] {
      var t := s[..|s| - 1];
      LedgerDeltas(m, t, d, id);
      DeltaSumOfPrefix(s, t, d, id, |t|);
      if id in PostAll(m, t) && id !in m {
        var i :| 0 <= i < |t| && t[i].nodeId == id;
        assert s[i].nodeId == id;
      }
      if i :| 0 <= i < |s| && s[i].nodeId == id {
        if i < |t| { assert t[i].nodeId == id; }
      }
    }
  }

  /** `v` is the maximum of `base` and the totals of the samples of node `id`. */
  ghost predicate IsPeak(base: int, s: seq<TrafficSample>, d: Direction, id: string, v: int) {
    && base <= v
    && (forall i :: 0 <= i < |s| && s[i].nodeId == id ==> TotalOf(s[i], d) <= v)
    && (v == base || exists i :: 0 <= i < |s| && s[i].nodeId == id && TotalOf(s[i], d) == v)
  }

  /** A node's total is the maximum of its live counter and of the totals of its posted samples. */
  lemma {:induction false} LedgerTotals(m: Ledger, s: seq<TrafficSample>, d: Direction, id: string)
    ensures IsPeak(Total(Entry(m, id), d), s, d, id, Total(Entry(PostAll(m, s), id), d))
  {
    if s != [] {
      var t, x := s[..|s| - 1], s[|s| - 1];
      LedgerTotals(m, t, d, id);
      var v := Total(Entry(PostAll(m, t), id), d);
      if v != Total(Entry(m, id), d) {
        var i :| 0 <= i < |t| && t[i].nodeId == id && TotalOf(t[i], d) == v;
        assert s[i].nodeId == id && TotalOf(s[i], d) == v;
      }
      forall i | 0 <= i < |s| && s[i].nodeId == id ensures TotalOf(s[i], d) <= Total(Entry(PostAll(m, s), id), d) {
        if i < |t| { assert t[i].nodeId == id; }
      }
    }
  }

  /** No traffic is lost or counted twice: the deltas of all nodes add up to those of all samples. */
  lemma {:induction false} DeltasConserved(m: Ledger, s: seq<TrafficSample>, d: Direction)
    ensures Sum(Deltas(PostAll(m, s), d)) == Sum(Deltas(m, d)) + AllDeltas(s, d)
  {
    if s != [] {
      var t, x := s[..|s| - 1], s[|s| - 1];
      DeltasConserved(m, t, d);
      var before, after := Deltas(PostAll(m, t), d), Deltas(PostAll(m, s), d);
      assert after == before[x.nodeId := Delta(Entry(PostAll(m, t), x.nodeId), d) + DeltaOf(x, d)];
      if x.nodeId in before {
        SumUpdate(before, x.nodeId, after[x.nodeId]);
      } else {
        SumAdd(before, x.nodeId, after[x.nodeId]);
      }
    }
  }

  lemma {:induction false} NoDeltas(m: map<string, int>)
    requires forall id <- m :: m[id] == 0
    ensures Sum(m) == 0
    decreases |m|
  {
    if m != map[] {
      var k :| k in m;
      SumTake(m, k);
      NoDeltas(m - {k});
    }
  }

  /** The grand delta total is the sum over the samples in the window. */
  lemma ReportConserves(nodes: map<string, ServerNode>, s: seq<TrafficSample>, d: Direction, now: Time)
    ensures Sum(Deltas(PostAll(Live(nodes, now), s), d)) == AllDeltas(s, d)
  {
    DeltasConserved(Live(nodes, now), s, d);
    NoDeltas(Deltas(Live(nodes, now), d));
  }

  /* ---------- sorting the samples ---------- */

  function InsertSample(s: seq<TrafficSample>, x: TrafficSample): seq<TrafficSample> {
    if s == [] then [x]
    else if SampleLess(x, s[|s| - 1]) then InsertSample(s[..|s| - 1], x) + [s[|s| - 1]]
    else s + [x]
  }

  /** No sample is listed after one that should come later, by time and then by node. */
  ghost predicate InOrder(s: seq<TrafficSample>) {
    forall i, j :: 0 <= i < j < |s| ==> !SampleLess(s[j], s[i])
  }

  lemma {:induction false} InsertSampleKeeps(s: seq<TrafficSample>, x: TrafficSample)
    ensures multiset(InsertSample(s, x)) == multiset(s) + multiset{x}
  {
    if s != [] {
      assert s == s[..|s| - 1] + [s[|s| - 1]];
      if SampleLess(x, s[|s| - 1]) { InsertSampleKeeps(s[..|s| - 1], x); }
    }
  }

  /** The order is weak: what is not below `y` is not below anything that `y` is not below. */
  lemma SampleLessWeak(x: TrafficSample, y: TrafficSample, z: TrafficSample)
    ensures SampleLess(x, z) ==> SampleLess(x, y) || SampleLess(y, z)
    ensures SampleLess(x, y) ==> !SampleLess(y, x)
  {
    StrLessTotal(x.nodeId, y.nodeId);
    if StrLess(y.nodeId, x.nodeId) && StrLess(x.nodeId, z.nodeId) { StrLessTransitive(y.nodeId, x.nodeId, z.nodeId); }
    if StrLess(x.nodeId, y.nodeId) && StrLess(y.nodeId, x.nodeId) { StrLessTransitive(x.nodeId, y.nodeId, x.nodeId); }
    StrLessIrreflexive(x.nodeId);
  }

  lemma {:induction false} InsertSampleSorts(s: seq<TrafficSample>, x: TrafficSample)
    requires InOrder(s)
    ensures InOrder(InsertSample(s, x))
    ensures forall y :: y in InsertSample(s, x) ==> y == x || y in s
  {
    hide SampleLess;
    if s != [] {
      var t, y := s[..|s| - 1], s[|s| - 1];
      assert s == t + [y];
      SampleLessWeak(x, y, x);
      if SampleLess(x, y) {
        InsertSampleSorts(t, x);
        var q := InsertSample(t, x);
        forall i | 0 <= i < |q| ensures !SampleLess(y, q[i]) {
          assert q[i] in q;
          if q[i] != x { var k :| 0 <= k < |t| && t[k] == q[i]; assert s[k] == t[k]; }
        }
      } else {
        forall i | 0 <= i < |s| ensures !SampleLess(x, s[i]) {
          SampleLessWeak(x, y, s[i]);
        }
      }
    }
  }

  predicate ById(a: NodeTraffic, b: NodeTraffic) { StrLess(a.nodeId, b.nodeId) }

  lemma ByIdIsStrictTotal(S: set<NodeTraffic>)
    requires forall a, b :: a in S && b in S && a.nodeId == b.nodeId ==> a == b
    ensures StrictTotal(ById, S)
  {
    forall x, y | x in S && y in S ensures Trichotomy(ById, x, y) {
      StrLessIrreflexive(x.nodeId);
      StrLessTotal(x.nodeId, y.nodeId);
      if StrLess(x.nodeId, y.nodeId) && StrLess(y.nodeId, x.nodeId) { StrLessTransitive(x.nodeId, y.nodeId, x.nodeId); }
    }
    forall x, y, z | x in S && y in S && z in S ensures Transitive(ById, x, y, z) {
      if StrLess(x.nodeId, y.nodeId) && StrLess(y.nodeId, z.nodeId) { StrLessTransitive(x.nodeId, y.nodeId, z.nodeId); }
    }
  }

  function Rows(m: Ledger): set<NodeTraffic> { set id | id in m :: NodeTraffic(id, m[id]) }

  /* ---------- the report ---------- */

  ghost function Grand(m: Ledger): Totals {
    Totals(Sum(Counters(m, In)), Sum(Counters(m, Out)), Sum(Deltas(m, In)), Sum(Deltas(m, Out)))
  }

  /** TrafficSeries: posts the live counters and every sample in the window, in any order of the nodes. */
  method TrafficSeries(nodes: map<string, ServerNode>, samples: seq<TrafficSample>, window: int, now: Time) returns (r: Series)
    requires forall id <- nodes :: nodes[id].id == id
    ensures var s := InWindow(samples, Cutoff(window, now));
            var m := PostAll(Live(nodes, now), s);
            && multiset(r.samples) == multiset(s) && InOrder(r.samples)
            && Lists(ById, Rows(m), r.nodes)
            && r.totals == Grand(m)
            && r.totals.deltaIn == AllDeltas(s, In) && r.totals.deltaOut == AllDeltas(s, Out)
    ensures forall x :: x in r.samples <==> x in samples && Covered(x, window, now)
    ensures forall row :: row in r.nodes ==> RowOf(row.totals, nodes, samples, row.nodeId, window, now)
  {
    var live := CollectLive(nodes, now);
    var ledger, listed := PostWindow(live, samples, Cutoff(window, now));
    ReportConserves(nodes, InWindow(samples, Cutoff(window, now)), In, now);
    ReportConserves(nodes, InWindow(samples, Cutoff(window, now)), Out, now);
    var totals, rows := AddUp(ledger);
    r := Series(listed, totals, rows);
    WindowFacts(samples, "", window, now);
    forall x ensures x in r.samples <==> x in multiset(r.samples) {}
    forall row | row in r.nodes ensures RowOf(row.totals, nodes, samples, row.nodeId, window, now) {
      assert row in Elements(r.nodes);
      RowsSay(nodes, samples, window, now, row.nodeId);
    }
  }

  method CollectLive(nodes: map<string, ServerNode>, now: Time) returns (m: Ledger)
    requires forall id <- nodes :: nodes[id].id == id
    ensures m == Live(nodes, now)
  {
    m := map[];
    var todo := nodes.Keys;
    while todo != {}
      invariant todo <= nodes.Keys
      invariant m == map id | id in Live(nodes, now) && id !in todo :: Live(nodes, now)[id]
      decreases todo
    {
      var id :| id in todo;
      todo := todo - {id};
      var t := NormalizeCounters(nodes[id].traffic, now);
      if t.Some? {
        m := m[nodes[id].id := Totals(t.value.totalIn, t.value.totalOut, 0, 0)];
      }
    }
  }

  method PostWindow(live: Ledger, samples: seq<TrafficSample>, cutoff: Time) returns (ledger: Ledger, listed: seq<TrafficSample>)
    ensures ledger == PostAll(live, InWindow(samples, cutoff))
    ensures multiset(listed) == multiset(InWindow(samples, cutoff)) && InOrder(listed)
  {
    ledger, listed := live, [];
    ghost var s: seq<TrafficSample> := [];
    for i := 0 to |samples|
      invariant s == InWindow(samples[..i], cutoff)
      invariant ledger == PostAll(live, s)
      invariant multiset(listed) == multiset(s) && InOrder(listed)
    {
      var x := samples[i];
      WindowStep(samples, i, cutoff);
      if !(x.at < cutoff) {
        PostStep(live, s, x);
        InsertSampleSorts(listed, x);
        InsertSampleKeeps(listed, x);
        listed := InsertSample(listed, x);
        ledger := Post(ledger, x);
        s := s + [x];
      }
    }
    assert samples[..|samples|] == samples;
  }

  lemma WindowStep(samples: seq<TrafficSample>, i: nat, cutoff: Time)
    requires i < |samples|
    ensures InWindow(samples[..i + 1], cutoff) == InWindow(samples[..i], cutoff) + (if samples[i].at < cutoff then [] else [samples[i]])
  {
    assert samples[..i + 1][..i] == samples[..i];
  }

  lemma PostStep(m: Ledger, s: seq<TrafficSample>, x: TrafficSample)
    ensures PostAll(m, s + [x]) == Post(PostAll(m, s), x)
  {
    assert (s + [x])[..|s|] == s;
  }

  method AddUp(m: Ledger) returns (t: Totals, rows: seq<NodeTraffic>)
    ensures t == Grand(m)
    ensures Lists(ById, Rows(m), rows)
  {
    t := NOTHING;
    var list: seq<NodeTraffic> := [];
    var todo := m.Keys;
    ghost var done: Ledger := map[];
    while todo != {}
      invariant todo <= m.Keys && done == map id | id in m && id !in todo :: m[id]
      invariant t == Grand(done)
      invariant Elements(list) == Rows(done) && Distinct(list)
      decreases todo
    {
      var id :| id in todo;
      todo := todo - {id};
      PostRow(done, id, m[id]);
      t := Plus(t, m[id]);
      AppendRow(list, NodeTraffic(id, m[id]));
      list := list + [NodeTraffic(id, m[id])];
      done := done[id := m[id]];
    }
    assert done == m;
    rows := SortRows(list, m);
  }

  function Plus(t: Totals, e: Totals): Totals {
    Totals(t.totalIn + e.totalIn, t.totalOut + e.totalOut, t.deltaIn + e.deltaIn, t.deltaOut + e.deltaOut)
  }

  lemma AppendRow(s: seq<NodeTraffic>, x: NodeTraffic)
    ensures Elements(s + [x]) == Elements(s) + {x}
    ensures Distinct(s) && x !in Elements(s) ==> Distinct(s + [x])
  {}

  method SortRows(list: seq<NodeTraffic>, ghost m: Ledger) returns (rows: seq<NodeTraffic>)
    requires Elements(list) == Rows(m) && Distinct(list)
    ensures Lists(ById, Rows(m), rows)
  {
    ByIdIsStrictTotal(Rows(m));
    var a := new NodeTraffic[|list|](i requires 0 <= i < |list| => list[i]);
    assert a[..] == list && a[..|list|] == list;
    SortSlice(a, |list|, ById);
    rows := a[..|list|];
  }

  lemma SumsGrow(m: Ledger, id: string, e: Totals, d: Direction)
    requires id !in m
    ensures Sum(Counters(m[id := e], d)) == Sum(Counters(m, d)) + Total(e, d)
    ensures Sum(Deltas(m[id := e], d)) == Sum(Deltas(m, d)) + Delta(e, d)
  {
    assert Counters(m[id := e], d) == Counters(m, d)[id := Total(e, d)];
    assert Deltas(m[id := e], d) == Deltas(m, d)[id := Delta(e, d)];
    SumAdd(Counters(m, d), id, Total(e, d));
    SumAdd(Deltas(m, d), id, Delta(e, d));
  }

  lemma PostRow(m: Ledger, id: string, e: Totals)
    requires id !in m
    ensures Grand(m[id := e]) == Plus(Grand(m), e)
    ensures Rows(m[id := e]) == Rows(m) + {NodeTraffic(id, e)} && NodeTraffic(id, e) !in Rows(m)
  {
    SumsGrow(m, id, e, In);
    SumsGrow(m, id, e, Out);
    var n := m[id := e];
    forall x ensures x in Rows(n) <==> x in Rows(m) || x == NodeTraffic(id, e) {
      if x in Rows(m) { assert x.nodeId in n; }
      if x == NodeTraffic(id, e) { assert id in n && n[id] == e; }
    }
  }

  /* ---------- what the report says of one node ---------- */

  /** The report covers the window asked for, or a day if that is not positive or longer than the retention. */
  predicate Covered(x: TrafficSample, window: int, now: Time) {
    now - x.at <= if 0 < window <= 7 * 24 * 60 * 60 * 1_000_000_000 then window else 24 * 60 * 60 * 1_000_000_000
  }

  /** The growth in bytes that the covered samples of a node carry. */
  function GrowthIn(s: seq<TrafficSample>, id: string, window: int, now: Time): int {
    if s == [] then 0
    else GrowthIn(s[1..], id, window, now) + if s[0].nodeId == id && Covered(s[0], window, now) then s[0].deltaIn else 0
  }

  function GrowthOut(s: seq<TrafficSample>, id: string, window: int, now: Time): int {
    if s == [] then 0
    else GrowthOut(s[1..], id, window, now) + if s[0].nodeId == id && Covered(s[0], window, now) then s[0].deltaOut else 0
  }

  /** `v` is the largest of the live counter and these counters of the node's covered samples. */
  ghost predicate Largest(v: int, live: int, s: seq<TrafficSample>, id: string, window: int, now: Time, counter: TrafficSample -> int) {
    && v >= live && (forall x :: x in s && x.nodeId == id && Covered(x, window, now) ==> counter(x) <= v)
    && (v == live || exists x :: x in s && x.nodeId == id && Covered(x, window, now) && counter(x) == v)
  }

  const TOTAL_IN: TrafficSample -> int := (x: TrafficSample) => x.totalIn
  const TOTAL_OUT: TrafficSample -> int := (x: TrafficSample) => x.totalOut

  /** The row of a node: its growth is that of its covered samples, its totals are the largest counters of the
      live ones, which are not less than 0, and of those samples. */
  ghost predicate RowOf(t: Totals, nodes: map<string, ServerNode>, s: seq<TrafficSample>, id: string, window: int, now: Time) {
    && t.deltaIn == GrowthIn(s, id, window, now) && t.deltaOut == GrowthOut(s, id, window, now)
    && Largest(t.totalIn, if id in nodes && nodes[id].traffic.totalIn > 0 then nodes[id].traffic.totalIn else 0, s, id, window, now, TOTAL_IN)
    && Largest(t.totalOut, if id in nodes && nodes[id].traffic.totalOut > 0 then nodes[id].traffic.totalOut else 0, s, id, window, now, TOTAL_OUT)
  }

  lemma {:induction false} WindowFacts(s: seq<TrafficSample>, id: string, window: int, now: Time)
    ensures var w := InWindow(s, Cutoff(window, now));
            && (forall x :: x in w <==> x in s && Covered(x, window, now))
            && DeltaSum(w, In, id, 0, |w|) == GrowthIn(s, id, window, now) && DeltaSum(w, Out, id, 0, |w|) == GrowthOut(s, id, window, now)
  {
    if s != [] {
      var t, x := s[..|s| - 1], s[|s| - 1];
      WindowFacts(t, id, window, now);
      GrowthSnoc(t, x, id, window, now);
      assert s == t + [x];
      var v, w := InWindow(t, Cutoff(window, now)), InWindow(s, Cutoff(window, now));
      assert w == if Covered(x, window, now) then v + [x] else v;
      hide Covered, Cutoff, InWindow, GrowthIn, GrowthOut;
      SumSnoc(v, x, In, id);
      SumSnoc(v, x, Out, id);
    }
  }

  lemma SumSnoc(v: seq<TrafficSample>, x: TrafficSample, d: Direction, id: string)
    ensures DeltaSum(v + [x], d, id, 0, |v| + 1) == DeltaSum(v, d, id, 0, |v|) + if x.nodeId == id then DeltaOf(x, d) else 0
  {
    DeltaSumOfPrefix(v + [x], v, d, id, |v|);
  }

  lemma {:induction false} GrowthSnoc(s: seq<TrafficSample>, x: TrafficSample, id: string, window: int, now: Time)
    ensures var counts := x.nodeId == id && Covered(x, window, now);
            && GrowthIn(s + [x], id, window, now) == GrowthIn(s, id, window, now) + (if counts then x.deltaIn else 0)
            && GrowthOut(s + [x], id, window, now) == GrowthOut(s, id, window, now) + (if counts then x.deltaOut else 0)
  {
    if s == [] {
      assert [x][1..] == [];
    } else {
      assert (s + [x])[1..] == s[1..] + [x];
      GrowthSnoc(s[1..], x, id, window, now);
    }
  }

  /** What the report says of every node, in bytes in and out, whatever the order of the maps. */
  lemma RowsSay(nodes: map<string, ServerNode>, s: seq<TrafficSample>, window: int, now: Time, id: string)
    ensures RowOf(Entry(PostAll(Live(nodes, now), InWindow(s, Cutoff(window, now))), id), nodes, s, id, window, now)
  {
    var m, w := Live(nodes, now), InWindow(s, Cutoff(window, now));
    WindowFacts(s, id, window, now);
    LedgerDeltas(m, w, In, id);
    LedgerDeltas(m, w, Out, id);
    LedgerTotals(m, w, In, id);
    LedgerTotals(m, w, Out, id);
    hide InWindow, PostAll, DeltaSum, GrowthIn, GrowthOut, Covered;
    var t := Entry(PostAll(m, w), id);
    var live := Entry(m, id);
    assert live.totalIn == if id in nodes && nodes[id].traffic.totalIn > 0 then nodes[id].traffic.totalIn else 0;
    assert live.totalOut == if id in nodes && nodes[id].traffic.totalOut > 0 then nodes[id].traffic.totalOut else 0;
    PeakIsLargest(live.totalIn, w, s, In, id, window, now, t.totalIn);
    PeakIsLargest(live.totalOut, w, s, Out, id, window, now, t.totalOut);
  }

  lemma PeakIsLargest(base: int, w: seq<TrafficSample>, s: seq<TrafficSample>, d: Direction, id: string, window: int, now: Time, v: int)
    requires IsPeak(base, w, d, id, v) && forall x :: x in w <==> x in s && Covered(x, window, now)
    ensures Largest(v, base, s, id, window, now, if d.In? then TOTAL_IN else TOTAL_OUT)
  {
    hide Covered;
    forall x | x in s && x.nodeId == id && Covered(x, window, now) ensures TotalOf(x, d) <= v {
      var i :| 0 <= i < |w| && w[i] == x;
    }
    if v != base {
      var i :| 0 <= i < |w| && w[i].nodeId == id && TotalOf(w[i], d) == v;
      assert w[i] in s;
    }
  }
}
