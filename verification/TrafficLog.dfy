/** The traffic recorder (internal/control/traffic.go:46-92, 182-196): a rate-limited, bounded log of
    samples in which every sample carries the growth since the previous one of its node. */
module TrafficLog {
  import opened Text
  import opened Cluster
  import opened Sorting
  import opened Network

  const RETENTION := 7 * 24 * 60 * MINUTE
  const MAX_SAMPLES: nat := 100000
  const NO_SAMPLE := TrafficSample("", 0, 0, 0, 0, 0, 0)

  function NormalizeCounters(t: TrafficCounters, now: Time): Option<TrafficCounters> {
    if t.measuredAt == 0 && t.totalIn == 0 && t.totalOut == 0 && t.connections == 0 && t.proxies == 0 then None
    else Some(TrafficCounters(NonNegative(t.totalIn), NonNegative(t.totalOut), NonNegative(t.connections), t.proxies,
                              if t.measuredAt == 0 then now else t.measuredAt))
  }

  function PositiveDelta(previous: int, current: int): int {
    if current <= previous then 0 else current - previous
  }

  /** The latest sample of a node, or the zero sample. */
  function LastFor(samples: seq<TrafficSample>, nodeId: string): TrafficSample {
    if samples == [] then NO_SAMPLE
    else if samples[|samples| - 1].nodeId == nodeId then samples[|samples| - 1]
    else LastFor(samples[..|samples| - 1], nodeId)
  }

  function Keep(samples: seq<TrafficSample>, cutoff: Time): seq<TrafficSample> {
    if samples == [] then []
    else
      var x := samples[|samples| - 1];
      Keep(samples[..|samples| - 1], cutoff) + (if x.at == 0 || x.at < cutoff then [] else [x])
  }

  function Prune(samples: seq<TrafficSample>, now: Time): seq<TrafficSample> {
    Last(Keep(samples, now - RETENTION), MAX_SAMPLES)
  }

  /** The sample that normalised counters `t` add to the log. */
  function NewSample(samples: seq<TrafficSample>, nodeId: string, t: TrafficCounters): TrafficSample {
    var p := LastFor(samples, nodeId);
    TrafficSample(nodeId, t.measuredAt, t.totalIn, t.totalOut,
                  if p.at == 0 then 0 else PositiveDelta(p.totalIn, t.totalIn),
                  if p.at == 0 then 0 else PositiveDelta(p.totalOut, t.totalOut), t.connections)
  }

  predicate TooSoon(samples: seq<TrafficSample>, nodeId: string, now: Time) {
    LastFor(samples, nodeId).at != 0 && now - LastFor(samples, nodeId).at < MINUTE
  }

  function Record(samples: seq<TrafficSample>, nodeId: string, t: TrafficCounters, now: Time): seq<TrafficSample> {
    if TooSoon(samples, nodeId, now) then samples
    else Prune(samples + [NewSample(samples, nodeId, t)], now)
  }

  /* ---------- the log invariant ---------- */

  predicate SameNode(s: seq<TrafficSample>, i: nat, j: nat)
    requires i < |s| && j < |s|
  { s[i].nodeId == s[j].nodeId }

  /** `i` and `j` are neighbouring samples of one node. */
  ghost predicate Neighbours(s: seq<TrafficSample>, i: nat, j: nat)
    requires i < j < |s|
  {
    SameNode(s, i, j) && forall k :: i < k < j ==> !SameNode(s, i, k)
  }

  /** Time-ordered, samples of one node at least a minute apart, and every delta is the growth since
      the neighbouring sample. */
  ghost predicate LogOk(s: seq<TrafficSample>, now: Time) {
    && (forall i :: 0 <= i < |s| ==> 0 < s[i].at <= now)
    && (forall i, j :: 0 <= i < j < |s| ==> s[i].at <= s[j].at)
    && (forall i, j :: 0 <= i < j < |s| && SameNode(s, i, j) ==> s[j].at - s[i].at >= MINUTE)
    && (forall i, j :: 0 <= i < j < |s| && Neighbours(s, i, j) ==>
          s[j].deltaIn == PositiveDelta(s[i].totalIn, s[j].totalIn) && s[j].deltaOut == PositiveDelta(s[i].totalOut, s[j].totalOut))
  }

  /** Pruning a time-ordered log keeps exactly the samples inside the window, which are a suffix. */
  lemma {:induction false} KeepIsSuffix(s: seq<TrafficSample>, cutoff: Time) returns (k: nat)
    requires forall i :: 0 <= i < |s| ==> s[i].at != 0
    requires forall i, j :: 0 <= i < j < |s| ==> s[i].at <= s[j].at
    ensures k <= |s| && Keep(s, cutoff) == s[k..]
    ensures forall i :: 0 <= i < |s| ==> (i < k <==> s[i].at < cutoff)
  {
    if s == [] {
      k := 0;
    } else {
      var t, x := s[..|s| - 1], s[|s| - 1];
      assert s == t + [x];
      k := KeepIsSuffix(t, cutoff);
      if x.at < cutoff {
        k := |s|;
      } else {
        assert s[k..] == t[k..] + [x];
      }
    }
  }

  lemma SuffixOk(s: seq<TrafficSample>, now: Time, k: nat)
    requires LogOk(s, now) && k <= |s|
    ensures LogOk(s[k..], now)
  {
    var t := s[k..];
    forall i: nat, j: nat | i < j < |t| && SameNode(t, i, j) ensures t[j].at - t[i].at >= MINUTE {
      assert SameNode(s, k + i, k + j);
    }
    forall i: nat, j: nat | i < j < |t| && Neighbours(t, i, j)
      ensures t[j].deltaIn == PositiveDelta(t[i].totalIn, t[j].totalIn) && t[j].deltaOut == PositiveDelta(t[i].totalOut, t[j].totalOut)
    {
      forall h | k + i < h < k + j ensures s[h].nodeId != s[k + i].nodeId {
        assert !SameNode(t, i, h - k);
      }
      assert Neighbours(s, k + i, k + j);
    }
  }

  /** A pruned log is a suffix of the log: what lies in the window, and no more than the cap. */
  lemma PruneIsSuffix(s: seq<TrafficSample>, now: Time) returns (k: nat)
    requires LogOk(s, now)
    ensures k <= |s| && Prune(s, now) == s[k..] && LogOk(Prune(s, now), now)
    ensures forall i :: k <= i < |s| ==> s[i].at >= now - RETENTION
    ensures forall i :: 0 <= i < k ==> s[i].at < now - RETENTION || |s| - k == MAX_SAMPLES
  {
    k := KeepIsSuffix(s, now - RETENTION);
    var kept := s[k..];
    if |kept| > MAX_SAMPLES {
      var d := |kept| - MAX_SAMPLES;
      assert kept[d..] == s[k + d..];
      k := k + d;
    }
    SuffixOk(s, now, k);
  }

  lemma {:induction false} LastForFacts(s: seq<TrafficSample>, nodeId: string) returns (k: int)
    ensures -1 <= k < |s|
    ensures k == -1 ==> LastFor(s, nodeId) == NO_SAMPLE
    ensures k >= 0 ==> s[k].nodeId == nodeId && LastFor(s, nodeId) == s[k]
    ensures forall i :: k < i < |s| ==> s[i].nodeId != nodeId
  {
    if s == [] {
      k := -1;
    } else if s[|s| - 1].nodeId == nodeId {
      k := |s| - 1;
    } else {
      k := LastForFacts(s[..|s| - 1], nodeId);
    }
  }

  lemma AppendOk(s: seq<TrafficSample>, last: Time, nodeId: string, t: TrafficCounters, now: Time)
    requires LogOk(s, last) && last <= now && 0 < now && t.measuredAt == now && !TooSoon(s, nodeId, now)
    ensures LogOk(s + [NewSample(s, nodeId, t)], now)
  {
    var x := NewSample(s, nodeId, t);
    var u := s + [x];
    var p := LastForFacts(s, nodeId);
    forall i: nat, j: nat | i < j < |u| && SameNode(u, i, j) ensures u[j].at - u[i].at >= MINUTE {
      if j < |s| {
        assert SameNode(s, i, j);
      } else {
        assert i <= p && (i < p ==> s[i].at <= s[p].at);
      }
    }
    forall i: nat, j: nat | i < j < |u| && Neighbours(u, i, j)
      ensures u[j].deltaIn == PositiveDelta(u[i].totalIn, u[j].totalIn) && u[j].deltaOut == PositiveDelta(u[i].totalOut, u[j].totalOut)
    {
      if j < |s| {
        forall h | i < h < j ensures !SameNode(s, i, h) { assert !SameNode(u, i, h); }
        assert Neighbours(s, i, j);
      } else {
        assert i <= p && SameNode(u, i, p);
      }
    }
  }

  /** One report by node `nodeId`, stamped by the server. */
  datatype Report = Report(nodeId: string, counters: TrafficCounters, now: Time)

  function RecordAll(s: seq<TrafficSample>, reports: seq<Report>): seq<TrafficSample> {
    if reports == [] then s
    else
      var r := reports[|reports| - 1];
      var before := RecordAll(s, reports[..|reports| - 1]);
      match NormalizeCounters(r.counters, r.now)
      case None => before
      case Some(t) => Record(before, r.nodeId, t, r.now)
  }

  function LastTime(start: Time, reports: seq<Report>): Time {
    if reports == [] then start else reports[|reports| - 1].now
  }

  ghost predicate MonotoneClock(start: Time, reports: seq<Report>) {
    && (forall i :: 0 <= i < |reports| ==> start <= reports[i].now)
    && (forall i, j :: 0 <= i < j < |reports| ==> reports[i].now <= reports[j].now)
  }

  /** Every run of server-stamped reports under a clock that does not go back keeps the log invariant. */
  lemma {:induction false} RunKeepsLogOk(s: seq<TrafficSample>, start: Time, reports: seq<Report>)
    requires LogOk(s, start) && 0 < start && MonotoneClock(start, reports)
    requires forall i :: 0 <= i < |reports| ==> reports[i].counters.measuredAt == 0
    ensures LogOk(RecordAll(s, reports), LastTime(start, reports))
  {
    if reports != [] {
      var r, rest := reports[|reports| - 1], reports[..|reports| - 1];
      RunKeepsLogOk(s, start, rest);
      var before := RecordAll(s, rest);
      match NormalizeCounters(r.counters, r.now) {
        case None =>
        case Some(t) =>
          if !TooSoon(before, r.nodeId, r.now) {
            AppendOk(before, LastTime(start, rest), r.nodeId, t, r.now);
            var _ := PruneIsSuffix(before + [NewSample(before, r.nodeId, t)], r.now);
          }
      }
    }
  }

  /* ---------- telescoping ---------- */

  datatype Direction = In | Out

  function TotalOf(x: TrafficSample, d: Direction): int { if d.In? then x.totalIn else x.totalOut }

  function DeltaOf(x: TrafficSample, d: Direction): int { if d.In? then x.deltaIn else x.deltaOut }

  /** The deltas of a node's samples at positions lo..hi-1. */
  function DeltaSum(s: seq<TrafficSample>, d: Direction, nodeId: string, lo: nat, hi: nat): int
    requires lo <= hi <= |s|
  {
    if lo == hi then 0
    else DeltaSum(s, d, nodeId, lo, hi - 1) + if s[hi - 1].nodeId == nodeId then DeltaOf(s[hi - 1], d) else 0
  }

  lemma {:induction false} DeltaSumSplit(s: seq<TrafficSample>, d: Direction, nodeId: string, lo: nat, mid: nat, hi: nat)
    requires lo <= mid <= hi <= |s|
    ensures DeltaSum(s, d, nodeId, lo, hi) == DeltaSum(s, d, nodeId, lo, mid) + DeltaSum(s, d, nodeId, mid, hi)
  {
    if mid < hi { DeltaSumSplit(s, d, nodeId, lo, mid, hi - 1); }
  }

  lemma {:induction false} DeltaSumNone(s: seq<TrafficSample>, d: Direction, nodeId: string, lo: nat, hi: nat)
    requires lo <= hi <= |s| && forall k :: lo <= k < hi ==> s[k].nodeId != nodeId
    ensures DeltaSum(s, d, nodeId, lo, hi) == 0
  {
    if lo < hi { DeltaSumNone(s, d, nodeId, lo, hi - 1); }
  }

  /** The counter of `s[i]`'s node never falls between positions i and j. */
  ghost predicate NeverDrops(s: seq<TrafficSample>, d: Direction, i: nat, j: nat)
    requires i <= j < |s|
  {
    forall a, b :: i <= a < b <= j && SameNode(s, i, a) && SameNode(s, i, b) ==> TotalOf(s[a], d) <= TotalOf(s[b], d)
  }

  /** Between two samples of a node the later deltas add up to at least the growth of its counter,
      and to exactly that growth if and only if the counter never fell in between. */
  lemma {:induction false} DeltasTelescope(s: seq<TrafficSample>, now: Time, d: Direction, i: nat, j: nat)
    requires LogOk(s, now) && i < j < |s| && SameNode(s, i, j)
    ensures DeltaSum(s, d, s[i].nodeId, i + 1, j + 1) >= TotalOf(s[j], d) - TotalOf(s[i], d)
    ensures DeltaSum(s, d, s[i].nodeId, i + 1, j + 1) == TotalOf(s[j], d) - TotalOf(s[i], d) <==> NeverDrops(s, d, i, j)
    decreases j
  {
    var p := PreviousSample(s, i, j);
    NeighbourDelta(s, now, d, p, j);
    DeltaStep(s, d, s[i].nodeId, i + 1, p, j);
    if p == i {
      AdjacentDrops(s, d, i, j);
    } else {
      DeltasTelescope(s, now, d, i, p);
      TelescopeDrops(s, d, i, p, j);
    }
  }

  lemma NeighbourDelta(s: seq<TrafficSample>, now: Time, d: Direction, p: nat, j: nat)
    requires LogOk(s, now) && p < j < |s| && Neighbours(s, p, j)
    ensures DeltaOf(s[j], d) == PositiveDelta(TotalOf(s[p], d), TotalOf(s[j], d))
  {}

  lemma DeltaStep(s: seq<TrafficSample>, d: Direction, id: string, lo: nat, p: nat, j: nat)
    requires lo <= p + 1 <= j < |s| && s[j].nodeId == id
    requires forall k :: p < k < j ==> s[k].nodeId != id
    ensures DeltaSum(s, d, id, lo, j + 1) == DeltaSum(s, d, id, lo, p + 1) + DeltaOf(s[j], d)
  {
    DeltaSumSplit(s, d, id, lo, p + 1, j);
    DeltaSumNone(s, d, id, p + 1, j);
  }

  lemma AdjacentDrops(s: seq<TrafficSample>, d: Direction, i: nat, j: nat)
    requires i < j < |s| && Neighbours(s, i, j)
    ensures NeverDrops(s, d, i, j) <==> TotalOf(s[i], d) <= TotalOf(s[j], d)
  {
    assert SameNode(s, i, i) && SameNode(s, i, j);
  }

  lemma PreviousSample(s: seq<TrafficSample>, i: nat, j: nat) returns (p: nat)
    requires i < j < |s| && SameNode(s, i, j)
    ensures i <= p < j && SameNode(s, i, p) && Neighbours(s, p, j)
    ensures forall k :: p < k < j ==> s[k].nodeId != s[i].nodeId
  {
    var q := LastForFacts(s[..j], s[i].nodeId);
    assert q >= i by { assert s[..j][i].nodeId == s[i].nodeId; }
    p := q;
    assert s[..j][p].nodeId == s[i].nodeId;
    forall k | p < k < j ensures s[k].nodeId != s[i].nodeId { assert s[..j][k].nodeId != s[i].nodeId; }
  }

  lemma TelescopeDrops(s: seq<TrafficSample>, d: Direction, i: nat, p: nat, j: nat)
    requires i < p < j < |s| && SameNode(s, i, p) && Neighbours(s, p, j)
    ensures NeverDrops(s, d, i, j) <==> NeverDrops(s, d, i, p) && TotalOf(s[p], d) <= TotalOf(s[j], d)
  {
    if NeverDrops(s, d, i, p) && TotalOf(s[p], d) <= TotalOf(s[j], d) {
      forall a, b | i <= a < b <= j && SameNode(s, i, a) && SameNode(s, i, b) ensures TotalOf(s[a], d) <= TotalOf(s[b], d) {
        assert p < a < j ==> !SameNode(s, p, a);
        assert p < b < j ==> !SameNode(s, p, b);
      }
    }
    assert SameNode(s, i, j);
  }
}
