/** What the traffic log says about the reports it was made of (internal/control/traffic.go:46-92, 182-196):
    each sample is one report, and the deltas add up to the growth of the reported counters. */
module TrafficRuns {
  import opened Cluster
  import opened TrafficLog

  function Floor(v: int): int { if v >= 0 then v else 0 }

  /** The report carries no traffic at all. */
  predicate Silent(c: TrafficCounters) { c.totalIn == 0 && c.totalOut == 0 && c.connections == 0 && c.proxies == 0 }

  /** The sample holds what the node reported, when it reported it. */
  predicate Shows(x: TrafficSample, r: Report) {
    && x.nodeId == r.nodeId && x.at == r.now && x.totalIn == Floor(r.counters.totalIn) && x.totalOut == Floor(r.counters.totalOut)
    && x.connections == Floor(r.counters.connections)
  }

  /** A retained sample of the node is less than a minute old. */
  predicate Recent(s: seq<TrafficSample>, nodeId: string, now: Time) {
    exists i :: 0 <= i < |s| && s[i].nodeId == nodeId && now - s[i].at < 60 * 1_000_000_000
  }

  lemma RecentIsTooSoon(s: seq<TrafficSample>, last: Time, nodeId: string, now: Time)
    requires LogOk(s, last)
    ensures Recent(s, nodeId, now) <==> TooSoon(s, nodeId, now)
  {
    var k := LastForFacts(s, nodeId);
    if i :| 0 <= i < |s| && s[i].nodeId == nodeId && now - s[i].at < 60 * 1_000_000_000 {
      assert i <= k && s[i].at <= s[k].at;
    }
  }

  /** One server-stamped report: a silent one, or one within a minute of the node's last sample, leaves the log
      alone; any other one becomes the log's last sample, and old samples may go. */
  lemma ReportIsRecorded(s: seq<TrafficSample>, last: Time, r: Report) returns (k: nat)
    requires LogOk(s, last) && 0 < r.now && last <= r.now && r.counters.measuredAt == 0
    ensures LogOk(RecordAll(s, [r]), r.now) && k <= |s|
    ensures var u := RecordAll(s, [r]);
            if Silent(r.counters) || Recent(s, r.nodeId, r.now) then k == 0 && u == s
            else u != [] && u[..|u| - 1] == s[k..] && Shows(u[|u| - 1], r)
  {
    hide LogOk, Recent, RecordAll, Prune, TooSoon;
    RecentIsTooSoon(s, last, r.nodeId, r.now);
    RecordedOne(s, r);
    LogLater(s, last, r.now);
    k := 0;
    var t := NormalizeCounters(r.counters, r.now);
    if t.Some? && !TooSoon(s, r.nodeId, r.now) {
      AppendOk(s, last, r.nodeId, t.value, r.now);
      k := PrunedBeforeLast(s, NewSample(s, r.nodeId, t.value), r.now);
    }
  }

  /** The newest sample is never pruned. */
  lemma PrunedBeforeLast(s: seq<TrafficSample>, x: TrafficSample, now: Time) returns (k: nat)
    requires LogOk(s + [x], now) && x.at == now
    ensures k <= |s| && Prune(s + [x], now) == s[k..] + [x] && (s[k..] + [x])[..|s[k..]|] == s[k..] && LogOk(s[k..] + [x], now)
  {
    k := PruneIsSuffix(s + [x], now);
    hide LogOk, Prune;
    assert (s + [x])[|s|] == x;
    assert k <= |s|;
    assert (s + [x])[k..] == s[k..] + [x];
  }

  /** The sample that a report adds, at the report's own time if it has one; its deltas are the growth since the node's
      last retained sample, and 0 if there is none or the counter fell. */
  lemma {:induction false} AddedSample(s: seq<TrafficSample>, r: Report)
    requires !(Silent(r.counters) && r.counters.measuredAt == 0) && !TooSoon(s, r.nodeId, r.now)
    requires forall i :: 0 <= i < |s| ==> s[i].at != 0
    ensures exists x :: RecordAll(s, [r]) == Prune(s + [x], r.now) && Adds(s, x, r)
  {
    RecordedOne(s, r);
    var t := NormalizeCounters(r.counters, r.now).value;
    var x := NewSample(s, r.nodeId, t);
    var k := LastForFacts(s, r.nodeId);
    assert Adds(s, x, r);
  }

  ghost predicate Adds(s: seq<TrafficSample>, x: TrafficSample, r: Report) {
    && x.at == (if r.counters.measuredAt != 0 then r.counters.measuredAt else r.now)
    && x == TrafficSample(r.nodeId, x.at, Floor(r.counters.totalIn), Floor(r.counters.totalOut), x.deltaIn, x.deltaOut, Floor(r.counters.connections))
    && ((forall i :: 0 <= i < |s| ==> s[i].nodeId != r.nodeId) ==> x.deltaIn == 0 && x.deltaOut == 0)
    && forall i :: 0 <= i < |s| && LastOfNode(s, i) && s[i].nodeId == r.nodeId ==>
         && x.deltaIn == (if x.totalIn > s[i].totalIn then x.totalIn - s[i].totalIn else 0)
         && x.deltaOut == (if x.totalOut > s[i].totalOut then x.totalOut - s[i].totalOut else 0)
  }

  lemma RecordedOne(s: seq<TrafficSample>, r: Report)
    ensures var t := NormalizeCounters(r.counters, r.now);
            RecordAll(s, [r]) == if t.None? then s else Record(s, r.nodeId, t.value, r.now)
  {
    assert [r][..0] == [] && RecordAll(s, []) == s;
  }

  lemma LogLater(s: seq<TrafficSample>, last: Time, now: Time)
    requires LogOk(s, last) && last <= now
    ensures LogOk(s, now)
  {}

  /* ---------- a whole run ---------- */

  /** Every sample of the log is a report of its own, in the order of the reports. */
  ghost predicate Sources(u: seq<TrafficSample>, reports: seq<Report>, source: seq<nat>) {
    && |source| == |u| && (forall i :: 0 <= i < |u| ==> source[i] < |reports| && Shows(u[i], reports[source[i]]))
    && forall i, j :: 0 <= i < j < |u| ==> source[i] < source[j]
  }

  /** The node's report adds nothing to this last sample of it. */
  predicate Skipped(x: TrafficSample, r: Report) { Silent(r.counters) || r.now - x.at < 60 * 1_000_000_000 }

  /** No later sample is of the same node. */
  ghost predicate LastOfNode(u: seq<TrafficSample>, i: nat)
    requires i < |u|
  {
    forall j :: i < j < |u| ==> u[j].nodeId != u[i].nodeId
  }

  /** Behind the last sample of a node all its reports were skipped. */
  ghost predicate UpToDate(u: seq<TrafficSample>, reports: seq<Report>, source: seq<nat>)
    requires |source| == |u|
  {
    forall i, k :: 0 <= i < |u| && LastOfNode(u, i) && source[i] < k < |reports| && reports[k].nodeId == u[i].nodeId ==>
                     Skipped(u[i], reports[k])
  }

  /** In every run of server-stamped reports under a clock that does not go back, each retained sample shows a
      report, and behind a node's last sample there are only silent reports and such within a minute of it. */
  lemma {:induction false} RunShowsReports(start: Time, reports: seq<Report>) returns (source: seq<nat>)
    requires 0 < start && MonotoneClock(start, reports) && forall i :: 0 <= i < |reports| ==> reports[i].counters.measuredAt == 0
    ensures var u := RecordAll([], reports);
            LogOk(u, LastTime(start, reports)) && Sources(u, reports, source) && UpToDate(u, reports, source)
  {
    if reports == [] {
      source := [];
    } else {
      var rest, r := reports[..|reports| - 1], reports[|reports| - 1];
      assert reports == rest + [r];
      source := RunShowsReports(start, rest);
      var s, u := RecordAll([], rest), RecordAll([], reports);
      RecordedLast(reports);
      hide RecordAll, LogOk, Shows, Recent, Sources, UpToDate;
      var k := ReportIsRecorded(s, LastTime(start, rest), r);
      if Silent(r.counters) || Recent(s, r.nodeId, r.now) {
        SkipReport(s, rest, source, r);
      } else {
        AddReport(s, rest, source, r, u, k);
        source := source[k..] + [|rest|];
      }
    }
  }

  lemma RecordedLast(reports: seq<Report>)
    requires reports != []
    ensures var rest := reports[..|reports| - 1]; RecordAll([], reports) == RecordAll(RecordAll([], rest), [reports[|reports| - 1]])
  {
    RecordedOne(RecordAll([], reports[..|reports| - 1]), reports[|reports| - 1]);
  }

  lemma SkipReport(s: seq<TrafficSample>, rest: seq<Report>, source: seq<nat>, r: Report)
    requires Sources(s, rest, source) && UpToDate(s, rest, source) && (Silent(r.counters) || Recent(s, r.nodeId, r.now))
    requires exists last :: LogOk(s, last)
    ensures Sources(s, rest + [r], source) && UpToDate(s, rest + [r], source)
  {
    hide Shows, Silent;
    var last :| LogOk(s, last);
    assert forall i, j :: 0 <= i < j < |s| ==> s[i].at <= s[j].at;
    hide LogOk;
    forall i, k | 0 <= i < |s| && LastOfNode(s, i) && source[i] < k < |rest| + 1 && (rest + [r])[k].nodeId == s[i].nodeId
      ensures Skipped(s[i], (rest + [r])[k])
    {
      if k < |rest| {
        assert (rest + [r])[k] == rest[k];
      } else if !Silent(r.counters) {
        var j :| 0 <= j < |s| && s[j].nodeId == r.nodeId && r.now - s[j].at < 60 * 1_000_000_000;
        assert j <= i && s[j].at <= s[i].at;
      }
    }
  }

  lemma AddReport(s: seq<TrafficSample>, rest: seq<Report>, source: seq<nat>, r: Report, u: seq<TrafficSample>, k: nat)
    requires Sources(s, rest, source) && UpToDate(s, rest, source) && k <= |s|
    requires u != [] && u[..|u| - 1] == s[k..] && Shows(u[|u| - 1], r)
    ensures Sources(u, rest + [r], source[k..] + [|rest|]) && UpToDate(u, rest + [r], source[k..] + [|rest|])
  {
    var more, t := rest + [r], source[k..] + [|rest|];
    assert u[|u| - 1].nodeId == r.nodeId;
    hide Shows, Skipped;
    assert u == s[k..] + [u[|u| - 1]];
    forall i | 0 <= i < |u| ensures t[i] < |more| && Shows(u[i], more[t[i]]) {
      if i < |u| - 1 { assert u[i] == s[k + i] && t[i] == source[k + i] && more[t[i]] == rest[t[i]]; }
    }
    forall i, n | 0 <= i < |u| && LastOfNode(u, i) && t[i] < n < |more| && more[n].nodeId == u[i].nodeId
      ensures Skipped(u[i], more[n])
    {
      assert n < |rest| && more[n] == rest[n] && u[i] == s[k + i] && t[i] == source[k + i];
      forall j | k + i < j < |s| ensures s[j].nodeId != s[k + i].nodeId { assert u[j - k] == s[j]; }
      assert LastOfNode(s, k + i);
    }
  }

  function Reported(r: Report, d: Direction): int { Floor(if d.In? then r.counters.totalIn else r.counters.totalOut) }

  /** The node's reported counter never falls. */
  ghost predicate Growing(reports: seq<Report>, nodeId: string, d: Direction) {
    forall a, b :: 0 <= a < b < |reports| && reports[a].nodeId == nodeId && reports[b].nodeId == nodeId
                   ==> Reported(reports[a], d) <= Reported(reports[b], d)
  }

  /** Whatever other nodes report: if a node's counter never falls, the deltas behind any retained sample `i`
      of it add up to what its last recorded report says beyond the report of that sample. */
  lemma GrowthIsRecorded(start: Time, reports: seq<Report>, d: Direction, i: nat, last: nat) returns (source: seq<nat>)
    requires 0 < start && MonotoneClock(start, reports) && forall k :: 0 <= k < |reports| ==> reports[k].counters.measuredAt == 0
    requires var u := RecordAll([], reports);
             && i <= last < |u| && u[i].nodeId == u[last].nodeId && LastOfNode(u, last)
             && Growing(reports, u[i].nodeId, d)
    ensures var u := RecordAll([], reports);
            && Sources(u, reports, source) && UpToDate(u, reports, source)
            && DeltaSum(u, d, u[i].nodeId, i + 1, |u|) == Reported(reports[source[last]], d) - Reported(reports[source[i]], d)
  {
    source := RunShowsReports(start, reports);
    hide RecordAll, UpToDate, LogOk, MonotoneClock;
    GrowthOf(RecordAll([], reports), LastTime(start, reports), reports, source, d, i, last);
  }

  lemma {:induction false} GrowthOf(u: seq<TrafficSample>, now: Time, reports: seq<Report>, source: seq<nat>, d: Direction, i: nat, last: nat)
    requires LogOk(u, now) && Sources(u, reports, source)
    requires i <= last < |u| && u[i].nodeId == u[last].nodeId && LastOfNode(u, last) && Growing(reports, u[i].nodeId, d)
    ensures DeltaSum(u, d, u[i].nodeId, i + 1, |u|) == Reported(reports[source[last]], d) - Reported(reports[source[i]], d)
  {
    var id := u[i].nodeId;
    DeltaSumSplit(u, d, id, i + 1, last + 1, |u|);
    DeltaSumNone(u, d, id, last + 1, |u|);
    assert Shows(u[i], reports[source[i]]) && Shows(u[last], reports[source[last]]);
    if i < last {
      assert SameNode(u, i, last);
      hide LogOk, Growing;
      DeltasTelescope(u, now, d, i, last);
      SourcesGrow(u, reports, source, d, i, last);
    }
  }

  lemma SourcesGrow(u: seq<TrafficSample>, reports: seq<Report>, source: seq<nat>, d: Direction, i: nat, j: nat)
    requires Sources(u, reports, source) && i <= j < |u| && Growing(reports, u[i].nodeId, d)
    ensures NeverDrops(u, d, i, j)
  {
    forall a, b | i <= a < b <= j && SameNode(u, i, a) && SameNode(u, i, b) ensures TotalOf(u[a], d) <= TotalOf(u[b], d) {
      assert Shows(u[a], reports[source[a]]) && Shows(u[b], reports[source[b]]);
    }
  }
}
