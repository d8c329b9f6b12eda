/** Network scores (internal/control/service.go:573-702). */
module Network {
  import opened Text
  import opened Cluster

  function NonNegative(v: int): int { if v < 0 then 0 else v }

  function Max(a: int, b: int): int { if a < b then b else a }

  predicate HasMeasurement(n: NetworkStatus) {
    n.latencyMs > 0 || n.downloadBps > 0 || n.uploadBps > 0 || n.rxBps > 0 || n.txBps > 0 || n.bandwidthBps > 0
  }

  function EffectiveBandwidth(n: NetworkStatus): int {
    if n.bandwidthBps > 0 then n.bandwidthBps
    else if n.downloadBps > 0 && n.uploadBps > 0 then
      if n.downloadBps < n.uploadBps then n.downloadBps else n.uploadBps
    else Max(Max(Max(Max(0, n.downloadBps), n.uploadBps), n.rxBps), n.txBps)
  }

  predicate IsStale(n: NetworkStatus, now: Time) {
    n.measuredAt == 0 || now - n.measuredAt > STALE_AFTER
  }

  function LatencyScore(ms: int): int {
    if ms <= 0 then 50 else if ms <= 20 then 100 else if ms <= 50 then 90 else if ms <= 100 then 75
    else if ms <= 200 then 55 else if ms <= 500 then 30 else 15
  }

  function BandwidthScore(mbps: int): int {
    if mbps >= 1000 then 100 else if mbps >= 500 then 95 else if mbps >= 100 then 85 else if mbps >= 50 then 75
    else if mbps >= 20 then 60 else if mbps >= 10 then 50 else if mbps >= 5 then 40 else if mbps >= 1 then 25
    else if mbps > 0 then 10 else 50
  }

  function Score(n: NetworkStatus, now: Time): int {
    if !HasMeasurement(n) then 50
    else
      var s := (LatencyScore(n.latencyMs) * 45 + BandwidthScore(EffectiveBandwidth(n) / 1_000_000) * 55 + 50) / 100;
      var t := if IsStale(n, now) && s > 40 then 40 else s;
      if t < 0 then 0 else if t > 100 then 100 else t
  }

  function Refresh(n: NetworkStatus, now: Time): NetworkStatus {
    var m := if n.bandwidthBps == 0 then n.(bandwidthBps := EffectiveBandwidth(n)) else n;
    var k := m.(stale := IsStale(m, now));
    k.(score := Score(k, now))
  }

  datatype HeartbeatRequest = HeartbeatRequest(
    nodeToken: string, network: NetworkStatus, traffic: TrafficCounters,
    latencyMs: int, downloadBps: int, uploadBps: int, rxBps: int, txBps: int, bandwidthBps: int)

  function OrElse(v: int, fallback: int): int { if v == 0 then fallback else v }

  /** The measurement a heartbeat carries, if any. */
  function HeartbeatNetwork(req: HeartbeatRequest, now: Time): Option<NetworkStatus> {
    var n := req.network.(
      latencyMs := NonNegative(OrElse(req.network.latencyMs, req.latencyMs)),
      downloadBps := NonNegative(OrElse(req.network.downloadBps, req.downloadBps)),
      uploadBps := NonNegative(OrElse(req.network.uploadBps, req.uploadBps)),
      rxBps := NonNegative(OrElse(req.network.rxBps, req.rxBps)),
      txBps := NonNegative(OrElse(req.network.txBps, req.txBps)),
      bandwidthBps := NonNegative(OrElse(req.network.bandwidthBps, req.bandwidthBps)));
    if !HasMeasurement(n) then None
    else
      var b := if n.bandwidthBps == 0 then n.(bandwidthBps := EffectiveBandwidth(n)) else n;
      var m := (if b.measuredAt == 0 then b.(measuredAt := now) else b).(stale := false);
      Some(m.(score := Score(m, now)))
  }

  /* ---------- properties ---------- */

  /** The bandwidth of a link: the given one; or else, when both directions are measured, that of the slower
      one; or else the largest measured value. */
  predicate Carries(n: NetworkStatus, bps: int) {
    if n.bandwidthBps > 0 then bps == n.bandwidthBps
    else if n.downloadBps > 0 && n.uploadBps > 0 then
      bps <= n.downloadBps && bps <= n.uploadBps && (bps == n.downloadBps || bps == n.uploadBps)
    else
      && bps >= 0 && bps >= n.downloadBps && bps >= n.uploadBps && bps >= n.rxBps && bps >= n.txBps
      && (bps == 0 || bps == n.downloadBps || bps == n.uploadBps || bps == n.rxBps || bps == n.txBps)
  }

  lemma CarriesOne(n: NetworkStatus, bps: int)
    ensures Carries(n, bps) <==> bps == EffectiveBandwidth(n)
  {}

  /** A refresh fills in that bandwidth if none is given, and changes no other measured value. */
  lemma RefreshedBandwidth(n: NetworkStatus, now: Time)
    ensures var m := Refresh(n, now);
            && (n.bandwidthBps == 0 ==> Carries(n, m.bandwidthBps)) && (n.bandwidthBps != 0 ==> m.bandwidthBps == n.bandwidthBps)
            && m.latencyMs == n.latencyMs && m.downloadBps == n.downloadBps && m.uploadBps == n.uploadBps
            && m.rxBps == n.rxBps && m.txBps == n.txBps && m.measuredAt == n.measuredAt
            && (m.stale <==> n.measuredAt == 0 || now - n.measuredAt > 2 * 60 * 1_000_000_000)
  {
    CarriesOne(n, EffectiveBandwidth(n));
  }

  /** Making only the faster of two measured directions faster changes neither the bandwidth nor the score. */
  lemma FasterDirectionIsFree(n: NetworkStatus, down: int, up: int, now: Time)
    requires n.downloadBps > 0 && n.uploadBps > 0 && down >= n.downloadBps && up >= n.uploadBps
    requires (down == n.downloadBps && n.uploadBps >= n.downloadBps) || (up == n.uploadBps && n.downloadBps >= n.uploadBps)
    ensures var m := n.(downloadBps := down, uploadBps := up);
            Score(m, now) == Score(n, now) && Refresh(m, now).bandwidthBps == Refresh(n, now).bandwidthBps
  {}

  /** The value of the first step whose bound is reached, or the last value. */
  predicate FirstReached(steps: seq<(int, int)>, x: int, last: int, value: int) {
    (exists i :: 0 <= i < |steps| && steps[i].0 <= x && steps[i].1 == value && forall j :: 0 <= j < i ==> x < steps[j].0)
    || (value == last && forall i :: 0 <= i < |steps| ==> x < steps[i].0)
  }

  const MBPS_STEPS := [(1000, 100), (500, 95), (100, 85), (50, 75), (20, 60), (10, 50), (5, 40), (1, 25)]
  const LATENCY_STEPS := [(-20, 100), (-50, 90), (-100, 75), (-200, 55), (-500, 30)]

  lemma LatencySteps(ms: int, value: int)
    requires ms > 0 && FirstReached(LATENCY_STEPS, -ms, 15, value)
    ensures value == LatencyScore(ms)
  {
    var s := LATENCY_STEPS;
    assert s[0].0 == -20 && s[1].0 == -50 && s[2].0 == -100 && s[3].0 == -200 && s[4].0 == -500;
  }

  lemma BandwidthSteps(mbps: int, value: int)
    requires mbps >= 0 && FirstReached(MBPS_STEPS, mbps, 50, value)
    ensures value == BandwidthScore(mbps)
  {
    var s := MBPS_STEPS;
    assert s[0].0 == 1000 && s[1].0 == 500 && s[2].0 == 100 && s[3].0 == 50 && s[4].0 == 20 && s[5].0 == 10 && s[6].0 == 5 && s[7].0 == 1;
  }

  /** The latency counts 45 and the bandwidth in whole Mbps 55 of 100, each by its steps; an unknown latency
      and less than 1 Mbps count as 50, and a stale measurement at most 40. */
  lemma ScoreBySteps(n: NetworkStatus, bps: int, latency: int, bandwidth: int, now: Time)
    requires HasMeasurement(n) && Carries(n, bps) && FirstReached(MBPS_STEPS, bps / 1_000_000, 50, bandwidth)
    requires if n.latencyMs <= 0 then latency == 50 else FirstReached(LATENCY_STEPS, -n.latencyMs, 15, latency)
    ensures var s := (45 * latency + 55 * bandwidth + 50) / 100;
            Score(n, now) == if IsStale(n, now) && s > 40 then 40 else s
  {
    CarriesOne(n, bps);
    ScoreRange(n, now);
    if n.latencyMs > 0 { LatencySteps(n.latencyMs, latency); }
    BandwidthSteps(bps / 1_000_000, bandwidth);
    hide FirstReached, LatencyScore, BandwidthScore, EffectiveBandwidth;
  }

  /** A score lies in 21..100; unmeasured is 50, and a stale measurement is worth 40 at most. */
  lemma ScoreRange(n: NetworkStatus, now: Time)
    ensures 21 <= Score(n, now) <= 100
    ensures HasMeasurement(n) && IsStale(n, now) ==> Score(n, now) <= 40
    ensures !HasMeasurement(n) ==> Score(n, now) == 50
  {
    var l, b := LatencyScore(n.latencyMs), BandwidthScore(EffectiveBandwidth(n) / 1_000_000);
    assert b != 10;
    assert 15 <= l <= 100 && 25 <= b <= 100;
    assert 2100 <= l * 45 + b * 55 + 50 <= 10050;
  }

  /** Waiting never improves a score. */
  lemma ScoreFadesWithTime(n: NetworkStatus, t0: Time, t1: Time)
    requires t0 <= t1
    ensures Score(n, t1) <= Score(n, t0)
  {}

  /** Among equally fresh measurements a score grows with the bandwidth, from 1 Mbps up, and
      falls with a positive latency. */
  lemma ScoreMonotone(a: NetworkStatus, b: NetworkStatus, p: int, q: int, now: Time)
    requires HasMeasurement(a) && HasMeasurement(b) && IsStale(a, now) == IsStale(b, now)
    requires 0 < b.latencyMs <= a.latencyMs
    requires Carries(a, p) && Carries(b, q) && 1_000_000 <= p <= q
    ensures Score(a, now) <= Score(b, now)
  {
    CarriesOne(a, p);
    CarriesOne(b, q);
    var x, y := EffectiveBandwidth(a) / 1_000_000, EffectiveBandwidth(b) / 1_000_000;
    assert 1 <= x <= y;
    assert LatencyScore(a.latencyMs) <= LatencyScore(b.latencyMs);
    assert BandwidthScore(x) <= BandwidthScore(y);
    assert LatencyScore(a.latencyMs) * 45 + BandwidthScore(x) * 55 + 50 <= LatencyScore(b.latencyMs) * 45 + BandwidthScore(y) * 55 + 50;
  }

  /** Below 1 Mbps the bandwidth term is 50, so a link gets a better score by being slower:
      exactly when the faster one reaches 1 Mbps but not 10 Mbps. */
  lemma SlowLinkWinsIff(slow: int, fast: int)
    requires 0 < slow < 1_000_000 <= fast
    ensures BandwidthScore(slow / 1_000_000) > BandwidthScore(fast / 1_000_000) <==> fast < 10_000_000
  {
    assert slow / 1_000_000 == 0;
    assert fast / 1_000_000 >= 10 <==> fast >= 10_000_000;
    assert fast / 1_000_000 >= 1;
  }

  /** A link of 1 up to 10 Mbps scores below the cap of 40 for stale measurements. */
  predicate BelowCap(latencyMs: int, bps: int) {
    latencyMs > 200 || ((latencyMs <= 0 || latencyMs > 100) && bps < 5_000_000)
  }

  /** Of two equally fresh links with equal latency the slower one has the better score exactly when it is
      below 1 Mbps and the faster one from 1 up to 10 Mbps, and, if they are stale, the cap does not make them equal. */
  lemma SlowerScoresHigherIff(slow: NetworkStatus, fast: NetworkStatus, p: int, q: int, now: Time)
    requires HasMeasurement(slow) && HasMeasurement(fast) && IsStale(slow, now) == IsStale(fast, now)
    requires slow.latencyMs == fast.latencyMs && Carries(slow, p) && Carries(fast, q) && p < q
    ensures Score(slow, now) > Score(fast, now) <==>
            p < 1_000_000 <= q < 10_000_000 && (IsStale(fast, now) ==> BelowCap(fast.latencyMs, q))
  {
    CarriesOne(slow, p);
    CarriesOne(fast, q);
    hide EffectiveBandwidth;
    assert 0 <= p / 1_000_000 <= q / 1_000_000;
    TermsCompare(LatencyScore(fast.latencyMs), p / 1_000_000, q / 1_000_000);
    assert p / 1_000_000 == 0 <==> p < 1_000_000;
    assert 1 <= q / 1_000_000 < 10 <==> 1_000_000 <= q < 10_000_000;
    assert q / 1_000_000 < 5 <==> q < 5_000_000;
  }

  function Weighted(latency: int, bandwidth: int): int { (latency * 45 + bandwidth * 55 + 50) / 100 }

  lemma TermsCompare(latency: int, x: int, y: int)
    requires 0 <= x <= y && latency in {15, 30, 50, 55, 75, 90, 100}
    ensures var p, q := Weighted(latency, BandwidthScore(x)), Weighted(latency, BandwidthScore(y));
            && (p > q <==> x == 0 && 1 <= y < 10)
            && (x == 0 && 1 <= y < 10 ==> (q < 40 <==> latency <= 30 || (latency <= 55 && y < 5)))
  {}

  lemma EffectiveBandwidthIsFixed(n: NetworkStatus)
    ensures n.bandwidthBps == 0 ==> EffectiveBandwidth(n.(bandwidthBps := EffectiveBandwidth(n))) == EffectiveBandwidth(n)
    ensures EffectiveBandwidth(n) >= 0
    ensures n.bandwidthBps == 0 && EffectiveBandwidth(n) > 0 ==> HasMeasurement(n)
  {}

  /** Refreshing twice at one time is refreshing once, and it keeps the score of the measurement. */
  lemma RefreshIdempotent(n: NetworkStatus, now: Time)
    ensures Refresh(Refresh(n, now), now) == Refresh(n, now)
    ensures Refresh(n, now).score == Score(n, now)
  {
    EffectiveBandwidthIsFixed(n);
  }

  /** A measured heartbeat is fresh unless it carries an old time stamp, and refreshing it at once
      leaves it alone. */
  lemma HeartbeatIsRefreshed(req: HeartbeatRequest, now: Time)
    requires HeartbeatNetwork(req, now).Some? && now > 0
    ensures var n := HeartbeatNetwork(req, now).value;
            && HasMeasurement(n)
            && (req.network.measuredAt == 0 ==> !IsStale(n, now))
            && (IsStale(n, now) || Refresh(n, now) == n)
  {}

  /** The nested value, or if that is missing the flat one, and never less than 0. */
  function Measured(nested: int, flat: int): int { if nested > 0 then nested else if nested == 0 && flat > 0 then flat else 0 }

  /** What a heartbeat measures: each value nested or flat, the bandwidth filled in, at its own time or now; without
      a positive value it measures nothing. */
  lemma HeartbeatMeasures(req: HeartbeatRequest, now: Time)
    ensures var r := HeartbeatNetwork(req, now);
            var given := NetworkStatus(
              Measured(req.network.latencyMs, req.latencyMs), Measured(req.network.downloadBps, req.downloadBps),
              Measured(req.network.uploadBps, req.uploadBps), Measured(req.network.rxBps, req.rxBps),
              Measured(req.network.txBps, req.txBps), Measured(req.network.bandwidthBps, req.bandwidthBps), 0, 0, false);
            && (r.Some? <==> given.latencyMs + given.downloadBps + given.uploadBps + given.rxBps + given.txBps + given.bandwidthBps > 0)
            && (r.Some? ==>
                  && r.value.latencyMs == given.latencyMs && r.value.downloadBps == given.downloadBps && r.value.uploadBps == given.uploadBps
                  && r.value.rxBps == given.rxBps && r.value.txBps == given.txBps && Carries(given, r.value.bandwidthBps)
                  && r.value.measuredAt == (if req.network.measuredAt == 0 then now else req.network.measuredAt)
                  && !r.value.stale && r.value.score == Score(r.value, now))
  {
    MeasuredIs(req.network.latencyMs, req.latencyMs);
    MeasuredIs(req.network.downloadBps, req.downloadBps);
    MeasuredIs(req.network.uploadBps, req.uploadBps);
    MeasuredIs(req.network.rxBps, req.rxBps);
    MeasuredIs(req.network.txBps, req.txBps);
    MeasuredIs(req.network.bandwidthBps, req.bandwidthBps);
    hide Measured, NonNegative, OrElse, Score, EffectiveBandwidth, Carries;
    var given := NetworkStatus(
      Measured(req.network.latencyMs, req.latencyMs), Measured(req.network.downloadBps, req.downloadBps),
      Measured(req.network.uploadBps, req.uploadBps), Measured(req.network.rxBps, req.rxBps),
      Measured(req.network.txBps, req.txBps), Measured(req.network.bandwidthBps, req.bandwidthBps), 0, 0, false);
    LinkBandwidth(given, req.network);
    var r := HeartbeatNetwork(req, now);
    if r.Some? { ScoreIgnores(r.value, now); }
  }

  lemma ScoreIgnores(n: NetworkStatus, now: Time)
    ensures forall s :: Score(n.(score := s), now) == Score(n, now)
  {}

  lemma MeasuredIs(nested: int, flat: int)
    ensures Measured(nested, flat) == NonNegative(OrElse(nested, flat)) >= 0
  {}

  /** The bandwidth depends on the measured values only. */
  lemma LinkBandwidth(n: NetworkStatus, o: NetworkStatus)
    requires n.bandwidthBps >= 0
    ensures Carries(n, if n.bandwidthBps == 0 then EffectiveBandwidth(n) else n.bandwidthBps)
    ensures EffectiveBandwidth(n) == EffectiveBandwidth(n.(score := o.score, measuredAt := o.measuredAt, stale := o.stale))
  {
    CarriesOne(n, EffectiveBandwidth(n));
  }
}
