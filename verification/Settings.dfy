/** What replicas make of each other's settings (internal/control/store.go:294-317, 343-345): nothing, but
    that a replica without an authentication token takes over a peer's. */
module Settings {
  import opened Cluster
  import opened Gossip
  import opened Replicas
  import opened Steps

  /** A merge keeps the local settings; only a missing authentication token becomes the peer's. */
  lemma MergedSettings(st: State, remote: State, now: Time)
    requires KeyedById(st) && KeyedById(remote)
    ensures var c, d, m := st.config, remote.config, MergeState(st, remote, now).config;
            && m.autoMigration == c.autoMigration && m.scoreGap == c.scoreGap && m.publicUrl == c.publicUrl
            && m.authToken == if c.authToken != "" then c.authToken else d.authToken
  {}

  /** The own update of a replica that a step is, if it is one. */
  predicate Updates(s: Step, r: nat) { s.Local? && s.at == r && s.op.OpConfig? }

  /** The last position that the replica's own updates name for the migration switch. */
  function LastSwitch(steps: seq<Step>, r: nat, start: bool): bool {
    if steps == [] then start
    else
      var s := steps[|steps| - 1];
      if Updates(s, r) && s.op.auto.Some? then s.op.auto.value else LastSwitch(steps[..|steps| - 1], r, start)
  }

  /** The last gap that they name and that is not refused. */
  function LastGap(steps: seq<Step>, r: nat, start: int): int {
    if steps == [] then start
    else
      var s := steps[|steps| - 1];
      if Updates(s, r) && s.op.gap.Some? && s.op.gap.value >= 0 then s.op.gap.value else LastGap(steps[..|steps| - 1], r, start)
  }

  /** What one step of the world does to the settings of replica `r`. */
  lemma StepSettings(w: World, s: Step, stable: bool, r: nat)
    requires WorldKeyed(w) && Enabled(w, s, stable) && r < |w.replicas|
    ensures var v := Next(w, s, stable);
            && |v.replicas| == |w.replicas|
            && var c, d := w.replicas[r].state.config, v.replicas[r].state.config;
            && d.autoMigration == (if Updates(s, r) && s.op.auto.Some? then s.op.auto.value else c.autoMigration)
            && d.scoreGap == (if Updates(s, r) && s.op.gap.Some? && s.op.gap.value >= 0 then s.op.gap.value else c.scoreGap)
            && d.publicUrl == c.publicUrl
            && d.authToken == if c.authToken == "" && s.Deliver? && s.to == r then s.message.state.config.authToken else c.authToken
  {
    match s {
      case Local(q, op, now) =>
        if q == r { LocalSettings(w.replicas[r].state, op, now); }
      case Send(_) =>
      case Deliver(q, m, now) =>
        if q == r { MergedSettings(w.replicas[r].state, m.state, now); }
    }
  }

  lemma LocalSettings(st: State, op: Op, now: Time)
    requires KeyedById(st)
    ensures var c, d := st.config, Apply(st, op, now).config;
            && d.autoMigration == (if op.OpConfig? && op.auto.Some? then op.auto.value else c.autoMigration)
            && d.scoreGap == (if op.OpConfig? && op.gap.Some? && op.gap.value >= 0 then op.gap.value else c.scoreGap)
            && d.publicUrl == c.publicUrl && d.authToken == c.authToken
  {
    BeforeKeyed(st, op, now);
    BeforeShape(st, op, now);
    SettleShape(Before(st, op, now), now);
  }

  /** In every run each replica's switch and gap are what its own updates named last, whatever its peers
      have; its public URL never changes. */
  lemma {:induction false} RunSettings(worlds: seq<World>, steps: seq<Step>, stable: bool, i: nat, r: nat)
    requires IsRun(worlds, steps, stable) && i <= |steps| && r < |worlds[0].replicas|
    ensures |worlds[i].replicas| == |worlds[0].replicas|
    ensures var c, d := worlds[0].replicas[r].state.config, worlds[i].replicas[r].state.config;
            && d.autoMigration == LastSwitch(steps[..i], r, c.autoMigration)
            && d.scoreGap == LastGap(steps[..i], r, c.scoreGap)
            && d.publicUrl == c.publicUrl
  {
    hide Next, Enabled;
    if i > 0 {
      RunSettings(worlds, steps, stable, i - 1, r);
      assert steps[..i][..i - 1] == steps[..i - 1];
      StepSettings(worlds[i - 1], steps[i - 1], stable, r);
    }
  }

  /** Once a replica has an authentication token it never gets another one. */
  lemma {:induction false} TokenStays(worlds: seq<World>, steps: seq<Step>, stable: bool, i: nat, j: nat, r: nat)
    requires IsRun(worlds, steps, stable) && i <= j <= |steps| && r < |worlds[i].replicas|
    requires worlds[i].replicas[r].state.config.authToken != ""
    ensures r < |worlds[j].replicas|
    ensures worlds[j].replicas[r].state.config.authToken == worlds[i].replicas[r].state.config.authToken
  {
    hide Next, Enabled;
    if i < j {
      TokenStays(worlds, steps, stable, i, j - 1, r);
      StepSettings(worlds[j - 1], steps[j - 1], stable, r);
    }
  }

  /** Some replica started with this token. */
  ghost predicate StartedWith(w: World, token: string) {
    exists r :: 0 <= r < |w.replicas| && w.replicas[r].state.config.authToken == token
  }

  ghost predicate TokensStarted(start: World, w: World) {
    && (forall r :: 0 <= r < |w.replicas| ==> StartedWith(start, w.replicas[r].state.config.authToken))
    && (forall m :: m in w.mail ==> StartedWith(start, m.state.config.authToken))
  }

  /** ... and no token spreads that no replica started with. */
  lemma {:induction false} TokensSpread(worlds: seq<World>, steps: seq<Step>, stable: bool, i: nat)
    requires IsRun(worlds, steps, stable) && worlds[0].mail == {} && i <= |steps|
    ensures TokensStarted(worlds[0], worlds[i])
  {
    if i > 0 {
      TokensSpread(worlds, steps, stable, i - 1);
      var w, s := worlds[i - 1], steps[i - 1];
      assert Enabled(w, s, stable);
      forall r | 0 <= r < |w.replicas| ensures StartedWith(worlds[0], worlds[i].replicas[r].state.config.authToken) {
        StepSettings(w, s, stable, r);
      }
      NextShape(w, s, stable);
    }
  }

  lemma NextShape(w: World, s: Step, stable: bool)
    requires WorldKeyed(w) && Enabled(w, s, stable)
    ensures var v := Next(w, s, stable);
            |v.replicas| == |w.replicas| && forall m :: m in v.mail ==> m in w.mail || m in w.replicas
  {}
}
