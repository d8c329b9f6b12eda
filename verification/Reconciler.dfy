/** The client's process manager (cmd/frp-cluster/main.go:757-898): it brings the running frpc processes
    in line with the configuration files, starting before it stops. */
module Reconciler {
  import opened Text
  import opened Sorting
  import opened StringLists
  import FrpcConfig
  import FrpcFiles
  import Lww

  /** A managed process; without a pid it is only recorded, not run. */
  datatype Process = Process(pid: Option<nat>, hash: int)

  /** What the manager asks of the operating system. */
  datatype Action = Started(path: string, pid: nat) | Stopped(pid: nat) | Waited(time: int)

  /** The manager's processes, how many were ever started, and everything asked so far. */
  datatype Managed = Managed(processes: map<string, Process>, started: nat, trace: seq<Action>)

  /** The surroundings of one call: which managed processes are found exited, and for which files frpc
      can be started. */
  datatype Env = Env(noRun: bool, drain: int, exited: set<string>, startable: set<string>)

  datatype ReconcileError = ReadFailed(path: string) | StartFailed(path: string)

  /* ---------- single steps ---------- */

  /** processRunning on a managed path */
  predicate Running(m: Managed, path: string, env: Env)
    requires path in m.processes
  {
    m.processes[path].pid.None? || path !in env.exited
  }

  predicate Kept(m: Managed, path: string, hash: int, env: Env) {
    path in m.processes && m.processes[path].hash == hash && Running(m, path, env)
  }

  function Stop(m: Managed, path: string): Managed {
    if path !in m.processes then m
    else
      var p := m.processes[path];
      m.(processes := m.processes - {path}, trace := m.trace + if p.pid.Some? then [Stopped(p.pid.value)] else [])
  }

  function StopAfterDrain(m: Managed, path: string, env: Env): Managed {
    if env.drain == 0 || env.noRun then Stop(m, path) else Stop(m.(trace := m.trace + [Waited(env.drain)]), path)
  }

  function Start(m: Managed, path: string, hash: int): Managed {
    Managed(m.processes[path := Process(Some(m.started), hash)], m.started + 1, m.trace + [Started(path, m.started)])
  }

  /** The loop body for a desired file, and whether it went through. */
  function Bring(m: Managed, path: string, hash: int, env: Env): (Managed, bool) {
    if Kept(m, path, hash, env) then (m, true)
    else
      var n := Stop(m, path);
      if env.noRun then (n.(processes := n.processes[path := Process(None, hash)]), true)
      else if path in env.startable then (Start(n, path, hash), true)
      else (n, false)
  }

  /** The loop over the desired files in this order; it ends with the first that fails. */
  function BringAll(m: Managed, desired: map<string, int>, order: seq<string>, env: Env): (Managed, bool)
    requires forall p :: p in order ==> p in desired
  {
    if order == [] then (m, true)
    else
      var (n, ok) := BringAll(m, desired, order[..|order| - 1], env);
      if ok then Bring(n, order[|order| - 1], desired[order[|order| - 1]], env) else (n, false)
  }

  function DropAll(m: Managed, order: seq<string>, env: Env): Managed {
    if order == [] then m else StopAfterDrain(DropAll(m, order[..|order| - 1], env), order[|order| - 1], env)
  }

  function StopEach(m: Managed, order: seq<string>): Managed {
    if order == [] then m else Stop(StopEach(m, order[..|order| - 1]), order[|order| - 1])
  }

  /* ---------- the ledger of processes ---------- */

  function Counted(alive: set<nat>, a: Action): set<nat> {
    if a.Started? then alive + {a.pid} else if a.Stopped? then alive - {a.pid} else alive
  }

  /** The processes that were started and not stopped. */
  function Alive(trace: seq<Action>): set<nat> {
    if trace == [] then {} else Counted(Alive(trace[..|trace| - 1]), trace[|trace| - 1])
  }

  function Pids(processes: map<string, Process>): set<nat> {
    set p | p in processes && processes[p].pid.Some? :: processes[p].pid.value
  }

  /** Nothing leaks: what was started and not stopped is managed, each process under one path, and
      processes have numbers of their own. */
  ghost predicate Inv(m: Managed) {
    && Alive(m.trace) == Pids(m.processes)
    && (forall p <- m.processes :: m.processes[p].pid.Some? ==> m.processes[p].pid.value < m.started)
    && (forall p, q :: p in m.processes && q in m.processes && p != q ==> SeparatePids(m.processes[p], m.processes[q]))
  }

  predicate SeparatePids(a: Process, b: Process) { a.pid.Some? ==> a.pid != b.pid }

  lemma AliveSnoc(trace: seq<Action>, a: Action)
    ensures Alive(trace + [a]) == Counted(Alive(trace), a)
  {
    assert (trace + [a])[..|trace|] == trace;
  }

  lemma StopKeepsInv(m: Managed, path: string)
    requires Inv(m)
    ensures Inv(Stop(m, path))
  {
    if path in m.processes {
      var p, n := m.processes[path], Stop(m, path);
      if p.pid.Some? {
        AliveSnoc(m.trace, Stopped(p.pid.value));
        forall x ensures x in Pids(n.processes) <==> x in Pids(m.processes) && x != p.pid.value {
          if x in Pids(m.processes) && x != p.pid.value {
            var q :| q in m.processes && m.processes[q].pid == Some(x);
            assert q in n.processes;
          }
          if x in Pids(n.processes) {
            var q :| q in n.processes && n.processes[q].pid == Some(x);
            assert SeparatePids(m.processes[q], m.processes[path]);
          }
        }
      } else {
        assert n.trace == m.trace;
        forall x | x in Pids(m.processes) ensures x in Pids(n.processes) {
          var q :| q in m.processes && m.processes[q].pid == Some(x);
          assert q in n.processes;
        }
      }
    }
  }

  lemma PutKeepsInv(m: Managed, path: string, hash: int)
    requires Inv(m) && path !in m.processes
    ensures Inv(Start(m, path, hash))
    ensures Inv(m.(processes := m.processes[path := Process(None, hash)]))
  {
    AliveSnoc(m.trace, Started(path, m.started));
    PutPids(m.processes, path, Process(None, hash));
    PutPids(m.processes, path, Process(Some(m.started), hash));
    hide Alive, Pids;
  }

  lemma PutPids(processes: map<string, Process>, path: string, p: Process)
    requires path !in processes
    ensures Pids(processes[path := p]) == Pids(processes) + if p.pid.Some? then {p.pid.value} else {}
  {
    var n := processes[path := p];
    forall x | x in Pids(processes) ensures x in Pids(n) {
      var q :| q in processes && processes[q].pid == Some(x);
      assert q in n && n[q].pid == Some(x);
    }
    if p.pid.Some? { assert path in n; }
  }

  lemma BringKeepsInv(m: Managed, path: string, hash: int, env: Env)
    requires Inv(m)
    ensures Inv(Bring(m, path, hash, env).0)
  {
    StopKeepsInv(m, path);
    PutKeepsInv(Stop(m, path), path, hash);
    hide Inv;
  }

  lemma {:induction false} BringAllKeepsInv(m: Managed, desired: map<string, int>, order: seq<string>, env: Env)
    requires Inv(m) && forall p :: p in order ==> p in desired
    ensures Inv(BringAll(m, desired, order, env).0)
  {
    hide Inv, Bring;
    if order != [] {
      var rest, p := order[..|order| - 1], order[|order| - 1];
      BringAllKeepsInv(m, desired, rest, env);
      BringKeepsInv(BringAll(m, desired, rest, env).0, p, desired[p], env);
    }
  }

  lemma WaitKeepsInv(m: Managed, time: int)
    requires Inv(m)
    ensures Inv(m.(trace := m.trace + [Waited(time)]))
  {
    AliveSnoc(m.trace, Waited(time));
  }

  lemma {:induction false} DropAllKeepsInv(m: Managed, order: seq<string>, env: Env)
    requires Inv(m)
    ensures Inv(DropAll(m, order, env))
  {
    hide Inv, Stop;
    if order != [] {
      var rest, p := order[..|order| - 1], order[|order| - 1];
      DropAllKeepsInv(m, rest, env);
      var n := DropAll(m, rest, env);
      WaitKeepsInv(n, env.drain);
      StopKeepsInv(n, p);
      StopKeepsInv(n.(trace := n.trace + [Waited(env.drain)]), p);
    }
  }

  lemma {:induction false} StopEachKeepsInv(m: Managed, order: seq<string>)
    requires Inv(m)
    ensures Inv(StopEach(m, order))
  {
    hide Inv, Stop;
    if order != [] {
      StopEachKeepsInv(m, order[..|order| - 1]);
      StopKeepsInv(StopEach(m, order[..|order| - 1]), order[|order| - 1]);
    }
  }

  /* ---------- what the loop over the desired files does ---------- */

  predicate CanBring(m: Managed, path: string, hash: int, env: Env) {
    Kept(m, path, hash, env) || env.noRun || path in env.startable
  }

  /** The process that a brought file ends up with. */
  predicate Brought(m: Managed, n: Managed, path: string, hash: int, env: Env) {
    && path in n.processes && n.processes[path].hash == hash
    && if Kept(m, path, hash, env) then n.processes[path] == m.processes[path]
       else if env.noRun then n.processes[path].pid.None?
       else n.processes[path].pid.Some? && n.processes[path].pid.value >= m.started
  }

  predicate OldPid(m: Managed, path: string, pid: nat) { path in m.processes && m.processes[path].pid == Some(pid) }

  /** The path holds the pid and is not kept. */
  predicate Replaced(m: Managed, desired: map<string, int>, env: Env, path: string, pid: nat)
    requires path in desired
  {
    OldPid(m, path, pid) && !Kept(m, path, desired[path], env)
  }

  /** Bringing up files only starts them, with fresh processes, and stops what it replaces. */
  ghost predicate BringAction(m: Managed, a: Action, desired: map<string, int>, order: seq<string>, env: Env)
    requires forall p :: p in order ==> p in desired
  {
    if a.Started? then a.path in order && a.pid >= m.started
    else a.Stopped? && exists p :: p in order && Replaced(m, desired, env, p, a.pid)
  }

  ghost predicate BringTrace(m: Managed, n: Managed, desired: map<string, int>, order: seq<string>, env: Env)
    requires forall p :: p in order ==> p in desired
  {
    m.trace <= n.trace && forall i :: |m.trace| <= i < |n.trace| ==> BringAction(m, n.trace[i], desired, order, env)
  }

  lemma BringEffect(m: Managed, path: string, hash: int, env: Env)
    ensures var (n, ok) := Bring(m, path, hash, env);
            && (ok <==> CanBring(m, path, hash, env)) && (ok ==> Brought(m, n, path, hash, env))
            && (!ok ==> path !in n.processes)
            && n.started >= m.started && m.trace <= n.trace
            && (forall i :: |m.trace| <= i < |n.trace| ==>
                  if n.trace[i].Started? then n.trace[i].path == path && n.trace[i].pid >= m.started
                  else n.trace[i].Stopped? && OldPid(m, path, n.trace[i].pid) && !Kept(m, path, hash, env))
  {}

  lemma BringOthers(m: Managed, path: string, hash: int, env: Env, other: string)
    requires other != path
    ensures Lookup(Bring(m, path, hash, env).0.processes, other) == Lookup(m.processes, other)
  {}

  lemma {:induction false} BringAllTrace(m: Managed, desired: map<string, int>, order: seq<string>, env: Env)
    requires Distinct(order) && forall p :: p in order ==> p in desired
    ensures var n := BringAll(m, desired, order, env).0;
            n.started >= m.started && BringTrace(m, n, desired, order, env)
    ensures forall p :: p !in order ==> Lookup(BringAll(m, desired, order, env).0.processes, p) == Lookup(m.processes, p)
  {
    if order != [] {
      var rest, p := order[..|order| - 1], order[|order| - 1];
      assert order == rest + [p];
      BringAllTrace(m, desired, rest, env);
      var n, ok := BringAll(m, desired, rest, env).0, BringAll(m, desired, rest, env).1;
      var k := if ok then Bring(n, p, desired[p], env).0 else n;
      assert BringAll(m, desired, order, env).0 == k;
      NotAmong(order);
      BringEffect(n, p, desired[p], env);
      SameKept(m, n, p, desired[p], env);
      hide Bring, BringAll, Kept;
      forall q | q !in order ensures Lookup(k.processes, q) == Lookup(m.processes, q) {
        assert q !in rest;
        if ok { BringOthers(n, p, desired[p], env, q); }
      }
      forall i | |m.trace| <= i < |k.trace| ensures BringAction(m, k.trace[i], desired, order, env) {
        if i < |n.trace| {
          assert k.trace[i] == n.trace[i];
          assert BringAction(m, n.trace[i], desired, rest, env);
        } else if k.trace[i].Stopped? {
          assert Lookup(n.processes, p) == Lookup(m.processes, p);
          assert Replaced(m, desired, env, p, k.trace[i].pid);
        }
      }
    }
  }

  lemma NotAmong(order: seq<string>)
    requires Distinct(order) && order != []
    ensures order[|order| - 1] !in order[..|order| - 1]
  {}

  /** The loop goes through exactly when every file that is not kept can be started; then each file has
      its process, and a kept one the process it had. */
  lemma {:induction false} BringAllEffect(m: Managed, desired: map<string, int>, order: seq<string>, env: Env)
    requires Distinct(order) && forall p :: p in order ==> p in desired
    ensures var (n, ok) := BringAll(m, desired, order, env);
            && (ok <==> forall p :: p in order ==> CanBring(m, p, desired[p], env))
            && (ok ==> forall p :: p in order ==> Brought(m, n, p, desired[p], env))
  {
    if order != [] {
      var rest, p := order[..|order| - 1], order[|order| - 1];
      assert order == rest + [p];
      BringAllEffect(m, desired, rest, env);
      BringAllTrace(m, desired, rest, env);
      NotAmong(order);
      var n, ok := BringAll(m, desired, rest, env).0, BringAll(m, desired, rest, env).1;
      if ok {
        var h := desired[p];
        BringEffect(n, p, h, env);
        assert Lookup(n.processes, p) == Lookup(m.processes, p);
        SameKept(m, n, p, h, env);
        var k := Bring(n, p, h, env).0;
        hide Bring, BringAll, CanBring, Kept, BringTrace;
        forall q | q in rest ensures Brought(m, n, q, desired[q], env) ==> Brought(m, k, q, desired[q], env) {
          BringOthers(n, p, h, env, q);
          StillBrought(m, n, k, q, desired[q], env);
        }
        forall q | q in order ensures q in rest || q == p {}
        StillBroughtLast(m, n, k, p, h, env);
      }
    }
  }

  lemma SameKept(m: Managed, n: Managed, p: string, h: int, env: Env)
    requires Lookup(n.processes, p) == Lookup(m.processes, p)
    ensures Kept(n, p, h, env) == Kept(m, p, h, env) && CanBring(n, p, h, env) == CanBring(m, p, h, env)
  {}

  lemma StillBrought(m: Managed, n: Managed, k: Managed, q: string, h: int, env: Env)
    requires Lookup(k.processes, q) == Lookup(n.processes, q)
    ensures Brought(m, n, q, h, env) ==> Brought(m, k, q, h, env)
  {}

  lemma StillBroughtLast(m: Managed, n: Managed, k: Managed, p: string, h: int, env: Env)
    requires Lookup(n.processes, p) == Lookup(m.processes, p) && n.started >= m.started
    ensures Brought(n, k, p, h, env) ==> Brought(m, k, p, h, env)
  {}

  /* ---------- what the loop over the stale processes does ---------- */

  /** Dropping starts nothing, and stops what it drops only. */
  ghost predicate DropTrace(m: Managed, n: Managed, order: seq<string>) {
    m.trace <= n.trace && forall i :: |m.trace| <= i < |n.trace| ==> DropAction(m, n.trace[i], order)
  }

  ghost predicate DropAction(m: Managed, a: Action, order: seq<string>) {
    !a.Started? && (a.Stopped? ==> exists p :: p in order && OldPid(m, p, a.pid))
  }

  lemma DropEffect(m: Managed, path: string, env: Env)
    ensures var n := StopAfterDrain(m, path, env);
            && n.processes == m.processes - {path} && n.started == m.started
            && m.trace <= n.trace
            && forall i :: |m.trace| <= i < |n.trace| ==>
                 !n.trace[i].Started? && (n.trace[i].Stopped? ==> OldPid(m, path, n.trace[i].pid))
  {
    if path !in m.processes { assert m.processes - {path} == m.processes; }
  }

  lemma {:induction false} DropAllEffect(m: Managed, order: seq<string>, env: Env)
    ensures var n := DropAll(m, order, env);
            n.processes == m.processes - Elements(order) && n.started == m.started && DropTrace(m, n, order)
  {
    if order == [] {
      assert m.processes - Elements(order) == m.processes;
    } else {
      var rest, p := order[..|order| - 1], order[|order| - 1];
      assert order == rest + [p];
      DropAllEffect(m, rest, env);
      var n := DropAll(m, rest, env);
      DropEffect(n, p, env);
      hide StopAfterDrain;
      var k := DropAll(m, order, env);
      assert Elements(order) == Elements(rest) + {p};
      assert m.processes - Elements(rest) - {p} == m.processes - Elements(order);
      forall i | |m.trace| <= i < |k.trace| ensures DropAction(m, k.trace[i], order) {
        if i < |n.trace| {
          assert k.trace[i] == n.trace[i] && DropAction(m, n.trace[i], rest);
        } else if k.trace[i].Stopped? {
          assert OldPid(m, p, k.trace[i].pid);
        }
      }
    }
  }

  lemma {:induction false} StopEachEffect(m: Managed, order: seq<string>)
    ensures StopEach(m, order).processes == m.processes - Elements(order)
  {
    if order == [] {
      assert m.processes - Elements(order) == m.processes;
    } else {
      var rest, p := order[..|order| - 1], order[|order| - 1];
      assert order == rest + [p];
      StopEachEffect(m, rest);
      assert Elements(order) == Elements(rest) + {p};
    }
  }

  /* ---------- a whole reconciliation ---------- */

  /** The processes of files that are no longer wanted. */
  function Stale(m: Managed, desired: map<string, int>): set<string> { m.processes.Keys - desired.Keys }

  /** The pid belongs to a process that was stale when the reconciliation began, or to one that is kept. */
  ghost predicate StalePid(m: Managed, desired: map<string, int>, pid: nat) {
    exists p :: p in Stale(m, desired) && OldPid(m, p, pid)
  }

  ghost predicate KeptPid(m: Managed, desired: map<string, int>, env: Env, pid: nat) {
    exists p :: p in desired && OldPid(m, p, pid) && Kept(m, p, desired[p], env)
  }

  /** A stale process keeps running while the wanted files are brought up, whichever of them were
      brought up so far and whether or not all of them can be. */
  lemma StaleUntouched(m: Managed, desired: map<string, int>, order: seq<string>, env: Env, pid: nat, k: nat)
    requires Inv(m) && Distinct(order) && (forall p :: p in order ==> p in desired) && StalePid(m, desired, pid)
    requires |m.trace| <= k <= |BringAll(m, desired, order, env).0.trace|
    ensures pid in Alive(BringAll(m, desired, order, env).0.trace[..k])
  {
    var n := BringAll(m, desired, order, env).0;
    BringAllTrace(m, desired, order, env);
    assert n.trace[..|m.trace|] == m.trace;
    forall i | |m.trace| <= i < |n.trace| ensures !(n.trace[i].Stopped? && n.trace[i].pid == pid) {
      assert BringAction(m, n.trace[i], desired, order, env);
      if n.trace[i].Stopped? && n.trace[i].pid == pid { OnePath(m, pid, order, desired); }
    }
    StaysAlive(n.trace, |m.trace|, k, pid);
  }

  lemma OnePath(m: Managed, pid: nat, order: seq<string>, desired: map<string, int>)
    requires Inv(m) && StalePid(m, desired, pid) && forall p :: p in order ==> p in desired
    ensures !exists p :: p in order && OldPid(m, p, pid)
  {
    var s :| s in Stale(m, desired) && OldPid(m, s, pid);
    forall p | p in order ensures !OldPid(m, p, pid) {
      if p in m.processes { assert SeparatePids(m.processes[p], m.processes[s]); }
    }
  }

  lemma {:induction false} StaysAlive(trace: seq<Action>, j: nat, k: nat, pid: nat)
    requires j <= k <= |trace| && pid in Alive(trace[..j])
    requires forall i :: j <= i < |trace| ==> !(trace[i].Stopped? && trace[i].pid == pid)
    ensures pid in Alive(trace[..k])
  {
    if j < k {
      StaysAlive(trace, j, k - 1, pid);
      assert trace[..k] == trace[..k - 1] + [trace[k - 1]];
      AliveSnoc(trace[..k - 1], trace[k - 1]);
    }
  }

  /** The state after a successful reconciliation. */
  function Reconciled(m: Managed, desired: map<string, int>, order: seq<string>, stale: seq<string>, env: Env): Managed
    requires forall p :: p in order ==> p in desired
  {
    DropAll(BringAll(m, desired, order, env).0, stale, env)
  }

  /** After a success exactly the wanted files are managed, with their contents, and what was running
      with the same contents runs on. */
  lemma SuccessMatches(m: Managed, desired: map<string, int>, order: seq<string>, stale: seq<string>, env: Env)
    requires Inv(m) && Lww.Visits(order, desired) && Elements(stale) == Stale(m, desired)
    requires BringAll(m, desired, order, env).1
    ensures var f := Reconciled(m, desired, order, stale, env);
            && Inv(f) && f.processes.Keys == desired.Keys
            && forall p <- desired :: Brought(m, f, p, desired[p], env)
  {
    var n, f := BringAll(m, desired, order, env).0, Reconciled(m, desired, order, stale, env);
    BringAllEffect(m, desired, order, env);
    BringAllTrace(m, desired, order, env);
    BringAllKeepsInv(m, desired, order, env);
    DropAllEffect(n, stale, env);
    DropAllKeepsInv(n, stale, env);
    hide BringAll, DropAll, Inv, BringTrace, DropTrace;
    forall p ensures p in n.processes <==> p in desired || p in Stale(m, desired) {
      if p !in order { assert Lookup(n.processes, p) == Lookup(m.processes, p); }
    }
    forall p | p in desired ensures Brought(m, f, p, desired[p], env) {
      assert p in order && p !in Elements(stale);
      StillBrought(m, n, f, p, desired[p], env);
    }
  }

  /** Make before break: once a stale process is stopped nothing is started any more. */
  lemma StartsPrecedeStops(m: Managed, desired: map<string, int>, order: seq<string>, stale: seq<string>, env: Env, i: nat, j: nat)
    requires Inv(m) && Distinct(order) && forall p :: p in order ==> p in desired
    requires var t := Reconciled(m, desired, order, stale, env).trace;
             && |m.trace| <= i < |t| && |m.trace| <= j < |t|
             && t[i].Started? && t[j].Stopped? && StalePid(m, desired, t[j].pid)
    ensures i < j
  {
    var n := BringAll(m, desired, order, env).0;
    var t := Reconciled(m, desired, order, stale, env).trace;
    BringAllTrace(m, desired, order, env);
    DropAllEffect(n, stale, env);
    var dropped := DropAction(n, t[i], stale);
    if j < |n.trace| {
      assert BringAction(m, n.trace[j], desired, order, env);
      OnePath(m, t[j].pid, order, desired);
    }
  }

  /** A failure needs a file that is neither kept nor startable, whatever the order; that file is not
      managed afterwards, and every stale process is managed as before. */
  lemma FailureKeepsStale(m: Managed, desired: map<string, int>, order: seq<string>, env: Env)
    requires Inv(m) && Distinct(order) && (forall p :: p in order ==> p in desired)
    requires !BringAll(m, desired, order, env).1
    ensures var n := BringAll(m, desired, order, env).0;
            && Inv(n)
            && (exists p :: p in order && !CanBring(m, p, desired[p], env))
            && (forall p :: p in Stale(m, desired) ==> Lookup(n.processes, p) == Lookup(m.processes, p))
            && (forall pid :: StalePid(m, desired, pid) ==> pid in Alive(n.trace))
  {
    var n := BringAll(m, desired, order, env).0;
    BringAllEffect(m, desired, order, env);
    BringAllTrace(m, desired, order, env);
    BringAllKeepsInv(m, desired, order, env);
    forall pid | StalePid(m, desired, pid) ensures pid in Alive(n.trace) {
      BringGrows(m, n, desired, order, env);
      StaleUntouched(m, desired, order, env, pid, |n.trace|);
      assert n.trace[..|n.trace|] == n.trace;
    }
  }

  lemma BringGrows(m: Managed, n: Managed, desired: map<string, int>, order: seq<string>, env: Env)
    requires (forall p :: p in order ==> p in desired) && BringTrace(m, n, desired, order, env)
    ensures |m.trace| <= |n.trace|
  {}

  lemma OnlyHolder(m: Managed, p: string, q: string, pid: nat)
    requires Inv(m) && OldPid(m, p, pid) && OldPid(m, q, pid)
    ensures p == q
  {
    var separate := SeparatePids(m.processes[p], m.processes[q]);
  }

  lemma KeptIsOnly(m: Managed, desired: map<string, int>, env: Env, pid: nat, path: string)
    requires Inv(m) && KeptPid(m, desired, env, pid) && OldPid(m, path, pid)
    ensures path in desired && Kept(m, path, desired[path], env)
  {
    var p :| p in desired && OldPid(m, p, pid) && Kept(m, p, desired[p], env);
    OnlyHolder(m, p, path, pid);
  }

  /** A kept process is alive at every moment while the wanted files are brought up, whether or not all
      of them can be ... */
  lemma KeptUntouched(m: Managed, desired: map<string, int>, order: seq<string>, env: Env, pid: nat, k: nat)
    requires Inv(m) && Distinct(order) && (forall p :: p in order ==> p in desired) && KeptPid(m, desired, env, pid)
    requires |m.trace| <= k <= |BringAll(m, desired, order, env).0.trace|
    ensures pid in Alive(BringAll(m, desired, order, env).0.trace[..k])
  {
    var n := BringAll(m, desired, order, env).0;
    BringAllTrace(m, desired, order, env);
    assert n.trace[..|m.trace|] == m.trace;
    forall i | |m.trace| <= i < |n.trace| ensures !(n.trace[i].Stopped? && n.trace[i].pid == pid) {
      NoKeptStopped(m, desired, order, env, pid, n.trace[i]);
    }
    StaysAlive(n.trace, |m.trace|, k, pid);
  }

  lemma NoKeptStopped(m: Managed, desired: map<string, int>, order: seq<string>, env: Env, pid: nat, a: Action)
    requires Inv(m) && (forall p :: p in order ==> p in desired) && KeptPid(m, desired, env, pid)
    requires BringAction(m, a, desired, order, env)
    ensures !(a.Stopped? && a.pid == pid)
  {
    forall p | p in order ensures !Replaced(m, desired, env, p, pid) {
      if OldPid(m, p, pid) { KeptIsOnly(m, desired, env, pid, p); }
    }
  }

  /** ... and at every moment of a whole successful reconciliation. */
  lemma KeptThroughout(m: Managed, desired: map<string, int>, order: seq<string>, stale: seq<string>, env: Env, pid: nat, k: nat)
    requires Inv(m) && Distinct(order) && (forall p :: p in order ==> p in desired) && KeptPid(m, desired, env, pid)
    requires Elements(stale) == Stale(m, desired)
    requires |m.trace| <= k <= |Reconciled(m, desired, order, stale, env).trace|
    ensures pid in Alive(Reconciled(m, desired, order, stale, env).trace[..k])
  {
    var n, f := BringAll(m, desired, order, env).0, Reconciled(m, desired, order, stale, env);
    BringAllTrace(m, desired, order, env);
    DropAllEffect(n, stale, env);
    assert f.trace[..|m.trace|] == m.trace;
    hide BringAll, DropAll, KeptPid;
    forall i | |m.trace| <= i < |f.trace| ensures !(f.trace[i].Stopped? && f.trace[i].pid == pid) {
      if i < |n.trace| {
        assert f.trace[i] == n.trace[i];
        NoKeptStopped(m, desired, order, env, pid, n.trace[i]);
      } else {
        assert DropAction(n, f.trace[i], stale);
        forall p | p in stale ensures !OldPid(n, p, pid) {
          assert p in Elements(stale) && p !in order;
          assert Lookup(n.processes, p) == Lookup(m.processes, p);
          if OldPid(m, p, pid) { KeptIsOnly(m, desired, env, pid, p); }
        }
      }
    }
    KeptIsAlive(m, desired, env, pid);
    StaysAlive(f.trace, |m.trace|, k, pid);
  }

  lemma KeptIsAlive(m: Managed, desired: map<string, int>, env: Env, pid: nat)
    requires Inv(m) && KeptPid(m, desired, env, pid)
    ensures pid in Alive(m.trace)
  {}

  /* ---------- the old process of a wanted file ---------- */

  /** Who holds the pid of an old process in a later state: if the files of `order` were brought up or
      removed, and the others were left alone, only the old path can, and only if it is kept or not in `order`. */
  lemma HolderIs(m: Managed, n: Managed, desired: map<string, int>, order: seq<string>, env: Env, path: string, pid: nat, x: string)
    requires Inv(m) && (forall p :: p in order ==> p in desired) && OldPid(m, path, pid) && OldPid(n, x, pid)
    requires forall p :: p !in order ==> p !in n.processes || Lookup(n.processes, p) == Lookup(m.processes, p)
    requires forall p :: p in order && p in n.processes ==> Brought(m, n, p, desired[p], env)
    ensures x == path && (path in order ==> Kept(m, path, desired[path], env))
  {
    if x in order { assert Brought(m, n, x, desired[x], env); }
    if OldPid(m, x, pid) { OnlyHolder(m, x, path, pid); }
  }

  /** Of a wanted file with a process, that process is alive after a success exactly when it is kept: a
      changed file's own process is stopped, before its new one starts. */
  lemma OldProcessAliveIff(m: Managed, desired: map<string, int>, order: seq<string>, stale: seq<string>, env: Env, path: string, pid: nat)
    requires Inv(m) && Lww.Visits(order, desired) && Elements(stale) == Stale(m, desired) && BringAll(m, desired, order, env).1
    requires path in desired && OldPid(m, path, pid)
    ensures pid in Alive(Reconciled(m, desired, order, stale, env).trace) <==> Kept(m, path, desired[path], env)
  {
    var f := Reconciled(m, desired, order, stale, env);
    SuccessMatches(m, desired, order, stale, env);
    hide Reconciled, BringAll;
    assert Brought(m, f, path, desired[path], env);
    if pid in Alive(f.trace) {
      var x :| x in f.processes && f.processes[x].pid.Some? && f.processes[x].pid.value == pid;
      HolderIs(m, f, desired, order, env, path, pid, x);
    }
  }

  /** After a failed start it is alive exactly when it is kept or was not reached yet; the process of the
      file that failed is gone, and nothing runs under that file. */
  lemma OldProcessAfterFailure(m: Managed, desired: map<string, int>, order: seq<string>, env: Env, path: string, pid: nat)
    requires Inv(m) && Distinct(order) && order != [] && forall p :: p in order ==> p in desired
    requires BringAll(m, desired, order[..|order| - 1], env).1 && !BringAll(m, desired, order, env).1
    requires path in desired && OldPid(m, path, pid)
    ensures var n := BringAll(m, desired, order, env).0;
            && order[|order| - 1] !in n.processes
            && (pid in Alive(n.trace) <==> path !in order || Kept(m, path, desired[path], env))
  {
    var rest, q := order[..|order| - 1], order[|order| - 1];
    assert order == rest + [q];
    var r, n := BringAll(m, desired, rest, env).0, BringAll(m, desired, order, env).0;
    NotAmong(order);
    BringAllEffect(m, desired, rest, env);
    BringAllEffect(m, desired, order, env);
    BringAllTrace(m, desired, order, env);
    BringAllKeepsInv(m, desired, order, env);
    BringEffect(r, q, desired[q], env);
    BringAllTrace(m, desired, rest, env);
    SameKept(m, r, q, desired[q], env);
    assert n == Bring(r, q, desired[q], env).0;
    hide BringAll, Bring, BringTrace, Alive;
    forall p | p in rest ensures Lookup(n.processes, p) == Lookup(r.processes, p) && Brought(m, n, p, desired[p], env) {
      assert p != q;
      BringOthers(r, q, desired[q], env, p);
      StillBrought(m, r, n, p, desired[p], env);
    }
    AliveHolders(m, n, desired, order, env, path, pid);
    if path in rest { assert Brought(m, n, path, desired[path], env); }
  }

  lemma AliveHolders(m: Managed, n: Managed, desired: map<string, int>, order: seq<string>, env: Env, path: string, pid: nat)
    requires Inv(m) && Inv(n) && (forall p :: p in order ==> p in desired) && path in desired && OldPid(m, path, pid)
    requires forall p :: p !in order ==> Lookup(n.processes, p) == Lookup(m.processes, p)
    requires forall p :: p in order && p in n.processes ==> Brought(m, n, p, desired[p], env)
    ensures pid in Alive(n.trace) <==> path in n.processes && (path !in order || Kept(m, path, desired[path], env))
  {
    if pid in Alive(n.trace) {
      var x :| x in n.processes && n.processes[x].pid.Some? && n.processes[x].pid.value == pid;
      HolderIs(m, n, desired, order, env, path, pid, x);
    }
    if path in n.processes {
      if path !in order { assert Lookup(n.processes, path) == Lookup(m.processes, path); }
    }
  }

  /** One changed file that cannot be started: its old process is stopped and nothing takes its place. */
  lemma ChangedFileCanVanish(path: string)
    ensures var m := Managed(map[path := Process(Some(0), 1)], 1, [Started(path, 0)]);
            var (n, ok) := BringAll(m, map[path := 2], [path], Env(false, 0, {}, {}));
            Inv(m) && 0 in Alive(m.trace) && !ok && n.processes == map[] && Alive(n.trace) == {}
  {
    var m := Managed(map[path := Process(Some(0), 1)], 1, [Started(path, 0)]);
    var env := Env(false, 0, {}, {});
    var n := Stop(m, path);
    var none: seq<Action> := [];
    assert m.trace == none + [Started(path, 0)] && n.trace == m.trace + [Stopped(0)];
    AliveSnoc(none, Started(path, 0));
    AliveSnoc(m.trace, Stopped(0));
    assert path in m.processes && Pids(m.processes) == {0};
    assert [path][..0] == [] && BringAll(m, map[path := 2], [], env) == (m, true);
    assert Bring(m, path, 2, env) == (n, false);
  }

  /** Stopping everything leaves nothing running that was ever started. */
  lemma StopAllEmpties(m: Managed, order: seq<string>)
    requires Inv(m) && Elements(order) == m.processes.Keys
    ensures StopEach(m, order).processes == map[] && Alive(StopEach(m, order).trace) == {}
  {
    StopEachEffect(m, order);
    StopEachKeepsInv(m, order);
    assert Pids(map[]) == {};
  }

  /* ---------- the drain ---------- */

  /** How often the manager waited for so long. */
  function Waits(trace: seq<Action>, time: int): nat {
    if trace == [] then 0 else Waits(trace[..|trace| - 1], time) + if trace[|trace| - 1] == Waited(time) then 1 else 0
  }

  lemma WaitsSnoc(trace: seq<Action>, a: Action, time: int)
    ensures Waits(trace + [a], time) == Waits(trace, time) + if a == Waited(time) then 1 else 0
  {
    assert (trace + [a])[..|trace|] == trace;
  }

  lemma {:induction false} NoMoreWaits(t: seq<Action>, u: seq<Action>, time: int)
    requires t <= u && forall i :: |t| <= i < |u| ==> !u[i].Waited?
    ensures Waits(u, time) == Waits(t, time)
  {
    if t != u {
      var v := u[..|u| - 1];
      NoMoreWaits(t, v, time);
      assert u == v + [u[|u| - 1]];
    }
  }

  /** From one trace to the other the manager waited `count` times for `time`, and for nothing else. */
  ghost predicate WaitedFor(t: seq<Action>, u: seq<Action>, time: int, count: nat) {
    forall d :: Waits(u, d) == Waits(t, d) + if d == time then count else 0
  }

  /** Bringing up files never waits, and neither does stopping them all. */
  lemma BringNeverWaits(m: Managed, desired: map<string, int>, order: seq<string>, env: Env)
    requires Distinct(order) && forall p :: p in order ==> p in desired
    ensures WaitedFor(m.trace, BringAll(m, desired, order, env).0.trace, 0, 0)
  {
    var n := BringAll(m, desired, order, env).0;
    BringAllTrace(m, desired, order, env);
    hide BringAll;
    forall i | |m.trace| <= i < |n.trace| ensures !n.trace[i].Waited? { assert BringAction(m, n.trace[i], desired, order, env); }
    forall time ensures Waits(n.trace, time) == Waits(m.trace, time) { NoMoreWaits(m.trace, n.trace, time); }
  }

  lemma StopWaits(m: Managed, path: string, time: int)
    ensures Waits(Stop(m, path).trace, time) == Waits(m.trace, time)
  {
    assert m.trace + [] == m.trace;
    if path in m.processes && m.processes[path].pid.Some? { WaitsSnoc(m.trace, Stopped(m.processes[path].pid.value), time); }
  }

  lemma {:induction false} StopNeverWaits(m: Managed, order: seq<string>)
    ensures WaitedFor(m.trace, StopEach(m, order).trace, 0, 0)
  {
    hide Stop, Waits;
    if order != [] {
      var rest, p := order[..|order| - 1], order[|order| - 1];
      StopNeverWaits(m, rest);
      forall time ensures Waits(StopEach(m, order).trace, time) == Waits(StopEach(m, rest).trace, time) {
        StopWaits(StopEach(m, rest), p, time);
      }
    }
  }

  /** One file is dropped with one wait at most, directly before its process is stopped. */
  lemma DropOneWaits(m: Managed, path: string, env: Env)
    ensures var n := StopAfterDrain(m, path, env);
            var drains := env.drain != 0 && !env.noRun;
            && WaitedFor(m.trace, n.trace, env.drain, if drains then 1 else 0)
            && m.trace <= n.trace
            && (drains ==> forall i :: |m.trace| <= i < |n.trace| && n.trace[i].Stopped? ==>
                             i > |m.trace| && n.trace[i - 1] == Waited(env.drain))
  {
    var w := m.(trace := m.trace + [Waited(env.drain)]);
    forall time ensures Waits(StopAfterDrain(m, path, env).trace, time) == Waits(m.trace, time) +
      if time == env.drain && env.drain != 0 && !env.noRun then 1 else 0
    {
      WaitsSnoc(m.trace, Waited(env.drain), time);
      StopWaits(m, path, time);
      StopWaits(w, path, time);
    }
  }

  /** Dropping waits once for each file, for the drain time, directly before it stops the file's process;
      or, without a drain or without processes, not at all. */
  lemma {:induction false} DropWaits(m: Managed, order: seq<string>, env: Env)
    ensures var n := DropAll(m, order, env);
            var drains := env.drain != 0 && !env.noRun;
            && WaitedFor(m.trace, n.trace, env.drain, if drains then |order| else 0)
            && m.trace <= n.trace
            && (drains ==> forall i :: |m.trace| <= i < |n.trace| && n.trace[i].Stopped? ==>
                             i > |m.trace| && n.trace[i - 1] == Waited(env.drain))
  {
    hide StopAfterDrain, Waits;
    if order != [] {
      var rest, p := order[..|order| - 1], order[|order| - 1];
      DropWaits(m, rest, env);
      DropOneWaits(DropAll(m, rest, env), p, env);
    }
  }

  /** After a success every stale file was given the drain time once, and nothing else was waited for ... */
  lemma DrainOncePerStale(m: Managed, desired: map<string, int>, order: seq<string>, stale: seq<string>, env: Env)
    requires Distinct(order) && (forall p :: p in order ==> p in desired) && Distinct(stale) && Elements(stale) == Stale(m, desired)
    ensures WaitedFor(m.trace, Reconciled(m, desired, order, stale, env).trace, env.drain,
                      if env.drain != 0 && !env.noRun then |m.processes.Keys - desired.Keys| else 0)
  {
    hide BringAll, DropAll, Waits;
    BringNeverWaits(m, desired, order, env);
    DropWaits(BringAll(m, desired, order, env).0, stale, env);
    DistinctCardinality(stale);
  }

  /** ... directly before its process was stopped. */
  lemma DrainPrecedesStop(m: Managed, desired: map<string, int>, order: seq<string>, stale: seq<string>, env: Env, i: nat)
    requires Inv(m) && Distinct(order) && (forall p :: p in order ==> p in desired) && env.drain != 0 && !env.noRun
    requires var t := Reconciled(m, desired, order, stale, env).trace;
             |m.trace| <= i < |t| && t[i].Stopped? && StalePid(m, desired, t[i].pid)
    ensures var t := Reconciled(m, desired, order, stale, env).trace; i > |m.trace| && t[i - 1] == Waited(env.drain)
  {
    var n, t := BringAll(m, desired, order, env).0, Reconciled(m, desired, order, stale, env).trace;
    BringAllTrace(m, desired, order, env);
    DropWaits(n, stale, env);
    hide BringAll, DropAll, Waits;
    if i < |n.trace| {
      assert t[i] == n.trace[i] && BringAction(m, n.trace[i], desired, order, env);
      OnePath(m, t[i].pid, order, desired);
    }
  }

  /* ---------- the manager ---------- */

  function FirstUnreadable(paths: seq<string>, files: map<string, int>): Option<string> {
    if paths == [] then None
    else if paths[0] !in files then Some(paths[0])
    else FirstUnreadable(paths[1..], files)
  }

  function Desired(paths: seq<string>, files: map<string, int>): map<string, int> {
    map p | p in paths && p in files :: files[p]
  }

  /** The file is managed with its contents: by the process it had, if that had the same contents and was found
      running, and else by a new one, or by a mere record when nothing is run. */
  predicate Carried(m: Managed, n: Managed, path: string, hash: int, noRun: bool, exited: set<string>) {
    && path in n.processes && n.processes[path].hash == hash
    && if path in m.processes && m.processes[path].hash == hash && (m.processes[path].pid.None? || path !in exited)
       then n.processes[path] == m.processes[path]
       else if noRun then n.processes[path].pid.None?
       else n.processes[path].pid.Some? && n.processes[path].pid.value >= m.started
  }

  lemma {:induction false} UnreadableIsWanted(paths: seq<string>, files: map<string, int>)
    ensures FirstUnreadable(paths, files).Some? ==> exists i :: IsFirstUnreadable(paths, files, i, FirstUnreadable(paths, files).value)
    ensures FirstUnreadable(paths, files).None? ==> forall p :: p in paths ==> p in files
  {
    if paths != [] {
      UnreadableIsWanted(paths[1..], files);
      assert paths == [paths[0]] + paths[1..];
      var first := FirstUnreadable(paths, files);
      if paths[0] !in files {
        assert IsFirstUnreadable(paths, files, 0, paths[0]);
      } else if first.Some? {
        var i :| IsFirstUnreadable(paths[1..], files, i, first.value);
        assert IsFirstUnreadable(paths, files, i + 1, first.value);
      }
    }
  }

  /** The file cannot be read, and all before it can. */
  predicate IsFirstUnreadable(paths: seq<string>, files: map<string, int>, i: int, p: string) {
    0 <= i < |paths| && paths[i] == p && p !in files && forall j :: 0 <= j < i ==> paths[j] in files
  }

  lemma SuccessCarries(m: Managed, paths: seq<string>, files: map<string, int>, order: seq<string>, stale: seq<string>, env: Env)
    requires Inv(m) && FirstUnreadable(paths, files).None?
    requires var desired := Desired(paths, files);
             Lww.Visits(order, desired) && Elements(stale) == Stale(m, desired) && BringAll(m, desired, order, env).1
    ensures var n := Reconciled(m, Desired(paths, files), order, stale, env);
            && n.processes.Keys == Elements(paths)
            && forall p :: p in paths ==> p in files && Carried(m, n, p, files[p], env.noRun, env.exited)
  {
    var desired := Desired(paths, files);
    UnreadableIsWanted(paths, files);
    SuccessMatches(m, desired, order, stale, env);
    hide Reconciled, BringAll, Inv, Lww.Visits, FirstUnreadable;
    assert desired.Keys == Elements(paths);
    var n := Reconciled(m, desired, order, stale, env);
    forall p | p in paths ensures Carried(m, n, p, files[p], env.noRun, env.exited) {
      assert p in desired && Brought(m, n, p, desired[p], env);
    }
  }

  lemma FailureSays(m: Managed, paths: seq<string>, files: map<string, int>, order: seq<string>, env: Env)
    requires Distinct(order) && order != [] && forall p :: p in order ==> p in Desired(paths, files)
    requires var desired := Desired(paths, files);
             BringAll(m, desired, order[..|order| - 1], env).1 && !BringAll(m, desired, order, env).1
    ensures var n, last := BringAll(m, Desired(paths, files), order, env).0, order[|order| - 1];
            && last in paths && last !in env.startable && last !in n.processes && !env.noRun
            && forall p :: p in m.processes && p !in paths ==> p in n.processes && n.processes[p] == m.processes[p]
  {
    var desired, rest, last := Desired(paths, files), order[..|order| - 1], order[|order| - 1];
    var r, n := BringAll(m, desired, rest, env).0, BringAll(m, desired, order, env).0;
    assert last in order;
    BringAllTrace(m, desired, order, env);
    BringEffect(r, last, desired[last], env);
    assert n == Bring(r, last, desired[last], env).0;
    hide BringAll, Bring, BringTrace, Desired;
    forall p | p in m.processes && p !in paths ensures p in n.processes && n.processes[p] == m.processes[p] {
      assert p !in order by { InDesired(paths, files, order); }
      assert Lookup(n.processes, p) == Lookup(m.processes, p);
    }
    InDesired(paths, files, order);
  }

  lemma InDesired(paths: seq<string>, files: map<string, int>, order: seq<string>)
    requires forall p :: p in order ==> p in Desired(paths, files)
    ensures forall p :: p in order ==> p in paths
  {}

  class FrpcManager {
    const noRun: bool
    const drain: int
    var processes: map<string, Process>
    var started: nat
    var trace: seq<Action>

    function Contents(): Managed
      reads this
    {
      Managed(processes, started, trace)
    }

    ghost predicate Valid()
      reads this
    {
      Inv(Contents())
    }

    constructor (noRun: bool, drain: int)
      ensures Valid() && Contents() == Managed(map[], 0, [])
      ensures this.noRun == noRun && this.drain == if drain < 0 then 0 else drain
    {
      this.noRun := noRun;
      this.drain := if drain < 0 then 0 else drain;
      processes, started, trace := map[], 0, [];
      assert Pids(map[]) == {};
    }

    /** `files` holds the digests of the readable files.  The ghost results are the orders in which the
        wanted files and the stale processes were met. */
    method Reconcile(paths: seq<string>, files: map<string, int>, exited: set<string>, startable: set<string>)
      returns (error: Option<ReconcileError>, ghost order: seq<string>, ghost stale: seq<string>)
      requires Valid()
      modifies this
      ensures Valid()
      ensures FirstUnreadable(paths, files).Some? ==>
                error == Some(ReadFailed(FirstUnreadable(paths, files).value)) && Contents() == old(Contents())
      ensures FirstUnreadable(paths, files).None? ==>
                var env, desired := Env(noRun, drain, exited, startable), Desired(paths, files);
                && Distinct(order) && (forall p :: p in order ==> p in desired)
                && (error.None? <==> BringAll(old(Contents()), desired, order, env).1)
                && (error.None? ==> Lww.Visits(order, desired) && Distinct(stale) && Elements(stale) == Stale(old(Contents()), desired)
                                    && Contents() == Reconciled(old(Contents()), desired, order, stale, env))
                && (error.Some? ==> order != [] && error == Some(StartFailed(order[|order| - 1]))
                                    && BringAll(old(Contents()), desired, order[..|order| - 1], env).1
                                    && Contents() == BringAll(old(Contents()), desired, order, env).0)
      ensures error.None? ==> processes.Keys == Elements(paths)
      ensures error.None? ==> forall p :: p in paths ==> p in files && Carried(old(Contents()), Contents(), p, files[p], noRun, exited)
      ensures error.Some? && error.value.StartFailed? ==>
                && error.value.path in paths && error.value.path !in startable && error.value.path !in processes && !noRun
                && forall p :: p in old(processes) && p !in paths ==> p in processes && processes[p] == old(processes)[p]
      ensures error.Some? && error.value.ReadFailed? ==> exists i :: IsFirstUnreadable(paths, files, i, error.value.path)
      ensures WaitedFor(old(trace), trace, drain,
                        if error.None? && drain != 0 && !noRun then |old(processes).Keys - Desired(paths, files).Keys| else 0)
    {
      hide BringAll, DropAll, Waits, FirstUnreadable, Carried;
      order, stale := [], [];
      UnreadableIsWanted(paths, files);
      var unreadable, read := ReadAll(paths, files);
      if unreadable.Some? {
        return Some(ReadFailed(unreadable.value)), [], [];
      }
      error, order := BringUp(read, exited, startable);
      BringNeverWaits(old(Contents()), read, order, Env(noRun, drain, exited, startable));
      if error.Some? {
        FailureSays(old(Contents()), paths, files, order, Env(noRun, drain, exited, startable));
        return;
      }
      stale := DropStale(read, exited, startable);
      SameStale(old(Contents()), read, order, Env(noRun, drain, exited, startable));
      DrainOncePerStale(old(Contents()), read, order, stale, Env(noRun, drain, exited, startable));
      SuccessCarries(old(Contents()), paths, files, order, stale, Env(noRun, drain, exited, startable));
    }

    method ReadAll(paths: seq<string>, files: map<string, int>) returns (unreadable: Option<string>, read: map<string, int>)
      ensures unreadable == FirstUnreadable(paths, files) && (unreadable.None? ==> read == Desired(paths, files))
    {
      read := map[];
      for i := 0 to |paths|
        invariant FirstUnreadable(paths, files) == FirstUnreadable(paths[i..], files)
        invariant read == Desired(paths[..i], files)
      {
        if paths[i] !in files {
          return Some(paths[i]), read;
        }
        DesiredSnoc(paths, i, files);
        read := read[paths[i] := files[paths[i]]];
      }
      assert paths[..|paths|] == paths;
      unreadable := None;
    }

    method BringUp(desired: map<string, int>, exited: set<string>, startable: set<string>)
      returns (error: Option<ReconcileError>, ghost order: seq<string>)
      requires Valid()
      modifies this
      ensures Valid()
      ensures var env := Env(noRun, drain, exited, startable);
              && Distinct(order) && (forall p :: p in order ==> p in desired)
              && Contents() == BringAll(old(Contents()), desired, order, env).0
              && (error.None? <==> BringAll(old(Contents()), desired, order, env).1)
              && (error.None? ==> Lww.Visits(order, desired))
              && (error.Some? ==> order != [] && error == Some(StartFailed(order[|order| - 1]))
                                  && BringAll(old(Contents()), desired, order[..|order| - 1], env).1)
    {
      order := [];
      var todo := desired.Keys;
      ghost var env := Env(noRun, drain, exited, startable);
      Lww.VisitsNone(desired);
      while todo != {}
        invariant todo <= desired.Keys && Lww.Visits(order, desired - todo) && forall p :: p in order ==> p in desired
        invariant BringAll(old(Contents()), desired, order, env) == (Contents(), true)
        decreases todo
      {
        var path :| path in todo;
        Lww.VisitsMore(order, desired, todo, path);
        assert (order + [path])[..|order|] == order;
        todo := todo - {path};
        order := order + [path];
        var ok := BringOne(path, desired[path], exited, startable);
        if !ok {
          BringAllKeepsInv(old(Contents()), desired, order, env);
          return Some(StartFailed(path)), order;
        }
      }
      BringAllKeepsInv(old(Contents()), desired, order, env);
      error := None;
    }

    method BringOne(path: string, hash: int, exited: set<string>, startable: set<string>) returns (ok: bool)
      modifies this
      ensures (Contents(), ok) == Bring(old(Contents()), path, hash, Env(noRun, drain, exited, startable))
    {
      if path in processes && processes[path].hash == hash && (processes[path].pid.None? || path !in exited) {
        return true;
      }
      if path in processes {
        StopOne(path);
      }
      if noRun {
        processes := processes[path := Process(None, hash)];
        return true;
      }
      if path !in startable {
        return false;
      }
      trace := trace + [Started(path, started)];
      processes := processes[path := Process(Some(started), hash)];
      started := started + 1;
      ok := true;
    }

    method StopOne(path: string)
      modifies this
      ensures Contents() == Stop(old(Contents()), path)
    {
      if path in processes {
        var process := processes[path];
        processes := processes - {path};
        if process.pid.Some? {
          trace := trace + [Stopped(process.pid.value)];
        }
      }
    }

    /** Stops the managed processes that are not wanted, after the drain time. */
    method DropStale(desired: map<string, int>, exited: set<string>, startable: set<string>) returns (ghost order: seq<string>)
      requires Valid()
      modifies this
      ensures Valid() && Distinct(order) && Elements(order) == Stale(old(Contents()), desired)
      ensures Contents() == DropAll(old(Contents()), order, Env(noRun, drain, exited, startable))
    {
      ghost var env := Env(noRun, drain, exited, startable);
      ghost var all := Stale(Contents(), desired);
      order := [];
      var stale := processes.Keys - desired.Keys;
      while stale != {}
        invariant stale <= all && Elements(order) == all - stale && Distinct(order)
        invariant Contents() == DropAll(old(Contents()), order, env)
        decreases stale
      {
        var path :| path in stale;
        stale := stale - {path};
        assert (order + [path])[..|order|] == order;
        DistinctSnoc(order, path);
        order := order + [path];
        if drain != 0 && !noRun {
          trace := trace + [Waited(drain)];
        }
        StopOne(path);
      }
      DropAllKeepsInv(old(Contents()), order, env);
    }

    method StopAll()
      requires Valid()
      modifies this
      ensures Valid() && processes == map[] && Alive(trace) == {} && WaitedFor(old(trace), trace, 0, 0)
      ensures Contents() == StopEach(old(Contents()), SortedStrings(old(processes).Keys))
    {
      var paths := SortedKeys();
      for i := 0 to |paths|
        invariant Contents() == StopEach(old(Contents()), paths[..i])
      {
        assert paths[..i + 1][..i] == paths[..i];
        StopOne(paths[i]);
      }
      assert paths[..|paths|] == paths;
      StopEachKeepsInv(old(Contents()), paths);
      StopAllEmpties(old(Contents()), paths);
      StopNeverWaits(old(Contents()), paths);
    }

    method SortedKeys() returns (paths: seq<string>)
      ensures paths == SortedStrings(processes.Keys)
    {
      var list: seq<string> := [];
      var todo := processes.Keys;
      while todo != {}
        invariant todo <= processes.Keys && Elements(list) == processes.Keys - todo && Distinct(list)
        decreases todo
      {
        var p :| p in todo;
        DistinctSnoc(list, p);
        todo := todo - {p};
        list := list + [p];
      }
      paths := SortStrings(list);
    }

    /** The nodes of the processes found exited, read from their files; `texts` holds the readable ones. */
    method ExitedNodeIds(exited: set<string>, texts: map<string, string>) returns (ids: seq<string>)
      ensures ids == FrpcFiles.ExitedIds(texts, set p | p in processes && processes[p].pid.Some? && p in exited)
    {
      var nodes: seq<string> := [];
      var todo := processes.Keys;
      ghost var gone := set p | p in processes && processes[p].pid.Some? && p in exited;
      while todo != {}
        invariant todo <= processes.Keys && Distinct(nodes)
        invariant Elements(nodes) == FrpcFiles.IdsIn(texts, gone - todo)
        decreases todo
      {
        var p :| p in todo;
        FrpcFiles.OneMoreId(texts, gone, todo, p);
        todo := todo - {p};
        if processes[p].pid.Some? && p in exited {
          var id := "";
          if p in texts {
            id := FrpcConfig.ReadClusterNode(texts[p]);
          }
          if id != "" && id !in nodes {
            DistinctSnoc(nodes, id);
            nodes := nodes + [id];
          }
        }
      }
      assert gone - {} == gone;
      ids := SortStrings(nodes);
    }
  }

  lemma DesiredSnoc(paths: seq<string>, i: nat, files: map<string, int>)
    requires i < |paths| && paths[i] in files
    ensures Desired(paths[..i + 1], files) == Desired(paths[..i], files)[paths[i] := files[paths[i]]]
  {
    assert paths[..i + 1] == paths[..i] + [paths[i]];
  }

  /** Bringing up the wanted files does not change which processes are stale. */
  lemma SameStale(m: Managed, desired: map<string, int>, order: seq<string>, env: Env)
    requires Distinct(order) && forall p :: p in order ==> p in desired
    ensures Stale(BringAll(m, desired, order, env).0, desired) == Stale(m, desired)
  {
    BringAllTrace(m, desired, order, env);
    var n := BringAll(m, desired, order, env).0;
    forall p | p !in desired ensures p in n.processes <==> p in m.processes {
      assert p !in order;
      assert Lookup(n.processes, p) == Lookup(m.processes, p);
    }
  }
}
