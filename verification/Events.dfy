/** The bounded event log (internal/control/store.go:423-463). */
module Events {
  import opened Text
  import opened Cluster
  import opened Sorting

  const MAX_EVENTS: nat := 500
  const UNIX_EPOCH := 62135596800 * SECOND

  function EventId(now: Time, kind: string): string { Itoa(now - UNIX_EPOCH) + "-" + kind }

  function NewEvent(kind: string, nodeId: string, clientId: string, proxyId: string, now: Time): Event {
    Event(EventId(now, kind), kind, nodeId, clientId, proxyId, now)
  }

  /** Trimming after every event is trimming once. */
  lemma LastAppends<T>(s: seq<T>, a: seq<T>, b: seq<T>, n: nat)
    ensures Last(Last(s + a, n) + b, n) == Last(s + (a + b), n)
  {
    var t := Last(s + a, n);
    var k := |s + a| - |t|;
    assert t == (s + a)[k..];
    assert s + (a + b) == s + a + b;
    assert t + b == (s + a + b)[k..];
  }

  /** eventsByID after both loops of MergeState. */
  function ById(local: seq<Event>, remote: seq<Event>): map<string, Event> {
    if remote != [] then
      var m, e := ById(local, remote[..|remote| - 1]), remote[|remote| - 1];
      if e.id != "" && (e.id !in m || e.createdAt > m[e.id].createdAt) then m[e.id := e] else m
    else if local != [] then ById(local[..|local| - 1], [])[local[|local| - 1].id := local[|local| - 1]]
    else map[]
  }

  lemma {:induction false} ByIdKeys(local: seq<Event>, remote: seq<Event>)
    ensures forall k <- ById(local, remote) :: ById(local, remote)[k].id == k
    decreases |local| + |remote|
  {
    if remote != [] { ByIdKeys(local, remote[..|remote| - 1]); }
    else if local != [] { ByIdKeys(local[..|local| - 1], []); }
  }

  /** `out` is what is left of the merged events: in time order, the latest MAX_EVENTS of them. */
  ghost predicate MergedEvents(local: seq<Event>, remote: seq<Event>, out: seq<Event>) {
    exists s: seq<Event> ::
      && Elements(s) == ById(local, remote).Values && Distinct(s)
      && (forall i, j :: 0 <= i < j < |s| ==> s[i].createdAt <= s[j].createdAt)
      && out == Last(s, MAX_EVENTS)
  }

  function InsertEvent(s: seq<Event>, e: Event): seq<Event> {
    if s != [] && e.createdAt < s[|s| - 1].createdAt then InsertEvent(s[..|s| - 1], e) + [s[|s| - 1]] else s + [e]
  }

  lemma {:induction false} InsertEventSorts(s: seq<Event>, e: Event)
    requires Distinct(s) && e !in s && forall i, j :: 0 <= i < j < |s| ==> s[i].createdAt <= s[j].createdAt
    ensures var r := InsertEvent(s, e);
            && Distinct(r) && (forall x :: x in r <==> x == e || x in s)
            && forall i, j :: 0 <= i < j < |r| ==> r[i].createdAt <= r[j].createdAt
  {
    if s != [] && e.createdAt < s[|s| - 1].createdAt {
      var t, y := s[..|s| - 1], s[|s| - 1];
      assert s == t + [y];
      assert e !in t;
      InsertEventSorts(t, e);
      var q := InsertEvent(t, e);
      forall i | 0 <= i < |q| ensures q[i].createdAt <= y.createdAt && q[i] != y {
        assert q[i] in q;
        if q[i] != e { var k :| 0 <= k < |t| && t[k] == q[i]; assert s[k] != s[|t|]; }
      }
    }
  }

  method MergeEvents(local: seq<Event>, remote: seq<Event>) returns (out: seq<Event>)
    ensures MergedEvents(local, remote, out) && |out| <= MAX_EVENTS
  {
    var byId := CollectById(local, remote);
    ByIdKeys(local, remote);
    var list: seq<Event> := [];
    var todo := byId.Keys;
    while todo != {}
      invariant todo <= byId.Keys
      invariant forall e :: e in list <==> e.id in byId && e.id !in todo && byId[e.id] == e
      invariant Distinct(list) && forall i, j :: 0 <= i < j < |list| ==> list[i].createdAt <= list[j].createdAt
      decreases todo
    {
      var k :| k in todo;
      todo := todo - {k};
      InsertEventSorts(list, byId[k]);
      list := InsertEvent(list, byId[k]);
    }
    forall e ensures e in Elements(list) <==> e in byId.Values {
      if e in list { assert e.id in byId; }
      if e in byId.Values { assert e.id in byId && byId[e.id] == e; }
    }
    assert Elements(list) == byId.Values;
    out := Last(list, MAX_EVENTS);
  }

  method CollectById(local: seq<Event>, remote: seq<Event>) returns (m: map<string, Event>)
    ensures m == ById(local, remote)
  {
    m := map[];
    for i := 0 to |local|
      invariant m == ById(local[..i], [])
    {
      assert local[..i + 1][..i] == local[..i];
      m := m[local[i].id := local[i]];
    }
    assert local[..|local|] == local;
    for i := 0 to |remote|
      invariant m == ById(local, remote[..i])
    {
      assert remote[..i + 1][..i] == remote[..i];
      var e := remote[i];
      if e.id != "" && (e.id !in m || e.createdAt > m[e.id].createdAt) {
        m := m[e.id := e];
      }
    }
    assert remote[..|remote|] == remote;
  }

  function Ids(s: seq<Event>): set<string> { set e | e in s :: e.id }

  predicate IdsDiffer(s: seq<Event>) { forall i, j :: 0 <= i < j < |s| ==> s[i].id != s[j].id }

  lemma IdsDifferSnoc(s: seq<Event>, e: Event)
    ensures IdsDiffer(s + [e]) <==> IdsDiffer(s) && e.id !in Ids(s)
    ensures Ids(s + [e]) == Ids(s) + {e.id}
  {
    var t := s + [e];
    if IdsDiffer(t) {
      forall i, j | 0 <= i < j < |s| ensures s[i].id != s[j].id { assert t[i].id != t[j].id; }
      forall i | 0 <= i < |s| ensures s[i].id != e.id { assert t[i].id != t[|s|].id; }
    }
    if e.id !in Ids(s) {
      forall i | 0 <= i < |s| ensures s[i].id != e.id { assert s[i] in s; }
    }
  }

  /** After a merge the log is kept by the identifiers of both sides; a remote event without one is ignored. */
  lemma {:induction false} ByIdCovers(local: seq<Event>, remote: seq<Event>)
    ensures ById(local, remote).Keys == Ids(local) + (Ids(remote) - {""})
    decreases |local| + |remote|
  {
    if remote != [] {
      var t, e := remote[..|remote| - 1], remote[|remote| - 1];
      ByIdCovers(local, t);
      assert remote == t + [e];
      IdsDifferSnoc(t, e);
    } else if local != [] {
      var t, e := local[..|local| - 1], local[|local| - 1];
      ByIdCovers(t, []);
      assert local == t + [e];
      IdsDifferSnoc(t, e);
    }
  }

  lemma {:induction false} IdsCount(s: seq<Event>)
    ensures |Ids(s)| <= |s|
    ensures |Ids(s)| == |s| <==> IdsDiffer(s)
  {
    if s != [] {
      var t, e := s[..|s| - 1], s[|s| - 1];
      IdsCount(t);
      assert s == t + [e];
      IdsDifferSnoc(t, e);
    }
  }

  /** Before the cap a merge keeps as many events as there are local ones and new identifiers exactly when no
      two local events share an identifier; otherwise it has fewer. */
  lemma MergeCollapsesIff(local: seq<Event>, remote: seq<Event>)
    ensures var added := Ids(remote) - {""} - Ids(local);
            && |ById(local, remote)| <= |local| + |added|
            && (|ById(local, remote)| == |local| + |added| <==> IdsDiffer(local))
  {
    var more := Ids(remote) - {""} - Ids(local);
    ByIdCovers(local, remote);
    IdsCount(local);
    assert |ById(local, remote)| == |ById(local, remote).Keys|;
    assert ById(local, remote).Keys == Ids(local) + more;
  }

  /** Of events that share an identifier a merge leaves at most one. */
  lemma SharedIdLeavesOne(local: seq<Event>, remote: seq<Event>, group: set<Event>, id: string)
    requires forall e :: e in group ==> e.id == id
    ensures |ById(local, remote).Values * group| <= 1
  {
    ByIdKeys(local, remote);
    var kept := ById(local, remote).Values * group;
    if e :| e in kept {
      forall d | d in kept ensures d == e {
        var k :| k in ById(local, remote) && ById(local, remote)[k] == d;
        var l :| l in ById(local, remote) && ById(local, remote)[l] == e;
      }
      assert kept == {e};
    }
  }

  /* ---------- which events survive ---------- */

  lemma {:induction false} ValuesAsMany(m: map<string, Event>)
    requires forall k <- m :: m[k].id == k
    ensures |m.Values| == |m|
    decreases |m|
  {
    if m != map[] {
      var k :| k in m;
      var rest := m - {k};
      ValuesAsMany(rest);
      assert m == rest[k := m[k]];
      assert m.Values == rest.Values + {m[k]};
      assert m[k] !in rest.Values;
    }
  }

  /** The cap drops the oldest events: as many as there are above 500, none of them later than one that is kept. */
  lemma CapDropsOldest(local: seq<Event>, remote: seq<Event>, out: seq<Event>)
    requires MergedEvents(local, remote, out)
    ensures var all := ById(local, remote);
            && |out| == (if |all| <= MAX_EVENTS then |all| else MAX_EVENTS) && Distinct(out) && Elements(out) <= all.Values
            && (|all| <= MAX_EVENTS ==> Elements(out) == all.Values)
            && forall d, e :: d in all.Values && d !in out && e in out ==> d.createdAt <= e.createdAt
  {
    var all := ById(local, remote);
    var s: seq<Event> :|
      && Elements(s) == all.Values && Distinct(s)
      && (forall i, j :: 0 <= i < j < |s| ==> s[i].createdAt <= s[j].createdAt)
      && out == Last(s, MAX_EVENTS);
    ByIdKeys(local, remote);
    ValuesAsMany(all);
    DistinctCardinality(s);
    hide ById;
    LastAreLatest(s, MAX_EVENTS);
    assert forall d :: d in all.Values <==> d in s by { assert forall d :: d in s <==> d in Elements(s); }
  }

  lemma LastAreLatest(s: seq<Event>, n: nat)
    requires Distinct(s) && forall i, j :: 0 <= i < j < |s| ==> s[i].createdAt <= s[j].createdAt
    ensures var out := Last(s, n);
            && Distinct(out) && (forall e :: e in out ==> e in s)
            && forall d, e :: d in s && d !in out && e in out ==> d.createdAt <= e.createdAt
  {
    var out := Last(s, n);
    var m := |s| - |out|;
    assert out == s[m..];
    forall d, e | d in s && d !in out && e in out ensures d.createdAt <= e.createdAt {
      DroppedIsOlder(s, m, d, e);
    }
  }

  lemma DroppedIsOlder(s: seq<Event>, m: nat, d: Event, e: Event)
    requires m <= |s| && d in s && d !in s[m..] && e in s[m..]
    requires forall i, j :: 0 <= i < j < |s| ==> s[i].createdAt <= s[j].createdAt
    ensures d.createdAt <= e.createdAt
  {
    assert s == s[..m] + s[m..];
    var i :| 0 <= i < m && s[i] == d;
    var j :| 0 <= j < |s[m..]| && s[m..][j] == e;
    assert s[m + j] == e;
  }

  predicate SharedId(local: seq<Event>) { exists e, d :: e in local && d in local && e.id == d.id && e != d }

  /** A remote event with the identifier of this one replaces it. */
  predicate Outdated(e: Event, remote: seq<Event>) {
    e.id != "" && exists r :: r in remote && r.id == e.id && r.createdAt > e.createdAt
  }

  lemma {:induction false} LocalById(local: seq<Event>, e: Event)
    requires e in local && !SharedId(local)
    ensures e.id in ById(local, []) && ById(local, [])[e.id] == e
  {
    var t, l := local[..|local| - 1], local[|local| - 1];
    assert local == t + [l];
    if l.id != e.id {
      assert !SharedId(t) by { assert forall x :: x in t ==> x in local; }
      LocalById(t, e);
    }
  }

  lemma {:induction false} OutdatedIff(local: seq<Event>, remote: seq<Event>, e: Event)
    requires e in local && !SharedId(local)
    ensures e.id in ById(local, remote)
    ensures var d := ById(local, remote)[e.id]; if Outdated(e, remote) then d.createdAt > e.createdAt else d == e
  {
    if remote == [] {
      LocalById(local, e);
    } else {
      var t, l := remote[..|remote| - 1], remote[|remote| - 1];
      OutdatedIff(local, t, e);
      assert remote == t + [l];
      assert Outdated(e, remote) <==> Outdated(e, t) || (e.id != "" && l.id == e.id && l.createdAt > e.createdAt);
    }
  }

  /** With at most 500 events a merge keeps every local event exactly when no two different local ones share
      an identifier and no remote event with the identifier of a local one is later. */
  lemma LocalEventsKeptIff(local: seq<Event>, remote: seq<Event>, out: seq<Event>)
    requires MergedEvents(local, remote, out) && |ById(local, remote)| <= MAX_EVENTS
    ensures (forall e :: e in local ==> e in out) <==> !SharedId(local) && forall e :: e in local ==> !Outdated(e, remote)
  {
    CapDropsOldest(local, remote, out);
    ByIdKeys(local, remote);
    hide MergedEvents;
    var all := ById(local, remote);
    assert forall e :: e in out <==> e in all.Values;
    if SharedId(local) {
      var e, d :| e in local && d in local && e.id == d.id && e != d;
      assert !(e in all.Values && d in all.Values);
    } else {
      forall e | e in local ensures e in all.Values <==> !Outdated(e, remote) { OutdatedIff(local, remote, e); }
    }
  }
}
