/** The three last-writer-wins loops of MergeState (internal/control/store.go:347-369, 389-421) over maps
    of nodes, clients and proxies. */
module Lww {
  import opened Text

  /** How the loop reads a remote entry, which identifier it has, and what it stores for it. */
  datatype Rules<!V> = Rules(effective: (string, V) -> Option<V>, idOf: V -> string, pick: (Option<V>, V) -> V)

  function MergeOne<V>(m: map<string, V>, key: string, v: V, rules: Rules<V>): map<string, V> {
    match rules.effective(key, v)
    case None => m
    case Some(e) => m[rules.idOf(e) := rules.pick(Lookup(m, rules.idOf(e)), e)]
  }

  function MergeInOrder<V>(m: map<string, V>, remote: map<string, V>, order: seq<string>, rules: Rules<V>): map<string, V>
    requires forall k :: k in order ==> k in remote
  {
    if order == [] then m
    else
      var k := order[|order| - 1];
      MergeOne(MergeInOrder(m, remote, order[..|order| - 1], rules), k, remote[k], rules)
  }

  /** `order` visits every remote key once. */
  ghost predicate Visits<V>(order: seq<string>, remote: map<string, V>) {
    && (forall i, j :: 0 <= i < j < |order| ==> order[i] != order[j])
    && (forall k :: k in order <==> k in remote)
  }

  lemma VisitsNone<V>(remote: map<string, V>)
    ensures Visits([], remote - remote.Keys) && remote - {} == remote
  {}

  lemma VisitsMore<V>(order: seq<string>, remote: map<string, V>, todo: set<string>, k: string)
    requires Visits(order, remote - todo) && k in todo && k in remote
    ensures Visits(order + [k], remote - (todo - {k}))
    ensures forall x :: x in order + [k] ==> x in remote
  {
    forall i | 0 <= i < |order| ensures order[i] != k {
      assert order[i] in order;
    }
  }

  /** One of the loops; a Go map is visited in an arbitrary order. */
  method MergeMaps<V>(local: map<string, V>, remote: map<string, V>, rules: Rules<V>)
    returns (out: map<string, V>, ghost order: seq<string>)
    ensures Visits(order, remote) && out == MergeInOrder(local, remote, order, rules)
  {
    out, order := local, [];
    var todo := remote.Keys;
    VisitsNone(remote);
    while todo != {}
      invariant todo <= remote.Keys && Visits(order, remote - todo)
      invariant out == MergeInOrder(local, remote, order, rules)
      decreases todo
    {
      var k :| k in todo;
      VisitsMore(order, remote, todo, k);
      todo := todo - {k};
      assert (order + [k])[..|order|] == order;
      match rules.effective(k, remote[k]) {
        case None =>
        case Some(e) => out := out[rules.idOf(e) := rules.pick(Lookup(out, rules.idOf(e)), e)];
      }
      order := order + [k];
    }
  }

  predicate Names<V>(remote: map<string, V>, k: string, id: string, rules: Rules<V>) {
    k in remote && rules.effective(k, remote[k]).Some? && rules.idOf(rules.effective(k, remote[k]).value) == id
  }

  /** No two remote entries are read as the same identifier. */
  ghost predicate OneEntryPerId<V>(remote: map<string, V>, rules: Rules<V>) {
    forall k, l, id :: Names(remote, k, id, rules) && Names(remote, l, id, rules) ==> k == l
  }

  /** What the loop leaves at `id`: the local entry, or the pick between it and the one remote entry. */
  lemma {:induction false} MergedEntry<V>(local: map<string, V>, remote: map<string, V>, order: seq<string>, rules: Rules<V>, id: string)
    requires OneEntryPerId(remote, rules)
    requires forall k :: k in order ==> k in remote
    requires forall i, j :: 0 <= i < j < |order| ==> order[i] != order[j]
    ensures forall k :: k in order && Names(remote, k, id, rules) ==>
              Lookup(MergeInOrder(local, remote, order, rules), id) ==
              Some(rules.pick(Lookup(local, id), rules.effective(k, remote[k]).value))
    ensures (forall k :: k in order ==> !Names(remote, k, id, rules)) ==>
              Lookup(MergeInOrder(local, remote, order, rules), id) == Lookup(local, id)
  {
    if order != [] {
      var rest, l := order[..|order| - 1], order[|order| - 1];
      assert order == rest + [l];
      MergedEntry(local, remote, rest, rules, id);
      if Names(remote, l, id, rules) {
        forall k | k in rest ensures !Names(remote, k, id, rules) {
          var i :| 0 <= i < |rest| && rest[i] == k;
          assert order[i] != order[|order| - 1];
        }
      }
    }
  }

  /** With one entry per identifier the visiting order does not matter. */
  lemma OrderIrrelevant<V>(local: map<string, V>, remote: map<string, V>, a: seq<string>, b: seq<string>, rules: Rules<V>)
    requires OneEntryPerId(remote, rules) && Visits(a, remote) && Visits(b, remote)
    ensures MergeInOrder(local, remote, a, rules) == MergeInOrder(local, remote, b, rules)
  {
    var m, n := MergeInOrder(local, remote, a, rules), MergeInOrder(local, remote, b, rules);
    forall id ensures Lookup(m, id) == Lookup(n, id) {
      MergedEntry(local, remote, a, rules, id);
      MergedEntry(local, remote, b, rules, id);
      if k :| Names(remote, k, id, rules) { assert k in a && k in b; }
    }
    SameLookups(m, n);
  }

  lemma SameLookups<V>(m: map<string, V>, n: map<string, V>)
    requires forall id :: Lookup(m, id) == Lookup(n, id)
    ensures m == n
  {
    forall id ensures id in m <==> id in n { assert Lookup(m, id) == Lookup(n, id); }
    forall id | id in m ensures m[id] == n[id] { assert Lookup(m, id) == Lookup(n, id); }
  }

  /** A map that stores every entry under its own identifier, as replicas do. */
  ghost predicate Keyed<V>(m: map<string, V>, rules: Rules<V>) {
    forall k <- m :: Names(m, k, k, rules)
  }

  /** The per-identifier join of two such maps. */
  function JoinMaps<V>(local: map<string, V>, remote: map<string, V>, rules: Rules<V>): map<string, V>
    requires forall k <- remote :: rules.effective(k, remote[k]).Some?
  {
    map id | id in local.Keys + remote.Keys ::
      if id in remote then rules.pick(Lookup(local, id), rules.effective(id, remote[id]).value) else local[id]
  }

  /** For such a remote map every visiting order computes the join. */
  lemma MergeIsJoin<V>(local: map<string, V>, remote: map<string, V>, order: seq<string>, rules: Rules<V>)
    requires Keyed(remote, rules) && Visits(order, remote)
    ensures forall k <- remote :: rules.effective(k, remote[k]).Some?
    ensures MergeInOrder(local, remote, order, rules) == JoinMaps(local, remote, rules)
  {
    forall k | k in remote ensures rules.effective(k, remote[k]).Some? { assert Names(remote, k, k, rules); }
    assert OneEntryPerId(remote, rules) by {
      forall k, l, id | Names(remote, k, id, rules) && Names(remote, l, id, rules) ensures k == l {
        assert Names(remote, k, k, rules) && Names(remote, l, l, rules);
      }
    }
    var m, n := MergeInOrder(local, remote, order, rules), JoinMaps(local, remote, rules);
    forall id ensures Lookup(m, id) == Lookup(n, id) {
      MergedEntry(local, remote, order, rules, id);
      if id in remote {
        assert Names(remote, id, id, rules) && id in order;
      } else {
        forall k | k in order ensures !Names(remote, k, id, rules) {
          assert Names(remote, k, k, rules);
        }
      }
    }
    SameLookups(m, n);
  }
}
