/** Sums over the values of a map, in whatever order the map is iterated. */
module Sums {

  ghost function Sum(m: map<string, int>): int {
    if m == map[] then 0 else var k :| k in m; m[k] + Sum(m - {k})
  }

  /** Any key may be taken first. */
  lemma {:induction false} SumTake(m: map<string, int>, k: string)
    requires k in m
    ensures Sum(m) == m[k] + Sum(m - {k})
    decreases |m|
  {
    var h :| h in m && Sum(m) == m[h] + Sum(m - {h});
    if h != k {
      SumTake(m - {h}, k);
      SumTake(m - {k}, h);
      assert m - {h} - {k} == m - {k} - {h};
    }
  }

  lemma SumAdd(m: map<string, int>, k: string, v: int)
    requires k !in m
    ensures Sum(m[k := v]) == Sum(m) + v
  {
    SumTake(m[k := v], k);
    assert m[k := v] - {k} == m;
  }

  lemma SumUpdate(m: map<string, int>, k: string, v: int)
    requires k in m
    ensures Sum(m[k := v]) == Sum(m) - m[k] + v
  {
    SumTake(m, k);
    SumTake(m[k := v], k);
    assert m[k := v] - {k} == m - {k};
  }

  /** The members assigned to one owner, and to any owner of a set. */
  function Fiber(owner: map<string, string>, id: string): set<string> { set k | k in owner && owner[k] == id }

  function Within(owner: map<string, string>, ids: set<string>): set<string> { set k | k in owner && owner[k] in ids }

  /** Adding up the sizes of the fibers counts every member with a known owner once. */
  lemma {:induction false} FibersAddUp(m: map<string, int>, owner: map<string, string>)
    requires forall id <- m :: m[id] == |Fiber(owner, id)|
    ensures Sum(m) == |Within(owner, m.Keys)|
    decreases |m|
  {
    if m == map[] {
      assert Within(owner, m.Keys) == {};
    } else {
      var id :| id in m;
      SumTake(m, id);
      FibersAddUp(m - {id}, owner);
      assert Within(owner, m.Keys) == Fiber(owner, id) + Within(owner, (m - {id}).Keys);
      assert Fiber(owner, id) !! Within(owner, (m - {id}).Keys);
    }
  }
}
