/** Sorting by a strict total order.  The source sorts with `sort.Slice`, which is not stable;
    under a strict total order there is only one sorted arrangement, so stability and the
    arbitrary order of map iteration do not show. */
module Sorting {

  ghost predicate Trichotomy<T(!new)>(less: (T, T) -> bool, x: T, y: T) {
    if x == y then !less(x, y) else less(x, y) != less(y, x)
  }

  ghost predicate Transitive<T(!new)>(less: (T, T) -> bool, x: T, y: T, z: T) {
    less(x, y) && less(y, z) ==> less(x, z)
  }

  ghost predicate StrictTotal<T(!new)>(less: (T, T) -> bool, S: set<T>) {
    && (forall x, y :: x in S && y in S ==> Trichotomy(less, x, y))
    && (forall x, y, z :: x in S && y in S && z in S ==> Transitive(less, x, y, z))
  }

  ghost predicate Sorted<T>(less: (T, T) -> bool, s: seq<T>) {
    forall i, j :: 0 <= i < j < |s| ==> less(s[i], s[j])
  }

  function Elements<T>(s: seq<T>): set<T> { set x | x in s }

  /** `s` lists the set `S`, each element once, in order. */
  ghost predicate Lists<T(!new)>(less: (T, T) -> bool, S: set<T>, s: seq<T>) {
    Sorted(less, s) && Elements(s) == S
  }

  lemma SubsetStrictTotal<T(!new)>(less: (T, T) -> bool, S: set<T>, R: set<T>)
    requires StrictTotal(less, S) && R <= S
    ensures StrictTotal(less, R)
  {
    forall x, y | x in R && y in R ensures Trichotomy(less, x, y) {
      assert x in S && y in S;
    }
    forall x, y, z | x in R && y in R && z in R ensures Transitive(less, x, y, z) {
      assert x in S && y in S && z in S;
    }
  }

  predicate Distinct<T(==)>(s: seq<T>) { forall i, j :: 0 <= i < j < |s| ==> s[i] != s[j] }

  lemma DistinctSnoc<T>(s: seq<T>, x: T)
    requires Distinct(s) && x !in Elements(s)
    ensures Distinct(s + [x]) && Elements(s + [x]) == Elements(s) + {x}
  {
    assert forall i :: 0 <= i < |s| ==> s[i] in Elements(s);
  }

  lemma SubsetSize<T>(A: set<T>, B: set<T>)
    requires A <= B
    ensures |A| <= |B|
  {
    assert B == A + (B - A);
  }

  lemma SortedIsDistinct<T(!new)>(less: (T, T) -> bool, S: set<T>, s: seq<T>)
    requires StrictTotal(less, S) && Lists(less, S, s)
    ensures Distinct(s) && |s| == |S|
  {
    forall i, j | 0 <= i < j < |s| ensures s[i] != s[j] {
      assert s[i] in Elements(s) && s[j] in Elements(s);
      assert Trichotomy(less, s[i], s[j]);
    }
    DistinctCardinality(s);
  }

  lemma {:induction false} DistinctCardinality<T>(s: seq<T>)
    requires Distinct(s)
    ensures |Elements(s)| == |s|
  {
    if s != [] {
      var t := s[..|s| - 1];
      DistinctCardinality(t);
      assert s == t + [s[|s| - 1]];
      assert Elements(s) == Elements(t) + {s[|s| - 1]};
    }
  }

  lemma TailElements<T>(s: seq<T>)
    requires s != [] && Distinct(s)
    ensures Distinct(s[1..]) && s[0] in Elements(s) && Elements(s[1..]) == Elements(s) - {s[0]}
  {
    assert s == [s[0]] + s[1..];
  }

  /** The head of a listing is below every other element. */
  lemma HeadIsLeast<T(!new)>(less: (T, T) -> bool, S: set<T>, s: seq<T>, x: T)
    requires Lists(less, S, s) && x in S
    ensures s != [] && (x == s[0] || less(s[0], x))
  {
    assert x in s;
    var i :| 0 <= i < |s| && s[i] == x;
  }

  /** There is exactly one listing of a set. */
  lemma {:induction false} ListingUnique<T(!new)>(less: (T, T) -> bool, S: set<T>, a: seq<T>, b: seq<T>)
    requires StrictTotal(less, S) && Lists(less, S, a) && Lists(less, S, b)
    ensures a == b
    decreases |a|
  {
    SortedIsDistinct(less, S, a);
    SortedIsDistinct(less, S, b);
    if a != [] {
      TailElements(a);
      TailElements(b);
      HeadIsLeast(less, S, a, b[0]);
      HeadIsLeast(less, S, b, a[0]);
      assert Trichotomy(less, a[0], b[0]);
      SubsetStrictTotal(less, S, S - {a[0]});
      ListingUnique(less, S - {a[0]}, a[1..], b[1..]);
      assert a == [a[0]] + a[1..] && b == [b[0]] + b[1..];
    }
  }

  function Insert<T>(less: (T, T) -> bool, s: seq<T>, x: T): seq<T> {
    if s == [] then [x]
    else if less(x, s[0]) then [x] + s
    else [s[0]] + Insert(less, s[1..], x)
  }

  lemma {:induction false} InsertElements<T>(less: (T, T) -> bool, s: seq<T>, x: T)
    ensures Elements(Insert(less, s, x)) == Elements(s) + {x}
  {
    var r := Insert(less, s, x);
    if s == [] {
      assert Elements(r) == {x};
    } else if less(x, s[0]) {
      assert Elements(r) == {x} + Elements(s);
    } else {
      InsertElements(less, s[1..], x);
      assert s == [s[0]] + s[1..];
      assert Elements(s) == {s[0]} + Elements(s[1..]);
      assert Elements(r) == {s[0]} + Elements(Insert(less, s[1..], x));
    }
  }

  lemma SortedCons<T>(less: (T, T) -> bool, x: T, s: seq<T>)
    requires Sorted(less, s) && forall y :: y in s ==> less(x, y)
    ensures Sorted(less, [x] + s)
  {}

  lemma {:induction false} InsertLists<T(!new)>(less: (T, T) -> bool, S: set<T>, s: seq<T>, x: T)
    requires StrictTotal(less, S + {x}) && Lists(less, S, s) && x !in S
    ensures Lists(less, S + {x}, Insert(less, s, x))
  {
    InsertElements(less, s, x);
    if s != [] {
      assert s[0] in Elements(s);
      SubsetStrictTotal(less, S + {x}, S);
      SortedIsDistinct(less, S, s);
      TailElements(s);
      if less(x, s[0]) {
        forall y | y in s ensures less(x, y) {
          assert y in Elements(s);
          HeadIsLeast(less, S, s, y);
          assert Transitive(less, x, s[0], y);
        }
        SortedCons(less, x, s);
      } else {
        assert Trichotomy(less, x, s[0]);
        SubsetStrictTotal(less, S + {x}, S - {s[0]} + {x});
        InsertLists(less, S - {s[0]}, s[1..], x);
        var q := Insert(less, s[1..], x);
        forall y | y in q ensures less(s[0], y) {
          assert y in Elements(q);
          if y != x { HeadIsLeast(less, S, s, y); }
        }
        SortedCons(less, s[0], q);
      }
    }
  }

  lemma {:induction false} ListingExists<T(!new)>(less: (T, T) -> bool, S: set<T>)
    requires StrictTotal(less, S)
    ensures exists s :: Lists(less, S, s)
  {
    if S == {} {
      assert Lists(less, S, []);
    } else {
      var x :| x in S;
      SubsetStrictTotal(less, S, S - {x});
      assert S - {x} + {x} == S;
      ListingExists(less, S - {x});
      var r :| Lists(less, S - {x}, r);
      InsertLists(less, S - {x}, r, x);
    }
  }

  /** The listing of `S`. */
  ghost function Listing<T(!new)>(less: (T, T) -> bool, S: set<T>): (s: seq<T>)
    requires StrictTotal(less, S)
    ensures Lists(less, S, s)
  {
    ListingExists(less, S);
    var s :| Lists(less, S, s);
    s
  }

  lemma ListingIs<T(!new)>(less: (T, T) -> bool, S: set<T>, s: seq<T>)
    requires StrictTotal(less, S) && Lists(less, S, s)
    ensures s == Listing(less, S)
  {
    ListingUnique(less, S, s, Listing(less, S));
  }

  /** The n last elements. */
  function Last<T>(s: seq<T>, n: nat): seq<T> {
    if |s| > n then s[|s| - n..] else s
  }

  lemma NotBelowHead<T(!new)>(less: (T, T) -> bool, S: set<T>, s: seq<T>, x: T, j: nat)
    requires StrictTotal(less, S + {x}) && Lists(less, S, s) && x !in S
    requires j < |s| && !less(x, s[j])
    ensures !less(x, s[0])
  {
    assert s[0] in Elements(s) && s[j] in Elements(s);
    assert Trichotomy(less, x, s[j]) && Trichotomy(less, x, s[0]);
    assert Transitive(less, s[0], s[j], x);
  }

  lemma TailLists<T(!new)>(less: (T, T) -> bool, S: set<T>, s: seq<T>, x: T)
    requires StrictTotal(less, S + {x}) && Lists(less, S, s) && s != []
    ensures Lists(less, S - {s[0]}, s[1..]) && StrictTotal(less, S - {s[0]} + {x})
  {
    SubsetStrictTotal(less, S + {x}, S);
    SortedIsDistinct(less, S, s);
    TailElements(s);
    SubsetStrictTotal(less, S + {x}, S - {s[0]} + {x});
  }

  /** Insertion puts `x` before the elements it is below and after the others. */
  lemma {:induction false} InsertPosition<T(!new)>(less: (T, T) -> bool, S: set<T>, s: seq<T>, x: T, j: nat)
    requires StrictTotal(less, S + {x}) && Lists(less, S, s) && x !in S
    requires j <= |s| && (j > 0 ==> !less(x, s[j - 1])) && (j < |s| ==> less(x, s[j]))
    ensures Insert(less, s, x) == s[..j] + [x] + s[j..]
    decreases |s|
  {
    if j > 0 {
      NotBelowHead(less, S, s, x, j - 1);
      var t := s[1..];
      TailLists(less, S, s, x);
      assert j > 1 ==> t[j - 2] == s[j - 1];
      assert j < |s| ==> t[j - 1] == s[j];
      InsertPosition(less, S - {s[0]}, t, x, j - 1);
      hide Lists, StrictTotal, Insert;
      assert s[..j] == [s[0]] + t[..j - 1] && s[j..] == t[j - 1..];
      assert [s[0]] + (t[..j - 1] + [x] + t[j - 1..]) == s[..j] + [x] + s[j..];
    }
  }

  /** Moves `a[k]` down to where it belongs among the elements before it. */
  method MoveDown<T>(a: array<T>, k: nat, less: (T, T) -> bool) returns (j: nat)
    requires k < a.Length
    modifies a
    ensures j <= k && (j > 0 ==> !less(old(a[k]), old(a[j - 1]))) && (j < k ==> less(old(a[k]), old(a[j])))
    ensures a[..k + 1] == old(a[..j]) + [old(a[k])] + old(a[j..k])
    ensures a[k + 1..] == old(a[k + 1..])
  {
    var x := a[k];
    ghost var was := a[..];
    j := k;
    while j > 0 && less(x, a[j - 1])
      invariant 0 <= j <= k
      invariant forall i :: 0 <= i < j ==> a[i] == was[i]
      invariant forall i :: j < i <= k ==> a[i] == was[i - 1]
      invariant forall i :: k < i < a.Length ==> a[i] == was[i]
      invariant j < k ==> less(x, was[j])
    {
      a[j] := a[j - 1];
      j := j - 1;
    }
    a[j] := x;
    assert a[..k + 1] == was[..j] + [x] + was[j..k];
  }

  /** sort.Slice on `a[..n]`, for pairwise different elements. */
  method SortSlice<T(!new)>(a: array<T>, n: nat, less: (T, T) -> bool)
    requires n <= a.Length
    requires StrictTotal(less, Elements(a[..n])) && Distinct(a[..n])
    modifies a
    ensures a[..n] == Listing(less, Elements(old(a[..n])))
    ensures a[n..] == old(a[n..])
  {
    hide StrictTotal, Distinct, Lists, Elements, Listing;
    ghost var was := a[..];
    assert a[..0] == was[..0] == [];
    NothingListed<T>(less);
    var k := 0;
    while k < n
      invariant 0 <= k <= n
      invariant a[k..] == was[k..]
      invariant Lists(less, Elements(was[..k]), a[..k])
    {
      ghost var head, tail := a[..k], a[k..];
      assert a[k] == tail[0] == was[k] && tail[1..] == was[k + 1..];
      PrefixElements(was, n, k);
      label before:
      var j := MoveDown(a, k, less);
      assert a[k + 1..] == old@before(a[k + 1..]) == tail[1..];
      assert old@before(a[..j]) == head[..j] && old@before(a[j..k]) == head[j..];
      assert a[..k + 1] == head[..j] + [was[k]] + head[j..];
      InsertStep(less, Elements(was[..n]), Elements(was[..k]), head, was[k], j);
      k := k + 1;
    }
    ListingIs(less, Elements(was[..n]), a[..n]);
  }

  lemma NothingListed<T(!new)>(less: (T, T) -> bool)
    ensures Lists(less, Elements<T>([]), [])
  {}

  lemma InsertStep<T(!new)>(less: (T, T) -> bool, U: set<T>, S: set<T>, s: seq<T>, x: T, j: nat)
    requires StrictTotal(less, U) && S + {x} <= U && Lists(less, S, s) && x !in S
    requires j <= |s| && (j > 0 ==> !less(x, s[j - 1])) && (j < |s| ==> less(x, s[j]))
    ensures Lists(less, S + {x}, s[..j] + [x] + s[j..])
  {
    SubsetStrictTotal(less, U, S + {x});
    InsertPosition(less, S, s, x, j);
    InsertLists(less, S, s, x);
  }

  lemma PrefixElements<T>(s: seq<T>, n: nat, k: nat)
    requires k < n <= |s| && Distinct(s[..n])
    ensures Elements(s[..k + 1]) == Elements(s[..k]) + {s[k]} && s[k] !in Elements(s[..k])
    ensures Elements(s[..k + 1]) <= Elements(s[..n])
  {
    assert s[..k + 1] == s[..k] + [s[k]];
    forall i | 0 <= i < k ensures s[i] != s[k] {
      assert s[..n][i] != s[..n][k];
    }
    forall i | 0 <= i <= k ensures s[i] in s[..n] {
      assert s[..n][i] == s[i];
    }
  }
}
