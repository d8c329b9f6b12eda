/** Sorted lists of distinct strings (internal/control/store.go:531-572): the peer URLs of a control
    plane and the nodes that used a token. */
module StringLists {
  import opened Text
  import opened Sorting

  lemma StringsStrictTotal(S: set<string>)
    ensures StrictTotal(StrLess, S)
  {
    forall x, y | x in S && y in S ensures Trichotomy(StrLess, x, y) {
      StrLessIrreflexive(x);
      StrLessTotal(x, y);
      if StrLess(x, y) && StrLess(y, x) { StrLessTransitive(x, y, x); }
    }
    forall x, y, z | x in S && y in S && z in S ensures Transitive(StrLess, x, y, z) {
      if StrLess(x, y) && StrLess(y, z) { StrLessTransitive(x, y, z); }
    }
  }

  ghost function SortedStrings(S: set<string>): (s: seq<string>)
    ensures Lists(StrLess, S, s) && Distinct(s) && |s| == |S|
  {
    StringsStrictTotal(S);
    SortedIsDistinct(StrLess, S, Listing(StrLess, S));
    Listing(StrLess, S)
  }

  /** sort.Strings */
  method SortStrings(list: seq<string>) returns (out: seq<string>)
    requires Distinct(list)
    ensures out == SortedStrings(Elements(list))
  {
    StringsStrictTotal(Elements(list));
    var a := new string[|list|](i requires 0 <= i < |list| => list[i]);
    assert a[..] == list && a[..|list|] == list;
    SortSlice(a, |list|, StrLess);
    out := a[..|list|];
  }

  /** The normalised, non-empty values. */
  function Normalized(values: seq<string>, norm: string -> string): set<string> {
    set x | x in values && norm(x) != "" :: norm(x)
  }

  /** mergePeerURLs with NormalizeUrl, mergeStrings with TrimSpace. */
  method MergeLists(existing: seq<string>, values: seq<string>, norm: string -> string) returns (out: seq<string>)
    ensures out == SortedStrings(Normalized(existing, norm) + Normalized(values, norm))
  {
    var all := existing + values;
    var seen: set<string> := {};
    var list: seq<string> := [];
    for i := 0 to |all|
      invariant seen == Normalized(all[..i], norm) == Elements(list)
      invariant Distinct(list)
    {
      assert all[..i + 1] == all[..i] + [all[i]];
      var value := norm(all[i]);
      if value != "" && value !in seen {
        assert Elements(list + [value]) == Elements(list) + {value};
        seen := seen + {value};
        list := list + [value];
      }
    }
    assert all[..|all|] == all;
    assert Normalized(all, norm) == Normalized(existing, norm) + Normalized(values, norm);
    out := SortStrings(list);
  }

  /** removePeerURL */
  function WithoutUrl(values: seq<string>, remove: string): seq<string> {
    if values == [] then []
    else
      var v := NormalizeUrl(values[|values| - 1]);
      WithoutUrl(values[..|values| - 1], remove) + (if v == "" || v == NormalizeUrl(remove) then [] else [v])
  }

  method RemoveUrl(values: seq<string>, remove: string) returns (out: seq<string>)
    ensures out == WithoutUrl(values, remove)
  {
    out := [];
    for i := 0 to |values|
      invariant out == WithoutUrl(values[..i], remove)
    {
      assert values[..i + 1][..i] == values[..i];
      var v := NormalizeUrl(values[i]);
      if !(v == "" || v == NormalizeUrl(remove)) {
        out := out + [v];
      }
    }
    assert values[..|values|] == values;
  }

  lemma {:induction false} WithoutUrlElements(values: seq<string>, remove: string)
    ensures Elements(WithoutUrl(values, remove)) == Normalized(values, NormalizeUrl) - {NormalizeUrl(remove)}
  {
    if values != [] {
      var t := values[..|values| - 1];
      WithoutUrlElements(t, remove);
      var x := values[|values| - 1];
      assert values == t + [x];
      assert Normalized(values, NormalizeUrl) == Normalized(t, NormalizeUrl) + (if NormalizeUrl(x) == "" then {} else {NormalizeUrl(x)});
      var v := NormalizeUrl(x);
      if v == "" || v == NormalizeUrl(remove) {
        assert WithoutUrl(values, remove) == WithoutUrl(t, remove);
      } else {
        assert WithoutUrl(values, remove) == WithoutUrl(t, remove) + [v];
        assert Elements(WithoutUrl(t, remove) + [v]) == Elements(WithoutUrl(t, remove)) + {v};
      }
    }
  }
}
