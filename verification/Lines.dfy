/** Cutting text into lines and fields. */
module Lines {
  import opened Text

  predicate HasPrefix(s: string, p: string) { p <= s }

  predicate Lacks(s: string, c: char) { forall i :: 0 <= i < |s| ==> s[i] != c }

  /** The sum of a number for each character. */
  function Weight(s: string, w: char -> nat): nat {
    if s == "" then 0 else w(s[0]) + Weight(s[1..], w)
  }

  /** strings.Split with a one-character separator */
  function Split(s: string, c: char): (r: seq<string>)
    ensures r != []
  {
    if s == "" then [""]
    else
      var r := Split(s[1..], c);
      if s[0] == c then [""] + r else [[s[0]] + r[0]] + r[1..]
  }

  /** strings.Cut with a one-character separator */
  function Cut(s: string, c: char): Option<(string, string)> {
    if s == "" then None
    else if s[0] == c then Some(("", s[1..]))
    else
      match Cut(s[1..], c)
      case None => None
      case Some(p) => Some(([s[0]] + p.0, p.1))
  }

  function Unlines(lines: seq<string>): string {
    if lines == [] then "" else lines[0] + "\n" + Unlines(lines[1..])
  }

  lemma {:induction false} UnlinesAppend(a: seq<string>, b: seq<string>)
    ensures Unlines(a + b) == Unlines(a) + Unlines(b)
  {
    if a == [] {
      assert a + b == b;
    } else {
      assert (a + b)[0] == a[0] && (a + b)[1..] == a[1..] + b;
      UnlinesAppend(a[1..], b);
      assert a[0] + "\n" + (Unlines(a[1..]) + Unlines(b)) == a[0] + "\n" + Unlines(a[1..]) + Unlines(b);
    }
  }

  lemma UnlinesSnoc(lines: seq<string>, l: string)
    ensures Unlines(lines + [l]) == Unlines(lines) + (l + "\n")
  {
    UnlinesAppend(lines, [l]);
    assert Unlines([l]) == l + "\n" + Unlines([]);
  }

  lemma {:induction false} SplitLine(l: string, rest: string, c: char)
    requires Lacks(l, c)
    ensures Split(l + [c] + rest, c) == [l] + Split(rest, c)
  {
    var s := l + [c] + rest;
    if l == "" {
      assert s[1..] == rest;
    } else {
      assert s[1..] == l[1..] + [c] + rest;
      SplitLine(l[1..], rest, c);
      var r := [l[1..]] + Split(rest, c);
      assert r[1..] == Split(rest, c);
      assert [l[0]] + l[1..] == l;
    }
  }

  /** Splitting joins back: no line holds the separator, and with separators in between they are the text. */
  lemma {:induction false} SplitUnlines(lines: seq<string>)
    requires forall l :: l in lines ==> Lacks(l, '\n')
    ensures Split(Unlines(lines), '\n') == lines + [""]
  {
    if lines != [] {
      SplitUnlines(lines[1..]);
      SplitLine(lines[0], Unlines(lines[1..]), '\n');
      assert lines[0] + ['\n'] + Unlines(lines[1..]) == Unlines(lines);
      assert [lines[0]] + (lines[1..] + [""]) == lines + [""];
    }
  }

  lemma {:induction false} CutAt(k: string, v: string, c: char)
    requires Lacks(k, c)
    ensures Cut(k + [c] + v, c) == Some((k, v))
  {
    var s := k + [c] + v;
    if k == "" {
      assert s[1..] == v;
    } else {
      assert s[1..] == k[1..] + [c] + v;
      CutAt(k[1..], v, c);
      assert [k[0]] + k[1..] == k;
    }
  }

  lemma {:induction false} CutSplits(s: string, c: char)
    ensures Cut(s, c).Some? ==> s == Cut(s, c).value.0 + [c] + Cut(s, c).value.1 && Lacks(Cut(s, c).value.0, c)
    ensures Cut(s, c).None? ==> Lacks(s, c)
  {
    if s != "" && s[0] != c {
      CutSplits(s[1..], c);
      assert s == [s[0]] + s[1..];
      match Cut(s[1..], c)
      case Some(p) => assert [s[0]] + (p.0 + [c] + p.1) == ([s[0]] + p.0) + [c] + p.1;
      case None =>
    }
  }

  /** Text `a`, which ends with the separator, splits before `b`. */
  lemma {:induction false} SplitAppend(a: string, b: string, c: char)
    ensures Split(a + [c] + b, c) == Split(a, c) + Split(b, c)
  {
    var s := a + [c] + b;
    if a == "" {
      assert s[1..] == b;
    } else {
      assert s[1..] == a[1..] + [c] + b;
      SplitAppend(a[1..], b, c);
      var r, q := Split(a[1..], c), Split(b, c);
      assert Split(s[1..], c) == r + q && s[0] == a[0];
      hide Split;
      FirstsJoin("", r, q);
      FirstsJoin([a[0]] + r[0], r, q);
    }
  }

  lemma FirstsJoin(l: string, r: seq<string>, q: seq<string>)
    requires r != []
    ensures (r + q)[0] == r[0] && [l] + (r + q) == [l] + r + q && [l] + (r + q)[1..] == [l] + r[1..] + q
  {}

  lemma {:induction false} SplitLacks(s: string, c: char)
    ensures forall l :: l in Split(s, c) ==> Lacks(l, c)
  {
    if s != "" {
      SplitLacks(s[1..], c);
      var r := Split(s[1..], c);
      assert Lacks(r[0], c);
    }
  }
}
