/** String helpers of the control plane: byte-wise order, trimming, URL and identifier
    normalisation.  A `char` is a Unicode scalar value; the order of scalar values is the
    order of their UTF-8 encodings, so `StrLess` is the source's `<` on strings. */
module Text {

  datatype Option<+T> = None | Some(value: T)

  datatype Result<+T, +E> = Ok(value: T) | Err(error: E)

  function Lookup<V>(m: map<string, V>, k: string): Option<V> {
    if k in m then Some(m[k]) else None
  }

  /* ---------- order ---------- */

  predicate StrLess(a: string, b: string) {
    if b == "" then false
    else if a == "" then true
    else if a[0] != b[0] then a[0] < b[0]
    else StrLess(a[1..], b[1..])
  }

  /** At the first character in which they differ `a` has the smaller one, or it ends there. */
  predicate FirstDifference(a: string, b: string, k: int) {
    && 0 <= k <= |a| && k < |b| && a[..k] == b[..k] && (k == |a| || a[k] < b[k])
  }

  lemma {:induction false} StrLessSays(a: string, b: string)
    ensures StrLess(a, b) <==> exists k :: FirstDifference(a, b, k)
  {
    if a != "" && b != "" && a[0] == b[0] {
      StrLessSays(a[1..], b[1..]);
      if k :| FirstDifference(a[1..], b[1..], k) {
        assert a[..k + 1] == [a[0]] + a[1..][..k] && b[..k + 1] == [b[0]] + b[1..][..k];
        assert FirstDifference(a, b, k + 1);
      }
      if k :| FirstDifference(a, b, k) {
        assert k > 0 && a[1..][..k - 1] == a[..k][1..] && b[1..][..k - 1] == b[..k][1..];
        assert FirstDifference(a[1..], b[1..], k - 1);
      }
    } else if b != "" && (a == "" || a[0] < b[0]) {
      assert FirstDifference(a, b, 0);
    } else if a != "" && b != "" {
      SamePrefix(a, b);
    }
  }

  lemma SamePrefix(a: string, b: string)
    requires a != "" && b != ""
    ensures forall k :: 0 < k <= |a| && k <= |b| && a[..k] == b[..k] ==> a[0] == b[0]
  {
    forall k | 0 < k <= |a| && k <= |b| && a[..k] == b[..k] ensures a[0] == b[0] { assert a[..k][0] == b[..k][0]; }
  }

  lemma {:induction false} StrLessIrreflexive(a: string)
    ensures !StrLess(a, a)
  {
    if a != "" { StrLessIrreflexive(a[1..]); }
  }

  lemma {:induction false} StrLessTransitive(a: string, b: string, c: string)
    requires StrLess(a, b) && StrLess(b, c)
    ensures StrLess(a, c)
  {
    if a != "" && a[0] == b[0] == c[0] { StrLessTransitive(a[1..], b[1..], c[1..]); }
  }

  lemma {:induction false} StrLessTotal(a: string, b: string)
    ensures StrLess(a, b) || a == b || StrLess(b, a)
  {
    if a != "" && b != "" && a[0] == b[0] {
      StrLessTotal(a[1..], b[1..]);
      assert a == [a[0]] + a[1..] && b == [b[0]] + b[1..];
    }
  }

  /* ---------- trimming ---------- */

  /** unicode.IsSpace */
  predicate IsSpace(c: char) {
    var n := c as int;
    || 9 <= n <= 13 || n == 32 || n == 0x85 || n == 0xA0 || n == 0x1680
    || 0x2000 <= n <= 0x200A || n == 0x2028 || n == 0x2029 || n == 0x202F || n == 0x205F || n == 0x3000
  }

  predicate IsSlash(c: char) { c == '/' }

  predicate IsSpaceOrSlash(c: char) { IsSpace(c) || IsSlash(c) }

  function TrimLeft(s: string, cut: char -> bool): string {
    if s != "" && cut(s[0]) then TrimLeft(s[1..], cut) else s
  }

  function TrimRight(s: string, cut: char -> bool): string {
    if s != "" && cut(s[|s| - 1]) then TrimRight(s[..|s| - 1], cut) else s
  }

  function Trim(s: string, cut: char -> bool): string { TrimRight(TrimLeft(s, cut), cut) }

  function TrimSpace(s: string): string { Trim(s, IsSpace) }

  predicate AllOf(s: string, p: char -> bool) { forall i :: 0 <= i < |s| ==> p(s[i]) }

  /** No cut character at either end. */
  predicate Trimmed(s: string, cut: char -> bool) {
    s == "" || (!cut(s[0]) && !cut(s[|s| - 1]))
  }

  /** What a left trim removes is a prefix of cut characters, and it removes all of it. */
  lemma {:induction false} TrimLeftSplit(s: string, cut: char -> bool) returns (p: string)
    ensures s == p + TrimLeft(s, cut) && AllOf(p, cut)
    ensures TrimLeft(s, cut) != "" ==> !cut(TrimLeft(s, cut)[0])
  {
    p := "";
    if s != "" && cut(s[0]) {
      var q := TrimLeftSplit(s[1..], cut);
      p := [s[0]] + q;
      assert s == [s[0]] + s[1..];
    }
  }

  lemma {:induction false} TrimRightSplit(s: string, cut: char -> bool) returns (w: string)
    ensures s == TrimRight(s, cut) + w && AllOf(w, cut)
    ensures TrimRight(s, cut) != "" ==> !cut(TrimRight(s, cut)[|TrimRight(s, cut)| - 1])
  {
    w := "";
    if s != "" && cut(s[|s| - 1]) {
      var q := TrimRightSplit(s[..|s| - 1], cut);
      w := q + [s[|s| - 1]];
      assert s == s[..|s| - 1] + [s[|s| - 1]];
    }
  }

  lemma {:induction false} TrimLeftSkips(p: string, s: string, cut: char -> bool)
    requires AllOf(p, cut)
    ensures TrimLeft(p + s, cut) == TrimLeft(s, cut)
  {
    if p == "" {
      assert p + s == s;
    } else {
      assert (p + s)[1..] == p[1..] + s;
      TrimLeftSkips(p[1..], s, cut);
    }
  }

  lemma {:induction false} TrimRightSkips(s: string, w: string, cut: char -> bool)
    requires AllOf(w, cut)
    ensures TrimRight(s + w, cut) == TrimRight(s, cut)
  {
    if w == "" {
      assert s + w == s;
    } else {
      assert (s + w)[..|s + w| - 1] == s + w[..|w| - 1];
      TrimRightSkips(s, w[..|w| - 1], cut);
    }
  }

  lemma TrimTail(d: string, w: string, cut: char -> bool)
    requires AllOf(w, cut)
    ensures Trim(d + w, cut) == Trim(d, cut)
  {
    var p := TrimLeftSplit(d, cut);
    var l := TrimLeft(d, cut);
    if l == "" {
      TrimLeftSkips(d + w, "", cut);
      assert d + w + "" == d + w;
    } else {
      assert d + w == p + (l + w);
      TrimLeftSkips(p, l + w, cut);
      TrimRightSkips(l, w, cut);
    }
  }

  lemma {:induction false} TrimRightStops(p: string, s: string, cut: char -> bool)
    requires p != "" && !cut(p[|p| - 1])
    ensures TrimRight(p + s, cut) == p + TrimRight(s, cut)
  {
    if s == "" {
      assert p + s == p;
    } else if cut(s[|s| - 1]) {
      assert (p + s)[..|p + s| - 1] == p + s[..|s| - 1];
      TrimRightStops(p, s[..|s| - 1], cut);
    }
  }

  /** Trimming yields a trimmed string, and leaves exactly the trimmed strings alone. */
  lemma TrimFixpoint(s: string, cut: char -> bool)
    ensures Trimmed(Trim(s, cut), cut)
    ensures Trim(s, cut) == s <==> Trimmed(s, cut)
  {
    var l := TrimLeft(s, cut);
    var _ := TrimLeftSplit(s, cut);
    var w := TrimRightSplit(l, cut);
    var t := TrimRight(l, cut);
    if t != "" { assert l[0] == t[0]; }
  }

  /* ---------- control URLs ---------- */

  function NormalizeUrl(u: string): string {
    var v := TrimSpace(u);
    if v == "" then "" else TrimRight(v, IsSlash)
  }

  /** The URL that repeated normalisation tends to: no blanks in front, no blanks or slashes behind. */
  function CanonicalUrl(u: string): string {
    TrimLeft(TrimRight(u, IsSpaceOrSlash), IsSpace)
  }

  /** A URL that normalisation leaves alone. */
  predicate StableUrl(u: string) { NormalizeUrl(u) == u }

  lemma CanonicalCore(p: string, n: string, w: string)
    requires AllOf(p, IsSpace) && AllOf(w, IsSpaceOrSlash)
    ensures CanonicalUrl(p + n + w) == CanonicalUrl(n)
  {
    TrimRightSkips(p + n, w, IsSpaceOrSlash);
    var v := TrimRightSplit(n, IsSpaceOrSlash);
    var t := TrimRight(n, IsSpaceOrSlash);
    assert p + n == (p + t) + v;
    TrimRightSkips(p + t, v, IsSpaceOrSlash);
    CanonicalFront(p, t);
  }

  lemma CanonicalFront(p: string, t: string)
    requires AllOf(p, IsSpace) && (t != "" ==> !IsSpaceOrSlash(t[|t| - 1]))
    ensures CanonicalUrl(p + t) == TrimLeft(t, IsSpace)
  {
    if t == "" {
      assert p + t == "" + p;
      TrimRightSkips("", p, IsSpaceOrSlash);
    } else {
      TrimLeftSkips(p, t, IsSpace);
    }
  }

  /** The parts of a URL: blanks, what normalisation keeps, and blanks or slashes. */
  lemma NormalizeSplit(u: string) returns (p: string, n: string, w: string)
    ensures u == p + n + w && AllOf(p, IsSpace) && AllOf(w, IsSpaceOrSlash)
    ensures n == NormalizeUrl(u)
  {
    p := TrimLeftSplit(u, IsSpace);
    var x := TrimRightSplit(TrimLeft(u, IsSpace), IsSpace);
    var y := TrimRightSplit(TrimSpace(u), IsSlash);
    n, w := TrimRight(TrimSpace(u), IsSlash), y + x;
    hide TrimLeft, TrimRight;
    FourParts(p, n, y, x);
    forall i | 0 <= i < |w| ensures IsSpaceOrSlash(w[i]) {
      if i < |y| { assert IsSlash(y[i]); } else { assert IsSpace(x[i - |y|]); }
    }
  }

  lemma FourParts(p: string, n: string, y: string, x: string)
    ensures p + ((n + y) + x) == p + n + (y + x)
  {}

  /** Normalising may change a URL more than once, but never its canonical form. */
  lemma NormalizeKeepsCanonical(u: string)
    ensures CanonicalUrl(NormalizeUrl(u)) == CanonicalUrl(u)
  {
    var p, n, w := NormalizeSplit(u);
    CanonicalCore(p, n, w);
  }

  /** A stable URL is its own canonical form: two stable URLs with one canonical form are equal. */
  lemma StableIsCanonical(u: string)
    requires StableUrl(u)
    ensures CanonicalUrl(u) == u
  {
    var l := TrimLeft(u, IsSpace);
    var p := TrimLeftSplit(u, IsSpace);
    var v := TrimSpace(u);
    var w := TrimRightSplit(l, IsSpace);
    var x := TrimRightSplit(v, IsSlash);
    assert |u| == |p| + |l| && |l| == |v| + |w| && (v != "" ==> |v| == |u| + |x|);
  }

  /** A blank stands directly before the slashes at the end. */
  predicate BlankBeforeSlashes(v: string) { exists i :: 0 <= i < |v| && BlankThenSlashes(v, i) }

  predicate BlankThenSlashes(v: string, i: nat)
    requires i < |v|
  {
    IsSpace(v[i]) && AllOf(v[i + 1..], IsSlash)
  }

  /** Normalisation is idempotent at `u` exactly when the trimmed text has no blank directly before the
      slashes at its end: "a /" becomes "a " and then "a". */
  lemma NormalizeIdempotentIff(u: string)
    ensures StableUrl(NormalizeUrl(u)) <==> !BlankBeforeSlashes(TrimSpace(u))
  {
    var v, n := TrimSpace(u), NormalizeUrl(u);
    NormalizedEndsIff(u);
    TrimFixpoint(u, IsSpace);
    var y := TrimRightSplit(v, IsSlash);
    hide StableUrl, NormalizeUrl, TrimSpace, TrimRight;
    assert v == n + y;
    if n != "" && IsSpace(n[|n| - 1]) {
      assert v[|n|..] == y && BlankThenSlashes(v, |n| - 1);
    }
    if i :| 0 <= i < |v| && BlankThenSlashes(v, i) {
      BlankIsLast(n, y, i);
    }
  }

  lemma BlankIsLast(n: string, y: string, i: nat)
    requires AllOf(y, IsSlash) && (n != "" ==> !IsSlash(n[|n| - 1])) && i < |n + y| && BlankThenSlashes(n + y, i)
    ensures i == |n| - 1 && n[i] == (n + y)[i]
  {
    var v := n + y;
    forall j | i < j < |v| ensures IsSlash(v[j]) { assert v[i + 1..][j - i - 1] == v[j]; }
    forall j | |n| <= j < |v| ensures IsSlash(v[j]) { assert v[j] == y[j - |n|]; }
    assert n != "" ==> v[|n| - 1] == n[|n| - 1];
  }

  lemma NormalizedEndsIff(u: string)
    ensures StableUrl(NormalizeUrl(u)) <==> (NormalizeUrl(u) == "" || !IsSpace(NormalizeUrl(u)[|NormalizeUrl(u)| - 1]))
    ensures NormalizeUrl(u) == TrimRight(TrimSpace(u), IsSlash)
  {
    var v := TrimSpace(u);
    var n := NormalizeUrl(u);
    TrimFixpoint(u, IsSpace);
    TrimFixpoint(n, IsSpace);
    if n != "" {
      var x := TrimRightSplit(v, IsSlash);
      assert n[0] == v[0];
      var w := TrimRightSplit(TrimLeft(n, IsSpace), IsSpace);
      var y := TrimRightSplit(TrimSpace(n), IsSlash);
      var p := TrimLeftSplit(n, IsSpace);
      assert |n| == |p| + |w| + |TrimSpace(n)| && |TrimSpace(n)| == |TrimRight(TrimSpace(n), IsSlash)| + |y|;
    }
  }

  lemma NormalizeTwiceDiffers()
    ensures NormalizeUrl("a /") == "a " && NormalizeUrl("a ") == "a"
  {
    assert TrimLeft("a /", IsSpace) == "a /" && TrimRight("a /", IsSpace) == "a /";
    assert "a /"[..2] == "a " && "a "[..1] == "a";
    assert TrimRight("a /", IsSlash) == TrimRight("a ", IsSlash) == "a ";
    assert TrimRight("a ", IsSpace) == TrimRight("a", IsSpace) == "a";
  }

  /* ---------- identifiers ---------- */

  /** Lower case as far as identifiers can see it: besides the Latin capitals only the Kelvin sign
      and the dotted capital I have an ASCII lower case. */
  function LowerChar(c: char): char {
    if 'A' <= c <= 'Z' then ((c as int) + 32) as char
    else if c as int == 0x212A then 'k'
    else if c as int == 0x130 then 'i'
    else c
  }

  function Lower(s: string): string { seq(|s|, i requires 0 <= i < |s| => LowerChar(s[i])) }

  predicate IsAlnum(c: char) { 'a' <= c <= 'z' || '0' <= c <= '9' }

  predicate IsPunct(c: char) { c == '-' || c == '_' || c == '.' }

  predicate IsIdChar(c: char) { IsAlnum(c) || IsPunct(c) }

  function KeepIdChars(s: string): string {
    if s == "" then ""
    else if IsIdChar(s[0]) then [s[0]] + KeepIdChars(s[1..])
    else if s[0] == ' ' || s[0] == '/' || s[0] == ':' || s[0] == '@' then ['-'] + KeepIdChars(s[1..])
    else KeepIdChars(s[1..])
  }

  function SanitizeId(s: string): string { Trim(KeepIdChars(TrimSpace(Lower(s))), IsPunct) }

  /** The strings `SanitizeId` can return. */
  predicate SanitizedId(s: string) { AllOf(s, IsIdChar) && Trimmed(s, IsPunct) }

  lemma {:induction false} KeepIdCharsKept(s: string)
    ensures AllOf(KeepIdChars(s), IsIdChar)
    ensures AllOf(s, IsIdChar) ==> KeepIdChars(s) == s
  {
    if s != "" {
      KeepIdCharsKept(s[1..]);
      assert s == [s[0]] + s[1..];
      assert AllOf(s, IsIdChar) ==> AllOf(s[1..], IsIdChar);
    }
  }

  predicate Stays(c: char) { c in "abcdefghijklmnopqrstuvwxyz0123456789-_." }

  predicate IsCapital(c: char) { c in "ABCDEFGHIJKLMNOPQRSTUVWXYZ" }

  predicate IsDashed(c: char) { c in " /:@" }

  /** What a character of an identifier is spelled as: letters are lower case, digits and three kinds of punctuation
      stay, four others become dashes, and all the rest is dropped.  Two letters outside ASCII have ASCII lower case. */
  function Spell(c: char): string {
    if Stays(c) then [c]
    else if IsCapital(c) then [('a' as int + (c as int - 'A' as int)) as char]
    else if IsDashed(c) then "-"
    else if c as int == 0x212A then "k"
    else if c as int == 0x130 then "i"
    else ""
  }

  function SpellAll(s: string): string { if s == "" then "" else Spell(s[0]) + SpellAll(s[1..]) }

  lemma SpellOne(c: char)
    ensures KeepIdChars([LowerChar(c)]) == Spell(c) && (IsSpace(LowerChar(c)) <==> IsSpace(c))
  {
    hide Stays, IsCapital, IsDashed;
    var l := [LowerChar(c)];
    assert l[1..] == "" && KeepIdChars(l[1..]) == "";
    IdAlphabet(c);
    Capitals(c);
    DashedChars(c);
    IdAlphabet(LowerChar(c));
    DashedChars(LowerChar(c));
  }

  lemma IdAlphabet(c: char)
    ensures Stays(c) <==> IsIdChar(c)
  {}

  lemma Capitals(c: char)
    ensures IsCapital(c) <==> 'A' <= c <= 'Z'
  {}

  lemma DashedChars(c: char)
    ensures IsDashed(c) <==> c == ' ' || c == '/' || c == ':' || c == '@'
  {}

  lemma {:induction false} KeepSpells(s: string)
    ensures KeepIdChars(Lower(s)) == SpellAll(s)
  {
    hide Spell, LowerChar, IsIdChar, Stays, IsCapital, IsDashed;
    if s != "" {
      SpellOne(s[0]);
      KeepSpells(s[1..]);
      assert Lower(s)[1..] == Lower(s[1..]) && Lower(s)[0] == LowerChar(s[0]);
      KeepFirst(Lower(s));
    }
  }

  lemma KeepFirst(l: string)
    requires l != ""
    ensures KeepIdChars(l) == KeepIdChars([l[0]]) + KeepIdChars(l[1..])
  {
    hide IsIdChar;
    var one := [l[0]];
    assert one[1..] == "" && KeepIdChars(one[1..]) == "";
  }

  lemma {:induction false} LowerTrimLeft(s: string)
    ensures TrimLeft(Lower(s), IsSpace) == Lower(TrimLeft(s, IsSpace))
  {
    hide KeepIdChars, Spell, LowerChar, IsSpace;
    if s != "" {
      SpellOne(s[0]);
      assert Lower(s)[1..] == Lower(s[1..]) && Lower(s)[0] == LowerChar(s[0]);
      LowerTrimLeft(s[1..]);
    }
  }

  lemma {:induction false} LowerTrimRight(s: string)
    ensures TrimRight(Lower(s), IsSpace) == Lower(TrimRight(s, IsSpace))
  {
    hide KeepIdChars, Spell, LowerChar, IsSpace;
    if s != "" {
      var n := |s| - 1;
      SpellOne(s[n]);
      assert Lower(s)[..n] == Lower(s[..n]) && Lower(s)[n] == LowerChar(s[n]);
      LowerTrimRight(s[..n]);
    }
  }

  /** An identifier is sanitized by spelling its characters, without the blanks around it, and cutting off the
      punctuation at the ends. */
  lemma SanitizeSpells(s: string)
    ensures SanitizeId(s) == Trim(SpellAll(TrimSpace(s)), IsPunct)
  {
    LowerTrimLeft(s);
    LowerTrimRight(TrimLeft(s, IsSpace));
    KeepSpells(TrimSpace(s));
    hide KeepIdChars, SpellAll, Lower, TrimLeft, TrimRight;
  }

  lemma SanitizedResult(s: string)
    ensures SanitizedId(SanitizeId(s))
  {
    var k := KeepIdChars(TrimSpace(Lower(s)));
    KeepIdCharsKept(TrimSpace(Lower(s)));
    var p := TrimLeftSplit(k, IsPunct);
    var v := TrimRightSplit(TrimLeft(k, IsPunct), IsPunct);
    TrimFixpoint(k, IsPunct);
    forall i | 0 <= i < |SanitizeId(s)| ensures IsIdChar(SanitizeId(s)[i]) {
      assert SanitizeId(s)[i] == k[|p| + i];
    }
  }

  lemma SanitizedStays(s: string)
    requires SanitizedId(s)
    ensures SanitizeId(s) == s
  {
    assert Lower(s) == s;
    TrimFixpoint(s, IsSpace);
    KeepIdCharsKept(s);
    TrimFixpoint(s, IsPunct);
  }

  /** `SanitizeId` maps onto the sanitized identifiers and leaves exactly these alone. */
  lemma SanitizeFixpoint(s: string)
    ensures SanitizedId(SanitizeId(s))
    ensures SanitizeId(s) == s <==> SanitizedId(s)
  {
    SanitizedResult(s);
    if SanitizedId(s) { SanitizedStays(s); }
  }

  lemma SanitizedHasNoSpace(s: string)
    requires SanitizedId(s)
    ensures AllOf(s, c => !IsSpace(c)) && TrimSpace(s) == s
  {
    TrimFixpoint(s, IsSpace);
  }

  lemma {:induction false} KeepIdCharsAlnum(s: string, i: nat)
    requires i < |s| && IsAlnum(s[i])
    ensures exists j :: 0 <= j < |KeepIdChars(s)| && IsAlnum(KeepIdChars(s)[j])
  {
    if i == 0 {
      assert KeepIdChars(s)[0] == s[0];
    } else {
      KeepIdCharsAlnum(s[1..], i - 1);
      var j :| 0 <= j < |KeepIdChars(s[1..])| && IsAlnum(KeepIdChars(s[1..])[j]);
      var t := KeepIdChars(s);
      if |t| == |KeepIdChars(s[1..])| { assert IsAlnum(t[j]); } else { assert t[j + 1] == KeepIdChars(s[1..])[j]; }
    }
  }

  /** A text that starts with a non-empty sanitized identifier sanitizes to something non-empty. */
  lemma SanitizeNonEmpty(id: string, rest: string)
    requires SanitizedId(id) && id != ""
    ensures SanitizeId(id + rest) != ""
  {
    var l := Lower(id + rest);
    assert l[0] == id[0] && IsAlnum(l[0]);
    var w := TrimRightSplit(TrimLeft(l, IsSpace), IsSpace);
    assert TrimLeft(l, IsSpace) == l;
    var t := TrimSpace(l);
    assert l == t + w && !IsSpace((t + w)[0]);
    assert t[0] == l[0];
    KeepIdCharsAlnum(t, 0);
    var k := KeepIdChars(t);
    var j :| 0 <= j < |k| && IsAlnum(k[j]);
    var p := TrimLeftSplit(k, IsPunct);
    var v := TrimRightSplit(TrimLeft(k, IsPunct), IsPunct);
    assert k == p + (SanitizeId(id + rest) + v);
    assert j >= |p|;
  }

  /* ---------- small helpers ---------- */

  function FirstNonEmpty(values: seq<string>): string {
    if values == [] then ""
    else if TrimSpace(values[0]) != "" then TrimSpace(values[0])
    else FirstNonEmpty(values[1..])
  }

  function Digits(n: nat): string {
    var d := [((n % 10) + '0' as int) as char];
    if n < 10 then d else Digits(n / 10) + d
  }

  function Itoa(n: int): string { if n < 0 then "-" + Digits(-n) else Digits(n) }

  /** The number that a text of digits stands for. */
  function Number(s: string): int {
    if s == "" then 0 else 10 * Number(s[..|s| - 1]) + (s[|s| - 1] as int - '0' as int)
  }

  lemma {:induction false} DigitsRead(n: nat)
    ensures Number(Digits(n)) == n && Digits(n) != "" && forall c :: c in Digits(n) ==> '0' <= c <= '9'
  {
    if n >= 10 {
      DigitsRead(n / 10);
      var d := [((n % 10) + '0' as int) as char];
      assert (Digits(n / 10) + d)[..|Digits(n / 10)|] == Digits(n / 10);
    } else {
      assert Digits(n)[..0] == "";
    }
  }

  /** A rendered number can be read back. */
  lemma ItoaReads(n: int)
    ensures n >= 0 ==> Number(Itoa(n)) == n
    ensures n < 0 ==> Itoa(n) != "" && Itoa(n)[0] == '-' && -Number(Itoa(n)[1..]) == n
  {
    DigitsRead(if n < 0 then -n else n);
    if n < 0 { assert Itoa(n)[1..] == Digits(-n); }
  }
}
