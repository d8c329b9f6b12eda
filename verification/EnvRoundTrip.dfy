/** Which settings survive being written and read back, for all of them
    (internal/control/envfile.go). */
module EnvRoundTrip {
  import opened Text
  import opened Lines
  import opened Sorting
  import opened StringLists
  import opened EnvFile

  /* ---------- weights: what quoting and unquoting keep ---------- */

  const QUOTES: char -> nat := c => if c == '\'' then 1 else 0
  const ENS: char -> nat := c => if c == 'n' then 1 else 0
  const ENS_AND_BREAKS: char -> nat := c => if c == 'n' || c == '\n' then 1 else 0

  lemma {:induction false} WeightAppend(a: string, b: string, w: char -> nat)
    ensures Weight(a + b, w) == Weight(a, w) + Weight(b, w)
  {
    if a == "" {
      assert a + b == b;
    } else {
      assert (a + b)[1..] == a[1..] + b;
      WeightAppend(a[1..], b, w);
    }
  }

  /** Breaks count on top of the letters n. */
  lemma {:induction false} BreaksWeigh(s: string)
    ensures Weight(s, ENS) <= Weight(s, ENS_AND_BREAKS)
    ensures Weight(s, ENS) == Weight(s, ENS_AND_BREAKS) <==> Lacks(s, '\n')
  {
    if s != "" {
      BreaksWeigh(s[1..]);
      assert s == [s[0]] + s[1..];
      assert Lacks(s, '\n') <==> s[0] != '\n' && Lacks(s[1..], '\n');
    }
  }

  lemma {:induction false} QuotesWeigh(s: string)
    ensures Weight(s, QUOTES) == 0 <==> Lacks(s, '\'')
  {
    if s != "" {
      QuotesWeigh(s[1..]);
      assert s == [s[0]] + s[1..];
      assert Lacks(s, '\'') <==> s[0] != '\'' && Lacks(s[1..], '\'');
    }
  }

  /** Replacing keeps every weight in which the backslash is nothing and both letters are the same. */
  lemma {:induction false} ReplaceKeepsWeight(s: string, b: char, to: char, w: char -> nat)
    requires w('\\') == 0 && w(b) == w(to)
    ensures Weight(Replace(s, b, to), w) == Weight(s, w)
  {
    if s == "" {
    } else if |s| >= 2 && s[0] == '\\' && s[1] == b {
      ReplaceKeepsWeight(s[2..], b, to, w);
      assert s[1..][1..] == s[2..];
      assert ([to] + Replace(s[2..], b, to))[1..] == Replace(s[2..], b, to);
    } else {
      ReplaceKeepsWeight(s[1..], b, to, w);
      assert ([s[0]] + Replace(s[1..], b, to))[1..] == Replace(s[1..], b, to);
    }
  }

  /** Quoting triples the quotes ... */
  lemma {:induction false} QuotesTripled(v: string)
    ensures Weight(QuoteQuotes(v), QUOTES) == 3 * Weight(v, QUOTES)
  {
    if v != "" {
      QuotesTripled(v[1..]);
      WeightAppend(if v[0] == '\'' then "'\\''" else [v[0]], QuoteQuotes(v[1..]), QUOTES);
      FourChars(QUOTES);
    }
  }

  /** ... and keeps everything else but backslashes. */
  lemma {:induction false} QuoteQuotesWeight(v: string, w: char -> nat)
    requires w('\\') == 0 && w('\'') == 0
    ensures Weight(QuoteQuotes(v), w) == Weight(v, w)
  {
    if v != "" {
      QuoteQuotesWeight(v[1..], w);
      WeightAppend(if v[0] == '\'' then "'\\''" else [v[0]], QuoteQuotes(v[1..]), w);
      FourChars(w);
    }
  }

  lemma FourChars(w: char -> nat)
    ensures Weight("'\\''", w) == 3 * w('\'') + w('\\')
  {
    assert Weight("'", w) == w('\'');
    assert Weight("''", w) == w('\'') + Weight("''"[1..], w) == 2 * w('\'');
    assert "\\''"[1..] == "''" && "'\\''"[1..] == "\\''";
    assert Weight("\\''", w) == w('\\') + Weight("''", w);
  }

  lemma {:induction false} QuoteQuotesId(v: string)
    requires Lacks(v, '\'')
    ensures QuoteQuotes(v) == v
  {
    if v != "" {
      QuoteQuotesId(v[1..]);
      assert v == [v[0]] + v[1..];
    }
  }

  lemma {:induction false} QuoteQuotesLacks(v: string, c: char)
    requires Lacks(v, c) && c != '\'' && c != '\\'
    ensures Lacks(QuoteQuotes(v), c)
  {
    if v != "" { QuoteQuotesLacks(v[1..], c); }
  }

  /* ---------- one value ---------- */

  function ReadBack(v: string): string { Unquote(TrimSpace(ShellValue(v))) }

  predicate NoPair(s: string, b: char) {
    forall i :: 0 <= i < |s| - 1 ==> !(s[i] == '\\' && s[i + 1] == b)
  }

  /** Replacing shortens, except where there is nothing to replace. */
  lemma {:induction false} ReplaceShortens(s: string, b: char, to: char)
    ensures |Replace(s, b, to)| <= |s|
    ensures if NoPair(s, b) then Replace(s, b, to) == s else |Replace(s, b, to)| < |s|
  {
    if s == "" {
    } else if |s| >= 2 && s[0] == '\\' && s[1] == b {
      ReplaceShortens(s[2..], b, to);
    } else {
      ReplaceShortens(s[1..], b, to);
      assert s == [s[0]] + s[1..];
      if NoPair(s[1..], b) {
        forall i | 0 <= i < |s| - 1 ensures !(s[i] == '\\' && s[i + 1] == b) {
          if i > 0 { assert s[1..][i - 1] == s[i] && s[1..][i] == s[i + 1]; }
        }
      } else {
        var i :| 0 <= i < |s[1..]| - 1 && s[1..][i] == '\\' && s[1..][i + 1] == b;
        assert s[i + 1] == '\\' && s[i + 2] == b;
      }
    }
  }

  lemma UnescapeShortens(s: string)
    ensures |Unescape(s)| <= |s|
    ensures Unescape(s) == s <==> NoPair(s, 'n') && NoPair(s, '"') && NoPair(s, '\'')
  {
    var a := Replace(s, 'n', '\n');
    var b := Replace(a, '"', '"');
    ReplaceShortens(s, 'n', '\n');
    ReplaceShortens(a, '"', '"');
    ReplaceShortens(b, '\'', '\'');
  }

  lemma UnescapeWeight(s: string, w: char -> nat)
    requires w('\\') == 0 && w('n') == w('\n')
    ensures Weight(Unescape(s), w) == Weight(s, w)
  {
    var a := Replace(s, 'n', '\n');
    ReplaceKeepsWeight(s, 'n', '\n', w);
    ReplaceKeepsWeight(a, '"', '"', w);
    ReplaceKeepsWeight(Replace(a, '"', '"'), '\'', '\'', w);
  }

  lemma SpecialReadsBack(v: string)
    requires HasSpecial(v)
    ensures ReadBack(v) == Unescape(QuoteQuotes(v))
  {
    var s := "'" + QuoteQuotes(v) + "'";
    assert ShellValue(v) == s && s[0] == '\'' && s[|s| - 1] == '\'';
    TrimFixpoint(s, IsSpace);
    assert s[1..|s| - 1] == QuoteQuotes(v);
  }

  lemma PlainReadsBack(v: string)
    requires !HasSpecial(v) && v != ""
    ensures ReadBack(v) == TrimSpace(v)
  {
    var t := TrimSpace(v);
    var p, q := TrimParts(v, IsSpace);
    forall i | 0 <= i < |t| ensures !IsSpecial(t[i]) {
      assert t[i] == v[|p| + i];
    }
    UnescapeShortens(t);
  }

  /** A trimmed text is a part of the text. */
  lemma TrimParts(s: string, cut: char -> bool) returns (p: string, q: string)
    ensures s == p + (Trim(s, cut) + q)
  {
    p := TrimLeftSplit(s, cut);
    q := TrimRightSplit(TrimLeft(s, cut), cut);
  }

  /** A value that holds a blank, a quote, a dollar, a backquote, a backslash or a hash is quoted; then it
      may hold no single quote, and no backslash before an n or a double quote.  Other values are
      written as they are and must not start or end with white space. */
  predicate Survives(v: string) {
    if v == "" then true
    else if HasSpecial(v) then Lacks(v, '\'') && NoPair(v, 'n') && NoPair(v, '"')
    else TrimSpace(v) == v
  }

  lemma SurvivesIff(v: string)
    ensures ReadBack(v) == v <==> Survives(v)
  {
    if v == "" {
      assert TrimSpace("''") == "''" by { TrimFixpoint("''", IsSpace); }
      assert "''"[1..1] == "";
    } else if HasSpecial(v) {
      SpecialReadsBack(v);
      if Lacks(v, '\'') {
        QuoteQuotesId(v);
        UnescapeShortens(v);
      } else {
        QuotesWeigh(v);
        QuotesTripled(v);
        UnescapeWeight(QuoteQuotes(v), QUOTES);
      }
    } else {
      PlainReadsBack(v);
    }
  }

  /* ---------- one line ---------- */

  /** Not empty, no white space at the ends, no equals sign, no line break, and not a comment. */
  predicate KeyOk(k: string) {
    k != "" && Trimmed(k, IsSpace) && Lacks(k, '=') && Lacks(k, '\n') && k[0] != '#'
  }

  lemma DropReturnTrims(l: string)
    ensures TrimSpace(DropReturn(l)) == TrimSpace(l)
  {
    if DropReturn(l) != l {
      assert l == DropReturn(l) + "\r";
      TrimTail(DropReturn(l), "\r", IsSpace);
    }
  }

  /** A line made of a key and a value is read as such, unless it is too long. */
  lemma ParseEntry(k: string, s: string)
    requires KeyOk(k)
    ensures ParseLine(k + "=" + s) == if Fits(k + "=" + s) then Assign(k, Unquote(TrimSpace(s))) else TooLong
  {
    var l := k + "=" + s;
    DropReturnTrims(l);
    TrimRightStops(k + "=", s, IsSpace);
    var w := TrimRightSplit(s, IsSpace);
    var r := TrimRight(s, IsSpace);
    assert TrimSpace(l) == k + "=" + r;
    CutAt(k, r, '=');
    TrimFixpoint(k, IsSpace);
    TrimTail(r, w, IsSpace);
  }

  lemma Part(s: string, p: string, m: string, q: string, w: char -> nat)
    requires s == p + (m + q)
    ensures Weight(m, w) <= Weight(s, w)
    ensures Lacks(s, '\n') ==> Lacks(m, '\n')
  {
    WeightAppend(p, m + q, w);
    WeightAppend(m, q, w);
    forall i | 0 <= i < |m| ensures m[i] == s[|p| + i] {}
  }

  /** What is read from a text without line breaks has no more breaks and letters n than the text has letters n. */
  lemma ValueLight(s: string)
    requires Lacks(s, '\n')
    ensures Weight(Unquote(TrimSpace(s)), ENS_AND_BREAKS) <= Weight(s, ENS)
  {
    hide Weight, Unescape, Lacks;
    var t := TrimSpace(s);
    var p, q := TrimParts(s, IsSpace);
    Part(s, p, t, q, ENS);
    hide TrimSpace;
    var u := Unquoted(t);
    if u != t {
      assert t == t[..1] + (u + t[|t| - 1..]);
      Part(t, t[..1], u, t[|t| - 1..], ENS);
    }
    BreaksWeigh(u);
    UnescapeWeight(u, ENS_AND_BREAKS);
  }

  /** Whatever a line assigns, the key is a good one and the value is light. */
  lemma AssignedIsGood(l: string)
    requires Lacks(l, '\n') && ParseLine(l).Assign?
    ensures KeyOk(ParseLine(l).key)
    ensures Weight(ParseLine(l).value, ENS_AND_BREAKS) <= Weight(l, ENS)
  {
    var t := TrimSpace(l);
    DropReturnTrims(l);
    var p, q := TrimParts(l, IsSpace);
    Part(l, p, t, q, ENS);
    TrimFixpoint(l, IsSpace);
    CutSplits(t, '=');
    var c := Cut(t, '=').value;
    assert t == (c.0 + ['=']) + (c.1 + "");
    Part(t, c.0 + ['='], c.1, "", ENS);
    ValueLight(c.1);
    var k := TrimSpace(c.0);
    TrimFixpoint(c.0, IsSpace);
    assert c.0[0] == t[0];
    var w := TrimRightSplit(c.0, IsSpace);
    assert TrimLeft(c.0, IsSpace) == c.0 && c.0 == k + w && k[0] == c.0[0];
    forall i | 0 <= i < |k| ensures k[i] == c.0[i] && c.0[i] == t[i] {}
  }

  /* ---------- the lines of a written file ---------- */

  function EntryLines(k: string, v: string): seq<string> { Split(k + "=" + ShellValue(v), '\n') }

  function AllLines(keys: seq<string>, values: map<string, string>): seq<string>
    requires forall k :: k in keys ==> k in values
  {
    if keys == [] then []
    else if TrimSpace(keys[0]) == "" then AllLines(keys[1..], values)
    else EntryLines(keys[0], values[keys[0]]) + AllLines(keys[1..], values)
  }

  lemma {:induction false} AllLinesAppend(a: seq<string>, b: seq<string>, values: map<string, string>)
    requires forall k :: k in a || k in b ==> k in values
    ensures AllLines(a + b, values) == AllLines(a, values) + AllLines(b, values)
  {
    if a == [] {
      assert a + b == b;
    } else {
      assert (a + b)[0] == a[0] && (a + b)[1..] == a[1..] + b;
      AllLinesAppend(a[1..], b, values);
      var e, x, y := EntryLines(a[0], values[a[0]]), AllLines(a[1..], values), AllLines(b, values);
      assert e + (x + y) == e + x + y;
    }
  }

  lemma {:induction false} PrintSplits(keys: seq<string>, values: map<string, string>)
    requires forall k :: k in keys ==> k in values
    ensures Split(PrintKeys(keys, values), '\n') == AllLines(keys, values) + [""]
  {
    if keys != [] {
      var rest := keys[1..];
      PrintSplits(rest, values);
      if TrimSpace(keys[0]) != "" {
        var e := keys[0] + "=" + ShellValue(values[keys[0]]);
        assert PrintKeys(keys, values) == e + ['\n'] + PrintKeys(rest, values);
        SplitAppend(e, PrintKeys(rest, values), '\n');
        assert Split(e, '\n') + (AllLines(rest, values) + [""]) == Split(e, '\n') + AllLines(rest, values) + [""];
      }
    }
  }

  lemma {:induction false} AllLinesLack(keys: seq<string>, values: map<string, string>)
    requires forall k :: k in keys ==> k in values
    ensures forall l :: l in AllLines(keys, values) ==> Lacks(l, '\n')
  {
    if keys != [] {
      AllLinesLack(keys[1..], values);
      SplitLacks(keys[0] + "=" + ShellValue(values[keys[0]]), '\n');
    }
  }

  lemma {:induction false} SplitPrefix(p: string, s: string, c: char)
    requires Lacks(p, c)
    ensures Split(p + s, c) == [p + Split(s, c)[0]] + Split(s, c)[1..]
  {
    if p == "" {
      assert p + s == s && p + Split(s, c)[0] == Split(s, c)[0];
    } else {
      assert (p + s)[1..] == p[1..] + s;
      SplitPrefix(p[1..], s, c);
      var r := [p[1..] + Split(s, c)[0]] + Split(s, c)[1..];
      assert r[1..] == Split(s, c)[1..];
      assert [p[0]] + (p[1..] + Split(s, c)[0]) == p + Split(s, c)[0];
    }
  }

  lemma {:induction false} SplitWeight(s: string, c: char, w: char -> nat)
    ensures forall l :: l in Split(s, c) ==> Weight(l, w) <= Weight(s, w)
  {
    if s != "" {
      SplitWeight(s[1..], c, w);
      var r := Split(s[1..], c);
      assert r[0] in r;
      assert ([s[0]] + r[0])[1..] == r[0];
      forall l | l in Split(s, c) ensures Weight(l, w) <= Weight(s, w) {
        if l in r {
        } else if s[0] == c {
          assert l == "";
        } else {
          assert l == [s[0]] + r[0];
        }
      }
    }
  }

  /** If the lines can be read at all, they give `k` a value this light. */
  predicate Gives(lines: seq<string>, k: string, bound: nat) {
    ParseLines(lines).Ok? ==> k in ParseLines(lines).value && Weight(ParseLines(lines).value[k], ENS_AND_BREAKS) <= bound
  }

  lemma {:induction false} LinesGive(a: seq<string>, b: seq<string>, k: string, bound: nat)
    requires Gives(a, k, bound) && forall l :: l in b ==> Lacks(l, '\n') && Weight(l, ENS) <= bound
    ensures Gives(a + b, k, bound)
  {
    if b == [] {
      assert a + b == a;
    } else {
      var c, l := b[..|b| - 1], b[|b| - 1];
      LinesGive(a, c, k, bound);
      assert a + b == a + c + [l];
      ParseSnoc(a + c, l);
      if ParseLine(l).Assign? { AssignedIsGood(l); }
    }
  }

  lemma ShellKeepsWeight(v: string, w: char -> nat)
    requires w('\\') == 0 && w('\'') == 0
    ensures Weight(ShellValue(v), w) == Weight(v, w)
  {
    if v == "" {
      assert Weight("''", w) == w('\'') + Weight("''"[1..], w);
    } else if HasSpecial(v) {
      QuoteQuotesWeight(v, w);
      WeightAppend("'" + QuoteQuotes(v), "'", w);
      WeightAppend("'", QuoteQuotes(v), w);
      assert Weight("'", w) == 0;
    }
  }

  /** The lines of an entry, whatever they look like, give its key a value without the entry's line breaks. */
  lemma EntryGives(before: seq<string>, k: string, v: string)
    requires KeyOk(k)
    ensures Gives(before + EntryLines(k, v), k, Weight(v, ENS))
  {
    var s := ShellValue(v);
    var first, rest := Split(s, '\n')[0], Split(s, '\n')[1..];
    SplitPrefix(k + "=", s, '\n');
    assert before + EntryLines(k, v) == before + [k + "=" + first] + rest;
    ShellKeepsWeight(v, ENS);
    SplitWeight(s, '\n', ENS);
    SplitLacks(s, '\n');
    assert first in Split(s, '\n') && forall l :: l in rest ==> l in Split(s, '\n');
    ParseEntry(k, first);
    ValueLight(first);
    ParseSnoc(before, k + "=" + first);
    LinesGive(before + [k + "=" + first], rest, k, Weight(v, ENS));
  }

  /** The line of the entry is short enough for the scanner. */
  predicate EntryFits(k: string, v: string) { Fits(k + "=" + ShellValue(v)) }

  /** An entry without line breaks is one line and sets its own key only, unless it is too long. */
  lemma OneLine(before: seq<string>, k: string, v: string)
    requires KeyOk(k) && Lacks(v, '\n')
    ensures var r := ParseLines(before + EntryLines(k, v));
            if ParseLines(before).Err? then r == ParseLines(before)
            else if EntryFits(k, v) then r == Ok(ParseLines(before).value[k := ReadBack(v)])
            else r == Err(LineTooLong)
  {
    var s := ShellValue(v);
    if HasSpecial(v) { QuoteQuotesLacks(v, '\n'); }
    assert Lacks(s, '\n');
    var l := k + "=" + s;
    assert Split("", '\n') == [""];
    SplitAlone(l);
    ParseEntry(k, s);
    ParseSnoc(before, l);
  }

  lemma {:induction false} SplitAlone(s: string)
    requires Lacks(s, '\n')
    ensures Split(s, '\n') == [s]
  {
    if s != "" {
      SplitAlone(s[1..]);
      assert [s[0]] + s[1..] == s;
    }
  }

  /* ---------- the whole file ---------- */

  lemma AllLinesSnoc(keys: seq<string>, k: string, values: map<string, string>)
    requires KeyOk(k) && k in values && forall x :: x in keys ==> x in values
    ensures AllLines(keys + [k], values) == AllLines(keys, values) + EntryLines(k, values[k])
  {
    AllLinesAppend(keys, [k], values);
    TrimFixpoint(k, IsSpace);
    assert AllLines([k], values) == EntryLines(k, values[k]) + AllLines([], values);
  }

  function AllReadBack(keys: seq<string>, values: map<string, string>): map<string, string> {
    map k | k in keys && k in values :: ReadBack(values[k])
  }

  lemma ReadBackSnoc(keys: seq<string>, k: string, values: map<string, string>)
    requires k in values
    ensures AllReadBack(keys + [k], values) == AllReadBack(keys, values)[k := ReadBack(values[k])]
  {
    hide ReadBack;
  }

  /** Without line breaks every key gets what its own line says, or some line is too long. */
  lemma {:induction false} CleanFile(keys: seq<string>, values: map<string, string>)
    requires forall k :: k in keys ==> k in values && KeyOk(k) && Lacks(values[k], '\n')
    ensures ParseLines(AllLines(keys, values)) ==
              if forall k :: k in keys ==> EntryFits(k, values[k]) then Ok(AllReadBack(keys, values)) else Err(LineTooLong)
  {
    hide AllReadBack, EntryLines, KeyOk, Lacks, ReadBack, ParseLines, EntryFits;
    if keys == [] {
      NoneReadBack(values);
    } else {
      var rest, k := keys[..|keys| - 1], keys[|keys| - 1];
      assert keys == rest + [k];
      CleanFile(rest, values);
      AllLinesSnoc(rest, k, values);
      OneLine(AllLines(rest, values), k, values[k]);
      ReadBackSnoc(rest, k, values);
    }
  }

  lemma NoneReadBack(values: map<string, string>)
    ensures ParseLines(AllLines([], values)) == Ok(AllReadBack([], values))
  {}

  /** The last key with a line break in its value loses it. */
  lemma {:induction false} DirtyFile(keys: seq<string>, values: map<string, string>) returns (d: string)
    requires Distinct(keys) && forall k :: k in keys ==> k in values && KeyOk(k)
    requires exists k :: k in keys && !Lacks(values[k], '\n')
    ensures d in keys && !Lacks(values[d], '\n') && Gives(AllLines(keys, values), d, Weight(values[d], ENS))
  {
    var rest, k := keys[..|keys| - 1], keys[|keys| - 1];
    assert keys == rest + [k];
    AllLinesSnoc(rest, k, values);
    if !Lacks(values[k], '\n') {
      d := k;
      EntryGives(AllLines(rest, values), k, values[k]);
    } else {
      d := DirtyFile(rest, values);
      OneLine(AllLines(rest, values), k, values[k]);
      var i :| 0 <= i < |rest| && rest[i] == d;
      assert keys[i] != keys[|rest|];
    }
  }

  /** Every key a file gives is a good one. */
  lemma {:induction false} ParsedKeysAreGood(lines: seq<string>)
    requires forall l :: l in lines ==> Lacks(l, '\n')
    ensures ParseLines(lines).Ok? ==> forall k <- ParseLines(lines).value :: KeyOk(k)
  {
    if lines != [] {
      var rest, l := lines[..|lines| - 1], lines[|lines| - 1];
      ParsedKeysAreGood(rest);
      if ParseLine(l).Assign? { AssignedIsGood(l); }
    }
  }

  /** The parse of a written file, line by line. */
  lemma ParsePrinted(values: map<string, string>) returns (keys: seq<string>)
    ensures Distinct(keys) && (forall k :: k in keys <==> k in values)
    ensures (forall l :: l in AllLines(keys, values) ==> Lacks(l, '\n')) && Parse(Print(values)) == ParseLines(AllLines(keys, values))
  {
    keys := SortedStrings(values.Keys);
    KeysKnown(keys, values);
    PrintSplits(keys, values);
    AllLinesLack(keys, values);
    assert TrimSpace(DropReturn("")) == "";
    var all := AllLines(keys, values);
    ParseSnoc(all, "");
  }

  /** Written and read back, a map of settings is the same exactly when all its keys are good, no value
      has a line break, every value survives on its own, and no line is too long. */
  lemma RoundTripIff(values: map<string, string>)
    ensures Parse(Print(values)) == Ok(values) <==>
            forall k <- values :: KeyOk(k) && Lacks(values[k], '\n') && Survives(values[k]) && EntryFits(k, values[k])
  {
    var keys := ParsePrinted(values);
    if forall k <- values :: KeyOk(k) && Lacks(values[k], '\n') {
      CleanFile(keys, values);
      forall k | k in values ensures ReadBack(values[k]) == values[k] <==> Survives(values[k]) { SurvivesIff(values[k]); }
      SameValues(values, AllReadBack(keys, values));
    } else if forall k <- values :: KeyOk(k) {
      var d := DirtyFile(keys, values);
      BreaksWeigh(values[d]);
    } else {
      ParsedKeysAreGood(AllLines(keys, values));
    }
  }

  lemma SameValues(a: map<string, string>, b: map<string, string>)
    requires a.Keys == b.Keys
    ensures a == b <==> forall k <- a :: b[k] == a[k]
  {}

  /* ---------- what is refused ---------- */

  /** The first line that is refused, and why. */
  ghost predicate Refuses(lines: seq<string>, e: EnvError, n: nat) {
    && 0 < n <= |lines| && ParseLines(lines[..n - 1]).Ok?
    && var l := TrimSpace(lines[n - 1]);
    if !Fits(lines[n - 1]) then e == LineTooLong
    else
      && l != "" && l[0] != '#'
      && if '=' !in l then e == ExpectedAssignment(n) else e == EmptyKey(n) && exists i :: 0 <= i < |l| && l[i] == '=' && TrimSpace(l[..i]) == ""
  }

  /** When reading fails, it is for the first line that is too long, or is neither blank nor a comment and has no equals
      sign or nothing before it; and the error tells the line. */
  lemma {:induction false} ErrorSays(lines: seq<string>)
    ensures ParseLines(lines).Err? ==> exists n :: Refuses(lines, ParseLines(lines).error, n)
  {
    if ParseLines(lines).Err? {
      var rest, l := lines[..|lines| - 1], lines[|lines| - 1];
      if ParseLines(rest).Err? {
        ErrorSays(rest);
        var n :| Refuses(rest, ParseLines(rest).error, n);
        assert rest[..n - 1] == lines[..n - 1] && rest[n - 1] == lines[n - 1];
        assert Refuses(lines, ParseLines(lines).error, n);
      } else {
        RefusedLine(l);
        assert Refuses(lines, ParseLines(lines).error, |lines|);
      }
    }
  }

  lemma RefusedLine(l: string)
    ensures var t := TrimSpace(l);
            && (ParseLine(l).TooLong? <==> !Fits(l))
            && (ParseLine(l).NoEquals? ==> Fits(l) && t != "" && t[0] != '#' && '=' !in t)
            && (ParseLine(l).NoKey? ==> Fits(l) && t != "" && t[0] != '#' && exists i :: 0 <= i < |t| && t[i] == '=' && TrimSpace(t[..i]) == "")
  {
    var t := TrimSpace(l);
    DropReturnTrims(l);
    CutSplits(t, '=');
    assert t != "" ==> (t[0] == '#' <==> HasPrefix(t, "#"));
    hide TrimSpace, Fits, Unquote, Cut;
    if ParseLine(l).NoKey? {
      var c := Cut(t, '=').value;
      assert t[|c.0|] == '=' && t[..|c.0|] == c.0;
    }
  }
}
