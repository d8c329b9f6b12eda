/** Settings files of KEY=VALUE lines (internal/control/envfile.go), on their text.  Which maps come back
    from a written file as they were? */
module EnvFile {
  import opened Text
  import opened Lines
  import opened Sorting
  import opened StringLists

  /* ---------- writing ---------- */

  predicate IsSpecial(c: char) { c in " \t\n'\"$`\\#" }

  predicate HasSpecial(v: string) { exists i :: 0 <= i < |v| && IsSpecial(v[i]) }

  /** Closes the quotes, writes a quote, and opens them again. */
  function QuoteQuotes(v: string): string {
    if v == "" then "" else (if v[0] == '\'' then "'\\''" else [v[0]]) + QuoteQuotes(v[1..])
  }

  /** shellEnvValue */
  function ShellValue(v: string): string {
    if v == "" then "''" else if HasSpecial(v) then "'" + QuoteQuotes(v) + "'" else v
  }

  function PrintKeys(keys: seq<string>, values: map<string, string>): string
    requires forall k :: k in keys ==> k in values
  {
    if keys == [] then ""
    else if TrimSpace(keys[0]) == "" then PrintKeys(keys[1..], values)
    else keys[0] + "=" + ShellValue(values[keys[0]]) + "\n" + PrintKeys(keys[1..], values)
  }

  lemma KeysKnown(keys: seq<string>, values: map<string, string>)
    requires Elements(keys) == values.Keys
    ensures forall k :: k in keys <==> k in values
  {
    assert forall k :: k in keys <==> k in Elements(keys);
  }

  ghost function Print(values: map<string, string>): string {
    KeysKnown(SortedStrings(values.Keys), values);
    PrintKeys(SortedStrings(values.Keys), values)
  }

  lemma {:induction false} PrintAppend(a: seq<string>, b: seq<string>, values: map<string, string>)
    requires forall k :: k in a || k in b ==> k in values
    ensures PrintKeys(a + b, values) == PrintKeys(a, values) + PrintKeys(b, values)
  {
    if a == [] {
      assert a + b == b;
    } else {
      assert (a + b)[0] == a[0] && (a + b)[1..] == a[1..] + b;
      PrintAppend(a[1..], b, values);
      var e, x, y := a[0] + "=" + ShellValue(values[a[0]]) + "\n", PrintKeys(a[1..], values), PrintKeys(b, values);
      assert e + (x + y) == e + x + y;
    }
  }

  lemma PrintNext(keys: seq<string>, i: nat, values: map<string, string>)
    requires i < |keys| && forall k :: k in keys ==> k in values
    ensures PrintKeys(keys[..i + 1], values) == PrintKeys(keys[..i], values) +
              if TrimSpace(keys[i]) == "" then "" else keys[i] + "=" + ShellValue(values[keys[i]]) + "\n"
  {
    assert keys[..i + 1] == keys[..i] + [keys[i]];
    PrintAppend(keys[..i], [keys[i]], values);
    assert PrintKeys([], values) == "";
  }

  method WriteEnvFile(values: map<string, string>) returns (text: string)
    ensures text == Print(values)
  {
    var keys := SortKeys(values);
    KeysKnown(keys, values);
    hide SortedStrings, Elements, ShellValue;
    text := "";
    for i := 0 to |keys|
      invariant text == PrintKeys(keys[..i], values)
    {
      PrintNext(keys, i, values);
      if TrimSpace(keys[i]) == "" {
        continue;
      }
      text := text + (keys[i] + "=" + ShellValue(values[keys[i]]) + "\n");
    }
    assert keys[..|keys|] == keys;
  }

  method SortKeys(values: map<string, string>) returns (keys: seq<string>)
    ensures keys == SortedStrings(values.Keys)
  {
    hide Distinct, Elements, SortedStrings;
    var list: seq<string> := [];
    var todo := values.Keys;
    NoElements();
    while todo != {}
      invariant todo <= values.Keys && Elements(list) == values.Keys - todo && Distinct(list)
      decreases todo
    {
      var k :| k in todo;
      DistinctSnoc(list, k);
      todo := todo - {k};
      list := list + [k];
    }
    keys := SortStrings(list);
  }

  lemma NoElements()
    ensures Distinct<string>([]) && Elements<string>([]) == {}
  {}

  /* ---------- reading ---------- */

  /** strings.ReplaceAll of a backslash and `b` by the character `to` */
  function Replace(s: string, b: char, to: char): string {
    if s == "" then ""
    else if |s| >= 2 && s[0] == '\\' && s[1] == b then [to] + Replace(s[2..], b, to)
    else [s[0]] + Replace(s[1..], b, to)
  }

  function Unquoted(v: string): string {
    if |v| >= 2 && v[0] == v[|v| - 1] && v[0] in "'\"" then v[1..|v| - 1] else v
  }

  function Unescape(v: string): string { Replace(Replace(Replace(v, 'n', '\n'), '"', '"'), '\'', '\'') }

  /** unquoteEnvValue */
  function Unquote(v: string): string { Unescape(Unquoted(v)) }

  datatype LineKind = Blank | NoEquals | NoKey | TooLong | Assign(key: string, value: string)

  const MAX_LINE := 64 * 1024
  const UTF8_SIZE: char -> nat := c => if c as int < 0x80 then 1 else if c as int < 0x800 then 2 else if c as int < 0x1_0000 then 3 else 4

  /** The scanner's buffer has room for the bytes of the line and its line break. */
  predicate Fits(l: string) { Weight(l, UTF8_SIZE) < MAX_LINE }

  /** bufio.ScanLines drops a carriage return at the end of the line. */
  function DropReturn(l: string): string {
    if l != "" && l[|l| - 1] == '\r' then l[..|l| - 1] else l
  }

  function ParseLine(l: string): LineKind {
    var t := TrimSpace(DropReturn(l));
    if !Fits(l) then TooLong
    else if t == "" || HasPrefix(t, "#") then Blank
    else
      match Cut(t, '=')
      case None => NoEquals
      case Some(p) => if TrimSpace(p.0) == "" then NoKey else Assign(TrimSpace(p.0), Unquote(TrimSpace(p.1)))
  }

  datatype EnvError = ExpectedAssignment(line: nat) | EmptyKey(line: nat) | LineTooLong

  function ParseLines(lines: seq<string>): Result<map<string, string>, EnvError> {
    if lines == [] then Ok(map[])
    else
      match ParseLines(lines[..|lines| - 1])
      case Err(e) => Err(e)
      case Ok(m) =>
        match ParseLine(lines[|lines| - 1])
        case Blank => Ok(m)
        case NoEquals => Err(ExpectedAssignment(|lines|))
        case NoKey => Err(EmptyKey(|lines|))
        case TooLong => Err(LineTooLong)
        case Assign(k, v) => Ok(m[k := v])
  }

  /** The scanner's lines; a last empty one is skipped like every blank line. */
  function Parse(text: string): Result<map<string, string>, EnvError> { ParseLines(Split(text, '\n')) }

  method ReadEnvFile(text: string) returns (r: Result<map<string, string>, EnvError>)
    ensures r == Parse(text)
  {
    var lines := Split(text, '\n');
    var values: map<string, string> := map[];
    for i := 0 to |lines|
      invariant ParseLines(lines[..i]) == Ok(values)
    {
      LineByLine(lines, i);
      if !Fits(lines[i]) {
        return Err(LineTooLong);
      }
      var line := TrimSpace(DropReturn(lines[i]));
      if line == "" || HasPrefix(line, "#") {
        continue;
      }
      var cut := Cut(line, '=');
      if cut.None? {
        return Err(ExpectedAssignment(i + 1));
      }
      var key := TrimSpace(cut.value.0);
      if key == "" {
        return Err(EmptyKey(i + 1));
      }
      values := values[key := Unquote(TrimSpace(cut.value.1))];
    }
    assert lines[..|lines|] == lines;
    r := Ok(values);
  }

  lemma LineByLine(lines: seq<string>, i: nat)
    requires i < |lines|
    ensures lines[..i + 1][..i] == lines[..i]
    ensures ParseLines(lines[..i + 1]).Err? ==> ParseLines(lines) == ParseLines(lines[..i + 1])
  {
    hide ParseLines;
    if ParseLines(lines[..i + 1]).Err? {
      assert lines == lines[..i + 1] + lines[i + 1..];
      ErrorStays(lines[..i + 1], lines[i + 1..]);
    }
  }

  lemma ParseSnoc(lines: seq<string>, l: string)
    ensures (lines + [l])[..|lines|] == lines
    ensures ParseLines(lines).Ok? && ParseLine(l).Blank? ==> ParseLines(lines + [l]) == ParseLines(lines)
    ensures ParseLines(lines).Ok? && ParseLine(l).Assign? ==>
              ParseLines(lines + [l]) == Ok(ParseLines(lines).value[ParseLine(l).key := ParseLine(l).value])
    ensures ParseLines(lines).Err? || ParseLine(l).NoEquals? || ParseLine(l).NoKey? || ParseLine(l).TooLong? ==> ParseLines(lines + [l]).Err?
    ensures ParseLines(lines).Ok? && ParseLine(l).TooLong? ==> ParseLines(lines + [l]) == Err(LineTooLong)
    ensures ParseLines(lines).Err? ==> ParseLines(lines + [l]) == ParseLines(lines)
  {
    assert (lines + [l])[..|lines|] == lines;
  }

  lemma {:induction false} ErrorStays(a: seq<string>, b: seq<string>)
    requires ParseLines(a).Err?
    ensures ParseLines(a + b) == ParseLines(a)
  {
    if b == [] {
      assert a + b == a;
    } else {
      var c, l := b[..|b| - 1], b[|b| - 1];
      ErrorStays(a, c);
      ParseSnoc(a + c, l);
      assert a + b == a + c + [l];
    }
  }

  /* ---------- what is written and refused ---------- */

  /** A value is written bare exactly when it is not empty and has no blank, line break, quote, dollar sign, backtick,
      backslash or hash. */
  lemma BareIff(v: string)
    ensures ShellValue(v) == v <==> v != "" && forall i :: 0 <= i < |v| ==> v[i] !in " \t\n'\"$`\\#"
  {
    if HasSpecial(v) {
      QuoteGrows(v);
      assert |ShellValue(v)| == |QuoteQuotes(v)| + 2;
    }
  }

  lemma {:induction false} QuoteGrows(v: string)
    ensures |QuoteQuotes(v)| >= |v|
  {
    if v != "" { QuoteGrows(v[1..]); }
  }
}
