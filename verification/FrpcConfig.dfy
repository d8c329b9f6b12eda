/** The generated frpc configurations and how a client reads a node's identifier back
    (internal/control/config.go:113-219, cmd/frp-cluster/main.go:900-917). */
module FrpcConfig {
  import opened Text
  import opened Lines
  import opened Cluster

  /** What the source takes from the Unicode tables: the printable characters outside ASCII, and lower case. */
  datatype Unicode = Unicode(printable: char -> bool, lower: char -> char)

  datatype ProxySpec = ProxySpec(name: string, kind: string, localIp: string, localPort: int, remotePort: int)

  /* ---------- quoting ---------- */

  function HexDigit(n: nat): char
    requires n < 16
  {
    "0123456789abcdef"[n]
  }

  function Hex(n: nat, width: nat): string {
    if width == 0 then "" else Hex(n / 16, width - 1) + [HexDigit(n % 16)]
  }

  predicate Printable(c: char, u: Unicode) {
    if (c as int) < 0x80 then ' ' <= c <= '~' else u.printable(c)
  }

  /** One character as %q writes it. */
  function EscapeChar(c: char, u: Unicode): string {
    var n := c as int;
    if c == '"' || c == '\\' then ['\\', c]
    else if Printable(c, u) then [c]
    else if n == 7 then "\\a"
    else if n == 8 then "\\b"
    else if n == 12 then "\\f"
    else if n == 10 then "\\n"
    else if n == 13 then "\\r"
    else if n == 9 then "\\t"
    else if n == 11 then "\\v"
    else if n < 32 || n == 0x7f then "\\x" + Hex(n, 2)
    else if n < 0x10000 then "\\u" + Hex(n, 4)
    else "\\U" + Hex(n, 8)
  }

  function Escape(s: string, u: Unicode): string {
    if s == "" then "" else Escape(s[..|s| - 1], u) + EscapeChar(s[|s| - 1], u)
  }

  function Quote(s: string, u: Unicode): string { "\"" + Escape(s, u) + "\"" }

  /* ---------- rendering ---------- */

  /** The specs that are rendered for a node: one default, or the given ones with their gaps filled. */
  function NormalProxies(specs: seq<ProxySpec>, client: string, section: string, fallback: int, u: Unicode): seq<ProxySpec> {
    if specs == [] then [ProxySpec(client + "-health-" + section, "tcp", "127.0.0.1", 22, fallback)]
    else seq(|specs|, i requires 0 <= i < |specs| => NormalProxy(specs[i], client, i + 1, u))
  }

  function NormalProxy(spec: ProxySpec, client: string, number: nat, u: Unicode): ProxySpec {
    spec.(name := if SanitizeId(spec.name) == "" then client + "-proxy-" + Itoa(number) else SanitizeId(spec.name),
          kind := LowerCase(TrimSpace(if spec.kind == "" then "tcp" else spec.kind), u),
          localIp := if spec.localIp == "" then "127.0.0.1" else spec.localIp)
  }

  function LowerCase(s: string, u: Unicode): string { seq(|s|, i requires 0 <= i < |s| => u.lower(s[i])) }

  function ProxyLines(p: ProxySpec, u: Unicode): seq<string> {
    ["", "[[proxies]]", "name = " + Quote(p.name, u), "type = " + Quote(p.kind, u), "localIP = " + Quote(p.localIp, u),
     "localPort = " + Itoa(p.localPort)] + if p.remotePort > 0 then ["remotePort = " + Itoa(p.remotePort)] else []
  }

  function AllProxyLines(proxies: seq<ProxySpec>, u: Unicode): seq<string> {
    if proxies == [] then [] else AllProxyLines(proxies[..|proxies| - 1], u) + ProxyLines(proxies[|proxies| - 1], u)
  }

  const NODE_KEY := "metadatas.cluster_node"

  function HeadLines(auth: string, client: string, node: ServerNode, u: Unicode): seq<string> {
    ["serverAddr = " + Quote(node.publicAddr, u), "serverPort = " + Itoa(node.bindPort)]
    + (if auth != "" then ["auth.token = " + Quote(auth, u)] else [])
    + ["user = " + Quote(client, u), "metadatas.client_id = " + Quote(client, u)]
  }

  function NodeLine(id: string, u: Unicode): string { NODE_KEY + " = " + Quote(id, u) }

  function ConfigLines(auth: string, client: string, node: ServerNode, proxies: seq<ProxySpec>, u: Unicode): seq<string> {
    HeadLines(auth, client, node, u) + [NodeLine(node.id, u)] + AllProxyLines(proxies, u)
  }

  function NodeConfig(auth: string, client: string, node: ServerNode, proxies: seq<ProxySpec>, u: Unicode): string {
    Unlines(ConfigLines(auth, client, node, proxies, u))
  }

  /* ---------- reading the node back ---------- */

  predicate IsDoubleQuote(c: char) { c == '"' }

  /** What a line says about the node, if it says anything. */
  function NodeOf(line: string): Option<string> {
    var t := TrimSpace(line);
    if !HasPrefix(t, NODE_KEY) then None
    else
      match Cut(t, '=')
      case None => None
      case Some(p) => Some(Trim(TrimSpace(p.1), IsDoubleQuote))
  }

  /** The first line that names a node decides. */
  function NodeIn(lines: seq<string>): string {
    if lines == [] then "" else if NodeOf(lines[0]).Some? then NodeOf(lines[0]).value else NodeIn(lines[1..])
  }

  function ClusterNode(text: string): string { NodeIn(Split(text, '\n')) }

  method ReadClusterNode(text: string) returns (id: string)
    ensures id == ClusterNode(text)
  {
    var lines := Split(text, '\n');
    for i := 0 to |lines|
      invariant NodeIn(lines) == NodeIn(lines[i..])
    {
      var line := TrimSpace(lines[i]);
      if !HasPrefix(line, NODE_KEY) {
        continue;
      }
      var cut := Cut(line, '=');
      if cut.None? {
        continue;
      }
      return Trim(TrimSpace(cut.value.1), IsDoubleQuote);
    }
    id := "";
  }

  /* ---------- rendered text is a list of lines ---------- */

  lemma {:induction false} HexChars(n: nat, width: nat)
    ensures |Hex(n, width)| == width && Lacks(Hex(n, width), '\n') && Lacks(Hex(n, width), '"')
  {
    if width > 0 { HexChars(n / 16, width - 1); }
  }

  /** The characters that stay as they are. */
  predicate Plain(c: char, u: Unicode) { Printable(c, u) && c != '"' && c != '\\' }

  lemma EscapeCharFacts(c: char, u: Unicode)
    ensures var e := EscapeChar(c, u);
            && Lacks(e, '\n') && e[0] != '"'
            && (if Plain(c, u) then e == [c] else |e| >= 2)
            && (c != '"' ==> e[|e| - 1] != '"') && (c == '"' ==> e == ['\\', '"'])
  {
    HexChars(c as int, 2);
    HexChars(c as int, 4);
    HexChars(c as int, 8);
    hide Hex;
  }

  predicate PlainText(s: string, u: Unicode) { forall i :: 0 <= i < |s| ==> Plain(s[i], u) }

  lemma PlainSnoc(s: string, c: char, u: Unicode)
    ensures PlainText(s + [c], u) <==> PlainText(s, u) && Plain(c, u)
  {
    hide Plain;
    if PlainText(s + [c], u) {
      forall i | 0 <= i < |s| ensures Plain(s[i], u) { assert (s + [c])[i] == s[i]; }
      assert (s + [c])[|s|] == c;
    }
  }

  /** Escaping hides every line break, and never begins with a quote. */
  lemma {:induction false} EscapeLacks(s: string, u: Unicode)
    ensures Lacks(Escape(s, u), '\n') && (Escape(s, u) != "" ==> Escape(s, u)[0] != '"')
  {
    hide EscapeChar, Plain;
    if s != "" {
      EscapeLacks(s[..|s| - 1], u);
      EscapeCharFacts(s[|s| - 1], u);
    }
  }

  /** Escaping keeps plain texts and lengthens all others. */
  lemma {:induction false} EscapeLengthens(s: string, u: Unicode)
    ensures if PlainText(s, u) then Escape(s, u) == s else |Escape(s, u)| > |s|
  {
    hide EscapeChar, PlainText, Plain;
    if s == "" {
      assert PlainText("", u) by { NothingIsPlain(u); }
    } else {
      var r, c := s[..|s| - 1], s[|s| - 1];
      assert s == r + [c];
      EscapeLengthens(r, u);
      EscapeCharFacts(c, u);
      PlainSnoc(r, c, u);
    }
  }

  lemma NothingIsPlain(u: Unicode)
    ensures PlainText("", u)
  {}

  lemma EscapeEnds(s: string, u: Unicode)
    requires s != ""
    ensures var e := Escape(s, u);
            && e != ""
            && if s[|s| - 1] == '"' then e == Escape(s[..|s| - 1], u) + ['\\', '"'] else e[|e| - 1] != '"'
  {
    EscapeCharFacts(s[|s| - 1], u);
    hide EscapeChar, Plain;
  }

  lemma {:induction false} DigitsLack(n: nat, c: char)
    requires !('0' <= c <= '9')
    ensures Lacks(Digits(n), c) && Digits(n) != ""
  {
    if n >= 10 { DigitsLack(n / 10, c); }
  }

  lemma QuotedLine(key: string, s: string, u: Unicode)
    requires Lacks(key, '\n')
    ensures Lacks(key + Quote(s, u), '\n')
  {
    EscapeLacks(s, u);
    hide Escape;
  }

  lemma NumberLine(key: string, n: int)
    requires Lacks(key, '\n')
    ensures Lacks(key + Itoa(n), '\n')
  {
    DigitsLack(if n < 0 then -n else n, '\n');
  }

  lemma HeadLinesLack(auth: string, client: string, node: ServerNode, u: Unicode)
    ensures forall l :: l in HeadLines(auth, client, node, u) ==> Lacks(l, '\n')
  {
    QuotedLine("serverAddr = ", node.publicAddr, u);
    NumberLine("serverPort = ", node.bindPort);
    QuotedLine("auth.token = ", auth, u);
    QuotedLine("user = ", client, u);
    QuotedLine("metadatas.client_id = ", client, u);
  }

  lemma OneProxyLacks(p: ProxySpec, u: Unicode)
    ensures forall l :: l in ProxyLines(p, u) ==> Lacks(l, '\n')
  {
    QuotedLine("name = ", p.name, u);
    QuotedLine("type = ", p.kind, u);
    QuotedLine("localIP = ", p.localIp, u);
    NumberLine("localPort = ", p.localPort);
    NumberLine("remotePort = ", p.remotePort);
    hide Quote, Lacks;
    assert Lacks("", '\n') && Lacks("[[proxies]]", '\n') by { ShortLinesLack(); }
  }

  lemma ShortLinesLack()
    ensures Lacks("", '\n') && Lacks("[[proxies]]", '\n')
  {}

  lemma {:induction false} ProxyLinesLack(proxies: seq<ProxySpec>, u: Unicode)
    ensures forall l :: l in AllProxyLines(proxies, u) ==> Lacks(l, '\n')
  {
    hide ProxyLines, Lacks;
    if proxies != [] {
      ProxyLinesLack(proxies[..|proxies| - 1], u);
      OneProxyLacks(proxies[|proxies| - 1], u);
    }
  }

  /** Whatever is rendered, splitting the file gives its lines: no value can add or hide one. */
  lemma ConfigSplits(auth: string, client: string, node: ServerNode, proxies: seq<ProxySpec>, u: Unicode)
    ensures Split(NodeConfig(auth, client, node, proxies, u), '\n') == ConfigLines(auth, client, node, proxies, u) + [""]
  {
    HeadLinesLack(auth, client, node, u);
    ProxyLinesLack(proxies, u);
    QuotedLine(NODE_KEY + " = ", node.id, u);
    hide HeadLines, AllProxyLines;
    SplitUnlines(ConfigLines(auth, client, node, proxies, u));
  }

  /* ---------- reading back what was rendered ---------- */

  lemma LineIsTrimmed(key: string, rest: string)
    requires key != "" && !IsSpace(key[0]) && rest != "" && !IsSpace(rest[|rest| - 1])
    ensures TrimSpace(key + rest) == key + rest
  {
    TrimFixpoint(key + rest, IsSpace);
  }

  lemma NumberEnds(n: int)
    ensures Itoa(n) != "" && !IsSpace(Itoa(n)[|Itoa(n)| - 1])
  {
    LastDigit(if n < 0 then -n else n);
  }

  lemma {:induction false} LastDigit(n: nat)
    ensures Digits(n) != "" && '0' <= Digits(n)[|Digits(n)| - 1] <= '9'
  {}

  /** No line above the node's line names a node. */
  lemma HeadIsSilent(auth: string, client: string, node: ServerNode, u: Unicode)
    ensures forall l :: l in HeadLines(auth, client, node, u) ==> NodeOf(l).None?
  {
    hide NodeOf, Quote, Itoa, IsSpace, DiffersAt;
    QuoteEnds(node.publicAddr, u);
    QuoteEnds(auth, u);
    QuoteEnds(client, u);
    NumberEnds(node.bindPort);
    KeysDiffer();
    SilentLine("serverAddr = ", Quote(node.publicAddr, u), 0);
    SilentLine("serverPort = ", Itoa(node.bindPort), 0);
    SilentLine("auth.token = ", Quote(auth, u), 0);
    SilentLine("user = ", Quote(client, u), 0);
    SilentLine("metadatas.client_id = ", Quote(client, u), 12);
  }

  lemma QuoteEnds(s: string, u: Unicode)
    ensures Quote(s, u) != "" && !IsSpace(Quote(s, u)[|Quote(s, u)| - 1])
  {}

  predicate DiffersAt(key: string, i: nat) {
    key != "" && !IsSpace(key[0]) && i < |key| && i < |NODE_KEY| && key[i] != NODE_KEY[i]
  }

  lemma KeysDiffer()
    ensures DiffersAt("serverAddr = ", 0) && DiffersAt("serverPort = ", 0) && DiffersAt("auth.token = ", 0) && DiffersAt("user = ", 0)
    ensures DiffersAt("metadatas.client_id = ", 12)
  {}

  lemma SilentLine(key: string, rest: string, i: nat)
    requires DiffersAt(key, i) && rest != "" && !IsSpace(rest[|rest| - 1])
    ensures NodeOf(key + rest).None?
  {
    LineIsTrimmed(key, rest);
    assert (key + rest)[i] == key[i];
  }

  lemma NodeLineSays(id: string, u: Unicode)
    ensures NodeOf(NodeLine(id, u)) == Some(Trim(Quote(id, u), IsDoubleQuote))
  {
    var q := Quote(id, u);
    var key := NODE_KEY + " ";
    LineIsTrimmed(NODE_KEY + " = ", q);
    assert NodeLine(id, u) == key + ['='] + (" " + q);
    CutAt(key, " " + q, '=');
    TrimLeftSkips(" ", q, IsSpace);
    TrimFixpoint(q, IsSpace);
    assert TrimSpace(" " + q) == TrimSpace(q);
  }

  /** Stripping the quotes gives the identifier back exactly when nothing in it had to be escaped. */
  lemma UnquotedIff(id: string, u: Unicode)
    ensures Trim(Quote(id, u), IsDoubleQuote) == id <==> PlainText(id, u)
  {
    var e := Escape(id, u);
    EscapeLacks(id, u);
    EscapeLengthens(id, u);
    if id != "" { EscapeEnds(id, u); }
    assert Escape("", u) == "";
    hide Escape, PlainText;
    TrimLeftSkips("\"", e + "\"", IsDoubleQuote);
    assert Quote(id, u) == "\"" + (e + "\"");
    if e == "" {
      assert e + "\"" == "\"" + "";
      TrimLeftSkips("\"", "", IsDoubleQuote);
    } else {
      assert TrimLeft(e + "\"", IsDoubleQuote) == e + "\"";
      TrimRightSkips(e, "\"", IsDoubleQuote);
      if id[|id| - 1] == '"' {
        var d := Escape(id[..|id| - 1], u) + ['\\'];
        assert e == d + "\"";
        TrimRightSkips(d, "\"", IsDoubleQuote);
        assert TrimRight(d, IsDoubleQuote) == d && d[|d| - 1] == '\\';
      }
    }
  }

  lemma {:induction false} FirstThatSays(pre: seq<string>, line: string, post: seq<string>)
    requires NodeOf(line).Some? && forall l :: l in pre ==> NodeOf(l).None?
    ensures NodeIn(pre + [line] + post) == NodeOf(line).value
  {
    var all := pre + [line] + post;
    if pre == [] {
      assert all[0] == line;
    } else {
      assert all[0] == pre[0] && all[1..] == pre[1..] + [line] + post;
      FirstThatSays(pre[1..], line, post);
    }
  }

  /** The node read back from a rendered file is the node it was rendered for, exactly when the
      identifier needs no escape; no other value in the file matters. */
  lemma ReadsBackIff(auth: string, client: string, node: ServerNode, proxies: seq<ProxySpec>, u: Unicode)
    ensures ClusterNode(NodeConfig(auth, client, node, proxies, u)) == node.id <==> PlainText(node.id, u)
  {
    ConfigSplits(auth, client, node, proxies, u);
    HeadIsSilent(auth, client, node, u);
    NodeLineSays(node.id, u);
    UnquotedIff(node.id, u);
    hide HeadLines, AllProxyLines, NodeLine, NodeOf, PlainText;
    var head, rest := HeadLines(auth, client, node, u), AllProxyLines(proxies, u);
    assert ConfigLines(auth, client, node, proxies, u) + [""] == head + [NodeLine(node.id, u)] + (rest + [""]);
    FirstThatSays(head, NodeLine(node.id, u), rest + [""]);
  }

  lemma SanitizedIsPlain(id: string, u: Unicode)
    requires SanitizedId(id)
    ensures PlainText(id, u)
  {
    forall i | 0 <= i < |id| ensures Plain(id[i], u) { assert IsIdChar(id[i]); }
  }

  /* ---------- the renderer ---------- */

  lemma HeadText(auth: string, client: string, node: ServerNode, u: Unicode)
    ensures Unlines(HeadLines(auth, client, node, u)) ==
            ("serverAddr = " + Quote(node.publicAddr, u) + "\n") + ("serverPort = " + Itoa(node.bindPort) + "\n")
            + (if auth != "" then "auth.token = " + Quote(auth, u) + "\n" else "")
            + ("user = " + Quote(client, u) + "\n") + ("metadatas.client_id = " + Quote(client, u) + "\n")
  {
    var a, b := "serverAddr = " + Quote(node.publicAddr, u), "serverPort = " + Itoa(node.bindPort);
    var c, d, e := "auth.token = " + Quote(auth, u), "user = " + Quote(client, u), "metadatas.client_id = " + Quote(client, u);
    hide Quote, Itoa;
    assert Unlines([]) == "";
    hide Unlines;
    UnlinesSnoc([], a);
    UnlinesSnoc([a], b);
    var top := if auth != "" then [a, b, c] else [a, b];
    assert [a] + [b] == [a, b];
    if auth != "" {
      UnlinesSnoc([a, b], c);
      assert [a, b] + [c] == top;
    }
    UnlinesSnoc(top, d);
    UnlinesSnoc(top + [d], e);
    assert HeadLines(auth, client, node, u) == top + [d] + [e];
  }

  method RenderProxy(p: ProxySpec, u: Unicode) returns (buf: string)
    ensures buf == Unlines(ProxyLines(p, u))
  {
    var a, b, c := "name = " + Quote(p.name, u), "type = " + Quote(p.kind, u), "localIP = " + Quote(p.localIp, u);
    var d, e := "localPort = " + Itoa(p.localPort), "remotePort = " + Itoa(p.remotePort);
    ghost var lines := ["", "[[proxies]]", a, b, c, d];
    buf := "\n[[proxies]]\n" + (a + "\n") + (b + "\n") + (c + "\n") + (d + "\n");
    ProxyText(a, b, c, d);
    UnlinesSnoc(lines, e);
    if p.remotePort > 0 {
      buf := buf + (e + "\n");
    } else {
      assert lines + [] == lines;
    }
  }

  lemma ProxyText(a: string, b: string, c: string, d: string)
    ensures Unlines(["", "[[proxies]]", a, b, c, d]) == "\n[[proxies]]\n" + (a + "\n") + (b + "\n") + (c + "\n") + (d + "\n")
  {
    var top := ["", "[[proxies]]"];
    UnlinesSnoc([], "");
    UnlinesSnoc([""], "[[proxies]]");
    assert [""] + ["[[proxies]]"] == top && Unlines([]) + ("" + "\n") == "\n";
    UnlinesSnoc(top, a);
    UnlinesSnoc(top + [a], b);
    UnlinesSnoc(top + [a] + [b], c);
    UnlinesSnoc(top + [a] + [b] + [c], d);
    assert top + [a] + [b] + [c] + [d] == ["", "[[proxies]]", a, b, c, d];
    assert "\n" + ("[[proxies]]" + "\n") == "\n[[proxies]]\n";
  }

  method RenderHead(auth: string, client: string, node: ServerNode, u: Unicode) returns (buf: string)
    ensures buf == Unlines(HeadLines(auth, client, node, u))
  {
    hide HeadLines, Quote, Itoa;
    buf := "serverAddr = " + Quote(node.publicAddr, u) + "\n";
    buf := buf + ("serverPort = " + Itoa(node.bindPort) + "\n");
    if auth != "" {
      buf := buf + ("auth.token = " + Quote(auth, u) + "\n");
    }
    buf := buf + ("user = " + Quote(client, u) + "\n");
    buf := buf + ("metadatas.client_id = " + Quote(client, u) + "\n");
    HeadText(auth, client, node, u);
  }

  /** renderFrpcNodeConfig, into a buffer */
  method RenderNodeConfig(auth: string, client: string, node: ServerNode, proxies: seq<ProxySpec>, u: Unicode) returns (buf: string)
    ensures buf == NodeConfig(auth, client, node, proxies, u)
  {
    hide HeadLines, Quote, ProxyLines;
    buf := RenderHead(auth, client, node, u);
    UnlinesSnoc(HeadLines(auth, client, node, u), NodeLine(node.id, u));
    buf := buf + (NODE_KEY + " = " + Quote(node.id, u) + "\n");
    ghost var head := HeadLines(auth, client, node, u) + [NodeLine(node.id, u)];
    assert head + AllProxyLines([], u) == head;
    for i := 0 to |proxies|
      invariant buf == Unlines(head + AllProxyLines(proxies[..i], u))
    {
      assert proxies[..i + 1][..i] == proxies[..i];
      var text := RenderProxy(proxies[i], u);
      assert head + AllProxyLines(proxies[..i + 1], u) == head + AllProxyLines(proxies[..i], u) + ProxyLines(proxies[i], u);
      UnlinesAppend(head + AllProxyLines(proxies[..i], u), ProxyLines(proxies[i], u));
      buf := buf + text;
    }
    assert proxies[..|proxies|] == proxies;
  }
}
