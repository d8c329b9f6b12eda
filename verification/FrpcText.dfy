/** Rendered configurations say what they were made of: every quoted value can be read back, and each key has its
    own line (internal/control/config.go:144-165, 188-219). */
module FrpcText {
  import opened Text
  import opened Lines
  import opened Cluster
  import opened FrpcConfig
  import opened FrpcFiles
  import opened Preference

  /* ---------- reading quoted text ---------- */

  function DigitValue(c: char): nat {
    if '0' <= c <= '9' then c as int - '0' as int else if 'a' <= c <= 'f' then c as int - 'a' as int + 10 else 0
  }

  function HexValue(s: string): nat { if s == "" then 0 else 16 * HexValue(s[..|s| - 1]) + DigitValue(s[|s| - 1]) }

  predicate IsScalar(n: nat) { n < 0xD800 || 0xE000 <= n < 0x11_0000 }

  function CharOf(n: nat): char { if IsScalar(n) then n as char else '?' }

  /** How many characters an escape has, and which character it stands for. */
  function EscapeWidth(s: string): nat
    requires s != ""
  {
    if s[0] != '\\' || |s| < 2 then 1
    else if s[1] == 'x' && |s| >= 4 then 4 else if s[1] == 'u' && |s| >= 6 then 6 else if s[1] == 'U' && |s| >= 10 then 10 else 2
  }

  function Escaped(s: string): char
    requires s != ""
  {
    if s[0] != '\\' || |s| < 2 then s[0]
    else if EscapeWidth(s) > 2 then CharOf(HexValue(s[2..EscapeWidth(s)]))
    else if s[1] == 'a' then 7 as char else if s[1] == 'b' then 8 as char else if s[1] == 't' then 9 as char
    else if s[1] == 'n' then 10 as char else if s[1] == 'v' then 11 as char else if s[1] == 'f' then 12 as char
    else if s[1] == 'r' then 13 as char else s[1]
  }

  /** What an escaped text stands for. */
  function Unescape(s: string): string {
    if s == "" then ""
    else
      assert EscapeWidth(s) >= 1;
      [Escaped(s)] + if EscapeWidth(s) <= |s| then Unescape(s[EscapeWidth(s)..]) else ""
  }

  function Power16(n: nat): nat { if n == 0 then 1 else 16 * Power16(n - 1) }

  lemma {:induction false} HexReads(n: nat, width: nat)
    requires n < Power16(width)
    ensures HexValue(Hex(n, width)) == n && |Hex(n, width)| == width
  {
    if width > 0 {
      HexReads(n / 16, width - 1);
      var h, d := Hex(n / 16, width - 1), HexDigit(n % 16);
      assert (h + [d])[..|h|] == h;
      assert DigitValue(d) == n % 16;
    }
  }

  lemma HexEscape(e: string, n: nat, width: nat, rest: string)
    requires n < Power16(width) && |e| == 2 && e[0] == '\\'
    requires (e[1] == 'x' && width == 2) || (e[1] == 'u' && width == 4) || (e[1] == 'U' && width == 8)
    ensures var s := e + Hex(n, width) + rest;
            |s| >= 2 + width && EscapeWidth(s) == 2 + width && Escaped(s) == CharOf(n) && s[2 + width..] == rest
  {
    HexReads(n, width);
    hide Hex, HexValue;
    var s := e + Hex(n, width) + rest;
    assert s[2..2 + width] == Hex(n, width);
  }

  /** One escaped character is read as that character, whatever follows. */
  lemma EscapeReads(c: char, rest: string, u: Unicode)
    ensures EscapeChar(c, u) != ""
    ensures var s := EscapeChar(c, u) + rest; EscapeWidth(s) == |EscapeChar(c, u)| && Escaped(s) == c
  {
    var n, e, s := c as int, EscapeChar(c, u), EscapeChar(c, u) + rest;
    Powers();
    if e != [c] && |e| > 2 {
      var width := if e[1] == 'x' then 2 else if e[1] == 'u' then 4 else 8;
      HexReads(n, width);
      assert e == e[..2] + Hex(n, width);
      HexEscape(e[..2], n, width, rest);
      assert e[..2] + Hex(n, width) + rest == s;
    } else if |e| == 1 {
      assert s[0] == c;
    } else {
      assert s[0] == '\\' && s[1] == e[1];
    }
  }

  lemma Powers()
    ensures Power16(2) == 256 && Power16(4) == 0x1_0000 && Power16(8) == 0x1_0000_0000
  {
    assert Power16(2) == 16 * Power16(1);
    assert Power16(4) == 256 * Power16(2);
    assert Power16(6) == 256 * Power16(4);
    assert Power16(8) == 256 * Power16(6);
  }

  lemma {:induction false} EscapeFirst(s: string, u: Unicode)
    requires s != ""
    ensures Escape(s, u) == EscapeChar(s[0], u) + Escape(s[1..], u)
  {
    hide EscapeChar;
    if |s| == 1 {
      assert s[..0] == "" && s[1..] == "";
    } else {
      var n := |s| - 1;
      EscapeFirst(s[..n], u);
      assert s[..n][1..] == s[1..][..n - 1];
    }
  }

  /** Every text can be read back from its escaped form, so different values are never rendered alike. */
  lemma {:induction false} EscapeRoundTrip(s: string, u: Unicode)
    ensures Unescape(Escape(s, u)) == s
  {
    if s != "" {
      var e, rest := EscapeChar(s[0], u), Escape(s[1..], u);
      EscapeFirst(s, u);
      EscapeReads(s[0], rest, u);
      EscapeRoundTrip(s[1..], u);
      hide EscapeChar, Escape, EscapeWidth, Escaped;
      assert (e + rest)[|e|..] == rest;
    }
  }

  /* ---------- reading a configuration ---------- */

  /** The quoted value of a line with this key. */
  function Quoted(line: string, key: string): Option<string> {
    var start := key + " = \"";
    if start <= line && |line| > |start| && line[|line| - 1] == '"' then Some(Unescape(line[|start|..|line| - 1])) else None
  }

  lemma QuotedReads(prefix: string, key: string, v: string, u: Unicode)
    requires prefix == key + " = "
    ensures Quoted(prefix + Quote(v, u), key) == Some(v)
  {
    EscapeRoundTrip(v, u);
    var start, e := key + " = \"", Escape(v, u);
    var line := prefix + Quote(v, u);
    hide Escape, Unescape;
    assert line == start + e + "\"";
    assert line[|start|..|line| - 1] == e;
  }

  /** What the head of a rendered file says: the node's address and port, the authentication token if there is one, the
      client twice, and the node. */
  lemma ConfigSays(auth: string, client: string, node: ServerNode, proxies: seq<ProxySpec>, u: Unicode)
    ensures var l := Split(NodeConfig(auth, client, node, proxies, u), '\n');
            var k := if auth != "" then 3 else 2;
            && |l| > k + 3
            && Quoted(l[0], "serverAddr") == Some(node.publicAddr) && l[1] == "serverPort = " + Itoa(node.bindPort)
            && (auth != "" ==> Quoted(l[2], "auth.token") == Some(auth))
            && Quoted(l[k], "user") == Some(client) && Quoted(l[k + 1], "metadatas.client_id") == Some(client)
            && Quoted(l[k + 2], "metadatas.cluster_node") == Some(node.id)
            && l[k + 3..] == AllProxyLines(proxies, u) + [""]
  {
    hide Quote, Quoted, Itoa, AllProxyLines, NodeConfig, HeadLines, Split;
    ConfigSplits(auth, client, node, proxies, u);
    HeadSays(auth, client, node, u);
    NodeSays(node.id, u);
    var head := HeadLines(auth, client, node, u);
    assert Split(NodeConfig(auth, client, node, proxies, u), '\n') == head + ([NodeLine(node.id, u)] + (AllProxyLines(proxies, u) + [""]));
  }

  lemma NodeSays(id: string, u: Unicode)
    ensures Quoted(NodeLine(id, u), "metadatas.cluster_node") == Some(id)
  {
    hide Quote, Quoted;
    QuotedReads(NODE_KEY + " = ", "metadatas.cluster_node", id, u);
  }

  lemma HeadSays(auth: string, client: string, node: ServerNode, u: Unicode)
    ensures var l := HeadLines(auth, client, node, u);
            var k := if auth != "" then 3 else 2;
            && |l| == k + 2
            && Quoted(l[0], "serverAddr") == Some(node.publicAddr) && l[1] == "serverPort = " + Itoa(node.bindPort)
            && (auth != "" ==> Quoted(l[2], "auth.token") == Some(auth))
            && Quoted(l[k], "user") == Some(client) && Quoted(l[k + 1], "metadatas.client_id") == Some(client)
  {
    hide Quote, Quoted, Itoa;
    ServerReads(node.publicAddr, u);
    AuthReads(auth, u);
    ClientReads(client, u);
  }

  lemma ServerReads(v: string, u: Unicode)
    ensures Quoted("serverAddr = " + Quote(v, u), "serverAddr") == Some(v)
  {
    hide Quote, Quoted;
    QuotedReads("serverAddr = ", "serverAddr", v, u);
  }

  lemma AuthReads(v: string, u: Unicode)
    ensures Quoted("auth.token = " + Quote(v, u), "auth.token") == Some(v)
  {
    hide Quote, Quoted;
    QuotedReads("auth.token = ", "auth.token", v, u);
  }

  lemma ClientReads(v: string, u: Unicode)
    ensures Quoted("user = " + Quote(v, u), "user") == Some(v)
    ensures Quoted("metadatas.client_id = " + Quote(v, u), "metadatas.client_id") == Some(v)
  {
    hide Quote, Quoted;
    QuotedReads("user = ", "user", v, u);
    QuotedReads("metadatas.client_id = ", "metadatas.client_id", v, u);
  }

  /** What the section of a proxy says; a remote port that is not positive is left out. */
  lemma ProxySays(p: ProxySpec, u: Unicode)
    ensures var l := ProxyLines(p, u);
            && |l| == (if p.remotePort > 0 then 7 else 6) && l[0] == "" && l[1] == "[[proxies]]"
            && Quoted(l[2], "name") == Some(p.name) && Quoted(l[3], "type") == Some(p.kind) && Quoted(l[4], "localIP") == Some(p.localIp)
            && l[5] == "localPort = " + Itoa(p.localPort) && (p.remotePort > 0 ==> l[6] == "remotePort = " + Itoa(p.remotePort))
  {
    hide Quote, Quoted, Itoa;
    NameReads(p.name, u);
    TypeReads(p.kind, u);
    AddressReads(p.localIp, u);
    ProxyShape(p, "name = " + Quote(p.name, u), "type = " + Quote(p.kind, u), "localIP = " + Quote(p.localIp, u), u);
  }

  lemma NameReads(v: string, u: Unicode)
    ensures Quoted("name = " + Quote(v, u), "name") == Some(v)
  {
    hide Quote, Quoted;
    QuotedReads("name = ", "name", v, u);
  }

  lemma TypeReads(v: string, u: Unicode)
    ensures Quoted("type = " + Quote(v, u), "type") == Some(v)
  {
    hide Quote, Quoted;
    QuotedReads("type = ", "type", v, u);
  }

  lemma AddressReads(v: string, u: Unicode)
    ensures Quoted("localIP = " + Quote(v, u), "localIP") == Some(v)
  {
    hide Quote, Quoted;
    QuotedReads("localIP = ", "localIP", v, u);
  }

  lemma ProxyShape(p: ProxySpec, a: string, b: string, c: string, u: Unicode)
    requires a == "name = " + Quote(p.name, u) && b == "type = " + Quote(p.kind, u) && c == "localIP = " + Quote(p.localIp, u)
    ensures var l := ProxyLines(p, u);
            && |l| == (if p.remotePort > 0 then 7 else 6) && l[0] == "" && l[1] == "[[proxies]]" && l[2] == a && l[3] == b && l[4] == c
            && l[5] == "localPort = " + Itoa(p.localPort) && (p.remotePort > 0 ==> l[6] == "remotePort = " + Itoa(p.remotePort))
  {
    hide Quote, Itoa;
  }

  /** The proxies of a file: one for a health check at the fallback port if none are given, else the given ones in their
      order, with a name, a type and an address filled in where they are missing. */
  lemma SpecsSay(specs: seq<ProxySpec>, client: string, section: string, fallback: int, u: Unicode)
    ensures var out := NormalProxies(specs, client, section, fallback, u);
            if specs == [] then
              |out| == 1 && out[0].name == client + "-health-" + section && out[0].kind == "tcp" && out[0].localIp == "127.0.0.1"
              && out[0].localPort == 22 && out[0].remotePort == fallback
            else
              |out| == |specs|
              && forall i :: 0 <= i < |specs| ==>
                   && out[i].localPort == specs[i].localPort && out[i].remotePort == specs[i].remotePort
                   && out[i].name == (if SanitizeId(specs[i].name) != "" then SanitizeId(specs[i].name) else client + "-proxy-" + Itoa(i + 1))
                   && out[i].localIp == (if specs[i].localIp != "" then specs[i].localIp else "127.0.0.1")
                   && out[i].kind == LowerCase(TrimSpace(if specs[i].kind != "" then specs[i].kind else "tcp"), u)
  {
    hide SanitizeId, TrimSpace, Itoa, LowerCase;
  }

  /** Each selected node's file is named by the client and the node, or by the client alone in single mode, and holds the
      node's configuration with the fallback port counted from 20000. */
  lemma {:induction false} FilesSay(auth: string, client: string, mode: Mode, nodes: seq<ServerNode>, specs: seq<ProxySpec>, u: Unicode, i: nat)
    requires (mode.Single? ==> |nodes| <= 1) && FrpcFiles.IdsDiffer(nodes) && i < |nodes|
    ensures var files := Files(auth, client, mode, nodes, specs, u);
            var name := if mode.Single? then "frpc-" + client + ".toml" else "frpc-" + client + "-" + nodes[i].id + ".toml";
            && name in files
            && files[name] == NodeConfig(auth, client, nodes[i],
                                         NormalProxies(specs, client, if mode.Single? then "primary" else nodes[i].id, 20000 + i, u), u)
  {
    hide NodeConfig, NormalProxies;
    var n := |nodes| - 1;
    if i < n {
      var rest := nodes[..n];
      assert rest[i] == nodes[i];
      FilesSay(auth, client, mode, rest, specs, u, i);
      NamesDiffer(client, nodes[i].id, nodes[n].id, mode);
    }
  }

  /** Who asks and how, when the request leaves it open: a client without an identifier, all nodes. */
  lemma RequestDefaults(client: string)
    ensures ClientName(client) == if SanitizeId(client) != "" then SanitizeId(client) else "client"
    ensures RequestedMode(None).Aggregate? && forall m :: RequestedMode(Some(m)) == m
  {
    hide SanitizeId;
  }
}
