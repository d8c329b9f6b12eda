/** Proxy identifiers are made of a node, a client and a name (internal/control/service.go:854-856).
    Whose proxies can be told apart? */
module ProxyIds {
  import opened Text
  import opened Lines
  import opened Steps

  /** A dash can move from the node to the client without a trace. */
  lemma DashMoves(node: string, middle: string, client: string, name: string)
    ensures ProxyId(node + "-" + middle, client, name) == ProxyId(node, middle + "-" + client, name)
  {
    var n := FirstNonEmpty([name, "proxy"]);
    assert (node + "-" + middle) + "-" + client + "-" + n == node + "-" + (middle + "-" + client) + "-" + n;
  }

  lemma {:induction false} KeepIdCharsAppend(a: string, b: string)
    ensures KeepIdChars(a + b) == KeepIdChars(a) + KeepIdChars(b)
  {
    if a == "" {
      assert a + b == b;
    } else {
      assert (a + b)[1..] == a[1..] + b;
      KeepIdCharsAppend(a[1..], b);
    }
  }

  /** Sanitizing keeps a sanitized beginning; only what follows may be trimmed. */
  lemma SanitizeKeepsHead(head: string, n: string) returns (rest: string)
    requires head != "" && SanitizedId(head) && n != "" && !IsSpace(n[|n| - 1])
    ensures SanitizeId(head + ("-" + n)) == head + rest && (rest == "" || rest[0] == '-')
  {
    var low, tail := Lower("-" + n), KeepIdChars(Lower("-" + n));
    assert Lower(head) == head && Lower(head + ("-" + n)) == head + low;
    TrimFixpoint(head + low, IsSpace);
    KeepIdCharsAppend(head, low);
    KeepIdCharsKept(head);
    assert TrimLeft(head + tail, IsPunct) == head + tail;
    TrimRightStops(head, tail, IsPunct);
    rest := TrimRight(tail, IsPunct);
    assert low[0] == '-' && tail[0] == '-';
    var _ := TrimRightSplit(tail, IsPunct);
  }

  /** The identifier starts with the node and the client. */
  lemma ProxyIdStarts(node: string, client: string, name: string) returns (rest: string)
    requires node != "" && client != "" && SanitizedId(node) && SanitizedId(client)
    ensures ProxyId(node, client, name) == node + "-" + (client + rest) && (rest == "" || rest[0] == '-')
  {
    var n := FirstNonEmpty([name, "proxy"]);
    NameIsTrimmed(name);
    var head := node + "-" + client;
    DashedIsSanitized(node, client);
    rest := SanitizeKeepsHead(head, n);
    hide SanitizeId, FirstNonEmpty;
    assert head + ("-" + n) == node + "-" + client + "-" + n;
    assert head + rest == node + "-" + (client + rest);
  }

  lemma DashedIsSanitized(node: string, client: string)
    requires node != "" && client != "" && SanitizedId(node) && SanitizedId(client)
    ensures SanitizedId(node + "-" + client)
  {
    var head := node + "-" + client;
    assert head[0] == node[0] && head[|head| - 1] == client[|client| - 1];
  }

  lemma NameIsTrimmed(name: string)
    ensures var n := FirstNonEmpty([name, "proxy"]); n != "" && !IsSpace(n[|n| - 1])
  {
    TrimFixpoint(name, IsSpace);
    TrimFixpoint("proxy", IsSpace);
    assert [name, "proxy"][1..] == ["proxy"];
  }

  /** `h` goes on with a dash and something more in `k`. */
  predicate Continues(h: string, k: string) { h + "-" <= k }

  ghost predicate CanCollide(node: string, client: string, node': string, client': string) {
    exists name, name' :: Collide(node, client, name, node', client', name')
  }

  predicate Collide(node: string, client: string, name: string, node': string, client': string, name': string) {
    ProxyId(node, client, name) == ProxyId(node', client', name')
  }

  lemma CollideContinues(h: string, rest: string, k: string, rest': string)
    requires h + rest == k + rest' && (rest == "" || rest[0] == '-') && |h| <= |k|
    ensures h == k || Continues(h, k)
  {
    assert h == (h + rest)[..|h|] == k[..|h|];
    if |h| < |k| {
      assert k[|h|] == (h + rest)[|h|] == rest[0];
      assert k[..|h| + 1] == h + "-";
    } else {
      assert k == k[..|h|];
    }
  }

  lemma PartsDiffer(node: string, client: string, name: string, node': string, client': string, name': string)
    requires node != "" && client != "" && SanitizedId(node) && SanitizedId(client)
    requires node' != "" && client' != "" && SanitizedId(node') && SanitizedId(client')
    requires Collide(node, client, name, node', client', name')
    ensures var h, k := node + "-" + client, node' + "-" + client';
            h == k || Continues(h, k) || Continues(k, h)
  {
    var h, k := node + "-" + client, node' + "-" + client';
    var rest := ProxyIdStarts(node, client, name);
    var rest' := ProxyIdStarts(node', client', name');
    hide ProxyId;
    assert node + "-" + (client + rest) == h + rest && node' + "-" + (client' + rest') == k + rest';
    if |h| <= |k| { CollideContinues(h, rest, k, rest'); } else { CollideContinues(k, rest', h, rest); }
  }

  /** A name that makes up for what the second pair has more. */
  lemma NameMakesUp(node: string, client: string, node': string, client': string)
    requires node' != "" && client' != "" && SanitizedId(node') && SanitizedId(client') && Continues(node + "-" + client, node' + "-" + client')
    ensures CanCollide(node, client, node', client')
  {
    var h, k := node + "-" + client, node' + "-" + client';
    var name := k[|h| + 1..] + "-proxy";
    DashedIsSanitized(node', client');
    assert k == (h + "-") + k[|h| + 1..];
    assert forall i :: 0 <= i < |k| ==> IsIdChar(k[i]);
    NameStays(k[|h| + 1..]);
    NoNameIsProxy();
    assert h + "-" + name == k + "-" + "proxy";
    assert Collide(node, client, name, node', client', "");
  }

  lemma NameStays(s: string)
    requires s == "" || !IsSpace(s[0])
    ensures FirstNonEmpty([s + "-proxy", "proxy"]) == s + "-proxy"
  {
    TrimFixpoint(s + "-proxy", IsSpace);
  }

  lemma NoNameIsProxy()
    ensures FirstNonEmpty(["", "proxy"]) == "proxy"
  {
    TrimFixpoint("proxy", IsSpace);
    assert ["", "proxy"][1..] == ["proxy"];
  }

  /** Two pairs of a node and a client can have proxies with one identifier exactly when their joined
      texts are equal or one of them goes on with a dash where the other ends. */
  lemma CanCollideIff(node: string, client: string, node': string, client': string)
    requires node != "" && client != "" && SanitizedId(node) && SanitizedId(client)
    requires node' != "" && client' != "" && SanitizedId(node') && SanitizedId(client')
    ensures var h, k := node + "-" + client, node' + "-" + client';
            CanCollide(node, client, node', client') <==> h == k || Continues(h, k) || Continues(k, h)
  {
    var h, k := node + "-" + client, node' + "-" + client';
    hide Collide, SanitizedId;
    if CanCollide(node, client, node', client') {
      var name, name' :| Collide(node, client, name, node', client', name');
      PartsDiffer(node, client, name, node', client', name');
    }
    if h == k {
      SameTextCollides(node, client, node', client');
    } else if Continues(h, k) {
      NameMakesUp(node, client, node', client');
    } else if Continues(k, h) {
      NameMakesUp(node', client', node, client);
      var name, name' :| Collide(node', client', name, node, client, name');
      Symmetric(node', client', name, node, client, name');
    }
  }

  lemma SameTextCollides(node: string, client: string, node': string, client': string)
    requires node + "-" + client == node' + "-" + client'
    ensures CanCollide(node, client, node', client')
  {
    assert Collide(node, client, "", node', client', "");
  }

  lemma Symmetric(node: string, client: string, name: string, node': string, client': string, name': string)
    requires Collide(node, client, name, node', client', name')
    ensures Collide(node', client', name', node, client, name)
  {}

  /** Without dashes in them, node and client can be read off the identifier. */
  lemma DashFreeSeparates(node: string, client: string, node': string, client': string)
    requires node != "" && client != "" && SanitizedId(node) && SanitizedId(client) && Lacks(node, '-') && Lacks(client, '-')
    requires node' != "" && client' != "" && SanitizedId(node') && SanitizedId(client') && Lacks(node', '-') && Lacks(client', '-')
    ensures CanCollide(node, client, node', client') <==> node == node' && client == client'
  {
    CanCollideIff(node, client, node', client');
    var h, k := node + "-" + client, node' + "-" + client';
    if h == k {
      CutAt(node, client, '-');
      CutAt(node', client', '-');
    }
    if Continues(h, k) { NoThirdPart(node, client, node', client'); }
    if Continues(k, h) { NoThirdPart(node', client', node, client); }
  }

  lemma NoThirdPart(node: string, client: string, node': string, client': string)
    requires Lacks(node, '-') && Lacks(client, '-') && Lacks(node', '-') && Lacks(client', '-')
    ensures !Continues(node + "-" + client, node' + "-" + client')
  {
    var h, k := node + "-" + client, node' + "-" + client';
    if Continues(h, k) {
      var rest := client + "-" + k[|h| + 1..];
      assert k == node + ['-'] + rest && k == node' + ['-'] + client' && rest[|client|] == '-';
      CutAt(node, rest, '-');
      CutAt(node', client', '-');
    }
  }
}
