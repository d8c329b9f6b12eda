/** One configuration file for each selected node, and the failover loop that excludes the nodes whose
    processes have exited (internal/control/config.go:113-147, 188-212, cmd/frp-cluster/main.go:453-460,
    869-883). */
module FrpcFiles {
  import opened Text
  import opened Cluster
  import opened FrpcConfig
  import opened Preference
  import opened Sorting
  import opened StringLists
  import ControlStore

  function ClientName(client: string): string { if SanitizeId(client) == "" then "client" else SanitizeId(client) }

  function FileName(client: string, nodeId: string, mode: Mode): string {
    if mode.Single? then "frpc-" + client + ".toml" else "frpc-" + client + "-" + nodeId + ".toml"
  }

  function FileText(auth: string, client: string, mode: Mode, node: ServerNode, i: nat, specs: seq<ProxySpec>, u: Unicode): string {
    NodeConfig(auth, client, node, NormalProxies(specs, client, if mode.Single? then "primary" else node.id, 20000 + i, u), u)
  }

  function Files(auth: string, client: string, mode: Mode, nodes: seq<ServerNode>, specs: seq<ProxySpec>, u: Unicode): map<string, string> {
    if nodes == [] then map[]
    else
      var n := |nodes| - 1;
      Files(auth, client, mode, nodes[..n], specs, u)
        [FileName(client, nodes[n].id, mode) := FileText(auth, client, mode, nodes[n], n, specs, u)]
  }

  function SelectedFiles(selected: Result<seq<ServerNode>, Error>, auth: string, client: string, mode: Mode, specs: seq<ProxySpec>,
                         u: Unicode): Result<map<string, string>, Error>
  {
    if selected.Err? then Err(selected.error) else Ok(Files(auth, client, mode, selected.value, specs, u))
  }

  method NormalizeProxySpecs(specs: seq<ProxySpec>, client: string, section: string, fallback: int, u: Unicode)
    returns (out: seq<ProxySpec>)
    ensures out == NormalProxies(specs, client, section, fallback, u)
  {
    hide NormalProxy;
    if |specs| == 0 {
      return [ProxySpec(client + "-health-" + section, "tcp", "127.0.0.1", 22, fallback)];
    }
    out := [];
    for i := 0 to |specs|
      invariant |out| == i && forall j :: 0 <= j < i ==> out[j] == NormalProxy(specs[j], client, j + 1, u)
    {
      var spec := NormalizeProxySpec(specs[i], client, |out| + 1, u);
      out := out + [spec];
    }
  }

  method NormalizeProxySpec(given: ProxySpec, client: string, number: nat, u: Unicode) returns (spec: ProxySpec)
    ensures spec == NormalProxy(given, client, number, u)
  {
    hide SanitizeId, TrimSpace, LowerCase, Itoa;
    spec := given.(name := SanitizeId(given.name));
    if spec.name == "" {
      spec := spec.(name := client + "-proxy-" + Itoa(number));
    }
    if spec.kind == "" {
      spec := spec.(kind := "tcp");
    }
    spec := spec.(kind := LowerCase(TrimSpace(spec.kind), u));
    if spec.localIp == "" {
      spec := spec.(localIp := "127.0.0.1");
    }
  }

  /** There is always a proxy, and each has a name; a type made of blanks is the one gap that stays open. */
  lemma ProxiesAreNamed(specs: seq<ProxySpec>, client: string, section: string, fallback: int, u: Unicode)
    ensures var out := NormalProxies(specs, client, section, fallback, u);
            && out != []
            && forall i :: 0 <= i < |out| ==>
                 && out[i].name != "" && (specs != [] ==> out[i].localIp != "")
                 && (out[i].kind == "" <==> specs != [] && specs[i].kind != "" && TrimSpace(specs[i].kind) == "")
  {
    assert TrimSpace("tcp") == "tcp" by { TrimFixpoint("tcp", IsSpace); }
    var out := NormalProxies(specs, client, section, fallback, u);
    hide SanitizeId, TrimSpace, Itoa;
    if specs != [] {
      assert |out| == |specs|;
      forall i | 0 <= i < |out| ensures out[i].name != "" {
        if SanitizeId(specs[i].name) == "" { assert |out[i].name| == |client + "-proxy-"| + |Itoa(i + 1)|; }
      }
    } else {
      assert |out[0].name| == |client + "-health-"| + |section|;
    }
  }

  function RequestedMode(requested: Option<Mode>): Mode { if requested.None? then Aggregate else requested.value }

  /** A request without a mode is one for aggregate. */
  method GenerateFrpcConfigFiles(store: ControlStore.Store, client: string, requested: Option<Mode>, limit: int, exclude: seq<string>,
                                 specs: seq<ProxySpec>, u: Unicode, now: Time) returns (r: Result<map<string, string>, Error>)
    requires store.Valid()
    ensures DistinctIds(Eligible(OnlineSet(store.nodes, now), exclude))
    ensures r == SelectedFiles(
                Selection(Eligible(OnlineSet(store.nodes, now), exclude), Lookup(store.clients, SanitizeId(ClientName(client))),
                          RequestedMode(requested), limit),
                store.config.authToken, ClientName(client), RequestedMode(requested), specs, u)
  {
    hide SanitizeId, Selection, Files, OnlineSet, Eligible;
    var mode := Aggregate;
    if requested.Some? {
      mode := requested.value;
    }
    var clientId := SanitizeId(client);
    if clientId == "" {
      clientId := "client";
    }
    var selected := store.SelectNodes(clientId, mode, limit, exclude, now);
    if selected.Err? {
      return Err(selected.error);
    }
    var nodes := selected.value;
    SingleSelectsOne(Eligible(OnlineSet(store.nodes, now), exclude), Lookup(store.clients, SanitizeId(clientId)), mode, limit);
    var files := RenderFiles(store.config.authToken, clientId, mode, nodes, specs, u);
    r := Ok(files);
  }

  method RenderFiles(auth: string, client: string, mode: Mode, nodes: seq<ServerNode>, specs: seq<ProxySpec>, u: Unicode)
    returns (files: map<string, string>)
    requires mode.Single? ==> |nodes| == 1
    ensures files == Files(auth, client, mode, nodes, specs, u)
  {
    hide NodeConfig, NormalProxies;
    files := map[];
    var i := 0;
    while i < |nodes|
      invariant 0 <= i <= |nodes| && files == Files(auth, client, mode, nodes[..i], specs, u)
    {
      assert nodes[..i + 1][..i] == nodes[..i];
      var section, name := nodes[i].id, "frpc-" + client + "-" + nodes[i].id + ".toml";
      if mode.Single? {
        section, name := "primary", "frpc-" + client + ".toml";
      }
      var proxies := NormalizeProxySpecs(specs, client, section, 20000 + i, u);
      var text := RenderNodeConfig(auth, client, nodes[i], proxies, u);
      files := files[name := text];
      i := i + 1;
      if mode.Single? {
        break;
      }
    }
    assert nodes[..|nodes|] == nodes;
  }

  /** A single selection is one node, so leaving the loop after the first leaves none out. */
  lemma SingleSelectsOne(S: set<ServerNode>, client: Option<Client>, mode: Mode, limit: int)
    requires DistinctIds(S)
    ensures var r := Selection(S, client, mode, limit);
            mode.Single? && r.Ok? ==> |r.value| == 1
  {
    RankingFacts(S);
    if mode.Single? && S != {} { SelectionPins(S, client, mode, limit); }
  }

  /* ---------- what the files say ---------- */

  lemma NamesDiffer(client: string, a: string, b: string, mode: Mode)
    requires !mode.Single?
    ensures FileName(client, a, mode) == FileName(client, b, mode) <==> a == b
  {
    var pre := "frpc-" + client + "-";
    var x, y := pre + a + ".toml", pre + b + ".toml";
    if x == y {
      assert |a| == |b|;
      assert a == x[|pre|..|pre| + |a|] && b == y[|pre|..|pre| + |b|];
    }
  }

  predicate IdsDiffer(nodes: seq<ServerNode>) { forall i, j :: 0 <= i < j < |nodes| ==> nodes[i].id != nodes[j].id }

  /** The node's file is there, and its identifier is read back from it whenever that needs no escape. */
  predicate HasFile(files: map<string, string>, client: string, mode: Mode, id: string, u: Unicode) {
    && FileName(client, id, mode) in files
    && (ClusterNode(files[FileName(client, id, mode)]) == id <==> PlainText(id, u))
  }

  function Names(client: string, mode: Mode, nodes: seq<ServerNode>): set<string> {
    set n | n in nodes :: FileName(client, n.id, mode)
  }

  lemma NamesSnoc(client: string, mode: Mode, nodes: seq<ServerNode>, n: ServerNode)
    requires (mode.Single? ==> nodes == []) && IdsDiffer(nodes + [n])
    ensures IdsDiffer(nodes) && Names(client, mode, nodes + [n]) == Names(client, mode, nodes) + {FileName(client, n.id, mode)}
    ensures FileName(client, n.id, mode) !in Names(client, mode, nodes)
  {
    var all := nodes + [n];
    hide FileName;
    forall i, j | 0 <= i < j < |nodes| ensures nodes[i].id != nodes[j].id { assert all[i].id != all[j].id; }
    forall m | m in nodes ensures FileName(client, m.id, mode) != FileName(client, n.id, mode) {
      var i :| 0 <= i < |nodes| && nodes[i] == m;
      assert all[i].id != all[|nodes|].id;
      NamesDiffer(client, m.id, n.id, mode);
    }
    forall m | m in all ensures m in nodes || m == n {}
  }

  /** Every selected node gets a file of its own, and there are no other files; single mode selects one node. */
  lemma {:induction false} FilePerNode(auth: string, client: string, mode: Mode, nodes: seq<ServerNode>, specs: seq<ProxySpec>, u: Unicode)
    requires (mode.Single? ==> |nodes| <= 1) && IdsDiffer(nodes)
    ensures var files := Files(auth, client, mode, nodes, specs, u);
            && |files| == |nodes| && files.Keys == Names(client, mode, nodes)
            && forall n :: n in nodes ==> HasFile(files, client, mode, n.id, u)
  {
    hide FileText, Names, IdsDiffer, HasFile, FileName;
    if nodes == [] {
      NoNames(client, mode);
    } else {
      var rest, n := nodes[..|nodes| - 1], nodes[|nodes| - 1];
      assert nodes == rest + [n];
      NamesSnoc(client, mode, rest, n);
      FilePerNode(auth, client, mode, rest, specs, u);
      var before, name := Files(auth, client, mode, rest, specs, u), FileName(client, n.id, mode);
      var text := FileText(auth, client, mode, n, |rest|, specs, u);
      TextReadsBack(auth, client, mode, n, |rest|, specs, u);
      NewFile(before, name, text);
      forall m | m in nodes ensures HasFile(before[name := text], client, mode, m.id, u) {
        StillHasFile(before, client, mode, n.id, text, m.id, u);
      }
    }
  }

  lemma NoNames(client: string, mode: Mode)
    ensures Names(client, mode, []) == {}
  {}

  lemma StillHasFile(files: map<string, string>, client: string, mode: Mode, id: string, text: string, other: string, u: Unicode)
    requires ClusterNode(text) == id <==> PlainText(id, u)
    requires other == id || (!mode.Single? && HasFile(files, client, mode, other, u))
    ensures HasFile(files[FileName(client, id, mode) := text], client, mode, other, u)
  {
    if other != id { NamesDiffer(client, id, other, mode); }
    hide ClusterNode, FileName, PlainText;
  }

  lemma TextReadsBack(auth: string, client: string, mode: Mode, node: ServerNode, i: nat, specs: seq<ProxySpec>, u: Unicode)
    ensures ClusterNode(FileText(auth, client, mode, node, i, specs, u)) == node.id <==> PlainText(node.id, u)
  {
    ReadsBackIff(auth, client, node, NormalProxies(specs, client, if mode.Single? then "primary" else node.id, 20000 + i, u), u);
  }

  lemma NewFile(files: map<string, string>, name: string, text: string)
    requires name !in files
    ensures |files[name := text]| == |files| + 1 && files[name := text].Keys == files.Keys + {name}
  {
    assert files[name := text].Keys == files.Keys + {name};
    assert |files[name := text]| == |files[name := text].Keys| && |files| == |files.Keys|;
  }

  /* ---------- failover ---------- */

  /** Excluding a node by its own identifier works exactly when that is a sanitized identifier: the
      exclusion list is sanitized, the nodes are not. */
  lemma ExcludingIff(S: set<ServerNode>, n: ServerNode)
    requires n in S
    ensures n !in Eligible(S, [n.id]) <==> n.id != "" && SanitizedId(n.id)
  {
    SanitizeFixpoint(n.id);
    assert n.id in ExcludedIds([n.id]) <==> SanitizeId(n.id) == n.id && n.id != "";
  }

  /** The identifiers that the client reads from the files of its exited processes. */
  ghost function ExitedIds(files: map<string, string>, exited: set<string>): seq<string> {
    SortedStrings(IdsIn(files, exited))
  }

  function IdsIn(files: map<string, string>, exited: set<string>): set<string> {
    set f | f in exited && f in files && ClusterNode(files[f]) != "" :: ClusterNode(files[f])
  }

  /** Just the nodes named by the files of exited processes are excluded. */
  lemma ExitedIdsAre(files: map<string, string>, exited: set<string>, id: string)
    ensures id in ExitedIds(files, exited) <==> id != "" && exists f :: f in exited && f in files && ClusterNode(files[f]) == id
  {
    hide ClusterNode;
    assert id in ExitedIds(files, exited) <==> id in Elements(ExitedIds(files, exited));
  }

  lemma OneMoreId(files: map<string, string>, exited: set<string>, todo: set<string>, f: string)
    requires f in todo
    ensures IdsIn(files, exited - (todo - {f})) == IdsIn(files, exited - todo) +
              if f in exited && f in files && ClusterNode(files[f]) != "" then {ClusterNode(files[f])} else {}
  {
    hide ClusterNode;
    var id := if f in files then ClusterNode(files[f]) else "";
    forall x | x in IdsIn(files, exited - todo) ensures x in IdsIn(files, exited - (todo - {f})) {
      var g :| g in exited - todo && g in files && ClusterNode(files[g]) != "" && ClusterNode(files[g]) == x;
      assert g in exited - (todo - {f});
    }
    if f in exited { assert f in exited - (todo - {f}); }
  }

  lemma {:induction false} ExcludedHas(exclude: seq<string>, id: string)
    requires id in exclude && id != "" && SanitizedId(id)
    ensures id in ExcludedIds(exclude)
  {
    SanitizeFixpoint(id);
  }

  /** Failover closes the loop: whichever of the files' processes have exited, and whatever the nodes
      have become since, the next selection avoids the nodes of those processes. */
  lemma FailoverAvoids(auth: string, name: string, mode: Mode, nodes: seq<ServerNode>, specs: seq<ProxySpec>, u: Unicode,
                       exited: set<string>, S: set<ServerNode>, client: Option<Client>, next: Mode, limit: int, i: nat)
    requires (mode.Single? ==> |nodes| == 1) && IdsDiffer(nodes) && DistinctIds(S)
    requires i < |nodes| && nodes[i].id != "" && SanitizedId(nodes[i].id) && FileName(name, nodes[i].id, mode) in exited
    ensures var exclude := ExitedIds(Files(auth, name, mode, nodes, specs, u), exited);
            var r := Selection(Eligible(S, exclude), client, next, limit);
            r.Ok? ==> forall n :: n in r.value ==> n.id != nodes[i].id
  {
    var files, id := Files(auth, name, mode, nodes, specs, u), nodes[i].id;
    var exclude := ExitedIds(files, exited);
    FilePerNode(auth, name, mode, nodes, specs, u);
    SanitizedIsPlain(id, u);
    assert ClusterNode(files[FileName(name, id, mode)]) == id;
    assert id in Elements(exclude);
    ExcludedHas(exclude, id);
    SelectionSound(Eligible(S, exclude), client, next, limit);
    var r := Selection(Eligible(S, exclude), client, next, limit);
    if r.Ok? {
      forall n | n in r.value ensures n.id != id { assert n in Elements(r.value); }
    }
  }
}
