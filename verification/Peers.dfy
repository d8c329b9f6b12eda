/** The peer URLs a replica learns from a merge (internal/control/store.go:338-342, 366-368, 515-519). */
module Peers {
  import opened Text
  import opened Cluster
  import opened Sorting
  import opened StringLists
  import Replicas

  ghost function WithUrls(peers: seq<string>, urls: seq<string>): seq<string> {
    SortedStrings(Normalized(peers, NormalizeUrl) + Normalized(urls, NormalizeUrl))
  }

  function OwnRemoved(peers: seq<string>, own: string): seq<string> {
    if own != "" then WithoutUrl(peers, own) else peers
  }

  /** The peers after the remote lists and before the remote nodes; `remotePublic` is normalised. */
  ghost function FromLists(peers: seq<string>, own: string, remotePeers: seq<string>, remotePublic: string, source: string): seq<string> {
    var theirs := OwnRemoved(WithUrls([], remotePeers), remotePublic);
    OwnRemoved(WithUrls(WithUrls(peers, theirs), [source, remotePublic]), own)
  }

  /** The URL that the node loop adds for a remote entry, "" for none. */
  function NodeUrl(key: string, n: ServerNode): string {
    match Replicas.ReadNode(key, n)
    case None => ""
    case Some(e) => e.controlUrl
  }

  function NodeUrls(remote: map<string, ServerNode>, order: seq<string>): seq<string>
    requires forall k :: k in order ==> k in remote
  {
    seq(|order|, i requires 0 <= i < |order| => NodeUrl(order[i], remote[order[i]]))
  }

  /** The peers after the node loop has met these URLs. */
  ghost function FromUrls(peers: seq<string>, urls: seq<string>): seq<string> {
    if urls == [] then peers
    else
      var before, url := FromUrls(peers, urls[..|urls| - 1]), urls[|urls| - 1];
      if url == "" then before else WithUrls(before, [url])
  }

  lemma NoUrls(peers: seq<string>, remote: map<string, ServerNode>)
    ensures FromUrls(peers, NodeUrls(remote, [])) == peers
  {}

  lemma NodeUrlNext(peers: seq<string>, remote: map<string, ServerNode>, order: seq<string>, k: string)
    requires k in remote && forall x :: x in order ==> x in remote
    ensures var before := FromUrls(peers, NodeUrls(remote, order));
            FromUrls(peers, NodeUrls(remote, order + [k])) ==
            if NodeUrl(k, remote[k]) == "" then before else WithUrls(before, [NodeUrl(k, remote[k])])
  {
    var urls, url := NodeUrls(remote, order), NodeUrl(k, remote[k]);
    assert NodeUrls(remote, order + [k]) == urls + [url];
    assert (urls + [url])[..|urls|] == urls;
  }

  predicate AllStable(peers: seq<string>) { forall u :: u in peers ==> u != "" && StableUrl(u) }

  lemma WithStableUrl(peers: seq<string>, url: string)
    requires AllStable(peers) && StableUrl(url) && url != ""
    ensures Elements(WithUrls(peers, [url])) == Elements(peers) + {url}
    ensures AllStable(WithUrls(peers, [url]))
  {
    assert Normalized(peers, NormalizeUrl) == Elements(peers);
    assert Normalized([url], NormalizeUrl) == {url};
    forall u | u in WithUrls(peers, [url]) ensures u != "" && StableUrl(u) {
      assert u in Elements(WithUrls(peers, [url]));
    }
  }

  /** With stable URLs the node loop adds just the nodes' URLs, in any order. */
  lemma {:induction false} FromUrlsAdds(peers: seq<string>, urls: seq<string>)
    requires AllStable(peers) && forall u :: u in urls ==> StableUrl(u)
    ensures AllStable(FromUrls(peers, urls))
    ensures Elements(FromUrls(peers, urls)) == Elements(peers) + (Elements(urls) - {""})
  {
    if urls != [] {
      var rest, url := urls[..|urls| - 1], urls[|urls| - 1];
      assert urls == rest + [url];
      FromUrlsAdds(peers, rest);
      assert Elements(urls) == Elements(rest) + {url};
      if url != "" { WithStableUrl(FromUrls(peers, rest), url); }
    }
  }

  /** A merge removes the replica's own URL and may put it back: with stable URLs it is among the peers
      afterwards exactly when some remote node advertises it. */
  lemma OwnUrlReturnsIff(peers: seq<string>, own: string, urls: seq<string>)
    requires own != "" && own !in peers && AllStable(peers) && forall u :: u in urls ==> StableUrl(u)
    ensures own in FromUrls(peers, urls) <==> own in urls
  {
    FromUrlsAdds(peers, urls);
    assert own in FromUrls(peers, urls) <==> own in Elements(FromUrls(peers, urls));
    assert own in urls <==> own in Elements(urls);
  }

  /** Before the nodes are read the own URL is gone. */
  lemma ListsDropOwn(peers: seq<string>, own: string, remotePeers: seq<string>, remotePublic: string, source: string)
    requires StableUrl(own) && own != ""
    ensures own !in FromLists(peers, own, remotePeers, remotePublic, source)
  {
    var theirs := OwnRemoved(WithUrls([], remotePeers), remotePublic);
    var all := WithUrls(WithUrls(peers, theirs), [source, remotePublic]);
    WithoutUrlElements(all, own);
    assert own !in Elements(WithoutUrl(all, own));
  }
}
