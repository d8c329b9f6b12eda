/** One exchange between two control planes (cmd/frp-cluster/main.go:223-241); a request may fail. */
module PeerSync {
  import opened Text
  import opened Cluster
  import opened ControlStore
  import opened Counters
  import opened Gossip
  import opened Replicas

  /** syncPeer: get the peer's state, merge it, and post the result, which the peer merges.  The first
      request may fail; the second may fail before or after the peer has merged. */
  method SyncPeer(local: Store, remote: Store, peer: string, publicUrl: string, pulledAt: Time, now: Time,
                  received: bool, delivered: bool, answered: bool) returns (ok: bool)
    requires local != remote && local.Valid() && remote.Valid() && (answered ==> delivered)
    modifies local, remote
    ensures local.Valid() && remote.Valid()
    ensures ok <==> NormalizeUrl(peer) == "" || (received && answered)
    ensures NormalizeUrl(peer) == "" || !received ==> unchanged(local) && unchanged(remote)
    ensures NormalizeUrl(peer) != "" && received ==>
              local.Contents() == Pulled(old(local.Contents()), old(remote.Contents()), pulledAt) && CountsOk(local.Contents())
    ensures NormalizeUrl(peer) != "" && received && !delivered ==> unchanged(remote)
    ensures NormalizeUrl(peer) != "" && received && delivered ==>
              && remote.Contents() == Pushed(old(local.Contents()), old(remote.Contents()), pulledAt, now)
              && CountsOk(remote.Contents())
    ensures NormalizeUrl(peer) != "" && received && delivered && TokensSet(old(local.Contents())) && TokensSet(old(remote.Contents())) ==>
              (local.nodes == remote.nodes && local.clients == remote.clients && local.proxies == remote.proxies
               <==> Reconcilable(old(local.Contents()), old(remote.Contents())))
  {
    hide Replicas.MergeState, CountsOk, Reconcilable, MergedInOrder, NormalizeUrl;
    var url := NormalizeUrl(peer);
    if url == "" {
      return true;
    }
    if !received {
      return false;
    }
    ghost var a, b := local.Contents(), remote.Contents();
    var _, _, _, _ := local.MergeState(remote.Contents(), remote.peers, remote.events, url, pulledAt);
    if delivered {
      var _, _, _, _ := remote.MergeState(local.Contents(), local.peers, local.events, publicUrl, now);
      if TokensSet(a) && TokensSet(b) {
        ExchangeEqualisesIff(a, b, pulledAt, now);
      }
    }
    ok := answered;
  }

  /** A broken exchange can be repeated: after a pull alone, the next whole exchange ends as the first would have. */
  lemma RetryConverges(a: State, b: State, first: Time, pulledAt: Time, now: Time, k: Key)
    requires KeyedById(a) && KeyedById(b) && TokensSet(a) && TokensSet(b)
    ensures Reg(Pulled(Pulled(a, b, first), b, pulledAt), k) == Reg(Pulled(a, b, pulledAt), k)
    ensures Reg(Pushed(Pulled(a, b, first), b, pulledAt, now), k) == Reg(Pushed(a, b, pulledAt, now), k)
  {
    MergeKeepsTokensSet(a, b, first);
    MergeKeepsTokensSet(a, b, pulledAt);
    MergeKeepsTokensSet(Pulled(a, b, first), b, pulledAt);
    hide Reg, TokensSet, KeyedById, CountsOk;
    MergeIsLater(a, b, first, k);
    MergeIsLater(a, b, pulledAt, k);
    MergeIsLater(Pulled(a, b, first), b, pulledAt, k);
    MergeIsLater(b, Pulled(a, b, pulledAt), now, k);
    MergeIsLater(b, Pulled(Pulled(a, b, first), b, pulledAt), now, k);
  }
}
