/** Join tokens (internal/control/token.go:25-71, internal/control/store.go:371-387). */
module Tokens {
  import opened Text
  import opened Cluster
  import opened Sorting
  import opened StringLists

  const DEFAULT_TTL := 120 * MINUTE

  function NewToken(value: string, ttl: int, uses: int, now: Time): JoinToken {
    JoinToken(value, if uses <= 0 then 1 else uses, now + (if ttl <= 0 then DEFAULT_TTL else ttl), now, [])
  }

  predicate Expired(t: JoinToken, now: Time) { now >= t.expiresAt }

  function Used(t: JoinToken, nodeId: string): JoinToken {
    t.(usesLeft := t.usesLeft - 1, usedBy := t.usedBy + [nodeId])
  }

  /** Whether a join with this token is let in, and what becomes of the tokens. */
  function Consume(tokens: map<string, JoinToken>, value: string, nodeId: string, now: Time): (map<string, JoinToken>, Option<Error>) {
    if value !in tokens then (tokens, Some(InvalidToken))
    else if Expired(tokens[value], now) then (tokens - {value}, Some(TokenExpired))
    else if tokens[value].usesLeft <= 0 then (tokens, Some(TokenUsed))
    else (tokens[value := Used(tokens[value], nodeId)], None)
  }

  predicate LooksNewer(remote: JoinToken, local: JoinToken) {
    remote.usesLeft < local.usesLeft || |remote.usedBy| > |local.usedBy| || remote.expiresAt < local.expiresAt
  }

  /** The merge of a known token with a live remote copy. */
  ghost function MergeToken(local: JoinToken, remote: JoinToken): JoinToken {
    if LooksNewer(remote, local)
    then local.(usesLeft := remote.usesLeft, expiresAt := remote.expiresAt,
                usedBy := SortedStrings(Normalized(local.usedBy, TrimSpace) + Normalized(remote.usedBy, TrimSpace)))
    else local
  }

  ghost function MergeTokens(local: map<string, JoinToken>, remote: map<string, JoinToken>, now: Time): map<string, JoinToken> {
    map v | v in local.Keys + remote.Keys && (v in local || !Expired(remote[v], now)) ::
      if v !in remote || Expired(remote[v], now) then local[v]
      else if v !in local then remote[v]
      else MergeToken(local[v], remote[v])
  }

  /** The merge, one remote token at a time. */
  lemma MergeTokensStep(local: map<string, JoinToken>, remote: map<string, JoinToken>, todo: set<string>, v: string, now: Time)
    requires v in todo && v in remote
    ensures var m := MergeTokens(local, remote - todo, now);
            && Lookup(m, v) == Lookup(local, v)
            && MergeTokens(local, remote - (todo - {v}), now) ==
                 if Expired(remote[v], now) then m
                 else m[v := if v in local then MergeToken(local[v], remote[v]) else remote[v]]
  {
    hide MergeToken, Expired;
    var more := remote - (todo - {v});
    assert more == (remote - todo)[v := remote[v]];
  }

  /** One merge hands uses back exactly when the remote copy has more of them and yet looks newer,
      by its users or by an earlier expiry. */
  lemma MergeRaisesIff(local: JoinToken, remote: JoinToken)
    ensures MergeToken(local, remote).usesLeft > local.usesLeft <==>
            remote.usesLeft > local.usesLeft && (|remote.usedBy| > |local.usedBy| || remote.expiresAt < local.expiresAt)
  {}

  /** The copy's part of Consume and of MergeTokens. */
  function ConsumeCopy(c: Option<JoinToken>, nodeId: string, now: Time): Option<JoinToken> {
    if c.None? || Expired(c.value, now) then None
    else if c.value.usesLeft <= 0 then c
    else Some(Used(c.value, nodeId))
  }

  ghost function MergeCopy(c: Option<JoinToken>, t: JoinToken, now: Time): Option<JoinToken> {
    if Expired(t, now) then c else if c.None? then Some(t) else Some(MergeToken(c.value, t))
  }

  /** The two functions on copies are what the maps of tokens undergo at one key. */
  lemma CopiesOfMaps(tokens: map<string, JoinToken>, remote: map<string, JoinToken>, value: string, nodeId: string, now: Time)
    ensures Lookup(Consume(tokens, value, nodeId, now).0, value) == ConsumeCopy(Lookup(tokens, value), nodeId, now)
    ensures value in remote ==>
              Lookup(MergeTokens(tokens, remote, now), value) == MergeCopy(Lookup(tokens, value), remote[value], now)
    ensures value !in remote ==> Lookup(MergeTokens(tokens, remote, now), value) == Lookup(tokens, value)
  {}

  lemma SortedSingleton(x: string)
    ensures SortedStrings({x}) == [x]
  {
    var s := SortedStrings({x});
    assert |s| == 1 && s[0] in Elements(s);
  }

  /** The shortest case: when one node joins three times with a token for three, a replica that has seen
      all three joins is handed a use back by an older copy. */
  lemma RepeatedJoinerRaises(value: string, a: string, ttl: int, now: Time)
    requires a != "" && SanitizedId(a)
    ensures var t0 := NewToken(value, ttl, 3, now);
            var t1, t2, t3 := Used(t0, a), Used(Used(t0, a), a), Used(Used(Used(t0, a), a), a);
            var b := MergeToken(MergeToken(t0, t1), t3);
            b.usesLeft == 0 && MergeToken(b, t2).usesLeft == 1
  {
    SanitizedHasNoSpace(a);
    var t0 := NewToken(value, ttl, 3, now);
    var t1, t2, t3 := Used(t0, a), Used(Used(t0, a), a), Used(Used(Used(t0, a), a), a);
    assert t1.usedBy == [a] && t2.usedBy == [a, a] && t3.usedBy == [a, a, a];
    assert Normalized([a], TrimSpace) == {a} && Normalized([a, a, a], TrimSpace) == {a};
    var none: seq<string> := [];
    assert Normalized(none, TrimSpace) == {};
    assert {} + {a} == {a} == {a} + {a};
    SortedSingleton(a);
  }

  ghost predicate Names(U: set<string>) { forall n :: n in U ==> n != "" && SanitizedId(n) }

  lemma FewerNames(U: set<string>, V: set<string>)
    requires Names(V) && U <= V
    ensures Names(U)
  {}

  lemma MergedPair(local: JoinToken, remote: JoinToken, U: set<string>)
    requires LooksNewer(remote, local) && U == Elements(local.usedBy) + Elements(remote.usedBy) && Names(U)
    ensures var m := MergeToken(local, remote); m.usesLeft == remote.usesLeft && |m.usedBy| == |U|
  {
    forall x | x in U ensures TrimSpace(x) == x { SanitizedHasNoSpace(x); }
    assert forall x :: x in local.usedBy || x in remote.usedBy ==> x in U;
    assert Normalized(local.usedBy, TrimSpace) + Normalized(remote.usedBy, TrimSpace) == U;
    var s := SortedStrings(U);
  }

  /** Nobody joins twice, and two replicas suffice: B admits two nodes and A three; B merges A's copy, A
      admits a fourth one, merges B's copy, and gets a use back. */
  lemma TwoReplicasRaise(t: JoinToken, m1: string, m2: string, n1: string, n2: string, n3: string, n4: string)
    requires t.usedBy == [] && |{m1, m2, n1, n2, n3, n4}| == 6 && Names({m1, m2, n1, n2, n3, n4})
    ensures var a3 := Used(Used(Used(t, n1), n2), n3);
            var b := MergeToken(Used(Used(t, m1), m2), a3);
            var a4 := Used(a3, n4);
            b.usesLeft == t.usesLeft - 3 && |b.usedBy| == 5 && MergeToken(a4, b).usesLeft == a4.usesLeft + 1
  {
    var b2, a3 := Used(Used(t, m1), m2), Used(Used(Used(t, n1), n2), n3);
    assert b2.usedBy == [m1, m2] && a3.usedBy == [n1, n2, n3];
    assert Elements([m1, m2]) == {m1, m2} && Elements([n1, n2, n3]) == {n1, n2, n3};
    var U := {m1, m2, n1, n2, n3};
    assert {m1, m2, n1, n2, n3, n4} == U + {n4};
    FewerNames(U, U + {n4});
    hide Names, SortedStrings, Normalized;
    MergedPair(b2, a3, U);
    MergeRaisesIff(Used(a3, n4), MergeToken(b2, a3));
  }

  /** One repeated join suffices with two replicas: A admits x, y and x again, B admits z and merges A's
      second copy, and a replica that has A's last copy gets a use back from B's. */
  lemma OneRepeatRaises(t: JoinToken, x: string, y: string, z: string)
    requires t.usedBy == [] && |{x, y, z}| == 3 && Names({x, y, z})
    ensures var a2 := Used(Used(t, x), y);
            var c, b := MergeToken(t, Used(a2, x)), MergeToken(Used(t, z), a2);
            c.usesLeft == t.usesLeft - 3 && MergeToken(c, b).usesLeft == c.usesLeft + 1
  {
    var a2, b1 := Used(Used(t, x), y), Used(t, z);
    assert a2.usedBy == [x, y] && Used(a2, x).usedBy == [x, y, x] && b1.usedBy == [z];
    UsersOf(x, y, z);
    hide Names, SortedStrings, Normalized, Elements, MergeToken;
    MergedPair(t, Used(a2, x), {x, y});
    MergedPair(b1, a2, {x, y, z});
    MergeRaisesIff(MergeToken(t, Used(a2, x)), MergeToken(b1, a2));
  }

  lemma UsersOf(x: string, y: string, z: string)
    requires |{x, y, z}| == 3 && Names({x, y, z})
    ensures Elements([]) + Elements([x, y, x]) == {x, y} && Elements([z]) + Elements([x, y]) == {x, y, z}
    ensures |{x, y}| == 2 && Names({x, y})
  {
    assert {x, y, z} == {x, y} + {z};
  }
}
