/** Committees of a resharing (pkg/mpc/ecdsa/resharing.go, pkg/mpc/eddsa/resharing.go, pkg/mpc/node.go): who subscribes
    to whom, and which sessions a direct message reaches when nodes sit in both committees. */
module Resharing {
  import opened GoStrings
  import opened PartyId
  import opened Node
  import opened Topics
  import opened Session
  import opened Subscriptions

  /** outgoing holds the ready participants of the current key at this version; incoming the requested committee. */
  datatype Reshare = Reshare(
    curve: Curve, wallet: string, version: int, attempt: nat, outgoing: seq<GoString>, incoming: seq<GoString>)

  function OldInfo(c: Reshare, n: GoString): Info {
    Info(n, PartyKey(n, c.version), Protocol.Resharing, c.curve, c.wallet, "", c.attempt)
  }

  function NewInfo(c: Reshare, n: GoString): Info {
    Info(n, PartyKey(n, c.version + 1), Protocol.Resharing, c.curve, c.wallet, "", c.attempt)
  }

  function NodesOf(keys: seq<nat>): (ns: seq<string>)
    ensures |ns| == |keys| && forall i :: 0 <= i < |keys| ==> ns[i] == NodeOf(keys[i])
  {
    seq(|keys|, i requires 0 <= i < |keys| => NodeOf(keys[i]))
  }

  function Difference(a: seq<string>, b: seq<string>): seq<string> {
    if a == [] then [] else (if a[0] in b then [] else [a[0]]) + Difference(a[1..], b)
  }

  /** The senders a session listens to: its own committee, and for a new member the legacy peers as well. */
  function OldSenders(c: Reshare): seq<string> {
    NodesOf(SessionKeys(c.outgoing, c.version))
  }

  function NewSenders(c: Reshare): seq<string> {
    NodesOf(SessionKeys(c.incoming, c.version + 1)) + Difference(OldSenders(c), c.incoming)
  }

  /** GetLegacyCommitteePeers. */
  method GetLegacyCommitteePeers(oldPeerIDs: seq<string>, newPeerIDs: seq<string>) returns (result: seq<string>)
    ensures result == Difference(oldPeerIDs, newPeerIDs)
  {
    var seen: map<string, bool> := map[];
    for i := 0 to |newPeerIDs|
      invariant seen.Keys == Set(newPeerIDs[..i])
    {
      assert newPeerIDs[..i + 1] == newPeerIDs[..i] + [newPeerIDs[i]];
      seen := seen[newPeerIDs[i] := true];
    }
    assert newPeerIDs[..|newPeerIDs|] == newPeerIDs;
    result := [];
    for i := 0 to |oldPeerIDs|
      invariant result + Difference(oldPeerIDs[i..], newPeerIDs) == Difference(oldPeerIDs, newPeerIDs)
    {
      assert oldPeerIDs[i..][1..] == oldPeerIDs[i + 1..];
      assert oldPeerIDs[i] in Set(newPeerIDs) <==> oldPeerIDs[i] in newPeerIDs;
      if oldPeerIDs[i] !in seen {
        result := result + [oldPeerIDs[i]];
      }
    }
  }

  lemma {:induction false} DifferenceIs(a: seq<string>, b: seq<string>)
    ensures forall x :: x in Difference(a, b) <==> x in a && x !in b
    ensures Distinct(a) ==> Distinct(Difference(a, b))
  {
    if a != [] {
      DifferenceIs(a[1..], b);
      assert a == [a[0]] + a[1..];
    }
  }

  /** The difference keeps the order of the first list. */
  lemma {:induction false} DifferenceOrder(a: seq<string>, b: seq<string>) returns (at: seq<nat>)
    ensures Picks(at, a, Difference(a, b))
  {
    at := [];
    if a != [] {
      hide Picks;
      var rest := DifferenceOrder(a[1..], b);
      var later := PicksLater(rest, a, Difference(a[1..], b));
      at := if a[0] in b then later else [0] + later;
      assert [] + Difference(a[1..], b) == Difference(a[1..], b);
    }
  }

  ghost predicate GoodReshare(c: Reshare) {
    && PlainDistinct(c.outgoing) && PlainDistinct(c.incoming)
    && (forall n :: n in c.outgoing || n in c.incoming ==> n != "")
  }

  /** Decoding the ordered session keys yields each member once. */
  lemma SessionNodes(ids: seq<GoString>, version: int)
    requires PlainDistinct(ids)
    ensures Distinct(NodesOf(SessionKeys(ids, version)))
    ensures forall n :: n in NodesOf(SessionKeys(ids, version)) <==> n in ids
  {
    var ks := SessionKeys(ids, version);
    forall k | k in ks
      ensures NodeOf(k) in ids && k == PartyKey(NodeOf(k), version)
    {
      SessionKeysAre(ids, version, k);
      var id :| id in ids && PartyKey(id, version) == k;
      PartyKeyRoundTrip(id, version);
    }
    forall i, j | 0 <= i < j < |ks|
      ensures NodeOf(ks[i]) != NodeOf(ks[j])
    {
      SessionKeysStrict(ids, version, i, j);
      assert ks[i] in ks && ks[j] in ks;
    }
    forall n | n in ids
      ensures n in NodesOf(ks)
    {
      SessionKeysAre(ids, version, PartyKey(n, version));
      var i :| 0 <= i < |ks| && ks[i] == PartyKey(n, version);
      PartyKeyRoundTrip(n, version);
      assert NodesOf(ks)[i] == n;
    }
  }

  lemma DistinctConcat(a: seq<string>, b: seq<string>)
    requires Distinct(a) && Distinct(b) && forall x :: x in a ==> x !in b
    ensures Distinct(a + b)
  {
    var s := a + b;
    forall i, j | 0 <= i < j < |s|
      ensures s[i] != s[j]
    {
      if i < |a| && j >= |a| {
        assert s[i] in a && s[j] in b;
      }
    }
  }

  /** A new member listens to every node of both committees exactly once. A continuing or leaving member, in its
      old session, listens exactly to the old committee: every possible sender is covered if and only if the new
      committee brings in nobody. */
  lemma ResharingSubscriptions(c: Reshare)
    requires GoodReshare(c)
    ensures Distinct(NewSenders(c)) && forall n :: n in NewSenders(c) <==> n in c.outgoing || n in c.incoming
    ensures Distinct(OldSenders(c)) && forall n :: n in OldSenders(c) <==> n in c.outgoing
    ensures (forall n :: n in c.outgoing || n in c.incoming ==> n in OldSenders(c))
            <==> (forall n :: n in c.incoming ==> n in c.outgoing)
  {
    hide SessionKeys, NodeOf;
    var a, b := NodesOf(SessionKeys(c.incoming, c.version + 1)), Difference(OldSenders(c), c.incoming);
    SessionNodes(c.outgoing, c.version);
    SessionNodes(c.incoming, c.version + 1);
    DifferenceIs(OldSenders(c), c.incoming);
    DistinctConcat(a, b);
  }

  /** No party key of one committee is a party key of the other, however much their nodes overlap. */
  lemma CommitteesDisjoint(c: Reshare, k: nat)
    requires GoodReshare(c)
    ensures !(k in SessionKeys(c.outgoing, c.version) && k in SessionKeys(c.incoming, c.version + 1))
  {
    SessionKeysAre(c.outgoing, c.version, k);
    SessionKeysAre(c.incoming, c.version + 1, k);
    if k in SessionKeys(c.outgoing, c.version) && k in SessionKeys(c.incoming, c.version + 1) {
      var a :| a in c.outgoing && PartyKey(a, c.version) == k;
      var b :| b in c.incoming && PartyKey(b, c.version + 1) == k;
      PartyKeyInjective(a, c.version, b, c.version + 1);
    }
  }

  // ---------- exactness ----------

  /** Two sessions of one kind: their subscriptions to each other are those by sender name. */
  lemma SubscriptionsByName(net: Net, s: nat, r: nat)
    requires WellFormed(net) && s < |net.sessions| && r < |net.sessions|
    ensures var i, j := net.sessions[s], net.sessions[r];
            SubsTo(net, s, r) ==
            if !SameTopics(i, j) then 0
            else if i.node == j.node then LocalSubs(net, r, i.node) else LiveSubs(net, r, i.node)
  {
    var i, j := net.sessions[s], net.sessions[r];
    assert NodeOf(i.key) == i.node && NodeOf(j.key) == j.node;
    var t := TopicOf(i, i.node, j.node);
    if !SameTopics(i, j) && r in Reached(net, s, j.key) {
      assert ComposedBy(net.sessions, r, t) by {
        assert i.node == j.node ==> HandledBy(net.sessions, r, (i.node, t));
      }
      var f: string :| ':' !in f && t == TopicOf(j, f, j.node);
      TopicInjective(i.protocol, i.curve, i.node, j.node, TopicId(i), j.protocol, j.curve, f, j.node, TopicId(j));
    }
  }

  /** A session that listens to these senders takes a message once for each addressee on its node if its own key is
      addressed, it listens to the sender and shares a key with it, and not at all otherwise. */
  lemma ListenerExactness(net: Net, s: nat, msg: Message, r: nat, froms: seq<string>)
    requires WellFormed(net) && s < |net.sessions| && ListensTo(net, r, froms)
    requires SameTopics(net.sessions[s], net.sessions[r])
    ensures Updates(DeliverAll(net, s, msg.to, msg), r)
         == if net.sessions[r].key in msg.to && net.sessions[s].node in froms
               && Channel(net, net.sessions[s].node, net.sessions[r].node) then Hits(msg.to, net.sessions[r].node) else 0
  {
    hide WellFormed, LiveSubs, LocalSubs, NodeOf, Hits, DeliverAll, Updates, Channel, SubsTo;
    DirectExactness(net, s, msg, r);
    SubscriptionsByName(net, s, r);
    OwnNode(net, s);
    var i, j := net.sessions[s].node, net.sessions[r].node;
    assert SubsTo(net, s, r) == if i in froms then 1 else 0;
  }

  /** A message to both parties of a node hits it twice. */
  lemma BothPartiesHit(n: GoString, version: int, tos: seq<nat>)
    requires Plain(n) && PartyKey(n, version) in tos && PartyKey(n, version + 1) in tos
    ensures Hits(tos, n) >= 2
  {
    hide NodeOf, PartyKey, TrimSpace;
    PartyKeyRoundTrip(n, version);
    PartyKeyRoundTrip(n, version + 1);
    HitsCount(tos, n);
    var i :| 0 <= i < |tos| && tos[i] == PartyKey(n, version);
    var j :| 0 <= j < |tos| && tos[j] == PartyKey(n, version + 1);
    if i == j {
      PartyKeyInjective(n, version, n, version + 1);
    }
    assert i < j || j < i;
  }

  /** The addressees of a message to both committees. */
  function BothCommittees(c: Reshare): seq<nat> {
    SessionKeys(c.outgoing, c.version) + SessionKeys(c.incoming, c.version + 1)
  }

  lemma {:induction false} HitsOfKeys(ks: seq<nat>, n: string)
    requires Distinct(NodesOf(ks))
    ensures Hits(ks, n) == if n in NodesOf(ks) then 1 else 0
  {
    hide NodeOf;
    HitsCount(ks, n);
    var ns := NodesOf(ks);
    if n in ns {
      var i :| 0 <= i < |ns| && ns[i] == n;
      assert NodeOf(ks[i]) == n;
    }
    forall i, j | 0 <= i < j < |ks|
      ensures !(NodeOf(ks[i]) == n && NodeOf(ks[j]) == n)
    {
      assert ns[i] != ns[j];
    }
  }

  lemma HitsOfSession(ids: seq<GoString>, version: int, n: string)
    requires PlainDistinct(ids)
    ensures Hits(SessionKeys(ids, version), n) == if n in ids then 1 else 0
  {
    hide SessionKeys, Distinct, NodesOf, PlainDistinct, Hits;
    SessionNodes(ids, version);
    HitsOfKeys(SessionKeys(ids, version), n);
  }

  lemma GoodCommittees(c: Reshare)
    requires GoodReshare(c)
    ensures PlainDistinct(c.outgoing) && PlainDistinct(c.incoming)
  {
  }

  /** A message to both committees hits a node once for each committee it is in. */
  lemma HitsOfBothCommittees(c: Reshare, n: string)
    requires GoodReshare(c)
    ensures Hits(BothCommittees(c), n) == (if n in c.outgoing then 1 else 0) + (if n in c.incoming then 1 else 0)
  {
    hide SessionKeys, PlainDistinct, Hits;
    GoodCommittees(c);
    hide GoodReshare;
    HitsOfSession(c.outgoing, c.version, n);
    HitsOfSession(c.incoming, c.version + 1, n);
    HitsConcat(SessionKeys(c.outgoing, c.version), SessionKeys(c.incoming, c.version + 1), n);
  }

  /** A member that is new to the wallet cannot reach an old session: the message is dropped. */
  lemma NewcomerNotHeard(c: Reshare, n: GoString, net: Net, s: nat, msg: Message, r: nat)
    requires GoodReshare(c) && WellFormed(net)
    requires n in c.outgoing && ListensTo(net, r, OldSenders(c)) && net.sessions[r] == OldInfo(c, n)
    requires s < |net.sessions| && SameTopics(net.sessions[s], net.sessions[r])
    requires net.sessions[s].node in c.incoming && net.sessions[s].node !in c.outgoing
    ensures Updates(DeliverAll(net, s, msg.to, msg), r) == 0
  {
    ResharingSubscriptions(c);
    ListenerExactness(net, s, msg, r, OldSenders(c));
  }

  // ---------- sessions that were closed ----------

  /** A closed session still takes what its own node sends to itself under its party key, and nothing else. */
  lemma ClosedSessionUpdates(net: Net, s: nat, msg: Message, r: nat)
    requires WellFormed(net) && s < |net.sessions| && Gone(net, r)
    ensures Updates(DeliverAll(net, s, msg.to, msg), r)
         == if net.sessions[r].key in msg.to && net.sessions[r].node == net.sessions[s].node
               && SameTopics(net.sessions[s], net.sessions[r])
            then Hits(msg.to, net.sessions[r].node) * LocalSubs(net, r, net.sessions[s].node) else 0
    ensures net.sessions[r].key in msg.to ==> Hits(msg.to, net.sessions[r].node) >= 1
  {
    hide WellFormed, LiveSubs, LocalSubs, NodeOf, Hits, DeliverAll, Updates, SubsTo;
    DirectExactness(net, s, msg, r);
    SubscriptionsByName(net, s, r);
    OwnNode(net, s);
    var i, j := net.sessions[s].node, net.sessions[r].node;
    assert i == j ==> Channel(net, i, j);
    hide Channel, KeyFor;
    assert SubsTo(net, s, r) == if SameTopics(net.sessions[s], net.sessions[r]) && i == j then LocalSubs(net, r, i) else 0;
  }

  /** A send leaves all closed sessions alone if and only if none of them has a handler on the sender's own topic
      and a party key among the addressees. */
  lemma ClosedUntouchedIff(net: Net, s: nat, msg: Message, closed: set<nat>)
    requires WellFormed(net) && s < |net.sessions|
    requires forall r: nat :: r in closed ==> Gone(net, r)
    ensures (forall r :: r in closed ==> Updates(DeliverAll(net, s, msg.to, msg), r) == 0)
            <==>
            (forall r :: r in closed && r < |net.sessions| && net.sessions[r].node == net.sessions[s].node
                         && SameTopics(net.sessions[s], net.sessions[r]) && net.sessions[r].key in msg.to
               ==> LocalSubs(net, r, net.sessions[s].node) == 0)
  {
    hide Updates, DeliverAll, LocalSubs, WellFormed, Hits;
    forall r | r in closed
      ensures r < |net.sessions|
      ensures Updates(DeliverAll(net, s, msg.to, msg), r) == 0
          <==> !(net.sessions[r].key in msg.to && net.sessions[r].node == net.sessions[s].node
                 && SameTopics(net.sessions[s], net.sessions[r]) && LocalSubs(net, r, net.sessions[s].node) != 0)
    {
      ClosedSessionUpdates(net, s, msg, r);
      NonZero(Hits(msg.to, net.sessions[r].node), LocalSubs(net, r, net.sessions[s].node));
    }
  }

  lemma NonZero(h: nat, n: nat)
    ensures h >= 1 ==> (h * n == 0 <==> n == 0)
  {
  }

  lemma InfoIsGood(n: GoString, version: int, p: Protocol, curve: Curve, wallet: string, tx: string, attempt: nat)
    requires Plain(n) && n != ""
    ensures GoodInfo(Info(n, PartyKey(n, version), p, curve, wallet, tx, attempt))
  {
    PartyKeyRoundTrip(n, version);
  }

  /** One node, two resharings of one wallet in a row: the new session of the first is opened and closed, then both
      sessions of the second are opened. */
  function TwoReshares(net: Net, c: Reshare, d: Reshare, n: GoString): Net {
    var first := Closed(Opened(net, NewInfo(c, n), NewSenders(c)), |net.sessions|);
    Opened(Opened(first, OldInfo(d, n), OldSenders(d)), NewInfo(d, n), NewSenders(d))
  }

  /** Exactness fails across consecutive resharings: what the new session sends to the old party of its own node
      updates the old session and, a second time, the closed session of the earlier resharing. */
  lemma StaleSessionAccepts(net: Net, c: Reshare, d: Reshare, n: GoString, body: string)
    requires WellFormed(net) && GoodReshare(c) && GoodReshare(d)
    requires d.version == c.version + 1 && d.curve == c.curve && d.wallet == c.wallet
    requires n in c.incoming && n in d.outgoing && n in d.incoming
    ensures var after := TwoReshares(net, c, d, n);
            var stale, oldRef, newRef := |net.sessions|, |net.sessions| + 1, |net.sessions| + 2;
            var msg := Message(PartyKey(n, d.version + 1), [PartyKey(n, d.version)], body);
            && WellFormed(after) && Gone(after, stale)
            && Updates(DeliverAll(after, newRef, msg.to, msg), oldRef) == 1
            && Updates(DeliverAll(after, newRef, msg.to, msg), stale) == 1
  {
    hide WellFormed, DeliverAll, Updates, PartyKey, OldSenders, NewSenders, NodeOf, Opened, Closed, TrimSpace, LiveSubs, LocalSubs;
    var stale, oldRef, newRef := |net.sessions|, |net.sessions| + 1, |net.sessions| + 2;
    ResharingSubscriptions(c);
    ResharingSubscriptions(d);
    InfoIsGood(n, d.version, Protocol.Resharing, d.curve, d.wallet, "", d.attempt);
    InfoIsGood(n, d.version + 1, Protocol.Resharing, d.curve, d.wallet, "", d.attempt);
    var n1 := Opened(net, NewInfo(c, n), NewSenders(c));
    OpenedListens(net, NewInfo(c, n), NewSenders(c));
    var n2 := Closed(n1, stale);
    ClosedIsGone(n1, stale);
    var n3 := Opened(n2, OldInfo(d, n), OldSenders(d));
    OpenedListens(n2, OldInfo(d, n), OldSenders(d));
    var n4 := Opened(n3, NewInfo(d, n), NewSenders(d));
    OpenedListens(n3, NewInfo(d, n), NewSenders(d));
    assert LocalSubs(n4, stale, n) == LocalSubs(n1, stale, n) == 1;
    var msg := Message(PartyKey(n, d.version + 1), [PartyKey(n, d.version)], body);
    ListenerExactness(n4, newRef, msg, oldRef, OldSenders(d));
    ClosedSessionUpdates(n4, newRef, msg, stale);
    PartyKeyRoundTrip(n, d.version);
    assert Hits(msg.to, n) == 1;
  }
}
