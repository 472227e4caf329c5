/** Isolation between runs of the protocols. Topics carry the wallet or, when signing, the transaction, and party keys the
    node and version; nothing tells apart two wallets that sign under one transaction, or a retry from the open sessions
    of a failed attempt. */
module Isolation {
  import opened GoStrings
  import opened PartyId
  import opened Topics
  import opened Session
  import opened Routing
  import Resharing

  /** Session r is open and belongs to another run than session s. */
  ghost predicate Foreign(t: State, s: nat, r: nat) {
    s < |t.net.sessions| && r < |t.net.sessions| && r < |t.froms| && r !in t.over && !SameRun(t.net.sessions[s], t.net.sessions[r])
  }

  // ---------- one message ----------

  /** A message updates no open session of another run if and only if no such session has the same topics, a party key
      among the addressees, the sender among those it listens to and a channel with it. */
  lemma MessageIsolationIff(acts: seq<Action>, s: nat, msg: Message)
    requires Run(acts).Some? && s < |Run(acts).value.net.sessions|
    ensures var t := Run(acts).value;
            (forall r: nat :: Foreign(t, s, r) ==> Updates(DeliverAll(t.net, s, msg.to, msg), r) == 0)
            <==> (forall r: nat :: Foreign(t, s, r) ==> !Heeds(t, s, msg, r))
  {
    hide Run, Updates, DeliverAll, Heeds, Hits, SameRun;
    var t := Run(acts).value;
    forall r: nat | Foreign(t, s, r)
      ensures Updates(DeliverAll(t.net, s, msg.to, msg), r) == 0 <==> !Heeds(t, s, msg, r)
    {
      RoutingExactness(acts, s, msg, r);
      HeedsIsAddressed(t, s, msg, r);
    }
  }

  lemma HeedsIsAddressed(t: State, s: nat, msg: Message, r: nat)
    requires s < |t.net.sessions| && r < |t.net.sessions| && r < |t.froms|
    ensures Heeds(t, s, msg, r) ==> t.net.sessions[r].key in msg.to
  {
    hide Channel;
  }

  // ---------- all messages of a run ----------

  /** The key belongs to a plain node at one of these versions. */
  ghost predicate HasVersion(key: nat, versions: set<int>) {
    exists id: GoString, v :: Plain(id) && v in versions && PartyKey(id, v) == key
  }

  /** What a run at these versions sends: one version for keygen and signing, two for resharing. */
  ghost predicate OfVersions(msg: Message, versions: set<int>) {
    forall k :: k in msg.to ==> HasVersion(k, versions)
  }

  lemma HasVersionIff(n: GoString, u: int, versions: set<int>)
    requires Plain(n)
    ensures HasVersion(PartyKey(n, u), versions) <==> u in versions
  {
    hide PartyKey, TrimSpace;
    if id: GoString, v :| Plain(id) && v in versions && PartyKey(id, v) == PartyKey(n, u) {
      PartyKeyInjective(id, v, n, u);
    }
  }

  /** Whether some message of a run at these versions, sent by session s, reaches session r. */
  ghost predicate InReach(t: State, s: nat, r: nat, versions: set<int>)
    requires s < |t.net.sessions| && r < |t.net.sessions| && r < |t.froms|
  {
    && SameTopics(t.net.sessions[s], t.net.sessions[r])
    && t.net.sessions[s].node in t.froms[r]
    && Channel(t.net, t.net.sessions[s].node, t.net.sessions[r].node)
    && HasVersion(t.net.sessions[r].key, versions)
  }

  lemma InReachIff(acts: seq<Action>, s: nat, r: nat, versions: set<int>)
    requires Run(acts).Some? && s < |Run(acts).value.net.sessions| && r < |Run(acts).value.net.sessions|
    requires r !in Run(acts).value.over
    ensures r < |Run(acts).value.froms|
    ensures var t := Run(acts).value;
            InReach(t, s, r, versions) <==>
            exists msg :: OfVersions(msg, versions) && Updates(DeliverAll(t.net, s, msg.to, msg), r) != 0
  {
    hide Run, Updates, DeliverAll, Hits, HasVersion, Channel, SameTopics;
    var t := Run(acts).value;
    var probe := Message(0, [t.net.sessions[r].key], "");
    RoutingExactness(acts, s, probe, r);
    if InReach(t, s, r, versions) {
      assert OfVersions(probe, versions) && Updates(DeliverAll(t.net, s, probe.to, probe), r) != 0;
    }
    if msg :| OfVersions(msg, versions) && Updates(DeliverAll(t.net, s, msg.to, msg), r) != 0 {
      RoutingExactness(acts, s, msg, r);
      assert Heeds(t, s, msg, r);
    }
  }

  /** At any point of any history, no message that session s can send at these versions updates an open session of
      another run if and only if none of these is in reach: each has other topics or a key of another version, or does
      not listen to the sender, or has no channel with it. */
  lemma RunIsolationIff(acts: seq<Action>, s: nat, versions: set<int>)
    requires Run(acts).Some? && s < |Run(acts).value.net.sessions|
    ensures var t := Run(acts).value;
            (forall r: nat, msg :: Foreign(t, s, r) && OfVersions(msg, versions) ==> Updates(DeliverAll(t.net, s, msg.to, msg), r) == 0)
            <==> (forall r: nat :: Foreign(t, s, r) ==> !InReach(t, s, r, versions))
  {
    hide Run, Updates, DeliverAll, InReach, OfVersions, SameRun;
    var t := Run(acts).value;
    forall r: nat | Foreign(t, s, r)
      ensures InReach(t, s, r, versions)
          <==> exists msg :: OfVersions(msg, versions) && Updates(DeliverAll(t.net, s, msg.to, msg), r) != 0
    {
      InReachIff(acts, s, r, versions);
    }
  }

  // ---------- two wallets, one transaction ----------

  function SigningInfo(c: Curve, wallet: string, tx: string, version: int, n: GoString, attempt: nat): Info {
    Info(n, PartyKey(n, version), Signing, c, wallet, tx, attempt)
  }

  /** Two signing sessions of any wallets, the second open: the first one's messages never reach the second if and only
      if the transactions or the versions differ, or there is no subscription or no channel. The wallets play no part. */
  lemma SigningIsolationIff(acts: seq<Action>, s: nat, r: nat, c: Curve, w: string, tx: string, v: int, m: GoString, a: nat,
                            w': string, tx': string, u: int, n: GoString, b: nat)
    requires Run(acts).Some? && s < |Run(acts).value.net.sessions| && r < |Run(acts).value.net.sessions|
    requires r !in Run(acts).value.over && Plain(n)
    requires Run(acts).value.net.sessions[s] == SigningInfo(c, w, tx, v, m, a)
    requires Run(acts).value.net.sessions[r] == SigningInfo(c, w', tx', u, n, b)
    ensures r < |Run(acts).value.froms|
    ensures var t := Run(acts).value;
            (forall msg :: OfVersions(msg, {v}) ==> Updates(DeliverAll(t.net, s, msg.to, msg), r) == 0)
            <==> tx != tx' || v != u || m !in t.froms[r] || !Channel(t.net, m, n)
  {
    hide Run, Updates, DeliverAll, OfVersions, HasVersion, Channel, PartyKey, Plain;
    InReachIff(acts, s, r, {v});
    HasVersionIff(n, u, {v});
  }

  // ---------- a retry and the attempt before it ----------

  /** Session q does everything session r does, for another wallet or attempt. */
  ghost predicate Doubles(t: State, r: nat, q: nat) {
    && r < |t.net.sessions| && q < |t.net.sessions| && r < |t.froms| && q < |t.froms|
    && r !in t.over && q !in t.over
    && SameTopics(t.net.sessions[r], t.net.sessions[q])
    && t.net.sessions[r].node == t.net.sessions[q].node && t.net.sessions[r].key == t.net.sessions[q].key
    && forall f :: f in t.froms[r] <==> f in t.froms[q]
  }

  /** Such sessions take every message alike, whoever sends it. */
  lemma DoublesTakeAlike(acts: seq<Action>, r: nat, q: nat, s: nat, msg: Message)
    requires Run(acts).Some? && Doubles(Run(acts).value, r, q) && s < |Run(acts).value.net.sessions|
    ensures var t := Run(acts).value;
            Updates(DeliverAll(t.net, s, msg.to, msg), r) == Updates(DeliverAll(t.net, s, msg.to, msg), q)
  {
    hide Run, Updates, DeliverAll, Channel, Hits;
    RoutingExactness(acts, s, msg, r);
    RoutingExactness(acts, s, msg, q);
  }

  /** An attempt that failed leaves its session open. Whatever happens to other sessions in between, a retry at the same
      version opens a double of it. */
  lemma RetryDoubles(acts: seq<Action>, r: nat, attempt: nat) returns (more: seq<Action>)
    requires Run(acts).Some? && r < |Run(acts).value.net.sessions| && r !in Run(acts).value.over
    ensures r < |Run(acts).value.froms|
    ensures more == acts + [Open(Run(acts).value.net.sessions[r].(attempt := attempt), Run(acts).value.froms[r])]
    ensures Run(more).Some? && Doubles(Run(more).value, r, |Run(acts).value.net.sessions|)
  {
    hide Run, WellFormed, Registered, Inv, GoodSenders, GoodInfo;
    RunKeepsInv(acts);
    var t := Run(acts).value;
    Tracked(t, r);
    OwnNode(t.net, r);
    AttemptPlaysNoPart(t.net.sessions[r], attempt);
    CanOpen(acts, t.net.sessions[r].(attempt := attempt), t.froms[r]);
    more := acts + [Open(t.net.sessions[r].(attempt := attempt), t.froms[r])];
  }

  lemma AttemptPlaysNoPart(info: Info, attempt: nat)
    ensures GoodInfo(info.(attempt := attempt)) <==> GoodInfo(info)
    ensures SameTopics(info, info.(attempt := attempt))
  {
    hide NodeOf;
  }

  // ---------- the two inputs ----------

  /** Two wallets sign under one transaction at one version: session s for one of them on node m, session r for the other
      on node n. Any history can go on to this, and then a message that s addresses to n's party updates r. */
  lemma CrossTalk(acts: seq<Action>, c: Curve, w: string, w': string, tx: string, v: int, m: GoString, n: GoString, body: string)
    returns (more: seq<Action>)
    requires Run(acts).Some? && w != w' && Plain(m) && m != "" && Plain(n) && n != ""
    ensures Run(more).Some?
    ensures var t := Run(more).value; var s := |Run(acts).value.net.sessions|;
            var msg := Message(PartyKey(m, v), [PartyKey(n, v)], body);
            && |t.net.sessions| == s + 2 && Foreign(t, s, s + 1)
            && t.net.sessions[s] == SigningInfo(c, w, tx, v, m, 0) && t.net.sessions[s + 1] == SigningInfo(c, w', tx, v, n, 0)
            && Updates(DeliverAll(t.net, s, msg.to, msg), s + 1) == 1
  {
    hide Run, Updates, DeliverAll, PartyKey, Plain, NodeOf, GoodInfo;
    var i, j := SigningInfo(c, w, tx, v, m, 0), SigningInfo(c, w', tx, v, n, 0);
    SigningInfoIsGood(c, w, tx, v, m);
    SigningInfoIsGood(c, w', tx, v, n);
    PlainHasNoColon(m);
    var keys := map[m := map[n := "k"], n := map[m := "k"]];
    CanOpen(acts, i, []);
    CanOpen(acts + [Open(i, [])], j, [m]);
    var opened_ := acts + [Open(i, [])] + [Open(j, [m])];
    RunSnoc(opened_, Rekey(keys));
    more := opened_ + [Rekey(keys)];
    var t, s := Run(more).value, |Run(acts).value.net.sessions|;
    var msg := Message(PartyKey(m, v), [PartyKey(n, v)], body);
    assert Channel(t.net, m, n) by {
      assert t.net.keys == keys;
    }
    RoutingExactness(more, s, msg, s + 1);
    assert Heeds(t, s, msg, s + 1);
    OneHit(n, v);
  }

  lemma SigningInfoIsGood(c: Curve, w: string, tx: string, v: int, n: GoString)
    requires Plain(n) && n != ""
    ensures GoodInfo(SigningInfo(c, w, tx, v, n, 0))
  {
    Resharing.InfoIsGood(n, v, Signing, c, w, tx, 0);
  }

  lemma PlainHasNoColon(n: GoString)
    requires Plain(n)
    ensures ':' !in n
  {
    hide TrimSpace;
  }

  lemma OneHit(n: GoString, v: int)
    requires Plain(n)
    ensures Hits([PartyKey(n, v)], n) == 1
  {
    PartyKeyRoundTrip(n, v);
    hide PartyKey, NodeOf;
    HitsConcat([], [PartyKey(n, v)], n);
  }
}
