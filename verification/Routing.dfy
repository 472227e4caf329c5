/** Routing over whole histories: sessions open, subscribe and close, and nodes learn keys, in any order; for every
    message sent on the way, which sessions take it and how often. */
module Routing {
  import opened GoStrings
  import opened Node
  import opened PartyId
  import opened Session
  import opened Subscriptions
  import opened Resharing
  import Topics

  datatype Action =
    | Open(info: Info, froms: seq<string>)
    | Listen(r: nat, from: string)
    | Close(r: nat)
    | Rekey(keys: map<string, map<string, SymmetricKey>>)

  /** The senders each session has subscribed to so far, and the sessions that are over. */
  datatype State = State(net: Net, froms: seq<seq<string>>, over: set<nat>)

  const Start := State(Net([], map[], map[], map[]), [], {})

  ghost function Act(s: State, act: Action): Option<State> {
    match act
    case Open(info, froms) =>
      if GoodInfo(info) && GoodSenders(froms)
      then Some(s.(net := Opened(s.net, info, froms), froms := s.froms + [froms]))
      else None
    case Listen(r, from) =>
      if r < |s.net.sessions| && r < |s.froms| && r !in s.over && ':' !in from && from !in s.froms[r]
      then
        var info := s.net.sessions[r];
        Some(s.(net := Listened(s.net, r, TopicOf(info, from, info.node)), froms := s.froms[r := s.froms[r] + [from]]))
      else None
    case Close(r) =>
      if r < |s.net.sessions| && r !in s.over then Some(s.(net := Closed(s.net, r), over := s.over + {r})) else None
    case Rekey(keys) =>
      Some(s.(net := s.net.(keys := keys)))
  }

  ghost function Run(acts: seq<Action>): Option<State> {
    if acts == [] then Some(Start)
    else
      var before := Run(acts[..|acts| - 1]);
      if before.None? then None else Act(before.value, acts[|acts| - 1])
  }

  /** Session r is registered locally once for each of its senders, and on NATS as well unless it is over. */
  ghost predicate RegisteredFor(net: Net, r: nat, froms: seq<string>, over: bool, f: string)
    requires r < |net.sessions|
  {
    && LocalSubs(net, r, f) == (if f in froms then 1 else 0)
    && LiveSubs(net, r, f) == (if f in froms && !over then 1 else 0)
  }

  ghost predicate Registered(net: Net, r: nat, froms: seq<string>, over: bool) {
    && r < |net.sessions|
    && forall f: string :: ':' !in f ==> RegisteredFor(net, r, froms, over, f)
  }

  ghost predicate GoodSenders(froms: seq<string>) {
    Distinct(froms) && forall f :: f in froms ==> ':' !in f
  }

  ghost predicate Inv(s: State) {
    && (forall r :: 0 <= r < |s.froms| ==> GoodSenders(s.froms[r]))
    && WellFormed(s.net) && |s.froms| == |s.net.sessions|
    && (forall r :: r in s.over ==> r < |s.net.sessions|)
    && forall r: nat :: r < |s.froms| ==> Registered(s.net, r, s.froms[r], r in s.over)
  }

  lemma OpenKeepsInv(s: State, info: Info, froms: seq<string>)
    requires Inv(s) && Act(s, Open(info, froms)).Some?
    ensures Inv(Act(s, Open(info, froms)).value)
  {
    hide WellFormed, LiveSubs, LocalSubs, GoodInfo, Opened;
    var u := Act(s, Open(info, froms)).value;
    OpenedListens(s.net, info, froms);
    forall r: nat | r < |u.froms|
      ensures Registered(u.net, r, u.froms[r], r in u.over)
    {
      if r < |s.froms| {
        assert Registered(s.net, r, s.froms[r], r in s.over);
      }
    }
  }

  lemma ListenRegisters(net: Net, r: nat, from: string, q: nat, froms: seq<string>, over: bool)
    requires WellFormed(net) && r < |net.sessions| && ':' !in from && Registered(net, q, froms, over)
    requires q == r ==> from !in froms && !over
    ensures Registered(Listened(net, r, TopicOf(net.sessions[r], from, net.sessions[r].node)), q,
                       if q == r then froms + [from] else froms, over)
  {
    var topic := TopicOf(net.sessions[r], from, net.sessions[r].node);
    ListenedSessions(net, r, topic);
    OwnNode(net, r);
    OwnNode(net, q);
    hide WellFormed, RegisteredFor, LiveSubs, LocalSubs, TopicOf, GoodInfo, Listened, NodeOf;
    forall g: string | ':' !in g
      ensures RegisteredFor(Listened(net, r, topic), q, if q == r then froms + [from] else froms, over, g)
    {
      assert RegisteredFor(net, q, froms, over, g);
      ListenRegistersFor(net, r, from, q, froms, over, g);
    }
  }

  lemma ListenRegistersFor(net: Net, r: nat, from: string, q: nat, froms: seq<string>, over: bool, g: string)
    requires r < |net.sessions| && q < |net.sessions| && ':' !in from && ':' !in g
    requires GoodInfo(net.sessions[r]) && GoodInfo(net.sessions[q])
    requires RegisteredFor(net, q, froms, over, g) && (q == r ==> from !in froms && !over)
    ensures Listened(net, r, TopicOf(net.sessions[r], from, net.sessions[r].node)).sessions == net.sessions
    ensures RegisteredFor(Listened(net, r, TopicOf(net.sessions[r], from, net.sessions[r].node)), q,
                          if q == r then froms + [from] else froms, over, g)
  {
    hide *;
    var after := Listened(net, r, TopicOf(net.sessions[r], from, net.sessions[r].node));
    ListenedSessions(net, r, TopicOf(net.sessions[r], from, net.sessions[r].node));
    ListenedCounts(net, r, from, q, g);
    RegisteredForIs(net, q, froms, over, g);
    RegisteredForIs(after, q, if q == r then froms + [from] else froms, over, g);
    assert g in froms + [from] <==> g in froms || g == from;
  }

  lemma RegisteredForIs(net: Net, r: nat, froms: seq<string>, over: bool, f: string)
    requires r < |net.sessions|
    ensures RegisteredFor(net, r, froms, over, f)
            <==> LocalSubs(net, r, f) == (if f in froms then 1 else 0) && LiveSubs(net, r, f) == (if f in froms && !over then 1 else 0)
  {
    hide LocalSubs, LiveSubs;
  }

  lemma ListenedSessions(net: Net, r: nat, topic: string)
    requires r < |net.sessions|
    ensures Listened(net, r, topic).sessions == net.sessions
  {
  }

  lemma MoreSenders(froms: seq<string>, from: string)
    requires GoodSenders(froms) && from !in froms && ':' !in from
    ensures GoodSenders(froms + [from])
  {
  }

  lemma ListenKeepsInv(s: State, r: nat, from: string)
    requires Inv(s) && Act(s, Listen(r, from)).Some?
    ensures Inv(Act(s, Listen(r, from)).value)
  {
    hide *;
    ListenIs(s, r, from);
    Tracked(s, r);
    OwnNode(s.net, r);
    var u := Act(s, Listen(r, from)).value;
    ListenedWellFormed(s.net, r, from);
    MoreSenders(s.froms[r], from);
    forall q: nat | q < |u.froms|
      ensures Registered(u.net, q, u.froms[q], q in u.over) && GoodSenders(u.froms[q])
    {
      Tracked(s, q);
      ListenRegisters(s.net, r, from, q, s.froms[q], q in s.over);
    }
    TrackedIsInv(u);
  }

  lemma ListenIs(s: State, r: nat, from: string)
    requires Inv(s) && Act(s, Listen(r, from)).Some?
    ensures r < |s.net.sessions| == |s.froms| && r !in s.over && ':' !in from && from !in s.froms[r]
    ensures var u, info := Act(s, Listen(r, from)).value, s.net.sessions[r];
            && u == State(Listened(s.net, r, TopicOf(info, from, info.node)), s.froms[r := s.froms[r] + [from]], s.over)
            && u.net.sessions == s.net.sessions && forall q :: q in u.over ==> q < |u.net.sessions|
  {
    hide WellFormed, Registered, GoodSenders, TopicOf;
    ListenedSessions(s.net, r, TopicOf(s.net.sessions[r], from, s.net.sessions[r].node));
  }

  lemma TrackedIsInv(u: State)
    requires WellFormed(u.net) && |u.froms| == |u.net.sessions| && forall r :: r in u.over ==> r < |u.net.sessions|
    requires forall r: nat :: r < |u.froms| ==> Registered(u.net, r, u.froms[r], r in u.over) && GoodSenders(u.froms[r])
    ensures Inv(u)
  {
    hide WellFormed, Registered, GoodSenders;
  }

  lemma CloseKeepsInv(s: State, r: nat)
    requires Inv(s) && Act(s, Close(r)).Some?
    ensures Inv(Act(s, Close(r)).value)
  {
    hide WellFormed, LiveSubs, LocalSubs, Closed;
    var u := Act(s, Close(r)).value;
    ClosedIsGone(s.net, r);
    forall q: nat | q < |u.froms|
      ensures Registered(u.net, q, u.froms[q], q in u.over)
    {
      assert Registered(s.net, q, s.froms[q], q in s.over);
    }
  }

  lemma RekeyKeepsInv(s: State, keys: map<string, map<string, SymmetricKey>>)
    requires Inv(s)
    ensures Inv(Act(s, Rekey(keys)).value)
  {
    var u := Act(s, Rekey(keys)).value;
    forall q: nat | q < |u.froms|
      ensures Registered(u.net, q, u.froms[q], q in u.over)
    {
      assert Registered(s.net, q, s.froms[q], q in s.over);
    }
  }

  lemma {:induction false} RunKeepsInv(acts: seq<Action>)
    requires Run(acts).Some?
    ensures Inv(Run(acts).value)
  {
    if acts != [] {
      RunKeepsInv(acts[..|acts| - 1]);
      hide Inv, Act;
      var s, act := Run(acts[..|acts| - 1]).value, acts[|acts| - 1];
      match act
      case Open(info, froms) => OpenKeepsInv(s, info, froms);
      case Listen(r, from) => ListenKeepsInv(s, r, from);
      case Close(r) => CloseKeepsInv(s, r);
      case Rekey(keys) => RekeyKeepsInv(s, keys);
    }
  }

  /** Whether session r heeds what session s sends: its key is addressed, its topics are the same, it has subscribed to
      the sender and has a channel with it. Whether the two belong to one run of a protocol is another matter. */
  ghost predicate Heeds(t: State, s: nat, msg: Message, r: nat)
    requires s < |t.net.sessions| && r < |t.net.sessions| && r < |t.froms|
  {
    && t.net.sessions[r].key in msg.to
    && SameTopics(t.net.sessions[s], t.net.sessions[r])
    && t.net.sessions[s].node in t.froms[r]
    && Channel(t.net, t.net.sessions[s].node, t.net.sessions[r].node)
  }

  /** At any point of any history, a message updates every open session that heeds it once for each addressee on
      the session's node, and no other open session; a session that is over is updated in the one case that it sits on
      the sender's own node. */
  lemma RoutingExactness(acts: seq<Action>, s: nat, msg: Message, r: nat)
    requires Run(acts).Some? && s < |Run(acts).value.net.sessions| && r < |Run(acts).value.net.sessions|
    ensures r < |Run(acts).value.froms|
    ensures var t := Run(acts).value;
            Updates(DeliverAll(t.net, s, msg.to, msg), r)
            == if Heeds(t, s, msg, r) && (r in t.over ==> t.net.sessions[s].node == t.net.sessions[r].node)
               then Hits(msg.to, t.net.sessions[r].node) else 0
    ensures var t := Run(acts).value; t.net.sessions[r].key in msg.to ==> Hits(msg.to, t.net.sessions[r].node) >= 1
    ensures var t := Run(acts).value; forall u :: u in DeliverAll(t.net, s, msg.to, msg) ==> u.1 == msg
  {
    hide *;
    RunKeepsInv(acts);
    UpdatesCarry(Run(acts).value.net, s, msg.to, msg);
    Tracked(Run(acts).value, r);
    UpdatesOfTracked(Run(acts).value, s, msg, r);
  }

  lemma Tracked(t: State, r: nat)
    requires Inv(t) && r < |t.net.sessions|
    ensures WellFormed(t.net) && |t.froms| == |t.net.sessions| && Registered(t.net, r, t.froms[r], r in t.over)
    ensures GoodSenders(t.froms[r])
  {
    hide WellFormed, Registered, GoodSenders;
  }

  lemma UpdatesOfTracked(t: State, s: nat, msg: Message, r: nat)
    requires WellFormed(t.net) && |t.froms| == |t.net.sessions| && s < |t.net.sessions| && r < |t.net.sessions|
    requires Registered(t.net, r, t.froms[r], r in t.over)
    ensures Updates(DeliverAll(t.net, s, msg.to, msg), r)
            == if Heeds(t, s, msg, r) && (r in t.over ==> t.net.sessions[s].node == t.net.sessions[r].node)
               then Hits(msg.to, t.net.sessions[r].node) else 0
    ensures t.net.sessions[r].key in msg.to ==> Hits(msg.to, t.net.sessions[r].node) >= 1
  {
    hide WellFormed, Updates, DeliverAll, LiveSubs, LocalSubs, SubsTo, Channel, Hits, NodeOf, Registered;
    DirectExactness(t.net, s, msg, r);
    SubsOfTracked(t, s, r);
  }

  lemma SubsOfTracked(t: State, s: nat, r: nat)
    requires WellFormed(t.net) && |t.froms| == |t.net.sessions| && s < |t.net.sessions| && r < |t.net.sessions|
    requires Registered(t.net, r, t.froms[r], r in t.over)
    ensures var i, j := t.net.sessions[s], t.net.sessions[r];
            SubsTo(t.net, s, r) == if SameTopics(i, j) && i.node in t.froms[r] && (r in t.over ==> i.node == j.node) then 1 else 0
  {
    hide WellFormed, LiveSubs, LocalSubs, SubsTo, NodeOf;
    SubscriptionsByName(t.net, s, r);
    OwnNode(t.net, s);
    assert RegisteredFor(t.net, r, t.froms[r], r in t.over, t.net.sessions[s].node);
  }

  /** At any point of any history, a send to an addressee is reported as failed if and only if no session on its node
      listens to the sender under the same topics, closed sessions counting on the sender's own node only. */
  lemma NotSentIff(acts: seq<Action>, s: nat, msg: Message, to: nat)
    requires Run(acts).Some? && s < |Run(acts).value.net.sessions|
    ensures |Run(acts).value.froms| == |Run(acts).value.net.sessions|
    ensures var t := Run(acts).value;
            NotSent(to) in Failures(t.net, s, msg.to) <==>
            to in msg.to && forall r: nat :: r < |t.froms| && t.net.sessions[r].node == NodeOf(to) ==>
                              !(SameTopics(t.net.sessions[s], t.net.sessions[r]) && t.net.sessions[s].node in t.froms[r]
                                && (r in t.over ==> t.net.sessions[s].node == t.net.sessions[r].node))
  {
    hide *;
    RunKeepsInv(acts);
    var t := Run(acts).value;
    Tracked(t, s);
    FailuresIff(t.net, s, msg.to, to);
    forall r: nat | r < |t.net.sessions|
      ensures var i, j := t.net.sessions[s], t.net.sessions[r];
              SubsTo(t.net, s, r) == if SameTopics(i, j) && i.node in t.froms[r] && (r in t.over ==> i.node == j.node) then 1 else 0
    {
      Tracked(t, r);
      SubsOfTracked(t, s, r);
    }
  }

  /** Every open session that heeds a message takes it exactly once if and only if each of their nodes has
      exactly one addressee. */
  lemma OncePerSessionIff(acts: seq<Action>, s: nat, msg: Message)
    requires Run(acts).Some? && s < |Run(acts).value.net.sessions|
    ensures |Run(acts).value.froms| == |Run(acts).value.net.sessions|
    ensures var t := Run(acts).value;
            (forall r: nat :: r < |t.froms| && r !in t.over && Heeds(t, s, msg, r) ==>
               Updates(DeliverAll(t.net, s, msg.to, msg), r) == 1)
            <==>
            (forall r: nat :: r < |t.froms| && r !in t.over && Heeds(t, s, msg, r) ==>
               Hits(msg.to, t.net.sessions[r].node) == 1)
  {
    RunKeepsInv(acts);
    hide Run, WellFormed, Updates, DeliverAll, Registered, Heeds, Hits;
    var t := Run(acts).value;
    forall r: nat | r < |t.froms| && r !in t.over && Heeds(t, s, msg, r)
      ensures Updates(DeliverAll(t.net, s, msg.to, msg), r) == Hits(msg.to, t.net.sessions[r].node)
    {
      RoutingExactness(acts, s, msg, r);
    }
  }

  /** Both sessions of node n in a resharing are open and listen as the code makes them, and session s is of this
      resharing too, on a node that n has a channel with. */
  ghost predicate InReshare(t: State, c: Reshare, n: GoString, s: nat, r: nat, q: nat) {
    && s < |t.net.sessions| && r < |t.net.sessions| && q < |t.net.sessions| && |t.froms| == |t.net.sessions|
    && t.net.sessions[r] == OldInfo(c, n) && t.froms[r] == OldSenders(c) && r !in t.over
    && t.net.sessions[q] == NewInfo(c, n) && t.froms[q] == NewSenders(c) && q !in t.over
    && SameTopics(t.net.sessions[s], t.net.sessions[r])
    && Channel(t.net, t.net.sessions[s].node, n)
    && n in c.outgoing && n in c.incoming
    && (t.net.sessions[s].node in c.outgoing || t.net.sessions[s].node in c.incoming)
  }

  /** A resharing in any history: of a message from a member, the old session of a node in both committees takes what
      addresses its old party key (given that the sender is an old member), the new one what addresses its new party
      key, each once for every addressee on the node. Hence once, unless the message addresses both parties of the node:
      then both sessions take it twice or more. */
  lemma ResharingExactness(acts: seq<Action>, c: Reshare, n: GoString, s: nat, msg: Message, r: nat, q: nat)
    requires Run(acts).Some? && GoodReshare(c) && InReshare(Run(acts).value, c, n, s, r, q)
    ensures var t := Run(acts).value; var m := t.net.sessions[s].node;
            var toOld, toNew := PartyKey(n, c.version) in msg.to, PartyKey(n, c.version + 1) in msg.to;
            && Updates(DeliverAll(t.net, s, msg.to, msg), r) == (if toOld && m in c.outgoing then Hits(msg.to, n) else 0)
            && Updates(DeliverAll(t.net, s, msg.to, msg), q) == (if toNew then Hits(msg.to, n) else 0)
            && (toOld || toNew ==> Hits(msg.to, n) >= 1) && (toOld && toNew ==> Hits(msg.to, n) >= 2)
  {
    hide Run, WellFormed, Updates, DeliverAll, PartyKey, OldSenders, NewSenders, Channel, TrimSpace, NodeOf, Hits;
    RoutingExactness(acts, s, msg, r);
    RoutingExactness(acts, s, msg, q);
    ResharingSubscriptions(c);
    if PartyKey(n, c.version) in msg.to && PartyKey(n, c.version + 1) in msg.to {
      BothPartiesHit(n, c.version, msg.to);
    }
  }

  /** A message to both committees, as the last round of a resharing sends it: each of the two sessions of a continuing
      member takes it twice (the old one only from an old member). */
  lemma BothCommitteesTwice(acts: seq<Action>, c: Reshare, n: GoString, s: nat, body: string, r: nat, q: nat)
    requires Run(acts).Some? && GoodReshare(c) && InReshare(Run(acts).value, c, n, s, r, q)
    ensures var t := Run(acts).value; var m := t.net.sessions[s].node;
            var msg := Message(t.net.sessions[s].key, BothCommittees(c), body);
            && Updates(DeliverAll(t.net, s, msg.to, msg), r) == (if m in c.outgoing then 2 else 0)
            && Updates(DeliverAll(t.net, s, msg.to, msg), q) == 2
  {
    hide Run, WellFormed, Updates, DeliverAll, PartyKey, OldInfo, NewInfo, OldSenders, NewSenders, Channel, NodeOf, Hits, SessionKeys, PlainDistinct;
    var msg := Message(Run(acts).value.net.sessions[s].key, BothCommittees(c), body);
    ResharingExactness(acts, c, n, s, msg, r, q);
    HitsOfBothCommittees(c, n);
    SessionKeysAre(c.outgoing, c.version, PartyKey(n, c.version));
    SessionKeysAre(c.incoming, c.version + 1, PartyKey(n, c.version + 1));
  }

  /** A message to both committees takes effect once in every open session that heeds it if and only if none of
      these sits on a node of both committees. */
  lemma BothCommitteesOnceIff(acts: seq<Action>, c: Reshare, s: nat, body: string)
    requires Run(acts).Some? && GoodReshare(c) && s < |Run(acts).value.net.sessions|
    ensures |Run(acts).value.froms| == |Run(acts).value.net.sessions|
    ensures var t := Run(acts).value; var msg := Message(t.net.sessions[s].key, BothCommittees(c), body);
            (forall r: nat :: r < |t.froms| && r !in t.over && Heeds(t, s, msg, r) ==>
               Updates(DeliverAll(t.net, s, msg.to, msg), r) == 1)
            <==>
            (forall r: nat :: r < |t.froms| && r !in t.over && Heeds(t, s, msg, r) ==>
               !(t.net.sessions[r].node in c.outgoing && t.net.sessions[r].node in c.incoming))
  {
    var t := Run(acts).value;
    var msg := Message(t.net.sessions[s].key, BothCommittees(c), body);
    OncePerSessionIff(acts, s, msg);
    forall r: nat | r < |t.froms| && r !in t.over && Heeds(t, s, msg, r)
      ensures Hits(msg.to, t.net.sessions[r].node) == 1
          <==> !(t.net.sessions[r].node in c.outgoing && t.net.sessions[r].node in c.incoming)
    {
      RoutingExactness(acts, s, msg, r);
      HitsOfBothCommittees(c, t.net.sessions[r].node);
    }
  }

  lemma RunSnoc(acts: seq<Action>, act: Action)
    requires Run(acts).Some?
    ensures Run(acts + [act]) == Act(Run(acts).value, act)
  {
    assert (acts + [act])[..|acts|] == acts;
  }

  lemma CanOpen(acts: seq<Action>, info: Info, froms: seq<string>)
    requires Run(acts).Some? && GoodInfo(info) && GoodSenders(froms)
    ensures Run(acts + [Open(info, froms)]).Some?
    ensures var s, u := Run(acts).value, Run(acts + [Open(info, froms)]).value;
            && |s.froms| == |s.net.sessions| && u.net.sessions == s.net.sessions + [info] && u.froms == s.froms + [froms]
            && u.over == s.over && |s.net.sessions| !in s.over && |s.net.sessions| + 1 !in s.over
  {
    RunKeepsInv(acts);
    RunSnoc(acts, Open(info, froms));
    hide GoodInfo, WellFormed, Registered, Run, Distinct, Opened;
    OpenedListens(Run(acts).value.net, info, froms);
  }

  /** Any history can go on with a node of both committees opening its two sessions as the code does; that leaves both
      in the state that ResharingExactness speaks of. */
  lemma ResharingCanOpen(acts: seq<Action>, c: Reshare, n: GoString) returns (more: seq<Action>)
    requires Run(acts).Some? && GoodReshare(c) && n in c.outgoing && n in c.incoming
    ensures more == acts + [Open(OldInfo(c, n), OldSenders(c))] + [Open(NewInfo(c, n), NewSenders(c))]
    ensures Run(more).Some?
    ensures var t := Run(more).value; var r := |Run(acts).value.net.sessions|;
            && |t.froms| == |t.net.sessions| == r + 2
            && t.net.sessions[r] == OldInfo(c, n) && t.froms[r] == OldSenders(c) && r !in t.over
            && t.net.sessions[r + 1] == NewInfo(c, n) && t.froms[r + 1] == NewSenders(c) && r + 1 !in t.over
  {
    hide PartyKey, OldSenders, NewSenders, OldInfo, NewInfo, NodeOf, GoodReshare, GoodInfo, Distinct, Run;
    ReshareIsGood(c, n);
    more := acts + [Open(OldInfo(c, n), OldSenders(c))];
    CanOpen(acts, OldInfo(c, n), OldSenders(c));
    CanOpen(more, NewInfo(c, n), NewSenders(c));
    more := more + [Open(NewInfo(c, n), NewSenders(c))];
  }

  lemma ReshareIsGood(c: Reshare, n: GoString)
    requires GoodReshare(c) && n in c.outgoing
    ensures GoodSenders(OldSenders(c)) && GoodSenders(NewSenders(c))
    ensures GoodInfo(OldInfo(c, n)) && GoodInfo(NewInfo(c, n))
  {
    hide *;
    ResharingSubscriptions(c);
    forall f | f in OldSenders(c) || f in NewSenders(c)
      ensures ':' !in f
    {
      MemberIsPlain(c, f);
    }
    GoodSendersAre(OldSenders(c));
    GoodSendersAre(NewSenders(c));
    MemberInfos(c, n);
  }

  lemma GoodSendersAre(froms: seq<string>)
    requires Distinct(froms) && forall f :: f in froms ==> ':' !in f
    ensures GoodSenders(froms)
  {
  }

  lemma MemberIsPlain(c: Reshare, m: string)
    requires GoodReshare(c) && (m in c.outgoing || m in c.incoming)
    ensures Plain(m) && m != "" && ':' !in m
  {
    hide TrimSpace;
  }

  lemma MemberInfos(c: Reshare, n: GoString)
    requires GoodReshare(c) && n in c.outgoing
    ensures GoodInfo(OldInfo(c, n)) && GoodInfo(NewInfo(c, n))
  {
    MemberIsPlain(c, n);
    hide Plain, GoodReshare, GoodInfo, PartyKey;
    InfoIsGood(n, c.version, Topics.Protocol.Resharing, c.curve, c.wallet, "", c.attempt);
    InfoIsGood(n, c.version + 1, Topics.Protocol.Resharing, c.curve, c.wallet, "", c.attempt);
  }

  // ---------- what listening and closing do ----------

  /** An open session can subscribe to any further sender, and from then on takes what addresses it from there. */
  lemma ListenHears(acts: seq<Action>, r: nat, from: string, s: nat, msg: Message)
    requires Run(acts).Some? && r < |Run(acts).value.net.sessions| && r !in Run(acts).value.over
    requires r < |Run(acts).value.froms| && ':' !in from && from !in Run(acts).value.froms[r]
    requires s < |Run(acts).value.net.sessions| && Run(acts).value.net.sessions[s].node == from
    requires var t := Run(acts).value;
             && t.net.sessions[r].key in msg.to && SameTopics(t.net.sessions[s], t.net.sessions[r])
             && Channel(t.net, from, t.net.sessions[r].node)
    ensures Run(acts + [Listen(r, from)]).Some?
    ensures var t, u := Run(acts).value, Run(acts + [Listen(r, from)]).value;
            && u.net.sessions == t.net.sessions && u.net.keys == t.net.keys
            && Updates(DeliverAll(u.net, s, msg.to, msg), r) == Hits(msg.to, u.net.sessions[r].node) >= 1
  {
    var t := Run(acts).value;
    RunSnoc(acts, Listen(r, from));
    RunKeepsInv(acts);
    assert Act(t, Listen(r, from)).Some?;
    ListenIs(t, r, from);
    hide Run, Act, Updates, DeliverAll, Hits, Inv, Listened, SameTopics;
    ListenedKeys(t.net, r, TopicOf(t.net.sessions[r], from, t.net.sessions[r].node));
    var u := Run(acts + [Listen(r, from)]).value;
    RoutingExactness(acts + [Listen(r, from)], s, msg, r);
    ChannelByKeys(t.net, u.net, from, t.net.sessions[r].node);
  }

  lemma ListenedKeys(net: Net, r: nat, topic: string)
    requires r < |net.sessions|
    ensures Listened(net, r, topic).keys == net.keys
  {
  }

  lemma ChannelByKeys(a: Net, b: Net, from: string, to: string)
    requires a.keys == b.keys
    ensures Channel(a, from, to) <==> Channel(b, from, to)
  {
  }

  /** Nothing reopens a session or changes what it is. */
  lemma ActKeepsOver(s: State, act: Action)
    requires Act(s, act).Some?
    ensures var u := Act(s, act).value;
            s.over <= u.over && s.net.sessions <= u.net.sessions && (act.Close? ==> act.r in u.over)
  {
    hide WellFormed, GoodSenders, GoodInfo;
  }

  lemma {:induction false} OverStays(acts: seq<Action>, more: seq<Action>)
    requires Run(acts + more).Some?
    ensures Run(acts).Some?
    ensures var s, u := Run(acts).value, Run(acts + more).value; s.over <= u.over && s.net.sessions <= u.net.sessions
  {
    if more == [] {
      assert acts + more == acts;
    } else {
      var n := |more| - 1;
      assert (acts + more)[..|acts + more| - 1] == acts + more[..n];
      OverStays(acts, more[..n]);
      hide Act;
      ActKeepsOver(Run(acts + more[..n]).value, more[n]);
    }
  }

  /** Any open session can be closed; after that, whatever happens, no message from another node updates it again. */
  lemma CloseDeafens(acts: seq<Action>, r: nat, more: seq<Action>, s: nat, msg: Message)
    requires Run(acts).Some? && r < |Run(acts).value.net.sessions| && r !in Run(acts).value.over
    ensures Run(acts + [Close(r)]).Some?
    ensures Run(acts + [Close(r)] + more).Some? ==>
              var t := Run(acts + [Close(r)] + more).value;
              && r < |t.net.sessions| && t.net.sessions[r] == Run(acts).value.net.sessions[r]
              && (s < |t.net.sessions| && t.net.sessions[s].node != t.net.sessions[r].node ==>
                    Updates(DeliverAll(t.net, s, msg.to, msg), r) == 0)
  {
    RunSnoc(acts, Close(r));
    assert Act(Run(acts).value, Close(r)).Some?;
    ActKeepsOver(Run(acts).value, Close(r));
    hide Run, Act, Updates, DeliverAll, Hits, Heeds;
    if Run(acts + [Close(r)] + more).Some? {
      OverStays(acts + [Close(r)], more);
      var t := Run(acts + [Close(r)] + more).value;
      if s < |t.net.sessions| && t.net.sessions[s].node != t.net.sessions[r].node {
        RoutingExactness(acts + [Close(r)] + more, s, msg, r);
      }
    }
  }
}
