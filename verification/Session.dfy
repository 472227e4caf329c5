/** pkg/mpc/core/session.go and pkg/messaging/p2p.go: how a direct TSS message travels from the session that
    emits it to the sessions that feed it to their party. */
module Session {
  import opened GoStrings
  import opened PartyId
  import opened Topics

  /** What a PartySession is: its node and party key; the wallet it works on and, when signing, the transaction; and which
      attempt at this it belongs to. The attempt is known to nobody: it appears in no topic and no message. */
  datatype Info = Info(
    node: GoString, key: nat, protocol: Protocol, curve: Curve, wallet: string, tx: string, attempt: nat)

  /** What the topic composer closes over: the transaction alone for signing, the wallet otherwise. */
  function TopicId(info: Info): string {
    if info.protocol == Signing then info.tx else info.wallet
  }

  /** Two sessions whose topics for a sender and a receiver are the same. */
  predicate SameTopics(i: Info, j: Info) {
    (i.protocol, i.curve, TopicId(i)) == (j.protocol, j.curve, TopicId(j))
  }

  /** Two sessions of one run of a protocol. */
  predicate SameRun(i: Info, j: Info) {
    (i.protocol, i.curve, i.wallet, i.tx, i.attempt) == (j.protocol, j.curve, j.wallet, j.tx, j.attempt)
  }

  /** A message with addressees; broadcasts without any go over another topic. */
  datatype Message = Message(from: nat, to: seq<nat>, body: string)

  /** What a topic carries: the marshalled message, a ciphertext under a key, or the nil of a failed encryption. */
  datatype Payload = Clear(msg: Message) | Sealed(key: SymmetricKey, msg: Message) | Nil

  type Tables<!K> = map<K, seq<nat>>

  /** live: active NATS subscriptions by topic. handlers: the handler table of each node, by node and topic.
      keys: the symmetric-key table of each node. Sessions are named by their position. */
  datatype Net = Net(
    sessions: seq<Info>,
    live: Tables<string>,
    handlers: Tables<(string, string)>,
    keys: map<string, map<string, SymmetricKey>>)

  function Table<K>(m: Tables<K>, k: K): seq<nat> {
    if k in m then m[k] else []
  }

  function TopicOf(info: Info, from: string, to: string): string {
    DirectTopic(info.protocol, info.curve, from, to, TopicId(info))
  }

  // ---------- sending and receiving ----------

  function KeyFor(net: Net, node: string, peer: string): Option<SymmetricKey> {
    if node in net.keys && peer in net.keys[node] then Some(net.keys[node][peer]) else None
  }

  function Encrypt(net: Net, node: string, peer: string, msg: Message): Payload {
    var k := KeyFor(net, node, peer);
    if k.Some? then Sealed(k.value, msg) else Nil
  }

  function Decrypt(net: Net, node: string, peer: string, p: Payload): Option<Message> {
    var k := KeyFor(net, node, peer);
    if k.Some? && p.Sealed? && p.key == k.value then Some(p.msg) else None
  }

  /** receiveP2PTssMessage and receiveTssMessage: the message handed to UpdateFromBytes, if any. */
  function Receive(net: Net, info: Info, topic: string, p: Payload): Option<Message> {
    var sender := ExtractSender(topic);
    var self := NodeOf(info.key);
    var plain :=
      if sender == "" then None
      else if sender == self then (if p.Clear? then Some(p.msg) else None)
      else Decrypt(net, self, sender, p);
    if plain.Some? && info.key in plain.value.to then plain else None
  }

  /** The updates caused by invoking the handlers of these sessions in turn. */
  function Fanout(refs: seq<nat>, receive: nat -> Option<Message>): seq<(nat, Message)> {
    if refs == [] then []
    else
      (if receive(refs[0]).Some? then [(refs[0], receive(refs[0]).value)] else []) + Fanout(refs[1..], receive)
  }

  function Receiver(net: Net, topic: string, p: Payload): nat -> Option<Message> {
    (r: nat) => if r < |net.sessions| then Receive(net, net.sessions[r], topic, p) else None
  }

  /** The handlers that one send of session s to party key `to` reaches. */
  function Reached(net: Net, s: nat, to: nat): seq<nat>
    requires s < |net.sessions|
  {
    var info := net.sessions[s];
    var from, node := NodeOf(info.key), NodeOf(to);
    var topic := TopicOf(info, from, node);
    if from == node then Table(net.handlers, (info.node, topic)) else Table(net.live, topic)
  }

  function Wire(net: Net, s: nat, to: nat, msg: Message): Payload
    requires s < |net.sessions|
  {
    var from := NodeOf(net.sessions[s].key);
    if from == NodeOf(to) then Clear(msg) else Encrypt(net, from, NodeOf(to), msg)
  }

  function Deliver(net: Net, s: nat, to: nat, msg: Message): seq<(nat, Message)>
    requires s < |net.sessions|
  {
    var info := net.sessions[s];
    Fanout(Reached(net, s, to), Receiver(net, TopicOf(info, NodeOf(info.key), NodeOf(to)), Wire(net, s, to, msg)))
  }

  function Concat<T>(tos: seq<nat>, f: nat -> seq<T>): seq<T> {
    if tos == [] then [] else f(tos[0]) + Concat(tos[1..], f)
  }

  /** The updates caused by sending msg to each of these addressees in turn. */
  function DeliverAll(net: Net, s: nat, tos: seq<nat>, msg: Message): seq<(nat, Message)>
    requires s < |net.sessions|
  {
    Concat(tos, Delivery(net, s, msg))
  }

  function Delivery(net: Net, s: nat, msg: Message): nat -> seq<(nat, Message)>
    requires s < |net.sessions|
  {
    (to: nat) => Deliver(net, s, to, msg)
  }

  /** What a send reports on the error channel: no key to seal the message with, nobody listening on the topic. A
      message that could not be sealed is sent all the same, as nil. */
  datatype Failure = NotEncrypted(to: nat) | NotSent(to: nat)

  /** The failures of sending msg to each of these addressees in turn. */
  function Failures(net: Net, s: nat, tos: seq<nat>): seq<Failure>
    requires s < |net.sessions|
  {
    Concat(tos, SendFailures(net, s))
  }

  function SendFailures(net: Net, s: nat): nat -> seq<Failure>
    requires s < |net.sessions|
  {
    var from := NodeOf(net.sessions[s].key);
    (to: nat) =>
      (if from != NodeOf(to) && KeyFor(net, from, NodeOf(to)).None? then [NotEncrypted(to)] else [])
      + (if Reached(net, s, to) == [] then [NotSent(to)] else [])
  }

  // ---------- routing ----------

  function Mult(refs: seq<nat>, r: nat): nat {
    multiset(refs)[r]
  }

  function Updates(log: seq<(nat, Message)>, r: nat): nat {
    if log == [] then 0 else (if log[0].0 == r then 1 else 0) + Updates(log[1..], r)
  }

  /** Sessions carry keys of their own colon-free node, and a table entry sits under a topic its session composed. */
  ghost predicate WellFormed(net: Net) {
    && (forall r :: 0 <= r < |net.sessions| ==> GoodInfo(net.sessions[r]))
    && (forall t, r: nat :: r in Table(net.live, t) ==> ComposedBy(net.sessions, r, t))
    && (forall k: (string, string), r: nat :: r in Table(net.handlers, k) ==> HandledBy(net.sessions, r, k))
  }

  ghost predicate HandledBy(sessions: seq<Info>, r: nat, k: (string, string)) {
    ComposedBy(sessions, r, k.1) && k.0 == sessions[r].node
  }

  ghost predicate ComposedBy(sessions: seq<Info>, r: nat, topic: string) {
    r < |sessions| && Composed(sessions[r], topic)
  }

  ghost predicate GoodInfo(info: Info) {
    ':' !in info.node && info.node != "" && NodeOf(info.key) == info.node
  }

  ghost predicate Composed(info: Info, topic: string) {
    exists f: string :: ':' !in f && topic == TopicOf(info, f, info.node)
  }

  /** A payload crosses between two nodes when it need not be sealed or both hold the same key. */
  predicate Channel(net: Net, from: string, to: string) {
    from == to || (KeyFor(net, from, to).Some? && KeyFor(net, from, to) == KeyFor(net, to, from))
  }

  /** How often session r is subscribed to what session s sends to r's node. */
  function SubsTo(net: Net, s: nat, r: nat): nat
    requires s < |net.sessions| && r < |net.sessions|
  {
    Mult(Reached(net, s, net.sessions[r].key), r)
  }

  lemma {:induction false} UpdatesConcat(a: seq<(nat, Message)>, b: seq<(nat, Message)>, r: nat)
    ensures Updates(a + b, r) == Updates(a, r) + Updates(b, r)
  {
    if a == [] {
      assert a + b == b;
    } else {
      UpdatesConcat(a[1..], b, r);
      assert (a + b)[1..] == a[1..] + b;
    }
  }

  lemma {:induction false} UpdatesOfFanout(refs: seq<nat>, receive: nat -> Option<Message>, r: nat)
    ensures Updates(Fanout(refs, receive), r) == if receive(r).Some? then Mult(refs, r) else 0
  {
    if refs != [] {
      UpdatesOfFanout(refs[1..], receive, r);
      assert refs == [refs[0]] + refs[1..];
      var got := receive(refs[0]);
      UpdatesConcat(if got.Some? then [(refs[0], got.value)] else [], Fanout(refs[1..], receive), r);
    }
  }

  lemma NodeHasNoColon(key: nat)
    ensures ':' !in NodeOf(key)
  {
    assert ':' !in IdentityNodeOf(key);
  }

  /** A session is reached only by sends to its own node. */
  lemma ReachedIsLocal(net: Net, s: nat, to: nat, r: nat)
    requires WellFormed(net) && s < |net.sessions|
    requires r in Reached(net, s, to)
    ensures r < |net.sessions| && NodeOf(to) == net.sessions[r].node
  {
    var info := net.sessions[s];
    var topic := TopicOf(info, NodeOf(info.key), NodeOf(to));
    NodeHasNoColon(to);
    assert ComposedBy(net.sessions, r, topic) by {
      assert NodeOf(info.key) == NodeOf(to) ==> HandledBy(net.sessions, r, (info.node, topic));
    }
    var other := net.sessions[r];
    var f: string :| ':' !in f && topic == TopicOf(other, f, other.node);
    TopicInjective(info.protocol, info.curve, info.node, NodeOf(to), TopicId(info), other.protocol, other.curve, f, other.node, TopicId(other));
  }

  /** What a session of the addressed node does with the payload. */
  lemma ReceiveOnOwnTopic(net: Net, s: nat, to: nat, msg: Message, r: nat)
    requires WellFormed(net) && s < |net.sessions| && r < |net.sessions|
    requires NodeOf(to) == net.sessions[r].node
    ensures var info := net.sessions[s];
            Receive(net, net.sessions[r], TopicOf(info, NodeOf(info.key), NodeOf(to)), Wire(net, s, to, msg)).Some?
            <==> net.sessions[r].key in msg.to && Channel(net, info.node, NodeOf(to))
  {
    hide ExtractSender, DirectTopic, NodeOf;
    var info := net.sessions[s];
    assert NodeOf(info.key) == info.node && NodeOf(net.sessions[r].key) == net.sessions[r].node;
    TopicRoundTrip(info.protocol, info.curve, info.node, NodeOf(to), TopicId(info));
  }

  lemma UpdatesOfDeliver(net: Net, s: nat, to: nat, msg: Message, r: nat)
    requires WellFormed(net) && s < |net.sessions| && r < |net.sessions|
    ensures Updates(Deliver(net, s, to, msg), r)
         == if NodeOf(to) == net.sessions[r].node then UpdatesPerSend(net, s, msg, r) else 0
  {
    var info := net.sessions[s];
    var receive := Receiver(net, TopicOf(info, NodeOf(info.key), NodeOf(to)), Wire(net, s, to, msg));
    UpdatesOfFanout(Reached(net, s, to), receive, r);
    if NodeOf(to) == net.sessions[r].node {
      ReceiveOnOwnTopic(net, s, to, msg, r);
      assert Reached(net, s, to) == Reached(net, s, net.sessions[r].key);
    } else if r in Reached(net, s, to) {
      ReachedIsLocal(net, s, to, r);
    }
  }

  function UpdatesPerSend(net: Net, s: nat, msg: Message, r: nat): nat
    requires s < |net.sessions| && r < |net.sessions|
  {
    if net.sessions[r].key in msg.to && Channel(net, net.sessions[s].node, net.sessions[r].node)
    then SubsTo(net, s, r) else 0
  }

  // ---------- what is delivered ----------

  /** A payload made from a message holds that message, sealed between different nodes, or nothing. */
  predicate Carries(p: Payload, msg: Message) {
    match p
    case Clear(m) => m == msg
    case Sealed(_, m) => m == msg
    case Nil => true
  }

  lemma WireCarries(net: Net, s: nat, to: nat, msg: Message)
    requires s < |net.sessions|
    ensures Carries(Wire(net, s, to, msg), msg)
    ensures Wire(net, s, to, msg).Clear? <==> NodeOf(to) == NodeOf(net.sessions[s].key)
  {
    hide NodeOf;
  }

  /** A session hands on the message that was sent, whole, or nothing. */
  lemma ReceivedIsSent(net: Net, info: Info, topic: string, p: Payload, msg: Message)
    requires Carries(p, msg)
    ensures Receive(net, info, topic, p).Some? ==> Receive(net, info, topic, p).value == msg
  {
    hide NodeOf, ExtractSender;
  }

  lemma {:induction false} FanoutCarries(refs: seq<nat>, receive: nat -> Option<Message>, msg: Message)
    requires forall r :: r in refs && receive(r).Some? ==> receive(r).value == msg
    ensures forall u :: u in Fanout(refs, receive) ==> u.1 == msg
  {
    if refs != [] {
      FanoutCarries(refs[1..], receive, msg);
    }
  }

  lemma DeliverCarries(net: Net, s: nat, to: nat, msg: Message)
    requires s < |net.sessions|
    ensures forall u :: u in Deliver(net, s, to, msg) ==> u.1 == msg
  {
    hide NodeOf, ExtractSender, DirectTopic, Receive, Wire, Carries;
    var info := net.sessions[s];
    var topic := TopicOf(info, NodeOf(info.key), NodeOf(to));
    var p := Wire(net, s, to, msg);
    WireCarries(net, s, to, msg);
    var receive := Receiver(net, topic, p);
    forall r: nat | receive(r).Some?
      ensures receive(r).value == msg
    {
      ReceivedIsSent(net, net.sessions[r], topic, p, msg);
    }
    FanoutCarries(Reached(net, s, to), receive, msg);
  }

  /** Every update that a message causes is with that very message. */
  lemma {:induction false} UpdatesCarry(net: Net, s: nat, tos: seq<nat>, msg: Message)
    requires s < |net.sessions|
    ensures forall u :: u in DeliverAll(net, s, tos, msg) ==> u.1 == msg
  {
    hide Deliver;
    if tos != [] {
      DeliverCarries(net, s, tos[0], msg);
      UpdatesCarry(net, s, tos[1..], msg);
      assert DeliverAll(net, s, tos, msg) == Deliver(net, s, tos[0], msg) + DeliverAll(net, s, tos[1..], msg);
    }
  }

  // ---------- what is reported ----------

  /** A send reaches a session exactly if it goes to the session's node and the session listens to the sender there. */
  lemma ReachedIff(net: Net, s: nat, to: nat, r: nat)
    requires WellFormed(net) && s < |net.sessions|
    ensures r in Reached(net, s, to) <==> r < |net.sessions| && NodeOf(to) == net.sessions[r].node && SubsTo(net, s, r) > 0
  {
    hide WellFormed, NodeOf, DirectTopic;
    if r in Reached(net, s, to) {
      ReachedIsLocal(net, s, to, r);
    }
    if r < |net.sessions| && NodeOf(to) == net.sessions[r].node {
      OwnNode(net, r);
      assert Reached(net, s, to) == Reached(net, s, net.sessions[r].key);
    }
  }

  lemma {:induction false} InConcat<T>(tos: seq<nat>, f: nat -> seq<T>, x: T)
    ensures x in Concat(tos, f) <==> exists t :: t in tos && x in f(t)
  {
    if tos != [] {
      InConcat(tos[1..], f, x);
      assert tos == [tos[0]] + tos[1..];
    }
  }

  /** A message that cannot be sealed is reported for exactly the addressees on other nodes without a key for them; a
      failed send for exactly the addressees that no session listens for. */
  lemma FailuresIff(net: Net, s: nat, tos: seq<nat>, to: nat)
    requires WellFormed(net) && s < |net.sessions|
    ensures NotEncrypted(to) in Failures(net, s, tos) <==>
            to in tos && NodeOf(to) != net.sessions[s].node
            && !(net.sessions[s].node in net.keys && NodeOf(to) in net.keys[net.sessions[s].node])
    ensures NotSent(to) in Failures(net, s, tos) <==>
            to in tos && forall r: nat :: r < |net.sessions| && NodeOf(to) == net.sessions[r].node ==> SubsTo(net, s, r) == 0
  {
    hide *;
    OwnNode(net, s);
    var f := SendFailures(net, s);
    FailuresAreConcat(net, s, tos);
    InConcat(tos, f, NotEncrypted(to));
    InConcat(tos, f, NotSent(to));
    forall t: nat
      ensures NotEncrypted(to) in f(t) <==> t == to && NodeOf(t) != NodeOf(net.sessions[s].key) && KeyFor(net, NodeOf(net.sessions[s].key), NodeOf(t)).None?
      ensures NotSent(to) in f(t) <==> t == to && Reached(net, s, t) == []
    {
      FailuresOfOne(net, s, t, to);
    }
    UnreachedIff(net, s, to);
    KeyIn(net, net.sessions[s].node, NodeOf(to));
  }

  lemma KeyIn(net: Net, node: string, peer: string)
    ensures KeyFor(net, node, peer).Some? <==> node in net.keys && peer in net.keys[node]
    ensures KeyFor(net, node, peer).Some? ==> KeyFor(net, node, peer).value == net.keys[node][peer]
  {
  }

  lemma FailuresAreConcat(net: Net, s: nat, tos: seq<nat>)
    requires s < |net.sessions|
    ensures Failures(net, s, tos) == Concat(tos, SendFailures(net, s))
  {
  }

  lemma FailuresOfOne(net: Net, s: nat, t: nat, to: nat)
    requires s < |net.sessions|
    ensures var f, from := SendFailures(net, s)(t), NodeOf(net.sessions[s].key);
            && (NotEncrypted(to) in f <==> t == to && NodeOf(t) != from && KeyFor(net, from, NodeOf(t)).None?)
            && (NotSent(to) in f <==> t == to && Reached(net, s, t) == [])
  {
    hide NodeOf, Reached, KeyFor;
  }

  lemma UnreachedIff(net: Net, s: nat, to: nat)
    requires WellFormed(net) && s < |net.sessions|
    ensures Reached(net, s, to) == [] <==>
            forall r: nat :: r < |net.sessions| && NodeOf(to) == net.sessions[r].node ==> SubsTo(net, s, r) == 0
  {
    hide *;
    if Reached(net, s, to) != [] {
      assert Reached(net, s, to)[0] in Reached(net, s, to);
      ReachedIff(net, s, to, Reached(net, s, to)[0]);
    }
    forall r: nat | r < |net.sessions| && NodeOf(to) == net.sessions[r].node && SubsTo(net, s, r) > 0
      ensures Reached(net, s, to) != []
    {
      ReachedIff(net, s, to, r);
    }
  }

  // ---------- how often ----------

  /** How many addressees sit on a node. */
  function Hits(tos: seq<nat>, node: string): nat {
    if tos == [] then 0 else (if NodeOf(tos[0]) == node then 1 else 0) + Hits(tos[1..], node)
  }

  lemma {:induction false} HitsConcat(a: seq<nat>, b: seq<nat>, node: string)
    ensures Hits(a + b, node) == Hits(a, node) + Hits(b, node)
  {
    hide NodeOf;
    if a == [] {
      assert a + b == b;
    } else {
      HitsConcat(a[1..], b, node);
      assert (a + b)[1..] == a[1..] + b;
    }
  }

  /** A node is hit at least once by each of its party keys, and once exactly when one addressee sits on it. */
  lemma {:induction false} HitsCount(tos: seq<nat>, node: string)
    ensures Hits(tos, node) == 0 <==> forall i :: 0 <= i < |tos| ==> NodeOf(tos[i]) != node
    ensures Hits(tos, node) <= 1 <==> forall i, j :: 0 <= i < j < |tos| ==> !(NodeOf(tos[i]) == node && NodeOf(tos[j]) == node)
  {
    hide NodeOf;
    if tos != [] {
      var rest := tos[1..];
      HitsCount(rest, node);
      assert forall i :: 0 <= i < |rest| ==> rest[i] == tos[i + 1];
      if Hits(tos, node) == 0 || Hits(tos, node) <= 1 {
        assert forall i :: 0 < i < |tos| ==> tos[i] == rest[i - 1];
      }
    }
  }

  lemma AddressedIsHit(tos: seq<nat>, key: nat)
    requires key in tos
    ensures Hits(tos, NodeOf(key)) >= 1
  {
    HitsCount(tos, NodeOf(key));
  }

  lemma {:induction false} UpdatesOfConcat(net: Net, s: nat, tos: seq<nat>, msg: Message, r: nat)
    requires WellFormed(net) && s < |net.sessions| && r < |net.sessions|
    ensures Updates(DeliverAll(net, s, tos, msg), r) == Hits(tos, net.sessions[r].node) * UpdatesPerSend(net, s, msg, r)
  {
    hide NodeOf, WellFormed, Deliver, UpdatesPerSend;
    if tos != [] {
      var first, rest := Deliver(net, s, tos[0], msg), DeliverAll(net, s, tos[1..], msg);
      var h, n := Hits(tos[1..], net.sessions[r].node), UpdatesPerSend(net, s, msg, r);
      assert DeliverAll(net, s, tos, msg) == first + rest;
      assert Hits(tos, net.sessions[r].node) == if NodeOf(tos[0]) == net.sessions[r].node then 1 + h else h;
      UpdatesOfConcat(net, s, tos[1..], msg, r);
      UpdatesOfDeliver(net, s, tos[0], msg, r);
      hide DeliverAll, Updates, Hits;
      UpdatesConcat(first, rest, r);
      OneMoreTimes(h, n);
    }
  }

  lemma OneMoreTimes(h: nat, n: nat)
    ensures (1 + h) * n == n + h * n
  {
  }

  lemma PerSend(net: Net, s: nat, msg: Message, r: nat)
    requires s < |net.sessions| && r < |net.sessions|
    ensures UpdatesPerSend(net, s, msg, r)
         == if net.sessions[r].key in msg.to && Channel(net, net.sessions[s].node, net.sessions[r].node) then SubsTo(net, s, r) else 0
  {
  }

  /** A session's key is a key of its own node. */
  lemma OwnNode(net: Net, r: nat)
    requires WellFormed(net) && r < |net.sessions|
    ensures GoodInfo(net.sessions[r])
    ensures NodeOf(net.sessions[r].key) == net.sessions[r].node && ':' !in net.sessions[r].node
  {
    hide NodeOf;
  }

  /** The routing law: a message updates a session once for each of its subscriptions to the sender and each addressee
      on its node, provided that its own key is addressed and the two nodes share a key; otherwise not at all. */
  lemma DirectExactness(net: Net, s: nat, msg: Message, r: nat)
    requires WellFormed(net) && s < |net.sessions| && r < |net.sessions|
    ensures Updates(DeliverAll(net, s, msg.to, msg), r)
         == if net.sessions[r].key in msg.to && Channel(net, net.sessions[s].node, net.sessions[r].node)
            then Hits(msg.to, net.sessions[r].node) * SubsTo(net, s, r) else 0
    ensures net.sessions[r].key in msg.to ==> Hits(msg.to, net.sessions[r].node) >= 1
  {
    hide *;
    OwnNode(net, r);
    UpdatesOfConcat(net, s, msg.to, msg, r);
    PerSend(net, s, msg, r);
    if net.sessions[r].key in msg.to {
      AddressedIsHit(msg.to, net.sessions[r].key);
    }
  }
}
