/** The messaging fabric as one object: pkg/messaging/p2p.go with the sending and subscribing methods of
    pkg/mpc/core/session.go. */
module Fabric {
  import opened GoStrings
  import opened PartyId
  import opened Topics
  import opened Session
  import opened Subscriptions

  class Fabric {
    var sessions: seq<Info>
    var live: Tables<string>
    var handlers: Tables<(string, string)>
    var keys: map<string, map<string, SymmetricKey>>
    // every call of UpdateFromBytes, in order
    var updates: seq<(nat, Message)>
    // the error channel
    var failed: seq<Failure>

    function State(): Net
      reads this
    {
      Net(sessions, live, handlers, keys)
    }

    /** subscribeDirectTopicAsync on the topic for this sender: the session gets one more subscription to it, on NATS
        and in the local table, and every other count stays. */
    method Listen(r: nat, from: string)
      requires r < |sessions|
      modifies this`live, this`handlers
      ensures State() == Listened(old(State()), r, TopicOf(sessions[r], from, NodeOf(sessions[r].key)))
      ensures old(WellFormed(State())) && ':' !in from ==> WellFormed(State()) && OneMore(old(State()), State(), r, from)
    {
      var topic := TopicOf(sessions[r], from, NodeOf(sessions[r].key));
      live := live[topic := Table(live, topic) + [r]];
      var k := (sessions[r].node, topic);
      handlers := handlers[k := Table(handlers, k) + [r]];
      if old(WellFormed(State())) && ':' !in from {
        ListenedIsOneMore(old(State()), r, from);
      }
    }

    method SubscribeFromPeers(r: nat, fromIDs: seq<string>)
      requires r < |sessions|
      modifies this`live, this`handlers
      ensures State() == Subscribed(old(State()), r, fromIDs)
    {
      for i := 0 to |fromIDs|
        invariant State() == Subscribed(old(State()), r, fromIDs[..i])
      {
        assert fromIDs[..i + 1][..i] == fromIDs[..i];
        Listen(r, fromIDs[i]);
      }
      assert fromIDs[..|fromIDs|] == fromIDs;
    }

    /** A new session that listens to these senders. */
    method Open(info: Info, fromIDs: seq<string>) returns (r: nat)
      modifies this`sessions, this`live, this`handlers
      ensures r == |old(sessions)|
      ensures State() == Subscribed(old(State()).(sessions := old(sessions) + [info]), r, fromIDs)
    {
      r := |sessions|;
      sessions := sessions + [info];
      SubscribeFromPeers(r, fromIDs);
    }

    /** Nothing reaches the session over NATS any more; the other sessions and all local handlers are as before. */
    method Close(r: nat)
      modifies this`live
      ensures State() == Closed(old(State()), r)
      ensures old(WellFormed(State())) && r < |sessions| ==> WellFormed(State()) && OnlyGone(old(State()), State(), r)
    {
      live := map t | t in live :: Filter(live[t], r);
      if old(WellFormed(State())) && r < |sessions| {
        ClosedIsGone(old(State()), r);
      }
    }

    /** Calls the registered handlers one after the other. */
    method Invoke(refs: seq<nat>, receive: nat -> Option<Message>)
      modifies this`updates
      ensures updates == old(updates) + Fanout(refs, receive)
    {
      for i := 0 to |refs|
        invariant updates + Fanout(refs[i..], receive) == old(updates) + Fanout(refs, receive)
      {
        assert refs[i..][1..] == refs[i + 1..];
        var got := receive(refs[i]);
        if got.Some? {
          updates := updates + [(refs[i], got.value)];
        }
      }
    }

    method SendToSelf(node: string, topic: string, p: Payload) returns (ok: bool)
      modifies this`updates
      ensures ok <==> Table(handlers, (node, topic)) != []
      ensures updates == old(updates) + Fanout(Table(handlers, (node, topic)), Receiver(State(), topic, p))
    {
      var refs := Table(handlers, (node, topic));
      if refs == [] {
        return false;
      }
      Invoke(refs, Receiver(State(), topic, p));
      return true;
    }

    method SendToOther(topic: string, p: Payload) returns (ok: bool)
      modifies this`updates
      ensures ok <==> Table(live, topic) != []
      ensures updates == old(updates) + Fanout(Table(live, topic), Receiver(State(), topic, p))
    {
      Invoke(Table(live, topic), Receiver(State(), topic, p));
      return Table(live, topic) != [];
    }

    /** One addressee. A failed encryption is reported and the send goes on with nil. */
    method Send(s: nat, to: nat, msg: Message)
      requires s < |sessions|
      modifies this`updates, this`failed
      ensures updates == old(updates) + Delivery(State(), s, msg)(to)
      ensures failed == old(failed) + SendFailures(State(), s)(to)
    {
      hide NodeOf, DirectTopic, ExtractSender, Fanout;
      var selfID, toNodeID := NodeOf(sessions[s].key), NodeOf(to);
      var topic := TopicOf(sessions[s], selfID, toNodeID);
      var ok;
      if selfID == toNodeID {
        ok := SendToSelf(sessions[s].node, topic, Clear(msg));
      } else {
        if KeyFor(State(), selfID, toNodeID).None? {
          failed := failed + [NotEncrypted(to)];
        }
        ok := SendToOther(topic, Encrypt(State(), selfID, toNodeID, msg));
      }
      if !ok {
        failed := failed + [NotSent(to)];
      }
    }

    /** HandleTssMessage for a message with addressees. Every update is with this message. */
    method HandleTssMessage(s: nat, msg: Message)
      requires s < |sessions|
      modifies this`updates, this`failed
      ensures updates == old(updates) + DeliverAll(State(), s, msg.to, msg)
      ensures old(updates) <= updates && forall i :: |old(updates)| <= i < |updates| ==> updates[i].1 == msg
      ensures failed == old(failed) + Failures(State(), s, msg.to)
    {
      hide Delivery, SendFailures, NodeOf;
      ghost var deliver, failures := Delivery(State(), s, msg), SendFailures(State(), s);
      for i := 0 to |msg.to|
        invariant updates + Concat(msg.to[i..], deliver) == old(updates) + Concat(msg.to, deliver)
        invariant failed + Concat(msg.to[i..], failures) == old(failed) + Concat(msg.to, failures)
      {
        ConcatStep(updates, msg.to, i, deliver);
        ConcatStep(failed, msg.to, i, failures);
        Send(s, msg.to[i], msg);
      }
      UpdatesCarry(State(), s, msg.to, msg);
    }
  }

  lemma ConcatStep<T>(done: seq<T>, tos: seq<nat>, i: nat, f: nat -> seq<T>)
    requires i < |tos|
    ensures done + Concat(tos[i..], f) == done + f(tos[i]) + Concat(tos[i + 1..], f)
  {
    assert tos[i..][1..] == tos[i + 1..];
  }
}
