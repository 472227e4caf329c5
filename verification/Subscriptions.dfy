/** Subscriptions of sessions: the NATS subscriptions and the local handler tables, and how opening, subscribing and
    closing change them. */
module Subscriptions {
  import opened GoStrings
  import opened PartyId
  import opened Topics
  import opened Session

  // ---------- subscribing ----------

  function AddSub<K>(m: Tables<K>, k: K, r: nat): Tables<K> {
    m[k := Table(m, k) + [r]]
  }

  function Listened(net: Net, r: nat, topic: string): Net
    requires r < |net.sessions|
  {
    net.(live := AddSub(net.live, topic, r), handlers := AddSub(net.handlers, (net.sessions[r].node, topic), r))
  }

  function Subscribed(net: Net, r: nat, froms: seq<string>): (after: Net)
    requires r < |net.sessions|
    ensures after.sessions == net.sessions && after.keys == net.keys
    decreases |froms|
  {
    if froms == [] then net
    else
      var n := |froms| - 1;
      var before := Subscribed(net, r, froms[..n]);
      Listened(before, r, TopicOf(net.sessions[r], froms[n], NodeOf(net.sessions[r].key)))
  }

  function Filter(refs: seq<nat>, r: nat): seq<nat> {
    if refs == [] then [] else (if refs[0] == r then [] else [refs[0]]) + Filter(refs[1..], r)
  }

  /** Unsubscribing ends the NATS subscription; nothing ever leaves the handler table. */
  function Closed(net: Net, r: nat): Net {
    net.(live := map t | t in net.live :: Filter(net.live[t], r))
  }

  // ---------- how subscriptions evolve ----------

  function LiveSubs(net: Net, r: nat, f: string): nat
    requires r < |net.sessions|
  {
    Mult(Table(net.live, TopicOf(net.sessions[r], f, net.sessions[r].node)), r)
  }

  function LocalSubs(net: Net, r: nat, f: string): nat
    requires r < |net.sessions|
  {
    var info := net.sessions[r];
    Mult(Table(net.handlers, (info.node, TopicOf(info, f, info.node))), r)
  }

  /** Both tables list session r once for each of these senders and for nobody else. */
  ghost predicate ListensTo(net: Net, r: nat, froms: seq<string>) {
    && r < |net.sessions|
    && forall f: string :: ':' !in f ==> LiveSubs(net, r, f) == LocalSubs(net, r, f) == if f in froms then 1 else 0
  }

  /** Session r is closed: no live subscription, while its local handlers stay as they were. */
  ghost predicate Gone(net: Net, r: nat) {
    r < |net.sessions| && forall f: string :: ':' !in f ==> LiveSubs(net, r, f) == 0
  }

  /** Session r has one more subscription to this sender in both tables, and nothing else has changed. */
  ghost predicate OneMore(before: Net, after: Net, r: nat, f: string) {
    && after.sessions == before.sessions && after.keys == before.keys
    && forall q: nat, g: string :: q < |before.sessions| && ':' !in g ==>
         var extra := if q == r && g == f then 1 else 0;
         LiveSubs(after, q, g) == LiveSubs(before, q, g) + extra && LocalSubs(after, q, g) == LocalSubs(before, q, g) + extra
  }

  /** Session r has lost its live subscriptions, and nothing else has changed. */
  ghost predicate OnlyGone(before: Net, after: Net, r: nat) {
    && after.sessions == before.sessions && after.keys == before.keys && Gone(after, r)
    && forall q: nat, g: string :: q < |before.sessions| && ':' !in g ==>
         (q != r ==> LiveSubs(after, q, g) == LiveSubs(before, q, g)) && LocalSubs(after, q, g) == LocalSubs(before, q, g)
  }

  lemma AddSubMult<K>(m: Tables<K>, k: K, r: nat, k': K, q: nat)
    ensures Mult(Table(AddSub(m, k, r), k'), q) == Mult(Table(m, k'), q) + if k == k' && q == r then 1 else 0
  {
  }

  lemma ListenedCounts(net: Net, r: nat, f: string, q: nat, g: string)
    requires r < |net.sessions| && q < |net.sessions| && ':' !in f && ':' !in g
    requires GoodInfo(net.sessions[r]) && GoodInfo(net.sessions[q])
    ensures var after := Listened(net, r, TopicOf(net.sessions[r], f, net.sessions[r].node));
            var extra := if q == r && f == g then 1 else 0;
            LiveSubs(after, q, g) == LiveSubs(net, q, g) + extra && LocalSubs(after, q, g) == LocalSubs(net, q, g) + extra
  {
    var ir, iq := net.sessions[r], net.sessions[q];
    var t, u := TopicOf(ir, f, ir.node), TopicOf(iq, g, iq.node);
    AddSubMult(net.live, t, r, u, q);
    AddSubMult(net.handlers, (ir.node, t), r, (iq.node, u), q);
    if t == u {
      TopicInjective(ir.protocol, ir.curve, f, ir.node, TopicId(ir), iq.protocol, iq.curve, g, iq.node, TopicId(iq));
    }
  }

  lemma {:induction false} SubscribedCounts(net: Net, r: nat, froms: seq<string>, q: nat, g: string)
    requires r < |net.sessions| && q < |net.sessions| && ':' !in g
    requires GoodInfo(net.sessions[r]) && GoodInfo(net.sessions[q])
    requires Distinct(froms) && forall f :: f in froms ==> ':' !in f
    ensures var after := Subscribed(net, r, froms);
            var extra := if q == r && g in froms then 1 else 0;
            LiveSubs(after, q, g) == LiveSubs(net, q, g) + extra && LocalSubs(after, q, g) == LocalSubs(net, q, g) + extra
    decreases |froms|
  {
    if froms == [] {
      hide NodeOf, DirectTopic, LiveSubs, LocalSubs;
    } else {
      hide *;
      var n := |froms| - 1;
      SubscribedStep(net, r, froms);
      LastIsNew(froms, g);
      SubscribedCounts(net, r, froms[..n], q, g);
      ListenedCounts(Subscribed(net, r, froms[..n]), r, froms[n], q, g);
    }
  }

  /** Subscribing to the last sender comes last. */
  lemma SubscribedStep(net: Net, r: nat, froms: seq<string>)
    requires r < |net.sessions| && froms != [] && GoodInfo(net.sessions[r])
    ensures var n := |froms| - 1; var before := Subscribed(net, r, froms[..n]);
            && before.sessions == net.sessions
            && Subscribed(net, r, froms) == Listened(before, r, TopicOf(net.sessions[r], froms[n], net.sessions[r].node))
  {
    hide NodeOf, TopicOf, Listened;
  }

  lemma LastIsNew(froms: seq<string>, g: string)
    requires froms != [] && Distinct(froms)
    ensures var n := |froms| - 1;
            && Distinct(froms[..n]) && froms[n] !in froms[..n] && froms[n] in froms
            && (g in froms <==> g in froms[..n] || g == froms[n])
            && forall f :: f in froms[..n] ==> f in froms
  {
    var n := |froms| - 1;
    assert froms == froms[..n] + [froms[n]];
  }

  lemma ListenedWellFormed(net: Net, r: nat, f: string)
    requires WellFormed(net) && r < |net.sessions| && ':' !in f
    ensures WellFormed(Listened(net, r, TopicOf(net.sessions[r], f, net.sessions[r].node)))
  {
    var t := TopicOf(net.sessions[r], f, net.sessions[r].node);
    assert Composed(net.sessions[r], t);
    var after := Listened(net, r, t);
    forall u, q: nat | q in Table(after.live, u)
      ensures ComposedBy(after.sessions, q, u)
    {
      assert q in Table(net.live, u) || (u == t && q == r);
    }
    forall k: (string, string), q: nat | q in Table(after.handlers, k)
      ensures HandledBy(after.sessions, q, k)
    {
      assert q in Table(net.handlers, k) || (k == (net.sessions[r].node, t) && q == r);
    }
  }

  lemma {:induction false} SubscribedWellFormed(net: Net, r: nat, froms: seq<string>)
    requires WellFormed(net) && r < |net.sessions| && forall f :: f in froms ==> ':' !in f
    ensures WellFormed(Subscribed(net, r, froms))
    decreases |froms|
  {
    if froms != [] {
      var n := |froms| - 1;
      SubscribedWellFormed(net, r, froms[..n]);
      ListenedWellFormed(Subscribed(net, r, froms[..n]), r, froms[n]);
    }
  }

  lemma ListenedIsOneMore(net: Net, r: nat, f: string)
    requires WellFormed(net) && r < |net.sessions| && ':' !in f
    ensures NodeOf(net.sessions[r].key) == net.sessions[r].node
    ensures var after := Listened(net, r, TopicOf(net.sessions[r], f, net.sessions[r].node));
            WellFormed(after) && OneMore(net, after, r, f)
  {
    hide WellFormed, GoodInfo, LiveSubs, LocalSubs, NodeOf, DirectTopic;
    OwnNode(net, r);
    ListenedWellFormed(net, r, f);
    var after := Listened(net, r, TopicOf(net.sessions[r], f, net.sessions[r].node));
    assert after.sessions == net.sessions && after.keys == net.keys;
    hide Listened;
    forall q: nat, g: string | q < |net.sessions| && ':' !in g
      ensures var extra := if q == r && f == g then 1 else 0;
              LiveSubs(after, q, g) == LiveSubs(net, q, g) + extra && LocalSubs(after, q, g) == LocalSubs(net, q, g) + extra
    {
      OwnNode(net, q);
      ListenedCounts(net, r, f, q, g);
    }
  }

  function Extended(net: Net, info: Info): Net {
    net.(sessions := net.sessions + [info])
  }

  function Opened(net: Net, info: Info, froms: seq<string>): Net {
    Subscribed(Extended(net, info), |net.sessions|, froms)
  }

  lemma ExtendedWellFormed(net: Net, info: Info)
    requires WellFormed(net) && GoodInfo(info)
    ensures WellFormed(Extended(net, info))
  {
    hide NodeOf, DirectTopic;
    var mid := Extended(net, info);
    forall t, q: nat | ComposedBy(net.sessions, q, t)
      ensures ComposedBy(mid.sessions, q, t) && mid.sessions[q] == net.sessions[q]
    {
    }
    forall k: (string, string), q: nat | HandledBy(net.sessions, q, k)
      ensures HandledBy(mid.sessions, q, k)
    {
      assert ComposedBy(mid.sessions, q, k.1);
    }
  }

  lemma FreshIsSilent(net: Net, info: Info, g: string)
    requires WellFormed(net)
    ensures LiveSubs(Extended(net, info), |net.sessions|, g) == LocalSubs(Extended(net, info), |net.sessions|, g) == 0
  {
    hide NodeOf, DirectTopic;
    var t, r := TopicOf(info, g, info.node), |net.sessions|;
    assert !ComposedBy(net.sessions, r, t) && !HandledBy(net.sessions, r, (info.node, t));
    assert r !in Table(net.live, t) && r !in Table(net.handlers, (info.node, t));
  }

  lemma OpenedCounts(net: Net, info: Info, froms: seq<string>, q: nat, g: string)
    requires WellFormed(net) && GoodInfo(info) && q <= |net.sessions| && ':' !in g
    requires Distinct(froms) && forall f :: f in froms ==> ':' !in f
    ensures var after := Opened(net, info, froms);
            if q < |net.sessions| then
              LiveSubs(after, q, g) == LiveSubs(net, q, g) && LocalSubs(after, q, g) == LocalSubs(net, q, g)
            else
              LiveSubs(after, q, g) == LocalSubs(after, q, g) == if g in froms then 1 else 0
  {
    hide NodeOf, DirectTopic, Subscribed;
    ExtendedWellFormed(net, info);
    FreshIsSilent(net, info, g);
    SubscribedCounts(Extended(net, info), |net.sessions|, froms, q, g);
  }

  /** Opening a session makes it listen to its senders once each and leaves every other session as it was. */
  lemma OpenedListens(net: Net, info: Info, froms: seq<string>)
    requires WellFormed(net) && GoodInfo(info)
    requires Distinct(froms) && forall f :: f in froms ==> ':' !in f
    ensures Opened(net, info, froms).sessions == net.sessions + [info]
    ensures WellFormed(Opened(net, info, froms)) && ListensTo(Opened(net, info, froms), |net.sessions|, froms)
    ensures forall q: nat, g: string :: q < |net.sessions| && ':' !in g ==>
              && LiveSubs(Opened(net, info, froms), q, g) == LiveSubs(net, q, g)
              && LocalSubs(Opened(net, info, froms), q, g) == LocalSubs(net, q, g)
  {
    hide NodeOf, DirectTopic, LiveSubs, LocalSubs;
    ExtendedWellFormed(net, info);
    SubscribedWellFormed(Extended(net, info), |net.sessions|, froms);
    forall q: nat, g: string | q <= |net.sessions| && ':' !in g
      ensures var after := Opened(net, info, froms);
            if q < |net.sessions| then
              LiveSubs(after, q, g) == LiveSubs(net, q, g) && LocalSubs(after, q, g) == LocalSubs(net, q, g)
            else
              LiveSubs(after, q, g) == LocalSubs(after, q, g) == if g in froms then 1 else 0
    {
      OpenedCounts(net, info, froms, q, g);
    }
  }

  lemma {:induction false} FilterMult(refs: seq<nat>, r: nat, q: nat)
    ensures Mult(Filter(refs, r), q) == if q == r then 0 else Mult(refs, q)
  {
    if refs != [] {
      FilterMult(refs[1..], r, q);
      assert refs == [refs[0]] + refs[1..];
    }
  }

  /** Closing a session ends its live subscriptions, and only these: its local handlers stay registered. */
  lemma ClosedIsGone(net: Net, r: nat)
    requires WellFormed(net) && r < |net.sessions|
    ensures WellFormed(Closed(net, r)) && OnlyGone(net, Closed(net, r), r)
  {
    var after := Closed(net, r);
    forall t, q: nat | q in Table(after.live, t)
      ensures ComposedBy(after.sessions, q, t)
    {
      FilterMult(net.live[t], r, q);
      assert Mult(after.live[t], q) > 0;
      assert q in multiset(Table(net.live, t));
    }
    forall q: nat, g: string | q < |net.sessions| && ':' !in g
      ensures LiveSubs(after, q, g) == if q == r then 0 else LiveSubs(net, q, g)
    {
      var t := TopicOf(net.sessions[q], g, net.sessions[q].node);
      FilterMult(Table(net.live, t), r, q);
    }
  }
}
