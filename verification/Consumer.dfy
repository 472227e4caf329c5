/** The JetStream consumers of pkg/eventconsumer (keygen.go, signing.go, resharing.go): how one delivery is forwarded,
    polled for and settled. Time is in milliseconds. */
module Consumer {
  import Bridge
  import Topics

  datatype Settlement = Ack | Nak

  /** What NextMsg answers, and the time from one look at the clock to the next. */
  datatype Poll = TimedOut(elapsed: nat) | Failed(elapsed: nat) | Received(elapsed: nat)

  const ResponseTimeout: nat := 30000
  const ResharingTimeout: nat := 60000
  const PollingInterval: nat := 500

  /** A poll that times out has waited for the whole interval. */
  ghost predicate Paced(polls: nat -> Poll) {
    forall i: nat :: polls(i).TimedOut? ==> polls(i).elapsed >= PollingInterval
  }

  /** The time spent in the first k polls. */
  ghost function Elapsed(polls: nat -> Poll, k: nat): nat {
    if k == 0 then 0 else Elapsed(polls, k - 1) + polls(k - 1).elapsed
  }

  ghost predicate Silent(polls: nat -> Poll, k: nat) {
    forall i: nat :: i < k ==> polls(i).TimedOut?
  }

  /** A reply comes at poll k: nothing but timeouts before it, and the deadline not yet passed when it starts. */
  ghost predicate RepliesAt(polls: nat -> Poll, timeout: nat, k: nat) {
    Silent(polls, k) && Elapsed(polls, k) < timeout && polls(k).Received?
  }

  ghost predicate Replies(polls: nat -> Poll, timeout: nat) {
    exists k: nat :: RepliesAt(polls, timeout, k)
  }

  lemma {:induction false} ElapsedAtLeast(polls: nat -> Poll, k: nat)
    requires Paced(polls) && Silent(polls, k)
    ensures Elapsed(polls, k) >= PollingInterval * k
  {
    if k > 0 {
      ElapsedAtLeast(polls, k - 1);
    }
  }

  lemma {:induction false} ElapsedMonotone(polls: nat -> Poll, i: nat, k: nat)
    requires i <= k
    ensures Elapsed(polls, i) <= Elapsed(polls, k)
  {
    if i < k {
      ElapsedMonotone(polls, i, k - 1);
    }
  }

  lemma NoReplyAt(polls: nat -> Poll, timeout: nat, k: nat, j: nat)
    requires Silent(polls, k) && (Elapsed(polls, k) >= timeout || polls(k).Failed?)
    ensures !RepliesAt(polls, timeout, j)
  {
    if j < k {
      assert polls(j).TimedOut?;
    } else if j > k {
      ElapsedMonotone(polls, k, j);
      hide Elapsed;
      assert Silent(polls, j) ==> polls(k).TimedOut?;
    }
  }

  /** After k silent polls, a later reply would need the deadline to be ahead and poll k not to fail. */
  lemma NoReply(polls: nat -> Poll, timeout: nat, k: nat)
    requires Silent(polls, k) && (Elapsed(polls, k) >= timeout || polls(k).Failed?)
    ensures !Replies(polls, timeout)
  {
    hide Silent, Elapsed, RepliesAt;
    forall j: nat
      ensures !RepliesAt(polls, timeout, j)
    {
      NoReplyAt(polls, timeout, k, j);
    }
  }

  /** The bound on polls is reached: a request nobody answers is polled for exactly timeout / interval times. */
  lemma {:induction false} SteadyElapsed(polls: nat -> Poll, k: nat)
    requires forall i: nat :: polls(i) == TimedOut(PollingInterval)
    ensures Silent(polls, k) && Elapsed(polls, k) == PollingInterval * k
    ensures Elapsed(polls, k) < ResponseTimeout <==> k < 60
    ensures Elapsed(polls, k) < ResharingTimeout <==> k < 120
  {
    if k > 0 {
      SteadyElapsed(polls, k - 1);
    }
  }

  /** A JetStream delivery, with the settlements it was sent. */
  class Message {
    const base: string
    const header: string
    var settled: seq<Settlement>

    constructor (base: string, header: string)
      ensures this.base == base && this.header == header && settled == []
    {
      this.base, this.header := base, header;
      settled := [];
    }

    method Settle(s: Settlement)
      modifies this
      ensures settled == old(settled) + [s]
    {
      settled := settled + [s];
    }
  }

  class EventConsumer {
    /** Message ids enqueued to the result queue by this consumer itself. */
    var results: seq<string>

    constructor ()
      ensures results == []
    {
      results := [];
    }

    /** handleKeygenError, handleSigningError and handleResharingError. */
    method HandleError(kind: Topics.Protocol, msg: Message)
      modifies this
      ensures results == old(results) + [Bridge.ResultKey(kind, msg.base, msg.header)]
    {
      results := results + [Bridge.ResultKey(kind, msg.base, msg.header)];
    }

    /** keygen.go: the loop runs while the clock is before the deadline; an error breaks out of it. */
    method HandleKeygenEvent(msg: Message, decoded: bool, allReady: bool, subscribed: bool, published: bool, polls: nat -> Poll)
      returns (made: nat)
      requires Paced(polls)
      modifies this, msg
      ensures var rejected := !decoded || !allReady;
              && msg.settled == old(msg.settled) +
                 [if rejected || (subscribed && published && Replies(polls, ResponseTimeout)) then Ack else Nak]
              && results == old(results) + if rejected then [Bridge.ResultKey(Topics.Keygen, msg.base, msg.header)] else []
      ensures made <= 60
    {
      made := 0;
      if !decoded || !allReady {
        HandleError(Topics.Keygen, msg);
        msg.Settle(Ack);
        return;
      }
      if !subscribed || !published {
        msg.Settle(Nak);
        return;
      }
      var now := 0;
      var broken := false;
      while !broken && now < ResponseTimeout
        invariant !broken ==> Silent(polls, made) && now == Elapsed(polls, made)
        invariant made <= 60 && (made == 60 && !broken ==> now >= ResponseTimeout)
        invariant broken ==> !Replies(polls, ResponseTimeout)
        invariant msg.settled == old(msg.settled) && results == old(results)
        decreases !broken, ResponseTimeout - now
      {
        ElapsedAtLeast(polls, made);
        var reply := polls(made);
        match reply {
          case TimedOut(elapsed) =>
            now := now + elapsed;
          case Failed(_) =>
            NoReply(polls, ResponseTimeout, made);
            broken := true;
          case Received(_) =>
            assert RepliesAt(polls, ResponseTimeout, made);
            made := made + 1;
            msg.Settle(Ack);
            return;
        }
        made := made + 1;
      }
      if !broken {
        NoReply(polls, ResponseTimeout, made);
      }
      msg.Settle(Nak);
    }

    /** signing.go: the loop looks at the context first; every way out settles for itself. */
    method HandleSigningEvent(msg: Message, decoded: bool, majorityReady: bool, subscribed: bool, published: bool, polls: nat -> Poll)
      returns (made: nat)
      requires Paced(polls)
      modifies this, msg
      ensures var rejected := !decoded || !majorityReady;
              && msg.settled == old(msg.settled) +
                 [if rejected || (subscribed && published && Replies(polls, ResponseTimeout)) then Ack else Nak]
              && results == old(results) + if rejected then [Bridge.ResultKey(Topics.Signing, msg.base, msg.header)] else []
      ensures made <= 60
    {
      made := 0;
      if !decoded || !majorityReady {
        HandleError(Topics.Signing, msg);
        msg.Settle(Ack);
        return;
      }
      if !subscribed || !published {
        msg.Settle(Nak);
        return;
      }
      made := PollForReply(msg, ResponseTimeout, polls);
    }

    /** resharing.go: no look at the peers, and twice the time. */
    method HandleResharingEvent(msg: Message, decoded: bool, subscribed: bool, published: bool, polls: nat -> Poll)
      returns (made: nat)
      requires Paced(polls)
      modifies this, msg
      ensures msg.settled == old(msg.settled) +
              [if !decoded || (subscribed && published && Replies(polls, ResharingTimeout)) then Ack else Nak]
      ensures results == old(results) + if !decoded then [Bridge.ResultKey(Topics.Resharing, msg.base, msg.header)] else []
      ensures made <= 120
    {
      made := 0;
      if !decoded {
        HandleError(Topics.Resharing, msg);
        msg.Settle(Ack);
        return;
      }
      if !subscribed || !published {
        msg.Settle(Nak);
        return;
      }
      made := PollForReply(msg, ResharingTimeout, polls);
    }

    /** The select loop that signing.go and resharing.go share. */
    method PollForReply(msg: Message, timeout: nat, polls: nat -> Poll) returns (made: nat)
      requires Paced(polls)
      modifies msg
      ensures msg.settled == old(msg.settled) + [if Replies(polls, timeout) then Ack else Nak]
      ensures made == 0 || PollingInterval * (made - 1) < timeout
    {
      made := 0;
      var now := 0;
      while true
        invariant Silent(polls, made) && now == Elapsed(polls, made)
        invariant made == 0 || PollingInterval * (made - 1) < timeout
        invariant msg.settled == old(msg.settled)
        decreases timeout - now
      {
        if now >= timeout {
          NoReply(polls, timeout, made);
          msg.Settle(Nak);
          return;
        }
        ElapsedAtLeast(polls, made);
        var reply := polls(made);
        made := made + 1;
        match reply {
          case TimedOut(elapsed) =>
            now := now + elapsed;
          case Failed(_) =>
            NoReply(polls, timeout, made - 1);
            msg.Settle(Nak);
            return;
          case Received(_) =>
            assert RepliesAt(polls, timeout, made - 1);
            msg.Settle(Ack);
            return;
        }
      }
    }
  }
}
