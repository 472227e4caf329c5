/** What the handlers' ways lead to: a thread that has finished an answering way has filed a result and replied, its
    request can be acknowledged, and every request can be brought that far. */
module Answers {
  import opened GoStrings
  import opened Topics
  import opened Bridge
  import opened Outcomes

  /** The ways that end in a result and a reply. */
  predicate Answering(p: Path) {
    match p
    case OfKeygen(k) => k in {VerifyFails, CreateFails, SessionFails, TimesOut, Succeeds}
    case OfSigning(s) => s in {DuplicateSession, CreationFails, InitFails, SigningFails, Signs}
    case OfResharing(r) => r in {Fails, NewMemberDone}
  }

  /** The success of a resharing is filed under the session id of the request, everything else under the wallet or
      transaction. */
  function FiledUnder(e: Event, p: Path): string {
    if p == OfResharing(NewMemberDone) then e.session else e.base
  }

  /** Answering ways enqueue one result and then reply; a leaving member and a node outside both committees reply only;
      all other ways do nothing. */
  lemma EffectsAre(e: Event, p: Path)
    requires Fits(e, p)
    ensures Effects(e, p) == if Answering(p) then [Enqueue(FiledUnder(e, p)), Reply]
                             else if p == OfResharing(NotInvolved) || p == OfResharing(OldMemberDone) then [Reply] else []
  {
  }

  /** The message ids, spelled out. */
  lemma ResultKeyForms()
    ensures ResultKey(Keygen, "w", "s") == "mpc.mpc_keygen_result.w:s" && ResultKey(Keygen, "w", "") == "mpc.mpc_keygen_result.w"
    ensures ResultKey(Signing, "t", "s") == "mpc.mpc_signing_result.t:s"
    ensures ResultKey(Resharing, "w", "s") == "mpc.mpc_resharing_result.w:s"
  {
  }

  // ---------- a thread on its way ----------

  ghost predicate Progress(s: State, th: Thread, base: string) {
    && th in s.threads && th.sid in s.events
    && var key := ResultKey(s.events[th.sid].kind, base, th.sid);
    || s.threads[th] == [Enqueue(base), Reply]
    || (s.threads[th] == [Reply] && key in KeysOf(s.queue))
    || (s.threads[th] == [] && key in KeysOf(s.queue) && th.sid in s.replies)
  }

  lemma StepKeepsProgress(s: State, step: Step, th: Thread, base: string)
    requires Inv(s) && Apply(s, step).Some? && Progress(s, th, base)
    ensures var u := Apply(s, step).value; Progress(u, th, base) && u.events[th.sid] == s.events[th.sid]
  {
    var u := Apply(s, step).value;
    match step
    case Reject(id) =>
      var d := s.deliveries[id];
      PushKeys(s.queue, Entry(ResultKey(d.kind, d.base, d.header), FromConsumer(id)));
    case Perform(o) =>
      if s.threads[o][0].Enqueue? {
        PushKeys(s.queue, Entry(ResultKey(s.events[o.sid].kind, s.threads[o][0].base, o.sid), FromEvent(o.sid)));
      }
    case _ =>
    hide KeysOf, ResultKey, Push, Inv;
  }

  lemma BeginMakesProgress(s: State, th: Thread, path: Path)
    requires Apply(s, Begin(th, path)).Some? && Answering(path)
    ensures th.sid in s.events
    ensures var u := Apply(s, Begin(th, path)).value;
            u.events == s.events && Progress(u, th, FiledUnder(s.events[th.sid], path))
  {
    EffectsAre(s.events[th.sid], path);
  }

  lemma {:induction false} ThreadProgress(steps: seq<Step>, i: nat, th: Thread, path: Path)
    requires Run(steps).Some? && i < |steps| && steps[i] == Begin(th, path) && Answering(path)
    ensures th.sid in Run(steps).value.events
    ensures Progress(Run(steps).value, th, FiledUnder(Run(steps).value.events[th.sid], path))
  {
    var n := |steps| - 1;
    RunParts(steps);
    hide Run, Apply, Progress, Inv, Answering;
    var s := Run(steps[..n]).value;
    if i == n {
      BeginMakesProgress(s, th, path);
    } else {
      ThreadProgress(steps[..n], i, th, path);
      RunKeepsInv(steps[..n]);
      StepKeepsProgress(s, steps[n], th, FiledUnder(s.events[th.sid], path));
    }
  }

  /** Over every run: once a thread on an answering way has nothing left to do, a result stands under the message id of its
      event, its reply is out, and any delivery that waits for it can be acknowledged. */
  lemma FinishedIsAnswered(steps: seq<Step>, i: nat, th: Thread, path: Path)
    requires Run(steps).Some? && i < |steps| && steps[i] == Begin(th, path) && Answering(path)
    requires th in Run(steps).value.threads && Run(steps).value.threads[th] == []
    ensures var s := Run(steps).value;
            && th.sid in s.events && th.sid in s.replies
            && ResultKey(s.events[th.sid].kind, FiledUnder(s.events[th.sid], path), th.sid) in KeysOf(s.queue)
            && forall id :: id in s.deliveries && s.deliveries[id].phase == Waiting(th.sid) ==>
                 && Apply(s, AckReply(id)).Some?
                 && Apply(s, AckReply(id)).value.deliveries == s.deliveries[id := s.deliveries[id].(phase := Acked(Some(th.sid)))]
  {
    ThreadProgress(steps, i, th, path);
    hide Run, KeysOf, ResultKey, Apply, Answering;
    var s := Run(steps).value;
    forall id | id in s.deliveries && s.deliveries[id].phase == Waiting(th.sid)
      ensures Apply(s, AckReply(id)).Some?
      ensures Apply(s, AckReply(id)).value.deliveries == s.deliveries[id := s.deliveries[id].(phase := Acked(Some(th.sid)))]
    {
      AckReplyActs(s, id, th.sid);
    }
  }

  lemma AckReplyActs(s: State, id: nat, sid: string)
    requires id in s.deliveries && s.deliveries[id].phase == Waiting(sid) && sid in s.replies
    ensures Apply(s, AckReply(id)).Some?
    ensures Apply(s, AckReply(id)).value.deliveries == s.deliveries[id := s.deliveries[id].(phase := Acked(Some(sid)))]
  {
  }

  // ---------- every request can be brought to an end ----------

  /** A handler that takes an answering way on the event of a waiting delivery brings it to an acknowledgement and a
      result. */
  lemma AnswerCompletes(steps: seq<Step>, id: nat, sid: string, th: Thread, path: Path) returns (more: seq<Step>)
    requires Run(steps).Some? && id in Run(steps).value.deliveries && Run(steps).value.deliveries[id].phase == Waiting(sid)
    requires th !in Run(steps).value.threads && th.sid == sid && sid in Run(steps).value.events
    requires Fits(Run(steps).value.events[sid], path) && Answering(path)
    ensures more == steps + [Begin(th, path)] + [Perform(th)] + [Perform(th)] + [AckReply(id)] && Run(more).Some?
    ensures var s, u := Run(steps).value, Run(more).value; var e := s.events[sid];
            && u.deliveries == s.deliveries[id := s.deliveries[id].(phase := Acked(Some(sid)))]
            && u.events == s.events && KeysOf(u.queue) == KeysOf(s.queue) + {ResultKey(e.kind, FiledUnder(e, path), sid)}
  {
    var s := Run(steps).value;
    var e := s.events[sid];
    EffectsAre(e, path);
    hide Run, KeysOf, ResultKey, Push, Effects, Answering, FiledUnder, Fits;
    var base := FiledUnder(e, path);
    var entry := Entry(ResultKey(e.kind, base, sid), FromEvent(sid));
    PushKeys(s.queue, entry);
    var s1 := s.(threads := s.threads[th := [Enqueue(base), Reply]]);
    more := Take(steps, s, Begin(th, path), s1);
    var s2 := s1.(threads := s1.threads[th := [Reply]], queue := Push(s.queue, entry));
    assert [Enqueue(base), Reply][1..] == [Reply] && [Reply][1..] == [];
    more := Take(more, s1, Perform(th), s2);
    var s3 := s2.(threads := s2.threads[th := []], replies := s2.replies + {sid});
    more := Take(more, s2, Perform(th), s3);
    more := Take(more, s3, AckReply(id), Moved(s3, id, Acked(Some(sid))));
  }

  /** Any new request can be fetched, forwarded under a fresh session id, answered by a node and acknowledged. */
  lemma RequestCompletes(steps: seq<Step>, id: nat, kind: Protocol, base: string, session: string, header: string, sid: string,
                         th: Thread, path: Path) returns (more: seq<Step>)
    requires Run(steps).Some? && id !in Run(steps).value.deliveries && sid !in Run(steps).value.events && sid != "" && ':' !in sid
    requires th !in Run(steps).value.threads && th.sid == sid && Fits(Event(kind, base, session), path) && Answering(path)
    ensures Run(more).Some?
    ensures var s, u := Run(steps).value, Run(more).value; var e := Event(kind, base, session);
            && u.deliveries == s.deliveries[id := Delivery(kind, base, session, header, Acked(Some(sid)))]
            && u.events == s.events[sid := e]
            && KeysOf(u.queue) == KeysOf(s.queue) + {ResultKey(kind, FiledUnder(e, path), sid)}
  {
    hide Run, KeysOf, ResultKey, Answering, Fits;
    var s := Run(steps).value;
    var d := Delivery(kind, base, session, header, Fetched);
    var s1 := s.(deliveries := s.deliveries[id := d]);
    more := Take(steps, s, Fetch(id, kind, base, session, header), s1);
    var s2 := s1.(deliveries := s1.deliveries[id := d.(phase := Waiting(sid))], events := s.events[sid := Event(kind, base, session)]);
    more := Take(more, s1, Forward(id, sid), s2);
    assert s2.deliveries == s.deliveries[id := d.(phase := Waiting(sid))];
    more := AnswerCompletes(more, id, sid, th, path);
  }

  /** A fetched request can be rejected and acknowledged, and then has a result under its own message id. */
  lemma RejectionCompletes(steps: seq<Step>, id: nat) returns (more: seq<Step>)
    requires Run(steps).Some? && id in Run(steps).value.deliveries && Run(steps).value.deliveries[id].phase.Fetched?
    ensures more == steps + [Reject(id)] + [AckRejected(id)] && Run(more).Some?
    ensures var s, u := Run(steps).value, Run(more).value; var d := s.deliveries[id];
            && u.deliveries == s.deliveries[id := d.(phase := Acked(None))] && u.events == s.events
            && KeysOf(u.queue) == KeysOf(s.queue) + {ResultKey(d.kind, d.base, d.header)}
  {
    var s := Run(steps).value;
    var d := s.deliveries[id];
    var entry := Entry(ResultKey(d.kind, d.base, d.header), FromConsumer(id));
    PushKeys(s.queue, entry);
    hide Run, KeysOf, ResultKey, Push;
    var s1 := Moved(s, id, Rejected).(queue := Push(s.queue, entry));
    more := Take(steps, s, Reject(id), s1);
    more := Take(more, s1, AckRejected(id), Moved(s1, id, Acked(None)));
    assert Moved(s1, id, Acked(None)).deliveries == s.deliveries[id := d.(phase := Acked(None))];
  }

  /** Until it is settled, a fetched or waiting delivery can be given back, which leaves everything else as it is. */
  lemma NakReleases(s: State, id: nat)
    requires id in s.deliveries && (s.deliveries[id].phase.Fetched? || s.deliveries[id].phase.Waiting?)
    ensures Apply(s, Nak(id)).Some?
    ensures var u := Apply(s, Nak(id)).value;
            && u == s.(deliveries := u.deliveries) && u.deliveries.Keys == s.deliveries.Keys && u.deliveries[id].phase.Naked?
            && forall o :: o in s.deliveries && o != id ==> u.deliveries[o] == s.deliveries[o]
  {
  }
}
