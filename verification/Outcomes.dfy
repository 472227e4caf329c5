/** Whose result it is: which of the requests that share a message id leaves one, and what resharing requests leave. */
module Outcomes {
  import opened GoStrings
  import opened Topics
  import opened Bridge

  /** The message id under which a consumer files a rejection. */
  function RejectionId(d: Delivery): string {
    ResultKey(d.kind, d.base, d.header)
  }

  predicate IsRejected(d: Delivery) {
    d.phase == Rejected || d.phase == Acked(None)
  }

  ghost predicate Owns(s: State, o: Origin) {
    exists i :: 0 <= i < |s.queue| && s.queue[i].origin == o
  }

  // ---------- how the queue grows ----------

  /** Step i rejects a delivery that files its rejection under this message id, and nobody has used the id before. */
  ghost predicate RejectsFirst(steps: seq<Step>, i: nat, key: string) {
    && i < |steps| && steps[i].Reject? && Run(steps[..i]).Some?
    && var s := Run(steps[..i]).value;
    && steps[i].id in s.deliveries && RejectionId(s.deliveries[steps[i].id]) == key && key !in KeysOf(s.queue)
  }

  /** A step appends at most one entry; one of a consumer's origin only by rejecting that delivery. */
  lemma StepAppends(s: State, step: Step)
    requires Apply(s, step).Some?
    ensures var u := Apply(s, step).value;
            && s.queue <= u.queue
            && forall id :: Owns(u, FromConsumer(id)) <==>
                 Owns(s, FromConsumer(id))
                 || (step == Reject(id) && id in s.deliveries && RejectionId(s.deliveries[id]) !in KeysOf(s.queue))
  {
    hide KeysOf, ResultKey;
    var u := Apply(s, step).value;
    assert forall i :: 0 <= i < |s.queue| ==> u.queue[i] == s.queue[i];
    assert |u.queue| > |s.queue| ==> u.queue[|s.queue|] == u.queue[|u.queue| - 1];
  }

  /** A rejected delivery was fetched before and stays rejected. */
  lemma StepKeepsRejected(s: State, step: Step, id: nat)
    requires Apply(s, step).Some? && id in s.deliveries && IsRejected(s.deliveries[id])
    ensures var u := Apply(s, step).value;
            id in u.deliveries && IsRejected(u.deliveries[id]) && RejectionId(u.deliveries[id]) == RejectionId(s.deliveries[id])
    ensures step != Reject(id)
  {
    hide KeysOf, ResultKey, Push;
  }

  lemma StepRejects(s: State, step: Step, id: nat)
    requires Apply(s, step).Some? && id in Apply(s, step).value.deliveries && IsRejected(Apply(s, step).value.deliveries[id])
    ensures step == Reject(id) || (id in s.deliveries && IsRejected(s.deliveries[id]))
    ensures step == Reject(id) ==> id in s.deliveries && RejectionId(Apply(s, step).value.deliveries[id]) == RejectionId(s.deliveries[id])
  {
    hide KeysOf, ResultKey, Push;
  }

  lemma RunParts(steps: seq<Step>)
    requires steps != [] && Run(steps).Some?
    ensures var n := |steps| - 1;
            Run(steps[..n]).Some? && Apply(Run(steps[..n]).value, steps[n]) == Run(steps)
  {
  }

  lemma FirstInPrefix(steps: seq<Step>, i: nat, key: string)
    requires steps != [] && i < |steps| - 1
    ensures RejectsFirst(steps, i, key) <==> RejectsFirst(steps[..|steps| - 1], i, key)
  {
    assert steps[..|steps| - 1][..i] == steps[..i];
  }

  // ---------- rejected requests ----------

  /** A rejected delivery, acknowledged or not, leaves a result of its own if and only if its rejection was the first
      use of its message id. */
  lemma {:induction false} RejectedOwnsIff(steps: seq<Step>, id: nat)
    requires Run(steps).Some? && id in Run(steps).value.deliveries && IsRejected(Run(steps).value.deliveries[id])
    ensures var s := Run(steps).value;
            Owns(s, FromConsumer(id)) <==> exists i: nat :: RejectsFirst(steps, i, RejectionId(s.deliveries[id])) && steps[i] == Reject(id)
  {
    if steps != [] {
      var n := |steps| - 1;
      RunParts(steps);
      var s, u := Run(steps[..n]).value, Run(steps).value;
      var key := RejectionId(u.deliveries[id]);
      StepAppends(s, steps[n]);
      StepRejects(s, steps[n], id);
      hide Run, Apply, KeysOf, ResultKey, Inv;
      forall i: nat | i < n
        ensures RejectsFirst(steps, i, key) <==> RejectsFirst(steps[..n], i, key)
      {
        FirstInPrefix(steps, i, key);
      }
      if id in s.deliveries && IsRejected(s.deliveries[id]) {
        StepKeepsRejected(s, steps[n], id);
        RejectedOwnsIff(steps[..n], id);
        assert steps[n] != Reject(id);
        StillFirst(steps, n, id, key);
      } else {
        NotYetOwned(steps[..n], id);
        assert steps[n] == Reject(id);
        assert forall i :: 0 <= i < n ==> steps[i] == steps[..n][i];
        OnlyNow(steps, n, id, key);
      }
    }
  }

  lemma StillFirst(steps: seq<Step>, n: nat, id: nat, key: string)
    requires n == |steps| - 1 && steps[n] != Reject(id)
    requires forall i: nat :: i < n ==> (RejectsFirst(steps, i, key) <==> RejectsFirst(steps[..n], i, key))
    ensures (exists i: nat :: RejectsFirst(steps, i, key) && steps[i] == Reject(id))
            <==> (exists i: nat :: RejectsFirst(steps[..n], i, key) && steps[..n][i] == Reject(id))
  {
    hide Run, KeysOf;
    if i: nat :| RejectsFirst(steps, i, key) && steps[i] == Reject(id) {
      assert i < n;
      assert RejectsFirst(steps[..n], i, key) && steps[..n][i] == Reject(id);
    }
    if i: nat :| RejectsFirst(steps[..n], i, key) && steps[..n][i] == Reject(id) {
      assert RejectsFirst(steps, i, key) && steps[i] == Reject(id);
    }
  }

  /** A delivery that is not rejected owns nothing, and no earlier step rejected it. */
  lemma NotYetOwned(steps: seq<Step>, id: nat)
    requires Run(steps).Some? && (id !in Run(steps).value.deliveries || !IsRejected(Run(steps).value.deliveries[id]))
    ensures !Owns(Run(steps).value, FromConsumer(id))
    ensures forall i :: 0 <= i < |steps| ==> steps[i] != Reject(id)
  {
    RunKeepsInv(steps);
    var s := Run(steps).value;
    hide Run, KeysOf, ResultKey;
    assert forall i :: 0 <= i < |s.queue| ==> OriginInv(s, s.queue[i]);
    if i :| 0 <= i < |steps| && steps[i] == Reject(id) {
      StaysRejected(steps, i, id);
    }
  }

  lemma {:induction false} StaysRejected(steps: seq<Step>, i: nat, id: nat)
    requires Run(steps).Some? && i < |steps| && steps[i] == Reject(id)
    ensures id in Run(steps).value.deliveries && IsRejected(Run(steps).value.deliveries[id])
  {
    var n := |steps| - 1;
    RunParts(steps);
    hide Run, KeysOf, ResultKey, Push;
    if i < n {
      assert steps[..n][i] == steps[i];
      StaysRejected(steps[..n], i, id);
      StepKeepsRejected(Run(steps[..n]).value, steps[n], id);
    }
  }

  lemma OnlyNow(steps: seq<Step>, n: nat, id: nat, key: string)
    requires n == |steps| - 1 && steps[n] == Reject(id) && Run(steps[..n]).Some?
    requires id in Run(steps[..n]).value.deliveries && RejectionId(Run(steps[..n]).value.deliveries[id]) == key
    requires forall i :: 0 <= i < n ==> steps[i] != Reject(id)
    ensures (exists i: nat :: RejectsFirst(steps, i, key) && steps[i] == Reject(id)) <==> key !in KeysOf(Run(steps[..n]).value.queue)
  {
    hide Run, KeysOf, ResultKey;
    if i: nat :| RejectsFirst(steps, i, key) && steps[i] == Reject(id) {
      assert i == n;
    }
    if key !in KeysOf(Run(steps[..n]).value.queue) {
      assert RejectsFirst(steps, n, key);
    }
  }

  /** Who may file a result under a message id. */
  ghost predicate Contends(s: State, o: Origin, key: string) {
    match o
    case FromConsumer(id) => id in s.deliveries && IsRejected(s.deliveries[id]) && RejectionId(s.deliveries[id]) == key
    case FromEvent(sid) => sid in s.events && exists base :: key == ResultKey(s.events[sid].kind, base, sid)
  }

  ghost predicate Files(s: State, o: Origin, key: string) {
    Entry(key, o) in s.queue
  }

  /** Of all who may file under the message id of a rejected delivery, exactly one has. */
  lemma OneContenderFiles(steps: seq<Step>, id: nat) returns (o: Origin)
    requires Run(steps).Some? && id in Run(steps).value.deliveries && IsRejected(Run(steps).value.deliveries[id])
    ensures var s := Run(steps).value; var key := RejectionId(s.deliveries[id]);
            Contends(s, o, key) && Files(s, o, key) && forall p :: Files(s, p, key) ==> p == o
  {
    RunKeepsInv(steps);
    var s := Run(steps).value;
    hide Run, ResultKey;
    var d := s.deliveries[id];
    assert DeliveryInv(s, d);
    var e :| e in s.queue && e.key == RejectionId(d);
    o := e.origin;
    assert e == Entry(e.key, o);
    assert OriginInv(s, e);
    forall p | Files(s, p, e.key)
      ensures p == o
    {
      var i :| 0 <= i < |s.queue| && s.queue[i] == Entry(e.key, p);
      var j :| 0 <= j < |s.queue| && s.queue[j] == e;
      assert i == j;
    }
  }

  /** An entry of a rejected delivery stands under its own message id. */
  lemma OwnsIsFiles(steps: seq<Step>, id: nat)
    requires Run(steps).Some? && id in Run(steps).value.deliveries
    ensures var s := Run(steps).value; Owns(s, FromConsumer(id)) <==> Files(s, FromConsumer(id), RejectionId(s.deliveries[id]))
  {
    RunKeepsInv(steps);
    var s := Run(steps).value;
    hide Run, ResultKey, KeysOf;
    if i :| 0 <= i < |s.queue| && s.queue[i].origin == FromConsumer(id) {
      assert OriginInv(s, s.queue[i]);
      assert s.queue[i] == Entry(RejectionId(s.deliveries[id]), FromConsumer(id));
    }
  }

  /** The client's view: of two rejected requests with one message id that nobody else may use, exactly one leaves a
      result. */
  lemma OneOfTwoRejections(steps: seq<Step>, a: nat, b: nat)
    requires Run(steps).Some? && a != b && a in Run(steps).value.deliveries && b in Run(steps).value.deliveries
    requires var s := Run(steps).value; var d, e := s.deliveries[a], s.deliveries[b];
             && IsRejected(d) && IsRejected(e) && RejectionId(d) == RejectionId(e)
             && forall o :: Contends(s, o, RejectionId(d)) ==> o == FromConsumer(a) || o == FromConsumer(b)
    ensures Owns(Run(steps).value, FromConsumer(a)) <==> !Owns(Run(steps).value, FromConsumer(b))
  {
    hide Run, ResultKey, KeysOf, Contends, Files, Owns;
    var o := OneContenderFiles(steps, a);
    OwnsIsFiles(steps, a);
    OwnsIsFiles(steps, b);
  }

  // ---------- forwarded requests ----------

  /** An acknowledged keygen or signing request that was forwarded has a result from its own event if and only if no
      rejection was first to use its message id. */
  lemma ForwardedOwnsIff(steps: seq<Step>, id: nat, sid: string)
    requires Run(steps).Some? && id in Run(steps).value.deliveries && !Run(steps).value.deliveries[id].kind.Resharing?
    requires Run(steps).value.deliveries[id].phase == Acked(Some(sid))
    ensures var s := Run(steps).value;
            Owns(s, FromEvent(sid)) <==> !exists i: nat :: RejectsFirst(steps, i, ResultOf(s.deliveries[id]))
  {
    AckedHasResult(steps, id);
    RunKeepsInv(steps);
    var s := Run(steps).value;
    var d := s.deliveries[id];
    var key := ResultOf(d);
    EventKeyIs(steps, id, sid);
    if i: nat :| RejectsFirst(steps, i, key) {
      var r := steps[i].id;
      StaysRejected(steps, i, r);
      FirstKeepsId(steps, i, r, key);
      RejectedOwnsIff(steps, r);
      OwnsIsFiles(steps, r);
      assert Files(s, FromConsumer(r), key);
      hide Run, ResultKey, KeysOf;
      if Owns(s, FromEvent(sid)) {
        assert Files(s, FromEvent(sid), key);
        FilesOnce(steps, FromConsumer(r), FromEvent(sid), key);
      }
    }
    if !Owns(s, FromEvent(sid)) {
      var o := FiledByRejection(steps, id, sid);
      OwnsIsFiles(steps, o);
      assert Files(s, FromConsumer(o), key);
      RejectedOwnsIff(steps, o);
    }
  }

  lemma FilesOnce(steps: seq<Step>, o: Origin, p: Origin, key: string)
    requires Run(steps).Some? && Files(Run(steps).value, o, key) && Files(Run(steps).value, p, key)
    ensures o == p
  {
    RunKeepsInv(steps);
    var s := Run(steps).value;
    hide Run, KeysOf, ResultKey;
    var i :| 0 <= i < |s.queue| && s.queue[i] == Entry(key, o);
    var j :| 0 <= j < |s.queue| && s.queue[j] == Entry(key, p);
    assert i == j;
  }

  lemma EventKeyIs(steps: seq<Step>, id: nat, sid: string)
    requires Run(steps).Some? && id in Run(steps).value.deliveries && !Run(steps).value.deliveries[id].kind.Resharing?
    requires Run(steps).value.deliveries[id].phase == Acked(Some(sid))
    ensures var s := Run(steps).value; Owns(s, FromEvent(sid)) ==> Files(s, FromEvent(sid), ResultOf(s.deliveries[id]))
  {
    RunKeepsInv(steps);
    var s := Run(steps).value;
    hide Run, KeysOf, ResultKey;
    assert DeliveryInv(s, s.deliveries[id]);
    if i :| 0 <= i < |s.queue| && s.queue[i].origin == FromEvent(sid) {
      assert OriginInv(s, s.queue[i]);
      assert s.queue[i] == Entry(ResultOf(s.deliveries[id]), FromEvent(sid));
    }
  }

  lemma {:induction false} FirstKeepsId(steps: seq<Step>, i: nat, r: nat, key: string)
    requires Run(steps).Some? && RejectsFirst(steps, i, key) && steps[i] == Reject(r)
    ensures r in Run(steps).value.deliveries && IsRejected(Run(steps).value.deliveries[r])
    ensures RejectionId(Run(steps).value.deliveries[r]) == key
  {
    var n := |steps| - 1;
    RunParts(steps);
    hide Run, KeysOf, ResultKey, Push;
    if i < n {
      assert steps[..n][i] == steps[i];
      FirstInPrefix(steps, i, key);
      FirstKeepsId(steps[..n], i, r, key);
      StepKeepsRejected(Run(steps[..n]).value, steps[n], r);
    }
  }

  /** The entry under the message id of an event without own entries comes from a rejection: event ids are fresh. */
  lemma FiledByRejection(steps: seq<Step>, id: nat, sid: string) returns (o: nat)
    requires Run(steps).Some? && id in Run(steps).value.deliveries && !Run(steps).value.deliveries[id].kind.Resharing?
    requires Run(steps).value.deliveries[id].phase == Acked(Some(sid)) && !Owns(Run(steps).value, FromEvent(sid))
    ensures var s := Run(steps).value;
            && o in s.deliveries && IsRejected(s.deliveries[o]) && Owns(s, FromConsumer(o))
            && RejectionId(s.deliveries[o]) == ResultOf(s.deliveries[id])
  {
    AckedHasResult(steps, id);
    RunKeepsInv(steps);
    hide Run, ResultKey;
    var s := Run(steps).value;
    var d := s.deliveries[id];
    assert DeliveryInv(s, d);
    var e :| e in s.queue && e.key == ResultOf(d);
    var i :| 0 <= i < |s.queue| && s.queue[i] == e;
    assert OriginInv(s, e);
    match e.origin
    case FromConsumer(r) =>
      o := r;
    case FromEvent(other) =>
      var ev := s.events[other];
      var base :| e.key == ResultKey(ev.kind, base, other) && (!ev.kind.Resharing? ==> base == ev.base);
      ResultKeyInjectiveIff(d.kind, d.base, sid, ev.kind, base, other);
      assert false;
  }

  /** The client's view: no rejection can compose the message id of a forwarded request unless it is of its kind and
      joins to the same string. */
  lemma ForwardedHasOwnResult(steps: seq<Step>, id: nat, sid: string)
    requires Run(steps).Some? && id in Run(steps).value.deliveries && !Run(steps).value.deliveries[id].kind.Resharing?
    requires Run(steps).value.deliveries[id].phase == Acked(Some(sid))
    requires var s := Run(steps).value; var d := s.deliveries[id];
             forall o :: o in s.deliveries && IsRejected(s.deliveries[o]) && s.deliveries[o].kind == d.kind ==>
               var r := s.deliveries[o];
               && (r.header == sid ==> r.base != d.base) && (r.header == "" ==> r.base != d.base + [':'] + sid)
               && !CutsLater(r.base, r.header, ':', d.base, sid)
    ensures Owns(Run(steps).value, FromEvent(sid))
  {
    if !Owns(Run(steps).value, FromEvent(sid)) {
      var o := FiledByRejection(steps, id, sid);
      RunKeepsInv(steps);
      hide Run, ResultKey, KeysOf;
      var s := Run(steps).value;
      var d, r := s.deliveries[id], s.deliveries[o];
      assert DeliveryInv(s, d);
      assert sid != "" && ':' !in sid;
      ResultKeyIff(d.kind, d.base, sid, r.kind, r.base, r.header);
      if CutsLater(d.base, sid, ':', r.base, r.header) {
        CutHoldsSeparator(d.base, sid, r.base, r.header);
      }
    }
  }

  // ---------- runs in the small ----------

  lemma RunSnoc(steps: seq<Step>, step: Step)
    requires Run(steps).Some?
    ensures Run(steps + [step]) == Apply(Run(steps).value, step)
  {
    assert (steps + [step])[..|steps|] == steps;
  }

  lemma Take(steps: seq<Step>, s: State, step: Step, u: State) returns (more: seq<Step>)
    requires Run(steps) == Some(s) && Apply(s, step) == Some(u)
    ensures Run(more) == Some(u) && more == steps + [step]
  {
    RunSnoc(steps, step);
    more := steps + [step];
  }

  /** Two rejected keygen requests for one wallet without session ids: both are acknowledged, and only the first leaves
      a result. */
  lemma SuppressedRejection() returns (steps: seq<Step>)
    ensures Run(steps).Some?
    ensures var s := Run(steps).value;
            && s.deliveries == map[0 := Delivery(Keygen, "w", "", "", Acked(None)), 1 := Delivery(Keygen, "w", "", "", Acked(None))]
            && s.queue == [Entry(ResultKey(Keygen, "w", ""), FromConsumer(0))]
  {
    var d := Delivery(Keygen, "w", "", "", Fetched);
    var a := d.(phase := Acked(None));
    assert Run([]) == Some(Start);
    hide Run, ResultKey;
    var e := Entry(ResultKey(Keygen, "w", ""), FromConsumer(0));
    assert map[][0 := d] == map[0 := d];
    var one := map[0 := d];
    steps := Take([], Start, Fetch(0, Keygen, "w", "", ""), Start.(deliveries := one));
    steps := RejectAndAck(steps, Start.(deliveries := one), 0);
    assert KeysOf([]) == {} && Push([], e) == [e];
    assert one[0 := a] == map[0 := a];
    var s := Start.(deliveries := map[0 := a], queue := [e]);
    assert Run(steps) == Some(s);
    var two := map[0 := a, 1 := d];
    assert s.deliveries[1 := d] == two;
    steps := Take(steps, s, Fetch(1, Keygen, "w", "", ""), s.(deliveries := two));
    assert e in [e] && e.key in KeysOf([e]);
    steps := RejectAndAck(steps, s.(deliveries := two), 1);
    assert two[1 := a] == map[0 := a, 1 := a];
  }

  lemma RejectAndAck(steps: seq<Step>, s: State, id: nat) returns (more: seq<Step>)
    requires Run(steps) == Some(s) && id in s.deliveries && s.deliveries[id].phase.Fetched?
    ensures var d := s.deliveries[id];
            Run(more) == Some(s.(deliveries := s.deliveries[id := d.(phase := Acked(None))],
                                 queue := Push(s.queue, Entry(ResultKey(d.kind, d.base, d.header), FromConsumer(id)))))
  {
    hide Run, ResultKey, Push;
    var d := s.deliveries[id];
    var mid := Apply(s, Reject(id)).value;
    more := Take(steps, s, Reject(id), mid);
    assert mid.deliveries[id := d.(phase := Acked(None))] == s.deliveries[id := d.(phase := Acked(None))];
    more := Take(more, mid, AckRejected(id), mid.(deliveries := s.deliveries[id := d.(phase := Acked(None))]));
  }
}
