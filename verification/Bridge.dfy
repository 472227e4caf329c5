/** The request and result bridge of pkg/eventconsumer: consumers fetch deliveries from JetStream, forward them to all
    nodes with a reply inbox and settle them; the nodes enqueue results, deduplicated by message id, and reply. */
module Bridge {
  import opened GoStrings
  import opened Topics

  function Prefix(k: Protocol): string {
    match k
    case Keygen => "mpc.mpc_keygen_result."
    case Signing => "mpc.mpc_signing_result."
    case Resharing => "mpc.mpc_resharing_result."
  }

  /** composeIdempotentKey and buildIdempotentKey. */
  function ResultKey(k: Protocol, base: string, sid: string): string {
    Prefix(k) + if sid != "" then base + [':'] + sid else base
  }

  lemma PrefixInjective(k: Protocol, s: string, l: Protocol, t: string)
    requires Prefix(k) + s == Prefix(l) + t
    ensures k == l && s == t
  {
    var u := Prefix(k) + s;
    assert u == Prefix(l) + t;
    assert u[8] == Prefix(k)[8] && u[8] == Prefix(l)[8];
    assert u[|Prefix(k)|..] == s && u[|Prefix(l)|..] == t;
  }

  /** Two requests share a message id exactly when they are of one kind and are the same request; or one has no session
      id and a base that reads like the other's base and session id; or both have one and the joined strings can be cut
      in two ways. Session ids may hold anything, as they do when they come from a client. */
  lemma ResultKeyIff(k: Protocol, b: string, s: string, l: Protocol, c: string, t: string)
    ensures ResultKey(k, b, s) == ResultKey(l, c, t)
            <==> k == l && ((b == c && s == t)
                            || (s == "" && t != "" && b == c + [':'] + t) || (t == "" && s != "" && c == b + [':'] + s)
                            || (s != "" && t != "" && (CutsLater(b, s, ':', c, t) || CutsLater(c, t, ':', b, s))))
  {
    if ResultKey(k, b, s) == ResultKey(l, c, t) {
      PrefixInjective(k, if s != "" then b + [':'] + s else b, l, if t != "" then c + [':'] + t else c);
    }
    JoinedIff(b, s, ':', c, t);
  }

  /** With session ids free of ':' the last case is out. */
  lemma ResultKeyInjectiveIff(k: Protocol, b: string, s: string, l: Protocol, c: string, t: string)
    requires ':' !in s && ':' !in t
    ensures ResultKey(k, b, s) == ResultKey(l, c, t)
            <==> k == l && ((b == c && s == t) || (s == "" && t != "" && b == c + [':'] + t) || (t == "" && s != "" && c == b + [':'] + s))
  {
    ResultKeyIff(k, b, s, l, c, t);
    if CutsLater(b, s, ':', c, t) {
      CutHoldsSeparator(b, s, c, t);
    }
    if CutsLater(c, t, ':', b, s) {
      CutHoldsSeparator(c, t, b, s);
    }
  }

  lemma CutHoldsSeparator(b: string, s: string, c: string, t: string)
    requires CutsLater(b, s, ':', c, t)
    ensures ':' in s
  {
    assert s[|c[|b| + 1..]|] == ':';
  }

  // ---------- what the node-side handlers do ----------

  /** Enqueue names the base of the message id; a reply goes to the inbox of the event. */
  datatype Effect = Enqueue(base: string) | Reply

  /** One way through a handler, or through one of the goroutines it leaves behind. */
  datatype KeygenPath = VerifyFails | CreateFails | SessionFails | ErrorHandledElsewhere | TimesOut | Succeeds

  datatype SigningPath =
    | RequestUnverified | DuplicateSession | RetryLater | NotParticipant
    | CreationFails | InitFails | Started | SigningFails | Signs

  datatype ResharingPath = Fails | NotInvolved | OldMemberDone | NewMemberDone

  datatype Path = OfKeygen(k: KeygenPath) | OfSigning(s: SigningPath) | OfResharing(r: ResharingPath)

  /** base is the wallet (keygen, resharing) or the transaction (signing); session is the id inside a resharing request. */
  datatype Event = Event(kind: Protocol, base: string, session: string)

  predicate Fits(e: Event, p: Path) {
    match p
    case OfKeygen(_) => e.kind.Keygen?
    case OfSigning(_) => e.kind.Signing?
    case OfResharing(r) => e.kind.Resharing? && (e.session == "" ==> r.Fails?)
  }

  function Effects(e: Event, p: Path): seq<Effect> {
    match p
    case OfKeygen(ErrorHandledElsewhere) => []
    case OfKeygen(_) => [Enqueue(e.base), Reply]
    case OfSigning(RequestUnverified) => []
    case OfSigning(RetryLater) => []
    case OfSigning(NotParticipant) => []
    case OfSigning(Started) => []
    case OfSigning(_) => [Enqueue(e.base), Reply]
    case OfResharing(Fails) => [Enqueue(e.base), Reply]
    case OfResharing(NewMemberDone) => [Enqueue(e.session), Reply]
    case OfResharing(_) => [Reply]
  }

  // ---------- the protocol ----------

  /** A settled delivery remembers the session id it was forwarded under, if it was. */
  datatype Phase = Fetched | Rejected | Waiting(sid: string) | Acked(via: Option<string>) | Naked(via: Option<string>)

  datatype Delivery = Delivery(kind: Protocol, base: string, session: string, header: string, phase: Phase)

  datatype Origin = FromConsumer(id: nat) | FromEvent(sid: string)

  datatype Entry = Entry(key: string, origin: Origin)

  datatype Thread = Thread(node: string, sid: string, number: nat)

  datatype State = State(
    deliveries: map<nat, Delivery>,
    events: map<string, Event>,
    threads: map<Thread, seq<Effect>>,
    queue: seq<Entry>,
    replies: set<string>)

  datatype Step =
    | Fetch(id: nat, kind: Protocol, base: string, session: string, header: string)
    | Reject(id: nat) | AckRejected(id: nat)
    | Forward(id: nat, sid: string)
    | Begin(thread: Thread, path: Path)
    | Perform(thread: Thread)
    | AckReply(id: nat)
    | Nak(id: nat)

  const Start := State(map[], map[], map[], [], {})

  function KeysOf(queue: seq<Entry>): set<string> {
    set e | e in queue :: e.key
  }

  /** JetStream drops a message whose id it has seen. */
  function Push(queue: seq<Entry>, e: Entry): seq<Entry> {
    if e.key in KeysOf(queue) then queue else queue + [e]
  }

  function Moved(s: State, id: nat, phase: Phase): State
    requires id in s.deliveries
  {
    s.(deliveries := s.deliveries[id := s.deliveries[id].(phase := phase)])
  }

  function Apply(s: State, step: Step): Option<State> {
    match step
    case Fetch(id, kind, base, session, header) =>
      if id in s.deliveries then None
      else Some(s.(deliveries := s.deliveries[id := Delivery(kind, base, session, header, Fetched)]))
    case Reject(id) =>
      if id !in s.deliveries || !s.deliveries[id].phase.Fetched? then None
      else
        var d := s.deliveries[id];
        Some(Moved(s, id, Rejected).(queue := Push(s.queue, Entry(ResultKey(d.kind, d.base, d.header), FromConsumer(id)))))
    case AckRejected(id) =>
      if id !in s.deliveries || !s.deliveries[id].phase.Rejected? then None else Some(Moved(s, id, Acked(None)))
    case Forward(id, sid) =>
      // the session id is a fresh UUID
      if id !in s.deliveries || !s.deliveries[id].phase.Fetched? || sid in s.events || sid == "" || ':' in sid then None
      else
        var d := s.deliveries[id];
        Some(Moved(s, id, Waiting(sid)).(events := s.events[sid := Event(d.kind, d.base, d.session)]))
    case Begin(th, path) =>
      if th in s.threads || th.sid !in s.events || !Fits(s.events[th.sid], path) then None
      else Some(s.(threads := s.threads[th := Effects(s.events[th.sid], path)]))
    case Perform(th) =>
      if th !in s.threads || s.threads[th] == [] || th.sid !in s.events then None
      else
        var rest := s.(threads := s.threads[th := s.threads[th][1..]]);
        (match s.threads[th][0]
         case Enqueue(base) => Some(rest.(queue := Push(s.queue, Entry(ResultKey(s.events[th.sid].kind, base, th.sid), FromEvent(th.sid)))))
         case Reply => Some(rest.(replies := s.replies + {th.sid})))
    case AckReply(id) =>
      if id !in s.deliveries || !s.deliveries[id].phase.Waiting? || s.deliveries[id].phase.sid !in s.replies then None
      else Some(Moved(s, id, Acked(Some(s.deliveries[id].phase.sid))))
    case Nak(id) =>
      if id !in s.deliveries || !(s.deliveries[id].phase.Waiting? || s.deliveries[id].phase.Fetched?) then None
      else Some(Moved(s, id, Naked(ForwardSid(s.deliveries[id]))))
  }

  function Run(steps: seq<Step>): Option<State> {
    if steps == [] then Some(Start)
    else
      var before := Run(steps[..|steps| - 1]);
      if before.None? then None else Apply(before.value, steps[|steps| - 1])
  }

  // ---------- what every step keeps ----------

  ghost predicate Answered(s: State, sid: string) {
    sid in s.events && ResultKey(s.events[sid].kind, s.events[sid].base, sid) in KeysOf(s.queue)
  }

  /** A handler of a keygen or signing event enqueues before it replies, and under the base of its event. */
  ghost predicate ThreadInv(s: State, th: Thread) {
    && th in s.threads && th.sid in s.events
    && var e, p := s.events[th.sid], s.threads[th];
    && (p == [] || p == [Reply] || (|p| == 2 && p[0].Enqueue? && p[1] == Reply))
    && (!e.kind.Resharing? ==> (p == [Reply] ==> Answered(s, th.sid)) && (|p| == 2 ==> p[0].base == e.base))
  }

  ghost predicate ForwardedAs(s: State, d: Delivery, sid: string) {
    sid in s.events && s.events[sid] == Event(d.kind, d.base, d.session)
  }

  ghost predicate DeliveryInv(s: State, d: Delivery) {
    match d.phase
    case Waiting(sid) => ForwardedAs(s, d, sid)
    case Rejected => ResultKey(d.kind, d.base, d.header) in KeysOf(s.queue)
    case Acked(None) => ResultKey(d.kind, d.base, d.header) in KeysOf(s.queue)
    case Acked(Some(sid)) => ForwardedAs(s, d, sid) && sid in s.replies
    case Naked(Some(sid)) => ForwardedAs(s, d, sid)
    case _ => true
  }

  ghost predicate OriginInv(s: State, e: Entry) {
    match e.origin
    case FromConsumer(id) =>
      id in s.deliveries
      && var d := s.deliveries[id];
      && (d.phase == Rejected || d.phase == Acked(None)) && e.key == ResultKey(d.kind, d.base, d.header)
    case FromEvent(sid) =>
      sid in s.events && var ev := s.events[sid];
      exists base :: e.key == ResultKey(ev.kind, base, sid) && (!ev.kind.Resharing? ==> base == ev.base)
  }

  ghost predicate Inv(s: State) {
    && (forall sid :: sid in s.events ==> sid != "" && ':' !in sid)
    && (forall th :: th in s.threads ==> ThreadInv(s, th))
    && (forall sid :: sid in s.replies ==> sid in s.events && (!s.events[sid].kind.Resharing? ==> Answered(s, sid)))
    && (forall id :: id in s.deliveries ==> DeliveryInv(s, s.deliveries[id]))
    && (forall i :: 0 <= i < |s.queue| ==> OriginInv(s, s.queue[i]))
    && (forall i, j :: 0 <= i < j < |s.queue| ==> s.queue[i].key != s.queue[j].key)
    && (forall a, b :: a in s.deliveries && b in s.deliveries && a != b ==> Apart(s.deliveries[a], s.deliveries[b]))
  }

  function ForwardSid(d: Delivery): Option<string> {
    match d.phase
    case Waiting(sid) => Some(sid)
    case Acked(o) => o
    case Naked(o) => o
    case _ => None
  }

  /** No two deliveries were forwarded under one session id. */
  predicate Apart(d: Delivery, e: Delivery) {
    ForwardSid(d).Some? ==> ForwardSid(d) != ForwardSid(e)
  }

  // ---------- preservation, step by step ----------

  lemma PushKeys(queue: seq<Entry>, e: Entry)
    ensures KeysOf(Push(queue, e)) == KeysOf(queue) + {e.key}
    ensures forall i :: 0 <= i < |Push(queue, e)| ==> (i < |queue| && Push(queue, e)[i] == queue[i]) || Push(queue, e)[i] == e
  {
    if e.key in KeysOf(queue) {
    } else {
      assert forall x :: x in queue + [e] <==> x in queue || x == e;
      assert e in queue + [e];
      assert forall x :: x in queue ==> x in queue + [e];
    }
  }

  ghost predicate DistinctKeys(queue: seq<Entry>) {
    forall i, j :: 0 <= i < j < |queue| ==> queue[i].key != queue[j].key
  }

  lemma PushDistinct(queue: seq<Entry>, e: Entry)
    requires DistinctKeys(queue)
    ensures DistinctKeys(Push(queue, e))
  {
    assert forall i :: 0 <= i < |queue| ==> queue[i] in queue && queue[i].key in KeysOf(queue);
  }

  /** Nothing that was enqueued, announced or answered is ever taken back. */
  ghost predicate Grows(s: State, u: State) {
    && (forall sid :: sid in s.events ==> sid in u.events && u.events[sid] == s.events[sid])
    && KeysOf(s.queue) <= KeysOf(u.queue)
    && s.replies <= u.replies
  }

  lemma ThreadGrows(s: State, u: State, th: Thread)
    requires Grows(s, u) && th in s.threads && th in u.threads && u.threads[th] == s.threads[th] && ThreadInv(s, th)
    ensures ThreadInv(u, th)
  {
    hide KeysOf, ResultKey;
  }

  lemma DeliveryGrows(s: State, u: State, d: Delivery)
    requires Grows(s, u) && DeliveryInv(s, d)
    ensures DeliveryInv(u, d)
  {
    hide KeysOf, ResultKey;
  }

  /** A step that moves one delivery and at most appends to the rest. */
  lemma MoveKeepsInv(s: State, u: State, id: nat, phase: Phase)
    requires Inv(s) && Grows(s, u) && id in s.deliveries && u.deliveries == Moved(s, id, phase).deliveries
    requires u.threads == s.threads && u.replies == s.replies
    requires forall sid :: sid in u.events ==> sid != "" && ':' !in sid
    requires DeliveryInv(u, u.deliveries[id]) && DistinctKeys(u.queue)
    requires forall i :: 0 <= i < |u.queue| ==> OriginInv(u, u.queue[i])
    requires forall a :: a in s.deliveries && a != id ==> Apart(u.deliveries[id], s.deliveries[a]) && Apart(s.deliveries[a], u.deliveries[id])
    ensures Inv(u)
  {
    hide KeysOf, ResultKey, DeliveryInv, ThreadInv, OriginInv, Apart;
    forall th | th in u.threads
      ensures ThreadInv(u, th)
    {
      ThreadGrows(s, u, th);
    }
    forall a | a in u.deliveries
      ensures DeliveryInv(u, u.deliveries[a])
    {
      if a != id {
        DeliveryGrows(s, u, s.deliveries[a]);
      }
    }
  }

  /** An entry keeps its origin when a delivery moves, unless that delivery was rejected and is not any more. */
  lemma OriginGrows(s: State, u: State, e: Entry)
    requires OriginInv(s, e) && Grows(s, u)
    requires e.origin.FromConsumer? ==> e.origin.id in u.deliveries && var d, d' := s.deliveries[e.origin.id], u.deliveries[e.origin.id];
               (d.kind, d.base, d.header) == (d'.kind, d'.base, d'.header) && (d'.phase == Rejected || d'.phase == Acked(None))
    ensures OriginInv(u, e)
  {
    hide KeysOf, ResultKey;
  }

  lemma RejectKeepsInv(s: State, id: nat)
    requires Inv(s) && Apply(s, Reject(id)).Some?
    ensures Inv(Apply(s, Reject(id)).value)
  {
    var u, d := Apply(s, Reject(id)).value, s.deliveries[id];
    var e := Entry(ResultKey(d.kind, d.base, d.header), FromConsumer(id));
    PushKeys(s.queue, e);
    PushDistinct(s.queue, e);
    hide KeysOf, ResultKey, Push, DistinctKeys, ThreadInv;
    assert Grows(s, u);
    forall i | 0 <= i < |u.queue|
      ensures OriginInv(u, u.queue[i])
    {
      if u.queue[i] != e {
        assert OriginInv(s, s.queue[i]);
        OriginGrows(s, u, s.queue[i]);
      }
    }
    MoveKeepsInv(s, u, id, Rejected);
  }

  lemma SettleKeepsInv(s: State, step: Step)
    requires Inv(s) && Apply(s, step).Some? && (step.AckRejected? || step.AckReply? || step.Nak?)
    ensures Inv(Apply(s, step).value)
  {
    hide KeysOf, ResultKey, DistinctKeys, ThreadInv;
    var u, id := Apply(s, step).value, step.id;
    assert Grows(s, u);
    forall i | 0 <= i < |u.queue|
      ensures OriginInv(u, u.queue[i])
    {
      assert OriginInv(s, s.queue[i]);
      OriginGrows(s, u, s.queue[i]);
    }
    assert DistinctKeys(u.queue) by {
      SameDistinct(s);
    }
    assert DeliveryInv(s, s.deliveries[id]);
    forall a | a in s.deliveries && a != id
      ensures Apart(u.deliveries[id], s.deliveries[a]) && Apart(s.deliveries[a], u.deliveries[id])
    {
      assert Apart(s.deliveries[id], s.deliveries[a]) && Apart(s.deliveries[a], s.deliveries[id]);
    }
    MoveKeepsInv(s, u, id, u.deliveries[id].phase);
  }

  lemma SameDistinct(s: State)
    requires Inv(s)
    ensures DistinctKeys(s.queue)
  {
  }

  lemma ForwardKeepsInv(s: State, id: nat, sid: string)
    requires Inv(s) && Apply(s, Forward(id, sid)).Some?
    ensures Inv(Apply(s, Forward(id, sid)).value)
  {
    hide KeysOf, ResultKey, DistinctKeys, ThreadInv;
    var u := Apply(s, Forward(id, sid)).value;
    assert Grows(s, u);
    forall i | 0 <= i < |u.queue|
      ensures OriginInv(u, u.queue[i])
    {
      assert OriginInv(s, s.queue[i]);
      OriginGrows(s, u, s.queue[i]);
    }
    SameDistinct(s);
    forall a | a in s.deliveries && a != id
      ensures Apart(u.deliveries[id], s.deliveries[a]) && Apart(s.deliveries[a], u.deliveries[id])
    {
      assert DeliveryInv(s, s.deliveries[a]);
      assert Apart(s.deliveries[a], s.deliveries[id]);
    }
    MoveKeepsInv(s, u, id, Waiting(sid));
  }

  lemma FetchKeepsInv(s: State, step: Step)
    requires Inv(s) && step.Fetch? && Apply(s, step).Some?
    ensures Inv(Apply(s, step).value)
  {
    hide KeysOf, ResultKey;
    var u := Apply(s, step).value;
    assert Grows(s, u);
    forall th | th in u.threads
      ensures ThreadInv(u, th)
    {
      ThreadGrows(s, u, th);
    }
    forall a | a in u.deliveries
      ensures DeliveryInv(u, u.deliveries[a])
    {
      if a != step.id {
        DeliveryGrows(s, u, s.deliveries[a]);
      }
    }
    forall i | 0 <= i < |u.queue|
      ensures OriginInv(u, u.queue[i])
    {
      assert OriginInv(s, s.queue[i]);
      OriginGrows(s, u, s.queue[i]);
    }
  }

  /** A step of the handlers: deliveries and events stay, the queue or the replies may grow. */
  lemma HandlerKeepsInv(s: State, u: State, th: Thread)
    requires Inv(s) && Grows(s, u) && u.deliveries == s.deliveries && u.events == s.events
    requires u.threads.Keys == s.threads.Keys + {th} && (forall o :: o in s.threads && o != th ==> u.threads[o] == s.threads[o])
    requires ThreadInv(u, th) && DistinctKeys(u.queue)
    requires forall sid :: sid in u.replies && sid !in s.replies ==> sid in u.events && (!u.events[sid].kind.Resharing? ==> Answered(u, sid))
    requires forall i :: 0 <= i < |u.queue| ==> OriginInv(u, u.queue[i])
    ensures Inv(u)
  {
    hide KeysOf, ResultKey, OriginInv;
    forall o | o in u.threads
      ensures ThreadInv(u, o)
    {
      if o != th {
        assert o in u.threads.Keys;
        ThreadGrows(s, u, o);
      }
    }
    forall a | a in u.deliveries
      ensures DeliveryInv(u, u.deliveries[a])
    {
      DeliveryGrows(s, u, s.deliveries[a]);
    }
  }

  lemma OriginsStay(s: State, u: State)
    requires Inv(s) && Grows(s, u) && u.deliveries == s.deliveries
    ensures forall i :: 0 <= i < |s.queue| ==> OriginInv(u, s.queue[i])
  {
    hide KeysOf, ResultKey;
    forall i | 0 <= i < |s.queue|
      ensures OriginInv(u, s.queue[i])
    {
      assert OriginInv(s, s.queue[i]);
      OriginGrows(s, u, s.queue[i]);
    }
  }

  lemma BeginKeepsInv(s: State, th: Thread, path: Path)
    requires Inv(s) && Apply(s, Begin(th, path)).Some?
    ensures Inv(Apply(s, Begin(th, path)).value)
  {
    var u := Apply(s, Begin(th, path)).value;
    hide KeysOf, ResultKey, DeliveryInv;
    assert Grows(s, u);
    OriginsStay(s, u);
    SameDistinct(s);
    HandlerKeepsInv(s, u, th);
  }

  lemma EnqueueKeepsInv(s: State, th: Thread)
    requires Inv(s) && Apply(s, Perform(th)).Some? && s.threads[th][0].Enqueue?
    ensures Inv(Apply(s, Perform(th)).value)
  {
    var u, ev, base := Apply(s, Perform(th)).value, s.events[th.sid], s.threads[th][0].base;
    var e := Entry(ResultKey(ev.kind, base, th.sid), FromEvent(th.sid));
    assert ThreadInv(s, th);
    PushKeys(s.queue, e);
    PushDistinct(s.queue, e);
    hide KeysOf, ResultKey, DeliveryInv, Push, DistinctKeys;
    assert Grows(s, u);
    OriginsStay(s, u);
    assert OriginInv(u, e);
    HandlerKeepsInv(s, u, th);
  }

  lemma ReplyKeepsInv(s: State, th: Thread)
    requires Inv(s) && Apply(s, Perform(th)).Some? && s.threads[th][0].Reply?
    ensures Inv(Apply(s, Perform(th)).value)
  {
    hide KeysOf, ResultKey, DeliveryInv;
    var u := Apply(s, Perform(th)).value;
    assert ThreadInv(s, th);
    assert Grows(s, u);
    OriginsStay(s, u);
    SameDistinct(s);
    HandlerKeepsInv(s, u, th);
  }

  lemma StepKeepsInv(s: State, step: Step)
    requires Inv(s) && Apply(s, step).Some?
    ensures Inv(Apply(s, step).value)
  {
    hide Inv;
    match step
    case Fetch(_, _, _, _, _) => FetchKeepsInv(s, step);
    case Reject(id) => RejectKeepsInv(s, id);
    case Forward(id, sid) => ForwardKeepsInv(s, id, sid);
    case Begin(th, path) => BeginKeepsInv(s, th, path);
    case Perform(th) =>
      if s.threads[th][0].Enqueue? {
        EnqueueKeepsInv(s, th);
      } else {
        ReplyKeepsInv(s, th);
      }
    case _ => SettleKeepsInv(s, step);
  }

  lemma {:induction false} RunKeepsInv(steps: seq<Step>)
    requires Run(steps).Some?
    ensures Inv(Run(steps).value)
  {
    if steps != [] {
      RunKeepsInv(steps[..|steps| - 1]);
      hide Inv, Apply;
      StepKeepsInv(Run(steps[..|steps| - 1]).value, steps[|steps| - 1]);
    }
  }

  // ---------- results ----------

  /** The message id under which the result of a settled delivery is filed. */
  function ResultOf(d: Delivery): string {
    ResultKey(d.kind, d.base, if ForwardSid(d).Some? then ForwardSid(d).value else d.header)
  }

  /** No acknowledged keygen or signing request is without a result, over every run of consumers and nodes. */
  lemma AckedHasResult(steps: seq<Step>, id: nat)
    requires Run(steps).Some? && id in Run(steps).value.deliveries
    requires Run(steps).value.deliveries[id].phase.Acked? && !Run(steps).value.deliveries[id].kind.Resharing?
    ensures ResultOf(Run(steps).value.deliveries[id]) in KeysOf(Run(steps).value.queue)
  {
    RunKeepsInv(steps);
    hide Run, KeysOf, ResultKey;
    var s := Run(steps).value;
    assert DeliveryInv(s, s.deliveries[id]);
  }

  ghost predicate Belongs(d: Delivery, id: nat, e: Entry) {
    e.origin == FromConsumer(id) || (ForwardSid(d).Some? && e.origin == FromEvent(ForwardSid(d).value))
  }

  /** However many nodes answer, by success or by error, at most one result per delivery enters the queue. */
  lemma AtMostOneResult(steps: seq<Step>, id: nat, i: nat, j: nat)
    requires Run(steps).Some? && id in Run(steps).value.deliveries && !Run(steps).value.deliveries[id].kind.Resharing?
    requires var s := Run(steps).value; i < |s.queue| && j < |s.queue|
    requires var s := Run(steps).value; Belongs(s.deliveries[id], id, s.queue[i]) && Belongs(s.deliveries[id], id, s.queue[j])
    ensures i == j
  {
    RunKeepsInv(steps);
    hide Run, KeysOf, ResultKey;
    var s := Run(steps).value;
    var d := s.deliveries[id];
    assert DeliveryInv(s, d);
    assert OriginInv(s, s.queue[i]) && OriginInv(s, s.queue[j]);
    assert s.queue[i].key == s.queue[j].key;
  }
}
