/** What resharing requests leave in the queue, by the ways their handlers take: a node outside both committees and a
    leaving member reply without a result, a failure is filed under the wallet and a success under the session id. */
module ResharingOutcomes {
  import opened GoStrings
  import opened Topics
  import opened Bridge
  import opened Outcomes

  /** For each event, by its session id, the ways its handlers may take. */
  type Ways = string -> set<ResharingPath>

  ghost predicate TakesOnly(steps: seq<Step>, ways: Ways) {
    forall i :: 0 <= i < |steps| ==> Takes(steps[i], ways)
  }

  predicate Takes(step: Step, ways: Ways) {
    step.Begin? && step.path.OfResharing? ==> step.path.r in ways(step.thread.sid)
  }

  /** Some way ends in a reply without a result. */
  predicate Quiet(paths: set<ResharingPath>) {
    NotInvolved in paths || OldMemberDone in paths
  }

  // ---------- what every step keeps ----------

  /** The base under which an event may file, given the ways its handlers take. */
  predicate MayFile(e: Event, base: string, paths: set<ResharingPath>) {
    (base == e.base && Fails in paths) || (base == e.session && e.session != "" && NewMemberDone in paths)
  }

  ghost predicate HasEither(s: State, sid: string) {
    sid in s.events && var e := s.events[sid];
    ResultKey(Resharing, e.base, sid) in KeysOf(s.queue) || ResultKey(Resharing, e.session, sid) in KeysOf(s.queue)
  }

  ghost predicate ThreadFits(s: State, th: Thread, ways: Ways) {
    && th in s.threads && th.sid in s.events
    && (s.events[th.sid].kind.Resharing? ==>
          var p := s.threads[th];
          && (p == [] || p == [Reply] || (|p| == 2 && p[0].Enqueue? && p[1] == Reply && MayFile(s.events[th.sid], p[0].base, ways(th.sid))))
          && (p == [Reply] && !Quiet(ways(th.sid)) ==> HasEither(s, th.sid)))
  }

  ghost predicate EntryFits(s: State, e: Entry, ways: Ways) {
    e.origin.FromEvent? ==>
      && e.origin.sid in s.events
      && (s.events[e.origin.sid].kind.Resharing? ==>
            var ev, sid := s.events[e.origin.sid], e.origin.sid;
            (e.key == ResultKey(Resharing, ev.base, sid) && MayFile(ev, ev.base, ways(sid)))
            || (e.key == ResultKey(Resharing, ev.session, sid) && MayFile(ev, ev.session, ways(sid))))
  }

  ghost predicate ReplyFits(s: State, sid: string, ways: Ways) {
    sid in s.events && (s.events[sid].kind.Resharing? && !Quiet(ways(sid)) ==> HasEither(s, sid))
  }

  ghost predicate PathInv(s: State, ways: Ways) {
    && (forall th :: th in s.threads ==> ThreadFits(s, th, ways))
    && (forall i :: 0 <= i < |s.queue| ==> EntryFits(s, s.queue[i], ways))
    && (forall sid :: sid in s.replies ==> ReplyFits(s, sid, ways))
  }

  lemma FitsGrow(s: State, u: State, ways: Ways)
    requires PathInv(s, ways) && Grows(s, u)
    ensures forall th :: th in s.threads && th in u.threads && u.threads[th] == s.threads[th] ==> ThreadFits(u, th, ways)
    ensures forall i :: 0 <= i < |s.queue| ==> EntryFits(u, s.queue[i], ways)
    ensures forall sid :: sid in s.replies ==> ReplyFits(u, sid, ways)
  {
    hide KeysOf, ResultKey, MayFile, Quiet;
    forall th | th in s.threads && th in u.threads && u.threads[th] == s.threads[th]
      ensures ThreadFits(u, th, ways)
    {
      assert ThreadFits(s, th, ways);
    }
    forall i | 0 <= i < |s.queue|
      ensures EntryFits(u, s.queue[i], ways)
    {
      assert EntryFits(s, s.queue[i], ways);
    }
    forall sid | sid in s.replies
      ensures ReplyFits(u, sid, ways)
    {
      assert ReplyFits(s, sid, ways);
    }
  }

  /** Steps of the consumers; a rejection is no event's entry. */
  lemma ConsumerKeeps(s: State, step: Step, ways: Ways)
    requires PathInv(s, ways) && Apply(s, step).Some? && !step.Begin? && !step.Perform?
    ensures PathInv(Apply(s, step).value, ways)
  {
    var u := Apply(s, step).value;
    if step.Reject? {
      var d := s.deliveries[step.id];
      PushKeys(s.queue, Entry(ResultKey(d.kind, d.base, d.header), FromConsumer(step.id)));
    }
    hide KeysOf, ResultKey, MayFile, Quiet, Push;
    assert Grows(s, u);
    FitsGrow(s, u, ways);
    hide ThreadFits, ReplyFits;
    forall i | 0 <= i < |u.queue|
      ensures EntryFits(u, u.queue[i], ways)
    {
      assert u.queue[i].origin.FromConsumer? || EntryFits(u, s.queue[i], ways);
    }
  }

  lemma BeginKeeps(s: State, th: Thread, path: Path, ways: Ways)
    requires PathInv(s, ways) && Apply(s, Begin(th, path)).Some? && Takes(Begin(th, path), ways)
    ensures PathInv(Apply(s, Begin(th, path)).value, ways)
  {
    var u := Apply(s, Begin(th, path)).value;
    hide KeysOf, ResultKey;
    assert Grows(s, u);
    FitsGrow(s, u, ways);
    assert ThreadFits(u, th, ways);
  }

  lemma EnqueueKeeps(s: State, th: Thread, ways: Ways)
    requires PathInv(s, ways) && Apply(s, Perform(th)).Some? && s.threads[th][0].Enqueue?
    ensures PathInv(Apply(s, Perform(th)).value, ways)
  {
    var u, ev, base := Apply(s, Perform(th)).value, s.events[th.sid], s.threads[th][0].base;
    var e := Entry(ResultKey(ev.kind, base, th.sid), FromEvent(th.sid));
    PushKeys(s.queue, e);
    hide KeysOf, ResultKey, Push, Quiet;
    assert Grows(s, u);
    FitsGrow(s, u, ways);
    assert ThreadFits(s, th, ways);
    assert ThreadFits(u, th, ways) && EntryFits(u, e, ways);
    hide EntryFits, ThreadFits, ReplyFits;
  }

  lemma ReplyKeeps(s: State, th: Thread, ways: Ways)
    requires PathInv(s, ways) && Apply(s, Perform(th)).Some? && s.threads[th][0].Reply?
    ensures PathInv(Apply(s, Perform(th)).value, ways)
  {
    var u := Apply(s, Perform(th)).value;
    hide KeysOf, ResultKey, Quiet, MayFile;
    assert Grows(s, u);
    FitsGrow(s, u, ways);
    assert ThreadFits(s, th, ways);
    assert ThreadFits(u, th, ways) && ReplyFits(u, th.sid, ways);
    hide EntryFits, ThreadFits, ReplyFits;
  }

  lemma {:induction false} RunKeepsPaths(steps: seq<Step>, ways: Ways)
    requires Run(steps).Some? && TakesOnly(steps, ways)
    ensures PathInv(Run(steps).value, ways)
  {
    if steps != [] {
      RunParts(steps);
      var n := |steps| - 1;
      assert forall i :: 0 <= i < n ==> steps[..n][i] == steps[i];
      RunKeepsPaths(steps[..n], ways);
      var s, step := Run(steps[..n]).value, steps[n];
      assert Takes(step, ways);
      hide Run, PathInv, Apply;
      match step
      case Begin(th, path) => BeginKeeps(s, th, path, ways);
      case Perform(th) => PerformKeeps(s, th, ways);
      case _ => ConsumerKeeps(s, step, ways);
    }
  }

  lemma PerformKeeps(s: State, th: Thread, ways: Ways)
    requires PathInv(s, ways) && Apply(s, Perform(th)).Some?
    ensures PathInv(Apply(s, Perform(th)).value, ways)
  {
    hide PathInv;
    if s.threads[th][0].Enqueue? {
      EnqueueKeeps(s, th, ways);
    } else {
      ReplyKeeps(s, th, ways);
    }
  }

  // ---------- a result for every acknowledged request ----------

  /** A result under the wallet or under the session id of the request, or the consumer's own rejection. */
  ghost predicate HasResult(s: State, d: Delivery) {
    match d.phase
    case Acked(Some(sid)) => ResultKey(d.kind, d.base, sid) in KeysOf(s.queue) || ResultKey(d.kind, d.session, sid) in KeysOf(s.queue)
    case Acked(None) => RejectionId(d) in KeysOf(s.queue)
    case _ => false
  }

  /** A resharing request that was forwarded under this session id, if it is acknowledged, has a result. */
  ghost predicate AnsweredUnder(steps: seq<Step>, sid: string) {
    Run(steps).Some? ==>
      forall id :: id in Run(steps).value.deliveries ==>
        var d := Run(steps).value.deliveries[id];
        d.kind.Resharing? && d.phase == Acked(Some(sid)) ==> HasResult(Run(steps).value, d)
  }

  /** A resharing request that is acknowledged has a result, in every run whose handlers take only these ways and
      whatever other requests do, if and only if none of its own ways replies without one: no node that handles it is
      outside both committees or an old member only. */
  lemma ResharingResultIff(ways: Ways, sid: string)
    requires sid != "" && ':' !in sid
    ensures (forall steps :: TakesOnly(steps, ways) ==> AnsweredUnder(steps, sid)) <==> !Quiet(ways(sid))
  {
    if Quiet(ways(sid)) {
      var path := if NotInvolved in ways(sid) then NotInvolved else OldMemberDone;
      var steps := AckWithoutResult(sid, path);
      hide Run;
      assert TakesOnly(steps, ways);
      assert !AnsweredUnder(steps, sid) by {
        var s := Run(steps).value;
        assert 0 in s.deliveries && KeysOf(s.queue) == {};
        assert !HasResult(s, s.deliveries[0]);
      }
    } else {
      hide Run, AnsweredUnder, TakesOnly;
      forall steps | TakesOnly(steps, ways)
        ensures AnsweredUnder(steps, sid)
      {
        LoudAnswers(steps, ways, sid);
      }
    }
  }

  lemma LoudAnswers(steps: seq<Step>, ways: Ways, sid: string)
    requires TakesOnly(steps, ways) && !Quiet(ways(sid))
    ensures AnsweredUnder(steps, sid)
  {
    if Run(steps).Some? {
      RunKeepsPaths(steps, ways);
      RunKeepsInv(steps);
      hide Run, KeysOf, ResultKey, Quiet;
      var s := Run(steps).value;
      forall id | id in s.deliveries && s.deliveries[id].kind.Resharing? && s.deliveries[id].phase == Acked(Some(sid))
        ensures HasResult(s, s.deliveries[id])
      {
        assert DeliveryInv(s, s.deliveries[id]);
        assert ReplyFits(s, sid, ways);
      }
    }
  }

  /** A rejected resharing request always has one. */
  lemma RejectedHasResult(steps: seq<Step>, id: nat)
    requires Run(steps).Some? && id in Run(steps).value.deliveries && Run(steps).value.deliveries[id].phase == Acked(None)
    ensures HasResult(Run(steps).value, Run(steps).value.deliveries[id])
  {
    RunKeepsInv(steps);
    hide Run, KeysOf, ResultKey;
    var s := Run(steps).value;
    assert DeliveryInv(s, s.deliveries[id]);
  }

  // ---------- at most one result ----------

  /** A resharing request for this wallet with this session id of its own, forwarded under sid or not at all, has at most
      one entry. */
  ghost predicate OneEach(steps: seq<Step>, base: string, session: string, sid: string) {
    Run(steps).Some? ==> forall id :: id in Run(steps).value.deliveries ==> OneFor(Run(steps).value, id, base, session, sid)
  }

  ghost predicate OneFor(s: State, id: nat, base: string, session: string, sid: string)
    requires id in s.deliveries
  {
    var d := s.deliveries[id];
    d.kind.Resharing? && d.base == base && d.session == session && (ForwardSid(d).None? || ForwardSid(d) == Some(sid)) ==>
      forall i, j :: (0 <= i < |s.queue| && 0 <= j < |s.queue| && Belongs(d, id, s.queue[i]) && Belongs(d, id, s.queue[j])) ==> i == j
  }

  /** A resharing request leaves at most one result, in every run whose handlers take only these ways and whatever other
      requests do, if and only if its own handlers do not both fail and succeed, or file both under one base, or the
      request has no session id and cannot succeed. */
  lemma ResharingOneResultIff(ways: Ways, base: string, session: string, sid: string)
    requires sid != "" && ':' !in sid
    ensures (forall steps :: TakesOnly(steps, ways) ==> OneEach(steps, base, session, sid))
            <==> base == session || session == "" || !(Fails in ways(sid) && NewMemberDone in ways(sid))
  {
    if base == session || session == "" || !(Fails in ways(sid) && NewMemberDone in ways(sid)) {
      hide Run, TakesOnly, OneEach;
      forall steps | TakesOnly(steps, ways)
        ensures OneEach(steps, base, session, sid)
      {
        SingleBase(steps, ways, base, session, sid);
      }
    } else {
      var steps := TwoResults(base, session, sid);
      hide Run, ResultKey;
      assert TakesOnly(steps, ways);
      assert !OneEach(steps, base, session, sid) by {
        var s := Run(steps).value;
        assert 0 in s.deliveries && Belongs(s.deliveries[0], 0, s.queue[0]) && Belongs(s.deliveries[0], 0, s.queue[1]);
        assert !OneFor(s, 0, base, session, sid);
      }
    }
  }

  lemma SingleBase(steps: seq<Step>, ways: Ways, base: string, session: string, sid: string)
    requires TakesOnly(steps, ways) && (base == session || session == "" || !(Fails in ways(sid) && NewMemberDone in ways(sid)))
    ensures OneEach(steps, base, session, sid)
  {
    if Run(steps).Some? {
      RunKeepsPaths(steps, ways);
      RunKeepsInv(steps);
      hide Run, Inv, PathInv, TakesOnly;
      var s := Run(steps).value;
      forall id | id in s.deliveries
        ensures OneFor(s, id, base, session, sid)
      {
        var d := s.deliveries[id];
        forall i, j | 0 <= i < |s.queue| && 0 <= j < |s.queue| && Belongs(d, id, s.queue[i]) && Belongs(d, id, s.queue[j])
                      && d.kind.Resharing? && d.base == base && d.session == session
                      && (ForwardSid(d).None? || ForwardSid(d) == Some(sid))
          ensures i == j
        {
          OneEntry(s, ways, id, i, j, sid);
        }
      }
    }
  }

  lemma OneEntry(s: State, ways: Ways, id: nat, i: nat, j: nat, sid: string)
    requires Inv(s) && PathInv(s, ways) && id in s.deliveries && i < |s.queue| && j < |s.queue|
    requires var d := s.deliveries[id];
             && d.kind.Resharing? && (d.base == d.session || d.session == "" || !(Fails in ways(sid) && NewMemberDone in ways(sid)))
             && (ForwardSid(d).None? || ForwardSid(d) == Some(sid))
             && Belongs(d, id, s.queue[i]) && Belongs(d, id, s.queue[j])
    ensures i == j
  {
    hide KeysOf, ResultKey;
    var d := s.deliveries[id];
    assert DeliveryInv(s, d);
    assert OriginInv(s, s.queue[i]) && OriginInv(s, s.queue[j]);
    assert EntryFits(s, s.queue[i], ways) && EntryFits(s, s.queue[j], ways);
    hide DeliveryInv, OriginInv, EntryFits, ThreadFits, ReplyFits, ThreadInv, Apart;
    assert s.queue[i].key == s.queue[j].key;
  }

  // ---------- runs in the small ----------

  function Pending(base: string, session: string, sid: string): Delivery {
    Delivery(Resharing, base, session, "", Waiting(sid))
  }

  function Announced(base: string, session: string, sid: string): State {
    State(map[0 := Pending(base, session, sid)], map[sid := Event(Resharing, base, session)], map[], [], {})
  }

  /** Only events of this session id begin anything, and only in these ways. */
  ghost predicate Within(steps: seq<Step>, sid: string, paths: set<ResharingPath>) {
    forall i :: 0 <= i < |steps| && steps[i].Begin? ==>
      steps[i].thread.sid == sid && steps[i].path.OfResharing? && steps[i].path.r in paths
  }

  lemma Forwarded(base: string, session: string, sid: string) returns (steps: seq<Step>)
    requires sid != "" && ':' !in sid
    ensures Run(steps) == Some(Announced(base, session, sid)) && Within(steps, sid, {})
  {
    var d := Pending(base, session, sid).(phase := Fetched);
    assert Run([]) == Some(Start);
    hide Run;
    var s := Start.(deliveries := map[0 := d]);
    assert map[][0 := d] == s.deliveries;
    steps := Take([], Start, Fetch(0, Resharing, base, session, ""), s);
    assert s.deliveries[0 := Pending(base, session, sid)] == map[0 := Pending(base, session, sid)];
    assert map[][sid := Event(Resharing, base, session)] == Announced(base, session, sid).events;
    steps := Take(steps, s, Forward(0, sid), Announced(base, session, sid));
  }

  /** One node takes a way that only replies, and the request is acknowledged with nothing in the queue. */
  lemma AckWithoutResult(sid: string, path: ResharingPath) returns (steps: seq<Step>)
    requires sid != "" && ':' !in sid && (path == NotInvolved || path == OldMemberDone)
    ensures Run(steps).Some? && Within(steps, sid, {path})
    ensures Run(steps).value.deliveries == map[0 := Delivery(Resharing, "w", "r", "", Acked(Some(sid)))]
    ensures Run(steps).value.queue == []
  {
    var s: State;
    steps, s := QuietReply(sid, path);
    hide Run;
    var a := Pending("w", "r", sid).(phase := Acked(Some(sid)));
    assert s.deliveries[0 := a] == map[0 := a];
    steps := Take(steps, s, AckReply(0), s.(deliveries := map[0 := a]));
  }

  lemma QuietReply(sid: string, path: ResharingPath) returns (steps: seq<Step>, s: State)
    requires sid != "" && ':' !in sid && (path == NotInvolved || path == OldMemberDone)
    ensures Run(steps) == Some(s) && Within(steps, sid, {path})
    ensures s.deliveries == map[0 := Pending("w", "r", sid)] && s.queue == [] && s.replies == {sid}
  {
    var th := Thread("n", sid, 0);
    steps := Forwarded("w", "r", sid);
    hide Run;
    var s1 := Announced("w", "r", sid);
    assert map[][th := [Reply]] == map[th := [Reply]];
    var s2 := s1.(threads := map[th := [Reply]]);
    steps := Take(steps, s1, Begin(th, OfResharing(path)), s2);
    assert Within(steps, sid, {path});
    assert s2.threads[th := []] == map[th := []] && [Reply][1..] == [] && {} + {sid} == {sid};
    s := s2.(threads := map[th := []], replies := {sid});
    assert s2.threads[th][0] == Reply && Apply(s2, Perform(th)) == Some(s);
    steps := Take(steps, s2, Perform(th), s);
  }

  /** One thread begins on the resharing request and enqueues its result. */
  lemma OneEnqueues(steps: seq<Step>, s: State, th: Thread, path: ResharingPath, base: string) returns (more: seq<Step>, u: State)
    requires Run(steps) == Some(s) && th.sid in s.events && s.events[th.sid].kind.Resharing? && Fits(s.events[th.sid], OfResharing(path))
    requires th !in s.threads && Effects(s.events[th.sid], OfResharing(path)) == [Enqueue(base), Reply]
    ensures Run(more) == Some(u) && more == steps + [Begin(th, OfResharing(path))] + [Perform(th)]
    ensures u.deliveries == s.deliveries && u.events == s.events && u.threads.Keys == s.threads.Keys + {th}
    ensures u.queue == Push(s.queue, Entry(ResultKey(Resharing, base, th.sid), FromEvent(th.sid)))
  {
    hide Run, Push, ResultKey;
    var begun := Apply(s, Begin(th, OfResharing(path))).value;
    more := Take(steps, s, Begin(th, OfResharing(path)), begun);
    assert begun.threads[th] == [Enqueue(base), Reply];
    u := Apply(begun, Perform(th)).value;
    more := Take(more, begun, Perform(th), u);
  }

  lemma PushTwo(a: Entry, b: Entry)
    requires a.key != b.key
    ensures Push([], a) == [a] && Push([a], b) == [a, b]
  {
  }

  /** The error of a new-committee session is filed under the wallet, the handler goes on, and the success is filed
      under the session id of the request. */
  lemma TwoResults(base: string, session: string, sid: string) returns (steps: seq<Step>)
    requires base != session && session != "" && sid != "" && ':' !in sid
    ensures Run(steps).Some? && Within(steps, sid, {Fails, NewMemberDone})
    ensures var s := Run(steps).value;
            && s.deliveries == map[0 := Pending(base, session, sid)]
            && s.queue == [Entry(ResultKey(Resharing, base, sid), FromEvent(sid)), Entry(ResultKey(Resharing, session, sid), FromEvent(sid))]
  {
    hide Run, ResultKey, Push;
    var failed, done := Entry(ResultKey(Resharing, base, sid), FromEvent(sid)), Entry(ResultKey(Resharing, session, sid), FromEvent(sid));
    ResultKeyInjectiveIff(Resharing, base, sid, Resharing, session, sid);
    PushTwo(failed, done);
    var s: State;
    steps := Forwarded(base, session, sid);
    steps, s := OneEnqueues(steps, Announced(base, session, sid), Thread("n", sid, 0), Fails, base);
    assert Within(steps, sid, {Fails, NewMemberDone});
    assert Thread("n", sid, 1) !in s.threads.Keys;
    steps, s := OneEnqueues(steps, s, Thread("n", sid, 1), NewMemberDone, session);
  }
}
