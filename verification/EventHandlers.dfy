/** The node-side handlers of pkg/eventconsumer/event.go and the signing sessions they start: what each path through
    them enqueues and answers, in order. Bridge.Effects is their specification. */
module EventHandlers {
  import opened GoStrings
  import opened Bridge

  /** How the wait of a keygen handler for its two watchers ends. */
  datatype Finish = AllDone(failed: bool) | DeadlinePassed

  /** What CreateSigningSession answers. */
  datatype Creation = Created | NotEnoughParticipants | NotInParticipantList | OtherFailure

  class EventConsumer {
    /** Enqueues to the result queue and publications to the reply inbox, in order. */
    var done: seq<Effect>
    /** Signing requests on the error channel. */
    var errors: seq<Event>

    constructor ()
      ensures done == [] && errors == []
    {
      done, errors := [], [];
    }

    method EnqueueResult(base: string)
      modifies this`done
      ensures done == old(done) + [Enqueue(base)]
    {
      done := done + [Enqueue(base)];
    }

    method SendReplyToRemoveMsg()
      modifies this`done
      ensures done == old(done) + [Reply]
    {
      done := done + [Reply];
    }

    /** handleKeygenSessionError, handleSigningSessionError and handleResharingSessionError. */
    method HandleSessionError(base: string)
      modifies this`done
      ensures done == old(done) + [Enqueue(base), Reply]
    {
      EnqueueResult(base);
      SendReplyToRemoveMsg();
    }

    /** handleKeyGenEvent on its own thread. */
    method HandleKeyGenEvent(e: Event, decoded: bool, verified: bool, ecdsaCreated: bool, eddsaCreated: bool, finish: Finish)
      returns (path: KeygenPath)
      requires e.kind.Keygen?
      modifies this
      ensures Fits(e, OfKeygen(path)) && done == old(done) + Effects(e, OfKeygen(path))
      ensures Paired(old(done)) ==> Paired(done)
      ensures done == old(done) + if path == ErrorHandledElsewhere then [] else [Enqueue(e.base), Reply]
      ensures path == VerifyFails <==> !decoded || !verified
      ensures path == CreateFails <==> decoded && verified && !(ecdsaCreated && eddsaCreated)
      ensures path == TimesOut <==> decoded && verified && ecdsaCreated && eddsaCreated && finish == DeadlinePassed
      ensures path == Succeeds <==> decoded && verified && ecdsaCreated && eddsaCreated && finish == AllDone(false)
      ensures path == ErrorHandledElsewhere <==> decoded && verified && ecdsaCreated && eddsaCreated && finish == AllDone(true)
    {
      if !decoded || !verified {
        HandleSessionError(e.base);
        return VerifyFails;
      }
      if !ecdsaCreated {
        HandleSessionError(e.base);
        return CreateFails;
      }
      if !eddsaCreated {
        HandleSessionError(e.base);
        return CreateFails;
      }
      match finish {
        case AllDone(failed) =>
          if failed {
            return ErrorHandledElsewhere;
          }
        case DeadlinePassed =>
          HandleSessionError(e.base);
          return TimesOut;
      }
      EnqueueResult(e.base);
      SendReplyToRemoveMsg();
      return Succeeds;
    }

    /** The goroutine that waits on the error channel of one keygen session. It tells the handler whether it failed. */
    method WatchKeygenSession(e: Event, error: bool) returns (failed: bool)
      requires e.kind.Keygen?
      modifies this
      ensures failed == error
      ensures done == old(done) + if failed then Effects(e, OfKeygen(SessionFails)) else []
      ensures done == old(done) + if failed then [Enqueue(e.base), Reply] else []
      ensures Paired(old(done)) ==> Paired(done)
    {
      if error {
        HandleSessionError(e.base);
      }
      return error;
    }

    /** handleSigningEvent up to the start of its goroutines. */
    method HandleSigningEvent(e: Event, decoded: bool, verified: bool, hasSession: bool, keyTypeKnown: bool,
                              creation: Creation, initialized: bool) returns (path: SigningPath)
      requires e.kind.Signing?
      modifies this
      ensures Fits(e, OfSigning(path)) && done == old(done) + Effects(e, OfSigning(path))
      ensures Paired(old(done)) ==> Paired(done)
      ensures done == old(done)
                   + if path == DuplicateSession || path == CreationFails || path == InitFails then [Enqueue(e.base), Reply] else []
      ensures path == RequestUnverified <==> !decoded || !verified
      ensures path == DuplicateSession <==> decoded && verified && hasSession
      ensures path == CreationFails <==> decoded && verified && !hasSession && (!keyTypeKnown || creation == OtherFailure)
      ensures path == RetryLater <==> decoded && verified && !hasSession && keyTypeKnown && creation == NotEnoughParticipants
      ensures path == NotParticipant <==> decoded && verified && !hasSession && keyTypeKnown && creation == NotInParticipantList
      ensures path == InitFails <==> decoded && verified && !hasSession && keyTypeKnown && creation == Created && !initialized
      ensures path == Started <==> decoded && verified && !hasSession && keyTypeKnown && creation == Created && initialized
      ensures done == old(done) <==>
              !decoded || !verified || (!hasSession && keyTypeKnown && match creation
                                        case Created => initialized
                                        case OtherFailure => false
                                        case _ => true)
    {
      if !decoded || !verified {
        return RequestUnverified;
      }
      if hasSession {
        HandleSessionError(e.base);
        return DuplicateSession;
      }
      var result := if keyTypeKnown then creation else OtherFailure;
      if result != Created {
        if result == NotEnoughParticipants {
          return RetryLater;
        }
        if result == NotInParticipantList {
          return NotParticipant;
        }
        HandleSessionError(e.base);
        return CreationFails;
      }
      if !initialized {
        HandleSessionError(e.base);
        return InitFails;
      }
      return Started;
    }

    /** Sign after the party has ended: the signature is checked and enqueued, and only then the callback replies. A bad
        signature or a failed enqueue goes to the error channel, and nothing is answered here. */
    method Sign(e: Event, signatureVerifies: bool, enqueued: bool) returns (ok: bool)
      requires e.kind.Signing?
      modifies this
      ensures ok <==> signatureVerifies && enqueued
      ensures done == old(done) + if ok then Effects(e, OfSigning(Signs)) else []
      ensures done == old(done) + if ok then [Enqueue(e.base), Reply] else []
      ensures errors == old(errors) + if ok then [] else [e]
      ensures Paired(old(done)) ==> Paired(done)
    {
      if !signatureVerifies || !enqueued {
        errors := errors + [e];
        return false;
      }
      EnqueueResult(e.base);
      SendReplyToRemoveMsg();
      return true;
    }

    /** The goroutine that reads the error channel of a signing session: it handles the first error and is gone. */
    method WatchSigningSession()
      requires errors != [] && errors[0].kind.Signing?
      modifies this
      ensures done == old(done) + Effects(old(errors)[0], OfSigning(SigningFails))
      ensures done == old(done) + [Enqueue(old(errors)[0].base), Reply]
      ensures errors == old(errors)[1..]
      ensures Paired(old(done)) ==> Paired(done)
    {
      HandleSessionError(errors[0].base);
      errors := errors[1..];
    }

    /** handleResharingEvent on its own thread. The errors of started sessions are handled by their watchers, and this
        thread goes on after them. */
    method HandleResharingEvent(e: Event, decoded: bool, verified: bool, keyTypeKnown: bool, created: bool,
                                isOld: bool, isNew: bool, initialized: bool) returns (path: ResharingPath)
      requires e.kind.Resharing?
      modifies this
      ensures Fits(e, OfResharing(path)) && done == old(done) + Effects(e, OfResharing(path))
      ensures Paired(old(done)) ==> (Paired(done) <==> path != NotInvolved && path != OldMemberDone)
      ensures done == old(done) + match path
                                  case Fails => [Enqueue(e.base), Reply]
                                  case NewMemberDone => [Enqueue(e.session), Reply]
                                  case _ => [Reply]
      ensures var accepted := decoded && e.session != "" && verified && keyTypeKnown && created;
              && (path == Fails <==> !accepted || ((isOld || isNew) && !initialized))
              && (path == NotInvolved <==> accepted && !isOld && !isNew)
              && (path == OldMemberDone <==> accepted && initialized && isOld && !isNew)
              && (path == NewMemberDone <==> accepted && initialized && isNew)
      ensures Reply in done[|old(done)|..]
    {
      hide Paired;
      ghost var was := done;
      if !decoded || e.session == "" || !verified || !keyTypeKnown || !created {
        HandleSessionError(e.base);
        PathKeepsPaired(was, e, OfResharing(Fails));
        return Fails;
      }
      if !isOld && !isNew {
        SendReplyToRemoveMsg();
        PathKeepsPaired(was, e, OfResharing(NotInvolved));
        return NotInvolved;
      }
      if !initialized {
        HandleSessionError(e.base);
        PathKeepsPaired(was, e, OfResharing(Fails));
        return Fails;
      }
      if isNew {
        EnqueueResult(e.session);
      }
      SendReplyToRemoveMsg();
      path := if isNew then NewMemberDone else OldMemberDone;
      PathKeepsPaired(was, e, OfResharing(path));
    }
  }

  // ---------- handlers one at a time ----------

  /** Results and replies in turn: no reply without a result of its own, and no result without a reply. */
  predicate Paired(done: seq<Effect>) {
    |done| % 2 == 0 && forall i :: 0 <= i < |done| ==> if i % 2 == 0 then done[i].Enqueue? else done[i] == Reply
  }

  /** The ways that reply without a result. */
  predicate QuietPath(p: Path) {
    p == OfResharing(NotInvolved) || p == OfResharing(OldMemberDone)
  }

  /** A way keeps results and replies in turn exactly when it is not a quiet one. */
  lemma PathKeepsPaired(done: seq<Effect>, e: Event, p: Path)
    requires Fits(e, p)
    ensures Paired(done) ==> (Paired(done + Effects(e, p)) <==> !QuietPath(p))
  {
    var more := done + Effects(e, p);
    assert forall i :: 0 <= i < |done| ==> more[i] == done[i];
    if Paired(done) && !QuietPath(p) {
      var effects := Effects(e, p);
      assert effects == [] || (|effects| == 2 && effects[0].Enqueue? && effects[1] == Reply);
      assert forall i :: |done| <= i < |more| ==> more[i] == effects[i - |done|];
    }
  }

  // ---------- handlers and watchers at once ----------

  /** What has been done for an event so far, and what each goroutine has still to do. */
  datatype Pool = Pool(done: seq<Effect>, rest: seq<seq<Effect>>)

  function Advance(p: Pool, i: nat): Option<Pool> {
    if i < |p.rest| && p.rest[i] != []
    then Some(Pool(p.done + [p.rest[i][0]], p.rest[i := p.rest[i][1..]]))
    else None
  }

  /** The goroutines take their turns in the order of the schedule. */
  function Interleave(rest: seq<seq<Effect>>, schedule: seq<nat>): Option<Pool> {
    if schedule == [] then Some(Pool([], rest))
    else
      var before := Interleave(rest, schedule[..|schedule| - 1]);
      if before.None? then None else Advance(before.value, schedule[|schedule| - 1])
  }

  function Replies(done: seq<Effect>): nat {
    if done == [] then 0 else Replies(done[..|done| - 1]) + if done[|done| - 1] == Reply then 1 else 0
  }

  function Results(done: seq<Effect>): nat {
    if done == [] then 0 else Results(done[..|done| - 1]) + if done[|done| - 1].Enqueue? then 1 else 0
  }

  /** Goroutines that have enqueued and not replied yet. */
  function Halfway(rest: seq<seq<Effect>>): nat {
    if rest == [] then 0 else (if rest[0] == [Reply] then 1 else 0) + Halfway(rest[1..])
  }

  predicate Orderly(p: seq<Effect>) {
    p == [] || p == [Reply] || (|p| == 2 && p[0].Enqueue? && p[1] == Reply)
  }

  lemma {:induction false} HalfwayUpdate(rest: seq<seq<Effect>>, i: nat, p: seq<Effect>)
    requires i < |rest|
    ensures Halfway(rest[i := p]) + (if rest[i] == [Reply] then 1 else 0) == Halfway(rest) + if p == [Reply] then 1 else 0
  {
    if i == 0 {
      assert rest[0 := p][1..] == rest[1..];
    } else {
      HalfwayUpdate(rest[1..], i - 1, p);
      assert rest[i := p][1..] == rest[1..][i - 1 := p];
    }
  }

  /** However the goroutines interleave, results are ahead of replies by the goroutines that are halfway. */
  lemma {:induction false} ResultsAhead(rest: seq<seq<Effect>>, schedule: seq<nat>)
    requires Interleave(rest, schedule).Some? && Halfway(rest) == 0 && forall i :: 0 <= i < |rest| ==> Orderly(rest[i])
    ensures var p := Interleave(rest, schedule).value;
            && (forall i :: 0 <= i < |p.rest| ==> Orderly(p.rest[i]))
            && Results(p.done) == Replies(p.done) + Halfway(p.rest)
  {
    if schedule != [] {
      var before, i := schedule[..|schedule| - 1], schedule[|schedule| - 1];
      ResultsAhead(rest, before);
      var p := Interleave(rest, before).value;
      assert Orderly(p.rest[i]);
      HalfwayUpdate(p.rest, i, p.rest[i][1..]);
      var more := p.done + [p.rest[i][0]];
      assert more[..|more| - 1] == p.done;
    }
  }

  lemma {:induction false} NobodyHalfway(rest: seq<seq<Effect>>)
    requires forall i :: 0 <= i < |rest| ==> rest[i] != [Reply]
    ensures Halfway(rest) == 0
  {
    if rest != [] {
      NobodyHalfway(rest[1..]);
    }
  }

  function Programs(e: Event, paths: seq<Path>): (rest: seq<seq<Effect>>)
    ensures |rest| == |paths| && forall i :: 0 <= i < |paths| ==> rest[i] == Effects(e, paths[i])
  {
    seq(|paths|, i requires 0 <= i < |paths| => Effects(e, paths[i]))
  }

  /** At the end of this schedule there are more replies than results. */
  predicate Outrun(e: Event, paths: seq<Path>, schedule: seq<nat>) {
    var p := Interleave(Programs(e, paths), schedule);
    p.Some? && Replies(p.value.done) > Results(p.value.done)
  }

  /** A goroutine on a quiet way may be the first to act. */
  lemma QuietOutruns(e: Event, paths: seq<Path>, i: nat)
    requires i < |paths| && Fits(e, paths[i]) && QuietPath(paths[i])
    ensures Outrun(e, paths, [i])
  {
    assert Programs(e, paths)[i] == [Reply];
    hide Effects, Fits, QuietPath;
    FirstTurn(Programs(e, paths), i);
    OneReply();
  }

  lemma FirstTurn(rest: seq<seq<Effect>>, i: nat)
    requires i < |rest| && rest[i] == [Reply]
    ensures Interleave(rest, [i]).Some? && Interleave(rest, [i]).value.done == [Reply]
  {
    var schedule := [i];
    assert schedule[..0] == [] && Interleave(rest, []) == Some(Pool([], rest));
    assert Interleave(rest, schedule) == Advance(Pool([], rest), i);
  }

  lemma OneReply()
    ensures Replies([Reply]) == 1 && Results([Reply]) == 0
  {
    assert [Reply][..0] == [];
  }

  lemma LoudKeepsUp(e: Event, paths: seq<Path>, schedule: seq<nat>)
    requires forall i :: 0 <= i < |paths| ==> Fits(e, paths[i]) && !QuietPath(paths[i])
    ensures !Outrun(e, paths, schedule)
  {
    var rest := Programs(e, paths);
    forall i | 0 <= i < |paths|
      ensures Orderly(rest[i]) && rest[i] != [Reply]
    {
      assert Fits(e, paths[i]) && !QuietPath(paths[i]);
    }
    hide Effects, Fits, QuietPath, Orderly;
    NobodyHalfway(rest);
    if Interleave(rest, schedule).Some? {
      ResultsAhead(rest, schedule);
    }
  }

  /** The handlers and watchers of all nodes work on one event at the same time. In no interleaving, at no point, are there
      more replies than results, if and only if none of them takes a quiet way. */
  lemma InterleavingIff(e: Event, paths: seq<Path>)
    requires forall i :: 0 <= i < |paths| ==> Fits(e, paths[i])
    ensures (forall schedule :: !Outrun(e, paths, schedule))
            <==> forall i :: 0 <= i < |paths| ==> !QuietPath(paths[i])
  {
    hide Outrun, QuietPath, Fits;
    if i :| 0 <= i < |paths| && QuietPath(paths[i]) {
      QuietOutruns(e, paths, i);
    } else {
      forall schedule
        ensures !Outrun(e, paths, schedule)
      {
        LoudKeepsUp(e, paths, schedule);
      }
    }
  }
}
