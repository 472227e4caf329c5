/** The index of running signing sessions, pkg/session/manager.go. Times and durations are in one unit; the lock makes
    every method atomic. */
module SessionManager {
  import opened GoStrings

  function GetSessionID(wallet: string, tx: string): string {
    wallet + ['-'] + tx
  }

  /** Two signing requests share a session id exactly when they are the same request, or the longer wallet continues
      the shorter one with a '-' and the start of the other's transaction. */
  lemma SessionIDsCollideIff(w: string, t: string, v: string, u: string)
    ensures GetSessionID(w, t) == GetSessionID(v, u)
            <==> (w == v && t == u) || CutsLater(w, t, '-', v, u) || CutsLater(v, u, '-', w, t)
  {
    JoinedIff(w, t, '-', v, u);
  }

  lemma SessionIDCollision()
    ensures GetSessionID("a-b", "c") == GetSessionID("a", "b-c")
  {
    assert GetSessionID("a-b", "c") == "a-b-c";
  }

  /** One locked operation of the manager. */
  datatype Action = Add(id: string, now: int) | Cleanup(now: int)

  /** What the map must hold after a history: the ids whose latest add no later cleanup found stale. */
  ghost predicate Survives(log: seq<Action>, timeout: int, id: string, at: int) {
    exists i :: 0 <= i < |log| && LatestAdd(log, id, i) && log[i].now == at && Untouched(log, timeout, i, at)
  }

  ghost predicate LatestAdd(log: seq<Action>, id: string, i: nat)
    requires i < |log|
  {
    log[i] == Add(id, log[i].now) && forall j :: i < j < |log| ==> !(log[j].Add? && log[j].id == id)
  }

  ghost predicate Untouched(log: seq<Action>, timeout: int, i: nat, at: int) {
    forall j :: i < j < |log| && log[j].Cleanup? ==> log[j].now - at <= timeout
  }

  ghost predicate Agrees(active: map<string, int>, log: seq<Action>, timeout: int) {
    forall id, at :: (id in active && active[id] == at) <==> Survives(log, timeout, id, at)
  }

  lemma SurvivesAdd(log: seq<Action>, timeout: int, added: string, now: int, id: string, at: int)
    ensures Survives(log + [Add(added, now)], timeout, id, at)
            <==> if id == added then at == now else Survives(log, timeout, id, at)
  {
    var more := log + [Add(added, now)];
    if id == added {
      assert LatestAdd(more, id, |log|) && Untouched(more, timeout, |log|, now);
      if i :| 0 <= i < |more| && LatestAdd(more, id, i) && more[i].now == at && Untouched(more, timeout, i, at) {
        assert more[|log|] == Add(id, now);
      }
    } else {
      if i :| 0 <= i < |more| && LatestAdd(more, id, i) && more[i].now == at && Untouched(more, timeout, i, at) {
        assert i < |log| && forall j :: 0 <= j < |log| ==> log[j] == more[j];
        assert LatestAdd(log, id, i) && Untouched(log, timeout, i, at);
      }
      if i :| 0 <= i < |log| && LatestAdd(log, id, i) && log[i].now == at && Untouched(log, timeout, i, at) {
        assert LatestAdd(more, id, i) && Untouched(more, timeout, i, at);
      }
    }
  }

  lemma SurvivesCleanup(log: seq<Action>, timeout: int, now: int, id: string, at: int)
    ensures Survives(log + [Cleanup(now)], timeout, id, at) <==> Survives(log, timeout, id, at) && now - at <= timeout
  {
    var more := log + [Cleanup(now)];
    if i :| 0 <= i < |more| && LatestAdd(more, id, i) && more[i].now == at && Untouched(more, timeout, i, at) {
      assert i < |log| && forall j :: 0 <= j < |log| ==> log[j] == more[j];
      assert LatestAdd(log, id, i) && Untouched(log, timeout, i, at);
      assert more[|log|] == Cleanup(now);
    }
    if i :| 0 <= i < |log| && LatestAdd(log, id, i) && log[i].now == at && Untouched(log, timeout, i, at) && now - at <= timeout {
      assert LatestAdd(more, id, i) && Untouched(more, timeout, i, at);
    }
  }

  class Manager {
    var activeSessions: map<string, int>
    const sessionTimeout: int
    /** Everything done so far. */
    ghost var log: seq<Action>

    /** The map holds exactly the ids whose latest add survived every later cleanup, with the time of that add. */
    ghost predicate Valid()
      reads this
    {
      Agrees(activeSessions, log, sessionTimeout)
    }

    constructor (timeout: int)
      ensures Valid() && log == [] && activeSessions == map[] && sessionTimeout == timeout
    {
      activeSessions, sessionTimeout, log := map[], timeout, [];
    }

    method AddSession(wallet: string, tx: string, now: int)
      requires Valid()
      modifies this
      ensures Valid() && log == old(log) + [Add(GetSessionID(wallet, tx), now)]
      ensures activeSessions == old(activeSessions)[GetSessionID(wallet, tx) := now]
    {
      var id := GetSessionID(wallet, tx);
      activeSessions := activeSessions[id := now];
      log := log + [Add(id, now)];
      forall other, at
        ensures (other in activeSessions && activeSessions[other] == at) <==> Survives(log, sessionTimeout, other, at)
      {
        SurvivesAdd(old(log), sessionTimeout, id, now, other, at);
      }
    }

    method HasSession(wallet: string, tx: string) returns (exists_: bool)
      requires Valid()
      ensures exists_ <==> exists at :: Survives(log, sessionTimeout, GetSessionID(wallet, tx), at)
    {
      var id := GetSessionID(wallet, tx);
      exists_ := id in activeSessions;
      if exists_ {
        assert Survives(log, sessionTimeout, id, activeSessions[id]);
      }
    }

    /** A Go map is walked in any order, and entries are deleted on the way. */
    method CleanupStaleSessions(now: int)
      requires Valid()
      modifies this
      ensures Valid() && log == old(log) + [Cleanup(now)]
      ensures forall id :: id in activeSessions <==> id in old(activeSessions) && now - old(activeSessions)[id] <= sessionTimeout
      ensures forall id :: id in activeSessions ==> activeSessions[id] == old(activeSessions)[id]
    {
      var todo := activeSessions.Keys;
      while todo != {}
        invariant todo <= activeSessions.Keys <= old(activeSessions).Keys && log == old(log)
        invariant forall id :: id in activeSessions ==> activeSessions[id] == old(activeSessions)[id]
        invariant forall id :: id in old(activeSessions) && id !in todo ==>
                    (id in activeSessions <==> now - old(activeSessions)[id] <= sessionTimeout)
        decreases |todo|
      {
        var id :| id in todo;
        if now - activeSessions[id] > sessionTimeout {
          activeSessions := activeSessions - {id};
        }
        todo := todo - {id};
      }
      log := log + [Cleanup(now)];
      forall other, at
        ensures (other in activeSessions && activeSessions[other] == at) <==> Survives(log, sessionTimeout, other, at)
      {
        SurvivesCleanup(old(log), sessionTimeout, now, other, at);
      }
    }
  }

  ghost predicate Ordered(log: seq<Action>) {
    forall i, j :: 0 <= i <= j < |log| ==> log[i].now <= log[j].now
  }

  /** Present while its age at the last action is within the timeout; absent once a cleanup has seen it older. */
  lemma PresenceByAge(log: seq<Action>, timeout: int, id: string, i: nat)
    requires Ordered(log) && i < |log| && LatestAdd(log, id, i)
    ensures log[|log| - 1].now - log[i].now <= timeout ==> Survives(log, timeout, id, log[i].now)
    ensures forall j :: i < j < |log| && log[j].Cleanup? && log[j].now - log[i].now > timeout ==> forall at :: !Survives(log, timeout, id, at)
  {
    if log[|log| - 1].now - log[i].now <= timeout {
      assert Untouched(log, timeout, i, log[i].now);
    }
    forall j, at | i < j < |log| && log[j].Cleanup? && log[j].now - log[i].now > timeout
      ensures !Survives(log, timeout, id, at)
    {
      assert forall k :: 0 <= k < |log| && LatestAdd(log, id, k) ==> k == i;
    }
  }
}
