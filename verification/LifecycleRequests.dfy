/** What was asked for and what came of it: key info and shares after an operation are those of the request that began it,
    and an operation that may begin can run to completion. */
module LifecycleRequests {
  import opened GoStrings
  import opened PartyId
  import opened Node
  import opened Shares
  import opened Lifecycle

  predicate Begins(act: Action) {
    act.BeginKeygen? || act.BeginReshare?
  }

  /** Action i began an operation on w that action j completed, and none has been completed since. */
  predicate LastCompleted(acts: seq<Action>, w: Wallet, i: nat, j: nat) {
    && i < j < |acts| && Begins(acts[i]) && acts[i].w == w && acts[j] == Complete(w)
    && OnlyWork(acts, w, i, j)
    && forall k :: j < k < |acts| && acts[k].w == w ==> !acts[k].Complete?
  }

  /** After action i up to action j, nothing but storing and publishing happened on w. */
  predicate OnlyWork(acts: seq<Action>, w: Wallet, i: nat, j: nat)
    requires j <= |acts|
  {
    forall k :: i < k < j && acts[k].w == w ==> acts[k].StoreShare? || acts[k].Publish?
  }

  // ---------- from the request to the record ----------

  predicate Records(op: Operation, act: Action) {
    Begins(act) && op.committee == act.committee && op.threshold == act.threshold
  }

  lemma ActKeepsHistory(s: World, act: Action, u: World, w: Wallet)
    requires Act(s, act) == Some(u) && !(act.Complete? && act.w == w)
    ensures HistoryOf(u, w) == HistoryOf(s, w)
  {
    hide PlainDistinct, MayReshare, StorageKey, ComposeKey, SessionKeys;
  }

  lemma ActKeepsOperation(s: World, act: Action, u: World, w: Wallet)
    requires Act(s, act) == Some(u) && (act.w == w ==> act.StoreShare? || act.Publish?)
    ensures OperationOf(u, w).Some? <==> OperationOf(s, w).Some?
    ensures OperationOf(s, w).Some? ==>
              var o, p := OperationOf(s, w).value, OperationOf(u, w).value;
              p.committee == o.committee && p.threshold == o.threshold && p.version == o.version
  {
    hide PlainDistinct, MayReshare, StorageKey, ComposeKey, SessionKeys;
  }

  /** A beginning starts an operation as requested; one version up for a resharing, version 1 for a keygen. */
  lemma BeginStarts(s: World, act: Action, u: World)
    requires Act(s, act) == Some(u) && Begins(act)
    ensures OperationOf(u, act.w).Some?
    ensures var op := OperationOf(u, act.w).value;
            && op.committee == act.committee && op.threshold == act.threshold
            && op.todo == Set(act.committee) && op.stored == {} && op.published == {}
            && op.version == (if act.BeginKeygen? then 1 else InfoOf(s, act.w).value.version + 1)
    ensures u.infos == s.infos && u.stores == s.stores && u.history == s.history
  {
    hide PlainDistinct, MayReshare, ComposeKey;
  }

  lemma RunParts(start: World, acts: seq<Action>)
    requires acts != [] && Run(start, acts).Some?
    ensures var n := |acts| - 1; Run(start, acts[..n]).Some? && Act(Run(start, acts[..n]).value, acts[n]) == Run(start, acts)
  {
  }

  lemma {:induction false} OperationRecords(start: World, acts: seq<Action>, w: Wallet, i: nat)
    requires Run(start, acts).Some? && i < |acts| && Begins(acts[i]) && acts[i].w == w && OnlyWork(acts, w, i, |acts|)
    ensures OperationOf(Run(start, acts).value, w).Some? && Records(OperationOf(Run(start, acts).value, w).value, acts[i])
  {
    hide Run, Act;
    var n := |acts| - 1;
    RunParts(start, acts);
    var s, u := Run(start, acts[..n]).value, Run(start, acts).value;
    if i == n {
      BeginStarts(s, acts[n], u);
    } else {
      OperationRecords(start, acts[..n], w, i);
      ActKeepsOperation(s, acts[n], u, w);
    }
  }

  lemma CompleteAppends(s: World, w: Wallet, u: World)
    requires Act(s, Complete(w)) == Some(u)
    ensures OperationOf(s, w).Some? && HistoryOf(u, w) == HistoryOf(s, w) + [OperationOf(s, w).value]
    ensures OperationOf(u, w).None? && u.infos == s.infos && u.stores == s.stores
  {
  }

  lemma {:induction false} HistoryRecords(start: World, acts: seq<Action>, w: Wallet, i: nat, j: nat)
    requires Run(start, acts).Some? && LastCompleted(acts, w, i, j)
    ensures var h := HistoryOf(Run(start, acts).value, w); h != [] && Records(h[|h| - 1], acts[i])
  {
    hide Run, Act, HistoryOf, OperationOf;
    var n := |acts| - 1;
    RunParts(start, acts);
    var s, u := Run(start, acts[..n]).value, Run(start, acts).value;
    if j == n {
      OperationRecords(start, acts[..n], w, i);
      CompleteAppends(s, w, u);
    } else {
      HistoryRecords(start, acts[..n], w, i, j);
      ActKeepsHistory(s, acts[n], u, w);
    }
  }

  // ---------- every completed operation was requested ----------

  lemma NothingYet(start: World, w: Wallet)
    ensures Run(start, []) == Some(start)
    ensures start.operations == map[] ==> OperationOf(start, w).None?
    ensures start.history == map[] ==> HistoryOf(start, w) == []
  {
  }

  lemma WorkGoesOn(acts: seq<Action>, w: Wallet, i: nat)
    requires acts != [] && i < |acts| - 1 && Begins(acts[..|acts| - 1][i]) && acts[..|acts| - 1][i].w == w
    requires OnlyWork(acts[..|acts| - 1], w, i, |acts| - 1)
    requires var last := acts[|acts| - 1]; last.w == w ==> last.StoreShare? || last.Publish?
    ensures Begins(acts[i]) && acts[i].w == w && OnlyWork(acts, w, i, |acts|)
  {
    var n := |acts| - 1;
    assert forall k :: 0 <= k < n ==> acts[..n][k] == acts[k];
  }

  lemma CompletedGoesOn(acts: seq<Action>, w: Wallet, i: nat, j: nat)
    requires acts != [] && LastCompleted(acts[..|acts| - 1], w, i, j) && acts[|acts| - 1] != Complete(w)
    ensures LastCompleted(acts, w, i, j)
  {
    var n := |acts| - 1;
    assert forall k :: 0 <= k < n ==> acts[..n][k] == acts[k];
  }

  lemma JustCompleted(acts: seq<Action>, w: Wallet, i: nat)
    requires acts != [] && acts[|acts| - 1] == Complete(w) && i < |acts| - 1
    requires Begins(acts[..|acts| - 1][i]) && acts[..|acts| - 1][i].w == w && OnlyWork(acts[..|acts| - 1], w, i, |acts| - 1)
    ensures LastCompleted(acts, w, i, |acts| - 1)
  {
    var n := |acts| - 1;
    assert forall k :: 0 <= k < n ==> acts[..n][k] == acts[k];
  }

  lemma {:induction false} OperationHasOrigin(start: World, acts: seq<Action>, w: Wallet) returns (i: nat)
    requires start.operations == map[] && Run(start, acts).Some? && OperationOf(Run(start, acts).value, w).Some?
    ensures i < |acts| && Begins(acts[i]) && acts[i].w == w && OnlyWork(acts, w, i, |acts|)
  {
    hide Run, Act, OperationOf, OnlyWork;
    NothingYet(start, w);
    var n := |acts| - 1;
    RunParts(start, acts);
    var s, u := Run(start, acts[..n]).value, Run(start, acts).value;
    if Begins(acts[n]) && acts[n].w == w {
      i := n;
      NoWorkYet(acts, w);
    } else {
      StillUnderway(s, acts[n], u, w);
      i := OperationHasOrigin(start, acts[..n], w);
      WorkGoesOn(acts, w, i);
    }
  }

  lemma NoWorkYet(acts: seq<Action>, w: Wallet)
    requires acts != []
    ensures OnlyWork(acts, w, |acts| - 1, |acts|)
  {
  }

  lemma StillUnderway(s: World, act: Action, u: World, w: Wallet)
    requires Act(s, act) == Some(u) && OperationOf(u, w).Some? && !(Begins(act) && act.w == w)
    ensures OperationOf(s, w).Some? && (act.w == w ==> act.StoreShare? || act.Publish?)
  {
    hide PlainDistinct, MayReshare, StorageKey, ComposeKey, SessionKeys;
  }

  lemma {:induction false} HistoryHasOrigin(start: World, acts: seq<Action>, w: Wallet) returns (i: nat, j: nat)
    requires start.operations == map[] && start.history == map[]
    requires Run(start, acts).Some? && HistoryOf(Run(start, acts).value, w) != []
    ensures LastCompleted(acts, w, i, j)
  {
    hide Run, Act, OperationOf, HistoryOf, OnlyWork, LastCompleted;
    NothingYet(start, w);
    var n := |acts| - 1;
    RunParts(start, acts);
    var s, u := Run(start, acts[..n]).value, Run(start, acts).value;
    if acts[n] == Complete(w) {
      CompleteAppends(s, w, u);
      i := OperationHasOrigin(start, acts[..n], w);
      j := n;
      JustCompleted(acts, w, i);
    } else {
      ActKeepsHistory(s, acts[n], u, w);
      i, j := HistoryHasOrigin(start, acts[..n], w);
      CompletedGoesOn(acts, w, i, j);
    }
  }

  /** A settled wallet with a completed operation is as its last request asked: there is such a request; key info names
      exactly the requested committee and threshold; and every node of the requested committee can load its share. */
  lemma LatestRequest(start: World, acts: seq<Action>, w: Wallet) returns (i: nat, j: nat)
    requires Start(start) && Run(start, acts).Some? && Careful(start, acts, w) && Settled(Run(start, acts).value, w)
    requires HistoryOf(Run(start, acts).value, w) != []
    ensures LastCompleted(acts, w, i, j) && InfoOf(Run(start, acts).value, w).Some?
    ensures var s := Run(start, acts).value; var k := InfoOf(s, w).value;
            && multiset(k.participants) == multiset(acts[i].committee) && k.threshold == acts[i].threshold
            && forall n :: n in acts[i].committee ==>
                 LoadShare(StoreOf(s, n), w.curve, w.id, k.version)
                 == Some(Share(w.curve, w.id, k.version, SessionKeys(acts[i].committee, k.version), PartyKey(n, k.version)))
  {
    i, j := HistoryHasOrigin(start, acts, w);
    HistoryRecords(start, acts, w, i, j);
    RunKeepsInv(start, acts, w);
    hide *;
    var s := Run(start, acts).value;
    SettledAgreed(s, w);
    AgreedHasInfo(s, w);
    LifecycleAgreement(start, acts, w);
    var k := InfoOf(s, w).value;
    LastIs(HistoryOf(s, w), acts[i]);
    PartyOrderAgreement(k.participants, acts[i].committee, k.version);
    forall n | n in acts[i].committee
      ensures n in k.participants
    {
      assert n in multiset(k.participants);
    }
  }

  lemma AgreedHasInfo(s: World, w: Wallet)
    requires Agreed(s, w) && HistoryOf(s, w) != []
    ensures InfoOf(s, w).Some?
  {
    hide InfoOf, HistoryOf;
  }

  lemma LastIs(h: seq<Operation>, act: Action)
    requires h != [] && Records(h[|h| - 1], act)
    ensures Begins(act) && h[|h| - 1].committee == act.committee && h[|h| - 1].threshold == act.threshold
  {
  }

  // ---------- an operation can run to completion ----------

  lemma RunOne(start: World, acts: seq<Action>, act: Action)
    requires Run(start, acts).Some? && Act(Run(start, acts).value, act).Some?
    ensures Run(start, acts + [act]) == Act(Run(start, acts).value, act)
  {
    RunSnoc(start, acts, act);
  }

  /** Everything after acts is work of the members. */
  ghost predicate Extends(acts: seq<Action>, more: seq<Action>) {
    && |acts| <= |more| && more[..|acts|] == acts
    && forall i :: |acts| <= i < |more| ==> more[i].StoreShare? || more[i].Publish? || more[i].Complete?
  }

  lemma ExtendsOne(acts: seq<Action>, more: seq<Action>, act: Action)
    requires Extends(acts, more) && (act.StoreShare? || act.Publish? || act.Complete?)
    ensures Extends(acts, more + [act])
  {
  }

  lemma StoreActs(s: World, w: Wallet, n: GoString)
    requires OperationOf(s, w).Some? && n in OperationOf(s, w).value.todo
    ensures Act(s, StoreShare(w, n)).Some?
    ensures var op, u := OperationOf(s, w).value, Act(s, StoreShare(w, n)).value;
            && OperationOf(u, w) == Some(op.(todo := op.todo - {n}, stored := op.stored + {n}))
            && u.infos == s.infos && u.history == s.history
  {
    hide StorageKey, ComposeKey, ShareOf;
  }

  lemma PublishActs(s: World, w: Wallet, n: GoString, order: seq<GoString>)
    requires OperationOf(s, w).Some? && n in OperationOf(s, w).value.stored
    requires multiset(order) == multiset(OperationOf(s, w).value.committee)
    ensures Act(s, Publish(w, n, order)).Some?
    ensures var op, u := OperationOf(s, w).value, Act(s, Publish(w, n, order)).value;
            && OperationOf(u, w) == Some(op.(stored := op.stored - {n}, published := op.published + {n}))
            && InfoOf(u, w) == Some(KeyInfo(order, op.threshold, op.version)) && u.history == s.history && u.stores == s.stores
  {
    hide ComposeKey;
  }

  lemma {:induction false} StoreAll(start: World, acts: seq<Action>, w: Wallet, op: Operation, m: nat) returns (more: seq<Action>)
    requires Run(start, acts).Some? && OperationOf(Run(start, acts).value, w) == Some(op)
    requires Distinct(op.committee) && op.todo == Set(op.committee) && op.stored == {} && m <= |op.committee|
    ensures Extends(acts, more) && Run(start, more).Some?
    ensures var s, u := Run(start, acts).value, Run(start, more).value; var done := Set(op.committee[..m]);
            && OperationOf(u, w) == Some(op.(todo := op.todo - done, stored := done))
            && u.infos == s.infos && u.history == s.history
  {
    if m == 0 {
      more := acts;
      assert op.committee[..0] == [];
      SetEmpty<GoString>();
      assert op.todo - {} == op.todo;
    } else {
      hide *;
      var before := StoreAll(start, acts, w, op, m - 1);
      var n := op.committee[m - 1];
      NextMember(op.committee, m - 1);
      StoreNext(start, before, w, op, Set(op.committee[..m - 1]), n);
      ExtendsOne(acts, before, StoreShare(w, n));
      more := before + [StoreShare(w, n)];
    }
  }

  lemma StoreNext(start: World, acts: seq<Action>, w: Wallet, op: Operation, done: set<GoString>, n: GoString)
    requires Run(start, acts).Some? && n in op.todo && n !in done
    requires OperationOf(Run(start, acts).value, w) == Some(op.(todo := op.todo - done, stored := done))
    ensures Run(start, acts + [StoreShare(w, n)]).Some?
    ensures var s, u := Run(start, acts).value, Run(start, acts + [StoreShare(w, n)]).value;
            && OperationOf(u, w) == Some(op.(todo := op.todo - (done + {n}), stored := done + {n}))
            && u.infos == s.infos && u.history == s.history
  {
    hide *;
    StoreActs(Run(start, acts).value, w, n);
    RunOne(start, acts, StoreShare(w, n));
    MinusMore(op.todo, done, n);
  }

  lemma NextMember(s: seq<GoString>, m: nat)
    requires Distinct(s) && m < |s|
    ensures s[m] in Set(s) && s[m] !in Set(s[..m]) && Set(s[..m + 1]) == Set(s[..m]) + {s[m]}
  {
    assert s[..m + 1] == s[..m] + [s[m]];
    SetSnoc(s[..m], s[m]);
  }

  lemma MinusMore<T>(all: set<T>, done: set<T>, n: T)
    ensures all - done - {n} == all - (done + {n})
  {
  }

  lemma {:induction false} PublishAll(start: World, acts: seq<Action>, w: Wallet, op: Operation, m: nat) returns (more: seq<Action>)
    requires Run(start, acts).Some? && OperationOf(Run(start, acts).value, w) == Some(op)
    requires Distinct(op.committee) && op.stored == Set(op.committee) && op.published == {} && m <= |op.committee|
    ensures Extends(acts, more) && Run(start, more).Some?
    ensures var s, u := Run(start, acts).value, Run(start, more).value; var done := Set(op.committee[..m]);
            && OperationOf(u, w) == Some(op.(stored := op.stored - done, published := done))
            && u.history == s.history
            && (m > 0 ==> InfoOf(u, w) == Some(KeyInfo(op.committee, op.threshold, op.version)))
  {
    if m == 0 {
      more := acts;
      assert op.committee[..0] == [];
      SetEmpty<GoString>();
      assert op.stored - {} == op.stored;
    } else {
      hide *;
      var before := PublishAll(start, acts, w, op, m - 1);
      var n := op.committee[m - 1];
      NextMember(op.committee, m - 1);
      PublishNext(start, before, w, op, Set(op.committee[..m - 1]), n);
      ExtendsOne(acts, before, Publish(w, n, op.committee));
      more := before + [Publish(w, n, op.committee)];
    }
  }

  lemma PublishNext(start: World, acts: seq<Action>, w: Wallet, op: Operation, done: set<GoString>, n: GoString)
    requires Run(start, acts).Some? && n in op.stored && n !in done
    requires OperationOf(Run(start, acts).value, w) == Some(op.(stored := op.stored - done, published := done))
    ensures Run(start, acts + [Publish(w, n, op.committee)]).Some?
    ensures var s, u := Run(start, acts).value, Run(start, acts + [Publish(w, n, op.committee)]).value;
            && OperationOf(u, w) == Some(op.(stored := op.stored - (done + {n}), published := done + {n}))
            && InfoOf(u, w) == Some(KeyInfo(op.committee, op.threshold, op.version)) && u.history == s.history
  {
    hide *;
    PublishActs(Run(start, acts).value, w, n, op.committee);
    RunOne(start, acts, Publish(w, n, op.committee));
    MinusMore(op.stored, done, n);
  }

  /** An operation that has begun can be finished by its members, and then key info is what it set out to make it. */
  lemma OperationCompletes(start: World, acts: seq<Action>, w: Wallet, op: Operation) returns (more: seq<Action>)
    requires Run(start, acts).Some? && OperationOf(Run(start, acts).value, w) == Some(op)
    requires Distinct(op.committee) && op.committee != [] && op.todo == Set(op.committee) && op.stored == {} && op.published == {}
    ensures Extends(acts, more) && Run(start, more).Some?
    ensures var s, u := Run(start, acts).value, Run(start, more).value;
            && OperationOf(u, w).None? && InfoOf(u, w) == Some(KeyInfo(op.committee, op.threshold, op.version))
            && |HistoryOf(u, w)| == |HistoryOf(s, w)| + 1
  {
    hide Run, Act, OperationOf, InfoOf, Set, Distinct, Extends;
    var all := |op.committee|;
    assert op.committee[..all] == op.committee;
    var stored := StoreAll(start, acts, w, op, all);
    var op1 := op.(todo := {}, stored := op.todo);
    assert op.todo - op.todo == {};
    var published := PublishAll(start, stored, w, op1, all);
    FirstIsMember(op.committee);
    CompleteActs(Run(start, published).value, w);
    RunOne(start, published, Complete(w));
    more := published + [Complete(w)];
    ExtendsTwice(acts, stored, published);
    ExtendsOne(acts, published, Complete(w));
  }

  lemma FirstIsMember(s: seq<GoString>)
    requires s != []
    ensures s[0] in Set(s)
  {
  }

  lemma CompleteActs(s: World, w: Wallet)
    requires OperationOf(s, w).Some?
    requires var op := OperationOf(s, w).value; op.todo == {} && op.stored == {} && op.published != {}
    ensures Act(s, Complete(w)).Some?
    ensures var u := Act(s, Complete(w)).value;
            OperationOf(u, w).None? && InfoOf(u, w) == InfoOf(s, w) && |HistoryOf(u, w)| == |HistoryOf(s, w)| + 1
  {
  }

  lemma ExtendsTwice(acts: seq<Action>, mid: seq<Action>, more: seq<Action>)
    requires Extends(acts, mid) && Extends(mid, more)
    ensures Extends(acts, more)
  {
    assert forall i :: 0 <= i < |mid| ==> more[i] == more[..|mid|][i];
    assert more[..|acts|] == more[..|mid|][..|acts|];
  }

  lemma StaysCareful(start: World, acts: seq<Action>, more: seq<Action>, w: Wallet)
    requires Careful(start, acts, w) && Extends(acts, more)
    ensures Careful(start, more, w)
  {
    hide Run, InfoOf;
    forall i | 0 <= i < |more| && more[i].w == w && Run(start, more[..i]).Some?
      ensures !Overwrites(Run(start, more[..i]).value, more[i])
    {
      if i < |acts| {
        assert more[..i] == acts[..i] && more[i] == acts[i];
      }
    }
  }

  lemma CarefulBegin(start: World, acts: seq<Action>, act: Action, w: Wallet)
    requires Careful(start, acts, w) && Run(start, acts).Some? && !Overwrites(Run(start, acts).value, act)
    ensures Careful(start, acts + [act], w)
  {
    hide Run, Overwrites;
    var more := acts + [act];
    forall i | 0 <= i < |more| && more[i].w == w && Run(start, more[..i]).Some?
      ensures !Overwrites(Run(start, more[..i]).value, more[i])
    {
      if i < |acts| {
        assert more[..i] == acts[..i] && more[i] == acts[i];
      } else {
        assert more[..i] == acts;
      }
    }
  }

  /** A resharing may begin exactly on an idle wallet with key info, for a committee of enough plain distinct nodes that
      are all ready, with enough nodes and a quorum of the recorded participants ready. */
  lemma ReshareBeginsIff(s: World, w: Wallet, committee: seq<GoString>, threshold: int, ready: seq<GoString>)
    requires InfoOf(s, w).Some? ==> Distinct(InfoOf(s, w).value.participants)
    ensures Act(s, BeginReshare(w, committee, threshold, ready)).Some? <==>
            && OperationOf(s, w).None? && InfoOf(s, w).Some? && PlainDistinct(committee)
            && var k := InfoOf(s, w).value;
            && k.version >= 0 && |ready| >= threshold + 1 && |committee| >= threshold + 1
            && (forall n :: n in committee ==> n in ready)
            && |Set(k.participants) * Set(ready)| >= k.threshold + 1
  {
    if InfoOf(s, w).Some? {
      var k := InfoOf(s, w).value;
      ReadyOfIs(k.participants, ready);
      DistinctSize(ReadyOf(k.participants, ready));
    }
    hide ReadyOf, Distinct, PlainDistinct;
    AllIn(committee, ready);
  }

  lemma AllIn(a: seq<GoString>, b: seq<GoString>)
    ensures Set(a) <= Set(b) <==> forall n :: n in a ==> n in b
  {
    if Set(a) <= Set(b) {
      forall n | n in a
        ensures n in b
      {
        assert n in Set(a);
      }
    }
  }

  /** From any idle wallet whose resharing may begin, it can run to completion: then key info names the new committee and
      threshold, one version up, and every node of the new committee can load a share made for it. */
  lemma ReshareCompletes(start: World, acts: seq<Action>, w: Wallet, committee: seq<GoString>, threshold: int, ready: seq<GoString>)
    returns (more: seq<Action>)
    requires Start(start) && Run(start, acts).Some? && Careful(start, acts, w) && committee != []
    requires Act(Run(start, acts).value, BeginReshare(w, committee, threshold, ready)).Some?
    ensures Extends(acts + [BeginReshare(w, committee, threshold, ready)], more) && Run(start, more).Some? && Careful(start, more, w)
    ensures var s, u := Run(start, acts).value, Run(start, more).value;
            && InfoOf(s, w).Some? && OperationOf(u, w).None?
            && var v := InfoOf(s, w).value.version + 1;
            && InfoOf(u, w) == Some(KeyInfo(committee, threshold, v))
            && forall n :: n in committee ==>
                 LoadShare(StoreOf(u, n), w.curve, w.id, v)
                 == Some(Share(w.curve, w.id, v, SessionKeys(committee, v), PartyKey(n, v)))
  {
    hide *;
    var act := BeginReshare(w, committee, threshold, ready);
    assert Begins(act) by { IsBegin(act); }
    BeginNeeds(Run(start, acts).value, act);
    more := BeginCompletes(start, acts, act);
  }

  lemma IsBegin(act: Action)
    ensures Begins(act) <==> act.BeginKeygen? || act.BeginReshare?
  {
  }

  lemma BeginNeeds(s: World, act: Action)
    requires act.BeginReshare? && Act(s, act).Some?
    ensures InfoOf(s, act.w).Some? && !Overwrites(s, act) && PlainDistinct(act.committee)
  {
    hide PlainDistinct, MayReshare;
  }

  /** So can a keygen on a wallet without key info, at version 1. */
  lemma KeygenCompletes(start: World, acts: seq<Action>, w: Wallet, committee: seq<GoString>, threshold: int, lookupFails: bool)
    returns (more: seq<Action>)
    requires Start(start) && Run(start, acts).Some? && Careful(start, acts, w) && committee != []
    requires OperationOf(Run(start, acts).value, w).None? && InfoOf(Run(start, acts).value, w).None? && PlainDistinct(committee)
    ensures Extends(acts + [BeginKeygen(w, committee, threshold, lookupFails)], more) && Run(start, more).Some? && Careful(start, more, w)
    ensures var u := Run(start, more).value;
            && OperationOf(u, w).None? && InfoOf(u, w) == Some(KeyInfo(committee, threshold, 1))
            && forall n :: n in committee ==>
                 LoadShare(StoreOf(u, n), w.curve, w.id, 1)
                 == Some(Share(w.curve, w.id, 1, SessionKeys(committee, 1), PartyKey(n, 1)))
  {
    var act := BeginKeygen(w, committee, threshold, lookupFails);
    assert Act(Run(start, acts).value, act).Some?;
    more := BeginCompletes(start, acts, act);
  }

  lemma BeginCompletes(start: World, acts: seq<Action>, act: Action) returns (more: seq<Action>)
    requires Start(start) && Run(start, acts).Some? && Careful(start, acts, act.w) && Begins(act) && act.committee != []
    requires Act(Run(start, acts).value, act).Some? && !Overwrites(Run(start, acts).value, act) && PlainDistinct(act.committee)
    requires act.BeginReshare? ==> InfoOf(Run(start, acts).value, act.w).Some?
    ensures Extends(acts + [act], more) && Run(start, more).Some? && Careful(start, more, act.w)
    ensures var u, w := Run(start, more).value, act.w;
            var v := if act.BeginKeygen? then 1 else InfoOf(Run(start, acts).value, w).value.version + 1;
            && OperationOf(u, w).None? && InfoOf(u, w) == Some(KeyInfo(act.committee, act.threshold, v))
            && forall n :: n in act.committee ==>
                 LoadShare(StoreOf(u, n), w.curve, w.id, v)
                 == Some(Share(w.curve, w.id, v, SessionKeys(act.committee, v), PartyKey(n, v)))
  {
    DistinctCommittee(act.committee);
    hide Run, Act, Start, Careful, Overwrites, OperationOf, InfoOf, HistoryOf, LoadShare, SessionKeys, PartyKey, Extends,
         PlainDistinct, Distinct, Set, StoreOf;
    var s := Run(start, acts).value;
    RunOne(start, acts, act);
    BeginStarts(s, act, Run(start, acts + [act]).value);
    var op := OperationOf(Run(start, acts + [act]).value, act.w).value;
    more := OperationCompletes(start, acts + [act], act.w, op);
    CarefulBegin(start, acts, act, act.w);
    StaysCareful(start, acts + [act], more, act.w);
    IdleIsSettled(Run(start, more).value, act.w);
    LifecycleAgreement(start, more, act.w);
  }

  lemma DistinctCommittee(ids: seq<GoString>)
    requires PlainDistinct(ids)
    ensures Distinct(ids)
  {
  }

  lemma IdleIsSettled(s: World, w: Wallet)
    requires OperationOf(s, w).None?
    ensures Settled(s, w)
  {
  }

  /** An operation that nobody has published can be given up: key info and shares stay as they are, and the wallet is idle
      again. */
  lemma AbandonFrees(s: World, w: Wallet)
    requires OperationOf(s, w).Some? && OperationOf(s, w).value.published == {}
    ensures Act(s, Abandon(w)).Some?
    ensures var u := Act(s, Abandon(w)).value;
            OperationOf(u, w).None? && u.infos == s.infos && u.stores == s.stores && u.history == s.history
  {
  }
}
