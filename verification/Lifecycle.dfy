/** Shares and versions over whole histories: keygen, any number of resharings and signing, on every wallet at once.
    Operations on one wallet and curve do not overlap; their members finish one by one, in any order, and an operation
    may be abandoned as long as no member has published. */
module Lifecycle {
  import opened GoStrings
  import opened PartyId
  import opened Node
  import opened Topics
  import opened Shares

  /** todo: members still computing; stored: members whose share is on disk; published: members that saved key info. */
  datatype Operation = Operation(
    committee: seq<GoString>, threshold: int, version: nat,
    todo: set<GoString>, stored: set<GoString>, published: set<GoString>)

  datatype Wallet = Wallet(curve: Curve, id: string)

  /** history lists the completed operations of a wallet, oldest first. */
  datatype World = World(
    infos: map<string, KeyInfo>,
    stores: map<string, map<string, Share>>,
    operations: map<Wallet, Operation>,
    history: map<Wallet, seq<Operation>>)

  datatype Action =
    | BeginKeygen(w: Wallet, committee: seq<GoString>, threshold: int, lookupFails: bool)
    | BeginReshare(w: Wallet, committee: seq<GoString>, threshold: int, ready: seq<GoString>)
    | StoreShare(w: Wallet, n: GoString)
    | Publish(w: Wallet, n: GoString, order: seq<GoString>)
    | Complete(w: Wallet)
    | Abandon(w: Wallet)

  function InfoOf(s: World, w: Wallet): Option<KeyInfo> {
    var k := ComposeKey(w.curve, w.id);
    if k in s.infos then Some(s.infos[k]) else None
  }

  function OperationOf(s: World, w: Wallet): Option<Operation> {
    if w in s.operations then Some(s.operations[w]) else None
  }

  function HistoryOf(s: World, w: Wallet): seq<Operation> {
    if w in s.history then s.history[w] else []
  }

  function StoreOf(s: World, n: string): map<string, Share> {
    if n in s.stores then s.stores[n] else map[]
  }

  function ShareOf(w: Wallet, version: int, committee: seq<GoString>, n: GoString): Share {
    Share(w.curve, w.id, version, SessionKeys(committee, version), PartyKey(n, version))
  }

  function Begin(s: World, w: Wallet, committee: seq<GoString>, threshold: int, version: nat): World {
    s.(operations := s.operations[w := Operation(committee, threshold, version, Set(committee), {}, {})])
  }

  /** The guards of CreateResharingSession that do not depend on the calling node. */
  predicate MayReshare(info: KeyInfo, committee: seq<GoString>, threshold: int, ready: seq<GoString>) {
    && |ready| >= threshold + 1 && |committee| >= threshold + 1
    && Set(committee) <= Set(ready)
    && |ReadyOf(info.participants, ready)| >= info.threshold + 1
  }

  /** Committees name plain ids without repeats. A keygen goes ahead when it sees no key info, be it that there is none
      or that the lookup fails. */
  ghost function Act(s: World, act: Action): Option<World> {
    var op := OperationOf(s, act.w);
    match act
    case BeginKeygen(w, committee, threshold, lookupFails) =>
      if op.None? && (lookupFails || InfoOf(s, w).None?) && PlainDistinct(committee)
      then Some(Begin(s, w, committee, threshold, DEFAULT_VERSION)) else None
    case BeginReshare(w, committee, threshold, ready) =>
      var info := InfoOf(s, w);
      if op.None? && info.Some? && PlainDistinct(committee) && MayReshare(info.value, committee, threshold, ready)
         && info.value.version >= 0
      then Some(Begin(s, w, committee, threshold, info.value.version + 1)) else None
    case StoreShare(w, n) =>
      if op.Some? && n in op.value.todo
      then
        var share := ShareOf(w, op.value.version, op.value.committee, n);
        var store := StoreOf(s, n)[StorageKey(w.curve, w.id, op.value.version) := share];
        Some(s.(stores := s.stores[n := store],
                operations := s.operations[w := op.value.(todo := op.value.todo - {n}, stored := op.value.stored + {n})]))
      else None
    case Publish(w, n, order) =>
      if op.Some? && n in op.value.stored && multiset(order) == multiset(op.value.committee)
      then
        Some(s.(infos := s.infos[ComposeKey(w.curve, w.id) := KeyInfo(order, op.value.threshold, op.value.version)],
                operations := s.operations[w := op.value.(stored := op.value.stored - {n}, published := op.value.published + {n})]))
      else None
    case Complete(w) =>
      if op.Some? && op.value.published != {} && op.value.todo == {} && op.value.stored == {}
      then Some(s.(operations := s.operations - {w}, history := s.history[w := HistoryOf(s, w) + [op.value]]))
      else None
    case Abandon(w) =>
      if op.Some? && op.value.published == {} then Some(s.(operations := s.operations - {w})) else None
  }

  ghost function Run(start: World, acts: seq<Action>): Option<World> {
    if acts == [] then Some(start)
    else
      var before := Run(start, acts[..|acts| - 1]);
      if before.None? then None else Act(before.value, acts[|acts| - 1])
  }

  // ---------- what every action keeps ----------

  ghost predicate HasShare(s: World, w: Wallet, version: int, committee: seq<GoString>, n: GoString) {
    LoadShare(StoreOf(s, n), w.curve, w.id, version) == Some(ShareOf(w, version, committee, n))
  }

  /** Key info, shares and history agree. */
  ghost predicate Agreed(s: World, w: Wallet) {
    var info, h := InfoOf(s, w), HistoryOf(s, w);
    if info.None? then h == []
    else
      var k := info.value;
      && k.version == |h|
      && (h != [] ==> var last := h[|h| - 1]; multiset(k.participants) == multiset(last.committee) && k.threshold == last.threshold)
      && forall n :: n in k.participants ==> HasShare(s, w, k.version, k.participants, n)
  }

  ghost predicate Underway(s: World, w: Wallet, op: Operation) {
    && PlainDistinct(op.committee)
    && op.version == |HistoryOf(s, w)| + 1
    && (forall n :: n in op.committee && n !in op.todo ==> HasShare(s, w, op.version, op.committee, n))
    && (if op.published == {} then Agreed(s, w)
        else
          InfoOf(s, w).Some?
          && var k := InfoOf(s, w).value;
          && multiset(k.participants) == multiset(op.committee) && k.threshold == op.threshold && k.version == op.version)
  }

  ghost predicate WalletInv(s: World, w: Wallet) {
    && (InfoOf(s, w).Some? ==>
          && PlainDistinct(InfoOf(s, w).value.participants) && InfoOf(s, w).value.version >= 0
          && (InfoOf(s, w).value.version == 0 ==> Unsuffixed(w.id)))
    && (if OperationOf(s, w).None? then Agreed(s, w) else Underway(s, w, OperationOf(s, w).value))
  }

  /** A start: nothing underway or completed; wallets from before versions existed have version 0, their shares under
      the bare key, and no name of the versioned form. */
  ghost predicate Start(s: World) {
    s.operations == map[] && s.history == map[] && forall w :: WalletInv(s, w)
  }

  lemma SamePlainDistinct(xs: seq<GoString>, ys: seq<GoString>)
    requires multiset(xs) == multiset(ys) && PlainDistinct(xs)
    ensures PlainDistinct(ys) && forall n :: n in xs <==> n in ys
  {
    hide Plain;
    assert forall n :: n in xs <==> n in multiset(xs);
    assert forall n :: n in ys <==> n in multiset(ys);
    forall i, j | 0 <= i < j < |ys|
      ensures ys[i] != ys[j]
    {
      DistinctMultiset(xs, ys[j]);
      assert ys == ys[..j] + [ys[j]] + ys[j + 1..];
      assert ys[i] in ys[..j];
    }
    forall i | 0 <= i < |ys|
      ensures Plain(ys[i])
    {
      assert ys[i] in xs;
    }
  }

  /** The order in which a committee is recorded does not matter to a share. */
  lemma SameShare(s: World, w: Wallet, version: int, xs: seq<GoString>, ys: seq<GoString>, n: GoString)
    requires multiset(xs) == multiset(ys)
    ensures HasShare(s, w, version, xs, n) <==> HasShare(s, w, version, ys, n)
  {
    PartyOrderAgreement(xs, ys, version);
  }

  /** A share stored for one wallet and version leaves the shares of all others where they are. */
  lemma OtherShareKept(s: World, w: Wallet, n: GoString, u: World, w': Wallet, v': nat, m: GoString, committee: seq<GoString>)
    requires Act(s, StoreShare(w, n)) == Some(u) && OperationOf(s, w).value.version > 0
    requires w' != w || v' != OperationOf(s, w).value.version
    requires v' == 0 ==> Unsuffixed(w'.id)
    requires HasShare(s, w', v', committee, m)
    ensures HasShare(u, w', v', committee, m)
  {
    hide SessionKeys, PartyKey, StorageKey;
    StorageKeyInjectiveIff(w.curve, w.id, OperationOf(s, w).value.version, w'.curve, w'.id, v');
  }

  lemma AgreedKept(s: World, u: World, w: Wallet)
    requires Agreed(s, w) && InfoOf(u, w) == InfoOf(s, w) && HistoryOf(u, w) == HistoryOf(s, w)
    requires InfoOf(s, w).Some? ==> var k := InfoOf(s, w).value;
               forall n :: n in k.participants && HasShare(s, w, k.version, k.participants, n)
                 ==> HasShare(u, w, k.version, k.participants, n)
    ensures Agreed(u, w)
  {
    hide HasShare;
  }

  lemma StoreKeepsAgreed(s: World, w: Wallet, n: GoString, u: World, w': Wallet)
    requires Act(s, StoreShare(w, n)) == Some(u) && OperationOf(s, w).value.version > 0
    requires WalletInv(s, w') && w' != w && Agreed(s, w')
    ensures Agreed(u, w')
  {
    hide HasShare, PlainDistinct, SessionKeys, PartyKey, StorageKey;
    var info := InfoOf(s, w');
    if info.Some? {
      var k := info.value;
      forall m | m in k.participants && HasShare(s, w', k.version, k.participants, m)
        ensures HasShare(u, w', k.version, k.participants, m)
      {
        OtherShareKept(s, w, n, u, w', k.version, m, k.participants);
      }
    }
    AgreedKept(s, u, w');
  }

  lemma StoreKeepsOthers(s: World, w: Wallet, n: GoString, u: World, w': Wallet)
    requires Act(s, StoreShare(w, n)) == Some(u) && OperationOf(s, w).value.version > 0 && WalletInv(s, w') && w' != w
    ensures WalletInv(u, w')
  {
    hide HasShare, PlainDistinct, Agreed, SessionKeys, PartyKey, StorageKey;
    var op := OperationOf(s, w');
    if Agreed(s, w') {
      StoreKeepsAgreed(s, w, n, u, w');
    }
    if op.Some? {
      forall m | m in op.value.committee && m !in op.value.todo
        ensures HasShare(u, w', op.value.version, op.value.committee, m)
      {
        OtherShareKept(s, w, n, u, w', op.value.version, m, op.value.committee);
      }
    }
  }

  lemma StoreKeepsOwn(s: World, w: Wallet, n: GoString, u: World)
    requires Act(s, StoreShare(w, n)) == Some(u) && WalletInv(s, w)
    ensures WalletInv(u, w)
  {
    hide SessionKeys, PartyKey, StorageKey, PlainDistinct;
    var info, op, after := InfoOf(s, w), OperationOf(s, w).value, OperationOf(u, w).value;
    assert HasShare(u, w, op.version, op.committee, n);
    forall m | m in after.committee && m !in after.todo
      ensures HasShare(u, w, after.version, after.committee, m)
    {
      if m != n {
        assert HasShare(s, w, op.version, op.committee, m);
        assert StoreOf(u, m) == StoreOf(s, m);
      }
    }
    if op.published == {} && info.Some? {
      var k := info.value;
      forall m | m in k.participants && HasShare(s, w, k.version, k.participants, m)
        ensures HasShare(u, w, k.version, k.participants, m)
      {
        OtherShareKept(s, w, n, u, w, k.version, m, k.participants);
      }
      AgreedKept(s, u, w);
    }
  }

  lemma PublishKeepsOwn(s: World, w: Wallet, n: GoString, order: seq<GoString>, u: World)
    requires Act(s, Publish(w, n, order)) == Some(u) && WalletInv(s, w)
    ensures WalletInv(u, w)
  {
    hide SessionKeys, PartyKey, PlainDistinct;
    var op := OperationOf(s, w).value;
    SamePlainDistinct(op.committee, order);
    forall m | m in op.committee && m !in op.todo
      ensures HasShare(u, w, op.version, op.committee, m)
    {
      assert HasShare(s, w, op.version, op.committee, m);
    }
  }

  lemma CompleteKeepsOwn(s: World, w: Wallet, u: World)
    requires Act(s, Complete(w)) == Some(u) && WalletInv(s, w)
    ensures WalletInv(u, w)
  {
    hide SessionKeys, PartyKey, PlainDistinct, HasShare;
    var op, k := OperationOf(s, w).value, InfoOf(s, w).value;
    assert InfoOf(u, w) == Some(k) && OperationOf(u, w) == None;
    assert forall m :: m in k.participants <==> m in multiset(k.participants);
    assert forall m :: m in op.committee <==> m in multiset(op.committee);
    forall m | m in k.participants
      ensures HasShare(u, w, k.version, k.participants, m)
    {
      SameStores(s, u, w, op.version, op.committee, m);
      SameShare(u, w, k.version, op.committee, k.participants, m);
    }
  }

  lemma SameStores(s: World, u: World, w: Wallet, version: int, committee: seq<GoString>, m: GoString)
    requires s.stores == u.stores
    ensures HasShare(s, w, version, committee, m) <==> HasShare(u, w, version, committee, m)
  {
  }

  ghost predicate SameView(s: World, u: World, w: Wallet) {
    u.stores == s.stores && InfoOf(u, w) == InfoOf(s, w) && HistoryOf(u, w) == HistoryOf(s, w)
  }

  lemma SameViewAgreed(s: World, u: World, w: Wallet)
    requires SameView(s, u, w) && Agreed(s, w)
    ensures Agreed(u, w)
  {
    var info := InfoOf(s, w);
    hide SessionKeys, PartyKey;
    if info.Some? {
      forall m | m in info.value.participants
        ensures HasShare(u, w, info.value.version, info.value.participants, m)
      {
        SameStores(s, u, w, info.value.version, info.value.participants, m);
      }
    }
  }

  lemma SameViewUnderway(s: World, u: World, w: Wallet, op: Operation)
    requires SameView(s, u, w) && Underway(s, w, op)
    ensures Underway(u, w, op)
  {
    if op.published == {} {
      SameViewAgreed(s, u, w);
    }
    hide HasShare, PlainDistinct, Agreed;
    forall m | m in op.committee && m !in op.todo
      ensures HasShare(u, w, op.version, op.committee, m)
    {
      SameStores(s, u, w, op.version, op.committee, m);
    }
  }

  /** Actions other than storing a share leave every store alone, so another wallet's agreement is untouched. */
  lemma QuietForOthers(s: World, act: Action, u: World, w': Wallet)
    requires Act(s, act) == Some(u) && !act.StoreShare? && w' != act.w && WalletInv(s, w')
    ensures WalletInv(u, w')
  {
    hide Agreed, Underway, PlainDistinct, MayReshare, ComposeKey;
    ComposeKeyInjective(act.w.curve, act.w.id, w'.curve, w'.id);
    assert SameView(s, u, w') && OperationOf(u, w') == OperationOf(s, w');
    if OperationOf(s, w').None? {
      SameViewAgreed(s, u, w');
    } else {
      SameViewUnderway(s, u, w', OperationOf(s, w').value);
    }
  }

  lemma QuietForOwn(s: World, act: Action, u: World)
    requires Act(s, act) == Some(u) && (act.BeginKeygen? || act.BeginReshare? || act.Abandon?) && WalletInv(s, act.w)
    requires !Overwrites(s, act)
    ensures WalletInv(u, act.w)
  {
    hide HasShare, PlainDistinct, MayReshare;
    var w := act.w;
    assert SameView(s, u, w);
    assert Agreed(s, w);
    SameViewAgreed(s, u, w);
    if !act.Abandon? {
      var op := OperationOf(u, w).value;
      forall m | m in op.committee
        ensures m in op.todo
      {
      }
    }
  }

  /** A keygen begins on a wallet that has key info, because its lookup failed. */
  ghost predicate Overwrites(s: World, act: Action) {
    act.BeginKeygen? && InfoOf(s, act.w).Some?
  }

  /** Operations run at positive versions, those that overwrite included. */
  ghost predicate PositiveOps(s: World) {
    forall w :: w in s.operations ==> s.operations[w].version > 0
  }

  lemma ActKeepsPositive(s: World, act: Action, u: World)
    requires Act(s, act) == Some(u) && PositiveOps(s)
    ensures PositiveOps(u)
  {
    hide PlainDistinct, MayReshare, SessionKeys, StorageKey, ComposeKey;
  }

  /** Every action keeps the agreement of every wallet, unless it begins to overwrite this one. */
  lemma ActKeepsInv(s: World, act: Action, u: World, w: Wallet)
    requires Act(s, act) == Some(u) && PositiveOps(s) && WalletInv(s, w) && (act.w == w ==> !Overwrites(s, act))
    ensures WalletInv(u, w)
  {
    if act.StoreShare? {
      assert OperationOf(s, act.w).value.version > 0;
    }
    hide WalletInv, Act, Overwrites, PositiveOps;
    if act.StoreShare? {
      if w == act.w {
        StoreKeepsOwn(s, w, act.n, u);
      } else {
        StoreKeepsOthers(s, act.w, act.n, u, w);
      }
    } else if w != act.w {
      QuietForOthers(s, act, u, w);
    } else {
      match act
      case Publish(_, n, order) => PublishKeepsOwn(s, w, n, order, u);
      case Complete(_) => CompleteKeepsOwn(s, w, u);
      case _ => QuietForOwn(s, act, u);
    }
  }

  /** No keygen of the history overwrites wallet w. */
  ghost predicate Careful(start: World, acts: seq<Action>, w: Wallet) {
    forall i :: 0 <= i < |acts| && acts[i].w == w && Run(start, acts[..i]).Some? ==> !Overwrites(Run(start, acts[..i]).value, acts[i])
  }

  lemma CarefulParts(start: World, acts: seq<Action>, w: Wallet)
    requires acts != [] && Careful(start, acts, w) && Run(start, acts).Some?
    ensures var n := |acts| - 1;
            && Run(start, acts[..n]).Some? && Act(Run(start, acts[..n]).value, acts[n]) == Run(start, acts)
            && Careful(start, acts[..n], w) && (acts[n].w == w ==> !Overwrites(Run(start, acts[..n]).value, acts[n]))
  {
    assert Run(start, acts[..|acts| - 1]).Some?;
    hide Act, Overwrites;
    var rest := acts[..|acts| - 1];
    forall i | 0 <= i < |rest|
      ensures rest[..i] == acts[..i] && rest[i] == acts[i]
    {
    }
  }

  lemma {:induction false} RunKeepsPositive(start: World, acts: seq<Action>)
    requires Start(start) && Run(start, acts).Some?
    ensures PositiveOps(Run(start, acts).value)
  {
    if acts != [] {
      hide Act, PositiveOps, Start;
      RunKeepsPositive(start, acts[..|acts| - 1]);
      ActKeepsPositive(Run(start, acts[..|acts| - 1]).value, acts[|acts| - 1], Run(start, acts).value);
    }
  }

  lemma {:induction false} RunKeepsInv(start: World, acts: seq<Action>, w: Wallet)
    requires Start(start) && Run(start, acts).Some? && Careful(start, acts, w)
    ensures WalletInv(Run(start, acts).value, w)
  {
    if acts == [] {
      assert Run(start, []) == Some(start);
    } else {
      hide *;
      var n := |acts| - 1;
      CarefulParts(start, acts, w);
      RunKeepsInv(start, acts[..n], w);
      RunKeepsPositive(start, acts[..n]);
      ActKeepsInv(Run(start, acts[..n]).value, acts[n], Run(start, acts).value, w);
    }
  }

  /** A wallet is settled when nothing is underway on it, or what is underway has not published yet. */
  ghost predicate Settled(s: World, w: Wallet) {
    OperationOf(s, w).Some? ==> OperationOf(s, w).value.published == {}
  }

  lemma SettledAgreed(s: World, w: Wallet)
    requires WalletInv(s, w) && Settled(s, w)
    ensures Agreed(s, w)
  {
    hide Agreed, PlainDistinct;
  }

  /** Lifecycle agreement: in a settled wallet the recorded version counts the completed operations (keygen, then
      one more for each resharing), the recorded committee and threshold are those of the last one, and every
      recorded participant holds a share generated under exactly the party keys of that committee, at the very key
      that the loader of old shares computes. */
  lemma LifecycleAgreement(start: World, acts: seq<Action>, w: Wallet)
    requires Start(start) && Run(start, acts).Some? && Careful(start, acts, w) && Settled(Run(start, acts).value, w)
    requires InfoOf(Run(start, acts).value, w).Some?
    ensures var s := Run(start, acts).value; var k, h := InfoOf(s, w).value, HistoryOf(s, w);
            && k.version == |h|
            && (h != [] ==> multiset(k.participants) == multiset(h[|h| - 1].committee) && k.threshold == h[|h| - 1].threshold)
            && forall n :: n in k.participants ==>
                 LoadShare(StoreOf(s, n), w.curve, w.id, k.version)
                 == Some(Share(w.curve, w.id, k.version, SessionKeys(k.participants, k.version), PartyKey(n, k.version)))
  {
    hide *;
    RunKeepsInv(start, acts, w);
    SettledAgreed(Run(start, acts).value, w);
    AgreedMeans(Run(start, acts).value, w);
  }

  lemma AgreedMeans(s: World, w: Wallet)
    requires Agreed(s, w) && InfoOf(s, w).Some?
    ensures var k, h := InfoOf(s, w).value, HistoryOf(s, w);
            && k.version == |h|
            && (h != [] ==> multiset(k.participants) == multiset(h[|h| - 1].committee) && k.threshold == h[|h| - 1].threshold)
            && forall n :: n in k.participants ==>
                 LoadShare(StoreOf(s, n), w.curve, w.id, k.version)
                 == Some(Share(w.curve, w.id, k.version, SessionKeys(k.participants, k.version), PartyKey(n, k.version)))
  {
    hide InfoOf, HistoryOf, SessionKeys, PartyKey, LoadShare, StoreOf;
    var k := InfoOf(s, w).value;
    forall n | n in k.participants
      ensures HasShare(s, w, k.version, k.participants, n)
    {
    }
  }

  lemma RunSnoc(start: World, acts: seq<Action>, act: Action)
    requires Run(start, acts).Some?
    ensures Run(start, acts + [act]) == Act(Run(start, acts).value, act)
  {
    assert (acts + [act])[..|acts|] == acts;
  }

  /** On a wallet with nothing underway, a keygen whose lookup fails runs through and resets the version, whatever the
      wallet was before. */
  lemma KeygenResets(start: World, acts: seq<Action>, w: Wallet, n: GoString) returns (more: seq<Action>)
    requires Run(start, acts).Some? && OperationOf(Run(start, acts).value, w).None? && PlainDistinct([n])
    ensures Run(start, more).Some? && OperationOf(Run(start, more).value, w).None?
    ensures var s, u := Run(start, acts).value, Run(start, more).value;
            InfoOf(u, w) == Some(KeyInfo([n], 0, DEFAULT_VERSION)) && |HistoryOf(u, w)| == |HistoryOf(s, w)| + 1
  {
    hide Run, PlainDistinct, SessionKeys, StorageKey, ComposeKey;
    assert n in [n] && n in Set([n]);
    RunSnoc(start, acts, BeginKeygen(w, [n], 0, true));
    more := acts + [BeginKeygen(w, [n], 0, true)];
    RunSnoc(start, more, StoreShare(w, n));
    more := more + [StoreShare(w, n)];
    RunSnoc(start, more, Publish(w, n, [n]));
    more := more + [Publish(w, n, [n])];
    assert Set([n]) - {n} == {};
    RunSnoc(start, more, Complete(w));
    more := more + [Complete(w)];
  }

  lemma PlainAlone(n: GoString)
    requires Plain(n)
    ensures PlainDistinct([n])
  {
    hide Plain;
  }

  /** From any start, for any wallet and node n: the agreement holds in every history if and only if no keygen may overwrite the
      wallet, that is, if the key-info lookup of a keygen does not fail on it once it has key info. */
  lemma LifecycleAgreementIff(start: World, w: Wallet, n: GoString, mayOverwrite: bool)
    requires Start(start) && Plain(n)
    ensures (forall acts :: (mayOverwrite || Careful(start, acts, w)) && Run(start, acts).Some? && Settled(Run(start, acts).value, w) ==>
               Agreed(Run(start, acts).value, w))
            <==> !mayOverwrite
  {
    if mayOverwrite {
      assert Run(start, []) == Some(start);
      hide Run, PlainDistinct, WalletInv, HasShare, Plain;
      PlainAlone(n);
      var once := KeygenResets(start, [], w, n);
      var twice := KeygenResets(start, once, w, n);
      assert !Agreed(Run(start, twice).value, w);
    } else {
      hide Run, Agreed, Careful, Settled, WalletInv, Start;
      forall acts | Careful(start, acts, w) && Run(start, acts).Some? && Settled(Run(start, acts).value, w)
        ensures Agreed(Run(start, acts).value, w)
      {
        RunKeepsInv(start, acts, w);
        SettledAgreed(Run(start, acts).value, w);
      }
    }
  }

  /** Between the first publication of an operation and its completion, key info is already that of the operation, and
      every member that is done computing holds its new share at the key that the loader computes. */
  lemma WindowAgreement(start: World, acts: seq<Action>, w: Wallet)
    requires Start(start) && Run(start, acts).Some? && Careful(start, acts, w) && !Settled(Run(start, acts).value, w)
    ensures var s := Run(start, acts).value; var op := OperationOf(s, w).value;
            && InfoOf(s, w).Some?
            && var k := InfoOf(s, w).value;
            && k.version == op.version == |HistoryOf(s, w)| + 1
            && multiset(k.participants) == multiset(op.committee) && k.threshold == op.threshold
            && forall n :: n in k.participants && n !in op.todo ==>
                 LoadShare(StoreOf(s, n), w.curve, w.id, k.version)
                 == Some(Share(w.curve, w.id, k.version, SessionKeys(k.participants, k.version), PartyKey(n, k.version)))
  {
    RunKeepsInv(start, acts, w);
    hide SessionKeys, PartyKey, Run, LoadShare;
    var s := Run(start, acts).value;
    var op, k := OperationOf(s, w).value, InfoOf(s, w).value;
    forall n | n in k.participants && n !in op.todo
      ensures HasShare(s, w, k.version, k.participants, n)
    {
      assert n in multiset(op.committee);
      assert HasShare(s, w, op.version, op.committee, n);
      SameShare(s, w, op.version, op.committee, k.participants, n);
    }
  }

  /** A node may sign at any time, except while it computes its share of an operation that others have published. */
  ghost predicate Done(s: World, w: Wallet, n: string) {
    Settled(s, w) || n !in OperationOf(s, w).value.todo
  }

  /** Every signing session that such a participant can create finds its share; and the share was made for this very
      party and covers all parties of the session if and only if the version lookup of the creation gave the recorded
      version (it gives 1 when it fails). */
  lemma SigningFindsShare(start: World, acts: seq<Action>, w: Wallet, n: GoString, first: Option<KeyInfo>, ready: seq<GoString>)
    requires Start(start) && Run(start, acts).Some? && Careful(start, acts, w) && Done(Run(start, acts).value, w, n) && n in ready
    requires SigningPlan(n, first, InfoOf(Run(start, acts).value, w), ready).Ok?
    ensures var s := Run(start, acts).value;
            var k, session := InfoOf(s, w).value, SigningPlan(n, first, InfoOf(s, w), ready).value;
            var share := SigningInit(session, s.infos, StoreOf(s, n), w.curve, w.id);
            && share.Ok? && LoadShare(StoreOf(s, n), w.curve, w.id, k.version) == Some(share.value)
            && ((session.self == Some(share.value.self) && forall key :: key in session.parties ==> key in share.value.parties)
                <==> (first.Some? && first.value.version == k.version) || (first.None? && k.version == 1))
  {
    RunKeepsInv(start, acts, w);
    var s := Run(start, acts).value;
    hide Run, PartyKey, SessionKeys, LoadShare, ReadyOf, Plain, Underway, Agreed;
    var k := InfoOf(s, w).value;
    PlanIsForParticipant(n, first, k, ready);
    ParticipantHasShare(start, acts, w, n);
    QuorumCarriesThrough(n, first, k, ready);
    if VersionOf(first) == k.version {
      SessionWithinCommittee(n, first, k, ready);
    } else {
      OtherVersionOtherKey(k.participants, n, VersionOf(first), k.version);
    }
  }

  lemma ParticipantHasShare(start: World, acts: seq<Action>, w: Wallet, n: GoString)
    requires Start(start) && Run(start, acts).Some? && Careful(start, acts, w) && Done(Run(start, acts).value, w, n)
    requires InfoOf(Run(start, acts).value, w).Some? && n in InfoOf(Run(start, acts).value, w).value.participants
    ensures var s := Run(start, acts).value; var k := InfoOf(s, w).value;
            LoadShare(StoreOf(s, n), w.curve, w.id, k.version)
            == Some(Share(w.curve, w.id, k.version, SessionKeys(k.participants, k.version), PartyKey(n, k.version)))
  {
    hide Run, PartyKey, SessionKeys, LoadShare;
    if Settled(Run(start, acts).value, w) {
      LifecycleAgreement(start, acts, w);
    } else {
      WindowAgreement(start, acts, w);
    }
  }

  lemma OtherVersionOtherKey(ids: seq<GoString>, n: GoString, v: int, u: int)
    requires PlainDistinct(ids) && n in ids && v != u
    ensures PartyKey(n, v) != PartyKey(n, u)
  {
    hide PartyKey;
    if PartyKey(n, v) == PartyKey(n, u) {
      PartyKeyInjective(n, v, n, u);
    }
  }

  lemma PlanIsForParticipant(n: GoString, first: Option<KeyInfo>, k: KeyInfo, ready: seq<GoString>)
    requires SigningPlan(n, first, Some(k), ready).Ok?
    ensures n in k.participants
  {
  }

  lemma SessionWithinCommittee(n: GoString, first: Option<KeyInfo>, k: KeyInfo, ready: seq<GoString>)
    requires SigningPlan(n, first, Some(k), ready).Ok? && VersionOf(first) == k.version
    ensures forall key :: key in SigningPlan(n, first, Some(k), ready).value.parties ==> key in SessionKeys(k.participants, k.version)
  {
    ReadyOfIs(k.participants, ready);
    hide PartyKey, SessionKeys, ReadyOf, Distinct, Set;
    KeysWithin(ReadyOf(k.participants, ready), k.participants, k.version);
  }

  lemma KeysWithin(some: seq<GoString>, all: seq<GoString>, version: int)
    requires Set(some) <= Set(all)
    ensures forall key :: key in SessionKeys(some, version) ==> key in SessionKeys(all, version)
  {
    hide PartyKey, SessionKeys;
    forall key | key in SessionKeys(some, version)
      ensures key in SessionKeys(all, version)
    {
      SessionKeysAre(some, version, key);
      SessionKeysAre(all, version, key);
      var id :| id in some && PartyKey(id, version) == key;
      assert id in Set(some);
    }
  }
}
