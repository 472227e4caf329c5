/** pkg/mpc/key_exchange_session.go over a whole cluster: every node runs its registry steps while key-exchange messages
    are broadcast, delayed, duplicated, reordered and lost between them. */
module Cluster {
  import opened GoStrings
  import Registry
  import R = Readiness
  import Session

  /** X25519 and HKDF as functions: the public key of a private key, the shared secret (None when the library
      rejects the public key) and the derived key. */
  datatype Crypto = Crypto(
    Public: nat -> nat,
    Shared: (nat, nat) -> Option<string>,
    Hkdf: (string, string) -> SymmetricKey)

  /** Section 6.1 of RFC 7748: both sides compute one secret. */
  ghost predicate Commutes(c: Crypto) {
    forall a, b :: c.Shared(a, c.Public(b)) == c.Shared(b, c.Public(a))
  }

  function DeriveConsistentInfo(a: string, b: string): string {
    if Less(a, b) then a + b else b + a
  }

  function DeriveSymmetricKey(c: Crypto, secret: string, self: string, peer: string): SymmetricKey {
    c.Hkdf(secret, DeriveConsistentInfo(self, peer))
  }

  // ---------- the info string ----------

  lemma InfoSymmetric(a: string, b: string)
    ensures DeriveConsistentInfo(a, b) == DeriveConsistentInfo(b, a)
  {
    LessTotal(a, b);
  }

  function First(a: string, b: string): string {
    if Less(a, b) then a else b
  }

  function Second(a: string, b: string): string {
    if Less(a, b) then b else a
  }

  /** Two pairs with one info string are the same pair exactly when their smaller ids have one length; ids of equal
      length, as UUIDs have, therefore never collide. */
  lemma InfoInjectiveIff(a: string, b: string, x: string, y: string)
    requires DeriveConsistentInfo(a, b) == DeriveConsistentInfo(x, y)
    ensures |First(a, b)| == |First(x, y)| <==> {a, b} == {x, y}
  {
    var f, s, g, t := First(a, b), Second(a, b), First(x, y), Second(x, y);
    assert f + s == g + t && {f, s} == {a, b} && {g, t} == {x, y};
    if |f| == |g| {
      assert (f + s)[..|f|] == f && (g + t)[..|g|] == g;
      assert (f + s)[|f|..] == s && (g + t)[|g|..] == t;
    }
    if {a, b} == {x, y} {
      FirstOfPair(a, b, x, y);
    }
  }

  lemma FirstOfPair(a: string, b: string, x: string, y: string)
    requires {a, b} == {x, y}
    ensures First(a, b) == First(x, y)
  {
    LessTotal(a, b);
    assert a in {x, y} && b in {x, y} && x in {a, b} && y in {a, b};
  }

  lemma InfoCollision()
    ensures DeriveConsistentInfo("a", "bc") == DeriveConsistentInfo("ab", "c") && {"a", "bc"} != {"ab", "c"}
  {
    assert "a" + "bc" == "ab" + "c";
    assert "a" !in {"ab", "c"};
  }

  // ---------- the cluster ----------

  datatype Message = Message(from: string, publicKey: nat)

  /** A member has a key pair once it listens, and keeps it. */
  datatype Member = Member(privateKey: Option<nat>, node: R.NodeState)

  datatype State = State(members: map<string, Member>, sent: set<Message>)

  datatype Action =
    | Local(n: string, step: R.Step)
    | Listen(n: string, privateKey: nat)
    | Broadcast(n: string)
    | Deliver(n: string, msg: Message)

  function Others(ids: seq<string>, n: string): seq<string> {
    if ids == [] then [] else Others(ids[..|ids| - 1], n) + if ids[|ids| - 1] == n then [] else [ids[|ids| - 1]]
  }

  function Start(ids: seq<string>): State {
    State(map n | n in Set(ids) :: Member(None, R.Fresh), {})
  }

  /** Sent messages stay: a delivery may happen late, repeatedly or never. Only messages that a registered node
      really sent carry a signature that verifies. */
  ghost function Act(c: Crypto, ids: seq<string>, s: State, act: Action): Option<State> {
    if act.n !in s.members then None
    else
      var m := s.members[act.n];
      match act
      case Local(n, step) =>
        if step.SetKey? then None
        else
          var after := R.Apply(Others(ids, n), m.node, step);
          if after.None? then None else Some(s.(members := s.members[n := m.(node := after.value)]))
      case Listen(n, priv) =>
        if m.privateKey.Some? then None else Some(s.(members := s.members[n := m.(privateKey := Some(priv))]))
      case Broadcast(n) =>
        if m.privateKey.None? then None
        else Some(s.(sent := s.sent + {Message(n, c.Public(m.privateKey.value))}))
      case Deliver(n, msg) =>
        if m.privateKey.None? || msg !in s.sent || msg.from == n then None
        else
          var secret := c.Shared(m.privateKey.value, msg.publicKey);
          if secret.None? then Some(s)
          else
            var key := DeriveSymmetricKey(c, secret.value, n, msg.from);
            var after := R.Apply(Others(ids, n), m.node, R.SetKey(msg.from, key));
            if after.None? then None else Some(s.(members := s.members[n := m.(node := after.value)]))
  }

  ghost function Run(c: Crypto, ids: seq<string>, acts: seq<Action>): Option<State> {
    if acts == [] then Some(Start(ids))
    else
      var before := Run(c, ids, acts[..|acts| - 1]);
      if before.None? then None else Act(c, ids, before.value, acts[|acts| - 1])
  }

  function Keys(s: State, n: string): map<string, SymmetricKey> {
    if n in s.members then s.members[n].node.table.keys else map[]
  }

  // ---------- what every action keeps ----------

  ghost predicate Holds(s: State, n: string, publicKey: nat, c: Crypto) {
    n in s.members && s.members[n].privateKey.Some? && c.Public(s.members[n].privateKey.value) == publicKey
  }

  /** The key that node a holds for node b is the one derived from their two key pairs. */
  ghost predicate GoodKey(c: Crypto, s: State, a: string, b: string) {
    && a in s.members && b in s.members && b in Keys(s, a)
    && s.members[a].privateKey.Some? && s.members[b].privateKey.Some?
    && var secret := c.Shared(s.members[a].privateKey.value, c.Public(s.members[b].privateKey.value));
    && secret.Some? && Keys(s, a)[b] == DeriveSymmetricKey(c, secret.value, a, b)
  }

  ghost predicate KeysInv(c: Crypto, s: State) {
    && (forall m :: m in s.sent ==> Holds(s, m.from, m.publicKey, c))
    && (forall a, b :: b in Keys(s, a) ==> GoodKey(c, s, a, b))
  }

  ghost predicate NodesInv(ids: seq<string>, s: State) {
    && s.members.Keys == Set(ids)
    && forall n :: n in s.members ==> R.Inv(Others(ids, n), s.members[n].node)
  }

  lemma LocalKeepsKeys(peers: seq<string>, s: R.NodeState, step: R.Step)
    requires R.Apply(peers, s, step).Some? && !step.SetKey?
    ensures var u := R.Apply(peers, s, step).value;
            forall p :: p in u.table.keys ==> p in s.table.keys && u.table.keys[p] == s.table.keys[p]
  {
  }

  lemma LocalKeepsInv(c: Crypto, ids: seq<string>, s: State, n: string, step: R.Step)
    requires KeysInv(c, s) && Act(c, ids, s, Local(n, step)).Some?
    ensures KeysInv(c, Act(c, ids, s, Local(n, step)).value)
  {
    LocalKeepsKeys(Others(ids, n), s.members[n].node, step);
    hide R.Apply, DeriveSymmetricKey;
    var u := Act(c, ids, s, Local(n, step)).value;
    forall m | m in u.sent
      ensures Holds(u, m.from, m.publicKey, c)
    {
      assert Holds(s, m.from, m.publicKey, c);
    }
    forall a, b | b in Keys(u, a)
      ensures GoodKey(c, u, a, b)
    {
      assert GoodKey(c, s, a, b);
    }
  }

  lemma ListenKeepsInv(c: Crypto, ids: seq<string>, s: State, n: string, priv: nat)
    requires KeysInv(c, s) && Act(c, ids, s, Listen(n, priv)).Some?
    ensures KeysInv(c, Act(c, ids, s, Listen(n, priv)).value)
  {
    var u := Act(c, ids, s, Listen(n, priv)).value;
    forall m | m in u.sent
      ensures Holds(u, m.from, m.publicKey, c)
    {
      assert Holds(s, m.from, m.publicKey, c);
    }
    forall a, b | b in Keys(u, a)
      ensures GoodKey(c, u, a, b)
    {
      assert b in Keys(s, a);
      assert GoodKey(c, s, a, b);
    }
  }

  lemma BroadcastKeepsInv(c: Crypto, ids: seq<string>, s: State, n: string)
    requires KeysInv(c, s) && Act(c, ids, s, Broadcast(n)).Some?
    ensures KeysInv(c, Act(c, ids, s, Broadcast(n)).value)
  {
    var u := Act(c, ids, s, Broadcast(n)).value;
    forall m | m in u.sent
      ensures Holds(u, m.from, m.publicKey, c)
    {
      assert m in s.sent ==> Holds(s, m.from, m.publicKey, c);
    }
    forall a, b | b in Keys(u, a)
      ensures GoodKey(c, u, a, b)
    {
      assert b in Keys(s, a);
      assert GoodKey(c, s, a, b);
    }
  }

  lemma DeliverKeepsInv(c: Crypto, ids: seq<string>, s: State, n: string, msg: Message)
    requires KeysInv(c, s) && Act(c, ids, s, Deliver(n, msg)).Some?
    ensures KeysInv(c, Act(c, ids, s, Deliver(n, msg)).value)
  {
    hide DeriveSymmetricKey;
    var u := Act(c, ids, s, Deliver(n, msg)).value;
    assert Holds(s, msg.from, msg.publicKey, c);
    forall m | m in u.sent
      ensures Holds(u, m.from, m.publicKey, c)
    {
      assert Holds(s, m.from, m.publicKey, c);
    }
    forall a, b | b in Keys(u, a)
      ensures GoodKey(c, u, a, b)
    {
      if b in Keys(s, a) {
        assert GoodKey(c, s, a, b);
      }
    }
  }

  lemma {:induction false} RunKeepsKeys(c: Crypto, ids: seq<string>, acts: seq<Action>)
    requires Run(c, ids, acts).Some?
    ensures KeysInv(c, Run(c, ids, acts).value)
  {
    if acts != [] {
      hide Act, KeysInv;
      RunKeepsKeys(c, ids, acts[..|acts| - 1]);
      var s := Run(c, ids, acts[..|acts| - 1]).value;
      match acts[|acts| - 1]
      case Local(n, step) => LocalKeepsInv(c, ids, s, n, step);
      case Listen(n, priv) => ListenKeepsInv(c, ids, s, n, priv);
      case Broadcast(n) => BroadcastKeepsInv(c, ids, s, n);
      case Deliver(n, msg) => DeliverKeepsInv(c, ids, s, n, msg);
    }
  }

  /** Key agreement: at any point of any run, two nodes that hold keys for each other hold the same key. */
  lemma KeyAgreement(c: Crypto, ids: seq<string>, acts: seq<Action>, a: string, b: string)
    requires Commutes(c) && Run(c, ids, acts).Some?
    requires b in Keys(Run(c, ids, acts).value, a) && a in Keys(Run(c, ids, acts).value, b)
    ensures Keys(Run(c, ids, acts).value, a)[b] == Keys(Run(c, ids, acts).value, b)[a]
  {
    RunKeepsKeys(c, ids, acts);
    hide Run, Keys, DeriveConsistentInfo;
    var s := Run(c, ids, acts).value;
    assert GoodKey(c, s, a, b) && GoodKey(c, s, b, a);
    InfoSymmetric(a, b);
  }

  /** So any two nodes of a run can exchange sealed messages exactly when each holds a key for the other. */
  lemma ChannelIff(c: Crypto, ids: seq<string>, acts: seq<Action>, net: Session.Net, a: string, b: string)
    requires Commutes(c) && Run(c, ids, acts).Some? && a in ids && b in ids
    requires forall n :: n in ids ==> n in net.keys && net.keys[n] == Keys(Run(c, ids, acts).value, n)
    ensures Session.Channel(net, a, b)
            <==> a == b || (b in Keys(Run(c, ids, acts).value, a) && a in Keys(Run(c, ids, acts).value, b))
  {
    hide Run, Keys;
    var s := Run(c, ids, acts).value;
    if b in Keys(s, a) && a in Keys(s, b) {
      KeyAgreement(c, ids, acts, a, b);
    }
  }

  // ---------- readiness within the cluster ----------

  lemma {:induction false} OthersAre(ids: seq<string>, n: string)
    ensures Set(Others(ids, n)) == Set(ids) - {n}
    ensures Distinct(ids) ==> Distinct(Others(ids, n))
  {
    hide Set, Distinct;
    SetEmpty<string>();
    if ids != [] {
      OthersAre(ids[..|ids| - 1], n);
      SetSplit(ids);
      var rest := Others(ids[..|ids| - 1], n);
      SetSnoc(rest, ids[|ids| - 1]);
      assert rest + [] == rest;
    }
  }

  /** No node sees a listing that repeats a peer and is as long as the number of other nodes. */
  ghost predicate CleanActions(ids: seq<string>, acts: seq<Action>) {
    forall i :: 0 <= i < |acts| ==> CleanAction(ids, acts[i])
  }

  ghost predicate CleanAction(ids: seq<string>, act: Action) {
    act.Local? ==> R.CleanStep(|Others(ids, act.n)|, act.step)
  }

  lemma ActKeepsNodes(c: Crypto, ids: seq<string>, s: State, act: Action)
    requires Distinct(ids) && CleanAction(ids, act) && NodesInv(ids, s) && Act(c, ids, s, act).Some?
    ensures NodesInv(ids, Act(c, ids, s, act).value)
  {
    OthersAre(ids, act.n);
    hide Set, R.Inv, Distinct, Others, R.Apply;
    var m := s.members[act.n];
    match act
    case Local(n, step) => R.StepKeepsInv(Others(ids, n), m.node, step);
    case Listen(n, priv) =>
    case Broadcast(n) =>
    case Deliver(n, msg) =>
      var secret := c.Shared(m.privateKey.value, msg.publicKey);
      if secret.Some? {
        R.StepKeepsInv(Others(ids, n), m.node, R.SetKey(msg.from, DeriveSymmetricKey(c, secret.value, n, msg.from)));
      }
  }

  lemma FreshInv(peers: seq<string>)
    ensures R.Inv(peers, R.Fresh)
  {
    assert Registry.Ups(R.Fresh.table.readyMap) == {};
  }

  lemma {:induction false} RunKeepsNodes(c: Crypto, ids: seq<string>, acts: seq<Action>)
    requires Distinct(ids) && CleanActions(ids, acts) && Run(c, ids, acts).Some?
    ensures NodesInv(ids, Run(c, ids, acts).value)
  {
    if acts == [] {
      forall n | n in Set(ids)
        ensures R.Inv(Others(ids, n), R.Fresh)
      {
        FreshInv(Others(ids, n));
      }
    } else {
      hide Act, NodesInv, Distinct, CleanAction;
      var rest := acts[..|acts| - 1];
      assert forall i :: 0 <= i < |rest| ==> rest[i] == acts[i];
      RunKeepsNodes(c, ids, rest);
      ActKeepsNodes(c, ids, Run(c, ids, rest).value, acts[|acts| - 1]);
    }
  }

  lemma RunLast(c: Crypto, ids: seq<string>, acts: seq<Action>, act: Action)
    requires Run(c, ids, acts + [act]).Some?
    ensures Run(c, ids, acts).Some? && Run(c, ids, acts + [act]) == Act(c, ids, Run(c, ids, acts).value, act)
  {
    assert (acts + [act])[..|acts|] == acts;
  }

  lemma CompareAnswers(c: Crypto, ids: seq<string>, s: State, a: string, q: nat)
    requires Distinct(ids) && NodesInv(ids, s) && Act(c, ids, s, Local(a, R.Compare(q))).Some?
    requires var u := Act(c, ids, s, Local(a, R.Compare(q))).value;
             u.members[a].node.queries[q] == R.Answered(true)
    ensures Keys(Act(c, ids, s, Local(a, R.Compare(q))).value, a).Keys == Set(ids) - {a}
  {
    hide R.Inv, Set, Distinct, Others;
    OthersAre(ids, a);
    R.AnswerMeansComplete(Others(ids, a), s.members[a].node, q);
  }

  /** When node a reports readiness, it holds a key for every other node of the cluster, and each of these that has
      a key for a holds the very same one. */
  lemma ReadyMeansUsable(c: Crypto, ids: seq<string>, acts: seq<Action>, a: string, q: nat)
    requires Commutes(c) && Distinct(ids) && CleanActions(ids, acts)
    requires Run(c, ids, acts + [Local(a, R.Compare(q))]).Some?
    requires var s := Run(c, ids, acts + [Local(a, R.Compare(q))]).value;
             a in s.members && q in s.members[a].node.queries && s.members[a].node.queries[q] == R.Answered(true)
    ensures var s := Run(c, ids, acts + [Local(a, R.Compare(q))]).value;
            && Keys(s, a).Keys == Set(ids) - {a}
            && forall b :: b in ids && b != a && a in Keys(s, b) ==> b in Keys(s, a) && Keys(s, a)[b] == Keys(s, b)[a]
  {
    hide Run, NodesInv, Set, Distinct, Act, Keys, Commutes, CleanActions;
    var all := acts + [Local(a, R.Compare(q))];
    RunLast(c, ids, acts, Local(a, R.Compare(q)));
    RunKeepsNodes(c, ids, acts);
    CompareAnswers(c, ids, Run(c, ids, acts).value, a, q);
    var u := Run(c, ids, all).value;
    forall b | b in ids && b != a && a in Keys(u, b)
      ensures b in Keys(u, a) && Keys(u, a)[b] == Keys(u, b)[a]
    {
      InSet(ids, b);
      assert b in Keys(u, a).Keys;
      KeyAgreement(c, ids, all, a, b);
    }
  }

  lemma InSet(ids: seq<string>, b: string)
    requires b in ids
    ensures b in Set(ids)
  {
  }

  // ---------- what an exchange does ----------

  lemma RunSnoc(c: Crypto, ids: seq<string>, acts: seq<Action>, act: Action)
    requires Run(c, ids, acts).Some?
    ensures Run(c, ids, acts + [act]) == Act(c, ids, Run(c, ids, acts).value, act)
  {
    assert (acts + [act])[..|acts|] == acts;
  }

  lemma {:induction false} MembersAre(c: Crypto, ids: seq<string>, acts: seq<Action>)
    requires Run(c, ids, acts).Some?
    ensures Run(c, ids, acts).value.members.Keys == Set(ids)
  {
    if acts == [] {
      assert Run(c, ids, []) == Some(Start(ids));
    } else {
      hide R.Apply, Set, Others;
      MembersAre(c, ids, acts[..|acts| - 1]);
    }
  }

  /** The state u is s except that node n has this key for a peer. */
  ghost predicate OnlyNewKey(s: State, u: State, n: string, peer: string, key: SymmetricKey) {
    && u.members.Keys == s.members.Keys && u.sent == s.sent && n in s.members
    && (forall m :: m in s.members ==> u.members[m].privateKey == s.members[m].privateKey)
    && (forall m :: m in s.members && m != n ==> Keys(u, m) == Keys(s, m))
    && Keys(u, n) == Keys(s, n)[peer := key]
  }

  /** A listening node that receives the public key of another member derives the key of the two ordered ids, and stores
      it under the sender; a public key without a shared secret changes nothing. */
  lemma DeliverStores(c: Crypto, ids: seq<string>, acts: seq<Action>, n: string, msg: Message)
    requires Run(c, ids, acts).Some? && n in ids && msg.from in ids && msg.from != n
    requires var s := Run(c, ids, acts).value; n in s.members ==> s.members[n].privateKey.Some? && msg in s.sent
    ensures n in Run(c, ids, acts).value.members && Run(c, ids, acts + [Deliver(n, msg)]).Some?
    ensures var s, u := Run(c, ids, acts).value, Run(c, ids, acts + [Deliver(n, msg)]).value;
            var secret := c.Shared(s.members[n].privateKey.value, msg.publicKey);
            if secret.None? then u == s
            else
              OnlyNewKey(s, u, n, msg.from, c.Hkdf(secret.value, if Less(n, msg.from) then n + msg.from else msg.from + n))
  {
    MembersAre(c, ids, acts);
    InSet(ids, n);
    InSet(ids, msg.from);
    RunSnoc(c, ids, acts, Deliver(n, msg));
    hide Run, Set, Act, OnlyNewKey;
    DeliverActs(c, ids, Run(c, ids, acts).value, n, msg);
  }

  lemma DeliverActs(c: Crypto, ids: seq<string>, s: State, n: string, msg: Message)
    requires n in s.members && msg.from in Set(ids) && msg.from != n && s.members[n].privateKey.Some? && msg in s.sent
    ensures Act(c, ids, s, Deliver(n, msg)).Some?
    ensures var u := Act(c, ids, s, Deliver(n, msg)).value;
            var secret := c.Shared(s.members[n].privateKey.value, msg.publicKey);
            if secret.None? then u == s
            else
              OnlyNewKey(s, u, n, msg.from, c.Hkdf(secret.value, if Less(n, msg.from) then n + msg.from else msg.from + n))
  {
    OthersAre(ids, n);
    hide Set, Distinct, Others;
    var secret := c.Shared(s.members[n].privateKey.value, msg.publicKey);
    if secret.Some? {
      var key := DeriveSymmetricKey(c, secret.value, n, msg.from);
      SetKeyIs(Others(ids, n), s.members[n].node, msg.from, key);
      assert key == c.Hkdf(secret.value, if Less(n, msg.from) then n + msg.from else msg.from + n);
      hide R.Apply, DeriveSymmetricKey;
    }
  }

  lemma SetKeyIs(peers: seq<string>, s: R.NodeState, p: string, k: SymmetricKey)
    requires p in Set(peers)
    ensures R.Apply(peers, s, R.SetKey(p, k)) == Some(s.(table := s.table.(keys := s.table.keys[p := k])))
  {
    hide Set;
  }

  /** Any listening node can broadcast, which sends its public key and changes nothing else. */
  lemma BroadcastSends(c: Crypto, ids: seq<string>, acts: seq<Action>, n: string)
    requires Run(c, ids, acts).Some? && n in Run(c, ids, acts).value.members
    requires Run(c, ids, acts).value.members[n].privateKey.Some?
    ensures var s := Run(c, ids, acts).value;
            Run(c, ids, acts + [Broadcast(n)])
            == Some(State(s.members, s.sent + {Message(n, c.Public(s.members[n].privateKey.value))}))
  {
    RunSnoc(c, ids, acts, Broadcast(n));
  }

  /** Any member without a key pair can start to listen with a new one, and nothing else changes. */
  lemma ListenStarts(c: Crypto, ids: seq<string>, acts: seq<Action>, n: string, privateKey: nat)
    requires Run(c, ids, acts).Some? && n in Run(c, ids, acts).value.members
    requires Run(c, ids, acts).value.members[n].privateKey.None?
    ensures Run(c, ids, acts + [Listen(n, privateKey)]).Some?
    ensures var s, u := Run(c, ids, acts).value, Run(c, ids, acts + [Listen(n, privateKey)]).value;
            && u.members.Keys == s.members.Keys && u.sent == s.sent
            && u.members[n] == Member(Some(privateKey), s.members[n].node)
            && forall m :: m in s.members && m != n ==> u.members[m] == s.members[m]
  {
    RunSnoc(c, ids, acts, Listen(n, privateKey));
  }

  /** The registry of a node takes its steps, new keys apart, at any time, and nothing else changes. */
  lemma LocalSteps(c: Crypto, ids: seq<string>, acts: seq<Action>, n: string, step: R.Step)
    requires Run(c, ids, acts).Some? && n in Run(c, ids, acts).value.members && !step.SetKey?
    requires R.Apply(Others(ids, n), Run(c, ids, acts).value.members[n].node, step).Some?
    ensures Run(c, ids, acts + [Local(n, step)]).Some?
    ensures var s, u := Run(c, ids, acts).value, Run(c, ids, acts + [Local(n, step)]).value;
            && u.members.Keys == s.members.Keys && u.sent == s.sent
            && Some(u.members[n].node) == R.Apply(Others(ids, n), s.members[n].node, step)
            && u.members[n].privateKey == s.members[n].privateKey
            && forall m :: m in s.members && m != n ==> u.members[m] == s.members[m]
  {
    RunSnoc(c, ids, acts, Local(n, step));
    hide Run, R.Apply, Others;
  }

  /** At any point of any run, a broadcast and a delivery in each direction give two listening nodes a key for each
      other, the same for both and derived from their secret and their ordered ids; all other keys stay. */
  lemma ExchangeCompletes(c: Crypto, ids: seq<string>, acts: seq<Action>, a: string, b: string, x: nat, y: nat)
    returns (more: seq<Action>)
    requires Commutes(c) && Run(c, ids, acts).Some? && a in ids && b in ids && a != b
    requires var s := Run(c, ids, acts).value;
             a in s.members && b in s.members && s.members[a].privateKey == Some(x) && s.members[b].privateKey == Some(y)
    requires c.Shared(x, c.Public(y)).Some?
    ensures more == acts + [Broadcast(a)] + [Broadcast(b)] + [Deliver(a, Message(b, c.Public(y)))] + [Deliver(b, Message(a, c.Public(x)))]
    ensures Run(c, ids, more).Some?
    ensures var s, u := Run(c, ids, acts).value, Run(c, ids, more).value;
            var key := c.Hkdf(c.Shared(x, c.Public(y)).value, if Less(a, b) then a + b else b + a);
            && Keys(u, a) == Keys(s, a)[b := key] && Keys(u, b) == Keys(s, b)[a := key]
            && forall m :: m in ids && m != a && m != b ==> Keys(u, m) == Keys(s, m)
  {
    hide Run, Set, Act, Keys;
    MembersAre(c, ids, acts);
    more := acts;
    BroadcastSends(c, ids, more, a);
    more := more + [Broadcast(a)];
    BroadcastSends(c, ids, more, b);
    more := more + [Broadcast(b)];
    var s, sent := Run(c, ids, acts).value, Run(c, ids, more).value;
    assert sent.members == s.members;
    DeliverStores(c, ids, more, a, Message(b, c.Public(y)));
    more := more + [Deliver(a, Message(b, c.Public(y)))];
    DeliverStores(c, ids, more, b, Message(a, c.Public(x)));
    more := more + [Deliver(b, Message(a, c.Public(x)))];
    LessTotal(a, b);
    var u := Run(c, ids, more).value;
    SameKeys(s, sent);
    forall m | m in ids && m != a && m != b
      ensures Keys(u, m) == Keys(s, m)
    {
      InSet(ids, m);
    }
  }

  lemma SameKeys(s: State, u: State)
    requires u.members == s.members
    ensures forall m :: Keys(u, m) == Keys(s, m)
  {
  }
}
