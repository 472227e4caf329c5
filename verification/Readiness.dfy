/** Readiness of one node under concurrency: the watcher of pkg/mpc/registry.go, the key-exchange handler and any number
    of ArePeersReady and AreMajorityReady queries interleave at the grain of their shared reads and writes. */
module Readiness {
  import opened GoStrings
  import opened Registry

  /** Where the watcher stands in its loop. A drop has three writes: the map entry, the counter, the key. */
  datatype Pc =
    | Idle
    | Clearing(listing: seq<string>)
    | Dropping(listing: seq<string>, rest: seq<string>, stage: nat)
    | Registering(listing: seq<string>, done: nat, bumped: bool)

  /** ArePeersReady holds the read lock from its look at `ready` until it answers. AreMajorityReady takes no lock: it
      loads the counter, loads it again, and looks at the key table. */
  datatype Query =
    | SawReady | SawCount(count: int) | Answered(result: bool)
    | Loaded(threshold: int) | Reloaded(threshold: int, count: int) | Decided(result: bool)

  datatype NodeState = NodeState(table: Table, pc: Pc, queries: map<nat, Query>)

  datatype Step =
    | StartTick(listing: seq<string>)
    | ClearReady(lost: seq<string>)
    | MarkDown | CountDown | RemoveKey
    | CountUp | MarkUp | Finish
    | SetKey(peer: string, key: SymmetricKey)
    | Ask(q: nat) | ReadCount(q: nat) | Compare(q: nat)
    | Load(q: nat, threshold: int) | Reload(q: nat) | Decide(q: nat)

  const Fresh := NodeState(Table(map[], 1, false, map[]), Idle, map[])

  ghost predicate LockFree(s: NodeState) {
    forall q :: q in s.queries ==> !s.queries[q].SawReady? && !s.queries[q].SawCount?
  }

  predicate Free(queries: map<nat, Query>, q: nat) {
    q in queries ==> queries[q].Answered? || queries[q].Decided?
  }

  function Next(listing: seq<string>, rest: seq<string>): Pc {
    if rest == [] then Registering(listing, 0, false) else Dropping(listing, rest, 0)
  }

  /** One step, or None where it cannot be taken. The lock guards the two writes of `ready`; peers are the registered
      other nodes, the only ones whose key-exchange messages verify. */
  ghost function Apply(peers: seq<string>, s: NodeState, step: Step): Option<NodeState> {
    var t := s.table;
    match step
    case StartTick(l) =>
      if !s.pc.Idle? then None
      else Some(s.(pc := if |l| != |peers| then Clearing(l) else Registering(l, 0, false)))
    case ClearReady(lost) =>
      if s.pc.Clearing? && LockFree(s) && Distinct(lost) && Set(lost) == Ups(t.readyMap) - Set(s.pc.listing)
      then Some(s.(table := t.(ready := false), pc := Next(s.pc.listing, lost)))
      else None
    case MarkDown =>
      if s.pc.Dropping? && s.pc.rest != [] && s.pc.stage == 0
      then Some(s.(table := t.(readyMap := t.readyMap[s.pc.rest[0] := false]), pc := s.pc.(stage := 1)))
      else None
    case CountDown =>
      if s.pc.Dropping? && s.pc.rest != [] && s.pc.stage == 1
      then Some(s.(table := t.(readyCount := t.readyCount - 1), pc := s.pc.(stage := 2)))
      else None
    case RemoveKey =>
      if s.pc.Dropping? && s.pc.rest != [] && s.pc.stage == 2
      then Some(s.(table := t.(keys := t.keys - {s.pc.rest[0]}), pc := Next(s.pc.listing, s.pc.rest[1..])))
      else None
    case CountUp =>
      if s.pc.Registering? && s.pc.done < |s.pc.listing| && !s.pc.bumped && s.pc.listing[s.pc.done] !in Ups(t.readyMap)
      then Some(s.(table := t.(readyCount := t.readyCount + 1), pc := s.pc.(bumped := true)))
      else None
    case MarkUp =>
      if s.pc.Registering? && s.pc.done < |s.pc.listing| && (s.pc.bumped || s.pc.listing[s.pc.done] in Ups(t.readyMap))
      then Some(s.(table := t.(readyMap := t.readyMap[s.pc.listing[s.pc.done] := true]),
                   pc := Registering(s.pc.listing, s.pc.done + 1, false)))
      else None
    case Finish =>
      if !s.pc.Registering? || s.pc.done < |s.pc.listing| then None
      else if |s.pc.listing| == |peers| && !t.ready then
        (if LockFree(s) then Some(s.(table := t.(ready := true), pc := Idle)) else None)
      else Some(s.(pc := Idle))
    case SetKey(p, k) =>
      if p in Set(peers) then Some(s.(table := t.(keys := t.keys[p := k]))) else None
    case Ask(q) =>
      if !Free(s.queries, q) then None
      else Some(s.(queries := s.queries[q := if t.ready then SawReady else Answered(false)]))
    case ReadCount(q) =>
      if q in s.queries && s.queries[q].SawReady? then Some(s.(queries := s.queries[q := SawCount(t.readyCount)]))
      else None
    case Compare(q) =>
      if q in s.queries && s.queries[q].SawCount?
      then Some(s.(queries := s.queries[q := Answered(|t.keys| == s.queries[q].count - 1)]))
      else None
    case Load(q, threshold) =>
      if !Free(s.queries, q) then None
      else Some(s.(queries := s.queries[q := if t.readyCount >= threshold + 1 then Loaded(threshold) else Decided(false)]))
    case Reload(q) =>
      if q in s.queries && s.queries[q].Loaded?
      then Some(s.(queries := s.queries[q := Reloaded(s.queries[q].threshold, t.readyCount)]))
      else None
    case Decide(q) =>
      if q in s.queries && s.queries[q].Reloaded?
      then Some(s.(queries := s.queries[q := Decided(|t.keys| == s.queries[q].count - 1)]))
      else None
  }

  ghost function Run(peers: seq<string>, s: NodeState, steps: seq<Step>): Option<NodeState> {
    if steps == [] then Some(s)
    else
      var before := Run(peers, s, steps[..|steps| - 1]);
      if before.None? then None else Apply(peers, before.value, steps[|steps| - 1])
  }

  // ---------- what every step keeps ----------

  function Pending(pc: Pc): int {
    match pc
    case Dropping(_, _, stage) => if stage == 1 then 1 else 0
    case Registering(_, _, bumped) => if bumped then 1 else 0
    case _ => 0
  }

  ghost predicate PcInv(n: nat, t: Table, pc: Pc) {
    match pc
    case Idle => true
    case Clearing(l) => |l| != n
    case Dropping(l, rest, stage) =>
      && |l| != n && !t.ready && rest != [] && stage <= 2 && Distinct(rest)
      && (if stage == 0 then Set(rest) <= Ups(t.readyMap)
          else rest[0] !in Ups(t.readyMap) && Set(rest[1..]) <= Ups(t.readyMap))
    case Registering(l, done, bumped) =>
      && (|l| == n ==> Distinct(l)) && done <= |l| && Set(l[..done]) <= Ups(t.readyMap)
      && (bumped ==> done < |l| && l[done] !in Ups(t.readyMap))
      && (|l| != n ==> !t.ready)
  }

  ghost predicate QueryInv(n: nat, t: Table, q: Query) {
    match q
    case SawReady => t.ready
    case SawCount(c) => t.ready && c - 1 >= n
    case _ => true
  }

  ghost predicate Inv(peers: seq<string>, s: NodeState) {
    && s.table.keys.Keys <= Set(peers)
    && s.table.readyCount == 1 + |Ups(s.table.readyMap)| + Pending(s.pc)
    && (s.table.ready ==> |Ups(s.table.readyMap)| >= |peers|)
    && PcInv(|peers|, s.table, s.pc)
    && forall q :: q in s.queries ==> QueryInv(|peers|, s.table, s.queries[q])
  }

  lemma SetHead<T>(s: seq<T>)
    requires s != []
    ensures Set(s) == {s[0]} + Set(s[1..])
    ensures Distinct(s) ==> s[0] !in Set(s[1..]) && Distinct(s[1..])
  {
    assert s == [s[0]] + s[1..];
  }

  lemma SetTake<T>(s: seq<T>, n: nat)
    requires n < |s|
    ensures Set(s[..n + 1]) == Set(s[..n]) + {s[n]}
  {
    SetSnoc(s[..n], s[n]);
    assert s[..n + 1] == s[..n] + [s[n]];
  }

  lemma ClearKeepsInv(peers: seq<string>, s: NodeState, lost: seq<string>)
    requires Inv(peers, s) && Apply(peers, s, ClearReady(lost)).Some?
    ensures Inv(peers, Apply(peers, s, ClearReady(lost)).value)
  {
    hide Set, Ups, Distinct;
    SetEmpty<string>();
    assert s.pc.listing[..0] == [];
    forall q | q in s.queries
      ensures QueryInv(|peers|, s.table.(ready := false), s.queries[q])
    {
    }
  }

  lemma MarkDownKeepsInv(peers: seq<string>, s: NodeState)
    requires Inv(peers, s) && Apply(peers, s, MarkDown).Some?
    ensures Inv(peers, Apply(peers, s, MarkDown).value)
  {
    hide Set, Ups, Distinct;
    SetHead(s.pc.rest);
    UpsOfUpdate(s.table.readyMap, s.pc.rest[0], false);
    LoseOne(Ups(s.table.readyMap), Set(s.pc.rest[1..]), s.pc.rest[0]);
  }

  lemma LoseOne<T>(up: set<T>, others: set<T>, p: T)
    requires p in up && p !in others && others <= up
    ensures |up - {p}| == |up| - 1 && others <= up - {p} && p !in up - {p}
  {
  }

  lemma CountDownKeepsInv(peers: seq<string>, s: NodeState)
    requires Inv(peers, s) && Apply(peers, s, CountDown).Some?
    ensures Inv(peers, Apply(peers, s, CountDown).value)
  {
    hide Set, Ups, Distinct;
  }

  lemma RemoveKeyKeepsInv(peers: seq<string>, s: NodeState)
    requires Inv(peers, s) && Apply(peers, s, RemoveKey).Some?
    ensures Inv(peers, Apply(peers, s, RemoveKey).value)
  {
    hide Set, Ups, Distinct;
    SetEmpty<string>();
    SetHead(s.pc.rest);
    assert s.pc.listing[..0] == [];
  }

  lemma CountUpKeepsInv(peers: seq<string>, s: NodeState)
    requires Inv(peers, s) && Apply(peers, s, CountUp).Some?
    ensures Inv(peers, Apply(peers, s, CountUp).value)
  {
    hide Set, Ups, Distinct;
  }

  lemma MarkUpKeepsInv(peers: seq<string>, s: NodeState)
    requires Inv(peers, s) && Apply(peers, s, MarkUp).Some?
    ensures Inv(peers, Apply(peers, s, MarkUp).value)
  {
    hide Set, Ups, Distinct;
    var l, done := s.pc.listing, s.pc.done;
    SetTake(l, done);
    UpsOfUpdate(s.table.readyMap, l[done], true);
    GrowCount(Ups(s.table.readyMap), {}, l[done]);
    assert Ups(s.table.readyMap) + {l[done]} - {} == Ups(s.table.readyMap) + {l[done]};
    assert Ups(s.table.readyMap) - {} == Ups(s.table.readyMap);
  }

  lemma FinishKeepsInv(peers: seq<string>, s: NodeState)
    requires Inv(peers, s) && Apply(peers, s, Finish).Some?
    ensures Inv(peers, Apply(peers, s, Finish).value)
  {
    hide Set, Ups, Distinct;
    var l := s.pc.listing;
    assert l[..s.pc.done] == l;
    if |l| == |peers| {
      DistinctSize(l);
      SubsetSize(Set(l), Ups(s.table.readyMap));
    }
  }

  lemma QueryKeepsInv(peers: seq<string>, s: NodeState, step: Step)
    requires Inv(peers, s) && Apply(peers, s, step).Some?
    requires step.Ask? || step.ReadCount? || step.Compare? || step.Load? || step.Reload? || step.Decide?
    ensures Inv(peers, Apply(peers, s, step).value)
  {
    hide Set, Ups, Distinct, PcInv;
  }

  lemma SetKeyKeepsInv(peers: seq<string>, s: NodeState, p: string, k: SymmetricKey)
    requires Inv(peers, s) && Apply(peers, s, SetKey(p, k)).Some?
    ensures Inv(peers, Apply(peers, s, SetKey(p, k)).value)
  {
    hide Set, Ups, Distinct;
  }

  /** Every step keeps the invariant, given that no listing as long as the cluster repeats a peer. */
  lemma StepKeepsInv(peers: seq<string>, s: NodeState, step: Step)
    requires Distinct(peers) && CleanStep(|peers|, step)
    requires Inv(peers, s) && Apply(peers, s, step).Some?
    ensures Inv(peers, Apply(peers, s, step).value)
  {
    match step
    case StartTick(l) =>
      assert l[..0] == [];
    case ClearReady(lost) => ClearKeepsInv(peers, s, lost);
    case MarkDown => MarkDownKeepsInv(peers, s);
    case CountDown => CountDownKeepsInv(peers, s);
    case RemoveKey => RemoveKeyKeepsInv(peers, s);
    case CountUp => CountUpKeepsInv(peers, s);
    case MarkUp => MarkUpKeepsInv(peers, s);
    case Finish => FinishKeepsInv(peers, s);
    case SetKey(p, k) => SetKeyKeepsInv(peers, s, p, k);
    case _ => QueryKeepsInv(peers, s, step);
  }

  /** n is the number of registered other nodes. */
  ghost predicate CleanStep(n: nat, step: Step) {
    step.StartTick? && |step.listing| == n ==> Distinct(step.listing)
  }

  ghost predicate CleanListings(n: nat, steps: seq<Step>) {
    forall i :: 0 <= i < |steps| ==> CleanStep(n, steps[i])
  }

  lemma {:induction false} RunKeepsInv(peers: seq<string>, steps: seq<Step>)
    requires Distinct(peers) && CleanListings(|peers|, steps) && Run(peers, Fresh, steps).Some?
    ensures Inv(peers, Run(peers, Fresh, steps).value)
  {
    if steps == [] {
      assert Ups(Fresh.table.readyMap) == {};
    } else {
      hide Inv, Apply, CleanStep;
      var rest := steps[..|steps| - 1];
      assert forall i :: 0 <= i < |rest| ==> rest[i] == steps[i];
      RunKeepsInv(peers, rest);
      StepKeepsInv(peers, Run(peers, Fresh, rest).value, steps[|steps| - 1]);
    }
  }

  lemma RunLast(peers: seq<string>, s: NodeState, steps: seq<Step>, step: Step)
    requires Run(peers, s, steps + [step]).Some?
    ensures Run(peers, s, steps).Some?
    ensures Run(peers, s, steps + [step]) == Apply(peers, Run(peers, s, steps).value, step)
  {
    assert (steps + [step])[..|steps|] == steps;
  }

  lemma AnswerMeansComplete(peers: seq<string>, s: NodeState, q: nat)
    requires Distinct(peers) && Inv(peers, s) && q in s.queries && s.queries[q].SawCount?
    requires |s.table.keys| == s.queries[q].count - 1
    ensures s.table.keys.Keys == Set(peers)
  {
    hide Set, PcInv, Distinct;
    DistinctSize(peers);
    SubsetSize(s.table.keys.Keys, Set(peers));
    assert |s.table.keys| == |s.table.keys.Keys|;
    assert QueryInv(|peers|, s.table, s.queries[q]);
  }

  /** Readiness is sound in every run whose listings repeat no peer when they are as long as the cluster: when
      ArePeersReady answers true, the node holds keys for all other registered nodes and for nobody else. */
  lemma ReadinessSound(peers: seq<string>, steps: seq<Step>, q: nat)
    requires Distinct(peers) && CleanListings(|peers|, steps)
    requires Run(peers, Fresh, steps + [Compare(q)]).Some?
    requires Run(peers, Fresh, steps + [Compare(q)]).value.queries[q] == Answered(true)
    ensures Run(peers, Fresh, steps + [Compare(q)]).value.table.keys.Keys == Set(peers)
  {
    hide Inv, Set, Distinct, Run, CleanListings;
    RunLast(peers, Fresh, steps, Compare(q));
    RunKeepsInv(peers, steps);
    var s := Run(peers, Fresh, steps).value;
    AnswerMeansComplete(peers, s, q);
  }

  lemma RunSnoc(peers: seq<string>, s: NodeState, steps: seq<Step>, step: Step)
    requires Run(peers, s, steps).Some?
    ensures Run(peers, s, steps + [step]) == Apply(peers, Run(peers, s, steps).value, step)
  {
    assert (steps + [step])[..|steps|] == steps;
  }

  // ---------- which listings keep readiness sound ----------

  ghost predicate Lists(steps: seq<Step>, allowed: iset<seq<string>>) {
    forall i :: 0 <= i < |steps| && steps[i].StartTick? ==> steps[i].listing in allowed
  }

  /** The run ends with an answer of ArePeersReady that is true although a key is missing or out of place. */
  ghost predicate Misleads(peers: seq<string>, steps: seq<Step>, q: nat) {
    var end := Run(peers, Fresh, steps + [Compare(q)]);
    end.Some? && end.value.queries[q] == Answered(true) && end.value.table.keys.Keys != Set(peers)
  }

  /** Every true answer, in every run whose ticks see allowed listings only, means keys with exactly the other nodes. */
  ghost predicate Sound(peers: seq<string>, allowed: iset<seq<string>>) {
    forall steps, q :: Lists(steps, allowed) ==> !Misleads(peers, steps, q)
  }

  /** Readiness is sound for a set of listings if and only if none of them repeats a peer and is yet as long as the
      cluster. */
  lemma ReadinessSoundIff(peers: seq<string>, allowed: iset<seq<string>>)
    requires Distinct(peers)
    ensures Sound(peers, allowed) <==> forall l :: l in allowed && |l| == |peers| ==> Distinct(l)
  {
    hide Run, Misleads, Distinct;
    if forall l :: l in allowed && |l| == |peers| ==> Distinct(l) {
      forall steps, q | Lists(steps, allowed)
        ensures !Misleads(peers, steps, q)
      {
        AllowedIsSound(peers, allowed, steps, q);
      }
    }
    if l :| l in allowed && |l| == |peers| && !Distinct(l) {
      var steps := RepeatMisleads(peers, l);
      assert Lists(steps, allowed);
    }
  }

  lemma AllowedIsSound(peers: seq<string>, allowed: iset<seq<string>>, steps: seq<Step>, q: nat)
    requires Distinct(peers) && Lists(steps, allowed) && forall l :: l in allowed && |l| == |peers| ==> Distinct(l)
    ensures !Misleads(peers, steps, q)
  {
    hide Run, Set, Distinct;
    assert CleanListings(|peers|, steps);
    if Misleads(peers, steps, q) {
      ReadinessSound(peers, steps, q);
    }
  }

  /** However a listing of the cluster's length repeats peers: one tick with it and keys from as many nodes as it
      names mislead the query. */
  lemma RepeatMisleads(peers: seq<string>, l: seq<string>) returns (steps: seq<Step>)
    requires Distinct(peers) && |l| == |peers| && !Distinct(l)
    ensures Lists(steps, iset{l}) && Misleads(peers, steps, 0)
  {
    hide Run, Distinct, Set, RegisterAll, Ups;
    RepeatIsShort(l);
    var m := |Set(l)|;
    var tick := TickAll(peers, l);
    var s := Run(peers, Fresh, tick).value;
    var keyed := SetKeys(peers, s, m);
    RunConcat(peers, Fresh, tick, keyed);
    var u := Run(peers, Fresh, tick + keyed).value;
    PrefixKeys(peers, m);
    assert |u.table.keys| == |u.table.keys.Keys| == m;
    RunSnoc(peers, Fresh, tick + keyed, Ask(0));
    RunSnoc(peers, Fresh, tick + keyed + [Ask(0)], ReadCount(0));
    steps := tick + keyed + [Ask(0)] + [ReadCount(0)];
    RunSnoc(peers, Fresh, steps, Compare(0));
  }

  lemma {:induction false} RepeatIsShort(l: seq<string>)
    requires !Distinct(l)
    ensures |Set(l)| < |l|
  {
    var rest := l[..|l| - 1];
    SetSplit(l);
    if Distinct(rest) {
      DistinctSize(rest);
      var i, j :| 0 <= i < j < |l| && l[i] == l[j];
      assert j == |l| - 1;
      assert rest[i] == l[j] && l[j] in Set(rest);
      assert Set(l) == Set(rest);
    } else {
      RepeatIsShort(rest);
    }
  }

  /** The tick that registers such a listing from the start. */
  lemma TickAll(peers: seq<string>, l: seq<string>) returns (steps: seq<Step>)
    requires |l| == |peers|
    ensures Lists(steps, iset{l}) && Run(peers, Fresh, steps).Some?
    ensures var s := Run(peers, Fresh, steps).value;
            s.pc.Idle? && s.table.ready && s.table.readyCount == 1 + |Set(l)| && s.table.keys == map[] && s.queries == map[]
  {
    hide Set, RegisterAll, Ups;
    assert Run(peers, Fresh, []) == Some(Fresh);
    hide Run;
    RunSnoc(peers, Fresh, [], StartTick(l));
    var start := [] + [StartTick(l)];
    var begun := Fresh.(pc := Registering(l, 0, false));
    var ups := RunRegisters(peers, begun, l, |l|);
    assert l[..|l|] == l;
    RegisterAllIs(Fresh.table, l);
    assert Ups(map[]) == {} by { NobodyUp(); }
    assert Set(l) - {} == Set(l);
    RunConcat(peers, Fresh, start, ups);
    RunSnoc(peers, Fresh, start + ups, Finish);
    steps := start + ups + [Finish];
  }

  lemma NobodyUp()
    ensures Ups(map[]) == {}
  {
  }

  /** The first m registered nodes exchange keys. */
  lemma {:induction false} SetKeys(peers: seq<string>, s: NodeState, m: nat) returns (steps: seq<Step>)
    requires m <= |peers| && s.table.keys == map[]
    ensures (forall i :: 0 <= i < |steps| ==> steps[i].SetKey?) && Run(peers, s, steps).Some?
    ensures var u := Run(peers, s, steps).value; u == s.(table := s.table.(keys := u.table.keys)) && u.table.keys.Keys == Set(peers[..m])
  {
    if m == 0 {
      steps := [];
      assert peers[..0] == [];
    } else {
      var p := peers[m - 1];
      assert p in Set(peers);
      hide Run, Set, Ups, Distinct;
      var before := SetKeys(peers, s, m - 1);
      var mid := Run(peers, s, before).value;
      assert Apply(peers, mid, SetKey(p, "k")) == Some(mid.(table := mid.table.(keys := mid.table.keys[p := "k"])));
      hide Apply;
      RunSnoc(peers, s, before, SetKey(p, "k"));
      steps := before + [SetKey(p, "k")];
      SetTake(peers, m - 1);
    }
  }

  lemma PrefixKeys(peers: seq<string>, m: nat)
    requires Distinct(peers) && m < |peers|
    ensures |Set(peers[..m])| == m && Set(peers[..m]) != Set(peers)
  {
    DistinctSize(peers[..m]);
    DistinctSize(peers);
  }

  /** Listings that repeat do occur: "ready/a" and "ready/a b" both scan to a. */
  lemma RepeatedListingBreaks()
    ensures !Sound(["a", "b"], iset{ReadyListing("c", ["ready/a", "ready/a b"])})
  {
    RepeatedKeysScan();
    var l := ["a", "a"];
    assert l[0] == l[1] && !Distinct(l);
    ReadinessSoundIff(["a", "b"], iset{l});
    assert l in iset{l};
  }

  lemma RepeatedKeysScan()
    ensures ReadyListing("c", ["ready/a", "ready/a b"]) == ["a", "a"]
  {
    ScanOfId("a");
    assert "ready/a b"[6..] == "a b" && Token(" b") == "" && Token("a b") == "a";
    var keys := ["ready/a", "ready/a b"];
    assert keys[..1] == ["ready/a"] && keys[..1][..0] == [];
  }

  lemma Take(peers: seq<string>, steps: seq<Step>, s: NodeState, step: Step, u: NodeState) returns (more: seq<Step>)
    requires Run(peers, Fresh, steps) == Some(s) && Apply(peers, s, step) == Some(u)
    ensures more == steps + [step] && Run(peers, Fresh, more) == Some(u)
  {
    RunSnoc(peers, Fresh, steps, step);
    more := steps + [step];
  }

  // ---------- answers without interference ----------

  /** The flag changes only while no ArePeersReady query holds the lock. */
  lemma ReadyWritesWait(peers: seq<string>, s: NodeState, step: Step)
    requires Apply(peers, s, step).Some? && Apply(peers, s, step).value.table.ready != s.table.ready
    ensures LockFree(s)
  {
    hide Ups, Set, Distinct;
  }

  /** Asked between ticks, and with nobody up who is not registered, ArePeersReady answers true exactly when the node is
      ready and holds keys for all other registered nodes and for nobody else. */
  lemma ArePeersReadyIff(peers: seq<string>, s: NodeState, q: nat) returns (b: bool)
    requires Distinct(peers) && Inv(peers, s) && s.pc.Idle? && Ups(s.table.readyMap) <= Set(peers) && Free(s.queries, q)
    ensures Run(peers, s, if s.table.ready then [Ask(q)] + [ReadCount(q)] + [Compare(q)] else [Ask(q)])
         == Some(s.(queries := s.queries[q := Answered(b)]))
    ensures b <==> s.table.ready && s.table.keys.Keys == Set(peers)
  {
    b := s.table.ready && |s.table.keys| == s.table.readyCount - 1;
    DistinctSize(peers);
    hide Ups, Set, Distinct;
    SubsetSize(s.table.keys.Keys, Set(peers));
    SubsetSize(Ups(s.table.readyMap), Set(peers));
    assert |s.table.keys| == |s.table.keys.Keys|;
    RunQuery(peers, s, q);
  }

  lemma RunQuery(peers: seq<string>, s: NodeState, q: nat)
    requires Free(s.queries, q)
    ensures Run(peers, s, if s.table.ready then [Ask(q)] + [ReadCount(q)] + [Compare(q)] else [Ask(q)])
         == Some(s.(queries := s.queries[q := Answered(s.table.ready && |s.table.keys| == s.table.readyCount - 1)]))
  {
    assert Run(peers, s, []) == Some(s) && [] + [Ask(q)] == [Ask(q)];
    RunSnoc(peers, s, [], Ask(q));
    if s.table.ready {
      hide Run;
      RunSnoc(peers, s, [Ask(q)], ReadCount(q));
      RunSnoc(peers, s, [Ask(q)] + [ReadCount(q)], Compare(q));
      var m := s.queries[q := SawReady];
      var n := m[q := SawCount(s.table.readyCount)];
      assert n[q := Answered(|s.table.keys| == s.table.readyCount - 1)]
          == s.queries[q := Answered(|s.table.keys| == s.table.readyCount - 1)];
    }
  }

  /** A node can become ready: when a tick lists all registered nodes and keys with all of them have come, the answer is
      true. */
  lemma ReadyReachable(peers: seq<string>, l: seq<string>) returns (steps: seq<Step>)
    requires Distinct(peers) && Distinct(l) && Set(l) == Set(peers)
    ensures CleanListings(|peers|, steps) && Run(peers, Fresh, steps).Some?
    ensures var u := Run(peers, Fresh, steps).value; u.queries == map[0 := Answered(true)] && u.table.keys.Keys == Set(peers)
  {
    DistinctSize(l);
    DistinctSize(peers);
    hide Run, Distinct, Set, RegisterAll, Ups;
    var tick := TickAll(peers, l);
    var s := Run(peers, Fresh, tick).value;
    var keyed := SetKeys(peers, s, |peers|);
    assert peers[..|peers|] == peers;
    RunConcat(peers, Fresh, tick, keyed);
    var u := Run(peers, Fresh, tick + keyed).value;
    assert |u.table.keys| == |u.table.keys.Keys| == |peers|;
    RunQuery(peers, u, 0);
    var query := [Ask(0)] + [ReadCount(0)] + [Compare(0)];
    RunConcat(peers, Fresh, tick + keyed, query);
    steps := tick + keyed + query;
  }

  /** Asked without interference and with a settled counter, AreMajorityReady answers true exactly when at least as many
      peers as the threshold are up and there are as many keys as peers that are up. */
  lemma AreMajorityReadyIff(peers: seq<string>, s: NodeState, q: nat, threshold: int) returns (b: bool)
    requires s.table.readyCount == 1 + |Ups(s.table.readyMap)| && Free(s.queries, q)
    ensures Run(peers, s, if |Ups(s.table.readyMap)| >= threshold then [Load(q, threshold)] + [Reload(q)] + [Decide(q)] else [Load(q, threshold)])
         == Some(s.(queries := s.queries[q := Decided(b)]))
    ensures b <==> |Ups(s.table.readyMap)| >= threshold && |s.table.keys| == |Ups(s.table.readyMap)|
  {
    hide Ups;
    b := |Ups(s.table.readyMap)| >= threshold && |s.table.keys| == |Ups(s.table.readyMap)|;
    assert Run(peers, s, []) == Some(s) && [] + [Load(q, threshold)] == [Load(q, threshold)];
    RunSnoc(peers, s, [], Load(q, threshold));
    if |Ups(s.table.readyMap)| >= threshold {
      hide Run;
      RunSnoc(peers, s, [Load(q, threshold)], Reload(q));
      RunSnoc(peers, s, [Load(q, threshold)] + [Reload(q)], Decide(q));
      var m := s.queries[q := Loaded(threshold)];
      var n := m[q := Reloaded(threshold, s.table.readyCount)];
      assert n[q := Decided(b)] == s.queries[q := Decided(b)];
    }
  }

  // ---------- the majority check ----------

  /** When AreMajorityReady answers true, the number of keys is the second load of the counter less one; so there are
      keys with all ready peers if and only if as many key holders are not ready as that load was ahead of the number
      of ready peers. With no change since the load, this means that nobody but ready peers holds a key. The number of
      keys reaches the threshold exactly when the second load still did. */
  lemma MajorityKeysIff(peers: seq<string>, s: NodeState, q: nat)
    requires q in s.queries && s.queries[q].Reloaded?
    requires Apply(peers, s, Decide(q)).value.queries[q] == Decided(true)
    ensures var t, c := s.table, s.queries[q].count;
            && (Ups(t.readyMap) <= t.keys.Keys <==> |t.keys.Keys - Ups(t.readyMap)| == c - 1 - |Ups(t.readyMap)|)
            && (c == 1 + |Ups(t.readyMap)| ==> (Ups(t.readyMap) <= t.keys.Keys <==> t.keys.Keys <= Ups(t.readyMap)))
            && (|t.keys| >= s.queries[q].threshold <==> c >= s.queries[q].threshold + 1)
  {
    var t, c := s.table, s.queries[q].count;
    var keys, up := t.keys.Keys, Ups(t.readyMap);
    assert |t.keys| == |keys| == c - 1;
    hide Ups;
    assert keys == (keys - up) + (keys * up);
    assert |keys| == |keys - up| + |keys * up|;
    SubsetSize(keys * up, up);
    if keys <= up {
      SubsetSize(keys, up);
    }
    if up <= keys {
      SubsetSize(up, keys);
      assert keys * up == up;
    }
  }

  lemma FirstTickCleared() returns (steps: seq<Step>)
    ensures steps == [StartTick(["a"]), ClearReady([])]
    ensures Run(["a", "b"], Fresh, steps) == Some(Fresh.(pc := Registering(["a"], 0, false)))
  {
    hide Set, Distinct, Ups;
    var peers, l := ["a", "b"], ["a"];
    assert Run(peers, Fresh, []) == Some(Fresh);
    hide Run;
    var s := Fresh.(pc := Clearing(l));
    steps := Take(peers, [], Fresh, StartTick(l), s);
    NobodyLost(l);
    steps := Take(peers, steps, s, ClearReady([]), Fresh.(pc := Registering(l, 0, false)));
  }

  lemma NobodyLost(l: seq<string>)
    ensures Set<string>([]) == Ups(map[]) - Set(l) && Distinct<string>([])
  {
    hide Set;
    SetEmpty<string>();
    assert Ups(map[]) == {};
  }

  lemma FirstPeerAnnounced() returns (steps: seq<Step>)
    ensures steps == [StartTick(["a"]), ClearReady([]), CountUp, MarkUp, Finish]
    ensures Run(["a", "b"], Fresh, steps) == Some(NodeState(Table(map["a" := true], 2, false, map[]), Idle, map[]))
  {
    hide Run, Set, Distinct;
    var peers, l, m := ["a", "b"], ["a"], map["a" := true];
    steps := FirstTickCleared();
    var s := NodeState(Table(map[], 2, false, map[]), Registering(l, 0, true), map[]);
    steps := Take(peers, steps, Fresh.(pc := Registering(l, 0, false)), CountUp, s);
    var s' := NodeState(Table(m, 2, false, map[]), Registering(l, 1, false), map[]);
    steps := Take(peers, steps, s, MarkUp, s');
    steps := Take(peers, steps, s', Finish, NodeState(Table(m, 2, false, map[]), Idle, map[]));
  }

  /** A run, with clean listings, in which the majority check at threshold 1 answers true between ticks although the one
      ready peer has no key: the key present belongs to a peer that has not announced itself yet. */
  lemma MajorityWithoutKeys() returns (steps: seq<Step>)
    ensures CleanListings(2, steps) && Run(["a", "b"], Fresh, steps).Some?
    ensures var s := Run(["a", "b"], Fresh, steps).value;
            && s.pc.Idle? && s.queries == map[0 := Decided(true)]
            && Ups(s.table.readyMap) == {"a"} && "a" !in s.table.keys
  {
    hide Run;
    var peers, m := ["a", "b"], map["a" := true];
    assert peers[1] in Set(peers);
    steps := FirstPeerAnnounced();
    hide Set, Ups, Distinct;
    var t := Table(m, 2, false, map["b" := "k"]);
    assert map[]["b" := "k"] == t.keys && |t.keys| == 1;
    steps := Take(peers, steps, NodeState(Table(m, 2, false, map[]), Idle, map[]), SetKey("b", "k"), NodeState(t, Idle, map[]));
    steps := MajorityAsked(peers, steps, t, 1);
    OneUp();
  }

  lemma MajorityAsked(peers: seq<string>, before: seq<Step>, t: Table, threshold: int) returns (steps: seq<Step>)
    requires Run(peers, Fresh, before) == Some(NodeState(t, Idle, map[]))
    requires t.readyCount >= threshold + 1 && |t.keys| == t.readyCount - 1
    ensures steps == before + [Load(0, threshold)] + [Reload(0)] + [Decide(0)]
    ensures Run(peers, Fresh, steps) == Some(NodeState(t, Idle, map[0 := Decided(true)]))
  {
    hide Run;
    var s := NodeState(t, Idle, map[]);
    var loaded, reloaded := map[0 := Loaded(threshold)], map[0 := Reloaded(threshold, t.readyCount)];
    steps := Take(peers, before, s, Load(0, threshold), s.(queries := loaded));
    assert loaded[0 := Reloaded(threshold, t.readyCount)] == reloaded;
    steps := Take(peers, steps, s.(queries := loaded), Reload(0), s.(queries := reloaded));
    assert reloaded[0 := Decided(true)] == map[0 := Decided(true)];
    steps := Take(peers, steps, s.(queries := reloaded), Decide(0), s.(queries := map[0 := Decided(true)]));
  }

  lemma OneUp()
    ensures Ups(map["a" := true]) == {"a"}
  {
  }

  // ---------- a tick without interference ----------

  lemma RunOneDrop(peers: seq<string>, s: NodeState, before: seq<Step>, mid: NodeState) returns (steps: seq<Step>)
    requires Run(peers, s, before) == Some(mid) && mid.pc.Dropping? && mid.pc.rest != [] && mid.pc.stage == 0
    ensures Run(peers, s, steps)
         == Some(mid.(table := DropOne(mid.table, mid.pc.rest[0]), pc := Next(mid.pc.listing, mid.pc.rest[1..])))
  {
    hide Run, Ups, Set;
    RunSnoc(peers, s, before, MarkDown);
    RunSnoc(peers, s, before + [MarkDown], CountDown);
    RunSnoc(peers, s, before + [MarkDown] + [CountDown], RemoveKey);
    steps := before + [MarkDown] + [CountDown] + [RemoveKey];
  }

  lemma {:induction false} RunDrops(peers: seq<string>, s: NodeState, l: seq<string>, lost: seq<string>, j: nat) returns (steps: seq<Step>)
    requires s.pc == Next(l, lost) && j <= |lost|
    ensures Run(peers, s, steps) == Some(s.(table := DropAll(s.table, lost[..j]), pc := Next(l, lost[j..])))
  {
    if j == 0 {
      steps := [];
      assert lost[..0] == [] && lost[0..] == lost;
    } else {
      hide Run, Ups, Set, Apply;
      var before := RunDrops(peers, s, l, lost, j - 1);
      steps := RunOneDrop(peers, s, before, Run(peers, s, before).value);
      assert lost[..j][..j - 1] == lost[..j - 1] && lost[j - 1..][1..] == lost[j..];
    }
  }

  lemma RunOneRegister(peers: seq<string>, s: NodeState, before: seq<Step>, mid: NodeState) returns (steps: seq<Step>)
    requires Run(peers, s, before) == Some(mid) && mid.pc.Registering? && mid.pc.done < |mid.pc.listing| && !mid.pc.bumped
    ensures Run(peers, s, steps)
         == Some(mid.(table := RegisterOne(mid.table, mid.pc.listing[mid.pc.done]),
                 pc := Registering(mid.pc.listing, mid.pc.done + 1, false)))
    ensures |before| <= |steps| && steps[..|before|] == before
    ensures forall i :: |before| <= i < |steps| ==> !steps[i].StartTick?
  {
    hide Run, Ups, Set;
    if mid.pc.listing[mid.pc.done] in Ups(mid.table.readyMap) {
      RunSnoc(peers, s, before, MarkUp);
      steps := before + [MarkUp];
    } else {
      RunSnoc(peers, s, before, CountUp);
      RunSnoc(peers, s, before + [CountUp], MarkUp);
      steps := before + [CountUp] + [MarkUp];
    }
  }

  lemma {:induction false} RunRegisters(peers: seq<string>, s: NodeState, l: seq<string>, j: nat) returns (steps: seq<Step>)
    requires s.pc == Registering(l, 0, false) && j <= |l|
    ensures Run(peers, s, steps) == Some(s.(table := RegisterAll(s.table, l[..j]), pc := Registering(l, j, false)))
    ensures forall i :: 0 <= i < |steps| ==> !steps[i].StartTick?
  {
    if j == 0 {
      steps := [];
      assert l[..0] == [];
    } else {
      hide Run, Ups, Set, Apply;
      var before := RunRegisters(peers, s, l, j - 1);
      steps := RunOneRegister(peers, s, before, Run(peers, s, before).value);
      assert forall i :: 0 <= i < |before| ==> steps[i] == steps[..|before|][i] == before[i];
      assert l[..j][..j - 1] == l[..j - 1];
    }
  }

  lemma {:induction false} RunConcat(peers: seq<string>, s: NodeState, a: seq<Step>, b: seq<Step>)
    requires Run(peers, s, a).Some?
    ensures Run(peers, s, a + b) == Run(peers, Run(peers, s, a).value, b)
  {
    if b == [] {
      assert a + b == a;
    } else {
      var b' := b[..|b| - 1];
      RunConcat(peers, s, a, b');
      assert (a + b)[..|a + b| - 1] == a + b';
    }
  }

  function Cleared(t: Table, peerCount: nat, l: seq<string>): Table {
    if |l| != peerCount then t.(ready := false) else t
  }

  /** From the start of a tick to the end of its drops. */
  lemma RunFirstHalf(peers: seq<string>, s: NodeState, l: seq<string>, lost: seq<string>) returns (steps: seq<Step>)
    requires s.pc.Idle? && LockFree(s)
    requires Distinct(lost) && Set(lost) == Lost(s.table, |peers|, l)
    ensures Run(peers, s, steps)
         == Some(NodeState(DropAll(Cleared(s.table, |peers|, l), lost), Registering(l, 0, false), s.queries))
  {
    hide Set, Ups, Distinct;
    assert Run(peers, s, []) == Some(s);
    RunSnoc(peers, s, [], StartTick(l));
    var start := [] + [StartTick(l)];
    if |l| != |peers| {
      RunSnoc(peers, s, start, ClearReady(lost));
      start := start + [ClearReady(lost)];
      var mid := Run(peers, s, start).value;
      var drops := RunDrops(peers, mid, l, lost, |lost|);
      assert lost[..|lost|] == lost;
      RunConcat(peers, s, start, drops);
      steps := start + drops;
    } else {
      SetEmpty<string>();
      DistinctSize(lost);
      steps := start;
    }
  }

  /** The steps of the watcher, taken without interference, add up to the tick of the registry object. */
  lemma TickRefines(peers: seq<string>, s: NodeState, l: seq<string>, lost: seq<string>) returns (steps: seq<Step>)
    requires s.pc.Idle? && LockFree(s)
    requires Distinct(lost) && Set(lost) == Lost(s.table, |peers|, l)
    ensures var u := Run(peers, s, steps);
            && u.Some? && u.value.pc.Idle? && u.value.queries == s.queries
            && TickEffect(s.table, u.value.table, |peers|, l)
  {
    hide TickEffect, RegisterAll, DropAll, Set, Ups, Distinct, Run, Lost;
    var first := RunFirstHalf(peers, s, l, lost);
    var mid := Run(peers, s, first).value;
    var ups := RunRegisters(peers, mid, l, |l|);
    assert l[..|l|] == l;
    RunConcat(peers, s, first, ups);
    RunSnoc(peers, s, first + ups, Finish);
    steps := first + ups + [Finish];
    TickFolds(s.table, |peers|, l, lost);
    DropAllKeepsReady(Cleared(s.table, |peers|, l), lost);
    RegisterAllIs(mid.table, l);
  }

  lemma {:induction false} DropAllKeepsReady(t: Table, ps: seq<string>)
    ensures DropAll(t, ps).ready == t.ready
  {
    if ps != [] {
      DropAllKeepsReady(t, ps[..|ps| - 1]);
    }
  }
}
