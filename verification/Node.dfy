/** pkg/mpc/node.go: the ordered party ids of a session and the guards of signing-session creation. */
module Node {
  import opened GoStrings
  import opened PartyId

  datatype KeyInfo = KeyInfo(participants: seq<GoString>, threshold: int, version: int)

  function Keys(parties: seq<PartyID>): (ks: seq<nat>)
    ensures |ks| == |parties|
  {
    seq(|parties|, i requires 0 <= i < |parties| => parties[i].key)
  }

  function PartyKeys(ids: seq<GoString>, version: int): (ks: seq<nat>)
    ensures |ks| == |ids| && forall i :: 0 <= i < |ids| ==> ks[i] == PartyKey(ids[i], version)
  {
    seq(|ids|, i requires 0 <= i < |ids| => PartyKey(ids[i], version))
  }

  ghost predicate Sorted(s: seq<nat>) {
    forall i, j :: 0 <= i < j < |s| ==> s[i] <= s[j]
  }

  function Insert(k: nat, s: seq<nat>): seq<nat> {
    if s == [] || k <= s[0] then [k] + s else [s[0]] + Insert(k, s[1..])
  }

  function Sort(s: seq<nat>): seq<nat> {
    if s == [] then [] else Insert(s[0], Sort(s[1..]))
  }

  /** The keys of a session over these peers, in the order every node indexes them. */
  function SessionKeys(ids: seq<GoString>, version: int): seq<nat> {
    Sort(PartyKeys(ids, version))
  }

  lemma SortedCons(x: nat, t: seq<nat>)
    requires Sorted(t) && (t == [] || x <= t[0])
    ensures Sorted([x] + t)
  {
    var s := [x] + t;
    forall i, j | 0 <= i < j < |s|
      ensures s[i] <= s[j]
    {
      assert s[j] == t[j - 1];
      assert t[0] <= t[j - 1];
    }
  }

  lemma InsertHead(k: nat, s: seq<nat>)
    ensures Insert(k, s) != [] && Insert(k, s)[0] == if s == [] || k <= s[0] then k else s[0]
  {
  }

  lemma {:induction false} InsertSorts(k: nat, s: seq<nat>)
    requires Sorted(s)
    ensures Sorted(Insert(k, s))
  {
    if s == [] || k <= s[0] {
      SortedCons(k, s);
    } else {
      InsertSorts(k, s[1..]);
      InsertHead(k, s[1..]);
      hide Sorted;
      if |s| > 1 {
        SortedStep(s);
      }
      SortedCons(s[0], Insert(k, s[1..]));
    }
  }

  lemma SortedStep(s: seq<nat>)
    requires Sorted(s) && |s| > 1
    ensures s[0] <= s[1]
  {
  }

  lemma {:induction false} InsertMultiset(k: nat, s: seq<nat>)
    ensures multiset(Insert(k, s)) == multiset{k} + multiset(s)
  {
    if s != [] && k > s[0] {
      InsertMultiset(k, s[1..]);
      assert s == [s[0]] + s[1..];
    }
  }

  /** Sort yields the sorted permutation of its argument. */
  lemma {:induction false} SortSorts(s: seq<nat>)
    ensures Sorted(Sort(s)) && multiset(Sort(s)) == multiset(s)
    ensures |Sort(s)| == |s|
  {
    if s != [] {
      SortSorts(s[1..]);
      InsertSorts(s[0], Sort(s[1..]));
      InsertMultiset(s[0], Sort(s[1..]));
      assert s == [s[0]] + s[1..];
      hide Sorted, Insert;
    }
    assert |multiset(Sort(s))| == |Sort(s)| && |multiset(s)| == |s|;
  }

  lemma SameHead(s: seq<nat>, t: seq<nat>)
    requires Sorted(s) && Sorted(t) && multiset(s) == multiset(t) && s != []
    ensures t != [] && s[0] == t[0]
  {
    assert s[0] in multiset(t);
    assert t[0] in multiset(s);
  }

  lemma TailMultiset(s: seq<nat>)
    requires s != []
    ensures multiset(s[1..]) == multiset(s) - multiset{s[0]}
  {
    assert s == [s[0]] + s[1..];
  }

  lemma SortedTail(s: seq<nat>)
    requires Sorted(s) && s != []
    ensures Sorted(s[1..])
  {
  }

  /** A sorted sequence is determined by its elements. */
  lemma {:induction false} SortedUnique(s: seq<nat>, t: seq<nat>)
    requires Sorted(s) && Sorted(t) && multiset(s) == multiset(t)
    ensures s == t
  {
    hide Sorted;
    if s == [] {
      assert |t| == |multiset(t)| == 0;
    } else {
      SameHead(s, t);
      TailMultiset(s);
      TailMultiset(t);
      SortedTail(s);
      SortedTail(t);
      SortedUnique(s[1..], t[1..]);
      assert s == [s[0]] + s[1..] && t == [t[0]] + t[1..];
    }
  }

  function Without<T>(s: seq<T>, j: nat): seq<T>
    requires j < |s|
  {
    s[..j] + s[j + 1..]
  }

  lemma WithoutMultiset<T>(s: seq<T>, j: nat)
    requires j < |s|
    ensures multiset(Without(s, j)) == multiset(s) - multiset{s[j]}
  {
    assert s == s[..j] + [s[j]] + s[j + 1..];
  }

  function Map<T>(xs: seq<T>, f: T -> nat): (ks: seq<nat>)
    ensures |ks| == |xs| && forall i :: 0 <= i < |xs| ==> ks[i] == f(xs[i])
  {
    seq(|xs|, i requires 0 <= i < |xs| => f(xs[i]))
  }

  lemma MapWithout<T>(xs: seq<T>, j: nat, f: T -> nat)
    requires j < |xs|
    ensures multiset(Map(xs, f)) == multiset(Map(Without(xs, j), f)) + multiset{f(xs[j])}
  {
    assert Map(Without(xs, j), f) == Without(Map(xs, f), j);
    WithoutMultiset(Map(xs, f), j);
  }

  lemma {:induction false} MapPermute<T>(xs: seq<T>, ys: seq<T>, f: T -> nat)
    requires multiset(xs) == multiset(ys)
    ensures multiset(Map(xs, f)) == multiset(Map(ys, f))
    decreases |xs|
  {
    if xs == [] {
      assert |multiset(ys)| == |ys|;
    } else {
      var x := xs[0];
      assert x in multiset(xs);
      var j :| 0 <= j < |ys| && ys[j] == x;
      WithoutMultiset(xs, 0);
      WithoutMultiset(ys, j);
      MapPermute(Without(xs, 0), Without(ys, j), f);
      MapWithout(xs, 0, f);
      MapWithout(ys, j, f);
    }
  }

  lemma PartyKeysPermute(xs: seq<GoString>, ys: seq<GoString>, version: int)
    requires multiset(xs) == multiset(ys)
    ensures multiset(PartyKeys(xs, version)) == multiset(PartyKeys(ys, version))
  {
    hide PartyKey;
    var f := (id: GoString) => PartyKey(id, version);
    assert PartyKeys(xs, version) == Map(xs, f) && PartyKeys(ys, version) == Map(ys, f);
    MapPermute(xs, ys, f);
  }

  /** Whatever order a node's registry lists the ready peers in, every node derives the same key sequence. */
  lemma PartyOrderAgreement(xs: seq<GoString>, ys: seq<GoString>, version: int)
    requires multiset(xs) == multiset(ys)
    ensures SessionKeys(xs, version) == SessionKeys(ys, version)
  {
    PartyKeysPermute(xs, ys, version);
    SortSorts(PartyKeys(xs, version));
    SortSorts(PartyKeys(ys, version));
    SortedUnique(SessionKeys(xs, version), SessionKeys(ys, version));
  }

  ghost predicate PlainDistinct(ids: seq<GoString>) {
    Distinct(ids) && forall i :: 0 <= i < |ids| ==> Plain(ids[i])
  }

  lemma SessionKeysAre(ids: seq<GoString>, version: int, k: nat)
    ensures k in SessionKeys(ids, version) <==> exists id :: id in ids && PartyKey(id, version) == k
  {
    var ks := PartyKeys(ids, version);
    SortSorts(ks);
    assert k in SessionKeys(ids, version) <==> k in multiset(Sort(ks));
    assert k in multiset(ks) <==> k in ks;
  }

  lemma PartyKeysDistinct(ids: seq<GoString>, version: int)
    requires PlainDistinct(ids)
    ensures Distinct(PartyKeys(ids, version))
  {
    forall i, j | 0 <= i < j < |ids|
      ensures PartyKey(ids[i], version) != PartyKey(ids[j], version)
    {
      if PartyKey(ids[i], version) == PartyKey(ids[j], version) {
        PartyKeyInjective(ids[i], version, ids[j], version);
      }
    }
  }

  lemma SortStrict(s: seq<nat>, i: nat, j: nat)
    requires Distinct(s) && i < j < |Sort(s)|
    ensures Sort(s)[i] < Sort(s)[j]
  {
    hide Sort;
    var ks := Sort(s);
    SortSorts(s);
    DistinctMultiset(s, ks[j]);
    assert ks == ks[..j] + [ks[j]] + ks[j + 1..];
    assert ks[i] in ks[..j];
  }

  lemma IndexOrder(ids: seq<GoString>, version: int, i: nat, j: nat)
    requires PlainDistinct(ids) && i < |SessionKeys(ids, version)| && j < |SessionKeys(ids, version)|
    ensures i < j <==> SessionKeys(ids, version)[i] < SessionKeys(ids, version)[j]
  {
    if i < j {
      SessionKeysStrict(ids, version, i, j);
    } else if j < i {
      SessionKeysStrict(ids, version, j, i);
    }
  }

  /** Session keys rise strictly, so an index names one party. */
  lemma SessionKeysStrict(ids: seq<GoString>, version: int, i: nat, j: nat)
    requires PlainDistinct(ids) && i < j < |SessionKeys(ids, version)|
    ensures SessionKeys(ids, version)[i] < SessionKeys(ids, version)[j]
  {
    PartyKeysDistinct(ids, version);
    SortStrict(PartyKeys(ids, version), i, j);
  }

  /** Every node, own list in hand, gives node n one and the same index, and that index decodes back to n. */
  lemma OwnIndexAgreement(xs: seq<GoString>, ys: seq<GoString>, version: int, n: GoString) returns (i: nat)
    requires PlainDistinct(xs) && multiset(xs) == multiset(ys) && n in xs
    ensures i < |SessionKeys(xs, version)| == |SessionKeys(ys, version)| == |xs|
    ensures SessionKeys(xs, version)[i] == SessionKeys(ys, version)[i] == PartyKey(n, version)
    ensures forall j :: 0 <= j < |xs| && SessionKeys(ys, version)[j] == PartyKey(n, version) ==> j == i
    ensures NodeOf(SessionKeys(ys, version)[i]) == n
  {
    PartyOrderAgreement(xs, ys, version);
    SortSorts(PartyKeys(xs, version));
    SessionKeysAre(xs, version, PartyKey(n, version));
    var ks := SessionKeys(xs, version);
    i :| 0 <= i < |ks| && ks[i] == PartyKey(n, version);
    forall j | 0 <= j < |xs| && ks[j] == PartyKey(n, version)
      ensures j == i
    {
      if i < j {
        SessionKeysStrict(xs, version, i, j);
      } else if j < i {
        SessionKeysStrict(xs, version, j, i);
      }
    }
    PartyKeyRoundTrip(n, version);
  }

  /** Where ids have one length, as UUIDs do, the party order is the order of the ids themselves. */
  lemma PartyOrderIsIdOrder(ids: seq<GoString>, version: int, a: GoString, b: GoString, i: nat, j: nat)
    requires PlainDistinct(ids) && a in ids && b in ids && |a| == |b|
    requires i < |SessionKeys(ids, version)| && SessionKeys(ids, version)[i] == PartyKey(a, version)
    requires j < |SessionKeys(ids, version)| && SessionKeys(ids, version)[j] == PartyKey(b, version)
    ensures i < j <==> Less(a, b)
  {
    PartyKeyOrder(a, b, version);
    IndexOrder(ids, version, i, j);
  }

  // ---------- the loops of node.go ----------

  /** tss.SortPartyIDs orders party ids by key. */
  method SortPartyIDs(ids: seq<PartyID>) returns (sorted: seq<PartyID>)
    ensures Keys(sorted) == Sort(Keys(ids))
    ensures multiset(sorted) == multiset(ids)
  {
    sorted := [];
    var n := |ids|;
    while n > 0
      invariant 0 <= n <= |ids|
      invariant Keys(sorted) == Sort(Keys(ids[n..]))
      invariant multiset(sorted) == multiset(ids[n..])
    {
      n := n - 1;
      var p := ids[n];
      assert ids[n..] == [p] + ids[n + 1..];
      assert Keys(ids[n..]) == [p.key] + Keys(ids[n + 1..]);
      sorted := InsertParty(p, sorted);
    }
    assert ids[0..] == ids;
  }

  method InsertParty(p: PartyID, s: seq<PartyID>) returns (r: seq<PartyID>)
    ensures Keys(r) == Insert(p.key, Keys(s))
    ensures multiset(r) == multiset{p} + multiset(s)
  {
    if s == [] || p.key <= s[0].key {
      r := [p] + s;
      assert Keys(r) == [p.key] + Keys(s);
    } else {
      var t := InsertParty(p, s[1..]);
      r := [s[0]] + t;
      assert s == [s[0]] + s[1..];
      assert Keys(s)[1..] == Keys(s[1..]);
      assert Keys(r) == [s[0].key] + Keys(t);
    }
  }

  /** uuids stands for the random part of each party id. */
  method KeygenPartyIDs(nodeID: GoString, purpose: string, readyPeerIDs: seq<GoString>, version: int, uuids: seq<string>)
    returns (self: Option<PartyID>, all: seq<PartyID>)
    requires |uuids| == |readyPeerIDs|
    ensures Keys(all) == SessionKeys(readyPeerIDs, version)
    ensures self.Some? <==> nodeID in readyPeerIDs
    ensures self.Some? ==> self.value in all && self.value.key == PartyKey(nodeID, version)
    ensures forall p :: p in all ==> p.moniker == purpose
  {
    hide PartyKey, Sort;
    self := None;
    var partyIDs := [];
    for i := 0 to |readyPeerIDs|
      invariant Keys(partyIDs) == PartyKeys(readyPeerIDs[..i], version)
      invariant self.Some? <==> nodeID in readyPeerIDs[..i]
      invariant self.Some? ==> self.value in partyIDs && self.value.key == PartyKey(nodeID, version)
      invariant forall p :: p in partyIDs ==> p.moniker == purpose
    {
      var peerID := readyPeerIDs[i];
      var partyID := CreatePartyID(peerID, purpose, version, uuids[i]);
      if peerID == nodeID {
        self := Some(partyID);
      }
      assert readyPeerIDs[..i + 1] == readyPeerIDs[..i] + [peerID];
      assert Keys(partyIDs + [partyID]) == Keys(partyIDs) + [partyID.key];
      assert PartyKeys(readyPeerIDs[..i + 1], version) == PartyKeys(readyPeerIDs[..i], version) + [partyID.key];
      partyIDs := partyIDs + [partyID];
    }
    assert readyPeerIDs[..|readyPeerIDs|] == readyPeerIDs;
    all := SortPartyIDs(partyIDs);
    assert self.Some? ==> self.value in multiset(all);
    assert forall p :: p in all ==> p in multiset(partyIDs);
  }

  function ReadyOf(participants: seq<GoString>, ready: seq<GoString>): seq<GoString> {
    if participants == [] then []
    else (if participants[0] in ready then [participants[0]] else []) + ReadyOf(participants[1..], ready)
  }

  method GetReadyPeersForSession(keyInfo: KeyInfo, readyPeers: seq<GoString>) returns (r: seq<GoString>)
    ensures r == ReadyOf(keyInfo.participants, readyPeers)
  {
    r := [];
    var ps := keyInfo.participants;
    for i := 0 to |ps|
      invariant r + ReadyOf(ps[i..], readyPeers) == ReadyOf(ps, readyPeers)
    {
      assert ps[i..][1..] == ps[i + 1..];
      if ps[i] in readyPeers {
        r := r + [ps[i]];
      }
    }
  }

  /** ReadyOf keeps exactly the participants that are ready, without repeats where there were none. */
  lemma {:induction false} ReadyOfIs(participants: seq<GoString>, ready: seq<GoString>)
    ensures Set(ReadyOf(participants, ready)) == Set(participants) * Set(ready)
    ensures Distinct(participants) ==> Distinct(ReadyOf(participants, ready))
  {
    if participants != [] {
      var p, rest := participants[0], participants[1..];
      ReadyOfIs(rest, ready);
      assert participants == [p] + rest;
      assert Set(participants) == {p} + Set(rest);
      var r := ReadyOf(rest, ready);
      assert forall x :: x in r ==> x in Set(r);
      if p in ready {
        assert ReadyOf(participants, ready) == [p] + r;
        assert Set([p] + r) == {p} + Set(r);
        assert p in Set(ready);
      } else {
        assert p !in Set(ready);
        assert ReadyOf(participants, ready) == r;
      }
      if Distinct(participants) {
        assert p !in r by {
          assert p in r ==> p in Set(rest);
        }
      }
    }
  }

  /** They come in their recorded order. */
  lemma {:induction false} ReadyOfOrder(participants: seq<GoString>, ready: seq<GoString>) returns (at: seq<nat>)
    ensures Picks(at, participants, ReadyOf(participants, ready))
  {
    at := [];
    if participants != [] {
      hide Picks;
      var rest := ReadyOfOrder(participants[1..], ready);
      var later := PicksLater(rest, participants, ReadyOf(participants[1..], ready));
      at := if participants[0] in ready then [0] + later else later;
      assert [] + ReadyOf(participants[1..], ready) == ReadyOf(participants[1..], ready);
    }
  }

  // ---------- signing sessions ----------

  datatype SigningError =
    | KeyInfoMissing | NotEnoughPeers | NotInParticipantList
    | NotEnoughParticipants | IncompatiblePeers | ShareMissing

  datatype SigningSession = SigningSession(participants: seq<GoString>, self: Option<nat>, parties: seq<nat>, threshold: int)

  /** getVersion: a lookup that fails counts as the default version. */
  function VersionOf(lookup: Option<KeyInfo>): int {
    if lookup.Some? then lookup.value.version else DEFAULT_VERSION
  }

  /** What CreateSigningSession decides, guard by guard. It looks key info up twice, for the version and for the rest. */
  function SigningPlan(nodeID: GoString, first: Option<KeyInfo>, keyInfo: Option<KeyInfo>, ready: seq<GoString>)
    : Result<SigningSession, SigningError>
  {
    match keyInfo
    case None => Err(KeyInfoMissing)
    case Some(info) =>
      var present := ReadyOf(info.participants, ready);
      if |present| < info.threshold + 1 then Err(NotEnoughPeers)
      else if nodeID !in info.participants then Err(NotInParticipantList)
      else
        Ok(SigningSession(
             present,
             if nodeID in present then Some(PartyKey(nodeID, VersionOf(first))) else None,
             SessionKeys(present, VersionOf(first)),
             info.threshold))
  }

  method CreateSigningSession(nodeID: GoString, first: Option<KeyInfo>, keyInfo: Option<KeyInfo>, ready: seq<GoString>,
                              uuids: seq<string>) returns (r: Result<SigningSession, SigningError>)
    requires |uuids| >= (if keyInfo.Some? then |keyInfo.value.participants| else 0)
    ensures r == SigningPlan(nodeID, first, keyInfo, ready)
  {
    var version := VersionOf(first);
    if keyInfo.None? {
      return Err(KeyInfoMissing);
    }
    var info := keyInfo.value;
    var present := GetReadyPeersForSession(info, ready);
    if |present| < info.threshold + 1 {
      return Err(NotEnoughPeers);
    }
    if nodeID !in info.participants {
      return Err(NotInParticipantList);
    }
    ReadyOfShort(info.participants, ready);
    var self, all := KeygenPartyIDs(nodeID, "keygen", present, version, uuids[..|present|]);
    return Ok(SigningSession(present, if self.Some? then Some(self.value.key) else None, Keys(all), info.threshold));
  }

  lemma {:induction false} ReadyOfShort(participants: seq<GoString>, ready: seq<GoString>)
    ensures |ReadyOf(participants, ready)| <= |participants|
  {
    if participants != [] {
      ReadyOfShort(participants[1..], ready);
    }
  }

  lemma SessionKeysCount(ids: seq<GoString>, version: int)
    ensures |SessionKeys(ids, version)| == |ids|
  {
    SortSorts(PartyKeys(ids, version));
  }

  /** The two participant checks of Init; lo.Intersect keeps the distinct common elements. */
  function QuorumError(s: SigningSession, info: KeyInfo): Option<SigningError> {
    if |s.participants| < info.threshold + 1 then Some(NotEnoughParticipants)
    else if |Set(s.participants) * Set(info.participants)| < info.threshold + 1 then Some(IncompatiblePeers)
    else None
  }

  /** A created session has its node among its parties and a quorum of distinct recorded participants, and
      against unchanged key info neither participant check of Init can fail. */
  lemma QuorumCarriesThrough(nodeID: GoString, first: Option<KeyInfo>, info: KeyInfo, ready: seq<GoString>)
    requires nodeID in ready && Distinct(info.participants)
    requires SigningPlan(nodeID, first, Some(info), ready).Ok?
    ensures var s := SigningPlan(nodeID, first, Some(info), ready).value;
            && s.self == Some(PartyKey(nodeID, VersionOf(first))) && s.self.value in s.parties
            && s.threshold == info.threshold
            && |s.parties| == |Set(s.participants)| >= info.threshold + 1
            && Set(s.participants) == Set(info.participants) * Set(ready)
            && QuorumError(s, info) == None
  {
    hide ReadyOf, SessionKeys, PartyKey, PartyKeys, Distinct, VersionOf;
    var s := SigningPlan(nodeID, first, Some(info), ready).value;
    ReadyOfIs(info.participants, ready);
    DistinctSize(s.participants);
    assert nodeID in Set(info.participants) * Set(ready);
    assert nodeID in Set(s.participants) && nodeID in s.participants;
    SessionKeysAre(s.participants, VersionOf(first), PartyKey(nodeID, VersionOf(first)));
    SessionKeysCount(s.participants, VersionOf(first));
    assert Set(s.participants) * Set(info.participants) == Set(s.participants);
  }

  /** The parties of a created session are the ready participants at the version that the first lookup read, in order of
      their keys; when that lookup failed, at version 1. */
  lemma SessionVersion(nodeID: GoString, first: Option<KeyInfo>, info: KeyInfo, ready: seq<GoString>)
    requires nodeID in ready && SigningPlan(nodeID, first, Some(info), ready).Ok?
    ensures var s := SigningPlan(nodeID, first, Some(info), ready).value;
            && (forall k :: first == Some(k) ==>
                  && s.self == Some(PartyKey(nodeID, k.version)) && Sorted(s.parties)
                  && multiset(s.parties) == multiset(PartyKeys(s.participants, k.version)))
            && (first == None ==>
                  && s.self == Some(PartyKey(nodeID, 1)) && Sorted(s.parties)
                  && multiset(s.parties) == multiset(PartyKeys(s.participants, 1)))
            && forall id :: id in s.participants <==> id in info.participants && id in ready
  {
    var s := SigningPlan(nodeID, first, Some(info), ready).value;
    ReadyOfIs(info.participants, ready);
    SortSorts(PartyKeys(s.participants, VersionOf(first)));
    hide ReadyOf, PartyKey, PartyKeys, Sort, Sorted;
    forall id
      ensures id in s.participants <==> id in info.participants && id in ready
    {
      assert id in Set(s.participants) <==> id in Set(info.participants) * Set(ready);
    }
  }

  /** Init against key info that may have changed since creation, as by a resharing: its checks pass exactly when a quorum
      of the new record was recorded before and ready then. */
  lemma InitAfterChange(nodeID: GoString, first: Option<KeyInfo>, info: KeyInfo, ready: seq<GoString>, now: KeyInfo)
    requires Distinct(info.participants) && SigningPlan(nodeID, first, Some(info), ready).Ok?
    ensures var s := SigningPlan(nodeID, first, Some(info), ready).value; var common := Set(info.participants) * Set(ready);
            && (QuorumError(s, now) == None <==> |common * Set(now.participants)| >= now.threshold + 1)
            && (QuorumError(s, now) == Some(NotEnoughParticipants) <==> |common| < now.threshold + 1)
            && (QuorumError(s, now) == Some(IncompatiblePeers) <==>
                  |common| >= now.threshold + 1 && |common * Set(now.participants)| < now.threshold + 1)
  {
    hide ReadyOf, SessionKeys, PartyKey, Distinct;
    var s := SigningPlan(nodeID, first, Some(info), ready).value;
    ReadyOfIs(info.participants, ready);
    DistinctSize(s.participants);
    SubsetSize(Set(s.participants) * Set(now.participants), Set(s.participants));
  }

  /** Creation fails exactly when there is no key info, too few participants are ready or the node is not one, and says
      which came first. */
  lemma SigningPlanSucceedsIff(nodeID: GoString, first: Option<KeyInfo>, keyInfo: Option<KeyInfo>, ready: seq<GoString>)
    requires keyInfo.Some? ==> Distinct(keyInfo.value.participants)
    ensures SigningPlan(nodeID, first, keyInfo, ready).Ok? <==>
            && keyInfo.Some?
            && |Set(keyInfo.value.participants) * Set(ready)| >= keyInfo.value.threshold + 1
            && nodeID in keyInfo.value.participants
    ensures SigningPlan(nodeID, first, keyInfo, ready) == Err(KeyInfoMissing) <==> keyInfo.None?
    ensures SigningPlan(nodeID, first, keyInfo, ready) == Err(NotEnoughPeers) <==>
            keyInfo.Some? && |Set(keyInfo.value.participants) * Set(ready)| < keyInfo.value.threshold + 1
    ensures SigningPlan(nodeID, first, keyInfo, ready) == Err(NotInParticipantList) <==>
            && keyInfo.Some? && |Set(keyInfo.value.participants) * Set(ready)| >= keyInfo.value.threshold + 1
            && nodeID !in keyInfo.value.participants
    // in particular it never asks for the retry that the event consumer reserves for ErrNotEnoughParticipants
    ensures SigningPlan(nodeID, first, keyInfo, ready) != Err(NotEnoughParticipants)
  {
    if keyInfo.Some? {
      var present := ReadyOf(keyInfo.value.participants, ready);
      ReadyOfIs(keyInfo.value.participants, ready);
      DistinctSize(present);
    }
  }
}
