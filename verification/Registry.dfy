/** pkg/mpc/registry.go with the symmetric-key table of pkg/identity/identity.go: the state
    of one node, the effect of a watcher tick on it, the listings it reads, and the registry as an object. */
module Registry {
  import opened GoStrings

  /** readyMap, readyCount and ready belong to the registry; keys is the symmetric-key map of the identity store. */
  datatype Table = Table(readyMap: map<string, bool>, readyCount: int, ready: bool, keys: map<string, SymmetricKey>)

  function Ups(m: map<string, bool>): set<string> {
    set p | p in m && m[p]
  }

  // ---------- a watcher tick, as the code performs it and in closed form ----------

  function DropOne(t: Table, p: string): Table {
    t.(readyMap := t.readyMap[p := false], readyCount := t.readyCount - 1, keys := t.keys - {p})
  }

  function DropAll(t: Table, ps: seq<string>): Table {
    if ps == [] then t else DropOne(DropAll(t, ps[..|ps| - 1]), ps[|ps| - 1])
  }

  function RegisterOne(t: Table, p: string): Table {
    t.(readyMap := t.readyMap[p := true], readyCount := if p in Ups(t.readyMap) then t.readyCount else t.readyCount + 1)
  }

  function RegisterAll(t: Table, ps: seq<string>): Table {
    if ps == [] then t else RegisterOne(RegisterAll(t, ps[..|ps| - 1]), ps[|ps| - 1])
  }

  /** The peers a tick with this listing disconnects; peerCount is the number of registered other nodes. */
  function Lost(t: Table, peerCount: nat, listing: seq<string>): set<string> {
    if |listing| != peerCount then Ups(t.readyMap) - Set(listing) else {}
  }

  /** The effect of a tick, by sets: what is listed is up, what was up and is missing from a partial listing is down
      and loses its key. */
  ghost predicate TickEffect(t: Table, u: Table, peerCount: nat, listing: seq<string>) {
    var up, l, lost := Ups(t.readyMap), Set(listing), Lost(t, peerCount, listing);
    && u.readyMap.Keys == t.readyMap.Keys + l
    && Ups(u.readyMap) == (up - lost) + l
    && u.readyCount == t.readyCount - |lost| + |l - up|
    && (u.ready <==> |listing| == peerCount)
    && u.keys == t.keys - lost
  }

  lemma UpsOfUpdate(m: map<string, bool>, p: string, b: bool)
    ensures Ups(m[p := b]) == if b then Ups(m) + {p} else Ups(m) - {p}
  {
  }

  lemma {:induction false} DropAllIs(t: Table, ps: seq<string>)
    requires Distinct(ps) && Set(ps) <= Ups(t.readyMap)
    ensures var u := DropAll(t, ps);
            && u.readyMap.Keys == t.readyMap.Keys
            && Ups(u.readyMap) == Ups(t.readyMap) - Set(ps)
            && u.readyCount == t.readyCount - |Set(ps)|
            && u.ready == t.ready
            && u.keys == t.keys - Set(ps)
  {
    hide Set, Ups;
    SetEmpty<string>();
    if ps != [] {
      var rest, p := ps[..|ps| - 1], ps[|ps| - 1];
      SetSplit(ps);
      DropAllIs(t, rest);
      UpsOfUpdate(DropAll(t, rest).readyMap, p, false);
      UpsAreKeys(t.readyMap, p);
      assert t.keys - Set(ps) == (t.keys - Set(rest)) - {p};
    }
  }

  lemma DropSnoc(t: Table, ps: seq<string>, p: string)
    ensures DropAll(t, ps + [p]) == DropOne(DropAll(t, ps), p)
  {
    assert (ps + [p])[..|ps|] == ps;
  }

  lemma UpsAreKeys(m: map<string, bool>, p: string)
    ensures p in Ups(m) ==> p in m
  {
  }

  lemma GrowCount<T>(s: set<T>, up: set<T>, p: T)
    ensures |(s + {p}) - up| == |s - up| + if p in up + s then 0 else 1
  {
    if p in up + s {
      assert (s + {p}) - up == s - up;
    } else {
      assert (s + {p}) - up == (s - up) + {p};
    }
  }

  lemma UnionSnoc<T>(a: set<T>, b: set<T>, p: T)
    ensures a + (b + {p}) == (a + b) + {p}
  {
  }

  lemma MoveOver<T>(a: set<T>, b: set<T>, p: T)
    requires p in b && a !! b
    ensures (a + {p}) + (b - {p}) == a + b && (a + {p}) !! (b - {p})
  {
  }

  /** u is t with the peers of s brought up. */
  ghost predicate BroughtUp(t: Table, u: Table, s: set<string>) {
    && u.readyMap.Keys == t.readyMap.Keys + s
    && Ups(u.readyMap) == Ups(t.readyMap) + s
    && u.readyCount == t.readyCount + |s - Ups(t.readyMap)|
    && u.ready == t.ready && u.keys == t.keys
  }

  lemma BringOneUp(t: Table, u: Table, s: set<string>, p: string)
    requires BroughtUp(t, u, s)
    ensures BroughtUp(t, RegisterOne(u, p), s + {p})
  {
    hide Ups;
    UpsOfUpdate(u.readyMap, p, true);
    UpsAreKeys(u.readyMap, p);
    GrowCount(s, Ups(t.readyMap), p);
    UnionSnoc(Ups(t.readyMap), s, p);
    UnionSnoc(t.readyMap.Keys, s, p);
    assert RegisterOne(u, p).readyMap.Keys == u.readyMap.Keys + {p};
  }

  lemma {:induction false} RegisterAllIs(t: Table, ps: seq<string>)
    ensures BroughtUp(t, RegisterAll(t, ps), Set(ps))
  {
    if ps == [] {
      SetEmpty<string>();
    } else {
      var rest, p := ps[..|ps| - 1], ps[|ps| - 1];
      RegisterAllIs(t, rest);
      BringOneUp(t, RegisterAll(t, rest), Set(rest), p);
      SetSplit(ps);
    }
  }

  lemma LostIs(t: Table, peerCount: nat, listing: seq<string>)
    ensures Lost(t, peerCount, listing) <= Ups(t.readyMap) && Lost(t, peerCount, listing) !! Set(listing)
  {
    hide Set, Ups;
  }

  lemma MinusKept<T>(l: set<T>, up: set<T>, lost: set<T>)
    requires lost !! l
    ensures l - (up - lost) == l - up
  {
  }

  /** Dropping in any order and then registering, as the loops do, has the effect of a tick. */
  lemma TickFolds(t: Table, peerCount: nat, listing: seq<string>, lost: seq<string>)
    requires Distinct(lost) && Set(lost) == Lost(t, peerCount, listing)
    ensures var cleared := if |listing| != peerCount then t.(ready := false) else t;
            TickEffect(t, RegisterAll(DropAll(cleared, lost), listing).(ready := |listing| == peerCount), peerCount, listing)
  {
    hide Set, Ups, Lost, DropAll, RegisterAll;
    var cleared := if |listing| != peerCount then t.(ready := false) else t;
    LostIs(t, peerCount, listing);
    DropAllIs(cleared, lost);
    RegisterAllIs(DropAll(cleared, lost), listing);
    MinusKept(Set(listing), Ups(t.readyMap), Set(lost));
  }

  lemma MapByUps(m: map<string, bool>, n: map<string, bool>)
    requires m.Keys == n.Keys && Ups(m) == Ups(n)
    ensures m == n
  {
    forall p | p in m
      ensures p in n && m[p] == n[p]
    {
      assert p in m.Keys;
      assert m[p] <==> p in Ups(m);
      assert n[p] <==> p in Ups(n);
    }
  }

  /** The effect determines the table. */
  lemma TickEffectUnique(t: Table, u: Table, v: Table, peerCount: nat, listing: seq<string>)
    requires TickEffect(t, u, peerCount, listing) && TickEffect(t, v, peerCount, listing)
    ensures u == v
  {
    hide Set, Ups, Lost;
    MapByUps(u.readyMap, v.readyMap);
  }

  lemma UpCount<T>(up: set<T>, lost: set<T>, l: set<T>)
    requires lost <= up && lost !! l
    ensures |(up - lost) + l| == |up| - |lost| + |l - up|
  {
    assert (up - lost) + l == (up - lost) + (l - up);
    assert (up - lost) + lost == up;
  }

  /** After every tick readyCount is one more than the number of peers that are up, whatever the listing holds. */
  lemma TickKeepsCount(t: Table, u: Table, peerCount: nat, listing: seq<string>)
    requires t.readyCount == 1 + |Ups(t.readyMap)| && TickEffect(t, u, peerCount, listing)
    ensures u.readyCount == 1 + |Ups(u.readyMap)|
  {
    hide Set, Ups, Lost;
    LostIs(t, peerCount, listing);
    UpCount(Ups(t.readyMap), Lost(t, peerCount, listing), Set(listing));
  }

  /** A duplicate-free listing of registered peers becomes the set of peers that are up, and the node is ready
      exactly when it is the whole cluster. */
  lemma TickMatchesListing(t: Table, u: Table, peers: seq<string>, listing: seq<string>)
    requires Distinct(peers) && Distinct(listing) && Set(listing) <= Set(peers) && Ups(t.readyMap) <= Set(peers)
    requires TickEffect(t, u, |peers|, listing)
    ensures Ups(u.readyMap) == Set(listing)
    ensures u.ready <==> Set(listing) == Set(peers)
    ensures u.keys == t.keys - (if u.ready then {} else Ups(t.readyMap) - Set(listing))
  {
    hide Set, Ups, Distinct;
    DistinctSize(peers);
    DistinctSize(listing);
    SubsetSize(Set(listing), Set(peers));
    ListedAreUp(Ups(t.readyMap), Set(listing), Set(peers));
  }

  lemma ListedAreUp<T>(up: set<T>, l: set<T>, all: set<T>)
    requires up <= all && l <= all
    ensures (up - (up - l)) + l == l
    ensures l == all ==> up + l == l && (up - {}) + l == l
  {
  }

  // ---------- listings and health data ----------

  predicate Blank(c: char) {
    '\t' <= c <= '\r' || c == ' '
  }

  function Token(s: string): string {
    if s == "" || Blank(s[0]) then "" else [s[0]] + Token(s[1..])
  }

  function SkipBlanks(s: string): string {
    if s != "" && s[0] in " \t" then SkipBlanks(s[1..]) else s
  }

  /** Sscanf with "ready/%s": the first word after the prefix, or "" when the scan fails. */
  function ScanReadyKey(key: string): string {
    if "ready/" <= key then Token(SkipBlanks(key[6..])) else ""
  }

  function ReadyListing(nodeID: string, kvKeys: seq<string>): seq<string> {
    if kvKeys == [] then []
    else
      var p := ScanReadyKey(kvKeys[|kvKeys| - 1]);
      ReadyListing(nodeID, kvKeys[..|kvKeys| - 1]) + if p == nodeID then [] else [p]
  }

  lemma {:induction false} TokenOfWord(s: string)
    requires forall c :: c in s ==> !Blank(c)
    ensures Token(s) == s && SkipBlanks(s) == s
  {
    if s != "" {
      assert s[0] in s;
      TokenOfWord(s[1..]);
    }
  }

  lemma ScanOfId(id: string)
    requires forall c :: c in id ==> !Blank(c)
    ensures ScanReadyKey("ready/" + id) == id
  {
    TokenOfWord(id);
    var key := "ready/" + id;
    assert "ready/" <= key && key[6..] == id;
  }

  /** The keys that Ready puts. */
  function ReadyKeys(ids: seq<string>): (keys: seq<string>)
    ensures |keys| == |ids|
  {
    if ids == [] then [] else ReadyKeys(ids[..|ids| - 1]) + ["ready/" + ids[|ids| - 1]]
  }

  /** Keys put by the nodes are read back: distinct blank-free ids give a duplicate-free listing of exactly the
      other ids. */
  lemma {:induction false} ListingOfIds(nodeID: string, ids: seq<string>)
    requires Distinct(ids) && forall id, c :: id in ids && c in id ==> !Blank(c)
    ensures var l := ReadyListing(nodeID, ReadyKeys(ids)); Distinct(l) && Set(l) == Set(ids) - {nodeID}
  {
    hide Set, Distinct, ScanReadyKey, Blank;
    SetEmpty<string>();
    if ids != [] {
      var rest, id := ids[..|ids| - 1], ids[|ids| - 1];
      SetSplit(ids);
      ListingOfIds(nodeID, rest);
      ScanOfId(id);
      var l := ReadyListing(nodeID, ReadyKeys(rest));
      assert ReadyKeys(ids)[..|ids| - 1] == ReadyKeys(rest);
      SetSnoc(l, id);
      assert id == nodeID ==> l == ReadyListing(nodeID, ReadyKeys(ids));
    }
  }

  function HealthData(nodeID: string, ready: bool): string {
    nodeID + [','] + if ready then "true" else "false"
  }

  /** strconv.ParseBool. */
  function ParseBool(s: string): Option<bool> {
    if s == "1" || s == "t" || s == "T" || s == "TRUE" || s == "true" || s == "True" then Some(true)
    else if s == "0" || s == "f" || s == "F" || s == "FALSE" || s == "false" || s == "False" then Some(false)
    else None
  }

  function ParseHealthData(s: string): Option<(string, bool)> {
    var parts := SplitN(s, ',', 2);
    if |parts| != 2 then None
    else
      var b := ParseBool(parts[1]);
      if b.None? then None else Some((parts[0], b.value))
  }

  /** Health data is understood exactly when the node id has no comma. */
  lemma HealthDataRoundTrip(nodeID: string, ready: bool)
    ensures ParseHealthData(HealthData(nodeID, ready)) == Some((nodeID, ready)) <==> ',' !in nodeID
  {
    var v := if ready then "true" else "false";
    var s := HealthData(nodeID, ready);
    assert s[|nodeID|] == ',';
    assert ParseBool("true") == Some(true) && ParseBool("false") == Some(false);
    hide ParseBool;
    if ',' !in nodeID {
      SplitHead(nodeID, ',', v, 2);
      assert SplitN(s, ',', 2) == [nodeID, v];
    } else {
      assert SplitN(s, ',', 2)[0] == Before(s, ',');
    }
  }

  /** What health data is understood as: a node id without a comma, a comma, and one of Go's twelve spellings of a truth
      value. */
  lemma HealthDataIff(s: string, id: string, ready: bool)
    ensures ParseHealthData(s) == Some((id, ready)) <==>
            ',' !in id && exists v :: s == id + [','] + v && v in (if ready then TrueWords else FalseWords)
  {
    ParseParts(s);
    if ParseHealthData(s) == Some((id, ready)) {
      var v := s[|id| + 1..];
      ParseBoolIff(v, ready);
      hide ParseBool, ParseHealthData;
      assert s == id + [','] + v;
    }
    if v :| ',' !in id && s == id + [','] + v && v in (if ready then TrueWords else FalseWords) {
      ParseBoolIff(v, ready);
      hide ParseBool, ParseHealthData;
      BeforeOf(id, ',', v);
      assert s[|id|] == ',' && s[|id| + 1..] == v;
    }
  }

  lemma ParseParts(s: string)
    ensures ParseHealthData(s)
         == if ',' !in s then None
            else
              var id, v := Before(s, ','), s[|Before(s, ',')| + 1..];
              if ParseBool(v).Some? then Some((id, ParseBool(v).value)) else None
  {
    hide ParseBool, Before;
    if ',' in s {
      assert SplitN(s[|Before(s, ',')| + 1..], ',', 1) == [s[|Before(s, ',')| + 1..]];
    }
  }

  lemma ParseBoolIff(v: string, b: bool)
    ensures ParseBool(v) == Some(b) <==> v in (if b then TrueWords else FalseWords)
  {
    assert "0" !in TrueWords && "f" !in TrueWords && "F" !in TrueWords && "FALSE" !in TrueWords && "false" !in TrueWords && "False" !in TrueWords;
  }

  const TrueWords := {"1", "t", "T", "TRUE", "true", "True"}
  const FalseWords := {"0", "f", "F", "FALSE", "false", "False"}

  // ---------- the registry object ----------

  class Registry {
    const nodeID: string
    const peerNodeIDs: seq<string>
    var readyMap: map<string, bool>
    var readyCount: int
    var ready: bool
    var symmetricKeys: map<string, SymmetricKey>

    function State(): Table
      reads this
    {
      Table(readyMap, readyCount, ready, symmetricKeys)
    }

    /** A fresh registry; the node itself is filtered out of the registered ids. */
    constructor (nodeID: string, peerIDs: seq<string>)
      ensures this.nodeID == nodeID
      ensures Set(peerNodeIDs) == Set(peerIDs) - {nodeID} && (Distinct(peerIDs) ==> Distinct(peerNodeIDs))
      ensures State() == Table(map[], 1, false, map[])
    {
      var others: seq<string> := [];
      for i := 0 to |peerIDs|
        invariant Set(others) == Set(peerIDs[..i]) - {nodeID}
        invariant Distinct(peerIDs) ==> Distinct(others)
      {
        assert peerIDs[..i + 1] == peerIDs[..i] + [peerIDs[i]];
        assert forall x :: x in others ==> x in Set(others);
        if peerIDs[i] != nodeID {
          assert Set(others + [peerIDs[i]]) == Set(others) + {peerIDs[i]};
          others := others + [peerIDs[i]];
        }
      }
      assert peerIDs[..|peerIDs|] == peerIDs;
      this.nodeID, this.peerNodeIDs := nodeID, others;
      readyMap, readyCount, ready, symmetricKeys := map[], 1, false, map[];
    }

    method GetReadyPeersFromKVStore(kvKeys: seq<string>) returns (peers: seq<string>)
      ensures peers == ReadyListing(nodeID, kvKeys)
    {
      peers := [];
      for i := 0 to |kvKeys|
        invariant peers == ReadyListing(nodeID, kvKeys[..i])
      {
        assert kvKeys[..i + 1][..i] == kvKeys[..i];
        var peerNodeID := ScanReadyKey(kvKeys[i]);
        if peerNodeID == nodeID {
          continue;
        }
        peers := peers + [peerNodeID];
      }
      assert kvKeys[..|kvKeys|] == kvKeys;
    }

    method RegisterReadyPairs(peerIDs: seq<string>)
      modifies this
      ensures State() == RegisterAll(old(State()), peerIDs).(ready := old(ready) || |peerIDs| == |peerNodeIDs|)
    {
      for i := 0 to |peerIDs|
        invariant State() == RegisterAll(old(State()), peerIDs[..i])
        invariant ready == old(ready)
      {
        assert peerIDs[..i + 1][..i] == peerIDs[..i];
        var peerID := peerIDs[i];
        if peerID !in readyMap {
          readyCount := readyCount + 1;
        } else if !readyMap[peerID] {
          readyCount := readyCount + 1;
        }
        readyMap := readyMap[peerID := true];
      }
      assert peerIDs[..|peerIDs|] == peerIDs;
      if |peerIDs| == |peerNodeIDs| && !ready {
        ready := true;
      }
    }

    /** One round of the WatchPeersReady loop; the map is walked in an arbitrary order. */
    method WatchTick(kvKeys: seq<string>)
      modifies this
      ensures TickEffect(old(State()), State(), |peerNodeIDs|, ReadyListing(nodeID, kvKeys))
    {
      hide Set, Ups, RegisterAll, ReadyListing, TickEffect;
      var newReadyPeerIDs := GetReadyPeersFromKVStore(kvKeys);
      ghost var lost: seq<string> := [];
      if |newReadyPeerIDs| != |peerNodeIDs| {
        ready := false;
        lost := DropMissing(newReadyPeerIDs);
      }
      SetEmpty<string>();
      TickFolds(old(State()), |peerNodeIDs|, newReadyPeerIDs, lost);
      RegisterAllIs(State(), newReadyPeerIDs);
      RegisterReadyPairs(newReadyPeerIDs);
    }

    /** Takes every peer down that is up but not listed; returns the order in which the map walk met them. */
    method DropMissing(listing: seq<string>) returns (ghost lost: seq<string>)
      modifies this
      ensures Distinct(lost) && Set(lost) == Ups(old(readyMap)) - Set(listing)
      ensures State() == DropAll(old(State()), lost) && ready == old(ready)
    {
      hide Set, Ups, Distinct;
      SetEmpty<string>();
      lost := [];
      var pending := Ups(readyMap) - Set(listing);
      ghost var all := pending;
      while pending != {}
        invariant Distinct(lost) && Set(lost) + pending == all && Set(lost) !! pending
        invariant State() == DropAll(old(State()), lost) && ready == old(ready)
        decreases |pending|
      {
        var peerID :| peerID in pending;
        DropSnoc(old(State()), lost, peerID);
        readyMap := readyMap[peerID := false];
        readyCount := readyCount - 1;
        symmetricKeys := symmetricKeys - {peerID};
        MoveOver(Set(lost), pending, peerID);
        SetSnoc(lost, peerID);
        pending := pending - {peerID};
        lost := lost + [peerID];
      }
    }

    /** Every peer that is up once, and the node itself last. */
    method GetReadyPeersIncludeSelf() returns (peerIDs: seq<string>)
      ensures Set(peerIDs) == Ups(readyMap) + {nodeID} && peerIDs[|peerIDs| - 1..] == [nodeID]
      ensures nodeID !in Ups(readyMap) ==> Distinct(peerIDs)
      ensures readyCount == 1 + |Ups(readyMap)| ==> |peerIDs| == readyCount
    {
      hide Set, Ups, Distinct;
      SetEmpty<string>();
      peerIDs := [];
      var pending := Ups(readyMap);
      ghost var all := pending;
      while pending != {}
        invariant Set(peerIDs) + pending == all && Set(peerIDs) !! pending && Distinct(peerIDs)
        invariant |peerIDs| + |pending| == |all|
        decreases |pending|
      {
        var peerID :| peerID in pending;
        MoveOver(Set(peerIDs), pending, peerID);
        SetSnoc(peerIDs, peerID);
        peerIDs := peerIDs + [peerID];
        pending := pending - {peerID};
      }
      SetSnoc(peerIDs, nodeID);
      peerIDs := peerIDs + [nodeID];
    }
  }
}
