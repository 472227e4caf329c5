/** pkg/mpc/core/party_id.go: party keys are the big-endian integers of "nodeID" or "nodeID:version". */
module PartyId {
  import opened GoStrings

  const BACKWARD_COMPATIBLE_VERSION := 0
  const DEFAULT_VERSION := 1

  /** The id is a fresh random UUID; only the key takes part in ordering and routing. */
  datatype PartyID = PartyID(id: string, moniker: string, key: nat)

  /** big.Int.SetBytes: most significant byte first. */
  function SetBytes(s: GoString): nat {
    if s == "" then 0 else SetBytes(s[..|s| - 1]) * 256 + s[|s| - 1] as int
  }

  /** big.Int.Bytes: the shortest big-endian form. */
  function BigBytes(n: nat): GoString {
    if n == 0 then "" else BigBytes(n / 256) + [(n % 256) as char]
  }

  function StripZeros(s: GoString): (r: GoString)
    ensures |r| <= |s| && (|r| == |s| ==> r == s) && forall c :: c in r ==> c in s
    ensures r == "" || r[0] != '\0'
  {
    if s != "" && s[0] == '\0' then StripZeros(s[1..]) else s
  }

  function CreatePartyID(nodeID: GoString, purpose: string, version: int, uuid: string): PartyID {
    PartyID(uuid, purpose, PartyKey(nodeID, version))
  }

  /** The version suffix; version 0 has none. */
  function Suffix(version: int): (t: GoString)
    ensures t == "" <==> version == BACKWARD_COMPATIBLE_VERSION
    ensures t != "" ==> t[0] == ':' && t[1..] == Itoa(version)
  {
    if version == BACKWARD_COMPATIBLE_VERSION then "" else ":" + Itoa(version)
  }

  function KeyBytes(nodeID: GoString, version: int): GoString {
    nodeID + Suffix(version)
  }

  function PartyKey(nodeID: GoString, version: int): nat {
    SetBytes(KeyBytes(nodeID, version))
  }

  /** PartyIDToNodeID; the nil party is a None. */
  function PartyIDToNodeID(party: Option<PartyID>): string {
    match party
    case None => ""
    case Some(p) => NodeOf(p.key)
  }

  function NodeOf(key: nat): string {
    TrimSpace(Before(BigBytes(key), ':'))
  }

  /** The identity store's own decoder (pkg/identity/identity.go) does not trim. */
  function IdentityNodeOf(key: nat): string {
    Before(BigBytes(key), ':')
  }

  /** ComparePartyIDs compares the byte forms of two keys. */
  predicate ComparePartyIDs(x: PartyID, y: PartyID) {
    BigBytes(x.key) == BigBytes(y.key)
  }

  method PartyIDsToNodeIDs(pids: seq<PartyID>) returns (out: seq<string>)
    ensures |out| == |pids| && forall i :: 0 <= i < |pids| ==> out[i] == NodeOf(pids[i].key)
  {
    out := [];
    for i := 0 to |pids|
      invariant |out| == i && forall j :: 0 <= j < i ==> out[j] == NodeOf(pids[j].key)
    {
      out := out + [PartyIDToNodeID(Some(pids[i]))];
    }
  }

  /** The node ids that survive the codec. */
  predicate Plain(id: GoString) {
    ':' !in id && (id == "" || id[0] != '\0') && TrimSpace(id) == id
  }

  // ---------- the big-endian codec ----------

  lemma {:induction false} SetBytesStrip(s: GoString)
    ensures SetBytes(StripZeros(s)) == SetBytes(s)
    decreases |s|
  {
    if s != "" && s[0] == '\0' {
      SetBytesStrip(s[1..]);
      SetBytesTail(s);
    }
  }

  lemma {:induction false} SetBytesTail(s: GoString)
    requires s != "" && s[0] == '\0'
    ensures SetBytes(s[1..]) == SetBytes(s)
  {
    if |s| == 1 {
      assert s[..0] == "";
    } else {
      SetBytesTail(s[..|s| - 1]);
      assert s[..|s| - 1][1..] == s[1..][..|s| - 2];
    }
  }

  lemma {:induction false} SetBytesPositive(s: GoString)
    requires s != "" && s[0] != '\0'
    ensures SetBytes(s) > 0
  {
    if |s| > 1 {
      SetBytesPositive(s[..|s| - 1]);
    }
  }

  lemma {:induction false} BigBytesOfStripped(s: GoString)
    requires s == "" || s[0] != '\0'
    ensures BigBytes(SetBytes(s)) == s
  {
    if s != "" {
      BigBytesOfStripped(s[..|s| - 1]);
      SetBytesPositive(s);
      var hi, lo := SetBytes(s[..|s| - 1]), s[|s| - 1] as int;
      assert (hi * 256 + lo) / 256 == hi && (hi * 256 + lo) % 256 == lo;
      assert s == s[..|s| - 1] + [s[|s| - 1]];
    }
  }

  /** Bytes inverts SetBytes up to leading zero bytes. */
  lemma BigBytesOfSetBytes(s: GoString)
    ensures BigBytes(SetBytes(s)) == StripZeros(s)
  {
    SetBytesStrip(s);
    BigBytesOfStripped(StripZeros(s));
  }

  /** SetBytes inverts Bytes: the byte form determines the key, so ComparePartyIDs is equality of keys. */
  lemma {:induction false} SetBytesOfBigBytes(n: nat)
    ensures SetBytes(BigBytes(n)) == n
  {
    if n != 0 {
      SetBytesOfBigBytes(n / 256);
      assert BigBytes(n)[..|BigBytes(n)| - 1] == BigBytes(n / 256);
    }
  }

  lemma CompareIsKeyEquality(x: PartyID, y: PartyID)
    ensures ComparePartyIDs(x, y) <==> x.key == y.key
  {
    SetBytesOfBigBytes(x.key);
    SetBytesOfBigBytes(y.key);
  }

  // ---------- the party-key codec ----------

  lemma {:induction false} StripAppend(a: GoString, t: GoString)
    requires t == "" || t[0] != '\0'
    ensures StripZeros(a + t) == StripZeros(a) + t
    decreases |a|
  {
    if a == "" {
      assert a + t == t;
    } else if a[0] == '\0' {
      StripAppend(a[1..], t);
      assert (a + t)[1..] == a[1..] + t;
    }
  }

  lemma StripKeyBytes(id: GoString, version: int)
    requires ':' !in id
    ensures Before(StripZeros(KeyBytes(id, version)), ':') == StripZeros(id)
  {
    StripAppend(id, Suffix(version));
    BeforeTail(StripZeros(id), Suffix(version), ':');
  }

  lemma DecodedKey(id: GoString, version: int)
    ensures ':' !in IdentityNodeOf(PartyKey(id, version))
    ensures ':' !in id ==> IdentityNodeOf(PartyKey(id, version)) == StripZeros(id)
  {
    BigBytesOfSetBytes(KeyBytes(id, version));
    if ':' !in id {
      StripKeyBytes(id, version);
    }
  }

  lemma TrimOnto(z: string, id: string)
    requires |z| <= |id|
    ensures TrimSpace(z) == id <==> z == id && TrimSpace(id) == id
  {
  }

  lemma DecodedKeyWhole(id: GoString, version: int)
    ensures IdentityNodeOf(PartyKey(id, version)) == id <==> ':' !in id && (id == "" || id[0] != '\0')
    ensures ':' !in id ==> |IdentityNodeOf(PartyKey(id, version))| <= |id|
  {
    DecodedKey(id, version);
  }

  /** The codec round trip holds for exactly the plain ids, at every version. */
  lemma PartyKeyRoundTrip(id: GoString, version: int)
    ensures NodeOf(PartyKey(id, version)) == id <==> Plain(id)
  {
    var z := IdentityNodeOf(PartyKey(id, version));
    assert ':' !in z by { DecodedKey(id, version); }
    DecodedKeyWhole(id, version);
    if ':' !in id {
      TrimOnto(z, id);
    }
  }

  /** So does the party id made from a node; there is no node of a missing party. */
  lemma PartyIDRoundTrip(id: GoString, purpose: string, version: int, uuid: string)
    ensures PartyIDToNodeID(Some(CreatePartyID(id, purpose, version, uuid))) == id <==> Plain(id)
    ensures PartyIDToNodeID(None) == ""
    ensures var p := CreatePartyID(id, purpose, version, uuid); p.id == uuid && p.moniker == purpose
  {
    PartyKeyRoundTrip(id, version);
  }

  /** On plain ids both decoders of the code base return the id. */
  lemma DecodersAgree(id: GoString, version: int)
    requires Plain(id)
    ensures IdentityNodeOf(PartyKey(id, version)) == NodeOf(PartyKey(id, version)) == id
  {
    DecodedKey(id, version);
    PartyKeyRoundTrip(id, version);
  }

  /** Node and version are both recoverable from the key, the unsuffixed version 0 included. */
  lemma PartyKeyInjective(a: GoString, v: int, b: GoString, w: int)
    requires ':' !in a && ':' !in b
    requires (a == "" || a[0] != '\0') && (b == "" || b[0] != '\0')
    requires PartyKey(a, v) == PartyKey(b, w)
    ensures a == b && v == w
  {
    DecodedKey(a, v);
    DecodedKey(b, w);
    SuffixOfKey(a, v);
    SuffixOfKey(b, w);
    if v != BACKWARD_COMPATIBLE_VERSION {
      ItoaInjective(v, w);
    }
  }

  lemma SuffixOfKey(a: GoString, v: int)
    requires ':' !in a && (a == "" || a[0] != '\0')
    ensures |a| <= |BigBytes(PartyKey(a, v))| && BigBytes(PartyKey(a, v))[|a|..] == Suffix(v)
  {
    BigBytesOfSetBytes(KeyBytes(a, v));
    StripAppend(a, Suffix(v));
  }

  /** For ids of any kind: leading zero bytes are lost, and beyond that two parties share a key exactly when one of
      them is unversioned and its id reads like the versioned form of the other's. */
  lemma PartyKeySharedIff(a: GoString, v: int, b: GoString, w: int)
    ensures var x, y := StripZeros(a), StripZeros(b);
            PartyKey(a, v) == PartyKey(b, w)
            <==> (x == y && v == w) || (v == 0 && w != 0 && x == y + [':'] + Itoa(w)) || (w == 0 && v != 0 && y == x + [':'] + Itoa(v))
  {
    var x, y := StripZeros(a), StripZeros(b);
    KeyByStripped(a, v, b, w);
    SuffixForm(v);
    SuffixForm(w);
    hide SetBytes, StripZeros, Suffix, PartyKey, Itoa;
    assert x + "" == x && y + "" == y;
    assert v != 0 ==> x + Suffix(v) == x + [':'] + Itoa(v);
    assert w != 0 ==> y + Suffix(w) == y + [':'] + Itoa(w);
    if v != 0 && w != 0 && x + Suffix(v) == y + Suffix(w) {
      LastCutInjective(x, Itoa(v), ':', y, Itoa(w));
      ItoaInjective(v, w);
    }
  }

  lemma SuffixForm(v: int)
    ensures Suffix(v) == (if v == 0 then "" else [':'] + Itoa(v)) && ':' !in Itoa(v)
  {
  }

  lemma KeyByStripped(a: GoString, v: int, b: GoString, w: int)
    ensures PartyKey(a, v) == PartyKey(b, w) <==> StripZeros(a) + Suffix(v) == StripZeros(b) + Suffix(w)
  {
    StripAppend(a, Suffix(v));
    StripAppend(b, Suffix(w));
    hide Suffix, StripZeros, SetBytes, BigBytes;
    BigBytesOfSetBytes(KeyBytes(a, v));
    BigBytesOfSetBytes(KeyBytes(b, w));
    SetBytesStrip(KeyBytes(a, v));
    SetBytesStrip(KeyBytes(b, w));
  }

  /** Without the bar on ':' two nodes can share a key. */
  lemma PartyKeyCollision()
    ensures PartyKey("a:1", 0) == PartyKey("a", 1)
  {
    assert Suffix(0) == "" && Suffix(1) == ":" + Decimal(1) && Decimal(1) == "1";
    assert KeyBytes("a:1", 0) == KeyBytes("a", 1);
  }

  /** Keys of equal length compare as big-endian strings. */
  lemma {:induction false} SetBytesOrder(a: GoString, b: GoString)
    requires |a| == |b|
    ensures SetBytes(a) < SetBytes(b) <==> Less(a, b)
    ensures SetBytes(a) == SetBytes(b) <==> a == b
  {
    if a != "" {
      var a', b' := a[..|a| - 1], b[..|b| - 1];
      SetBytesOrder(a', b');
      assert a == a' + [a[|a| - 1]] && b == b' + [b[|b| - 1]];
      if a' == b' {
        LessCommonHead(a', [a[|a| - 1]], [b[|b| - 1]]);
      } else {
        LessAnyTails(a', b', [a[|a| - 1]], [b[|b| - 1]]);
      }
    }
  }

  /** For ids of one length and one version, the numeric order of keys is the order of the ids. */
  lemma PartyKeyOrder(a: GoString, b: GoString, version: int)
    requires |a| == |b|
    ensures PartyKey(a, version) < PartyKey(b, version) <==> Less(a, b)
  {
    SetBytesOrder(KeyBytes(a, version), KeyBytes(b, version));
    LessCommonTail(a, b, Suffix(version));
  }
}
