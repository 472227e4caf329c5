/** Where shares and key info live: the storage keys of keygen, resharing and signing sessions, and the two stores as
    the sessions write and read them. */
module Shares {
  import opened GoStrings
  import opened Node
  import opened Topics

  /** A saved share: the ordered party keys it was generated under, and the holder's own. */
  datatype Share = Share(curve: Curve, wallet: string, version: int, parties: seq<nat>, self: nat)

  function WalletIDWithVersion(wallet: string, version: int): string {
    if version > 0 then wallet + "_v" + Decimal(version) else wallet
  }

  function ComposeKey(c: Curve, id: string): string {
    CurveName(c) + ":" + id
  }

  function StorageKey(c: Curve, wallet: string, version: int): string {
    ComposeKey(c, WalletIDWithVersion(wallet, version))
  }

  lemma ComposeKeyInjective(c: Curve, id: string, d: Curve, id': string)
    ensures ComposeKey(c, id) == ComposeKey(d, id') <==> c == d && id == id'
  {
    if ComposeKey(c, id) == ComposeKey(d, id') {
      assert ComposeKey(c, id)[1] == CurveName(c)[1] && ComposeKey(d, id')[1] == CurveName(d)[1];
      assert ComposeKey(c, id)[6..] == id && ComposeKey(d, id')[6..] == id';
    }
  }

  lemma VersionedInjective(w: string, v: int, w': string, v': int)
    requires v > 0 && v' > 0 && WalletIDWithVersion(w, v) == WalletIDWithVersion(w', v')
    ensures w == w' && v == v'
  {
    var a, b := w + "_", w' + "_";
    assert w + "_v" + Decimal(v) == a + ['v'] + Decimal(v);
    assert w' + "_v" + Decimal(v') == b + ['v'] + Decimal(v');
    LastCutInjective(a, Decimal(v), 'v', b, Decimal(v'));
    assert a[..|w|] == w && b[..|w'|] == w';
    DecimalInjective(v, v');
  }

  /** The storage keys, spelled out. */
  lemma StorageKeyForms(w: string, v: int)
    ensures StorageKey(Ecdsa, w, v) == "ecdsa:" + (if v > 0 then w + "_v" + Decimal(v) else w)
    ensures StorageKey(Eddsa, w, v) == "eddsa:" + (if v > 0 then w + "_v" + Decimal(v) else w)
  {
  }

  /** Two shares are stored under one key exactly when they are the same share, or of one wallet and both without a
      positive version, or one has no positive version and its wallet is named like a versioned form of the other. */
  lemma StorageKeyInjectiveIff(c: Curve, w: string, v: int, d: Curve, w': string, v': int)
    ensures StorageKey(c, w, v) == StorageKey(d, w', v')
            <==>
            c == d && ((w == w' && (v == v' || (v <= 0 && v' <= 0)))
                       || (v <= 0 < v' && w == WalletIDWithVersion(w', v'))
                       || (v' <= 0 < v && w' == WalletIDWithVersion(w, v)))
  {
    hide ComposeKey;
    ComposeKeyInjective(c, WalletIDWithVersion(w, v), d, WalletIDWithVersion(w', v'));
    if v > 0 && v' > 0 && WalletIDWithVersion(w, v) == WalletIDWithVersion(w', v') {
      VersionedInjective(w, v, w', v');
    }
  }

  /** Keygen and resharing write positive versions only: no write touches the share of another wallet, curve or
      version, nor the cached pre-parameters. */
  lemma PositiveVersionsApart(c: Curve, w: string, v: int, d: Curve, w': string, v': int, i: nat)
    requires v > 0 && v' > 0
    ensures StorageKey(c, w, v) == StorageKey(d, w', v') <==> c == d && w == w' && v == v'
    ensures StorageKey(c, w, v) != "pre_params_" + Decimal(i)
  {
    StorageKeyInjectiveIff(c, w, v, d, w', v');
    assert StorageKey(c, w, v)[0] == 'e' && ("pre_params_" + Decimal(i))[0] == 'p';
  }

  /** A legacy wallet may carry a name that a versioned key of another wallet also has. */
  lemma LegacyCollision()
    ensures StorageKey(Ecdsa, "x_v1", 0) == StorageKey(Ecdsa, "x", 1)
  {
    assert Decimal(1) == "1";
    assert "x" + "_v" + "1" == "x_v1";
  }

  ghost predicate Unsuffixed(w: string) {
    forall y: string, v: nat :: v > 0 ==> w != WalletIDWithVersion(y, v)
  }

  // ---------- the stores and the last steps of the sessions ----------

  class Store<V> {
    var entries: map<string, V>

    /** The outcome of the underlying client call is an input. */
    method Put(key: string, value: V, ok: bool)
      modifies this
      ensures entries == if ok then old(entries)[key := value] else old(entries)
    {
      if ok {
        entries := entries[key := value];
      }
    }

    method Get(key: string) returns (r: Option<V>)
      ensures r == if key in entries then Some(entries[key]) else None
    {
      r := if key in entries then Some(entries[key]) else None;
    }
  }

  datatype Outcome = Published | PutFailed | SaveFailed

  /** The parts of a PartySession that take part in storing and loading a share. */
  class PartySession {
    const walletID: string
    const curve: Curve
    const version: int
    const participants: seq<GoString>
    const threshold: int
    const kvstore: Store<Share>
    const keyinfoStore: Store<KeyInfo>
    var published: bool

    constructor (walletID: string, curve: Curve, version: int, participants: seq<GoString>, threshold: int,
                 kvstore: Store<Share>, keyinfoStore: Store<KeyInfo>)
      ensures this.walletID == walletID && this.curve == curve && this.version == version && this.participants == participants
      ensures this.threshold == threshold && this.kvstore == kvstore && this.keyinfoStore == keyinfoStore && !published
    {
      this.walletID, this.curve, this.version, this.participants := walletID, curve, version, participants;
      this.threshold, this.kvstore, this.keyinfoStore, published := threshold, kvstore, keyinfoStore, false;
    }

    /** The end of GenerateKey (newVersion is the session's) and of Reshare in a new member (one more): the share is
        stored first, and key info is published only after that succeeded. */
    method StoreThenPublish(share: Share, newVersion: int, putOk: bool, saveOk: bool) returns (r: Outcome)
      modifies this, kvstore, keyinfoStore
      ensures kvstore.entries
           == if putOk then old(kvstore.entries)[StorageKey(curve, walletID, newVersion) := share] else old(kvstore.entries)
      ensures keyinfoStore.entries
           == if putOk && saveOk
              then old(keyinfoStore.entries)[ComposeKey(curve, walletID) := KeyInfo(participants, threshold, newVersion)]
              else old(keyinfoStore.entries)
      ensures published == (old(published) || r.Published?)
      ensures r == if !putOk then PutFailed else if !saveOk then SaveFailed else Published
    {
      kvstore.Put(ComposeKey(curve, WalletIDWithVersion(walletID, newVersion)), share, putOk);
      if !putOk {
        return PutFailed;
      }
      keyinfoStore.Put(ComposeKey(curve, walletID), KeyInfo(participants, threshold, newVersion), saveOk);
      if !saveOk {
        return SaveFailed;
      }
      published := true;
      return Published;
    }

    /** LoadOldShareDataGeneric: a positive version is looked up under its versioned key, 0 under the bare one; a
        negative version has no key at all, and decoding nothing fails. */
    method LoadOldShare(walletID: string, version: int) returns (r: Option<Share>)
      ensures r == if version < 0 then None else LoadShare(kvstore.entries, curve, walletID, version)
    {
      r := None;
      if version > 0 {
        r := kvstore.Get(ComposeKey(curve, WalletIDWithVersion(walletID, version)));
      }
      if version == 0 {
        r := kvstore.Get(ComposeKey(curve, walletID));
      }
    }

    /** Init of a signing session needs key info, enough participants, a quorum of recorded ones and a share of the recorded
        version, in this order, and loads that share. */
    method InitSigning(s: SigningSession) returns (r: Result<Share, SigningError>)
      ensures r == SigningInit(s, keyinfoStore.entries, kvstore.entries, curve, walletID)
      ensures var k, infos, store := ComposeKey(curve, walletID), keyinfoStore.entries, kvstore.entries;
              && (r == Err(KeyInfoMissing) <==> k !in infos)
              && (k in infos ==>
                    var info := infos[k]; var common := Set(s.participants) * Set(info.participants);
                    && (r == Err(NotEnoughParticipants) <==> |s.participants| < info.threshold + 1)
                    && (r == Err(IncompatiblePeers) <==> |s.participants| >= info.threshold + 1 && |common| < info.threshold + 1)
                    && (|s.participants| >= info.threshold + 1 && |common| >= info.threshold + 1 ==>
                          var at := StorageKey(curve, walletID, info.version);
                          r == if at in store then Ok(store[at]) else Err(ShareMissing)))
    {
      var info := keyinfoStore.Get(ComposeKey(curve, walletID));
      if info.None? {
        return Err(KeyInfoMissing);
      }
      if |s.participants| < info.value.threshold + 1 {
        return Err(NotEnoughParticipants);
      }
      if |Set(s.participants) * Set(info.value.participants)| < info.value.threshold + 1 {
        return Err(IncompatiblePeers);
      }
      var share := kvstore.Get(ComposeKey(curve, WalletIDWithVersion(walletID, info.value.version)));
      if share.None? {
        return Err(ShareMissing);
      }
      return Ok(share.value);
    }
  }

  function LoadShare(store: map<string, Share>, c: Curve, wallet: string, version: int): Option<Share> {
    var k := StorageKey(c, wallet, version);
    if k in store then Some(store[k]) else None
  }

  function SigningInit(s: SigningSession, infos: map<string, KeyInfo>, store: map<string, Share>, c: Curve, wallet: string)
    : Result<Share, SigningError>
  {
    var k := ComposeKey(c, wallet);
    if k !in infos then Err(KeyInfoMissing)
    else if QuorumError(s, infos[k]).Some? then Err(QuorumError(s, infos[k]).value)
    else
      var share := LoadShare(store, c, wallet, infos[k].version);
      if share.None? then Err(ShareMissing) else Ok(share.value)
  }
}
