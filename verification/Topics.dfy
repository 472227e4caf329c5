/** The direct topics of keygen, signing and resharing sessions, and the sender field read back from them. */
module Topics {
  import opened GoStrings

  datatype Curve = Ecdsa | Eddsa

  datatype Protocol = Keygen | Signing | Resharing

  function CurveName(c: Curve): string {
    match c
    case Ecdsa => "ecdsa"
    case Eddsa => "eddsa"
  }

  /** The three leading fields; signing puts them in another order than keygen and resharing. */
  function Field(p: Protocol, c: Curve, i: nat): (f: string)
    requires i < 3
    ensures ':' !in f
  {
    match p
    case Keygen => if i == 0 then "keygen" else if i == 1 then "direct" else CurveName(c)
    case Resharing => if i == 0 then "resharing" else if i == 1 then "direct" else CurveName(c)
    case Signing => if i == 0 then "sign" else if i == 1 then CurveName(c) else "direct"
  }

  /** id is the wallet, or the transaction in a signing session. */
  function DirectTopic(p: Protocol, c: Curve, from: string, to: string, id: string): string {
    Field(p, c, 0) + [':'] + (Field(p, c, 1) + [':'] + (Field(p, c, 2) + [':'] + (from + [':'] + (to + [':'] + id))))
  }

  function ExtractSender(topic: string): string {
    var parts := SplitN(topic, ':', 5);
    if |parts| >= 4 then parts[3] else ""
  }

  lemma SplitFour(f: string, g: string, h: string, t: string)
    requires ':' !in f && ':' !in g && ':' !in h && ':' in t
    ensures ExtractSender(f + [':'] + (g + [':'] + (h + [':'] + t))) == Before(t, ':')
  {
    var t2 := h + [':'] + t;
    var t1 := g + [':'] + t2;
    SplitHead(f, ':', t1, 5);
    SplitHead(g, ':', t2, 4);
    SplitHead(h, ':', t, 3);
    var tail := SplitN(t, ':', 2);
    assert tail[0] == Before(t, ':');
    assert ([f] + ([g] + ([h] + tail)))[3] == tail[0];
  }

  /** The sender is read back from a composed topic exactly when it has no ':', whatever else the topic holds. */
  lemma TopicRoundTrip(p: Protocol, c: Curve, from: string, to: string, id: string)
    ensures ExtractSender(DirectTopic(p, c, from, to, id)) == from <==> ':' !in from
  {
    var t := from + [':'] + (to + [':'] + id);
    assert t[|from|] == ':';
    SplitFour(Field(p, c, 0), Field(p, c, 1), Field(p, c, 2), t);
    if ':' !in from {
      BeforeOf(from, ':', to + [':'] + id);
    }
  }

  /** Topics of sessions of one kind name sender, receiver and session unambiguously. */
  lemma TopicInjective(p: Protocol, c: Curve, from: string, to: string, id: string,
                       q: Protocol, d: Curve, from': string, to': string, id': string)
    requires ':' !in from && ':' !in to && ':' !in from' && ':' !in to'
    requires DirectTopic(p, c, from, to, id) == DirectTopic(q, d, from', to', id')
    ensures from == from' && to == to' && id == id' && p == q && c == d
  {
    var r, r' := to + [':'] + id, to' + [':'] + id';
    var t3, t3' := from + [':'] + r, from' + [':'] + r';
    var t2, t2' := Field(p, c, 2) + [':'] + t3, Field(q, d, 2) + [':'] + t3';
    var t1, t1' := Field(p, c, 1) + [':'] + t2, Field(q, d, 1) + [':'] + t2';
    FirstCutInjective(Field(p, c, 0), t1, ':', Field(q, d, 0), t1');
    FirstCutInjective(Field(p, c, 1), t2, ':', Field(q, d, 1), t2');
    FirstCutInjective(Field(p, c, 2), t3, ':', Field(q, d, 2), t3');
    FirstCutInjective(from, r, ':', from', r');
    FirstCutInjective(to, id, ':', to', id');
    assert |Field(p, c, 0)| == |Field(q, d, 0)|;
    assert p == q;
    assert "ecdsa"[1] != "eddsa"[1];
  }

  lemma Flat(f: string, g: string, h: string, a: string, b: string, c: string)
    ensures f + [':'] + (g + [':'] + (h + [':'] + (a + [':'] + (b + [':'] + c))))
         == f + ":" + g + ":" + h + ":" + a + ":" + b + ":" + c
  {
    var t1 := b + [':'] + c;
    var t2 := a + [':'] + t1;
    var t3 := h + [':'] + t2;
    assert t2 == a + ":" + b + ":" + c;
    assert t3 == h + ":" + a + ":" + b + ":" + c;
    assert g + [':'] + t3 == g + ":" + h + ":" + a + ":" + b + ":" + c;
  }

  /** The topics, field by field. */
  lemma TopicForms(c: Curve, from: string, to: string, id: string)
    ensures var curve := if c == Ecdsa then "ecdsa" else "eddsa";
            && DirectTopic(Keygen, c, from, to, id) == "keygen" + ":" + "direct" + ":" + curve + ":" + from + ":" + to + ":" + id
            && DirectTopic(Resharing, c, from, to, id) == "resharing" + ":" + "direct" + ":" + curve + ":" + from + ":" + to + ":" + id
            && DirectTopic(Signing, c, from, to, id) == "sign" + ":" + curve + ":" + "direct" + ":" + from + ":" + to + ":" + id
  {
    var curve := if c == Ecdsa then "ecdsa" else "eddsa";
    Flat("keygen", "direct", curve, from, to, id);
    Flat("resharing", "direct", curve, from, to, id);
    Flat("sign", curve, "direct", from, to, id);
  }
}
