/** The backup file of pkg/kvstore/badger_backup.go: its frame, its name and what a loader accepts. */
module BackupFile {
  import opened GoStrings

  const MAGIC := "MPCIUM_BACKUP"

  /** binary.BigEndian of a uint32. */
  function BigEndian32(n: nat): (s: string)
    requires n < 0x1_0000_0000
    ensures |s| == 4 && forall i :: 0 <= i < 4 ==> s[i] as int < 256
    ensures n == ((s[0] as int * 256 + s[1] as int) * 256 + s[2] as int) * 256 + s[3] as int
  {
    [(n / 0x100_0000) as char, (n / 0x1_0000 % 256) as char, (n / 256 % 256) as char, (n % 256) as char]
  }

  function Value32(s: string): nat
    requires |s| == 4
  {
    s[0] as int * 0x100_0000 + s[1] as int * 0x1_0000 + s[2] as int * 256 + s[3] as int
  }

  lemma Value32Of(n: nat)
    requires n < 0x1_0000_0000
    ensures Value32(BigEndian32(n)) == n
  {
    DigitsSum(n);
  }

  lemma DigitsSum(n: nat)
    ensures n == n / 0x100_0000 * 0x100_0000 + n / 0x1_0000 % 256 * 0x1_0000 + n / 256 % 256 * 256 + n % 256
  {
    DivTwice(n);
    DivTwice(n / 256);
    DivThrice(n);
    var a := n / 256;
    var b := a / 256;
    assert n == a * 256 + n % 256 && a == b * 256 + a % 256 && b == b / 256 * 256 + b % 256;
  }

  lemma DivTwice(n: nat)
    ensures n / 0x1_0000 == n / 256 / 256
  {
    var q, r := n / 0x1_0000, n % 0x1_0000;
    assert n / 256 == q * 256 + r / 256;
  }

  lemma DivThrice(n: nat)
    ensures n / 0x100_0000 == n / 256 / 0x1_0000
  {
    var q, r := n / 0x100_0000, n % 0x100_0000;
    assert n / 256 == q * 0x1_0000 + r / 256;
  }

  lemma BigEndian32Of(s: GoString)
    requires |s| == 4
    ensures Value32(s) < 0x1_0000_0000 && BigEndian32(Value32(s)) == s
  {
    Digits256(s[0] as int, s[1] as int, s[2] as int, s[3] as int);
  }

  lemma Digits256(a: nat, b: nat, c: nat, d: nat)
    requires a < 256 && b < 256 && c < 256 && d < 256
    ensures var n := a * 0x100_0000 + b * 0x1_0000 + c * 256 + d;
            && n < 0x1_0000_0000 && n / 0x100_0000 == a && n / 0x1_0000 % 256 == b && n / 256 % 256 == c && n % 256 == d
  {
    var n := a * 0x100_0000 + b * 0x1_0000 + c * 256 + d;
    assert n / 256 == a * 0x1_0000 + b * 256 + c;
    assert n / 0x1_0000 == a * 256 + b;
    assert n / 0x100_0000 == a;
  }

  function Header(meta: string): string
    requires |meta| < 0x1_0000_0000
  {
    MAGIC + BigEndian32(|meta|) + meta
  }

  /** What Execute writes. */
  function Frame(meta: string, ct: string): string
    requires |meta| < 0x1_0000_0000
  {
    Header(meta) + ct
  }

  lemma FrameForm(meta: string, ct: string)
    requires |meta| < 0x1_0000_0000
    ensures Frame(meta, ct) == "MPCIUM_BACKUP" + BigEndian32(|meta|) + meta + ct
  {
  }

  datatype FrameError = ShortMagic | BadMagic | ShortLength | ShortMeta

  /** What loadEncryptedBackup reads: magic, length and metadata in full, the rest as ciphertext. */
  function Parse(b: GoString): Result<(string, string), FrameError> {
    if |b| < 13 then Err(ShortMagic)
    else if b[..13] != MAGIC then Err(BadMagic)
    else if |b| < 17 then Err(ShortLength)
    else
      var n := Value32(b[13..17]);
      if |b| < 17 + n then Err(ShortMeta) else Ok((b[17..17 + n], b[17 + n..]))
  }

  /** Parsing accepts exactly the frames, and returns what was framed. */
  lemma ParseInvertsFrame(b: GoString, meta: string, ct: string)
    ensures Parse(b) == Ok((meta, ct)) <==> |meta| < 0x1_0000_0000 && b == Frame(meta, ct)
  {
    hide Value32, BigEndian32;
    if |meta| < 0x1_0000_0000 && b == Frame(meta, ct) {
      FrameParses(meta, ct);
    }
    if Parse(b) == Ok((meta, ct)) {
      BigEndian32Of(b[13..17]);
      assert b == b[..13] + b[13..17] + meta + ct;
    }
  }

  lemma FrameParses(meta: string, ct: string)
    requires |meta| < 0x1_0000_0000
    ensures Frame(meta, ct)[..13] == MAGIC && |Frame(meta, ct)| == 17 + |meta| + |ct|
    ensures Value32(Frame(meta, ct)[13..17]) == |meta|
    ensures Frame(meta, ct)[17..17 + |meta|] == meta && Frame(meta, ct)[17 + |meta|..] == ct
  {
    hide Value32, BigEndian32;
    var f := Frame(meta, ct);
    Value32Of(|meta|);
    assert f[13..17] == BigEndian32(|meta|);
  }

  /** Every strict prefix of a header is refused. */
  lemma HeaderPrefixRefused(meta: GoString, k: nat)
    requires |meta| < 0x1_0000_0000 && k < |Header(meta)|
    ensures Parse(Header(meta)[..k]).Err? && Parse(Header(meta)[..k]) != Err(BadMagic)
  {
    var h := Header(meta);
    assert h[..13] == MAGIC && h[13..17] == BigEndian32(|meta|);
    if k >= 13 {
      assert h[..k][..13] == MAGIC;
    }
    if k >= 17 {
      assert h[..k][13..17] == h[13..17];
      Value32Of(|meta|);
    }
  }

  // ---------- the whole file ----------

  /** JSON and AES-256-GCM as functions: Seal yields metadata and ciphertext for a plaintext, Open reads them back. */
  datatype Suite = Suite(Seal: string -> (GoString, GoString), Open: (string, string) -> Option<string>)

  /** Opening inverts sealing, and an authenticated ciphertext that was cut short does not open. */
  ghost predicate Authentic(s: Suite) {
    forall p: string ::
      && s.Open(s.Seal(p).0, s.Seal(p).1) == Some(p)
      && |s.Seal(p).0| < 0x1_0000_0000
      && forall k: nat :: k < |s.Seal(p).1| ==> s.Open(s.Seal(p).0, s.Seal(p).1[..k]) == None
  }

  function WholeFile(s: Suite, plain: string): string
    requires |s.Seal(plain).0| < 0x1_0000_0000
  {
    Frame(s.Seal(plain).0, s.Seal(plain).1)
  }

  function Load(s: Suite, b: GoString): Option<string> {
    var parsed := Parse(b);
    if parsed.Err? then None else s.Open(parsed.value.0, parsed.value.1)
  }

  /** A file cut at any point loads exactly when nothing is missing, and then yields the backup. */
  lemma LoadsIffWhole(s: Suite, plain: string, k: nat)
    requires Authentic(s) && |s.Seal(plain).0| < 0x1_0000_0000 && k <= |WholeFile(s, plain)|
    ensures Load(s, WholeFile(s, plain)[..k]) == if k == |WholeFile(s, plain)| then Some(plain) else None
  {
    var f, meta, ct := WholeFile(s, plain), s.Seal(plain).0, s.Seal(plain).1;
    var h := Header(meta);
    assert f == h + ct;
    if k < |h| {
      assert f[..k] == h[..k];
      HeaderPrefixRefused(meta, k);
    } else {
      assert f[..k] == Frame(meta, ct[..k - |h|]);
      ParseInvertsFrame(f[..k], meta, ct[..k - |h|]);
      assert ct[..|ct|] == ct;
    }
  }

  // ---------- names ----------

  /** A fixed-width field of the time stamp and the separator after it. */
  datatype Field = Field(value: nat, width: nat, sep: char)

  function Pad(n: nat, width: nat): (s: string)
    ensures |s| == width
  {
    if width == 0 then "" else Pad(n / 10, width - 1) + [Digit(n % 10)]
  }

  function Power10(w: nat): nat {
    if w == 0 then 1 else 10 * Power10(w - 1)
  }

  lemma {:induction false} PadOrder(m: nat, n: nat, w: nat)
    requires m < Power10(w) && n < Power10(w)
    ensures Less(Pad(m, w), Pad(n, w)) <==> m < n
    ensures Pad(m, w) == Pad(n, w) <==> m == n
  {
    if w > 0 {
      PadOrder(m / 10, n / 10, w - 1);
      var a, b, x, y := Pad(m / 10, w - 1), Pad(n / 10, w - 1), [Digit(m % 10)], [Digit(n % 10)];
      if m / 10 == n / 10 {
        LessCommonHead(a, x, y);
        assert (a + x)[w - 1] == x[0] && (b + y)[w - 1] == y[0];
      } else {
        LessAnyTails(a, b, x, y);
        assert (a + x)[..w - 1] == a && (b + y)[..w - 1] == b;
      }
    }
  }

  function Stamp(fs: seq<Field>): string {
    if fs == [] then "" else Pad(fs[0].value, fs[0].width) + [fs[0].sep] + Stamp(fs[1..])
  }

  /** The format of time.Format "2006-01-02_15-04-05": the trailing '-' is the one before the version. */
  function Clock(year: nat, month: nat, day: nat, hour: nat, minute: nat, second: nat): seq<Field> {
    [Field(year, 4, '-'), Field(month, 2, '-'), Field(day, 2, '_'), Field(hour, 2, '-'), Field(minute, 2, '-'), Field(second, 2, '-')]
  }

  ghost predicate SameShape(a: seq<Field>, b: seq<Field>) {
    |a| == |b| && forall i :: 0 <= i < |a| ==>
      a[i].width == b[i].width && a[i].sep == b[i].sep && a[i].value < Power10(a[i].width) && b[i].value < Power10(b[i].width)
  }

  predicate Earlier(a: seq<Field>, b: seq<Field>)
    requires |a| == |b|
  {
    a != [] && (a[0].value < b[0].value || (a[0].value == b[0].value && Earlier(a[1..], b[1..])))
  }

  lemma {:induction false} StampOrder(a: seq<Field>, b: seq<Field>)
    requires SameShape(a, b)
    ensures |Stamp(a)| == |Stamp(b)|
    ensures Less(Stamp(a), Stamp(b)) <==> Earlier(a, b)
    ensures Stamp(a) == Stamp(b) <==> a == b
  {
    if a != [] {
      StampOrder(a[1..], b[1..]);
      var p, q := Pad(a[0].value, a[0].width), Pad(b[0].value, b[0].width);
      PadOrder(a[0].value, b[0].value, a[0].width);
      assert a == [a[0]] + a[1..] && b == [b[0]] + b[1..];
      hide SameShape, Pad, Power10;
      HeadOrder(p, q, a[0].sep, Stamp(a[1..]), Stamp(b[1..]));
      assert Stamp(a) == p + [a[0].sep] + Stamp(a[1..]) && Stamp(b) == q + [a[0].sep] + Stamp(b[1..]);
    }
  }

  lemma HeadOrder(p: string, q: string, sep: char, s: string, t: string)
    requires |p| == |q|
    ensures Less(p + [sep] + s, q + [sep] + t) <==> if p == q then Less(s, t) else Less(p, q)
    ensures p + [sep] + s == q + [sep] + t <==> p == q && s == t
  {
    var x, y := [sep] + s, [sep] + t;
    assert p + [sep] + s == p + x && q + [sep] + t == q + y;
    assert (p + x)[..|p|] == p && (q + y)[..|p|] == q && (p + x)[|p| + 1..] == s && (q + y)[|p| + 1..] == t;
    if p == q {
      LessCommonHead(p, x, y);
      LessCommonHead([sep], s, t);
    } else {
      LessAnyTails(p, q, x, y);
    }
  }

  function FileName(node: string, stamp: seq<Field>, version: nat): string {
    ("backup-" + node + "-") + (Stamp(stamp) + (Decimal(version) + ".enc"))
  }

  /** The order of the names of one node's files is the order of their times, and within one second the order of the
      decimal versions with their extension. */
  lemma NameOrder(node: string, a: seq<Field>, v: nat, b: seq<Field>, w: nat)
    requires SameShape(a, b)
    ensures Less(FileName(node, a, v), FileName(node, b, w))
            <==> Earlier(a, b) || (a == b && Less(Decimal(v) + ".enc", Decimal(w) + ".enc"))
  {
    StampOrder(a, b);
    LessCommonHead("backup-" + node + "-", Stamp(a) + (Decimal(v) + ".enc"), Stamp(b) + (Decimal(w) + ".enc"));
    if a == b {
      LessCommonHead(Stamp(a), Decimal(v) + ".enc", Decimal(w) + ".enc");
      LessTotal(Stamp(a), Stamp(b));
    } else {
      LessAnyTails(Stamp(a), Stamp(b), Decimal(v) + ".enc", Decimal(w) + ".enc");
    }
  }

  /** A name is taken again only by the same version in the same second. */
  lemma NameInjective(node: string, a: seq<Field>, v: nat, b: seq<Field>, w: nat)
    requires SameShape(a, b) && FileName(node, a, v) == FileName(node, b, w)
    ensures a == b && v == w
  {
    StampOrder(a, b);
    var h, s, t := "backup-" + node + "-", Stamp(a), Stamp(b);
    var x, y := Decimal(v) + ".enc", Decimal(w) + ".enc";
    assert (h + (s + x))[|h|..] == s + x && (h + (t + y))[|h|..] == t + y;
    assert (s + x)[..|s|] == s && (t + y)[..|t|] == t;
    assert (s + x)[|s|..] == x && (t + y)[|t|..] == y;
    assert x[..|x| - 4] == Decimal(v) && y[..|y| - 4] == Decimal(w);
    DecimalInjective(v, w);
  }

  // ---------- versions within one second ----------

  /** n without its last k decimal digits. */
  function DropDigits(n: nat, k: nat): nat {
    if k == 0 then n else DropDigits(n / 10, k - 1)
  }

  lemma {:induction false} DecimalIsPad(n: nat)
    ensures var p := |Decimal(n)|; Decimal(n) == Pad(n, p) && n < Power10(p) && (p > 1 ==> n >= Power10(p - 1))
  {
    if n < 10 {
      assert Pad(n, 1) == Pad(n / 10, 0) + [Digit(n % 10)] && Power10(1) == 10 * Power10(0);
    } else {
      DecimalIsPad(n / 10);
    }
  }

  lemma {:induction false} PowerMonotone(p: nat, q: nat)
    requires p <= q
    ensures Power10(p) <= Power10(q)
  {
    if p < q {
      PowerMonotone(p, q - 1);
    }
  }

  lemma DigitsMonotone(v: nat, w: nat)
    requires v <= w
    ensures |Decimal(v)| <= |Decimal(w)|
  {
    DecimalIsPad(v);
    DecimalIsPad(w);
    if |Decimal(v)| > |Decimal(w)| {
      PowerMonotone(|Decimal(w)|, |Decimal(v)| - 1);
    }
  }

  lemma {:induction false} PadPrefix(n: nat, w: nat, k: nat)
    requires k <= w && n < Power10(w)
    ensures Pad(n, w)[..w - k] == Pad(DropDigits(n, k), w - k) && DropDigits(n, k) < Power10(w - k)
  {
    if k > 0 {
      PadPrefix(n / 10, w - 1, k - 1);
    }
  }

  /** Of two versions in one second, the lower one comes first by name if and only if it is at most the higher one cut
      to as many digits; so always with equally many digits, and never with 10 after 9. */
  lemma VersionOrderIff(v: nat, w: nat)
    requires v < w
    ensures |Decimal(v)| <= |Decimal(w)|
    ensures Less(Decimal(v) + ".enc", Decimal(w) + ".enc") <==> v <= DropDigits(w, |Decimal(w)| - |Decimal(v)|)
  {
    hide Decimal, Pad, DropDigits, Power10, Less;
    DigitsMonotone(v, w);
    DecimalIsPad(v);
    var p, k := |Decimal(v)|, |Decimal(w)| - |Decimal(v)|;
    CutDecimal(w, k);
    PadOrder(v, DropDigits(w, k), p);
    CutCompare(Decimal(v), Decimal(w)[..p], Decimal(w)[p..]);
    assert Decimal(w) == Decimal(w)[..p] + Decimal(w)[p..];
  }

  /** The leading digits of a number, and what is left. */
  lemma CutDecimal(w: nat, k: nat)
    requires k < |Decimal(w)|
    ensures var p := |Decimal(w)| - k;
            && Decimal(w)[..p] == Pad(DropDigits(w, k), p) && DropDigits(w, k) < Power10(p)
            && (k == 0 ==> DropDigits(w, k) == w) && (k > 0 ==> '.' < Decimal(w)[p..][0])
  {
    DecimalIsPad(w);
    PadPrefix(w, |Decimal(w)|, k);
    assert k > 0 ==> Decimal(w)[|Decimal(w)| - k] in Decimal(w);
  }

  lemma CutCompare(x: string, head: string, rest: string)
    requires |x| == |head| && (rest != "" ==> '.' < rest[0])
    ensures Less(x + ".enc", head + rest + ".enc") <==> Less(x, head) || (x == head && rest != "")
  {
    assert head + rest + ".enc" == head + (rest + ".enc");
    LessTotal(head, head);
    if x == head {
      LessCommonHead(head, ".enc", rest + ".enc");
      if rest == "" {
        assert rest + ".enc" == ".enc";
        LessTotal(".enc", ".enc");
      }
    } else {
      LessAnyTails(x, head, ".enc", rest + ".enc");
    }
  }

  /** Within one second the order of names is not the order of versions. */
  lemma SameSecondOrder(node: string, stamp: seq<Field>)
    ensures Less(FileName(node, stamp, 10), FileName(node, stamp, 9))
  {
    var x, y := Decimal(10) + ".enc", Decimal(9) + ".enc";
    assert Decimal(10)[0] == '1' && Decimal(9) == "9" by {
      assert Decimal(10) == Decimal(1) + [Digit(0)];
    }
    assert x[0] < y[0];
    LessCommonHead("backup-" + node + "-", Stamp(stamp) + x, Stamp(stamp) + y);
    LessCommonHead(Stamp(stamp), x, y);
  }

  /** One file per time stamp, versions rising with the stamps: names sort as versions. */
  lemma NamesFollowVersions(node: string, stamps: seq<seq<Field>>, versions: seq<nat>, i: nat, j: nat)
    requires |stamps| == |versions| && i < |stamps| && j < |stamps|
    requires forall a, b :: 0 <= a < b < |stamps| ==> SameShape(stamps[a], stamps[b]) && Earlier(stamps[a], stamps[b])
    requires forall a, b :: 0 <= a < b < |stamps| ==> versions[a] < versions[b]
    ensures Less(FileName(node, stamps[i], versions[i]), FileName(node, stamps[j], versions[j])) <==> versions[i] < versions[j]
  {
    if i < j {
      NameOrder(node, stamps[i], versions[i], stamps[j], versions[j]);
    } else {
      if j < i {
        NameOrder(node, stamps[j], versions[j], stamps[i], versions[i]);
      }
      LessTotal(FileName(node, stamps[i], versions[i]), FileName(node, stamps[j], versions[j]));
    }
  }

  lemma StampStep(f: Field, rest: seq<Field>)
    ensures Stamp([f] + rest) == Pad(f.value, f.width) + [f.sep] + Stamp(rest)
  {
    assert ([f] + rest)[1..] == rest;
  }

  /** The stamp as the format string has it. */
  lemma StampForm(y: nat, mo: nat, d: nat, h: nat, mi: nat, s: nat)
    ensures Stamp(Clock(y, mo, d, h, mi, s))
         == Pad(y, 4) + "-" + Pad(mo, 2) + "-" + Pad(d, 2) + "_" + Pad(h, 2) + "-" + Pad(mi, 2) + "-" + Pad(s, 2) + "-"
  {
    var f := Clock(y, mo, d, h, mi, s);
    var r5 := [f[5]];
    var r4 := [f[4]] + r5;
    var r3 := [f[3]] + r4;
    var r2 := [f[2]] + r3;
    var r1 := [f[1]] + r2;
    assert f == [f[0]] + r1 && r5 + [] == r5;
    hide Pad;
    assert Stamp([]) == "";
    hide Stamp;
    StampStep(f[5], []);
    StampStep(f[4], r5);
    StampStep(f[3], r4);
    StampStep(f[2], r3);
    StampStep(f[1], r2);
    StampStep(f[0], r1);
    FlatStamp(Pad(y, 4), Pad(mo, 2), Pad(d, 2), Pad(h, 2), Pad(mi, 2), Pad(s, 2));
  }

  lemma FlatStamp(a: string, b: string, c: string, d: string, e: string, f: string)
    ensures a + ['-'] + (b + ['-'] + (c + ['_'] + (d + ['-'] + (e + ['-'] + (f + ['-'] + "")))))
         == a + "-" + b + "-" + c + "_" + d + "-" + e + "-" + f + "-"
  {
    var t6 := f + ['-'] + "";
    var t5 := e + ['-'] + t6;
    var t4 := d + ['-'] + t5;
    var t3 := c + ['_'] + t4;
    assert t6 == f + "-";
    assert t5 == e + "-" + f + "-";
    assert t4 == d + "-" + e + "-" + f + "-";
    assert t3 == c + "_" + d + "-" + e + "-" + f + "-";
    assert b + ['-'] + t3 == b + "-" + c + "_" + d + "-" + e + "-" + f + "-";
  }

  /** Stamps are in calendar order: by year, then month, day, hour, minute and second. */
  lemma ClockOrder(y: nat, mo: nat, d: nat, h: nat, mi: nat, s: nat, y': nat, mo': nat, d': nat, h': nat, mi': nat, s': nat)
    ensures Earlier(Clock(y, mo, d, h, mi, s), Clock(y', mo', d', h', mi', s')) <==>
            y < y' || (y == y' && (mo < mo' || (mo == mo' && (d < d' || (d == d' && (h < h' || (h == h' && (mi < mi' || (mi == mi' && s < s')))))))))
  {
    var a, b := Clock(y, mo, d, h, mi, s), Clock(y', mo', d', h', mi', s');
    EarlierFrom(a, b, 0);
    EarlierFrom(a, b, 1);
    EarlierFrom(a, b, 2);
    EarlierFrom(a, b, 3);
    EarlierFrom(a, b, 4);
    EarlierFrom(a, b, 5);
    assert a[0..] == a && b[0..] == b && a[6..] == [] && b[6..] == [];
  }

  lemma EarlierFrom(a: seq<Field>, b: seq<Field>, i: nat)
    requires |a| == |b| && i < |a|
    ensures Earlier(a[i..], b[i..]) <==> a[i].value < b[i].value || (a[i].value == b[i].value && Earlier(a[i + 1..], b[i + 1..]))
  {
    assert a[i..][1..] == a[i + 1..] && b[i..][1..] == b[i + 1..];
  }

  /** Restoring looks for names of the form backup-*.enc. */
  lemma NameForm(node: string, stamp: seq<Field>, version: nat)
    ensures FileName(node, stamp, version) == "backup-" + node + "-" + Stamp(stamp) + Decimal(version) + ".enc"
    ensures |FileName(node, stamp, version)| >= 12
    ensures FileName(node, stamp, version)[..7] == "backup-"
    ensures FileName(node, stamp, version)[|FileName(node, stamp, version)| - 4..] == ".enc"
  {
  }

  /** Calendar times have one shape, and their stamps have the nineteen characters of the format and a '-'. */
  lemma ClockShape(a: seq<Field>, b: seq<Field>)
    requires IsClock(a) && IsClock(b)
    ensures SameShape(a, b) && |Stamp(a)| == |Stamp(b)| == 20
  {
    assert Power10(2) == 100 && Power10(4) == 10000;
    StampOrder(a, b);
    StampWidth(a);
  }

  lemma StampWidth(a: seq<Field>)
    requires IsClock(a)
    ensures |Stamp(a)| == 20
  {
    StampWidths(a);
    assert Widths(a[6..]) == 0 && Widths(a[5..]) == 3 && Widths(a[4..]) == 6 && Widths(a[3..]) == 9;
    assert Widths(a[2..]) == 12 && Widths(a[1..]) == 15;
  }

  function Widths(a: seq<Field>): nat {
    if a == [] then 0 else a[0].width + 1 + Widths(a[1..])
  }

  lemma {:induction false} StampWidths(a: seq<Field>)
    ensures |Stamp(a)| == Widths(a)
  {
    if a != [] {
      StampWidths(a[1..]);
    }
  }

  ghost predicate IsClock(a: seq<Field>) {
    exists year: nat, month: nat, day: nat, hour: nat, minute: nat, second: nat ::
      a == Clock(year, month, day, hour, minute, second)
      && year < 10000 && month <= 12 && day <= 31 && hour < 24 && minute < 60 && second < 60
  }
}
