/** Go strings are byte sequences: a string here is a sequence of characters, and a GoString one whose
    characters are all single bytes. The module holds the few standard-library string functions the node uses. */
module GoStrings {

  datatype Option<+T> = None | Some(value: T)

  datatype Result<+T, +E> = Ok(value: T) | Err(error: E)

  type GoString = s: string | forall i :: 0 <= i < |s| ==> s[i] as int < 256

  type SymmetricKey = string

  ghost predicate Distinct<T>(s: seq<T>) {
    forall i, j :: 0 <= i < j < |s| ==> s[i] != s[j]
  }

  function Set<T>(s: seq<T>): set<T> {
    set x | x in s
  }

  lemma SetEmpty<T>()
    ensures Set<T>([]) == {} && Distinct<T>([])
  {
  }

  lemma SetSnoc<T>(s: seq<T>, x: T)
    ensures Set(s + [x]) == Set(s) + {x}
    ensures Distinct(s) && x !in Set(s) ==> Distinct(s + [x])
  {
    var t := s + [x];
    assert forall y :: y in t <==> y in s || y == x;
    assert forall i :: 0 <= i < |s| ==> s[i] in Set(s);
  }

  lemma SetSplit<T>(s: seq<T>)
    requires s != []
    ensures Set(s) == Set(s[..|s| - 1]) + {s[|s| - 1]}
    ensures Distinct(s) ==> Distinct(s[..|s| - 1]) && s[|s| - 1] !in Set(s[..|s| - 1])
  {
    SetSnoc(s[..|s| - 1], s[|s| - 1]);
    assert s[..|s| - 1] + [s[|s| - 1]] == s;
  }

  /** Pigeonhole: a duplicate-free sequence has as many elements as its set. */
  lemma {:induction false} DistinctSize<T>(s: seq<T>)
    requires Distinct(s)
    ensures |Set(s)| == |s|
  {
    if s != [] {
      var t := s[..|s| - 1];
      DistinctSize(t);
      assert s == t + [s[|s| - 1]];
      assert Set(s) == Set(t) + {s[|s| - 1]};
    }
  }

  lemma SubsetSize<T>(a: set<T>, b: set<T>)
    requires a <= b
    ensures |a| <= |b|
    ensures |a| == |b| ==> a == b
  {
    assert b == a + (b - a);
  }

  lemma {:induction false} DistinctMultiset<T>(s: seq<T>, x: T)
    requires Distinct(s)
    ensures multiset(s)[x] <= 1
  {
    if s != [] {
      DistinctMultiset(s[1..], x);
      assert s == [s[0]] + s[1..];
    }
  }

  /** The positions in one sequence from which another is picked, in order. */
  ghost predicate Picks<T>(at: seq<nat>, all: seq<T>, part: seq<T>) {
    && |at| == |part|
    && (forall i :: 0 <= i < |at| ==> at[i] < |all| && all[at[i]] == part[i])
    && forall i, j :: 0 <= i < j < |at| ==> at[i] < at[j]
  }

  lemma PicksLater<T>(at: seq<nat>, all: seq<T>, part: seq<T>) returns (later: seq<nat>)
    requires all != [] && Picks(at, all[1..], part)
    ensures Picks(later, all, part) && Picks([0] + later, all, [all[0]] + part)
  {
    later := seq(|at|, i requires 0 <= i < |at| => at[i] + 1);
    assert forall i :: 0 <= i < |at| ==> all[later[i]] == all[1..][at[i]];
  }

  /** The first result of strings.Cut: the part before the first separator, or everything. */
  function Before(s: string, c: char): (r: string)
    ensures |r| <= |s| && r == s[..|r|] && c !in r
    ensures c in s ==> |r| < |s| && s[|r|] == c
    ensures c !in s ==> r == s
  {
    if s == "" || s[0] == c then "" else [s[0]] + Before(s[1..], c)
  }

  lemma BeforeTail(a: string, t: string, c: char)
    requires c !in a && (t == "" || t[0] == c)
    ensures Before(a + t, c) == a
  {
    var r := Before(a + t, c);
    if t == "" {
      assert a + t == a;
    } else {
      assert (a + t)[|a|] == c;
      assert |r| >= |a|;
      assert r == (a + t)[..|r|];
    }
  }

  lemma BeforeOf(a: string, c: char, b: string)
    requires c !in a
    ensures Before(a + [c] + b, c) == a
  {
    BeforeTail(a, [c] + b, c);
    assert a + [c] + b == a + ([c] + b);
  }

  /** strings.SplitN with a positive limit. */
  function SplitN(s: string, c: char, n: nat): (parts: seq<string>)
    requires n > 0
    ensures 0 < |parts| <= n
  {
    if n == 1 || c !in s then [s]
    else [Before(s, c)] + SplitN(s[|Before(s, c)| + 1..], c, n - 1)
  }

  lemma SplitHead(a: string, c: char, b: string, n: nat)
    requires c !in a && n > 1
    ensures SplitN(a + [c] + b, c, n) == [a] + SplitN(b, c, n - 1)
  {
    BeforeOf(a, c, b);
    var s := a + [c] + b;
    assert s[|a|] == c;
    assert s[|a| + 1..] == b;
  }

  /** Go compares strings bytewise. */
  predicate Less(a: string, b: string) {
    if b == "" then false
    else if a == "" then true
    else a[0] < b[0] || (a[0] == b[0] && Less(a[1..], b[1..]))
  }

  lemma {:induction false} LessTotal(a: string, b: string)
    ensures !(Less(a, b) && Less(b, a))
    ensures Less(a, b) || Less(b, a) || a == b
  {
    if a != "" && b != "" {
      LessTotal(a[1..], b[1..]);
      assert a == [a[0]] + a[1..] && b == [b[0]] + b[1..];
    }
  }

  /** A common tail does not change the order of two strings of equal length. */
  lemma {:induction false} LessCommonTail(a: string, b: string, t: string)
    requires |a| == |b|
    ensures Less(a + t, b + t) <==> Less(a, b)
  {
    if a == "" {
      LessTotal(t, t);
      assert a + t == t && b + t == t;
    } else {
      LessCommonTail(a[1..], b[1..], t);
      assert (a + t)[1..] == a[1..] + t && (b + t)[1..] == b[1..] + t;
    }
  }

  /** Comparing by a first differing part, whatever follows. */
  lemma {:induction false} LessCommonHead(h: string, a: string, b: string)
    ensures Less(h + a, h + b) <==> Less(a, b)
  {
    if h == "" {
      assert h + a == a && h + b == b;
    } else {
      LessCommonHead(h[1..], a, b);
      assert (h + a)[1..] == h[1..] + a && (h + b)[1..] == h[1..] + b;
    }
  }

  lemma {:induction false} LessAnyTails(a: string, b: string, s: string, t: string)
    requires |a| == |b| && a != b
    ensures Less(a + s, b + t) <==> Less(a, b)
  {
    assert a == [a[0]] + a[1..] && b == [b[0]] + b[1..];
    if a[0] == b[0] {
      LessAnyTails(a[1..], b[1..], s, t);
      assert (a + s)[1..] == a[1..] + s && (b + t)[1..] == b[1..] + t;
    }
  }

  function Digit(d: nat): (c: char)
    requires d < 10
    ensures '0' <= c <= '9'
  {
    ('0' as int + d) as char
  }

  /** %d of a number that is not negative. */
  function Decimal(n: nat): (s: GoString)
    ensures s != "" && forall c :: c in s ==> '0' <= c <= '9'
  {
    if n < 10 then [Digit(n)] else Decimal(n / 10) + [Digit(n % 10)]
  }

  function DecimalValue(s: string): int {
    if s == "" then 0
    else 10 * DecimalValue(s[..|s| - 1]) + (s[|s| - 1] as int - '0' as int)
  }

  lemma {:induction false} DecimalValueOf(n: nat)
    ensures DecimalValue(Decimal(n)) == n
  {
    if n < 10 {
      assert Decimal(n)[..0] == "";
    } else {
      DecimalValueOf(n / 10);
      assert Decimal(n)[..|Decimal(n)| - 1] == Decimal(n / 10);
    }
  }

  lemma DecimalInjective(m: nat, n: nat)
    requires Decimal(m) == Decimal(n)
    ensures m == n
  {
    DecimalValueOf(m);
    DecimalValueOf(n);
  }

  /** %d of any int. */
  function Itoa(v: int): (s: GoString)
    ensures ':' !in s && s != "" && (v < 0 <==> s[0] == '-')
  {
    var d := Decimal(if v < 0 then -v else v);
    assert d[0] in d;
    if v < 0 then "-" + d else d
  }

  lemma ItoaInjective(v: int, w: int)
    requires Itoa(v) == Itoa(w)
    ensures v == w
  {
    if v < 0 {
      assert Itoa(v)[1..] == Decimal(-v) && Itoa(w)[1..] == Decimal(-w);
      DecimalInjective(-v, -w);
    } else {
      DecimalInjective(v, w);
    }
  }

  /** Two strings cut at their first separator agree part by part. */
  lemma FirstCutInjective(a: string, b: string, c: char, x: string, y: string)
    requires c !in a && c !in x && a + [c] + b == x + [c] + y
    ensures a == x && b == y
  {
    BeforeOf(a, c, b);
    BeforeOf(x, c, y);
    assert (a + [c] + b)[|a| + 1..] == b && (x + [c] + y)[|x| + 1..] == y;
  }

  /** Two strings cut at their last separator agree part by part. */
  lemma LastCutInjective(a: string, b: string, c: char, x: string, y: string)
    requires c !in b && c !in y && a + [c] + b == x + [c] + y
    ensures a == x && b == y
  {
    var s, t := a + [c] + b, x + [c] + y;
    assert s[|a|] == c && t[|x|] == c;
    assert s[..|a|] == a && t[..|x|] == x;
    assert s[|a| + 1..] == b && t[|x| + 1..] == y;
  }

  /** The second pair cuts the joined string of the first further right. */
  predicate CutsLater(w: string, t: string, c: char, v: string, u: string) {
    |w| < |v| && v == w + [c] + v[|w| + 1..] && t == v[|w| + 1..] + [c] + u
  }

  /** Two pairs join to one string exactly when they are the same pair or one cuts the string further right. */
  lemma JoinedIff(w: string, t: string, c: char, v: string, u: string)
    ensures w + [c] + t == v + [c] + u <==> (w == v && t == u) || CutsLater(w, t, c, v, u) || CutsLater(v, u, c, w, t)
  {
    if |w| <= |v| {
      JoinedShorter(w, t, c, v, u);
    } else {
      JoinedShorter(v, u, c, w, t);
    }
  }

  lemma JoinedShorter(w: string, t: string, c: char, v: string, u: string)
    requires |w| <= |v|
    ensures w + [c] + t == v + [c] + u <==> (w == v && t == u) || CutsLater(w, t, c, v, u)
  {
    var a, b := w + [c] + t, v + [c] + u;
    assert a[..|w|] == w && a[|w| + 1..] == t && a[|w|] == c;
    assert b[..|v|] == v && b[|v| + 1..] == u;
    if a == b && |w| < |v| {
      assert v[|w|] == b[|w|] && v[..|w|] == w;
      assert t == b[|w| + 1..] == b[|w| + 1..|v|] + b[|v|..];
      assert b[|w| + 1..|v|] == v[|w| + 1..];
    }
    if CutsLater(w, t, c, v, u) {
      var x := v[|w| + 1..];
      assert b == (w + [c] + x) + [c] + u;
      assert a == w + [c] + (x + [c] + u);
      assert a == b;
    }
  }

  /** The UTF-8 encodings of the code points that unicode.IsSpace accepts. */
  predicate SpaceEncoding(s: string) {
    || (|s| == 1 && ('\t' <= s[0] <= '\r' || s[0] == ' '))
    || (|s| == 2 && s[0] as int == 0xC2 && s[1] as int in {0x85, 0xA0})
    || (|s| == 3 && s[0] as int == 0xE1 && s[1] as int == 0x9A && s[2] as int == 0x80)
    || (|s| == 3 && s[0] as int == 0xE2 && s[1] as int == 0x80 &&
        (0x80 <= s[2] as int <= 0x8A || s[2] as int in {0xA8, 0xA9, 0xAF}))
    || (|s| == 3 && s[0] as int == 0xE2 && s[1] as int == 0x81 && s[2] as int == 0x9F)
    || (|s| == 3 && s[0] as int == 0xE3 && s[1] as int == 0x80 && s[2] as int == 0x80)
  }

  function TrimLeft(s: string): (r: string)
    ensures |r| <= |s| && (|r| == |s| ==> r == s) && forall c :: c in r ==> c in s
    decreases |s|
  {
    if |s| >= 1 && SpaceEncoding(s[..1]) then TrimLeft(s[1..])
    else if |s| >= 2 && SpaceEncoding(s[..2]) then TrimLeft(s[2..])
    else if |s| >= 3 && SpaceEncoding(s[..3]) then TrimLeft(s[3..])
    else s
  }

  function TrimRight(s: string): (r: string)
    ensures |r| <= |s| && (|r| == |s| ==> r == s) && forall c :: c in r ==> c in s
    decreases |s|
  {
    if |s| >= 1 && SpaceEncoding(s[|s| - 1..]) then TrimRight(s[..|s| - 1])
    else if |s| >= 2 && SpaceEncoding(s[|s| - 2..]) then TrimRight(s[..|s| - 2])
    else if |s| >= 3 && SpaceEncoding(s[|s| - 3..]) then TrimRight(s[..|s| - 3])
    else s
  }

  /** strings.TrimSpace. */
  function TrimSpace(s: string): (r: string)
    ensures |r| <= |s| && (|r| == |s| ==> r == s) && forall c :: c in r ==> c in s
  {
    TrimRight(TrimLeft(s))
  }
}
