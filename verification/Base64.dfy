/** Base64 in both alphabets of sections 4 and 5 of RFC 4648 (base64.c). */
module Base64 {
  import opened Bytes

  const INV: int := -1
  const PAD: byte := '=' as int

  /** What base256_char gives: six bits, or INV. */
  type sextet = x: int | -1 <= x < 64 witness 0

  // ---------------------------------------------------------------------
  // The alphabets
  // ---------------------------------------------------------------------

  function Char64(v: nat, url: bool): byte
    requires v < 64
  {
    if v < 26 then 'A' as int + v
    else if v < 52 then 'a' as int + v - 26
    else if v < 62 then '0' as int + v - 52
    else if v == 62 then (if url then '-' as int else '+' as int)
    else if url then '_' as int else '/' as int
  }

  /** base256_char */
  function Value(c: byte, url: bool): sextet {
    if 'A' as int <= c <= 'Z' as int then c - 'A' as int
    else if 'a' as int <= c <= 'z' as int then c - 'a' as int + 26
    else if '0' as int <= c <= '9' as int then c - '0' as int + 52
    else if (!url && c == '+' as int) || (url && c == '-' as int) then 62
    else if (!url && c == '/' as int) || (url && c == '_' as int) then 63
    else INV
  }

  lemma AlphabetRoundTrip(v: nat, url: bool)
    requires v < 64
    ensures Value(Char64(v, url), url) == v && Char64(v, url) != PAD
  {
  }

  // ---------------------------------------------------------------------
  // Encoding
  // ---------------------------------------------------------------------

  /** base256to64 */
  function Quad(a: byte, b: byte, c: byte, padding: nat, url: bool): (r: bytes)
    ensures |r| == 4
  {
    [Char64(a / 4, url), Char64(a % 4 * 16 + b / 16, url),
     if padding < 2 then Char64(b % 16 * 4 + c / 64, url) else PAD,
     if padding < 1 then Char64(c % 64, url) else PAD]
  }

  function Encode(m: bytes, url: bool): bytes
    decreases |m|
  {
    if |m| == 0 then []
    else if |m| == 1 then Quad(m[0], 0, 0, 2, url)
    else if |m| == 2 then Quad(m[0], m[1], 0, 1, url)
    else Quad(m[0], m[1], m[2], 0, url) + Encode(m[3..], url)
  }

  /** Four characters for every three octets begun, within the bound that callers are told to reserve. */
  lemma {:induction false} EncodedSize(m: bytes, url: bool)
    ensures |Encode(m, url)| == (|m| + 2) / 3 * 4 <= |m| * 4 / 3 + 3
    decreases |m|
  {
    hide Quad;
    SizeBound(|m|);
    if |m| > 2 {
      EncodedSize(m[3..], url);
      NextGroup(|m|);
    }
  }

  lemma NextGroup(n: nat)
    requires n >= 3
    ensures (n + 2) / 3 * 4 == (n - 3 + 2) / 3 * 4 + 4
  {
  }

  lemma SizeBound(n: nat)
    ensures (n + 2) / 3 * 4 <= n * 4 / 3 + 3
  {
    var q, r := n / 3, n % 3;
    assert n == 3 * q + r;
    assert (n + 2) / 3 == if r == 0 then q else q + 1;
    assert n * 4 / 3 >= 4 * q + r;
  }

  /** The character for six bits in table 1, or for URLs table 2, of RFC 4648. */
  predicate IsLetter(c: int, v: int, url: bool) {
    || (0 <= v <= 25 && c == 65 + v)
    || (26 <= v <= 51 && c == 71 + v)
    || (52 <= v <= 61 && c == v - 4)
    || (v == 62 && c == if url then 45 else 43)
    || (v == 63 && c == if url then 95 else 47)
  }

  /** The octet at k, or zero bits beyond the end. */
  function OctetOr0(m: bytes, k: nat): int { if k < |m| then m[k] else 0 }

  /** The four characters stand for the 24 bits of the octets from k on, with '=' where there are none. */
  predicate IsGroup(r: bytes, m: bytes, k: nat, url: bool) {
    var bits := OctetOr0(m, k) * 65536 + OctetOr0(m, k + 1) * 256 + OctetOr0(m, k + 2);
    && |r| == 4
    && IsLetter(r[0], bits / 262144, url) && IsLetter(r[1], bits / 4096 % 64, url)
    && (if k + 1 < |m| then IsLetter(r[2], bits / 64 % 64, url) else r[2] == 61)
    && (if k + 2 < |m| then IsLetter(r[3], bits % 64, url) else r[3] == 61)
  }

  lemma LetterIs(v: nat, url: bool)
    requires v < 64
    ensures IsLetter(Char64(v, url), v, url)
  {
  }

  lemma BitsOf(a: int, b: int, c: int)
    requires 0 <= a < 256 && 0 <= b < 256 && 0 <= c < 256
    ensures var bits := a * 65536 + b * 256 + c;
            && bits / 262144 == a / 4 && bits / 4096 % 64 == a % 4 * 16 + b / 16
            && bits / 64 % 64 == b % 16 * 4 + c / 64 && bits % 64 == c % 64
  {
    var bits, x, y := a * 65536 + b * 256 + c, a % 4 * 16 + b / 16, b % 16 * 4 + c / 64;
    var n2, n1 := 1024 * a + 4 * b + c / 64, 16 * a + b / 16;
    Parts(a, 4);
    Parts(b, 16);
    Parts(c, 64);
    SixtyFour(n2, c % 64, bits);
    SixtyFour(n1, y, n2);
    SixtyFour(a / 4, x, n1);
    Steps(bits);
  }

  lemma Parts(v: int, d: int)
    requires 0 <= v < 256 && d in {4, 16, 64}
    ensures v == d * (v / d) + v % d && 0 <= v % d < d && 0 <= v / d < 256
  {
  }

  lemma Steps(v: nat)
    ensures v / 4096 == v / 64 / 64 && v / 262144 == v / 64 / 64 / 64
  {
  }

  lemma SixtyFour(q: int, r: int, n: int)
    requires 0 <= r < 64 && n == 64 * q + r
    ensures n % 64 == r && n / 64 == q
  {
  }

  lemma QuadIsGroup(m: bytes, k: nat, url: bool)
    requires k < |m|
    ensures IsGroup(Quad(m[k], OctetOr0(m, k + 1), OctetOr0(m, k + 2),
                         if k + 2 < |m| then 0 else if k + 1 < |m| then 1 else 2, url), m, k, url)
  {
    var a: int, b, c := m[k], OctetOr0(m, k + 1), OctetOr0(m, k + 2);
    hide IsLetter, Char64;
    BitsOf(a, b, c);
    LetterIs(a / 4, url);
    LetterIs(a % 4 * 16 + b / 16, url);
    LetterIs(b % 16 * 4 + c / 64, url);
    LetterIs(c % 64, url);
  }

  /** Every group of four characters is that of section 4 of RFC 4648 for the octets that it encodes. */
  lemma {:induction false} EncodesGroups(m: bytes, url: bool, j: nat)
    requires 3 * j < |m|
    ensures 4 * j + 4 <= |Encode(m, url)| && IsGroup(Encode(m, url)[4 * j..4 * j + 4], m, 3 * j, url)
    decreases j
  {
    hide Quad, IsGroup, Encode;
    EncodeBegins(m, url);
    if j == 0 {
      QuadIsGroup(m, 0, url);
    } else {
      EncodesGroups(m[3..], url, j - 1);
      SliceAfter(Quad(m[0], m[1], m[2], 0, url), Encode(m[3..], url), 4 * j);
      GroupMoves(Encode(m[3..], url)[4 * (j - 1)..4 * (j - 1) + 4], m, 3 * (j - 1), url);
    }
  }

  lemma EncodeBegins(m: bytes, url: bool)
    requires m != []
    ensures 4 <= |Encode(m, url)|
    ensures Encode(m, url)[0..4] ==
              Quad(m[0], OctetOr0(m, 1), OctetOr0(m, 2), if 2 < |m| then 0 else if 1 < |m| then 1 else 2, url)
    ensures |m| > 3 ==> Encode(m, url) == Quad(m[0], m[1], m[2], 0, url) + Encode(m[3..], url)
  {
    hide Quad;
  }

  lemma GroupMoves(r: bytes, m: bytes, k: nat, url: bool)
    requires |m| >= 3 && IsGroup(r, m[3..], k, url)
    ensures IsGroup(r, m, k + 3, url)
  {
    hide IsLetter;
    assert OctetOr0(m[3..], k) == OctetOr0(m, k + 3);
    assert OctetOr0(m[3..], k + 1) == OctetOr0(m, k + 4) && OctetOr0(m[3..], k + 2) == OctetOr0(m, k + 5);
  }

  lemma SliceAfter(a: bytes, b: bytes, i: nat)
    requires |a| == 4 <= i && i - 4 + 4 <= |b|
    ensures (a + b)[i..i + 4] == b[i - 4..i - 4 + 4]
  {
  }

  // ---------------------------------------------------------------------
  // Decoding
  // ---------------------------------------------------------------------

  function First(a: sextet, b: sextet): byte { (a % 64 * 4 + b % 64 / 16) % 256 }

  function Second(b: sextet, c: sextet): byte { b % 16 * 16 + c % 64 / 4 }

  function Third(c: sextet, d: sextet): byte { c % 4 * 64 + d % 64 }

  /** The octets of groups of four values; a last group of one value is dropped. */
  function Pack(v: seq<sextet>): bytes
    decreases |v|
  {
    if |v| < 2 then []
    else if |v| == 2 then [First(v[0], v[1])]
    else if |v| == 3 then [First(v[0], v[1]), Second(v[1], v[2])]
    else [First(v[0], v[1]), Second(v[1], v[2]), Third(v[2], v[3])] + Pack(v[4..])
  }

  lemma {:induction false} PackedSize(v: seq<sextet>)
    ensures |Pack(v)| == |v| * 3 / 4
    decreases |v|
  {
    if |v| > 3 { PackedSize(v[4..]); }
  }

  /**
   * The values that are read from position i on: characters outside the
   * alphabet are skipped, but the last one is taken for a value if it is one.
   */
  function Stream(t: bytes, i: nat, url: bool): (v: seq<sextet>)
    requires i <= |t|
    ensures |v| <= |t| - i
    decreases |t| - i
  {
    if i == |t| then []
    else if Value(t[i], url) == INV && i + 1 < |t| then Stream(t, i + 1, url)
    else [Value(t[i], url)] + Stream(t, i + 1, url)
  }

  /** The input without the padding at its end. */
  function Unpadded(s: bytes): (r: bytes)
    ensures r <= s && (r != [] ==> r[|r| - 1] != PAD)
    decreases |s|
  {
    if s != [] && s[|s| - 1] == PAD then Unpadded(s[..|s| - 1]) else s
  }

  /** What the source decodes. */
  function Decode(s: bytes, url: bool): bytes { Pack(Stream(Unpadded(s), 0, url)) }

  // ---------------------------------------------------------------------
  // Round trip
  // ---------------------------------------------------------------------

  /** The values of the characters that are in the alphabet. */
  function Values(s: bytes, url: bool): seq<sextet>
    decreases |s|
  {
    if s == [] then []
    else (if Value(s[0], url) == INV then [] else [Value(s[0], url)]) + Values(s[1..], url)
  }

  /** The last character that is not padding is outside the alphabet. */
  predicate StrayEnd(s: bytes, url: bool) {
    var t := Unpadded(s);
    t != [] && Value(t[|t| - 1], url) == INV
  }

  /** A last character outside the alphabet is taken for a value. */
  function Stray(t: bytes, url: bool): seq<sextet> {
    if t != [] && Value(t[|t| - 1], url) == INV then [INV] else []
  }

  lemma {:induction false} StreamIsValues(t: bytes, i: nat, url: bool)
    requires i < |t|
    ensures Stream(t, i, url) == Values(t[i..], url) + Stray(t, url)
    decreases |t| - i
  {
    hide Value, Stream, Values;
    ValuesStep(t, i, url);
    StreamStep(t, i, url);
    if i + 1 == |t| {
      assert t[i + 1..] == [];
      NoValues(url);
    } else {
      StreamIsValues(t, i + 1, url);
      Regroup([Value(t[i], url)], Values(t[i + 1..], url), Stray(t, url));
    }
  }

  lemma Regroup(a: seq<sextet>, b: seq<sextet>, c: seq<sextet>)
    ensures a + (b + c) == a + b + c
  {
  }

  lemma NoValues(url: bool)
    ensures Values([], url) == []
  {
  }

  lemma StreamStep(t: bytes, i: nat, url: bool)
    requires i < |t|
    ensures i + 1 == |t| ==> Stream(t, i, url) == [Value(t[i], url)]
    ensures i + 1 < |t| ==>
              var rest := Stream(t, i + 1, url);
              Stream(t, i, url) == if Value(t[i], url) == INV then rest else [Value(t[i], url)] + rest
  {
    hide Value;
    assert Stream(t, |t|, url) == [];
  }

  lemma ValuesStep(t: bytes, i: nat, url: bool)
    requires i < |t|
    ensures Values(t[i..], url) ==
            if Value(t[i], url) == INV then Values(t[i + 1..], url) else [Value(t[i], url)] + Values(t[i + 1..], url)
    ensures Values([], url) == []
  {
    hide Value;
    assert t[i..][1..] == t[i + 1..];
    assert [] + Values(t[i + 1..], url) == Values(t[i + 1..], url);
  }

  lemma {:induction false} ValuesAppend(a: bytes, b: bytes, url: bool)
    ensures Values(a + b, url) == Values(a, url) + Values(b, url)
    decreases |a|
  {
    if a == [] {
      assert a + b == b;
    } else {
      assert (a + b)[1..] == a[1..] + b;
      ValuesAppend(a[1..], b, url);
    }
  }

  lemma {:induction false} PaddingHasNoValue(s: bytes, url: bool)
    ensures Values(Unpadded(s), url) == Values(s, url)
    decreases |s|
  {
    if s != [] && s[|s| - 1] == PAD {
      var front := s[..|s| - 1];
      PaddingHasNoValue(front, url);
      assert s == front + [PAD];
      ValuesAppend(front, [PAD], url);
    }
  }

  /** The values that an encoded string consists of. */
  function Sextets(m: bytes): seq<sextet>
    decreases |m|
  {
    if |m| == 0 then []
    else if |m| == 1 then [m[0] / 4, m[0] % 4 * 16]
    else if |m| == 2 then [m[0] / 4, m[0] % 4 * 16 + m[1] / 16, m[1] % 16 * 4]
    else [m[0] / 4, m[0] % 4 * 16 + m[1] / 16, m[1] % 16 * 4 + m[2] / 64, m[2] % 64] + Sextets(m[3..])
  }

  lemma QuadValues(a: byte, b: byte, c: byte, padding: nat, url: bool)
    requires padding <= 2
    ensures var q, v := Quad(a, b, c, padding, url), [a / 4, a % 4 * 16 + b / 16, b % 16 * 4 + c / 64, c % 64];
            Values(q, url) == v[..4 - padding]
  {
    var w, x, y, z: byte := a / 4, a % 4 * 16 + b / 16, b % 16 * 4 + c / 64, c % 64;
    AlphabetRoundTrip(w, url);
    AlphabetRoundTrip(x, url);
    AlphabetRoundTrip(y, url);
    AlphabetRoundTrip(z, url);
    hide Value, Char64;
    PadIsInvalid(url);
    FourValues(Quad(a, b, c, padding, url), url);
  }

  lemma PadIsInvalid(url: bool)
    ensures Value(PAD, url) == INV
  {
  }

  lemma FourValues(q: bytes, url: bool)
    requires |q| == 4 && Value(q[0], url) != INV && Value(q[1], url) != INV
    requires Value(q[2], url) == INV ==> Value(q[3], url) == INV
    ensures Values(q, url) == [Value(q[0], url), Value(q[1], url)]
              + (if Value(q[2], url) == INV then [] else [Value(q[2], url)])
              + (if Value(q[3], url) == INV then [] else [Value(q[3], url)])
  {
    hide Value;
    assert q == [q[0]] + [q[1]] + [q[2]] + [q[3]];
    ValuesAppend([q[0]] + [q[1]] + [q[2]], [q[3]], url);
    ValuesAppend([q[0]] + [q[1]], [q[2]], url);
    ValuesAppend([q[0]], [q[1]], url);
    OneValue(q[0], url);
    OneValue(q[1], url);
    OneValue(q[2], url);
    OneValue(q[3], url);
  }

  lemma OneValue(c: byte, url: bool)
    ensures Values([c], url) == if Value(c, url) == INV then [] else [Value(c, url)]
  {
    hide Value;
    assert [c][1..] == [];
  }

  lemma {:induction false} EncodedValues(m: bytes, url: bool)
    ensures Values(Encode(m, url), url) == Sextets(m)
    decreases |m|
  {
    hide Quad;
    if |m| == 1 {
      QuadValues(m[0], 0, 0, 2, url);
    } else if |m| == 2 {
      QuadValues(m[0], m[1], 0, 1, url);
    } else if |m| > 2 {
      QuadValues(m[0], m[1], m[2], 0, url);
      ValuesAppend(Quad(m[0], m[1], m[2], 0, url), Encode(m[3..], url), url);
      EncodedValues(m[3..], url);
    }
  }

  lemma FirstOctet(a: byte, h: nat)
    requires h < 16
    ensures First(a / 4, a % 4 * 16 + h) == a
  {
    var q, r := a / 4, a % 4;
    By16(r, h);
    assert a == 4 * q + r && (r * 16 + h) % 64 == r * 16 + h && q % 64 == q;
  }

  lemma By3(q: nat, r: nat)
    requires r < 3
    ensures (q * 3 + r) / 3 == q
  {
  }

  lemma By4(q: nat, r: nat)
    requires r < 4
    ensures (q * 4 + r) / 4 == q && (q * 4 + r) % 4 == r
  {
  }

  lemma By16(q: nat, r: nat)
    requires r < 16
    ensures (q * 16 + r) / 16 == q && (q * 16 + r) % 16 == r
  {
  }

  lemma SecondOctet(l: nat, b: byte, h: nat)
    requires l < 4 && h < 4
    ensures Second(l * 16 + b / 16, b % 16 * 4 + h) == b
  {
    var q, r := b / 16, b % 16;
    By16(l, q);
    By4(r, h);
    assert b == 16 * q + r && (r * 4 + h) % 64 == r * 4 + h;
  }

  lemma ThirdOctet(l: nat, c: byte)
    requires l < 16
    ensures Third(l * 4 + c / 64, c % 64) == c
  {
    var q, r := c / 64, c % 64;
    By4(l, q);
    assert c == 64 * q + r && r % 64 == r;
  }

  lemma ThreeOctets(a: byte, b: byte, c: byte)
    ensures First(a / 4, a % 4 * 16 + b / 16) == a
    ensures Second(a % 4 * 16 + b / 16, b % 16 * 4 + c / 64) == b
    ensures Third(b % 16 * 4 + c / 64, c % 64) == c
  {
    hide First, Second, Third;
    FirstOctet(a, b / 16);
    SecondOctet(a % 4, b, c / 64);
    ThirdOctet(b % 16, c);
  }

  lemma {:induction false} PackedSextets(m: bytes)
    ensures Pack(Sextets(m)) == m && |Sextets(m)| == (|m| * 4 + 2) / 3
    decreases |m|
  {
    hide First, Second, Third;
    if |m| == 1 {
      ThreeOctets(m[0], 0, 0);
    } else if |m| == 2 {
      ThreeOctets(m[0], m[1], 0);
    } else if |m| > 2 {
      ThreeOctets(m[0], m[1], m[2]);
      PackedSextets(m[3..]);
      assert Sextets(m)[4..] == Sextets(m[3..]);
      assert [m[0], m[1], m[2]] + m[3..] == m;
    }
  }

  /** Only padding and characters of the alphabet are written. */
  predicate Clean(s: bytes, url: bool) {
    forall i :: 0 <= i < |s| ==> s[i] == PAD || Value(s[i], url) != INV
  }

  lemma QuadIsClean(a: byte, b: byte, c: byte, padding: nat, url: bool)
    ensures Clean(Quad(a, b, c, padding, url), url)
  {
    var w, x, y, z: byte := a / 4, a % 4 * 16 + b / 16, b % 16 * 4 + c / 64, c % 64;
    AlphabetRoundTrip(w, url);
    AlphabetRoundTrip(x, url);
    AlphabetRoundTrip(y, url);
    AlphabetRoundTrip(z, url);
    hide Value, Char64;
  }

  lemma {:induction false} EncodedIsClean(m: bytes, url: bool)
    ensures Clean(Encode(m, url), url)
    decreases |m|
  {
    hide Quad, Value;
    if |m| == 1 {
      QuadIsClean(m[0], 0, 0, 2, url);
    } else if |m| == 2 {
      QuadIsClean(m[0], m[1], 0, 1, url);
    } else if |m| > 2 {
      QuadIsClean(m[0], m[1], m[2], 0, url);
      EncodedIsClean(m[3..], url);
    }
  }

  lemma CleanEnd(s: bytes, url: bool)
    requires Clean(s, url)
    ensures !StrayEnd(s, url)
  {
    var t := Unpadded(s);
    if t != [] { assert t[|t| - 1] == s[|t| - 1]; }
  }

  lemma DecodeByValues(s: bytes, url: bool)
    ensures Decode(s, url) == Pack(Values(s, url) + (if StrayEnd(s, url) then [INV] else []))
  {
    hide Pack, Values, Stream, Value;
    var t := Unpadded(s);
    PaddingHasNoValue(s, url);
    assert t[0..] == t;
    if t == [] {
      NoValues(url);
      StreamEnds(t, url);
      assert Stream(t, 0, url) == Values(t, url) + [];
    } else {
      StreamIsValues(t, 0, url);
    }
  }

  /**
   * Any text that has the characters of an encoded string, and others outside
   * the alphabet, decodes to the string, exactly if it does not end in one of
   * those others or the string fills all groups.
   */
  lemma StrayCharacters(s: bytes, m: bytes, url: bool)
    requires Values(s, url) == Values(Encode(m, url), url)
    ensures Decode(s, url) == m <==> !StrayEnd(s, url) || |m| % 3 == 0
  {
    hide Values, Encode, Value, Sextets, Decode, StrayEnd, Pack;
    DecodeByValues(s, url);
    EncodedValues(m, url);
    PackedSextets(m);
    var v := Sextets(m);
    assert v + [] == v;
    GroupCount(|m|, |v|);
    PackedSize(v);
    PackedSize(v + [INV]);
    if |m| % 3 == 0 { PackWhole(v, |m| / 3); }
  }

  lemma GroupCount(n: nat, k: nat)
    requires k == (n * 4 + 2) / 3
    ensures if n % 3 == 0 then k == 4 * (n / 3) else (k + 1) * 3 / 4 != k * 3 / 4
  {
    var q, r := n / 3, n % 3;
    assert n == 3 * q + r;
    if r == 0 {
      By3(4 * q, 2);
    } else if r == 1 {
      By3(4 * q + 2, 0);
      By4(3 * q + 1, 2);
      By4(3 * q + 2, 1);
    } else {
      By3(4 * q + 3, 1);
      By4(3 * q + 2, 1);
      By4(3 * q + 3, 0);
    }
  }

  lemma {:induction false} PackWhole(v: seq<sextet>, q: nat)
    requires |v| == 4 * q
    ensures Pack(v + [INV]) == Pack(v)
    decreases q
  {
    if q > 0 {
      assert (v + [INV])[4..] == v[4..] + [INV];
      PackWhole(v[4..], q - 1);
    }
  }

  /** Decoding an encoded string gives it back, in both alphabets. */
  lemma RoundTrip(m: bytes, url: bool)
    ensures Decode(Encode(m, url), url) == m
  {
    hide Values, Encode, Value, Decode, StrayEnd, Clean;
    EncodedIsClean(m, url);
    CleanEnd(Encode(m, url), url);
    StrayCharacters(Encode(m, url), m, url);
  }

  // ---------------------------------------------------------------------
  // The loops of the source
  // ---------------------------------------------------------------------

  method WriteQuad(out: array<byte>, po: nat, a: byte, b: byte, c: byte, padding: nat, url: bool)
    requires po + 4 <= out.Length
    modifies out
    ensures out[..po + 4] == old(out[..po]) + Quad(a, b, c, padding, url)
  {
    ghost var q := Quad(a, b, c, padding, url);
    out[po] := Char64(a / 4, url);
    out[po + 1] := Char64(a % 4 * 16 + b / 16, url);
    out[po + 2] := if padding < 2 then Char64(b % 16 * 4 + c / 64, url) else PAD;
    out[po + 3] := if padding < 1 then Char64(c % 64, url) else PAD;
    hide Quad, Char64;
    assert out[..po] == old(out[..po]);
  }

  /** One group of b64_encode. */
  method WriteNext(input: bytes, i: nat, out: array<byte>, po: nat, url: bool) returns (next: nat)
    requires i < |input| && po + 4 <= out.Length
    modifies out
    ensures i < next <= |input|
    ensures out[..po + 4] + Encode(input[next..], url) == old(out[..po]) + Encode(input[i..], url)
  {
    hide Quad;
    ghost var rest, done := input[i..], out[..po];
    var c1 := input[i];
    next := if i + 3 <= |input| then i + 3 else |input|;
    ghost var q;
    if i + 1 == |input| {
      WriteQuad(out, po, c1, 0, 0, 2, url);
      q := Quad(c1, 0, 0, 2, url);
    } else if i + 2 == |input| {
      WriteQuad(out, po, c1, input[i + 1], 0, 1, url);
      q := Quad(c1, input[i + 1], 0, 1, url);
    } else {
      assert rest[3..] == input[next..];
      WriteQuad(out, po, c1, input[i + 1], input[i + 2], 0, url);
      q := Quad(c1, input[i + 1], input[i + 2], 0, url);
    }
    assert Encode(rest, url) == q + Encode(input[next..], url);
    AppendQuad(done, q, Encode(input[next..], url));
  }

  lemma AppendQuad(a: bytes, b: bytes, c: bytes)
    ensures a + (b + c) == a + b + c
  {
  }

  /** b64_encode */
  method EncodeInto(input: bytes, output: array<byte>, url: bool) returns (ok: bool, len: nat)
    modifies output
    ensures ok == (output.Length >= |input| * 4 / 3 + 3)
    ensures ok ==> len <= output.Length && output[..len] == Encode(input, url)
  {
    hide Encode;
    if output.Length < |input| * 4 / 3 + 3 { return false, 0; }
    EncodedSize(input, url);
    var i := 0;
    len := 0;
    assert input[0..] == input;
    while i < |input|
      invariant 0 <= i <= |input| && len <= output.Length
      invariant output[..len] + Encode(input[i..], url) == Encode(input, url)
      decreases |input| - i
    {
      EncodedSize(input[i..], url);
      i := WriteNext(input, i, output, len, url);
      len := len + 4;
    }
    EncodedSize(input[i..], url);
    return true, len;
  }

  /** The inner loops of b64_decode: up to four values, without those characters that are skipped. */
  method Fill(t: bytes, start: nat, url: bool) returns (c: seq<sextet>, i: nat)
    requires start < |t|
    ensures start < i <= |t| && 1 <= |c| <= 4 && (|c| < 4 ==> i == |t|)
    ensures c + Stream(t, i, url) == Stream(t, start, url)
  {
    hide Value;
    c, i := [], start;
    assert [] + Stream(t, start, url) == Stream(t, start, url);
    while |c| < 4 && i < |t|
      invariant start <= i <= |t| && |c| <= 4 && (i == start <==> c == [])
      invariant c + Stream(t, i, url) == Stream(t, start, url)
      decreases |t| - i
    {
      var at := i;
      var v := Value(t[i], url);
      i := i + 1;
      while v == INV && i < |t|
        invariant at < i <= |t| && v == Value(t[i - 1], url)
        invariant Stream(t, at, url) == Stream(t, i - 1, url)
      {
        v := Value(t[i], url);
        i := i + 1;
      }
      assert c + ([v] + Stream(t, i, url)) == c + [v] + Stream(t, i, url);
      c := c + [v];
    }
  }

  /** The octets of one group of values, and of the last one if it is not full. */
  method WriteOctets(c: seq<sextet>, out: array<byte>, j: nat, ghost rest: seq<sextet>) returns (j': nat)
    requires 1 <= |c| <= 4 && j + |c| * 3 / 4 <= out.Length && (|c| < 4 ==> rest == [])
    modifies out
    ensures j' == j + |c| * 3 / 4 && out[..j'] + Pack(rest) == old(out[..j]) + Pack(c + rest)
  {
    hide First, Second, Third;
    ghost var done := out[..j];
    assert |c| < 4 ==> c + rest == c;
    j' := j;
    if |c| < 4 {
      if |c| > 1 {
        out[j'] := First(c[0], c[1]);
        j' := j' + 1;
        if |c| > 2 {
          out[j'] := Second(c[1], c[2]);
          j' := j' + 1;
        }
      }
      assert out[..j'] == done + Pack(c);
    } else {
      assert (c + rest)[4..] == rest;
      out[j] := First(c[0], c[1]);
      out[j + 1] := Second(c[1], c[2]);
      out[j + 2] := Third(c[2], c[3]);
      j' := j + 3;
      ghost var three := [First(c[0], c[1]), Second(c[1], c[2]), Third(c[2], c[3])];
      assert out[..j'] == done + three;
      AppendQuad(done, three, Pack(rest));
    }
  }

  method StripPadding(input: bytes) returns (len: nat)
    ensures len <= |input| && input[..len] == Unpadded(input)
  {
    len := |input|;
    assert input[..len] == input;
    while len != 0 && input[len - 1] == PAD
      invariant 0 <= len <= |input| && Unpadded(input[..len]) == Unpadded(input)
    {
      assert input[..len][..len - 1] == input[..len - 1];
      len := len - 1;
    }
  }

  /** b64_decode: the octets fit in three quarters of the text. */
  method DecodeInto(input: bytes, out: array<byte>, url: bool) returns (ok: bool, j: nat)
    modifies out
    ensures ok == (out.Length >= |Unpadded(input)| * 3 / 4)
    ensures ok ==> j <= out.Length && out[..j] == Decode(input, url)
  {
    hide Stream, Pack, Unpadded;
    var len := StripPadding(input);
    var t := input[..len];
    if out.Length < len * 3 / 4 { return false, 0; }
    var i := 0;
    j := 0;
    ghost var all := Pack(Stream(t, 0, url));
    assert out[..0] + all == all;
    StreamEnds(t, url);
    while i < len
      invariant 0 <= i <= len && j + |Stream(t, i, url)| * 3 / 4 <= out.Length
      invariant out[..j] + Pack(Stream(t, i, url)) == all
      decreases len - i
    {
      var c, next := Fill(t, i, url);
      Room(|c|, |Stream(t, next, url)|);
      j := WriteOctets(c, out, j, Stream(t, next, url));
      i := next;
    }
    PackedSize([]);
    assert out[..j] + [] == out[..j];
    return true, j;
  }

  lemma Room(c: nat, rest: nat)
    requires 1 <= c <= 4 && (c < 4 ==> rest == 0)
    ensures (c + rest) * 3 / 4 == c * 3 / 4 + rest * 3 / 4
  {
  }

  lemma StreamEnds(t: bytes, url: bool)
    ensures Stream(t, |t|, url) == []
  {
  }
}
