/** Octets and the character classes that several components share. */
module Bytes {

  type byte = x: int | 0 <= x < 256
  type bytes = seq<byte>

  datatype Option<+T> = None | Some(value: T)
  {
    predicate IsFailure() { None? }
    function PropagateFailure<U>(): Option<U> requires None? { None }
    function Extract(): T requires Some? { value }
  }

  function Lower(c: byte): byte {
    if 'A' as int <= c <= 'Z' as int then c + 32 else c
  }

  /**
   * pj_stricmp finds the strings equal: same length, and equal but for letter
   * case up to the first NUL.
   */
  predicate SameName(a: bytes, b: bytes) {
    |a| == |b| && forall i :: 0 <= i < |a| && (forall j :: 0 <= j < i ==> a[j] != 0) ==> Lower(a[i]) == Lower(b[i])
  }

  /** For strings without NUL this is equality up to letter case. */
  lemma SameNameWithoutNul(a: bytes, b: bytes)
    requires 0 !in a
    ensures SameName(a, b) <==> |a| == |b| && forall i :: 0 <= i < |a| ==> Lower(a[i]) == Lower(b[i])
  {
  }

  function HexDigit(v: nat): byte
    requires v < 16
  {
    if v < 10 then '0' as int + v else 'a' as int + v - 10
  }

  /** pj_hex_digit_to_val: total on octets, and right on hexadecimal digits. */
  function HexValue(c: byte): (v: nat)
    ensures v < 16
  {
    if c <= '9' as int then (c - '0' as int) % 16
    else if c <= 'F' as int then (c - 'A' as int + 10) % 16
    else (c - 'a' as int + 10) % 16
  }

  predicate IsHexDigit(c: byte) {
    || '0' as int <= c <= '9' as int
    || 'A' as int <= c <= 'F' as int
    || 'a' as int <= c <= 'f' as int
  }

  /** The values of the 22 hexadecimal digits. */
  predicate IsHex(d: int, v: int) {
    || (48 <= d <= 57 && v == d - 48)
    || (65 <= d <= 70 && v == d - 55)
    || (97 <= d <= 102 && v == d - 87)
  }

  /** Digits of both cases are read; those written are of lower case. */
  lemma HexIsRight(d: byte, v: nat)
    requires v < 16
    ensures IsHexDigit(d) <==> IsHex(d, HexValue(d))
    ensures IsHexDigit(d) ==> (HexValue(d) == v <==> IsHex(d, v))
    ensures IsHex(HexDigit(v), v) && !(65 <= HexDigit(v) <= 70)
  {
  }

  lemma HexRoundTrip(c: byte)
    ensures IsHexDigit(HexDigit(c / 16)) && IsHexDigit(HexDigit(c % 16))
    ensures HexValue(HexDigit(c / 16)) * 16 + HexValue(HexDigit(c % 16)) == c
  {
  }

  /** pkt has the octets b at p. */
  predicate At(pkt: bytes, p: nat, b: bytes) {
    p + |b| <= |pkt| && pkt[p..p + |b|] == b
  }

  lemma AtSplit(pkt: bytes, p: nat, a: bytes, b: bytes)
    requires At(pkt, p, a + b)
    ensures At(pkt, p, a) && At(pkt, p + |a|, b)
  {
    assert pkt[p..p + |a|] == pkt[p..p + |a + b|][..|a|];
    assert pkt[p + |a|..p + |a| + |b|] == pkt[p..p + |a + b|][|a|..];
  }

  lemma AtGrows(out: bytes, pkt: bytes, p: nat, b: bytes)
    requires out <= pkt && At(out, p, b)
    ensures At(pkt, p, b)
  {
  }

  lemma AtEnd(pkt: bytes, a: bytes, b: bytes)
    requires a + b <= pkt
    ensures At(pkt, |a|, b) && a <= pkt
  {
    assert (a + b)[|a|..] == b;
  }

  lemma AtFirst(pkt: bytes, p: nat, b: bytes)
    requires At(pkt, p, b) && b != []
    ensures p < |pkt| && pkt[p] == b[0]
  {
    assert pkt[p..p + |b|][0] == pkt[p];
  }

  lemma AtIndex(pkt: bytes, p: nat, b: bytes, k: nat)
    requires At(pkt, p, b) && k < |b|
    ensures p + k < |pkt| && pkt[p + k] == b[k]
  {
    assert pkt[p..p + |b|][k] == pkt[p + k];
  }

  /** A string given in pieces. */
  function Concat<T>(pieces: seq<seq<T>>): seq<T> {
    if pieces == [] then [] else Concat(pieces[..|pieces| - 1]) + pieces[|pieces| - 1]
  }
}
