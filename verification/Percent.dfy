/** Percent-escaping (string.c, and pj_scan_get_unescape in scanner.c). */
module Percent {
  import opened Bytes

  const PERCENT: byte := '%' as int

  // ---------------------------------------------------------------------
  // Escaping: section 2.1 of RFC 3986
  // ---------------------------------------------------------------------

  function EscapeByte(c: byte, unres: set<byte>): (r: bytes)
    ensures |r| == 1 || |r| == 3
  {
    if c in unres then [c] else [PERCENT, HexDigit(c / 16), HexDigit(c % 16)]
  }

  function Escape(s: bytes, unres: set<byte>): (r: bytes)
    ensures |r| >= |s|
  {
    if s == [] then [] else EscapeByte(s[0], unres) + Escape(s[1..], unres)
  }

  lemma {:induction false} EscapeAppend(a: bytes, b: bytes, unres: set<byte>)
    ensures Escape(a + b, unres) == Escape(a, unres) + Escape(b, unres)
    decreases |a|
  {
    hide EscapeByte;
    if a == [] {
      assert [] + b == b;
    } else {
      assert (a + b)[1..] == a[1..] + b;
      EscapeAppend(a[1..], b, unres);
    }
  }

  lemma EscapeSnoc(s: bytes, i: nat, unres: set<byte>)
    requires i < |s|
    ensures Escape(s[..i + 1], unres) == Escape(s[..i], unres) + EscapeByte(s[i], unres)
    ensures |Escape(s[..i + 1], unres)| <= |Escape(s, unres)|
  {
    hide EscapeByte;
    assert s[..i + 1] == s[..i] + [s[i]];
    EscapeAppend(s[..i], [s[i]], unres);
    assert s == s[..i + 1] + s[i + 1..];
    EscapeAppend(s[..i + 1], s[i + 1..], unres);
    assert Escape([s[i]], unres) == EscapeByte(s[i], unres) + Escape([], unres);
  }

  /**
   * pj_strncpy2_escape: succeeds exactly if the escape fits in max octets, and
   * never writes beyond them.
   */
  method EscapeInto(dst: array<byte>, src: bytes, max: int, unres: set<byte>) returns (len: int)
    requires max <= dst.Length
    modifies dst
    ensures len == if |Escape(src, unres)| <= max then |Escape(src, unres)| else -1
    ensures len >= 0 ==> dst[..len] == Escape(src, unres)
    ensures forall k :: 0 <= k < dst.Length && k >= max ==> dst[k] == old(dst[k])
  {
    hide Escape, EscapeByte;
    if max < |src| { return -1; }
    var i, d := 0, 0;
    EscapeNone(src, unres);
    while i != |src| && d != max
      invariant 0 <= i <= |src| && 0 <= d <= max && d == |Escape(src[..i], unres)|
      invariant dst[..d] == Escape(src[..i], unres)
      invariant forall k :: 0 <= k < dst.Length && k >= max ==> dst[k] == old(dst[k])
      decreases |src| - i
    {
      EscapeSnoc(src, i, unres);
      EscapeByteIs(src[i], unres);
      if src[i] in unres {
        dst[d] := src[i];
        d := d + 1;
      } else if d < max - 2 {
        dst[d] := PERCENT;
        dst[d + 1] := HexDigit(src[i] / 16);
        dst[d + 2] := HexDigit(src[i] % 16);
        d := d + 3;
      } else {
        return -1;
      }
      i := i + 1;
    }
    if i != |src| {
      EscapeSnoc(src, i, unres);
      return -1;
    }
    assert src[..i] == src;
    return d;
  }

  lemma EscapeNone(s: bytes, unres: set<byte>)
    ensures Escape(s[..0], unres) == []
  {
  }

  lemma EscapeByteIs(c: byte, unres: set<byte>)
    ensures EscapeByte(c, unres) == if c in unres then [c] else [PERCENT, HexDigit(c / 16), HexDigit(c % 16)]
  {
  }

  // ---------------------------------------------------------------------
  // Unescaping
  // ---------------------------------------------------------------------

  /** A percent sign and two hexadecimal digits stand at i. */
  predicate IsEscape(s: bytes, i: nat) {
    i + 3 <= |s| && s[i] == PERCENT && IsHexDigit(s[i + 1]) && IsHexDigit(s[i + 2])
  }

  function EscapeValue(s: bytes, i: nat): byte
    requires IsEscape(s, i)
  {
    HexValue(s[i + 1]) * 16 + HexValue(s[i + 2])
  }

  function Unescape(s: bytes, i: nat): (r: bytes)
    requires i <= |s|
    ensures |r| <= |s| - i
    decreases |s| - i
  {
    if i == |s| then []
    else if IsEscape(s, i) then [EscapeValue(s, i)] + Unescape(s, i + 3)
    else [s[i]] + Unescape(s, i + 1)
  }

  /** pj_strcpy_unescape; pj_str_unescape does the same in a new buffer. */
  method UnescapeInto(dst: array<byte>, src: bytes) returns (slen: nat)
    requires dst.Length >= |src|
    modifies dst
    ensures slen <= |src| && dst[..slen] == Unescape(src, 0)
  {
    hide Unescape, IsEscape, EscapeValue;
    var i := 0;
    slen := 0;
    ghost var done: bytes := [];
    while i != |src|
      invariant 0 <= slen <= i <= |src| && dst[..slen] == done && done + Unescape(src, i) == Unescape(src, 0)
      decreases |src| - i
    {
      UnescapeStep(src, i);
      var c, next := src[i], i + 1;
      if IsEscape(src, i) { c, next := EscapeValue(src, i), i + 3; }
      assert done + ([c] + Unescape(src, next)) == done + [c] + Unescape(src, next);
      dst[slen] := c;
      slen, i, done := slen + 1, next, done + [c];
    }
    UnescapeStep(src, i);
    assert done + [] == done;
  }

  lemma UnescapeStep(s: bytes, i: nat)
    requires i <= |s|
    ensures i == |s| ==> Unescape(s, i) == []
    ensures i < |s| && IsEscape(s, i) ==> i + 3 <= |s| && Unescape(s, i) == [EscapeValue(s, i)] + Unescape(s, i + 3)
    ensures i < |s| && !IsEscape(s, i) ==> Unescape(s, i) == [s[i]] + Unescape(s, i + 1)
  {
  }

  /** pj_str_unescape */
  method UnescapeNew(src: bytes) returns (r: bytes)
    ensures r == Unescape(src, 0)
  {
    if PERCENT !in src {
      WithoutPercent(src, 0);
      return src;
    }
    var dst := new byte[|src|];
    var slen := UnescapeInto(dst, src);
    return dst[..slen];
  }

  lemma {:induction false} WithoutPercent(s: bytes, i: nat)
    requires i <= |s| && PERCENT !in s
    ensures Unescape(s, i) == s[i..]
    decreases |s| - i
  {
    if i < |s| {
      WithoutPercent(s, i + 1);
      assert [s[i]] + s[i + 1..] == s[i..];
    }
  }

  /** A digit of either case. */
  predicate IsDigit(d: int) {
    48 <= d <= 57 || 65 <= d <= 70 || 97 <= d <= 102
  }

  /**
   * The text from p on spells s: each octet by a percent sign and two digits
   * of either case, or as it is; a percent sign as it is only if no two digits
   * follow.
   */
  ghost predicate Spells(t: bytes, p: nat, s: bytes)
    decreases |s|
  {
    if s == [] then p == |t|
    else
      && p < |t|
      && if t[p] == 37 && p + 2 < |t| && IsDigit(t[p + 1]) && IsDigit(t[p + 2])
         then IsHex(t[p + 1], s[0] / 16) && IsHex(t[p + 2], s[0] % 16) && Spells(t, p + 3, s[1..])
         else t[p] == s[0] && Spells(t, p + 1, s[1..])
  }

  /** Unescaping gives exactly what the text spells. */
  lemma {:induction false} UnescapeIsSpelled(t: bytes, p: nat, s: bytes)
    requires p <= |t|
    ensures Unescape(t, p) == s <==> Spells(t, p, s)
    decreases |s|
  {
    hide HexValue, IsHex;
    if s != [] && p < |t| {
      assert s == [s[0]] + s[1..];
      if IsEscape(t, p) {
        UnescapeIsSpelled(t, p + 3, s[1..]);
        HexPair(t[p + 1], t[p + 2], s[0]);
        SameList(EscapeValue(t, p), Unescape(t, p + 3), s[0], s[1..]);
      } else {
        UnescapeIsSpelled(t, p + 1, s[1..]);
        SameList(t[p], Unescape(t, p + 1), s[0], s[1..]);
      }
    }
  }

  lemma SameList(a: byte, u: bytes, b: byte, v: bytes)
    ensures [a] + u == [b] + v <==> a == b && u == v
  {
    assert ([a] + u)[0] == a && ([b] + v)[0] == b && ([a] + u)[1..] == u && ([b] + v)[1..] == v;
  }

  lemma HexPair(d: byte, e: byte, c: byte)
    requires IsHexDigit(d) && IsHexDigit(e)
    ensures HexValue(d) * 16 + HexValue(e) == c <==> IsHex(d, c / 16) && IsHex(e, c % 16)
  {
    hide HexValue, IsHex, IsHexDigit;
    HexIsRight(d, c / 16);
    HexIsRight(e, c % 16);
  }

  // ---------------------------------------------------------------------
  // Round trip
  // ---------------------------------------------------------------------

  /** The set does not have both the percent sign and a hexadecimal digit. */
  predicate IsSafe(unres: set<byte>) {
    PERCENT !in unres || forall c: byte :: IsHexDigit(c) ==> c !in unres
  }

  lemma EscapeDecodes(t: bytes, p: nat, c: byte)
    requires At(t, p, [PERCENT, HexDigit(c / 16), HexDigit(c % 16)])
    ensures IsEscape(t, p) && EscapeValue(t, p) == c
  {
    hide At, HexDigit, HexValue;
    var e := [PERCENT, HexDigit(c / 16), HexDigit(c % 16)];
    AtIndex(t, p, e, 0);
    AtIndex(t, p, e, 1);
    AtIndex(t, p, e, 2);
    HexRoundTrip(c);
  }

  /** What follows an octet that is kept cannot be taken for the rest of an escape. */
  lemma FirstIsNoDigit(s: bytes, unres: set<byte>)
    requires PERCENT in unres && IsSafe(unres) && s != []
    ensures !IsHexDigit(Escape(s, unres)[0])
  {
  }

  lemma KeptByte(t: bytes, p: nat, c: byte, rest: bytes, unres: set<byte>)
    requires IsSafe(unres) && c in unres && At(t, p, [c]) && At(t, p + 1, Escape(rest, unres))
    requires p + 1 + |Escape(rest, unres)| == |t|
    ensures t[p] == c && !IsEscape(t, p)
  {
    hide At, IsSafe, Escape;
    AtFirst(t, p, [c]);
    if c == PERCENT && rest != [] {
      FirstIsNoDigit(rest, unres);
      AtFirst(t, p + 1, Escape(rest, unres));
    } else if c == PERCENT {
      EscapeNone(rest, unres);
      assert rest == rest[..0];
    }
  }

  lemma {:induction false} EscapeComesBack(t: bytes, p: nat, s: bytes, unres: set<byte>)
    requires IsSafe(unres) && At(t, p, Escape(s, unres)) && p + |Escape(s, unres)| == |t|
    ensures Unescape(t, p) == s
    decreases |s|
  {
    hide At, IsSafe, IsEscape, EscapeValue, EscapeByte;
    if s != [] {
      var e := EscapeByte(s[0], unres);
      AtSplit(t, p, e, Escape(s[1..], unres));
      EscapeByteIs(s[0], unres);
      EscapeComesBack(t, p + |e|, s[1..], unres);
      assert [s[0]] + s[1..] == s;
      if s[0] in unres {
        KeptByte(t, p, s[0], s[1..], unres);
      } else {
        EscapeDecodes(t, p, s[0]);
      }
    }
  }

  predicate ComesBack(s: bytes, unres: set<byte>) { Unescape(Escape(s, unres), 0) == s }

  /** Every string comes back exactly if the set does not have both a percent sign and a hexadecimal digit. */
  lemma RoundTripIffSafe(unres: set<byte>)
    ensures (forall s: bytes :: ComesBack(s, unres)) <==> IsSafe(unres)
  {
    hide Escape, Unescape;
    if IsSafe(unres) {
      forall s: bytes ensures ComesBack(s, unres) { EscapeComesBack(Escape(s, unres), 0, s, unres); }
    } else {
      var c: byte :| IsHexDigit(c) && c in unres;
      Mistaken(c, unres);
    }
  }

  lemma Mistaken(c: byte, unres: set<byte>)
    requires IsHexDigit(c) && c in unres && PERCENT in unres
    ensures !ComesBack([PERCENT, c, c], unres)
  {
    var s := [PERCENT, c, c];
    assert s[1..] == [c, c] && [c, c][1..] == [c] && [c][1..] == [];
    assert Escape([c], unres) == [c];
    assert Escape([c, c], unres) == [c, c];
    assert Escape(s, unres) == s;
    assert |Unescape(s, 3)| == 0;
  }

  // ---------------------------------------------------------------------
  // Unescaping a token in place
  // ---------------------------------------------------------------------

  /** The decoded token and the position after it. */
  datatype Token = Token(text: bytes, end: nat)
  {
    function Prepend(b: bytes): Token { Token(b + text, end) }
  }

  /** The token at s: octets of the set and escapes; a percent sign that is no escape ends it, with the octet after it. */
  function TokenAt(t: bytes, s: nat, spec: set<byte>): (r: Token)
    requires s <= |t|
    ensures s <= r.end <= |t| && |r.text| <= r.end - s
    decreases |t| - s
  {
    if s == |t| then Token([], s)
    else if t[s] == PERCENT then
      if IsEscape(t, s) then TokenAt(t, s + 3, spec).Prepend([EscapeValue(t, s)])
      else if s + 1 < |t| then Token(t[s..s + 2], s + 2)
      else Token(t[s..], s + 1)
    else if t[s] in spec then TokenAt(t, s + 1, spec).Prepend([t[s]])
    else Token([], s)
  }

  lemma PrependTwice(t: Token, a: bytes, b: bytes)
    ensures t.Prepend(b).Prepend(a) == t.Prepend(a + b)
  {
    assert a + (b + t.text) == a + b + t.text;
  }

  /** An escaped string, followed by the end or by an octet outside the set, is the whole token. */
  lemma {:induction false} TokenIsEscape(t: bytes, p: nat, s: bytes, spec: set<byte>)
    requires PERCENT !in spec && At(t, p, Escape(s, spec)) && p + |Escape(s, spec)| <= |t|
    requires var q := p + |Escape(s, spec)|; q < |t| ==> t[q] != PERCENT && t[q] !in spec
    ensures TokenAt(t, p, spec) == Token(s, p + |Escape(s, spec)|)
    decreases |s|
  {
    hide At, IsEscape, EscapeValue, EscapeByte;
    if s != [] {
      var e := EscapeByte(s[0], spec);
      AtSplit(t, p, e, Escape(s[1..], spec));
      EscapeByteIs(s[0], spec);
      TokenIsEscape(t, p + |e|, s[1..], spec);
      assert [s[0]] + s[1..] == s;
      AtFirst(t, p, e);
      if s[0] !in spec { EscapeDecodes(t, p, s[0]); }
    }
  }

  class Buffer {
    const a: array<byte>
    var cur: nat

    ghost predicate Valid()
      reads this
    {
      cur <= a.Length
    }

    /** The buffer holds out at start, and from src on what it held before. */
    ghost predicate Holds(before: bytes, start: nat, dst: nat, src: nat, out: bytes)
      reads this, a
    {
      && |before| == a.Length && start <= dst <= src <= a.Length && |out| == dst - start
      && (forall k :: start <= k < dst ==> a[k] == out[k - start])
      && (forall k :: 0 <= k < start ==> a[k] == before[k])
      && (forall k :: src <= k < a.Length ==> a[k] == before[k])
    }

    /** memmove towards the beginning */
    method MoveDown(dst: nat, src: nat, n: nat)
      requires dst <= src && src + n <= a.Length
      modifies a
      ensures forall k :: dst <= k < dst + n ==> a[k] == old(a[..])[k - dst + src]
      ensures forall k :: 0 <= k < a.Length && !(dst <= k < dst + n) ==> a[k] == old(a[k])
    {
      ghost var was := a[..];
      for i := 0 to n
        invariant forall k :: dst <= k < dst + i ==> a[k] == was[k - dst + src]
        invariant forall k :: 0 <= k < a.Length && !(dst <= k < dst + i) ==> a[k] == was[k]
      {
        a[dst + i] := a[src + i];
      }
    }

    /** The end of the run of octets of the set at src. */
    method EndOfRun(spec: set<byte>, ghost before: bytes, src: nat, ghost out: bytes) returns (end: nat)
      requires PERCENT !in spec && |before| == a.Length && src <= a.Length
      requires forall k :: src <= k < a.Length ==> a[k] == before[k]
      ensures src <= end <= a.Length && (end < a.Length ==> before[end] !in spec)
      ensures TokenAt(before, end, spec).Prepend(out + before[src..end]) == TokenAt(before, src, spec).Prepend(out)
      ensures src < a.Length && before[src] in spec ==> src < end
    {
      end := src;
      assert out + before[src..src] == out;
      while end != a.Length && a[end] in spec
        invariant src <= end <= a.Length
        invariant TokenAt(before, end, spec).Prepend(out + before[src..end]) == TokenAt(before, src, spec).Prepend(out)
        decreases a.Length - end
      {
        assert out + before[src..end + 1] == out + before[src..end] + [before[end]];
        PrependTwice(TokenAt(before, end + 1, spec), out + before[src..end], [before[end]]);
        end := end + 1;
      }
    }

    /**
     * pj_scan_get_unescape, without skipping of white space: the token is
     * decoded at its own place in the buffer, and nothing but the octets it
     * took is changed.
     */
    method GetUnescape(spec: set<byte>) returns (ok: bool, len: nat)
      requires Valid() && 0 !in spec && PERCENT !in spec
      modifies a, `cur
      ensures Valid() && ok == (old(cur) < a.Length && (old(a[..])[old(cur)] in spec || old(a[..])[old(cur)] == PERCENT))
      ensures ok ==> var token := TokenAt(old(a[..]), old(cur), spec);
                     cur == token.end && len == |token.text| && Holds(old(a[..]), old(cur), old(cur) + len, cur, token.text)
      ensures !ok ==> cur == old(cur) && a[..] == old(a[..])
    {
      hide TokenAt, IsEscape, EscapeValue;
      if cur >= a.Length || (a[cur] !in spec && a[cur] != PERCENT) { return false, 0; }
      ghost var before := a[..];
      var start: nat, s: nat, dst: nat := cur, cur, cur;
      ghost var out: bytes := [];
      ghost var all := TokenAt(before, start, spec);
      PrependNothing(all);
      var first := true;
      while first || (s != a.Length && a[s] == PERCENT)
        invariant Holds(before, start, dst, s, out) && cur == start
        invariant TokenAt(before, s, spec).Prepend(out) == all
        invariant if first then s == start else s < a.Length ==> before[s] !in spec
        decreases a.Length - s
      {
        first := false;
        var more;
        more, s, dst, out := CopyPiece(spec, before, start, dst, s, out);
        if !more {
          cur := s;
          return true, dst - start;
        }
      }
      TokenEnds(before, s, spec, out);
      cur := s;
      return true, dst - start;
    }

    /** One round of the loop: an escape, if there is one, and a run of octets of the set; or the end of the token. */
    method CopyPiece(spec: set<byte>, ghost before: bytes, ghost start: nat, dst: nat, src: nat, ghost out: bytes)
        returns (more: bool, src': nat, dst': nat, ghost out': bytes)
      requires PERCENT !in spec && Holds(before, start, dst, src, out) && src < a.Length
      requires before[src] in spec || before[src] == PERCENT
      modifies a
      ensures Holds(before, start, dst', src', out') && src < src'
      ensures more ==> src' < a.Length ==> before[src'] !in spec
      ensures var all := TokenAt(before, src, spec).Prepend(out);
              if more then TokenAt(before, src', spec).Prepend(out') == all else all == Token(out', src')
    {
      hide TokenAt, IsEscape, EscapeValue;
      src', dst', out' := src, dst, out;
      if a[src] == PERCENT {
        PercentToken(before, src, spec, out);
        more, src', dst', out' := CopyPercent(before, start, dst, src, out);
        if !more { return; }
      }
      src', dst', out' := CopyRun(spec, before, start, dst', src', out');
      more := true;
    }

    /** An escape is decoded; a percent sign that is no escape is kept, with the octet after it. */
    method CopyPercent(ghost before: bytes, ghost start: nat, dst: nat, src: nat, ghost out: bytes)
        returns (isEscape: bool, src': nat, dst': nat, ghost out': bytes)
      requires Holds(before, start, dst, src, out) && src < a.Length && a[src] == PERCENT
      modifies a
      ensures isEscape == IsEscape(before, src)
      ensures isEscape ==> src' == src + 3 && out' == out + [EscapeValue(before, src)]
      ensures !isEscape ==> src' == (if src + 1 < a.Length then src + 2 else src + 1) && out' == out + before[src..src']
      ensures Holds(before, start, dst', src', out')
    {
      hide EscapeValue, IsEscape;
      SameEscape(a[..], before, src);
      isEscape := IsEscape(a[..], src);
      if isEscape {
        EscapeIsLong(before, src);
        a[dst] := EscapeValue(a[..], src);
        src', dst', out' := src + 3, dst + 1, out + [EscapeValue(before, src)];
      } else {
        src', dst', out' := CopyLiteral(before, start, dst, src, out);
      }
    }

    method CopyRun(spec: set<byte>, ghost before: bytes, ghost start: nat, dst: nat, src: nat, ghost out: bytes)
        returns (src': nat, dst': nat, ghost out': bytes)
      requires PERCENT !in spec && Holds(before, start, dst, src, out)
      modifies a
      ensures Holds(before, start, dst', src', out') && src <= src'
      ensures src' < a.Length ==> before[src'] !in spec
      ensures src < a.Length && before[src] in spec ==> src < src'
      ensures TokenAt(before, src', spec).Prepend(out') == TokenAt(before, src, spec).Prepend(out)
    {
      hide TokenAt;
      src' := EndOfRun(spec, before, src, out);
      if dst != src { MoveDown(dst, src, src' - src); }
      dst', out' := dst + (src' - src), out + before[src..src'];
    }

    /** A percent sign that is no escape, and the octet after it, are kept. */
    method CopyLiteral(ghost before: bytes, ghost start: nat, dst: nat, src: nat, ghost out: bytes)
        returns (src': nat, dst': nat, ghost out': bytes)
      requires Holds(before, start, dst, src, out) && src < a.Length
      modifies a
      ensures src' == (if src + 1 < a.Length then src + 2 else src + 1) && out' == out + before[src..src']
      ensures Holds(before, start, dst', src', out')
    {
      a[dst] := a[src];
      src', dst' := src + 1, dst + 1;
      if src' != a.Length {
        a[dst'] := a[src'];
        src', dst' := src' + 1, dst' + 1;
      }
      out' := out + before[src..src'];
    }
  }

  lemma PrependNothing(t: Token)
    ensures t.Prepend([]) == t
  {
    assert [] + t.text == t.text;
  }

  lemma SameEscape(a: bytes, before: bytes, s: nat)
    requires |a| == |before| && forall k :: s <= k < |a| ==> a[k] == before[k]
    ensures IsEscape(a, s) == IsEscape(before, s) && (IsEscape(a, s) ==> EscapeValue(a, s) == EscapeValue(before, s))
  {
  }

  lemma EscapeIsLong(t: bytes, s: nat)
    requires IsEscape(t, s)
    ensures s + 3 <= |t|
  {
  }

  lemma PercentToken(t: bytes, s: nat, spec: set<byte>, out: bytes)
    requires s < |t| && t[s] == PERCENT
    ensures IsEscape(t, s) ==>
              s + 3 <= |t| && TokenAt(t, s + 3, spec).Prepend(out + [EscapeValue(t, s)]) == TokenAt(t, s, spec).Prepend(out)
    ensures !IsEscape(t, s) ==>
              var end := if s + 1 < |t| then s + 2 else s + 1; TokenAt(t, s, spec).Prepend(out) == Token(out + t[s..end], end)
  {
    if IsEscape(t, s) { PrependTwice(TokenAt(t, s + 3, spec), out, [EscapeValue(t, s)]); }
  }

  lemma TokenEnds(t: bytes, s: nat, spec: set<byte>, out: bytes)
    requires s <= |t| && (s < |t| ==> t[s] != PERCENT && t[s] !in spec)
    ensures TokenAt(t, s, spec).Prepend(out) == Token(out, s)
  {
    assert out + [] == out;
  }
}
