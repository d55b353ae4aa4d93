/** Escaped strings in JSON text (json.c, write_string_escaped and parse_quoted_string). */
module JsonStrings {
  import opened Bytes
  import opened Scanner

  const QUOTE: byte := '\"' as int
  const ESC_BUF_LEN: nat := 64

  /** The letter after the backslash for octets with a short escape. */
  function ShortEscape(c: byte): Option<byte> {
    if c == QUOTE || c == SLASH || c == '/' as int then Some(c)
    else if c == 8 then Some('b' as int)
    else if c == 12 then Some('f' as int)
    else if c == '\n' as int then Some('n' as int)
    else if c == '\r' as int then Some('r' as int)
    else if c == '\t' as int then Some('t' as int)
    else None
  }

  function EscapeByte(c: byte): (r: bytes)
    ensures 1 <= |r| <= 6
  {
    if ShortEscape(c).Some? then [SLASH, ShortEscape(c).value]
    else if 32 <= c < 127 then [c]
    else [SLASH, 'u' as byte, '0' as byte, '0' as byte, HexDigit(c / 16), HexDigit(c % 16)]
  }

  /** The escape of a string, octet by octet. */
  function Escape(v: bytes): (r: bytes)
    ensures |r| >= |v|
  {
    if v == [] then [] else EscapeByte(v[0]) + Escape(v[1..])
  }

  lemma {:induction false} EscapeAppend(a: bytes, b: bytes)
    ensures Escape(a + b) == Escape(a) + Escape(b)
    decreases |a|
  {
    if a == [] {
      assert [] + b == b;
    } else {
      assert (a + b)[1..] == a[1..] + b;
      EscapeAppend(a[1..], b);
    }
  }

  lemma EscapeSnoc(v: bytes, i: nat)
    requires i < |v|
    ensures Escape(v[..i + 1]) == Escape(v[..i]) + EscapeByte(v[i])
  {
    assert v[..i + 1] == v[..i] + [v[i]];
    EscapeAppend(v[..i], [v[i]]);
  }

  // ---------------------------------------------------------------------
  // Reading an escaped string
  // ---------------------------------------------------------------------

  /** What an escaped string stands for, or where it is wrong. */
  datatype Decoded = Text(text: bytes) | Bad(at: nat)
  {
    function Prepend(b: bytes): Decoded {
      if Text? then Text(b + text) else this
    }
  }

  /** The octet a letter after a backslash stands for. */
  function ShortValue(c: byte): Option<byte> {
    if c == QUOTE || c == SLASH || c == '/' as int then Some(c)
    else if c == 'b' as int then Some(8)
    else if c == 'f' as int then Some(12)
    else if c == 'n' as int then Some('\n' as int)
    else if c == 'r' as int then Some('\r' as int)
    else if c == 't' as int then Some('\t' as int)
    else None
  }

  function Unescape(s: bytes, i: nat): (r: Decoded)
    requires i <= |s|
    ensures r.Bad? ==> i < r.at <= |s|
    decreases |s| - i
  {
    if i == |s| then Text([])
    else if s[i] != SLASH then Unescape(s, i + 1).Prepend([s[i]])
    else if i + 1 == |s| then Bad(i + 1)
    else if s[i + 1] == 'u' as int then
      if |s| - (i + 2) < 4 then Bad(|s| - 1)
      else Unescape(s, i + 6).Prepend([HexValue(s[i + 4]) * 16 + HexValue(s[i + 5])])
    else if ShortValue(s[i + 1]).Some? then Unescape(s, i + 2).Prepend([ShortValue(s[i + 1]).value])
    else Bad(i + 1)
  }

  lemma {:induction false} WithoutSlash(s: bytes, i: nat)
    requires i <= |s| && forall j :: i <= j < |s| ==> s[j] != SLASH
    ensures Unescape(s, i) == Text(s[i..])
    decreases |s| - i
  {
    if i < |s| {
      WithoutSlash(s, i + 1);
      assert [s[i]] + s[i + 1..] == s[i..];
    }
  }

  /** One step of the loop of parse_quoted_string: an octet and where to go on, or where it is wrong. */
  method DecodeOne(token: bytes, ip: nat) returns (c: byte, next: nat, err: nat)
    requires ip < |token|
    ensures err == 0 ==> ip < next <= |token| && Unescape(token, ip) == Unescape(token, next).Prepend([c])
    ensures err != 0 ==> Unescape(token, ip) == Bad(err)
  {
    hide ShortValue, HexValue;
    c, next, err := token[ip], ip + 1, 0;
    if token[ip] == SLASH {
      if ip + 1 == |token| { return 0, 0, ip + 1; }
      if token[ip + 1] == 'u' as int {
        if |token| - (ip + 2) < 4 { return 0, 0, |token| - 1; }
        c, next := HexValue(token[ip + 4]) * 16 + HexValue(token[ip + 5]), ip + 6;
      } else if ShortValue(token[ip + 1]).Some? {
        c, next := ShortValue(token[ip + 1]).value, ip + 2;
      } else {
        return 0, 0, ip + 1;
      }
    }
  }

  /** The loop of parse_quoted_string; err is 0 on success, and an index that is never 0 on failure. */
  method Decode(token: bytes) returns (out: bytes, err: nat)
    ensures match Unescape(token, 0)
            case Text(text) => err == 0 && out == text
            case Bad(at) => err == at != 0
  {
    hide Unescape;
    if SLASH !in token {
      WithoutSlash(token, 0);
      return token, 0;
    }
    out := [];
    var ip := 0;
    ghost var all := Unescape(token, 0);
    assert all.Text? ==> [] + all.text == all.text;
    while ip != |token|
      invariant 0 <= ip <= |token| && Unescape(token, ip).Prepend(out) == all
      decreases |token| - ip
    {
      var c, next;
      c, next, err := DecodeOne(token, ip);
      if err != 0 { return; }
      PrependTwice(Unescape(token, next), out, [c]);
      out, ip := out + [c], next;
    }
    UnescapeEnd(token);
    assert out + [] == out;
    return out, 0;
  }

  lemma UnescapeEnd(token: bytes)
    ensures Unescape(token, |token|) == Text([])
  {
  }

  lemma PrependTwice(d: Decoded, a: bytes, b: bytes)
    ensures d.Prepend(b).Prepend(a) == d.Prepend(a + b)
  {
    if d.Text? { assert a + (b + d.text) == a + b + d.text; }
  }

  // ---------------------------------------------------------------------
  // Round trip
  // ---------------------------------------------------------------------

  lemma DecodeByte(s: bytes, i: nat, c: byte)
    requires At(s, i, EscapeByte(c))
    ensures Unescape(s, i) == Unescape(s, i + |EscapeByte(c)|).Prepend([c])
  {
    hide At, HexDigit, HexValue;
    AtIndex(s, i, EscapeByte(c), 0);
    if |EscapeByte(c)| == 2 {
      AtIndex(s, i, EscapeByte(c), 1);
    } else if |EscapeByte(c)| == 6 {
      DecodeHex(s, i, c);
    }
  }

  lemma DecodeHex(s: bytes, i: nat, c: byte)
    requires At(s, i, EscapeByte(c)) && |EscapeByte(c)| == 6
    ensures Unescape(s, i) == Unescape(s, i + 6).Prepend([c])
  {
    hide At, HexDigit, HexValue, ShortValue;
    AtIndex(s, i, EscapeByte(c), 0);
    AtIndex(s, i, EscapeByte(c), 1);
    AtIndex(s, i, EscapeByte(c), 4);
    AtIndex(s, i, EscapeByte(c), 5);
    HexRoundTrip(c);
  }

  /** Every string comes back from its escape. */
  lemma {:induction false} EscapeRoundTrip(s: bytes, i: nat, v: bytes)
    requires At(s, i, Escape(v)) && i + |Escape(v)| == |s|
    ensures Unescape(s, i) == Text(v)
    decreases |v|
  {
    hide EscapeByte, At;
    if v != [] {
      AtSplit(s, i, EscapeByte(v[0]), Escape(v[1..]));
      DecodeByte(s, i, v[0]);
      EscapeRoundTrip(s, i + |EscapeByte(v[0])|, v[1..]);
      assert [v[0]] + v[1..] == v;
    }
  }

  lemma PassByte(t: bytes, s: nat, c: byte)
    requires At(t, s, EscapeByte(c))
    ensures Unescaped(t, s, false, QUOTE) == Unescaped(t, s + |EscapeByte(c)|, false, QUOTE)
  {
    hide At, HexDigit;
    AtIndex(t, s, EscapeByte(c), 0);
    if |EscapeByte(c)| == 2 {
      AtIndex(t, s, EscapeByte(c), 1);
    } else if |EscapeByte(c)| == 6 {
      PassHex(t, s, c);
    }
  }

  lemma PassHex(t: bytes, s: nat, c: byte)
    requires At(t, s, EscapeByte(c)) && |EscapeByte(c)| == 6
    ensures Unescaped(t, s, false, QUOTE) == Unescaped(t, s + 6, false, QUOTE)
  {
    hide At;
    var e := EscapeByte(c);
    AtIndex(t, s, e, 0);
    AtIndex(t, s, e, 1);
    AtIndex(t, s, e, 2);
    AtIndex(t, s, e, 3);
    AtIndex(t, s, e, 4);
    AtIndex(t, s, e, 5);
    assert Unescaped(t, s, false, QUOTE) == Unescaped(t, s + 1, true, QUOTE);
    assert Unescaped(t, s + 1, true, QUOTE) == Unescaped(t, s + 2, false, QUOTE);
    PassOne(t, s + 2);
    PassOne(t, s + 3);
    PassOne(t, s + 4);
    PassOne(t, s + 5);
  }

  lemma PassOne(t: bytes, s: nat)
    requires s < |t| && t[s] !in {QUOTE, SLASH, NEWLINE}
    ensures Unescaped(t, s, false, QUOTE) == Unescaped(t, s + 1, false, QUOTE)
  {
  }

  lemma {:induction false} PassEscape(t: bytes, s: nat, v: bytes)
    requires At(t, s, Escape(v)) && At(t, s + |Escape(v)|, [QUOTE])
    ensures s + |Escape(v)| <= |t| && Unescaped(t, s, false, QUOTE) == Some(s + |Escape(v)|)
    decreases |v|
  {
    hide EscapeByte, At;
    if v == [] {
      AtIndex(t, s, [QUOTE], 0);
    } else {
      AtSplit(t, s, EscapeByte(v[0]), Escape(v[1..]));
      AtIndex(t, s, EscapeByte(v[0]), |EscapeByte(v[0])| - 1);
      PassByte(t, s, v[0]);
      PassEscape(t, s + |EscapeByte(v[0])|, v[1..]);
    }
  }

  function Quote(v: bytes): bytes { [QUOTE] + Escape(v) + [QUOTE] }

  /** Every string, written in quotes, is found by the scanner and comes back as it was. */
  lemma QuotedRoundTrip(t: bytes, p: nat, v: bytes)
    requires At(t, p, Quote(v))
    ensures QuotedEnd(t, p, [QUOTE], [QUOTE]) == Some(p + 1 + |Escape(v)|)
    ensures t[p + 1..p + 1 + |Escape(v)|] == Escape(v) && Unescape(Escape(v), 0) == Text(v)
  {
    hide Escape, At;
    AtSplit(t, p, [QUOTE] + Escape(v), [QUOTE]);
    AtSplit(t, p, [QUOTE], Escape(v));
    AtIndex(t, p, [QUOTE], 0);
    PassEscape(t, p + 1, v);
    ClosingIsUnescaped(t, p + 1, p + 1, QUOTE);
    EscapeWhole(t, p + 1, v);
  }

  lemma EscapeWhole(t: bytes, p: nat, v: bytes)
    requires At(t, p, Escape(v))
    ensures p + |Escape(v)| <= |t| && t[p..p + |Escape(v)|] == Escape(v) && Unescape(Escape(v), 0) == Text(v)
  {
    EscapeRoundTrip(Escape(v), 0, v);
  }
}
