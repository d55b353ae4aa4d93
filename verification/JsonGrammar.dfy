/**
 * JSON texts by the grammar of RFC 8259, octet by octet and with white space
 * wherever it is allowed, and what the parser of json.c makes of them.
 */
module JsonGrammar {
  import opened Bytes
  import opened Scanner
  import opened JsonStrings
  import opened JsonWrite
  import opened JsonParse
  import opened JsonRoundTrip

  // ---------------------------------------------------------------------
  // The grammar
  // ---------------------------------------------------------------------

  /** White space, maybe none: tabs, line feeds, carriage returns and spaces. */
  predicate White(t: bytes, p: nat, q: nat) {
    p <= q <= |t| && forall i :: p <= i < q ==> t[i] in {9, 10, 13, 32}
  }

  /** An escape of two octets: the one after the backslash, and what it stands for. */
  predicate IsEscape(d: int, c: int) {
    || (d == c && d in {34, 47, 92})
    || (d == 98 && c == 8) || (d == 102 && c == 12) || (d == 110 && c == 10) || (d == 114 && c == 13) || (d == 116 && c == 9)
  }

  /** The octet c of a string is spelled from p to q: as it is, by an escape of two octets or by one of six. */
  predicate OctetAt(t: bytes, p: nat, c: byte, q: nat) {
    && p < q <= |t|
    && if t[p] != 92 then q == p + 1 && t[p] == c && c >= 32 && c != 34
       else if q == p + 2 then IsEscape(t[p + 1], c)
       else q == p + 6 && t[p + 1] == 117 && t[p + 2] == 48 && t[p + 3] == 48
            && IsHex(t[p + 4], c / 16) && IsHex(t[p + 5], c % 16)
  }

  /** The octets of a string are spelled from p to end. */
  ghost predicate TextAt(t: bytes, p: nat, str: bytes, end: nat)
    decreases |str|
  {
    if str == [] then p == end <= |t|
    else exists q: nat :: OctetAt(t, p, str[0], q) && TextAt(t, q, str[1..], end)
  }

  /** A string in quotes without escapes: what the parser does not unescape. It does not begin with white space. */
  predicate RawAt(t: bytes, p: nat, s: bytes, end: nat) {
    && end == p + |s| + 2 && At(t, p, [34] + s + [34])
    && s != [] && s[0] !in {9, 10, 13, 32} && 34 !in s && 92 !in s
  }

  ghost predicate ValueAt(t: bytes, p: nat, v: Value, end: nat)
    decreases v
  {
    match v
    case Null => end == p + 4 && At(t, p, [110, 117, 108, 108])
    case Bool(isTrue) =>
      if isTrue then end == p + 4 && At(t, p, [116, 114, 117, 101]) else end == p + 5 && At(t, p, [102, 97, 108, 115, 101])
    case Number(negative, digits) =>
      && digits != [] && (forall i :: 0 <= i < |digits| ==> digits[i] == 46 || 48 <= digits[i] <= 57)
      && end == p + (if negative then 1 else 0) + |digits| && At(t, p, (if negative then [45] else []) + digits)
    case String(str) => p + 2 <= end <= |t| && t[p] == 34 && TextAt(t, p + 1, str, end - 1) && t[end - 1] == 34
    case Array(items) =>
      && p + 2 <= end <= |t| && t[p] == 91 && ItemsAt(t, p + 1, items, end - 1) && t[end - 1] == 93
      && forall i :: 0 <= i < |items| ==> items[i].name == []
    case Object(items) => p + 2 <= end <= |t| && t[p] == 123 && ItemsAt(t, p + 1, items, end - 1) && t[end - 1] == 125
  }

  /** The members, with commas between them and white space around them. */
  ghost predicate ItemsAt(t: bytes, p: nat, items: seq<Elem>, end: nat)
    decreases items, 1
  {
    if items == [] then White(t, p, end) else exists a: nat, b: nat, c: nat :: FirstAt(t, p, items, end, a, b, c)
  }

  /** The first member is spelled from a to b; after white space up to c comes a comma, or the end. */
  ghost predicate FirstAt(t: bytes, p: nat, items: seq<Elem>, end: nat, a: nat, b: nat, c: nat)
    requires items != []
    decreases items, 0
  {
    && White(t, p, a) && ElemAt(t, a, items[0], b) && White(t, b, c)
    && if |items| == 1 then c == end else c < |t| && t[c] == 44 && ItemsAt(t, c + 1, items[1..], end)
  }

  /** A value, or a name, a colon and a value. */
  ghost predicate ElemAt(t: bytes, p: nat, e: Elem, end: nat)
    decreases e
  {
    if e.name != [] then exists a: nat, b: nat, c: nat :: MemberAt(t, p, e, end, a, b, c)
    else if e.value.String? then RawAt(t, p, e.value.str, end)
    else ValueAt(t, p, e.value, end)
  }

  /** The name ends at a, the colon is at b and the value is spelled from c on. */
  ghost predicate MemberAt(t: bytes, p: nat, e: Elem, end: nat, a: nat, b: nat, c: nat)
    decreases e, 0
  {
    RawAt(t, p, e.name, a) && White(t, a, b) && b < |t| && t[b] == 58 && White(t, b + 1, c) && ValueAt(t, c, e.value, end)
  }

  /** The text is the element with white space before and after it. */
  ghost predicate Spells(t: bytes, e: Elem, begin: nat, end: nat) {
    White(t, 0, begin) && ElemAt(t, begin, e, end) && White(t, end, |t|)
  }

  // ---------------------------------------------------------------------
  // White space
  // ---------------------------------------------------------------------

  lemma IsWhiteExactly(c: byte)
    ensures IsWhite(c) <==> c in {9, 10, 13, 32}
  {
  }

  lemma WhiteIsSkipped(t: bytes, p: nat, q: nat)
    requires White(t, p, q)
    ensures Skip(t, p) == Skip(t, q)
  {
    SkipReaches(t, p, q);
  }

  /** Up to a token. */
  lemma WhiteEnds(t: bytes, p: nat, q: nat)
    requires White(t, p, q) && q < |t| && t[q] !in {9, 10, 13, 32}
    ensures Skip(t, p) == q && Skip(t, q) == q
  {
    WhiteIsSkipped(t, p, q);
  }

  // ---------------------------------------------------------------------
  // Strings
  // ---------------------------------------------------------------------

  lemma HexIsRead(d: byte, v: nat)
    requires IsHex(d, v)
    ensures HexValue(d) == v && d !in {QUOTE, SLASH, NEWLINE}
  {
  }

  lemma EscapeIsRead(d: byte, c: byte)
    requires IsEscape(d, c)
    ensures ShortValue(d) == Some(c) && d != NEWLINE
  {
  }

  /** Reading from left to right passes over the octet to find the closing quote. */
  lemma OctetIsPassed(t: bytes, p: nat, c: byte, q: nat)
    requires OctetAt(t, p, c, q)
    ensures Unescaped(t, p, false, QUOTE) == Unescaped(t, q, false, QUOTE)
  {
    if t[p] == 92 {
      if q == p + 2 {
        EscapeIsRead(t[p + 1], c);
      } else {
        HexIsRead(t[p + 4], c / 16);
        HexIsRead(t[p + 5], c % 16);
        assert Unescaped(t, p, false, QUOTE) == Unescaped(t, p + 1, true, QUOTE);
        assert Unescaped(t, p + 1, true, QUOTE) == Unescaped(t, p + 2, false, QUOTE);
        PassOne(t, p + 2);
        PassOne(t, p + 3);
        PassOne(t, p + 4);
        PassOne(t, p + 5);
      }
    }
  }

  lemma OctetIsRead(t: bytes, lo: nat, p: nat, c: byte, q: nat, end: nat)
    requires OctetAt(t, p, c, q) && lo <= p && q <= end <= |t|
    ensures Unescape(t[lo..end], p - lo) == Unescape(t[lo..end], q - lo).Prepend([c])
  {
    hide HexValue, ShortValue;
    var s, i := t[lo..end], p - lo;
    assert forall k :: 0 <= k < |s| ==> s[k] == t[lo + k];
    if t[p] == 92 {
      if q == p + 2 {
        EscapeIsRead(t[p + 1], c);
        assert s[i] == SLASH && s[i + 1] == t[p + 1];
        NotU(t[p + 1], c);
      } else {
        HexIsRead(t[p + 4], c / 16);
        HexIsRead(t[p + 5], c % 16);
        assert s[i] == SLASH && s[i + 1] == 117 && s[i + 4] == t[p + 4] && s[i + 5] == t[p + 5];
      }
    }
  }

  lemma NotU(d: byte, c: byte)
    requires IsEscape(d, c)
    ensures d != 117
  {
  }

  lemma {:induction false} TextIsRead(t: bytes, lo: nat, p: nat, str: bytes, end: nat)
    requires TextAt(t, p, str, end) && lo <= p && end < |t| && t[end] == 34
    ensures p <= end && Unescaped(t, p, false, QUOTE) == Some(end) && Unescape(t[lo..end], p - lo) == Text(str)
    decreases |str|
  {
    hide OctetAt;
    if str != [] {
      var q: nat :| OctetAt(t, p, str[0], q) && TextAt(t, q, str[1..], end);
      OctetGrows(t, p, str[0], q);
      TextIsRead(t, lo, q, str[1..], end);
      OctetIsPassed(t, p, str[0], q);
      OctetIsRead(t, lo, p, str[0], q, end);
      assert [str[0]] + str[1..] == str;
    }
  }

  lemma OctetGrows(t: bytes, p: nat, c: byte, q: nat)
    requires OctetAt(t, p, c, q)
    ensures p < q
  {
  }

  lemma StringIsRead(t: bytes, p: nat, str: bytes, end: nat)
    requires ValueAt(t, p, String(str), end)
    ensures ParseString(t, p) == Some(Got(String(str), Skip(t, end)))
  {
    hide TextAt, Unescape, Skip;
    TextIsRead(t, p + 1, p + 1, str, end - 1);
    ClosingIsUnescaped(t, p + 1, p + 1, QUOTE);
  }

  /** Names and unnamed strings. */
  lemma RawIsRead(t: bytes, p: nat, s: bytes, end: nat)
    requires RawAt(t, p, s, end)
    ensures p + 2 < end <= |t| && t[p] == QUOTE && Char(t, p) == Some(p + 1)
    ensures IndexOf(t, p + 1, QUOTE) == end - 1 && t[p + 1..end - 1] == s
    ensures Char(t, Skip(t, end - 1)) == Some(Skip(t, end))
  {
    hide At;
    var q := [34] + s + [34];
    AtIndex(t, p, q, 0);
    AtIndex(t, p, q, 1);
    AtIndex(t, p, q, 1 + |s|);
    AtSplit(t, p, [34] + s, [34]);
    AtSplit(t, p, [34], s);
    AtWhole(t, p + 1, s);
    forall i | p + 1 <= i < p + 1 + |s| ensures t[i] != QUOTE {
      AtIndex(t, p + 1, s, i - p - 1);
      assert s[i - p - 1] in s;
    }
    IndexOfReaches(t, p + 1, p + 1 + |s|, QUOTE);
    IsWhiteExactly(s[0]);
    SkipOne(t, p + 1);
    SkipOne(t, end - 1);
  }

  lemma NameIsRead(t: bytes, p: nat, name: bytes, a: nat, b: nat, c: nat)
    requires RawAt(t, p, name, a) && White(t, a, b) && b < |t| && t[b] == 58 && White(t, b + 1, c)
    requires c < |t| && Begins(t[c])
    ensures ParseHead(t, p) == Some(Head(name, [], c))
  {
    hide RawAt, White, IndexOf, Skip, Begins;
    RawIsRead(t, p, name, a);
    WhiteEnds(t, a, b);
    BeginsToken(t[c]);
    WhiteEnds(t, b + 1, c);
  }

  lemma BeginsToken(c: byte)
    requires Begins(c)
    ensures c !in {9, 10, 13, 32, 44, 93, 125, 0}
  {
  }

  // ---------------------------------------------------------------------
  // Values and members
  // ---------------------------------------------------------------------

  lemma ValueStarts(t: bytes, p: nat, v: Value, end: nat)
    requires ValueAt(t, p, v, end)
    ensures p < end <= |t| && Begins(t[p]) && (t[p] == QUOTE <==> v.String?)
    ensures v.Array? ==> t[p] == 91
    ensures v.Object? ==> t[p] == 123
    ensures (v.Null? || v.Bool?) ==> IsAlpha(t[p])
    ensures v.Number? ==> t[p] == MINUS || t[p] in FLOAT
  {
    hide ItemsAt, TextAt;
    if v.Null? {
      AtFirst(t, p, [110, 117, 108, 108]);
    } else if v.Bool? {
      AtFirst(t, p, if v.isTrue then [116, 114, 117, 101] else [102, 97, 108, 115, 101]);
    } else if v.Number? {
      AtFirst(t, p, (if v.negative then [45] else []) + v.digits);
    }
  }

  /** Numbers and keywords, where they are read as the writer would have written them. */
  lemma ScalarIsRead(t: bytes, p: nat, depth: nat, v: Value, end: nat)
    requires ValueAt(t, p, v, end) && Follows(t, end) && depth <= MAX_NESTING && (v.Null? || v.Bool? || v.Number?)
    ensures ParseValue(t, p, depth) == ExpectedValue(t, v, depth, end)
  {
    hide At, Follows, ParseNumber, ParseKeyword, Skip;
    ValueStarts(t, p, v, end);
    if v.Number? { NumberParses(t, p, v); } else { KeywordParses(t, p, v); }
  }

  lemma {:induction false} ValueIsRead(t: bytes, p: nat, depth: nat, v: Value, end: nat)
    requires ValueAt(t, p, v, end) && Follows(t, end) && depth <= MAX_NESTING
    ensures p < end <= |t| && ParseValue(t, p, depth) == ExpectedValue(t, v, depth, end)
    decreases v
  {
    hide Follows, ItemsAt, TextAt, ParseNumber, ParseString, ParseKeyword, ParseChildren, NestingOfAll, Skip, At;
    ValueStarts(t, p, v, end);
    match v
    case String(str) => StringIsRead(t, p, str, end);
    case Array(items) => ChildrenAreRead(t, p, depth, items, end, 93);
    case Object(items) => ChildrenAreRead(t, p, depth, items, end, 125);
    case _ => ScalarIsRead(t, p, depth, v, end);
  }

  lemma {:induction false} ChildrenAreRead(t: bytes, p: nat, depth: nat, items: seq<Elem>, end: nat, close: byte)
    requires p + 2 <= end <= |t| && t[p] != 0 && ItemsAt(t, p + 1, items, end - 1) && t[end - 1] == close && IsClose(close)
    requires depth <= MAX_NESTING
    ensures ParseChildren(t, p, depth, close) ==
              if depth + 1 + NestingOfAll(items) <= MAX_NESTING then Some(Got(items, Skip(t, end))) else None
    decreases items, 2
  {
    hide ItemsAt, ParseItems, NestingOfAll, Skip;
    if depth + 1 <= MAX_NESTING { ItemsAreRead(t, p + 1, depth + 1, items, end - 1, close); }
  }

  lemma {:induction false} ItemsAreRead(t: bytes, p: nat, depth: nat, items: seq<Elem>, end: nat, close: byte)
    requires p <= |t| && ItemsAt(t, p, items, end) && end < |t| && t[end] == close && IsClose(close) && depth <= MAX_NESTING
    ensures ParseItems(t, Skip(t, p), depth, close) == ExpectedItems(items, depth, end)
    decreases items, 1
  {
    hide White, ElemAt, ParseItems, ParseElem, Skip, Nesting, NestingOfAll, Follows, Begins;
    CloseIsToken(close);
    if items == [] {
      WhiteEnds(t, p, end);
      NoItemsParse(t, end, depth, close);
      NothingNested();
    } else {
      var a: nat, b: nat, c: nat :| FirstAt(t, p, items, end, a, b, c);
      FirstFollows(t, b, c, close);
      ElemIsRead(t, a, depth, items[0], b);
      BeginsToken(t[a]);
      WhiteEnds(t, p, a);
      SkipBegins(t, a);
      ExpectedAfterWhite(t, items[0], depth, b, c);
      if |items| == 1 {
        OneItem(t, a, depth, items, c, close);
      } else {
        ItemsAreRead(t, c + 1, depth, items[1..], end, close);
        RestStarts(t, c + 1, items[1..], end);
        MoreItems(t, a, depth, items, c, Skip(t, c + 1), close, end);
      }
    }
  }

  lemma NothingNested()
    ensures NestingOfAll([]) == 0
  {
  }

  lemma CloseIsToken(c: byte)
    requires IsClose(c)
    ensures c !in {9, 10, 13, 32, 44}
  {
  }

  lemma FirstFollows(t: bytes, b: nat, c: nat, close: byte)
    requires White(t, b, c) && c < |t| && (t[c] == 44 || t[c] == close) && IsClose(close)
    ensures Follows(t, b) && Skip(t, b) == c && Skip(t, c) == c && b < |t|
  {
    WhiteEnds(t, b, c);
  }

  lemma ExpectedAfterWhite(t: bytes, e: Elem, depth: nat, b: nat, c: nat)
    requires b <= c < |t| && Skip(t, b) == Skip(t, c)
    ensures Expected(t, e, depth, b) == Expected(t, e, depth, c)
  {
    hide Nesting, Skip;
  }

  /** The first of the members that are left begins after white space. */
  lemma RestStarts(t: bytes, p: nat, items: seq<Elem>, end: nat)
    requires items != [] && ItemsAt(t, p, items, end)
    ensures p <= |t| && Skip(t, p) < |t| && Begins(t[Skip(t, p)])
  {
    hide White, ElemAt, Skip, Begins;
    var a: nat, b: nat, c: nat :| FirstAt(t, p, items, end, a, b, c);
    ElemStarts(t, a, items[0], b);
    BeginsToken(t[a]);
    WhiteEnds(t, p, a);
    WhiteBounds(t, p, a);
  }

  lemma WhiteBounds(t: bytes, p: nat, q: nat)
    requires White(t, p, q)
    ensures p <= q <= |t|
  {
  }

  lemma ElemStarts(t: bytes, p: nat, e: Elem, end: nat)
    requires ElemAt(t, p, e, end)
    ensures p < |t| && Begins(t[p])
  {
    hide RawAt, ValueAt, White;
    QuoteBegins();
    if e.name != [] {
      var a: nat, b: nat, c: nat :| MemberAt(t, p, e, end, a, b, c);
      RawIsRead(t, p, e.name, a);
    } else if e.value.String? {
      RawIsRead(t, p, e.value.str, end);
    } else {
      ValueStarts(t, p, e.value, end);
    }
  }

  /** An element is read as it is spelled, unless it nests too deep or is a null or true at the end of the text. */
  lemma {:induction false} ElemIsRead(t: bytes, p: nat, depth: nat, e: Elem, end: nat)
    requires ElemAt(t, p, e, end) && Follows(t, end) && depth <= MAX_NESTING
    ensures p < |t| && Begins(t[p]) && end <= |t| && ParseElem(t, p, depth) == Expected(t, e, depth, end)
    decreases e
  {
    hide RawAt, ValueAt, White, Follows, ParseHead, ParseValue, Nesting, IsShort, Begins, Skip;
    ElemStarts(t, p, e, end);
    if e.name != [] {
      var a: nat, b: nat, c: nat :| MemberAt(t, p, e, end, a, b, c);
      ValueStarts(t, c, e.value, end);
      NameIsRead(t, p, e.name, a, b, c);
      ValueIsRead(t, c, depth, e.value, end);
    } else if e.value.String? {
      UnnamedIsRead(t, p, depth, e.value.str, end);
    } else {
      ValueStarts(t, p, e.value, end);
      NoHead(t, p);
      ValueIsRead(t, p, depth, e.value, end);
    }
  }

  lemma NoHead(t: bytes, p: nat)
    requires p < |t| && t[p] != QUOTE
    ensures ParseHead(t, p) == Some(Head([], [], p))
  {
  }

  lemma UnnamedIsRead(t: bytes, p: nat, depth: nat, str: bytes, end: nat)
    requires RawAt(t, p, str, end) && Follows(t, end) && depth <= MAX_NESTING
    ensures end <= |t| && ParseElem(t, p, depth) == Expected(t, Elem([], String(str)), depth, end)
  {
    hide ParseValue, Skip, IndexOf;
    RawIsRead(t, p, str, end);
  }

  /**
   * Every text that spells an element, with any white space before, between
   * and after its tokens and any escapes in its strings, is parsed to that
   * element and nothing is left; it is refused exactly if it nests too deep or
   * is a null or true at the end of the text.
   */
  lemma SpelledIsParsed(t: bytes, e: Elem, begin: nat, end: nat)
    requires Spells(t, e, begin, end)
    ensures Parse(t) == if Nesting(e.value) <= 256 && !(e.value in {Null, Bool(true)} && end == |t|) then Some(Got(e, 0)) else None
  {
    hide White, ElemAt, ParseElem, Nesting, Skip;
    WhiteIsSkipped(t, end, |t|);
    WhiteBounds(t, end, |t|);
    EndFollows(t, end);
    ElemIsRead(t, begin, 0, e, end);
    BeginsToken(t[begin]);
    WhiteEnds(t, 0, begin);
  }

  lemma EndFollows(t: bytes, end: nat)
    requires end <= |t| && Skip(t, end) == Skip(t, |t|)
    ensures Follows(t, end) && Skip(t, end) == |t|
  {
  }

  // ---------------------------------------------------------------------
  // Written documents
  // ---------------------------------------------------------------------

  /**
   * How each octet of a string is written: eight of them by an escape of two
   * octets, the other printable ones as they are, and the rest by an escape of
   * six with digits of lower case.
   */
  lemma EscapeIsRight(c: byte)
    ensures c in {8, 9, 10, 12, 13, 34, 47, 92} ==> |EscapeByte(c)| == 2 && EscapeByte(c)[0] == 92 && IsEscape(EscapeByte(c)[1], c)
    ensures 32 <= c <= 126 && c !in {34, 47, 92} ==> EscapeByte(c) == [c]
    ensures (c < 32 && c !in {8, 9, 10, 12, 13}) || c > 126 ==>
              && |EscapeByte(c)| == 6 && EscapeByte(c)[..4] == [92, 117, 48, 48]
              && IsHex(EscapeByte(c)[4], c / 16) && IsHex(EscapeByte(c)[5], c % 16)
              && EscapeByte(c)[4] !in {65, 66, 67, 68, 69, 70} && EscapeByte(c)[5] !in {65, 66, 67, 68, 69, 70}
    ensures IsPlain(c) <==> 32 <= c <= 126 && c !in {34, 47, 92}
  {
    hide HexDigit, IsHex;
    HexIsRight(0, c / 16);
    HexIsRight(0, c % 16);
  }

  lemma OctetIsWritten(t: bytes, p: nat, c: byte)
    requires At(t, p, EscapeByte(c))
    ensures OctetAt(t, p, c, p + |EscapeByte(c)|)
  {
    hide At;
    var b := EscapeByte(c);
    AtIndex(t, p, b, 0);
    if |b| > 1 { AtIndex(t, p, b, 1); }
    if |b| > 2 {
      AtIndex(t, p, b, 2);
      AtIndex(t, p, b, 3);
      AtIndex(t, p, b, 4);
      AtIndex(t, p, b, 5);
    }
  }

  lemma {:induction false} TextIsWritten(t: bytes, p: nat, str: bytes)
    requires At(t, p, Escape(str))
    ensures TextAt(t, p, str, p + |Escape(str)|)
    decreases |str|
  {
    hide At, EscapeByte, OctetAt;
    if str == [] {
      AtBounds(t, p, Escape(str));
    } else {
      AtSplit(t, p, EscapeByte(str[0]), Escape(str[1..]));
      OctetIsWritten(t, p, str[0]);
      TextIsWritten(t, p + |EscapeByte(str[0])|, str[1..]);
    }
  }

  lemma AtBounds(t: bytes, p: nat, b: bytes)
    requires At(t, p, b)
    ensures p + |b| <= |t|
  {
  }

  lemma StringIsWritten(t: bytes, p: nat, str: bytes)
    requires At(t, p, Quote(str))
    ensures ValueAt(t, p, String(str), p + |Quote(str)|)
  {
    hide At, Escape, TextAt;
    AtBounds(t, p, Quote(str));
    AtSplit(t, p, [QUOTE] + Escape(str), [QUOTE]);
    AtSplit(t, p, [QUOTE], Escape(str));
    AtIndex(t, p, [QUOTE], 0);
    AtIndex(t, p + 1 + |Escape(str)|, [QUOTE], 0);
    TextIsWritten(t, p + 1, str);
  }

  lemma RawIsWritten(t: bytes, p: nat, s: bytes)
    requires At(t, p, Quote(s)) && PlainName(s)
    ensures RawAt(t, p, s, p + |Quote(s)|)
  {
    hide At, Escape;
    PlainEscape(s);
    PlainIsRaw(s);
  }

  lemma PlainIsRaw(s: bytes)
    requires PlainName(s)
    ensures s != [] && s[0] !in {9, 10, 13, 32} && 34 !in s && 92 !in s
  {
    hide HexDigit;
    assert forall i :: 0 <= i < |s| ==> s[i] != 34 && s[i] != 92;
  }

  lemma SpacesAreWhite(t: bytes, p: nat, n: nat)
    requires At(t, p, Spaces(n))
    ensures White(t, p, p + n)
  {
    AtBounds(t, p, Spaces(n));
    forall i | p <= i < p + n ensures t[i] == 32 { AtIndex(t, p, Spaces(n), i - p); }
  }

  lemma {:induction false} ValueIsWritten(t: bytes, p: nat, v: Value, indent: nat)
    requires At(t, p, ValueText(v, indent)) && PlainValue(v)
    ensures ValueAt(t, p, v, p + |ValueText(v, indent)|)
    decreases v
  {
    hide At, ListText, Quote, TextAt, ItemsAt;
    match v
    case String(str) => StringIsWritten(t, p, str);
    case Array(items) => ChildrenAreWritten(t, p, items, indent, false, 91, 93);
    case Object(items) => ChildrenAreWritten(t, p, items, indent, true, 123, 125);
    case _ =>
  }

  lemma {:induction false} ChildrenAreWritten(t: bytes, p: nat, items: seq<Elem>, indent: nat, named: bool, open: byte, close: byte)
    requires At(t, p, [open, SPACE] + ListText(items, indent, named) + [close]) && PlainItems(items, named)
    ensures var end := p + 3 + |ListText(items, indent, named)|;
            end <= |t| && t[p] == open && ItemsAt(t, p + 1, items, end - 1) && t[end - 1] == close
    decreases items, 3
  {
    hide At, ListText, ItemsAt, PlainItems;
    var list := ListText(items, indent, named);
    AtBounds(t, p, [open, SPACE] + list + [close]);
    AtSplit(t, p, [open, SPACE] + list, [close]);
    AtSplit(t, p, [open, SPACE], list);
    AtIndex(t, p, [open, SPACE], 0);
    AtIndex(t, p, [open, SPACE], 1);
    AtIndex(t, p + 2 + |list|, [close], 0);
    ListIsWritten(t, p + 1, p + 2, items, indent, named);
  }

  lemma {:induction false} ListIsWritten(t: bytes, w: nat, p: nat, items: seq<Elem>, indent: nat, named: bool)
    requires At(t, p, ListText(items, indent, named)) && PlainItems(items, named) && White(t, w, p)
    ensures ItemsAt(t, w, items, p + |ListText(items, indent, named)|)
    decreases items, 2
  {
    hide At, ItemsText, Spaces, PlainItems, White, FirstAt, Deeper;
    if items == [] {
    } else if items[0].name == [] {
      AtBounds(t, p, ListText(items, indent, named));
      NoWhite(t, p + |ListText(items, indent, named)|);
      ItemsAreWritten(t, w, p, items, indent, named, [COMMA, SPACE], [], p + |ListText(items, indent, named)|);
    } else {
      var list := ItemsText(items, Deeper(indent), named, [COMMA, LF], [LF]);
      AtSplit(t, p, [LF] + list, Spaces(indent));
      AtSplit(t, p, [LF], list);
      AtIndex(t, p, [LF], 0);
      SpacesSize(indent);
      SpacesAreWhite(t, p + 1 + |list|, indent);
      MoreWhite(t, w, p, p + 1);
      ItemsAreWritten(t, w, p + 1, items, Deeper(indent), named, [COMMA, LF], [LF], p + 1 + |list| + indent);
    }
  }

  lemma NoWhite(t: bytes, p: nat)
    requires p <= |t|
    ensures White(t, p, p)
  {
  }

  lemma MoreWhite(t: bytes, p: nat, q: nat, r: nat)
    requires White(t, p, q) && q <= r <= |t| && forall i :: q <= i < r ==> t[i] in {9, 10, 13, 32}
    ensures White(t, p, r)
  {
  }

  /** The members from p on, after white space from w on; there is white space up to end after them. */
  lemma {:induction false} ItemsAreWritten(t: bytes, w: nat, p: nat, items: seq<Elem>, indent: nat, named: bool,
                                           sep: bytes, last: bytes, end: nat)
    requires items != [] && At(t, p, ItemsText(items, indent, named, sep, last)) && PlainItems(items, named)
    requires sep in {[COMMA, SPACE], [COMMA, LF]} && last in {[], [LF]}
    requires White(t, w, p) && White(t, p + |ItemsText(items, indent, named, sep, last)|, end)
    ensures ItemsAt(t, w, items, end)
    decreases items, 1
  {
    hide At, ItemsText, ElemText, PlainItems, White, ElemAt, PlainElem;
    PlainSplits(items, named);
    ItemsStart(t, p, items, indent, named, sep, last);
    var text := ElemText(items[0], indent, named);
    var a, b := p + (if items[0].name == [] then 0 else indent), p + |text|;
    ElemIsWritten(t, p, items[0], indent, named);
    WhiteJoins(t, w, p, a);
    if |items| == 1 {
      LastWhite(t, b, last, end);
      assert FirstAt(t, w, items, end, a, b, end);
    } else {
      SeparatorWhite(t, b, sep);
      ItemsAreWritten(t, b + 1, b + 2, items[1..], indent, named, sep, last, end);
      assert FirstAt(t, w, items, end, a, b, b);
    }
  }

  lemma WhiteJoins(t: bytes, p: nat, q: nat, r: nat)
    requires White(t, p, q) && White(t, q, r)
    ensures White(t, p, r)
  {
  }

  lemma LastWhite(t: bytes, b: nat, last: bytes, end: nat)
    requires At(t, b, last) && last in {[], [LF]} && White(t, b + |last|, end)
    ensures White(t, b, end)
  {
    hide At;
    if last != [] { AtIndex(t, b, last, 0); }
  }

  lemma SeparatorWhite(t: bytes, b: nat, sep: bytes)
    requires At(t, b, sep) && sep in {[COMMA, SPACE], [COMMA, LF]}
    ensures b + 2 <= |t| && t[b] == 44 && White(t, b, b) && White(t, b + 1, b + 2)
  {
    hide At;
    AtIndex(t, b, sep, 0);
    AtIndex(t, b, sep, 1);
  }

  lemma {:induction false} ElemIsWritten(t: bytes, p: nat, e: Elem, indent: nat, named: bool)
    requires At(t, p, ElemText(e, indent, named)) && PlainElem(e) && (named || e.name == [])
    ensures var begin := p + (if e.name == [] then 0 else indent);
            White(t, p, begin) && ElemAt(t, begin, e, p + |ElemText(e, indent, named)|)
    decreases e
  {
    hide At, ElemText, Label, ValueText, PlainName, PlainValue, Spaces, Quote, RawAt, ValueAt, White, Pad;
    if e.name == [] {
      UnnamedText(e, indent, named);
      AtBounds(t, p, ElemText(e, indent, named));
      NoWhite(t, p);
      if e.value.String? {
        StringText(e.value, indent);
        RawIsWritten(t, p, e.value.str);
      } else {
        ValueIsWritten(t, p, e.value, indent);
      }
    } else {
      NamedText(e, indent, named);
      AtSplit(t, p, Spaces(indent), Label(e.name, named) + ValueText(e.value, indent));
      SpacesSize(indent);
      SpacesAreWhite(t, p, indent);
      AtSplit(t, p + indent, Label(e.name, named), ValueText(e.value, indent));
      var a, b, c := NameIsWritten(t, p + indent, e.name);
      ValueIsWritten(t, c, e.value, indent);
      assert MemberAt(t, p + indent, e, p + |ElemText(e, indent, named)|, a, b, c);
    }
  }

  lemma NameIsWritten(t: bytes, p: nat, name: bytes) returns (a: nat, b: nat, c: nat)
    requires At(t, p, Label(name, true)) && name != [] && PlainName(name)
    ensures RawAt(t, p, name, a) && White(t, a, b) && b < |t| && t[b] == 58 && White(t, b + 1, c) && c == p + |Label(name, true)|
  {
    hide At, Label, Quote, Spaces, PlainName, RawAt, Pad;
    LabelText(name);
    AtSplit(t, p, Quote(name) + [COLON, SPACE], Spaces(Pad(name)));
    AtSplit(t, p, Quote(name), [COLON, SPACE]);
    SpacesSize(Pad(name));
    a, b, c := p + |Quote(name)|, p + |Quote(name)|, p + |Label(name, true)|;
    RawIsWritten(t, p, name);
    AtIndex(t, b, [COLON, SPACE], 0);
    AtIndex(t, b, [COLON, SPACE], 1);
    SpacesAreWhite(t, b + 2, Pad(name));
  }

  /** A written document, if its names and unnamed strings are plain, spells its root. */
  lemma WrittenIsSpelled(e: Elem) returns (begin: nat)
    requires PlainElem(e)
    ensures Spells(ElemText(e, 0, true), e, begin, |ElemText(e, 0, true)|)
  {
    hide ElemText, PlainElem, ElemAt, White, At;
    var t := ElemText(e, 0, true);
    WholeText(t);
    ElemIsWritten(t, 0, e, 0, true);
    NoWhite(t, |t|);
    begin := 0;
  }

  /**
   * In particular the white space does not matter: a text with the tokens of a
   * written document and any white space between them is parsed as it is.
   */
  lemma WhiteSpaceDoesNotMatter(u: bytes, e: Elem, begin: nat, end: nat)
    requires PlainElem(e) && Spells(u, e, begin, end) && e.value !in {Null, Bool(true)}
    ensures Parse(u) == Parse(ElemText(e, 0, true))
  {
    hide PlainElem, Spells, ElemText, Nesting;
    var at := WrittenIsSpelled(e);
    SpelledIsParsed(ElemText(e, 0, true), e, at, |ElemText(e, 0, true)|);
    SpelledIsParsed(u, e, begin, end);
  }
}
