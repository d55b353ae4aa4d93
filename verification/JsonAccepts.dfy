/**
 * What the parser of json.c takes beyond the grammar of RFC 8259, and that it
 * takes nothing else.
 */
module JsonAccepts {
  import opened Bytes
  import opened Scanner
  import opened JsonStrings
  import opened JsonWrite
  import opened JsonParse
  import opened JsonRoundTrip
  import opened JsonGrammar

  // ---------------------------------------------------------------------
  // A wider grammar
  // ---------------------------------------------------------------------

  /** Commas and white space, maybe none of either. */
  predicate Gap(t: bytes, p: nat, q: nat) {
    p <= q <= |t| && forall i :: p <= i < q ==> t[i] in {9, 10, 13, 32, 44}
  }

  /** Control characters but the line feed may stand for themselves, and the digits after "\u" are not checked. */
  predicate WideOctetAt(t: bytes, p: nat, c: byte, q: nat) {
    && p < q <= |t|
    && if t[p] != 92 then q == p + 1 && t[p] == c && c != 10
       else if q == p + 2 then IsEscape(t[p + 1], c)
       else q == p + 6 && t[p + 1] == 117
            && (IsHexDigit(t[p + 4]) && IsHexDigit(t[p + 5]) ==> IsHex(t[p + 4], c / 16) && IsHex(t[p + 5], c % 16))
  }

  ghost predicate WideTextAt(t: bytes, p: nat, str: bytes, end: nat)
    decreases |str|
  {
    if str == [] then p == end <= |t|
    else exists q: nat :: WideOctetAt(t, p, str[0], q) && WideTextAt(t, q, str[1..], end)
  }

  /** A string in quotes that is taken as it is, but for white space at its beginning. */
  predicate HeadAt(t: bytes, p: nat, s: bytes, a: nat, end: nat) {
    && p < |t| && t[p] == 34 && White(t, p + 1, a) && At(t, a, s) && 34 !in s
    && end == a + |s| + 1 <= |t| && t[end - 1] == 34
  }

  /** The value stands from p to q, where white space begins that lasts to end. */
  ghost predicate WideValueAt(t: bytes, p: nat, v: Value, end: nat)
    decreases v
  {
    match v
    case Null => At(t, p, [110, 117, 108, 108]) && White(t, p + 4, end)
    case Bool(isTrue) =>
      if isTrue then At(t, p, [116, 114, 117, 101]) && White(t, p + 4, end)
      else At(t, p, [102, 97, 108, 115, 101]) && White(t, p + 5, end)
    case Number(negative, digits) => exists q: nat :: NumberHas(t, p, negative, digits, end, q)
    case String(str) => exists c: nat :: StringHas(t, p, str, end, c)
    case Array(items) => p < |t| && t[p] == 91 && WideListAt(t, p + 1, items, 93, end)
    case Object(items) => p < |t| && t[p] == 123 && WideListAt(t, p + 1, items, 125, end)
  }

  /** The closing quote is at c; one before it comes after a backslash. */
  ghost predicate StringHas(t: bytes, p: nat, str: bytes, end: nat, c: nat) {
    && p < c < |t| && t[p] == 34 && WideTextAt(t, p + 1, str, c) && t[c] == 34 && White(t, c + 1, end)
    && forall k :: p < k < c && t[k] == 34 ==> t[k - 1] == 92
  }

  /** White space may follow the minus sign. */
  predicate NumberHas(t: bytes, p: nat, negative: bool, digits: bytes, end: nat, q: nat) {
    && (if negative then p < |t| && t[p] == 45 && White(t, p + 1, q) else q == p)
    && digits != [] && (forall i :: 0 <= i < |digits| ==> digits[i] == 46 || 48 <= digits[i] <= 57)
    && At(t, q, digits) && White(t, q + |digits|, end)
  }

  /** Members up to the closing bracket. */
  ghost predicate WideListAt(t: bytes, p: nat, items: seq<Elem>, close: int, end: nat)
    decreases items, 2
  {
    exists a: nat, b: nat :: ListHas(t, p, items, close, end, a, b)
  }

  ghost predicate ListHas(t: bytes, p: nat, items: seq<Elem>, close: int, end: nat, a: nat, b: nat)
    decreases items, 1
  {
    White(t, p, a) && WideItemsAt(t, a, items, b) && b < |t| && t[b] == close && White(t, b + 1, end)
  }

  /** There may be any number of commas, also none, before, between and after the members. */
  ghost predicate WideItemsAt(t: bytes, p: nat, items: seq<Elem>, end: nat)
    decreases items, 0
  {
    if items == [] then Gap(t, p, end)
    else exists a: nat, c: nat :: Gap(t, p, a) && WideElemAt(t, a, items[0], c) && WideItemsAt(t, c, items[1..], end)
  }

  /** An element may have an empty string before its value, with or without a colon. */
  ghost predicate WideElemAt(t: bytes, p: nat, e: Elem, end: nat)
    decreases e
  {
    || (e.name == [] && WideValueAt(t, p, e.value, end))
    || (e.name == [] && e.value.String? && e.value.str != [] && exists a: nat, b: nat ::
          HeadAt(t, p, e.value.str, a, b) && White(t, b, end))
    || (exists a: nat, b: nat, c: nat, d: nat :: MemberHas(t, p, e, end, a, b, c, d))
  }

  /** The name stands from a to b; the value begins at d, after white space, and a colon at c unless there is no name. */
  ghost predicate MemberHas(t: bytes, p: nat, e: Elem, end: nat, a: nat, b: nat, c: nat, d: nat)
    decreases e, 0
  {
    && HeadAt(t, p, e.name, a, b) && White(t, b, c) && WideValueAt(t, d, e.value, end)
    && ((e.name == [] && d == c) || (c < |t| && t[c] == 58 && White(t, c + 1, d)))
  }

  // ---------------------------------------------------------------------
  // Scalars
  // ---------------------------------------------------------------------

  lemma SkippedIsWhite(t: bytes, p: nat)
    requires p <= |t|
    ensures White(t, p, Skip(t, p))
  {
    forall i | p <= i < Skip(t, p) ensures t[i] in {9, 10, 13, 32} { IsWhiteExactly(t[i]); }
  }

  lemma {:induction false} CommasAreGap(t: bytes, p: nat)
    requires p <= |t|
    ensures Gap(t, p, Commas(t, p))
    decreases |t| - p
  {
    hide Skip;
    if p < |t| && t[p] == COMMA {
      SkippedIsWhite(t, p + 1);
      CommasAreGap(t, Skip(t, p + 1));
    }
  }

  lemma AtSlice(t: bytes, p: nat, q: nat)
    requires p <= q <= |t|
    ensures At(t, p, t[p..q])
  {
  }

  lemma FloatIs(c: byte)
    ensures c in FLOAT <==> c == 46 || 48 <= c <= 57
  {
  }

  /** The digits from q on. */
  lemma DigitsAccepted(t: bytes, q: nat)
    requires q < |t| && t[q] in FLOAT
    ensures var s := Span(t, q, FLOAT);
            && q < s && At(t, q, t[q..s]) && White(t, s, Skip(t, s))
            && forall i :: 0 <= i < s - q ==> t[q..s][i] == 46 || 48 <= t[q..s][i] <= 57
  {
    hide Skip, White, At;
    var s := Span(t, q, FLOAT);
    assert s != q;
    SkippedIsWhite(t, s);
    AtSlice(t, q, s);
    forall i | 0 <= i < s - q ensures t[q..s][i] == 46 || 48 <= t[q..s][i] <= 57 {
      assert t[q..s][i] == t[q + i] && t[q + i] in FLOAT;
      FloatIs(t[q + i]);
    }
  }

  lemma NumberAccepted(t: bytes, p: nat)
    requires p <= |t| && ParseNumber(t, p).Some?
    ensures var r := ParseNumber(t, p).value; r.item.Number? && WideValueAt(t, p, r.item, r.end)
  {
    hide Skip, Span, White, At;
    var r := ParseNumber(t, p).value;
    var q := if Peek(t, p) == MINUS then Skip(t, p + 1) else p;
    if Peek(t, p) == MINUS { SkippedIsWhite(t, p + 1); }
    DigitsAccepted(t, q);
    assert NumberHas(t, p, r.item.negative, r.item.digits, r.end, q);
  }

  lemma KeywordAccepted(t: bytes, p: nat)
    requires p <= |t| && ParseKeyword(t, p).Some?
    ensures var r := ParseKeyword(t, p).value; (r.item.Null? || r.item.Bool?) && WideValueAt(t, p, r.item, r.end)
  {
    hide Skip, White;
    SkippedIsWhite(t, p + 4);
    SkippedIsWhite(t, p + 5);
    AtSlice(t, p, p + 4);
    AtSlice(t, p, p + 5);
  }

  lemma ShortAccepted(d: byte, c: byte)
    requires ShortValue(d) == Some(c)
    ensures IsEscape(d, c)
  {
  }

  /** One octet of a string that is unescaped without an error. */
  lemma OctetAccepted(t: bytes, lo: nat, p: nat, end: nat) returns (c: byte, q: nat)
    requires lo <= p < end <= |t| && Unescape(t[lo..end], p - lo).Text?
    requires forall i :: lo <= i < end ==> t[i] != 10
    ensures WideOctetAt(t, p, c, q) && q <= end
    ensures Unescape(t[lo..end], p - lo) == Unescape(t[lo..end], q - lo).Prepend([c])
  {
    hide HexValue, ShortValue, IsHexDigit, IsHex;
    var s, i := t[lo..end], p - lo;
    assert forall k :: 0 <= k < |s| ==> s[k] == t[lo + k];
    if s[i] != SLASH {
      c, q := s[i], p + 1;
    } else if s[i + 1] == 117 {
      c, q := HexValue(s[i + 4]) * 16 + HexValue(s[i + 5]), p + 6;
      if IsHexDigit(t[p + 4]) && IsHexDigit(t[p + 5]) { HexPair(t[p + 4], t[p + 5], c); }
    } else {
      c, q := ShortValue(s[i + 1]).value, p + 2;
      ShortAccepted(s[i + 1], c);
    }
  }

  lemma HexPair(d: byte, e: byte, c: byte)
    requires IsHexDigit(d) && IsHexDigit(e) && c == HexValue(d) * 16 + HexValue(e)
    ensures IsHex(d, c / 16) && IsHex(e, c % 16)
  {
    hide HexValue, IsHex, IsHexDigit;
    HexIsRight(d, HexValue(d));
    HexIsRight(e, HexValue(e));
  }

  lemma {:induction false} TextAccepted(t: bytes, lo: nat, p: nat, end: nat) returns (str: bytes)
    requires lo <= p <= end <= |t| && Unescape(t[lo..end], p - lo).Text?
    requires forall i :: lo <= i < end ==> t[i] != 10
    ensures Unescape(t[lo..end], p - lo) == Text(str) && WideTextAt(t, p, str, end)
    decreases end - p
  {
    hide WideOctetAt;
    if p == end {
      str := [];
    } else {
      var c, q := OctetAccepted(t, lo, p, end);
      WideGrows(t, p, c, q);
      str := TextAccepted(t, lo, q, end);
      assert ([c] + str)[1..] == str;
      str := [c] + str;
    }
  }

  lemma WideGrows(t: bytes, p: nat, c: byte, q: nat)
    requires WideOctetAt(t, p, c, q)
    ensures p < q
  {
  }

  /** Before the closing quote there is no line feed, and no quote without a backslash. */
  lemma {:induction false} ClosedText(t: bytes, lo: nat, s: nat)
    requires lo <= s <= |t| && Closing(t, lo, s, QUOTE).Some?
    ensures var c := Closing(t, lo, s, QUOTE).value;
            forall i :: s <= i < c ==> t[i] != 10 && (t[i] == 34 ==> i > lo && t[i - 1] == 92)
    decreases |t| - s
  {
    var c := Closing(t, lo, s, QUOTE).value;
    if s < c { ClosedText(t, lo, s + 1); }
  }

  lemma StringAccepted(t: bytes, p: nat)
    requires p <= |t| && ParseString(t, p).Some?
    ensures var r := ParseString(t, p).value; r.item.String? && WideValueAt(t, p, r.item, r.end)
  {
    hide Skip, White, WideTextAt, Unescape, Closing;
    var r, c := ParseString(t, p).value, QuotedEnd(t, p, [QUOTE], [QUOTE]).value;
    ClosedText(t, p + 1, p + 1);
    var str := TextAccepted(t, p + 1, p + 1, c);
    SkippedIsWhite(t, c + 1);
    assert StringHas(t, p, str, r.end, c);
  }

  // ---------------------------------------------------------------------
  // Elements
  // ---------------------------------------------------------------------

  /** What ParseHead takes before the value of an element. */
  ghost predicate HeadHas(t: bytes, p: nat, h: Head, a: nat, b: nat, c: nat) {
    var s := if h.value != [] then h.value else h.name;
    && HeadAt(t, p, s, a, b) && White(t, b, c)
    && if h.value != [] then h.name == [] && c == h.end
       else (h.name == [] && h.end == c) || (c < |t| && t[c] == 58 && White(t, c + 1, h.end))
  }

  lemma HeadAccepted(t: bytes, p: nat) returns (a: nat, b: nat, c: nat)
    requires p <= |t| && ParseHead(t, p).Some?
    ensures var h := ParseHead(t, p).value; h == Head([], [], p) || HeadHas(t, p, h, a, b, c)
  {
    hide Skip, IndexOf, White, At;
    a, b, c := 0, 0, 0;
    if Peek(t, p) == QUOTE {
      a := Skip(t, p + 1);
      var s := IndexOf(t, a, QUOTE);
      EndOfName(t, a);
      b, c := s + 1, Skip(t, s + 1);
      SkippedIsWhite(t, p + 1);
      SkippedIsWhite(t, s + 1);
      AtSlice(t, a, s);
      if Peek(t, c) == COLON { SkippedIsWhite(t, c + 1); }
    }
  }

  lemma EndOfName(t: bytes, a: nat)
    requires a <= |t|
    ensures var s := IndexOf(t, a, QUOTE);
            && 34 !in t[a..s]
            && (Char(t, Skip(t, s)).Some? ==> s < |t| && t[s] == 34 && Char(t, Skip(t, s)) == Some(Skip(t, s + 1)))
  {
    hide Skip;
    var s := IndexOf(t, a, QUOTE);
    assert forall i :: 0 <= i < s - a ==> t[a..s][i] == t[a + i] != 34;
    if s < |t| { SkipOne(t, s); } else { SkipEnd(t); }
  }

  lemma SkipEnd(t: bytes)
    ensures Skip(t, |t|) == |t|
  {
  }

  lemma {:induction false} ElemAccepted(t: bytes, p: nat, depth: nat)
    requires p <= |t| && ParseElem(t, p, depth).Some? && depth <= 256
    ensures var r := ParseElem(t, p, depth).value;
            WideElemAt(t, p, r.item, r.end) && depth + Nesting(r.item.value) <= 256
    decreases |t| - p, 1
  {
    hide ParseHead, ParseValue, WideValueAt, HeadAt, White, Nesting;
    var h, r := ParseHead(t, p).value, ParseElem(t, p, depth).value;
    HeadAdvances(t, p);
    var a, b, c := HeadAccepted(t, p);
    if h.value != [] {
      NoNesting(h.value);
      assert HeadAt(t, p, r.item.value.str, a, b) && White(t, b, r.end);
    } else {
      ValueAccepted(t, h.end, depth);
      if h != Head([], [], p) { assert MemberHas(t, p, r.item, r.end, a, b, c, h.end); }
    }
  }

  lemma NoNesting(s: bytes)
    ensures Nesting(String(s)) == 0
  {
  }

  lemma {:induction false} ValueAccepted(t: bytes, p: nat, depth: nat)
    requires p <= |t| && ParseValue(t, p, depth).Some? && depth <= 256
    ensures var r := ParseValue(t, p, depth).value;
            WideValueAt(t, p, r.item, r.end) && depth + Nesting(r.item) <= 256
    decreases |t| - p, 0
  {
    hide ParseNumber, ParseString, ParseKeyword, ParseChildren, WideListAt, WideTextAt, White, At, NestingOfAll;
    var c := Peek(t, p);
    if c in FLOAT || c == MINUS {
      NumberAccepted(t, p);
    } else if c == QUOTE {
      StringAccepted(t, p);
    } else if IsAlpha(c) {
      KeywordAccepted(t, p);
    } else if c == '[' as int {
      ChildrenAccepted(t, p, depth, ']' as byte);
    } else {
      ChildrenAccepted(t, p, depth, '}' as byte);
    }
  }

  lemma {:induction false} ChildrenAccepted(t: bytes, p: nat, depth: nat, close: byte)
    requires p < |t| && ParseChildren(t, p, depth, close).Some? && close != 0
    ensures var r := ParseChildren(t, p, depth, close).value;
            WideListAt(t, p + 1, r.item, close, r.end) && depth + 1 + NestingOfAll(r.item) <= 256
    decreases |t| - p, 0, 0
  {
    hide ParseItems, WideItemsAt, White, Skip, NestingOfAll;
    var q := Skip(t, p + 1);
    ItemsAccepted(t, q, depth + 1, close);
    SkippedIsWhite(t, p + 1);
    var items := ParseItems(t, q, depth + 1, close).value;
    SkippedIsWhite(t, items.end + 1);
    assert ListHas(t, p + 1, items.item, close, Skip(t, items.end + 1), q, items.end);
  }

  lemma {:induction false} ItemsAccepted(t: bytes, p: nat, depth: nat, close: byte)
    requires p <= |t| && ParseItems(t, p, depth, close).Some? && depth <= 256 && close != 0
    ensures var r := ParseItems(t, p, depth, close).value;
            && WideItemsAt(t, p, r.item, r.end) && r.end < |t| && t[r.end] == close
            && depth + NestingOfAll(r.item) <= 256
    decreases |t| - p, 2
  {
    hide ParseElem, WideElemAt, Nesting;
    var q := Commas(t, p);
    CommasAreGap(t, p);
    NothingNested();
    if Peek(t, p) != close && Peek(t, q) != close {
      ElemAdvances(t, q, depth);
      ElemAccepted(t, q, depth);
      var x := ParseElem(t, q, depth).value;
      ItemsAccepted(t, x.end, depth, close);
      var rest := ParseItems(t, x.end, depth, close).value;
      var items := [x.item] + rest.item;
      assert items[1..] == rest.item && items[0] == x.item;
      assert Gap(t, p, q) && WideElemAt(t, q, items[0], x.end) && WideItemsAt(t, x.end, items[1..], rest.end);
    }
  }

  /**
   * Whatever is parsed is spelled by the text in the wider grammar, nests at
   * most 256 deep, and the octets that are left are those after it.
   */
  lemma ParsedIsSpelled(t: bytes)
    requires Parse(t).Some?
    ensures var r := Parse(t).value;
            && r.end <= |t| && Nesting(r.item.value) <= 256
            && exists begin :: White(t, 0, begin) && WideElemAt(t, begin, r.item, |t| - r.end)
  {
    hide ParseElem, WideElemAt, Nesting, White, Skip;
    var begin := Skip(t, 0);
    SkippedIsWhite(t, 0);
    ElemAdvances(t, begin, 0);
    ElemAccepted(t, begin, 0);
  }
}
