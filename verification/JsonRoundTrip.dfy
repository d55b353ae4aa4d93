/** Parsing a written JSON document gives the document back. */
module JsonRoundTrip {
  import opened Bytes
  import opened Scanner
  import opened JsonStrings
  import opened JsonWrite
  import opened JsonParse

  // ---------------------------------------------------------------------
  // The documents that come back
  // ---------------------------------------------------------------------

  /** An octet that is written as it is. */
  predicate IsPlain(c: byte) { |EscapeByte(c)| == 1 }

  /** A name, or an unnamed string, that is read as it was written. */
  predicate PlainName(s: bytes) {
    s != [] && s[0] != SPACE && forall i :: 0 <= i < |s| ==> IsPlain(s[i])
  }

  predicate PlainElem(e: Elem)
    decreases e
  {
    (if e.name != [] then PlainName(e.name) else e.value.String? ==> PlainName(e.value.str)) && PlainValue(e.value)
  }

  predicate PlainValue(v: Value)
    decreases v
  {
    match v
    case Number(_, _) => HasDigits(v)
    case Array(items) => forall i :: 0 <= i < |items| ==> items[i].name == [] && PlainElem(items[i])
    case Object(items) => forall i :: 0 <= i < |items| ==> PlainElem(items[i])
    case _ => true
  }

  /** A number has at least one digit or dot, and nothing else. */
  predicate HasDigits(v: Value) {
    v.Number? ==> v.digits != [] && forall i :: 0 <= i < |v.digits| ==> v.digits[i] in FLOAT
  }

  /** All numbers have digits; nothing is asked of names and strings. */
  predicate DigitsOnly(v: Value)
    decreases v
  {
    match v
    case Number(_, _) => HasDigits(v)
    case Array(items) => forall i :: 0 <= i < |items| ==> DigitsOnly(items[i].value)
    case Object(items) => forall i :: 0 <= i < |items| ==> DigitsOnly(items[i].value)
    case _ => true
  }

  /** The nesting of arrays and objects. */
  function Nesting(v: Value): nat
    decreases v
  {
    match v
    case Array(items) => 1 + NestingOfAll(items)
    case Object(items) => 1 + NestingOfAll(items)
    case _ => 0
  }

  function NestingOfAll(items: seq<Elem>): nat
    decreases items
  {
    if items == [] then 0
    else
      var a, b := Nesting(items[0].value), NestingOfAll(items[1..]);
      if a > b then a else b
  }

  // ---------------------------------------------------------------------
  // Beginnings and ends
  // ---------------------------------------------------------------------

  /** An octet that may begin a value. */
  predicate Begins(c: byte) {
    c in FLOAT || c in {MINUS, QUOTE, '[' as byte, '{' as byte} || IsAlpha(c)
  }

  predicate IsClose(c: byte) { c == ']' as int || c == '}' as int }

  /** After white space the text ends, or a comma or a closing bracket follows. */
  predicate Follows(t: bytes, q: nat) {
    q <= |t| && (Skip(t, q) == |t| || t[Skip(t, q)] == COMMA || IsClose(t[Skip(t, q)]))
  }

  /** A value for which the parser wants one more octet than it has. */
  predicate IsShort(v: Value) { v.Null? || v == Bool(true) }

  lemma ValueBegins(v: Value, indent: nat)
    requires HasDigits(v)
    ensures var r := ValueText(v, indent); r != [] && Begins(r[0]) && (r[0] == QUOTE <==> v.String?)
  {
    hide ListText, Escape;
  }

  lemma PlainHasDigits(v: Value)
    ensures PlainValue(v) || DigitsOnly(v) ==> HasDigits(v)
  {
  }

  lemma LabelBegins(name: bytes)
    requires name != []
    ensures Label(name, true) != [] && Label(name, true)[0] == QUOTE
  {
    hide Escape, Spaces;
  }

  lemma SkipSpaces(t: bytes, p: nat, n: nat)
    requires At(t, p, Spaces(n))
    ensures p + n <= |t| && Skip(t, p) == Skip(t, p + n)
  {
    forall i | p <= i < p + n ensures IsWhite(t[i]) { AtIndex(t, p, Spaces(n), i - p); }
    SkipReaches(t, p, p + n);
  }

  // ---------------------------------------------------------------------
  // Scalars
  // ---------------------------------------------------------------------

  lemma NumberParses(t: bytes, p: nat, v: Value)
    requires v.Number? && PlainValue(v) && At(t, p, ValueText(v, 0)) && Follows(t, p + |ValueText(v, 0)|)
    ensures ParseNumber(t, p) == Some(Got(v, Skip(t, p + |ValueText(v, 0)|)))
  {
    hide At, Follows, ParseNumber;
    if v.negative {
      AtSplit(t, p, [MINUS], v.digits);
      NegativeParses(t, p, v.digits);
    } else {
      assert ValueText(v, 0) == v.digits;
      PositiveParses(t, p, v.digits);
    }
  }

  lemma PositiveParses(t: bytes, p: nat, digits: bytes)
    requires At(t, p, digits) && digits != [] && Follows(t, p + |digits|)
    requires forall i :: 0 <= i < |digits| ==> digits[i] in FLOAT
    ensures ParseNumber(t, p) == Some(Got(Number(false, digits), Skip(t, p + |digits|)))
  {
    hide Skip, Span, Follows;
    DigitsSpan(t, p, digits);
  }

  lemma NegativeParses(t: bytes, p: nat, digits: bytes)
    requires At(t, p, [MINUS]) && At(t, p + 1, digits) && digits != [] && Follows(t, p + 1 + |digits|)
    requires forall i :: 0 <= i < |digits| ==> digits[i] in FLOAT
    ensures ParseNumber(t, p) == Some(Got(Number(true, digits), Skip(t, p + 1 + |digits|)))
  {
    hide Skip, Span, Follows;
    AtFirst(t, p, [MINUS]);
    DigitsSpan(t, p + 1, digits);
    SkipOne(t, p + 1);
  }

  lemma DigitsSpan(t: bytes, d: nat, digits: bytes)
    requires At(t, d, digits) && digits != [] && Follows(t, d + |digits|)
    requires forall i :: 0 <= i < |digits| ==> digits[i] in FLOAT
    ensures d < |t| && t[d] in FLOAT && Span(t, d, FLOAT) == d + |digits|
  {
    hide At;
    forall i | d <= i < d + |digits| ensures i < |t| && t[i] in FLOAT { AtIndex(t, d, digits, i - d); }
    SpanReaches(t, d, d + |digits|, FLOAT);
  }

  lemma AtWhole(t: bytes, p: nat, b: bytes)
    requires At(t, p, b)
    ensures p + |b| <= |t| && t[p..p + |b|] == b
  {
  }

  lemma StringParses(t: bytes, p: nat, str: bytes)
    requires At(t, p, Quote(str))
    ensures p + |Quote(str)| <= |t| && ParseString(t, p) == Some(Got(String(str), Skip(t, p + |Quote(str)|)))
  {
    hide At, Escape, QuotedEnd, Unescape;
    QuotedRoundTrip(t, p, str);
    AtWhole(t, p, Quote(str));
  }

  lemma KeywordParses(t: bytes, p: nat, v: Value)
    requires (v.Null? || v.Bool?) && At(t, p, ValueText(v, 0))
    ensures p + |ValueText(v, 0)| <= |t|
    ensures ParseKeyword(t, p) ==
              if IsShort(v) && p + |ValueText(v, 0)| == |t| then None
              else Some(Got(v, Skip(t, p + |ValueText(v, 0)|)))
  {
    var b := ValueText(v, 0);
    AtFirst(t, p, b);
    if p + 5 <= |t| {
      assert t[p..p + 5][0] == t[p] && t[p..p + 4][0] == t[p];
    }
  }

  // ---------------------------------------------------------------------
  // Names
  // ---------------------------------------------------------------------

  lemma {:induction false} PlainEscape(s: bytes)
    requires forall i :: 0 <= i < |s| ==> IsPlain(s[i])
    ensures Escape(s) == s && QUOTE !in s
    decreases |s|
  {
    if s != [] {
      PlainEscape(s[1..]);
      assert EscapeByte(s[0]) == [s[0]] && s == [s[0]] + s[1..];
      assert s[0] != QUOTE;
    }
  }

  /** A plain string in quotes is read raw, up to its closing quote. */
  lemma RawParses(t: bytes, p: nat, s: bytes)
    requires At(t, p, Quote(s)) && PlainName(s)
    ensures p + |s| + 2 <= |t| && t[p] == QUOTE && Char(t, p) == Some(p + 1)
    ensures IndexOf(t, p + 1, QUOTE) == p + 1 + |s| && t[p + 1..p + 1 + |s|] == s
    ensures Char(t, Skip(t, p + 1 + |s|)) == Some(Skip(t, p + |s| + 2))
  {
    hide At, Escape, EscapeByte;
    PlainEscape(s);
    AtIndex(t, p, Quote(s), 0);
    AtIndex(t, p, Quote(s), 1);
    AtIndex(t, p, Quote(s), 1 + |s|);
    AtSplit(t, p, [QUOTE] + s, [QUOTE]);
    AtSplit(t, p, [QUOTE], s);
    AtWhole(t, p + 1, s);
    forall i | p + 1 <= i < p + 1 + |s| ensures t[i] != QUOTE { AtIndex(t, p + 1, s, i - p - 1); }
    IndexOfReaches(t, p + 1, p + 1 + |s|, QUOTE);
    PlainIsNotWhite(s[0]);
  }

  lemma PlainIsNotWhite(c: byte)
    requires IsPlain(c) && c != SPACE
    ensures !IsWhite(c)
  {
  }

  lemma LabelTail(t: bytes, c: nat, pad: nat)
    requires At(t, c, [COLON, SPACE]) && At(t, c + 2, Spaces(pad))
    ensures c + 2 + pad <= |t| && t[c] == COLON && Skip(t, c) == c && Char(t, c) == Some(Skip(t, c + 2 + pad))
  {
    hide At, Skip, Spaces;
    AtIndex(t, c, [COLON, SPACE], 0);
    AtIndex(t, c, [COLON, SPACE], 1);
    SkipOne(t, c);
    SkipOne(t, c + 1);
    SkipSpaces(t, c + 2, pad);
  }

  function Pad(name: bytes): nat { if |name| < NAME_MIN_LEN then NAME_MIN_LEN - |name| else 0 }

  lemma LabelText(name: bytes)
    requires name != []
    ensures Label(name, true) == Quote(name) + [COLON, SPACE] + Spaces(Pad(name))
  {
    hide Quote, Spaces;
  }

  lemma NameParses(t: bytes, p: nat, name: bytes)
    requires At(t, p, Label(name, true)) && PlainName(name)
    ensures p + |Label(name, true)| <= |t|
    ensures ParseHead(t, p) == Some(Head(name, [], Skip(t, p + |Label(name, true)|)))
  {
    hide At, Label, Quote, Spaces, Skip, IndexOf, Char, PlainName, Pad;
    NotEmpty(name);
    QuoteSize(name);
    SpacesSize(Pad(name));
    LabelText(name);
    AtSplit(t, p, Quote(name) + [COLON, SPACE], Spaces(Pad(name)));
    AtSplit(t, p, Quote(name), [COLON, SPACE]);
    RawParses(t, p, name);
    LabelTail(t, p + |name| + 2, Pad(name));
  }

  lemma QuoteSize(name: bytes)
    requires PlainName(name)
    ensures |Quote(name)| == |name| + 2
  {
    PlainEscape(name);
  }

  lemma SpacesSize(n: nat)
    ensures |Spaces(n)| == n
  {
  }

  lemma SkipOne(t: bytes, p: nat)
    requires p < |t|
    ensures Skip(t, p) == if IsWhite(t[p]) then Skip(t, p + 1) else p
  {
  }

  lemma SkipBegins(t: bytes, p: nat)
    requires p < |t| && Begins(t[p])
    ensures Skip(t, p) == p && Commas(t, p) == p && !IsClose(t[p])
  {
  }

  // ---------------------------------------------------------------------
  // Elements
  // ---------------------------------------------------------------------

  /** What the element e, whose text ends at q, parses to. */
  function Expected(t: bytes, e: Elem, depth: nat, q: nat): Option<Got<Elem>>
    requires q <= |t|
  {
    if depth + Nesting(e.value) <= MAX_NESTING && !(IsShort(e.value) && q == |t|) then Some(Got(e, Skip(t, q))) else None
  }

  function ExpectedValue(t: bytes, v: Value, depth: nat, q: nat): Option<Got<Value>>
    requires q <= |t|
  {
    if depth + Nesting(v) <= MAX_NESTING && !(IsShort(v) && q == |t|) then Some(Got(v, Skip(t, q))) else None
  }

  function ExpectedItems(items: seq<Elem>, depth: nat, c: nat): Option<Got<seq<Elem>>> {
    if depth + NestingOfAll(items) <= MAX_NESTING then Some(Got(items, c)) else None
  }

  lemma LabelledParses(t: bytes, p: nat, depth: nat, e: Elem, indent: nat)
    requires At(t, p, Label(e.name, true) + ValueText(e.value, indent)) && e.name != [] && PlainElem(e)
    requires var p1 := p + |Label(e.name, true)|;
             p1 <= |t| && ParseValue(t, p1, depth) == ExpectedValue(t, e.value, depth, p1 + |ValueText(e.value, indent)|)
    ensures ParseElem(t, p, depth) == Expected(t, e, depth, p + |Label(e.name, true) + ValueText(e.value, indent)|)
  {
    hide At, Label, ValueText, ParseValue, ParseHead, PlainName, PlainValue, HasDigits, Skip, Nesting, IsShort, Begins;
    AtSplit(t, p, Label(e.name, true), ValueText(e.value, indent));
    var p1 := p + |Label(e.name, true)|;
    NameParses(t, p, e.name);
    PlainHasDigits(e.value);
    ValueBegins(e.value, indent);
    AtIndex(t, p1, ValueText(e.value, indent), 0);
    SkipBegins(t, p1);
  }

  lemma UnnamedStringParses(t: bytes, p: nat, depth: nat, str: bytes)
    requires At(t, p, Quote(str)) && PlainName(str) && Follows(t, p + |Quote(str)|) && depth <= MAX_NESTING
    ensures ParseElem(t, p, depth) == Some(Got(Elem([], String(str)), Skip(t, p + |Quote(str)|)))
  {
    hide At, Quote, ParseValue, Skip, IndexOf, PlainName;
    RawParses(t, p, str);
    QuoteSize(str);
    NotEmpty(str);
  }

  lemma NotEmpty(s: bytes)
    requires PlainName(s)
    ensures s != []
  {
  }

  lemma UnnamedParses(t: bytes, p: nat, depth: nat, e: Elem, indent: nat)
    requires At(t, p, ValueText(e.value, indent)) && e.name == [] && PlainElem(e) && !e.value.String?
    requires ParseValue(t, p, depth) == ExpectedValue(t, e.value, depth, p + |ValueText(e.value, indent)|)
    ensures ParseElem(t, p, depth) == Expected(t, e, depth, p + |ValueText(e.value, indent)|)
  {
    hide ValueText, ParseValue, At, PlainValue, HasDigits, Nesting, IsShort, Begins;
    PlainHasDigits(e.value);
    ValueBegins(e.value, indent);
    AtIndex(t, p, ValueText(e.value, indent), 0);
  }

  lemma UnnamedText(e: Elem, indent: nat, named: bool)
    requires e.name == []
    ensures ElemText(e, indent, named) == ValueText(e.value, indent)
  {
    hide ValueText;
  }

  lemma Unlabelled(name: bytes)
    ensures Label(name, false) == []
  {
  }

  lemma NamedText(e: Elem, indent: nat, named: bool)
    requires e.name != []
    ensures ElemText(e, indent, named) == Spaces(indent) + (Label(e.name, named) + ValueText(e.value, indent))
  {
    hide ValueText, Label, Spaces;
  }

  /** After the indentation an element begins. */
  lemma ElemBegins(t: bytes, p: nat, e: Elem, indent: nat, named: bool)
    requires At(t, p, ElemText(e, indent, named)) && HasDigits(e.value)
    ensures var q := Skip(t, p);
            && q < |t| && Begins(t[q]) && q == p + (if e.name == [] then 0 else indent)
            && At(t, q, Label(e.name, named) + ValueText(e.value, indent))
  {
    hide At, ElemText, Skip, Begins, Label, ValueText, HasDigits, Spaces;
    ValueBegins(e.value, indent);
    if e.name == [] {
      UnnamedText(e, indent, named);
      EmptyLabel(named);
      assert [] + ValueText(e.value, indent) == ValueText(e.value, indent);
      AtIndex(t, p, ValueText(e.value, indent), 0);
      SkipBegins(t, p);
    } else {
      NamedText(e, indent, named);
      LabelledBegins(e, indent, named);
      IndentedBegins(t, p, indent, Label(e.name, named) + ValueText(e.value, indent));
    }
  }

  lemma LabelledBegins(e: Elem, indent: nat, named: bool)
    requires e.name != [] && ValueText(e.value, indent) != [] && Begins(ValueText(e.value, indent)[0])
    ensures var text := Label(e.name, named) + ValueText(e.value, indent); text != [] && Begins(text[0])
  {
    hide Begins, Label, ValueText;
    QuoteBegins();
    if named { LabelBegins(e.name); } else { Unlabelled(e.name); }
  }

  lemma IndentedBegins(t: bytes, p: nat, indent: nat, text: bytes)
    requires At(t, p, Spaces(indent) + text) && text != [] && Begins(text[0])
    ensures var q := p + indent; Skip(t, p) == q < |t| && Begins(t[q]) && At(t, q, text)
  {
    hide At, Skip, Begins, Spaces;
    AtSplit(t, p, Spaces(indent), text);
    SpacesSize(indent);
    SkipSpaces(t, p, indent);
    AtIndex(t, p + indent, text, 0);
    SkipBegins(t, p + indent);
  }

  lemma EmptyLabel(named: bool)
    ensures Label([], named) == []
  {
  }

  lemma QuoteBegins()
    ensures Begins(QUOTE)
  {
  }

  /** The written element is parsed, wherever it stands. */
  lemma {:induction false} ElemParses(t: bytes, p: nat, depth: nat, e: Elem, indent: nat, named: bool)
    requires At(t, p, ElemText(e, indent, named)) && PlainElem(e) && (named || e.name == [])
    requires depth <= MAX_NESTING && Follows(t, p + |ElemText(e, indent, named)|)
    ensures p <= |t| && ParseElem(t, Skip(t, p), depth) == Expected(t, e, depth, p + |ElemText(e, indent, named)|)
    decreases e
  {
    hide At, ElemText, Skip, Begins, Label, ValueText, PlainName, PlainValue, Spaces, Quote, Follows, ParseElem, ParseValue,
      HasDigits;
    PlainHasDigits(e.value);
    ElemBegins(t, p, e, indent, named);
    var q := Skip(t, p);
    if e.name == [] {
      UnnamedText(e, indent, named);
      if e.value.String? {
        StringText(e.value, indent);
        UnnamedStringParses(t, p, depth, e.value.str);
      } else {
        ValueParses(t, p, depth, e.value, indent);
        UnnamedParses(t, p, depth, e, indent);
      }
    } else {
      NamedText(e, indent, true);
      SpacesSize(indent);
      AtSplit(t, q, Label(e.name, true), ValueText(e.value, indent));
      ValueParses(t, q + |Label(e.name, true)|, depth, e.value, indent);
      LabelledParses(t, q, depth, e, indent);
    }
  }

  lemma StringText(v: Value, indent: nat)
    requires v.String?
    ensures ValueText(v, indent) == Quote(v.str)
  {
  }

  lemma {:induction false} ValueParses(t: bytes, p: nat, depth: nat, v: Value, indent: nat)
    requires At(t, p, ValueText(v, indent)) && PlainValue(v) && depth <= MAX_NESTING && Follows(t, p + |ValueText(v, indent)|)
    ensures p <= |t| && ParseValue(t, p, depth) == ExpectedValue(t, v, depth, p + |ValueText(v, indent)|)
    decreases v
  {
    hide At, Follows, ListText, Escape, ParseNumber, ParseString, ParseKeyword, ParseChildren, NestingOfAll, Skip;
    AtIndex(t, p, ValueText(v, indent), 0);
    match v
    case Null => KeywordParses(t, p, v);
    case Bool(_) => KeywordParses(t, p, v);
    case Number(_, _) => NumberParses(t, p, v);
    case String(str) => StringParses(t, p, str);
    case Array(items) => ChildrenParse(t, p, depth, items, indent, false, '[' as byte, ']' as byte);
    case Object(items) => ChildrenParse(t, p, depth, items, indent, true, '{' as byte, '}' as byte);
  }

  ghost predicate PlainItems(items: seq<Elem>, named: bool) {
    forall i :: 0 <= i < |items| ==> (named || items[i].name == []) && PlainElem(items[i])
  }

  lemma {:induction false} ChildrenParse(t: bytes, p: nat, depth: nat, items: seq<Elem>, indent: nat, named: bool, open: byte, close: byte)
    requires At(t, p, [open, SPACE] + ListText(items, indent, named) + [close]) && PlainItems(items, named)
    requires depth <= MAX_NESTING && IsClose(close) && open != 0
    ensures var q := p + |[open, SPACE] + ListText(items, indent, named) + [close]|;
            && p < q <= |t|
            && ParseChildren(t, p, depth, close) ==
                 if depth + 1 + NestingOfAll(items) <= MAX_NESTING then Some(Got(items, Skip(t, q))) else None
    decreases items, 2
  {
    hide At, ListText, ParseItems, PlainItems, NestingOfAll, Skip;
    var list := ListText(items, indent, named);
    AtSplit(t, p, [open, SPACE] + list, [close]);
    AtSplit(t, p, [open, SPACE], list);
    AtIndex(t, p, [open, SPACE], 0);
    AtIndex(t, p, [open, SPACE], 1);
    AtIndex(t, p + 2 + |list|, [close], 0);
    SkipOne(t, p + 1);
    if depth + 1 <= MAX_NESTING { ListParses(t, p + 2, depth + 1, items, indent, named, close); }
  }

  lemma {:induction false} ListParses(t: bytes, p: nat, depth: nat, items: seq<Elem>, indent: nat, named: bool, close: byte)
    requires At(t, p, ListText(items, indent, named)) && PlainItems(items, named)
    requires depth <= MAX_NESTING && IsClose(close)
    requires var c := p + |ListText(items, indent, named)|; c < |t| && t[c] == close
    ensures ParseItems(t, Skip(t, p), depth, close) ==
              ExpectedItems(items, depth, p + |ListText(items, indent, named)|)
    decreases items, 1
  {
    hide At, ItemsText, ParseItems, Skip, Spaces, PlainItems;
    var c := p + |ListText(items, indent, named)|;
    SkipOne(t, c);
    if items == [] {
      NoItemsParse(t, p, depth, close);
    } else if items[0].name == [] {
      ItemsParse(t, p, depth, items, indent, named, [COMMA, SPACE], [], close);
    } else {
      LinesAt(t, p, items, indent, named);
      ItemsParse(t, p + 1, depth, items, Deeper(indent), named, [COMMA, LF], [LF], close);
    }
  }

  /** Members on lines of their own. */
  lemma LinesAt(t: bytes, p: nat, items: seq<Elem>, indent: nat, named: bool)
    requires At(t, p, ListText(items, indent, named)) && items != [] && items[0].name != []
    requires p + |ListText(items, indent, named)| <= |t|
    ensures var list := ItemsText(items, Deeper(indent), named, [COMMA, LF], [LF]);
            && At(t, p + 1, list) && p + 1 + |list| <= |t| && Skip(t, p) == Skip(t, p + 1)
            && Skip(t, p + 1 + |list|) == Skip(t, p + |ListText(items, indent, named)|)
  {
    hide At, ListText, ItemsText, Deeper, Skip, Spaces;
    var list := ItemsText(items, Deeper(indent), named, [COMMA, LF], [LF]);
    LinesText(items, indent, named);
    AtSplit(t, p, [LF] + list, Spaces(indent));
    AtSplit(t, p, [LF], list);
    AtIndex(t, p, [LF], 0);
    SkipOne(t, p);
    SpacesSize(indent);
    SkipSpaces(t, p + 1 + |list|, indent);
  }

  lemma LinesText(items: seq<Elem>, indent: nat, named: bool)
    requires items != [] && items[0].name != []
    ensures ListText(items, indent, named) ==
            [LF] + ItemsText(items, Deeper(indent), named, [COMMA, LF], [LF]) + Spaces(indent)
  {
    hide ItemsText, Spaces, Deeper;
  }

  lemma NoItemsParse(t: bytes, p: nat, depth: nat, close: byte)
    requires p < |t| && t[p] == close && IsClose(close)
    ensures ParseItems(t, p, depth, close) == Some(Got([], p))
  {
  }

  lemma {:induction false} ItemsParse(t: bytes, p: nat, depth: nat, items: seq<Elem>, indent: nat, named: bool,
                                      sep: bytes, last: bytes, close: byte)
    requires items != [] && At(t, p, ItemsText(items, indent, named, sep, last)) && PlainItems(items, named)
    requires depth <= MAX_NESTING && IsClose(close) && IsSeparator(sep, last)
    requires var q := p + |ItemsText(items, indent, named, sep, last)|;
             q <= |t| && Skip(t, q) < |t| && t[Skip(t, q)] == close
    ensures p <= |t|
    ensures ParseItems(t, Skip(t, p), depth, close) ==
              ExpectedItems(items, depth, Skip(t, p + |ItemsText(items, indent, named, sep, last)|))
    decreases items, 0, 1
  {
    hide At, ItemsText, ParseItems, ParseElem, Skip, ElemText, PlainElem, HasDigits, Follows, Nesting, Begins, IsClose, IsSeparator,
      PlainItems, NestingOfAll, Expected, ExpectedItems;
    PlainSplits(items, named);
    ItemsStart(t, p, items, indent, named, sep, last);
    ElemBegins(t, p, items[0], indent, named);
    SkipBegins(t, Skip(t, p));
    if |items| == 1 {
      LastItem(t, p, depth, items, indent, named, sep, last, close);
    } else {
      var q0 := p + |ElemText(items[0], indent, named)|;
      SeparatorFollows(t, q0, sep, last);
      ElemParses(t, p, depth, items[0], indent, named);
      ItemsParse(t, q0 + 2, depth, items[1..], indent, named, sep, last, close);
      RestBegins(t, q0 + 2, items[1..], indent, named, sep, last);
      MoreItems(t, Skip(t, p), depth, items, q0, Skip(t, q0 + 2), close,
                Skip(t, p + |ItemsText(items, indent, named, sep, last)|));
    }
  }

  /** The first of the members begins where they do. */
  lemma RestBegins(t: bytes, p: nat, items: seq<Elem>, indent: nat, named: bool, sep: bytes, last: bytes)
    requires items != [] && At(t, p, ItemsText(items, indent, named, sep, last)) && PlainItems(items, named)
    ensures p <= |t| && Skip(t, p) < |t| && Begins(t[Skip(t, p)])
  {
    hide At, ItemsText, Skip, ElemText, PlainElem, HasDigits, Begins, PlainItems;
    PlainSplits(items, named);
    ItemsStart(t, p, items, indent, named, sep, last);
    ElemBegins(t, p, items[0], indent, named);
  }

  lemma {:induction false} LastItem(t: bytes, p: nat, depth: nat, items: seq<Elem>, indent: nat, named: bool,
                                    sep: bytes, last: bytes, close: byte)
    requires |items| == 1 && At(t, p, ItemsText(items, indent, named, sep, last)) && PlainItems(items, named)
    requires depth <= MAX_NESTING && IsClose(close) && IsSeparator(sep, last)
    requires var q := p + |ItemsText(items, indent, named, sep, last)|;
             q <= |t| && Skip(t, q) < |t| && t[Skip(t, q)] == close
    ensures p <= |t|
    ensures ParseItems(t, Skip(t, p), depth, close) ==
              ExpectedItems(items, depth, Skip(t, p + |ItemsText(items, indent, named, sep, last)|))
    decreases items, 0, 0
  {
    hide At, ItemsText, ParseItems, ParseElem, Skip, ElemText, PlainElem, HasDigits, Follows, Nesting, Begins, IsClose, IsSeparator,
      PlainItems, NestingOfAll, Expected, ExpectedItems;
    PlainSplits(items, named);
    var q0 := p + |ElemText(items[0], indent, named)|;
    ItemsStart(t, p, items, indent, named, sep, last);
    RestBegins(t, p, items, indent, named, sep, last);
    SkipBegins(t, Skip(t, p));
    LastFollows(t, q0, sep, last, close);
    ElemParses(t, p, depth, items[0], indent, named);
    OneItem(t, Skip(t, p), depth, items, q0, close);
  }

  /** A comma and white space between members, white space after the last. */
  predicate IsSeparator(sep: bytes, last: bytes) {
    |sep| == 2 && sep[0] == COMMA && IsWhite(sep[1]) && forall i :: 0 <= i < |last| ==> IsWhite(last[i])
  }

  lemma ItemsStart(t: bytes, p: nat, items: seq<Elem>, indent: nat, named: bool, sep: bytes, last: bytes)
    requires items != [] && At(t, p, ItemsText(items, indent, named, sep, last))
    ensures At(t, p, ElemText(items[0], indent, named))
    ensures var q := p + |ElemText(items[0], indent, named)|;
            && At(t, q, if |items| == 1 then last else sep)
            && (|items| > 1 ==> At(t, q + |sep|, ItemsText(items[1..], indent, named, sep, last)))
            && p + |ItemsText(items, indent, named, sep, last)| ==
                 q + (if |items| == 1 then |last| else |sep| + |ItemsText(items[1..], indent, named, sep, last)|)
  {
    hide At, ElemText;
    var text := ElemText(items[0], indent, named);
    if |items| == 1 {
      AtSplit(t, p, text, last);
    } else {
      var rest := ItemsText(items[1..], indent, named, sep, last);
      AtSplit(t, p, text + sep, rest);
      AtSplit(t, p, text, sep);
    }
  }

  lemma LastFollows(t: bytes, q: nat, sep: bytes, last: bytes, close: byte)
    requires At(t, q, last) && IsSeparator(sep, last)
    requires q + |last| <= |t| && Skip(t, q + |last|) < |t| && t[Skip(t, q + |last|)] == close && IsClose(close)
    ensures Skip(t, q) == Skip(t, q + |last|) && Follows(t, q) && q < |t|
  {
    hide At;
    forall i | q <= i < q + |last| ensures IsWhite(t[i]) { AtIndex(t, q, last, i - q); }
    SkipReaches(t, q, q + |last|);
  }

  lemma SeparatorFollows(t: bytes, q: nat, sep: bytes, last: bytes)
    requires At(t, q, sep) && IsSeparator(sep, last)
    ensures |sep| == 2 && q + 2 <= |t| && t[q] == COMMA && Skip(t, q) == q && Skip(t, q + 1) == Skip(t, q + 2) && Follows(t, q)
  {
    hide At, Skip;
    AtIndex(t, q, sep, 0);
    AtIndex(t, q, sep, 1);
    SkipOne(t, q);
    SkipOne(t, q + 1);
  }

  lemma OneItem(t: bytes, p: nat, depth: nat, items: seq<Elem>, q: nat, close: byte)
    requires |items| == 1 && p < |t| && Commas(t, p) == p && t[p] != close && q < |t| && IsClose(close)
    requires Skip(t, q) < |t| && t[Skip(t, q)] == close
    requires ParseElem(t, p, depth) == Expected(t, items[0], depth, q)
    ensures ParseItems(t, p, depth, close) == ExpectedItems(items, depth, Skip(t, q))
  {
    hide ParseElem, Skip, Nesting;
    assert items[1..] == [] && [items[0]] + [] == items;
    assert NestingOfAll([]) == 0;
    NoItemsParse(t, Skip(t, q), depth, close);
  }

  lemma MoreItems(t: bytes, p: nat, depth: nat, items: seq<Elem>, q: nat, r: nat, close: byte, end: nat)
    requires |items| > 1 && p < |t| && Commas(t, p) == p && t[p] != close && IsClose(close)
    requires q + 1 < |t| && t[q] == COMMA && Skip(t, q) == q && r == Skip(t, q + 1) < |t| && Begins(t[r])
    requires ParseElem(t, p, depth) == Expected(t, items[0], depth, q)
    requires ParseItems(t, r, depth, close) == ExpectedItems(items[1..], depth, end)
    ensures ParseItems(t, p, depth, close) == ExpectedItems(items, depth, end)
  {
    hide ParseElem, Skip, Nesting, NestingOfAll, Begins;
    SkipBegins(t, r);
    ThroughComma(t, q, depth, close);
    NestingSplits(items);
    assert [items[0]] + items[1..] == items;
  }

  lemma PlainSplits(items: seq<Elem>, named: bool)
    requires PlainItems(items, named) && items != []
    ensures PlainElem(items[0]) && (named || items[0].name == []) && PlainItems(items[1..], named) && HasDigits(items[0].value)
    ensures |items| > 1 ==>
              items[1..][0] == items[1] && PlainElem(items[1]) && (named || items[1].name == []) && HasDigits(items[1].value)
  {
    hide PlainName, HasDigits;
    PlainHasDigits(items[0].value);
    if |items| > 1 { PlainHasDigits(items[1].value); }
  }

  lemma NestingSplits(items: seq<Elem>)
    requires items != []
    ensures var a, b := Nesting(items[0].value), NestingOfAll(items[1..]); NestingOfAll(items) == if a > b then a else b
  {
  }

  lemma ThroughComma(t: bytes, q: nat, depth: nat, close: byte)
    requires q + 1 < |t| && t[q] == COMMA && IsClose(close)
    requires var r := Skip(t, q + 1); r < |t| && Commas(t, r) == r && t[r] != close
    ensures ParseItems(t, q, depth, close) == ParseItems(t, Skip(t, q + 1), depth, close)
  {
    hide ParseElem, Skip;
  }

  // ---------------------------------------------------------------------
  // Documents
  // ---------------------------------------------------------------------

  /** Parsing the written document gives it back with nothing left over. */
  predicate RoundTrips(e: Elem) {
    Parse(ElemText(e, 0, true)) == Some(Got(e, 0))
  }

  lemma TextIsNotEmpty(e: Elem)
    requires HasDigits(e.value)
    ensures ElemText(e, 0, true) != []
  {
    hide ValueText, HasDigits;
    ValueBegins(e.value, 0);
  }

  /** With plain names, a document that does not nest too deep, and whose root is not null or true, comes back. */
  lemma PlainRoundTrip(e: Elem)
    requires PlainElem(e)
    ensures RoundTrips(e) <==> Nesting(e.value) <= MAX_NESTING && !IsShort(e.value)
    ensures !RoundTrips(e) ==> Parse(ElemText(e, 0, true)) == None
  {
    hide At, ElemText, PlainElem, HasDigits, Skip, ParseElem, Nesting;
    var t := ElemText(e, 0, true);
    PlainElemHasDigits(e);
    TextIsNotEmpty(e);
    WholeText(t);
    ElemParses(t, 0, 0, e, 0, true);
  }

  lemma PlainElemHasDigits(e: Elem)
    requires PlainElem(e)
    ensures HasDigits(e.value)
  {
  }

  lemma WholeText(t: bytes)
    ensures At(t, 0, t) && Skip(t, |t|) == |t| && Follows(t, |t|)
  {
  }

  // ---------------------------------------------------------------------
  // Names that do not come back
  // ---------------------------------------------------------------------

  /** In an escape, a quote stands after a backslash, and only a quote is written with one. */
  lemma {:induction false} QuoteIsEscaped(v: bytes, i: nat)
    requires i < |Escape(v)| && Escape(v)[i] == QUOTE
    ensures i > 0 && Escape(v)[i - 1] == SLASH && QUOTE in v
    decreases |v|
  {
    var e := EscapeByte(v[0]);
    if i < |e| {
      assert e[i] == QUOTE && e != [QUOTE];
    } else {
      assert Escape(v)[i] == Escape(v[1..])[i - |e|];
      QuoteIsEscaped(v[1..], i - |e|);
      assert Escape(v)[i - 1] == Escape(v[1..])[i - |e| - 1];
    }
  }

  lemma {:induction false} SameSizeIsPlain(v: bytes)
    requires |Escape(v)| == |v|
    ensures forall i :: 0 <= i < |v| ==> IsPlain(v[i])
    decreases |v|
  {
    if v != [] {
      assert |EscapeByte(v[0])| == 1 && |Escape(v[1..])| == |v[1..]|;
      SameSizeIsPlain(v[1..]);
      assert forall i :: 1 <= i < |v| ==> v[i] == v[1..][i - 1];
    }
  }

  lemma FirstIsWhite(v: bytes)
    requires v != []
    ensures IsWhite(Escape(v)[0]) <==> v[0] == SPACE
  {
  }

  /** If a string read raw is the one that was written in quotes, it is plain. */
  lemma RawIsPlain(t: bytes, p: nat, v: bytes)
    requires At(t, p, Quote(v)) && v != []
    requires var p1 := Skip(t, p + 1); t[p1..IndexOf(t, p1, QUOTE)] == v
    ensures PlainName(v)
  {
    hide Escape, At, Skip, IndexOf, EscapeByte;
    var E, p1 := Escape(v), Skip(t, p + 1);
    var c := p + 1 + |E|;
    QuoteParts(t, p, v);
    assert QUOTE !in v;
    forall i | p + 1 <= i < c ensures t[i] != QUOTE {
      if t[i] == QUOTE {
        AtIndex(t, p + 1, E, i - p - 1);
        QuoteIsEscaped(v, i - p - 1);
      }
    }
    assert !IsWhite(t[c]) && p1 <= c;
    IndexOfReaches(t, p1, c, QUOTE);
    FirstIsWhite(v);
    AtIndex(t, p + 1, E, 0);
    SkipOne(t, p + 1);
    assert t[p1] == t[p1..c][0] == v[0];
    SameSizeIsPlain(v);
  }

  lemma QuoteParts(t: bytes, p: nat, v: bytes)
    requires At(t, p, Quote(v))
    ensures At(t, p + 1, Escape(v)) && p + 1 + |Escape(v)| < |t|
    ensures t[p] == QUOTE && t[p + 1 + |Escape(v)|] == QUOTE
  {
    hide Escape, At;
    AtSplit(t, p, [QUOTE] + Escape(v), [QUOTE]);
    AtSplit(t, p, [QUOTE], Escape(v));
    AtFirst(t, p, [QUOTE]);
    AtFirst(t, p + 1 + |Escape(v)|, [QUOTE]);
  }

  lemma LabelStart(t: bytes, p: nat, name: bytes)
    requires name != [] && At(t, p, Label(name, true))
    ensures At(t, p, Quote(name))
  {
    hide At, Quote, Spaces;
    var pad := Spaces(if |name| < NAME_MIN_LEN then NAME_MIN_LEN - |name| else 0);
    AtSplit(t, p, Quote(name) + [COLON, SPACE], pad);
    AtSplit(t, p, Quote(name), [COLON, SPACE]);
  }

  /** The parser gives back x at p. */
  ghost predicate Reads(t: bytes, p: nat, depth: nat, x: Elem) {
    p <= |t| && ParseElem(t, p, depth).Some? && ParseElem(t, p, depth).value.item == x
  }

  ghost predicate ReadsValue(t: bytes, p: nat, depth: nat, v: Value) {
    p <= |t| && ParseValue(t, p, depth).Some? && ParseValue(t, p, depth).value.item == v
  }

  ghost predicate ReadsItems(t: bytes, p: nat, depth: nat, items: seq<Elem>, close: byte) {
    p <= |t| && ParseItems(t, p, depth, close).Some? && ParseItems(t, p, depth, close).value.item == items
  }

  /** The name that is read is the raw text between quotes. */
  lemma NameIsPlain(t: bytes, p: nat, depth: nat, e: Elem)
    requires e.name != [] && At(t, p, Quote(e.name)) && Reads(t, p, depth, e)
    ensures PlainName(e.name)
  {
    hide Skip, IndexOf, ParseValue, At, Quote, PlainName;
    QuoteParts(t, p, e.name);
    RawIsPlain(t, p, e.name);
  }

  /** If nothing is left of a quoted string after white space, it was all white space. */
  lemma EmptyToken(t: bytes, p: nat, v: bytes)
    requires At(t, p, Quote(v))
    ensures p + 1 <= |t|
    ensures var p1, c := Skip(t, p + 1), p + 1 + |Escape(v)|; p1 <= c < |t| && (t[p1] == QUOTE ==> p1 == c)
  {
    hide At, Escape, Skip;
    QuoteParts(t, p, v);
    var p1, E := Skip(t, p + 1), Escape(v);
    assert !IsWhite(t[p + 1 + |E|]) && p1 <= p + 1 + |E|;
    if p1 < p + 1 + |E| && t[p1] == QUOTE {
      AtIndex(t, p + 1, E, p1 - p - 1);
      QuoteIsEscaped(v, p1 - p - 1);
      AtIndex(t, p + 1, E, p1 - p - 2);
    }
  }

  lemma IndexOne(t: bytes, p: nat)
    requires p < |t| && t[p] == QUOTE
    ensures IndexOf(t, p, QUOTE) == p && Skip(t, p) == p
  {
  }

  /** No value begins where a comma, a closing bracket or the end follows. */
  lemma NothingFollows(t: bytes, q: nat, depth: nat)
    requires Follows(t, q)
    ensures var p := Skip(t, q); Peek(t, p) != COLON && ParseValue(t, p, depth).None?
  {
    hide Skip, ParseNumber, ParseString, ParseKeyword, ParseChildren;
  }

  /** An unnamed string that is given back was read raw. */
  lemma StringIsPlain(t: bytes, p: nat, depth: nat, v: bytes)
    requires At(t, p, Quote(v)) && Follows(t, p + |Quote(v)|) && Reads(t, p, depth, Elem([], String(v)))
    ensures PlainName(v)
  {
    hide Skip, IndexOf, At, PlainName, Escape, ParseValue, Follows;
    QuoteParts(t, p, v);
    var p1, c := Skip(t, p + 1), p + 1 + |Escape(v)|;
    EmptyToken(t, p, v);
    IndexOne(t, c);
    NothingFollows(t, c + 1, depth);
    if v != [] && t[p1..IndexOf(t, p1, QUOTE)] == v { RawIsPlain(t, p, v); }
  }

  /** After its label an element is its value. */
  lemma ValueIsRead(t: bytes, p: nat, depth: nat, e: Elem, indent: nat)
    requires At(t, p, Label(e.name, true) + ValueText(e.value, indent)) && Reads(t, p, depth, e) && HasDigits(e.value)
    requires e.name != [] && PlainName(e.name)
    ensures ReadsValue(t, p + |Label(e.name, true)|, depth, e.value)
    ensures At(t, p + |Label(e.name, true)|, ValueText(e.value, indent))
  {
    hide At, Label, ValueText, ParseValue, ParseHead, PlainName, HasDigits, Skip, Begins;
    AtSplit(t, p, Label(e.name, true), ValueText(e.value, indent));
    var p1 := p + |Label(e.name, true)|;
    NameParses(t, p, e.name);
    ValueBegins(e.value, indent);
    AtIndex(t, p1, ValueText(e.value, indent), 0);
    SkipBegins(t, p1);
  }

  lemma UnnamedIsRead(t: bytes, p: nat, depth: nat, e: Elem, indent: nat)
    requires At(t, p, ValueText(e.value, indent)) && Reads(t, p, depth, e) && HasDigits(e.value) && !e.value.String?
    ensures ReadsValue(t, p, depth, e.value)
  {
    hide ValueText, ParseValue, At, HasDigits, Begins;
    ValueBegins(e.value, indent);
    AtIndex(t, p, ValueText(e.value, indent), 0);
  }

  // ---------------------------------------------------------------------
  // Names that are not written
  // ---------------------------------------------------------------------

  /** From a on, no backslash stands before the first quote. */
  ghost predicate Clean(t: bytes, a: nat) {
    forall i :: a <= i < |t| && t[i] == SLASH ==> exists j :: a <= j < i && t[j] == QUOTE
  }

  ghost predicate CleanText(b: bytes) { Clean(b, 0) }

  lemma CleanThrough(t: bytes, a: nat, b: bytes)
    requires At(t, a, b) && CleanText(b) && Clean(t, a + |b|)
    ensures Clean(t, a)
  {
    forall i | a <= i < |t| && t[i] == SLASH ensures exists j :: a <= j < i && t[j] == QUOTE {
      if i < a + |b| {
        AtIndex(t, a, b, i - a);
        var j :| 0 <= j < i - a && b[j] == QUOTE;
        AtIndex(t, a, b, j);
        assert a <= a + j < i && t[a + j] == QUOTE;
      }
    }
  }

  lemma CleanBefore(t: bytes, a: nat)
    requires a < |t| && t[a] != SLASH && Clean(t, a + 1)
    ensures Clean(t, a)
  {
  }

  lemma CleanJoin(a: bytes, b: bytes)
    requires CleanText(a) && CleanText(b)
    ensures CleanText(a + b)
  {
    forall i | 0 <= i < |a + b| && (a + b)[i] == SLASH ensures exists j :: 0 <= j < i && (a + b)[j] == QUOTE {
      if i < |a| {
        var j :| 0 <= j < i && a[j] == QUOTE;
        assert (a + b)[j] == QUOTE;
      } else {
        var j :| 0 <= j < i - |a| && b[j] == QUOTE;
        assert (a + b)[|a| + j] == QUOTE;
      }
    }
  }

  lemma CleanSpaces(n: nat)
    ensures CleanText(Spaces(n))
  {
  }

  lemma CleanQuote(v: bytes)
    ensures CleanText(Quote(v))
  {
    hide Escape;
    assert Quote(v)[0] == QUOTE;
  }

  lemma SeparatorIsClean(sep: bytes, last: bytes)
    requires IsSeparator(sep, last)
    ensures CleanText(sep) && CleanText(last)
  {
  }

  lemma CleanLabel(name: bytes, named: bool)
    ensures CleanText(Label(name, named))
  {
    hide Quote, Spaces, CleanText;
    if name != [] && named {
      var pad := if |name| < NAME_MIN_LEN then NAME_MIN_LEN - |name| else 0;
      CleanQuote(name);
      CleanColon();
      CleanSpaces(pad);
      CleanJoin(Quote(name), [COLON, SPACE]);
      CleanJoin(Quote(name) + [COLON, SPACE], Spaces(pad));
    } else {
      CleanSpaces(0);
      SpacesSize(0);
    }
  }

  lemma CleanColon()
    ensures CleanText([COLON, SPACE]) && CleanText([LF]) && CleanText([])
    ensures CleanText(['[' as byte, SPACE]) && CleanText([']' as byte])
    ensures CleanText(['{' as byte, SPACE]) && CleanText(['}' as byte])
  {
  }

  lemma {:induction false} ElemIsClean(e: Elem, indent: nat, named: bool)
    requires DigitsOnly(e.value)
    ensures CleanText(ElemText(e, indent, named))
    decreases e
  {
    hide Label, ValueText, CleanText, Spaces, DigitsOnly;
    var lead := Lead(e.name, indent);
    assert CleanText(lead) by {
      CleanSpaces(indent);
      CleanColon();
    }
    CleanLabel(e.name, named);
    ValueIsClean(e.value, indent);
    CleanJoin(lead, Label(e.name, named));
    CleanJoin(lead + Label(e.name, named), ValueText(e.value, indent));
  }

  lemma {:induction false} ValueIsClean(v: Value, indent: nat)
    requires DigitsOnly(v)
    ensures CleanText(ValueText(v, indent))
    decreases v
  {
    hide ListText, Quote, CleanText;
    match v
    case Array(items) =>
      ListIsClean(items, indent, false);
      CleanColon();
      CleanJoin(['[' as byte, SPACE], ListText(items, indent, false));
      CleanJoin(['[' as byte, SPACE] + ListText(items, indent, false), [']' as byte]);
    case Object(items) =>
      ListIsClean(items, indent, true);
      CleanColon();
      CleanJoin(['{' as byte, SPACE], ListText(items, indent, true));
      CleanJoin(['{' as byte, SPACE] + ListText(items, indent, true), ['}' as byte]);
    case String(str) => CleanQuote(str);
    case _ => ScalarIsClean(v, indent);
  }

  lemma ScalarIsClean(v: Value, indent: nat)
    requires v.Null? || v.Bool? || (v.Number? && HasDigits(v))
    ensures CleanText(ValueText(v, indent))
  {
  }

  lemma {:induction false} ListIsClean(items: seq<Elem>, indent: nat, named: bool)
    requires DigitsOnlyItems(items)
    ensures CleanText(ListText(items, indent, named))
    decreases items, 1
  {
    hide ItemsText, CleanText, Spaces, DigitsOnlyItems;
    CleanColon();
    if items != [] && items[0].name == [] {
      assert IsSeparator([COMMA, SPACE], []);
      ItemsAreClean(items, indent, named, [COMMA, SPACE], []);
    } else if items != [] {
      var list := ItemsText(items, Deeper(indent), named, [COMMA, LF], [LF]);
      assert IsSeparator([COMMA, LF], [LF]);
      ItemsAreClean(items, Deeper(indent), named, [COMMA, LF], [LF]);
      CleanSpaces(indent);
      CleanJoin([LF], list);
      CleanJoin([LF] + list, Spaces(indent));
    }
  }

  lemma {:induction false} ItemsAreClean(items: seq<Elem>, indent: nat, named: bool, sep: bytes, last: bytes)
    requires DigitsOnlyItems(items) && IsSeparator(sep, last)
    ensures CleanText(ItemsText(items, indent, named, sep, last))
    decreases items, 0
  {
    hide ElemText, CleanText, DigitsOnly, IsSeparator;
    CleanColon();
    SeparatorIsClean(sep, last);
    if items != [] {
      var text := ElemText(items[0], indent, named);
      ElemIsClean(items[0], indent, named);
      CleanJoin(text, last);
      CleanJoin(text, sep);
      if |items| > 1 {
        ItemsAreClean(items[1..], indent, named, sep, last);
        CleanJoin(text + sep, ItemsText(items[1..], indent, named, sep, last));
      }
    }
  }

  /** Where no backslash stands before the next quote, that quote closes a string. */
  lemma {:induction false} CleanClosing(t: bytes, lo: nat, s: nat)
    requires lo <= s <= |t| && Clean(t, lo) && forall i :: lo <= i < s ==> t[i] != QUOTE
    ensures var c := Closing(t, lo, s, QUOTE);
            c.Some? ==> forall i :: lo <= i < c.value ==> t[i] != QUOTE && t[i] != SLASH
    decreases |t| - s
  {
    if s < |t| {
      assert s > lo ==> t[s - 1] != SLASH;
      if t[s] == QUOTE {
        assert Slashes(t, lo, s) == 0;
      } else {
        CleanClosing(t, lo, s + 1);
      }
    }
  }

  /** A string read from there has no quote in it. */
  lemma CleanString(t: bytes, c: nat, v: bytes)
    requires c < |t| && t[c] == QUOTE && Clean(t, c + 1)
    requires ParseString(t, c).Some? && ParseString(t, c).value.item == String(v)
    ensures QUOTE !in v
  {
    hide Skip, Clean, Unescape;
    CleanClosing(t, c + 1, c + 1);
    assert IndexOf([QUOTE], 0, QUOTE) == 0;
    var d := Closing(t, c + 1, c + 1, QUOTE).value;
    var inner := t[c + 1..d];
    assert forall i :: 0 <= i < |inner| ==> inner[i] == t[c + 1 + i];
    WithoutSlash(inner, 0);
    assert inner[0..] == inner;
  }

  /** An element written without its name is not given back with it. */
  lemma NameIsLost(t: bytes, p: nat, depth: nat, e: Elem, indent: nat)
    requires At(t, p, ValueText(e.value, indent)) && HasDigits(e.value) && e.name != []
    requires var q := p + |ValueText(e.value, indent)|; Follows(t, q) && Clean(t, q)
    ensures !Reads(t, p, depth, e)
  {
    hide ValueText, ParseValue, At, HasDigits, Begins, Follows, Clean, Quote, Skip, IndexOf;
    ValueBegins(e.value, indent);
    AtIndex(t, p, ValueText(e.value, indent), 0);
    if e.value.String? {
      StringText(e.value, indent);
      StringHasNoName(t, p, depth, e);
    }
  }

  /** In a quoted string, what follows a colon and white space is no quote but the closing one. */
  lemma QuoteAfterColon(t: bytes, p: nat, v: bytes, p2: nat)
    requires At(t, p, Quote(v)) && p + 1 <= p2 < p + 1 + |Escape(v)| < |t| && t[p2] == COLON
    ensures var p3, c := Skip(t, p2 + 1), p + 1 + |Escape(v)|; p3 <= c && (t[p3] == QUOTE ==> p3 == c)
  {
    hide At, Escape, Skip;
    QuoteParts(t, p, v);
    var p3, c := Skip(t, p2 + 1), p + 1 + |Escape(v)|;
    assert !IsWhite(t[c]) && p3 <= c;
    if p3 < c && t[p3] == QUOTE {
      AtIndex(t, p + 1, Escape(v), p3 - p - 1);
      QuoteIsEscaped(v, p3 - p - 1);
      AtIndex(t, p + 1, Escape(v), p3 - p - 2);
    }
  }

  /** An element that is read with a name has a quote, a colon and its value. */
  lemma NamedIsRead(t: bytes, p: nat, depth: nat, e: Elem)
    requires p + 1 < |t| && t[p] == QUOTE && e.name != [] && Reads(t, p, depth, e)
    ensures var s := IndexOf(t, Skip(t, p + 1), QUOTE);
            && s < |t|
            && var p2 := Skip(t, s + 1);
               p2 < |t| && t[p2] == COLON && ReadsValue(t, Skip(t, p2 + 1), depth, e.value)
  {
    hide ParseValue, Skip, IndexOf;
    var s := IndexOf(t, Skip(t, p + 1), QUOTE);
    if s < |t| { IndexOne(t, s); }
  }

  lemma StringHasNoName(t: bytes, p: nat, depth: nat, e: Elem)
    requires e.value.String? && e.name != [] && At(t, p, Quote(e.value.str))
    requires var q := p + |Quote(e.value.str)|; Follows(t, q) && Clean(t, q)
    ensures !Reads(t, p, depth, e)
  {
    hide At, Follows, Clean, Escape, Skip, IndexOf, Reads, ReadsValue;
    if Reads(t, p, depth, e) {
      QuoteParts(t, p, e.value.str);
      NamedIsRead(t, p, depth, e);
      EmptyToken(t, p, e.value.str);
      NothingFollows(t, p + |Quote(e.value.str)|, depth);
      QuoteIsInside(t, p, depth, e.value.str, IndexOf(t, Skip(t, p + 1), QUOTE));
    }
  }

  /** A string does not have in it a quote, a colon and the string itself. */
  lemma QuoteIsInside(t: bytes, p: nat, depth: nat, v: bytes, s: nat)
    requires At(t, p, Quote(v)) && p + 1 <= s < |t| && Clean(t, p + |Quote(v)|)
    requires var c := p + 1 + |Escape(v)|; c < |t| && (Skip(t, c + 1) < |t| ==> t[Skip(t, c + 1)] != COLON) && s <= c
    requires t[s] == QUOTE && Skip(t, s + 1) < |t| && t[Skip(t, s + 1)] == COLON
    ensures !ReadsValue(t, Skip(t, Skip(t, s + 1) + 1), depth, String(v))
  {
    hide At, Clean, Escape, Skip, ReadsValue;
    var c, p2 := p + 1 + |Escape(v)|, Skip(t, s + 1);
    QuoteParts(t, p, v);
    assert !IsWhite(t[c]) && p2 < c;
    QuoteAfterColon(t, p, v, p2);
    if ReadsValue(t, Skip(t, p2 + 1), depth, String(v)) {
      StringIsRead(t, Skip(t, p2 + 1), depth, v);
      CleanString(t, c, v);
      AtIndex(t, p + 1, Escape(v), s - p - 1);
      QuoteIsEscaped(v, s - p - 1);
    }
  }

  lemma StringIsRead(t: bytes, p: nat, depth: nat, v: bytes)
    requires ReadsValue(t, p, depth, String(v))
    ensures p < |t| && t[p] == QUOTE && ParseString(t, p).Some? && ParseString(t, p).value.item == String(v)
  {
    hide ParseChildren, ParseString, Skip, Span;
  }

  /** An element that is given back as it was written is plain, and has no name if none was written. */
  lemma {:induction false} ElemIsPlain(t: bytes, p: nat, depth: nat, e: Elem, indent: nat, named: bool)
    requires At(t, p, ElemText(e, indent, named)) && DigitsOnly(e.value) && depth <= MAX_NESTING
    requires var q := p + |ElemText(e, indent, named)|; Follows(t, q) && Clean(t, q)
    requires p <= |t| && Reads(t, Skip(t, p), depth, e)
    ensures PlainElem(e) && (named || e.name == [])
    decreases e
  {
    hide At, ElemText, Skip, Begins, Label, ValueText, PlainName, PlainValue, Spaces, Quote, Follows, Clean, Reads, ReadsValue,
      HasDigits, DigitsOnly;
    PlainHasDigits(e.value);
    ElemBegins(t, p, e, indent, named);
    var q := Skip(t, p);
    if e.name == [] {
      UnnamedText(e, indent, named);
      if e.value.String? {
        StringText(e.value, indent);
        StringIsPlain(t, p, depth, e.value.str);
        StringValueIsPlain(e.value);
      } else {
        UnnamedIsRead(t, p, depth, e, indent);
        ValueIsPlain(t, p, depth, e.value, indent);
      }
    } else {
      NamedText(e, indent, named);
      SpacesSize(indent);
      AtSplit(t, q, Label(e.name, named), ValueText(e.value, indent));
      if named {
        LabelStart(t, q, e.name);
        NameIsPlain(t, q, depth, e);
        ValueIsRead(t, q, depth, e, indent);
        ValueIsPlain(t, q + |Label(e.name, true)|, depth, e.value, indent);
      } else {
        Unlabelled(e.name);
        NameIsLost(t, q, depth, e, indent);
      }
    }
  }

  lemma StringValueIsPlain(v: Value)
    requires v.String?
    ensures PlainValue(v)
  {
  }

  lemma {:induction false} ValueIsPlain(t: bytes, p: nat, depth: nat, v: Value, indent: nat)
    requires At(t, p, ValueText(v, indent)) && DigitsOnly(v) && depth <= MAX_NESTING && ReadsValue(t, p, depth, v)
    requires Clean(t, p + |ValueText(v, indent)|)
    ensures PlainValue(v)
    decreases v
  {
    hide Clean, At, ListText, Escape, ParseNumber, ParseString, ParseKeyword, ParseChildren, Skip, HasDigits;
    if v.Array? {
      AtIndex(t, p, ValueText(v, indent), 0);
      ChildrenArePlain(t, p, depth, v.items, indent, false, '[' as byte, ']' as byte);
    } else if v.Object? {
      AtIndex(t, p, ValueText(v, indent), 0);
      ChildrenArePlain(t, p, depth, v.items, indent, true, '{' as byte, '}' as byte);
    }
  }

  ghost predicate DigitsOnlyItems(items: seq<Elem>) {
    forall i :: 0 <= i < |items| ==> DigitsOnly(items[i].value)
  }

  lemma {:induction false} ChildrenArePlain(t: bytes, p: nat, depth: nat, items: seq<Elem>, indent: nat, named: bool,
                                            open: byte, close: byte)
    requires At(t, p, [open, SPACE] + ListText(items, indent, named) + [close]) && DigitsOnlyItems(items)
    requires depth <= MAX_NESTING && IsClose(close) && p < |t|
    requires Clean(t, p + |[open, SPACE] + ListText(items, indent, named) + [close]|)
    requires ParseChildren(t, p, depth, close).Some? && ParseChildren(t, p, depth, close).value.item == items
    ensures PlainItems(items, named)
    decreases items, 2
  {
    hide At, ListText, ParseItems, DigitsOnlyItems, PlainItems, Skip, Clean;
    var list := ListText(items, indent, named);
    AtSplit(t, p, [open, SPACE] + list, [close]);
    AtSplit(t, p, [open, SPACE], list);
    AtIndex(t, p, [open, SPACE], 1);
    AtIndex(t, p + 2 + |list|, [close], 0);
    SkipOne(t, p + 1);
    CleanBefore(t, p + 2 + |list|);
    ListIsPlain(t, p + 2, depth + 1, items, indent, named, close);
  }

  lemma {:induction false} ListIsPlain(t: bytes, p: nat, depth: nat, items: seq<Elem>, indent: nat, named: bool, close: byte)
    requires At(t, p, ListText(items, indent, named)) && DigitsOnlyItems(items)
    requires depth <= MAX_NESTING && IsClose(close)
    requires var c := p + |ListText(items, indent, named)|; c < |t| && t[c] == close && Clean(t, c)
    requires ReadsItems(t, Skip(t, p), depth, items, close)
    ensures PlainItems(items, named)
    decreases items, 1
  {
    hide At, ItemsText, ReadsItems, Skip, Spaces, DigitsOnlyItems, PlainElem, Clean;
    var c := p + |ListText(items, indent, named)|;
    SkipOne(t, c);
    if items == [] {
    } else if items[0].name == [] {
      ItemsArePlain(t, p, depth, items, indent, named, [COMMA, SPACE], [], close);
    } else {
      LinesAt(t, p, items, indent, named);
      LinesAreClean(t, p, items, indent, named);
      ItemsArePlain(t, p + 1, depth, items, Deeper(indent), named, [COMMA, LF], [LF], close);
    }
  }

  lemma LinesAreClean(t: bytes, p: nat, items: seq<Elem>, indent: nat, named: bool)
    requires At(t, p, ListText(items, indent, named)) && items != [] && items[0].name != []
    requires Clean(t, p + |ListText(items, indent, named)|)
    ensures Clean(t, p + 1 + |ItemsText(items, Deeper(indent), named, [COMMA, LF], [LF])|)
  {
    hide At, ListText, ItemsText, Deeper, Spaces, Clean, CleanText;
    var list := ItemsText(items, Deeper(indent), named, [COMMA, LF], [LF]);
    LinesText(items, indent, named);
    AtSplit(t, p, [LF] + list, Spaces(indent));
    CleanSpaces(indent);
    CleanThrough(t, p + 1 + |list|, Spaces(indent));
  }

  /** The first member is given back, and the others are where it ends. */
  lemma ItemsSplit(t: bytes, p: nat, depth: nat, items: seq<Elem>, close: byte)
    requires p < |t| && Begins(t[p]) && IsClose(close) && items != [] && ReadsItems(t, p, depth, items, close)
    ensures Reads(t, p, depth, items[0])
    ensures ReadsItems(t, ParseElem(t, p, depth).value.end, depth, items[1..], close)
  {
    hide ParseElem, Begins;
    SkipBegins(t, p);
    var x := ParseElem(t, p, depth);
    var rest := ParseItems(t, x.value.end, depth, close);
    assert items == [x.value.item] + rest.value.item;
    assert items[1..] == rest.value.item;
  }

  lemma {:induction false} ItemsArePlain(t: bytes, p: nat, depth: nat, items: seq<Elem>, indent: nat, named: bool,
                                         sep: bytes, last: bytes, close: byte)
    requires items != [] && At(t, p, ItemsText(items, indent, named, sep, last)) && DigitsOnlyItems(items)
    requires depth <= MAX_NESTING && IsClose(close) && IsSeparator(sep, last)
    requires var q := p + |ItemsText(items, indent, named, sep, last)|;
             q <= |t| && Skip(t, q) < |t| && t[Skip(t, q)] == close && Clean(t, q)
    requires p <= |t| && ReadsItems(t, Skip(t, p), depth, items, close)
    ensures PlainItems(items, named)
    decreases items, 0
  {
    hide At, ItemsText, ReadsItems, Reads, ParseElem, Skip, ElemText, PlainElem, HasDigits, DigitsOnly, Follows, Begins, IsClose,
      IsSeparator, PlainItems, DigitsOnlyItems, ParseItems, Clean, CleanText;
    DigitsSplit(items);
    var q0 := p + |ElemText(items[0], indent, named)|;
    ItemsStart(t, p, items, indent, named, sep, last);
    ElemBegins(t, p, items[0], indent, named);
    ItemsSplit(t, Skip(t, p), depth, items, close);
    FirstFollows(t, p, items, indent, named, sep, last, close);
    ElemIsPlain(t, p, depth, items[0], indent, named);
    if |items| > 1 {
      NextBegins(t, q0, items[1..], indent, named, sep, last);
      RestIsRead(t, p, depth, items, indent, named, q0, close);
      ItemsArePlain(t, q0 + 2, depth, items[1..], indent, named, sep, last, close);
    }
    PlainItemsJoin(items, named);
  }

  /** After a separator the next member begins. */
  lemma NextBegins(t: bytes, q: nat, items: seq<Elem>, indent: nat, named: bool, sep: bytes, last: bytes)
    requires items != [] && At(t, q, sep) && IsSeparator(sep, last) && HasDigits(items[0].value)
    requires At(t, q + |sep|, ItemsText(items, indent, named, sep, last))
    ensures |sep| == 2 && q + 2 <= |t| && t[q] == COMMA && Skip(t, q) == q && Skip(t, q + 1) == Skip(t, q + 2)
    ensures q + 1 < |t| && Skip(t, q + 2) < |t| && Begins(t[Skip(t, q + 2)])
  {
    hide At, ItemsText, Skip, ElemText, HasDigits, Follows, Begins, IsSeparator;
    SeparatorFollows(t, q, sep, last);
    ItemsStart(t, q + 2, items, indent, named, sep, last);
    ElemBegins(t, q + 2, items[0], indent, named);
  }

  /** What stands after the first member. */
  lemma FirstFollows(t: bytes, p: nat, items: seq<Elem>, indent: nat, named: bool, sep: bytes, last: bytes, close: byte)
    requires items != [] && At(t, p, ItemsText(items, indent, named, sep, last)) && DigitsOnlyItems(items)
    requires IsClose(close) && IsSeparator(sep, last)
    requires var q := p + |ItemsText(items, indent, named, sep, last)|;
             q <= |t| && Skip(t, q) < |t| && t[Skip(t, q)] == close && Clean(t, q)
    ensures var q0 := p + |ElemText(items[0], indent, named)|; Follows(t, q0) && Clean(t, q0)
  {
    hide At, ItemsText, Skip, ElemText, Follows, IsClose, IsSeparator, DigitsOnlyItems, Clean, CleanText;
    var q0 := p + |ElemText(items[0], indent, named)|;
    ItemsStart(t, p, items, indent, named, sep, last);
    SeparatorIsClean(sep, last);
    if |items| == 1 {
      LastFollows(t, q0, sep, last, close);
      CleanThrough(t, q0, last);
    } else {
      SeparatorFollows(t, q0, sep, last);
      DigitsSplit(items);
      ItemsAreClean(items[1..], indent, named, sep, last);
      CleanThrough(t, q0 + 2, ItemsText(items[1..], indent, named, sep, last));
      CleanThrough(t, q0, sep);
    }
  }

  /** The members after the first are read from where they begin. */
  lemma RestIsRead(t: bytes, p: nat, depth: nat, items: seq<Elem>, indent: nat, named: bool, q: nat, close: byte)
    requires |items| > 1 && At(t, p, ElemText(items[0], indent, named)) && PlainElem(items[0]) && (named || items[0].name == [])
    requires depth <= MAX_NESTING && q == p + |ElemText(items[0], indent, named)| && Follows(t, q) && IsClose(close)
    requires q + 1 < |t| && t[q] == COMMA && Skip(t, q) == q && Skip(t, q + 1) < |t| && Begins(t[Skip(t, q + 1)])
    requires p <= |t| && Reads(t, Skip(t, p), depth, items[0])
    requires ReadsItems(t, ParseElem(t, Skip(t, p), depth).value.end, depth, items[1..], close)
    ensures ReadsItems(t, Skip(t, q + 1), depth, items[1..], close)
  {
    hide At, ElemText, PlainElem, Follows, Begins, ParseElem, ParseItems, Skip, Nesting;
    ElemParses(t, p, depth, items[0], indent, named);
    SkipBegins(t, Skip(t, q + 1));
    ThroughComma(t, q, depth, close);
  }

  lemma DigitsSplit(items: seq<Elem>)
    requires DigitsOnlyItems(items) && items != []
    ensures DigitsOnly(items[0].value) && HasDigits(items[0].value) && DigitsOnlyItems(items[1..])
    ensures |items| > 1 ==> items[1..][0] == items[1] && HasDigits(items[1].value)
  {
    hide DigitsOnly, HasDigits;
    PlainHasDigits(items[0].value);
    if |items| > 1 { PlainHasDigits(items[1].value); }
  }

  lemma PlainItemsJoin(items: seq<Elem>, named: bool)
    requires items != [] && (named || items[0].name == []) && PlainElem(items[0])
    requires |items| > 1 ==> PlainItems(items[1..], named)
    ensures PlainItems(items, named)
  {
    hide PlainElem;
    forall i | 0 <= i < |items| ensures (named || items[i].name == []) && PlainElem(items[i]) {
      if i > 0 { assert items[i] == items[1..][i - 1]; }
    }
  }

  /**
   * A document comes back exactly if its names and unnamed strings are plain,
   * it nests at most 256 deep and its root is not null or true.
   */
  lemma DocumentRoundTrip(e: Elem)
    requires DigitsOnly(e.value)
    ensures RoundTrips(e) <==> PlainElem(e) && Nesting(e.value) <= MAX_NESTING && !IsShort(e.value)
  {
    hide At, ElemText, PlainElem, HasDigits, DigitsOnly, Skip, ParseElem, Nesting, Follows, Clean;
    if PlainElem(e) {
      PlainRoundTrip(e);
    } else if RoundTrips(e) {
      var t := ElemText(e, 0, true);
      PlainHasDigits(e.value);
      TextIsNotEmpty(e);
      WholeText(t);
      CleanEnd(t);
      ElemIsPlain(t, 0, 0, e, 0, true);
    }
  }

  lemma CleanEnd(t: bytes)
    ensures Clean(t, |t|)
  {
  }

  /** In particular, a member comes back exactly if its name is plain. */
  lemma NameComesBackIff(name: bytes)
    requires name != []
    ensures RoundTrips(Elem([], Object([Elem(name, Null)]))) <==> PlainName(name)
  {
    hide PlainName, RoundTrips, DigitsOnly;
    var x := Elem(name, Null);
    OneMember(x, Object([x]));
    DocumentRoundTrip(Elem([], Object([x])));
    assert PlainElem(x) <==> PlainName(name);
  }

  /** And an unnamed string, unless it is empty or not plain. */
  lemma StringComesBackIff(v: bytes)
    ensures RoundTrips(Elem([], Array([Elem([], String(v))]))) <==> PlainName(v)
  {
    hide PlainName, RoundTrips, DigitsOnly;
    var x := Elem([], String(v));
    OneMember(x, Array([x]));
    DocumentRoundTrip(Elem([], Array([x])));
    assert PlainElem(x) <==> PlainName(v);
  }

  lemma OneMember(x: Elem, v: Value)
    requires (v == Array([x]) && x.name == []) || v == Object([x])
    requires !x.value.Number? && !x.value.Array? && !x.value.Object?
    ensures Nesting(v) == 1 && DigitsOnly(v) && (PlainElem(Elem([], v)) <==> PlainElem(x))
  {
    hide PlainName;
    NestingSplits([x]);
    assert NestingOfAll([]) == 0 && Nesting(x.value) == 0;
    assert DigitsOnly(x.value);
    assert v.items[0] == x;
  }
}
