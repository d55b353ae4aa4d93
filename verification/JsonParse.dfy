/** The JSON parser (json.c, parse_children, parse_elem_throw and pj_json_parse). */
module JsonParse {
  import opened Bytes
  import opened Scanner
  import opened JsonStrings
  import opened JsonWrite

  const MAX_NESTING: nat := 256
  const COLON: byte := ':' as int
  const MINUS: byte := '-' as int

  /** The octets of numbers. */
  const FLOAT: set<byte> := {46, 48, 49, 50, 51, 52, 53, 54, 55, 56, 57}

  /** What was read, and where reading goes on. */
  datatype Got<+T> = Got(item: T, end: nat)

  function Peek(t: bytes, p: nat): byte {
    if p < |t| then t[p] else 0
  }

  /** Where reading goes on after one octet; None is a syntax error. */
  function Char(t: bytes, p: nat): (r: Option<nat>)
    ensures r.Some? ==> p < r.value <= |t|
  {
    if p >= |t| || t[p] == 0 then None else Some(Skip(t, p + 1))
  }

  /** The name of an element, or the whole of an unnamed string. */
  datatype Head = Head(name: bytes, value: bytes, end: nat)

  function ParseHead(t: bytes, p: nat): (r: Option<Head>)
    requires p <= |t|
    ensures r.Some? ==> p <= r.value.end <= |t| && (r.value.value != [] ==> p < r.value.end)
  {
    if Peek(t, p) != QUOTE then Some(Head([], [], p))
    else
      var p1 :- Char(t, p);
      if p1 == |t| then None
      else
        var s := IndexOf(t, p1, QUOTE);
        var p2 :- Char(t, Skip(t, s));
        if Peek(t, p2) != COLON then Some(Head([], t[p1..s], p2))
        else
          var p3 :- Char(t, p2);
          Some(Head(t[p1..s], [], p3))
  }

  function ParseNumber(t: bytes, p: nat): (r: Option<Got<Value>>)
    requires p <= |t|
    ensures r.Some? ==> p < r.value.end <= |t|
  {
    var q :- if Peek(t, p) == MINUS then Char(t, p) else Some(p);
    if q == |t| || t[q] !in FLOAT then None
    else
      var s := Span(t, q, FLOAT);
      Some(Got(Number(Peek(t, p) == MINUS, t[q..s]), Skip(t, s)))
  }

  function ParseString(t: bytes, p: nat): (r: Option<Got<Value>>)
    requires p <= |t|
    ensures r.Some? ==> p < r.value.end <= |t|
  {
    var c :- QuotedEnd(t, p, [QUOTE], [QUOTE]);
    match Unescape(t[p + 1..c], 0)
    case Text(text) => Some(Got(String(text), Skip(t, c + 1)))
    case Bad(_) => None
  }

  predicate IsAlpha(c: byte) {
    'a' as int <= c <= 'z' as int || 'A' as int <= c <= 'Z' as int
  }

  /** Each comparison with a keyword is a syntax error if fewer octets than the keyword are left. */
  function ParseKeyword(t: bytes, p: nat): (r: Option<Got<Value>>)
    requires p <= |t|
    ensures r.Some? ==> p < r.value.end <= |t|
  {
    if p + 5 > |t| then None
    else if t[p..p + 5] == ValueText(Bool(false), 0) then Some(Got(Bool(false), Skip(t, p + 5)))
    else if t[p..p + 4] == ValueText(Bool(true), 0) then Some(Got(Bool(true), Skip(t, p + 4)))
    else if t[p..p + 4] == ValueText(Null, 0) then Some(Got(Null, Skip(t, p + 4)))
    else None
  }

  function Commas(t: bytes, p: nat): (q: nat)
    requires p <= |t|
    ensures p <= q <= |t|
    decreases |t| - p
  {
    if p < |t| && t[p] == COMMA then Commas(t, Skip(t, p + 1)) else p
  }

  function ParseElem(t: bytes, p: nat, depth: nat): (r: Option<Got<Elem>>)
    requires p <= |t|
    ensures r.Some? ==> p < r.value.end <= |t|
    decreases |t| - p, 1
  {
    var h :- ParseHead(t, p);
    if h.value != [] then Some(Got(Elem([], String(h.value)), h.end))
    else
      var v :- ParseValue(t, h.end, depth);
      Some(Got(Elem(h.name, v.item), v.end))
  }

  function ParseValue(t: bytes, p: nat, depth: nat): (r: Option<Got<Value>>)
    requires p <= |t|
    ensures r.Some? ==> p < r.value.end <= |t|
    decreases |t| - p, 0
  {
    var c := Peek(t, p);
    if c in FLOAT || c == MINUS then ParseNumber(t, p)
    else if c == QUOTE then ParseString(t, p)
    else if IsAlpha(c) then ParseKeyword(t, p)
    else if c == '[' as int then
      var items :- ParseChildren(t, p, depth, ']' as byte);
      Some(Got(Array(items.item), items.end))
    else if c == '{' as int then
      var items :- ParseChildren(t, p, depth, '}' as byte);
      Some(Got(Object(items.item), items.end))
    else None
  }

  function ParseChildren(t: bytes, p: nat, depth: nat, close: byte): (r: Option<Got<seq<Elem>>>)
    requires p < |t|
    ensures r.Some? ==> p < r.value.end <= |t|
    decreases |t| - p, 0, 0
  {
    if depth + 1 > MAX_NESTING then None
    else
      var q :- Char(t, p);
      var items :- ParseItems(t, q, depth + 1, close);
      var end :- Char(t, items.end);
      Some(Got(items.item, end))
  }

  function ParseItems(t: bytes, p: nat, depth: nat, close: byte): (r: Option<Got<seq<Elem>>>)
    requires p <= |t|
    ensures r.Some? ==> p <= r.value.end <= |t|
    decreases |t| - p, 2
  {
    var q := Commas(t, p);
    if Peek(t, p) == close then Some(Got([], p))
    else if Peek(t, q) == close then Some(Got([], q))
    else
      var x :- ParseElem(t, q, depth);
      var rest :- ParseItems(t, x.end, depth, close);
      Some(Got([x.item] + rest.item, rest.end))
  }

  /** The root element and how many octets are left after it. */
  function Parse(t: bytes): Option<Got<Elem>> {
    if t == [] then None
    else
      var x :- ParseElem(t, Skip(t, 0), 0);
      Some(Got(x.item, |t| - x.end))
  }

  // ---------------------------------------------------------------------
  // The parser of the source
  // ---------------------------------------------------------------------

  class Parser {
    const s: TextScanner
    var depth: nat

    ghost predicate Valid()
      reads this, s
    {
      s.Valid()
    }

    constructor (text: bytes)
      ensures Valid() && fresh(s) && s.text == text && s.cur == Skip(text, 0) && depth == 0
    {
      s := new TextScanner(text);
      depth := 0;
    }

    method ReadHead() returns (h: Option<Head>)
      requires Valid()
      modifies s
      ensures Valid() && h == ParseHead(s.text, old(s.cur))
      ensures h.Some? ==> s.cur == h.value.end
    {
      hide Skip, IndexOf;
      if s.Peek() != QUOTE { return Some(Head([], [], s.cur)); }
      var token;
      var ok := s.GetChar();
      ok, token := s.GetUntilCh(QUOTE);
      if !ok { return None; }
      ok := s.GetChar();
      if !ok { return None; }
      if s.Peek() == COLON {
        ok := s.GetChar();
        return Some(Head(token, [], s.cur));
      }
      return Some(Head([], token, s.cur));
    }

    method ReadNumber() returns (v: Option<Value>)
      requires Valid()
      modifies s
      ensures Valid()
      ensures var r := ParseNumber(s.text, old(s.cur));
              if r.None? then v == None else v == Some(r.value.item) && s.cur == r.value.end
    {
      var negative := false;
      if s.Peek() == MINUS {
        var ok := s.GetChar();
        negative := true;
      }
      var got, token := s.Get(FLOAT);
      return if got then Some(Number(negative, token)) else None;
    }

    /** parse_quoted_string */
    method ReadString() returns (v: Option<Value>)
      requires Valid()
      modifies s
      ensures Valid()
      ensures var r := ParseString(s.text, old(s.cur));
              if r.None? then v == None else v == Some(r.value.item) && s.cur == r.value.end
    {
      hide QuotedEnd, Unescape, Skip;
      var ok, token := s.GetQuotes([QUOTE], [QUOTE]);
      if !ok { return None; }
      ghost var c := QuotedEnd(s.text, old(s.cur), [QUOTE], [QUOTE]).value;
      assert token[1..|token| - 1] == s.text[old(s.cur) + 1..c];
      var out, err := Decode(token[1..|token| - 1]);
      return if err == 0 then Some(String(out)) else None;
    }

    method ReadKeyword() returns (v: Option<Value>)
      requires Valid()
      modifies s
      ensures Valid()
      ensures var r := ParseKeyword(s.text, old(s.cur));
              if r.None? then v == None else v == Some(r.value.item) && s.cur == r.value.end
    {
      var p := s.cur;
      if p + 5 > |s.text| { return None; }
      var ok;
      if s.text[p..p + 5] == ValueText(Bool(false), 0) {
        ok := s.Advance(5);
        return Some(Bool(false));
      } else if s.text[p..p + 4] == ValueText(Bool(true), 0) {
        ok := s.Advance(4);
        return Some(Bool(true));
      } else if s.text[p..p + 4] == ValueText(Null, 0) {
        ok := s.Advance(4);
        return Some(Null);
      }
      return None;
    }

    /** parse_elem_throw */
    method ReadElem() returns (e: Option<Elem>)
      requires Valid()
      modifies s, `depth
      ensures Valid()
      ensures var r := ParseElem(s.text, old(s.cur), old(depth));
              if r.None? then e == None else e == Some(r.value.item) && s.cur == r.value.end && depth == old(depth)
      decreases |s.text| - s.cur, 1
    {
      hide ParseHead, ParseValue;
      var h := ReadHead();
      if h.None? { return None; }
      HeadAdvances(s.text, old(s.cur));
      if h.value.value != [] { return Some(Elem([], String(h.value.value))); }
      var v := ReadValue();
      return if v.Some? then Some(Elem(h.value.name, v.value)) else None;
    }

    method ReadValue() returns (v: Option<Value>)
      requires Valid()
      modifies s, `depth
      ensures Valid()
      ensures var r := ParseValue(s.text, old(s.cur), old(depth));
              if r.None? then v == None else v == Some(r.value.item) && s.cur == r.value.end && depth == old(depth)
      decreases |s.text| - s.cur, 0
    {
      hide ParseNumber, ParseString, ParseKeyword, ParseChildren;
      var c := s.Peek();
      if c in FLOAT || c == MINUS {
        v := ReadNumber();
      } else if c == QUOTE {
        v := ReadString();
      } else if IsAlpha(c) {
        v := ReadKeyword();
      } else if c == '[' as int {
        var items := ReadChildren(']' as byte);
        return if items.Some? then Some(Array(items.value)) else None;
      } else if c == '{' as int {
        var items := ReadChildren('}' as byte);
        return if items.Some? then Some(Object(items.value)) else None;
      } else {
        v := None;
      }
    }

    /** parse_children */
    method ReadChildren(close: byte) returns (items: Option<seq<Elem>>)
      requires Valid() && s.cur < |s.text|
      modifies s, `depth
      ensures Valid()
      ensures var r := ParseChildren(s.text, old(s.cur), old(depth), close);
              if r.None? then items == None
              else items == Some(r.value.item) && s.cur == r.value.end && depth == old(depth)
      decreases |s.text| - s.cur, 0, 0
    {
      hide ParseItems;
      depth := depth + 1;
      if depth > MAX_NESTING { return None; }
      var ok := s.GetChar();
      if !ok { return None; }
      var list := ReadItems(close);
      if list.None? { return None; }
      ok := s.GetChar();
      if !ok { return None; }
      depth := depth - 1;
      return list;
    }

    method SkipCommas()
      requires Valid()
      modifies s
      ensures Valid() && s.cur == Commas(s.text, old(s.cur))
    {
      while s.Peek() == COMMA
        invariant Valid() && old(s.cur) <= s.cur && Commas(s.text, s.cur) == Commas(s.text, old(s.cur))
        decreases |s.text| - s.cur
      {
        var ok := s.GetChar();
      }
    }

    /** The loop of parse_children. */
    method ReadItems(close: byte) returns (items: Option<seq<Elem>>)
      requires Valid()
      modifies s, `depth
      ensures Valid()
      ensures var r := ParseItems(s.text, old(s.cur), old(depth), close);
              if r.None? then items == None
              else items == Some(r.value.item) && s.cur == r.value.end && depth == old(depth)
      decreases |s.text| - s.cur, 2
    {
      hide ParseElem;
      var list: seq<Elem> := [];
      ghost var all := ParseItems(s.text, s.cur, depth, close);
      AfterNone(all);
      while s.Peek() != close
        invariant Valid() && old(s.cur) <= s.cur && depth == old(depth)
        invariant After(list, ParseItems(s.text, s.cur, depth, close)) == all
        decreases |s.text| - s.cur
      {
        ghost var p := s.cur;
        SkipCommas();
        if s.Peek() == close { break; }
        ghost var q := s.cur;
        var x := ReadElem();
        if x.None? { return None; }
        ElemAdvances(s.text, q, depth);
        AfterStep(list, x.value, ParseItems(s.text, s.cur, depth, close));
        list := list + [x.value];
      }
      assert list + [] == list;
      return Some(list);
    }
  }

  /** Prepends what has been read to a result. */
  ghost function After(done: seq<Elem>, r: Option<Got<seq<Elem>>>): Option<Got<seq<Elem>>> {
    if r.None? then None else Some(Got(done + r.value.item, r.value.end))
  }

  lemma AfterNone(r: Option<Got<seq<Elem>>>)
    ensures After([], r) == r
  {
    if r.Some? { assert [] + r.value.item == r.value.item; }
  }

  lemma AfterStep(done: seq<Elem>, x: Elem, r: Option<Got<seq<Elem>>>)
    ensures After(done, After([x], r)) == After(done + [x], r)
  {
    if r.Some? { assert done + ([x] + r.value.item) == done + [x] + r.value.item; }
  }

  lemma HeadAdvances(t: bytes, p: nat)
    requires p <= |t|
    ensures ParseHead(t, p).Some? ==> p <= ParseHead(t, p).value.end <= |t|
  {
  }

  lemma ElemAdvances(t: bytes, p: nat, depth: nat)
    requires p <= |t|
    ensures ParseElem(t, p, depth).Some? ==> p < ParseElem(t, p, depth).value.end <= |t|
  {
  }

  /** pj_json_parse */
  method ReadDocument(text: bytes) returns (r: Option<Got<Elem>>)
    ensures r == Parse(text)
  {
    if text == [] { return None; }
    var p := new Parser(text);
    var e := p.ReadElem();
    if e.None? { return None; }
    return Some(Got(e.value, |text| - p.s.cur));
  }
}
