/** JSON elements and the writer (json.c, write_children and elem_write). */
module JsonWrite {
  import opened Bytes
  import opened JsonStrings

  const MAX_INDENT: nat := 100
  const INDENT_SIZE: nat := 3
  const NAME_MIN_LEN: nat := 20
  const SPACE: byte := ' ' as int
  const COMMA: byte := ',' as int
  const LF: byte := '\n' as int

  /** A number is kept as its sign and its text. */
  datatype Value =
    | Null
    | Bool(isTrue: bool)
    | Number(negative: bool, digits: bytes)
    | String(str: bytes)
    | Array(items: seq<Elem>)
    | Object(items: seq<Elem>)

  datatype Elem = Elem(name: bytes, value: Value)

  function Spaces(n: nat): bytes { seq(n, i => SPACE) }

  // ---------------------------------------------------------------------
  // The text of an element
  // ---------------------------------------------------------------------

  function Deeper(indent: nat): nat {
    if indent + INDENT_SIZE <= MAX_INDENT then indent + INDENT_SIZE else indent
  }

  function Lead(name: bytes, indent: nat): bytes {
    if name == [] then [] else Spaces(indent)
  }

  function Label(name: bytes, named: bool): bytes {
    if name == [] || !named then []
    else Quote(name) + [':' as byte, SPACE] + Spaces(if |name| < NAME_MIN_LEN then NAME_MIN_LEN - |name| else 0)
  }

  function ElemText(e: Elem, indent: nat, named: bool): bytes
    decreases e
  {
    Lead(e.name, indent) + Label(e.name, named) + ValueText(e.value, indent)
  }

  function ValueText(v: Value, indent: nat): (r: bytes)
    decreases v
  {
    match v
    case Null => ['n' as byte, 'u' as byte, 'l' as byte, 'l' as byte]
    case Bool(isTrue) =>
      if isTrue then ['t' as byte, 'r' as byte, 'u' as byte, 'e' as byte]
      else ['f' as byte, 'a' as byte, 'l' as byte, 's' as byte, 'e' as byte]
    case Number(negative, digits) => (if negative then ['-' as byte] else []) + digits
    case String(str) => Quote(str)
    case Array(items) => ['[' as byte, SPACE] + ListText(items, indent, false) + [']' as byte]
    case Object(items) => ['{' as byte, SPACE] + ListText(items, indent, true) + ['}' as byte]
  }

  /** The members between the brackets; the first one decides whether they go on lines of their own. */
  function ListText(items: seq<Elem>, indent: nat, named: bool): bytes
    decreases items, 1
  {
    if items == [] then []
    else if items[0].name == [] then ItemsText(items, indent, named, [COMMA, SPACE], [])
    else [LF] + ItemsText(items, Deeper(indent), named, [COMMA, LF], [LF]) + Spaces(indent)
  }

  /** The members with sep between them and last after the last one. */
  function ItemsText(items: seq<Elem>, indent: nat, named: bool, sep: bytes, last: bytes): bytes
    decreases items, 0
  {
    if items == [] then []
    else if |items| == 1 then ElemText(items[0], indent, named) + last
    else ElemText(items[0], indent, named) + sep + ItemsText(items[1..], indent, named, sep, last)
  }

  // ---------------------------------------------------------------------
  // The writer of the source
  // ---------------------------------------------------------------------

  /** A writer into a buffer of a given size; the callback refuses what does not fit. */
  class Writer {
    const capacity: nat
    var out: bytes
    var indent: nat
    ghost var calls: seq<bytes>   // what the callback was called with

    constructor (capacity: nat)
      ensures this.capacity == capacity && out == [] && indent == 0
    {
      this.capacity, out, indent, calls := capacity, [], 0, [];
    }

    /** All of the text was written, or it did not fit in the buffer. */
    ghost predicate Wrote(before: bytes, text: bytes, ok: bool)
      reads this
    {
      if ok then out == before + text && Fits(|out|) else !Fits(|before| + |text|)
    }

    /** One octet is left for the final NUL, and one more. */
    predicate Fits(n: nat) { n + 1 < capacity }

    /** buf_writer */
    method Emit(s: bytes) returns (ok: bool)
      modifies `out, `calls
      ensures Wrote(old(out), s, ok) && calls == old(calls) + [s]
    {
      calls := calls + [s];
      if !Fits(|out| + |s|) { return false; }
      out := out + s;
      return true;
    }

    /** The inner loop of write_string_escaped: fills the buffer with the escapes of octets from ip on. */
    method FillBuffer(v: bytes, ip: nat) returns (buf: bytes, next: nat)
      requires ip < |v|
      ensures ip < next <= |v| && 1 <= |buf| <= ESC_BUF_LEN
      ensures Escape(v[..ip]) + buf == Escape(v[..next])
    {
      hide Escape, EscapeByte;
      buf, next := [], ip;
      assert Escape(v[..ip]) + [] == Escape(v[..ip]);
      while next != |v| && |buf| != ESC_BUF_LEN
        invariant ip <= next <= |v| && |buf| <= ESC_BUF_LEN && (next > ip ==> 1 <= |buf|) && (next == ip ==> |buf| == 0)
        invariant Escape(v[..ip]) + buf == Escape(v[..next])
        decreases |v| - next
      {
        if ESC_BUF_LEN - |buf| < 2 { break; }
        var e := EscapeByte(v[next]);
        if |e| > 2 && ESC_BUF_LEN - |buf| < 6 { break; }
        EscapeSnoc(v, next);
        ShortOrLong(v[next]);
        assert Escape(v[..ip]) + (buf + e) == Escape(v[..ip]) + buf + e;
        buf, next := buf + e, next + 1;
      }
    }

    /** write_string_escaped: calls with 1 to 64 octets that make up the escape of the string. */
    method WriteEscaped(v: bytes) returns (ok: bool)
      requires Fits(|out|)
      modifies `out, `calls
      ensures Wrote(old(out), Escape(v), ok)
      ensures old(calls) <= calls && forall i :: |old(calls)| <= i < |calls| ==> 1 <= |calls[i]| <= ESC_BUF_LEN
      ensures ok ==> Concat(calls[|old(calls)|..]) == Escape(v)
      ensures !ok ==> Concat(calls[|old(calls)|..]) <= Escape(v)
    {
      hide Escape, EscapeByte, Concat;
      var ip := 0;
      EscapeNone(v);
      ghost var n := |calls|;
      ConcatNone(calls);
      while ip != |v|
        invariant 0 <= ip <= |v| && Wrote(old(out), Escape(v[..ip]), true)
        invariant old(calls) <= calls && forall i :: n <= i < |calls| ==> 1 <= |calls[i]| <= ESC_BUF_LEN
        invariant n <= |calls| && Concat(calls[n..]) == Escape(v[..ip])
        decreases |v| - ip
      {
        ghost var before := calls;
        var buf, next := FillBuffer(v, ip);
        ConcatNext(before, n, buf);
        ok := Emit(buf);
        EscapePrefix(v, next);
        if !ok { return false; }
        assert old(out) + Escape(v[..ip]) + buf == old(out) + (Escape(v[..ip]) + buf);
        ip := next;
      }
      assert v[..|v|] == v;
      return true;
    }

    /** The part of elem_write before the value. */
    method WriteLabel(name: bytes, named: bool) returns (ok: bool)
      modifies `out, `calls
      ensures name == [] ==> ok && out == old(out)
      ensures name != [] ==> Wrote(old(out), Lead(name, indent) + Label(name, named), ok)
    {
      hide Escape, Spaces;
      if name == [] { return true; }
      ok := Emit(Spaces(indent));
      if !ok { return false; }
      if !named {
        assert Spaces(indent) + [] == Spaces(indent);
        return true;
      }
      ok := Emit([QUOTE]);
      if !ok { return false; }
      ok := WriteEscaped(name);
      if !ok { return false; }
      ok := Emit([QUOTE, ':' as byte, SPACE]);
      if !ok { return false; }
      var pad := if |name| < NAME_MIN_LEN then NAME_MIN_LEN - |name| else 0;
      LabelParts(old(out), name, indent);
      if |name| < NAME_MIN_LEN {
        ok := Emit(Spaces(pad));
      } else {
        NoSpaces(out);
      }
    }

    /** elem_write */
    method WriteElem(e: Elem, named: bool) returns (ok: bool)
      modifies `out, `calls, `indent
      ensures Wrote(old(out), ElemText(e, old(indent), named), ok)
      ensures ok ==> indent == old(indent)
      decreases e
    {
      hide Label, Lead, ValueText;
      ok := WriteLabel(e.name, named);
      NoLabel(indent, named);
      if !ok { return false; }
      ghost var front := Lead(e.name, indent) + Label(e.name, named);
      assert out == old(out) + front;
      ok := WriteValue(e.value);
      AppendText(old(out), front, ValueText(e.value, old(indent)));
    }

    method WriteValue(v: Value) returns (ok: bool)
      modifies `out, `calls, `indent
      ensures Wrote(old(out), ValueText(v, old(indent)), ok)
      ensures ok ==> indent == old(indent)
      decreases v
    {
      hide Escape, ListText;
      match v
      case Null => ok := Emit(ValueText(v, indent));
      case Bool(_) => ok := Emit(ValueText(v, indent));
      case Number(_, _) => ok := Emit(ValueText(v, indent));
      case String(str) =>
        ok := Emit([QUOTE]);
        if !ok { return false; }
        ok := WriteEscaped(str);
        if !ok { return false; }
        ok := Emit([QUOTE]);
        assert old(out) + [QUOTE] + Escape(str) + [QUOTE] == old(out) + ([QUOTE] + Escape(str) + [QUOTE]);
      case Array(items) => ok := WriteChildren(items, '[' as byte, ']' as byte, false);
      case Object(items) => ok := WriteChildren(items, '{' as byte, '}' as byte, true);
    }

    /** write_children */
    method WriteChildren(items: seq<Elem>, open: byte, close: byte, named: bool) returns (ok: bool)
      modifies `out, `calls, `indent
      ensures Wrote(old(out), [open, SPACE] + ListText(items, old(indent), named) + [close], ok)
      ensures ok ==> indent == old(indent)
      decreases items, 2
    {
      hide ListText;
      ok := Emit([open]);
      if !ok { return false; }
      ok := Emit([SPACE]);
      if !ok { return false; }
      ghost var list := ListText(items, indent, named);
      ok := WriteList(items, named);
      assert old(out) + [open] + [SPACE] + list + [close] == old(out) + ([open, SPACE] + list + [close]);
      if !ok { return false; }
      ok := Emit([close]);
    }

    method WriteList(items: seq<Elem>, named: bool) returns (ok: bool)
      requires Fits(|out|)
      modifies `out, `calls, `indent
      ensures Wrote(old(out), ListText(items, old(indent), named), ok)
      ensures ok ==> indent == old(indent)
      decreases items, 1
    {
      hide ItemsText, Spaces;
      if items == [] { return true; }
      if items[0].name == [] {
        ok := WriteItems(items, named, [COMMA, SPACE], []);
      } else {
        var added := false;
        if indent + INDENT_SIZE <= MAX_INDENT {
          indent := indent + INDENT_SIZE;
          added := true;
        }
        ghost var list := ItemsText(items, indent, named, [COMMA, LF], [LF]);
        ok := Emit([LF]);
        if !ok { return false; }
        ok := WriteItems(items, named, [COMMA, LF], [LF]);
        if !ok { return false; }
        if added { indent := indent - INDENT_SIZE; }
        assert old(out) + [LF] + list + Spaces(indent) == old(out) + ([LF] + list + Spaces(indent));
        ok := Emit(Spaces(indent));
      }
    }

    /** The loops of write_children over the members. */
    method WriteItems(items: seq<Elem>, named: bool, sep: bytes, last: bytes) returns (ok: bool)
      requires Fits(|out|)
      modifies `out, `calls, `indent
      ensures Wrote(old(out), ItemsText(items, old(indent), named, sep, last), ok)
      ensures ok ==> indent == old(indent)
      decreases items, 0
    {
      hide ItemsText, ElemText;
      ghost var n := indent;
      ghost var all := old(out) + ItemsText(items, n, named, sep, last);
      assert items[0..] == items;
      for i := 0 to |items|
        invariant indent == n && Fits(|out|)
        invariant out + ItemsText(items[i..], n, named, sep, last) == all
      {
        ghost var before := out;
        ItemsStep(before, items[i..], n, named, sep, last);
        assert items[i..][1..] == items[i + 1..] && items[i..][0] == items[i];
        ok := WriteElem(items[i], named);
        if !ok { return false; }
        if i + 1 < |items| {
          ok := Emit(sep);
          if !ok { return false; }
        } else if last != [] {
          ok := Emit(last);
          if !ok { return false; }
        }
      }
      NoItems(n, named, sep, last);
      assert items[|items|..] == [] && out + [] == out;
      return true;
    }
  }

  /** pj_json_write: the text of the element and a NUL, if the buffer has room for them and one octet more. */
  method Write(e: Elem, size: nat) returns (buffer: Option<bytes>)
    ensures buffer == if |ElemText(e, 0, true)| + 1 < size then Some(ElemText(e, 0, true) + [0]) else None
  {
    var w := new Writer(size);
    var ok := w.WriteElem(e, true);
    assert [] + ElemText(e, 0, true) == ElemText(e, 0, true);
    buffer := if ok then Some(w.out + [0]) else None;
  }

  lemma LabelParts(before: bytes, name: bytes, indent: nat)
    requires name != []
    ensures var pad := if |name| < NAME_MIN_LEN then NAME_MIN_LEN - |name| else 0;
            before + Spaces(indent) + [QUOTE] + Escape(name) + [QUOTE, ':' as byte, SPACE] + Spaces(pad) ==
            before + (Lead(name, indent) + Label(name, true))
  {
    hide Escape, Spaces;
    var pad := Spaces(if |name| < NAME_MIN_LEN then NAME_MIN_LEN - |name| else 0);
    var x := [':' as byte, SPACE];
    assert [QUOTE] + x == [QUOTE, ':' as byte, SPACE];
    var a := before + Spaces(indent) + [QUOTE] + Escape(name);
    AppendText(a, [QUOTE], x);
    AppendText(before + Spaces(indent), [QUOTE], Escape(name));
    AppendText(before + Spaces(indent), [QUOTE] + Escape(name), [QUOTE]);
    AppendText(before + Spaces(indent), Quote(name), x);
    AppendText(before + Spaces(indent), Quote(name) + x, pad);
    AppendText(before, Spaces(indent), Label(name, true));
  }

  lemma NoSpaces(b: bytes)
    ensures b + Spaces(0) == b
  {
  }

  lemma NoLabel(indent: nat, named: bool)
    ensures Lead([], indent) + Label([], named) == []
  {
  }

  lemma AppendText(a: bytes, b: bytes, c: bytes)
    ensures a + (b + c) == a + b + c && ([] + c) == c && a + [] == a
  {
  }

  lemma ItemsStep(before: bytes, items: seq<Elem>, indent: nat, named: bool, sep: bytes, last: bytes)
    requires items != []
    ensures before + ItemsText(items, indent, named, sep, last) ==
            before + ElemText(items[0], indent, named) + (if |items| == 1 then last else sep)
            + ItemsText(items[1..], indent, named, sep, last)
  {
    hide ElemText;
    assert |items| == 1 ==> items[1..] == [];
  }

  lemma NoItems(indent: nat, named: bool, sep: bytes, last: bytes)
    ensures ItemsText([], indent, named, sep, last) == []
  {
  }

  lemma ConcatNone(calls: seq<bytes>)
    ensures Concat(calls[|calls|..]) == []
  {
  }

  lemma ConcatNext(calls: seq<bytes>, n: nat, buf: bytes)
    requires n <= |calls|
    ensures Concat((calls + [buf])[n..]) == Concat(calls[n..]) + buf
  {
    var all := (calls + [buf])[n..];
    assert all[..|all| - 1] == calls[n..];
  }

  lemma ShortOrLong(c: byte)
    ensures |EscapeByte(c)| <= 2 || |EscapeByte(c)| == 6
  {
  }

  lemma EscapeNone(v: bytes)
    ensures Escape(v[..0]) == []
  {
  }

  lemma EscapePrefix(v: bytes, n: nat)
    requires n <= |v|
    ensures |Escape(v[..n])| <= |Escape(v)| && Escape(v[..n]) <= Escape(v)
  {
    assert v == v[..n] + v[n..];
    EscapeAppend(v[..n], v[n..]);
  }
}
