/** The text scanner (scanner.c), set up as the JSON parser does: spaces and newlines are skipped. */
module Scanner {
  import opened Bytes

  predicate IsSpace(c: byte) { c == ' ' as int || c == '\t' as int }

  predicate IsNewline(c: byte) { c == '\r' as int || c == '\n' as int }

  predicate IsWhite(c: byte) { IsSpace(c) || IsNewline(c) }

  /** The test made before white space is skipped, on a signed character. */
  predicate IsProbablySpace(c: byte) { c <= 32 || c >= 128 }

  /** The first position from p that holds no white space, or the end. */
  function Skip(t: bytes, p: nat): (q: nat)
    requires p <= |t|
    ensures p <= q <= |t|
    ensures forall i :: p <= i < q ==> IsWhite(t[i])
    ensures q < |t| ==> !IsWhite(t[q])
    decreases |t| - p
  {
    if p < |t| && IsWhite(t[p]) then Skip(t, p + 1) else p
  }

  lemma {:induction false} SkipReaches(t: bytes, p: nat, q: nat)
    requires p <= q <= |t| && forall i :: p <= i < q ==> IsWhite(t[i])
    ensures Skip(t, p) == Skip(t, q)
    decreases q - p
  {
    if p < q { SkipReaches(t, p + 1, q); }
  }

  /** The first position from p that holds the octet c, or the end. */
  function IndexOf(t: bytes, p: nat, c: byte): (q: nat)
    requires p <= |t|
    ensures p <= q <= |t|
    ensures forall i :: p <= i < q ==> t[i] != c
    ensures q < |t| ==> t[q] == c
    decreases |t| - p
  {
    if p < |t| && t[p] != c then IndexOf(t, p + 1, c) else p
  }

  /** The first position from p that holds an octet outside the set, or the end. */
  function Span(t: bytes, p: nat, spec: set<byte>): (q: nat)
    requires p <= |t|
    ensures p <= q <= |t|
    ensures forall i :: p <= i < q ==> t[i] in spec
    ensures q < |t| ==> t[q] !in spec
    decreases |t| - p
  {
    if p < |t| && t[p] in spec then Span(t, p + 1, spec) else p
  }

  lemma {:induction false} SpanReaches(t: bytes, p: nat, q: nat, spec: set<byte>)
    requires p <= q <= |t| && (forall i :: p <= i < q ==> t[i] in spec) && (q < |t| ==> t[q] !in spec)
    ensures Span(t, p, spec) == q
    decreases q - p
  {
    if p < q { SpanReaches(t, p + 1, q, spec); }
  }

  lemma {:induction false} IndexOfReaches(t: bytes, p: nat, q: nat, c: byte)
    requires p <= q <= |t| && (forall i :: p <= i < q ==> t[i] != c) && (q < |t| ==> t[q] == c)
    ensures IndexOf(t, p, c) == q
    decreases q - p
  {
    if p < q { IndexOfReaches(t, p + 1, q, c); }
  }

  // ---------------------------------------------------------------------
  // Quoted text
  // ---------------------------------------------------------------------

  const SLASH: byte := '\\' as int
  const NEWLINE: byte := '\n' as int

  /** How many backslashes stand just before s, none of them before lo. */
  function Slashes(t: bytes, lo: nat, s: nat): nat
    requires s <= |t|
  {
    if s > lo && t[s - 1] == SLASH then 1 + Slashes(t, lo, s - 1) else 0
  }

  /** The closing quote from s on that the scanner takes: the first one after an even number of backslashes. */
  function Closing(t: bytes, lo: nat, s: nat, quote: byte): (r: Option<nat>)
    requires s <= |t|
    ensures r.Some? ==> s <= r.value < |t| && t[r.value] == quote
    decreases |t| - s
  {
    if s == |t| then None
    else if t[s] == quote && Slashes(t, lo, s) % 2 == 0 then Some(s)
    else if t[s] == NEWLINE && quote != NEWLINE then None
    else Closing(t, lo, s + 1, quote)
  }

  /** Where the text quoted at p, by the first pair that matches, ends. */
  function QuotedEnd(t: bytes, p: nat, begin: bytes, end: bytes): (r: Option<nat>)
    requires p <= |t| && |begin| == |end|
    ensures r.Some? ==> p < r.value < |t|
  {
    if p == |t| then None
    else
      var i := IndexOf(begin, 0, t[p]);
      if i == |begin| then None else Closing(t, p + 1, p + 1, end[i])
  }

  /** The closing quote as a reader from left to right finds it: a backslash takes the next octet with it. */
  function Unescaped(t: bytes, s: nat, escaped: bool, quote: byte): Option<nat>
    requires s <= |t|
    decreases |t| - s
  {
    if s == |t| then None
    else if t[s] == quote && !escaped then Some(s)
    else if t[s] == NEWLINE && quote != NEWLINE then None
    else Unescaped(t, s + 1, t[s] == SLASH && !escaped, quote)
  }

  /** Counting backslashes finds the real closing quote. */
  lemma {:induction false} ClosingIsUnescaped(t: bytes, lo: nat, s: nat, quote: byte)
    requires lo <= s <= |t| && quote != SLASH
    ensures Closing(t, lo, s, quote) == Unescaped(t, s, Slashes(t, lo, s) % 2 == 1, quote)
    decreases |t| - s
  {
    if s < |t| {
      ClosingIsUnescaped(t, lo, s + 1, quote);
      assert Slashes(t, lo, s + 1) == if t[s] == SLASH then 1 + Slashes(t, lo, s) else 0;
    }
  }

  // ---------------------------------------------------------------------
  // The scanner of the source
  // ---------------------------------------------------------------------

  class TextScanner {
    const text: bytes
    var cur: nat             // curptr

    ghost predicate Valid()
      reads this
    {
      cur <= |text|
    }

    /** pj_scan_init */
    constructor (text: bytes)
      ensures Valid() && this.text == text && cur == Skip(text, 0)
    {
      this.text := text;
      cur := 0;
      new;
      SkipWhitespace();
    }

    /** What *curptr reads; the buffer ends with a NUL. */
    function Peek(): byte
      requires Valid()
      reads this
    {
      if cur < |text| then text[cur] else 0
    }

    /** The position after the spaces and tabs at s. */
    method SkipSpaces(s: nat) returns (q: nat)
      requires s <= |text|
      ensures s <= q <= |text| && Skip(text, q) == Skip(text, s)
      ensures q < |text| ==> !IsSpace(text[q])
      ensures s < |text| && IsSpace(text[s]) ==> s < q
    {
      q := s;
      while q != |text| && IsSpace(text[q])
        invariant s <= q <= |text| && Skip(text, q) == Skip(text, s)
        invariant s < |text| && IsSpace(text[s]) ==> s < q || q == s
      {
        q := q + 1;
      }
    }

    /** pj_scan_skip_whitespace */
    method SkipWhitespace()
      requires Valid()
      modifies `cur
      ensures Valid() && cur == Skip(text, old(cur))
    {
      var s := SkipSpaces(cur);
      if s != |text| && IsNewline(text[s]) {
        while s != |text|
          invariant s <= |text| && cur <= |text| && Skip(text, s) == Skip(text, old(cur))
          decreases |text| - s
        {
          if text[s] == '\r' as int {
            s := s + 1;
            if s == |text| { break; }
            if text[s] == '\n' as int { s := s + 1; }
            cur := s;
          } else if text[s] == '\n' as int {
            s := s + 1;
            cur := s;
          } else if IsSpace(text[s]) {
            s := SkipSpaces(s);
          } else {
            break;
          }
        }
      }
      cur := s;
    }

    /** Skips white space if the next octet may be white. */
    method SkipIfWhite()
      requires Valid()
      modifies `cur
      ensures Valid() && cur == Skip(text, old(cur))
    {
      if cur < |text| && IsProbablySpace(text[cur]) { SkipWhitespace(); }
    }

    /** pj_scan_get_char; ok is false if the scanner raises its syntax error. */
    method GetChar() returns (ok: bool)
      requires Valid()
      modifies `cur
      ensures Valid() && ok == (old(Peek()) != 0)
      ensures cur == if ok then Skip(text, old(cur) + 1) else old(cur)
    {
      if cur >= |text| || text[cur] == 0 { return false; }
      cur := cur + 1;
      SkipIfWhite();
      return true;
    }

    /** pj_scan_get_until_ch */
    method GetUntilCh(c: byte) returns (ok: bool, token: bytes)
      requires Valid()
      modifies `cur
      ensures Valid() && ok == (old(cur) < |text|)
      ensures ok ==> var s := IndexOf(text, old(cur), c); token == text[old(cur)..s] && cur == Skip(text, s)
      ensures !ok ==> cur == old(cur)
    {
      if cur >= |text| { return false, []; }
      var s := cur;
      while s != |text| && text[s] != c
        invariant cur <= s <= |text| && IndexOf(text, s, c) == IndexOf(text, cur, c)
      {
        s := s + 1;
      }
      token := text[cur..s];
      cur := s;
      SkipIfWhite();
      return true, token;
    }

    /** pj_scan_get */
    method Get(spec: set<byte>) returns (ok: bool, token: bytes)
      requires Valid()
      modifies `cur
      ensures Valid() && ok == (old(cur) < |text| && text[old(cur)] in spec)
      ensures ok ==> var s := Span(text, old(cur), spec); token == text[old(cur)..s] && cur == Skip(text, s)
      ensures !ok ==> cur == old(cur)
    {
      if cur >= |text| || text[cur] !in spec { return false, []; }
      var s := cur + 1;
      while s != |text| && text[s] in spec
        invariant cur < s <= |text| && Span(text, s, spec) == Span(text, cur, spec)
      {
        s := s + 1;
      }
      token := text[cur..s];
      cur := s;
      SkipIfWhite();
      return true, token;
    }

    method CountSlashes(s: nat) returns (n: nat)
      requires Valid() && s <= |text|
      ensures n == Slashes(text, cur + 1, s)
    {
      n := 0;
      var r := s;
      while r > cur + 1 && text[r - 1] == SLASH
        invariant 0 <= r <= s && n + Slashes(text, cur + 1, r) == Slashes(text, cur + 1, s)
      {
        r := r - 1;
        n := n + 1;
      }
    }

    /** The loop that looks for the closing quote. */
    method FindClosing(quote: byte) returns (s: nat)
      requires cur < |text|
      ensures cur < s <= |text|
      ensures var c := Closing(text, cur + 1, cur + 1, quote);
              if c.Some? then s == c.value else s == |text| || text[s] != quote
    {
      s := cur + 1;
      while true
        invariant cur < s <= |text| && Closing(text, cur + 1, s, quote) == Closing(text, cur + 1, cur + 1, quote)
        decreases |text| - s
      {
        while s != |text| && text[s] != NEWLINE && text[s] != quote
          invariant cur < s <= |text| && Closing(text, cur + 1, s, quote) == Closing(text, cur + 1, cur + 1, quote)
        {
          s := s + 1;
        }
        if s == |text| || text[s] != quote { return; }
        var n := CountSlashes(s);
        if n % 2 == 0 { return; }
        s := s + 1;
      }
    }

    /** pj_scan_get_quotes: the token is the quoted text with its quotes. */
    method GetQuotes(begin: bytes, end: bytes) returns (ok: bool, token: bytes)
      requires Valid() && 0 < |begin| == |end|
      modifies `cur
      ensures Valid() && ok == QuotedEnd(text, old(cur), begin, end).Some?
      ensures ok ==> var c := QuotedEnd(text, old(cur), begin, end).value;
                     token == text[old(cur)..c + 1] && cur == Skip(text, c + 1)
      ensures !ok ==> cur == old(cur)
    {
      if cur >= |text| { return false, []; }
      var i := 0;
      while i < |begin| && text[cur] != begin[i]
        invariant 0 <= i <= |begin| && IndexOf(begin, i, text[cur]) == IndexOf(begin, 0, text[cur])
      {
        i := i + 1;
      }
      if i == |begin| { return false, []; }
      var s := FindClosing(end[i]);
      if s == |text| || text[s] != end[i] { return false, []; }
      s := s + 1;
      token := text[cur..s];
      cur := s;
      SkipIfWhite();
      return true, token;
    }

    /** pj_scan_advance_n */
    method Advance(n: nat) returns (ok: bool)
      requires Valid()
      modifies `cur
      ensures Valid() && ok == (old(cur) + n <= |text|)
      ensures cur == if ok then Skip(text, old(cur) + n) else old(cur)
    {
      if cur + n > |text| { return false; }
      cur := cur + n;
      SkipIfWhite();
      return true;
    }
  }
}
