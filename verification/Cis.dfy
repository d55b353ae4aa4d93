/**
 * Character sets (scanner.c and scanner_cis_bitwise.c): up to 32 sets packed in
 * one matrix of bits, against one separate set each (scanner_cis_uint.c).
 */
module Cis {

  /** The number of a set in the matrix. */
  type Id = x: bv32 | x < 32

  /** Characters as the sets are asked for them, and as strings hold them. */
  type char8 = x: int | 0 <= x < 256
  type char7 = x: int | 0 < x < 128 witness 1

  // ---------------------------------------------------------------------
  // Bits
  // ---------------------------------------------------------------------

  function Mask(id: Id): bv32 { 1 << id }

  function And(a: bv32, b: bv32): bv32 { a & b }

  function Join(w: bv32, m: bv32): bv32 { w | m }

  function Without(w: bv32, m: bv32): bv32 { w & !m }

  /** Bit id of the word w. */
  predicate Bit(w: bv32, id: Id) { And(w, Mask(id)) != 0 }

  lemma OneBit(i: Id)
    ensures Mask(i) != 0
  {
  }

  lemma OtherBit(i: Id, j: Id)
    requires i != j
    ensures And(Mask(i), Mask(j)) == 0
  {
  }

  lemma JoinOther(w: bv32, m: bv32, n: bv32)
    ensures And(m, n) == 0 ==> And(Join(w, m), n) == And(w, n)
  {
  }

  lemma WithoutOther(w: bv32, m: bv32, n: bv32)
    ensures And(m, n) == 0 ==> And(Without(w, m), n) == And(w, n)
  {
  }

  lemma OnSame(w: bv32, m: bv32)
    ensures And(Join(w, m), m) == m && And(Without(w, m), m) == 0 && And(0, m) == 0
  {
  }

  /** Setting or clearing a bit changes that bit alone. */
  lemma BitOps(w: bv32, i: Id, j: Id)
    ensures Bit(Join(w, Mask(i)), j) <==> i == j || Bit(w, j)
    ensures Bit(Without(w, Mask(i)), j) <==> i != j && Bit(w, j)
    ensures !Bit(0, j)
  {
    hide Mask, And, Join, Without;
    OneBit(j);
    OnSame(w, Mask(j));
    if i != j {
      OtherBit(i, j);
      JoinOther(w, Mask(i), Mask(j));
      WithoutOther(w, Mask(i), Mask(j));
    }
  }

  // ---------------------------------------------------------------------
  // One set each
  // ---------------------------------------------------------------------

  /** Every set for itself: which numbers are in use, and which characters each set has. */
  datatype Sets = Sets(used: Id -> bool, has: (Id, char8) -> bool)

  const EMPTY: Sets := Sets(id => false, (id, c) => false)

  datatype Op =
    | Init
    | Dup(existing: Id)
    | AddRange(id: Id, start: nat, end: nat)
    | DelRange(id: Id, start: nat, end: nat)
    | AddStr(id: Id, str: seq<char7>)
    | DelStr(id: Id, str: seq<char7>)
    | AddCis(id: Id, rhs: Id)
    | Invert(id: Id)

  /** What the source asks of its callers: known sets, and ranges of characters, from 1 on for those to be added. */
  predicate Allowed(op: Op, s: Sets) {
    match op
    case Init => true
    case Dup(existing) => s.used(existing)
    case AddRange(id, start, end) => s.used(id) && 0 < start <= end <= 256
    case DelRange(id, start, end) => s.used(id) && start <= end <= 256
    case AddStr(id, _) => s.used(id)
    case DelStr(id, _) => s.used(id)
    case AddCis(id, rhs) => s.used(id) && s.used(rhs)
    case Invert(id) => s.used(id)
  }

  predicate Occurs(c: char8, str: seq<char7>) { exists i :: 0 <= i < |str| && str[i] == c }

  /** The lowest number from i on that is free, or 32. */
  function Free(s: Sets, i: bv32): (r: bv32)
    requires i <= 32
    ensures i <= r <= 32 && (r < 32 ==> !s.used(r))
    decreases 32 - i
  {
    if i == 32 || !s.used(i) then i else Free(s, i + 1)
  }

  /** The sets with s.has replaced for one of them. */
  function With(s: Sets, id: Id, has: char8 -> bool): Sets {
    Sets((j: Id) => s.used(j) || j == id, (j: Id, c: char8) => if j == id then has(c) else s.has(j, c))
  }

  function WithNew(s: Sets, has: char8 -> bool): Sets {
    if Free(s, 0) < 32 then With(s, Free(s, 0), has) else s
  }

  /** The sets after an operation, which changes one of them; a new one can be made while there are fewer than 32. */
  function Apply(s: Sets, op: Op): Sets {
    match op
    case Init => WithNew(s, (c: char8) => false)
    case Dup(existing) => WithNew(s, (c: char8) => s.has(existing, c))
    case AddRange(id, start, end) => With(s, id, (c: char8) => s.has(id, c) || start <= c < end)
    case DelRange(id, start, end) => With(s, id, (c: char8) => s.has(id, c) && !(start <= c < end))
    case AddStr(id, str) => With(s, id, (c: char8) => s.has(id, c) || Occurs(c, str))
    case DelStr(id, str) => With(s, id, (c: char8) => s.has(id, c) && !Occurs(c, str))
    case AddCis(id, rhs) => With(s, id, (c: char8) => s.has(id, c) || s.has(rhs, c))
    case Invert(id) => With(s, id, (c: char8) => if c == 0 then s.has(id, c) else !s.has(id, c))
  }

  predicate AllAllowed(s: Sets, ops: seq<Op>)
    decreases |ops|
  {
    ops == [] || (Allowed(ops[0], s) && AllAllowed(Apply(s, ops[0]), ops[1..]))
  }

  function ApplyAll(s: Sets, ops: seq<Op>): Sets
    decreases |ops|
  {
    if ops == [] then s else ApplyAll(Apply(s, ops[0]), ops[1..])
  }

  // ---------------------------------------------------------------------
  // The packed matrix
  // ---------------------------------------------------------------------

  /** Each bit of the mask tells whether a number is in use, and each column is the set of its number. */
  ghost predicate Columns(s: Sets, words: seq<bv32>, useMask: bv32)
    requires |words| == 256
  {
    && (forall id: Id :: Bit(useMask, id) <==> s.used(id))
    && (forall id: Id, c: char8 :: Bit(words[c], id) <==> s.used(id) && s.has(id, c))
  }

  /** A free number is taken into use; its column is empty. */
  lemma NewSet(s: Sets, words: seq<bv32>, useMask: bv32, i: Id)
    requires |words| == 256 && Columns(s, words, useMask) && i == Free(s, 0)
    ensures Columns(Apply(s, Op.Init), words, Join(useMask, Mask(i)))
  {
    hide Bit, Join, Mask, Free;
    forall j: Id ensures Bit(Join(useMask, Mask(i)), j) <==> i == j || Bit(useMask, j) { BitOps(useMask, i, j); }
  }

  class Matrix {
    const words: array<bv32>
    var useMask: bv32

    /** Bit id of word c tells whether set id has the character c; the columns not in use are empty. */
    ghost predicate Represents(s: Sets)
      reads this, words
    {
      words.Length == 256 && Columns(s, words[..], useMask)
    }

    /** pj_cis_buf_init */
    constructor ()
      ensures Represents(EMPTY) && fresh(words)
    {
      words := new bv32[256](_ => 0);
      useMask := 0;
      new;
      forall id: Id ensures !Bit(0, id) { BitOps(0, id, id); }
    }

    /** pj_cis_match */
    method Match(id: Id, c: char8, ghost s: Sets) returns (r: bool)
      requires Represents(s) && s.used(id)
      ensures r <==> s.has(id, c)
    {
      return Bit(words[c], id);
    }

    /** PJ_CIS_SET: no other bit changes. */
    method Set(id: Id, c: char8)
      requires words.Length == 256
      modifies words
      ensures forall j: Id, x: char8 :: Bit(words[x], j) <==> old(Bit(words[x], j)) || (j == id && x == c)
    {
      hide Bit, Join, Mask;
      ghost var w := words[c];
      forall j: Id ensures Bit(Join(w, Mask(id)), j) <==> id == j || Bit(w, j) { BitOps(w, id, j); }
      words[c] := Join(words[c], Mask(id));
    }

    /** PJ_CIS_CLR: no other bit changes. */
    method Clear(id: Id, c: char8)
      requires words.Length == 256
      modifies words
      ensures forall j: Id, x: char8 :: Bit(words[x], j) <==> old(Bit(words[x], j)) && !(j == id && x == c)
    {
      hide Bit, Without, Mask;
      ghost var w := words[c];
      forall j: Id ensures Bit(Without(w, Mask(id)), j) <==> id != j && Bit(w, j) { BitOps(w, id, j); }
      words[c] := Without(words[c], Mask(id));
    }

    /** pj_cis_init: the lowest number that is not in use. */
    method Init(ghost s: Sets) returns (id: bv32)
      requires Represents(s)
      modifies `useMask
      ensures id == Free(s, 0) && Represents(Apply(s, Op.Init))
    {
      hide Bit, Join, Mask;
      var i: bv32 := 0;
      while i < 32
        invariant i <= 32 && Represents(s) && Free(s, i) == Free(s, 0)
        decreases 32 - i
      {
        if !Bit(useMask, i) {
          NewSet(s, words[..], useMask, i);
          useMask := Join(useMask, Mask(i));
          return i;
        }
        i := i + 1;
      }
      return 32;
    }

    /** pj_cis_dup */
    method Dup(existing: Id, ghost s: Sets) returns (id: bv32)
      requires Represents(s) && s.used(existing)
      modifies words, this
      ensures id == Free(s, 0) && Represents(Apply(s, Op.Dup(existing)))
    {
      hide Bit, Free;
      id := Init(s);
      if id == 32 { return; }
      for c := 0 to 256
        invariant words.Length == 256 && (forall j: Id :: Bit(useMask, j) <==> s.used(j) || j == id)
        invariant forall j: Id, x: char8 :: j != id ==> (Bit(words[x], j) <==> s.used(j) && s.has(j, x))
        invariant forall x: char8 :: Bit(words[x], id) <==> x < c && s.has(existing, x)
      {
        if Bit(words[c], existing) { Set(id, c); } else { Clear(id, c); }
      }
    }

    /** pj_cis_add_range */
    method AddRange(id: Id, start: nat, end: nat)
      requires words.Length == 256 && 0 < start <= end <= 256
      modifies words
      ensures forall j: Id, x: char8 :: Bit(words[x], j) <==> old(Bit(words[x], j)) || (j == id && start <= x < end)
    {
      hide Bit;
      var c := start;
      while c != end
        invariant start <= c <= end
        invariant forall j: Id, x: char8 :: Bit(words[x], j) <==> old(Bit(words[x], j)) || (j == id && start <= x < c)
      {
        Set(id, c);
        c := c + 1;
      }
    }

    /** pj_cis_del_range */
    method DelRange(id: Id, start: nat, end: nat)
      requires words.Length == 256 && start <= end <= 256
      modifies words
      ensures forall j: Id, x: char8 :: Bit(words[x], j) <==> old(Bit(words[x], j)) && !(j == id && start <= x < end)
    {
      hide Bit;
      var c := start;
      while c != end
        invariant start <= c <= end
        invariant forall j: Id, x: char8 :: Bit(words[x], j) <==> old(Bit(words[x], j)) && !(j == id && start <= x < c)
      {
        Clear(id, c);
        c := c + 1;
      }
    }

    /** pj_cis_add_str */
    method AddStr(id: Id, str: seq<char7>)
      requires words.Length == 256
      modifies words
      ensures forall j: Id, x: char8 :: Bit(words[x], j) <==> old(Bit(words[x], j)) || (j == id && Occurs(x, str))
    {
      hide Bit, Occurs;
      OccursNone(str);
      for i := 0 to |str|
        invariant forall j: Id, x: char8 :: Bit(words[x], j) <==> old(Bit(words[x], j)) || (j == id && Occurs(x, str[..i]))
      {
        OccursNext(str, i);
        Set(id, str[i]);
      }
      assert str[..|str|] == str;
    }

    /** pj_cis_del_str */
    method DelStr(id: Id, str: seq<char7>)
      requires words.Length == 256
      modifies words
      ensures forall j: Id, x: char8 :: Bit(words[x], j) <==> old(Bit(words[x], j)) && !(j == id && Occurs(x, str))
    {
      hide Bit, Occurs;
      OccursNone(str);
      for i := 0 to |str|
        invariant forall j: Id, x: char8 :: Bit(words[x], j) <==> old(Bit(words[x], j)) && !(j == id && Occurs(x, str[..i]))
      {
        OccursNext(str, i);
        Clear(id, str[i]);
      }
      assert str[..|str|] == str;
    }

    /** pj_cis_add_cis */
    method AddCis(id: Id, rhs: Id)
      requires words.Length == 256
      modifies words
      ensures forall j: Id, x: char8 :: Bit(words[x], j) <==> old(Bit(words[x], j)) || (j == id && old(Bit(words[x], rhs)))
    {
      hide Bit;
      for c := 0 to 256
        invariant forall j: Id, x: char8 ::
                    Bit(words[x], j) <==> old(Bit(words[x], j)) || (j == id && x < c && old(Bit(words[x], rhs)))
      {
        if Bit(words[c], rhs) { Set(id, c); }
      }
    }

    /** pj_cis_invert: NUL is left as it is. */
    method Invert(id: Id)
      requires words.Length == 256
      modifies words
      ensures forall j: Id, x: char8 :: Bit(words[x], j) <==> old(Bit(words[x], j)) != (j == id && x > 0)
    {
      hide Bit;
      for c := 1 to 256
        invariant forall j: Id, x: char8 :: Bit(words[x], j) <==> old(Bit(words[x], j)) != (j == id && 1 <= x < c)
      {
        if Bit(words[c], id) { Clear(id, c); } else { Set(id, c); }
      }
    }
  }

  lemma OccursNone(str: seq<char7>)
    ensures forall c: char8 :: !Occurs(c, str[..0])
  {
  }

  lemma OccursNext(str: seq<char7>, i: nat)
    requires i < |str|
    ensures forall c: char8 :: Occurs(c, str[..i + 1]) <==> Occurs(c, str[..i]) || c == str[i]
  {
    forall c: char8 ensures Occurs(c, str[..i + 1]) <==> Occurs(c, str[..i]) || c == str[i] {
      if Occurs(c, str[..i]) {
        var k :| 0 <= k < i && str[..i][k] == c;
        assert str[..i + 1][k] == c;
      }
      if c == str[i] { assert str[..i + 1][i] == c; }
    }
  }

  method PerformAddRange(m: Matrix, op: Op, ghost s: Sets)
    requires m.Represents(s) && Allowed(op, s) && op.AddRange?
    modifies m.words
    ensures m.Represents(Apply(s, op))
  {
    hide Bit, Occurs;
    m.AddRange(op.id, op.start, op.end);
  }

  method PerformDelRange(m: Matrix, op: Op, ghost s: Sets)
    requires m.Represents(s) && Allowed(op, s) && op.DelRange?
    modifies m.words
    ensures m.Represents(Apply(s, op))
  {
    hide Bit, Occurs;
    m.DelRange(op.id, op.start, op.end);
  }

  method PerformAddStr(m: Matrix, op: Op, ghost s: Sets)
    requires m.Represents(s) && Allowed(op, s) && op.AddStr?
    modifies m.words
    ensures m.Represents(Apply(s, op))
  {
    hide Bit, Occurs;
    m.AddStr(op.id, op.str);
  }

  method PerformDelStr(m: Matrix, op: Op, ghost s: Sets)
    requires m.Represents(s) && Allowed(op, s) && op.DelStr?
    modifies m.words
    ensures m.Represents(Apply(s, op))
  {
    hide Bit, Occurs;
    m.DelStr(op.id, op.str);
  }

  method PerformMerge(m: Matrix, op: Op, ghost s: Sets)
    requires m.Represents(s) && Allowed(op, s) && op.AddCis?
    modifies m.words
    ensures m.Represents(Apply(s, op))
  {
    hide Bit, Occurs;
    m.AddCis(op.id, op.rhs);
  }

  method PerformInvert(m: Matrix, op: Op, ghost s: Sets)
    requires m.Represents(s) && Allowed(op, s) && op.Invert?
    modifies m.words
    ensures m.Represents(Apply(s, op))
  {
    hide Bit, Occurs;
    m.Invert(op.id);
  }

  /** An operation on the matrix; number is that of a new set, or 32. */
  method Perform(m: Matrix, op: Op, ghost s: Sets) returns (number: bv32)
    requires m.Represents(s) && Allowed(op, s)
    modifies m, m.words
    ensures m.Represents(Apply(s, op)) && (op.Init? || op.Dup? ==> number == Free(s, 0))
  {
    hide Bit, Apply;
    number := 32;
    if op.Init? {
      number := m.Init(s);
    } else if op.Dup? {
      number := m.Dup(op.existing, s);
    } else if op.AddRange? {
      PerformAddRange(m, op, s);
    } else if op.DelRange? {
      PerformDelRange(m, op, s);
    } else if op.AddStr? {
      PerformAddStr(m, op, s);
    } else if op.DelStr? {
      PerformDelStr(m, op, s);
    } else if op.AddCis? {
      PerformMerge(m, op, s);
    } else {
      PerformInvert(m, op, s);
    }
  }

  // ---------------------------------------------------------------------
  // One array per set
  // ---------------------------------------------------------------------

  /** A set of the other back-end: one int per character in an array of its own. */
  class ArraySet {
    const buf: array<int>

    constructor ()
      ensures fresh(buf) && buf.Length == 256
    {
      buf := new int[256];
    }

    /** PJ_CIS_ISSET */
    predicate Has(c: char8)
      requires buf.Length == 256
      reads buf
    {
      buf[c] != 0
    }

    /** pj_cis_init */
    method Init()
      requires buf.Length == 256
      modifies buf
      ensures forall x: char8 :: !Has(x)
    {
      for c := 0 to 256
        invariant forall x: char8 :: x < c ==> !Has(x)
      {
        buf[c] := 0;
      }
    }

    /** pj_cis_dup */
    method CopyFrom(existing: ArraySet)
      requires buf.Length == existing.buf.Length == 256 && buf != existing.buf
      modifies buf
      ensures forall x: char8 :: Has(x) <==> existing.Has(x)
    {
      for c := 0 to 256
        invariant forall x: char8 :: x < c ==> (Has(x) <==> existing.Has(x))
      {
        buf[c] := existing.buf[c];
      }
    }

    method AddRange(start: nat, end: nat)
      requires buf.Length == 256 && 0 < start <= end <= 256
      modifies buf
      ensures forall x: char8 :: Has(x) <==> old(Has(x)) || start <= x < end
    {
      var c := start;
      while c != end
        invariant start <= c <= end && forall x: char8 :: Has(x) <==> old(Has(x)) || start <= x < c
      {
        buf[c] := 1;
        c := c + 1;
      }
    }

    method DelRange(start: nat, end: nat)
      requires buf.Length == 256 && start <= end <= 256
      modifies buf
      ensures forall x: char8 :: Has(x) <==> old(Has(x)) && !(start <= x < end)
    {
      var c := start;
      while c != end
        invariant start <= c <= end && forall x: char8 :: Has(x) <==> old(Has(x)) && !(start <= x < c)
      {
        buf[c] := 0;
        c := c + 1;
      }
    }

    method AddStr(str: seq<char7>)
      requires buf.Length == 256
      modifies buf
      ensures forall x: char8 :: Has(x) <==> old(Has(x)) || Occurs(x, str)
    {
      hide Occurs;
      OccursNone(str);
      for i := 0 to |str|
        invariant forall x: char8 :: Has(x) <==> old(Has(x)) || Occurs(x, str[..i])
      {
        OccursNext(str, i);
        buf[str[i]] := 1;
      }
      assert str[..|str|] == str;
    }

    method DelStr(str: seq<char7>)
      requires buf.Length == 256
      modifies buf
      ensures forall x: char8 :: Has(x) <==> old(Has(x)) && !Occurs(x, str)
    {
      hide Occurs;
      OccursNone(str);
      for i := 0 to |str|
        invariant forall x: char8 :: Has(x) <==> old(Has(x)) && !Occurs(x, str[..i])
      {
        OccursNext(str, i);
        buf[str[i]] := 0;
      }
      assert str[..|str|] == str;
    }

    method AddCis(rhs: ArraySet)
      requires buf.Length == rhs.buf.Length == 256
      modifies buf
      ensures forall x: char8 :: Has(x) <==> old(Has(x)) || old(rhs.Has(x))
    {
      for c := 0 to 256
        invariant forall x: char8 :: Has(x) <==> old(Has(x)) || (x < c && old(rhs.Has(x)))
        invariant forall x: char8 :: x >= c ==> (rhs.Has(x) <==> old(rhs.Has(x)))
      {
        if rhs.Has(c) { buf[c] := 1; }
      }
    }

    method Invert()
      requires buf.Length == 256
      modifies buf
      ensures forall x: char8 :: Has(x) <==> old(Has(x)) != (x > 0)
    {
      for c := 1 to 256
        invariant forall x: char8 :: Has(x) <==> old(Has(x)) != (1 <= x < c)
      {
        buf[c] := if Has(c) then 0 else 1;
      }
    }
  }

  /** Sets with arrays of their own. */
  ghost predicate Separate(pool: seq<ArraySet>) {
    && |pool| == 32 && (forall i :: 0 <= i < 32 ==> pool[i].buf.Length == 256)
    && forall i, j :: 0 <= i < j < 32 ==> pool[i].buf != pool[j].buf
  }

  function Index(id: Id): (i: nat)
    ensures i < 32
  {
    id as int
  }

  lemma IndexIsInjective(i: Id, j: Id)
    requires Index(i) == Index(j)
    ensures i == j
  {
  }

  ghost predicate Arrays(pool: seq<ArraySet>, s: Sets)
    reads set i | 0 <= i < |pool| :: pool[i].buf
  {
    Separate(pool) && forall id: Id, c: char8 :: s.used(id) ==> (pool[Index(id)].Has(c) <==> s.has(id, c))
  }

  /** An operation changes one set alone. */
  lemma OnlyOne(s: Sets, op: Op, id: Id, j: Id, c: char8)
    requires Allowed(op, s) && j != id
    requires if op.Init? || op.Dup? then id == Free(s, 0) else id == op.id
    ensures Apply(s, op).used(j) == s.used(j) && Apply(s, op).has(j, c) == s.has(j, c)
  {
    hide Free, Occurs;
  }

  /** The same operation on an array; a new set takes the number that the matrix gave it. */
  method PerformOnArrays(pool: seq<ArraySet>, op: Op, number: bv32, ghost s: Sets)
    requires Arrays(pool, s) && Allowed(op, s) && (op.Init? || op.Dup? ==> number == Free(s, 0))
    modifies set i | 0 <= i < |pool| :: pool[i].buf
    ensures Arrays(pool, Apply(s, op))
  {
    hide Free, Occurs, Index;
    if (op.Init? || op.Dup?) && number == 32 { return; }
    var id: Id := if op.Init? || op.Dup? then number else op.id;
    if op.Dup? { FreeIsOther(s, op.existing); }
    PerformOnArray(pool, op, id, s);
    hide Apply;
    forall j: Id, c: char8 | Apply(s, op).used(j) ensures pool[Index(j)].Has(c) <==> Apply(s, op).has(j, c) {
      if j != id {
        OnlyOne(s, op, id, j, c);
        if Index(j) == Index(id) { IndexIsInjective(j, id); }
      }
    }
  }

  method PerformOnArray(pool: seq<ArraySet>, op: Op, id: Id, ghost s: Sets)
    requires Arrays(pool, s) && Allowed(op, s)
    requires if op.Init? || op.Dup? then id == Free(s, 0) else id == op.id
    requires op.Dup? ==> Index(id) != Index(op.existing)
    modifies pool[Index(id)].buf
    ensures forall c: char8 :: pool[Index(id)].Has(c) <==> Apply(s, op).has(id, c)
  {
    hide Free, Occurs, Index;
    var x := pool[Index(id)];
    if op.Init? {
      x.Init();
    } else if op.Dup? {
      x.CopyFrom(pool[Index(op.existing)]);
    } else if op.AddRange? {
      x.AddRange(op.start, op.end);
    } else if op.DelRange? {
      x.DelRange(op.start, op.end);
    } else if op.AddStr? {
      x.AddStr(op.str);
    } else if op.DelStr? {
      x.DelStr(op.str);
    } else if op.AddCis? {
      x.AddCis(pool[Index(op.rhs)]);
    } else {
      x.Invert();
    }
  }

  lemma FreeIsOther(s: Sets, existing: Id)
    requires s.used(existing) && Free(s, 0) < 32
    ensures Index(Free(s, 0)) != Index(existing)
  {
    if Index(Free(s, 0)) == Index(existing) { IndexIsInjective(Free(s, 0), existing); }
  }

  method NewArrays() returns (pool: seq<ArraySet>)
    ensures Arrays(pool, EMPTY) && forall i :: 0 <= i < |pool| ==> fresh(pool[i].buf)
  {
    pool := [];
    for n := 0 to 32
      invariant |pool| == n && forall i :: 0 <= i < n ==> fresh(pool[i].buf) && pool[i].buf.Length == 256
      invariant forall i, j :: 0 <= i < j < n ==> pool[i].buf != pool[j].buf
    {
      var x := new ArraySet();
      pool := pool + [x];
    }
  }

  /**
   * After any run of operations on up to 32 sets, a set packed in the matrix
   * and the same set in an array of its own match the same characters.
   */
  method MatchAfter(ops: seq<Op>, id: Id, c: char8) returns (packed: bool, single: bool)
    requires AllAllowed(EMPTY, ops) && ApplyAll(EMPTY, ops).used(id)
    ensures packed == single && (packed <==> ApplyAll(EMPTY, ops).has(id, c))
  {
    hide Apply, Free;
    var m := new Matrix();
    var pool := NewArrays();
    ghost var s := EMPTY;
    assert ops[0..] == ops;
    for i := 0 to |ops|
      invariant m.Represents(s) && fresh(m) && fresh(m.words)
      invariant Arrays(pool, s) && forall k :: 0 <= k < |pool| ==> fresh(pool[k].buf)
      invariant AllAllowed(s, ops[i..]) && ApplyAll(s, ops[i..]) == ApplyAll(EMPTY, ops)
    {
      assert ops[i..][0] == ops[i] && ops[i..][1..] == ops[i + 1..];
      var number := Perform(m, ops[i], s);
      PerformOnArrays(pool, ops[i], number, s);
      s := Apply(s, ops[i]);
    }
    packed := m.Match(id, c, s);
    single := pool[Index(id)].Has(c);
  }
}
