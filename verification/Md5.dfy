/** Streaming MD5 (md5.c, little-endian) over any compression function, and HMAC over it (hmac_md5.c). */
module Md5 {
  import opened Bytes

  const W: int := 0x1_0000_0000          // 2^32
  const BLOCK: nat := 64

  type word = x: int | 0 <= x < W

  datatype Words = Words(a: word, b: word, c: word, d: word)

  /** What MD5Transform computes from the chaining words and a block. */
  type Compression = (Words, bytes) -> Words

  const INIT: Words := Words(0x67452301, 0xefcdab89, 0x98badcfe, 0x10325476)

  function Zeros(n: nat): bytes { seq(n, i => 0) }

  /** A word as four octets, the lowest first. */
  function Little(w: word): (r: bytes)
    ensures |r| == 4
  {
    [w % 256, w / 0x100 % 256, w / 0x1_0000 % 256, w / 0x100_0000 % 256]
  }

  // ---------------------------------------------------------------------
  // Reference: sections 3.1 to 3.5 of RFC 1321
  // ---------------------------------------------------------------------

  /** The compression function over the blocks of a string. */
  function Fold(f: Compression, w: Words, s: bytes): Words
    requires |s| % BLOCK == 0
    decreases |s|
  {
    if |s| == 0 then w else Fold(f, f(w, s[..BLOCK]), s[BLOCK..])
  }

  /** The length in bits modulo 2^64. */
  function BitLength(m: bytes): nat { 8 * |m| % (W * W) }

  /** The length as eight octets, the lowest first. */
  function Lengths(m: bytes): (r: bytes)
    ensures |r| == 8
  {
    Little(BitLength(m) % W) + Little(BitLength(m) / W)
  }

  function Padding(m: bytes): bytes {
    [0x80] + Zeros((55 - |m|) % BLOCK) + Lengths(m)
  }

  function DigestBytes(w: Words): (r: bytes)
    ensures |r| == 16
  {
    Little(w.a) + Little(w.b) + Little(w.c) + Little(w.d)
  }

  function Digest(f: Compression, m: bytes): (r: bytes)
    ensures |r| == 16
  {
    PaddedSize(m);
    DigestBytes(Fold(f, INIT, m + Padding(m)))
  }

  /** The chaining words start with the octets of section 3.3 of RFC 1321. */
  lemma InitIsRight()
    ensures DigestBytes(INIT) ==
              [0x01, 0x23, 0x45, 0x67, 0x89, 0xab, 0xcd, 0xef, 0xfe, 0xdc, 0xba, 0x98, 0x76, 0x54, 0x32, 0x10]
  {
    assert Little(INIT.a) == [0x01, 0x23, 0x45, 0x67] && Little(INIT.b) == [0x89, 0xab, 0xcd, 0xef];
    assert Little(INIT.c) == [0xfe, 0xdc, 0xba, 0x98] && Little(INIT.d) == [0x76, 0x54, 0x32, 0x10];
  }

  lemma PadCount(n: nat)
    ensures (n + (55 - n) % 64) % 64 == 55
  {
    var q, r := n / 64, n % 64;
    assert n == 64 * q + r;
    assert (55 - n) % 64 == if r <= 55 then 55 - r else 119 - r;
  }

  /** Padding fills the last block. */
  lemma PaddedSize(m: bytes)
    ensures |m + Padding(m)| % BLOCK == 0 && 9 <= |Padding(m)| <= BLOCK + 8
  {
    hide BitLength;
    PadCount(|m|);
    var k := (55 - |m|) % BLOCK;
    assert |Padding(m)| == 1 + k + 8;
    assert (|m| + k) % BLOCK == 55;
  }

  function Number(a: int, b: int, c: int, d: int): int { a + 256 * b + 65536 * c + 16777216 * d }

  lemma LittleIs(w: word)
    ensures var r := Little(w); Number(r[0], r[1], r[2], r[3]) == w
  {
    var a, b, c := w / 0x100, w / 0x1_0000, w / 0x100_0000;
    assert b == a / 256 && c == b / 256;
    assert w == 256 * a + w % 256 && a == 256 * b + a % 256 && b == 256 * c + b % 256;
  }

  /**
   * Padding is a one bit, as few zero bits as reach eight octets before the
   * end of a block, and the number of bits modulo 2^64, the lowest octet first.
   */
  lemma PaddingIsRight(m: bytes)
    ensures var p := Padding(m);
            var n := |p| - 8;
            && 9 <= |p| <= 72 && (|m| + |p|) % 64 == 0
            && p[0] == 128 && (forall i :: 1 <= i < n ==> p[i] == 0)
            && Number(p[n], p[n + 1], p[n + 2], p[n + 3]) + 4294967296 * Number(p[n + 4], p[n + 5], p[n + 6], p[n + 7])
               == 8 * |m| % 18446744073709551616
  {
    hide Little, Number;
    PaddedSize(m);
    var v := BitLength(m);
    assert v == 8 * |m| % 18446744073709551616;
    var lo: word, hi: word := v % W, v / W;
    assert v == lo + W * hi;
    LittleIs(lo);
    LittleIs(hi);
    var p := Padding(m);
    var n := |p| - 8;
    assert p[n..] == Little(lo) + Little(hi);
    assert forall j :: n <= j < n + 8 ==> p[j] == p[n..][j - n];
  }

  lemma {:induction false} FoldAppend(f: Compression, w: Words, a: bytes, b: bytes)
    requires |a| % BLOCK == 0 && |b| % BLOCK == 0
    ensures Fold(f, w, a + b) == Fold(f, Fold(f, w, a), b)
    decreases |a|
  {
    if |a| == 0 {
      assert a + b == b;
    } else {
      assert (a + b)[..BLOCK] == a[..BLOCK] && (a + b)[BLOCK..] == a[BLOCK..] + b;
      FoldAppend(f, f(w, a[..BLOCK]), a[BLOCK..], b);
    }
  }

  lemma FoldBlock(f: Compression, w: Words, s: bytes)
    requires |s| == BLOCK
    ensures Fold(f, w, s) == f(w, s)
  {
    assert s[..BLOCK] == s;
  }

  // ---------------------------------------------------------------------
  // Whole blocks and the rest
  // ---------------------------------------------------------------------

  function Whole(m: bytes): (r: bytes)
    ensures |r| % BLOCK == 0
  {
    m[..|m| / BLOCK * BLOCK]
  }

  function Rest(m: bytes): (r: bytes)
    ensures |r| == |m| % BLOCK
  {
    m[|m| / BLOCK * BLOCK..]
  }

  /** More octets that do not fill the block only extend the rest. */
  lemma ExtendRest(m: bytes, d: bytes)
    requires |Rest(m)| + |d| < BLOCK
    ensures Whole(m + d) == Whole(m) && Rest(m + d) == Rest(m) + d
  {
    assert |m + d| / BLOCK == |m| / BLOCK;
  }

  /** Octets that just fill the block add it to the whole blocks. */
  lemma FillBlock(f: Compression, m: bytes, d: bytes)
    requires |Rest(m)| + |d| == BLOCK
    ensures Rest(m + d) == [] && Fold(f, INIT, Whole(m + d)) == f(Fold(f, INIT, Whole(m)), Rest(m) + d)
  {
    var n := |m| / BLOCK * BLOCK;
    assert |m + d| == n + BLOCK;
    assert Whole(m + d) == Whole(m) + (Rest(m) + d);
    FoldAppend(f, INIT, Whole(m), Rest(m) + d);
    FoldBlock(f, Fold(f, INIT, Whole(m)), Rest(m) + d);
  }

  // ---------------------------------------------------------------------
  // The bit counter
  // ---------------------------------------------------------------------

  /** The counter after len octets more, as the source updates its two words. */
  function Count(low: word, high: word, len: nat): (r: (word, word))
    requires len < W
  {
    var l := (low + len * 8 % W) % W;
    var carry := if l < low then 1 else 0;
    (l, (high + carry + len / 0x2000_0000) % W)
  }

  lemma CountIsRight(low: word, high: word, m: bytes, d: bytes)
    requires |d| < W && low + W * high == BitLength(m)
    ensures var (l, h) := Count(low, high, |d|); l + W * h == BitLength(m + d)
  {
    var (l, h) := Count(low, high, |d|);
    var x := |d| * 8;
    CountAdds(low, high, x % W, x / W);
    assert |d| / 0x2000_0000 == x / W;
    ModAdds(8 * |m|, x);
  }

  lemma CountAdds(low: word, high: word, lo: word, hi: nat)
    ensures var l := (low + lo) % W;
            var h := (high + (if l < low then 1 else 0) + hi) % W;
            l + W * h == (low + W * high + lo + W * hi) % (W * W)
  {
    var l := (low + lo) % W;
    var c := if l < low then 1 else 0;
    assert low + lo == l + W * c;
    var t := high + c + hi;
    assert low + W * high + lo + W * hi == l + W * (t % W) + (W * W) * (t / W);
    ModSmall(l + W * (t % W), t / W);
  }

  lemma ModSmall(r: nat, q: nat)
    requires r < W * W
    ensures (r + (W * W) * q) % (W * W) == r
  {
  }

  lemma ModAdds(a: nat, b: nat)
    ensures (a + b) % (W * W) == (a % (W * W) + b) % (W * W)
  {
  }

  /** The counter tells how full the buffer is. */
  lemma CountTellsRest(low: word, high: word, m: bytes)
    requires low + W * high == BitLength(m)
    ensures low / 8 % BLOCK == |Rest(m)|
  {
    Tells(|m|, low, high, 8 * |m| / 0x1_0000_0000_0000_0000);
  }

  lemma Tells(n: nat, low: int, high: int, q: int)
    requires 0 <= low && 8 * n == low + 0x1_0000_0000 * high + 0x1_0000_0000_0000_0000 * q
    ensures low / 8 % 64 == n % 64
  {
    var k := high + 0x1_0000_0000 * q;
    assert low == 8 * (n - 0x2000_0000 * k);
    assert low / 8 == n - 64 * (0x80_0000 * k);
  }

  // ---------------------------------------------------------------------
  // The last blocks
  // ---------------------------------------------------------------------

  lemma PadZeros(n: nat)
    ensures (55 - n) % 64 == if n % 64 <= 55 then 55 - n % 64 else 63 - n % 64 + 56
  {
    PadCount(n);
    var q, r := n / 64, n % 64;
    assert n == 64 * q + r;
  }

  lemma TailOf(f: Compression, m: bytes, tail: bytes)
    requires Rest(m) + Padding(m) == tail && |tail| % BLOCK == 0
    ensures |m + Padding(m)| % BLOCK == 0
    ensures Fold(f, INIT, m + Padding(m)) == Fold(f, Fold(f, INIT, Whole(m)), tail)
  {
    PaddedSize(m);
    hide Padding;
    assert m + Padding(m) == Whole(m) + (Rest(m) + Padding(m));
    FoldAppend(f, INIT, Whole(m), tail);
  }

  lemma OneLastBlock(f: Compression, m: bytes)
    requires |Rest(m)| <= 55
    ensures |m + Padding(m)| % BLOCK == 0
    ensures Fold(f, INIT, m + Padding(m)) ==
            f(Fold(f, INIT, Whole(m)), Rest(m) + [0x80] + Zeros(55 - |Rest(m)|) + Lengths(m))
  {
    hide Lengths;
    PadZeros(|m|);
    var r, z := Rest(m), Zeros(55 - |Rest(m)|);
    var block := r + [0x80] + z + Lengths(m);
    assert Padding(m) == [0x80] + z + Lengths(m);
    assert r + Padding(m) == block;
    TailOf(f, m, block);
    FoldBlock(f, Fold(f, INIT, Whole(m)), block);
  }

  lemma TwoLastBlocks(f: Compression, m: bytes)
    requires |Rest(m)| > 55
    ensures |m + Padding(m)| % BLOCK == 0
    ensures Fold(f, INIT, m + Padding(m)) ==
            f(f(Fold(f, INIT, Whole(m)), Rest(m) + [0x80] + Zeros(63 - |Rest(m)|)), Zeros(56) + Lengths(m))
  {
    hide Lengths;
    PadZeros(|m|);
    var r, z, z' := Rest(m), Zeros(63 - |Rest(m)|), Zeros(56);
    var a, b := r + [0x80] + z, z' + Lengths(m);
    assert Zeros(63 - |r| + 56) == z + z';
    assert Padding(m) == [0x80] + (z + z') + Lengths(m);
    assert r + Padding(m) == a + b;
    TailOf(f, m, a + b);
    var w := Fold(f, INIT, Whole(m));
    FoldAppend(f, w, a, b);
    FoldBlock(f, w, a);
    FoldBlock(f, Fold(f, w, a), b);
  }

  // ---------------------------------------------------------------------
  // The context of the source
  // ---------------------------------------------------------------------

  class Context {
    const compress: Compression
    var buf: Words
    var low: word            // bits[0]
    var high: word           // bits[1]
    const inp: array<byte>   // in
    ghost var msg: bytes     // all that was fed so far

    /**
     * The counter is the length in bits modulo 2^64, the words are the
     * compression of all whole blocks, and the buffer holds the rest.
     */
    ghost predicate Valid()
      reads this, inp
    {
      && inp.Length == BLOCK && low + W * high == BitLength(msg)
      && buf == Fold(compress, INIT, Whole(msg)) && inp[..|Rest(msg)|] == Rest(msg)
    }

    constructor (compress: Compression)
      ensures Valid() && msg == [] && this.compress == compress && fresh(inp)
    {
      this.compress := compress;
      buf, low, high, msg := INIT, 0, 0, [];
      inp := new byte[BLOCK](_ => 0);
    }

    /** pj_md5_init */
    method Init()
      requires inp.Length == BLOCK
      modifies this
      ensures Valid() && msg == []
    {
      buf, low, high, msg := INIT, 0, 0, [];
    }

    /** Copies src into the buffer at position at. */
    method CopyIn(at: nat, src: bytes)
      requires at + |src| <= inp.Length
      modifies inp
      ensures inp[..at + |src|] == old(inp[..at]) + src
    {
      for i := 0 to |src|
        invariant inp[..at] == old(inp[..at]) && forall k :: 0 <= k < i ==> inp[at + k] == src[k]
      {
        inp[at + i] := src[i];
      }
    }

    /** Fills the buffer up with src and compresses it. */
    method Block(at: nat, src: bytes)
      requires inp.Length == BLOCK && at + |src| == BLOCK
      modifies `buf, inp
      ensures buf == compress(old(buf), old(inp[..at]) + src)
    {
      CopyIn(at, src);
      assert inp[..] == inp[..BLOCK];
      buf := compress(buf, inp[..]);
    }

    /** pj_md5_update */
    method Update(data: bytes)
      requires Valid() && |data| < W
      modifies this, inp
      ensures Valid() && msg == old(msg) + data
    {
      hide Fold, BitLength, Count, Whole, Rest;
      CountTellsRest(low, high, msg);
      CountIsRight(low, high, msg, data);
      var t := low / 8 % BLOCK;
      var counts := Count(low, high, |data|);
      low, high := counts.0, counts.1;
      var d, m := data, msg;
      if t != 0 {
        if |d| < BLOCK - t {
          ExtendRest(m, d);
          CopyIn(t, d);
          msg := m + d;
          return;
        }
        FillBlock(compress, m, d[..BLOCK - t]);
        Block(t, d[..BLOCK - t]);
        assert m + d == m + d[..BLOCK - t] + d[BLOCK - t..];
        m := m + d[..BLOCK - t];
        d := d[BLOCK - t..];
      }
      while |d| >= BLOCK
        invariant low == counts.0 && high == counts.1 && inp.Length == BLOCK
        invariant m + d == old(msg) + data && |Rest(m)| == 0 && buf == Fold(compress, INIT, Whole(m))
        decreases |d|
      {
        FillBlock(compress, m, d[..BLOCK]);
        NoRest(m, d[..BLOCK]);
        Block(0, d[..BLOCK]);
        assert m + d == m + d[..BLOCK] + d[BLOCK..];
        m := m + d[..BLOCK];
        d := d[BLOCK..];
      }
      ExtendRest(m, d);
      NoRest(m, d);
      CopyIn(0, d);
      msg := m + d;
    }

    /** pj_md5_final */
    method Final() returns (digest: bytes)
      requires Valid()
      modifies this, inp
      ensures digest == Digest(compress, old(msg))
      ensures buf == Words(0, 0, 0, 0) && low == 0 && high == 0 && inp[..] == Zeros(BLOCK)
    {
      hide Fold, BitLength, Padding, Whole, Rest, Zeros, Little;
      CountTellsRest(low, high, msg);
      LengthsAre(low, high, msg);
      var count := low / 8 % BLOCK;
      ghost var r := Rest(msg);
      CopyIn(count, [0x80]);
      ZerosSize(BLOCK - 1 - count);
      ZerosSize(56);
      if BLOCK - 1 - count < 8 {
        TwoLastBlocks(compress, msg);
        Block(count + 1, Zeros(BLOCK - 1 - count));
        CopyIn(0, Zeros(56));
        assert inp[..0] + Zeros(56) == Zeros(56);
      } else {
        OneLastBlock(compress, msg);
        ZerosSize(BLOCK - 1 - count - 8);
        CopyIn(count + 1, Zeros(BLOCK - 1 - count - 8));
      }
      Block(56, Little(low) + Little(high));
      digest := DigestBytes(buf);
      Wipe();
    }

    /** Clears the context. */
    method Wipe()
      requires inp.Length == BLOCK
      modifies `buf, `low, `high, inp
      ensures buf == Words(0, 0, 0, 0) && low == 0 && high == 0 && inp[..] == Zeros(BLOCK)
    {
      hide Zeros;
      buf, low, high := Words(0, 0, 0, 0), 0, 0;
      ZerosSize(BLOCK);
      CopyIn(0, Zeros(BLOCK));
      assert inp[..] == inp[..BLOCK] == inp[..0] + Zeros(BLOCK);
    }
  }

  lemma ZerosSize(n: nat)
    ensures |Zeros(n)| == n
  {
  }

  lemma NoRest(m: bytes, d: bytes)
    requires |Rest(m)| == 0
    ensures Rest(m) + d == d
  {
  }

  lemma LengthsAre(low: word, high: word, m: bytes)
    requires low + W * high == BitLength(m)
    ensures Little(low) + Little(high) == Lengths(m)
  {
    hide Little;
    assert BitLength(m) % W == low && BitLength(m) / W == high;
  }

  // ---------------------------------------------------------------------
  // HMAC: section 2 of RFC 2104
  // ---------------------------------------------------------------------

  const IPAD: byte := 0x36
  const OPAD: byte := 0x5c

  function XorByte(a: byte, b: byte): byte { ((a as bv8) ^ (b as bv8)) as byte }

  function XorAll(s: bytes, b: byte): bytes { seq(|s|, i requires 0 <= i < |s| => XorByte(s[i], b)) }

  /** The key as one block: hashed if it is longer than that, and filled with zeros. */
  function KeyBlock(f: Compression, key: bytes): (r: bytes)
    ensures |r| == BLOCK
  {
    var k := if |key| > BLOCK then Digest(f, key) else key;
    k + Zeros(BLOCK - |k|)
  }

  function Mac(f: Compression, key: bytes, text: bytes): bytes {
    var k := KeyBlock(f, key);
    Digest(f, XorAll(k, OPAD) + Digest(f, XorAll(k, IPAD) + text))
  }

  /** The octet at i of a key that is filled with zeros. */
  function KeyOctet(k: bytes, i: nat): byte { if i < |k| then k[i] else 0 }

  /** H(K xor opad, H(K xor ipad, text)) with the two octets of RFC 2104; a key of more than 64 octets is hashed first. */
  lemma MacIsRight(f: Compression, key: bytes, text: bytes, ipad: bytes, opad: bytes)
    requires |ipad| == |opad| == 64
    requires var k := if |key| > 64 then Digest(f, key) else key;
             forall i :: 0 <= i < 64 ==>
               ipad[i] == XorByte(KeyOctet(k, i), 0x36) && opad[i] == XorByte(KeyOctet(k, i), 0x5c)
    ensures Mac(f, key, text) == Digest(f, opad + Digest(f, ipad + text))
  {
    hide Digest, XorByte;
    var k := KeyBlock(f, key);
    assert XorAll(k, IPAD) == ipad && XorAll(k, OPAD) == opad;
  }

  class HmacContext {
    const context: Context
    const kOpad: array<byte>
    ghost var key: bytes
    ghost var text: bytes    // all that was fed so far

    ghost predicate Valid()
      reads this, kOpad, context, context.inp
    {
      && kOpad.Length == BLOCK && kOpad != context.inp && context.Valid()
      && kOpad[..] == XorAll(KeyBlock(context.compress, key), OPAD)
      && context.msg == XorAll(KeyBlock(context.compress, key), IPAD) + text
    }

    /** pj_hmac_md5_init */
    constructor (compress: Compression, key: bytes)
      requires |key| < W
      ensures Valid() && this.key == key && text == [] && context.compress == compress
      ensures fresh(context) && fresh(context.inp) && fresh(kOpad)
    {
      hide Digest, XorByte, KeyBlock;
      this.key, text := key, [];
      var k := key;
      if |k| > BLOCK {
        var tctx := new Context(compress);
        tctx.Update(k);
        k := tctx.Final();
        assert [] + key == key;
      }
      KeyBlockIs(compress, key);
      var block := k + Zeros(BLOCK - |k|);
      var ipad := new byte[BLOCK](i requires 0 <= i < BLOCK => block[i]);
      var opad := new byte[BLOCK](i requires 0 <= i < BLOCK => block[i]);
      for i := 0 to BLOCK
        invariant forall j :: 0 <= j < i ==> ipad[j] == XorByte(block[j], IPAD) && opad[j] == XorByte(block[j], OPAD)
        invariant forall j :: i <= j < BLOCK ==> ipad[j] == block[j] && opad[j] == block[j]
      {
        ipad[i] := XorByte(ipad[i], IPAD);
        opad[i] := XorByte(opad[i], OPAD);
      }
      assert ipad[..] == XorAll(block, IPAD) && opad[..] == XorAll(block, OPAD);
      kOpad := opad;
      var ctx := new Context(compress);
      ctx.Update(ipad[..]);
      context := ctx;
      assert [] + XorAll(block, IPAD) == XorAll(block, IPAD) + [];
    }

    /** pj_hmac_md5_update */
    method Update(data: bytes)
      requires Valid() && |data| < W
      modifies this, context, context.inp
      ensures Valid() && text == old(text) + data && key == old(key)
    {
      hide KeyBlock, XorAll;
      ghost var k := XorAll(KeyBlock(context.compress, key), IPAD);
      assert k + text + data == k + (text + data);
      context.Update(data);
      text := text + data;
    }

    /** pj_hmac_md5_final */
    method Final() returns (digest: bytes)
      requires Valid()
      modifies context, context.inp
      ensures digest == Mac(context.compress, old(key), old(text))
    {
      hide KeyBlock, XorAll, Digest, Fold, BitLength, Whole, Rest, Zeros;
      ghost var opad := kOpad[..];
      digest := context.Final();
      context.Init();
      assert kOpad[..] == opad;
      context.Update(kOpad[..]);
      assert [] + opad == opad;
      context.Update(digest);
      digest := context.Final();
    }
  }

  lemma KeyBlockIs(f: Compression, key: bytes)
    ensures var k := if |key| > BLOCK then Digest(f, key) else key;
            KeyBlock(f, key) == k + Zeros(BLOCK - |k|) && |KeyBlock(f, key)| == BLOCK
  {
  }

  /** pj_hmac_md5 */
  method Hmac(compress: Compression, input: bytes, key: bytes) returns (digest: bytes)
    requires |input| < W && |key| < W
    ensures digest == Mac(compress, key, input)
  {
    var ctx := new HmacContext(compress, key);
    ctx.Update(input);
    digest := ctx.Final();
    assert [] + input == input;
  }

  /** However a text is split into updates, the MAC and the digest are those of the whole text. */
  method HashPieces(compress: Compression, pieces: seq<bytes>, key: bytes) returns (digest: bytes, mac: bytes)
    requires |key| < W && forall i :: 0 <= i < |pieces| ==> |pieces[i]| < W
    ensures digest == Digest(compress, Concat(pieces)) && mac == Mac(compress, key, Concat(pieces))
  {
    hide Digest, Mac, Fold, BitLength, Whole, Rest, KeyBlock, XorAll;
    var ctx := new Context(compress);
    var hctx := new HmacContext(compress, key);
    for i := 0 to |pieces|
      invariant ctx.Valid() && ctx.msg == Concat(pieces[..i]) && fresh(ctx) && fresh(ctx.inp)
      invariant hctx.Valid() && hctx.text == Concat(pieces[..i]) && hctx.key == key
      invariant fresh(hctx) && fresh(hctx.context) && fresh(hctx.context.inp)
      invariant ctx != hctx.context && {ctx.inp} !! {hctx.context.inp, hctx.kOpad}
    {
      assert pieces[..i + 1][..i] == pieces[..i];
      ctx.Update(pieces[i]);
      hctx.Update(pieces[i]);
    }
    assert pieces[..|pieces|] == pieces;
    mac := hctx.Final();
    digest := ctx.Final();
  }
}
