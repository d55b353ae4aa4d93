/** The compression function of md5.c against section 3.4 of RFC 1321. */
module Md5Transform {
  import opened Bytes
  import opened Md5

  /** The four chaining words. */
  datatype Regs = Regs(a: bv32, b: bv32, c: bv32, d: bv32)

  // ---------------------------------------------------------------------
  // Section 3.4 of RFC 1321
  // ---------------------------------------------------------------------

  function F(x: bv32, y: bv32, z: bv32): bv32 { (x & y) | (!x & z) }

  function G(x: bv32, y: bv32, z: bv32): bv32 { (x & z) | (y & !z) }

  function H(x: bv32, y: bv32, z: bv32): bv32 { x ^ y ^ z }

  function I(x: bv32, y: bv32, z: bv32): bv32 { y ^ (x | !z) }

  /** Four entries of the table of 4294967296 times the absolute value of sin(1), sin(2), and so on. */
  function Sines(k: nat): (r: seq<bv32>)
    ensures |r| == 4
  {
    match k
    case 0 => [0xd76aa478, 0xe8c7b756, 0x242070db, 0xc1bdceee]
    case 1 => [0xf57c0faf, 0x4787c62a, 0xa8304613, 0xfd469501]
    case 2 => [0x698098d8, 0x8b44f7af, 0xffff5bb1, 0x895cd7be]
    case 3 => [0x6b901122, 0xfd987193, 0xa679438e, 0x49b40821]
    case 4 => [0xf61e2562, 0xc040b340, 0x265e5a51, 0xe9b6c7aa]
    case 5 => [0xd62f105d, 0x02441453, 0xd8a1e681, 0xe7d3fbc8]
    case 6 => [0x21e1cde6, 0xc33707d6, 0xf4d50d87, 0x455a14ed]
    case 7 => [0xa9e3e905, 0xfcefa3f8, 0x676f02d9, 0x8d2a4c8a]
    case 8 => [0xfffa3942, 0x8771f681, 0x6d9d6122, 0xfde5380c]
    case 9 => [0xa4beea44, 0x4bdecfa9, 0xf6bb4b60, 0xbebfbc70]
    case 10 => [0x289b7ec6, 0xeaa127fa, 0xd4ef3085, 0x04881d05]
    case 11 => [0xd9d4d039, 0xe6db99e5, 0x1fa27cf8, 0xc4ac5665]
    case 12 => [0xf4292244, 0x432aff97, 0xab9423a7, 0xfc93a039]
    case 13 => [0x655b59c3, 0x8f0ccc92, 0xffeff47d, 0x85845dd1]
    case 14 => [0x6fa87e4f, 0xfe2ce6e0, 0xa3014314, 0x4e0811a1]
    case _ => [0xf7537e82, 0xbd3af235, 0x2ad7d2bb, 0xeb86d391]
  }

  function Sine(i: nat): bv32 { Sines(i / 4)[i % 4] }

  /** The word of the block that operation i adds. */
  function Index(i: nat): (k: nat)
    ensures k < 16
  {
    if i < 16 then i else if i < 32 then (5 * i + 1) % 16 else if i < 48 then (3 * i + 5) % 16 else 7 * i % 16
  }

  /** By how many bits operation i rotates. */
  function Turn(i: nat): (s: bv6)
    ensures 1 <= s <= 31
  {
    if i < 16 then [7, 12, 17, 22][i % 4]
    else if i < 32 then [5, 9, 14, 20][i % 4]
    else if i < 48 then [4, 11, 16, 23][i % 4]
    else [6, 10, 15, 21][i % 4]
  }

  function Rotate(x: bv32, s: bv6): bv32
    requires 1 <= s <= 31
  {
    (x << s) | (x >> (32 - s))
  }

  function Mix(i: nat, x: bv32, y: bv32, z: bv32): bv32 {
    if i < 16 then F(x, y, z) else if i < 32 then G(x, y, z) else if i < 48 then H(x, y, z) else I(x, y, z)
  }

  function Add(x: bv32, y: bv32): bv32 { x + y }

  /** Operation i: a = b + ((a + mix(b, c, d) + word + sine) <<< turn), after which the words change their roles. */
  function Op(i: nat, r: Regs, x: seq<bv32>): Regs
    requires i < 64 && |x| == 16
  {
    var sum := Add(r.a, Add(Mix(i, r.b, r.c, r.d), Add(x[Index(i)], Sine(i))));
    Regs(r.d, Add(Rotate(sum, Turn(i)), r.b), r.b, r.c)
  }

  /** The first n operations. */
  function Ops(n: nat, r: Regs, x: seq<bv32>): Regs
    requires n <= 64 && |x| == 16
  {
    if n == 0 then r else Op(n - 1, Ops(n - 1, r, x), x)
  }

  function Compress(r: Regs, x: seq<bv32>): Regs
    requires |x| == 16
  {
    var e := Ops(64, r, x);
    Regs(Add(r.a, e.a), Add(r.b, e.b), Add(r.c, e.c), Add(r.d, e.d))
  }

  // ---------------------------------------------------------------------
  // The macros of the source
  // ---------------------------------------------------------------------

  function F1(x: bv32, y: bv32, z: bv32): bv32 { z ^ (x & (y ^ z)) }

  function F2(x: bv32, y: bv32, z: bv32): bv32 { F1(z, x, y) }

  function F3(x: bv32, y: bv32, z: bv32): bv32 { x ^ y ^ z }

  function F4(x: bv32, y: bv32, z: bv32): bv32 { y ^ (x | !z) }

  /** MD5STEP, where f is the mixed value. */
  function Step(f: bv32, w: bv32, x: bv32, data: bv32, s: bv6): bv32
    requires 1 <= s <= 31
  {
    Add(Rotate(Add(w, Add(f, data)), s), x)
  }

  /** The functions written with fewer operations are those of RFC 1321. */
  lemma F1IsF(x: bv32, y: bv32, z: bv32)
    ensures F1(x, y, z) == F(x, y, z)
  {
    Distributes(x, y, z);
    Complement(x, z);
    Disjoint(x, y, z);
    Exchange(z, x & y, x & z);
  }

  lemma Distributes(x: bv32, y: bv32, z: bv32)
    ensures x & (y ^ z) == (x & y) ^ (x & z)
  {
  }

  lemma Complement(x: bv32, z: bv32)
    ensures z ^ (x & z) == !x & z
  {
  }

  lemma Disjoint(x: bv32, y: bv32, z: bv32)
    ensures (x & y) ^ (!x & z) == (x & y) | (!x & z)
  {
  }

  lemma Exchange(x: bv32, y: bv32, z: bv32)
    ensures x ^ (y ^ z) == y ^ (x ^ z)
  {
  }

  lemma F2IsG(x: bv32, y: bv32, z: bv32)
    ensures F2(x, y, z) == G(x, y, z)
  {
    hide F, F1;
    F1IsF(z, x, y);
    GIsF(x, y, z);
  }

  lemma GIsF(x: bv32, y: bv32, z: bv32)
    ensures F(z, x, y) == G(x, y, z)
  {
  }

  function Mixed(i: nat, x: bv32, y: bv32, z: bv32): bv32 {
    if i < 16 then F1(x, y, z) else if i < 32 then F2(x, y, z) else if i < 48 then F3(x, y, z) else F4(x, y, z)
  }

  /** One line of MD5Transform is one operation. */
  lemma StepIs(i: nat, r: Regs, x: seq<bv32>)
    requires i < 64 && |x| == 16
    ensures Op(i, r, x) ==
              Regs(r.d, Step(Mixed(i, r.b, r.c, r.d), r.a, r.b, Add(x[Index(i)], Sine(i)), Turn(i)), r.b, r.c)
  {
    hide F, G, F1, F2, Add, Rotate, Sine, Index, Turn;
    F1IsF(r.b, r.c, r.d);
    F2IsG(r.b, r.c, r.d);
  }

  /** The numbers of operations 0 to 15. */
  lemma Lines0()
    ensures Index(0) == 0 && Turn(0) == 7 && Sine(0) == 0xd76aa478
    ensures Index(1) == 1 && Turn(1) == 12 && Sine(1) == 0xe8c7b756
    ensures Index(2) == 2 && Turn(2) == 17 && Sine(2) == 0x242070db
    ensures Index(3) == 3 && Turn(3) == 22 && Sine(3) == 0xc1bdceee
    ensures Index(4) == 4 && Turn(4) == 7 && Sine(4) == 0xf57c0faf
    ensures Index(5) == 5 && Turn(5) == 12 && Sine(5) == 0x4787c62a
    ensures Index(6) == 6 && Turn(6) == 17 && Sine(6) == 0xa8304613
    ensures Index(7) == 7 && Turn(7) == 22 && Sine(7) == 0xfd469501
    ensures Index(8) == 8 && Turn(8) == 7 && Sine(8) == 0x698098d8
    ensures Index(9) == 9 && Turn(9) == 12 && Sine(9) == 0x8b44f7af
    ensures Index(10) == 10 && Turn(10) == 17 && Sine(10) == 0xffff5bb1
    ensures Index(11) == 11 && Turn(11) == 22 && Sine(11) == 0x895cd7be
    ensures Index(12) == 12 && Turn(12) == 7 && Sine(12) == 0x6b901122
    ensures Index(13) == 13 && Turn(13) == 12 && Sine(13) == 0xfd987193
    ensures Index(14) == 14 && Turn(14) == 17 && Sine(14) == 0xa679438e
    ensures Index(15) == 15 && Turn(15) == 22 && Sine(15) == 0x49b40821
  {
  }

  /** The numbers of operations 16 to 31. */
  lemma Lines16()
    ensures Index(16) == 1 && Turn(16) == 5 && Sine(16) == 0xf61e2562
    ensures Index(17) == 6 && Turn(17) == 9 && Sine(17) == 0xc040b340
    ensures Index(18) == 11 && Turn(18) == 14 && Sine(18) == 0x265e5a51
    ensures Index(19) == 0 && Turn(19) == 20 && Sine(19) == 0xe9b6c7aa
    ensures Index(20) == 5 && Turn(20) == 5 && Sine(20) == 0xd62f105d
    ensures Index(21) == 10 && Turn(21) == 9 && Sine(21) == 0x02441453
    ensures Index(22) == 15 && Turn(22) == 14 && Sine(22) == 0xd8a1e681
    ensures Index(23) == 4 && Turn(23) == 20 && Sine(23) == 0xe7d3fbc8
    ensures Index(24) == 9 && Turn(24) == 5 && Sine(24) == 0x21e1cde6
    ensures Index(25) == 14 && Turn(25) == 9 && Sine(25) == 0xc33707d6
    ensures Index(26) == 3 && Turn(26) == 14 && Sine(26) == 0xf4d50d87
    ensures Index(27) == 8 && Turn(27) == 20 && Sine(27) == 0x455a14ed
    ensures Index(28) == 13 && Turn(28) == 5 && Sine(28) == 0xa9e3e905
    ensures Index(29) == 2 && Turn(29) == 9 && Sine(29) == 0xfcefa3f8
    ensures Index(30) == 7 && Turn(30) == 14 && Sine(30) == 0x676f02d9
    ensures Index(31) == 12 && Turn(31) == 20 && Sine(31) == 0x8d2a4c8a
  {
  }

  /** The numbers of operations 32 to 47. */
  lemma Lines32()
    ensures Index(32) == 5 && Turn(32) == 4 && Sine(32) == 0xfffa3942
    ensures Index(33) == 8 && Turn(33) == 11 && Sine(33) == 0x8771f681
    ensures Index(34) == 11 && Turn(34) == 16 && Sine(34) == 0x6d9d6122
    ensures Index(35) == 14 && Turn(35) == 23 && Sine(35) == 0xfde5380c
    ensures Index(36) == 1 && Turn(36) == 4 && Sine(36) == 0xa4beea44
    ensures Index(37) == 4 && Turn(37) == 11 && Sine(37) == 0x4bdecfa9
    ensures Index(38) == 7 && Turn(38) == 16 && Sine(38) == 0xf6bb4b60
    ensures Index(39) == 10 && Turn(39) == 23 && Sine(39) == 0xbebfbc70
    ensures Index(40) == 13 && Turn(40) == 4 && Sine(40) == 0x289b7ec6
    ensures Index(41) == 0 && Turn(41) == 11 && Sine(41) == 0xeaa127fa
    ensures Index(42) == 3 && Turn(42) == 16 && Sine(42) == 0xd4ef3085
    ensures Index(43) == 6 && Turn(43) == 23 && Sine(43) == 0x04881d05
    ensures Index(44) == 9 && Turn(44) == 4 && Sine(44) == 0xd9d4d039
    ensures Index(45) == 12 && Turn(45) == 11 && Sine(45) == 0xe6db99e5
    ensures Index(46) == 15 && Turn(46) == 16 && Sine(46) == 0x1fa27cf8
    ensures Index(47) == 2 && Turn(47) == 23 && Sine(47) == 0xc4ac5665
  {
  }

  /** The numbers of operations 48 to 63. */
  lemma Lines48()
    ensures Index(48) == 0 && Turn(48) == 6 && Sine(48) == 0xf4292244
    ensures Index(49) == 7 && Turn(49) == 10 && Sine(49) == 0x432aff97
    ensures Index(50) == 14 && Turn(50) == 15 && Sine(50) == 0xab9423a7
    ensures Index(51) == 5 && Turn(51) == 21 && Sine(51) == 0xfc93a039
    ensures Index(52) == 12 && Turn(52) == 6 && Sine(52) == 0x655b59c3
    ensures Index(53) == 3 && Turn(53) == 10 && Sine(53) == 0x8f0ccc92
    ensures Index(54) == 10 && Turn(54) == 15 && Sine(54) == 0xffeff47d
    ensures Index(55) == 1 && Turn(55) == 21 && Sine(55) == 0x85845dd1
    ensures Index(56) == 8 && Turn(56) == 6 && Sine(56) == 0x6fa87e4f
    ensures Index(57) == 15 && Turn(57) == 10 && Sine(57) == 0xfe2ce6e0
    ensures Index(58) == 6 && Turn(58) == 15 && Sine(58) == 0xa3014314
    ensures Index(59) == 13 && Turn(59) == 21 && Sine(59) == 0x4e0811a1
    ensures Index(60) == 4 && Turn(60) == 6 && Sine(60) == 0xf7537e82
    ensures Index(61) == 11 && Turn(61) == 10 && Sine(61) == 0xbd3af235
    ensures Index(62) == 2 && Turn(62) == 15 && Sine(62) == 0x2ad7d2bb
    ensures Index(63) == 9 && Turn(63) == 21 && Sine(63) == 0xeb86d391
  {
  }

  // ---------------------------------------------------------------------
  // MD5Transform
  // ---------------------------------------------------------------------

  /** Four operations, after which the words are in their places again. */
  lemma FourSteps(i: nat, r: Regs, x: seq<bv32>)
    requires i + 4 <= 64 && |x| == 16
    ensures var q := Ops(i, r, x);
            var a := Step(Mixed(i, q.b, q.c, q.d), q.a, q.b, Add(x[Index(i)], Sine(i)), Turn(i));
            var d := Step(Mixed(i + 1, a, q.b, q.c), q.d, a, Add(x[Index(i + 1)], Sine(i + 1)), Turn(i + 1));
            var c := Step(Mixed(i + 2, d, a, q.b), q.c, d, Add(x[Index(i + 2)], Sine(i + 2)), Turn(i + 2));
            var b := Step(Mixed(i + 3, c, d, a), q.b, c, Add(x[Index(i + 3)], Sine(i + 3)), Turn(i + 3));
            Ops(i + 4, r, x) == Regs(a, b, c, d)
  {
    hide Op, Step, Mixed, Add, Sine, Index, Turn;
    var q := Ops(i, r, x);
    var q1 := Op(i, q, x);
    var q2 := Op(i + 1, q1, x);
    var q3 := Op(i + 2, q2, x);
    var q4 := Op(i + 3, q3, x);
    assert Ops(i + 1, r, x) == q1;
    assert Ops(i + 2, r, x) == q2;
    assert Ops(i + 3, r, x) == q3;
    assert Ops(i + 4, r, x) == q4;
    StepIs(i, q, x);
    StepIs(i + 1, q1, x);
    StepIs(i + 2, q2, x);
    StepIs(i + 3, q3, x);
  }

  /** First round. */
  method FirstRound(r: Regs, x: seq<bv32>, ghost start: Regs) returns (e: Regs)
    requires |x| == 16 && r == Ops(0, start, x)
    ensures e == Ops(16, start, x)
  {
    hide Ops, Step, F1, F2, F3, F4, Add, Sine, Index, Turn;
    var a, b, c, d := r.a, r.b, r.c, r.d;
    Lines0();
    FourSteps(0, start, x);
    a := Step(F1(b, c, d), a, b, Add(x[0], 0xd76aa478), 7);
    d := Step(F1(a, b, c), d, a, Add(x[1], 0xe8c7b756), 12);
    c := Step(F1(d, a, b), c, d, Add(x[2], 0x242070db), 17);
    b := Step(F1(c, d, a), b, c, Add(x[3], 0xc1bdceee), 22);
    FourSteps(4, start, x);
    a := Step(F1(b, c, d), a, b, Add(x[4], 0xf57c0faf), 7);
    d := Step(F1(a, b, c), d, a, Add(x[5], 0x4787c62a), 12);
    c := Step(F1(d, a, b), c, d, Add(x[6], 0xa8304613), 17);
    b := Step(F1(c, d, a), b, c, Add(x[7], 0xfd469501), 22);
    FourSteps(8, start, x);
    a := Step(F1(b, c, d), a, b, Add(x[8], 0x698098d8), 7);
    d := Step(F1(a, b, c), d, a, Add(x[9], 0x8b44f7af), 12);
    c := Step(F1(d, a, b), c, d, Add(x[10], 0xffff5bb1), 17);
    b := Step(F1(c, d, a), b, c, Add(x[11], 0x895cd7be), 22);
    FourSteps(12, start, x);
    a := Step(F1(b, c, d), a, b, Add(x[12], 0x6b901122), 7);
    d := Step(F1(a, b, c), d, a, Add(x[13], 0xfd987193), 12);
    c := Step(F1(d, a, b), c, d, Add(x[14], 0xa679438e), 17);
    b := Step(F1(c, d, a), b, c, Add(x[15], 0x49b40821), 22);
    return Regs(a, b, c, d);
  }

  /** Second round. */
  method SecondRound(r: Regs, x: seq<bv32>, ghost start: Regs) returns (e: Regs)
    requires |x| == 16 && r == Ops(16, start, x)
    ensures e == Ops(32, start, x)
  {
    hide Ops, Step, F1, F2, F3, F4, Add, Sine, Index, Turn;
    var a, b, c, d := r.a, r.b, r.c, r.d;
    Lines16();
    FourSteps(16, start, x);
    a := Step(F2(b, c, d), a, b, Add(x[1], 0xf61e2562), 5);
    d := Step(F2(a, b, c), d, a, Add(x[6], 0xc040b340), 9);
    c := Step(F2(d, a, b), c, d, Add(x[11], 0x265e5a51), 14);
    b := Step(F2(c, d, a), b, c, Add(x[0], 0xe9b6c7aa), 20);
    FourSteps(20, start, x);
    a := Step(F2(b, c, d), a, b, Add(x[5], 0xd62f105d), 5);
    d := Step(F2(a, b, c), d, a, Add(x[10], 0x02441453), 9);
    c := Step(F2(d, a, b), c, d, Add(x[15], 0xd8a1e681), 14);
    b := Step(F2(c, d, a), b, c, Add(x[4], 0xe7d3fbc8), 20);
    FourSteps(24, start, x);
    a := Step(F2(b, c, d), a, b, Add(x[9], 0x21e1cde6), 5);
    d := Step(F2(a, b, c), d, a, Add(x[14], 0xc33707d6), 9);
    c := Step(F2(d, a, b), c, d, Add(x[3], 0xf4d50d87), 14);
    b := Step(F2(c, d, a), b, c, Add(x[8], 0x455a14ed), 20);
    FourSteps(28, start, x);
    a := Step(F2(b, c, d), a, b, Add(x[13], 0xa9e3e905), 5);
    d := Step(F2(a, b, c), d, a, Add(x[2], 0xfcefa3f8), 9);
    c := Step(F2(d, a, b), c, d, Add(x[7], 0x676f02d9), 14);
    b := Step(F2(c, d, a), b, c, Add(x[12], 0x8d2a4c8a), 20);
    return Regs(a, b, c, d);
  }

  /** Third round. */
  method ThirdRound(r: Regs, x: seq<bv32>, ghost start: Regs) returns (e: Regs)
    requires |x| == 16 && r == Ops(32, start, x)
    ensures e == Ops(48, start, x)
  {
    hide Ops, Step, F1, F2, F3, F4, Add, Sine, Index, Turn;
    var a, b, c, d := r.a, r.b, r.c, r.d;
    Lines32();
    FourSteps(32, start, x);
    a := Step(F3(b, c, d), a, b, Add(x[5], 0xfffa3942), 4);
    d := Step(F3(a, b, c), d, a, Add(x[8], 0x8771f681), 11);
    c := Step(F3(d, a, b), c, d, Add(x[11], 0x6d9d6122), 16);
    b := Step(F3(c, d, a), b, c, Add(x[14], 0xfde5380c), 23);
    FourSteps(36, start, x);
    a := Step(F3(b, c, d), a, b, Add(x[1], 0xa4beea44), 4);
    d := Step(F3(a, b, c), d, a, Add(x[4], 0x4bdecfa9), 11);
    c := Step(F3(d, a, b), c, d, Add(x[7], 0xf6bb4b60), 16);
    b := Step(F3(c, d, a), b, c, Add(x[10], 0xbebfbc70), 23);
    FourSteps(40, start, x);
    a := Step(F3(b, c, d), a, b, Add(x[13], 0x289b7ec6), 4);
    d := Step(F3(a, b, c), d, a, Add(x[0], 0xeaa127fa), 11);
    c := Step(F3(d, a, b), c, d, Add(x[3], 0xd4ef3085), 16);
    b := Step(F3(c, d, a), b, c, Add(x[6], 0x04881d05), 23);
    FourSteps(44, start, x);
    a := Step(F3(b, c, d), a, b, Add(x[9], 0xd9d4d039), 4);
    d := Step(F3(a, b, c), d, a, Add(x[12], 0xe6db99e5), 11);
    c := Step(F3(d, a, b), c, d, Add(x[15], 0x1fa27cf8), 16);
    b := Step(F3(c, d, a), b, c, Add(x[2], 0xc4ac5665), 23);
    return Regs(a, b, c, d);
  }

  /** Fourth round. */
  method FourthRound(r: Regs, x: seq<bv32>, ghost start: Regs) returns (e: Regs)
    requires |x| == 16 && r == Ops(48, start, x)
    ensures e == Ops(64, start, x)
  {
    hide Ops, Step, F1, F2, F3, F4, Add, Sine, Index, Turn;
    var a, b, c, d := r.a, r.b, r.c, r.d;
    Lines48();
    FourSteps(48, start, x);
    a := Step(F4(b, c, d), a, b, Add(x[0], 0xf4292244), 6);
    d := Step(F4(a, b, c), d, a, Add(x[7], 0x432aff97), 10);
    c := Step(F4(d, a, b), c, d, Add(x[14], 0xab9423a7), 15);
    b := Step(F4(c, d, a), b, c, Add(x[5], 0xfc93a039), 21);
    FourSteps(52, start, x);
    a := Step(F4(b, c, d), a, b, Add(x[12], 0x655b59c3), 6);
    d := Step(F4(a, b, c), d, a, Add(x[3], 0x8f0ccc92), 10);
    c := Step(F4(d, a, b), c, d, Add(x[10], 0xffeff47d), 15);
    b := Step(F4(c, d, a), b, c, Add(x[1], 0x85845dd1), 21);
    FourSteps(56, start, x);
    a := Step(F4(b, c, d), a, b, Add(x[8], 0x6fa87e4f), 6);
    d := Step(F4(a, b, c), d, a, Add(x[15], 0xfe2ce6e0), 10);
    c := Step(F4(d, a, b), c, d, Add(x[6], 0xa3014314), 15);
    b := Step(F4(c, d, a), b, c, Add(x[13], 0x4e0811a1), 21);
    FourSteps(60, start, x);
    a := Step(F4(b, c, d), a, b, Add(x[4], 0xf7537e82), 6);
    d := Step(F4(a, b, c), d, a, Add(x[11], 0xbd3af235), 10);
    c := Step(F4(d, a, b), c, d, Add(x[2], 0x2ad7d2bb), 15);
    b := Step(F4(c, d, a), b, c, Add(x[9], 0xeb86d391), 21);
    return Regs(a, b, c, d);
  }

  /** MD5Transform, whose first argument is updated in place. */
  method Transform(buf: array<bv32>, x: seq<bv32>)
    requires buf.Length == 4 && |x| == 16
    modifies buf
    ensures var r := Compress(old(Regs(buf[0], buf[1], buf[2], buf[3])), x); buf[..] == [r.a, r.b, r.c, r.d]
  {
    hide Ops, Add;
    var r := Regs(buf[0], buf[1], buf[2], buf[3]);
    NoOps(r, x);
    var e := FirstRound(r, x, r);
    e := SecondRound(e, x, r);
    e := ThirdRound(e, x, r);
    e := FourthRound(e, x, r);
    buf[0] := Add(buf[0], e.a);
    buf[1] := Add(buf[1], e.b);
    buf[2] := Add(buf[2], e.c);
    buf[3] := Add(buf[3], e.d);
  }

  lemma NoOps(r: Regs, x: seq<bv32>)
    requires |x| == 16
    ensures Ops(0, r, x) == r
  {
  }

  // ---------------------------------------------------------------------
  // The digest of the empty string, from section A.5 of RFC 1321
  // ---------------------------------------------------------------------

  /** Half an octet as bits, and back. */
  function HalfBits(v: nat): bv32
    requires v < 16
  {
    [0, 1, 2, 3, 4, 5, 6, 7, 8, 9, 10, 11, 12, 13, 14, 15][v]
  }

  function HalfValue(x: bv32): (v: nat)
    ensures v < 16
  {
    match x & 15
    case 0 => 0 case 1 => 1 case 2 => 2 case 3 => 3 case 4 => 4 case 5 => 5 case 6 => 6 case 7 => 7
    case 8 => 8 case 9 => 9 case 10 => 10 case 11 => 11 case 12 => 12 case 13 => 13 case 14 => 14 case _ => 15
  }

  function OctetBits(b: byte): bv32 { (HalfBits(b / 16) << 4) | HalfBits(b % 16) }

  function OctetValue(x: bv32): byte { HalfValue(x >> 4) * 16 + HalfValue(x) }

  /** A word from its octets, the lowest first. */
  function WordBits(a: byte, b: byte, c: byte, d: byte): bv32 {
    OctetBits(a) | (OctetBits(b) << 8) | (OctetBits(c) << 16) | (OctetBits(d) << 24)
  }

  function Bits(w: word): bv32 {
    var r := Little(w);
    WordBits(r[0], r[1], r[2], r[3])
  }

  function WordValue(x: bv32): word {
    var a: int, b: int, c: int, d: int := OctetValue(x), OctetValue(x >> 8), OctetValue(x >> 16), OctetValue(x >> 24);
    a + b * 0x100 + c * 0x1_0000 + d * 0x100_0000
  }

  function ToRegs(w: Words): Regs {
    Regs(Bits(w.a), Bits(w.b), Bits(w.c), Bits(w.d))
  }

  function ToWords(r: Regs): Words {
    Words(WordValue(r.a), WordValue(r.b), WordValue(r.c), WordValue(r.d))
  }

  /** The words of a block. */
  function WordsOf(block: bytes): (x: seq<bv32>)
    requires |block| == 64
    ensures |x| == 16
  {
    seq(16, k requires 0 <= k < 16 => WordBits(block[4 * k], block[4 * k + 1], block[4 * k + 2], block[4 * k + 3]))
  }

  /** What MD5Transform computes, over the words of the context and the octets of a block. */
  function Transformed(w: Words, block: bytes): Words {
    if |block| != 64 then w else ToWords(Compress(ToRegs(w), WordsOf(block)))
  }

  /** The padding of the empty string: a one bit, and zeros. */
  const EMPTY: seq<bv32> := [0x80, 0, 0, 0, 0, 0, 0, 0, 0, 0, 0, 0, 0, 0, 0, 0]

  lemma OpOn(i: nat, r: Regs, word: bv32, sine: bv32, turn: bv6)
    requires i < 64 && EMPTY[Index(i)] == word && Sine(i) == sine && Turn(i) == turn
    ensures Op(i, r, EMPTY) ==
              Regs(r.d, Add(Rotate(Add(r.a, Add(Mix(i, r.b, r.c, r.d), Add(word, sine))), turn), r.b), r.b, r.c)
  {
    hide Add, Mix, Rotate, Sine, Index, Turn;
  }

  lemma EmptyOps0()
    ensures Op(0, Regs(0x67452301, 0xefcdab89, 0x98badcfe, 0x10325476), EMPTY) == Regs(0x10325476, 0xa5202774, 0xefcdab89, 0x98badcfe)
    ensures Op(1, Regs(0x10325476, 0xa5202774, 0xefcdab89, 0x98badcfe), EMPTY) == Regs(0x98badcfe, 0xf59592dd, 0xa5202774, 0xefcdab89)
    ensures Op(2, Regs(0x98badcfe, 0xf59592dd, 0xa5202774, 0xefcdab89), EMPTY) == Regs(0xefcdab89, 0xe7f06b23, 0xf59592dd, 0xa5202774)
    ensures Op(3, Regs(0xefcdab89, 0xe7f06b23, 0xf59592dd, 0xa5202774), EMPTY) == Regs(0xa5202774, 0x1b163203, 0xe7f06b23, 0xf59592dd)
  {
    Lines0();
    hide Sine, Index, Turn, Op;
    OpOn(0, Regs(0x67452301, 0xefcdab89, 0x98badcfe, 0x10325476), 0x80, 0xd76aa478, 7);
    OpOn(1, Regs(0x10325476, 0xa5202774, 0xefcdab89, 0x98badcfe), 0x0, 0xe8c7b756, 12);
    OpOn(2, Regs(0x98badcfe, 0xf59592dd, 0xa5202774, 0xefcdab89), 0x0, 0x242070db, 17);
    OpOn(3, Regs(0xefcdab89, 0xe7f06b23, 0xf59592dd, 0xa5202774), 0x0, 0xc1bdceee, 22);
  }

  lemma EmptyOps4()
    ensures Op(4, Regs(0xa5202774, 0x1b163203, 0xe7f06b23, 0xf59592dd), EMPTY) == Regs(0xf59592dd, 0x32033344, 0x1b163203, 0xe7f06b23)
    ensures Op(5, Regs(0xf59592dd, 0x32033344, 0x1b163203, 0xe7f06b23), EMPTY) == Regs(0xe7f06b23, 0x2f35d494, 0x32033344, 0x1b163203)
    ensures Op(6, Regs(0xe7f06b23, 0x2f35d494, 0x32033344, 0x1b163203), EMPTY) == Regs(0x1b163203, 0xf5b158db, 0x2f35d494, 0x32033344)
    ensures Op(7, Regs(0x1b163203, 0xf5b158db, 0x2f35d494, 0x32033344), EMPTY) == Regs(0x32033344, 0x9bc13ce9, 0xf5b158db, 0x2f35d494)
  {
    Lines0();
    hide Sine, Index, Turn, Op;
    OpOn(4, Regs(0xa5202774, 0x1b163203, 0xe7f06b23, 0xf59592dd), 0x0, 0xf57c0faf, 7);
    OpOn(5, Regs(0xf59592dd, 0x32033344, 0x1b163203, 0xe7f06b23), 0x0, 0x4787c62a, 12);
    OpOn(6, Regs(0xe7f06b23, 0x2f35d494, 0x32033344, 0x1b163203), 0x0, 0xa8304613, 17);
    OpOn(7, Regs(0x1b163203, 0xf5b158db, 0x2f35d494, 0x32033344), 0x0, 0xfd469501, 22);
  }

  lemma EmptyOps8()
    ensures Op(8, Regs(0x32033344, 0x9bc13ce9, 0xf5b158db, 0x2f35d494), EMPTY) == Regs(0x2f35d494, 0x3893b991, 0x9bc13ce9, 0xf5b158db)
    ensures Op(9, Regs(0x2f35d494, 0x3893b991, 0x9bc13ce9, 0xf5b158db), EMPTY) == Regs(0xf5b158db, 0xfce4a312, 0x3893b991, 0x9bc13ce9)
    ensures Op(10, Regs(0xf5b158db, 0xfce4a312, 0x3893b991, 0x9bc13ce9), EMPTY) == Regs(0x9bc13ce9, 0xe1ef0576, 0xfce4a312, 0x3893b991)
    ensures Op(11, Regs(0x9bc13ce9, 0xe1ef0576, 0xfce4a312, 0x3893b991), EMPTY) == Regs(0x3893b991, 0x70768a29, 0xe1ef0576, 0xfce4a312)
  {
    Lines0();
    hide Sine, Index, Turn, Op;
    OpOn(8, Regs(0x32033344, 0x9bc13ce9, 0xf5b158db, 0x2f35d494), 0x0, 0x698098d8, 7);
    OpOn(9, Regs(0x2f35d494, 0x3893b991, 0x9bc13ce9, 0xf5b158db), 0x0, 0x8b44f7af, 12);
    OpOn(10, Regs(0xf5b158db, 0xfce4a312, 0x3893b991, 0x9bc13ce9), 0x0, 0xffff5bb1, 17);
    OpOn(11, Regs(0x9bc13ce9, 0xe1ef0576, 0xfce4a312, 0x3893b991), 0x0, 0x895cd7be, 22);
  }

  lemma EmptyOps12()
    ensures Op(12, Regs(0x3893b991, 0x70768a29, 0xe1ef0576, 0xfce4a312), EMPTY) == Regs(0xfce4a312, 0xf56c7cf1, 0x70768a29, 0xe1ef0576)
    ensures Op(13, Regs(0xfce4a312, 0xf56c7cf1, 0x70768a29, 0xe1ef0576), EMPTY) == Regs(0xe1ef0576, 0x374943a7, 0xf56c7cf1, 0x70768a29)
    ensures Op(14, Regs(0xe1ef0576, 0x374943a7, 0xf56c7cf1, 0x70768a29), EMPTY) == Regs(0x70768a29, 0x5aa53f75, 0x374943a7, 0xf56c7cf1)
    ensures Op(15, Regs(0x70768a29, 0x5aa53f75, 0x374943a7, 0xf56c7cf1), EMPTY) == Regs(0xf56c7cf1, 0xd6819c6a, 0x5aa53f75, 0x374943a7)
  {
    Lines0();
    hide Sine, Index, Turn, Op;
    OpOn(12, Regs(0x3893b991, 0x70768a29, 0xe1ef0576, 0xfce4a312), 0x0, 0x6b901122, 7);
    OpOn(13, Regs(0xfce4a312, 0xf56c7cf1, 0x70768a29, 0xe1ef0576), 0x0, 0xfd987193, 12);
    OpOn(14, Regs(0xe1ef0576, 0x374943a7, 0xf56c7cf1, 0x70768a29), 0x0, 0xa679438e, 17);
    OpOn(15, Regs(0x70768a29, 0x5aa53f75, 0x374943a7, 0xf56c7cf1), 0x0, 0x49b40821, 22);
  }

  lemma EmptyOps16()
    ensures Op(16, Regs(0xf56c7cf1, 0xd6819c6a, 0x5aa53f75, 0x374943a7), EMPTY) == Regs(0x374943a7, 0x1c7d7513, 0xd6819c6a, 0x5aa53f75)
    ensures Op(17, Regs(0x374943a7, 0x1c7d7513, 0xd6819c6a, 0x5aa53f75), EMPTY) == Regs(0x5aa53f75, 0x7bd57a3a, 0x1c7d7513, 0xd6819c6a)
    ensures Op(18, Regs(0x5aa53f75, 0x7bd57a3a, 0x1c7d7513, 0xd6819c6a), EMPTY) == Regs(0xd6819c6a, 0xc095f13a, 0x7bd57a3a, 0x1c7d7513)
    ensures Op(19, Regs(0xd6819c6a, 0xc095f13a, 0x7bd57a3a, 0x1c7d7513), EMPTY) == Regs(0x1c7d7513, 0xbd782e17, 0xc095f13a, 0x7bd57a3a)
  {
    Lines16();
    hide Sine, Index, Turn, Op;
    OpOn(16, Regs(0xf56c7cf1, 0xd6819c6a, 0x5aa53f75, 0x374943a7), 0x0, 0xf61e2562, 5);
    OpOn(17, Regs(0x374943a7, 0x1c7d7513, 0xd6819c6a, 0x5aa53f75), 0x0, 0xc040b340, 9);
    OpOn(18, Regs(0x5aa53f75, 0x7bd57a3a, 0x1c7d7513, 0xd6819c6a), 0x0, 0x265e5a51, 14);
    OpOn(19, Regs(0xd6819c6a, 0xc095f13a, 0x7bd57a3a, 0x1c7d7513), 0x80, 0xe9b6c7aa, 20);
  }

  lemma EmptyOps20()
    ensures Op(20, Regs(0x1c7d7513, 0xbd782e17, 0xc095f13a, 0x7bd57a3a), EMPTY) == Regs(0x7bd57a3a, 0x3d1e3e6c, 0xbd782e17, 0xc095f13a)
    ensures Op(21, Regs(0x7bd57a3a, 0x3d1e3e6c, 0xbd782e17, 0xc095f13a), EMPTY) == Regs(0xc095f13a, 0x68b7b3e3, 0x3d1e3e6c, 0xbd782e17)
    ensures Op(22, Regs(0xc095f13a, 0x68b7b3e3, 0x3d1e3e6c, 0xbd782e17), EMPTY) == Regs(0xbd782e17, 0xeb41643e, 0x68b7b3e3, 0x3d1e3e6c)
    ensures Op(23, Regs(0xbd782e17, 0xeb41643e, 0x68b7b3e3, 0x3d1e3e6c), EMPTY) == Regs(0x3d1e3e6c, 0xe422531a, 0xeb41643e, 0x68b7b3e3)
  {
    Lines16();
    hide Sine, Index, Turn, Op;
    OpOn(20, Regs(0x1c7d7513, 0xbd782e17, 0xc095f13a, 0x7bd57a3a), 0x0, 0xd62f105d, 5);
    OpOn(21, Regs(0x7bd57a3a, 0x3d1e3e6c, 0xbd782e17, 0xc095f13a), 0x0, 0x02441453, 9);
    OpOn(22, Regs(0xc095f13a, 0x68b7b3e3, 0x3d1e3e6c, 0xbd782e17), 0x0, 0xd8a1e681, 14);
    OpOn(23, Regs(0xbd782e17, 0xeb41643e, 0x68b7b3e3, 0x3d1e3e6c), 0x0, 0xe7d3fbc8, 20);
  }

  lemma EmptyOps24()
    ensures Op(24, Regs(0x3d1e3e6c, 0xe422531a, 0xeb41643e, 0x68b7b3e3), EMPTY) == Regs(0x68b7b3e3, 0x306ec122, 0xe422531a, 0xeb41643e)
    ensures Op(25, Regs(0x68b7b3e3, 0x306ec122, 0xe422531a, 0xeb41643e), EMPTY) == Regs(0xeb41643e, 0xd28c77c2, 0x306ec122, 0xe422531a)
    ensures Op(26, Regs(0xeb41643e, 0xd28c77c2, 0x306ec122, 0xe422531a), EMPTY) == Regs(0xe422531a, 0xa3c663da, 0xd28c77c2, 0x306ec122)
    ensures Op(27, Regs(0xe422531a, 0xa3c663da, 0xd28c77c2, 0x306ec122), EMPTY) == Regs(0x306ec122, 0xa0572807, 0xa3c663da, 0xd28c77c2)
  {
    Lines16();
    hide Sine, Index, Turn, Op;
    OpOn(24, Regs(0x3d1e3e6c, 0xe422531a, 0xeb41643e, 0x68b7b3e3), 0x0, 0x21e1cde6, 5);
    OpOn(25, Regs(0x68b7b3e3, 0x306ec122, 0xe422531a, 0xeb41643e), 0x0, 0xc33707d6, 9);
    OpOn(26, Regs(0xeb41643e, 0xd28c77c2, 0x306ec122, 0xe422531a), 0x0, 0xf4d50d87, 14);
    OpOn(27, Regs(0xe422531a, 0xa3c663da, 0xd28c77c2, 0x306ec122), 0x0, 0x455a14ed, 20);
  }

  lemma EmptyOps28()
    ensures Op(28, Regs(0x306ec122, 0xa0572807, 0xa3c663da, 0xd28c77c2), EMPTY) == Regs(0xd28c77c2, 0x13707036, 0xa0572807, 0xa3c663da)
    ensures Op(29, Regs(0xd28c77c2, 0x13707036, 0xa0572807, 0xa3c663da), EMPTY) == Regs(0xa3c663da, 0xae7813db, 0x13707036, 0xa0572807)
    ensures Op(30, Regs(0xa3c663da, 0xae7813db, 0x13707036, 0xa0572807), EMPTY) == Regs(0xa0572807, 0x1c31c384, 0xae7813db, 0x13707036)
    ensures Op(31, Regs(0xa0572807, 0x1c31c384, 0xae7813db, 0x13707036), EMPTY) == Regs(0x13707036, 0xa2205f1f, 0x1c31c384, 0xae7813db)
  {
    Lines16();
    hide Sine, Index, Turn, Op;
    OpOn(28, Regs(0x306ec122, 0xa0572807, 0xa3c663da, 0xd28c77c2), 0x0, 0xa9e3e905, 5);
    OpOn(29, Regs(0xd28c77c2, 0x13707036, 0xa0572807, 0xa3c663da), 0x0, 0xfcefa3f8, 9);
    OpOn(30, Regs(0xa3c663da, 0xae7813db, 0x13707036, 0xa0572807), 0x0, 0x676f02d9, 14);
    OpOn(31, Regs(0xa0572807, 0x1c31c384, 0xae7813db, 0x13707036), 0x0, 0x8d2a4c8a, 20);
  }

  lemma EmptyOps32()
    ensures Op(32, Regs(0x13707036, 0xa2205f1f, 0x1c31c384, 0xae7813db), EMPTY) == Regs(0xae7813db, 0xdf63eaa1, 0xa2205f1f, 0x1c31c384)
    ensures Op(33, Regs(0xae7813db, 0xdf63eaa1, 0xa2205f1f, 0x1c31c384), EMPTY) == Regs(0x1c31c384, 0xc3689f5b, 0xdf63eaa1, 0xa2205f1f)
    ensures Op(34, Regs(0x1c31c384, 0xc3689f5b, 0xdf63eaa1, 0xa2205f1f), EMPTY) == Regs(0xa2205f1f, 0x12f3e755, 0xc3689f5b, 0xdf63eaa1)
    ensures Op(35, Regs(0xa2205f1f, 0x12f3e755, 0xc3689f5b, 0xdf63eaa1), EMPTY) == Regs(0xdf63eaa1, 0x004b6669, 0x12f3e755, 0xc3689f5b)
  {
    Lines32();
    hide Sine, Index, Turn, Op;
    OpOn(32, Regs(0x13707036, 0xa2205f1f, 0x1c31c384, 0xae7813db), 0x0, 0xfffa3942, 4);
    OpOn(33, Regs(0xae7813db, 0xdf63eaa1, 0xa2205f1f, 0x1c31c384), 0x0, 0x8771f681, 11);
    OpOn(34, Regs(0x1c31c384, 0xc3689f5b, 0xdf63eaa1, 0xa2205f1f), 0x0, 0x6d9d6122, 16);
    OpOn(35, Regs(0xa2205f1f, 0x12f3e755, 0xc3689f5b, 0xdf63eaa1), 0x0, 0xfde5380c, 23);
  }

  lemma EmptyOps36()
    ensures Op(36, Regs(0xdf63eaa1, 0x004b6669, 0x12f3e755, 0xc3689f5b), EMPTY) == Regs(0xc3689f5b, 0x5f7a9b2e, 0x004b6669, 0x12f3e755)
    ensures Op(37, Regs(0xc3689f5b, 0x5f7a9b2e, 0x004b6669, 0x12f3e755), EMPTY) == Regs(0x12f3e755, 0xabc34e16, 0x5f7a9b2e, 0x004b6669)
    ensures Op(38, Regs(0x12f3e755, 0xabc34e16, 0x5f7a9b2e, 0x004b6669), EMPTY) == Regs(0x004b6669, 0x91ca4cb7, 0xabc34e16, 0x5f7a9b2e)
    ensures Op(39, Regs(0x004b6669, 0x91ca4cb7, 0xabc34e16, 0x5f7a9b2e), EMPTY) == Regs(0x5f7a9b2e, 0xc5dc8c15, 0x91ca4cb7, 0xabc34e16)
  {
    Lines32();
    hide Sine, Index, Turn, Op;
    OpOn(36, Regs(0xdf63eaa1, 0x004b6669, 0x12f3e755, 0xc3689f5b), 0x0, 0xa4beea44, 4);
    OpOn(37, Regs(0xc3689f5b, 0x5f7a9b2e, 0x004b6669, 0x12f3e755), 0x0, 0x4bdecfa9, 11);
    OpOn(38, Regs(0x12f3e755, 0xabc34e16, 0x5f7a9b2e, 0x004b6669), 0x0, 0xf6bb4b60, 16);
    OpOn(39, Regs(0x004b6669, 0x91ca4cb7, 0xabc34e16, 0x5f7a9b2e), 0x0, 0xbebfbc70, 23);
  }

  lemma EmptyOps40()
    ensures Op(40, Regs(0x5f7a9b2e, 0xc5dc8c15, 0x91ca4cb7, 0xabc34e16), EMPTY) == Regs(0xabc34e16, 0x4497169d, 0xc5dc8c15, 0x91ca4cb7)
    ensures Op(41, Regs(0xabc34e16, 0x4497169d, 0xc5dc8c15, 0x91ca4cb7), EMPTY) == Regs(0x91ca4cb7, 0x76fd93d4, 0x4497169d, 0xc5dc8c15)
    ensures Op(42, Regs(0x91ca4cb7, 0x76fd93d4, 0x4497169d, 0xc5dc8c15), EMPTY) == Regs(0xc5dc8c15, 0xfd95f243, 0x76fd93d4, 0x4497169d)
    ensures Op(43, Regs(0xc5dc8c15, 0xfd95f243, 0x76fd93d4, 0x4497169d), EMPTY) == Regs(0x4497169d, 0x0fe32453, 0xfd95f243, 0x76fd93d4)
  {
    Lines32();
    hide Sine, Index, Turn, Op;
    OpOn(40, Regs(0x5f7a9b2e, 0xc5dc8c15, 0x91ca4cb7, 0xabc34e16), 0x0, 0x289b7ec6, 4);
    OpOn(41, Regs(0xabc34e16, 0x4497169d, 0xc5dc8c15, 0x91ca4cb7), 0x80, 0xeaa127fa, 11);
    OpOn(42, Regs(0x91ca4cb7, 0x76fd93d4, 0x4497169d, 0xc5dc8c15), 0x0, 0xd4ef3085, 16);
    OpOn(43, Regs(0xc5dc8c15, 0xfd95f243, 0x76fd93d4, 0x4497169d), 0x0, 0x04881d05, 23);
  }

  lemma EmptyOps44()
    ensures Op(44, Regs(0x4497169d, 0x0fe32453, 0xfd95f243, 0x76fd93d4), EMPTY) == Regs(0x76fd93d4, 0x3f55edfd, 0x0fe32453, 0xfd95f243)
    ensures Op(45, Regs(0x76fd93d4, 0x3f55edfd, 0x0fe32453, 0xfd95f243), EMPTY) == Regs(0xfd95f243, 0x22a31f54, 0x3f55edfd, 0x0fe32453)
    ensures Op(46, Regs(0xfd95f243, 0x22a31f54, 0x3f55edfd, 0x0fe32453), EMPTY) == Regs(0x0fe32453, 0x68d84ea2, 0x22a31f54, 0x3f55edfd)
    ensures Op(47, Regs(0x0fe32453, 0x68d84ea2, 0x22a31f54, 0x3f55edfd), EMPTY) == Regs(0x3f55edfd, 0xca7d2dbd, 0x68d84ea2, 0x22a31f54)
  {
    Lines32();
    hide Sine, Index, Turn, Op;
    OpOn(44, Regs(0x4497169d, 0x0fe32453, 0xfd95f243, 0x76fd93d4), 0x0, 0xd9d4d039, 4);
    OpOn(45, Regs(0x76fd93d4, 0x3f55edfd, 0x0fe32453, 0xfd95f243), 0x0, 0xe6db99e5, 11);
    OpOn(46, Regs(0xfd95f243, 0x22a31f54, 0x3f55edfd, 0x0fe32453), 0x0, 0x1fa27cf8, 16);
    OpOn(47, Regs(0x0fe32453, 0x68d84ea2, 0x22a31f54, 0x3f55edfd), 0x0, 0xc4ac5665, 23);
  }

  lemma EmptyOps48()
    ensures Op(48, Regs(0x3f55edfd, 0xca7d2dbd, 0x68d84ea2, 0x22a31f54), EMPTY) == Regs(0x22a31f54, 0x93aa2577, 0xca7d2dbd, 0x68d84ea2)
    ensures Op(49, Regs(0x22a31f54, 0x93aa2577, 0xca7d2dbd, 0x68d84ea2), EMPTY) == Regs(0x68d84ea2, 0x1688dc85, 0x93aa2577, 0xca7d2dbd)
    ensures Op(50, Regs(0x68d84ea2, 0x1688dc85, 0x93aa2577, 0xca7d2dbd), EMPTY) == Regs(0xca7d2dbd, 0xcd85b8cb, 0x1688dc85, 0x93aa2577)
    ensures Op(51, Regs(0xca7d2dbd, 0xcd85b8cb, 0x1688dc85, 0x93aa2577), EMPTY) == Regs(0x93aa2577, 0x561e0689, 0xcd85b8cb, 0x1688dc85)
  {
    Lines48();
    hide Sine, Index, Turn, Op;
    OpOn(48, Regs(0x3f55edfd, 0xca7d2dbd, 0x68d84ea2, 0x22a31f54), 0x80, 0xf4292244, 6);
    OpOn(49, Regs(0x22a31f54, 0x93aa2577, 0xca7d2dbd, 0x68d84ea2), 0x0, 0x432aff97, 10);
    OpOn(50, Regs(0x68d84ea2, 0x1688dc85, 0x93aa2577, 0xca7d2dbd), 0x0, 0xab9423a7, 15);
    OpOn(51, Regs(0xca7d2dbd, 0xcd85b8cb, 0x1688dc85, 0x93aa2577), 0x0, 0xfc93a039, 21);
  }

  lemma EmptyOps52()
    ensures Op(52, Regs(0x93aa2577, 0x561e0689, 0xcd85b8cb, 0x1688dc85), EMPTY) == Regs(0x1688dc85, 0x5625a114, 0x561e0689, 0xcd85b8cb)
    ensures Op(53, Regs(0x1688dc85, 0x5625a114, 0x561e0689, 0xcd85b8cb), EMPTY) == Regs(0xcd85b8cb, 0x3450f42b, 0x5625a114, 0x561e0689)
    ensures Op(54, Regs(0xcd85b8cb, 0x3450f42b, 0x5625a114, 0x561e0689), EMPTY) == Regs(0x561e0689, 0x392ad0d0, 0x3450f42b, 0x5625a114)
    ensures Op(55, Regs(0x561e0689, 0x392ad0d0, 0x3450f42b, 0x5625a114), EMPTY) == Regs(0x5625a114, 0x1e77fa61, 0x392ad0d0, 0x3450f42b)
  {
    Lines48();
    hide Sine, Index, Turn, Op;
    OpOn(52, Regs(0x93aa2577, 0x561e0689, 0xcd85b8cb, 0x1688dc85), 0x0, 0x655b59c3, 6);
    OpOn(53, Regs(0x1688dc85, 0x5625a114, 0x561e0689, 0xcd85b8cb), 0x0, 0x8f0ccc92, 10);
    OpOn(54, Regs(0xcd85b8cb, 0x3450f42b, 0x5625a114, 0x561e0689), 0x0, 0xffeff47d, 15);
    OpOn(55, Regs(0x561e0689, 0x392ad0d0, 0x3450f42b, 0x5625a114), 0x0, 0x85845dd1, 21);
  }

  lemma EmptyOps56()
    ensures Op(56, Regs(0x5625a114, 0x1e77fa61, 0x392ad0d0, 0x3450f42b), EMPTY) == Regs(0x3450f42b, 0x474a9c8c, 0x1e77fa61, 0x392ad0d0)
    ensures Op(57, Regs(0x3450f42b, 0x474a9c8c, 0x1e77fa61, 0x392ad0d0), EMPTY) == Regs(0x392ad0d0, 0xdfce00bc, 0x474a9c8c, 0x1e77fa61)
    ensures Op(58, Regs(0x392ad0d0, 0xdfce00bc, 0x474a9c8c, 0x1e77fa61), EMPTY) == Regs(0x1e77fa61, 0x36594b14, 0xdfce00bc, 0x474a9c8c)
    ensures Op(59, Regs(0x1e77fa61, 0x36594b14, 0xdfce00bc, 0x474a9c8c), EMPTY) == Regs(0x474a9c8c, 0x30130182, 0x36594b14, 0xdfce00bc)
  {
    Lines48();
    hide Sine, Index, Turn, Op;
    OpOn(56, Regs(0x5625a114, 0x1e77fa61, 0x392ad0d0, 0x3450f42b), 0x0, 0x6fa87e4f, 6);
    OpOn(57, Regs(0x3450f42b, 0x474a9c8c, 0x1e77fa61, 0x392ad0d0), 0x0, 0xfe2ce6e0, 10);
    OpOn(58, Regs(0x392ad0d0, 0xdfce00bc, 0x474a9c8c, 0x1e77fa61), 0x0, 0xa3014314, 15);
    OpOn(59, Regs(0x1e77fa61, 0x36594b14, 0xdfce00bc, 0x474a9c8c), 0x0, 0x4e0811a1, 21);
  }

  lemma EmptyOps60()
    ensures Op(60, Regs(0x474a9c8c, 0x30130182, 0x36594b14, 0xdfce00bc), EMPTY) == Regs(0xdfce00bc, 0x7246fad3, 0x30130182, 0x36594b14)
    ensures Op(61, Regs(0xdfce00bc, 0x7246fad3, 0x30130182, 0x36594b14), EMPTY) == Regs(0x36594b14, 0x6e10a476, 0x7246fad3, 0x30130182)
    ensures Op(62, Regs(0x36594b14, 0x6e10a476, 0x7246fad3, 0x30130182), EMPTY) == Regs(0x30130182, 0xff4ea3eb, 0x6e10a476, 0x7246fad3)
    ensures Op(63, Regs(0x30130182, 0xff4ea3eb, 0x6e10a476, 0x7246fad3), EMPTY) == Regs(0x7246fad3, 0x14e45506, 0xff4ea3eb, 0x6e10a476)
  {
    Lines48();
    hide Sine, Index, Turn, Op;
    OpOn(60, Regs(0x474a9c8c, 0x30130182, 0x36594b14, 0xdfce00bc), 0x0, 0xf7537e82, 6);
    OpOn(61, Regs(0xdfce00bc, 0x7246fad3, 0x30130182, 0x36594b14), 0x0, 0xbd3af235, 10);
    OpOn(62, Regs(0x36594b14, 0x6e10a476, 0x7246fad3, 0x30130182), 0x0, 0x2ad7d2bb, 15);
    OpOn(63, Regs(0x30130182, 0xff4ea3eb, 0x6e10a476, 0x7246fad3), 0x0, 0xeb86d391, 21);
  }

  lemma EmptyRuns()
    ensures Ops(64, Regs(0x67452301, 0xefcdab89, 0x98badcfe, 0x10325476), EMPTY) == Regs(0x7246fad3, 0x14e45506, 0xff4ea3eb, 0x6e10a476)
  {
    hide Op;
    var r := Regs(0x67452301, 0xefcdab89, 0x98badcfe, 0x10325476);
    NoOps(r, EMPTY);
    EmptyOps0();
    assert Ops(1, r, EMPTY) == Regs(0x10325476, 0xa5202774, 0xefcdab89, 0x98badcfe);
    assert Ops(2, r, EMPTY) == Regs(0x98badcfe, 0xf59592dd, 0xa5202774, 0xefcdab89);
    assert Ops(3, r, EMPTY) == Regs(0xefcdab89, 0xe7f06b23, 0xf59592dd, 0xa5202774);
    assert Ops(4, r, EMPTY) == Regs(0xa5202774, 0x1b163203, 0xe7f06b23, 0xf59592dd);
    EmptyOps4();
    assert Ops(5, r, EMPTY) == Regs(0xf59592dd, 0x32033344, 0x1b163203, 0xe7f06b23);
    assert Ops(6, r, EMPTY) == Regs(0xe7f06b23, 0x2f35d494, 0x32033344, 0x1b163203);
    assert Ops(7, r, EMPTY) == Regs(0x1b163203, 0xf5b158db, 0x2f35d494, 0x32033344);
    assert Ops(8, r, EMPTY) == Regs(0x32033344, 0x9bc13ce9, 0xf5b158db, 0x2f35d494);
    EmptyOps8();
    assert Ops(9, r, EMPTY) == Regs(0x2f35d494, 0x3893b991, 0x9bc13ce9, 0xf5b158db);
    assert Ops(10, r, EMPTY) == Regs(0xf5b158db, 0xfce4a312, 0x3893b991, 0x9bc13ce9);
    assert Ops(11, r, EMPTY) == Regs(0x9bc13ce9, 0xe1ef0576, 0xfce4a312, 0x3893b991);
    assert Ops(12, r, EMPTY) == Regs(0x3893b991, 0x70768a29, 0xe1ef0576, 0xfce4a312);
    EmptyOps12();
    assert Ops(13, r, EMPTY) == Regs(0xfce4a312, 0xf56c7cf1, 0x70768a29, 0xe1ef0576);
    assert Ops(14, r, EMPTY) == Regs(0xe1ef0576, 0x374943a7, 0xf56c7cf1, 0x70768a29);
    assert Ops(15, r, EMPTY) == Regs(0x70768a29, 0x5aa53f75, 0x374943a7, 0xf56c7cf1);
    assert Ops(16, r, EMPTY) == Regs(0xf56c7cf1, 0xd6819c6a, 0x5aa53f75, 0x374943a7);
    EmptyOps16();
    assert Ops(17, r, EMPTY) == Regs(0x374943a7, 0x1c7d7513, 0xd6819c6a, 0x5aa53f75);
    assert Ops(18, r, EMPTY) == Regs(0x5aa53f75, 0x7bd57a3a, 0x1c7d7513, 0xd6819c6a);
    assert Ops(19, r, EMPTY) == Regs(0xd6819c6a, 0xc095f13a, 0x7bd57a3a, 0x1c7d7513);
    assert Ops(20, r, EMPTY) == Regs(0x1c7d7513, 0xbd782e17, 0xc095f13a, 0x7bd57a3a);
    EmptyOps20();
    assert Ops(21, r, EMPTY) == Regs(0x7bd57a3a, 0x3d1e3e6c, 0xbd782e17, 0xc095f13a);
    assert Ops(22, r, EMPTY) == Regs(0xc095f13a, 0x68b7b3e3, 0x3d1e3e6c, 0xbd782e17);
    assert Ops(23, r, EMPTY) == Regs(0xbd782e17, 0xeb41643e, 0x68b7b3e3, 0x3d1e3e6c);
    assert Ops(24, r, EMPTY) == Regs(0x3d1e3e6c, 0xe422531a, 0xeb41643e, 0x68b7b3e3);
    EmptyOps24();
    assert Ops(25, r, EMPTY) == Regs(0x68b7b3e3, 0x306ec122, 0xe422531a, 0xeb41643e);
    assert Ops(26, r, EMPTY) == Regs(0xeb41643e, 0xd28c77c2, 0x306ec122, 0xe422531a);
    assert Ops(27, r, EMPTY) == Regs(0xe422531a, 0xa3c663da, 0xd28c77c2, 0x306ec122);
    assert Ops(28, r, EMPTY) == Regs(0x306ec122, 0xa0572807, 0xa3c663da, 0xd28c77c2);
    EmptyOps28();
    assert Ops(29, r, EMPTY) == Regs(0xd28c77c2, 0x13707036, 0xa0572807, 0xa3c663da);
    assert Ops(30, r, EMPTY) == Regs(0xa3c663da, 0xae7813db, 0x13707036, 0xa0572807);
    assert Ops(31, r, EMPTY) == Regs(0xa0572807, 0x1c31c384, 0xae7813db, 0x13707036);
    assert Ops(32, r, EMPTY) == Regs(0x13707036, 0xa2205f1f, 0x1c31c384, 0xae7813db);
    EmptyOps32();
    assert Ops(33, r, EMPTY) == Regs(0xae7813db, 0xdf63eaa1, 0xa2205f1f, 0x1c31c384);
    assert Ops(34, r, EMPTY) == Regs(0x1c31c384, 0xc3689f5b, 0xdf63eaa1, 0xa2205f1f);
    assert Ops(35, r, EMPTY) == Regs(0xa2205f1f, 0x12f3e755, 0xc3689f5b, 0xdf63eaa1);
    assert Ops(36, r, EMPTY) == Regs(0xdf63eaa1, 0x004b6669, 0x12f3e755, 0xc3689f5b);
    EmptyOps36();
    assert Ops(37, r, EMPTY) == Regs(0xc3689f5b, 0x5f7a9b2e, 0x004b6669, 0x12f3e755);
    assert Ops(38, r, EMPTY) == Regs(0x12f3e755, 0xabc34e16, 0x5f7a9b2e, 0x004b6669);
    assert Ops(39, r, EMPTY) == Regs(0x004b6669, 0x91ca4cb7, 0xabc34e16, 0x5f7a9b2e);
    assert Ops(40, r, EMPTY) == Regs(0x5f7a9b2e, 0xc5dc8c15, 0x91ca4cb7, 0xabc34e16);
    EmptyOps40();
    assert Ops(41, r, EMPTY) == Regs(0xabc34e16, 0x4497169d, 0xc5dc8c15, 0x91ca4cb7);
    assert Ops(42, r, EMPTY) == Regs(0x91ca4cb7, 0x76fd93d4, 0x4497169d, 0xc5dc8c15);
    assert Ops(43, r, EMPTY) == Regs(0xc5dc8c15, 0xfd95f243, 0x76fd93d4, 0x4497169d);
    assert Ops(44, r, EMPTY) == Regs(0x4497169d, 0x0fe32453, 0xfd95f243, 0x76fd93d4);
    EmptyOps44();
    assert Ops(45, r, EMPTY) == Regs(0x76fd93d4, 0x3f55edfd, 0x0fe32453, 0xfd95f243);
    assert Ops(46, r, EMPTY) == Regs(0xfd95f243, 0x22a31f54, 0x3f55edfd, 0x0fe32453);
    assert Ops(47, r, EMPTY) == Regs(0x0fe32453, 0x68d84ea2, 0x22a31f54, 0x3f55edfd);
    assert Ops(48, r, EMPTY) == Regs(0x3f55edfd, 0xca7d2dbd, 0x68d84ea2, 0x22a31f54);
    EmptyOps48();
    assert Ops(49, r, EMPTY) == Regs(0x22a31f54, 0x93aa2577, 0xca7d2dbd, 0x68d84ea2);
    assert Ops(50, r, EMPTY) == Regs(0x68d84ea2, 0x1688dc85, 0x93aa2577, 0xca7d2dbd);
    assert Ops(51, r, EMPTY) == Regs(0xca7d2dbd, 0xcd85b8cb, 0x1688dc85, 0x93aa2577);
    assert Ops(52, r, EMPTY) == Regs(0x93aa2577, 0x561e0689, 0xcd85b8cb, 0x1688dc85);
    EmptyOps52();
    assert Ops(53, r, EMPTY) == Regs(0x1688dc85, 0x5625a114, 0x561e0689, 0xcd85b8cb);
    assert Ops(54, r, EMPTY) == Regs(0xcd85b8cb, 0x3450f42b, 0x5625a114, 0x561e0689);
    assert Ops(55, r, EMPTY) == Regs(0x561e0689, 0x392ad0d0, 0x3450f42b, 0x5625a114);
    assert Ops(56, r, EMPTY) == Regs(0x5625a114, 0x1e77fa61, 0x392ad0d0, 0x3450f42b);
    EmptyOps56();
    assert Ops(57, r, EMPTY) == Regs(0x3450f42b, 0x474a9c8c, 0x1e77fa61, 0x392ad0d0);
    assert Ops(58, r, EMPTY) == Regs(0x392ad0d0, 0xdfce00bc, 0x474a9c8c, 0x1e77fa61);
    assert Ops(59, r, EMPTY) == Regs(0x1e77fa61, 0x36594b14, 0xdfce00bc, 0x474a9c8c);
    assert Ops(60, r, EMPTY) == Regs(0x474a9c8c, 0x30130182, 0x36594b14, 0xdfce00bc);
    EmptyOps60();
    assert Ops(61, r, EMPTY) == Regs(0xdfce00bc, 0x7246fad3, 0x30130182, 0x36594b14);
    assert Ops(62, r, EMPTY) == Regs(0x36594b14, 0x6e10a476, 0x7246fad3, 0x30130182);
    assert Ops(63, r, EMPTY) == Regs(0x30130182, 0xff4ea3eb, 0x6e10a476, 0x7246fad3);
    assert Ops(64, r, EMPTY) == Regs(0x7246fad3, 0x14e45506, 0xff4ea3eb, 0x6e10a476);
  }

  lemma EmptyCompressed()
    ensures Compress(Regs(0x67452301, 0xefcdab89, 0x98badcfe, 0x10325476), EMPTY) == Regs(0xd98c1dd4, 0x04b2008f, 0x980980e9, 0x7e42f8ec)
  {
    EmptyRuns();
    hide Ops;
  }

  lemma EmptyPadding()
    ensures [] + Padding([]) == [0x80] + Zeros(63)
  {
    assert Lengths([]) == Zeros(8);
  }

  lemma EmptyBlock()
    ensures |[] + Padding([])| == 64 && WordsOf([] + Padding([])) == EMPTY
  {
    hide WordBits, Padding;
    EmptyPadding();
    var b := [0x80] + Zeros(63);
    SmallWords();
    forall k | 0 <= k < 16 ensures WordsOf(b)[k] == EMPTY[k] {
      assert b[4 * k + 1] == 0 && b[4 * k + 2] == 0 && b[4 * k + 3] == 0 && b[4 * k] == if k == 0 then 0x80 else 0;
    }
  }

  lemma SmallWords()
    ensures WordBits(0x80, 0, 0, 0) == 0x80 && WordBits(0, 0, 0, 0) == 0
  {
    assert OctetBits(0x80) == 0x80 && OctetBits(0) == 0;
  }
  lemma InitRegs()
    ensures ToRegs(INIT) == Regs(0x67452301, 0xefcdab89, 0x98badcfe, 0x10325476)
  {
    hide Bits;
    InitA();
    InitB();
    InitC();
    InitD();
  }

  lemma InitA()
    ensures Bits(0x67452301) == 0x67452301
  {
    assert Little(0x67452301) == [0x01, 0x23, 0x45, 0x67];
    assert OctetBits(0x01) == 0x01 && OctetBits(0x23) == 0x23 && OctetBits(0x45) == 0x45 && OctetBits(0x67) == 0x67;
  }

  lemma InitB()
    ensures Bits(0xefcdab89) == 0xefcdab89
  {
    assert Little(0xefcdab89) == [0x89, 0xab, 0xcd, 0xef];
    assert OctetBits(0x89) == 0x89 && OctetBits(0xab) == 0xab && OctetBits(0xcd) == 0xcd && OctetBits(0xef) == 0xef;
  }

  lemma InitC()
    ensures Bits(0x98badcfe) == 0x98badcfe
  {
    assert Little(0x98badcfe) == [0xfe, 0xdc, 0xba, 0x98];
    assert OctetBits(0xfe) == 0xfe && OctetBits(0xdc) == 0xdc && OctetBits(0xba) == 0xba && OctetBits(0x98) == 0x98;
  }

  lemma InitD()
    ensures Bits(0x10325476) == 0x10325476
  {
    assert Little(0x10325476) == [0x76, 0x54, 0x32, 0x10];
    assert OctetBits(0x76) == 0x76 && OctetBits(0x54) == 0x54 && OctetBits(0x32) == 0x32 && OctetBits(0x10) == 0x10;
  }
  lemma EmptyWords()
    ensures ToWords(Regs(0xd98c1dd4, 0x04b2008f, 0x980980e9, 0x7e42f8ec)) == Words(0xd98c1dd4, 0x04b2008f, 0x980980e9, 0x7e42f8ec)
  {
    hide WordValue;
    FinalA();
    FinalB();
    FinalC();
    FinalD();
  }

  lemma FinalA()
    ensures WordValue(0xd98c1dd4) == 0xd98c1dd4
  {
    assert OctetValue(0xd98c1dd4) == 0xd4 && OctetValue(0xd98c1dd4 >> 8) == 0x1d && OctetValue(0xd98c1dd4 >> 16) == 0x8c && OctetValue(0xd98c1dd4 >> 24) == 0xd9;
  }

  lemma FinalB()
    ensures WordValue(0x04b2008f) == 0x04b2008f
  {
    assert OctetValue(0x04b2008f) == 0x8f && OctetValue(0x04b2008f >> 8) == 0x00 && OctetValue(0x04b2008f >> 16) == 0xb2 && OctetValue(0x04b2008f >> 24) == 0x04;
  }

  lemma FinalC()
    ensures WordValue(0x980980e9) == 0x980980e9
  {
    assert OctetValue(0x980980e9) == 0xe9 && OctetValue(0x980980e9 >> 8) == 0x80 && OctetValue(0x980980e9 >> 16) == 0x09 && OctetValue(0x980980e9 >> 24) == 0x98;
  }

  lemma FinalD()
    ensures WordValue(0x7e42f8ec) == 0x7e42f8ec
  {
    assert OctetValue(0x7e42f8ec) == 0xec && OctetValue(0x7e42f8ec >> 8) == 0xf8 && OctetValue(0x7e42f8ec >> 16) == 0x42 && OctetValue(0x7e42f8ec >> 24) == 0x7e;
  }
  /** The digest that RFC 1321 gives for the empty string. */
  lemma EmptyDigest()
    ensures Digest(Transformed, []) ==
              [0xd4, 0x1d, 0x8c, 0xd9, 0x8f, 0x00, 0xb2, 0x04, 0xe9, 0x80, 0x09, 0x98, 0xec, 0xf8, 0x42, 0x7e]
  {
    var b := [] + Padding([]);
    PaddedSize([]);
    EmptyBlock();
    InitRegs();
    EmptyCompressed();
    EmptyWords();
    hide Compress, WordsOf, Padding, ToRegs, ToWords;
    FoldBlock(Transformed, INIT, b);
    var w := Words(0xd98c1dd4, 0x04b2008f, 0x980980e9, 0x7e42f8ec);
    assert Transformed(INIT, b) == w;
    assert Little(w.a) == [0xd4, 0x1d, 0x8c, 0xd9] && Little(w.b) == [0x8f, 0x00, 0xb2, 0x04] && Little(w.c) == [0xe9, 0x80, 0x09, 0x98] && Little(w.d) == [0xec, 0xf8, 0x42, 0x7e];
  }
}
