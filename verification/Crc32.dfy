/** CRC-32 (crc32.c), bit by bit and by table (little-endian build). */
module Crc32 {
  import opened Bytes

  type octets = seq<bv8>

  const NEGL: bv32 := 0xffffffff
  const POLY: bv32 := 0xEDB88320

  // ---------------------------------------------------------------------
  // Words
  // ---------------------------------------------------------------------

  function Xor(a: bv32, b: bv32): bv32 { a ^ b }

  function Xor8(a: bv8, b: bv8): bv8 { a ^ b }

  function Low(c: bv32): bv8 { (c & 0xFF) as bv8 }

  function High(c: bv32): bv32 { c >> 8 }

  function Wide(b: bv8): bv32 { b as bv32 }

  /** A word read from four octets on a little-endian machine. */
  function Word(a: bv8, b: bv8, c: bv8, d: bv8): bv32 {
    (a as bv32) | ((b as bv32) << 8) | ((c as bv32) << 16) | ((d as bv32) << 24)
  }

  lemma XorLaws(a: bv32, b: bv32, c: bv32)
    ensures Xor(Xor(a, b), c) == Xor(a, Xor(b, c)) && Xor(a, b) == Xor(b, a) && Xor(Xor(a, b), b) == a
  {
  }

  lemma XorParts(a: bv32, b: bv32)
    ensures Low(Xor(a, b)) == Xor8(Low(a), Low(b)) && High(Xor(a, b)) == Xor(High(a), High(b))
  {
  }

  lemma WordParts(a: bv8, b: bv8, c: bv8, d: bv8)
    ensures Low(Word(a, b, c, d)) == a && High(Word(a, b, c, d)) == Word(b, c, d, 0)
  {
  }

  lemma NoWord(crc: bv32)
    ensures Xor(crc, Word(0, 0, 0, 0)) == crc
  {
  }

  // ---------------------------------------------------------------------
  // Bit by bit
  // ---------------------------------------------------------------------

  function Shift(x: bv32): bv32 {
    if x & 1 == 1 then (x >> 1) ^ POLY else x >> 1
  }

  function Shift8(x: bv32): bv32 {
    Shift(Shift(Shift(Shift(Shift(Shift(Shift(Shift(x))))))))
  }

  /** One octet, as the bit-by-bit build defines it. */
  function Feed(crc: bv32, b: bv8): bv32 {
    Xor(High(crc), Shift8(Wide(Xor8(Low(crc), b))))
  }

  function FeedAll(crc: bv32, data: octets): bv32
    decreases |data|
  {
    if |data| == 0 then crc else FeedAll(Feed(crc, data[0]), data[1..])
  }

  /** The CRC-32 of a string. */
  function Crc(data: octets): bv32 { Xor(FeedAll(NEGL, data), NEGL) }

  lemma {:induction false} FeedAppend(crc: bv32, a: octets, b: octets)
    ensures FeedAll(crc, a + b) == FeedAll(FeedAll(crc, a), b)
    decreases |a|
  {
    hide Feed;
    if a == [] {
      assert a + b == b;
    } else {
      assert (a + b)[1..] == a[1..] + b;
      FeedAppend(Feed(crc, a[0]), a[1..], b);
    }
  }

  lemma FeedNext(start: bv32, data: octets, i: nat)
    requires i < |data|
    ensures FeedAll(start, data[..i + 1]) == Feed(FeedAll(start, data[..i]), data[i])
  {
    hide Feed;
    assert data[..i + 1] == data[..i] + [data[i]];
    FeedAppend(start, data[..i], [data[i]]);
    assert FeedAll(FeedAll(start, data[..i]), [data[i]]) == FeedAll(Feed(FeedAll(start, data[..i]), data[i]), []);
  }

  lemma FedOctet(crc: bv32, b: bv8, next: bv32)
    requires Feed(crc, b) == next
    ensures forall rest: octets :: FeedAll(crc, [b] + rest) == FeedAll(next, rest)
  {
    hide Feed;
    forall rest: octets ensures FeedAll(crc, [b] + rest) == FeedAll(next, rest) { assert ([b] + rest)[1..] == rest; }
  }

  /** The published check value: the CRC-32 of the nine digits "123456789". */
  lemma CheckValue()
    ensures Crc([49, 50, 51, 52, 53, 54, 55, 56, 57]) == 0xCBF43926
  {
    CheckSteps();
    hide Feed;
    FedOctet(0xffffffff, 49, 0x7c231048);
    assert FeedAll(0xffffffff, [49] + [50, 51, 52, 53, 54, 55, 56, 57]) == FeedAll(0x7c231048, [50, 51, 52, 53, 54, 55, 56, 57]);
    FedOctet(0x7c231048, 50, 0xb0acbb32);
    assert FeedAll(0x7c231048, [50] + [51, 52, 53, 54, 55, 56, 57]) == FeedAll(0xb0acbb32, [51, 52, 53, 54, 55, 56, 57]);
    FedOctet(0xb0acbb32, 51, 0x77b79c2d);
    assert FeedAll(0xb0acbb32, [51] + [52, 53, 54, 55, 56, 57]) == FeedAll(0x77b79c2d, [52, 53, 54, 55, 56, 57]);
    FedOctet(0x77b79c2d, 52, 0x641c1f5c);
    assert FeedAll(0x77b79c2d, [52] + [53, 54, 55, 56, 57]) == FeedAll(0x641c1f5c, [53, 54, 55, 56, 57]);
    FedOctet(0x641c1f5c, 53, 0x340ac5e3);
    assert FeedAll(0x641c1f5c, [53] + [54, 55, 56, 57]) == FeedAll(0x340ac5e3, [54, 55, 56, 57]);
    FedOctet(0x340ac5e3, 54, 0xf68d2c9e);
    assert FeedAll(0x340ac5e3, [54] + [55, 56, 57]) == FeedAll(0xf68d2c9e, [55, 56, 57]);
    FedOctet(0xf68d2c9e, 55, 0xaffc9660);
    assert FeedAll(0xf68d2c9e, [55] + [56, 57]) == FeedAll(0xaffc9660, [56, 57]);
    FedOctet(0xaffc9660, 56, 0x651f2550);
    assert FeedAll(0xaffc9660, [56] + [57]) == FeedAll(0x651f2550, [57]);
    FedOctet(0x651f2550, 57, 0x340bc6d9);
    assert FeedAll(0x651f2550, [57] + []) == FeedAll(0x340bc6d9, []);
    assert Xor(0x340bc6d9, NEGL) == 0xCBF43926;
  }

  lemma CheckSteps()
    ensures Feed(0xffffffff, 49) == 0x7c231048
    ensures Feed(0x7c231048, 50) == 0xb0acbb32
    ensures Feed(0xb0acbb32, 51) == 0x77b79c2d
    ensures Feed(0x77b79c2d, 52) == 0x641c1f5c
    ensures Feed(0x641c1f5c, 53) == 0x340ac5e3
    ensures Feed(0x340ac5e3, 54) == 0xf68d2c9e
    ensures Feed(0xf68d2c9e, 55) == 0xaffc9660
    ensures Feed(0xaffc9660, 56) == 0x651f2550
    ensures Feed(0x651f2550, 57) == 0x340bc6d9
  {
  }

  // ---------------------------------------------------------------------
  // The table
  // ---------------------------------------------------------------------

  /** Eight entries of crc_tab. */
  function Row(h: bv8): seq<bv32> {
    match h
    case 0 => [0x00000000, 0x77073096, 0xee0e612c, 0x990951ba, 0x076dc419, 0x706af48f, 0xe963a535, 0x9e6495a3]
    case 1 => [0x0edb8832, 0x79dcb8a4, 0xe0d5e91e, 0x97d2d988, 0x09b64c2b, 0x7eb17cbd, 0xe7b82d07, 0x90bf1d91]
    case 2 => [0x1db71064, 0x6ab020f2, 0xf3b97148, 0x84be41de, 0x1adad47d, 0x6ddde4eb, 0xf4d4b551, 0x83d385c7]
    case 3 => [0x136c9856, 0x646ba8c0, 0xfd62f97a, 0x8a65c9ec, 0x14015c4f, 0x63066cd9, 0xfa0f3d63, 0x8d080df5]
    case 4 => [0x3b6e20c8, 0x4c69105e, 0xd56041e4, 0xa2677172, 0x3c03e4d1, 0x4b04d447, 0xd20d85fd, 0xa50ab56b]
    case 5 => [0x35b5a8fa, 0x42b2986c, 0xdbbbc9d6, 0xacbcf940, 0x32d86ce3, 0x45df5c75, 0xdcd60dcf, 0xabd13d59]
    case 6 => [0x26d930ac, 0x51de003a, 0xc8d75180, 0xbfd06116, 0x21b4f4b5, 0x56b3c423, 0xcfba9599, 0xb8bda50f]
    case 7 => [0x2802b89e, 0x5f058808, 0xc60cd9b2, 0xb10be924, 0x2f6f7c87, 0x58684c11, 0xc1611dab, 0xb6662d3d]
    case 8 => [0x76dc4190, 0x01db7106, 0x98d220bc, 0xefd5102a, 0x71b18589, 0x06b6b51f, 0x9fbfe4a5, 0xe8b8d433]
    case 9 => [0x7807c9a2, 0x0f00f934, 0x9609a88e, 0xe10e9818, 0x7f6a0dbb, 0x086d3d2d, 0x91646c97, 0xe6635c01]
    case 10 => [0x6b6b51f4, 0x1c6c6162, 0x856530d8, 0xf262004e, 0x6c0695ed, 0x1b01a57b, 0x8208f4c1, 0xf50fc457]
    case 11 => [0x65b0d9c6, 0x12b7e950, 0x8bbeb8ea, 0xfcb9887c, 0x62dd1ddf, 0x15da2d49, 0x8cd37cf3, 0xfbd44c65]
    case 12 => [0x4db26158, 0x3ab551ce, 0xa3bc0074, 0xd4bb30e2, 0x4adfa541, 0x3dd895d7, 0xa4d1c46d, 0xd3d6f4fb]
    case 13 => [0x4369e96a, 0x346ed9fc, 0xad678846, 0xda60b8d0, 0x44042d73, 0x33031de5, 0xaa0a4c5f, 0xdd0d7cc9]
    case 14 => [0x5005713c, 0x270241aa, 0xbe0b1010, 0xc90c2086, 0x5768b525, 0x206f85b3, 0xb966d409, 0xce61e49f]
    case 15 => [0x5edef90e, 0x29d9c998, 0xb0d09822, 0xc7d7a8b4, 0x59b33d17, 0x2eb40d81, 0xb7bd5c3b, 0xc0ba6cad]
    case 16 => [0xedb88320, 0x9abfb3b6, 0x03b6e20c, 0x74b1d29a, 0xead54739, 0x9dd277af, 0x04db2615, 0x73dc1683]
    case 17 => [0xe3630b12, 0x94643b84, 0x0d6d6a3e, 0x7a6a5aa8, 0xe40ecf0b, 0x9309ff9d, 0x0a00ae27, 0x7d079eb1]
    case 18 => [0xf00f9344, 0x8708a3d2, 0x1e01f268, 0x6906c2fe, 0xf762575d, 0x806567cb, 0x196c3671, 0x6e6b06e7]
    case 19 => [0xfed41b76, 0x89d32be0, 0x10da7a5a, 0x67dd4acc, 0xf9b9df6f, 0x8ebeeff9, 0x17b7be43, 0x60b08ed5]
    case 20 => [0xd6d6a3e8, 0xa1d1937e, 0x38d8c2c4, 0x4fdff252, 0xd1bb67f1, 0xa6bc5767, 0x3fb506dd, 0x48b2364b]
    case 21 => [0xd80d2bda, 0xaf0a1b4c, 0x36034af6, 0x41047a60, 0xdf60efc3, 0xa867df55, 0x316e8eef, 0x4669be79]
    case 22 => [0xcb61b38c, 0xbc66831a, 0x256fd2a0, 0x5268e236, 0xcc0c7795, 0xbb0b4703, 0x220216b9, 0x5505262f]
    case 23 => [0xc5ba3bbe, 0xb2bd0b28, 0x2bb45a92, 0x5cb36a04, 0xc2d7ffa7, 0xb5d0cf31, 0x2cd99e8b, 0x5bdeae1d]
    case 24 => [0x9b64c2b0, 0xec63f226, 0x756aa39c, 0x026d930a, 0x9c0906a9, 0xeb0e363f, 0x72076785, 0x05005713]
    case 25 => [0x95bf4a82, 0xe2b87a14, 0x7bb12bae, 0x0cb61b38, 0x92d28e9b, 0xe5d5be0d, 0x7cdcefb7, 0x0bdbdf21]
    case 26 => [0x86d3d2d4, 0xf1d4e242, 0x68ddb3f8, 0x1fda836e, 0x81be16cd, 0xf6b9265b, 0x6fb077e1, 0x18b74777]
    case 27 => [0x88085ae6, 0xff0f6a70, 0x66063bca, 0x11010b5c, 0x8f659eff, 0xf862ae69, 0x616bffd3, 0x166ccf45]
    case 28 => [0xa00ae278, 0xd70dd2ee, 0x4e048354, 0x3903b3c2, 0xa7672661, 0xd06016f7, 0x4969474d, 0x3e6e77db]
    case 29 => [0xaed16a4a, 0xd9d65adc, 0x40df0b66, 0x37d83bf0, 0xa9bcae53, 0xdebb9ec5, 0x47b2cf7f, 0x30b5ffe9]
    case 30 => [0xbdbdf21c, 0xcabac28a, 0x53b39330, 0x24b4a3a6, 0xbad03605, 0xcdd70693, 0x54de5729, 0x23d967bf]
    case _ => [0xb3667a2e, 0xc4614ab8, 0x5d681b02, 0x2a6f2b94, 0xb40bbe37, 0xc30c8ea1, 0x5a05df1b, 0x2d02ef8d]
  }

  predicate RowIsRight(row: seq<bv32>, h: bv8) {
    var b := (h as bv32) << 3;
    && |row| == 8
    && row[0] == Shift8(b) && row[1] == Shift8(b + 1) && row[2] == Shift8(b + 2) && row[3] == Shift8(b + 3)
    && row[4] == Shift8(b + 4) && row[5] == Shift8(b + 5) && row[6] == Shift8(b + 6) && row[7] == Shift8(b + 7)
  }

  lemma Row0() ensures RowIsRight(Row(0), 0) {}
  lemma Row1() ensures RowIsRight(Row(1), 1) {}
  lemma Row2() ensures RowIsRight(Row(2), 2) {}
  lemma Row3() ensures RowIsRight(Row(3), 3) {}
  lemma Row4() ensures RowIsRight(Row(4), 4) {}
  lemma Row5() ensures RowIsRight(Row(5), 5) {}
  lemma Row6() ensures RowIsRight(Row(6), 6) {}
  lemma Row7() ensures RowIsRight(Row(7), 7) {}
  lemma Row8() ensures RowIsRight(Row(8), 8) {}
  lemma Row9() ensures RowIsRight(Row(9), 9) {}
  lemma Row10() ensures RowIsRight(Row(10), 10) {}
  lemma Row11() ensures RowIsRight(Row(11), 11) {}
  lemma Row12() ensures RowIsRight(Row(12), 12) {}
  lemma Row13() ensures RowIsRight(Row(13), 13) {}
  lemma Row14() ensures RowIsRight(Row(14), 14) {}
  lemma Row15() ensures RowIsRight(Row(15), 15) {}
  lemma Row16() ensures RowIsRight(Row(16), 16) {}
  lemma Row17() ensures RowIsRight(Row(17), 17) {}
  lemma Row18() ensures RowIsRight(Row(18), 18) {}
  lemma Row19() ensures RowIsRight(Row(19), 19) {}
  lemma Row20() ensures RowIsRight(Row(20), 20) {}
  lemma Row21() ensures RowIsRight(Row(21), 21) {}
  lemma Row22() ensures RowIsRight(Row(22), 22) {}
  lemma Row23() ensures RowIsRight(Row(23), 23) {}
  lemma Row24() ensures RowIsRight(Row(24), 24) {}
  lemma Row25() ensures RowIsRight(Row(25), 25) {}
  lemma Row26() ensures RowIsRight(Row(26), 26) {}
  lemma Row27() ensures RowIsRight(Row(27), 27) {}
  lemma Row28() ensures RowIsRight(Row(28), 28) {}
  lemma Row29() ensures RowIsRight(Row(29), 29) {}
  lemma Row30() ensures RowIsRight(Row(30), 30) {}
  lemma Row31() ensures RowIsRight(Row(31), 31) {}

  lemma RowsAreRight(h: bv8)
    requires h < 32
    ensures RowIsRight(Row(h), h)
    ensures |Row(h)| == 8
  {
    hide Row, Shift8;
    if
    case h == 0 => Row0();
    case h == 1 => Row1();
    case h == 2 => Row2();
    case h == 3 => Row3();
    case h == 4 => Row4();
    case h == 5 => Row5();
    case h == 6 => Row6();
    case h == 7 => Row7();
    case h == 8 => Row8();
    case h == 9 => Row9();
    case h == 10 => Row10();
    case h == 11 => Row11();
    case h == 12 => Row12();
    case h == 13 => Row13();
    case h == 14 => Row14();
    case h == 15 => Row15();
    case h == 16 => Row16();
    case h == 17 => Row17();
    case h == 18 => Row18();
    case h == 19 => Row19();
    case h == 20 => Row20();
    case h == 21 => Row21();
    case h == 22 => Row22();
    case h == 23 => Row23();
    case h == 24 => Row24();
    case h == 25 => Row25();
    case h == 26 => Row26();
    case h == 27 => Row27();
    case h == 28 => Row28();
    case h == 29 => Row29();
    case h == 30 => Row30();
    case h == 31 => Row31();
  }

  /** crc_tab[i] */
  function Table(i: bv8): bv32 {
    RowsAreRight(i >> 3);
    Row(i >> 3)[(i & 7) as int]
  }

  lemma RowAt(row: seq<bv32>, h: bv8, l: bv8)
    requires RowIsRight(row, h) && l < 8
    ensures row[l as int] == Shift8(((h as bv32) << 3) + (l as bv32))
  {
    hide Shift8;
  }

  /** Each entry of the table is what the bit-by-bit loop computes from its index. */
  lemma TableIsRight(i: bv8)
    ensures Table(i) == Shift8(Wide(i))
  {
    hide Row, RowIsRight, Shift8;
    RowsAreRight(i >> 3);
    RowAt(Row(i >> 3), i >> 3, i & 7);
    assert (((i >> 3) as bv32) << 3) + ((i & 7) as bv32) == i as bv32;
  }

  /** One octet by table. */
  function LookByte(crc: bv32, b: bv8): bv32 { Xor(Table(Xor8(Low(crc), b)), High(crc)) }

  /** The lowest octet of the register by table. */
  function Look(crc: bv32): bv32 { Xor(Table(Low(crc)), High(crc)) }

  lemma LookIsFeed(crc: bv32, b: bv8)
    ensures LookByte(crc, b) == Feed(crc, b)
  {
    hide Table, Shift8, Xor, Xor8, Low, High, Wide;
    TableIsRight(Xor8(Low(crc), b));
    XorLaws(High(crc), Table(Xor8(Low(crc), b)), 0);
  }

  /** The first octet of a word is used up, the others wait for their turn. */
  lemma FirstOfWord(crc: bv32, a: bv8, b: bv8, c: bv8, d: bv8)
    ensures Look(Xor(crc, Word(a, b, c, d))) == Xor(Feed(crc, a), Word(b, c, d, 0))
  {
    hide Table, Feed, Xor, Xor8, Low, High, Wide, Word;
    XorParts(crc, Word(a, b, c, d));
    WordParts(a, b, c, d);
    XorLaws(Table(Xor8(Low(crc), a)), High(crc), Word(b, c, d, 0));
    LookIsFeed(crc, a);
  }

  /** Four octets at once are four octets one by one. */
  lemma FourAtOnce(crc: bv32, a: bv8, b: bv8, c: bv8, d: bv8)
    ensures Look(Look(Look(Look(Xor(crc, Word(a, b, c, d)))))) == Feed(Feed(Feed(Feed(crc, a), b), c), d)
  {
    hide Look, Feed, Word, Xor;
    FirstOfWord(crc, a, b, c, d);
    FirstOfWord(Feed(crc, a), b, c, d, 0);
    FirstOfWord(Feed(Feed(crc, a), b), c, d, 0, 0);
    FirstOfWord(Feed(Feed(Feed(crc, a), b), c), d, 0, 0, 0);
    NoWord(Feed(Feed(Feed(Feed(crc, a), b), c), d));
  }

  // ---------------------------------------------------------------------
  // The two builds
  // ---------------------------------------------------------------------

  class TableCrc {
    var state: bv32
    ghost var fed: octets    // all that was fed so far

    ghost predicate Valid()
      reads this
    {
      state == Crc(fed)
    }

    constructor ()
      ensures Valid() && fed == []
    {
      state, fed := 0, [];
    }

    /** The octet loops of pj_crc32_update. */
    method FeedByTable(crc: bv32, data: octets, i: nat, ghost start: bv32) returns (r: bv32)
      requires i < |data| && crc == FeedAll(start, data[..i])
      ensures r == FeedAll(start, data[..i + 1])
    {
      hide Feed, LookByte;
      LookIsFeed(crc, data[i]);
      FeedNext(start, data, i);
      r := LookByte(crc, data[i]);
    }

    /** The word loop. */
    method FeedWord(crc: bv32, data: octets, i: nat, ghost start: bv32) returns (r: bv32)
      requires i + 4 <= |data| && crc == FeedAll(start, data[..i])
      ensures r == FeedAll(start, data[..i + 4])
    {
      hide Feed, Look, Xor, Word;
      FourAtOnce(crc, data[i], data[i + 1], data[i + 2], data[i + 3]);
      FeedNext(start, data, i);
      FeedNext(start, data, i + 1);
      FeedNext(start, data, i + 2);
      FeedNext(start, data, i + 3);
      r := Xor(crc, Word(data[i], data[i + 1], data[i + 2], data[i + 3]));
      r := Look(r);
      r := Look(r);
      r := Look(r);
      r := Look(r);
    }

    /** pj_crc32_update, for data at any address. */
    method Update(data: octets, address: nat) returns (r: bv32)
      requires Valid()
      modifies this
      ensures Valid() && fed == old(fed) + data && r == Crc(fed)
    {
      hide Feed, Xor;
      ghost var start := FeedAll(NEGL, fed);
      XorLaws(start, NEGL, 0);
      var crc := Xor(state, NEGL);
      var i := 0;
      assert data[..0] == [];
      while (address + i) % 4 != 0 && i < |data|
        invariant 0 <= i <= |data| && crc == FeedAll(start, data[..i]) && fed == old(fed)
        decreases |data| - i
      {
        crc := FeedByTable(crc, data, i, start);
        i := i + 1;
      }
      while |data| - i >= 4
        invariant 0 <= i <= |data| && crc == FeedAll(start, data[..i]) && fed == old(fed)
      {
        crc := FeedWord(crc, data, i, start);
        i := i + 4;
      }
      while i < |data|
        invariant 0 <= i <= |data| && crc == FeedAll(start, data[..i]) && fed == old(fed)
      {
        crc := FeedByTable(crc, data, i, start);
        i := i + 1;
      }
      assert data[..i] == data;
      FeedAppend(NEGL, fed, data);
      state := Xor(crc, NEGL);
      fed := fed + data;
      return state;
    }

    /** pj_crc32_final */
    method Final() returns (r: bv32)
      requires Valid()
      ensures r == Crc(fed)
    {
      return state;
    }
  }

  class BitCrc {
    var state: bv32
    ghost var fed: octets

    ghost predicate Valid()
      reads this
    {
      state == FeedAll(NEGL, fed)
    }

    constructor ()
      ensures Valid() && fed == []
    {
      state, fed := NEGL, [];
    }

    /** The inner loop of pj_crc32_update. */
    method EightBits(x: bv32) returns (temp: bv32)
      ensures temp == Shift8(x)
    {
      hide Shift;
      temp := x;
      ShiftEight(x);
      for j := 0 to 8
        invariant ShiftTimes(temp, 8 - j) == Shift8(x)
      {
        ShiftIs(temp);
        temp := if temp & 1 == 1 then (temp >> 1) ^ POLY else temp >> 1;
      }
    }

    /** pj_crc32_update */
    method Update(data: octets) returns (r: bv32)
      requires Valid()
      modifies this
      ensures Valid() && fed == old(fed) + data && r == Crc(fed)
    {
      hide Shift8, Xor, Xor8, High, Low, Wide;
      var crc := state;
      assert data[..0] == [];
      for i := 0 to |data|
        invariant crc == FeedAll(state, data[..i]) && state == old(state) && fed == old(fed)
      {
        FeedNext(state, data, i);
        var temp := EightBits(Wide(Xor8(Low(crc), data[i])));
        crc := Xor(High(crc), temp);
      }
      assert data[..|data|] == data;
      FeedAppend(NEGL, fed, data);
      state := crc;
      fed := fed + data;
      return Xor(crc, NEGL);
    }

    /** pj_crc32_final */
    method Final() returns (r: bv32)
      requires Valid()
      modifies `state
      ensures r == Crc(fed) && state == r
    {
      state := Xor(state, NEGL);
      return state;
    }
  }

  function ShiftTimes(x: bv32, n: nat): bv32
    decreases n
  {
    if n == 0 then x else ShiftTimes(Shift(x), n - 1)
  }

  lemma ShiftIs(x: bv32)
    ensures Shift(x) == if x & 1 == 1 then (x >> 1) ^ POLY else x >> 1
  {
  }

  lemma ShiftEight(x: bv32)
    ensures ShiftTimes(x, 8) == Shift8(x)
  {
    hide Shift;
    var x4 := Shift(Shift(Shift(Shift(x))));
    assert ShiftTimes(x, 8) == ShiftTimes(x4, 4);
  }

  /** However data is split, and wherever the pieces are, both builds give the CRC-32 of the whole. */
  method CalcPieces(pieces: seq<octets>, addresses: seq<nat>) returns (byTable: bv32, byBits: bv32)
    requires |addresses| == |pieces|
    ensures byTable == byBits == Crc(Concat(pieces))
  {
    hide Crc, FeedAll;
    var t := new TableCrc();
    var b := new BitCrc();
    for i := 0 to |pieces|
      invariant t.Valid() && b.Valid() && t.fed == b.fed == Concat(pieces[..i])
    {
      assert pieces[..i + 1][..i] == pieces[..i];
      var r := t.Update(pieces[i], addresses[i]);
      r := b.Update(pieces[i]);
    }
    assert pieces[..|pieces|] == pieces;
    byTable := t.Final();
    byBits := b.Final();
  }
}
