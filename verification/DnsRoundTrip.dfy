/** Parsing a printed packet gives the packet back. */
module DnsRoundTrip {
  import opened Bytes
  import opened Dns
  import opened DnsNames
  import opened DnsPrint
  import opened DnsParse

  lemma Word(pkt: bytes, p: nat, v: nat)
    requires At(pkt, p, W16(v)) && v < 0x1_0000
    ensures R16(pkt, p) == v
  {
    assert pkt[p] == W16(v)[0] && pkt[p + 1] == W16(v)[1];
  }

  lemma DoubleWord(pkt: bytes, p: nat, v: nat)
    requires At(pkt, p, W32(v)) && v < 0x1_0000_0000
    ensures R32(pkt, p) == v
  {
    AtSplit(pkt, p, W16(v / 0x1_0000), W16(v % 0x1_0000));
    Word(pkt, p, v / 0x1_0000);
    Word(pkt, p + 2, v % 0x1_0000);
  }

  // ---------------------------------------------------------------------
  // Uncompressed names
  // ---------------------------------------------------------------------

  /** The root, or labels of 1 to 191 octets between single dots. */
  predicate GoodName(name: Name) {
    name == [] || GoodLabels(name)
  }

  predicate GoodLabels(name: Name)
    decreases |name|
  {
    var k := DotIndex(name);
    1 <= k < 0xC0 && (k == |name| || GoodLabels(name[k + 1..]))
  }

  lemma NameSplits(name: Name)
    requires GoodLabels(name)
    ensures var k, rest := DotIndex(name), AfterLabel(name);
            && 1 <= k < 0xC0 && GoodName(rest) && (rest == [] <==> k == |name|) && |rest| < |name|
            && (forall j :: k < j < |name| ==> j - k - 1 < |rest| && name[j] == rest[j - k - 1])
            && |name| == k + (if rest == [] then 0 else 1 + |rest|)
  {
    hide Encode;
    var k := DotIndex(name);
    if k < |name| { assert GoodLabels(name[k + 1..]); }
  }

  lemma EncodeSplits(name: Name)
    requires GoodLabels(name)
    ensures Encode(name) == [DotIndex(name)] + name[..DotIndex(name)] + Encode(AfterLabel(name))
    ensures Encode(name)[0] == DotIndex(name)
  {
  }

  lemma FirstIsZero(name: Name)
    requires GoodName(name)
    ensures Encode(name)[0] == 0 <==> name == []
  {
  }

  lemma Rejoin(name: Name)
    requires GoodLabels(name)
    ensures var k, rest := DotIndex(name), AfterLabel(name);
            name[..k] + (if rest == [] then [] else [DOT]) + rest == name
  {
    hide GoodName, GoodLabels, Encode;
    NameSplits(name);
  }

  /** The uncompressed form decodes to the name, wherever it stands and at any pointer depth. */
  lemma {:induction false} EncodedDecodes(pkt: bytes, rec: nat, p: nat, name: Name)
    requires GoodName(name) && At(pkt, p, Encode(name)) && rec <= MAX_RECURSION
    ensures p < |pkt| && LabelsText(pkt, rec, p) == Some(name)
    ensures LabelsSize(pkt, rec, p) == Some(Size(|Encode(name)|, |name|))
    decreases |name|
  {
    hide GoodLabels, DotIndex, Encode, LabelsText, LabelsSize, At, LabelPiece, NameText, NameSize;
    if name == [] {
      EncodedRoot(pkt, rec, p);
    } else {
      NameSplits(name);
      EncodeSplits(name);
      var k, rest := DotIndex(name), AfterLabel(name);
      AtSplit(pkt, p, [k] + name[..k], Encode(rest));
      AtSplit(pkt, p, [k], name[..k]);
      EncodedDecodes(pkt, rec, p + 1 + k, rest);
      FirstIsZero(rest);
      LabelDecodes(pkt, rec, p, k, name[..k], rest);
      Rejoin(name);
    }
  }

  lemma EncodedRoot(pkt: bytes, rec: nat, p: nat)
    requires At(pkt, p, Encode([])) && rec <= MAX_RECURSION
    ensures p < |pkt| && LabelsText(pkt, rec, p) == Some([])
    ensures LabelsSize(pkt, rec, p) == Some(Size(|Encode([])|, 0))
  {
    AtFirst(pkt, p, Encode([]));
  }

  lemma LabelDecodes(pkt: bytes, rec: nat, p: nat, k: byte, text: Name, rest: Name)
    requires At(pkt, p, [k]) && At(pkt, p + 1, text) && At(pkt, p + 1 + k, Encode(rest))
    requires rec <= MAX_RECURSION && 1 <= k < 0xC0 && |text| == k && (Encode(rest)[0] == 0 <==> rest == [])
    requires p + 1 + k < |pkt| && LabelsText(pkt, rec, p + 1 + k) == Some(rest)
    requires LabelsSize(pkt, rec, p + 1 + k) == Some(Size(|Encode(rest)|, |rest|))
    ensures LabelsText(pkt, rec, p) == Some(text + (if rest == [] then [] else [DOT]) + rest)
    ensures LabelsSize(pkt, rec, p) ==
              Some(Size(1 + k + |Encode(rest)|, k + (if rest == [] then 0 else 1) + |rest|))
  {
    hide Encode;
    AtFirst(pkt, p, [k]);
    AtFirst(pkt, p + 1 + k, Encode(rest));
    assert LabelPiece(pkt, p) == text + (if rest == [] then [] else [DOT]);
  }

  // ---------------------------------------------------------------------
  // The label table
  // ---------------------------------------------------------------------

  function LabelLengths(name: Name): set<nat>
    decreases |name|
  {
    if name == [] then {} else {DotIndex(name)} + LabelLengths(AfterLabel(name))
  }

  /** No octet of n, but for dots, equals the length of a label of m. */
  predicate NoClash(m: Name, n: Name) {
    forall i :: 0 <= i < |n| && n[i] != DOT ==> n[i] !in LabelLengths(m)
  }

  /** What the slot of a name is compared by. */
  function Compared(name: Name): bytes {
    Encode(name)[1..1 + |name|]
  }

  /** No name of the set compares equal to the slot of another one. */
  ghost predicate Unambiguous(names: iset<Name>) {
    forall m, n :: m in names && n in names && Compared(m) == n ==> m == n
  }

  /** After its first octet the uncompressed form has the name's octets, and label lengths for dots. */
  lemma {:induction false} EncodeAt(name: Name, j: nat)
    requires GoodName(name) && j < |name|
    ensures name[j] != DOT ==> Encode(name)[j + 1] == name[j]
    ensures name[j] == DOT ==> Encode(name)[j + 1] in LabelLengths(name)
    decreases |name|
  {
    hide Encode, GoodLabels, DotIndex, AfterLabel, LabelLengths;
    var k, rest := DotIndex(name), AfterLabel(name);
    NameSplits(name);
    EncodeSplits(name);
    LengthsSplit(name);
    EncodeParts(name, k, rest, j);
    if j == k {
      FirstOctet(rest);
    } else if j > k {
      EncodeAt(rest, j - k - 1);
    }
  }

  lemma EncodeParts(name: Name, k: nat, rest: Name, j: nat)
    requires k <= |name| && k < 256 && j < |name| && Encode(name) == [k] + name[..k] + Encode(rest)
    ensures j < k ==> Encode(name)[j + 1] == name[j]
    ensures j >= k ==> j - k < |Encode(rest)| && Encode(name)[j + 1] == Encode(rest)[j - k]
  {
    hide Encode;
    CodeAt(k, name[..k], Encode(rest), j + 1);
  }

  lemma CodeAt(k: byte, front: bytes, back: bytes, i: nat)
    requires i < 1 + |front| + |back|
    ensures ([k] + front + back)[i] == if i == 0 then k else if i <= |front| then front[i - 1] else back[i - 1 - |front|]
  {
  }

  lemma LengthsSplit(name: Name)
    requires name != []
    ensures DotIndex(name) in LabelLengths(name)
    ensures forall k :: k in LabelLengths(AfterLabel(name)) ==> k in LabelLengths(name)
  {
    hide DotIndex, AfterLabel;
  }

  lemma FirstOctet(name: Name)
    requires GoodLabels(name)
    ensures Encode(name)[0] == DotIndex(name) && DotIndex(name) in LabelLengths(name)
  {
    hide Encode;
    EncodeSplits(name);
    LengthsSplit(name);
  }

  lemma NoClashIsEnough(m: Name, n: Name)
    requires GoodName(m) && Compared(m) == n && NoClash(m, n)
    ensures m == n
  {
    hide Encode, GoodName;
    forall j | 0 <= j < |m| ensures m[j] == n[j] {
      assert n[j] == Encode(m)[1..1 + |m|][j] == Encode(m)[j + 1];
      EncodeAt(m, j);
    }
  }

  /** Slot i stands for names[i], which is printed in full at its position. */
  ghost predicate TableFor(out: bytes, table: seq<Slot>, names: seq<Name>, all: iset<Name>) {
    && |names| == |table|
    && forall i :: 0 <= i < |table| ==>
         && GoodName(names[i]) && names[i] in all
         && table[i].pos < 0x4000 && table[i].len == |names[i]| && At(out, table[i].pos, Encode(names[i]))
  }

  lemma TableGrows(out: bytes, out': bytes, table: seq<Slot>, names: seq<Name>, all: iset<Name>)
    requires TableFor(out, table, names, all) && out <= out'
    ensures TableFor(out', table, names, all)
  {
    hide Encode, GoodName;
    forall i | 0 <= i < |table| ensures At(out', table[i].pos, Encode(names[i])) {
      AtGrows(out, out', table[i].pos, Encode(names[i]));
    }
  }

  lemma SlotOctets(out: bytes, s: Slot, code: bytes)
    requires At(out, s.pos, code) && 1 + s.len <= |code|
    ensures SlotText(out, s) == code[1..1 + s.len]
  {
    assert code == code[..1] + code[1..1 + s.len] + code[1 + s.len..];
    AtSplit(out, s.pos, code[..1] + code[1..1 + s.len], code[1 + s.len..]);
    AtSplit(out, s.pos, code[..1], code[1..1 + s.len]);
  }

  lemma FoundSlot(d: Draft, names: seq<Name>, all: iset<Name>, name: Name, i: nat)
    requires d.Valid() && TableFor(d.out, d.table, names, all)
    requires i < |d.table| && SlotText(d.out, d.table[i]) == name
    ensures names[i] in all && Compared(names[i]) == name && GoodName(names[i])
  {
    hide GoodName, At, Encode, SlotText;
    SlotOctets(d.out, d.table[i], Encode(names[i]));
  }

  /** The table stands for names of a set in which names cannot be taken for each other. */
  ghost predicate Tabled(d: Draft, all: iset<Name>) {
    d.Valid() && Unambiguous(all) && exists names :: TableFor(d.out, d.table, names, all)
  }

  /** A printed name, compressed or not, parses to the name; the table keeps standing for names. */
  lemma PrintedName(pkt: bytes, d: Draft, before: bytes, name: Name, all: iset<Name>)
    requires Tabled(d, all) && GoodName(name) && name in all
    requires PutName(d, before, name).out <= pkt && |pkt| <= 0x4000
    ensures var e := PutName(d, before, name);
            && Tabled(e, all) && d.out + before <= e.out
            && ParseName(pkt, |d.out| + |before|) == Ok(Read(name, |e.out|))
  {
    hide GoodName, Encode, At, NameText, NameSize, W16, NameCode, NameTable, SlotsIn, TableFor, SlotText;
    var names :| TableFor(d.out, d.table, names, all);
    var i := Find(d.out, d.table, name);
    if i < |d.table| {
      PrintedPointer(pkt, d, before, name, names, all);
    } else {
      var names' := PrintedInFull(pkt, d, before, name, names, all);
    }
  }

  /** A pointer parses to the name its slot stands for, whatever name was printed. */
  lemma PrintedPointer(pkt: bytes, d: Draft, before: bytes, name: Name, names: seq<Name>, all: iset<Name>)
    requires d.Valid() && TableFor(d.out, d.table, names, all)
    requires PutName(d, before, name).out <= pkt
    requires Find(d.out, d.table, name) < |d.table|
    ensures var e, i := PutName(d, before, name), Find(d.out, d.table, name);
            && TableFor(e.out, e.table, names, all) && d.out + before <= e.out
            && |names| == |d.table| && names[i] in all && Compared(names[i]) == name
            && ParseName(pkt, |d.out| + |before|) == Ok(Read(names[i], |e.out|))
  {
    hide GoodName, Encode, At, NameText, NameSize, SlotsIn;
    var e := PutName(d, before, name);
    var i := Find(d.out, d.table, name);
    AtEnd(pkt, d.out + before, NameCode(d.out, d.table, name));
    TableGrows(d.out, e.out, d.table, names, all);
    FoundSlot(d, names, all, name, i);
    AtGrows(e.out, pkt, d.table[i].pos, Encode(names[i]));
    PointerDecodes(pkt, |d.out| + |before|, d.table[i].pos, names[i]);
  }

  lemma PointerDecodes(pkt: bytes, p: nat, pos: nat, name: Name)
    requires At(pkt, p, W16(0xC000 + pos % 0x4000)) && pos < 0x4000
    requires GoodName(name) && At(pkt, pos, Encode(name))
    ensures NameText(pkt, 0, p) == Some(name) && NameSize(pkt, 0, p) == Some(Size(2, |name|))
  {
    hide GoodName, Encode;
    Word(pkt, p, 0xC000 + pos);
    assert pkt[p] as int * 256 + pkt[p + 1] == 0xC000 + pos;
    assert pkt[p] >= 0xC0 && PointerOffset(pkt, p) == pos;
    EncodedDecodes(pkt, 1, pos, name);
  }

  lemma PrintedInFull(pkt: bytes, d: Draft, before: bytes, name: Name, names: seq<Name>, all: iset<Name>)
    returns (names': seq<Name>)
    requires d.Valid() && TableFor(d.out, d.table, names, all)
    requires GoodName(name) && name in all
    requires PutName(d, before, name).out <= pkt && |pkt| <= 0x4000
    requires Find(d.out, d.table, name) == |d.table|
    ensures var e := PutName(d, before, name);
            && TableFor(e.out, e.table, names', all) && d.out + before <= e.out
            && ParseName(pkt, |d.out| + |before|) == Ok(Read(name, |e.out|))
  {
    hide GoodName, Encode, At, LabelsText, LabelsSize, SlotsIn;
    var e, p := PutName(d, before, name), |d.out| + |before|;
    AtEnd(pkt, d.out + before, Encode(name));
    AtEnd(e.out, d.out + before, Encode(name));
    TableGrows(d.out, e.out, d.table, names, all);
    EncodedDecodes(pkt, 0, p, name);
    names' := if |d.table| < MAX_LABEL then names + [name] else names;
  }

  // ---------------------------------------------------------------------
  // Questions and records
  // ---------------------------------------------------------------------

  predicate IsWord(v: int) { v < 0x1_0000 }

  ghost predicate QuestionFits(q: Question, all: iset<Name>) {
    IsWord(q.qtype) && IsWord(q.qclass) && GoodName(q.name) && q.name in all
  }

  ghost predicate RecordFits(r: Record, all: iset<Name>) {
    && HasForm(r) && IsWord(r.rtype) && IsWord(r.rclass) && r.ttl < 0x1_0000_0000 && GoodName(r.name) && r.name in all
    && (Supported(r) ==> r.rclass == CLASS_IN) && (r.rdata.Raw? ==> IsWord(|r.rdata.data|))
    && (r.rdata.Target? ==> GoodName(r.rdata.target) && r.rdata.target in all)
    && (r.rdata.Service? ==>
          && GoodName(r.rdata.host) && r.rdata.host in all
          && IsWord(r.rdata.prio) && IsWord(r.rdata.weight) && IsWord(r.rdata.port))
  }

  lemma PrintedBytes(pkt: bytes, d: Draft, b: bytes, all: iset<Name>)
    requires Tabled(d, all) && PutBytes(d, b).out <= pkt
    ensures Tabled(PutBytes(d, b), all) && d.out <= PutBytes(d, b).out && At(pkt, |d.out|, b)
  {
    hide TableFor, At, SlotsIn;
    var names :| TableFor(d.out, d.table, names, all);
    TableGrows(d.out, d.out + b, d.table, names, all);
    AtEnd(pkt, d.out, b);
  }

  lemma PrintedQuestion(pkt: bytes, d: Draft, q: Question, all: iset<Name>)
    requires Tabled(d, all) && QuestionFits(q, all)
    requires PutQuestion(d, q).out <= pkt && |pkt| <= 0x4000
    ensures var e := PutQuestion(d, q);
            Tabled(e, all) && d.out <= e.out && ParseQuestion(pkt, |d.out|) == Ok(Read(q, |e.out|))
  {
    hide Unambiguous, TableFor, SlotsIn, GoodName, PutName, At, ParseName, W16, R16;
    var h := PutName(d, [], q.name);
    var tail := W16(q.qtype) + W16(q.qclass);
    assert h.out <= h.out + tail <= pkt;
    PrintedName(pkt, d, [], q.name, all);
    PrintedBytes(pkt, h, tail, all);
    WordSize(q.qtype);
    WordSize(q.qclass);
    AtSplit(pkt, |h.out|, W16(q.qtype), W16(q.qclass));
    Word(pkt, |h.out|, q.qtype);
    Word(pkt, |h.out| + 2, q.qclass);
  }

  lemma WordSize(v: nat)
    ensures |W16(v)| == 2 && |W32(v)| == 4
  {
  }

  /** A record up to its data length. */
  lemma PrintedHead(pkt: bytes, d: Draft, r: Record, all: iset<Name>)
    requires Tabled(d, all) && RecordFits(r, all)
    requires PutHead(d, r).out <= pkt && |pkt| <= 0x4000
    ensures var h := PutHead(d, r);
            && Tabled(h, all) && d.out <= h.out && |d.out| + 9 <= |h.out|
            && var b := |h.out| - 8;
               && ParseName(pkt, |d.out|) == Ok(Read(r.name, b))
               && R16(pkt, b) == r.rtype && R16(pkt, b + 2) == r.rclass && R32(pkt, b + 4) == r.ttl
  {
    hide Unambiguous, TableFor, SlotsIn, GoodName, PutName, At, ParseName, W16, R16, W32, R32;
    var h := PutName(d, [], r.name);
    var tail := W16(r.rtype) + W16(r.rclass) + W32(r.ttl);
    assert h.out <= h.out + tail <= pkt;
    PrintedName(pkt, d, [], r.name, all);
    PrintedBytes(pkt, h, tail, all);
    WordSize(r.rtype);
    WordSize(r.rclass);
    WordSize(r.ttl);
    AtSplit(pkt, |h.out|, W16(r.rtype) + W16(r.rclass), W32(r.ttl));
    AtSplit(pkt, |h.out|, W16(r.rtype), W16(r.rclass));
    Word(pkt, |h.out|, r.rtype);
    Word(pkt, |h.out| + 2, r.rclass);
    DoubleWord(pkt, |h.out| + 4, r.ttl);
  }

  /** What the data of a record, printed as e after h, parses to. */
  ghost predicate DataParsed(pkt: bytes, h: Draft, e: Draft, r: Record, all: iset<Name>) {
    && Tabled(e, all) && h.out <= e.out && |h.out| + 2 <= |e.out| <= |pkt|
    && var len := R16(pkt, |h.out|);
       && |h.out| + 2 + len == |e.out|
       && (r.rdata.Address? ==> len == |r.rdata.ip|) && (r.rdata.Raw? ==> len == |r.rdata.data|)
       && ParseData(pkt, |h.out| + 2, r.rtype, len) == Ok(Read(r.rdata, |e.out|))
  }

  lemma PrintedAddress(pkt: bytes, h: Draft, r: Record, all: iset<Name>)
    requires Tabled(h, all) && RecordFits(r, all) && r.rdata.Address?
    requires PutData(h, r.rdata).out <= pkt
    ensures DataParsed(pkt, h, PutData(h, r.rdata), r, all)
  {
    hide Unambiguous, TableFor, SlotsIn, GoodName, ParseName, W16, R16;
    var ip := r.rdata.ip;
    PrintedBytes(pkt, h, W16(|ip|) + ip, all);
    WordSize(|ip|);
    AtSplit(pkt, |h.out|, W16(|ip|), ip);
    Word(pkt, |h.out|, |ip|);
  }

  /** The data of any other type is passed over by its length. */
  lemma PrintedRaw(pkt: bytes, h: Draft, r: Record, all: iset<Name>)
    requires Tabled(h, all) && RecordFits(r, all) && r.rdata.Raw?
    requires PutData(h, r.rdata).out <= pkt
    ensures DataParsed(pkt, h, PutData(h, r.rdata), r, all)
  {
    hide Unambiguous, TableFor, SlotsIn, GoodName, ParseName, W16, R16;
    var data := r.rdata.data;
    PrintedBytes(pkt, h, W16(|data|) + data, all);
    WordSize(|data|);
    AtSplit(pkt, |h.out|, W16(|data|), data);
    Word(pkt, |h.out|, |data|);
  }

  lemma PrintedTarget(pkt: bytes, h: Draft, r: Record, all: iset<Name>)
    requires Tabled(h, all) && RecordFits(r, all) && r.rdata.Target?
    requires PutData(h, r.rdata).out <= pkt && |pkt| <= 0x4000
    ensures DataParsed(pkt, h, PutData(h, r.rdata), r, all)
  {
    hide Unambiguous, TableFor, SlotsIn, GoodName, ParseName, W16, R16, NameCode, NameTable, At;
    var code := NameCode(h.out, h.table, r.rdata.target);
    WordSize(|code|);
    PrintedName(pkt, h, W16(|code|), r.rdata.target, all);
    AtEnd(pkt, h.out, W16(|code|));
    Word(pkt, |h.out|, |code|);
  }

  lemma PrintedService(pkt: bytes, h: Draft, r: Record, all: iset<Name>)
    requires Tabled(h, all) && RecordFits(r, all) && r.rdata.Service?
    requires PutData(h, r.rdata).out <= pkt && |pkt| <= 0x4000
    ensures DataParsed(pkt, h, PutData(h, r.rdata), r, all)
  {
    hide Unambiguous, TableFor, SlotsIn, GoodName, ParseName, W16, R16, NameCode, NameTable, At;
    var code := NameCode(h.out, h.table, r.rdata.host);
    var a, b, c, l := r.rdata.prio, r.rdata.weight, r.rdata.port, 6 + |code|;
    var before := W16(l) + W16(a) + W16(b) + W16(c);
    PrintedName(pkt, h, before, r.rdata.host, all);
    AtEnd(pkt, h.out, before);
    FourWords(pkt, |h.out|, l, a, b, c);
  }

  lemma FourWords(pkt: bytes, p: nat, a: nat, b: nat, c: nat, d: nat)
    requires At(pkt, p, W16(a) + W16(b) + W16(c) + W16(d)) && IsWord(a) && IsWord(b) && IsWord(c) && IsWord(d)
    ensures |W16(a) + W16(b) + W16(c) + W16(d)| == 8 && p + 8 <= |pkt|
    ensures R16(pkt, p) == a && R16(pkt, p + 2) == b && R16(pkt, p + 4) == c && R16(pkt, p + 6) == d
  {
    hide At, R16, W16;
    WordSize(a);
    WordSize(b);
    WordSize(c);
    WordSize(d);
    AtSplit(pkt, p, W16(a) + W16(b) + W16(c), W16(d));
    AtSplit(pkt, p, W16(a) + W16(b), W16(c));
    AtSplit(pkt, p, W16(a), W16(b));
    Word(pkt, p, a);
    Word(pkt, p + 2, b);
    Word(pkt, p + 4, c);
    Word(pkt, p + 6, d);
  }

  lemma PrintedData(pkt: bytes, h: Draft, r: Record, all: iset<Name>)
    requires Tabled(h, all) && RecordFits(r, all)
    requires PutData(h, r.rdata).out <= pkt && |pkt| <= 0x4000
    ensures DataParsed(pkt, h, PutData(h, r.rdata), r, all)
  {
    hide PutData, Tabled, DataParsed;
    match r.rdata
    case Address(_) => PrintedAddress(pkt, h, r, all);
    case Target(_) => PrintedTarget(pkt, h, r, all);
    case Service(_, _, _, _) => PrintedService(pkt, h, r, all);
    case Raw(_) => PrintedRaw(pkt, h, r, all);
  }

  lemma DataGrows(h: Draft, data: RData)
    requires h.Valid()
    ensures h.out <= PutData(h, data).out
  {
  }

  /** b is a but for the data length, which the parser takes from the packet. */
  predicate SameButLength(a: Record, b: Record) {
    && b == a.(rdlength := b.rdlength)
    && (a.rdata.Address? ==> b.rdlength == |a.rdata.ip|) && (a.rdata.Raw? ==> b.rdlength == |a.rdata.data|)
  }

  lemma PrintedRecord(pkt: bytes, d: Draft, r: Record, all: iset<Name>)
    requires Tabled(d, all) && RecordFits(r, all)
    requires PutRecord(d, r).out <= pkt && |pkt| <= 0x4000
    ensures var e, x := PutRecord(d, r), ParseRecord(pkt, |d.out|);
            && Tabled(e, all) && d.out <= e.out
            && x.Ok? && SameButLength(r, x.value.item) && x.value.end == |e.out|
  {
    hide Unambiguous, TableFor, SlotsIn, GoodName, PutHead, PutData, ParseName, ParseData, R16, R32;
    var h := PutHead(d, r);
    DataGrows(h, r.rdata);
    PrintedHead(pkt, d, r, all);
    PrintedData(pkt, h, r, all);
  }

  // ---------------------------------------------------------------------
  // Sections and packets
  // ---------------------------------------------------------------------

  lemma {:induction false} QuestionsGrow(d: Draft, qs: seq<Question>)
    requires d.Valid()
    ensures d.out <= PutQuestions(d, qs).out
    decreases |qs|
  {
    if qs != [] { QuestionsGrow(PutQuestion(d, qs[0]), qs[1..]); }
  }

  lemma {:induction false} RecordsGrow(d: Draft, rs: seq<Record>)
    requires d.Valid() && forall i :: 0 <= i < |rs| ==> HasForm(rs[i])
    ensures d.out <= PutRecords(d, rs).out
    decreases |rs|
  {
    hide PutData, SlotsIn;
    if rs != [] {
      DataGrows(PutHead(d, rs[0]), rs[0].rdata);
      RecordsGrow(PutRecord(d, rs[0]), rs[1..]);
    }
  }

  lemma {:induction false} PrintedQuestions(pkt: bytes, d: Draft, qs: seq<Question>, all: iset<Name>)
    requires Tabled(d, all) && forall i :: 0 <= i < |qs| ==> QuestionFits(qs[i], all)
    requires PutQuestions(d, qs).out <= pkt && |pkt| <= 0x4000
    ensures var e := PutQuestions(d, qs);
            && Tabled(e, all) && d.out <= e.out
            && ParseQuestions(pkt, |d.out|, |qs|) == Ok(Read(qs, |e.out|))
    decreases |qs|
  {
    hide Unambiguous, TableFor, SlotsIn, PutQuestion, ParseQuestion, QuestionFits;
    QuestionsGrow(d, qs);
    if qs != [] {
      var e := PutQuestion(d, qs[0]);
      QuestionsGrow(e, qs[1..]);
      PrintedQuestion(pkt, d, qs[0], all);
      PrintedQuestions(pkt, e, qs[1..], all);
      assert [qs[0]] + qs[1..] == qs;
    }
  }

  predicate SameRecords(a: seq<Record>, b: seq<Record>) {
    |a| == |b| && forall i :: 0 <= i < |a| ==> SameButLength(a[i], b[i])
  }

  lemma {:induction false} PrintedRecords(pkt: bytes, d: Draft, rs: seq<Record>, all: iset<Name>)
    requires Tabled(d, all) && forall i :: 0 <= i < |rs| ==> HasForm(rs[i]) && RecordFits(rs[i], all)
    requires PutRecords(d, rs).out <= pkt && |pkt| <= 0x4000
    ensures var e := PutRecords(d, rs);
            && Tabled(e, all) && d.out <= e.out
            && var x := ParseRecords(pkt, |d.out|, |rs|);
               x.Ok? && SameRecords(rs, x.value.item) && x.value.end == |e.out|
    decreases |rs|
  {
    hide Unambiguous, TableFor, SlotsIn, PutRecord, ParseRecord, RecordFits, HasForm, SameButLength;
    RecordsGrow(d, rs);
    if rs != [] {
      var e := PutRecord(d, rs[0]);
      RecordsGrow(e, rs[1..]);
      PrintedRecord(pkt, d, rs[0], all);
      PrintedRecords(pkt, e, rs[1..], all);
    }
  }

  ghost predicate PacketFits(p: Packet, all: iset<Name>) {
    && IsWord(p.id) && IsWord(p.flags)
    && |p.questions| <= MAX_SECTION && |p.answers| <= MAX_SECTION
    && |p.authority| <= MAX_SECTION && |p.additional| <= MAX_SECTION
    && (forall i :: 0 <= i < |p.questions| ==> QuestionFits(p.questions[i], all))
    && (forall i :: 0 <= i < |p.answers| ==> RecordFits(p.answers[i], all))
    && (forall i :: 0 <= i < |p.authority| ==> RecordFits(p.authority[i], all))
    && (forall i :: 0 <= i < |p.additional| ==> RecordFits(p.additional[i], all))
  }

  predicate SamePacket(p: Packet, q: Packet) {
    && q.id == p.id && q.flags == p.flags && q.questions == p.questions
    && SameRecords(p.answers, q.answers) && SameRecords(p.authority, q.authority)
    && SameRecords(p.additional, q.additional)
  }

  lemma FitsHasForm(p: Packet, all: iset<Name>)
    requires PacketFits(p, all)
    ensures AllHaveForm(p)
  {
    hide HasForm, Supported, GoodName, QuestionFits;
  }

  lemma PrintedHeader(pkt: bytes, p: Packet, all: iset<Name>)
    requires PacketFits(p, all) && PutHeader(p).out <= pkt
    ensures |PutHeader(p).out| == HEADER <= |pkt|
    ensures R16(pkt, 0) == p.id && R16(pkt, 2) == p.flags
    ensures R16(pkt, 4) == |p.questions| && R16(pkt, 6) == |p.answers|
    ensures R16(pkt, 8) == |p.authority| && R16(pkt, 10) == |p.additional|
  {
    hide R16, W16, QuestionFits, RecordFits, At;
    var q, a, n, x := |p.questions|, |p.answers|, |p.authority|, |p.additional|;
    var front, back := W16(p.id) + W16(p.flags) + W16(q) + W16(a), W16(n) + W16(x);
    assert front + W16(n) + W16(x) == front + back;
    assert [] + (front + back) == front + back;
    WordSize(n);
    WordSize(x);
    AtEnd(pkt, [], front + back);
    AtSplit(pkt, 0, front, back);
    FourWords(pkt, 0, p.id, p.flags, q, a);
    AtSplit(pkt, 8, W16(n), W16(x));
    Word(pkt, 8, n);
    Word(pkt, 10, x);
  }

  lemma HeaderTabled(p: Packet, all: iset<Name>)
    requires Unambiguous(all)
    ensures Tabled(PutHeader(p), all)
  {
    assert TableFor(PutHeader(p).out, [], [], all);
  }

  predicate RoundTrips(p: Packet)
    requires AllHaveForm(p)
  {
    var r := ParsePacket(PrintPacket(p));
    r.Ok? && SamePacket(p, r.value)
  }

  /** The packet comes back, if it is not too long for its pointers. */
  ghost predicate ComesBack(p: Packet, all: iset<Name>)
    requires PacketFits(p, all)
  {
    FitsHasForm(p, all);
    |PrintPacket(p)| <= 0x4000 ==> RoundTrips(p)
  }

  /**
   * Parsing a printed packet gives the packet back, but for its data lengths,
   * for every packet over a set of names that cannot be taken for each other.
   */
  lemma RoundTrip(p: Packet, all: iset<Name>)
    requires PacketFits(p, all) && Unambiguous(all)
    ensures ComesBack(p, all)
  {
    FitsHasForm(p, all);
    if |PrintPacket(p)| <= 0x4000 { SectionsRoundTrip(p, all); }
  }

  lemma SectionsRoundTrip(p: Packet, all: iset<Name>)
    requires PacketFits(p, all) && Unambiguous(all) && AllHaveForm(p) && |PrintPacket(p)| <= 0x4000
    ensures RoundTrips(p)
  {
    hide Unambiguous, TableFor, SlotsIn, PutQuestions, PutRecords, PutHeader, ParseQuestions, ParseRecords, R16,
      RecordFits, QuestionFits, HasForm;
    var pkt := PrintPacket(p);
    var d0 := PutHeader(p);
    var d1 := PutQuestions(d0, p.questions);
    var d2 := PutRecords(d1, p.answers);
    var d3 := PutRecords(d2, p.authority);
    var d4 := PutRecords(d3, p.additional);
    QuestionsGrow(d0, p.questions);
    RecordsGrow(d1, p.answers);
    RecordsGrow(d2, p.authority);
    RecordsGrow(d3, p.additional);
    PrintedHeader(pkt, p, all);
    HeaderTabled(p, all);
    PrintedQuestions(pkt, d0, p.questions, all);
    PrintedRecords(pkt, d1, p.answers, all);
    PrintedRecords(pkt, d2, p.authority, all);
    PrintedRecords(pkt, d3, p.additional, all);
  }

  // ---------------------------------------------------------------------
  // Which names may be used
  // ---------------------------------------------------------------------

  /** Labels of at most 44 octets, none below '-'. */
  predicate PlainName(name: Name) {
    && GoodName(name) && (forall i :: 0 <= i < |name| ==> name[i] >= '-' as int)
    && forall k :: k in LabelLengths(name) ==> k < '-' as int
  }

  ghost function PlainNames(): iset<Name> { iset name: Name | PlainName(name) }

  lemma PlainIsUnambiguous()
    ensures Unambiguous(PlainNames())
  {
    hide GoodName, LabelLengths, Compared;
    forall m: Name, n: Name | PlainName(m) && PlainName(n) && Compared(m) == n ensures m == n {
      NoClashIsEnough(m, n);
    }
  }

  /** In particular, every packet with such names comes back. */
  lemma PlainRoundTrip(p: Packet)
    requires PacketFits(p, PlainNames())
    ensures ComesBack(p, PlainNames())
  {
    hide Unambiguous, PacketFits, PlainNames, ComesBack;
    PlainIsUnambiguous();
    RoundTrip(p, PlainNames());
  }

  /** Two questions, for names that may be taken for each other. */
  function Asking(m: Name, n: Name): Packet {
    Packet(0, 0, [Question(m, TYPE_A, CLASS_IN), Question(n, TYPE_A, CLASS_IN)], [], [], [])
  }

  lemma AskingPrints(m: Name, n: Name)
    ensures var d := PutQuestion(PutHeader(Asking(m, n)), Question(m, TYPE_A, CLASS_IN));
            && |d.out| == HEADER + |Encode(m)| + 4 && |d.table| == 1
            && PutQuestions(PutHeader(Asking(m, n)), Asking(m, n).questions) ==
                 PutQuestion(d, Question(n, TYPE_A, CLASS_IN))
  {
    hide Encode, SlotText;
    var d0 := PutHeader(Asking(m, n));
    var d1 := PutQuestion(d0, Question(m, TYPE_A, CLASS_IN));
    var d2 := PutQuestion(d1, Question(n, TYPE_A, CLASS_IN));
    assert Asking(m, n).questions[1..] == [Question(n, TYPE_A, CLASS_IN)];
    assert PutQuestions(d2, []) == d2;
    assert PutQuestions(d1, [Question(n, TYPE_A, CLASS_IN)]) == d2;
  }

  /** A name that compares equal to the slot of another one is printed as a pointer to that. */
  lemma MistakenName(pkt: bytes, d: Draft, m: Name, n: Name)
    requires Tabled(d, iset{m}) && |d.table| == 1 && Compared(m) == n
    requires PutName(d, [], n).out <= pkt
    ensures ParseName(pkt, |d.out|) == Ok(Read(m, |d.out| + 2))
    ensures |PutName(d, [], n).out| == |d.out| + 2
  {
    hide GoodName, Encode, At, ParseName;
    var names :| TableFor(d.out, d.table, names, iset{m});
    assert names[0] == m;
    SlotOctets(d.out, d.table[0], Encode(m));
    assert FindFrom(d.out, d.table, n, 0) == 0;
    PrintedPointer(pkt, d, [], n, names, iset{m});
  }

  lemma MistakenQuestion(pkt: bytes, d: Draft, m: Name, q: Question)
    requires Tabled(d, iset{m}) && |d.table| == 1 && Compared(m) == q.name
    requires PutQuestion(d, q).out <= pkt
    ensures |PutQuestion(d, q).out| == |d.out| + 6
    ensures var x := ParseQuestion(pkt, |d.out|); x.Ok? ==> x.value.item.name == m
  {
    hide Unambiguous, TableFor, SlotsIn, PutName, ParseName;
    var e := PutName(d, [], q.name);
    assert PutQuestion(d, q).out == e.out + (W16(q.qtype) + W16(q.qclass));
    MistakenName(pkt, d, m, q.name);
  }

  lemma TwoQuestions(pkt: bytes, p: nat)
    requires p <= |pkt| && ParseQuestion(pkt, p).Ok? && ParseQuestions(pkt, p, 2).Ok?
    ensures |ParseQuestions(pkt, p, 2).value.item| == 2
    ensures var x := ParseQuestion(pkt, ParseQuestion(pkt, p).value.end);
            x.Ok? && ParseQuestions(pkt, p, 2).value.item[1] == x.value.item
  {
    hide ParseQuestion;
    QuestionAdvances(pkt, p);
    var x := ParseQuestion(pkt, p);
    var rest := ParseQuestions(pkt, x.value.end, 1);
    assert rest.Ok? && |rest.value.item| == 1;
  }

  /** The size of the packet that asks for m and n, and where its second question stands. */
  lemma AskingSize(m: Name, n: Name)
    requires GoodName(m) && Compared(m) == n && |m| <= 0x3F00
    ensures var p := Asking(m, n);
            var d := PutQuestion(PutHeader(p), p.questions[0]);
            && Tabled(PutHeader(p), iset{m}) && |PutHeader(p).out| == HEADER
            && PrintPacket(p) == PutQuestion(d, p.questions[1]).out && |PrintPacket(p)| <= 0x4000
            && PutHeader(p).out <= d.out <= PrintPacket(p)
            && Tabled(d, iset{m}) && |d.table| == 1
  {
    hide Unambiguous, TableFor, SlotsIn, PutQuestion, PutHeader, PutQuestions, GoodName, Compared, Encode;
    var p := Asking(m, n);
    var d0 := PutHeader(p);
    var d1 := PutQuestion(d0, p.questions[0]);
    var d2 := PutQuestion(d1, p.questions[1]);
    AskingPrints(m, n);
    EncodeFits(m);
    SingleIsUnambiguous(m);
    HeaderTabled(p, iset{m});
    HeaderSize(p);
    PrintedQuestion(d1.out, d0, p.questions[0], iset{m});
    QuestionGrows(d1, p.questions[1]);
    MistakenQuestion(d2.out, d1, m, p.questions[1]);
  }

  lemma SingleIsUnambiguous(m: Name)
    ensures Unambiguous(iset{m})
  {
  }

  lemma HeaderSize(p: Packet)
    ensures |PutHeader(p).out| == HEADER
  {
  }

  lemma QuestionGrows(d: Draft, q: Question)
    requires d.Valid()
    ensures d.out <= PutQuestion(d, q).out
  {
  }

  lemma Mistaken(m: Name, n: Name)
    requires GoodName(m) && GoodName(n) && Compared(m) == n && m != n && |m| <= 0x3F00
    ensures |PrintPacket(Asking(m, n))| <= 0x4000 && !RoundTrips(Asking(m, n))
  {
    hide Unambiguous, TableFor, SlotsIn, PutQuestion, PutHeader, PutQuestions, PrintPacket,
      R16, GoodName, Compared, Encode, ParseQuestion, ParseQuestions;
    var p := Asking(m, n);
    var pkt, d0 := PrintPacket(p), PutHeader(p);
    var d1 := PutQuestion(d0, p.questions[0]);
    AskingSize(m, n);
    PrintedHeader(pkt, p, iset{m, n});
    PrintedQuestion(pkt, d0, p.questions[0], iset{m});
    MistakenQuestion(pkt, d1, m, p.questions[1]);
    if ParseQuestions(pkt, HEADER, 2).Ok? { TwoQuestions(pkt, HEADER); }
  }

  /** Such names are there: the dot of the first is the length of the label after it in the second. */
  lemma AmbiguousPair()
    ensures var m, n := [97, DOT, 98], [97, 1, 98];
            GoodName(m) && GoodName(n) && Compared(m) == n && m != n && !RoundTrips(Asking(m, n))
  {
    var m, n: Name := [97, DOT, 98], [97, 1, 98];
    assert m[2..] == [98] && m[1..] == [DOT, 98] && n[1..] == [1, 98] && n[2..] == [98] && [98][1..] == [];
    assert DotIndex([98]) == 1 && DotIndex(m) == 1;
    assert DotIndex([1, 98]) == 2 && DotIndex(n) == 3;
    assert Encode([98]) == [1, 98, 0];
    assert Encode(m) == [1, 97, 1, 98, 0];
    assert GoodLabels([98]);
    Mistaken(m, n);
  }

  /**
   * Over short names, all packets come back exactly if no name compares equal
   * to the slot of another one.
   */
  lemma RoundTripIffUnambiguous(all: iset<Name>)
    requires forall n :: n in all ==> GoodName(n) && |n| <= 0x3F00
    ensures Unambiguous(all) <==>
              forall p :: PacketFits(p, all) ==> ComesBack(p, all)
  {
    hide GoodName, Compared, PacketFits, AllHaveForm, PrintPacket, RoundTrips;
    if Unambiguous(all) {
      forall p | PacketFits(p, all) ensures ComesBack(p, all) { RoundTrip(p, all); }
    } else {
      var m, n :| m in all && n in all && Compared(m) == n && m != n;
      Mistaken(m, n);
      AskingFits(m, n, all);
      assert !ComesBack(Asking(m, n), all);
    }
  }

  lemma AskingFits(m: Name, n: Name, all: iset<Name>)
    requires GoodName(m) && GoodName(n) && m in all && n in all
    ensures PacketFits(Asking(m, n), all) && AllHaveForm(Asking(m, n))
  {
    hide GoodName;
  }

  /** A query for a name of at most 0x3F00 octets parses to its one question. */
  lemma QueryRoundTrip(id: nat, qtype: nat, name: Name)
    requires IsWord(id) && IsWord(qtype) && GoodName(name) && |name| <= 0x3F00
    ensures AllHaveForm(Query(id, qtype, name))
    ensures ParsePacket(PrintPacket(Query(id, qtype, name))) == Ok(Packet(id, 256, [Question(name, qtype, 1)], [], [], []))
  {
    hide GoodName, PrintPacket, ParsePacket, AllHaveForm, Encode, W16;
    var p := Query(id, qtype, name);
    QueryIsPrinted(id, qtype, name);
    EncodeFits(name);
    WordSizes(id, qtype);
    SingleIsUnambiguous(name);
    RoundTrip(p, iset{name});
  }
}
