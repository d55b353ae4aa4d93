/** Printing of DNS packets with name compression (dns_server.c, print_name, print_rr and print_packet). */
module DnsPrint {
  import opened Bytes
  import opened Dns

  const MAX_LABEL: nat := 32      // slots of the label table
  const DOT: byte := '.' as int

  /** The position of the first dot, or the length. */
  function DotIndex(name: Name): (k: nat)
    ensures k <= |name| && (k < |name| ==> name[k] == DOT)
    ensures forall i :: 0 <= i < k ==> name[i] != DOT
  {
    if name == [] || name[0] == DOT then 0 else
      var j := DotIndex(name[1..]);
      assert forall i :: 1 <= i < j + 1 ==> name[i] == name[1..][i - 1];
      1 + j
  }

  function AfterLabel(name: Name): Name {
    var k := DotIndex(name);
    if k < |name| then name[k + 1..] else []
  }

  /** The uncompressed form of a name: each label after its length, then a zero octet. */
  function Encode(name: Name): (r: bytes)
    ensures |r| >= 1 + |name|
    decreases |name|
  {
    if name == [] then [0] else
      var k := DotIndex(name);
      [k % 256] + name[..k] + Encode(AfterLabel(name))
  }

  function W16(v: nat): bytes { [v / 256 % 256, v % 256] }

  function W32(v: nat): bytes { W16(v / 0x1_0000) + W16(v % 0x1_0000) }

  /** A slot of the label table: where a name was printed, and the length of its text. */
  datatype Slot = Slot(pos: nat, len: nat)

  ghost predicate SlotsIn(out: bytes, table: seq<Slot>) {
    forall i :: 0 <= i < |table| ==> table[i].pos + 1 + table[i].len <= |out|
  }

  /** The octets a slot is compared by: those printed after its first length octet. */
  function SlotText(out: bytes, s: Slot): bytes
    requires s.pos + 1 + s.len <= |out|
  {
    out[s.pos + 1..s.pos + 1 + s.len]
  }

  /** The first slot that compares equal to the name, or the number of slots. */
  function Find(out: bytes, table: seq<Slot>, name: Name): (i: nat)
    requires SlotsIn(out, table)
    ensures i <= |table| && (i < |table| ==> SlotText(out, table[i]) == name)
  {
    FindFrom(out, table, name, 0)
  }

  function FindFrom(out: bytes, table: seq<Slot>, name: Name, k: nat): (i: nat)
    requires SlotsIn(out, table) && k <= |table|
    ensures k <= i <= |table|
    ensures i < |table| ==> SlotText(out, table[i]) == name
    ensures forall j :: k <= j < i ==> SlotText(out, table[j]) != name
    decreases |table| - k
  {
    if k == |table| || SlotText(out, table[k]) == name then k else FindFrom(out, table, name, k + 1)
  }

  /** What is printed for a name: a pointer to an equal slot, or its uncompressed form. */
  function NameCode(out: bytes, table: seq<Slot>, name: Name): bytes
    requires SlotsIn(out, table)
  {
    var i := Find(out, table, name);
    if i < |table| then W16(0xC000 + table[i].pos % 0x4000) else Encode(name)
  }

  /** The label table after a name is printed at pos. */
  function NameTable(out: bytes, table: seq<Slot>, pos: nat, name: Name): seq<Slot>
    requires SlotsIn(out, table)
  {
    if Find(out, table, name) < |table| || |table| >= MAX_LABEL then table else table + [Slot(pos, |name|)]
  }

  /** A packet being printed. */
  datatype Draft = Draft(out: bytes, table: seq<Slot>)
  {
    ghost predicate Valid() { SlotsIn(out, table) }
  }

  function PutBytes(d: Draft, b: bytes): (r: Draft)
    requires d.Valid()
    ensures r.Valid()
  {
    d.(out := d.out + b)
  }

  /** A name preceded by octets that may depend on the size of its code, such as a length. */
  function PutName(d: Draft, before: bytes, name: Name): (r: Draft)
    requires d.Valid()
    ensures r.Valid()
  {
    var code := NameCode(d.out, d.table, name);
    Draft(d.out + before + code, NameTable(d.out, d.table, |d.out| + |before|, name))
  }

  function PutQuestion(d: Draft, q: Question): (r: Draft)
    requires d.Valid()
    ensures r.Valid()
  {
    PutBytes(PutName(d, [], q.name), W16(q.qtype) + W16(q.qclass))
  }

  predicate IsTarget(rtype: nat) { rtype in {TYPE_CNAME, TYPE_NS, TYPE_PTR} }

  /** The records print_rr supports. */
  predicate Supported(r: Record) {
    || (r.rtype == TYPE_A && r.rdata.Address? && |r.rdata.ip| == 4)
    || (r.rtype == TYPE_AAAA && r.rdata.Address? && |r.rdata.ip| == 16)
    || (IsTarget(r.rtype) && r.rdata.Target?)
    || (r.rtype == TYPE_SRV && r.rdata.Service?)
  }

  /** A record of a type that the parser does not decode. */
  predicate Other(r: Record) {
    r.rtype !in {1, 2, 5, 12, 28, 33} && r.rdata.Raw?
  }

  /** The records that have a form in a packet here: those of the printer, and any of other types. */
  predicate HasForm(r: Record) {
    Supported(r) || Other(r)
  }

  function PutHead(d: Draft, r: Record): (e: Draft)
    requires d.Valid()
    ensures e.Valid()
  {
    PutBytes(PutName(d, [], r.name), W16(r.rtype) + W16(r.rclass) + W32(r.ttl))
  }

  function PutData(h: Draft, data: RData): (e: Draft)
    requires h.Valid()
    ensures e.Valid()
  {
    match data
    case Address(ip) => PutBytes(h, W16(|ip|) + ip)
    case Raw(octets) => PutBytes(h, W16(|octets|) + octets)
    case Target(target) => PutName(h, W16(|NameCode(h.out, h.table, target)|), target)
    case Service(prio, weight, port, host) =>
      PutName(h, W16(6 + |NameCode(h.out, h.table, host)|) + W16(prio) + W16(weight) + W16(port), host)
  }

  function PutRecord(d: Draft, r: Record): (e: Draft)
    requires d.Valid() && HasForm(r)
    ensures e.Valid()
  {
    PutData(PutHead(d, r), r.rdata)
  }

  function PutQuestions(d: Draft, qs: seq<Question>): (e: Draft)
    requires d.Valid()
    ensures e.Valid()
    decreases |qs|
  {
    if qs == [] then d else PutQuestions(PutQuestion(d, qs[0]), qs[1..])
  }

  function PutRecords(d: Draft, rs: seq<Record>): (e: Draft)
    requires d.Valid() && forall i :: 0 <= i < |rs| ==> HasForm(rs[i])
    ensures e.Valid()
    decreases |rs|
  {
    if rs == [] then d else PutRecords(PutRecord(d, rs[0]), rs[1..])
  }

  predicate AllSupported(p: Packet) {
    && (forall i :: 0 <= i < |p.answers| ==> Supported(p.answers[i]))
    && (forall i :: 0 <= i < |p.authority| ==> Supported(p.authority[i]))
    && (forall i :: 0 <= i < |p.additional| ==> Supported(p.additional[i]))
  }

  predicate AllHaveForm(p: Packet) {
    && (forall i :: 0 <= i < |p.answers| ==> HasForm(p.answers[i]))
    && (forall i :: 0 <= i < |p.authority| ==> HasForm(p.authority[i]))
    && (forall i :: 0 <= i < |p.additional| ==> HasForm(p.additional[i]))
  }

  function PutHeader(p: Packet): (d: Draft)
    ensures d.Valid()
  {
    Draft(W16(p.id) + W16(p.flags) + W16(|p.questions|) + W16(|p.answers|) + W16(|p.authority|) + W16(|p.additional|), [])
  }

  /** The packet as octets: what is printed, if all its records are supported. */
  function PrintPacket(p: Packet): bytes
    requires AllHaveForm(p)
  {
    var d1 := PutQuestions(PutHeader(p), p.questions);
    var d2 := PutRecords(d1, p.answers);
    var d3 := PutRecords(d2, p.authority);
    PutRecords(d3, p.additional).out
  }

  // ---------------------------------------------------------------------
  // The label loop
  // ---------------------------------------------------------------------

  /** The end of the label that starts at start. */
  method EndOfLabel(name: Name, start: nat) returns (end: nat)
    requires start < |name|
    ensures start <= end <= |name| && (end < |name| ==> name[end] == DOT)
    ensures forall i :: start <= i < end ==> name[i] != DOT
  {
    end := start;
    while end != |name| && name[end] != DOT
      invariant start <= end <= |name|
      invariant forall i :: start <= i < end ==> name[i] != DOT
    {
      end := end + 1;
    }
  }

  /** The loop of print_name and of pj_dns_make_query that writes the labels. */
  method WriteLabels(name: Name) returns (code: bytes)
    ensures code == Encode(name)
  {
    hide Encode, DotIndex;
    code := [];
    var start := 0;
    assert name[0..] == name && [] + Encode(name) == Encode(name);
    while start != |name|
      invariant 0 <= start <= |name|
      invariant code + Encode(name[start..]) == Encode(name)
      decreases |name| - start
    {
      var end := EndOfLabel(name, start);
      LabelEnds(name, start, end);
      AppendCode(code, [(end - start) % 256] + name[start..end], Encode(AfterLabel(name[start..])));
      code := code + ([(end - start) % 256] + name[start..end]);
      start := if end != |name| then end + 1 else end;
    }
    assert name[start..] == [];
    EncodeEmpty();
    code := code + [0];
  }

  // ---------------------------------------------------------------------
  // The printer of the source
  // ---------------------------------------------------------------------

  class Printer {
    var out: bytes           // the packet so far, in a buffer that is large enough
    var table: seq<Slot>

    ghost function View(): Draft
      reads this
    {
      Draft(out, table)
    }

    ghost predicate Valid()
      reads this
    {
      View().Valid()
    }

    constructor ()
      ensures View() == Draft([], [])
    {
      out, table := [], [];
    }

    method Write(b: bytes)
      requires Valid()
      modifies `out
      ensures Valid() && View() == PutBytes(old(View()), b)
    {
      out := out + b;
    }

    /** The loop of print_name over the label table. */
    method FindSlot(name: Name) returns (i: nat)
      requires Valid()
      ensures i == Find(out, table, name)
    {
      hide SlotText;
      i := 0;
      while i < |table| && SlotText(out, table[i]) != name
        invariant 0 <= i <= |table| && FindFrom(out, table, name, i) == FindFrom(out, table, name, 0)
      {
        i := i + 1;
      }
    }

    /** print_name, after the octets that precede the name. */
    method WriteName(before: bytes, name: Name)
      requires Valid()
      modifies this
      ensures Valid() && View() == PutName(old(View()), before, name)
    {
      hide Find, Encode, W16, SlotText, SlotsIn;
      var i := FindSlot(name);
      ghost var d := PutName(View(), before, name);
      if i != |table| {
        out := out + before + W16(0xC000 + table[i].pos % 0x4000);
      } else {
        var pos := |out| + |before|;
        var code := WriteLabels(name);
        if |table| < MAX_LABEL { table := table + [Slot(pos, |name|)]; }
        out := out + before + code;
      }
      assert View() == d;
    }

    method WriteQuestion(q: Question)
      requires Valid()
      modifies this
      ensures Valid() && View() == PutQuestion(old(View()), q)
    {
      hide PutName;
      WriteName([], q.name);
      Write(W16(q.qtype) + W16(q.qclass));
    }

    /** A name whose data length, plus extra octets, is filled in at p once the name is printed. */
    method WriteSized(extra: bytes, name: Name)
      requires Valid()
      modifies this
      ensures Valid()
      ensures View() == PutName(old(View()), W16(|extra| + |NameCode(old(out), old(table), name)|) + extra, name)
    {
      hide NameCode, NameTable, Encode;
      var p := |out|;
      ghost var code := NameCode(out, table, name);
      WriteName([0, 0] + extra, name);
      var len := |out| - p - 2;
      Patched(old(out), extra, code, len);
      out := out[p := len / 256 % 256];
      out := out[p + 1 := len % 256];
    }

    /** print_rr */
    method WriteRecord(r: Record)
      requires Valid() && Supported(r)
      modifies this
      ensures Valid() && View() == PutRecord(old(View()), r)
    {
      hide PutName, NameCode;
      WriteName([], r.name);
      Write(W16(r.rtype) + W16(r.rclass) + W32(r.ttl));
      ghost var h := View();
      match r.rdata
      case Address(ip) =>
        Write(W16(|ip|) + ip);
      case Target(target) =>
        WriteSized([], target);
        assert W16(|NameCode(h.out, h.table, target)|) + [] == W16(|NameCode(h.out, h.table, target)|);
      case Service(prio, weight, port, host) =>
        WriteSized(W16(prio) + W16(weight) + W16(port), host);
        var len := 6 + |NameCode(h.out, h.table, host)|;
        AppendCode(W16(len), W16(prio) + W16(weight), W16(port));
        AppendCode(W16(len), W16(prio), W16(weight));
    }

    method WriteRecords(rs: seq<Record>)
      requires Valid() && forall i :: 0 <= i < |rs| ==> Supported(rs[i])
      modifies this
      ensures Valid() && View() == PutRecords(old(View()), rs)
    {
      hide PutRecord;
      assert rs[0..] == rs;
      for i := 0 to |rs|
        invariant Valid() && PutRecords(View(), rs[i..]) == PutRecords(old(View()), rs)
      {
        assert rs[i..][1..] == rs[i + 1..];
        WriteRecord(rs[i]);
      }
    }

    /** print_packet */
    method WritePacket(p: Packet)
      requires View() == Draft([], []) && AllSupported(p)
      modifies this
      ensures Valid() && out == PrintPacket(p)
    {
      hide PutQuestion, PutRecords;
      out := W16(p.id) + W16(p.flags) + W16(|p.questions|) + W16(|p.answers|) + W16(|p.authority|) + W16(|p.additional|);
      ghost var d := View();
      assert p.questions[0..] == p.questions;
      for i := 0 to |p.questions|
        invariant Valid() && PutQuestions(View(), p.questions[i..]) == PutQuestions(d, p.questions)
      {
        assert p.questions[i..][1..] == p.questions[i + 1..];
        WriteQuestion(p.questions[i]);
      }
      WriteRecords(p.answers);
      WriteRecords(p.authority);
      WriteRecords(p.additional);
    }
  }

  lemma LabelEnds(name: Name, start: nat, end: nat)
    requires start <= end <= |name| && start < |name|
    requires forall i :: start <= i < end ==> name[i] != DOT
    requires end < |name| ==> name[end] == DOT
    ensures DotIndex(name[start..]) == end - start
    ensures AfterLabel(name[start..]) == if end < |name| then name[end + 1..] else name[|name|..]
    ensures Encode(name[start..]) == [(end - start) % 256] + name[start..end] + Encode(AfterLabel(name[start..]))
  {
    hide Encode, DotIndex;
    var rest := name[start..];
    assert forall i :: 0 <= i < |rest| ==> rest[i] == name[start + i];
    var k := DotIndex(rest);
    assert k < |rest| ==> rest[k] == name[start + k];
    assert end < |name| ==> rest[end - start] == DOT;
    assert k == end - start;
    assert rest[..k] == name[start..end];
    EncodeStep(rest);
  }

  lemma EncodeStep(name: Name)
    requires name != []
    ensures var k := DotIndex(name); Encode(name) == [k % 256] + name[..k] + Encode(AfterLabel(name))
  {
    hide DotIndex;
  }

  lemma AppendCode(a: bytes, b: bytes, c: bytes)
    ensures a + (b + c) == a + b + c
  {
  }

  lemma EncodeEmpty()
    ensures Encode([]) == [0]
  {
  }

  lemma Patched(front: bytes, extra: bytes, code: bytes, len: nat)
    ensures var p := |front|;
            (front + ([0, 0] + extra) + code)[p := len / 256 % 256][p + 1 := len % 256] == front + (W16(len) + extra) + code
  {
  }

  // ---------------------------------------------------------------------
  // Queries
  // ---------------------------------------------------------------------

  const RECURSION_DESIRED: nat := 0x100

  /** The packet that a query stands for. */
  function Query(id: nat, qtype: nat, name: Name): Packet {
    Packet(id, RECURSION_DESIRED, [Question(name, qtype, CLASS_IN)], [], [], [])
  }

  lemma {:induction false} EncodeFits(name: Name)
    ensures |Encode(name)| <= |name| + 2
    decreases |name|
  {
    if name != [] { EncodeFits(AfterLabel(name)); }
  }

  lemma QueryIsPrinted(id: nat, qtype: nat, name: Name)
    ensures AllHaveForm(Query(id, qtype, name))
    ensures PrintPacket(Query(id, qtype, name)) ==
              W16(id) + W16(RECURSION_DESIRED) + W16(1) + W16(0) + W16(0) + W16(0)
              + [] + Encode(name) + (W16(qtype) + W16(CLASS_IN))
  {
    hide Encode;
    var p := Query(id, qtype, name);
    var d := PutQuestion(PutHeader(p), p.questions[0]);
    assert p.questions[1..] == [];
    assert PutQuestions(PutHeader(p), p.questions) == d;
  }

  /** pj_dns_make_query; the query fits in the size that is asked for, whatever the name. */
  method MakeQuery(size: nat, id: nat, qtype: nat, name: Name) returns (packet: Option<bytes>)
    ensures packet.Some? <==> qtype != 0 && size >= 12 + |name| + 2 + 4
    ensures packet.Some? ==> |packet.value| <= size
    ensures packet.Some? ==>
              AllHaveForm(Query(id, qtype, name)) && packet.value == PrintPacket(Query(id, qtype, name))
  {
    hide Encode, PrintPacket, AllHaveForm, W16;
    if qtype == 0 || size < 12 + |name| + 2 + 4 { return None; }
    EncodeFits(name);
    QueryIsPrinted(id, qtype, name);
    WordSizes(id, qtype);
    var p := W16(id) + W16(RECURSION_DESIRED) + W16(1) + W16(0) + W16(0) + W16(0);
    assert p + [] == p;
    var code := WriteLabels(name);
    p := p + code;
    p := p + (W16(qtype) + W16(CLASS_IN));
    return Some(p);
  }

  lemma WordSizes(a: nat, b: nat)
    ensures |W16(a)| == |W16(b)| == |W16(RECURSION_DESIRED)| == |W16(0)| == |W16(1)| == |W16(CLASS_IN)| == 2
  {
  }
}
