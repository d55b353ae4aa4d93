/** Parsed DNS packets and their duplication (dns.c, pj_dns_packet_dup). */
module Dns {
  import opened Bytes

  type Name = bytes

  const TYPE_A: nat := 1
  const TYPE_NS: nat := 2
  const TYPE_CNAME: nat := 5
  const TYPE_PTR: nat := 12
  const TYPE_AAAA: nat := 28
  const TYPE_SRV: nat := 33
  const CLASS_IN: nat := 1
  const MAX_NAMETABLE: nat := 16

  datatype Question = Question(name: Name, qtype: nat, qclass: nat)

  /** The decoded data of a record: an address, a name (CNAME, NS, PTR), a service, or raw octets. */
  datatype RData =
    | Address(ip: bytes)
    | Target(target: Name)
    | Service(prio: nat, weight: nat, port: nat, host: Name)
    | Raw(data: bytes)

  datatype Record = Record(name: Name, rtype: nat, rclass: nat, ttl: nat, rdlength: nat, rdata: RData)

  datatype Packet = Packet(id: nat, flags: nat, questions: seq<Question>, answers: seq<Record>,
                           authority: seq<Record>, additional: seq<Record>)
  {
    function Rcode(): nat { flags % 16 }
    predicate Truncated() { flags / 0x200 % 2 == 1 }
    predicate IsResponse() { flags / 0x8000 % 2 == 1 }
  }

  // ---------------------------------------------------------------------
  // Duplication
  // ---------------------------------------------------------------------

  predicate SameData(a: RData, b: RData) {
    if a.Service? && b.Service? then SameName(a.host, b.host) && b == a.(host := b.host) else a == b
  }

  /** b is a copy of a, but for the letter case of its name and service host. */
  predicate SameRecord(a: Record, b: Record) {
    && SameName(a.name, b.name) && SameData(a.rdata, b.rdata)
    && b == a.(name := b.name, rdata := b.rdata)
  }

  predicate SameQuestion(a: Question, b: Question) {
    SameName(a.name, b.name) && b == a.(name := b.name)
  }

  /** dup is pkt without its authority and additional sections, up to letter case in names. */
  predicate IsDup(pkt: Packet, dup: Packet) {
    && dup.id == pkt.id && dup.flags == pkt.flags
    && |dup.questions| == |pkt.questions| && |dup.answers| == |pkt.answers|
    && dup.authority == [] && dup.additional == []
    && (forall i :: 0 <= i < |pkt.questions| ==> SameQuestion(pkt.questions[i], dup.questions[i]))
    && (forall i :: 0 <= i < |pkt.answers| ==> SameRecord(pkt.answers[i], dup.answers[i]))
  }

  /** apply_name_table: takes the name from the table, or copies it and enters it while there is room. */
  method Intern(table: seq<Name>, name: Name) returns (r: Name, table': seq<Name>)
    requires |table| <= MAX_NAMETABLE
    ensures SameName(name, r) && |table'| <= MAX_NAMETABLE && table <= table'
    ensures r == name || r in table
    ensures r in table' || |table| == MAX_NAMETABLE
  {
    var i := 0;
    while i < |table|
      invariant 0 <= i <= |table|
      invariant forall j :: 0 <= j < i ==> !SameName(table[j], name)
    {
      if SameName(table[i], name) {
        SameNameSymmetric(table[i], name);
        return table[i], table;
      }
      i := i + 1;
    }
    return name, if |table| < MAX_NAMETABLE then table + [name] else table;
  }

  lemma SameNameSymmetric(a: Name, b: Name)
    requires SameName(a, b)
    ensures SameName(b, a)
  {
    forall i | 0 <= i < |b| && (forall j :: 0 <= j < i ==> b[j] != 0) ensures Lower(b[i]) == Lower(a[i]) {
      NoNulTransfers(a, b, i);
    }
  }

  lemma {:induction false} NoNulTransfers(a: Name, b: Name, i: nat)
    requires SameName(a, b) && i <= |b|
    requires forall j :: 0 <= j < i ==> b[j] != 0
    ensures forall j :: 0 <= j < i ==> a[j] != 0
  {
    if i > 0 {
      NoNulTransfers(a, b, i - 1);
      assert Lower(a[i - 1]) == Lower(b[i - 1]);
    }
  }

  method CopyRecord(table: seq<Name>, rec: Record) returns (r: Record, table': seq<Name>)
    requires |table| <= MAX_NAMETABLE
    ensures SameRecord(rec, r) && |table'| <= MAX_NAMETABLE
  {
    var name;
    name, table' := Intern(table, rec.name);
    r := rec.(name := name);
    if rec.rdata.Service? {
      var host;
      host, table' := Intern(table', rec.rdata.host);
      r := r.(rdata := rec.rdata.(host := host));
    }
  }

  /** pj_dns_packet_dup with the options that leave out the authority and additional sections. */
  method Duplicate(pkt: Packet) returns (dup: Packet)
    ensures IsDup(pkt, dup)
  {
    var table: seq<Name> := [];
    var questions := [];
    for i := 0 to |pkt.questions|
      invariant |questions| == i && |table| <= MAX_NAMETABLE
      invariant forall j :: 0 <= j < i ==> SameQuestion(pkt.questions[j], questions[j])
    {
      var name;
      name, table := Intern(table, pkt.questions[i].name);
      questions := questions + [pkt.questions[i].(name := name)];
    }
    var answers := [];
    for i := 0 to |pkt.answers|
      invariant |answers| == i && |table| <= MAX_NAMETABLE
      invariant forall j :: 0 <= j < i ==> SameRecord(pkt.answers[j], answers[j])
    {
      var rec;
      rec, table := CopyRecord(table, pkt.answers[i]);
      answers := answers + [rec];
    }
    dup := Packet(pkt.id, pkt.flags, questions, answers, [], []);
  }
}
