/** Parsing of DNS packets (dns.c, parse_query, parse_rr and pj_dns_parse_packet). */
module DnsParse {
  import opened Bytes
  import opened Dns
  import opened DnsNames

  const HEADER: nat := 12
  const MAX_SECTION: nat := 256

  datatype Error = BadName | BadSize | BadClass | TooMany

  datatype Result<+T> = Ok(value: T) | Err(error: Error)
  {
    predicate IsFailure() { Err? }
    function PropagateFailure<U>(): Result<U> requires Err? { Err(error) }
    function Extract(): T requires Ok? { value }
  }

  /** What was read, and where reading goes on. */
  datatype Read<+T> = Read(item: T, end: nat)

  function R16(pkt: bytes, p: nat): nat
    requires p + 2 <= |pkt|
  {
    pkt[p] as int * 256 + pkt[p + 1]
  }

  function R32(pkt: bytes, p: nat): nat
    requires p + 4 <= |pkt|
  {
    R16(pkt, p) * 0x1_0000 + R16(pkt, p + 2)
  }

  function ParseName(pkt: bytes, p: nat): (r: Result<Read<Name>>)
    ensures r.Ok? ==> p < r.value.end <= |pkt|
  {
    SizeMatchesText(pkt, 0, p);
    if NameText(pkt, 0, p).None? then Err(BadName)
    else Ok(Read(NameText(pkt, 0, p).value, p + NameSize(pkt, 0, p).value.parsed))
  }

  function ParseQuestion(pkt: bytes, p: nat): (r: Result<Read<Question>>)
    ensures r.Ok? ==> p < r.value.end <= |pkt|
  {
    var name :- ParseName(pkt, p);
    if name.end + 4 > |pkt| then Err(BadSize)
    else Ok(Read(Question(name.item, R16(pkt, name.end), R16(pkt, name.end + 2)), name.end + 4))
  }

  predicate KnownType(t: nat) {
    t in {TYPE_A, TYPE_AAAA, TYPE_CNAME, TYPE_NS, TYPE_PTR, TYPE_SRV}
  }

  function ParseData(pkt: bytes, p: nat, rtype: nat, rdlength: nat): (r: Result<Read<RData>>)
    requires p + rdlength <= |pkt|
    ensures r.Ok? ==> p <= r.value.end <= |pkt|
  {
    if rtype == TYPE_A then
      if p + 4 > |pkt| then Err(BadSize) else Ok(Read(Address(pkt[p..p + 4]), p + 4))
    else if rtype == TYPE_AAAA then
      if p + 16 > |pkt| then Err(BadSize) else Ok(Read(Address(pkt[p..p + 16]), p + 16))
    else if rtype == TYPE_CNAME || rtype == TYPE_NS || rtype == TYPE_PTR then
      var name :- ParseName(pkt, p);
      Ok(Read(Target(name.item), name.end))
    else if rtype == TYPE_SRV then
      if p + 6 > |pkt| then Err(BadSize)
      else
        var name :- ParseName(pkt, p + 6);
        Ok(Read(Service(R16(pkt, p), R16(pkt, p + 2), R16(pkt, p + 4), name.item), name.end))
    else Ok(Read(Raw(pkt[p..p + rdlength]), p + rdlength))
  }

  function ParseRecord(pkt: bytes, p: nat): (r: Result<Read<Record>>)
    ensures r.Ok? ==> p < r.value.end <= |pkt|
  {
    var name :- ParseName(pkt, p);
    var b := name.end;
    if b + 10 > |pkt| then Err(BadSize)
    else
      var rtype, rclass, ttl, rdlength := R16(pkt, b), R16(pkt, b + 2), R32(pkt, b + 4), R16(pkt, b + 8);
      if rclass != CLASS_IN && KnownType(rtype) then Err(BadClass)
      else if b + 10 + rdlength > |pkt| then Err(BadSize)
      else
        var data :- ParseData(pkt, b + 10, rtype, rdlength);
        Ok(Read(Record(name.item, rtype, rclass, ttl, rdlength, data.item), data.end))
  }

  function ParseQuestions(pkt: bytes, p: nat, n: nat): (r: Result<Read<seq<Question>>>)
    requires p <= |pkt|
    ensures r.Ok? ==> r.value.end <= |pkt|
    decreases n
  {
    if n == 0 then Ok(Read([], p))
    else
      var q :- ParseQuestion(pkt, p);
      var qs :- ParseQuestions(pkt, q.end, n - 1);
      Ok(Read([q.item] + qs.item, qs.end))
  }

  function ParseRecords(pkt: bytes, p: nat, n: nat): (r: Result<Read<seq<Record>>>)
    requires p <= |pkt|
    ensures r.Ok? ==> r.value.end <= |pkt|
    decreases n
  {
    if n == 0 then Ok(Read([], p))
    else
      var x :- ParseRecord(pkt, p);
      var xs :- ParseRecords(pkt, x.end, n - 1);
      Ok(Read([x.item] + xs.item, xs.end))
  }

  function ParsePacket(pkt: bytes): Result<Packet> {
    if |pkt| < HEADER then Err(BadSize)
    else
      var qd, an, au, ad := R16(pkt, 4), R16(pkt, 6), R16(pkt, 8), R16(pkt, 10);
      if qd > MAX_SECTION || an > MAX_SECTION || au > MAX_SECTION || ad > MAX_SECTION then Err(TooMany)
      else
        var questions :- ParseQuestions(pkt, HEADER, qd);
        var answers :- ParseRecords(pkt, questions.end, an);
        var authority :- ParseRecords(pkt, answers.end, au);
        var additional :- ParseRecords(pkt, authority.end, ad);
        Ok(Packet(R16(pkt, 0), R16(pkt, 2), questions.item, answers.item, authority.item, additional.item))
  }

  // ---------------------------------------------------------------------
  // The parser of the source
  // ---------------------------------------------------------------------

  method ReadAName(pkt: bytes, p: nat) returns (r: Result<Read<Name>>)
    ensures r == ParseName(pkt, p)
  {
    var ok, name, parsed := ReadName(pkt, p);
    r := if ok then Ok(Read(name, p + parsed)) else Err(BadName);
  }

  method ReadQuestion(pkt: bytes, p: nat) returns (r: Result<Read<Question>>)
    ensures r == ParseQuestion(pkt, p)
  {
    var name := ReadAName(pkt, p);
    if name.Err? { return Err(name.error); }
    var q := name.value.end;
    if q + 4 > |pkt| { return Err(BadSize); }
    return Ok(Read(Question(name.value.item, R16(pkt, q), R16(pkt, q + 2)), q + 4));
  }

  method ReadData(pkt: bytes, p: nat, rtype: nat, rdlength: nat) returns (r: Result<Read<RData>>)
    requires p + rdlength <= |pkt|
    ensures r == ParseData(pkt, p, rtype, rdlength)
  {
    if rtype == TYPE_A {
      if p + 4 > |pkt| { return Err(BadSize); }
      return Ok(Read(Address(pkt[p..p + 4]), p + 4));
    } else if rtype == TYPE_AAAA {
      if p + 16 > |pkt| { return Err(BadSize); }
      return Ok(Read(Address(pkt[p..p + 16]), p + 16));
    } else if rtype == TYPE_CNAME || rtype == TYPE_NS || rtype == TYPE_PTR {
      var name := ReadAName(pkt, p);
      if name.Err? { return Err(name.error); }
      return Ok(Read(Target(name.value.item), name.value.end));
    } else if rtype == TYPE_SRV {
      if p + 6 > |pkt| { return Err(BadSize); }
      var name := ReadAName(pkt, p + 6);
      if name.Err? { return Err(name.error); }
      return Ok(Read(Service(R16(pkt, p), R16(pkt, p + 2), R16(pkt, p + 4), name.value.item), name.value.end));
    } else {
      return Ok(Read(Raw(pkt[p..p + rdlength]), p + rdlength));
    }
  }

  method ReadRecord(pkt: bytes, p: nat) returns (r: Result<Read<Record>>)
    ensures r == ParseRecord(pkt, p)
  {
    var name := ReadAName(pkt, p);
    if name.Err? { return Err(name.error); }
    var b := name.value.end;
    if b + 10 > |pkt| { return Err(BadSize); }
    var rtype, rclass, ttl, rdlength := R16(pkt, b), R16(pkt, b + 2), R32(pkt, b + 4), R16(pkt, b + 8);
    if rclass != CLASS_IN {
      if KnownType(rtype) { return Err(BadClass); }
    }
    if b + 10 + rdlength > |pkt| { return Err(BadSize); }
    var data := ReadData(pkt, b + 10, rtype, rdlength);
    if data.Err? { return Err(data.error); }
    return Ok(Read(Record(name.value.item, rtype, rclass, ttl, rdlength, data.value.item), data.value.end));
  }

  /** Prepends what has been read to a result. */
  ghost function After<T>(done: seq<T>, r: Result<Read<seq<T>>>): Result<Read<seq<T>>> {
    if r.Err? then r else Ok(Read(done + r.value.item, r.value.end))
  }

  method ReadQuestions(pkt: bytes, p: nat, n: nat) returns (r: Result<Read<seq<Question>>>)
    requires p <= |pkt|
    ensures r == ParseQuestions(pkt, p, n)
  {
    hide ParseQuestion;
    var items: seq<Question>, at: nat := [], p;
    ghost var all := ParseQuestions(pkt, p, n);
    if all.Ok? { assert [] + all.value.item == all.value.item; }
    for i := 0 to n
      invariant at <= |pkt| && After(items, ParseQuestions(pkt, at, n - i)) == all
    {
      var x := ReadQuestion(pkt, at);
      if x.Err? { return Err(x.error); }
      QuestionAdvances(pkt, at);
      ghost var rest := ParseQuestions(pkt, x.value.end, n - i - 1);
      if rest.Ok? { assert items + ([x.value.item] + rest.value.item) == items + [x.value.item] + rest.value.item; }
      items, at := items + [x.value.item], x.value.end;
    }
    assert items + [] == items;
    return Ok(Read(items, at));
  }

  lemma QuestionAdvances(pkt: bytes, p: nat)
    ensures ParseQuestion(pkt, p).Ok? ==> ParseQuestion(pkt, p).value.end <= |pkt|
  {
  }

  method ReadRecords(pkt: bytes, p: nat, n: nat) returns (r: Result<Read<seq<Record>>>)
    requires p <= |pkt|
    ensures r == ParseRecords(pkt, p, n)
  {
    hide ParseRecord;
    var items: seq<Record>, at: nat := [], p;
    ghost var all := ParseRecords(pkt, p, n);
    if all.Ok? { assert [] + all.value.item == all.value.item; }
    for i := 0 to n
      invariant at <= |pkt| && After(items, ParseRecords(pkt, at, n - i)) == all
    {
      var x := ReadRecord(pkt, at);
      if x.Err? { return Err(x.error); }
      RecordAdvances(pkt, at);
      ghost var rest := ParseRecords(pkt, x.value.end, n - i - 1);
      if rest.Ok? { assert items + ([x.value.item] + rest.value.item) == items + [x.value.item] + rest.value.item; }
      items, at := items + [x.value.item], x.value.end;
    }
    assert items + [] == items;
    return Ok(Read(items, at));
  }

  lemma RecordAdvances(pkt: bytes, p: nat)
    ensures ParseRecord(pkt, p).Ok? ==> ParseRecord(pkt, p).value.end <= |pkt|
  {
  }

  /** pj_dns_parse_packet */
  method ReadPacket(pkt: bytes) returns (r: Result<Packet>)
    ensures r == ParsePacket(pkt)
  {
    hide ParseQuestions, ParseRecords;
    if |pkt| < HEADER { return Err(BadSize); }
    var qd, an, au, ad := R16(pkt, 4), R16(pkt, 6), R16(pkt, 8), R16(pkt, 10);
    if qd > MAX_SECTION || an > MAX_SECTION || au > MAX_SECTION || ad > MAX_SECTION { return Err(TooMany); }
    var questions := ReadQuestions(pkt, HEADER, qd);
    if questions.Err? { return Err(questions.error); }
    var answers := ReadRecords(pkt, questions.value.end, an);
    if answers.Err? { return Err(answers.error); }
    var authority := ReadRecords(pkt, answers.value.end, au);
    if authority.Err? { return Err(authority.error); }
    var additional := ReadRecords(pkt, authority.value.end, ad);
    if additional.Err? { return Err(additional.error); }
    return Ok(Packet(R16(pkt, 0), R16(pkt, 2), questions.value.item, answers.value.item,
                     authority.value.item, additional.value.item));
  }
}
