/**
 * DNS messages by the format of section 4 of RFC 1035, octet by octet, and
 * what the parser of dns.c makes of them.
 */
module DnsWire {
  import opened Bytes
  import opened Dns
  import opened DnsNames
  import opened DnsParse

  // ---------------------------------------------------------------------
  // Names
  // ---------------------------------------------------------------------

  function PointsTo(high: int, low: int): int {
    (high - 192) * 256 + low
  }

  /**
   * The labels stand at p, each after its length, up to a zero octet or to a
   * pointer, two octets with the two highest bits set, to where they go on;
   * hops pointers are followed, and end is where the first part ends. open
   * says that a pointer to a zero octet, and not a zero octet, comes after the
   * last label.
   */
  ghost predicate LabelsAt(pkt: bytes, p: nat, labels: seq<bytes>, open: bool, end: nat, hops: nat)
    decreases hops, |labels|
  {
    && p < |pkt|
    && if pkt[p] >= 192 then
         && hops > 0 && p + 1 < |pkt| && end == p + 2
         && var to, fewer := PointsTo(pkt[p], pkt[p + 1]), hops - 1;
            to < |pkt| && exists e :: LabelsAt(pkt, to, labels, open, e, fewer)
       else if labels == [] then pkt[p] == 0 && end == p + 1 && hops == 0 && !open
       else
         && pkt[p] == |labels[0]| > 0 && p + 1 + pkt[p] < |pkt|
         && (forall i :: 0 <= i < pkt[p] ==> pkt[p + 1 + i] == labels[0][i])
         && var next := p + 1 + pkt[p];
            if |labels| == 1 then open == (pkt[next] != 0) && LabelsAt(pkt, next, [], false, end, hops)
            else LabelsAt(pkt, next, labels[1..], open, end, hops)
  }

  /** The labels with dots between them. */
  function Dotted(labels: seq<bytes>): Name {
    if labels == [] then [] else labels[0] + (if |labels| == 1 then [] else [46]) + Dotted(labels[1..])
  }

  /** A pointer to a zero octet after the last label counts as one more, empty label. */
  function Text(labels: seq<bytes>, open: bool): Name {
    Dotted(labels) + if open then [46] else []
  }

  lemma LabelIsRead(pkt: bytes, p: nat, text: bytes)
    requires p < |pkt| && pkt[p] == |text| && p + 1 + pkt[p] < |pkt|
    requires forall i :: 0 <= i < pkt[p] ==> pkt[p + 1 + i] == text[i]
    ensures LabelPiece(pkt, p) == text + if pkt[p + 1 + pkt[p]] == 0 then [] else [46]
  {
    assert pkt[p + 1..p + 1 + pkt[p]] == text;
  }

  /** At most five pointers are followed: then the name is that of the labels, and otherwise there is none. */
  lemma {:induction false} LabelsAreRead(pkt: bytes, rec: nat, p: nat, labels: seq<bytes>, open: bool, end: nat, hops: nat)
    requires LabelsAt(pkt, p, labels, open, end, hops)
    ensures p < end <= |pkt|
    ensures NameText(pkt, rec, p) == if rec + hops <= 5 then Some(Text(labels, open)) else None
    ensures rec + hops <= 5 ==> NameSize(pkt, rec, p) == Some(Size(end - p, |Text(labels, open)|))
    decreases hops, |labels|
  {
    hide Text, NameText, NameSize, LabelPiece;
    NoText(pkt, rec, p);
    if pkt[p] >= 192 {
      var to, fewer := PointsTo(pkt[p], pkt[p + 1]), hops - 1;
      var e :| LabelsAt(pkt, to, labels, open, e, fewer);
      LabelsAreRead(pkt, rec + 1, to, labels, open, e, fewer);
      Pointed(pkt, rec, p);
    } else if labels != [] {
      var next := p + 1 + pkt[p];
      LabelIsRead(pkt, p, labels[0]);
      TextSplits(labels, open);
      OneMore(pkt, rec, p);
      if |labels| == 1 {
        LabelsAreRead(pkt, rec, next, [], false, end, hops);
        NoText(pkt, rec, next);
        assert LabelPiece(pkt, p) + [] == LabelPiece(pkt, p);
      } else {
        LabelsAreRead(pkt, rec, next, labels[1..], open, end, hops);
        SomeLabel(pkt, next, labels[1..], open, end, hops);
      }
    }
  }

  lemma NoText(pkt: bytes, rec: nat, p: nat)
    requires p < |pkt|
    ensures Text([], false) == []
    ensures pkt[p] == 0 ==> NameText(pkt, rec, p) == if rec <= 5 then Some([]) else None
    ensures pkt[p] == 0 && rec <= 5 ==> NameSize(pkt, rec, p) == Some(Size(1, 0))
  {
  }

  lemma Pointed(pkt: bytes, rec: nat, p: nat)
    requires p + 1 < |pkt| && pkt[p] >= 192
    ensures var to := PointsTo(pkt[p], pkt[p + 1]);
            && (rec <= 5 ==> NameText(pkt, rec, p) == NameText(pkt, rec + 1, to))
            && (rec > 5 ==> NameText(pkt, rec, p) == None)
            && (rec <= 5 && NameSize(pkt, rec + 1, to).Some? ==>
                  NameSize(pkt, rec, p) == Some(Size(2, NameSize(pkt, rec + 1, to).value.length)))
  {
  }

  lemma OneMore(pkt: bytes, rec: nat, p: nat)
    requires p < |pkt| && 0 < pkt[p] < 192 && p + 1 + pkt[p] < |pkt|
    ensures var next := p + 1 + pkt[p];
            && (rec > 5 || NameText(pkt, rec, next).None? ==> NameText(pkt, rec, p).None?)
            && (rec <= 5 && NameText(pkt, rec, next).Some? ==>
                  NameText(pkt, rec, p) == Some(LabelPiece(pkt, p) + NameText(pkt, rec, next).value))
            && (rec <= 5 && NameSize(pkt, rec, next).Some? ==>
                  NameSize(pkt, rec, p) ==
                    Some(Size(pkt[p] + 1 + NameSize(pkt, rec, next).value.parsed,
                              |LabelPiece(pkt, p)| + NameSize(pkt, rec, next).value.length)))
  {
  }

  lemma TextSplits(labels: seq<bytes>, open: bool)
    requires labels != []
    ensures Text(labels, open) ==
              if |labels| == 1 then labels[0] + (if open then [46] else [])
              else labels[0] + [46] + Text(labels[1..], open)
  {
    var o: Name := if open then [46] else [];
    if |labels| == 1 {
      assert Dotted(labels[1..]) == [] && labels[0] + [] + [] == labels[0];
    } else {
      assert labels[0] + [46] + Dotted(labels[1..]) + o == labels[0] + [46] + (Dotted(labels[1..]) + o);
    }
  }

  lemma SomeLabel(pkt: bytes, p: nat, labels: seq<bytes>, open: bool, end: nat, hops: nat)
    requires LabelsAt(pkt, p, labels, open, end, hops) && labels != []
    ensures pkt[p] != 0
  {
  }

  /** Every name that is read has such labels. */
  lemma {:induction false} LabelsAreThere(pkt: bytes, rec: nat, p: nat)
    returns (labels: seq<bytes>, open: bool, end: nat, hops: nat)
    requires NameText(pkt, rec, p).Some?
    ensures LabelsAt(pkt, p, labels, open, end, hops) && rec + hops <= 5
    decreases 6 - rec, |pkt| - p
  {
    hide LabelsAt, NameText, PointsTo;
    TextAt(pkt, rec, p);
    if pkt[p] == 0 {
      labels, open, end, hops := [], false, p + 1, 0;
      NoLabels(pkt, p);
    } else if pkt[p] >= 192 {
      Pointed(pkt, rec, p);
      var e, fewer;
      labels, open, e, fewer := LabelsAreThere(pkt, rec + 1, PointsTo(pkt[p], pkt[p + 1]));
      end, hops := p + 2, fewer + 1;
      LabelsPointed(pkt, p, labels, open, e, fewer);
    } else {
      var next := p + 1 + pkt[p];
      OneMore(pkt, rec, p);
      var rest, o;
      rest, o, end, hops := LabelsAreThere(pkt, rec, next);
      var text := pkt[p + 1..next];
      labels, open := [text] + rest, if rest == [] then pkt[next] != 0 else o;
      LabelsGrow(pkt, p, text, rest, o, end, hops);
    }
  }

  /** Where a name has a text, there is a zero octet, a whole pointer into the packet, or a whole label. */
  lemma TextAt(pkt: bytes, rec: nat, p: nat)
    requires NameText(pkt, rec, p).Some?
    ensures p < |pkt| && rec <= 5
    ensures pkt[p] >= 192 ==> p + 1 < |pkt| && PointsTo(pkt[p], pkt[p + 1]) >= 0
    ensures 0 < pkt[p] < 192 ==> p + 1 + pkt[p] < |pkt|
  {
  }

  lemma NoLabels(pkt: bytes, p: nat)
    requires p < |pkt| && pkt[p] == 0
    ensures LabelsAt(pkt, p, [], false, p + 1, 0)
  {
  }

  lemma LabelsPointed(pkt: bytes, p: nat, labels: seq<bytes>, open: bool, e: nat, fewer: nat)
    requires p + 1 < |pkt| && pkt[p] >= 192 && 0 <= PointsTo(pkt[p], pkt[p + 1])
    requires LabelsAt(pkt, PointsTo(pkt[p], pkt[p + 1]), labels, open, e, fewer)
    ensures LabelsAt(pkt, p, labels, open, p + 2, fewer + 1)
  {
    var to, hops := PointsTo(pkt[p], pkt[p + 1]), fewer + 1;
    assert hops - 1 == fewer && to < |pkt|;
    hide PointsTo;
  }

  lemma LabelsGrow(pkt: bytes, p: nat, text: bytes, rest: seq<bytes>, open: bool, end: nat, hops: nat)
    requires p < |pkt| && 0 < pkt[p] < 192 && p + 1 + pkt[p] < |pkt| && text == pkt[p + 1..p + 1 + pkt[p]]
    requires LabelsAt(pkt, p + 1 + pkt[p], rest, open, end, hops)
    ensures LabelsAt(pkt, p, [text] + rest, if rest == [] then pkt[p + 1 + pkt[p]] != 0 else open, end, hops)
  {
    assert ([text] + rest)[1..] == rest;
    if rest == [] { NothingIsClosed(pkt, p + 1 + pkt[p], open, end, hops); }
  }

  lemma {:induction false} NothingIsClosed(pkt: bytes, p: nat, open: bool, end: nat, hops: nat)
    requires LabelsAt(pkt, p, [], open, end, hops)
    ensures !open
    decreases hops
  {
    if pkt[p] >= 192 {
      var to, fewer := PointsTo(pkt[p], pkt[p + 1]), hops - 1;
      var e :| LabelsAt(pkt, to, [], open, e, fewer);
      NothingIsClosed(pkt, to, open, e, fewer);
    }
  }

  /** The name stands at p, and what comes next at end. */
  ghost predicate NameAt(pkt: bytes, p: nat, name: Name, end: nat) {
    exists labels, open, hops :: NameHas(pkt, p, name, end, labels, open, hops)
  }

  ghost predicate NameHas(pkt: bytes, p: nat, name: Name, end: nat, labels: seq<bytes>, open: bool, hops: nat) {
    LabelsAt(pkt, p, labels, open, end, hops) && hops <= 5 && name == Text(labels, open)
  }

  lemma NameIsRead(pkt: bytes, p: nat, name: Name, end: nat)
    ensures NameAt(pkt, p, name, end) <==> ParseName(pkt, p) == Ok(Read(name, end))
    ensures NameAt(pkt, p, name, end) ==> p < end <= |pkt|
  {
    hide LabelsAt, Text, NameText, NameSize;
    SizeMatchesText(pkt, 0, p);
    if NameAt(pkt, p, name, end) {
      var labels, open, hops: nat :| NameHas(pkt, p, name, end, labels, open, hops);
      LabelsAreRead(pkt, 0, p, labels, open, end, hops);
    }
    if ParseName(pkt, p) == Ok(Read(name, end)) {
      var labels, open, e, hops := LabelsAreThere(pkt, 0, p);
      LabelsAreRead(pkt, 0, p, labels, open, e, hops);
      assert NameHas(pkt, p, name, end, labels, open, hops);
    }
  }

  // ---------------------------------------------------------------------
  // Questions and records
  // ---------------------------------------------------------------------

  /** The octets of numbers, the highest first. */
  predicate WordAt(pkt: bytes, p: nat, v: nat) {
    p + 2 <= |pkt| && v < 65536 && pkt[p] == v / 256 && pkt[p + 1] == v % 256
  }

  predicate LongAt(pkt: bytes, p: nat, v: nat) {
    && p + 4 <= |pkt| && v < 4294967296
    && pkt[p] == v / 16777216 && pkt[p + 1] == v / 65536 % 256 && pkt[p + 2] == v / 256 % 256 && pkt[p + 3] == v % 256
  }

  ghost predicate QuestionAt(pkt: bytes, p: nat, q: Question, end: nat) {
    end >= 4 && NameAt(pkt, p, q.name, end - 4) && WordAt(pkt, end - 4, q.qtype) && WordAt(pkt, end - 2, q.qclass)
  }

  /**
   * The data of a record of the type stands at p and ends at end. What is
   * decoded is read by its own form; the length is that of all other data.
   */
  ghost predicate DataAt(pkt: bytes, p: nat, rtype: nat, length: nat, data: RData, end: nat) {
    if rtype == 1 then data.Address? && |data.ip| == 4 && At(pkt, p, data.ip) && end == p + 4
    else if rtype == 28 then data.Address? && |data.ip| == 16 && At(pkt, p, data.ip) && end == p + 16
    else if rtype in {2, 5, 12} then data.Target? && NameAt(pkt, p, data.target, end)
    else if rtype == 33 then
      && data.Service? && WordAt(pkt, p, data.prio) && WordAt(pkt, p + 2, data.weight)
      && WordAt(pkt, p + 4, data.port) && NameAt(pkt, p + 6, data.host, end)
    else data.Raw? && length == |data.data| && At(pkt, p, data.data) && end == p + length
  }

  /** The record stands at p; b is where its name ends. The records that are decoded are of class IN. */
  ghost predicate RecordHas(pkt: bytes, p: nat, r: Record, end: nat, b: nat) {
    && NameAt(pkt, p, r.name, b)
    && WordAt(pkt, b, r.rtype) && WordAt(pkt, b + 2, r.rclass) && LongAt(pkt, b + 4, r.ttl) && WordAt(pkt, b + 8, r.rdlength)
    && (r.rtype in {1, 2, 5, 12, 28, 33} ==> r.rclass == 1)
    && b + 10 + r.rdlength <= |pkt| && DataAt(pkt, b + 10, r.rtype, r.rdlength, r.rdata, end)
  }

  ghost predicate RecordAt(pkt: bytes, p: nat, r: Record, end: nat) {
    exists b: nat :: RecordHas(pkt, p, r, end, b)
  }

  lemma WordIsRead(pkt: bytes, p: nat, v: nat)
    ensures WordAt(pkt, p, v) <==> p + 2 <= |pkt| && R16(pkt, p) == v
  {
  }

  lemma LongIsRead(pkt: bytes, p: nat, v: nat)
    ensures LongAt(pkt, p, v) <==> p + 4 <= |pkt| && R32(pkt, p) == v
  {
    if p + 4 <= |pkt| {
      FourOctets(pkt[p], pkt[p + 1], pkt[p + 2], pkt[p + 3], v);
    }
  }

  lemma FourOctets(a: int, b: int, c: int, d: int, v: nat)
    requires 0 <= a < 256 && 0 <= b < 256 && 0 <= c < 256 && 0 <= d < 256
    ensures (v < 4294967296 && a == v / 16777216 && b == v / 65536 % 256 && c == v / 256 % 256 && d == v % 256)
            <==> v == (a * 256 + b) * 65536 + (c * 256 + d)
  {
    if v == (a * 256 + b) * 65536 + (c * 256 + d) {
      Octet((a * 256 + b) * 256 + c, d, v);
      Octet(a * 256 + b, c, v / 256);
      Octet(a, b, v / 65536);
    }
  }

  lemma Octet(q: int, r: int, v: nat)
    requires 0 <= r < 256 && v == q * 256 + r
    ensures v / 256 == q && v % 256 == r && v / 65536 == q / 256 && v / 16777216 == q / 65536
  {
  }

  lemma QuestionIsRead(pkt: bytes, p: nat, q: Question, end: nat)
    ensures QuestionAt(pkt, p, q, end) <==> ParseQuestion(pkt, p) == Ok(Read(q, end))
    ensures QuestionAt(pkt, p, q, end) ==> p < end <= |pkt|
  {
    hide NameAt, ParseName, R16, WordAt;
    if end >= 4 {
      NameIsRead(pkt, p, q.name, end - 4);
      WordIsRead(pkt, end - 4, q.qtype);
      WordIsRead(pkt, end - 2, q.qclass);
    }
  }

  lemma DataIsRead(pkt: bytes, p: nat, rtype: nat, length: nat, data: RData, end: nat)
    requires p + length <= |pkt|
    ensures DataAt(pkt, p, rtype, length, data, end) <==> ParseData(pkt, p, rtype, length) == Ok(Read(data, end))
  {
    hide NameAt, ParseName, R16, WordAt;
    if rtype in {2, 5, 12} && data.Target? {
      NameIsRead(pkt, p, data.target, end);
    } else if rtype == 33 && data.Service? {
      NameIsRead(pkt, p + 6, data.host, end);
      WordIsRead(pkt, p, data.prio);
      WordIsRead(pkt, p + 2, data.weight);
      WordIsRead(pkt, p + 4, data.port);
    }
  }

  lemma RecordIsRead(pkt: bytes, p: nat, r: Record, end: nat)
    ensures RecordAt(pkt, p, r, end) <==> ParseRecord(pkt, p) == Ok(Read(r, end))
    ensures RecordAt(pkt, p, r, end) ==> p < end <= |pkt|
  {
    hide NameAt, ParseName, ParseData, DataAt, R16, R32, WordAt, LongAt;
    if RecordAt(pkt, p, r, end) {
      var b: nat :| RecordHas(pkt, p, r, end, b);
      PartsAreRead(pkt, p, r, end, b);
    }
    if ParseRecord(pkt, p) == Ok(Read(r, end)) {
      var b := ParseName(pkt, p).value.end;
      PartsAreRead(pkt, p, r, end, b);
      assert RecordHas(pkt, p, r, end, b);
    }
  }

  lemma PartsAreRead(pkt: bytes, p: nat, r: Record, end: nat, b: nat)
    ensures NameAt(pkt, p, r.name, b) <==> ParseName(pkt, p) == Ok(Read(r.name, b))
    ensures WordAt(pkt, b, r.rtype) <==> b + 2 <= |pkt| && R16(pkt, b) == r.rtype
    ensures WordAt(pkt, b + 2, r.rclass) <==> b + 4 <= |pkt| && R16(pkt, b + 2) == r.rclass
    ensures LongAt(pkt, b + 4, r.ttl) <==> b + 8 <= |pkt| && R32(pkt, b + 4) == r.ttl
    ensures WordAt(pkt, b + 8, r.rdlength) <==> b + 10 <= |pkt| && R16(pkt, b + 8) == r.rdlength
    ensures b + 10 + r.rdlength <= |pkt| ==>
              (DataAt(pkt, b + 10, r.rtype, r.rdlength, r.rdata, end)
               <==> ParseData(pkt, b + 10, r.rtype, r.rdlength) == Ok(Read(r.rdata, end)))
  {
    hide NameAt, ParseName, ParseData, DataAt, R16, R32, WordAt, LongAt;
    NameIsRead(pkt, p, r.name, b);
    WordIsRead(pkt, b, r.rtype);
    WordIsRead(pkt, b + 2, r.rclass);
    LongIsRead(pkt, b + 4, r.ttl);
    WordIsRead(pkt, b + 8, r.rdlength);
    if b + 10 + r.rdlength <= |pkt| { DataIsRead(pkt, b + 10, r.rtype, r.rdlength, r.rdata, end); }
  }

  // ---------------------------------------------------------------------
  // Messages
  // ---------------------------------------------------------------------

  /** The questions, or records, stand one after the other from p to end. */
  ghost predicate QuestionsAt(pkt: bytes, p: nat, qs: seq<Question>, end: nat)
    decreases |qs|
  {
    if qs == [] then p == end else exists e: nat :: QuestionAt(pkt, p, qs[0], e) && QuestionsAt(pkt, e, qs[1..], end)
  }

  ghost predicate RecordsAt(pkt: bytes, p: nat, rs: seq<Record>, end: nat)
    decreases |rs|
  {
    if rs == [] then p == end else exists e: nat :: RecordAt(pkt, p, rs[0], e) && RecordsAt(pkt, e, rs[1..], end)
  }

  lemma {:induction false} QuestionsAreRead(pkt: bytes, p: nat, qs: seq<Question>, end: nat)
    requires p <= |pkt|
    ensures QuestionsAt(pkt, p, qs, end) <==> ParseQuestions(pkt, p, |qs|) == Ok(Read(qs, end))
    ensures QuestionsAt(pkt, p, qs, end) ==> end <= |pkt|
    decreases |qs|
  {
    hide QuestionAt, ParseQuestion;
    if qs != [] {
      assert qs == [qs[0]] + qs[1..];
      if QuestionsAt(pkt, p, qs, end) {
        var e: nat :| QuestionAt(pkt, p, qs[0], e) && QuestionsAt(pkt, e, qs[1..], end);
        QuestionIsRead(pkt, p, qs[0], e);
        QuestionsAreRead(pkt, e, qs[1..], end);
      }
      if ParseQuestions(pkt, p, |qs|) == Ok(Read(qs, end)) {
        var x := ParseQuestion(pkt, p).value;
        QuestionAdvances(pkt, p);
        var rest := ParseQuestions(pkt, x.end, |qs| - 1).value;
        assert ([x.item] + rest.item)[0] == x.item && ([x.item] + rest.item)[1..] == rest.item;
        QuestionIsRead(pkt, p, qs[0], x.end);
        QuestionsAreRead(pkt, x.end, qs[1..], end);
      }
    }
  }

  lemma {:induction false} RecordsAreRead(pkt: bytes, p: nat, rs: seq<Record>, end: nat)
    requires p <= |pkt|
    ensures RecordsAt(pkt, p, rs, end) <==> ParseRecords(pkt, p, |rs|) == Ok(Read(rs, end))
    ensures RecordsAt(pkt, p, rs, end) ==> end <= |pkt|
    decreases |rs|
  {
    hide RecordAt, ParseRecord;
    if rs != [] {
      assert rs == [rs[0]] + rs[1..];
      if RecordsAt(pkt, p, rs, end) {
        var e: nat :| RecordAt(pkt, p, rs[0], e) && RecordsAt(pkt, e, rs[1..], end);
        RecordIsRead(pkt, p, rs[0], e);
        RecordsAreRead(pkt, e, rs[1..], end);
      }
      if ParseRecords(pkt, p, |rs|) == Ok(Read(rs, end)) {
        var x := ParseRecord(pkt, p).value;
        RecordAdvances(pkt, p);
        var rest := ParseRecords(pkt, x.end, |rs| - 1).value;
        assert ([x.item] + rest.item)[0] == x.item && ([x.item] + rest.item)[1..] == rest.item;
        RecordIsRead(pkt, p, rs[0], x.end);
        RecordsAreRead(pkt, x.end, rs[1..], end);
      }
    }
  }

  lemma {:induction false} QuestionsCounted(pkt: bytes, p: nat, n: nat)
    requires p <= |pkt| && ParseQuestions(pkt, p, n).Ok?
    ensures |ParseQuestions(pkt, p, n).value.item| == n
    decreases n
  {
    hide ParseQuestion;
    QuestionAdvances(pkt, p);
    if n > 0 { QuestionsCounted(pkt, ParseQuestion(pkt, p).value.end, n - 1); }
  }

  lemma {:induction false} RecordsCounted(pkt: bytes, p: nat, n: nat)
    requires p <= |pkt| && ParseRecords(pkt, p, n).Ok?
    ensures |ParseRecords(pkt, p, n).value.item| == n
    decreases n
  {
    hide ParseRecord;
    RecordAdvances(pkt, p);
    if n > 0 { RecordsCounted(pkt, ParseRecord(pkt, p).value.end, n - 1); }
  }

  /** The header of a message, whose sections have at most 256 entries each. */
  predicate HeaderIs(pkt: bytes, m: Packet) {
    && WordAt(pkt, 0, m.id) && WordAt(pkt, 2, m.flags)
    && WordAt(pkt, 4, |m.questions|) && WordAt(pkt, 6, |m.answers|)
    && WordAt(pkt, 8, |m.authority|) && WordAt(pkt, 10, |m.additional|)
    && |m.questions| <= 256 && |m.answers| <= 256 && |m.authority| <= 256 && |m.additional| <= 256
  }

  /** The octets begin with those of the message: its header, and then its sections, which end at these places. */
  ghost predicate MessageHas(pkt: bytes, m: Packet, questions: nat, answers: nat, authority: nat, additional: nat) {
    && HeaderIs(pkt, m)
    && QuestionsAt(pkt, 12, m.questions, questions) && RecordsAt(pkt, questions, m.answers, answers)
    && RecordsAt(pkt, answers, m.authority, authority) && RecordsAt(pkt, authority, m.additional, additional)
  }

  ghost predicate IsMessage(pkt: bytes, m: Packet) {
    exists questions: nat, answers: nat, authority: nat, additional: nat ::
      MessageHas(pkt, m, questions, answers, authority, additional)
  }

  /**
   * The parser accepts exactly the messages in the format of RFC 1035, with
   * records of any type, with names of at most five pointers and sections of
   * at most 256 entries, and gives what they say.
   */
  lemma MessagesAreRead(pkt: bytes, m: Packet)
    ensures ParsePacket(pkt) == Ok(m) <==> IsMessage(pkt, m)
  {
    if IsMessage(pkt, m) { MessageIsRead(pkt, m); }
    if ParsePacket(pkt) == Ok(m) { ReadIsMessage(pkt, m); }
  }

  lemma HeaderIsRead(pkt: bytes, m: Packet)
    ensures HeaderIs(pkt, m) <==>
              && 12 <= |pkt| && R16(pkt, 0) == m.id && R16(pkt, 2) == m.flags
              && R16(pkt, 4) == |m.questions| <= 256 && R16(pkt, 6) == |m.answers| <= 256
              && R16(pkt, 8) == |m.authority| <= 256 && R16(pkt, 10) == |m.additional| <= 256
  {
    hide WordAt, R16;
    WordIsRead(pkt, 0, m.id);
    WordIsRead(pkt, 2, m.flags);
    WordIsRead(pkt, 4, |m.questions|);
    WordIsRead(pkt, 6, |m.answers|);
    WordIsRead(pkt, 8, |m.authority|);
    WordIsRead(pkt, 10, |m.additional|);
  }

  lemma MessageIsRead(pkt: bytes, m: Packet)
    requires IsMessage(pkt, m)
    ensures ParsePacket(pkt) == Ok(m)
  {
    hide HeaderIs, QuestionsAt, RecordsAt, ParseQuestions, ParseRecords, R16;
    var questions: nat, answers: nat, authority: nat, additional: nat :|
      MessageHas(pkt, m, questions, answers, authority, additional);
    HeaderIsRead(pkt, m);
    QuestionsAreRead(pkt, 12, m.questions, questions);
    RecordsAreRead(pkt, questions, m.answers, answers);
    RecordsAreRead(pkt, answers, m.authority, authority);
    RecordsAreRead(pkt, authority, m.additional, additional);
  }

  lemma ReadIsMessage(pkt: bytes, m: Packet)
    requires ParsePacket(pkt) == Ok(m)
    ensures IsMessage(pkt, m)
  {
    hide HeaderIs, QuestionsAt, RecordsAt, ParseQuestions, ParseRecords, R16;
    var a := ParseQuestions(pkt, 12, R16(pkt, 4)).value.end;
    var b := ParseRecords(pkt, a, R16(pkt, 6)).value.end;
    var c := ParseRecords(pkt, b, R16(pkt, 8)).value.end;
    var d := ParseRecords(pkt, c, R16(pkt, 10)).value.end;
    QuestionsCounted(pkt, 12, R16(pkt, 4));
    RecordsCounted(pkt, a, R16(pkt, 6));
    RecordsCounted(pkt, b, R16(pkt, 8));
    RecordsCounted(pkt, c, R16(pkt, 10));
    HeaderIsRead(pkt, m);
    QuestionsAreRead(pkt, 12, m.questions, a);
    RecordsAreRead(pkt, a, m.answers, b);
    RecordsAreRead(pkt, b, m.authority, c);
    RecordsAreRead(pkt, c, m.additional, d);
    assert MessageHas(pkt, m, a, b, c, d);
  }
}
