/** Decoding of compressed names in a DNS packet (dns.c, get_name_len and get_name). */
module DnsNames {
  import opened Bytes

  const MAX_RECURSION: nat := 5

  /** The size of a name: octets used at its start in the packet, and octets of its text. */
  datatype Size = Size(parsed: nat, length: nat)

  function PointerOffset(pkt: bytes, p: nat): nat
    requires p + 1 < |pkt| && pkt[p] >= 0xC0
  {
    var high: int := pkt[p];
    (high - 0xC0) * 256 + pkt[p + 1]
  }

  // ---------------------------------------------------------------------
  // Reference definitions
  // ---------------------------------------------------------------------

  /** The text of one label, with a dot unless it is the last. */
  function LabelPiece(pkt: bytes, p: nat): bytes
    requires p < |pkt| && p + 1 + pkt[p] < |pkt|
  {
    pkt[p + 1..p + 1 + pkt[p]] + (if pkt[p + 1 + pkt[p]] == 0 then [] else ['.' as byte])
  }

  /** The text of the name at p, reached through rec compression pointers; None if it is malformed. */
  function NameText(pkt: bytes, rec: nat, p: nat): Option<bytes>
    decreases MAX_RECURSION + 1 - rec, 1, 0
  {
    if rec > MAX_RECURSION || p >= |pkt| then None else LabelsText(pkt, rec, p)
  }

  function LabelsText(pkt: bytes, rec: nat, p: nat): Option<bytes>
    requires p < |pkt| && rec <= MAX_RECURSION
    decreases MAX_RECURSION + 1 - rec, 0, |pkt| - p
  {
    var c := pkt[p];
    if c == 0 then Some([])
    else if c >= 0xC0 then
      if p + 1 >= |pkt| then None else NameText(pkt, rec + 1, PointerOffset(pkt, p))
    else if p + 1 + c + 1 > |pkt| then None
    else
      var rest := LabelsText(pkt, rec, p + 1 + c);
      if rest.None? then None
      else Some(LabelPiece(pkt, p) + rest.value)
  }

  function NameSize(pkt: bytes, rec: nat, p: nat): Option<Size>
    decreases MAX_RECURSION + 1 - rec, 1, 0
  {
    if rec > MAX_RECURSION || p >= |pkt| then None else LabelsSize(pkt, rec, p)
  }

  function LabelsSize(pkt: bytes, rec: nat, p: nat): Option<Size>
    requires p < |pkt| && rec <= MAX_RECURSION
    decreases MAX_RECURSION + 1 - rec, 0, |pkt| - p
  {
    var c := pkt[p];
    if c == 0 then Some(Size(1, 0))
    else if c >= 0xC0 then
      if p + 1 >= |pkt| then None
      else
        var target := NameSize(pkt, rec + 1, PointerOffset(pkt, p));
        if target.None? then None else Some(Size(2, target.value.length))
    else if p + 1 + c + 1 > |pkt| then None
    else
      var rest := LabelsSize(pkt, rec, p + 1 + c);
      if rest.None? then None
      else Some(Size(c + 1 + rest.value.parsed, c + (if pkt[p + 1 + c] == 0 then 0 else 1) + rest.value.length))
  }

  /**
   * For every packet and start, cyclic pointers included: the length and the
   * text are defined for the same names, they agree, and what is parsed lies
   * within the packet.
   */
  lemma {:induction false} SizeMatchesText(pkt: bytes, rec: nat, p: nat)
    ensures NameSize(pkt, rec, p).Some? <==> NameText(pkt, rec, p).Some?
    ensures NameSize(pkt, rec, p).Some? ==>
              && |NameText(pkt, rec, p).value| == NameSize(pkt, rec, p).value.length
              && 1 <= NameSize(pkt, rec, p).value.parsed <= |pkt| - p
    decreases MAX_RECURSION + 1 - rec, 1, 0
  {
    if rec <= MAX_RECURSION && p < |pkt| { LabelsMatch(pkt, rec, p); }
  }

  lemma {:induction false} LabelsMatch(pkt: bytes, rec: nat, p: nat)
    requires p < |pkt| && rec <= MAX_RECURSION
    ensures LabelsSize(pkt, rec, p).Some? <==> LabelsText(pkt, rec, p).Some?
    ensures LabelsSize(pkt, rec, p).Some? ==>
              && |LabelsText(pkt, rec, p).value| == LabelsSize(pkt, rec, p).value.length
              && 1 <= LabelsSize(pkt, rec, p).value.parsed <= |pkt| - p
    decreases MAX_RECURSION + 1 - rec, 0, |pkt| - p
  {
    var c := pkt[p];
    if c >= 0xC0 {
      if p + 1 < |pkt| { SizeMatchesText(pkt, rec + 1, PointerOffset(pkt, p)); }
    } else if c != 0 && p + 1 + c + 1 <= |pkt| {
      LabelsMatch(pkt, rec, p + 1 + c);
    }
  }

  // ---------------------------------------------------------------------
  // The two scans of the source
  // ---------------------------------------------------------------------

  /** get_name_len */
  method GetNameLen(pkt: bytes, rec: nat, start: nat) returns (ok: bool, parsed: nat, length: nat)
    ensures ok <==> NameSize(pkt, rec, start).Some?
    ensures ok ==> NameSize(pkt, rec, start) == Some(Size(parsed, length))
    decreases MAX_RECURSION + 1 - rec
  {
    parsed, length := 0, 0;
    if rec > MAX_RECURSION || start >= |pkt| { return false, 0, 0; }
    var p := start;
    while pkt[p] != 0
      invariant start <= p < |pkt| && p == start + parsed
      invariant var here, all := LabelsSize(pkt, rec, p), LabelsSize(pkt, rec, start);
                all == if here.None? then None else Some(Size(parsed + here.value.parsed, length + here.value.length))
      decreases |pkt| - p
    {
      if pkt[p] >= 0xC0 {
        if p + 1 >= |pkt| { return false, 0, 0; }
        var offset := PointerOffset(pkt, p);
        if offset >= |pkt| { return false, 0, 0; }
        var targetOk, dummy, targetLen := GetNameLen(pkt, rec + 1, offset);
        if !targetOk { return false, 0, 0; }
        return true, parsed + 2, length + targetLen;
      }
      var labelLen := pkt[p];
      if p + 1 + labelLen + 1 > |pkt| { return false, 0, 0; }
      p := p + labelLen + 1;
      parsed := parsed + labelLen + 1;
      length := length + labelLen + (if pkt[p] != 0 then 1 else 0);
    }
    return true, parsed + 1, length;
  }

  /** Copies src to the buffer at slen. */
  method Append(buf: array<byte>, slen: nat, src: bytes)
    requires slen + |src| <= buf.Length
    modifies buf
    ensures buf[..slen + |src|] == old(buf[..slen]) + src
  {
    for i := 0 to |src|
      invariant forall k :: 0 <= k < slen ==> buf[k] == old(buf[k])
      invariant forall k :: slen <= k < slen + i ==> buf[k] == src[k - slen]
    {
      buf[slen + i] := src[i];
    }
  }

  /** How many octets get_name may write for the name at start. */
  function Room(pkt: bytes, rec: nat, start: nat): nat {
    var text := NameText(pkt, rec, start);
    if text.Some? then |text.value|
    else if rec > MAX_RECURSION then 0
    else (MAX_RECURSION + 1 - rec) * |pkt|
  }

  /** The scan of the name at start has reached p and has done as its text so far. */
  ghost predicate Reached(pkt: bytes, rec: nat, start: nat, p: nat, done: bytes) {
    && rec <= MAX_RECURSION && start <= p < |pkt| && |done| <= p - start
    && var all, here := LabelsText(pkt, rec, start), LabelsText(pkt, rec, p);
       (all.None? <==> here.None?) && (all.Some? ==> all.value == done + here.value)
  }

  lemma ReachedStep(pkt: bytes, rec: nat, start: nat, p: nat, done: bytes)
    requires Reached(pkt, rec, start, p, done) && 0 < pkt[p] < 0xC0 && p + 1 + pkt[p] < |pkt|
    ensures Reached(pkt, rec, start, p + 1 + pkt[p], done + LabelPiece(pkt, p))
    ensures |done| + |LabelPiece(pkt, p)| <= Room(pkt, rec, start)
  {
    assert (MAX_RECURSION + 1 - rec) * |pkt| >= |pkt|;
    var here := LabelsText(pkt, rec, p);
    if here.Some? {
      var rest := LabelsText(pkt, rec, p + 1 + pkt[p]);
      assert done + (LabelPiece(pkt, p) + rest.value) == done + LabelPiece(pkt, p) + rest.value;
    }
  }

  lemma ReachedPointer(pkt: bytes, rec: nat, start: nat, p: nat, done: bytes)
    requires Reached(pkt, rec, start, p, done) && pkt[p] >= 0xC0 && p + 1 < |pkt|
    ensures |done| + Room(pkt, rec + 1, PointerOffset(pkt, p)) <= Room(pkt, rec, start)
    ensures var all, target := NameText(pkt, rec, start), NameText(pkt, rec + 1, PointerOffset(pkt, p));
            all == if target.None? then None else Some(done + target.value)
  {
    assert (MAX_RECURSION + 1 - rec) * |pkt| == (MAX_RECURSION - rec) * |pkt| + |pkt|;
  }

  lemma ReachedEnd(pkt: bytes, rec: nat, start: nat, p: nat, done: bytes)
    requires Reached(pkt, rec, start, p, done)
    ensures pkt[p] == 0 ==> NameText(pkt, rec, start) == Some(done)
    ensures (pkt[p] >= 0xC0 && p + 1 >= |pkt|) || (0 < pkt[p] < 0xC0 && p + 1 + pkt[p] >= |pkt|) ==>
              NameText(pkt, rec, start).None?
  {
    assert done + [] == done;
  }

  lemma BadPointer(pkt: bytes, rec: nat, p: nat)
    requires p >= |pkt|
    ensures NameText(pkt, rec, p).None?
  {
  }

  lemma AppendAssoc(a: bytes, b: bytes, c: bytes)
    ensures (a + b) + c == a + (b + c)
  {
  }

  /** get_name: appends the name's text to the slen octets already in the buffer. */
  method GetName(pkt: bytes, rec: nat, start: nat, buf: array<byte>, slen: nat) returns (ok: bool, slen': nat)
    requires slen + Room(pkt, rec, start) <= buf.Length
    modifies buf
    ensures ok <==> NameText(pkt, rec, start).Some?
    ensures ok ==> slen' == slen + |NameText(pkt, rec, start).value| <= buf.Length
    ensures ok ==> buf[..slen'] == old(buf[..slen]) + NameText(pkt, rec, start).value
    decreases MAX_RECURSION + 1 - rec
  {
    slen' := slen;
    if rec > MAX_RECURSION || start >= |pkt| { return false, slen; }
    hide Room, Reached, LabelsText, LabelPiece;
    var p := start;
    ghost var front := buf[..slen];
    ghost var done: bytes := [];
    ReachedStart(pkt, rec, start);
    while pkt[p] != 0
      invariant start <= p < |pkt| && slen' == slen + |done| <= buf.Length
      invariant buf[..slen'] == front + done
      invariant Reached(pkt, rec, start, p, done)
      decreases |pkt| - p
    {
      ReachedEnd(pkt, rec, start, p, done);
      if pkt[p] >= 0xC0 {
        if p + 1 >= |pkt| { return false, slen'; }
        var offset := PointerOffset(pkt, p);
        ReachedPointer(pkt, rec, start, p, done);
        if offset >= |pkt| { BadPointer(pkt, rec + 1, offset); return false, slen'; }
        ok, slen' := GetName(pkt, rec + 1, offset, buf, slen');
        if ok { AppendAssoc(front, done, NameText(pkt, rec + 1, offset).value); }
        return;
      }
      var labelLen := pkt[p];
      if p + 1 + labelLen + 1 > |pkt| { return false, slen'; }
      ReachedStep(pkt, rec, start, p, done);
      slen' := AppendLabel(pkt, p, buf, slen');
      AppendAssoc(front, done, LabelPiece(pkt, p));
      done := done + LabelPiece(pkt, p);
      p := p + labelLen + 1;
    }
    ReachedEnd(pkt, rec, start, p, done);
    return true, slen';
  }

  lemma ReachedStart(pkt: bytes, rec: nat, start: nat)
    requires rec <= MAX_RECURSION && start < |pkt|
    ensures Reached(pkt, rec, start, start, [])
  {
  }

  method AppendLabel(pkt: bytes, p: nat, buf: array<byte>, slen: nat) returns (slen': nat)
    requires p < |pkt| && p + 1 + pkt[p] < |pkt| && slen + |LabelPiece(pkt, p)| <= buf.Length
    modifies buf
    ensures slen' == slen + |LabelPiece(pkt, p)| && buf[..slen'] == old(buf[..slen]) + LabelPiece(pkt, p)
  {
    Append(buf, slen, pkt[p + 1..p + 1 + pkt[p]]);
    slen' := slen + pkt[p];
    if pkt[p + 1 + pkt[p]] != 0 {
      buf[slen'] := '.' as byte;
      slen' := slen' + 1;
    }
  }

  /** A name as the parsers read it: its length first, then its text in a buffer of just that size. */
  method ReadName(pkt: bytes, start: nat) returns (ok: bool, name: bytes, parsed: nat)
    ensures ok <==> NameText(pkt, 0, start).Some?
    ensures ok ==> NameText(pkt, 0, start) == Some(name) && NameSize(pkt, 0, start) == Some(Size(parsed, |name|))
    ensures ok ==> 1 <= parsed <= |pkt| - start
  {
    var length;
    ok, parsed, length := GetNameLen(pkt, 0, start);
    SizeMatchesText(pkt, 0, start);
    if !ok { return false, [], 0; }
    var buf := new byte[length];
    var slen;
    assert buf[..0] == [];
    ok, slen := GetName(pkt, 0, start, buf, 0);
    name := buf[..slen];
    assert [] + NameText(pkt, 0, start).value == NameText(pkt, 0, start).value;
  }
}
