/** What the resolver knows of its servers: their response times, and their states after a response. */
module ResolverTiming {
  import opened Bytes
  import opened Dns
  import opened NameServers
  import opened ResponseCache
  import opened Queries
  import opened ResolverRuns
  import opened ResolverReplies
  import opened ResolverTheorems
  import QI = QueryInvariant
  import RC = ResponseCache

  // ---------------------------------------------------------------------
  // Response times
  // ---------------------------------------------------------------------

  /** The step sends the query with transaction id to server i, which has no response outstanding. */
  predicate SendsTo(s: State, e: Event, i: nat, id: nat) {
    && ((e.Start? && e.id == id) || (e.Expire? && e.n in s.q.nodes && s.q.nodes[e.n].id == id))
    && i < |s.ns| && s.ns[i].qId == 0
    && i in e.sel.servers && i in e.env.usable && e.env.scheduled && !e.env.busy && e.env.made
  }

  /** The step receives a response with the id from server i. */
  predicate HearsFrom(s: State, e: Event, i: nat, id: nat) {
    && e.Receive? && e.parsed.Some? && e.parsed.value.id == id && e.parsed.value.flags / 0x8000 % 2 == 1
    && i < |s.ns| && s.ns[i].addr == e.src
  }

  predicate Reconfigures(e: Event) {
    e.Configure? && 0 < |e.addrs| <= MAX_NS
  }

  /** Server i, which stays configured till then, responds to the id at time at. */
  ghost predicate HeardAt(s: State, evs: seq<Event>, i: nat, id: nat, at: Time)
    decreases |evs|
  {
    && evs != [] && Sound(s) && Enabled(s, evs[0]) && !Reconfigures(evs[0])
    && ((HearsFrom(s, evs[0], i, id) && evs[0].now == at) || HeardAt(Apply(s, evs[0]), evs[1..], i, id, at))
  }

  /** A query is sent to server i in the run, and the response to its id comes after the delay. */
  ghost predicate Measured(s: State, evs: seq<Event>, i: nat, delay: Time)
    decreases |evs|
  {
    && evs != [] && Sound(s) && Enabled(s, evs[0])
    && ((exists id :: SendsTo(s, evs[0], i, id) && HeardAt(Apply(s, evs[0]), evs[1..], i, id, evs[0].now + delay))
        || Measured(Apply(s, evs[0]), evs[1..], i, delay))
  }

  /** Some step of the run receives a packet whose id is zero, which no query has. */
  predicate ZeroId(evs: seq<Event>) {
    exists k :: 0 <= k < |evs| && IsZeroId(evs[k])
  }

  predicate IsZeroId(e: Event) {
    e.Receive? && e.parsed.Some? && e.parsed.value.id == 0
  }

  /** What one step does to what is known of server i's response time. */
  datatype Change = Same | Sent | Heard | Configured

  ghost predicate Changes(s: State, e: Event, r: State, i: nat, change: Change)
    requires i < |r.ns|
  {
    var after := r.ns[i];
    match change
    case Same =>
      && i < |s.ns| && after.rtDelay == s.ns[i].rtDelay && after.qId == s.ns[i].qId && after.sentTime == s.ns[i].sentTime
      && !Reconfigures(e)
    case Sent => SendsTo(s, e, i, after.qId) && after.sentTime == e.now && after.rtDelay == s.ns[i].rtDelay
    case Heard =>
      && i < |s.ns| && HearsFrom(s, e, i, s.ns[i].qId) && after.rtDelay == e.now - s.ns[i].sentTime && after.qId == 0
    case Configured => after.rtDelay == 10_000 && after.qId == 0
  }

  lemma TransmitChanges(s: State, now: Time, id: nat, sel: Selection, env: TxEnv, i: nat)
    requires s.ns == [] || SelectionOk(s, now, sel)
    ensures var ns := NsAfterTransmit(s, now, id, sel, env);
            && |ns| == |s.ns|
            && (i < |ns| ==>
                  && ns[i].rtDelay == s.ns[i].rtDelay
                  && if s.ns[i].qId == 0 && i in sel.servers && i in env.usable && env.scheduled && !env.busy && env.made
                     then ns[i].qId == id && ns[i].sentTime == now
                     else ns[i].qId == s.ns[i].qId && ns[i].sentTime == s.ns[i].sentTime)
  {
    hide IsBest;
  }

  lemma EnqueueNs(s: State, now: Time, key: Key, hasCb: bool, id: nat, sel: Selection, env: TxEnv)
    requires key in s.q.byKey ==> s.q.byKey[key] in s.q.nodes
    ensures Enqueue(s, now, key, hasCb, id, sel, env).ns in {s.ns, NsAfterTransmit(s, now, id, sel, env)}
    ensures id == 0 ==> Enqueue(s, now, key, hasCb, id, sel, env).ns == s.ns
  {
    hide NsAfterTransmit, TransmitOk, Join, Begin, Refuse;
  }

  lemma StartChanges(s: State, e: Event, i: nat)
    requires Sound(s) && Enabled(s, e) && e.Start? && i < |Apply(s, e).ns|
    ensures Changes(s, e, Apply(s, e), i, Same) || Changes(s, e, Apply(s, e), i, Sent)
  {
    hide Sound, SelectionOk, InitKey, Enqueue, Remove, Hit, NsAfterTransmit, Fresh;
    var key := InitKey(e.qtype, e.name);
    assert (key in s.q.byKey ==> s.q.byKey[key] in s.q.nodes) && (key in s.c.table ==> s.c.table[key] in s.c.entries) by { KeyOfStart(s, e.qtype, e.name); }
    var s1 := s.(c := Remove(s.c, key));
    EnqueueNs(s1, e.now, key, e.hasCb, e.id, e.sel, e.env);
    NsFrame(s, s1, e.now, e.id, e.sel, e.env);
    if e.id != 0 { TransmitChanges(s, e.now, e.id, e.sel, e.env, i); }
  }

  lemma ExpiryChanges(s: State, e: Event, i: nat)
    requires Sound(s) && Enabled(s, e) && e.Expire? && i < |Apply(s, e).ns|
    ensures Changes(s, e, Apply(s, e), i, Same) || Changes(s, e, Apply(s, e), i, Sent)
  {
    hide Sound, SelectionOk, NsAfterTransmit, TransmitOk, Complete, Retransmit;
    var node := s.q.nodes[e.n];
    if node.id in s.q.byId && node.transmitCnt < s.cfg.qretrCount {
      TransmitChanges(s, e.now, node.id, e.sel, e.env, i);
    }
  }

  lemma ReportChanges(cfg: Settings, ns: seq<NameServer>, addr: Addr, qId: nat, rcode: nat, validated: bool, now: Time, i: nat)
    requires i < |ns|
    ensures var after := AfterReport(cfg, ns, addr, qId, rcode, validated, now)[i];
            && after.addr == ns[i].addr && after.sentTime == ns[i].sentTime
            && ((after.rtDelay == ns[i].rtDelay && after.qId == ns[i].qId)
                || (ns[i].addr == addr && ns[i].qId == qId && after.rtDelay == now - ns[i].sentTime && after.qId == 0))
  {
  }

  lemma ReceiptChanges(s: State, e: Event, i: nat)
    requires Sound(s) && Enabled(s, e) && e.Receive? && i < |Apply(s, e).ns|
    ensures Changes(s, e, Apply(s, e), i, Same) || Changes(s, e, Apply(s, e), i, Heard)
  {
    hide Sound, AfterReport, Answers, Complete;
    assert e.parsed.Some? && e.parsed.value.id in s.q.byId ==> s.q.byId[e.parsed.value.id] in s.q.nodes by { ByIdIsSound(s); }
    if e.parsed.Some? {
      var pkt := e.parsed.value;
      var ns1 := AfterReport(s.cfg, s.ns, e.src, pkt.id, pkt.Rcode(), false, e.now);
      ReportChanges(s.cfg, s.ns, e.src, pkt.id, pkt.Rcode(), false, e.now, i);
      ReportChanges(s.cfg, ns1, e.src, pkt.id, pkt.Rcode(), true, e.now, i);
    }
  }

  lemma ByIdIsSound(s: State)
    requires Sound(s)
    ensures forall i :: i in s.q.byId ==> s.q.byId[i] in s.q.nodes
  {
  }

  lemma OtherChanges(s: State, e: Event, i: nat)
    requires Sound(s) && Enabled(s, e) && !e.Start? && !e.Expire? && !e.Receive? && i < |Apply(s, e).ns|
    ensures Changes(s, e, Apply(s, e), i, Same) || Changes(s, e, Apply(s, e), i, Configured)
  {
    hide Sound, Update, Finish, EntryKey, CollectAll, TakeNext, Call, Cancel, CancelCall, Done, IsOrder, IsDup;
  }

  lemma StepChanges(s: State, e: Event, i: nat) returns (change: Change)
    requires Sound(s) && Enabled(s, e) && i < |Apply(s, e).ns|
    ensures Changes(s, e, Apply(s, e), i, change)
  {
    hide Sound, Enabled, Changes;
    if e.Start? {
      StartChanges(s, e, i);
    } else if e.Expire? {
      ExpiryChanges(s, e, i);
    } else if e.Receive? {
      ReceiptChanges(s, e, i);
    } else {
      OtherChanges(s, e, i);
    }
    change :| Changes(s, e, Apply(s, e), i, change);
  }

  /** The delay was there from the start, or was measured. */
  ghost predicate Known(s: State, evs: seq<Event>, i: nat, delay: Time) {
    || delay == 10_000
    || Measured(s, evs, i, delay)
    || ZeroId(evs)
    || (i < |s.ns| && delay == s.ns[i].rtDelay)
    || (i < |s.ns| && s.ns[i].qId != 0 && HeardAt(s, evs, i, s.ns[i].qId, s.ns[i].sentTime + delay))
  }

  lemma KnownBefore(s: State, evs: seq<Event>, i: nat, delay: Time, change: Change)
    requires evs != [] && Sound(s) && Enabled(s, evs[0]) && i < |Apply(s, evs[0]).ns|
    requires Changes(s, evs[0], Apply(s, evs[0]), i, change) && Known(Apply(s, evs[0]), evs[1..], i, delay)
    ensures Known(s, evs, i, delay)
  {
    hide Sound, Enabled, Apply, HearsFrom, IsZeroId;
    var s1 := Apply(s, evs[0]);
    if ZeroId(evs[1..]) {
      var k :| 0 <= k < |evs[1..]| && IsZeroId(evs[1..][k]);
      assert IsZeroId(evs[k + 1]);
    } else if change.Heard? && delay == s1.ns[i].rtDelay && s.ns[i].qId == 0 {
      assert IsZeroId(evs[0]) by { HeardZero(s, evs[0], i); }
    } else if change.Heard? && delay == s1.ns[i].rtDelay {
      HeardNow(s, evs, i, s.ns[i].qId, s.ns[i].sentTime + delay);
    }
  }

  lemma HeardNow(s: State, evs: seq<Event>, i: nat, id: nat, at: Time)
    requires evs != [] && Sound(s) && Enabled(s, evs[0]) && HearsFrom(s, evs[0], i, id) && evs[0].now == at
    ensures HeardAt(s, evs, i, id, at)
  {
    hide Sound, Enabled, Apply;
  }

  lemma HeardZero(s: State, e: Event, i: nat)
    requires HearsFrom(s, e, i, 0)
    ensures IsZeroId(e)
  {
  }

  /** The servers keep their number through every step but a new configuration. */
  lemma {:induction false} DelaysKnown(s: State, evs: seq<Event>, s2: State, i: nat)
    requires Good(s) && Runs(s, evs, s2) && i < |s2.ns|
    ensures Known(s, evs, i, s2.ns[i].rtDelay)
    decreases |evs|
  {
    hide Good, Sound, Enabled, Apply, Changes, Known;
    if evs == [] {
      assert Known(s, [], i, s2.ns[i].rtDelay) by { KnownAtOnce(s, i); }
    } else {
      var s1 := Apply(s, evs[0]);
      StepKeepsGood(s, evs[0]);
      DelaysKnown(s1, evs[1..], s2, i);
      if i < |s1.ns| {
        var change := StepChanges(s, evs[0], i);
        KnownBefore(s, evs, i, s2.ns[i].rtDelay, change);
      } else {
        KnownWithout(s, evs, i, s2.ns[i].rtDelay);
      }
    }
  }

  lemma KnownAtOnce(s: State, i: nat)
    requires i < |s.ns|
    ensures Known(s, [], i, s.ns[i].rtDelay)
  {
  }

  lemma KnownWithout(s: State, evs: seq<Event>, i: nat, delay: Time)
    requires evs != [] && Sound(s) && Enabled(s, evs[0]) && i >= |Apply(s, evs[0]).ns| && Known(Apply(s, evs[0]), evs[1..], i, delay)
    ensures Known(s, evs, i, delay)
  {
    hide Sound, Enabled, Apply, SendsTo, HearsFrom, IsZeroId;
    if ZeroId(evs[1..]) {
      var k :| 0 <= k < |evs[1..]| && IsZeroId(evs[1..][k]);
      assert IsZeroId(evs[k + 1]);
    }
  }

  /**
   * In every run without a response to the id zero: a server's response time
   * is the ten seconds it was configured with, or the time between a
   * transmission to it and its response to that transmission's id.
   */
  lemma DelayIsMeasured(cfg: Settings, evs: seq<Event>, s: State, i: nat)
    requires Runs(Init(cfg), evs, s) && i < |s.ns| && !ZeroId(evs)
    ensures s.ns[i].rtDelay == 10_000 || Measured(Init(cfg), evs, i, s.ns[i].rtDelay)
  {
    hide Good, Runs, ZeroId, Measured;
    InitIsGood(cfg);
    DelaysKnown(Init(cfg), evs, s, i);
  }

  /** A response to the id zero is taken for one to a server that nothing was sent to. */
  lemma ZeroIdIsTimed(s: State, e: Event)
    requires Sound(s) && Enabled(s, e) && e.Receive? && e.parsed.Some? && e.parsed.value.id == 0
    requires e.parsed.value.flags / 0x8000 % 2 == 1 && 0 !in s.q.byId
    requires s.ns != [] && s.ns[0].addr == e.src && s.ns[0].qId == 0
    ensures Apply(s, e).ns[0].rtDelay == e.now - s.ns[0].sentTime
  {
    hide Sound;
  }

  /** The condition is needed: a server that nothing was sent to gets a response time. */
  lemma ZeroIdRun(cfg: Settings)
    ensures exists evs, s :: Runs(Init(cfg), evs, s) && |s.ns| == 1 && s.ns[0].rtDelay == 5 && !Measured(Init(cfg), evs, 0, 5)
  {
    hide Good, Sound, Enabled, Apply;
    var s0 := Init(cfg);
    var e1, e2 := Configure([Some(1)], 0), Receive(5, 1, Some(Packet(0, 0x8000, [], [], [], [])));
    InitIsGood(cfg);
    GoodIsSound(s0);
    assert Enabled(s0, e1) by { ConfigureEnabled(s0); }
    StepKeepsGood(s0, e1);
    var s1 := ConfiguredState(cfg);
    GoodIsSound(s1);
    var s2 := ZeroIdState(s1, e2);
    assert [e1, e2][1..] == [e2] && [e2][1..] == [];
    assert Runs(s1, [e2], s2);
    assert Runs(s0, [e1, e2], s2);
    NeverMeasured(s0, [e1, e2], 0, 5);
  }

  lemma ZeroIdState(s: State, e: Event) returns (s2: State)
    requires Sound(s) && s.q == NONE && s.ns == [NameServer(1, Active, 0, 10_000, 0, 0)]
    requires e == Receive(5, 1, Some(Packet(0, 0x8000, [], [], [], [])))
    ensures Enabled(s, e) && s2 == Apply(s, e) && |s2.ns| == 1 && s2.ns[0].rtDelay == 5
  {
    hide Sound;
    s2 := Apply(s, e);
  }

  lemma {:induction false} NeverMeasured(s: State, evs: seq<Event>, i: nat, delay: Time)
    requires forall k :: 0 <= k < |evs| ==> !evs[k].Start? && !evs[k].Expire?
    ensures !Measured(s, evs, i, delay)
    decreases |evs|
  {
    hide Sound, Enabled, Apply;
    if evs != [] && Sound(s) && Enabled(s, evs[0]) { NeverMeasured(Apply(s, evs[0]), evs[1..], i, delay); }
  }

  // ---------------------------------------------------------------------
  // States
  // ---------------------------------------------------------------------

  /** What a response makes of the server it comes from. */
  function StateAfter(before: NsState, rcode: nat, validated: bool): NsState {
    if rcode in {5, 9} then if validated then Bad else before
    else if validated || before != Bad then Active else Bad
  }

  lemma ReportSets(cfg: Settings, ns: seq<NameServer>, addr: Addr, qId: nat, rcode: nat, validated: bool, now: Time, i: nat)
    requires i < |ns|
    ensures var after := AfterReport(cfg, ns, addr, qId, rcode, validated, now)[i];
            if ns[i].addr == addr && forall j :: 0 <= j < i ==> ns[j].addr != addr
            then after.state == StateAfter(ns[i].state, rcode, validated)
            else after == ns[i]
  {
  }

  /**
   * A response from a configured server: its first entry takes the state that
   * the code and the match with a query call for, and no other server changes.
   */
  lemma ResponseSetsState(s: State, e: Event, i: nat)
    requires Good(s) && Sound(s) && Enabled(s, e) && i < |s.ns|
    requires e.Receive? && e.parsed.Some? && e.parsed.value.flags / 0x8000 % 2 == 1
    ensures |Apply(s, e).ns| == |s.ns|
    ensures if s.ns[i].addr == e.src && forall j :: 0 <= j < i ==> s.ns[j].addr != e.src
            then Apply(s, e).ns[i].state == StateAfter(s.ns[i].state, e.parsed.value.flags % 16, Validated(s, e))
            else Apply(s, e).ns[i] == s.ns[i]
  {
    hide Good, Sound, AfterReport, Answers, Complete;
    assert e.parsed.Some? && e.parsed.value.id in s.q.byId ==> s.q.byId[e.parsed.value.id] in s.q.nodes by { ByIdIsSound(s); }
    var pkt := e.parsed.value;
    var ns1 := AfterReport(s.cfg, s.ns, e.src, pkt.id, pkt.Rcode(), false, e.now);
    forall j | 0 <= j < |s.ns| ensures ns1[j].addr == s.ns[j].addr {
      ReportChanges(s.cfg, s.ns, e.src, pkt.id, pkt.Rcode(), false, e.now, j);
    }
    ReportSets(s.cfg, s.ns, e.src, pkt.id, pkt.Rcode(), false, e.now, i);
    ReportSets(s.cfg, ns1, e.src, pkt.id, pkt.Rcode(), true, e.now, i);
  }
}
