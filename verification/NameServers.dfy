/**
 * Nameserver states and their changes in resolver.c: which servers a query is
 * sent to, and how a response changes the state of the server it came from.
 */
module NameServers {

  type Time = int      // milliseconds
  type Addr = nat      // a socket address

  const MAX_NS: nat := 16
  const TWO_32: nat := 0x1_0000_0000

  datatype Settings = Settings(qretrDelay: nat, qretrCount: nat, cacheMaxTtl: nat, goodNsTtl: nat,
                               badNsTtl: nat, disableSrcCheck: bool)

  datatype NsState = Probing | Active | Bad

  datatype NameServer = NameServer(addr: Addr, state: NsState, expiry: Time, rtDelay: Time,
                                   qId: nat, sentTime: Time)

  /** How long a server stays in a state, in seconds. */
  function StateTtl(cfg: Settings, state: NsState): nat {
    match state
    case Probing => ((cfg.qretrCount + 2) * cfg.qretrDelay) % TWO_32 / 1000
    case Active => cfg.goodNsTtl
    case Bad => cfg.badNsTtl
  }

  function SetState(cfg: Settings, ns: NameServer, state: NsState, now: Time): NameServer {
    ns.(state := state, expiry := now + 1000 * StateTtl(cfg, state))
  }

  // ---------------------------------------------------------------------
  // Selection
  // ---------------------------------------------------------------------

  /** A server after the scan: an expired PROBING one is BAD, any other expired one is PROBING. */
  function Aged(cfg: Settings, ns: NameServer, now: Time): NameServer {
    if ns.expiry > now then ns
    else SetState(cfg, ns, if ns.state == Probing then Bad else Probing, now)
  }

  /** best is the ACTIVE server with the smallest response time, the first of them on ties; -1 if none. */
  ghost predicate IsBest(ns: seq<NameServer>, best: int) {
    if best == -1 then forall j :: 0 <= j < |ns| ==> ns[j].state != Active
    else
      && 0 <= best < |ns| && ns[best].state == Active
      && (forall j :: 0 <= j < |ns| && ns[j].state == Active ==> ns[best].rtDelay <= ns[j].rtDelay)
      && (forall j :: 0 <= j < best && ns[j].state == Active ==> ns[best].rtDelay < ns[j].rtDelay)
  }

  lemma BestIsUnique(ns: seq<NameServer>, b: int, b': int)
    requires IsBest(ns, b) && IsBest(ns, b')
    ensures b == b'
  {
  }

  /**
   * The list of servers chosen and the servers after the scan. The scan stops
   * when the list is full; with all MAX_NS servers configured this leaves the
   * best one, when it is the last, as it was.
   */
  ghost predicate Selected(cfg: Settings, ns: seq<NameServer>, now: Time, best: int,
                           ns': seq<NameServer>, servers: seq<nat>)
  {
    && |ns'| == |ns| <= MAX_NS
    && IsBest(ns, best)
    && (forall i :: 0 <= i < |ns| ==>
          || ns'[i] == Aged(cfg, ns[i], now)
          || (i == best == MAX_NS - 1 && |servers| == MAX_NS && ns'[i] == ns[i]))
    && (forall i :: 0 <= i < |servers| ==> servers[i] < |ns|)
    && (forall i, j :: 0 <= i < j < |servers| ==> servers[i] != servers[j])
    && (best != -1 ==> servers != [] && servers[0] == best)
    && (forall i: nat :: i < |ns| ==> (i in servers <==> i == best || ns'[i].state == Probing))
  }

  /** The chosen servers: exactly the best ACTIVE one and those PROBING after the scan; never a BAD one. */
  lemma SelectionIsRight(cfg: Settings, ns: seq<NameServer>, now: Time, best: int,
                         ns': seq<NameServer>, servers: seq<nat>)
    requires Selected(cfg, ns, now, best, ns', servers)
    ensures forall i :: 0 <= i < |servers| ==> ns'[servers[i]].state != Bad
    ensures |servers| <= |ns|
    ensures servers == [] <==>
              forall i :: 0 <= i < |ns| ==> ns[i].state != Active && ns'[i].state == Bad
  {
    forall i | 0 <= i < |servers| ensures ns'[servers[i]].state != Bad {
      assert servers[i] in servers;
    }
    DistinctBelow(servers, |ns|);
    if servers != [] {
      assert servers[0] in servers;
    }
  }

  lemma {:induction false} DistinctBelow(s: seq<nat>, n: nat)
    requires forall i :: 0 <= i < |s| ==> s[i] < n
    requires forall i, j :: 0 <= i < j < |s| ==> s[i] != s[j]
    ensures |s| <= n
    decreases n
  {
    if s == [] {
    } else if s[0] + 1 <= n && n - 1 in s {
      var k :| 0 <= k < |s| && s[k] == n - 1;
      DistinctBelow(s[..k] + s[k + 1..], n - 1);
    } else {
      DistinctBelow(s, n - 1);
    }
  }

  /** After the first i servers have been scanned. */
  ghost predicate Scanned(cfg: Settings, ns: seq<NameServer>, now: Time, min: int,
                          ns': seq<NameServer>, servers: seq<nat>, i: nat)
  {
    && i <= |ns| == |ns'| <= MAX_NS && |servers| <= MAX_NS && -1 <= min < |ns|
    && (forall k :: 0 <= k < i ==> ns'[k] == Aged(cfg, ns[k], now))
    && (forall k :: i <= k < |ns| ==> ns'[k] == ns[k])
    && (forall k :: 0 <= k < |servers| ==> servers[k] < |ns| && (servers[k] < i || servers[k] == min))
    && (forall k, l :: 0 <= k < l < |servers| ==> servers[k] != servers[l])
    && (min != -1 ==> servers != [] && servers[0] == min)
    && (forall k: nat :: k < i ==> (k in servers <==> k == min || ns'[k].state == Probing))
  }

  lemma ScanStep(cfg: Settings, ns: seq<NameServer>, now: Time, min: int,
                 ns1: seq<NameServer>, servers1: seq<nat>, i: nat, ns2: seq<NameServer>, servers2: seq<nat>)
    requires Scanned(cfg, ns, now, min, ns1, servers1, i) && i < |ns| && |servers1| < MAX_NS
    requires ns2 == ns1[i := Aged(cfg, ns[i], now)]
    requires servers2 == if Aged(cfg, ns[i], now).state == Probing && i != min then servers1 + [i] else servers1
    ensures Scanned(cfg, ns, now, min, ns2, servers2, i + 1)
  {
    hide Aged;
    forall k: nat | k < i + 1 ensures k in servers2 <==> k == min || ns2[k].state == Probing {
      assert k in servers2 <==> k in servers1 || (servers2 != servers1 && k == i);
      if k == i {
        assert k in servers1 ==> k == min;
        assert k == min ==> k == servers1[0];
      }
    }
  }

  lemma ScanDone(cfg: Settings, ns: seq<NameServer>, now: Time, min: int,
                 ns': seq<NameServer>, servers: seq<nat>, i: nat)
    requires Scanned(cfg, ns, now, min, ns', servers, i) && IsBest(ns, min)
    requires i == |ns| || |servers| == MAX_NS
    ensures Selected(cfg, ns, now, min, ns', servers)
  {
    if i < |ns| { FullList(servers, i, |ns|, min); }
  }

  /** The two loops of select_nameservers. */
  method Select(cfg: Settings, ns: seq<NameServer>, now: Time)
    returns (ns': seq<NameServer>, servers: seq<nat>, best: int)
    requires |ns| <= MAX_NS
    ensures Selected(cfg, ns, now, best, ns', servers)
  {
    hide IsBest, Scanned, Selected;
    var min := FindBest(ns);
    best := min;
    servers := if min != -1 then [min] else [];
    ns' := ns;
    var i := 0;
    ScanStarts(cfg, ns, now, min);
    while i < |ns| && |servers| < MAX_NS
      invariant 0 <= i <= |ns| == |ns'| && |servers| <= MAX_NS
      invariant Scanned(cfg, ns, now, min, ns', servers, i)
    {
      ghost var ns1, servers1 := ns', servers;
      if ns[i].expiry <= now {
        if ns[i].state == Probing {
          ns' := ns'[i := SetState(cfg, ns[i], Bad, now)];
        } else {
          ns' := ns'[i := SetState(cfg, ns[i], Probing, now)];
          if i != min { servers := servers + [i]; }
        }
      } else if ns[i].state == Probing && i != min {
        servers := servers + [i];
      }
      ScanKeeps(cfg, ns, now, min, ns1, servers1, i);
      ScanStep(cfg, ns, now, min, ns1, servers1, i, ns', servers);
      i := i + 1;
    }
    ScanDone(cfg, ns, now, min, ns', servers, i);
  }

  lemma ScanStarts(cfg: Settings, ns: seq<NameServer>, now: Time, min: int)
    requires |ns| <= MAX_NS && -1 <= min < |ns|
    ensures Scanned(cfg, ns, now, min, ns, if min != -1 then [min] else [], 0)
  {
  }

  lemma ScanKeeps(cfg: Settings, ns: seq<NameServer>, now: Time, min: int,
                  ns': seq<NameServer>, servers: seq<nat>, i: nat)
    requires Scanned(cfg, ns, now, min, ns', servers, i) && i < |ns|
    ensures |ns'| == |ns| && ns'[i := ns[i]] == ns'
  {
  }

  /** A list of MAX_NS distinct servers out of the first i and min leaves only min as unscanned. */
  lemma FullList(servers: seq<nat>, i: nat, n: nat, min: int)
    requires i < n <= MAX_NS == |servers| && -1 <= min < n
    requires forall k :: 0 <= k < |servers| ==> servers[k] < i || servers[k] == min
    requires forall k, l :: 0 <= k < l < |servers| ==> servers[k] != servers[l]
    ensures n == MAX_NS && i == MAX_NS - 1 == min
  {
    if min < i {
      DistinctBelow(servers, i);
    } else {
      if min !in servers { DistinctBelow(servers, i); }
      var k :| 0 <= k < |servers| && servers[k] == min;
      DistinctBelow(servers[..k] + servers[k + 1..], i);
    }
  }

  method FindBest(ns: seq<NameServer>) returns (min: int)
    ensures -1 <= min < |ns| && IsBest(ns, min)
    ensures min != -1 ==> ns[min].state == Active
  {
    min := -1;
    for i := 0 to |ns|
      invariant -1 <= min < i || (min == -1 && i == 0)
      invariant min == -1 ==> forall j :: 0 <= j < i ==> ns[j].state != Active
      invariant min != -1 ==> ns[min].state == Active
      invariant min != -1 ==> forall j :: 0 <= j < i && ns[j].state == Active ==> ns[min].rtDelay <= ns[j].rtDelay
      invariant min != -1 ==> forall j :: 0 <= j < min && ns[j].state == Active ==> ns[min].rtDelay < ns[j].rtDelay
    {
      if ns[i].state == Active {
        if min == -1 {
          min := i;
        } else if ns[i].rtDelay < ns[min].rtDelay {
          min := i;
        }
      }
    }
  }

  // ---------------------------------------------------------------------
  // Reports
  // ---------------------------------------------------------------------

  const REFUSED: nat := 5
  const NOTAUTH: nat := 9

  /** A response with any other code than REFUSED or NOTAUTH counts for the server. */
  predicate GoodRcode(rcode: nat) {
    rcode != REFUSED && rcode != NOTAUTH
  }

  /** One server after a response of its own. */
  function Reported(cfg: Settings, ns: NameServer, qId: nat, rcode: nat, validated: bool, now: Time): NameServer {
    var timed := if qId == ns.qId then ns.(rtDelay := now - ns.sentTime, qId := 0) else ns;
    if GoodRcode(rcode) && (validated || ns.state != Bad) then SetState(cfg, timed, Active, now)
    else if !GoodRcode(rcode) && validated then SetState(cfg, timed, Bad, now)
    else timed
  }

  /** The servers after a response from addr: only the first server with that address changes. */
  function AfterReport(cfg: Settings, ns: seq<NameServer>, addr: Addr, qId: nat, rcode: nat,
                       validated: bool, now: Time): (r: seq<NameServer>)
    ensures |r| == |ns|
  {
    seq(|ns|, i requires 0 <= i < |ns| =>
      if ns[i].addr == addr && (forall j :: 0 <= j < i ==> ns[j].addr != addr)
      then Reported(cfg, ns[i], qId, rcode, validated, now) else ns[i])
  }

  method Report(cfg: Settings, ns: seq<NameServer>, addr: Addr, qId: nat, rcode: nat, validated: bool, now: Time)
    returns (ns': seq<NameServer>)
    ensures ns' == AfterReport(cfg, ns, addr, qId, rcode, validated, now)
  {
    ns' := ns;
    var i := 0;
    while i < |ns|
      invariant 0 <= i <= |ns|
      invariant ns' == ns
      invariant forall j :: 0 <= j < i ==> ns[j].addr != addr
    {
      if ns[i].addr == addr {
        var n := ns[i];
        if qId == n.qId {
          n := n.(rtDelay := now - n.sentTime, qId := 0);
        }
        if GoodRcode(rcode) && (validated || n.state != Bad) {
          n := SetState(cfg, n, Active, now);
        } else if !GoodRcode(rcode) && validated {
          n := SetState(cfg, n, Bad, now);
        }
        ns' := ns'[i := n];
        return;
      }
      i := i + 1;
    }
  }

  /** is_response_from_ns: whether some configured server has the address. */
  method IsFromServer(ns: seq<NameServer>, addr: Addr) returns (r: bool)
    ensures r <==> exists i :: 0 <= i < |ns| && ns[i].addr == addr
  {
    for i := 0 to |ns|
      invariant forall j :: 0 <= j < i ==> ns[j].addr != addr
    {
      if ns[i].addr == addr { return true; }
    }
    return false;
  }

  // ---------------------------------------------------------------------
  // Life cycle
  // ---------------------------------------------------------------------

  /** What may have caused a server to change. */
  datatype Cause = BySelection(now: Time) | ByResponse(now: Time, addr: Addr, rcode: nat, validated: bool)

  /**
   * The changes of state that the life cycle of a server allows, with the time
   * that the new state lasts. Responses with REFUSED and NOTAUTH count against
   * the server.
   */
  predicate AllowedChange(cfg: Settings, before: NameServer, after: NameServer, cause: Cause) {
    && after.addr == before.addr
    && (before.state == Bad && after.state != Bad ==>
          || (cause.BySelection? && before.expiry <= cause.now && after.state == Probing)
          || (cause.ByResponse? && cause.validated && cause.rcode !in {5, 9} && cause.addr == before.addr && after.state == Active))
    && (before.state != Bad && after.state == Bad ==>
          || (cause.BySelection? && before.expiry <= cause.now && before.state == Probing)
          || (cause.ByResponse? && cause.validated && cause.rcode in {5, 9} && cause.addr == before.addr))
    && (before.state != Active && after.state == Active ==>
          cause.ByResponse? && cause.rcode !in {5, 9} && cause.addr == before.addr)
    && (after.state != before.state ==> after.expiry - cause.now == Lasts(cfg, after.state))
    && (after.state == before.state ==> after.expiry == before.expiry || after.expiry - cause.now == Lasts(cfg, after.state))
  }

  /** How long a state lasts, in milliseconds: whole seconds, and PROBING as long as the transmissions of a query take. */
  function Lasts(cfg: Settings, state: NsState): int {
    if state == Active then cfg.goodNsTtl * 1000
    else if state == Bad then cfg.badNsTtl * 1000
    else (cfg.qretrDelay * (cfg.qretrCount + 2)) % 0x1_0000_0000 / 1000 * 1000
  }

  lemma SelectionFollowsLifeCycle(cfg: Settings, ns: seq<NameServer>, now: Time, best: int,
                                  ns': seq<NameServer>, servers: seq<nat>, i: nat)
    requires Selected(cfg, ns, now, best, ns', servers) && i < |ns|
    ensures AllowedChange(cfg, ns[i], ns'[i], BySelection(now))
  {
  }

  lemma ReportFollowsLifeCycle(cfg: Settings, ns: seq<NameServer>, addr: Addr, qId: nat, rcode: nat,
                               validated: bool, now: Time, i: nat)
    requires i < |ns|
    ensures AllowedChange(cfg, ns[i], AfterReport(cfg, ns, addr, qId, rcode, validated, now)[i],
                          ByResponse(now, addr, rcode, validated))
  {
  }
}
