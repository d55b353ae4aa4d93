/**
 * The resolver as a state machine over its lock-held sections, and what holds
 * in every state that a run can reach.
 */
module ResolverRuns {
  import opened Bytes
  import opened Dns
  import opened NameServers
  import opened ResponseCache
  import opened Queries
  import QI = QueryInvariant
  import RC = ResponseCache

  datatype State = State(cfg: Settings, ns: seq<NameServer>, q: Queries, c: Cache, shuttingDown: bool)

  function Init(cfg: Settings): State {
    State(cfg, [], NONE, EMPTY, false)
  }

  // ---------------------------------------------------------------------
  // Transmission
  // ---------------------------------------------------------------------

  /** What the timer heap and the sockets do during one transmission. */
  datatype TxEnv = TxEnv(scheduled: bool, busy: bool, made: bool, usable: set<nat>, sent: set<nat>)

  /** The outcome of select_nameservers. */
  datatype Selection = Selection(ns: seq<NameServer>, servers: seq<nat>, best: int)

  ghost predicate SelectionOk(s: State, now: Time, sel: Selection) {
    s.ns != [] ==> Selected(s.cfg, s.ns, now, sel.best, sel.ns, sel.servers)
  }

  /** Whether the query gets on its way: a server, a timer, and a socket that is busy or sends. */
  predicate TransmitOk(s: State, sel: Selection, env: TxEnv) {
    && s.ns != [] && sel.servers != [] && env.scheduled
    && (env.busy || (env.made && exists i :: i in sel.servers && i in env.usable && i in env.sent))
  }

  /** The servers after a transmission: those sent to start to time their response. */
  function NsAfterTransmit(s: State, now: Time, id: nat, sel: Selection, env: TxEnv): (r: seq<NameServer>)
    ensures |r| == if s.ns == [] then 0 else |sel.ns|
  {
    if s.ns == [] then []
    else if sel.servers == [] || !env.scheduled || env.busy || !env.made then sel.ns
    else seq(|sel.ns|, i requires 0 <= i < |sel.ns| =>
           if i in sel.servers && i in env.usable && sel.ns[i].qId == 0
           then sel.ns[i].(qId := id, sentTime := now) else sel.ns[i])
  }

  // ---------------------------------------------------------------------
  // The lock-held sections
  // ---------------------------------------------------------------------

  predicate GoodRequest(qtype: nat, name: Name) {
    0 < |name| < MAX_HOSTNAME && 0 < qtype < 0xFFFF
  }

  /** The part of start_query that queues a request for a key with no fresh cached response. */
  function Enqueue(s: State, now: Time, key: Key, hasCb: bool, id: nat, sel: Selection, env: TxEnv): State
    requires key in s.q.byKey ==> s.q.byKey[key] in s.q.nodes
  {
    if key in s.q.byKey then s.(q := Join(s.q, key, hasCb))
    else if id == 0 then s.(q := Refuse(s.q, hasCb))
    else
      var ns := NsAfterTransmit(s, now, id, sel, env);
      if TransmitOk(s, sel, env) then s.(ns := ns, q := Begin(s.q, key, id, hasCb))
      else s.(ns := ns, q := Refuse(s.q, hasCb))
  }

  function StartQuery(s: State, now: Time, qtype: nat, name: Name, hasCb: bool, id: nat, sel: Selection, env: TxEnv): State
    requires var key := InitKey(qtype, name);
             && (key in s.q.byKey ==> s.q.byKey[key] in s.q.nodes)
             && (key in s.c.table ==> s.c.table[key] in s.c.entries)
  {
    if !GoodRequest(qtype, name) || s.shuttingDown then s
    else
      var key := InitKey(qtype, name);
      if Fresh(s.c, key, now) then s.(c := Hit(s.c, key))
      else Enqueue(s.(c := Remove(s.c, key)), now, key, hasCb, id, sel, env)
  }

  function OnTimeout(s: State, now: Time, n: NodeId, sel: Selection, env: TxEnv): State
    requires n in s.q.nodes
  {
    var node := s.q.nodes[n];
    if node.id !in s.q.byId then s
    else if node.transmitCnt < s.cfg.qretrCount then
      var s1 := s.(ns := NsAfterTransmit(s, now, node.id, sel, env));
      if TransmitOk(s, sel, env) then s1.(q := Retransmit(s.q, n))
      else s1.(q := Complete(s.q, n, TimedOut))
    else s.(q := Complete(s.q, n, TimedOut))
  }

  function CString(b: bytes): bytes {
    if b == [] || b[0] == 0 then [] else [b[0]] + CString(b[1..])
  }

  /** The question of a response is that of the query; it may be missing from an error response only. */
  predicate Answers(pkt: Packet, key: Key) {
    if pkt.questions == [] then pkt.Rcode() != 0
    else
      && pkt.questions[0].qclass == CLASS_IN && pkt.questions[0].qtype == key.qtype
      && SameName(pkt.questions[0].name, CString(key.name))
  }

  predicate FromServer(ns: seq<NameServer>, addr: Addr) {
    exists i :: 0 <= i < |ns| && ns[i].addr == addr
  }

  function OnResponse(s: State, now: Time, src: Addr, parsed: Option<Packet>): State
    requires parsed.Some? && parsed.value.id in s.q.byId ==> s.q.byId[parsed.value.id] in s.q.nodes
  {
    if (!s.cfg.disableSrcCheck && !FromServer(s.ns, src)) || parsed.None? || !parsed.value.IsResponse() then s
    else
      var pkt := parsed.value;
      var s1 := s.(ns := AfterReport(s.cfg, s.ns, src, pkt.id, pkt.Rcode(), false, now));
      if pkt.id !in s.q.byId then s1
      else
        var n := s.q.byId[pkt.id];
        if !Answers(pkt, s.q.nodes[n].key) then s1
        else s1.(ns := AfterReport(s.cfg, s1.ns, src, pkt.id, pkt.Rcode(), true, now),
                 q := Complete(s.q, n, Answered(pkt, pkt)))
  }

  /** The cache after a completion: a response is saved if it is not truncated, unless destroy has begun. */
  function Saved(s: State, key: Key, ending: Ending, now: Time, dup: Packet): Cache
    requires key in s.c.table ==> s.c.table[key] in s.c.entries
  {
    if ending.Answered? && !ending.pkt.Truncated() && !s.shuttingDown
    then Update(s.cfg, s.c, key, ending.response.Rcode() == 0, true, ending.pkt, dup, now, Network(ending.response))
    else s.c
  }

  /** The last lock-held section of a completion: the response is cached and the nodes recycled. */
  function FinishQuery(s: State, n: NodeId, now: Time, dup: Packet): State
    requires n in s.q.nodes && n in s.q.completing
    requires s.q.nodes[n].key in s.c.table ==> s.c.table[s.q.nodes[n].key] in s.c.entries
  {
    s.(c := Saved(s, s.q.nodes[n].key, s.q.completing[n].ending, now, dup), q := Finish(s.q, n))
  }

  /** The key under which an injected packet is stored. */
  function EntryKey(pkt: Packet): Option<Key> {
    if !pkt.IsResponse() then None
    else if pkt.answers != [] then
      if |pkt.answers[0].name| < MAX_HOSTNAME then Some(InitKey(pkt.answers[0].rtype, pkt.answers[0].name)) else None
    else if pkt.questions != [] && |pkt.questions[0].name| < MAX_HOSTNAME
    then Some(InitKey(pkt.questions[0].qtype, pkt.questions[0].name))
    else None
  }

  function AddEntry(s: State, now: Time, pkt: Packet, timed: bool, dup: Packet): State
    requires EntryKey(pkt).Some? && EntryKey(pkt).value in s.c.table ==> s.c.table[EntryKey(pkt).value] in s.c.entries
  {
    if EntryKey(pkt).None? then s
    else s.(c := Update(s.cfg, s.c, EntryKey(pkt).value, true, timed, pkt, dup, now, Injected))
  }

  /** set_ns: None stands for an address that cannot be parsed, which leaves no servers at all. */
  function SetNs(s: State, addrs: seq<Option<Addr>>, now: Time): State {
    if !(0 < |addrs| <= MAX_NS) then s
    else if None in addrs then s.(ns := [])
    else s.(ns := seq(|addrs|, i requires 0 <= i < |addrs| =>
              NameServer(if addrs[i].Some? then addrs[i].value else 0, Active, now, 10_000, 0, 0)))
  }

  /** Destroy's first section: every pending query is collected, in the order of the hash table. */
  function CollectAll(q: Queries, order: seq<NodeId>, notify: bool): Queries
    requires forall i :: 0 <= i < |order| ==> order[i] in q.nodes
    decreases |order|
  {
    if order == [] then q else CollectAll(Collect(q, order[0], notify), order[1..], notify)
  }

  // ---------------------------------------------------------------------
  // Events and runs
  // ---------------------------------------------------------------------

  datatype Event =
    | Start(now: Time, qtype: nat, name: Name, hasCb: bool, id: nat, sel: Selection, env: TxEnv)
    | CancelQuery(n: NodeId, notify: bool, dispatched: bool)
    | CallCancelled(t: Ticket)
    | Expire(n: NodeId, now: Time, sel: Selection, env: TxEnv)
    | Receive(now: Time, src: Addr, parsed: Option<Packet>)
    | NotifyNext(n: NodeId)
    | CallBack(n: NodeId, pkt: Packet)
    | FinishUp(n: NodeId, now: Time, dup: Packet)
    | ReaderReturns(r: ReaderId)
    | Inject(now: Time, pkt: Packet, timed: bool, dup: Packet)
    | Configure(addrs: seq<Option<Addr>>, now: Time)
    | Destroy(order: seq<NodeId>, notify: bool)

  ghost predicate Enabled(s: State, e: Event) {
    match e
    case Start(now, _, _, _, id, sel, _) => id == 0 || (id < 0x1_0000 && id !in s.q.byId && SelectionOk(s, now, sel))
    case CancelQuery(n, _, _) => n in s.q.nodes
    case CallCancelled(t) => t in s.q.cancelling
    case Expire(n, now, sel, _) =>
      && n in s.q.nodes
      && (s.q.nodes[n].id in s.q.byId && s.q.nodes[n].transmitCnt < s.cfg.qretrCount ==> SelectionOk(s, now, sel))
      && (s.q.nodes[n].id in s.q.byId ==> s.q.byId[s.q.nodes[n].id] == n && s.q.nodes[n].timerOn)
    case Receive(_, _, _) => true
    case NotifyNext(n) => QI.CanTakeNext(s.q, n)
    case CallBack(n, _) => n in s.q.completing && s.q.completing[n].inFlight.Some?
    case FinishUp(n, _, dup) =>
      && QI.CanFinish(s.q, n)
      && (s.q.completing[n].ending.Answered? ==> IsDup(s.q.completing[n].ending.pkt, dup))
    case ReaderReturns(r) => r in s.c.readers
    case Inject(_, pkt, _, dup) => IsDup(pkt, dup)
    case Configure(_, _) => true
    case Destroy(order, _) => !s.shuttingDown && IsOrder(s.q, order)
  }

  /** order lists every pending query once. */
  ghost predicate IsOrder(q: Queries, order: seq<NodeId>) {
    && (forall i :: 0 <= i < |order| ==> order[i] in q.nodes && q.nodes[order[i]].place == Pending)
    && (forall i, j :: 0 <= i < j < |order| ==> order[i] != order[j])
    && (forall n :: n in q.nodes && q.nodes[n].place == Pending ==> n in order)
  }

  /** The tables and readers refer to nodes and entries that exist: what the steps need to be defined. */
  ghost predicate Sound(s: State) {
    && (forall k :: k in s.q.byKey ==> s.q.byKey[k] in s.q.nodes)
    && (forall i :: i in s.q.byId ==> s.q.byId[i] in s.q.nodes)
    && (forall k :: k in s.c.table ==> s.c.table[k] in s.c.entries)
    && (forall r :: r in s.c.readers ==> s.c.readers[r].entry in s.c.entries)
    && (forall t :: t in s.q.cancelling ==> t < |s.q.fates|)
    && (forall n :: n in s.q.completing && s.q.completing[n].inFlight.Some? ==>
          s.q.completing[n].inFlight.value < |s.q.fates|)
  }

  ghost function Apply(s: State, e: Event): State
    requires Sound(s) && Enabled(s, e)
  {
    match e
    case Start(now, qtype, name, hasCb, id, sel, env) => StartQuery(s, now, qtype, name, hasCb, id, sel, env)
    case CancelQuery(n, notify, dispatched) => s.(q := Cancel(s.q, n, notify, dispatched))
    case CallCancelled(t) => s.(q := CancelCall(s.q, t))
    case Expire(n, now, sel, env) => OnTimeout(s, now, n, sel, env)
    case Receive(now, src, parsed) => OnResponse(s, now, src, parsed)
    case NotifyNext(n) => s.(q := TakeNext(s.q, n))
    case CallBack(n, pkt) => s.(q := Call(s.q, n, pkt))
    case FinishUp(n, now, dup) => FinishQuery(s, n, now, dup)
    case ReaderReturns(r) => s.(c := Done(s.c, r))
    case Inject(now, pkt, timed, dup) => AddEntry(s, now, pkt, timed, dup)
    case Configure(addrs, now) => SetNs(s, addrs, now)
    case Destroy(order, notify) => s.(shuttingDown := true, q := CollectAll(s.q, order, notify))
  }

  /** evs takes s to s2. */
  ghost predicate Runs(s: State, evs: seq<Event>, s2: State)
    decreases |evs|
  {
    if evs == [] then s == s2
    else Sound(s) && Enabled(s, evs[0]) && Runs(Apply(s, evs[0]), evs[1..], s2)
  }

  ghost predicate Reachable(cfg: Settings, s: State) {
    exists evs :: Runs(Init(cfg), evs, s)
  }

  // ---------------------------------------------------------------------
  // The invariant of all runs
  // ---------------------------------------------------------------------

  /** A response being delivered has the id and the question of its query. */
  ghost predicate Matched(q: Queries) {
    forall n :: n in q.completing && n in q.nodes && q.completing[n].ending.Answered? ==>
      var r := q.completing[n].ending.response;
      r.IsResponse() && r.id == q.nodes[n].id && Answers(r, q.nodes[n].key)
  }

  /**
   * A packet stored from the network is not truncated, is stored as a success
   * or a failure by its code, and the response it came from answers the key.
   */
  ghost predicate Provenance(c: Cache) {
    forall k :: k in c.stored && c.stored[k].origin.Network? ==>
      && !c.stored[k].pkt.Truncated() && c.stored[k].timed
      && c.stored[k].ok == (c.stored[k].origin.response.flags % 16 == 0)
      && c.stored[k].origin.response.IsResponse() && Answers(c.stored[k].origin.response, k)
  }

  ghost predicate Good(s: State) {
    && |s.ns| <= MAX_NS
    && QI.Valid(s.cfg, s.q) && RC.Valid(s.cfg, s.c)
    && Matched(s.q) && Provenance(s.c)
    && (s.shuttingDown ==> s.q.byId == map[])
  }

  lemma InitIsGood(cfg: Settings)
    ensures Good(Init(cfg))
  {
    QI.NoneIsValid(cfg);
    RC.EmptyIsValid(cfg);
  }

  /** In a good state every enabled step is defined. */
  lemma GoodIsSound(s: State)
    requires Good(s)
    ensures Sound(s)
  {
    hide Matched, Provenance, QI.Families, QI.Notified, QI.Retrying, RC.Counted, RC.Pools, RC.Faithful;
  }

  lemma GoodIsValid(s: State)
    requires Good(s)
    ensures QI.Valid(s.cfg, s.q)
  {
  }

  /** Each completion of r is one of q with the same query and response, or is not a response. */
  ghost predicate SameResponses(q: Queries, r: Queries) {
    forall n :: n in r.completing && n in r.nodes && r.completing[n].ending.Answered? ==>
      && n in q.completing && n in q.nodes && q.completing[n].ending.Answered?
      && r.completing[n].ending.response == q.completing[n].ending.response
      && r.nodes[n].id == q.nodes[n].id && r.nodes[n].key == q.nodes[n].key
  }

  lemma MatchedFrame(q: Queries, r: Queries)
    requires Matched(q) && SameResponses(q, r)
    ensures Matched(r)
  {
    hide Answers;
  }

  lemma CompleteMatches(q: Queries, n: NodeId, ending: Ending)
    requires Matched(q) && n in q.nodes && n !in q.completing
    requires ending.Answered? ==>
               ending.response.IsResponse() && ending.response.id == q.nodes[n].id && Answers(ending.response, q.nodes[n].key)
    ensures Matched(Complete(q, n, ending))
  {
    hide Answers;
  }

  lemma PendingNotCompleting(cfg: Settings, q: Queries, n: NodeId)
    requires QI.Valid(cfg, q) && n in q.nodes && q.nodes[n].place == Pending
    ensures n !in q.completing
  {
    hide QI.Tables, QI.Families, QI.Tickets, QI.Notified, QI.Retrying;
  }

  lemma ByIdIsPending(cfg: Settings, q: Queries, i: nat)
    requires QI.Valid(cfg, q) && i in q.byId
    ensures q.byId[i] in q.nodes && q.nodes[q.byId[i]].place == Pending && q.nodes[q.byId[i]].id == i
    ensures q.byId[i] !in q.completing
  {
    hide QI.Families, QI.Tickets, QI.Notified, QI.Retrying;
  }

  lemma AllocNotCompleting(cfg: Settings, q: Queries)
    requires QI.Valid(cfg, q)
    ensures AllocId(q) !in q.completing
  {
    hide QI.Tables, QI.Families, QI.Tickets, QI.Notified, QI.Retrying;
    QI.AllocatedIsUnused(cfg, q);
  }

  lemma EnqueueKeepsGood(s: State, now: Time, key: Key, hasCb: bool, id: nat, sel: Selection, env: TxEnv)
    requires Good(s) && !s.shuttingDown
    requires id == 0 || (id !in s.q.byId && SelectionOk(s, now, sel))
    ensures (key in s.q.byKey ==> s.q.byKey[key] in s.q.nodes) && Good(Enqueue(s, now, key, hasCb, id, sel, env))
  {
    hide QI.Valid, RC.Valid, Matched, Provenance, IsBest, Answers, SameResponses;
    AllocNotCompleting(s.cfg, s.q);
    if key in s.q.byKey {
      QI.JoinKeepsValid(s.cfg, s.q, key, hasCb);
      JoinSameResponses(s.q, key, hasCb);
      MatchedFrame(s.q, Join(s.q, key, hasCb));
    } else {
      QI.RefuseKeepsValid(s.cfg, s.q, hasCb);
      RefuseSameResponses(s.q, hasCb);
      MatchedFrame(s.q, Refuse(s.q, hasCb));
      if id != 0 {
        QI.BeginKeepsValid(s.cfg, s.q, key, id, hasCb);
        BeginSameResponses(s.q, key, id, hasCb);
        MatchedFrame(s.q, Begin(s.q, key, id, hasCb));
      }
    }
  }

  lemma JoinSameResponses(q: Queries, key: Key, hasCb: bool)
    requires AllocId(q) !in q.completing && key in q.byKey && q.byKey[key] in q.nodes
    ensures SameResponses(q, Join(q, key, hasCb))
  {
  }

  lemma RefuseSameResponses(q: Queries, hasCb: bool)
    requires AllocId(q) !in q.completing
    ensures SameResponses(q, Refuse(q, hasCb))
  {
  }

  lemma BeginSameResponses(q: Queries, key: Key, id: nat, hasCb: bool)
    requires AllocId(q) !in q.completing
    ensures SameResponses(q, Begin(q, key, id, hasCb))
  {
  }

  lemma RemoveKeepsStored(c: Cache, key: Key)
    requires key in c.table ==> c.table[key] in c.entries
    ensures Remove(c, key).stored == c.stored
  {
  }

  lemma UpdateStores(cfg: Settings, c: Cache, key: Key, ok: bool, timed: bool, pkt: Packet, dup: Packet, now: Time, origin: Origin)
    requires key in c.table ==> c.table[key] in c.entries
    ensures Update(cfg, c, key, ok, timed, pkt, dup, now, origin).stored in
              {c.stored, c.stored[key := Stored(pkt, now, timed, ok, origin)]}
  {
  }

  /** What start_query and the cache updates need of a key. */
  lemma KeyIsSound(s: State, key: Key)
    requires QI.Valid(s.cfg, s.q) && RC.Valid(s.cfg, s.c)
    ensures key in s.q.byKey ==> s.q.byKey[key] in s.q.nodes
    ensures key in s.c.table ==> s.c.table[key] in s.c.entries
  {
    hide QI.Families, QI.Lists, QI.Tickets, QI.Notified, QI.Retrying, RC.Counted, RC.Pools, RC.Faithful;
  }

  lemma StartKeepsGood(s: State, now: Time, qtype: nat, name: Name, hasCb: bool, id: nat, sel: Selection, env: TxEnv)
    requires Good(s) && (id == 0 || (id !in s.q.byId && SelectionOk(s, now, sel)))
    requires var key := InitKey(qtype, name);
             && (key in s.q.byKey ==> s.q.byKey[key] in s.q.nodes)
             && (key in s.c.table ==> s.c.table[key] in s.c.entries)
    ensures Good(StartQuery(s, now, qtype, name, hasCb, id, sel, env))
  {
    hide QI.Valid, RC.Valid, Matched, IsBest, Answers, InitKey, Enqueue, Remove, Hit, Selected;
    var key := InitKey(qtype, name);
    if GoodRequest(qtype, name) && !s.shuttingDown {
      RemoveKeepsStored(s.c, key);
      if Fresh(s.c, key, now) {
        RC.HitKeepsValid(s.cfg, s.c, key);
        HitKeepsStored(s.c, key);
      } else {
        RC.RemoveKeepsValid(s.cfg, s.c, key);
        EnqueueKeepsGood(s.(c := Remove(s.c, key)), now, key, hasCb, id, sel, env);
      }
    }
  }

  lemma HitKeepsStored(c: Cache, key: Key)
    requires key in c.table && c.table[key] in c.entries
    ensures Hit(c, key).stored == c.stored
  {
  }

  lemma ExpireKeepsGood(s: State, now: Time, n: NodeId, sel: Selection, env: TxEnv)
    requires Good(s) && Enabled(s, Expire(n, now, sel, env))
    ensures Good(OnTimeout(s, now, n, sel, env))
  {
    hide QI.Valid, RC.Valid, Matched, Provenance, IsBest, Answers, SameResponses, Complete;
    var node := s.q.nodes[n];
    if node.id in s.q.byId {
      ByIdIsPending(s.cfg, s.q, node.id);
      QI.CompleteKeepsValid(s.cfg, s.q, n, TimedOut);
      CompleteMatches(s.q, n, TimedOut);
      if node.transmitCnt < s.cfg.qretrCount {
        QI.RetransmitKeepsValid(s.cfg, s.q, n);
        RetransmitSameResponses(s.q, n);
        MatchedFrame(s.q, Retransmit(s.q, n));
      }
    }
  }

  lemma RetransmitSameResponses(q: Queries, n: NodeId)
    requires n in q.nodes
    ensures SameResponses(q, Retransmit(q, n))
  {
  }

  lemma ReceiveKeepsGood(s: State, now: Time, src: Addr, parsed: Option<Packet>)
    requires Good(s)
    requires parsed.Some? && parsed.value.id in s.q.byId ==> s.q.byId[parsed.value.id] in s.q.nodes
    ensures Good(OnResponse(s, now, src, parsed))
  {
    hide QI.Valid, RC.Valid, Matched, Provenance, Answers, Complete, AfterReport;
    if parsed.Some? && parsed.value.id in s.q.byId && parsed.value.IsResponse() {
      var pkt := parsed.value;
      var n := s.q.byId[pkt.id];
      if Answers(pkt, s.q.nodes[n].key) {
        ByIdIsPending(s.cfg, s.q, pkt.id);
        QI.CompleteKeepsValid(s.cfg, s.q, n, Answered(pkt, pkt));
        CompleteMatches(s.q, n, Answered(pkt, pkt));
        CompleteLeaves(s.q, n, Answered(pkt, pkt));
      }
    }
  }

  lemma CompleteLeaves(q: Queries, n: NodeId, ending: Ending)
    requires n in q.nodes
    ensures q.byId == map[] ==> Complete(q, n, ending).byId == map[]
  {
  }

  lemma FinishKeepsGood(s: State, n: NodeId, now: Time, dup: Packet)
    requires Good(s) && QI.CanFinish(s.q, n)
    requires s.q.completing[n].ending.Answered? ==> IsDup(s.q.completing[n].ending.pkt, dup)
    requires s.q.nodes[n].key in s.c.table ==> s.c.table[s.q.nodes[n].key] in s.c.entries
    ensures Good(FinishQuery(s, n, now, dup))
  {
    hide QI.Valid, RC.Valid, Answers, Update, Finish, IsDup;
    var ending, key := s.q.completing[n].ending, s.q.nodes[n].key;
    QI.FinishKeepsValid(s.cfg, s.q, n);
    FinishSameResponses(s.q, n);
    MatchedFrame(s.q, Finish(s.q, n));
    if ending.Answered? && !ending.pkt.Truncated() && !s.shuttingDown {
      var ok, origin := ending.response.Rcode() == 0, Network(ending.response);
      RC.UpdateKeepsValid(s.cfg, s.c, key, ok, true, ending.pkt, dup, now, origin);
      UpdateStores(s.cfg, s.c, key, ok, true, ending.pkt, dup, now, origin);
    }
  }

  lemma FinishSameResponses(q: Queries, n: NodeId)
    requires n in q.nodes && n in q.completing
    ensures SameResponses(q, Finish(q, n)) && Finish(q, n).byId == q.byId
  {
  }

  lemma InjectKeepsGood(s: State, now: Time, pkt: Packet, timed: bool, dup: Packet)
    requires Good(s) && IsDup(pkt, dup)
    requires EntryKey(pkt).Some? && EntryKey(pkt).value in s.c.table ==> s.c.table[EntryKey(pkt).value] in s.c.entries
    ensures Good(AddEntry(s, now, pkt, timed, dup))
  {
    hide QI.Valid, RC.Valid, Answers, Update, IsDup, EntryKey;
    if EntryKey(pkt).Some? {
      RC.UpdateKeepsValid(s.cfg, s.c, EntryKey(pkt).value, true, timed, pkt, dup, now, Injected);
      UpdateStores(s.cfg, s.c, EntryKey(pkt).value, true, timed, pkt, dup, now, Injected);
    }
  }

  lemma {:induction false} CollectAllKeepsGood(cfg: Settings, q: Queries, order: seq<NodeId>, notify: bool)
    requires QI.Valid(cfg, q) && Matched(q) && IsOrder(q, order)
    ensures QI.Valid(cfg, CollectAll(q, order, notify)) && Matched(CollectAll(q, order, notify))
    ensures CollectAll(q, order, notify).byId == map[]
    decreases |order|
  {
    hide QI.Valid, Matched;
    if order == [] {
      NoPendingNoIds(cfg, q);
    } else {
      var n := order[0];
      QI.CollectKeepsValid(cfg, q, n, notify);
      PendingNotCompleting(cfg, q, n);
      CollectMatches(q, n, notify);
      CollectOrder(q, order, notify);
      CollectAllKeepsGood(cfg, Collect(q, n, notify), order[1..], notify);
    }
  }

  lemma NoPendingNoIds(cfg: Settings, q: Queries)
    requires QI.Valid(cfg, q) && forall n :: n in q.nodes ==> q.nodes[n].place != Pending
    ensures q.byId == map[]
  {
    hide QI.Families, QI.Lists, QI.Tickets, QI.Notified, QI.Retrying;
    assert forall i :: i !in q.byId;
  }

  lemma CollectMatches(q: Queries, n: NodeId, notify: bool)
    requires Matched(q) && n in q.nodes && n !in q.completing
    ensures Matched(Collect(q, n, notify))
  {
    hide Answers;
  }

  lemma CollectOrder(q: Queries, order: seq<NodeId>, notify: bool)
    requires IsOrder(q, order) && order != []
    ensures IsOrder(Collect(q, order[0], notify), order[1..])
  {
    var r := Collect(q, order[0], notify);
    forall n | n in r.nodes && r.nodes[n].place == Pending ensures n in order[1..] {
      assert n in order && n != order[0];
    }
  }

  lemma CancelSameResponses(q: Queries, n: NodeId, notify: bool, dispatched: bool)
    requires n in q.nodes
    ensures SameResponses(q, Cancel(q, n, notify, dispatched)) && Cancel(q, n, notify, dispatched).byId == q.byId
  {
  }

  lemma TakeNextSameResponses(q: Queries, n: NodeId)
    requires QI.CanTakeNext(q, n)
    ensures SameResponses(q, TakeNext(q, n)) && TakeNext(q, n).byId == q.byId
  {
  }

  lemma CallSameResponses(q: Queries, n: NodeId, pkt: Packet)
    requires n in q.completing && q.completing[n].inFlight.Some? && q.completing[n].inFlight.value < |q.fates|
    ensures SameResponses(q, Call(q, n, pkt)) && Call(q, n, pkt).byId == q.byId
  {
  }

  lemma DoneKeepsStored(c: Cache, r: ReaderId)
    requires r in c.readers && c.readers[r].entry in c.entries
    ensures Done(c, r).stored == c.stored
  {
  }

  /** Every step keeps the invariant. */
  lemma StepKeepsGood(s: State, e: Event)
    requires Good(s) && Sound(s) && Enabled(s, e)
    ensures Good(Apply(s, e))
  {
    match e
    case Start(now, qtype, name, hasCb, id, sel, env) =>
      KeyIsSound(s, InitKey(qtype, name));
      StartKeepsGood(s, now, qtype, name, hasCb, id, sel, env);
    case Expire(n, now, sel, env) =>
      ExpireKeepsGood(s, now, n, sel, env);
    case Receive(now, src, parsed) =>
      ReceiveKeepsGood(s, now, src, parsed);
    case FinishUp(n, now, dup) =>
      KeyIsSound(s, s.q.nodes[n].key);
      FinishKeepsGood(s, n, now, dup);
    case Inject(now, pkt, timed, dup) =>
      InjectKeepsGood(s, now, pkt, timed, dup);
    case _ =>
      SmallStepKeepsGood(s, e);
  }

  lemma SmallStepKeepsGood(s: State, e: Event)
    requires Good(s) && Sound(s) && Enabled(s, e)
    requires e.CancelQuery? || e.CallCancelled? || e.NotifyNext? || e.CallBack? || e.ReaderReturns? || e.Configure? || e.Destroy?
    ensures Good(Apply(s, e))
  {
    hide QI.Valid, RC.Valid, Matched, Provenance, Answers, SameResponses, IsOrder, Sound;
    match e
    case CancelQuery(n, notify, dispatched) =>
      QI.CancelKeepsValid(s.cfg, s.q, n, notify, dispatched);
      CancelSameResponses(s.q, n, notify, dispatched);
      MatchedFrame(s.q, Cancel(s.q, n, notify, dispatched));
    case CallCancelled(t) =>
      QI.CancelCallKeepsValid(s.cfg, s.q, t);
      CancelCallSameResponses(s.q, t);
      MatchedFrame(s.q, CancelCall(s.q, t));
    case NotifyNext(n) =>
      QI.TakeNextKeepsValid(s.cfg, s.q, n);
      TakeNextSameResponses(s.q, n);
      MatchedFrame(s.q, TakeNext(s.q, n));
    case CallBack(n, pkt) =>
      QI.CallKeepsValid(s.cfg, s.q, n, pkt);
      CallSameResponses(s.q, n, pkt);
      MatchedFrame(s.q, Call(s.q, n, pkt));
    case ReaderReturns(r) =>
      RC.DoneKeepsValid(s.cfg, s.c, r);
      ReaderIsSound(s, r);
      DoneKeepsStored(s.c, r);
      ProvenanceFrame(s.c, Done(s.c, r));
    case Configure(addrs, now) =>
    case Destroy(order, notify) =>
      CollectAllKeepsGood(s.cfg, s.q, order, notify);
  }

  lemma ReaderIsSound(s: State, r: ReaderId)
    requires Sound(s) && r in s.c.readers
    ensures s.c.readers[r].entry in s.c.entries
  {
  }

  lemma ProvenanceFrame(c: Cache, d: Cache)
    requires Provenance(c) && d.stored == c.stored
    ensures Provenance(d)
  {
  }

  lemma CancelCallSameResponses(q: Queries, t: Ticket)
    requires t in q.cancelling && t < |q.fates|
    ensures SameResponses(q, CancelCall(q, t))
  {
  }

  lemma {:induction false} RunKeepsGood(s: State, evs: seq<Event>, s2: State)
    requires Good(s) && Runs(s, evs, s2)
    ensures Good(s2)
    decreases |evs|
  {
    hide Good, Enabled, Apply, Sound;
    if evs != [] {
      StepKeepsGood(s, evs[0]);
      RunKeepsGood(Apply(s, evs[0]), evs[1..], s2);
    }
  }

  lemma ReachableIsGood(cfg: Settings, s: State)
    requires Reachable(cfg, s)
    ensures Good(s)
  {
    var evs :| Runs(Init(cfg), evs, s);
    InitIsGood(cfg);
    RunKeepsGood(Init(cfg), evs, s);
  }

  /** s2 is the result of the event e in s. */
  ghost predicate Steps(s: State, e: Event, s2: State) {
    Sound(s) && Enabled(s, e) && s2 == Apply(s, e)
  }

  lemma {:induction false} RunsAppend(s: State, evs: seq<Event>, s1: State, e: Event, s2: State)
    requires Runs(s, evs, s1) && Steps(s1, e, s2)
    ensures Runs(s, evs + [e], s2)
    decreases |evs|
  {
    hide Sound, Enabled, Apply;
    if evs == [] {
      assert [e][1..] == [] && evs + [e] == [e];
      assert Runs(s2, [], s2);
    } else {
      assert (evs + [e])[1..] == evs[1..] + [e];
      RunsAppend(Apply(s, evs[0]), evs[1..], s1, e, s2);
    }
  }

  lemma ReachableSteps(cfg: Settings, s: State, e: Event, s2: State)
    requires Reachable(cfg, s) && Steps(s, e, s2)
    ensures Reachable(cfg, s2)
  {
    hide Steps;
    var evs :| Runs(Init(cfg), evs, s);
    RunsAppend(Init(cfg), evs, s, e, s2);
  }
}
