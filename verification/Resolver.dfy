/**
 * The resolver object of resolver.c. Each method is one lock-held section and
 * is proved to be the step of the state machine of ResolverRuns.
 */
module Resolver {
  import opened Bytes
  import opened Dns
  import opened NameServers
  import opened ResponseCache
  import opened Queries
  import opened ResolverRuns
  import QI = QueryInvariant

  /** What start_query returns. */
  datatype Started =
    | BadArgument
    | Gone                      // the resolver is being destroyed
    | FromCache(reader: ReaderId)
    | Queued(node: NodeId)
    | NoId
    | NotSent

  class DnsResolver {
    const cfg: Settings
    var ns: seq<NameServer>
    // queries
    var nodes: map<NodeId, Node>
    var byId: map<nat, NodeId>
    var byKey: map<Key, NodeId>
    var free: seq<NodeId>
    var completing: map<NodeId, Completion>
    var cancelling: set<Ticket>
    var nextNode: nat
    ghost var fates: seq<Fate>
    ghost var log: seq<(Ticket, Notice)>
    // cached responses
    var table: map<Key, EntryId>
    var entries: map<EntryId, Entry>
    var readers: map<ReaderId, Reader>
    var nextEntry: nat
    var nextReader: nat
    ghost var released: seq<EntryId>
    ghost var stored: map<Key, Stored>
    var shuttingDown: bool
    var tickets: nat   // number of accepted requests with a callback

    constructor (cfg: Settings)
      ensures View() == Init(cfg) && Valid()
    {
      this.cfg := cfg;
      ns, nodes, byId, byKey, free, completing, cancelling, nextNode := [], map[], map[], map[], [], map[], {}, 0;
      fates, log := [], [];
      table, entries, readers, nextEntry, nextReader := map[], map[], map[], 0, 0;
      released, stored, shuttingDown, tickets := [], map[], false, 0;
      new;
      assert Runs(Init(cfg), [], Init(cfg));
    }

    ghost function Q(): Queries
      reads this
    {
      Queries(nodes, byId, byKey, free, completing, cancelling, nextNode, fates, log)
    }

    ghost function C(): Cache
      reads this
    {
      Cache(table, entries, readers, nextEntry, nextReader, released, stored)
    }

    ghost function View(): State
      reads this
    {
      State(cfg, ns, Q(), C(), shuttingDown)
    }

    ghost predicate Numbered()
      reads this
    {
      tickets == |fates|
    }

    /** The object is only ever in states that runs of the state machine reach. */
    ghost predicate Valid()
      reads this
    {
      Reachable(cfg, View()) && Numbered()
    }

    // -------------------------------------------------------------------
    // Nodes
    // -------------------------------------------------------------------

    /** alloc_qnode */
    method AllocQnode(node: Node) returns (n: NodeId)
      modifies `nodes, `free, `nextNode
      ensures n == AllocId(old(Q())) && Q() == Alloc(old(Q()), node)
    {
      if free != [] {
        n := free[0];
        free := free[1..];
      } else {
        n := nextNode;
        nextNode := nextNode + 1;
      }
      nodes := nodes[n := node];
    }

    /** The callback of a new request that has been accepted and is held by n. */
    method AcceptRequest(ghost n: NodeId, hasCb: bool) returns (cb: Callback)
      requires Numbered()
      modifies `tickets, `fates
      ensures Numbered() && (cb, fates) == Accept(old(Q()), n, hasCb)
    {
      if !hasCb { return NoCallback; }
      cb := Live(tickets);
      tickets, fates := tickets + 1, fates + [Held(n)];
    }

    /**
     * get_query_id: the first of at most 1000 candidates that is not zero and
     * not in use. The candidates stand for the keyed hash of a counter.
     */
    method GetQueryId(candidates: seq<nat>) returns (id: nat)
      requires |candidates| == 1000 && forall i :: 0 <= i < 1000 ==> candidates[i] < 0x1_0000
      ensures id != 0 ==> id in candidates && id < 0x1_0000 && id !in byId
      ensures id == 0 ==> forall i :: 0 <= i < 1000 ==> candidates[i] == 0 || candidates[i] in byId
    {
      for i := 0 to 1000
        invariant forall j :: 0 <= j < i ==> candidates[j] == 0 || candidates[j] in byId
      {
        if candidates[i] != 0 && candidates[i] !in byId { return candidates[i]; }
      }
      return 0;
    }

    // -------------------------------------------------------------------
    // Transmission
    // -------------------------------------------------------------------

    /** The sending loop of transmit_query: servers sent to start to time their response. */
    method SendToServers(servers: seq<nat>, id: nat, now: Time, env: TxEnv) returns (sent: bool)
      requires forall i :: 0 <= i < |servers| ==> servers[i] < |ns|
      modifies `ns
      ensures |ns| == |old(ns)|
      ensures forall k: nat :: k < |ns| ==>
                ns[k] == if k in servers && k in env.usable && old(ns)[k].qId == 0
                         then old(ns)[k].(qId := id, sentTime := now) else old(ns)[k]
      ensures sent <==> exists k :: k in servers && k in env.usable && k in env.sent
    {
      var sendCnt := 0;
      for i := 0 to |servers|
        invariant |ns| == |old(ns)|
        invariant forall k: nat :: k < |ns| ==>
          ns[k] == if k in servers[..i] && k in env.usable && old(ns)[k].qId == 0
                   then old(ns)[k].(qId := id, sentTime := now) else old(ns)[k]
        invariant sendCnt > 0 <==> exists k :: k in servers[..i] && k in env.usable && k in env.sent
      {
        var k := servers[i];
        assert servers[..i + 1] == servers[..i] + [k];
        if k in env.usable {
          if k in env.sent { sendCnt := sendCnt + 1; }
          if ns[k].qId == 0 { ns := ns[k := ns[k].(qId := id, sentTime := now)]; }
        }
      }
      assert servers[..|servers|] == servers;
      return sendCnt > 0;
    }

    /** transmit_query: selects servers, starts the timer and sends. */
    method TransmitQuery(id: nat, now: Time, env: TxEnv) returns (ok: bool, ghost sel: Selection)
      requires |ns| <= MAX_NS
      modifies `ns
      ensures SelectionOk(old(View()), now, sel)
      ensures ok == TransmitOk(old(View()), sel, env)
      ensures ns == NsAfterTransmit(old(View()), now, id, sel, env)
    {
      hide Selected;
      if ns == [] { return false, Selection([], [], -1); }
      var ns', servers, best := Select(cfg, ns, now);
      sel := Selection(ns', servers, best);
      ServersInRange(cfg, ns, now, best, ns', servers);
      ns := ns';
      if servers == [] || !env.scheduled { return false, sel; }
      if env.busy { return true, sel; }
      if !env.made { return false, sel; }
      ok := SendToServers(servers, id, now, env);
    }

    // -------------------------------------------------------------------
    // Cache
    // -------------------------------------------------------------------

    /** Gives up a reference to an entry; free_entry with the last one. */
    method UnrefEntry(e: EntryId)
      requires e in entries
      modifies `entries, `released
      ensures C() == Unref(old(C()), e)
    {
      var refCnt := entries[e].refCnt - 1;
      if refCnt <= 0 {
        entries, released := entries - {e}, released + [e];
      } else {
        entries := entries[e := entries[e].(refCnt := refCnt)];
      }
    }

    /** Removes the key's entry from the table, if there is one. */
    method RemoveKey(key: Key)
      requires key in table ==> table[key] in entries
      modifies `table, `entries, `released
      ensures C() == Remove(old(C()), key)
    {
      if key in table {
        var e := table[key];
        table := table - {key};
        UnrefEntry(e);
      }
    }

    /** The smallest time to live of the answers. */
    method SmallestTtl(answers: seq<Record>) returns (ttl: nat)
      ensures ttl == MinTtl(answers)
    {
      ttl := NO_TTL;
      for i := 0 to |answers|
        invariant ttl == MinTtl(answers[..i])
      {
        assert answers[..i + 1][..i] == answers[..i];
        if answers[i].ttl < ttl { ttl := answers[i].ttl; }
      }
      assert answers[..|answers|] == answers;
    }

    /** The time to live of a packet, at most cache_max_ttl. */
    method ComputeTtl(ok: bool, timed: bool, pkt: Packet) returns (ttl: nat)
      ensures ttl == Ttl(cfg, ok, timed, pkt)
    {
      ttl := NO_TTL;
      if timed {
        if pkt.answers == [] || !ok { ttl := INVALID_TTL; } else { ttl := SmallestTtl(pkt.answers); }
      }
      if ttl > cfg.cacheMaxTtl { ttl := cfg.cacheMaxTtl; }
    }

    /**
     * Puts a packet in the table: in the key's own entry if no callback is
     * using it, and in a new entry otherwise.
     */
    method PutEntry(key: Key, copy: Packet, expiry: Time)
      requires key in table ==> table[key] in entries
      modifies `table, `entries, `nextEntry, `released
      ensures C() == if key !in old(table) then Insert(old(C()), key, copy, expiry)
                     else if old(entries[table[key]].refCnt) > 1 then Insert(Remove(old(C()), key), key, copy, expiry)
                     else Reset(old(C()), key, copy, expiry)
    {
      hide Remove;
      if key in table && entries[table[key]].refCnt <= 1 {
        entries := entries[table[key] := Entry(copy, expiry, entries[table[key]].refCnt)];
      } else {
        if key in table { RemoveKey(key); }
        table, entries := table[key := nextEntry], entries[nextEntry := Entry(copy, expiry, 1)];
        nextEntry := nextEntry + 1;
      }
    }

    /** update_res_cache */
    method UpdateResCache(key: Key, ok: bool, timed: bool, pkt: Packet, now: Time, ghost origin: Origin)
      returns (ghost dup: Packet)
      requires key in table ==> table[key] in entries
      modifies `table, `entries, `nextEntry, `released, `stored
      ensures IsDup(pkt, dup)
      ensures C() == Update(cfg, old(C()), key, ok, timed, pkt, dup, now, origin)
    {
      hide IsDup, Ttl, Insert, Reset, Unref;
      var copy := Duplicate(pkt);
      dup := copy;
      if !ok { RemoveKey(key); }
      var ttl := ComputeTtl(ok, timed, pkt);
      if ttl == 0 {
        if ok { RemoveKey(key); }
        return;
      }
      RemovedKey(old(C()), key);
      PutEntry(key, copy, if timed then now + 1000 * ttl else FOREVER);
      stored := stored[key := Stored(pkt, now, timed, ok, origin)];
    }

    /** pj_dns_resolver_add_entry */
    method AddPacket(pkt: Packet, timed: bool, now: Time) returns (ok: bool, ghost dup: Packet)
      requires Valid()
      modifies `table, `entries, `nextEntry, `released, `stored
      ensures Valid() && Steps(old(View()), Inject(now, pkt, timed, dup), View())
      ensures ok <==> EntryKey(pkt).Some?
    {
      hide Reachable, Good, Sound, Enabled, Apply, Update, IsDup, EntryKey, AddEntry, Steps;
      ghost var s := View();
      var key := EntryKey(pkt);
      KeyInReach(cfg, s, if key.Some? then key.value else NO_KEY);
      if key.None? {
        var copy := Duplicate(pkt);
        dup := copy;
      } else {
        dup := UpdateResCache(key.value, true, timed, pkt, now, Injected);
      }
      InjectSteps(cfg, s, now, pkt, timed, dup);
      assert View() == AddEntry(s, now, pkt, timed, dup) by { AddEntryIs(s, now, pkt, timed, dup); }
      ReachableSteps(cfg, s, Inject(now, pkt, timed, dup), View());
      ok := key.Some?;
    }

    /** The section of start_query after the callback of a cache hit returns. */
    method ReturnFromCallback(r: ReaderId)
      requires Valid() && r in readers
      modifies `readers, `entries, `released
      ensures Valid() && Steps(old(View()), ReaderReturns(r), View())
    {
      hide Reachable, Good, Sound, Unref, Steps;
      ghost var s := View();
      ReaderInReach(cfg, s, r);
      var e := readers[r].entry;
      readers := readers - {r};
      UnrefEntry(e);
      ReachableSteps(cfg, s, ReaderReturns(r), View());
    }

    // -------------------------------------------------------------------
    // Queries
    // -------------------------------------------------------------------

    /** A child query of the pending query for key. */
    method JoinPending(key: Key, hasCb: bool) returns (n: NodeId)
      requires Numbered() && key in byKey && byKey[key] in nodes
      modifies `nodes, `free, `nextNode, `tickets, `fates
      ensures Numbered() && n == AllocId(old(Q())) && Q() == Join(old(Q()), key, hasCb)
    {
      hide Alloc, AllocId, Accept;
      var p := byKey[key];
      var parent := nodes[p];
      ghost var q := Q();
      var cb := AcceptRequest(AllocId(q), hasCb);
      ghost var q1 := Q();
      n := AllocQnode(Node(0, NO_KEY, 0, false, cb, [], ChildOf(p, |parent.children|), false));
      AllocIgnoresFates(q, q1, Node(0, NO_KEY, 0, false, cb, [], ChildOf(p, |parent.children|), false));
      nodes := nodes[p := parent.(children := parent.children + [n])];
    }

    /** A node that goes back to the end of the free list because its request fails. */
    method RefuseRequest(hasCb: bool)
      modifies `nodes, `free, `nextNode
      ensures Q() == Refuse(old(Q()), hasCb)
    {
      hide Alloc, AllocId;
      var n := AllocQnode(Node(0, NO_KEY, 0, false, if hasCb then Refused else NoCallback, [], Free, false));
      free := free + [n];
    }

    /** A transmitted query is entered in both tables. */
    method EnterQuery(key: Key, id: nat, hasCb: bool) returns (n: NodeId)
      requires Numbered()
      modifies `nodes, `free, `nextNode, `tickets, `fates, `byId, `byKey
      ensures Numbered() && n == AllocId(old(Q())) && Q() == Begin(old(Q()), key, id, hasCb)
    {
      hide Alloc, AllocId, Accept;
      ghost var q := Q();
      var cb := AcceptRequest(AllocId(q), hasCb);
      ghost var q1 := Q();
      n := AllocQnode(Node(id, key, 1, true, cb, [], Pending, false));
      AllocIgnoresFates(q, q1, Node(id, key, 1, true, cb, [], Pending, false));
      byId, byKey := byId[id := n], byKey[key := n];
    }

    /** Transmits a new query, and enters it in the tables if that works. */
    method SendRequest(key: Key, id: nat, hasCb: bool, now: Time, env: TxEnv) returns (r: Started, ghost sel: Selection)
      requires Numbered() && |ns| <= MAX_NS
      modifies `ns, `nodes, `free, `nextNode, `tickets, `fates, `byId, `byKey
      ensures Numbered() && SelectionOk(old(View()), now, sel)
      ensures r == if TransmitOk(old(View()), sel, env) then Queued(AllocId(old(Q()))) else NotSent
      ensures ns == NsAfterTransmit(old(View()), now, id, sel, env)
      ensures Q() == if r.Queued? then Begin(old(Q()), key, id, hasCb) else Refuse(old(Q()), hasCb)
    {
      hide Begin, Refuse, NsAfterTransmit, TransmitOk, SelectionOk, AllocId;
      var ok;
      ok, sel := TransmitQuery(id, now, env);
      if ok {
        var n := EnterQuery(key, id, hasCb);
        r := Queued(n);
      } else {
        RefuseRequest(hasCb);
        r := NotSent;
      }
    }

    /** The part of start_query that follows the cache lookup. */
    method EnqueueRequest(key: Key, hasCb: bool, candidates: seq<nat>, now: Time, env: TxEnv)
      returns (r: Started, ghost id: nat, ghost sel: Selection)
      requires Numbered() && |ns| <= MAX_NS && (key in byKey ==> byKey[key] in nodes)
      requires |candidates| == 1000 && forall i :: 0 <= i < 1000 ==> candidates[i] < 0x1_0000
      modifies `ns, `nodes, `free, `nextNode, `tickets, `fates, `byId, `byKey
      ensures Numbered() && (id == 0 || (id < 0x1_0000 && id !in old(byId) && SelectionOk(old(View()), now, sel)))
      ensures View() == Enqueue(old(View()), now, key, hasCb, id, sel, env)
      ensures r in {Queued(AllocId(old(Q()))), NoId, NotSent}
    {
      hide Join, Begin, Refuse, AllocId, NsAfterTransmit, TransmitOk, SelectionOk;
      ghost var s := View();
      id, sel := 0, Selection([], [], -1);
      if key in byKey {
        var n := JoinPending(key, hasCb);
        r := Queued(n);
      } else {
        var qid := GetQueryId(candidates);
        id := qid;
        if qid == 0 {
          RefuseRequest(hasCb);
          r := NoId;
        } else {
          r, sel := SendRequest(key, qid, hasCb, now, env);
        }
      }
    }

    /** The cache lookup of start_query: a fresh entry is used, a stale one removed. */
    method LookUp(key: Key, now: Time) returns (hit: bool, reader: ReaderId)
      requires key in table ==> table[key] in entries
      modifies `table, `entries, `readers, `nextReader, `released
      ensures hit == Fresh(old(C()), key, now)
      ensures C() == if hit then Hit(old(C()), key) else Remove(old(C()), key)
      ensures hit ==> reader in readers && readers[reader].pkt == old(entries[table[key]].pkt)
    {
      hide Remove;
      if key in table && entries[table[key]].expiry > now {
        var e := table[key];
        var entry := entries[e];
        entries := entries[e := entry.(refCnt := entry.refCnt + 1)];
        readers := readers[nextReader := Reader(e, entry.pkt)];
        nextReader := nextReader + 1;
        return true, nextReader - 1;
      }
      RemoveKey(key);
      return false, 0;
    }

    /** start_query for a key: from the cache, or queued. */
    method StartOnKey(key: Key, hasCb: bool, candidates: seq<nat>, now: Time, env: TxEnv)
      returns (r: Started, ghost id: nat, ghost sel: Selection)
      requires Numbered() && |ns| <= MAX_NS
      requires (key in byKey ==> byKey[key] in nodes) && (key in table ==> table[key] in entries)
      requires |candidates| == 1000 && forall i :: 0 <= i < 1000 ==> candidates[i] < 0x1_0000
      modifies this
      ensures Numbered() && (id == 0 || (id < 0x1_0000 && id !in old(byId) && SelectionOk(old(View()), now, sel)))
      ensures View() == if Fresh(old(C()), key, now) then old(View()).(c := Hit(old(C()), key))
                        else Enqueue(old(View()).(c := Remove(old(C()), key)), now, key, hasCb, id, sel, env)
      ensures (r.FromCache? <==> Fresh(old(C()), key, now)) && !r.BadArgument? && !r.Gone?
      ensures r.FromCache? ==> r.reader in readers && readers[r.reader].pkt == old(entries[table[key]].pkt)
    {
      hide SelectionOk, Enqueue, Remove, Hit, Fresh, AllocId;
      ghost var s := View();
      id, sel := 0, Selection([], [], -1);
      var hit, reader := LookUp(key, now);
      if hit { return FromCache(reader), id, sel; }
      SelectionFrame(s, View(), now);
      r, id, sel := EnqueueRequest(key, hasCb, candidates, now, env);
    }

    /** pj_dns_resolver_start_query, up to the callback of a cache hit. */
    method StartRequest(qtype: nat, name: Name, hasCb: bool, candidates: seq<nat>, now: Time, env: TxEnv)
      returns (r: Started, ghost id: nat, ghost sel: Selection)
      requires Valid()
      requires |candidates| == 1000 && forall i :: 0 <= i < 1000 ==> candidates[i] < 0x1_0000
      modifies this
      ensures Valid() && Steps(old(View()), Start(now, qtype, name, hasCb, id, sel, env), View())
      ensures r.BadArgument? <==> !GoodRequest(qtype, name)
      ensures r.FromCache? ==> r.reader in readers
      ensures r.FromCache? <==>
                GoodRequest(qtype, name) && !old(shuttingDown) && Fresh(old(C()), InitKey(qtype, name), now)
    {
      hide Reachable, Sound, SelectionOk, Enqueue, InitKey, Remove, Hit, Fresh, GoodRequest, Steps;
      ghost var s := View();
      var key := InitKey(qtype, name);
      KeyInReach(cfg, s, key);
      id, sel, r := 0, Selection([], [], -1), BadArgument;
      if GoodRequest(qtype, name) {
        if shuttingDown {
          r := Gone;
        } else {
          r, id, sel := StartOnKey(key, hasCb, candidates, now, env);
        }
      }
      StartSteps(cfg, s, now, qtype, name, hasCb, id, sel, env);
      ReachableSteps(cfg, s, Start(now, qtype, name, hasCb, id, sel, env), View());
    }

    /** Takes a node's callback for delivery or dropping. */
    method TakeCallback(n: NodeId, ghost fate: Fate) returns (t: Option<Ticket>)
      requires n in nodes
      modifies `nodes, `fates
      ensures Q() == Take(old(Q()), n, fate) && t == TicketOf(old(Q()), n) && |fates| == |old(fates)|
    {
      var node := nodes[n];
      t := if node.cb.Live? then Some(node.cb.ticket) else None;
      if node.cb.Live? && node.cb.ticket < |fates| { fates := fates[node.cb.ticket := fate]; }
      nodes := nodes[n := node.(cb := NoCallback)];
    }

    /** The locked section of pj_dns_resolver_cancel_query; t is the callback to call, if notify is set. */
    method CancelRequest(n: NodeId, notify: bool, dispatched: bool) returns (t: Option<Ticket>)
      requires Valid() && n in nodes
      modifies `nodes, `fates, `cancelling
      ensures Valid() && Steps(old(View()), CancelQuery(n, notify, dispatched), View())
      ensures t == TicketOf(old(Q()), n)
    {
      hide Reachable, Sound, Steps;
      ghost var s := View();
      CancelSteps(cfg, s, n, notify, dispatched);
      t := TakeCallback(n, if notify then InCancel else Dropped);
      var node := nodes[n];
      nodes := nodes[n := node.(timerOn := node.timerOn && dispatched, stopped := node.stopped || !dispatched)];
      if notify && t.Some? { cancelling := cancelling + {t.value}; }
      assert View() == s.(q := Cancel(s.q, n, notify, dispatched));
      ReachableSteps(cfg, s, CancelQuery(n, notify, dispatched), View());
    }

    /** A query leaves both tables and its callback is taken. */
    method BeginCompletion(n: NodeId, ending: Ending)
      requires n in nodes
      modifies `nodes, `fates, `byId, `byKey, `completing
      ensures Q() == Complete(old(Q()), n, ending) && |fates| == |old(fates)|
    {
      var node := nodes[n];
      byId, byKey := byId - {node.id}, byKey - {node.key};
      nodes := nodes[n := node.(place := Completing, timerOn := false)];
      assert Q() == Leave(old(Q()), n);
      var t := TakeCallback(n, InCompletion(n));
      completing := completing[n := Completion(ending, t, 1)];
    }

    /** A retransmission or, when there are none left or it fails, the start of a completion. */
    method ExpireTimer(n: NodeId, now: Time, env: TxEnv) returns (ghost sel: Selection)
      requires |ns| <= MAX_NS && n in nodes
      modifies `ns, `nodes, `fates, `byId, `byKey, `completing
      ensures |fates| == |old(fates)|
      ensures ns == if old(nodes[n].id in byId && nodes[n].transmitCnt < cfg.qretrCount)
                    then NsAfterTransmit(old(View()), now, old(nodes[n].id), sel, env) else old(ns)
      ensures Q() == if old(nodes[n].id !in byId) then old(Q())
                     else if old(nodes[n].transmitCnt < cfg.qretrCount) && TransmitOk(old(View()), sel, env)
                     then Retransmit(old(Q()), n) else Complete(old(Q()), n, TimedOut)
      ensures old(nodes[n].id in byId && nodes[n].transmitCnt < cfg.qretrCount) ==> SelectionOk(old(View()), now, sel)
    {
      hide SelectionOk, TransmitOk, NsAfterTransmit, Complete, Retransmit;
      sel := Selection([], [], -1);
      if nodes[n].id in byId {
        var ok := false;
        if nodes[n].transmitCnt < cfg.qretrCount {
          ok, sel := TransmitQuery(nodes[n].id, now, env);
        }
        if ok {
          RetransmitIs(Q(), n);
          nodes := nodes[n := nodes[n].(transmitCnt := nodes[n].transmitCnt + 1)];
        } else {
          BeginCompletion(n, TimedOut);
        }
      }
    }

    /** on_timeout, up to the first callback. */
    method OnExpiry(n: NodeId, now: Time, env: TxEnv) returns (ghost sel: Selection)
      requires Valid() && n in nodes
      requires nodes[n].id in byId ==> byId[nodes[n].id] == n && nodes[n].timerOn
      modifies `ns, `nodes, `fates, `byId, `byKey, `completing
      ensures Valid() && Steps(old(View()), Expire(n, now, sel, env), View())
    {
      hide Reachable, SelectionOk, Steps, OnTimeout, TransmitOk, NsAfterTransmit, Complete, Retransmit;
      ghost var s := View();
      KeyInReach(cfg, s, NO_KEY);
      sel := ExpireTimer(n, now, env);
      OnTimeoutIs(s, now, n, sel, env);
      ExpireSteps(cfg, s, n, now, sel, env);
      ReachableSteps(cfg, s, Expire(n, now, sel, env), View());
    }

    /** The checks of on_read_complete and, for a response that passes them, the start of a completion. */
    method HandlePacket(now: Time, src: Addr, parsed: Option<Packet>)
      requires parsed.Some? && parsed.value.id in byId ==> byId[parsed.value.id] in nodes
      modifies `ns, `nodes, `fates, `byId, `byKey, `completing
      ensures View() == OnResponse(old(View()), now, src, parsed) && |fates| == |old(fates)|
    {
      hide Complete, AfterReport, Answers, FromServer;
      var trusted := cfg.disableSrcCheck;
      if !trusted {
        var known := IsFromServer(ns, src);
        trusted := known;
        assert known == FromServer(ns, src) by { FromServerIs(ns, src); }
      }
      if trusted && parsed.Some? && parsed.value.IsResponse() {
        ns := Report(cfg, ns, src, parsed.value.id, parsed.value.Rcode(), false, now);
        MatchResponse(now, src, parsed.value);
      }
    }

    /** A response that matches an outstanding query decides about its server and completes the query. */
    method MatchResponse(now: Time, src: Addr, pkt: Packet)
      requires pkt.id in byId ==> byId[pkt.id] in nodes
      modifies `ns, `nodes, `fates, `byId, `byKey, `completing
      ensures |fates| == |old(fates)|
      ensures View() == if pkt.id !in old(byId) || !Answers(pkt, old(nodes[byId[pkt.id]].key)) then old(View())
                        else old(View()).(ns := AfterReport(cfg, old(ns), src, pkt.id, pkt.Rcode(), true, now),
                                          q := Complete(old(Q()), old(byId[pkt.id]), Answered(pkt, pkt)))
    {
      hide Complete, AfterReport, Answers;
      if pkt.id in byId {
        var n := byId[pkt.id];
        if Answers(pkt, nodes[n].key) {
          ns := Report(cfg, ns, src, pkt.id, pkt.Rcode(), true, now);
          BeginCompletion(n, Answered(pkt, pkt));
        }
      }
    }

    /** on_read_complete for one packet, up to the first callback. */
    method OnPacket(now: Time, src: Addr, parsed: Option<Packet>)
      requires Valid()
      modifies `ns, `nodes, `fates, `byId, `byKey, `completing
      ensures Valid() && Steps(old(View()), Receive(now, src, parsed), View())
    {
      hide Reachable, Steps, OnResponse;
      ghost var s := View();
      ReceiveSteps(cfg, s, now, src, parsed);
      HandlePacket(now, src, parsed);
      ReachableSteps(cfg, s, Receive(now, src, parsed), View());
    }

    /** One round of a notification loop, up to the callback: t is the callback to call. */
    method TakeNextCallback(n: NodeId) returns (t: Option<Ticket>)
      requires Valid() && QI.CanTakeNext(Q(), n)
      modifies `nodes, `fates, `completing
      ensures Valid() && Steps(old(View()), NotifyNext(n), View())
      ensures t == completing[n].inFlight
    {
      hide Reachable, Sound, Steps;
      ghost var s := View();
      TakeNextSteps(cfg, s, n);
      var c := completing[n];
      var m := if c.next == 0 then n else nodes[n].children[c.next - 1];
      var silent := c.ending.Destroyed? && !c.ending.notify;
      t := TakeCallback(m, if silent then Dropped else InCompletion(n));
      if silent { t := None; }
      completing := completing[n := Completion(c.ending, t, c.next + 1)];
      assert View() == s.(q := TakeNext(s.q, n));
      ReachableSteps(cfg, s, NotifyNext(n), View());
    }

    /** The callback taken for a completion is called; one for a response may change the packet to pkt. */
    method CallCallback(n: NodeId, pkt: Packet)
      requires Valid() && n in completing && completing[n].inFlight.Some?
      modifies `completing, `fates, `log
      ensures Valid() && Steps(old(View()), CallBack(n, pkt), View())
      ensures log == old(log) + [(old(completing[n].inFlight.value), NoticeOf(old(completing[n].ending)))]
    {
      hide Reachable, Sound, Steps;
      ghost var s := View();
      CallSteps(cfg, s, n, pkt);
      var c := completing[n];
      var ending := if c.ending.Answered? then c.ending.(pkt := pkt) else c.ending;
      completing := completing[n := Completion(ending, None, c.next)];
      fates, log := fates[c.inFlight.value := Delivered(|log|)], log + [(c.inFlight.value, NoticeOf(c.ending))];
      assert View() == s.(q := Call(s.q, n, pkt));
      ReachableSteps(cfg, s, CallBack(n, pkt), View());
    }

    /** The callback taken by a cancel is called. */
    method CallCancelledCallback(t: Ticket)
      requires Valid() && t in cancelling
      modifies `cancelling, `fates, `log
      ensures Valid() && Steps(old(View()), CallCancelled(t), View())
      ensures log == old(log) + [(t, Cancelled)]
    {
      hide Reachable, Sound, Steps;
      ghost var s := View();
      CancelCallSteps(cfg, s, t);
      cancelling := cancelling - {t};
      fates, log := fates[t := Delivered(|log|)], log + [(t, Cancelled)];
      assert View() == s.(q := CancelCall(s.q, t));
      ReachableSteps(cfg, s, CallCancelled(t), View());
    }

    /** The packet of a response in delivery. */
    function PacketOf(n: NodeId): Packet
      requires n in completing
      reads this
    {
      if completing[n].ending.Answered? then completing[n].ending.pkt else Packet(0, 0, [], [], [], [])
    }

    /**
     * The notification loop of on_timeout, of on_read_complete and of a round
     * of destroy, with no other thread in between: every callback that is due
     * is called once, the query's first and then its children's in order.
     * edit says what a callback makes of the packet.
     */
    method NotifyMembers(n: NodeId, edit: Packet -> Packet)
      requires Valid() && n in completing && n in nodes
      modifies `nodes, `completing, `fates, `log
      ensures Valid() && QI.CanFinish(Q(), n)
      ensures NoticeOf(completing[n].ending) == NoticeOf(old(completing[n].ending))
      ensures log == old(log) + Notices(Due(old(Q()), n), NoticeOf(old(completing[n].ending)))
    {
      hide Reachable, Sound, Steps, Due, QI.Valid;
      ghost var notice := NoticeOf(completing[n].ending);
      ghost var all := log + Notices(Due(Q(), n), notice);
      MembersInReach(cfg, View(), n);
      while completing[n].inFlight.Some? || completing[n].next <= |nodes[n].children|
        invariant Valid() && n in completing && n in nodes && MembersIn(Q(), n)
        invariant NoticeOf(completing[n].ending) == notice && log + Notices(Due(Q(), n), notice) == all
        decreases |nodes[n].children| + 1 - completing[n].next, if completing[n].inFlight.Some? then 1 else 0
      {
        ghost var s := View();
        if completing[n].inFlight.Some? {
          var pkt := edit(PacketOf(n));
          CalledIsDue(cfg, s, n, pkt);
          CallCallback(n, pkt);
          CallBackIs(s, n, pkt, View());
        } else {
          TakenIsDue(cfg, s, n);
          var t := TakeNextCallback(n);
          NotifyNextIs(s, n, View());
        }
        MembersInReach(cfg, View(), n);
      }
      QI.DueAtEnd(Q(), n);
      NoNotices(notice);
      assert log + [] == log;
    }

    /** A completion from its first callback to its end. */
    method RunCompletion(n: NodeId, edit: Packet -> Packet, now: Time)
      requires Valid() && n in completing && n in nodes
      modifies this
      ensures Valid() && n !in completing
      ensures log == old(log) + Notices(Due(old(Q()), n), NoticeOf(old(completing[n].ending)))
    {
      hide Reachable, Sound, Steps, Due;
      NotifyMembers(n, edit);
      ghost var s := View();
      ghost var dup := FinishCompletion(n, now);
      FinishUpIs(s, n, now, dup, View());
    }

    /** Puts a node at the end of the free list. */
    method Recycle(n: NodeId)
      requires n in nodes
      modifies `nodes, `free
      ensures free == old(free) + [n]
      ensures nodes == old(nodes)[n := old(nodes)[n].(place := Free, children := [], timerOn := false)]
    {
      nodes := nodes[n := nodes[n].(place := Free, children := [], timerOn := false)];
      free := free + [n];
    }

    /** The recycling loops at the end of on_timeout and on_read_complete: the children, then the query. */
    method RecycleFamily(n: NodeId)
      requires n in nodes && n in completing && !completing[n].ending.Destroyed?
      requires forall i :: 0 <= i < |nodes[n].children| ==> nodes[n].children[i] in nodes
      modifies `nodes, `free, `completing
      ensures Q() == Finish(old(Q()), n)
    {
      var children := nodes[n].children;
      ghost var nodes0 := nodes;
      completing := completing - {n};
      for i := 0 to |children|
        invariant nodes == Freed(nodes0, children[..i]) && free == old(free) + children[..i]
        invariant completing == old(completing) - {n}
      {
        assert children[..i + 1] == children[..i] + [children[i]];
        FreedStep(nodes0, children[..i], children[i]);
        Recycle(children[i]);
      }
      assert children[..|children|] == children;
      FreedStep(nodes0, children, n);
      Recycle(n);
      assert free == old(free) + (children + [n]);
    }

    /** Saves a response that is not truncated, unless the resolver is being destroyed. */
    method SaveResponse(key: Key, ending: Ending, now: Time) returns (ghost dup: Packet)
      requires key in table ==> table[key] in entries
      modifies `table, `entries, `nextEntry, `released, `stored
      ensures ending.Answered? ==> IsDup(ending.pkt, dup)
      ensures C() == Saved(old(View()), key, ending, now, dup)
    {
      hide IsDup, Update;
      dup := Packet(0, 0, [], [], [], []);
      if ending.Answered? {
        if !ending.pkt.Truncated() && !shuttingDown {
          dup := UpdateResCache(key, ending.response.Rcode() == 0, true, ending.pkt, now, Network(ending.response));
        } else {
          var copy := Duplicate(ending.pkt);
          dup := copy;
        }
      }
    }

    /** The members of a finished completion are recycled, or left behind by destroy. */
    method ReleaseMembers(n: NodeId)
      requires n in nodes && n in completing
      requires forall i :: 0 <= i < |nodes[n].children| ==> nodes[n].children[i] in nodes
      modifies `nodes, `free, `completing
      ensures Q() == Finish(old(Q()), n)
    {
      hide Finish;
      if completing[n].ending.Destroyed? {
        AbandonIs(Q(), n);
        completing := completing - {n};
        nodes := nodes[n := nodes[n].(place := Abandoned)];
      } else {
        RecycleFamily(n);
      }
    }

    method SaveAndRelease(n: NodeId, now: Time) returns (ghost dup: Packet)
      requires n in nodes && n in completing && (nodes[n].key in table ==> table[nodes[n].key] in entries)
      requires forall i :: 0 <= i < |nodes[n].children| ==> nodes[n].children[i] in nodes
      modifies `nodes, `free, `completing, `table, `entries, `nextEntry, `released, `stored
      ensures Q() == Finish(old(Q()), n)
      ensures C() == Saved(old(View()), old(nodes[n].key), old(completing[n].ending), now, dup)
      ensures old(completing[n].ending.Answered?) ==> IsDup(old(completing[n].ending.pkt), dup)
    {
      hide Finish, Saved, IsDup;
      dup := SaveResponse(nodes[n].key, completing[n].ending, now);
      ReleaseMembers(n);
    }

    /** The last section of on_timeout and on_read_complete, or the end of a query's round in destroy. */
    method FinishCompletion(n: NodeId, now: Time) returns (ghost dup: Packet)
      requires Valid() && QI.CanFinish(Q(), n)
      modifies `nodes, `free, `completing, `table, `entries, `nextEntry, `released, `stored
      ensures Valid() && Steps(old(View()), FinishUp(n, now, dup), View())
    {
      hide Reachable, Steps, FinishQuery, Finish, Saved, IsDup;
      ghost var s := View();
      KeyInReach(cfg, s, nodes[n].key);
      ChildrenInReach(cfg, s, n);
      dup := SaveAndRelease(n, now);
      FinishQueryIs(s, n, now, dup);
      FinishSteps(cfg, s, n, now, dup);
      ReachableSteps(cfg, s, FinishUp(n, now, dup), View());
    }

    /** pj_dns_resolver_set_ns; None stands for an address that cannot be parsed. */
    method SetNameservers(addrs: seq<Option<Addr>>, now: Time) returns (ok: bool)
      requires Valid()
      modifies `ns
      ensures Valid() && Steps(old(View()), Configure(addrs, now), View())
      ensures ok <==> 0 < |addrs| <= MAX_NS && None !in addrs
      ensures !ok && 0 < |addrs| <= MAX_NS ==> ns == []
    {
      hide Reachable, Sound, Steps;
      ghost var s := View();
      ok := false;
      if 0 < |addrs| <= MAX_NS {
        var servers := ParseServers(addrs, now);
        ok := servers.Some?;
        ns := if ok then servers.value else [];
      }
      assert View() == SetNs(s, addrs, now);
      ConfigureSteps(cfg, s, addrs, now);
      ReachableSteps(cfg, s, Configure(addrs, now), View());
    }

    /** The loop of set_ns, which stops at the first address that cannot be parsed. */
    method ParseServers(addrs: seq<Option<Addr>>, now: Time) returns (servers: Option<seq<NameServer>>)
      ensures servers.None? <==> None in addrs
      ensures servers.Some? ==>
                && |servers.value| == |addrs|
                && forall j :: 0 <= j < |addrs| ==>
                     addrs[j].Some? && servers.value[j] == NameServer(addrs[j].value, Active, now, 10_000, 0, 0)
    {
      var list := [];
      for i := 0 to |addrs|
        invariant |list| == i
        invariant forall j :: 0 <= j < i ==> addrs[j].Some? && list[j] == NameServer(addrs[j].value, Active, now, 10_000, 0, 0)
      {
        if addrs[i].None? { return None; }
        list := list + [NameServer(addrs[i].value, Active, now, 10_000, 0, 0)];
      }
      return Some(list);
    }

    /** Moves one pending query to the list of those to be cancelled. */
    method CollectQuery(n: NodeId, notify: bool)
      requires n in nodes
      modifies `nodes, `byId, `byKey, `completing
      ensures Q() == Collect(old(Q()), n, notify)
    {
      var node := nodes[n];
      byId, byKey := byId - {node.id}, byKey - {node.key};
      nodes := nodes[n := node.(place := Completing, timerOn := false)];
      completing := completing[n := Completion(Destroyed(notify), None, 0)];
    }

    /** The first loop of pj_dns_resolver_destroy. */
    method CollectPending(notify: bool) returns (ghost order: seq<NodeId>)
      requires Valid()
      modifies `nodes, `byId, `byKey, `completing
      ensures IsOrder(old(Q()), order) && Q() == CollectAll(old(Q()), order, notify) && byId == map[]
    {
      hide Reachable, Collecting, QI.Valid, Collect, IsOrder, CollectAll;
      ghost var q := Q();
      order := [];
      CollectingStarts(cfg, View(), notify);
      while byId.Keys != {}
        invariant Collecting(cfg, q, Q(), order, notify)
        decreases byId.Keys
      {
        var id :| id in byId.Keys;
        var n := byId[id];
        CollectingSteps(cfg, q, Q(), order, notify, id);
        CollectQuery(n, notify);
        order := order + [n];
      }
      CollectingEnds(cfg, q, Q(), order, notify);
    }

    /** The first section of pj_dns_resolver_destroy: collects every pending query. */
    method BeginDestroy(notify: bool) returns (ghost order: seq<NodeId>)
      requires Valid() && !shuttingDown
      modifies `nodes, `byId, `byKey, `completing, `shuttingDown
      ensures Valid() && Steps(old(View()), Destroy(order, notify), View())
      ensures byId == map[] && shuttingDown
    {
      hide Reachable, Steps, IsOrder, CollectAll;
      ghost var s := View();
      order := CollectPending(notify);
      shuttingDown := true;
      DestroySteps(cfg, s, order, notify);
      ReachableSteps(cfg, s, Destroy(order, notify), View());
    }

    /** The last part of destroy: releases every entry of the cache, without the lock and whatever its count. */
    method SweepCache() returns (ghost gone: seq<EntryId>)
      requires Valid()
      modifies `table, `entries, `released
      ensures C() == Sweep(old(C()), gone) && forall e :: e in gone <==> e in old(table).Values
    {
      hide Reachable, Sweeping, Tabled, Sweep;
      ghost var c := C();
      CacheInReach(cfg, View());
      gone := [];
      SweepStarts(c);
      while table.Keys != {}
        invariant Sweeping(c, C(), gone)
        decreases table.Keys
      {
        var key :| key in table.Keys;
        var e := table[key];
        SweepStep(c, C(), gone, key);
        table, entries := table - {key}, entries - {e};
        released, gone := released + [e], gone + [e];
      }
      SweepEnds(c, C(), gone);
    }
  }

  lemma CacheInReach(cfg: Settings, s: State)
    requires Reachable(cfg, s)
    ensures Tabled(s.c)
  {
    ReachableIsGood(cfg, s);
  }

  /** The part of the table of c that is left to be swept, and what has been swept. */
  ghost predicate Sweeping(c: Cache, d: Cache, gone: seq<EntryId>) {
    && d == Cache(d.table, d.entries, c.readers, c.nextEntry, c.nextReader, c.released + gone, c.stored)
    && d.table.Keys <= c.table.Keys && (forall k :: k in d.table ==> d.table[k] == c.table[k])
    && (forall e :: e in d.entries <==> e in c.entries && e !in gone)
    && (forall e :: e in d.entries ==> d.entries[e] == c.entries[e])
    && (forall k :: k in c.table ==> (k in d.table <==> c.table[k] !in gone))
    && (forall e :: e in gone ==> e in c.table.Values)
  }

  /** No two keys share an entry, and all entries are live. */
  ghost predicate Tabled(c: Cache) {
    && (forall k :: k in c.table ==> c.table[k] in c.entries)
    && (forall k, l :: k in c.table && l in c.table && c.table[k] == c.table[l] ==> k == l)
  }

  lemma SweepStep(c: Cache, d: Cache, gone: seq<EntryId>, key: Key)
    requires Tabled(c) && Sweeping(c, d, gone) && key in d.table
    ensures d.table[key] in d.entries
    ensures var e := d.table[key];
            Sweeping(c, d.(table := d.table - {key}, entries := d.entries - {e}, released := d.released + [e]), gone + [e])
  {
    assert c.released + gone + [d.table[key]] == c.released + (gone + [d.table[key]]);
  }

  lemma SweepStarts(c: Cache)
    ensures Sweeping(c, c, [])
  {
    assert c.released + [] == c.released;
  }

  lemma SweepEnds(c: Cache, d: Cache, gone: seq<EntryId>)
    requires Sweeping(c, d, gone) && d.table.Keys == {}
    ensures d == Sweep(c, gone) && forall e :: e in gone <==> e in c.table.Values
  {
    assert d.table == map[];
    forall e | e in c.table.Values ensures e in gone {
      var k :| k in c.table && c.table[k] == e;
      assert k !in d.table.Keys;
    }
    assert forall e :: e in d.entries <==> e in c.entries && e !in c.table.Values;
    assert d.entries == c.entries - c.table.Values;
  }

  lemma KeyInReach(cfg: Settings, s: State, key: Key)
    requires Reachable(cfg, s)
    ensures |s.ns| <= MAX_NS
    ensures key in s.q.byKey ==> s.q.byKey[key] in s.q.nodes
    ensures key in s.c.table ==> s.c.table[key] in s.c.entries
  {
    ReachableIsGood(cfg, s);
    KeyIsSound(s, key);
  }

  lemma ReaderInReach(cfg: Settings, s: State, r: ReaderId)
    requires Reachable(cfg, s) && r in s.c.readers
    ensures s.c.readers[r].entry in s.c.entries && Steps(s, ReaderReturns(r), s.(c := Done(s.c, r)))
  {
    hide Reachable, Good;
    ReachableIsGood(cfg, s);
    GoodIsSound(s);
  }

  lemma InjectSteps(cfg: Settings, s: State, now: Time, pkt: Packet, timed: bool, dup: Packet)
    requires Reachable(cfg, s) && IsDup(pkt, dup)
    requires EntryKey(pkt).Some? && EntryKey(pkt).value in s.c.table ==> s.c.table[EntryKey(pkt).value] in s.c.entries
    ensures Steps(s, Inject(now, pkt, timed, dup), AddEntry(s, now, pkt, timed, dup))
  {
    hide Reachable, Good;
    ReachableIsGood(cfg, s);
    GoodIsSound(s);
  }

  lemma AddEntryIs(s: State, now: Time, pkt: Packet, timed: bool, dup: Packet)
    requires EntryKey(pkt).Some? && EntryKey(pkt).value in s.c.table ==> s.c.table[EntryKey(pkt).value] in s.c.entries
    ensures AddEntry(s, now, pkt, timed, dup) ==
            if EntryKey(pkt).None? then s
            else s.(c := Update(s.cfg, s.c, EntryKey(pkt).value, true, timed, pkt, dup, now, Injected))
  {
  }

  lemma StartSteps(cfg: Settings, s: State, now: Time, qtype: nat, name: Name, hasCb: bool, id: nat, sel: Selection, env: TxEnv)
    requires Reachable(cfg, s) && (id == 0 || (id < 0x1_0000 && id !in s.q.byId && SelectionOk(s, now, sel)))
    requires var key := InitKey(qtype, name);
             && (key in s.q.byKey ==> s.q.byKey[key] in s.q.nodes)
             && (key in s.c.table ==> s.c.table[key] in s.c.entries)
    ensures Steps(s, Start(now, qtype, name, hasCb, id, sel, env), StartQuery(s, now, qtype, name, hasCb, id, sel, env))
  {
    hide Reachable, Good;
    ReachableIsGood(cfg, s);
    GoodIsSound(s);
  }

  lemma CancelSteps(cfg: Settings, s: State, n: NodeId, notify: bool, dispatched: bool)
    requires Reachable(cfg, s) && n in s.q.nodes
    ensures Steps(s, CancelQuery(n, notify, dispatched), s.(q := Cancel(s.q, n, notify, dispatched)))
  {
    hide Reachable, Good;
    ReachableIsGood(cfg, s);
    GoodIsSound(s);
  }

  lemma RetransmitIs(q: Queries, n: NodeId)
    requires n in q.nodes
    ensures Retransmit(q, n) == q.(nodes := q.nodes[n := q.nodes[n].(transmitCnt := q.nodes[n].transmitCnt + 1)])
  {
  }

  lemma OnTimeoutIs(s: State, now: Time, n: NodeId, sel: Selection, env: TxEnv)
    requires n in s.q.nodes
    ensures var live, retry := s.q.nodes[n].id in s.q.byId, s.q.nodes[n].transmitCnt < s.cfg.qretrCount;
            OnTimeout(s, now, n, sel, env) ==
            State(s.cfg, if live && retry then NsAfterTransmit(s, now, s.q.nodes[n].id, sel, env) else s.ns,
                  if !live then s.q
                  else if retry && TransmitOk(s, sel, env) then Retransmit(s.q, n) else Complete(s.q, n, TimedOut),
                  s.c, s.shuttingDown)
  {
    hide TransmitOk, NsAfterTransmit, Complete, Retransmit;
  }

  lemma ExpireSteps(cfg: Settings, s: State, n: NodeId, now: Time, sel: Selection, env: TxEnv)
    requires Reachable(cfg, s) && n in s.q.nodes
    requires s.q.nodes[n].id in s.q.byId ==> s.q.byId[s.q.nodes[n].id] == n && s.q.nodes[n].timerOn
    requires s.q.nodes[n].id in s.q.byId && s.q.nodes[n].transmitCnt < s.cfg.qretrCount ==> SelectionOk(s, now, sel)
    ensures Steps(s, Expire(n, now, sel, env), OnTimeout(s, now, n, sel, env))
  {
    hide Reachable, Good;
    ReachableIsGood(cfg, s);
    GoodIsSound(s);
  }

  lemma ReceiveSteps(cfg: Settings, s: State, now: Time, src: Addr, parsed: Option<Packet>)
    requires Reachable(cfg, s)
    ensures parsed.Some? && parsed.value.id in s.q.byId ==> s.q.byId[parsed.value.id] in s.q.nodes
    ensures Steps(s, Receive(now, src, parsed), OnResponse(s, now, src, parsed))
  {
    hide Reachable, Good;
    ReachableIsGood(cfg, s);
    GoodIsSound(s);
  }

  lemma FromServerIs(ns: seq<NameServer>, addr: Addr)
    ensures FromServer(ns, addr) <==> exists i :: 0 <= i < |ns| && ns[i].addr == addr
  {
  }

  lemma TakeNextSteps(cfg: Settings, s: State, n: NodeId)
    requires Reachable(cfg, s) && QI.CanTakeNext(s.q, n)
    ensures Steps(s, NotifyNext(n), s.(q := TakeNext(s.q, n)))
  {
    hide Reachable, Good;
    ReachableIsGood(cfg, s);
    GoodIsSound(s);
  }

  lemma CallSteps(cfg: Settings, s: State, n: NodeId, pkt: Packet)
    requires Reachable(cfg, s) && n in s.q.completing && s.q.completing[n].inFlight.Some?
    ensures s.q.completing[n].inFlight.value < |s.q.fates|
    ensures Steps(s, CallBack(n, pkt), s.(q := Call(s.q, n, pkt)))
  {
    hide Reachable, Good;
    ReachableIsGood(cfg, s);
    GoodIsSound(s);
  }

  lemma CancelCallSteps(cfg: Settings, s: State, t: Ticket)
    requires Reachable(cfg, s) && t in s.q.cancelling
    ensures t < |s.q.fates| && Steps(s, CallCancelled(t), s.(q := CancelCall(s.q, t)))
  {
    hide Reachable, Good;
    ReachableIsGood(cfg, s);
    GoodIsSound(s);
  }

  /** The members of the completion of n are nodes, and the next one to notify is among them. */
  ghost predicate MembersIn(q: Queries, n: NodeId)
    requires n in q.nodes && n in q.completing
  {
    && q.completing[n].next <= |q.nodes[n].children| + 1
    && forall i :: 0 <= i <= |q.nodes[n].children| ==> Member(q, n, i) in q.nodes
  }

  lemma MembersInReach(cfg: Settings, s: State, n: NodeId)
    requires Reachable(cfg, s) && n in s.q.completing && n in s.q.nodes
    ensures MembersIn(s.q, n)
  {
    ReachableIsGood(cfg, s);
    hide Reachable, QI.Tables, QI.Tickets, QI.Notified, QI.Retrying;
  }

  lemma CallBackIs(s: State, n: NodeId, pkt: Packet, s2: State)
    requires n in s.q.completing && s.q.completing[n].inFlight.Some? && Steps(s, CallBack(n, pkt), s2)
    ensures s.q.completing[n].inFlight.value < |s.q.fates| && s2.q == Call(s.q, n, pkt)
  {
  }

  lemma NotifyNextIs(s: State, n: NodeId, s2: State)
    requires QI.CanTakeNext(s.q, n) && Steps(s, NotifyNext(n), s2)
    ensures s2.q == TakeNext(s.q, n)
  {
  }

  lemma FinishUpIs(s: State, n: NodeId, now: Time, dup: Packet, s2: State)
    requires n in s.q.completing && Steps(s, FinishUp(n, now, dup), s2)
    ensures n !in s2.q.completing && s2.q.log == s.q.log
  {
    hide Update;
  }

  /** What a call does to the callbacks that are due, and to the log. */
  lemma CalledIsDue(cfg: Settings, s: State, n: NodeId, pkt: Packet)
    requires Reachable(cfg, s) && n in s.q.nodes && n in s.q.completing && s.q.completing[n].inFlight.Some?
    ensures s.q.completing[n].inFlight.value < |s.q.fates|
    ensures var r, notice := Call(s.q, n, pkt), NoticeOf(s.q.completing[n].ending);
            && n in r.nodes && n in r.completing && NoticeOf(r.completing[n].ending) == notice
            && r.log + Notices(Due(r, n), notice) == s.q.log + Notices(Due(s.q, n), notice)
  {
    hide Reachable, Due, Steps, Notices;
    CallSteps(cfg, s, n, pkt);
    QI.DueAfterCall(s.q, n, pkt);
    OneMoreNotice(s.q.log, s.q.completing[n].inFlight.value, Due(Call(s.q, n, pkt), n), NoticeOf(s.q.completing[n].ending));
  }

  lemma OneMoreNotice(log: seq<(Ticket, Notice)>, t: Ticket, due: seq<Ticket>, notice: Notice)
    ensures log + [(t, notice)] + Notices(due, notice) == log + Notices([t] + due, notice)
  {
    assert Notices([t] + due, notice) == [(t, notice)] + Notices(due, notice);
  }

  lemma TakenIsDue(cfg: Settings, s: State, n: NodeId)
    requires Reachable(cfg, s) && QI.CanTakeNext(s.q, n)
    ensures var r := TakeNext(s.q, n);
            && n in r.nodes && n in r.completing && r.completing[n].ending == s.q.completing[n].ending
            && r.log == s.q.log && Due(r, n) == Due(s.q, n)
  {
    ReachableIsGood(cfg, s);
    hide Reachable, Due, QI.Families, QI.Lists, QI.Tables, QI.Tickets, QI.Notified, QI.Retrying;
    QI.DueAfterTake(s.q, n);
  }

  lemma NoNotices(notice: Notice)
    ensures Notices([], notice) == []
  {
  }

  lemma FreedStep(nodes: map<NodeId, Node>, ns: seq<NodeId>, n: NodeId)
    requires n in nodes
    ensures var f := Freed(nodes, ns);
            n in f && Freed(nodes, ns + [n]) == f[n := f[n].(place := Free, children := [], timerOn := false)]
  {
    assert forall m :: m in ns + [n] <==> m in ns || m == n;
  }

  lemma ChildrenInReach(cfg: Settings, s: State, n: NodeId)
    requires Reachable(cfg, s) && n in s.q.nodes
    ensures forall i :: 0 <= i < |s.q.nodes[n].children| ==> s.q.nodes[n].children[i] in s.q.nodes
  {
    ReachableIsGood(cfg, s);
  }

  lemma AbandonIs(q: Queries, n: NodeId)
    requires n in q.nodes && n in q.completing && q.completing[n].ending.Destroyed?
    ensures Finish(q, n) == q.(completing := q.completing - {n}, nodes := q.nodes[n := q.nodes[n].(place := Abandoned)])
  {
  }

  lemma FinishQueryIs(s: State, n: NodeId, now: Time, dup: Packet)
    requires n in s.q.nodes && n in s.q.completing
    requires s.q.nodes[n].key in s.c.table ==> s.c.table[s.q.nodes[n].key] in s.c.entries
    ensures FinishQuery(s, n, now, dup) ==
            State(s.cfg, s.ns, Finish(s.q, n), Saved(s, s.q.nodes[n].key, s.q.completing[n].ending, now, dup), s.shuttingDown)
  {
  }

  lemma FinishSteps(cfg: Settings, s: State, n: NodeId, now: Time, dup: Packet)
    requires Reachable(cfg, s) && QI.CanFinish(s.q, n)
    requires s.q.completing[n].ending.Answered? ==> IsDup(s.q.completing[n].ending.pkt, dup)
    requires s.q.nodes[n].key in s.c.table ==> s.c.table[s.q.nodes[n].key] in s.c.entries
    ensures Steps(s, FinishUp(n, now, dup), FinishQuery(s, n, now, dup))
  {
    hide Reachable, Good;
    ReachableIsGood(cfg, s);
    GoodIsSound(s);
  }

  lemma ConfigureSteps(cfg: Settings, s: State, addrs: seq<Option<Addr>>, now: Time)
    requires Reachable(cfg, s)
    ensures Steps(s, Configure(addrs, now), SetNs(s, addrs, now))
  {
    hide Reachable, Good;
    ReachableIsGood(cfg, s);
    GoodIsSound(s);
  }

  lemma RemovedKey(c: Cache, key: Key)
    requires key in c.table ==> c.table[key] in c.entries
    ensures key !in Remove(c, key).table
  {
  }

  lemma ServersInRange(cfg: Settings, ns: seq<NameServer>, now: Time, best: int, ns': seq<NameServer>, servers: seq<nat>)
    requires Selected(cfg, ns, now, best, ns', servers)
    ensures forall i :: 0 <= i < |servers| ==> servers[i] < |ns'|
  {
  }

  lemma SelectionFrame(s: State, s1: State, now: Time)
    requires s1.ns == s.ns && s1.cfg == s.cfg
    ensures forall sel :: SelectionOk(s1, now, sel) <==> SelectionOk(s, now, sel)
  {
  }

  lemma AllocIgnoresFates(q: Queries, q1: Queries, node: Node)
    requires q1 == q.(fates := q1.fates)
    ensures Alloc(q1, node) == Alloc(q, node).(fates := q1.fates) && AllocId(q1) == AllocId(q)
  {
  }

  /** q is q0 after the queries in order have been collected. */
  ghost predicate Collecting(cfg: Settings, q0: Queries, q: Queries, order: seq<NodeId>, notify: bool) {
    && QI.Valid(cfg, q)
    && (forall i :: 0 <= i < |order| ==> order[i] in q0.nodes && q0.nodes[order[i]].place == Pending)
    && (forall i, j :: 0 <= i < j < |order| ==> order[i] != order[j])
    && q == CollectAll(q0, order, notify)
    && (forall n :: n in q0.nodes && q0.nodes[n].place == Pending ==> n in order || (n in q.nodes && q.nodes[n].place == Pending))
    && (forall n :: n in q.nodes && q.nodes[n].place == Pending ==>
          n !in order && n in q0.nodes && q0.nodes[n].place == Pending)
  }

  lemma CollectingStarts(cfg: Settings, s: State, notify: bool)
    requires Reachable(cfg, s) && s.cfg == cfg
    ensures Collecting(cfg, s.q, s.q, [], notify)
  {
    ReachableIsGood(cfg, s);
    hide Good, Reachable;
    GoodIsValid(s);
  }

  lemma {:induction false} CollectAllAppend(q: Queries, order: seq<NodeId>, n: NodeId, notify: bool)
    requires n in q.nodes && forall i :: 0 <= i < |order| ==> order[i] in q.nodes
    ensures n in CollectAll(q, order, notify).nodes
    ensures CollectAll(q, order + [n], notify) == Collect(CollectAll(q, order, notify), n, notify)
    decreases |order|
  {
    if order == [] {
      assert [] + [n] == [n] && [n][1..] == [];
    } else {
      assert (order + [n])[1..] == order[1..] + [n];
      CollectAllAppend(Collect(q, order[0], notify), order[1..], n, notify);
    }
  }

  lemma CollectingSteps(cfg: Settings, q0: Queries, q: Queries, order: seq<NodeId>, notify: bool, id: nat)
    requires Collecting(cfg, q0, q, order, notify) && id in q.byId
    ensures q.byId[id] in q.nodes
    ensures var n, r := q.byId[id], Collect(q, q.byId[id], notify);
            Collecting(cfg, q0, r, order + [n], notify) && r.byId.Keys < q.byId.Keys
  {
    hide QI.Valid, CollectAll;
    ByIdIsPending(cfg, q, id);
    var n := q.byId[id];
    QI.CollectKeepsValid(cfg, q, n, notify);
    CollectAllAppend(q0, order, n, notify);
    assert n !in order;
    assert forall m :: m in order + [n] <==> m in order || m == n;
    CollectShrinks(q, n, id, notify);
  }

  lemma CollectShrinks(q: Queries, n: NodeId, id: nat, notify: bool)
    requires n in q.nodes && q.nodes[n].id == id && id in q.byId
    ensures Collect(q, n, notify).byId.Keys < q.byId.Keys
  {
    assert id !in Collect(q, n, notify).byId;
  }

  lemma CollectingEnds(cfg: Settings, q0: Queries, q: Queries, order: seq<NodeId>, notify: bool)
    requires Collecting(cfg, q0, q, order, notify) && q.byId.Keys == {}
    ensures IsOrder(q0, order) && q == CollectAll(q0, order, notify) && q.byId == map[]
  {
    hide QI.Valid, CollectAll;
    NoIdsNoPending(cfg, q);
    assert q.byId == map[];
  }

  lemma NoIdsNoPending(cfg: Settings, q: Queries)
    requires QI.Valid(cfg, q) && q.byId.Keys == {}
    ensures forall n :: n in q.nodes ==> q.nodes[n].place != Pending
  {
    hide QI.Families, QI.Lists, QI.Tickets, QI.Notified, QI.Retrying;
    assert forall i :: i !in q.byId;
  }

  lemma DestroySteps(cfg: Settings, s: State, order: seq<NodeId>, notify: bool)
    requires Reachable(cfg, s) && !s.shuttingDown && IsOrder(s.q, order)
    ensures Steps(s, Destroy(order, notify), s.(shuttingDown := true, q := CollectAll(s.q, order, notify)))
  {
    hide Reachable, Good, CollectAll;
    ReachableIsGood(cfg, s);
    GoodIsSound(s);
  }
}
