/** What holds of the resolver in every run. */
module ResolverTheorems {
  import opened Bytes
  import opened Dns
  import opened NameServers
  import opened ResponseCache
  import opened Queries
  import opened ResolverRuns
  import opened ResolverReplies
  import QI = QueryInvariant
  import RC = ResponseCache

  /**
   * Conservation of callbacks, in every reachable state: an accepted request
   * is held by exactly one node that will still be notified, or is about to be
   * called exactly once, or has been called exactly once, or was dropped.
   */
  lemma CallbacksConserved(cfg: Settings, s: State, t: Ticket)
    requires Reachable(cfg, s) && t < |s.q.fates|
    ensures |QI.Holders(s.q, t)| + |QI.InFlightIn(s.q, t)| + (if t in s.q.cancelling then 1 else 0)
            + |QI.CallsMade(s.q, t)| + (if s.q.fates[t] == Dropped then 1 else 0) == 1
    ensures forall n :: n in QI.Holders(s.q, t) ==> QI.WillBeNotified(s.q, n) && n !in s.q.free
  {
    ReachableIsGood(cfg, s);
    QI.CallbacksConserved(s.q, t);
    forall n | n in QI.Holders(s.q, t) ensures QI.WillBeNotified(s.q, n) && n !in s.q.free {
      QI.HeldIsReachable(s.q, n);
    }
  }

  /** Index agreement and ownership, in every reachable state. */
  lemma TablesAndOwnership(cfg: Settings, s: State)
    requires Reachable(cfg, s)
    ensures s.q.byId.Values == s.q.byKey.Values && 0 !in s.q.byId
    ensures forall i, j :: i in s.q.byId && j in s.q.byId && s.q.byId[i] == s.q.byId[j] ==> i == j
    ensures forall k, l :: k in s.q.byKey && l in s.q.byKey && s.q.byKey[k] == s.q.byKey[l] ==> k == l
    ensures forall n :: n in s.q.nodes ==>
              (if n in s.q.byId.Values then 1 else 0) + |QI.ChildSlots(s.q, n)| + (if n in s.q.completing then 1 else 0)
              + |QI.FreeSlots(s.q, n)| + (if s.q.nodes[n].place == Abandoned then 1 else 0) == 1
  {
    ReachableIsGood(cfg, s);
    hide Reachable, QI.Tables, QI.Families, QI.Lists, QI.Tickets, QI.Notified, QI.Retrying, RC.Valid, Matched, Provenance;
    QI.TablesAgree(s.q);
    forall n | n in s.q.nodes
      ensures (if n in s.q.byId.Values then 1 else 0) + |QI.ChildSlots(s.q, n)| + (if n in s.q.completing then 1 else 0)
              + |QI.FreeSlots(s.q, n)| + (if s.q.nodes[n].place == Abandoned then 1 else 0) == 1
    {
      QI.OnePlace(s.q, n);
    }
  }

  /**
   * Reference counts, in every reachable state: one for the table plus one per
   * running callback, so no pool is released or reset under a callback, and
   * every pool is released at most once.
   */
  lemma ReferenceCounts(cfg: Settings, s: State)
    requires Reachable(cfg, s)
    ensures forall e :: e in s.c.entries ==>
              s.c.entries[e].refCnt == |ReadersOf(s.c, e)| + (if InTable(s.c, e) then 1 else 0)
    ensures forall r :: r in s.c.readers ==>
              && s.c.readers[r].entry in s.c.entries && s.c.readers[r].entry !in s.c.released
              && s.c.entries[s.c.readers[r].entry].pkt == s.c.readers[r].pkt
    ensures forall i, j :: 0 <= i < j < |s.c.released| ==> s.c.released[i] != s.c.released[j]
    ensures forall e: nat :: e < s.c.nextEntry ==> (e in s.c.released <==> e !in s.c.entries)
  {
    ReachableIsGood(cfg, s);
    hide Reachable, QI.Valid, Matched, Provenance, RC.Faithful;
    forall r | r in s.c.readers
      ensures s.c.readers[r].entry in s.c.entries && s.c.readers[r].entry !in s.c.released
           && s.c.entries[s.c.readers[r].entry].pkt == s.c.readers[r].pkt
    {
      RC.ReaderIsSafe(s.cfg, s.c, r);
    }
  }

  // ---------------------------------------------------------------------
  // Where cached responses come from
  // ---------------------------------------------------------------------

  /** A response from a configured server, or from anywhere if that is not checked, that matches an outstanding query. */
  predicate Validated(s: State, e: Event) {
    && e.Receive? && (s.cfg.disableSrcCheck || FromServer(s.ns, e.src))
    && e.parsed.Some? && e.parsed.value.IsResponse() && e.parsed.value.id in s.q.byId
    && s.q.byId[e.parsed.value.id] in s.q.nodes
    && Answers(e.parsed.value, s.q.nodes[s.q.byId[e.parsed.value.id]].key)
  }

  /** The query that a validated response is for. */
  predicate IsAnsweredBy(s: State, e: Event, n: NodeId) {
    Validated(s, e) && s.q.byId[e.parsed.value.id] == n
  }

  /**
   * The receipt of a response that is accepted as an answer about name,
   * section 9.1 of RFC 5452: from a configured server (if that is checked),
   * with the transaction id of a query for the name that is pending, and with
   * its question, which may be missing from an error response only.
   */
  ghost predicate IsReceipt(s: State, e: Event, qtype: nat, name: Name, response: Packet) {
    && e.Receive? && e.parsed == Some(response)
    && (s.cfg.disableSrcCheck || exists i :: 0 <= i < |s.ns| && s.ns[i].addr == e.src)
    && response.flags / 0x8000 % 2 == 1 && IsAnswerTo(response, qtype, name)
    && exists n :: n in s.q.nodes && s.q.nodes[n].place == Pending && s.q.nodes[n].id == response.id
                   && s.q.nodes[n].key == InitKey(qtype, name)
  }

  /** A validated response to the pending query for key. */
  predicate Accepts(s: State, e: Event, key: Key, response: Packet) {
    && Validated(s, e) && e.parsed.value == response
    && var node := s.q.nodes[s.q.byId[response.id]];
       node.place == Pending && node.id == response.id && node.key == key
  }

  /** A response to a query for key is being delivered. */
  ghost predicate InDelivery(q: Queries, n: NodeId, key: Key, response: Packet) {
    && n in q.completing && n in q.nodes && q.nodes[n].key == key
    && q.completing[n].ending.Answered? && q.completing[n].ending.response == response
  }

  lemma SameIsInDelivery(q: Queries, r: Queries, n: NodeId, key: Key, response: Packet)
    requires SameResponses(q, r) && InDelivery(r, n, key, response)
    ensures InDelivery(q, n, key, response)
  {
  }

  lemma {:induction false} CollectAllSameResponses(q: Queries, order: seq<NodeId>, notify: bool)
    requires forall i :: 0 <= i < |order| ==> order[i] in q.nodes
    ensures SameResponses(q, CollectAll(q, order, notify))
    decreases |order|
  {
    if order != [] {
      var r := Collect(q, order[0], notify);
      assert SameResponses(q, r);
      CollectAllSameResponses(r, order[1..], notify);
    }
  }

  lemma EnqueueSameResponses(s: State, now: Time, key: Key, hasCb: bool, id: nat, sel: Selection, env: TxEnv)
    requires QI.Valid(s.cfg, s.q) && (key in s.q.byKey ==> s.q.byKey[key] in s.q.nodes)
    ensures SameResponses(s.q, Enqueue(s, now, key, hasCb, id, sel, env).q)
  {
    hide QI.Valid, SameResponses, NsAfterTransmit, TransmitOk, Join, Begin, Refuse;
    AllocNotCompleting(s.cfg, s.q);
    if key in s.q.byKey {
      JoinSameResponses(s.q, key, hasCb);
    } else {
      RefuseSameResponses(s.q, hasCb);
      BeginSameResponses(s.q, key, id, hasCb);
    }
  }

  /** What a step does to the responses in delivery. */
  lemma StepSameResponses(s: State, e: Event)
    requires Good(s) && Sound(s) && Enabled(s, e) && !e.Receive?
    ensures SameResponses(s.q, Apply(s, e).q)
  {
    hide RC.Valid, Matched, Provenance, QI.Valid, SameResponses, Answers, SelectionOk, InitKey, Update, CollectAll, TransmitOk,
      NsAfterTransmit, Enqueue, Cancel, TakeNext, Call, CancelCall, Complete, Retransmit, Finish, Remove, Hit, IsOrder, IsDup;
    NothingChanges(s.q);
    match e
    case Start(now, qtype, name, hasCb, id, sel, env) =>
      var key := InitKey(qtype, name);
      KeyIsSound(s, key);
      EnqueueSameResponses(s.(c := Remove(s.c, key)), now, key, hasCb, id, sel, env);
    case CancelQuery(n, notify, dispatched) => CancelSameResponses(s.q, n, notify, dispatched);
    case CallCancelled(t) => CancelCallSameResponses(s.q, t);
    case Expire(n, now, sel, env) =>
      TimeoutSameResponses(s.q, n);
      RetransmitSameResponses(s.q, n);
    case NotifyNext(n) => TakeNextSameResponses(s.q, n);
    case CallBack(n, pkt) => CallSameResponses(s.q, n, pkt);
    case FinishUp(n, now, dup) => FinishSameResponses(s.q, n);
    case Destroy(order, notify) => DestroySameResponses(s.q, order, notify);
    case _ =>
  }

  lemma NothingChanges(q: Queries)
    ensures SameResponses(q, q)
  {
  }

  lemma TimeoutSameResponses(q: Queries, n: NodeId)
    requires n in q.nodes
    ensures SameResponses(q, Complete(q, n, TimedOut))
  {
  }

  lemma DestroySameResponses(q: Queries, order: seq<NodeId>, notify: bool)
    requires IsOrder(q, order)
    ensures SameResponses(q, CollectAll(q, order, notify))
  {
    CollectAllSameResponses(q, order, notify);
  }

  /** A response gets into delivery only by its receipt. */
  lemma DeliveryStep(s: State, e: Event, n: NodeId, key: Key, response: Packet)
    requires Good(s) && Sound(s) && Enabled(s, e) && InDelivery(Apply(s, e).q, n, key, response)
    ensures InDelivery(s.q, n, key, response) || Accepts(s, e, key, response)
  {
    hide Good, Sound, Enabled;
    if e.Receive? {
      GoodIsValid(s);
      ReceiptDelivers(s, e, n, key, response);
    } else {
      StepSameResponses(s, e);
      SameIsInDelivery(s.q, Apply(s, e).q, n, key, response);
    }
  }

  lemma ReceiptDelivers(s: State, e: Event, n: NodeId, key: Key, response: Packet)
    requires QI.Valid(s.cfg, s.q) && Sound(s) && Enabled(s, e) && e.Receive? && InDelivery(Apply(s, e).q, n, key, response)
    ensures InDelivery(s.q, n, key, response) || Accepts(s, e, key, response)
  {
    hide QI.Valid, Answers, AfterReport;
    if e.parsed.Some? && e.parsed.value.id in s.q.byId { ByIdIsPending(s.cfg, s.q, e.parsed.value.id); }
  }

  /** A response is stored only at the end of its delivery. */
  lemma StoredStep(s: State, e: Event, key: Key, response: Packet)
    requires Good(s) && Sound(s) && Enabled(s, e)
    requires key in Apply(s, e).c.stored && Apply(s, e).c.stored[key].origin == Network(response)
    ensures (key in s.c.stored && s.c.stored[key].origin == Network(response)) || exists n :: InDelivery(s.q, n, key, response)
  {
    hide Good, RC.Valid, QI.Valid, Answers, SelectionOk, InitKey, Update, CollectAll, Enqueue, Remove, Hit, Done, IsOrder, IsDup,
      EntryKey, Finish;
    match e
    case Start(now, qtype, name, hasCb, id, sel, env) =>
      RemoveKeepsStored(s.c, InitKey(qtype, name));
      if Fresh(s.c, InitKey(qtype, name), now) { HitKeepsStored(s.c, InitKey(qtype, name)); }
      EnqueueKeepsCache(s.(c := Remove(s.c, InitKey(qtype, name))), now, InitKey(qtype, name), hasCb, id, sel, env);
    case FinishUp(n, now, dup) =>
      var ending := s.q.completing[n].ending;
      if ending.Answered? {
        UpdateStores(s.cfg, s.c, s.q.nodes[n].key, ending.response.Rcode() == 0, true, ending.pkt, dup, now, Network(ending.response));
        if key == s.q.nodes[n].key && response == ending.response { assert InDelivery(s.q, n, key, response); }
      }
    case Inject(now, pkt, timed, dup) =>
      if EntryKey(pkt).Some? { UpdateStores(s.cfg, s.c, EntryKey(pkt).value, true, timed, pkt, dup, now, Injected); }
    case ReaderReturns(r) => DoneKeepsStored(s.c, r);
    case _ =>
  }

  lemma EnqueueKeepsCache(s: State, now: Time, key: Key, hasCb: bool, id: nat, sel: Selection, env: TxEnv)
    requires key in s.q.byKey ==> s.q.byKey[key] in s.q.nodes
    ensures Enqueue(s, now, key, hasCb, id, sel, env).c == s.c
  {
  }

  /** Some step of the run accepts the response for key. */
  ghost predicate WasAccepted(s: State, evs: seq<Event>, key: Key, response: Packet)
    decreases |evs|
  {
    && evs != [] && Sound(s) && Enabled(s, evs[0])
    && (Accepts(s, evs[0], key, response) || WasAccepted(Apply(s, evs[0]), evs[1..], key, response))
  }

  lemma {:induction false} NetworkHistory(s: State, evs: seq<Event>, s2: State, key: Key, response: Packet)
    requires Good(s) && Runs(s, evs, s2) && key in s2.c.stored && s2.c.stored[key].origin == Network(response)
    ensures || (key in s.c.stored && s.c.stored[key].origin == Network(response))
            || (exists n :: InDelivery(s.q, n, key, response))
            || WasAccepted(s, evs, key, response)
    decreases |evs|
  {
    hide Good, Sound, Enabled, Apply, InDelivery, Accepts;
    if evs != [] {
      var e, s1 := evs[0], Apply(s, evs[0]);
      StepKeepsGood(s, e);
      NetworkHistory(s1, evs[1..], s2, key, response);
      if key in s1.c.stored && s1.c.stored[key].origin == Network(response) {
        StoredStep(s, e, key, response);
      } else if exists n :: InDelivery(s1.q, n, key, response) {
        var n :| InDelivery(s1.q, n, key, response);
        DeliveryStep(s, e, n, key, response);
      }
    }
  }

  // The query that was pending at the receipt was started in the run.

  ghost predicate WasStarted(evs: seq<Event>, key: Key) {
    exists i :: 0 <= i < |evs| && IsStartOf(evs[i], key)
  }

  predicate IsStartOf(e: Event, key: Key) {
    e.Start? && 0 < |e.name| < 254 && 0 < e.qtype < 0xFFFF && key == InitKey(e.qtype, e.name)
  }

  lemma EnqueueKeys(s: State, now: Time, key: Key, hasCb: bool, id: nat, sel: Selection, env: TxEnv)
    requires key in s.q.byKey ==> s.q.byKey[key] in s.q.nodes
    ensures Enqueue(s, now, key, hasCb, id, sel, env).q.byKey.Keys <= s.q.byKey.Keys + {key}
  {
    hide TransmitOk, NsAfterTransmit, Join, Begin, Refuse;
    NewKey(s.q, key, id, hasCb);
    if key in s.q.byKey { JoinKeepsKeys(s.q, key, hasCb); }
  }

  lemma JoinKeepsKeys(q: Queries, key: Key, hasCb: bool)
    requires key in q.byKey && q.byKey[key] in q.nodes
    ensures Join(q, key, hasCb).byKey == q.byKey
  {
  }

  lemma NewKey(q: Queries, key: Key, id: nat, hasCb: bool)
    ensures Begin(q, key, id, hasCb).byKey.Keys == q.byKey.Keys + {key} && Refuse(q, hasCb).byKey == q.byKey
  {
  }

  lemma CompleteKeys(q: Queries, n: NodeId, ending: Ending)
    requires n in q.nodes
    ensures Complete(q, n, ending).byKey.Keys <= q.byKey.Keys
  {
  }

  lemma {:induction false} CollectAllKeys(q: Queries, order: seq<NodeId>, notify: bool)
    requires forall i :: 0 <= i < |order| ==> order[i] in q.nodes
    ensures CollectAll(q, order, notify).byKey.Keys <= q.byKey.Keys
    decreases |order|
  {
    if order != [] { CollectAllKeys(Collect(q, order[0], notify), order[1..], notify); }
  }

  lemma DestroyKeys(q: Queries, order: seq<NodeId>, notify: bool)
    requires IsOrder(q, order)
    ensures CollectAll(q, order, notify).byKey.Keys <= q.byKey.Keys
  {
    CollectAllKeys(q, order, notify);
  }

  /** A key becomes pending only by a request for it. */
  lemma KeyStep(s: State, e: Event, key: Key)
    requires Sound(s) && Enabled(s, e) && key in Apply(s, e).q.byKey
    ensures key in s.q.byKey || IsStartOf(e, key)
  {
    hide SelectionOk, InitKey, Update, AfterReport, Answers, CollectAll, Enqueue, Complete, Remove, Hit, IsOrder, IsDup, EntryKey;
    assert key in Apply(s, e).q.byKey.Keys;
    match e
    case Start(now, qtype, name, hasCb, id, sel, env) =>
      EnqueueKeys(s.(c := Remove(s.c, InitKey(qtype, name))), now, InitKey(qtype, name), hasCb, id, sel, env);
    case Expire(n, now, sel, env) => CompleteKeys(s.q, n, TimedOut);
    case Receive(now, src, parsed) =>
      if parsed.Some? && parsed.value.id in s.q.byId {
        CompleteKeys(s.q, s.q.byId[parsed.value.id], Answered(parsed.value, parsed.value));
      }
    case Destroy(order, notify) => DestroyKeys(s.q, order, notify);
    case _ =>
  }

  lemma AcceptedIsPending(s: State, e: Event, key: Key, response: Packet)
    requires Good(s) && Accepts(s, e, key, response)
    ensures key in s.q.byKey
  {
    hide RC.Valid, Matched, Provenance, QI.Families, QI.Lists, QI.Tickets, QI.Notified, QI.Retrying, Answers;
  }

  lemma {:induction false} AcceptedWasStarted(s: State, evs: seq<Event>, key: Key, response: Packet)
    requires Good(s) && WasAccepted(s, evs, key, response)
    ensures key in s.q.byKey || WasStarted(evs, key)
    decreases |evs|
  {
    hide Good, Sound, Enabled, Apply, Accepts, IsStartOf;
    if Accepts(s, evs[0], key, response) {
      AcceptedIsPending(s, evs[0], key, response);
    } else {
      StepKeepsGood(s, evs[0]);
      AcceptedWasStarted(Apply(s, evs[0]), evs[1..], key, response);
      if key in Apply(s, evs[0]).q.byKey {
        KeyStep(s, evs[0], key);
        assert IsStartOf(evs[0], key) ==> WasStarted(evs, key);
      } else {
        var i :| 0 <= i < |evs[1..]| && IsStartOf(evs[1..][i], key);
        assert IsStartOf(evs[i + 1], key);
      }
    }
  }

  /** Some step of the run is the receipt of the response as an answer about name. */
  ghost predicate WasReceived(s: State, evs: seq<Event>, qtype: nat, name: Name, response: Packet)
    decreases |evs|
  {
    && evs != [] && Sound(s) && Enabled(s, evs[0])
    && (IsReceipt(s, evs[0], qtype, name, response) || WasReceived(Apply(s, evs[0]), evs[1..], qtype, name, response))
  }

  lemma AcceptedIsReceipt(s: State, e: Event, qtype: nat, name: Name, response: Packet)
    requires |name| < 254 && qtype < 0x1_0000 && Accepts(s, e, InitKey(qtype, name), response)
    ensures IsReceipt(s, e, qtype, name, response)
  {
    hide Answers, InitKey, IsAnswerTo;
    AnswersExactly(response, qtype, name);
  }

  lemma {:induction false} AcceptedWasReceived(s: State, evs: seq<Event>, qtype: nat, name: Name, response: Packet)
    requires |name| < 254 && qtype < 0x1_0000 && WasAccepted(s, evs, InitKey(qtype, name), response)
    ensures WasReceived(s, evs, qtype, name, response)
    decreases |evs|
  {
    hide Sound, Enabled, Apply, Accepts, IsReceipt, InitKey;
    if Accepts(s, evs[0], InitKey(qtype, name), response) {
      AcceptedIsReceipt(s, evs[0], qtype, name, response);
    } else {
      AcceptedWasReceived(Apply(s, evs[0]), evs[1..], qtype, name, response);
    }
  }

  /** A step of the run is the call with the key's type and name that a response was received for. */
  ghost predicate WasAskedAndReceived(s: State, evs: seq<Event>, key: Key, response: Packet) {
    exists i :: 0 <= i < |evs| && IsStartOf(evs[i], key) && WasReceived(s, evs, evs[i].qtype, evs[i].name, response)
  }

  /**
   * Every packet stored from the network was received, in the run that led
   * here, as an answer about the name in a call of that run.
   */
  lemma NetworkEntries(cfg: Settings, evs: seq<Event>, s: State, key: Key)
    requires Runs(Init(cfg), evs, s) && key in s.c.stored && s.c.stored[key].origin.Network?
    ensures WasAskedAndReceived(Init(cfg), evs, key, s.c.stored[key].origin.response)
    ensures s.c.stored[key].timed && (s.c.stored[key].ok <==> s.c.stored[key].origin.response.flags % 16 == 0)
    ensures s.c.stored[key].pkt.flags / 0x200 % 2 == 0
  {
    hide Good, Runs, Init, IsReceipt, WasAccepted, WasReceived, IsStartOf;
    InitHasNothing(cfg);
    RunKeepsGood(Init(cfg), evs, s);
    StoredFromNetwork(s, key);
    var response := s.c.stored[key].origin.response;
    NetworkHistory(Init(cfg), evs, s, key, response);
    AcceptedWasStarted(Init(cfg), evs, key, response);
    var i :| 0 <= i < |evs| && IsStartOf(evs[i], key);
    StartIsOf(evs[i], key);
    AcceptedWasReceived(Init(cfg), evs, evs[i].qtype, evs[i].name, response);
  }

  lemma InitHasNothing(cfg: Settings)
    ensures Good(Init(cfg)) && Init(cfg).q == NONE && Init(cfg).c == EMPTY
    ensures forall n, key, response :: !InDelivery(NONE, n, key, response)
  {
    InitIsGood(cfg);
  }

  lemma StartIsOf(e: Event, key: Key)
    requires IsStartOf(e, key)
    ensures e.Start? && |e.name| < 254 && e.qtype < 0x1_0000 && key == InitKey(e.qtype, e.name)
  {
  }

  lemma StoredFromNetwork(s: State, key: Key)
    requires Good(s) && key in s.c.stored && s.c.stored[key].origin.Network?
    ensures s.c.stored[key].timed && (s.c.stored[key].ok <==> s.c.stored[key].origin.response.flags % 16 == 0)
    ensures s.c.stored[key].pkt.flags / 0x200 % 2 == 0
  {
    hide QI.Valid, RC.Valid, Matched, Answers;
  }

  lemma CacheIsValid(s: State)
    requires Good(s)
    ensures RC.Valid(s.cfg, s.c)
  {
  }

  /**
   * The cache against a simple map, in every reachable state: a hit returns
   * the packet last stored under the key, in time; and one from the network
   * was not truncated, and came in a response that was received while a query
   * for that key was pending, as an answer about the name in a call.
   */
  lemma CacheHits(cfg: Settings, s: State, key: Key, now: Time)
    requires Reachable(cfg, s) && Fresh(s.c, key, now)
    ensures key in s.c.stored && IsDup(s.c.stored[key].pkt, s.c.entries[s.c.table[key]].pkt)
    ensures var st := s.c.stored[key];
            st.timed ==>
              && now < st.at + 1000 * s.cfg.cacheMaxTtl
              && (st.ok ==> forall i :: 0 <= i < |st.pkt.answers| ==> now < st.at + 1000 * st.pkt.answers[i].ttl)
              && (!st.ok || st.pkt.answers == [] ==> now < st.at + 1000 * 60)
    ensures var st := s.c.stored[key];
            st.origin.Network? ==>
              && st.timed && (st.ok <==> st.origin.response.flags % 16 == 0) && st.pkt.flags / 0x200 % 2 == 0
              && forall evs :: Runs(Init(cfg), evs, s) ==> WasAskedAndReceived(Init(cfg), evs, key, st.origin.response)
  {
    ReachableIsGood(cfg, s);
    CacheIsValid(s);
    hide Reachable, Good, RC.Valid, Fresh, IsDup, WasAskedAndReceived, Runs, Init;
    RC.HitIsFaithful(s.cfg, s.c, key, now);
    if s.c.stored[key].origin.Network? {
      StoredFromNetwork(s, key);
      forall evs | Runs(Init(cfg), evs, s) ensures WasAskedAndReceived(Init(cfg), evs, key, s.c.stored[key].origin.response) {
        NetworkEntries(cfg, evs, s, key);
      }
    }
  }

  // ---------------------------------------------------------------------
  // Destroy under a running callback
  // ---------------------------------------------------------------------

  const INJECTED: Packet :=
    Packet(0, 0x8000, [], [Record([97], TYPE_A, CLASS_IN, 5, 4, Address([1, 2, 3, 4]))], [], [])

  /**
   * If anything is cached at all, destroy can take a packet from under a
   * running callback: a response is added, a request finds it in the cache,
   * and destroy comes before its callback returns.
   */
  lemma SweepTakesPacket(cfg: Settings)
    requires cfg.cacheMaxTtl > 0
    ensures exists s :: Reachable(cfg, s) && s.shuttingDown && forall gone :: !RC.ReadersLive(RC.Sweep(s.c, gone))
  {
    hide Good, Sound, Enabled, Apply;
    var s0 := Init(cfg);
    var e1, e3 := Inject(0, INJECTED, false, INJECTED), Destroy([], true);
    InitIsGood(cfg);
    GoodIsSound(s0);
    var s1 := InjectedState(cfg);
    var e2, s2 := HitState(s1);
    var s3 := DestroyedState(s2);
    forall gone ensures !RC.ReadersLive(RC.Sweep(s3.c, gone)) { SweptUnder(s3.c, gone); }
    RunsThree(s0, e1, s1, e2, s2, e3, s3);
  }

  lemma InjectedState(cfg: Settings) returns (s: State)
    requires cfg.cacheMaxTtl > 0 && Good(Init(cfg)) && Sound(Init(cfg))
    ensures var e := Inject(0, INJECTED, false, INJECTED); Enabled(Init(cfg), e) && s == Apply(Init(cfg), e) && Good(s)
    ensures Fresh(s.c, InitKey(TYPE_A, [97]), 0) && s.q == NONE && !s.shuttingDown && s.c.readers == map[]
  {
    hide Good, Sound, InitKey;
    var e := Inject(0, INJECTED, false, INJECTED);
    assert Enabled(Init(cfg), e);
    StepKeepsGood(Init(cfg), e);
    s := Apply(Init(cfg), e);
    assert EntryKey(INJECTED) == Some(InitKey(TYPE_A, [97]));
  }

  lemma HitState(s: State) returns (e: Event, s2: State)
    requires Good(s) && Fresh(s.c, InitKey(TYPE_A, [97]), 0) && s.q == NONE && !s.shuttingDown
    ensures Sound(s) && Enabled(s, e) && s2 == Apply(s, e) && Good(s2)
    ensures s2.q == NONE && !s2.shuttingDown && s2.c.table == s.c.table
    ensures exists r :: r in s2.c.readers && s2.c.readers[r].entry in s2.c.table.Values
  {
    GoodIsSound(s);
    hide Good, Sound, InitKey;
    e := Start(0, TYPE_A, [97], true, 0, Selection([], [], -1), TxEnv(true, true, true, {}, {}));
    assert Enabled(s, e);
    StepKeepsGood(s, e);
    s2 := Apply(s, e);
    assert s2.c == Hit(s.c, InitKey(TYPE_A, [97]));
    assert s.c.nextReader in s2.c.readers;
  }

  lemma DestroyedState(s: State) returns (s2: State)
    requires Good(s) && s.q == NONE && !s.shuttingDown
    ensures var e := Destroy([], true); Sound(s) && Enabled(s, e) && s2 == Apply(s, e)
    ensures s2.shuttingDown && s2.c == s.c
  {
    hide Good, Sound, StartQuery, OnTimeout, OnResponse, FinishQuery, AddEntry, SetNs, Cancel, Done, TakeNext, Call, CancelCall,
      SelectionOk, IsDup, IsOrder, CollectAll;
    GoodIsSound(s);
    NothingToCollect();
    s2 := Apply(s, Destroy([], true));
  }

  lemma NothingToCollect()
    ensures IsOrder(NONE, [])
  {
  }

  lemma SweptUnder(c: Cache, gone: seq<EntryId>)
    requires exists r :: r in c.readers && c.readers[r].entry in c.table.Values
    ensures !RC.ReadersLive(RC.Sweep(c, gone))
  {
    var r :| r in c.readers && c.readers[r].entry in c.table.Values;
    assert r in RC.Sweep(c, gone).readers;
  }

  // ---------------------------------------------------------------------
  // Nameservers
  // ---------------------------------------------------------------------

  function CauseOf(s: State, e: Event): Cause
    requires e.Receive? && e.parsed.Some?
  {
    ByResponse(e.now, e.src, e.parsed.value.Rcode(), Validated(s, e))
  }

  /**
   * The life cycle of a server, in every step but a new configuration: a
   * server changes only in a selection or through its own response, and leaves
   * or enters BAD only as AllowedChange says.
   */
  lemma LifeCycle(s: State, e: Event, i: nat)
    requires Good(s) && Sound(s) && Enabled(s, e) && !e.Configure? && i < |s.ns|
    ensures |Apply(s, e).ns| == |s.ns|
    ensures Apply(s, e).ns[i] == s.ns[i]
            || ((e.Start? || e.Expire?) && AllowedChange(s.cfg, s.ns[i], Apply(s, e).ns[i], BySelection(e.now)))
            || (e.Receive? && e.parsed.Some? && AllowedChange(s.cfg, s.ns[i], Apply(s, e).ns[i], CauseOf(s, e)))
  {
    hide Good, SelectionOk, StartQuery, OnTimeout, OnResponse, Update, Finish, EntryKey, AllowedChange, CauseOf,
      CollectAll, TakeNext, Call, Cancel, CancelCall, Done, IsOrder, IsDup, InitKey;
    match e
    case Start(now, qtype, name, hasCb, id, sel, env) =>
      KeyOfStart(s, qtype, name);
      StartLifeCycle(s, now, qtype, name, hasCb, id, sel, env, i);
    case Expire(n, now, sel, env) =>
      ExpireLifeCycle(s, n, now, sel, env, i);
    case Receive(now, src, parsed) =>
      ReceiveLifeCycle(s, now, src, parsed, i);
    case _ =>
  }

  lemma KeyOfStart(s: State, qtype: nat, name: Name)
    requires Sound(s)
    ensures var key := InitKey(qtype, name);
            && (key in s.q.byKey ==> s.q.byKey[key] in s.q.nodes)
            && (key in s.c.table ==> s.c.table[key] in s.c.entries)
  {
  }

  lemma StartLifeCycle(s: State, now: Time, qtype: nat, name: Name, hasCb: bool, id: nat, sel: Selection, env: TxEnv, i: nat)
    requires (id == 0 || SelectionOk(s, now, sel)) && i < |s.ns|
    requires var key := InitKey(qtype, name);
             && (key in s.q.byKey ==> s.q.byKey[key] in s.q.nodes)
             && (key in s.c.table ==> s.c.table[key] in s.c.entries)
    ensures var r := StartQuery(s, now, qtype, name, hasCb, id, sel, env);
            |r.ns| == |s.ns| && (r.ns[i] == s.ns[i] || AllowedChange(s.cfg, s.ns[i], r.ns[i], BySelection(now)))
  {
    hide AllowedChange, InitKey, Join, Begin, Refuse, Hit, Remove, SelectionOk, TransmitOk, NsAfterTransmit;
    if id != 0 { TransmitFollowsLifeCycle(s, now, id, sel, env, i); }
    var s1 := s.(c := Remove(s.c, InitKey(qtype, name)));
    assert NsAfterTransmit(s1, now, id, sel, env) == NsAfterTransmit(s, now, id, sel, env) by {
      NsFrame(s, s1, now, id, sel, env);
    }
  }

  lemma NsFrame(s: State, s1: State, now: Time, id: nat, sel: Selection, env: TxEnv)
    requires s1.ns == s.ns
    ensures NsAfterTransmit(s1, now, id, sel, env) == NsAfterTransmit(s, now, id, sel, env)
  {
  }

  lemma ExpireLifeCycle(s: State, n: NodeId, now: Time, sel: Selection, env: TxEnv, i: nat)
    requires i < |s.ns| && n in s.q.nodes
    requires s.q.nodes[n].id in s.q.byId && s.q.nodes[n].transmitCnt < s.cfg.qretrCount ==> SelectionOk(s, now, sel)
    ensures var r := OnTimeout(s, now, n, sel, env);
            |r.ns| == |s.ns| && (r.ns[i] == s.ns[i] || AllowedChange(s.cfg, s.ns[i], r.ns[i], BySelection(now)))
  {
    hide AllowedChange, Complete, Retransmit, SelectionOk, TransmitOk, NsAfterTransmit;
    if s.q.nodes[n].id in s.q.byId && s.q.nodes[n].transmitCnt < s.cfg.qretrCount {
      TransmitFollowsLifeCycle(s, now, s.q.nodes[n].id, sel, env, i);
    }
  }

  lemma ReceiveLifeCycle(s: State, now: Time, src: Addr, parsed: Option<Packet>, i: nat)
    requires i < |s.ns|
    requires parsed.Some? && parsed.value.id in s.q.byId ==> s.q.byId[parsed.value.id] in s.q.nodes
    ensures var r := OnResponse(s, now, src, parsed);
            && |r.ns| == |s.ns|
            && (r.ns[i] == s.ns[i]
                || (parsed.Some? && AllowedChange(s.cfg, s.ns[i], r.ns[i], CauseOf(s, Receive(now, src, parsed)))))
  {
    hide AllowedChange, Complete, AfterReport, Answers;
    if parsed.Some? { ReceiveFollowsLifeCycle(s, now, src, parsed.value, i); }
  }

  lemma TransmitFollowsLifeCycle(s: State, now: Time, id: nat, sel: Selection, env: TxEnv, i: nat)
    requires SelectionOk(s, now, sel) && i < |s.ns|
    ensures |NsAfterTransmit(s, now, id, sel, env)| == |s.ns|
    ensures AllowedChange(s.cfg, s.ns[i], NsAfterTransmit(s, now, id, sel, env)[i], BySelection(now))
  {
    SelectionFollowsLifeCycle(s.cfg, s.ns, now, sel.best, sel.ns, sel.servers, i);
  }

  lemma ReceiveFollowsLifeCycle(s: State, now: Time, src: Addr, pkt: Packet, i: nat)
    requires i < |s.ns|
    ensures var ns1 := AfterReport(s.cfg, s.ns, src, pkt.id, pkt.Rcode(), false, now);
            && AllowedChange(s.cfg, s.ns[i], ns1[i], ByResponse(now, src, pkt.Rcode(), false))
            && AllowedChange(s.cfg, s.ns[i], AfterReport(s.cfg, ns1, src, pkt.id, pkt.Rcode(), true, now)[i],
                             ByResponse(now, src, pkt.Rcode(), true))
  {
    var ns1 := AfterReport(s.cfg, s.ns, src, pkt.id, pkt.Rcode(), false, now);
    ReportFollowsLifeCycle(s.cfg, s.ns, src, pkt.id, pkt.Rcode(), false, now, i);
    ReportFollowsLifeCycle(s.cfg, ns1, src, pkt.id, pkt.Rcode(), true, now, i);
    assert forall j :: 0 <= j < |s.ns| ==> ns1[j].addr == s.ns[j].addr;
  }

  // ---------------------------------------------------------------------
  // Retransmission
  // ---------------------------------------------------------------------

  predicate IsPending(s: State, n: NodeId) {
    n in s.q.nodes && s.q.nodes[n].place == Pending
  }

  /** If n is pending before and after a step, this is how its count and its timer have changed. */
  ghost predicate Kept(q: Queries, r: Queries, n: NodeId, expired: nat, stopped: bool)
    requires n in q.nodes
  {
    n in r.nodes && r.nodes[n].place == Pending ==>
      && r.nodes[n].transmitCnt == q.nodes[n].transmitCnt + expired
      && r.nodes[n].stopped == (q.nodes[n].stopped || stopped)
  }

  lemma EnqueueKeepsQuery(s: State, n: NodeId, now: Time, key: Key, hasCb: bool, id: nat, sel: Selection, env: TxEnv)
    requires QI.Valid(s.cfg, s.q) && IsPending(s, n)
    requires key in s.q.byKey ==> s.q.byKey[key] in s.q.nodes
    ensures Kept(s.q, Enqueue(s, now, key, hasCb, id, sel, env).q, n, 0, false)
  {
    hide QI.Valid, NsAfterTransmit, TransmitOk;
    AllocIsNotPending(s.cfg, s.q, n);
    if key in s.q.byKey { JoinKeepsQuery(s.q, key, hasCb, n); }
  }

  lemma JoinKeepsQuery(q: Queries, key: Key, hasCb: bool, n: NodeId)
    requires n in q.nodes && AllocId(q) != n && key in q.byKey && q.byKey[key] in q.nodes
    ensures Kept(q, Join(q, key, hasCb), n, 0, false)
  {
  }

  lemma AllocIsNotPending(cfg: Settings, q: Queries, n: NodeId)
    requires QI.Valid(cfg, q) && n in q.nodes && q.nodes[n].place == Pending
    ensures AllocId(q) != n
  {
    hide QI.Tables, QI.Families, QI.Tickets, QI.Notified, QI.Retrying;
  }

  lemma PendingHasId(cfg: Settings, q: Queries, n: NodeId)
    requires QI.Valid(cfg, q) && n in q.nodes && q.nodes[n].place == Pending
    ensures q.nodes[n].id in q.byId && q.byId[q.nodes[n].id] == n
  {
    hide QI.Lists, QI.Families, QI.Tickets, QI.Notified, QI.Retrying;
  }

  lemma {:induction false} CollectedIsNotPending(q: Queries, order: seq<NodeId>, notify: bool, n: NodeId)
    requires IsOrder(q, order)
    ensures var r := CollectAll(q, order, notify); n in r.nodes ==> r.nodes[n].place != Pending
    decreases |order|
  {
    if order != [] {
      CollectOrder(q, order, notify);
      CollectedIsNotPending(Collect(q, order[0], notify), order[1..], notify, n);
    }
  }

  lemma FinishKeepsPending(s: State, m: NodeId, n: NodeId)
    requires QI.Valid(s.cfg, s.q) && IsPending(s, n) && m in s.q.nodes && m in s.q.completing
    ensures Kept(s.q, Finish(s.q, m), n, 0, false)
  {
    hide QI.Tables, QI.Tickets, QI.Notified, QI.Retrying;
    QI.CompletingMembers(s.q, m);
  }

  /** One step: an expiry of n counts one transmission; only a cancel of n stops its timer. */
  lemma StepKeepsQuery(s: State, e: Event, n: NodeId)
    requires Good(s) && Sound(s) && Enabled(s, e) && IsPending(s, n) && IsPending(Apply(s, e), n)
    ensures Kept(s.q, Apply(s, e).q, n, if e.Expire? && e.n == n then 1 else 0,
                 e.CancelQuery? && e.n == n && !e.dispatched)
  {
    hide Sound, RC.Valid, Matched, Provenance, QI.Valid, Answers, Selected, SelectionOk, InitKey, Update, AfterReport,
      Enqueue, Finish, Saved;
    match e
    case Start(now, qtype, name, hasCb, id, sel, env) =>
      KeyIsSound(s, InitKey(qtype, name));
      EnqueueKeepsQuery(s.(c := Remove(s.c, InitKey(qtype, name))), n, now, InitKey(qtype, name), hasCb, id, sel, env);
    case FinishUp(m, now, dup) =>
      FinishKeepsPending(s, m, n);
    case Expire(m, now, sel, env) =>
      PendingHasId(s.cfg, s.q, n);
    case Destroy(order, notify) =>
      CollectedIsNotPending(s.q, order, notify, n);
    case _ =>
  }

  ghost predicate StaysPending(s: State, evs: seq<Event>, n: NodeId)
    decreases |evs|
  {
    && IsPending(s, n)
    && (evs != [] ==> Sound(s) && Enabled(s, evs[0]) && StaysPending(Apply(s, evs[0]), evs[1..], n))
  }

  function Expiries(evs: seq<Event>, n: NodeId): nat {
    if evs == [] then 0 else (if evs[0].Expire? && evs[0].n == n then 1 else 0) + Expiries(evs[1..], n)
  }

  predicate Stops(evs: seq<Event>, n: NodeId) {
    exists i :: 0 <= i < |evs| && evs[i].CancelQuery? && evs[i].n == n && !evs[i].dispatched
  }

  /**
   * Retransmission terminates: while a query stays pending, each expiry of its
   * timer is one more transmission, of which there are at most
   * max(1, qretr_count); and its timer is armed between steps unless a cancel
   * has stopped it.
   */
  lemma {:induction false} ExpiriesBounded(s: State, evs: seq<Event>, s2: State, n: NodeId)
    requires Good(s) && Runs(s, evs, s2) && StaysPending(s, evs, n)
    ensures IsPending(s2, n) && s2.cfg == s.cfg
    ensures s2.q.nodes[n].transmitCnt == s.q.nodes[n].transmitCnt + Expiries(evs, n) <= QI.MaxTransmits(s.cfg)
    ensures s2.q.nodes[n].timerOn <==> s.q.nodes[n].timerOn && !Stops(evs, n)
    decreases |evs|
  {
    hide Good, Sound, Enabled, Apply, Stops, IsPending;
    PendingRetries(s, n);
    StopsStep(evs, n);
    if evs != [] {
      StepKeepsGood(s, evs[0]);
      StepKeepsConfig(s, evs[0]);
      var s1 := Apply(s, evs[0]);
      assert IsPending(s1, n);
      StepKeepsQuery(s, evs[0], n);
      PendingRetries(s1, n);
      PendingIsNode(s1, n);
      ExpiriesBounded(s1, evs[1..], s2, n);
    }
  }

  lemma PendingIsNode(s: State, n: NodeId)
    requires IsPending(s, n)
    ensures n in s.q.nodes && s.q.nodes[n].place == Pending
  {
  }

  lemma StopsStep(evs: seq<Event>, n: NodeId)
    ensures Stops(evs, n) <==>
              evs != [] && ((evs[0].CancelQuery? && evs[0].n == n && !evs[0].dispatched) || Stops(evs[1..], n))
  {
    if evs != [] {
      if Stops(evs[1..], n) {
        var i :| 0 <= i < |evs[1..]| && evs[1..][i].CancelQuery? && evs[1..][i].n == n && !evs[1..][i].dispatched;
        assert evs[i + 1] == evs[1..][i];
      }
      assert forall i :: 1 <= i < |evs| ==> evs[i] == evs[1..][i - 1];
    }
  }

  lemma PendingRetries(s: State, n: NodeId)
    requires Good(s) && IsPending(s, n)
    ensures n in s.q.nodes && 1 <= s.q.nodes[n].transmitCnt <= QI.MaxTransmits(s.cfg)
    ensures s.q.nodes[n].timerOn <==> !s.q.nodes[n].stopped
  {
    hide QI.Tables, QI.Families, QI.Lists, QI.Tickets, QI.Notified, RC.Valid, Matched, Provenance;
  }

  lemma StepKeepsConfig(s: State, e: Event)
    requires Sound(s) && Enabled(s, e)
    ensures Apply(s, e).cfg == s.cfg
  {
    hide Update, Finish, EntryKey, CollectAll, TakeNext, Call, Cancel, CancelCall, Done, IsOrder, IsDup, InitKey,
      SelectionOk, Join, Begin, Refuse, Hit, Remove, TransmitOk, NsAfterTransmit, AfterReport, Complete, Retransmit, Answers;
  }

  /** The steps that take a query without a timer out of the tables: a response that matches it, and destroy. */
  predicate Settles(s: State, e: Event, n: NodeId) {
    IsAnsweredBy(s, e, n) || e.Destroy?
  }

  /**
   * A query whose timer a cancel has stopped stays pending, without a timer,
   * through every step but a response that matches it and destroy; requests
   * that join it meanwhile wait as long.
   */
  lemma StoppedStays(s: State, e: Event, n: NodeId)
    requires Good(s) && Sound(s) && Enabled(s, e) && IsPending(s, n) && s.q.nodes[n].stopped
    ensures IsPending(Apply(s, e), n) <==> !Settles(s, e, n)
    ensures !Settles(s, e, n) ==> Apply(s, e).q.nodes[n].stopped && !Apply(s, e).q.nodes[n].timerOn
  {
    hide Good, Sound, Enabled, Apply;
    if Settles(s, e, n) {
      SettledLeaves(s, e, n);
    } else {
      UnsettledStays(s, e, n);
      StepKeepsGood(s, e);
      StoppedHasNoTimer(Apply(s, e), n);
    }
  }

  lemma SettledLeaves(s: State, e: Event, n: NodeId)
    requires Good(s) && Sound(s) && Enabled(s, e) && IsPending(s, n) && Settles(s, e, n)
    ensures !IsPending(Apply(s, e), n)
  {
    hide RC.Valid, Matched, Provenance, QI.Valid, Answers, SelectionOk, InitKey, Update, AfterReport, IsOrder;
    match e
    case Receive(now, src, parsed) =>
    case Destroy(order, notify) => CollectedIsNotPending(s.q, order, notify, n);
  }

  lemma UnsettledStays(s: State, e: Event, n: NodeId)
    requires Good(s) && Sound(s) && Enabled(s, e) && IsPending(s, n) && s.q.nodes[n].stopped && !Settles(s, e, n)
    ensures IsPending(Apply(s, e), n) && Apply(s, e).q.nodes[n].stopped
  {
    hide Sound, RC.Valid, Matched, Provenance, QI.Valid, Answers, Selected, SelectionOk, InitKey, Update, AfterReport, OnTimeout,
      OnResponse, Enqueue, Finish, Saved;
    match e
    case Start(now, qtype, name, hasCb, id, sel, env) =>
      var key := InitKey(qtype, name);
      KeyIsSound(s, key);
      EnqueueKeepsPlace(s.(c := Remove(s.c, key)), n, now, key, hasCb, id, sel, env);
    case FinishUp(m, now, dup) =>
      FinishKeepsPlace(s, m, n);
    case Expire(m, now, sel, env) =>
      ExpiryOfOther(s, e, n);
    case Receive(now, src, parsed) =>
      ResponseToOther(s, e, n);
    case _ =>
  }

  lemma ExpiryOfOther(s: State, e: Event, n: NodeId)
    requires Good(s) && Sound(s) && Enabled(s, e) && e.Expire? && IsPending(s, n) && s.q.nodes[n].stopped
    ensures IsPending(Apply(s, e), n) && Apply(s, e).q.nodes[n].stopped
  {
    hide Sound, RC.Valid, Matched, Provenance, QI.Valid, SelectionOk, TransmitOk, NsAfterTransmit;
    PendingHasId(s.cfg, s.q, n);
    StoppedHasNoTimer(s, n);
  }

  lemma ResponseToOther(s: State, e: Event, n: NodeId)
    requires Good(s) && Sound(s) && Enabled(s, e) && e.Receive? && IsPending(s, n) && !IsAnsweredBy(s, e, n)
    ensures IsPending(Apply(s, e), n) && Apply(s, e).q.nodes[n].stopped == s.q.nodes[n].stopped
  {
    hide RC.Valid, Matched, Provenance, QI.Valid, Answers, AfterReport;
    if e.parsed.Some? && e.parsed.value.id in s.q.byId { ByIdIsPending(s.cfg, s.q, e.parsed.value.id); }
  }

  /** No step of the run settles n. */
  ghost predicate Unsettled(s: State, evs: seq<Event>, n: NodeId)
    decreases |evs|
  {
    evs == [] || (Sound(s) && Enabled(s, evs[0]) && !Settles(s, evs[0], n) && Unsettled(Apply(s, evs[0]), evs[1..], n))
  }

  /** Over any run: such a query stays pending, and without a timer, exactly as long as nothing settles it. */
  lemma {:induction false} StoppedWaits(s: State, evs: seq<Event>, s2: State, n: NodeId)
    requires Good(s) && Runs(s, evs, s2) && IsPending(s, n) && s.q.nodes[n].stopped
    ensures StaysPending(s, evs, n) <==> Unsettled(s, evs, n)
    ensures Unsettled(s, evs, n) ==> IsPending(s2, n) && s2.q.nodes[n].stopped && !s2.q.nodes[n].timerOn
    decreases |evs|
  {
    hide Good, Sound, Enabled, Apply, IsPending, Settles;
    if evs == [] {
      StoppedHasNoTimer(s, n);
      PendingIsNode(s, n);
    } else {
      var s1 := Apply(s, evs[0]);
      StoppedStays(s, evs[0], n);
      StepKeepsGood(s, evs[0]);
      if IsPending(s1, n) {
        PendingIsNode(s1, n);
        StoppedWaits(s1, evs[1..], s2, n);
      } else {
        assert !StaysPending(s1, evs[1..], n);
      }
    }
  }

  lemma StoppedHasNoTimer(s: State, n: NodeId)
    requires Good(s) && IsPending(s, n) && s.q.nodes[n].stopped
    ensures !s.q.nodes[n].timerOn
  {
    PendingRetries(s, n);
  }

  lemma EnqueueKeepsPlace(s: State, n: NodeId, now: Time, key: Key, hasCb: bool, id: nat, sel: Selection, env: TxEnv)
    requires QI.Valid(s.cfg, s.q) && IsPending(s, n)
    requires key in s.q.byKey ==> s.q.byKey[key] in s.q.nodes
    ensures IsPending(Enqueue(s, now, key, hasCb, id, sel, env), n)
    ensures Enqueue(s, now, key, hasCb, id, sel, env).q.nodes[n].stopped == s.q.nodes[n].stopped
  {
    hide QI.Valid, NsAfterTransmit, TransmitOk, Join, Begin, Refuse;
    AllocIsNotPending(s.cfg, s.q, n);
    NewKeepsPlace(s.q, key, id, hasCb, n);
    if key in s.q.byKey { JoinKeepsPlace(s.q, key, hasCb, n); }
  }

  lemma NewKeepsPlace(q: Queries, key: Key, id: nat, hasCb: bool, n: NodeId)
    requires n in q.nodes && AllocId(q) != n
    ensures n in Begin(q, key, id, hasCb).nodes && Begin(q, key, id, hasCb).nodes[n] == q.nodes[n]
    ensures n in Refuse(q, hasCb).nodes && Refuse(q, hasCb).nodes[n] == q.nodes[n]
  {
  }

  lemma JoinKeepsPlace(q: Queries, key: Key, hasCb: bool, n: NodeId)
    requires n in q.nodes && AllocId(q) != n && key in q.byKey && q.byKey[key] in q.nodes
    ensures n in Join(q, key, hasCb).nodes && Join(q, key, hasCb).nodes[n].place == q.nodes[n].place
    ensures Join(q, key, hasCb).nodes[n].stopped == q.nodes[n].stopped
  {
  }

  lemma FinishKeepsPlace(s: State, m: NodeId, n: NodeId)
    requires QI.Valid(s.cfg, s.q) && IsPending(s, n) && m in s.q.nodes && m in s.q.completing
    ensures n in Finish(s.q, m).nodes && Finish(s.q, m).nodes[n] == s.q.nodes[n]
  {
    hide QI.Tables, QI.Tickets, QI.Notified, QI.Retrying;
    QI.CompletingMembers(s.q, m);
  }

  /** Such states are reachable: a server, a query, and a cancel of that query. */
  lemma CancelLeavesStoppedQuery(cfg: Settings)
    ensures exists s :: Reachable(cfg, s) && IsPending(s, 0) && s.q.nodes[0].stopped && !s.q.nodes[0].timerOn
  {
    hide Good, Sound, Enabled, Apply;
    var s0 := Init(cfg);
    var e1, e3 := Configure([Some(1)], 0), CancelQuery(0, false, false);
    InitIsGood(cfg);
    GoodIsSound(s0);
    assert Enabled(s0, e1) by { ConfigureEnabled(s0); }
    StepKeepsGood(s0, e1);
    var s1 := ConfiguredState(cfg);
    var e2, s2 := StartsQuery(s1, s1.ns[0]);
    var s3 := StopsQuery(s2);
    RunsThree(s0, e1, s1, e2, s2, e3, s3);
  }

  lemma ConfigureEnabled(s: State)
    ensures Enabled(s, Configure([Some(1)], 0))
  {
  }

  lemma RunsThree(s0: State, e1: Event, s1: State, e2: Event, s2: State, e3: Event, s3: State)
    requires Sound(s0) && Enabled(s0, e1) && s1 == Apply(s0, e1)
    requires Sound(s1) && Enabled(s1, e2) && s2 == Apply(s1, e2)
    requires Sound(s2) && Enabled(s2, e3) && s3 == Apply(s2, e3)
    ensures Runs(s0, [e1, e2, e3], s3)
  {
    hide Sound, Enabled, Apply;
    assert [e1, e2, e3][1..] == [e2, e3] && [e2, e3][1..] == [e3] && [e3][1..] == [];
    assert Runs(s2, [e3], s3);
    assert Runs(s1, [e2, e3], s3);
  }

  lemma ConfiguredState(cfg: Settings) returns (s: State)
    requires Sound(Init(cfg)) && Enabled(Init(cfg), Configure([Some(1)], 0)) && Good(Apply(Init(cfg), Configure([Some(1)], 0)))
    ensures s == Apply(Init(cfg), Configure([Some(1)], 0)) && Good(s) && s.q == NONE && s.c == EMPTY && !s.shuttingDown
    ensures s.ns == [NameServer(1, Active, 0, 10_000, 0, 0)]
  {
    hide Good, Sound;
    s := Apply(Init(cfg), Configure([Some(1)], 0));
  }

  lemma StartsQuery(s: State, server: NameServer) returns (e: Event, s2: State)
    requires Good(s) && s.ns == [server] && server.state == Active && server.expiry <= 1
    requires s.q == NONE && s.c == EMPTY && !s.shuttingDown
    ensures Sound(s) && Enabled(s, e) && s2 == Apply(s, e) && Good(s2) && IsPending(s2, 0)
  {
    var sel := FirstSelection(s.cfg, server);
    e := Start(1, TYPE_A, [97], true, 7, sel, TxEnv(true, true, true, {}, {}));
    GoodIsSound(s);
    assert Enabled(s, e) by { hide Good, Sound, Selected; }
    StepKeepsGood(s, e);
    s2 := Apply(s, e);
    StartedState(s, sel);
  }

  lemma StartedState(s: State, sel: Selection)
    requires s.ns != [] && s.q == NONE && s.c == EMPTY && !s.shuttingDown && sel.servers != []
    ensures IsPending(StartQuery(s, 1, TYPE_A, [97], true, 7, sel, TxEnv(true, true, true, {}, {})), 0)
  {
    hide InitKey, NsAfterTransmit;
  }

  lemma FirstSelection(cfg: Settings, server: NameServer) returns (sel: Selection)
    requires server.state == Active && server.expiry <= 1
    ensures Selected(cfg, [server], 1, sel.best, sel.ns, sel.servers) && sel.servers != []
  {
    sel := Selection([Aged(cfg, server, 1)], [0], 0);
  }

  lemma StopsQuery(s: State) returns (s3: State)
    requires Good(s) && IsPending(s, 0)
    ensures Sound(s) && Enabled(s, CancelQuery(0, false, false)) && s3 == Apply(s, CancelQuery(0, false, false))
    ensures IsPending(s3, 0) && s3.q.nodes[0].stopped && !s3.q.nodes[0].timerOn
  {
    GoodIsSound(s);
    hide Good, Sound;
    s3 := Apply(s, CancelQuery(0, false, false));
  }

  // ---------------------------------------------------------------------
  // Fates
  // ---------------------------------------------------------------------

  /**
   * A fate once final stays; a request is dropped only by a cancel of the node
   * that holds it, or by a destroy that comes to that node, without notification.
   */
  ghost predicate FateSteps(s: State, e: Event, before: Fate, after: Fate) {
    && (before.Delivered? || before.Dropped? ==> after == before)
    && (after.Dropped? && !before.Dropped? ==>
          || (e.CancelQuery? && !e.notify && before == Held(e.n))
          || (e.NotifyNext? && QI.CanTakeNext(s.q, e.n) && Silent(s.q.completing[e.n].ending)
              && before == Held(Member(s.q, e.n, s.q.completing[e.n].next))))
  }

  lemma {:induction false} CollectAllKeepsFates(q: Queries, order: seq<NodeId>, notify: bool)
    requires forall i :: 0 <= i < |order| ==> order[i] in q.nodes
    ensures CollectAll(q, order, notify).fates == q.fates
    decreases |order|
  {
    if order != [] { CollectAllKeepsFates(Collect(q, order[0], notify), order[1..], notify); }
  }

  /** Some fates that were not final have changed, and new ones may have been added; only those that n held may be dropped. */
  ghost predicate FatesMove(q: Queries, r: Queries, drops: bool, n: NodeId) {
    && |q.fates| <= |r.fates|
    && forall t :: 0 <= t < |q.fates| && r.fates[t] != q.fates[t] ==>
         !q.fates[t].Delivered? && !q.fates[t].Dropped? && (r.fates[t].Dropped? ==> drops && q.fates[t] == Held(n))
  }

  lemma TakeMoves(q: Queries, n: NodeId, fate: Fate)
    requires QI.Tickets(q) && n in q.nodes
    ensures FatesMove(q, Take(q, n, fate), fate.Dropped?, n)
  {
  }

  lemma CompleteMoves(q: Queries, n: NodeId, ending: Ending)
    requires QI.Tickets(q) && n in q.nodes
    ensures FatesMove(q, Complete(q, n, ending), false, n)
  {
  }

  lemma CallMoves(q: Queries, n: NodeId, pkt: Packet)
    requires QI.Tickets(q) && n in q.completing && q.completing[n].inFlight.Some? && q.completing[n].inFlight.value < |q.fates|
    ensures FatesMove(q, Call(q, n, pkt), false, n)
  {
  }

  lemma CancelCallMoves(q: Queries, t: Ticket)
    requires QI.Tickets(q) && t in q.cancelling && t < |q.fates|
    ensures FatesMove(q, CancelCall(q, t), false, 0)
  {
  }

  lemma CancelMoves(q: Queries, n: NodeId, notify: bool, dispatched: bool)
    requires QI.Tickets(q) && n in q.nodes
    ensures FatesMove(q, Cancel(q, n, notify, dispatched), !notify, n)
  {
    hide QI.Tickets;
    TakeMoves(q, n, if notify then InCancel else Dropped);
  }

  lemma TakeNextMoves(q: Queries, n: NodeId)
    requires QI.Tickets(q) && QI.CanTakeNext(q, n)
    ensures FatesMove(q, TakeNext(q, n), Silent(q.completing[n].ending), Member(q, n, q.completing[n].next))
  {
    hide QI.Tickets;
    TakeMoves(q, Member(q, n, q.completing[n].next), if Silent(q.completing[n].ending) then Dropped else InCompletion(n));
  }

  lemma EnqueueMoves(s: State, now: Time, key: Key, hasCb: bool, id: nat, sel: Selection, env: TxEnv)
    requires key in s.q.byKey ==> s.q.byKey[key] in s.q.nodes
    ensures FatesMove(s.q, Enqueue(s, now, key, hasCb, id, sel, env).q, false, 0)
  {
    hide TransmitOk, NsAfterTransmit;
  }

  /** In every step, final fates stay final, and only a silent cancel or destroy drops a request. */
  lemma FatesAreFinal(s: State, e: Event, t: Ticket)
    requires Good(s) && Sound(s) && Enabled(s, e) && t < |s.q.fates|
    ensures t < |Apply(s, e).q.fates| && FateSteps(s, e, s.q.fates[t], Apply(s, e).q.fates[t])
  {
    hide RC.Valid, Matched, Provenance, QI.Tables, QI.Families, QI.Lists, QI.Notified, QI.Retrying, QI.Tickets,
      Answers, SelectionOk, InitKey, Update, AfterReport, CollectAll, TransmitOk, NsAfterTransmit,
      Enqueue, Cancel, TakeNext, Call, CancelCall, Complete, Remove, Hit, IsOrder;
    match e
    case Start(now, qtype, name, hasCb, id, sel, env) =>
      var key := InitKey(qtype, name);
      EnqueueMoves(s.(c := Remove(s.c, key)), now, key, hasCb, id, sel, env);
    case CancelQuery(n, notify, dispatched) => CancelMoves(s.q, n, notify, dispatched);
    case CallCancelled(u) => CancelCallMoves(s.q, u);
    case Expire(n, now, sel, env) => CompleteMoves(s.q, n, TimedOut);
    case Receive(now, src, parsed) =>
      if parsed.Some? && parsed.value.id in s.q.byId {
        CompleteMoves(s.q, s.q.byId[parsed.value.id], Answered(parsed.value, parsed.value));
      }
    case NotifyNext(n) => TakeNextMoves(s.q, n);
    case CallBack(n, pkt) => CallMoves(s.q, n, pkt);
    case Destroy(order, notify) => DestroyKeepsFates(s.q, order, notify);
    case _ =>
  }

  lemma DestroyKeepsFates(q: Queries, order: seq<NodeId>, notify: bool)
    requires IsOrder(q, order)
    ensures CollectAll(q, order, notify).fates == q.fates
  {
    CollectAllKeepsFates(q, order, notify);
  }
}
