/** Every callback is told how its own query ended. */
module ResolverNotices {
  import opened Bytes
  import opened Dns
  import opened NameServers
  import opened ResponseCache
  import opened Queries
  import opened ResolverRuns
  import opened ResolverReplies
  import opened ResolverTheorems
  import QI = QueryInvariant
  import RC = ResponseCache

  // ---------------------------------------------------------------------
  // The event that decides what a callback is told
  // ---------------------------------------------------------------------

  /** The query that node m is, or has joined. */
  function QueryOf(q: Queries, m: NodeId): NodeId
    requires m in q.nodes
  {
    if q.nodes[m].place.ChildOf? then q.nodes[m].place.parent else m
  }

  /** The step ends the query that the callback t waits for, or is a cancel of the request that t belongs to. */
  ghost predicate Decides(s: State, e: Event, t: Ticket)
    requires Sound(s) && Enabled(s, e)
  {
    exists m :: m in s.q.nodes && s.q.nodes[m].cb == Live(t)
      && (if e.CancelQuery? then e.n == m
          else IsPending(s, QueryOf(s.q, m)) && !IsPending(Apply(s, e), QueryOf(s.q, m)))
  }

  /** The last step of a run that decides what t is told. */
  ghost function Decider(s: State, evs: seq<Event>, t: Ticket): Option<Event>
    decreases |evs|
  {
    if evs == [] || !Sound(s) || !Enabled(s, evs[0]) then None
    else
      var later := Decider(Apply(s, evs[0]), evs[1..], t);
      if later.Some? then later else if Decides(s, evs[0], t) then Some(evs[0]) else None
  }

  /** What a callback is told of: the code of the response, that time is up, or that the request was cancelled. */
  ghost predicate TellsOf(e: Event, notice: Notice) {
    && (forall code :: notice == Reply(code) <==> e.Receive? && e.parsed.Some? && e.parsed.value.flags % 16 == code)
    && (notice == Timeout <==> e.Expire?)
    && (notice == Cancelled <==> e.Destroy? || e.CancelQuery?)
  }

  // ---------------------------------------------------------------------
  // Invariant: the last deciding event of each request
  // ---------------------------------------------------------------------

  /** The completion is that which the event began. */
  predicate Fits(ending: Ending, c: Option<Event>) {
    && c.Some?
    && match ending
       case Answered(response, _) => c.value.Receive? && c.value.parsed == Some(response)
       case TimedOut => c.value.Expire?
       case Destroyed(_) => c.value.Destroy?
  }

  /** The event c has decided request t, so far as it is decided. */
  ghost predicate Decided(q: Queries, t: Ticket, c: Option<Event>) {
    t < |q.fates| ==>
      match q.fates[t]
      case Held(m) => m in q.nodes && (QueryOf(q, m) in q.completing ==> Fits(q.completing[QueryOf(q, m)].ending, c))
      case InCompletion(n) => n in q.completing && Fits(q.completing[n].ending, c)
      case InCancel => c.Some? && c.value.CancelQuery?
      case Delivered(i) => i < |q.log| && c.Some? && TellsOf(c.value, q.log[i].1)
      case Dropped => true
  }

  /** A request held for query n is now decided by e. */
  function Decide(q: Queries, t: Ticket, n: NodeId, e: Event, c: Option<Event>): Option<Event> {
    if t < |q.fates| && q.fates[t].Held? && q.fates[t].node in q.nodes && QueryOf(q, q.fates[t].node) == n then Some(e) else c
  }

  // ---------------------------------------------------------------------
  // Steps that decide nothing
  // ---------------------------------------------------------------------

  /** Requests stay where they are, under the same queries, and new ones are held for pending queries. */
  ghost predicate Undisturbed(q: Queries, r: Queries) {
    && |q.fates| <= |r.fates| && r.log == q.log
    && (forall t :: 0 <= t < |q.fates| ==> r.fates[t] == q.fates[t])
    && (forall t :: |q.fates| <= t < |r.fates| ==>
          r.fates[t].Held? && r.fates[t].node in r.nodes && QueryOf(r, r.fates[t].node) !in r.completing)
    && (forall m :: m in q.nodes && q.nodes[m].cb.Live? ==> m in r.nodes && QueryOf(r, m) == QueryOf(q, m))
    && (forall n :: n in r.completing ==> n in q.completing && r.completing[n].ending == q.completing[n].ending)
    && (forall n :: n in q.completing && q.completing[n].inFlight.Some? ==> n in r.completing)
  }

  lemma UndisturbedDecided(q: Queries, r: Queries, t: Ticket, c: Option<Event>)
    requires QI.Tickets(q) && Undisturbed(q, r) && Decided(q, t, c)
    ensures Decided(r, t, c)
  {
    hide Fits, TellsOf, QueryOf;
    if t < |q.fates| { assert QI.Located(q, t, q.fates[t]); }
  }

  lemma RetransmitUndisturbed(q: Queries, n: NodeId)
    requires n in q.nodes
    ensures Undisturbed(q, Retransmit(q, n))
  {
  }

  lemma FinishUndisturbed(q: Queries, n: NodeId)
    requires QI.Lists(q) && QI.Notified(q) && QI.CanFinish(q, n)
    ensures Undisturbed(q, Finish(q, n))
  {
    hide QI.Notified;
    var r := Finish(q, n);
    forall m | m in q.nodes && q.nodes[m].cb.Live? ensures m in r.nodes && QueryOf(r, m) == QueryOf(q, m) {
      MembersAreSilent(q, n, m);
    }
  }

  /** A new node that is a pending query, or a child of one, or free. */
  lemma NewNodeUndisturbed(q: Queries, r: Queries, n: NodeId, node: Node)
    requires r.nodes == q.nodes[n := node] && r.completing == q.completing && r.log == q.log
    requires n in q.nodes ==> !q.nodes[n].cb.Live?
    requires n !in q.completing && (node.place.ChildOf? ==> node.place.parent !in q.completing)
    requires r.fates == q.fates || r.fates == q.fates + [Held(n)]
    ensures Undisturbed(q, r)
  {
  }

  lemma EnqueueUndisturbed(s: State, now: Time, key: Key, hasCb: bool, id: nat, sel: Selection, env: TxEnv)
    requires QI.Valid(s.cfg, s.q) && (key in s.q.byKey ==> s.q.byKey[key] in s.q.nodes)
    ensures Undisturbed(s.q, Enqueue(s, now, key, hasCb, id, sel, env).q)
  {
    hide QI.Valid, Undisturbed, NsAfterTransmit, TransmitOk, Join, Begin, Refuse;
    QI.AllocatedIsUnused(s.cfg, s.q);
    if key in s.q.byKey {
      ByKeyIsPending(s.cfg, s.q, key);
      JoinUndisturbed(s.q, key, hasCb);
    } else {
      NewUndisturbed(s.q, key, id, hasCb);
    }
  }

  lemma ByKeyIsPending(cfg: Settings, q: Queries, key: Key)
    requires QI.Valid(cfg, q) && key in q.byKey
    ensures q.byKey[key] in q.nodes && q.byKey[key] !in q.completing && q.byKey[key] != AllocId(q)
  {
    QI.AllocatedIsUnused(cfg, q);
    hide QI.Families, QI.Tickets, QI.Notified, QI.Retrying;
  }

  lemma NewUndisturbed(q: Queries, key: Key, id: nat, hasCb: bool)
    requires QI.Unused(q, AllocId(q))
    ensures Undisturbed(q, Begin(q, key, id, hasCb)) && Undisturbed(q, Refuse(q, hasCb))
  {
    hide Undisturbed, Begin;
    BeginUndisturbed(q, key, id, hasCb);
    NewNodeUndisturbed(q, Refuse(q, hasCb), AllocId(q),
      Node(0, NO_KEY, 0, false, if hasCb then Refused else NoCallback, [], Free, false));
  }

  lemma BeginUndisturbed(q: Queries, key: Key, id: nat, hasCb: bool)
    requires QI.Unused(q, AllocId(q))
    ensures Undisturbed(q, Begin(q, key, id, hasCb))
  {
    hide Undisturbed;
    NewNodeUndisturbed(q, Begin(q, key, id, hasCb), AllocId(q),
      Node(id, key, 1, true, if hasCb then Live(|q.fates|) else NoCallback, [], Pending, false));
  }

  lemma JoinUndisturbed(q: Queries, key: Key, hasCb: bool)
    requires QI.Unused(q, AllocId(q)) && key in q.byKey && q.byKey[key] in q.nodes && q.byKey[key] !in q.completing
    requires q.byKey[key] != AllocId(q)
    ensures Undisturbed(q, Join(q, key, hasCb))
  {
    hide Undisturbed;
    var p, n := q.byKey[key], AllocId(q);
    var parent := q.nodes[p];
    var grown := q.(nodes := q.nodes[p := parent.(children := parent.children + [n])]);
    assert Undisturbed(q, grown) by { GrownUndisturbed(q, p, n); }
    var node := Node(0, NO_KEY, 0, false, if hasCb then Live(|q.fates|) else NoCallback, [], ChildOf(p, |parent.children|), false);
    var r := Join(q, key, hasCb);
    assert r.nodes == grown.nodes[n := node];
    NewNodeUndisturbed(grown, r, n, node);
    UndisturbedTwice(q, grown, r);
  }

  lemma GrownUndisturbed(q: Queries, p: NodeId, n: NodeId)
    requires p in q.nodes
    ensures Undisturbed(q, q.(nodes := q.nodes[p := q.nodes[p].(children := q.nodes[p].children + [n])]))
  {
  }

  lemma UndisturbedTwice(q: Queries, q1: Queries, r: Queries)
    requires Undisturbed(q, q1) && Undisturbed(q1, r) && q1.fates == q.fates && q1.completing == q.completing
    requires forall m :: m in q.nodes && q.nodes[m].cb.Live? ==> m in q1.nodes && q1.nodes[m].cb == q.nodes[m].cb
    ensures Undisturbed(q, r)
  {
    hide QueryOf;
  }

  // ---------------------------------------------------------------------
  // Steps that do
  // ---------------------------------------------------------------------

  lemma CancelDecides(q: Queries, n: NodeId, notify: bool, dispatched: bool, t: Ticket, c: Option<Event>, e: Event)
    requires QI.Tickets(q) && n in q.nodes && Decided(q, t, c) && e.CancelQuery?
    ensures Decided(Cancel(q, n, notify, dispatched), t, if q.nodes[n].cb == Live(t) then Some(e) else c)
  {
    hide Fits, TellsOf;
    if t < |q.fates| { assert QI.Located(q, t, q.fates[t]); }
  }

  lemma CancelCallTells(q: Queries, u: Ticket, t: Ticket, c: Option<Event>)
    requires QI.Tickets(q) && u in q.cancelling && u < |q.fates| && Decided(q, t, c)
    ensures Decided(CancelCall(q, u), t, c)
  {
    hide Fits;
    if t < |q.fates| { assert QI.Located(q, t, q.fates[t]); }
  }

  lemma CompleteDecides(q: Queries, n: NodeId, ending: Ending, t: Ticket, c: Option<Event>, e: Event)
    requires QI.Lists(q) && QI.Tickets(q) && n in q.nodes && q.nodes[n].place == Pending
    requires Decided(q, t, c) && Fits(ending, Some(e))
    ensures Decided(Complete(q, n, ending), t, Decide(q, t, n, e, c))
  {
    hide Fits, TellsOf;
    if t < |q.fates| { assert QI.Located(q, t, q.fates[t]); }
  }

  lemma TakeNextDecided(q: Queries, n: NodeId, t: Ticket, c: Option<Event>)
    requires QI.Families(q) && QI.Lists(q) && QI.Tickets(q) && QI.CanTakeNext(q, n) && Decided(q, t, c)
    ensures Decided(TakeNext(q, n), t, c)
  {
    hide Fits, TellsOf, QI.Families, QI.Lists, QI.Tickets;
    MemberIsOf(q, n);
    if t < |q.fates| { HeldOnce(q, t, Member(q, n, q.completing[n].next)); }
  }

  lemma MemberIsOf(q: Queries, n: NodeId)
    requires QI.Families(q) && QI.Lists(q) && QI.CanTakeNext(q, n)
    ensures QueryOf(q, Member(q, n, q.completing[n].next)) == n
  {
    var k := q.completing[n].next;
    if k > 0 { assert q.nodes[q.nodes[n].children[k - 1]].place == ChildOf(n, k - 1); }
  }

  lemma HeldOnce(q: Queries, t: Ticket, m: NodeId)
    requires QI.Tickets(q) && t < |q.fates| && m in q.nodes
    ensures QI.Located(q, t, q.fates[t])
    ensures q.nodes[m].cb.Live? ==> q.nodes[m].cb.ticket < |q.fates| && q.fates[q.nodes[m].cb.ticket] == Held(m)
  {
  }

  lemma CallTells(q: Queries, n: NodeId, pkt: Packet, t: Ticket, c: Option<Event>)
    requires QI.Tickets(q) && n in q.completing && q.completing[n].inFlight.Some? && q.completing[n].inFlight.value < |q.fates|
    requires Decided(q, t, c)
    ensures Decided(Call(q, n, pkt), t, c)
  {
    if t < |q.fates| { assert QI.Located(q, t, q.fates[t]); }
  }

  lemma CollectDecides(q: Queries, n: NodeId, notify: bool, t: Ticket, c: Option<Event>, e: Event)
    requires QI.Lists(q) && QI.Tickets(q) && n in q.nodes && q.nodes[n].place == Pending
    requires Decided(q, t, c) && e.Destroy?
    ensures Decided(Collect(q, n, notify), t, Decide(q, t, n, e, c))
  {
    hide TellsOf;
    if t < |q.fates| { assert QI.Located(q, t, q.fates[t]); }
  }

  /** All pending queries are collected, and with them the requests that wait for them. */
  lemma {:induction false} CollectAllDecides(cfg: Settings, q: Queries, order: seq<NodeId>, notify: bool, t: Ticket,
                                             c: Option<Event>, e: Event)
    requires QI.Valid(cfg, q) && IsOrder(q, order) && Decided(q, t, c) && e.Destroy?
    ensures Decided(CollectAll(q, order, notify), t, if HeldFor(q, t, order) then Some(e) else c)
    decreases |order|
  {
    hide QI.Tables, QI.Families, QI.Lists, QI.Tickets, QI.Notified, QI.Retrying, Decided, Collect;
    if order != [] {
      var r := Collect(q, order[0], notify);
      CollectDecides(q, order[0], notify, t, c, e);
      QI.CollectKeepsValid(cfg, q, order[0], notify);
      CollectOrder(q, order, notify);
      CollectAllDecides(cfg, r, order[1..], notify, t, Decide(q, t, order[0], e, c), e);
      HeldForRest(q, t, order, notify);
    }
  }

  /** t is held for one of the queries. */
  predicate HeldFor(q: Queries, t: Ticket, ns: seq<NodeId>) {
    t < |q.fates| && q.fates[t].Held? && q.fates[t].node in q.nodes && QueryOf(q, q.fates[t].node) in ns
  }

  lemma HeldForRest(q: Queries, t: Ticket, order: seq<NodeId>, notify: bool)
    requires order != [] && order[0] in q.nodes && q.nodes[order[0]].place == Pending
    ensures HeldFor(q, t, order) <==> HeldFor(q, t, [order[0]]) || HeldFor(Collect(q, order[0], notify), t, order[1..])
  {
    assert order == [order[0]] + order[1..];
  }

  // ---------------------------------------------------------------------
  // Runs
  // ---------------------------------------------------------------------

  /** The queries that the step ends are those of the list. */
  ghost predicate EndsExactly(s: State, e: Event, ended: seq<NodeId>)
    requires Sound(s) && Enabled(s, e)
  {
    && (forall n :: n in ended ==> IsPending(s, n))
    && (forall n :: IsPending(s, n) ==> (n in ended <==> !IsPending(Apply(s, e), n)))
  }

  lemma DecidesHeld(s: State, e: Event, ended: seq<NodeId>, t: Ticket)
    requires Sound(s) && Enabled(s, e) && QI.Tickets(s.q) && !e.CancelQuery? && EndsExactly(s, e, ended)
    ensures Decides(s, e, t) <==> HeldFor(s.q, t, ended)
  {
    hide Sound, Enabled, Apply, IsPending, QueryOf;
    if t < |s.q.fates| { assert QI.Located(s.q, t, s.q.fates[t]); }
  }

  lemma EndsNone(s: State, e: Event)
    requires Good(s) && Sound(s) && Enabled(s, e)
    requires e.Start? || e.FinishUp? || e.CallCancelled? || e.NotifyNext? || e.CallBack?
    ensures EndsExactly(s, e, [])
  {
    hide RC.Valid, Matched, Provenance, QI.Valid, Answers, Selected, SelectionOk, InitKey, Update, Enqueue, Finish, Saved;
    match e
    case Start(now, qtype, name, hasCb, id, sel, env) =>
      var key := InitKey(qtype, name);
      KeyIsSound(s, key);
      forall n | IsPending(s, n) ensures IsPending(Apply(s, e), n) {
        EnqueueKeepsPlace(s.(c := Remove(s.c, key)), n, now, key, hasCb, id, sel, env);
      }
    case FinishUp(m, now, dup) =>
      forall n | IsPending(s, n) ensures IsPending(Apply(s, e), n) { FinishKeepsPlace(s, m, n); }
    case _ =>
  }

  /** Only the query n is completed. */
  lemma EndsOne(s: State, e: Event, n: NodeId, ending: Ending)
    requires Sound(s) && Enabled(s, e) && IsPending(s, n) && Apply(s, e).q == Complete(s.q, n, ending)
    ensures EndsExactly(s, e, [n])
  {
    hide Sound, Enabled, Apply;
  }

  lemma EndsAll(s: State, e: Event)
    requires Sound(s) && Enabled(s, e) && e.Destroy?
    ensures EndsExactly(s, e, e.order)
  {
    hide Sound;
    forall n | IsPending(s, n) ensures n in e.order && !IsPending(Apply(s, e), n) {
      CollectedIsNotPending(s.q, e.order, e.notify, n);
    }
  }

  lemma UndisturbedStep(s: State, e: Event, t: Ticket, c: Option<Event>)
    requires Good(s) && Sound(s) && Enabled(s, e) && !e.CancelQuery? && Decided(s.q, t, c)
    requires Undisturbed(s.q, Apply(s, e).q) && EndsExactly(s, e, [])
    ensures Decided(Apply(s, e).q, t, if Decides(s, e, t) then Some(e) else c)
  {
    hide Sound, Enabled, Apply, Undisturbed, EndsExactly, Decides, Decided, RC.Valid, Matched, Provenance, QI.Tables,
      QI.Families, QI.Lists, QI.Tickets, QI.Notified, QI.Retrying;
    UndisturbedDecided(s.q, Apply(s, e).q, t, c);
    DecidesHeld(s, e, [], t);
  }

  lemma SameUndisturbed(s: State, e: Event)
    requires Sound(s) && Enabled(s, e) && Apply(s, e).q == s.q
    ensures Undisturbed(s.q, Apply(s, e).q) && EndsExactly(s, e, [])
  {
    hide Sound, Enabled, Apply;
  }

  lemma CompletedStep(s: State, e: Event, n: NodeId, ending: Ending, t: Ticket, c: Option<Event>)
    requires Good(s) && Sound(s) && Enabled(s, e) && !e.CancelQuery? && Decided(s.q, t, c) && IsPending(s, n)
    requires Apply(s, e).q == Complete(s.q, n, ending) && Fits(ending, Some(e))
    ensures Decided(Apply(s, e).q, t, if Decides(s, e, t) then Some(e) else c)
  {
    hide Sound, Enabled, Apply, EndsExactly, Decides, Decided, RC.Valid, Matched, Provenance, QI.Tables, Complete, Fits,
      QI.Families, QI.Lists, QI.Tickets, QI.Notified, QI.Retrying;
    CompleteDecides(s.q, n, ending, t, c, e);
    EndsOne(s, e, n, ending);
    DecidesHeld(s, e, [n], t);
  }

  lemma ExpiryStep(s: State, e: Event, t: Ticket, c: Option<Event>)
    requires Good(s) && Sound(s) && Enabled(s, e) && e.Expire? && Decided(s.q, t, c)
    ensures Decided(Apply(s, e).q, t, if Decides(s, e, t) then Some(e) else c)
  {
    hide RC.Valid, Matched, Provenance, QI.Valid, Decides, Decided, EndsExactly, Undisturbed, Complete, Retransmit, TransmitOk,
      NsAfterTransmit, SelectionOk;
    var n := e.n;
    if s.q.nodes[n].id in s.q.byId { ByIdIsPending(s.cfg, s.q, s.q.nodes[n].id); }
    if Apply(s, e).q == s.q {
      SameUndisturbed(s, e);
      UndisturbedStep(s, e, t, c);
    } else if Apply(s, e).q == Retransmit(s.q, n) {
      RetransmitUndisturbed(s.q, n);
      RetransmitEndsNone(s, e);
      UndisturbedStep(s, e, t, c);
    } else {
      CompletedStep(s, e, n, TimedOut, t, c);
    }
  }

  lemma RetransmitEndsNone(s: State, e: Event)
    requires Sound(s) && Enabled(s, e) && e.Expire? && Apply(s, e).q == Retransmit(s.q, e.n)
    ensures EndsExactly(s, e, [])
  {
    hide Sound, OnTimeout;
  }

  lemma ReceiptStep(s: State, e: Event, t: Ticket, c: Option<Event>)
    requires Good(s) && Sound(s) && Enabled(s, e) && e.Receive? && Decided(s.q, t, c)
    ensures Decided(Apply(s, e).q, t, if Decides(s, e, t) then Some(e) else c)
  {
    hide RC.Valid, Matched, Provenance, QI.Valid, Decides, Decided, EndsExactly, Undisturbed, Complete, Answers, AfterReport;
    if Apply(s, e).q == s.q {
      SameUndisturbed(s, e);
      UndisturbedStep(s, e, t, c);
    } else {
      var pkt := e.parsed.value;
      ByIdIsPending(s.cfg, s.q, pkt.id);
      CompletedStep(s, e, s.q.byId[pkt.id], Answered(pkt, pkt), t, c);
    }
  }

  lemma DestroyStep(s: State, e: Event, t: Ticket, c: Option<Event>)
    requires Good(s) && Sound(s) && Enabled(s, e) && e.Destroy? && Decided(s.q, t, c)
    ensures Decided(Apply(s, e).q, t, if Decides(s, e, t) then Some(e) else c)
  {
    hide Sound, RC.Valid, Matched, Provenance, QI.Tables, QI.Families, QI.Lists, QI.Tickets, QI.Notified, QI.Retrying,
      Decides, Decided, EndsExactly, IsOrder, CollectAll, HeldFor;
    CollectAllDecides(s.cfg, s.q, e.order, e.notify, t, c, e);
    EndsAll(s, e);
    DecidesHeld(s, e, e.order, t);
  }

  lemma CancelStep(s: State, e: Event, t: Ticket, c: Option<Event>)
    requires Good(s) && Sound(s) && Enabled(s, e) && e.CancelQuery? && Decided(s.q, t, c)
    ensures Decided(Apply(s, e).q, t, if Decides(s, e, t) then Some(e) else c)
  {
    hide Sound, RC.Valid, Matched, Provenance, QI.Tables, QI.Families, QI.Lists, QI.Tickets, QI.Notified, QI.Retrying,
      Decided, Cancel;
    CancelDecides(s.q, e.n, e.notify, e.dispatched, t, c, e);
  }

  /** Steps of a completion, and requests: none of them ends a query. */
  lemma OtherStep(s: State, e: Event, t: Ticket, c: Option<Event>)
    requires Good(s) && Sound(s) && Enabled(s, e) && Decided(s.q, t, c)
    requires e.Start? || e.FinishUp? || e.CallCancelled? || e.NotifyNext? || e.CallBack?
    ensures Decided(Apply(s, e).q, t, if Decides(s, e, t) then Some(e) else c)
  {
    hide RC.Valid, Matched, Provenance, QI.Tables, QI.Families, QI.Lists, QI.Tickets, QI.Notified, QI.Retrying, SelectionOk,
      Decides, Decided, EndsExactly, Undisturbed, Enqueue, Remove, Hit, InitKey, Saved, Finish, TakeNext, Call, CancelCall, IsDup;
    EndsNone(s, e);
    DecidesHeld(s, e, [], t);
    match e
    case Start(now, qtype, name, hasCb, id, sel, env) =>
      var key := InitKey(qtype, name);
      KeyIsSound(s, key);
      EnqueueUndisturbed(s.(c := Remove(s.c, key)), now, key, hasCb, id, sel, env);
      if Apply(s, e).q == s.q { SameUndisturbed(s, e); }
      UndisturbedStep(s, e, t, c);
    case FinishUp(n, now, dup) =>
      FinishUndisturbed(s.q, n);
      UndisturbedStep(s, e, t, c);
    case CallCancelled(u) => CancelCallTells(s.q, u, t, c);
    case NotifyNext(n) => TakeNextDecided(s.q, n, t, c);
    case CallBack(n, pkt) => CallTells(s.q, n, pkt, t, c);
  }

  lemma StepDecides(s: State, e: Event, t: Ticket, c: Option<Event>)
    requires Good(s) && Sound(s) && Enabled(s, e) && Decided(s.q, t, c)
    ensures Decided(Apply(s, e).q, t, if Decides(s, e, t) then Some(e) else c)
  {
    hide Good, Sound, Enabled, Decides, Decided;
    if e.Expire? {
      ExpiryStep(s, e, t, c);
    } else if e.Receive? {
      ReceiptStep(s, e, t, c);
    } else if e.Destroy? {
      DestroyStep(s, e, t, c);
    } else if e.CancelQuery? {
      CancelStep(s, e, t, c);
    } else if e.Start? || e.FinishUp? || e.CallCancelled? || e.NotifyNext? || e.CallBack? {
      OtherStep(s, e, t, c);
    } else {
      QueriesKept(s, e);
      SameUndisturbed(s, e);
      UndisturbedStep(s, e, t, c);
    }
  }

  lemma QueriesKept(s: State, e: Event)
    requires Sound(s) && Enabled(s, e) && (e.ReaderReturns? || e.Inject? || e.Configure?)
    ensures Apply(s, e).q == s.q
  {
    hide Sound, Update, Done, EntryKey, IsDup;
  }

  lemma {:induction false} RunDecides(s: State, evs: seq<Event>, s2: State, t: Ticket, c: Option<Event>)
    requires Good(s) && Runs(s, evs, s2) && Decided(s.q, t, c)
    ensures Good(s2) && Decided(s2.q, t, if Decider(s, evs, t).Some? then Decider(s, evs, t) else c)
    decreases |evs|
  {
    hide Good, Sound, Enabled, Apply, Decides, Decided;
    if evs != [] {
      StepDecides(s, evs[0], t, c);
      StepKeepsGood(s, evs[0]);
      RunDecides(Apply(s, evs[0]), evs[1..], s2, t, if Decides(s, evs[0], t) then Some(evs[0]) else c);
    }
  }

  lemma LogIsDecided(s: State, i: nat, c: Option<Event>)
    requires Good(s) && i < |s.q.log| && Decided(s.q, s.q.log[i].0, c)
    ensures c.Some? && TellsOf(c.value, s.q.log[i].1)
  {
    hide RC.Valid, Matched, Provenance, QI.Tables, QI.Families, QI.Lists, QI.Notified, QI.Retrying, TellsOf;
  }

  /**
   * In every run: a callback is told the code of a response exactly if a
   * response with that code ended the query that it waited for, of a timeout
   * exactly if an expiry did, and that it is cancelled exactly if destroy did
   * or a cancel of its request took it first.
   */
  lemma CallbacksAreTold(cfg: Settings, evs: seq<Event>, s: State, i: nat)
    requires Runs(Init(cfg), evs, s) && i < |s.q.log|
    ensures var decider := Decider(Init(cfg), evs, s.q.log[i].0);
            decider.Some? && TellsOf(decider.value, s.q.log[i].1)
  {
    hide Good, Runs, Decider, TellsOf;
    InitIsGood(cfg);
    RunDecides(Init(cfg), evs, s, s.q.log[i].0, None);
    LogIsDecided(s, i, Decider(Init(cfg), evs, s.q.log[i].0));
  }

  // ---------------------------------------------------------------------
  // The response that decides answers the request
  // ---------------------------------------------------------------------

  lemma DecidedByAnswer(s: State, e: Event, t: Ticket, asked: seq<Key>)
    requires Good(s) && Sound(s) && Enabled(s, e) && e.Receive? && Decides(s, e, t) && Asking(s.q, asked)
    ensures t < |asked| && e.parsed.Some? && e.parsed.value.flags / 0x8000 % 2 == 1 && Answers(e.parsed.value, asked[t])
    ensures s.cfg.disableSrcCheck || exists i :: 0 <= i < |s.ns| && s.ns[i].addr == e.src
  {
    hide Answers, AfterReport, RC.Valid, Matched, Provenance, QI.Valid, Complete;
    var m :| m in s.q.nodes && s.q.nodes[m].cb == Live(t) && IsPending(s, QueryOf(s.q, m)) && !IsPending(Apply(s, e), QueryOf(s.q, m));
    var n, pkt := QueryOf(s.q, m), e.parsed.value;
    ByIdIsPending(s.cfg, s.q, pkt.id);
    CompletedAlone(s, s.q.byId[pkt.id], Answered(pkt, pkt), n);
  }

  lemma CompletedAlone(s: State, k: NodeId, ending: Ending, n: NodeId)
    requires k in s.q.nodes && IsPending(s, n)
    ensures n != k ==> n in Complete(s.q, k, ending).nodes && Complete(s.q, k, ending).nodes[n].place == Pending
  {
  }

  lemma {:induction false} DeciderAnswers(s: State, evs: seq<Event>, s2: State, t: Ticket, asked: seq<Key>)
    requires Good(s) && Runs(s, evs, s2) && Asking(s.q, asked)
    requires Decider(s, evs, t).Some? && Decider(s, evs, t).value.Receive?
    ensures var e := Decider(s, evs, t).value;
            && t < |asked + Asked(s, evs)| && e.parsed.Some? && e.parsed.value.flags / 0x8000 % 2 == 1
            && Answers(e.parsed.value, (asked + Asked(s, evs))[t])
    decreases |evs|
  {
    hide Good, Sound, Enabled, Apply, Decides, Asking, Answers, NewKeys;
    var s1, added := Apply(s, evs[0]), NewKeys(s, evs[0]);
    assert asked + added + Asked(s1, evs[1..]) == asked + Asked(s, evs);
    if Decider(s1, evs[1..], t).Some? {
      StepAsks(s, evs[0], asked);
      StepKeepsGood(s, evs[0]);
      DeciderAnswers(s1, evs[1..], s2, t, asked + added);
    } else {
      DecidedByAnswer(s, evs[0], t, asked);
    }
  }

  /**
   * In every run: a callback that has been told the code of a response was
   * told of one that answers the question in the call it was given in.
   */
  lemma RepliesAreAnswers(cfg: Settings, evs: seq<Event>, s: State, i: nat)
    requires Runs(Init(cfg), evs, s) && i < |s.q.log| && s.q.log[i].1.Reply?
    ensures var t, requests := s.q.log[i].0, Requested(Init(cfg), evs);
            && t < |requests| && Decider(Init(cfg), evs, t).Some?
            && var e := Decider(Init(cfg), evs, t).value;
               && e.Receive? && e.parsed.Some? && e.parsed.value.flags / 0x8000 % 2 == 1
               && s.q.log[i].1 == Reply(e.parsed.value.flags % 16)
               && IsAnswerTo(e.parsed.value, requests[t].qtype, requests[t].name)
  {
    hide Good, Runs, Decider, Asked, Requested, Asking, Answers, IsAnswerTo, InitKey;
    var t, requests := s.q.log[i].0, Requested(Init(cfg), evs);
    CallbacksAreTold(cfg, evs, s, i);
    NothingIsAsking(cfg);
    assert s.q.log[i].1 == Reply(s.q.log[i].1.rcode);
    DeciderAnswers(Init(cfg), evs, s, t, []);
    assert [] + Asked(Init(cfg), evs) == Asked(Init(cfg), evs);
    AskedIsRequested(Init(cfg), evs);
    AnswersExactly(Decider(Init(cfg), evs, t).value.parsed.value, requests[t].qtype, requests[t].name);
  }

  lemma NothingIsAsking(cfg: Settings)
    ensures Good(Init(cfg)) && Asking(Init(cfg).q, [])
  {
    InitIsGood(cfg);
  }
}
