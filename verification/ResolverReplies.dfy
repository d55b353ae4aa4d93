/** Every callback is told about the question that its own request asked. */
module ResolverReplies {
  import opened Bytes
  import opened Dns
  import opened NameServers
  import opened ResponseCache
  import opened Queries
  import opened ResolverRuns
  import QI = QueryInvariant
  import RC = ResponseCache

  // ---------------------------------------------------------------------
  // Answers to a question
  // ---------------------------------------------------------------------

  /** The same octet, or one letter in both cases. */
  predicate SameLetter(c: byte, d: byte) {
    c == d || (65 <= c <= 90 && d == c + 32) || (65 <= d <= 90 && c == d + 32)
  }

  /** text is name, or as much of it as precedes its first NUL, up to letter case. */
  predicate SameText(text: Name, name: Name) {
    && |text| <= |name| && (|text| < |name| ==> name[|text|] == 0)
    && forall i :: 0 <= i < |text| ==> text[i] != 0 && SameLetter(text[i], name[i])
  }

  /**
   * The packet answers the question about name: it repeats the question, in
   * class IN and up to letter case, or has none and an error code.
   */
  predicate IsAnswerTo(pkt: Packet, qtype: nat, name: Name) {
    || (pkt.questions == [] && pkt.flags % 16 != 0)
    || (pkt.questions != [] && pkt.questions[0].qclass == 1 && pkt.questions[0].qtype == qtype
        && SameText(pkt.questions[0].name, name))
  }

  lemma {:induction false} CStringIs(b: bytes, k: nat)
    requires k < |b| && 0 !in b[..k] && b[k] == 0
    ensures CString(b) == b[..k]
    decreases k
  {
    if k > 0 {
      assert b[0] == b[..k][0] && b[1..][..k - 1] == b[..k][1..];
      CStringIs(b[1..], k - 1);
    }
  }

  /** The first NUL of a name, or its end. */
  lemma {:induction false} FirstNul(name: Name) returns (k: nat)
    ensures k <= |name| && 0 !in name[..k] && (k < |name| ==> name[k] == 0)
  {
    if name == [] || name[0] == 0 {
      k := 0;
    } else {
      k := FirstNul(name[1..]);
      k := k + 1;
      assert name[..k] == [name[0]] + name[1..][..k - 1];
    }
  }

  lemma KeyText(qtype: nat, name: Name, k: nat)
    requires |name| < MAX_HOSTNAME && k <= |name| && 0 !in name[..k] && (k < |name| ==> name[k] == 0)
    ensures var text := CString(InitKey(qtype, name).name);
            |text| == k && forall i :: 0 <= i < k ==> text[i] == Lower(name[i])
  {
    var b := InitKey(qtype, name).name;
    assert forall i :: 0 <= i < k ==> b[i] == Lower(name[..k][i]) != 0;
    CStringIs(b, k);
  }

  lemma LowerIsSameLetter(c: byte, d: byte)
    ensures Lower(c) == Lower(Lower(d)) <==> SameLetter(c, d)
  {
  }

  lemma SameTextExactly(text: Name, name: Name, k: nat, low: Name)
    requires k <= |name| && 0 !in name[..k] && (k < |name| ==> name[k] == 0)
    requires |low| == k && forall i :: 0 <= i < k ==> low[i] == Lower(name[i])
    ensures SameName(text, low) <==> SameText(text, name)
  {
    assert forall i :: 0 <= i < k ==> name[i] == name[..k][i] != 0;
    assert forall i :: 0 <= i < k ==> low[i] != 0;
    forall c: byte, d: byte ensures Lower(c) == Lower(Lower(d)) <==> SameLetter(c, d) { LowerIsSameLetter(c, d); }
    if SameText(text, name) {
      assert |text| == k;
    }
    if SameName(text, low) { SameWithoutNul(text, low, k); }
  }

  lemma {:induction false} SameWithoutNul(a: Name, b: Name, k: nat)
    requires SameName(a, b) && k <= |b| && forall i :: 0 <= i < |b| ==> b[i] != 0
    ensures forall i :: 0 <= i < k ==> a[i] != 0 && Lower(a[i]) == Lower(b[i])
  {
    if k > 0 { SameWithoutNul(a, b, k - 1); }
  }

  /** For every type and every name that fits: what a response is accepted for. */
  lemma AnswersExactly(pkt: Packet, qtype: nat, name: Name)
    requires |name| < MAX_HOSTNAME && qtype < 0x1_0000
    ensures Answers(pkt, InitKey(qtype, name)) <==> IsAnswerTo(pkt, qtype, name)
  {
    hide SameName, SameText;
    var k := FirstNul(name);
    KeyText(qtype, name, k);
    if pkt.questions != [] { SameTextExactly(pkt.questions[0].name, name, k, CString(InitKey(qtype, name).name)); }
  }

  /** Without a NUL in the name this is equality up to letter case. */
  lemma SameTextWithoutNul(text: Name, name: Name)
    requires 0 !in name
    ensures SameText(text, name) <==> |text| == |name| && forall i :: 0 <= i < |name| ==> SameLetter(text[i], name[i])
  {
  }

  // ---------------------------------------------------------------------
  // What was asked
  // ---------------------------------------------------------------------

  /** The key that the request accepted in a step asks for, if one with a callback is accepted. */
  ghost function NewKeys(s: State, e: Event): seq<Key>
    requires Sound(s) && Enabled(s, e)
  {
    if e.Start? && |Apply(s, e).q.fates| > |s.q.fates| then [InitKey(e.qtype, e.name)] else []
  }

  /** The keys that the requests accepted in a run ask for, in the order of their tickets. */
  ghost function Asked(s: State, evs: seq<Event>): seq<Key>
    decreases |evs|
  {
    if evs != [] && Sound(s) && Enabled(s, evs[0]) then NewKeys(s, evs[0]) + Asked(Apply(s, evs[0]), evs[1..]) else []
  }

  datatype Request = Request(qtype: nat, name: Name)

  /** The request accepted in a step, if one with a callback is accepted. */
  ghost function NewRequests(s: State, e: Event): seq<Request>
    requires Sound(s) && Enabled(s, e)
  {
    if e.Start? && |Apply(s, e).q.fates| > |s.q.fates| then [Request(e.qtype, e.name)] else []
  }

  /** The types and names in the calls that were accepted in a run, in the order of their tickets. */
  ghost function Requested(s: State, evs: seq<Event>): seq<Request>
    decreases |evs|
  {
    if evs != [] && Sound(s) && Enabled(s, evs[0])
    then NewRequests(s, evs[0]) + Requested(Apply(s, evs[0]), evs[1..]) else []
  }

  /** The keys are those of the requests, which have names that fit. */
  ghost predicate KeysOf(asked: seq<Key>, requests: seq<Request>) {
    && |asked| == |requests|
    && forall i :: 0 <= i < |asked| ==>
         && 0 < |requests[i].name| < 254 && 0 < requests[i].qtype < 0xFFFF
         && asked[i] == InitKey(requests[i].qtype, requests[i].name)
  }

  lemma NewKeysOf(s: State, e: Event)
    requires Sound(s) && Enabled(s, e)
    ensures KeysOf(NewKeys(s, e), NewRequests(s, e))
  {
    hide Sound, Enabled, InitKey, Enqueue, Remove, Hit;
  }

  lemma {:induction false} AskedIsRequested(s: State, evs: seq<Event>)
    ensures KeysOf(Asked(s, evs), Requested(s, evs))
    decreases |evs|
  {
    hide Sound, Enabled, Apply, NewKeys, NewRequests, InitKey;
    if evs != [] && Sound(s) && Enabled(s, evs[0]) {
      NewKeysOf(s, evs[0]);
      AskedIsRequested(Apply(s, evs[0]), evs[1..]);
    }
  }

  /** The key a node's request is about: its own, or that of the query it has joined. */
  function KeyOf(q: Queries, n: NodeId): Key
    requires n in q.nodes
  {
    var node := q.nodes[n];
    if node.place.ChildOf? && node.place.parent in q.nodes then q.nodes[node.place.parent].key else node.key
  }

  /** Every callback that is held or in flight belongs to a request for the key of its query. */
  ghost predicate Asking(q: Queries, asked: seq<Key>) {
    && |asked| == |q.fates|
    && (forall n :: n in q.nodes && q.nodes[n].cb.Live? ==>
          q.nodes[n].cb.ticket < |asked| && asked[q.nodes[n].cb.ticket] == KeyOf(q, n))
    && (forall n :: n in q.completing && q.completing[n].inFlight.Some? ==>
          n in q.nodes && q.completing[n].inFlight.value < |asked| && asked[q.completing[n].inFlight.value] == q.nodes[n].key)
  }

  // ---------------------------------------------------------------------
  // Steps that move no callback to another query
  // ---------------------------------------------------------------------

  ghost predicate KeysKept(q: Queries, r: Queries) {
    && |r.fates| == |q.fates|
    && (forall n :: n in r.nodes && r.nodes[n].cb.Live? ==>
          n in q.nodes && q.nodes[n].cb == r.nodes[n].cb && KeyOf(r, n) == KeyOf(q, n))
    && (forall n :: n in r.completing && r.completing[n].inFlight.Some? ==>
          && n in q.completing && q.completing[n].inFlight == r.completing[n].inFlight
          && n in q.nodes && n in r.nodes && r.nodes[n].key == q.nodes[n].key)
  }

  lemma KeptAsking(q: Queries, r: Queries, asked: seq<Key>)
    requires Asking(q, asked) && KeysKept(q, r)
    ensures Asking(r, asked)
  {
    hide KeyOf;
  }

  lemma CancelKeeps(q: Queries, n: NodeId, notify: bool, dispatched: bool)
    requires QI.Lists(q) && n in q.nodes
    ensures KeysKept(q, Cancel(q, n, notify, dispatched))
  {
  }

  lemma CancelCallKeeps(q: Queries, t: Ticket)
    requires QI.Lists(q) && t in q.cancelling && t < |q.fates|
    ensures KeysKept(q, CancelCall(q, t))
  {
  }

  lemma RetransmitKeeps(q: Queries, n: NodeId)
    requires QI.Lists(q) && n in q.nodes
    ensures KeysKept(q, Retransmit(q, n))
  {
  }

  lemma CallKeeps(q: Queries, n: NodeId, pkt: Packet)
    requires QI.Lists(q) && n in q.completing && q.completing[n].inFlight.Some? && q.completing[n].inFlight.value < |q.fates|
    ensures KeysKept(q, Call(q, n, pkt))
  {
  }

  /** One node changes, and keeps its key and its callback, and stays a child or none. */
  lemma ChangedKeeps(q: Queries, r: Queries, n: NodeId, node: Node)
    requires n in q.nodes && r.nodes == q.nodes[n := node] && |r.fates| == |q.fates|
    requires node.key == q.nodes[n].key && (node.cb == q.nodes[n].cb || !node.cb.Live?)
    requires node.place == q.nodes[n].place || (!node.place.ChildOf? && !q.nodes[n].place.ChildOf?)
    requires forall m :: m in r.completing && r.completing[m].inFlight.Some? ==>
               m in q.completing && q.completing[m].inFlight == r.completing[m].inFlight && m in q.nodes
    ensures KeysKept(q, r)
  {
  }

  lemma CollectKeeps(q: Queries, n: NodeId, notify: bool)
    requires QI.Lists(q) && n in q.nodes && q.nodes[n].place == Pending
    ensures KeysKept(q, Collect(q, n, notify))
  {
    hide KeysKept;
    ChangedKeeps(q, Collect(q, n, notify), n, q.nodes[n].(place := Completing, timerOn := false));
  }

  lemma FinishKeeps(q: Queries, n: NodeId)
    requires QI.Families(q) && QI.Lists(q) && QI.Notified(q) && QI.CanFinish(q, n)
    ensures KeysKept(q, Finish(q, n))
  {
    hide QI.Families, QI.Notified;
    var r := Finish(q, n);
    forall m | m in r.nodes && r.nodes[m].cb.Live? ensures m in q.nodes && q.nodes[m].cb == r.nodes[m].cb && KeyOf(r, m) == KeyOf(q, m) {
      assert m in q.nodes;
      MembersAreSilent(q, n, m);
    }
  }

  /** A node that still has a callback is no member of a completion that is over. */
  lemma MembersAreSilent(q: Queries, n: NodeId, m: NodeId)
    requires QI.Notified(q) && QI.CanFinish(q, n) && m in q.nodes && q.nodes[m].cb.Live?
    ensures m != n && m !in q.nodes[n].children
  {
    assert forall i :: 0 <= i < |q.nodes[n].children| && q.nodes[n].children[i] in q.nodes ==>
             !q.nodes[q.nodes[n].children[i]].cb.Live?;
  }

  /** No node waits for one that is not in use. */
  lemma NoChildren(q: Queries)
    requires QI.Families(q) && QI.Unused(q, AllocId(q))
    ensures forall c :: c in q.nodes && q.nodes[c].place.ChildOf? ==> q.nodes[c].place.parent != AllocId(q)
    ensures AllocId(q) !in q.completing
  {
    hide AllocId;
  }

  lemma InFlightNodes(q: Queries)
    requires QI.Lists(q)
    ensures forall m :: m in q.completing ==> m in q.nodes
  {
  }

  // ---------------------------------------------------------------------
  // Steps that do
  // ---------------------------------------------------------------------

  lemma CompleteAsks(q: Queries, asked: seq<Key>, n: NodeId, ending: Ending)
    requires QI.Lists(q) && Asking(q, asked) && n in q.nodes && q.nodes[n].place == Pending
    ensures Asking(Complete(q, n, ending), asked)
  {
  }

  lemma TakeNextAsks(q: Queries, asked: seq<Key>, n: NodeId)
    requires QI.Families(q) && QI.Lists(q) && Asking(q, asked) && QI.CanTakeNext(q, n)
    ensures Asking(TakeNext(q, n), asked)
  {
    hide QI.Families, QI.Lists, Asking;
    var m := Member(q, n, q.completing[n].next);
    MemberAsks(q, n);
    InFlightNodes(q);
    TakenAsks(q, TakeNext(q, n), asked, n, m);
  }

  lemma MemberAsks(q: Queries, n: NodeId)
    requires QI.Families(q) && QI.Lists(q) && QI.CanTakeNext(q, n)
    ensures KeyOf(q, Member(q, n, q.completing[n].next)) == q.nodes[n].key
  {
    var k := q.completing[n].next;
    if k > 0 { assert q.nodes[q.nodes[n].children[k - 1]].place == ChildOf(n, k - 1); }
  }

  /** The callback of m is taken for the completion of n, whose key it asks for. */
  lemma TakenAsks(q: Queries, r: Queries, asked: seq<Key>, n: NodeId, m: NodeId)
    requires Asking(q, asked) && n in q.nodes && m in q.nodes && KeyOf(q, m) == q.nodes[n].key && |r.fates| == |q.fates|
    requires r.nodes == q.nodes[m := q.nodes[m].(cb := NoCallback)] && r.completing.Keys == q.completing.Keys
    requires forall i :: i in q.completing && i != n ==> r.completing[i] == q.completing[i]
    requires n in r.completing && r.completing[n].inFlight in {None, TicketOf(q, m)}
    ensures Asking(r, asked)
  {
    assert forall i :: i in r.completing <==> i in q.completing.Keys;
  }

  /** A new node, with a callback of a new request for key or without a callback. */
  lemma NewNodeAsks(q: Queries, r: Queries, asked: seq<Key>, n: NodeId, node: Node, key: Key, accepted: bool)
    requires Asking(q, asked) && n !in q.completing
    requires forall c :: c in q.nodes && q.nodes[c].place.ChildOf? ==> q.nodes[c].place.parent != n
    requires r.nodes == q.nodes[n := node] && r.completing == q.completing
    requires |r.fates| == |q.fates| + (if accepted then 1 else 0)
    requires if accepted then node.cb == Live(|q.fates|) else !node.cb.Live?
    requires if node.place.ChildOf? then var p := node.place.parent; p in q.nodes && p != n && q.nodes[p].key == key
             else node.key == key || !accepted
    ensures Asking(r, if accepted then asked + [key] else asked)
  {
  }

  lemma RefuseAsks(q: Queries, asked: seq<Key>, hasCb: bool)
    requires QI.Families(q) && QI.Unused(q, AllocId(q)) && Asking(q, asked)
    ensures Asking(Refuse(q, hasCb), asked)
  {
    hide QI.Unused, QI.Families, Asking;
    NoChildren(q);
    var node := Node(0, NO_KEY, 0, false, if hasCb then Refused else NoCallback, [], Free, false);
    NewNodeAsks(q, Refuse(q, hasCb), asked, AllocId(q), node, NO_KEY, false);
  }

  lemma BeginAsks(q: Queries, asked: seq<Key>, key: Key, id: nat, hasCb: bool)
    requires QI.Families(q) && QI.Unused(q, AllocId(q)) && Asking(q, asked)
    ensures Asking(Begin(q, key, id, hasCb), if hasCb then asked + [key] else asked)
  {
    hide QI.Unused, QI.Families, Asking;
    NoChildren(q);
    var node := Node(id, key, 1, true, if hasCb then Live(|q.fates|) else NoCallback, [], Pending, false);
    NewNodeAsks(q, Begin(q, key, id, hasCb), asked, AllocId(q), node, key, hasCb);
  }

  lemma JoinAsks(q: Queries, asked: seq<Key>, key: Key, hasCb: bool)
    requires QI.Lists(q) && QI.Families(q) && QI.Tables(q) && QI.Unused(q, AllocId(q)) && Asking(q, asked) && key in q.byKey
    ensures q.byKey[key] in q.nodes && Asking(Join(q, key, hasCb), if hasCb then asked + [key] else asked)
  {
    hide QI.Unused, QI.Families, QI.Tables, QI.Lists, Asking, KeysKept;
    NoChildren(q);
    InFlightNodes(q);
    PendingAsks(q, key);
    var p, n := q.byKey[key], AllocId(q);
    var parent := q.nodes[p];
    var node := Node(0, NO_KEY, 0, false, if hasCb then Live(|q.fates|) else NoCallback, [], ChildOf(p, |parent.children|), false);
    var r := Join(q, key, hasCb);
    var q1 := r.(nodes := q.nodes[n := node]);
    var asked' := if hasCb then asked + [key] else asked;
    NewNodeAsks(q, q1, asked, n, node, key, hasCb);
    ChangedKeeps(q1, r, p, parent.(children := parent.children + [n]));
    KeptAsking(q1, r, asked');
  }

  lemma PendingAsks(q: Queries, key: Key)
    requires QI.Tables(q) && QI.Unused(q, AllocId(q)) && key in q.byKey
    ensures q.byKey[key] in q.nodes && q.nodes[q.byKey[key]].key == key && q.byKey[key] != AllocId(q)
  {
  }

  // ---------------------------------------------------------------------
  // Runs
  // ---------------------------------------------------------------------

  lemma EnqueueAsks(s: State, asked: seq<Key>, now: Time, key: Key, hasCb: bool, id: nat, sel: Selection, env: TxEnv)
    requires QI.Valid(s.cfg, s.q) && Asking(s.q, asked) && (key in s.q.byKey ==> s.q.byKey[key] in s.q.nodes)
    ensures var r := Enqueue(s, now, key, hasCb, id, sel, env).q;
            Asking(r, if |r.fates| > |s.q.fates| then asked + [key] else asked)
  {
    hide QI.Tables, QI.Families, QI.Lists, QI.Tickets, QI.Notified, QI.Retrying, QI.Unused, Asking, NsAfterTransmit, TransmitOk;
    QI.AllocatedIsUnused(s.cfg, s.q);
    if key in s.q.byKey {
      JoinAsks(s.q, asked, key, hasCb);
    } else {
      RefuseAsks(s.q, asked, hasCb);
      BeginAsks(s.q, asked, key, id, hasCb);
    }
  }

  lemma {:induction false} CollectAllAsks(cfg: Settings, q: Queries, asked: seq<Key>, order: seq<NodeId>, notify: bool)
    requires QI.Valid(cfg, q) && Asking(q, asked) && IsOrder(q, order)
    ensures Asking(CollectAll(q, order, notify), asked)
    decreases |order|
  {
    hide QI.Tables, QI.Families, QI.Lists, QI.Tickets, QI.Notified, QI.Retrying, Asking, KeysKept, Collect;
    if order != [] {
      var r := Collect(q, order[0], notify);
      CollectKeeps(q, order[0], notify);
      KeptAsking(q, r, asked);
      QI.CollectKeepsValid(cfg, q, order[0], notify);
      CollectOrder(q, order, notify);
      CollectAllAsks(cfg, r, asked, order[1..], notify);
    }
  }

  /** A step that takes no request. */
  lemma OtherStepAsks(s: State, e: Event, asked: seq<Key>)
    requires Good(s) && Sound(s) && Enabled(s, e) && Asking(s.q, asked) && !e.Start?
    ensures Asking(Apply(s, e).q, asked)
  {
    hide RC.Valid, Matched, Provenance, QI.Tables, QI.Families, QI.Lists, QI.Tickets, QI.Notified, QI.Retrying, Asking, KeysKept,
      Answers, SelectionOk, Update, Saved, CollectAll, TransmitOk, NsAfterTransmit, Cancel, TakeNext, Call, CancelCall, Complete,
      Retransmit, Finish, IsOrder, IsDup, AfterReport;
    var q := s.q;
    match e
    case CancelQuery(n, notify, dispatched) =>
      CancelKeeps(q, n, notify, dispatched);
      KeptAsking(q, Cancel(q, n, notify, dispatched), asked);
    case CallCancelled(t) =>
      CancelCallKeeps(q, t);
      KeptAsking(q, CancelCall(q, t), asked);
    case Expire(n, now, sel, env) =>
      RetransmitKeeps(q, n);
      KeptAsking(q, Retransmit(q, n), asked);
      if q.nodes[n].id in q.byId {
        ByIdIsPending(s.cfg, q, q.nodes[n].id);
        CompleteAsks(q, asked, n, TimedOut);
      }
    case Receive(now, src, parsed) =>
      if parsed.Some? && parsed.value.id in q.byId {
        ByIdIsPending(s.cfg, q, parsed.value.id);
        CompleteAsks(q, asked, q.byId[parsed.value.id], Answered(parsed.value, parsed.value));
      }
    case NotifyNext(n) => TakeNextAsks(q, asked, n);
    case CallBack(n, pkt) =>
      CallKeeps(q, n, pkt);
      KeptAsking(q, Call(q, n, pkt), asked);
    case FinishUp(n, now, dup) =>
      FinishKeeps(q, n);
      KeptAsking(q, Finish(q, n), asked);
    case Destroy(order, notify) => CollectAllAsks(s.cfg, q, asked, order, notify);
    case _ =>
  }

  lemma StartAsks(s: State, e: Event, asked: seq<Key>)
    requires Good(s) && Sound(s) && Enabled(s, e) && Asking(s.q, asked) && e.Start?
    ensures Asking(Apply(s, e).q, asked + NewKeys(s, e))
  {
    hide RC.Valid, Matched, Provenance, QI.Valid, Asking, SelectionOk, Enqueue, Remove, Hit, InitKey;
    var key := InitKey(e.qtype, e.name);
    KeyIsSound(s, key);
    EnqueueAsks(s.(c := Remove(s.c, key)), asked, e.now, key, e.hasCb, e.id, e.sel, e.env);
    assert asked + [] == asked;
  }

  lemma StepAsks(s: State, e: Event, asked: seq<Key>)
    requires Good(s) && Sound(s) && Enabled(s, e) && Asking(s.q, asked)
    ensures Asking(Apply(s, e).q, asked + NewKeys(s, e))
  {
    hide Good, Sound, Enabled, Apply, Asking;
    if e.Start? {
      StartAsks(s, e, asked);
    } else {
      OtherStepAsks(s, e, asked);
      assert asked + [] == asked;
    }
  }

  lemma {:induction false} RunAsks(s: State, evs: seq<Event>, s2: State, asked: seq<Key>)
    requires Good(s) && Runs(s, evs, s2) && Asking(s.q, asked)
    ensures Asking(s2.q, asked + Asked(s, evs))
    decreases |evs|
  {
    hide Good, Sound, Enabled, Apply, Asking, NewKeys;
    if evs == [] {
      assert asked + [] == asked;
    } else {
      var s1, added := Apply(s, evs[0]), NewKeys(s, evs[0]);
      StepAsks(s, evs[0], asked);
      StepKeepsGood(s, evs[0]);
      RunAsks(s1, evs[1..], s2, asked + added);
      assert asked + added + Asked(s1, evs[1..]) == asked + (added + Asked(s1, evs[1..]));
    }
  }

  lemma AskingInRun(cfg: Settings, evs: seq<Event>, s: State)
    requires Runs(Init(cfg), evs, s)
    ensures Good(s) && Asking(s.q, Asked(Init(cfg), evs)) && KeysOf(Asked(Init(cfg), evs), Requested(Init(cfg), evs))
  {
    hide Good, Runs, Asked, Requested, KeysOf;
    InitIsGood(cfg);
    RunKeepsGood(Init(cfg), evs, s);
    RunAsks(Init(cfg), evs, s, []);
    assert [] + Asked(Init(cfg), evs) == Asked(Init(cfg), evs);
    AskedIsRequested(Init(cfg), evs);
  }

  /**
   * In every run: a callback that is held belongs to a request for the key of
   * the query that it waits for.
   */
  lemma HeldAsks(cfg: Settings, evs: seq<Event>, s: State, n: NodeId)
    requires Runs(Init(cfg), evs, s) && n in s.q.nodes && s.q.nodes[n].cb.Live?
    ensures var requests := Requested(Init(cfg), evs);
            && s.q.nodes[n].cb.ticket < |requests|
            && KeyOf(s.q, n) == InitKey(requests[s.q.nodes[n].cb.ticket].qtype, requests[s.q.nodes[n].cb.ticket].name)
  {
    hide Good, Runs, Asked, Requested, InitKey;
    AskingInRun(cfg, evs, s);
  }

  /**
   * In every run: a callback that is about to be told of a response is told of
   * one with the transaction id of its query, which answers the question of
   * the call that the callback was given in.
   */
  lemma RepliesAnswer(cfg: Settings, evs: seq<Event>, s: State, n: NodeId)
    requires Runs(Init(cfg), evs, s) && n in s.q.completing && s.q.completing[n].inFlight.Some?
    ensures n in s.q.nodes && s.q.completing[n].inFlight.value < |Requested(Init(cfg), evs)|
    ensures var c, asked := s.q.completing[n], Requested(Init(cfg), evs)[s.q.completing[n].inFlight.value];
            c.ending.Answered? ==>
              && c.ending.response.flags / 0x8000 % 2 == 1 && c.ending.response.id == s.q.nodes[n].id
              && IsAnswerTo(c.ending.response, asked.qtype, asked.name)
  {
    hide Good, Runs, Asked, Requested, Answers, InitKey, IsAnswerTo;
    AskingInRun(cfg, evs, s);
    DeliveryMatches(s, n);
    var c, asked := s.q.completing[n], Requested(Init(cfg), evs)[s.q.completing[n].inFlight.value];
    if c.ending.Answered? { AnswersExactly(c.ending.response, asked.qtype, asked.name); }
  }

  lemma DeliveryMatches(s: State, n: NodeId)
    requires Good(s) && n in s.q.completing && n in s.q.nodes && s.q.completing[n].inFlight.Some?
    ensures var c := s.q.completing[n];
            c.ending.Answered? ==>
              && c.ending.response.flags / 0x8000 % 2 == 1 && c.ending.response.id == s.q.nodes[n].id
              && Answers(c.ending.response, s.q.nodes[n].key)
  {
    hide QI.Valid, RC.Valid, Provenance, Answers;
  }
}
