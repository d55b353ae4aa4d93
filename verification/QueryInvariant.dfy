/** What every step of the query state machine keeps. */
module QueryInvariant {
  import opened Bytes
  import opened Dns
  import opened NameServers
  import opened ResponseCache
  import opened Queries

  /** The by-id and by-key tables hold exactly the pending queries, under their own ids and keys. */
  ghost predicate Tables(q: Queries) {
    && (forall id :: id in q.byId ==>
          id != 0 && q.byId[id] in q.nodes && q.nodes[q.byId[id]].place == Pending && q.nodes[q.byId[id]].id == id)
    && (forall k :: k in q.byKey ==>
          q.byKey[k] in q.nodes && q.nodes[q.byKey[k]].place == Pending && q.nodes[q.byKey[k]].key == k)
    && (forall n :: n in q.nodes && q.nodes[n].place == Pending ==>
          && q.nodes[n].id in q.byId && q.byId[q.nodes[n].id] == n
          && q.nodes[n].key in q.byKey && q.byKey[q.nodes[n].key] == n)
  }

  /** A child is on the list of exactly one parent, at one position. */
  ghost predicate Families(q: Queries) {
    && (forall p, i :: p in q.nodes && 0 <= i < |q.nodes[p].children| ==>
          q.nodes[p].children[i] in q.nodes && q.nodes[q.nodes[p].children[i]].place == ChildOf(p, i))
    && (forall c :: c in q.nodes && q.nodes[c].place.ChildOf? ==>
          var p, i := q.nodes[c].place.parent, q.nodes[c].place.index;
          p in q.nodes && i < |q.nodes[p].children| && q.nodes[p].children[i] == c)
    && (forall p :: p in q.nodes && q.nodes[p].children != [] ==> q.nodes[p].place in {Pending, Completing, Abandoned})
  }

  /** The free list holds every free node once; completions are those of the nodes being completed. */
  ghost predicate Lists(q: Queries) {
    && (forall n :: n in q.nodes <==> 0 <= n < q.nextNode)
    && (forall i :: 0 <= i < |q.free| ==> q.free[i] in q.nodes && q.nodes[q.free[i]].place == Free)
    && (forall i, j :: 0 <= i < j < |q.free| ==> q.free[i] != q.free[j])
    && (forall n :: n in q.nodes && q.nodes[n].place == Free ==> n in q.free)
    && (forall n :: n in q.completing ==>
          n in q.nodes && q.nodes[n].place == Completing && q.completing[n].next <= |q.nodes[n].children| + 1)
    && (forall n :: n in q.nodes && q.nodes[n].place == Completing ==> n in q.completing)
  }

  /** Every accepted request is in the one place its fate says. */
  ghost predicate Tickets(q: Queries) {
    && (forall n :: n in q.nodes && q.nodes[n].cb.Live? ==>
          q.nodes[n].cb.ticket < |q.fates| && q.fates[q.nodes[n].cb.ticket] == Held(n))
    && (forall n :: n in q.completing && q.completing[n].inFlight.Some? ==>
          q.completing[n].inFlight.value < |q.fates| && q.fates[q.completing[n].inFlight.value] == InCompletion(n))
    && (forall t :: t in q.cancelling ==> t < |q.fates| && q.fates[t] == InCancel)
    && (forall e :: 0 <= e < |q.log| ==> q.log[e].0 < |q.fates| && q.fates[q.log[e].0] == Delivered(e))
    && (forall t :: 0 <= t < |q.fates| ==> Located(q, t, q.fates[t]))
  }

  ghost predicate Located(q: Queries, t: Ticket, fate: Fate) {
    match fate
    case Held(n) => n in q.nodes && q.nodes[n].cb == Live(t)
    case InCompletion(n) => n in q.completing && q.completing[n].inFlight == Some(t)
    case InCancel => t in q.cancelling
    case Delivered(e) => e < |q.log| && q.log[e].0 == t
    case Dropped => true
  }

  /** Nodes that no step will notify any more hold no accepted callback. */
  ghost predicate Notified(q: Queries) {
    && (forall n :: n in q.nodes && q.nodes[n].place in {Free, Abandoned} ==> !q.nodes[n].cb.Live?)
    && (forall n :: n in q.nodes && n in q.completing && q.completing[n].next >= 1 ==> !q.nodes[n].cb.Live?)
    && (forall n, i :: n in q.nodes && 0 <= i < |q.nodes[n].children| && q.nodes[n].children[i] in q.nodes
          && (q.nodes[n].place == Abandoned || (n in q.completing && i + 1 < q.completing[n].next))
          ==> !q.nodes[q.nodes[n].children[i]].cb.Live?)
  }

  function MaxTransmits(cfg: Settings): nat {
    if cfg.qretrCount > 1 then cfg.qretrCount else 1
  }

  /** A pending query has transmissions left, and its timer armed unless a cancel has stopped it. */
  ghost predicate Retrying(cfg: Settings, q: Queries) {
    forall n :: n in q.nodes && q.nodes[n].place == Pending ==>
      1 <= q.nodes[n].transmitCnt <= MaxTransmits(cfg) && (q.nodes[n].timerOn <==> !q.nodes[n].stopped)
  }

  ghost predicate Valid(cfg: Settings, q: Queries) {
    Tables(q) && Families(q) && Lists(q) && Tickets(q) && Notified(q) && Retrying(cfg, q)
  }

  lemma NoneIsValid(cfg: Settings)
    ensures Valid(cfg, NONE)
  {
  }

  // ---------------------------------------------------------------------
  // Steps that leave every node where it is
  // ---------------------------------------------------------------------

  ghost predicate SameShape(q: Queries, r: Queries) {
    && r.nodes.Keys == q.nodes.Keys && r.byId == q.byId && r.byKey == q.byKey && r.free == q.free
    && r.nextNode == q.nextNode && r.completing.Keys == q.completing.Keys
    && (forall n :: n in q.nodes ==>
          && r.nodes[n].id == q.nodes[n].id && r.nodes[n].key == q.nodes[n].key
          && r.nodes[n].children == q.nodes[n].children && r.nodes[n].place == q.nodes[n].place)
    && (forall n :: n in q.completing && n in q.nodes ==> r.completing[n].next <= |q.nodes[n].children| + 1)
  }

  lemma ShapeFrame(q: Queries, r: Queries)
    requires Tables(q) && Families(q) && Lists(q) && SameShape(q, r)
    ensures Tables(r) && Families(r) && Lists(r)
  {
    ShapeFrameTables(q, r);
    ShapeFrameFamilies(q, r);
    ShapeFrameLists(q, r);
  }

  lemma ShapeFrameTables(q: Queries, r: Queries)
    requires Tables(q) && SameShape(q, r)
    ensures Tables(r)
  {
    assert forall n :: n in r.nodes <==> n in q.nodes.Keys;
  }

  lemma ShapeFrameFamilies(q: Queries, r: Queries)
    requires Families(q) && SameShape(q, r)
    ensures Families(r)
  {
    assert forall n :: n in r.nodes <==> n in q.nodes.Keys;
    assert forall n :: n in q.nodes ==> r.nodes[n].children == q.nodes[n].children && r.nodes[n].place == q.nodes[n].place;
  }

  lemma ShapeFrameLists(q: Queries, r: Queries)
    requires Lists(q) && SameShape(q, r)
    ensures Lists(r)
  {
    assert forall n :: n in r.nodes <==> n in q.nodes.Keys;
    assert forall n :: n in r.completing <==> n in q.completing.Keys;
  }

  lemma CancelKeepsTickets(q: Queries, n: NodeId, notify: bool, dispatched: bool)
    requires Tickets(q) && n in q.nodes
    ensures Tickets(Cancel(q, n, notify, dispatched))
  {
    var r := Cancel(q, n, notify, dispatched);
    forall t | 0 <= t < |r.fates| ensures Located(r, t, r.fates[t]) {
      assert Located(q, t, q.fates[t]);
    }
  }

  lemma CancelKeepsValid(cfg: Settings, q: Queries, n: NodeId, notify: bool, dispatched: bool)
    requires Valid(cfg, q) && n in q.nodes
    ensures Valid(cfg, Cancel(q, n, notify, dispatched))
  {
    hide Tables, Families, Lists, Tickets, Notified, Retrying, SameShape, Cancel;
    CancelKeepsTickets(q, n, notify, dispatched);
    CancelKeepsShape(q, n, notify, dispatched);
    CancelKeepsRest(cfg, q, n, notify, dispatched);
    ShapeFrame(q, Cancel(q, n, notify, dispatched));
  }

  lemma CancelKeepsShape(q: Queries, n: NodeId, notify: bool, dispatched: bool)
    requires Lists(q) && n in q.nodes
    ensures SameShape(q, Cancel(q, n, notify, dispatched))
  {
    hide Lists;
    NextBound(q);
  }

  lemma CancelKeepsRest(cfg: Settings, q: Queries, n: NodeId, notify: bool, dispatched: bool)
    requires Notified(q) && Retrying(cfg, q) && n in q.nodes
    ensures Notified(Cancel(q, n, notify, dispatched)) && Retrying(cfg, Cancel(q, n, notify, dispatched))
  {
  }

  lemma NextBound(q: Queries)
    requires Lists(q)
    ensures forall n :: n in q.completing ==> n in q.nodes && q.completing[n].next <= |q.nodes[n].children| + 1
  {
  }

  lemma CancelCallKeepsTickets(q: Queries, t: Ticket)
    requires Tickets(q) && t in q.cancelling
    ensures Tickets(CancelCall(q, t))
  {
    var r := CancelCall(q, t);
    assert r.log[|q.log|].0 == t;
    forall u | 0 <= u < |r.fates| ensures Located(r, u, r.fates[u]) {
      assert Located(q, u, q.fates[u]);
    }
  }

  lemma CancelCallKeepsValid(cfg: Settings, q: Queries, t: Ticket)
    requires Valid(cfg, q) && t in q.cancelling
    ensures t < |q.fates| && Valid(cfg, CancelCall(q, t))
  {
    assert t < |q.fates|;
    CancelCallKeepsTickets(q, t);
    CancelCallKeepsShape(cfg, q, t);
  }

  lemma CancelCallKeepsShape(cfg: Settings, q: Queries, t: Ticket)
    requires Valid(cfg, q) && t in q.cancelling && t < |q.fates|
    ensures var r := CancelCall(q, t);
            Tables(r) && Families(r) && Lists(r) && Notified(r) && Retrying(cfg, r)
  {
    hide Tables, Families, Lists, Tickets;
    NextBound(q);
    ShapeFrame(q, CancelCall(q, t));
  }

  lemma RetransmitKeepsShape(q: Queries, n: NodeId)
    requires Lists(q) && n in q.nodes
    ensures SameShape(q, Retransmit(q, n))
  {
    hide Lists;
    NextBound(q);
  }

  lemma RetransmitKeepsTickets(q: Queries, n: NodeId)
    requires Tickets(q) && n in q.nodes
    ensures Tickets(Retransmit(q, n))
  {
    var r := Retransmit(q, n);
    forall t | 0 <= t < |r.fates| ensures Located(r, t, r.fates[t]) {
      assert Located(q, t, q.fates[t]);
    }
  }

  lemma RetransmitKeepsRest(cfg: Settings, q: Queries, n: NodeId)
    requires Notified(q) && Retrying(cfg, q) && n in q.nodes && q.nodes[n].transmitCnt < cfg.qretrCount
    ensures Notified(Retransmit(q, n)) && Retrying(cfg, Retransmit(q, n))
  {
  }

  lemma RetransmitKeepsValid(cfg: Settings, q: Queries, n: NodeId)
    requires Valid(cfg, q) && n in q.nodes && q.nodes[n].transmitCnt < cfg.qretrCount
    ensures Valid(cfg, Retransmit(q, n))
  {
    hide Tables, Families, Lists, Tickets, SameShape, Notified, Retrying;
    RetransmitKeepsShape(q, n);
    RetransmitKeepsTickets(q, n);
    RetransmitKeepsRest(cfg, q, n);
    ShapeFrame(q, Retransmit(q, n));
  }

  lemma CallKeepsTickets(q: Queries, n: NodeId, pkt: Packet)
    requires Tickets(q) && n in q.completing && q.completing[n].inFlight.Some?
    ensures Tickets(Call(q, n, pkt))
  {
    var r := Call(q, n, pkt);
    var t := q.completing[n].inFlight.value;
    assert r.log[|q.log|].0 == t;
    forall u | 0 <= u < |r.fates| ensures Located(r, u, r.fates[u]) {
      assert Located(q, u, q.fates[u]);
    }
  }

  lemma CallKeepsShape(q: Queries, n: NodeId, pkt: Packet)
    requires Lists(q) && n in q.completing && q.completing[n].inFlight.Some?
    requires q.completing[n].inFlight.value < |q.fates|
    ensures SameShape(q, Call(q, n, pkt))
  {
    hide Lists;
    NextBound(q);
  }

  lemma CallKeepsValid(cfg: Settings, q: Queries, n: NodeId, pkt: Packet)
    requires Valid(cfg, q) && n in q.completing && q.completing[n].inFlight.Some?
    ensures q.completing[n].inFlight.value < |q.fates| && Valid(cfg, Call(q, n, pkt))
  {
    hide Tables, Families, Lists, SameShape, Located;
    CallKeepsTickets(q, n, pkt);
    CallKeepsShape(q, n, pkt);
    ShapeFrame(q, Call(q, n, pkt));
  }

  /** A completion whose next member can be notified. */
  predicate CanTakeNext(q: Queries, n: NodeId) {
    && n in q.nodes && n in q.completing
    && q.completing[n].inFlight.None? && q.completing[n].next <= |q.nodes[n].children|
    && Member(q, n, q.completing[n].next) in q.nodes
  }

  lemma TakeNextKeepsTickets(q: Queries, n: NodeId)
    requires Tickets(q) && CanTakeNext(q, n)
    ensures Tickets(TakeNext(q, n))
  {
    var r := TakeNext(q, n);
    forall u | 0 <= u < |r.fates| ensures Located(r, u, r.fates[u]) {
      assert Located(q, u, q.fates[u]);
    }
  }

  lemma TakeNextKeepsNotified(q: Queries, n: NodeId)
    requires Notified(q) && CanTakeNext(q, n)
    ensures Notified(TakeNext(q, n))
  {
  }

  lemma TakeNextKeepsShape(q: Queries, n: NodeId)
    requires Lists(q) && CanTakeNext(q, n)
    ensures SameShape(q, TakeNext(q, n))
  {
    hide Lists;
    NextBound(q);
  }

  lemma TakeNextKeepsValid(cfg: Settings, q: Queries, n: NodeId)
    requires Valid(cfg, q) && CanTakeNext(q, n)
    ensures Valid(cfg, TakeNext(q, n))
  {
    hide Tables, Families, Lists, Tickets, Notified, SameShape;
    TakeNextKeepsTickets(q, n);
    TakeNextKeepsNotified(q, n);
    TakeNextKeepsShape(q, n);
    ShapeFrame(q, TakeNext(q, n));
  }

  // ---------------------------------------------------------------------
  // New nodes
  // ---------------------------------------------------------------------

  /** The node to be allocated is in no table, list or completion and holds no accepted callback. */
  ghost predicate Unused(q: Queries, n: NodeId) {
    && (n in q.nodes ==> q.nodes[n].place == Free && !q.nodes[n].cb.Live? && q.nodes[n].children == [])
    && n !in q.completing
    && (forall id :: id in q.byId ==> q.byId[id] != n)
    && (forall k :: k in q.byKey ==> q.byKey[k] != n)
    && (forall p, i :: p in q.nodes && 0 <= i < |q.nodes[p].children| ==> q.nodes[p].children[i] != n)
  }

  lemma AllocatedIsUnused(cfg: Settings, q: Queries)
    requires Valid(cfg, q)
    ensures Unused(q, AllocId(q))
  {
    hide Tickets, Retrying;
    var n := AllocId(q);
    forall p, i | p in q.nodes && 0 <= i < |q.nodes[p].children| ensures q.nodes[p].children[i] != n {
      assert q.nodes[q.nodes[p].children[i]].place == ChildOf(p, i);
    }
  }

  /** r is q with the unused node n taken from the free list, or new, and set to node. */
  ghost predicate Allocates(q: Queries, r: Queries, n: NodeId) {
    && n < r.nextNode && r.nextNode == (if n == q.nextNode then q.nextNode + 1 else q.nextNode)
    && (n in q.nodes || n == q.nextNode)
    && (forall m :: m in r.free ==> m in q.free && m != n)
    && (forall m :: m in q.free ==> m in r.free || m == n)
    && (forall i, j :: 0 <= i < j < |r.free| ==> r.free[i] != r.free[j])
    && r.completing == q.completing && r.cancelling == q.cancelling && r.log == q.log
  }

  lemma AllocAllocates(q: Queries, node: Node)
    requires Lists(q)
    ensures Allocates(q, Alloc(q, node), AllocId(q))
    ensures var r := Alloc(q, node);
            r.nodes == q.nodes[AllocId(q) := node] && r.byId == q.byId && r.byKey == q.byKey && r.fates == q.fates
  {
    var r, n := Alloc(q, node), AllocId(q);
    if q.free != [] {
      assert q.free == [q.free[0]] + q.free[1..];
      forall m | m in q.free[1..] ensures m in q.free && m != n {
        var i :| 0 <= i < |q.free[1..]| && q.free[1..][i] == m;
        assert q.free[i + 1] == m;
      }
    } else {
      assert n == q.nextNode;
    }
  }

  lemma AddKeepsTables(q: Queries, r: Queries, n: NodeId, node: Node)
    requires Tables(q) && Unused(q, n) && r.nodes == q.nodes[n := node]
    requires node.place != Pending ==> r.byId == q.byId && r.byKey == q.byKey
    requires node.place == Pending ==>
               && node.id !in q.byId && node.id != 0 && node.key !in q.byKey
               && r.byId == q.byId[node.id := n] && r.byKey == q.byKey[node.key := n]
    ensures Tables(r)
  {
  }

  lemma AddKeepsFamilies(q: Queries, r: Queries, n: NodeId, node: Node)
    requires Families(q) && Unused(q, n) && r.nodes == q.nodes[n := node]
    requires node.children == [] && !node.place.ChildOf?
    ensures Families(r)
  {
  }

  lemma AddKeepsLists(q: Queries, r: Queries, n: NodeId, node: Node)
    requires Lists(q) && n !in q.completing && r.nodes == q.nodes[n := node] && Allocates(q, r, n)
    requires node.place !in {Free, Completing}
    ensures Lists(r)
  {
    forall m | m in r.nodes && r.nodes[m].place == Free ensures m in r.free {
      assert m in q.free;
    }
    forall i | 0 <= i < |r.free| ensures r.free[i] in r.nodes && r.nodes[r.free[i]].place == Free {
      assert r.free[i] in r.free;
    }
  }

  lemma AddKeepsTickets(q: Queries, r: Queries, n: NodeId, node: Node)
    requires Tickets(q) && Unused(q, n) && r.nodes == q.nodes[n := node]
    requires r.completing == q.completing && r.cancelling == q.cancelling && r.log == q.log
    requires if node.cb.Live? then node.cb.ticket == |q.fates| && r.fates == q.fates + [Held(n)] else r.fates == q.fates
    ensures Tickets(r)
  {
    forall u | 0 <= u < |q.fates| ensures Located(r, u, r.fates[u]) {
      assert Located(q, u, q.fates[u]);
    }
  }

  lemma AddKeepsNotified(q: Queries, r: Queries, n: NodeId, node: Node)
    requires Notified(q) && Unused(q, n) && r.nodes == q.nodes[n := node] && r.completing == q.completing
    requires node.place in {Free, Abandoned} ==> !node.cb.Live?
    requires node.children == []
    ensures Notified(r)
  {
  }

  lemma AddKeepsRetrying(cfg: Settings, q: Queries, r: Queries, n: NodeId, node: Node)
    requires Retrying(cfg, q) && r.nodes == q.nodes[n := node]
    requires node.place == Pending ==> 1 <= node.transmitCnt <= MaxTransmits(cfg) && node.timerOn && !node.stopped
    ensures Retrying(cfg, r)
  {
  }

  lemma BeginKeepsValid(cfg: Settings, q: Queries, key: Key, id: nat, hasCb: bool)
    requires Valid(cfg, q) && key !in q.byKey && id !in q.byId && id != 0
    ensures Valid(cfg, Begin(q, key, id, hasCb))
  {
    hide Tables, Families, Lists, Tickets, Notified, Retrying, Unused, Alloc, Allocates;
    var r, n := Begin(q, key, id, hasCb), AllocId(q);
    var node := Node(id, key, 1, true, Accept(q, n, hasCb).0, [], Pending, false);
    AllocatedIsUnused(cfg, q);
    AllocAllocates(q, node);
    AllocatesFrame(q, Alloc(q, node), r, n);
    AddKeepsTables(q, r, n, node);
    AddKeepsFamilies(q, r, n, node);
    UnusedNotCompleting(q, n);
    AddKeepsLists(q, r, n, node);
    AddKeepsTickets(q, r, n, node);
    AddKeepsNotified(q, r, n, node);
    AddKeepsRetrying(cfg, q, r, n, node);
  }

  lemma UnusedNotCompleting(q: Queries, n: NodeId)
    requires Unused(q, n)
    ensures n !in q.completing
  {
  }

  lemma AllocatesFrame(q: Queries, r: Queries, r': Queries, n: NodeId)
    requires Allocates(q, r, n) && r'.nextNode == r.nextNode && r'.free == r.free
    requires r'.completing == r.completing && r'.cancelling == r.cancelling && r'.log == r.log
    ensures Allocates(q, r', n)
    ensures r'.completing == q.completing && r'.cancelling == q.cancelling && r'.log == q.log
  {
  }

  lemma RefuseKeepsLists(q: Queries, r1: Queries, r: Queries, n: NodeId, node: Node)
    requires Lists(q) && n !in q.completing && r1.nodes == q.nodes[n := node] && Allocates(q, r1, n)
    requires node.place == Free && r == r1.(free := r1.free + [n])
    ensures Lists(r)
  {
    assert r.free[|r1.free|] == n;
    forall m | m in r.nodes && r.nodes[m].place == Free ensures m in r.free {
      assert m == n || m in r1.free;
    }
    forall i | 0 <= i < |r1.free| ensures r.free[i] in r.nodes && r.nodes[r.free[i]].place == Free && r.free[i] != n {
      assert r1.free[i] in r1.free;
    }
  }

  lemma RefuseKeepsValid(cfg: Settings, q: Queries, hasCb: bool)
    requires Valid(cfg, q)
    ensures Valid(cfg, Refuse(q, hasCb))
  {
    hide Tables, Families, Lists, Tickets, Notified, Retrying, Unused, Alloc, Allocates;
    var r, n := Refuse(q, hasCb), AllocId(q);
    var node := Node(0, NO_KEY, 0, false, if hasCb then Refused else NoCallback, [], Free, false);
    AllocatedIsUnused(cfg, q);
    AllocAllocates(q, node);
    AllocatesFrame(q, Alloc(q, node), Alloc(q, node), n);
    AddKeepsTables(q, r, n, node);
    AddKeepsFamilies(q, r, n, node);
    UnusedNotCompleting(q, n);
    RefuseKeepsLists(q, Alloc(q, node), r, n, node);
    AddKeepsTickets(q, r, n, node);
    AddKeepsNotified(q, r, n, node);
    AddKeepsRetrying(cfg, q, r, n, node);
  }

  /** A parent p that is pending, so that it can take a child. */
  ghost predicate CanJoin(q: Queries, p: NodeId) {
    p in q.nodes && q.nodes[p].place == Pending && p !in q.completing
  }

  /** q with n added as a child of p. */
  ghost predicate AddsChild(q: Queries, r: Queries, p: NodeId, n: NodeId, node: Node)
    requires p in q.nodes
  {
    var parent := q.nodes[p];
    && n != p && node.children == [] && node.place == ChildOf(p, |parent.children|)
    && r.nodes == q.nodes[n := node][p := parent.(children := parent.children + [n])]
  }

  lemma JoinKeepsTables(q: Queries, r: Queries, p: NodeId, n: NodeId, node: Node)
    requires Tables(q) && Unused(q, n) && CanJoin(q, p) && AddsChild(q, r, p, n, node)
    requires r.byId == q.byId && r.byKey == q.byKey
    ensures Tables(r)
  {
    hide Tables;
    var q1 := q.(nodes := q.nodes[n := node]);
    AddedKeepsTables(q, q1, n, node);
    ChangedKeepsTables(q1, r, p, q.nodes[p].(children := q.nodes[p].children + [n]));
  }

  lemma AddedKeepsTables(q: Queries, r: Queries, n: NodeId, node: Node)
    requires Tables(q) && node.place != Pending && (n in q.nodes ==> q.nodes[n].place != Pending)
    requires r.nodes == q.nodes[n := node] && r.byId == q.byId && r.byKey == q.byKey
    ensures Tables(r)
  {
  }

  lemma ChangedKeepsTables(q: Queries, r: Queries, p: NodeId, node: Node)
    requires Tables(q) && p in q.nodes
    requires node.place == q.nodes[p].place && node.id == q.nodes[p].id && node.key == q.nodes[p].key
    requires r.nodes == q.nodes[p := node] && r.byId == q.byId && r.byKey == q.byKey
    ensures Tables(r)
  {
  }

  lemma JoinKeepsFamilies(q: Queries, r: Queries, p: NodeId, n: NodeId, node: Node)
    requires Families(q) && Unused(q, n) && CanJoin(q, p) && AddsChild(q, r, p, n, node)
    ensures Families(r)
  {
    forall x, i | x in r.nodes && 0 <= i < |r.nodes[x].children|
      ensures r.nodes[x].children[i] in r.nodes && r.nodes[r.nodes[x].children[i]].place == ChildOf(x, i)
    {
      if x == p && i == |q.nodes[p].children| {
        assert r.nodes[x].children[i] == n;
      } else {
        assert r.nodes[x].children[i] == q.nodes[x].children[i];
      }
    }
    forall c | c in r.nodes && r.nodes[c].place.ChildOf?
      ensures var x, i := r.nodes[c].place.parent, r.nodes[c].place.index;
              x in r.nodes && i < |r.nodes[x].children| && r.nodes[x].children[i] == c
    {
      if c != n { assert c in q.nodes && r.nodes[c].place == q.nodes[c].place; }
    }
  }

  lemma JoinKeepsLists(q: Queries, r: Queries, p: NodeId, n: NodeId, node: Node)
    requires Lists(q) && n !in q.completing && CanJoin(q, p) && AddsChild(q, r, p, n, node) && Allocates(q, r, n)
    ensures Lists(r)
  {
    forall m | m in r.nodes && r.nodes[m].place == Free ensures m in r.free {
      assert m in q.free;
    }
    forall i | 0 <= i < |r.free| ensures r.free[i] in r.nodes && r.nodes[r.free[i]].place == Free {
      assert r.free[i] in r.free;
    }
  }

  lemma JoinKeepsTickets(q: Queries, r: Queries, p: NodeId, n: NodeId, node: Node)
    requires Tickets(q) && Unused(q, n) && p in q.nodes && AddsChild(q, r, p, n, node)
    requires r.completing == q.completing && r.cancelling == q.cancelling && r.log == q.log
    requires if node.cb.Live? then node.cb.ticket == |q.fates| && r.fates == q.fates + [Held(n)] else r.fates == q.fates
    ensures Tickets(r)
  {
    forall u | 0 <= u < |q.fates| ensures Located(r, u, r.fates[u]) {
      assert Located(q, u, q.fates[u]);
    }
  }

  lemma JoinKeepsRest(cfg: Settings, q: Queries, r: Queries, p: NodeId, n: NodeId, node: Node)
    requires Notified(q) && Retrying(cfg, q) && Unused(q, n) && CanJoin(q, p) && AddsChild(q, r, p, n, node)
    requires r.completing == q.completing
    ensures Notified(r) && Retrying(cfg, r)
  {
  }

  lemma PendingCanJoin(q: Queries, key: Key)
    requires Tables(q) && Lists(q) && key in q.byKey
    ensures CanJoin(q, q.byKey[key])
  {
  }

  lemma JoinKeepsValid(cfg: Settings, q: Queries, key: Key, hasCb: bool)
    requires Valid(cfg, q) && key in q.byKey
    ensures q.byKey[key] in q.nodes && Valid(cfg, Join(q, key, hasCb))
  {
    hide Tables, Families, Lists, Tickets, Notified, Retrying, Unused, Alloc, Allocates;
    PendingCanJoin(q, key);
    var r, n, p := Join(q, key, hasCb), AllocId(q), q.byKey[key];
    var node := Node(0, NO_KEY, 0, false, Accept(q, n, hasCb).0, [], ChildOf(p, |q.nodes[p].children|), false);
    AllocatedIsUnused(cfg, q);
    UnusedNotPending(q, n, p);
    AllocAllocates(q, node);
    AllocatesFrame(q, Alloc(q, node), r, n);
    JoinKeepsTables(q, r, p, n, node);
    JoinKeepsFamilies(q, r, p, n, node);
    UnusedNotCompleting(q, n);
    JoinKeepsLists(q, r, p, n, node);
    JoinKeepsTickets(q, r, p, n, node);
    JoinKeepsRest(cfg, q, r, p, n, node);
  }

  lemma UnusedNotPending(q: Queries, n: NodeId, p: NodeId)
    requires Unused(q, n) && p in q.nodes && q.nodes[p].place == Pending
    ensures n != p
  {
  }

  // ---------------------------------------------------------------------
  // Queries that leave the tables
  // ---------------------------------------------------------------------

  /** r is q with the pending query n taken out of the tables and completing as c. */
  ghost predicate Leaves(q: Queries, r: Queries, n: NodeId, node: Node, c: Completion)
    requires n in q.nodes
  {
    && r.nodes == q.nodes[n := node] && node.place == Completing && node.children == q.nodes[n].children
    && r.byId == q.byId - {q.nodes[n].id} && r.byKey == q.byKey - {q.nodes[n].key}
    && r.completing == q.completing[n := c] && c.next <= 1
    && r.free == q.free && r.nextNode == q.nextNode && r.cancelling == q.cancelling && r.log == q.log
  }

  lemma LeaveKeepsTables(q: Queries, r: Queries, n: NodeId, node: Node, c: Completion)
    requires Tables(q) && n in q.nodes && q.nodes[n].place == Pending && Leaves(q, r, n, node, c)
    ensures Tables(r)
  {
  }

  lemma LeaveKeepsFamilies(q: Queries, r: Queries, n: NodeId, node: Node, c: Completion)
    requires Families(q) && n in q.nodes && q.nodes[n].place == Pending && Leaves(q, r, n, node, c)
    ensures Families(r)
  {
    assert forall m :: m in q.nodes ==> r.nodes[m].children == q.nodes[m].children;
  }

  lemma LeaveKeepsLists(q: Queries, r: Queries, n: NodeId, node: Node, c: Completion)
    requires Lists(q) && n in q.nodes && q.nodes[n].place == Pending && Leaves(q, r, n, node, c)
    ensures Lists(r) && n !in q.completing
  {
  }

  lemma LeaveKeepsRest(cfg: Settings, q: Queries, r: Queries, n: NodeId, node: Node, c: Completion)
    requires Notified(q) && Retrying(cfg, q) && n in q.nodes && n !in q.completing
    requires q.nodes[n].place == Pending && Leaves(q, r, n, node, c)
    requires (c.next == 1 ==> node.cb == NoCallback) && node.cb in {NoCallback, q.nodes[n].cb}
    ensures Notified(r) && Retrying(cfg, r)
  {
  }

  lemma LeaveKeepsTickets(q: Queries, r: Queries, n: NodeId, node: Node, c: Completion)
    requires Tickets(q) && n in q.nodes && n !in q.completing && Leaves(q, r, n, node, c)
    requires if c.next == 0 then c.inFlight == None && node.cb == q.nodes[n].cb && r.fates == q.fates
             else
               && node.cb == NoCallback && c.inFlight == TicketOf(q, n)
               && r.fates == if q.nodes[n].cb.Live? && q.nodes[n].cb.ticket < |q.fates|
                             then q.fates[q.nodes[n].cb.ticket := InCompletion(n)] else q.fates
    ensures Tickets(r)
  {
    forall u | 0 <= u < |r.fates| ensures Located(r, u, r.fates[u]) {
      assert Located(q, u, q.fates[u]);
    }
  }

  lemma LeaveKeepsValid(cfg: Settings, q: Queries, r: Queries, n: NodeId, node: Node, c: Completion)
    requires Valid(cfg, q) && n in q.nodes && q.nodes[n].place == Pending && Leaves(q, r, n, node, c)
    requires if c.next == 0 then c.inFlight == None && node.cb == q.nodes[n].cb && r.fates == q.fates
             else
               && node.cb == NoCallback && c.inFlight == TicketOf(q, n)
               && r.fates == if q.nodes[n].cb.Live? && q.nodes[n].cb.ticket < |q.fates|
                             then q.fates[q.nodes[n].cb.ticket := InCompletion(n)] else q.fates
    ensures Valid(cfg, r)
  {
    assert c.next <= 1;
    hide Tables, Families, Lists, Tickets, Notified, Retrying, Leaves;
    LeaveKeepsTables(q, r, n, node, c);
    LeaveKeepsFamilies(q, r, n, node, c);
    LeaveKeepsLists(q, r, n, node, c);
    LeaveKeepsTickets(q, r, n, node, c);
    LeaveKeepsRest(cfg, q, r, n, node, c);
  }

  lemma CompleteKeepsValid(cfg: Settings, q: Queries, n: NodeId, ending: Ending)
    requires Valid(cfg, q) && n in q.nodes && q.nodes[n].place == Pending
    ensures Valid(cfg, Complete(q, n, ending))
  {
    hide Tables, Families, Lists, Tickets, Notified, Retrying;
    var r := Complete(q, n, ending);
    var node := q.nodes[n].(place := Completing, timerOn := false, cb := NoCallback);
    assert r.nodes == q.nodes[n := node];
    LeaveKeepsValid(cfg, q, r, n, node, Completion(ending, TicketOf(q, n), 1));
  }

  lemma CollectKeepsValid(cfg: Settings, q: Queries, n: NodeId, notify: bool)
    requires Valid(cfg, q) && n in q.nodes && q.nodes[n].place == Pending
    ensures Valid(cfg, Collect(q, n, notify))
  {
    hide Tables, Families, Lists, Tickets, Notified, Retrying;
    var r := Collect(q, n, notify);
    var node := q.nodes[n].(place := Completing, timerOn := false);
    LeaveKeepsValid(cfg, q, r, n, node, Completion(Destroyed(notify), None, 0));
  }

  // ---------------------------------------------------------------------
  // Completions that finish
  // ---------------------------------------------------------------------

  /** All members of the completion of n have been notified. */
  predicate CanFinish(q: Queries, n: NodeId) {
    && n in q.nodes && n in q.completing
    && q.completing[n].inFlight.None? && q.completing[n].next == |q.nodes[n].children| + 1
  }

  /** r is q with the members of n's completion moved to the free list. */
  ghost predicate Recycles(q: Queries, r: Queries, n: NodeId)
    requires n in q.nodes
  {
    var members := q.nodes[n].children + [n];
    && r.nodes.Keys == q.nodes.Keys
    && (forall m :: m in q.nodes ==>
          r.nodes[m] == if m == n || m in q.nodes[n].children
                        then q.nodes[m].(place := Free, children := [], timerOn := false) else q.nodes[m])
    && r.free == q.free + members && r.completing == q.completing - {n}
    && r.byId == q.byId && r.byKey == q.byKey && r.nextNode == q.nextNode
    && r.cancelling == q.cancelling && r.log == q.log && r.fates == q.fates
  }

  lemma FinishRecycles(q: Queries, n: NodeId)
    requires n in q.nodes && n in q.completing && !q.completing[n].ending.Destroyed?
    ensures Recycles(q, Finish(q, n), n)
  {
    var r := Finish(q, n);
    var members := q.nodes[n].children + [n];
    assert forall m :: m in members <==> m == n || m in q.nodes[n].children;
    assert r.nodes == Freed(q.nodes, members);
  }

  /** The members of a completion: the children know their parent, the query is completing. */
  ghost predicate MembersPlaced(q: Queries, n: NodeId)
    requires n in q.nodes
  {
    && q.nodes[n].place == Completing
    && (forall m :: m in q.nodes[n].children ==>
          m in q.nodes && q.nodes[m].place.ChildOf? && q.nodes[m].place.parent == n && q.nodes[m].children == [])
    && (forall m :: m in q.nodes && q.nodes[m].place.ChildOf? && q.nodes[m].place.parent == n ==> m in q.nodes[n].children)
    && (forall i, j :: 0 <= i < j < |q.nodes[n].children| ==> q.nodes[n].children[i] != q.nodes[n].children[j])
  }

  lemma CompletingMembers(q: Queries, n: NodeId)
    requires Families(q) && Lists(q) && n in q.nodes && n in q.completing
    ensures MembersPlaced(q, n)
  {
    forall m | m in q.nodes[n].children
      ensures m in q.nodes && q.nodes[m].place.ChildOf? && q.nodes[m].place.parent == n && q.nodes[m].children == []
    {
      var i :| 0 <= i < |q.nodes[n].children| && q.nodes[n].children[i] == m;
      assert q.nodes[m].place == ChildOf(n, i);
    }
    forall i, j | 0 <= i < j < |q.nodes[n].children| ensures q.nodes[n].children[i] != q.nodes[n].children[j] {
      assert q.nodes[q.nodes[n].children[i]].place == ChildOf(n, i);
      assert q.nodes[q.nodes[n].children[j]].place == ChildOf(n, j);
    }
  }

  lemma RecycleKeepsTables(q: Queries, r: Queries, n: NodeId)
    requires Tables(q) && n in q.nodes && MembersPlaced(q, n) && Recycles(q, r, n)
    ensures Tables(r)
  {
    assert forall m :: m in r.nodes <==> m in q.nodes.Keys;
  }

  lemma RecycleKeepsFamilies(q: Queries, r: Queries, n: NodeId)
    requires Families(q) && n in q.nodes && MembersPlaced(q, n) && Recycles(q, r, n)
    ensures Families(r)
  {
    assert forall m :: m in r.nodes <==> m in q.nodes.Keys;
    forall p, i | p in r.nodes && 0 <= i < |r.nodes[p].children|
      ensures r.nodes[p].children[i] in r.nodes && r.nodes[r.nodes[p].children[i]].place == ChildOf(p, i)
    {
      assert p != n && p !in q.nodes[n].children;
      var c := q.nodes[p].children[i];
      assert q.nodes[c].place == ChildOf(p, i);
    }
    forall c | c in r.nodes && r.nodes[c].place.ChildOf?
      ensures var p, i := r.nodes[c].place.parent, r.nodes[c].place.index;
              p in r.nodes && i < |r.nodes[p].children| && r.nodes[p].children[i] == c
    {
      var p := q.nodes[c].place.parent;
      assert p != n;
    }
  }

  lemma RecycleKeepsLists(q: Queries, r: Queries, n: NodeId)
    requires Lists(q) && n in q.nodes && MembersPlaced(q, n) && Recycles(q, r, n)
    ensures Lists(r)
  {
    hide Recycles, MembersPlaced;
    RecycledNodes(q, r, n);
    RecycledFree(q, r, n);
    RecycledDistinct(q, n);
    RecycledPlaces(q, r, n);
    assert r.free == q.free + (q.nodes[n].children + [n]);
  }

  /** The free list has all free nodes and no other. */
  lemma RecycledFree(q: Queries, r: Queries, n: NodeId)
    requires Lists(q) && n in q.nodes && MembersPlaced(q, n) && Recycles(q, r, n)
    ensures forall m :: m in r.nodes && r.nodes[m].place == Free ==> m in r.free
    ensures forall i :: 0 <= i < |r.free| ==> r.free[i] in r.nodes && r.nodes[r.free[i]].place == Free
  {
    hide Recycles;
    var k, children := |q.free|, q.nodes[n].children;
    RecycledNodes(q, r, n);
    assert r.free == q.free + children + [n];
    forall m | m in r.nodes && r.nodes[m].place == Free ensures m in r.free {
      assert m == n || m in children || m in q.free;
    }
    forall i | 0 <= i < |r.free| ensures r.free[i] in r.nodes && r.nodes[r.free[i]].place == Free {
      assert r.free[i] == if i < k then q.free[i] else if i < k + |children| then children[i - k] else n;
    }
  }

  lemma RecycledPlaces(q: Queries, r: Queries, n: NodeId)
    requires Lists(q) && n in q.nodes && MembersPlaced(q, n) && Recycles(q, r, n)
    ensures forall m :: m in r.nodes <==> 0 <= m < r.nextNode
    ensures forall m :: m in r.completing ==>
              m in r.nodes && r.nodes[m].place == Completing && r.completing[m].next <= |r.nodes[m].children| + 1
    ensures forall m :: m in r.nodes && r.nodes[m].place == Completing ==> m in r.completing
  {
    assert forall m :: m in r.nodes <==> m in q.nodes.Keys;
  }

  lemma RecycledDistinct(q: Queries, n: NodeId)
    requires Lists(q) && n in q.nodes && MembersPlaced(q, n)
    ensures var free := q.free + (q.nodes[n].children + [n]);
            forall i, j :: 0 <= i < j < |free| ==> free[i] != free[j]
  {
    var k, children := |q.free|, q.nodes[n].children;
    var free := q.free + (children + [n]);
    forall i, j | 0 <= i < j < |free| ensures free[i] != free[j] {
      assert free[i] == if i < k then q.free[i] else if i < k + |children| then children[i - k] else n;
      assert free[j] == if j < k then q.free[j] else if j < k + |children| then children[j - k] else n;
    }
  }

  lemma RecycledNodes(q: Queries, r: Queries, n: NodeId)
    requires n in q.nodes && Recycles(q, r, n)
    ensures forall m :: m in r.nodes <==> m in q.nodes
    ensures forall m :: m in q.nodes && m != n && m !in q.nodes[n].children ==> r.nodes[m] == q.nodes[m]
    ensures forall m :: m in q.nodes && (m == n || m in q.nodes[n].children) ==> r.nodes[m].place == Free
    ensures r.free == q.free + (q.nodes[n].children + [n])
    ensures r.completing == q.completing - {n} && r.nextNode == q.nextNode
  {
    assert forall m :: m in r.nodes <==> m in q.nodes.Keys;
  }

  lemma RecycleKeepsTickets(q: Queries, r: Queries, n: NodeId)
    requires Tickets(q) && CanFinish(q, n) && Recycles(q, r, n)
    ensures Tickets(r)
  {
    assert forall m :: m in r.nodes <==> m in q.nodes.Keys;
    assert forall m :: m in q.nodes ==> r.nodes[m].cb == q.nodes[m].cb;
    forall u | 0 <= u < |r.fates| ensures Located(r, u, r.fates[u]) {
      assert Located(q, u, q.fates[u]);
    }
  }

  lemma RecycleKeepsRest(cfg: Settings, q: Queries, r: Queries, n: NodeId)
    requires Notified(q) && Retrying(cfg, q) && CanFinish(q, n) && MembersPlaced(q, n) && Recycles(q, r, n)
    ensures Notified(r) && Retrying(cfg, r)
  {
    assert forall m :: m in r.nodes <==> m in q.nodes.Keys;
    assert forall m :: m in q.nodes ==> r.nodes[m].cb == q.nodes[m].cb;
    forall m | m in q.nodes[n].children ensures !q.nodes[m].cb.Live? {
      var i :| 0 <= i < |q.nodes[n].children| && q.nodes[n].children[i] == m;
      assert i + 1 < q.completing[n].next;
    }
  }

  /** r is q with n left behind by destroy. */
  lemma AbandonKeepsValid(cfg: Settings, q: Queries, n: NodeId)
    requires Valid(cfg, q) && CanFinish(q, n) && q.completing[n].ending.Destroyed?
    ensures Valid(cfg, Finish(q, n))
  {
    hide Tables, Families, Lists, Tickets, Notified, Retrying;
    AbandonKeepsTables(q, n);
    AbandonKeepsLists(q, n);
    AbandonKeepsTickets(q, n);
    AbandonKeepsRest(cfg, q, n);
  }

  lemma AbandonKeepsTables(q: Queries, n: NodeId)
    requires Tables(q) && Families(q) && Lists(q) && CanFinish(q, n) && q.completing[n].ending.Destroyed?
    ensures Tables(Finish(q, n)) && Families(Finish(q, n))
  {
    hide Tables, Families;
    var r := Finish(q, n);
    assert q.nodes[n].place == Completing;
    Moved(q, r, n, q.nodes[n].(place := Abandoned));
  }

  lemma MovedTables(q: Queries, r: Queries, n: NodeId, node: Node)
    requires Tables(q) && n in q.nodes && q.nodes[n].place != Pending && node.place != Pending
    requires r.nodes == q.nodes[n := node] && r.byId == q.byId && r.byKey == q.byKey
    ensures Tables(r)
  {
  }

  lemma MovedFamilies(q: Queries, r: Queries, n: NodeId, node: Node)
    requires Families(q) && n in q.nodes && !q.nodes[n].place.ChildOf?
    requires r.nodes == q.nodes[n := node] && node.place == Abandoned && node.children == q.nodes[n].children
    ensures Families(r)
  {
  }

  /** A node that is not pending goes from one place to another with its children. */
  lemma Moved(q: Queries, r: Queries, n: NodeId, node: Node)
    requires Tables(q) && Families(q) && n in q.nodes && q.nodes[n].place == Completing
    requires r.nodes == q.nodes[n := node] && r.byId == q.byId && r.byKey == q.byKey
    requires node.place == Abandoned && node.children == q.nodes[n].children
    ensures Tables(r) && Families(r)
  {
    hide Tables, Families;
    MovedTables(q, r, n, node);
    MovedFamilies(q, r, n, node);
  }

  lemma AbandonKeepsLists(q: Queries, n: NodeId)
    requires Lists(q) && CanFinish(q, n) && q.completing[n].ending.Destroyed?
    ensures Lists(Finish(q, n))
  {
    assert q.nodes[n].place == Completing;
  }

  lemma AbandonKeepsTickets(q: Queries, n: NodeId)
    requires Tickets(q) && CanFinish(q, n) && q.completing[n].ending.Destroyed?
    ensures Tickets(Finish(q, n))
  {
    var r := Finish(q, n);
    forall u | 0 <= u < |r.fates| ensures Located(r, u, r.fates[u]) {
      assert Located(q, u, q.fates[u]);
    }
  }

  lemma AbandonKeepsRest(cfg: Settings, q: Queries, n: NodeId)
    requires Notified(q) && Retrying(cfg, q) && CanFinish(q, n) && q.completing[n].ending.Destroyed?
    ensures Notified(Finish(q, n)) && Retrying(cfg, Finish(q, n))
  {
  }

  lemma FinishKeepsValid(cfg: Settings, q: Queries, n: NodeId)
    requires Valid(cfg, q) && CanFinish(q, n)
    ensures Valid(cfg, Finish(q, n))
  {
    hide Tables, Families, Lists, Tickets, Notified, Retrying, Recycles, MembersPlaced, Finish;
    if q.completing[n].ending.Destroyed? {
      AbandonKeepsValid(cfg, q, n);
    } else {
      var r := Finish(q, n);
      FinishRecycles(q, n);
      CompletingMembers(q, n);
      RecycleKeepsTables(q, r, n);
      RecycleKeepsFamilies(q, r, n);
      RecycleKeepsLists(q, r, n);
      RecycleKeepsTickets(q, r, n);
      RecycleKeepsRest(cfg, q, r, n);
    }
  }

  // ---------------------------------------------------------------------
  // What the invariant means
  // ---------------------------------------------------------------------

  function Holders(q: Queries, t: Ticket): set<NodeId> {
    set n | n in q.nodes && q.nodes[n].cb == Live(t)
  }

  function InFlightIn(q: Queries, t: Ticket): set<NodeId> {
    set n | n in q.completing && q.completing[n].inFlight == Some(t)
  }

  function CallsMade(q: Queries, t: Ticket): set<nat> {
    set e: nat | e < |q.log| && q.log[e].0 == t
  }

  /**
   * Conservation of callbacks: an accepted request is held by one node, or
   * taken by one completion or cancel that has yet to call it, or has been
   * called once, or was dropped; never two of these.
   */
  lemma CallbacksConserved(q: Queries, t: Ticket)
    requires Tickets(q) && t < |q.fates|
    ensures |Holders(q, t)| + |InFlightIn(q, t)| + (if t in q.cancelling then 1 else 0) + |CallsMade(q, t)|
            + (if q.fates[t] == Dropped then 1 else 0) == 1
  {
    assert Located(q, t, q.fates[t]);
    match q.fates[t]
    case Held(n) =>
      assert Holders(q, t) == {n} && InFlightIn(q, t) == {} && CallsMade(q, t) == {};
    case InCompletion(n) =>
      assert Holders(q, t) == {} && InFlightIn(q, t) == {n} && CallsMade(q, t) == {};
    case Delivered(e) =>
      assert Holders(q, t) == {} && InFlightIn(q, t) == {} && CallsMade(q, t) == {e};
    case _ =>
      assert Holders(q, t) == {} && InFlightIn(q, t) == {} && CallsMade(q, t) == {};
  }

  /** A step is still to come that notifies node n. */
  predicate WillBeNotified(q: Queries, n: NodeId)
    requires n in q.nodes
  {
    match q.nodes[n].place
    case Pending => true
    case Completing => n in q.completing && q.completing[n].next == 0
    case ChildOf(p, i) =>
      p in q.nodes && (q.nodes[p].place == Pending || (p in q.completing && q.completing[p].next <= i + 1))
    case _ => false
  }

  /** No callback is forgotten: a node that holds one will still be notified; none is on the free list. */
  lemma HeldIsReachable(q: Queries, n: NodeId)
    requires Families(q) && Lists(q) && Notified(q) && n in q.nodes && q.nodes[n].cb.Live?
    ensures WillBeNotified(q, n) && n !in q.free
  {
    if q.nodes[n].place.ChildOf? {
      var p, i := q.nodes[n].place.parent, q.nodes[n].place.index;
      assert q.nodes[p].children[i] == n;
    }
  }

  /** The two tables hold the same queries, one per id and one per key. */
  lemma TablesAgree(q: Queries)
    requires Tables(q)
    ensures q.byId.Values == q.byKey.Values && 0 !in q.byId
    ensures forall i, j :: i in q.byId && j in q.byId && q.byId[i] == q.byId[j] ==> i == j
    ensures forall k, l :: k in q.byKey && l in q.byKey && q.byKey[k] == q.byKey[l] ==> k == l
  {
    forall n | n in q.byId.Values ensures n in q.byKey.Values {
      var i :| i in q.byId && q.byId[i] == n;
      assert q.nodes[n].key in q.byKey && q.byKey[q.nodes[n].key] == n;
    }
    forall n | n in q.byKey.Values ensures n in q.byId.Values {
      var k :| k in q.byKey && q.byKey[k] == n;
      assert q.nodes[n].id in q.byId && q.byId[q.nodes[n].id] == n;
    }
  }

  function ChildSlots(q: Queries, n: NodeId): set<(NodeId, nat)> {
    set p, i: nat | p in q.nodes && i < |q.nodes[p].children| && q.nodes[p].children[i] == n :: (p, i)
  }

  function FreeSlots(q: Queries, n: NodeId): set<nat> {
    set i: nat | i < |q.free| && q.free[i] == n
  }

  /**
   * Ownership: every node is in exactly one place: in both tables, in one slot
   * of one child list, in one completion, left behind by destroy, or in one
   * slot of the free list.
   */
  lemma OnePlace(q: Queries, n: NodeId)
    requires Tables(q) && Families(q) && Lists(q) && n in q.nodes
    ensures (if n in q.byId.Values then 1 else 0) + |ChildSlots(q, n)| + (if n in q.completing then 1 else 0)
            + |FreeSlots(q, n)| + (if q.nodes[n].place == Abandoned then 1 else 0) == 1
  {
    var place := q.nodes[n].place;
    assert n in q.byId.Values <==> place == Pending by {
      if place == Pending { assert q.byId[q.nodes[n].id] == n; }
    }
    ChildSlotsOf(q, n);
    FreeSlotsOf(q, n);
  }

  lemma ChildSlotsOf(q: Queries, n: NodeId)
    requires Families(q) && n in q.nodes
    ensures ChildSlots(q, n) ==
            if q.nodes[n].place.ChildOf? then {(q.nodes[n].place.parent, q.nodes[n].place.index)} else {}
  {
    forall s | s in ChildSlots(q, n) ensures q.nodes[n].place == ChildOf(s.0, s.1) {
    }
    if q.nodes[n].place.ChildOf? {
      assert (q.nodes[n].place.parent, q.nodes[n].place.index) in ChildSlots(q, n);
    }
  }

  lemma FreeSlotsOf(q: Queries, n: NodeId)
    requires Lists(q) && n in q.nodes
    ensures |FreeSlots(q, n)| == if q.nodes[n].place == Free then 1 else 0
  {
    if q.nodes[n].place == Free {
      var i :| 0 <= i < |q.free| && q.free[i] == n;
      assert FreeSlots(q, n) == {i};
    } else {
      assert FreeSlots(q, n) == {};
    }
  }

  // ---------------------------------------------------------------------
  // Callbacks that are due
  // ---------------------------------------------------------------------

  lemma {:induction false} DueFrame(q: Queries, r: Queries, n: NodeId, k: nat)
    requires n in q.nodes && n in r.nodes && r.nodes[n].children == q.nodes[n].children && r.nodes.Keys == q.nodes.Keys
    requires forall i :: k <= i <= |q.nodes[n].children| && Member(q, n, i) in q.nodes ==>
               r.nodes[Member(q, n, i)].cb == q.nodes[Member(q, n, i)].cb
    ensures DueFrom(r, n, k) == DueFrom(q, n, k)
    decreases |q.nodes[n].children| + 1 - k
  {
    if k <= |q.nodes[n].children| {
      assert Member(r, n, k) == Member(q, n, k);
      DueFrame(q, r, n, k + 1);
    }
  }

  /** Taking the next member's callback leaves the same callbacks to be called. */
  lemma DueAfterTake(q: Queries, n: NodeId)
    requires Families(q) && Lists(q) && CanTakeNext(q, n)
    ensures n in TakeNext(q, n).nodes && n in TakeNext(q, n).completing
    ensures Due(TakeNext(q, n), n) == Due(q, n)
  {
    hide Families, Lists, DueFrom;
    OthersAreDue(q, n);
    DueStep(q, n);
  }

  lemma DueStep(q: Queries, n: NodeId)
    requires CanTakeNext(q, n)
    ensures var m := Member(q, n, q.completing[n].next);
            DueFrom(q, n, q.completing[n].next) ==
            (if q.nodes[m].cb.Live? then [q.nodes[m].cb.ticket] else []) + DueFrom(q, n, q.completing[n].next + 1)
  {
  }

  lemma OthersAreDue(q: Queries, n: NodeId)
    requires Families(q) && Lists(q) && CanTakeNext(q, n)
    ensures n in TakeNext(q, n).nodes
    ensures DueFrom(TakeNext(q, n), n, q.completing[n].next + 1) == DueFrom(q, n, q.completing[n].next + 1)
  {
    hide Families, Lists, DueFrom;
    var c, r := q.completing[n], TakeNext(q, n);
    var m := Member(q, n, c.next);
    CompletingMembers(q, n);
    OtherMembers(q, n, c.next);
    forall i | c.next + 1 <= i <= |q.nodes[n].children| && Member(q, n, i) in q.nodes
      ensures r.nodes[Member(q, n, i)].cb == q.nodes[Member(q, n, i)].cb
    {
      assert Member(q, n, i) != m;
    }
    DueFrame(q, r, n, c.next + 1);
  }

  lemma OtherMembers(q: Queries, n: NodeId, k: nat)
    requires n in q.nodes && n in q.completing && Lists(q) && MembersPlaced(q, n) && k <= |q.nodes[n].children|
    ensures forall i :: k < i <= |q.nodes[n].children| ==> Member(q, n, i) != Member(q, n, k)
  {
    forall i | k < i <= |q.nodes[n].children| ensures Member(q, n, i) != Member(q, n, k) {
      assert Member(q, n, i) in q.nodes[n].children;
    }
  }

  /** Calling the callback in flight leaves the others to be called. */
  lemma DueAfterCall(q: Queries, n: NodeId, pkt: Packet)
    requires n in q.nodes && n in q.completing && q.completing[n].inFlight.Some? && q.completing[n].inFlight.value < |q.fates|
    ensures Due(q, n) == [q.completing[n].inFlight.value] + Due(Call(q, n, pkt), n)
  {
    DueFrame(q, Call(q, n, pkt), n, q.completing[n].next);
  }

  lemma DueAtEnd(q: Queries, n: NodeId)
    requires CanFinish(q, n)
    ensures Due(q, n) == []
  {
  }
}
