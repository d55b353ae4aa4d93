/**
 * Pending queries of resolver.c: nodes indexed by transaction id and by
 * resource key, child queries that wait for a pending one, completions in
 * progress (lock released, callbacks being called one by one), and the free
 * list. Each lock-held section is one step.
 */
module Queries {
  import opened Bytes
  import opened Dns
  import opened NameServers
  import opened ResponseCache

  type NodeId = nat
  type Ticket = nat   // one accepted request with a callback

  /** A node's callback: none, that of an accepted request, or one left over from a refused request. */
  datatype Callback = NoCallback | Live(ticket: Ticket) | Refused

  /** Where a node is. ChildOf gives the parent and the position in its child list. */
  datatype Place = Pending | ChildOf(parent: NodeId, index: nat) | Completing | Abandoned | Free

  /**
   * One query node. place and stopped (a cancel stopped its timer) record the node's history; the other
   * fields are the source's.
   */
  datatype Node = Node(id: nat, key: Key, transmitCnt: nat, timerOn: bool, cb: Callback,
                       children: seq<NodeId>, place: Place, stopped: bool)

  /** How a query ends: a response (as received, and as the callbacks have left it), a timeout, or destroy. */
  datatype Ending =
    | Answered(response: Packet, pkt: Packet)
    | TimedOut
    | Destroyed(notify: bool)

  /** What a callback is told. */
  datatype Notice = Reply(rcode: nat) | Timeout | Cancelled

  /**
   * A completion in progress: a callback taken but not yet called, and the
   * next member to notify (0 is the query itself, i its child i - 1).
   */
  datatype Completion = Completion(ending: Ending, inFlight: Option<Ticket>, next: nat)

  /** What has become of a request. */
  datatype Fate =
    | Held(node: NodeId)
    | InCompletion(query: NodeId)
    | InCancel
    | Delivered(entry: nat)
    | Dropped

  /** fates and log record the fate of every accepted request and the callbacks made. */
  datatype Queries = Queries(nodes: map<NodeId, Node>, byId: map<nat, NodeId>, byKey: map<Key, NodeId>,
                             free: seq<NodeId>, completing: map<NodeId, Completion>, cancelling: set<Ticket>,
                             nextNode: nat, fates: seq<Fate>, log: seq<(Ticket, Notice)>)

  const NONE := Queries(map[], map[], map[], [], map[], {}, 0, [], [])

  const NO_KEY := Key(0, [])

  // ---------------------------------------------------------------------
  // Steps
  // ---------------------------------------------------------------------

  /** The node alloc_qnode would return: the head of the free list, or a new one. */
  function AllocId(q: Queries): NodeId {
    if q.free != [] then q.free[0] else q.nextNode
  }

  /** alloc_qnode: the node is taken off the free list and cleared. */
  function Alloc(q: Queries, node: Node): Queries {
    if q.free != [] then q.(free := q.free[1..], nodes := q.nodes[q.free[0] := node])
    else q.(nextNode := q.nextNode + 1, nodes := q.nodes[q.nextNode := node])
  }

  /** The callback and the record of a new accepted request held by node n. */
  function Accept(q: Queries, n: NodeId, hasCb: bool): (Callback, seq<Fate>) {
    if hasCb then (Live(|q.fates|), q.fates + [Held(n)]) else (NoCallback, q.fates)
  }

  /** A request for a key that is already pending becomes a child of that query. */
  function Join(q: Queries, key: Key, hasCb: bool): Queries
    requires key in q.byKey && q.byKey[key] in q.nodes
  {
    var p, n := q.byKey[key], AllocId(q);
    var (cb, fates) := Accept(q, n, hasCb);
    var parent := q.nodes[p];
    var q1 := Alloc(q, Node(0, NO_KEY, 0, false, cb, [], ChildOf(p, |parent.children|), false));
    q1.(nodes := q1.nodes[p := parent.(children := parent.children + [n])], fates := fates)
  }

  /** A new query that has been transmitted once. */
  function Begin(q: Queries, key: Key, id: nat, hasCb: bool): Queries {
    var n := AllocId(q);
    var (cb, fates) := Accept(q, n, hasCb);
    var q1 := Alloc(q, Node(id, key, 1, true, cb, [], Pending, false));
    q1.(byId := q1.byId[id := n], byKey := q1.byKey[key := n], fates := fates)
  }

  /** A new query that gets no id or cannot be transmitted: its node goes to the end of the free list. */
  function Refuse(q: Queries, hasCb: bool): Queries {
    var n := AllocId(q);
    var q1 := Alloc(q, Node(0, NO_KEY, 0, false, if hasCb then Refused else NoCallback, [], Free, false));
    q1.(free := q1.free + [n])
  }

  /**
   * Takes the callback of node n for delivery: its ticket, and the state in
   * which the node has none. fate says what becomes of the ticket.
   */
  function Take(q: Queries, n: NodeId, fate: Fate): Queries
    requires n in q.nodes
  {
    var node := q.nodes[n];
    q.(nodes := q.nodes[n := node.(cb := NoCallback)],
       fates := if node.cb.Live? && node.cb.ticket < |q.fates| then q.fates[node.cb.ticket := fate] else q.fates)
  }

  function TicketOf(q: Queries, n: NodeId): Option<Ticket>
    requires n in q.nodes
  {
    if q.nodes[n].cb.Live? then Some(q.nodes[n].cb.ticket) else None
  }

  /**
   * pj_dns_resolver_cancel_query: stops the timer unless it has just been
   * dispatched, and takes the callback.
   */
  function Cancel(q: Queries, n: NodeId, notify: bool, dispatched: bool): Queries
    requires n in q.nodes
  {
    var t := TicketOf(q, n);
    var q1 := Take(q, n, if notify then InCancel else Dropped);
    var node := q1.nodes[n];
    q1.(nodes := q1.nodes[n := node.(timerOn := node.timerOn && dispatched, stopped := node.stopped || !dispatched)],
        cancelling := if notify && t.Some? then q1.cancelling + {t.value} else q1.cancelling)
  }

  /** The callback taken by a cancel is called. */
  function CancelCall(q: Queries, t: Ticket): Queries
    requires t in q.cancelling && t < |q.fates|
  {
    q.(cancelling := q.cancelling - {t}, fates := q.fates[t := Delivered(|q.log|)], log := q.log + [(t, Cancelled)])
  }

  /** A retransmission. */
  function Retransmit(q: Queries, n: NodeId): Queries
    requires n in q.nodes
  {
    q.(nodes := q.nodes[n := q.nodes[n].(transmitCnt := q.nodes[n].transmitCnt + 1)])
  }

  /** A query leaves both tables. */
  function Leave(q: Queries, n: NodeId): Queries
    requires n in q.nodes
  {
    var node := q.nodes[n];
    q.(byId := q.byId - {node.id}, byKey := q.byKey - {node.key},
       nodes := q.nodes[n := node.(place := Completing, timerOn := false)])
  }

  /** A response or a timeout: the query leaves the tables and its callback is taken. */
  function Complete(q: Queries, n: NodeId, ending: Ending): Queries
    requires n in q.nodes
  {
    var t := TicketOf(q, n);
    var q1 := Take(Leave(q, n), n, InCompletion(n));
    q1.(completing := q1.completing[n := Completion(ending, t, 1)])
  }

  /** One round of destroy's first loop: a pending query is moved to the list of those to be cancelled. */
  function Collect(q: Queries, n: NodeId, notify: bool): Queries
    requires n in q.nodes
  {
    var q1 := Leave(q, n);
    q1.(completing := q1.completing[n := Completion(Destroyed(notify), None, 0)])
  }

  /** The member of a completion that is to be notified next. */
  function Member(q: Queries, n: NodeId, k: nat): NodeId
    requires n in q.nodes && k <= |q.nodes[n].children|
  {
    if k == 0 then n else q.nodes[n].children[k - 1]
  }

  predicate Silent(ending: Ending) {
    ending.Destroyed? && !ending.notify
  }

  /** The next member's callback is taken; a silent destroy drops it at once. */
  function TakeNext(q: Queries, n: NodeId): Queries
    requires n in q.nodes && n in q.completing && q.completing[n].next <= |q.nodes[n].children|
    requires Member(q, n, q.completing[n].next) in q.nodes
  {
    var c := q.completing[n];
    var m := Member(q, n, c.next);
    var t := TicketOf(q, m);
    var q1 := Take(q, m, if Silent(c.ending) then Dropped else InCompletion(n));
    q1.(completing := q1.completing[n := Completion(c.ending, if Silent(c.ending) then None else t, c.next + 1)])
  }

  function NoticeOf(ending: Ending): Notice {
    match ending
    case Answered(response, _) => Reply(response.Rcode())
    case TimedOut => Timeout
    case Destroyed(_) => Cancelled
  }

  /** The callback in flight is called; the callback of a response may change the packet. */
  function Call(q: Queries, n: NodeId, pkt: Packet): Queries
    requires n in q.completing && q.completing[n].inFlight.Some?
    requires q.completing[n].inFlight.value < |q.fates|
  {
    var c := q.completing[n];
    var t := c.inFlight.value;
    var ending := if c.ending.Answered? then c.ending.(pkt := pkt) else c.ending;
    q.(completing := q.completing[n := Completion(ending, None, c.next)],
       fates := q.fates[t := Delivered(|q.log|)],
       log := q.log + [(t, NoticeOf(c.ending))])
  }

  /** The nodes with those of the list put on the free list. */
  function Freed(nodes: map<NodeId, Node>, ns: seq<NodeId>): map<NodeId, Node> {
    map m | m in nodes :: if m in ns then nodes[m].(place := Free, children := [], timerOn := false) else nodes[m]
  }

  /** All members notified: the children and then the query go to the free list, unless destroy leaves them. */
  function Finish(q: Queries, n: NodeId): Queries
    requires n in q.nodes && n in q.completing
  {
    var q1 := q.(completing := q.completing - {n});
    if q.completing[n].ending.Destroyed? then
      q1.(nodes := q1.nodes[n := q1.nodes[n].(place := Abandoned)])
    else
      var members := q.nodes[n].children + [n];
      q1.(nodes := Freed(q1.nodes, members), free := q1.free + members)
  }

  // ---------------------------------------------------------------------
  // Callbacks that are due
  // ---------------------------------------------------------------------

  /** The callbacks of the members of n from the k-th on, in the order they will be called. */
  function DueFrom(q: Queries, n: NodeId, k: nat): seq<Ticket>
    requires n in q.nodes
    decreases |q.nodes[n].children| + 1 - k
  {
    if k > |q.nodes[n].children| then []
    else
      var m := Member(q, n, k);
      (if m in q.nodes && q.nodes[m].cb.Live? then [q.nodes[m].cb.ticket] else []) + DueFrom(q, n, k + 1)
  }

  /** The callbacks that the completion of n has still to call; a silent destroy calls none. */
  function Due(q: Queries, n: NodeId): seq<Ticket>
    requires n in q.nodes && n in q.completing
  {
    var c := q.completing[n];
    (if c.inFlight.Some? then [c.inFlight.value] else []) + (if Silent(c.ending) then [] else DueFrom(q, n, c.next))
  }

  function Notices(ts: seq<Ticket>, notice: Notice): seq<(Ticket, Notice)> {
    seq(|ts|, i requires 0 <= i < |ts| => (ts[i], notice))
  }
}
