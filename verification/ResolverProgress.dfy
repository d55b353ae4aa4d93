/** The resolver's own steps use up a measure of the work that is left. */
module ResolverProgress {
  import opened Bytes
  import opened Dns
  import opened NameServers
  import opened ResponseCache
  import opened Queries
  import opened ResolverRuns
  import QI = QueryInvariant
  import RC = ResponseCache

  // ---------------------------------------------------------------------
  // The measure
  // ---------------------------------------------------------------------

  /** The transmissions a pending query has left. */
  function Left(cfg: Settings, node: Node): nat {
    if node.transmitCnt < QI.MaxTransmits(cfg) then QI.MaxTransmits(cfg) - node.transmitCnt else 0
  }

  /**
   * The work of one query: what is left of its transmissions and its
   * completion, or of its completion alone. A query without a timer does
   * nothing by itself.
   */
  function Work(cfg: Settings, q: Queries, n: NodeId): nat {
    if n !in q.nodes then 0
    else
      var node := q.nodes[n];
      match node.place
      case Pending => if node.timerOn then Left(cfg, node) + 2 * |node.children| + 4 else 0
      case Completing => if n in q.completing then CompletionWork(node, q.completing[n]) else 0
      case _ => 0
  }

  /** Two steps for each member to be notified, one for a callback in flight and one for the end. */
  function CompletionWork(node: Node, c: Completion): nat {
    (if c.next <= |node.children| then 2 * (|node.children| + 1 - c.next) else 0) + (if c.inFlight.Some? then 1 else 0) + 1
  }

  function WorkUpTo(cfg: Settings, q: Queries, k: nat): nat {
    if k == 0 then 0 else WorkUpTo(cfg, q, k - 1) + Work(cfg, q, k - 1)
  }

  /** All the work: that of the queries, and the callbacks that cancels have taken. */
  function WorkLeft(s: State): nat {
    WorkUpTo(s.cfg, s.q, s.q.nextNode) + |s.q.cancelling|
  }

  lemma {:induction false} OneLess(cfg: Settings, q: Queries, r: Queries, n: NodeId, k: nat)
    requires forall m: NodeId :: m != n ==> Work(cfg, r, m) <= Work(cfg, q, m)
    requires Work(cfg, r, n) < Work(cfg, q, n)
    ensures if n < k then WorkUpTo(cfg, r, k) < WorkUpTo(cfg, q, k) else WorkUpTo(cfg, r, k) <= WorkUpTo(cfg, q, k)
    decreases k
  {
    hide Work;
    if k > 0 { OneLess(cfg, q, r, n, k - 1); }
  }

  lemma {:induction false} NoneMore(cfg: Settings, q: Queries, r: Queries, k: nat)
    requires forall m: NodeId :: Work(cfg, r, m) <= Work(cfg, q, m)
    ensures WorkUpTo(cfg, r, k) <= WorkUpTo(cfg, q, k)
    decreases k
  {
    hide Work;
    if k > 0 { NoneMore(cfg, q, r, k - 1); }
  }

  lemma {:induction false} NoWork(cfg: Settings, q: Queries, k: nat, n: NodeId)
    requires WorkUpTo(cfg, q, k) == 0 && n < k
    ensures Work(cfg, q, n) == 0
    decreases k
  {
    hide Work;
    if n < k - 1 { NoWork(cfg, q, k - 1, n); }
  }

  lemma {:induction false} SomeWork(cfg: Settings, q: Queries, k: nat) returns (n: NodeId)
    requires WorkUpTo(cfg, q, k) > 0
    ensures n < k && Work(cfg, q, n) > 0
    decreases k
  {
    hide Work;
    if Work(cfg, q, k - 1) > 0 { n := k - 1; } else { n := SomeWork(cfg, q, k - 1); }
  }

  // ---------------------------------------------------------------------
  // Steps
  // ---------------------------------------------------------------------

  /** The steps the resolver makes without its callers or the network: live expiries, and all of a completion. */
  predicate Progresses(s: State, e: Event) {
    || (e.Expire? && e.n in s.q.nodes && s.q.nodes[e.n].id in s.q.byId)
    || e.NotifyNext? || e.CallBack? || e.CallCancelled? || e.FinishUp?
  }

  lemma RetransmitWorks(cfg: Settings, q: Queries, n: NodeId)
    requires n in q.nodes && q.nodes[n].place == Pending && q.nodes[n].timerOn && q.nodes[n].transmitCnt < QI.MaxTransmits(cfg)
    ensures forall m: NodeId :: m != n ==> Work(cfg, Retransmit(q, n), m) <= Work(cfg, q, m)
    ensures Work(cfg, Retransmit(q, n), n) < Work(cfg, q, n)
  {
  }

  lemma CompleteWorks(cfg: Settings, q: Queries, n: NodeId, ending: Ending)
    requires n in q.nodes && q.nodes[n].place == Pending && q.nodes[n].timerOn
    ensures forall m: NodeId :: m != n ==> Work(cfg, Complete(q, n, ending), m) <= Work(cfg, q, m)
    ensures Work(cfg, Complete(q, n, ending), n) < Work(cfg, q, n)
  {
  }

  lemma TakeNextWorks(cfg: Settings, q: Queries, n: NodeId)
    requires QI.CanTakeNext(q, n) && q.nodes[n].place == Completing
    ensures forall m: NodeId :: m != n ==> Work(cfg, TakeNext(q, n), m) <= Work(cfg, q, m)
    ensures Work(cfg, TakeNext(q, n), n) < Work(cfg, q, n)
  {
  }

  lemma CallWorks(cfg: Settings, q: Queries, n: NodeId, pkt: Packet)
    requires n in q.nodes && n in q.completing && q.nodes[n].place == Completing
    requires q.completing[n].inFlight.Some? && q.completing[n].inFlight.value < |q.fates|
    ensures forall m: NodeId :: m != n ==> Work(cfg, Call(q, n, pkt), m) <= Work(cfg, q, m)
    ensures Work(cfg, Call(q, n, pkt), n) < Work(cfg, q, n)
  {
  }

  lemma FinishWorks(cfg: Settings, q: Queries, n: NodeId)
    requires QI.CanFinish(q, n) && q.nodes[n].place == Completing
    ensures forall m: NodeId :: m != n ==> Work(cfg, Finish(q, n), m) <= Work(cfg, q, m)
    ensures Work(cfg, Finish(q, n), n) < Work(cfg, q, n)
  {
  }

  lemma CancelCallWorks(cfg: Settings, q: Queries, t: Ticket)
    requires t in q.cancelling && t < |q.fates|
    ensures forall m: NodeId :: Work(cfg, CancelCall(q, t), m) <= Work(cfg, q, m)
    ensures |CancelCall(q, t).cancelling| < |q.cancelling|
  {
  }

  /** A node that is being completed is known as such, and every node is counted. */
  lemma CompletingNode(s: State, n: NodeId)
    requires Good(s) && n in s.q.completing
    ensures n in s.q.nodes && s.q.nodes[n].place == Completing && s.q.completing[n].next <= |s.q.nodes[n].children| + 1
  {
    hide QI.Tables, QI.Families, QI.Tickets, QI.Notified, QI.Retrying, RC.Valid, Matched, Provenance;
  }

  lemma CountedNode(s: State, n: NodeId)
    requires Good(s)
    ensures n in s.q.nodes <==> n < s.q.nextNode
  {
    hide QI.Tables, QI.Families, QI.Tickets, QI.Notified, QI.Retrying, RC.Valid, Matched, Provenance;
  }

  lemma QueryWorks(s: State, s2: State, n: NodeId)
    requires Good(s) && n in s.q.nodes && s2.cfg == s.cfg && s2.q.nextNode == s.q.nextNode && s2.q.cancelling == s.q.cancelling
    requires forall m: NodeId :: m != n ==> Work(s.cfg, s2.q, m) <= Work(s.cfg, s.q, m)
    requires Work(s.cfg, s2.q, n) < Work(s.cfg, s.q, n)
    ensures WorkLeft(s2) < WorkLeft(s)
  {
    hide Good, Work;
    CountedNode(s, n);
    OneLess(s.cfg, s.q, s2.q, n, s.q.nextNode);
  }

  lemma ExpireWorks(s: State, e: Event)
    requires Good(s) && Sound(s) && Enabled(s, e) && e.Expire? && Progresses(s, e)
    ensures WorkLeft(Apply(s, e)) < WorkLeft(s)
  {
    hide QI.Valid, RC.Valid, Matched, Provenance, SelectionOk, TransmitOk, NsAfterTransmit, Complete, Retransmit, Work, WorkLeft;
    var n := e.n;
    ByIdIsPending(s.cfg, s.q, s.q.nodes[n].id);
    CompleteWorks(s.cfg, s.q, n, TimedOut);
    if s.q.nodes[n].transmitCnt < s.cfg.qretrCount { RetransmitWorks(s.cfg, s.q, n); }
    StepFrame(s.q, n);
    QueryWorks(s, Apply(s, e), n);
  }

  lemma StepFrame(q: Queries, n: NodeId)
    requires n in q.nodes
    ensures Complete(q, n, TimedOut).nextNode == Retransmit(q, n).nextNode == q.nextNode
    ensures Complete(q, n, TimedOut).cancelling == Retransmit(q, n).cancelling == q.cancelling
  {
  }

  /** Every step that the resolver makes by itself uses up some of the work. */
  lemma StepWorks(s: State, e: Event)
    requires Good(s) && Sound(s) && Enabled(s, e) && Progresses(s, e)
    ensures WorkLeft(Apply(s, e)) < WorkLeft(s)
  {
    hide Good, Update, Saved, Work;
    match e
    case Expire(n, now, sel, env) => ExpireWorks(s, e);
    case NotifyNext(n) =>
      CompletingNode(s, n);
      TakeNextWorks(s.cfg, s.q, n);
      QueryWorks(s, Apply(s, e), n);
    case CallBack(n, pkt) =>
      CompletingNode(s, n);
      CallWorks(s.cfg, s.q, n, pkt);
      QueryWorks(s, Apply(s, e), n);
    case FinishUp(n, now, dup) =>
      CompletingNode(s, n);
      FinishWorks(s.cfg, s.q, n);
      QueryWorks(s, Apply(s, e), n);
    case CallCancelled(t) =>
      CancelCallWorks(s.cfg, s.q, t);
      NoneMore(s.cfg, s.q, Apply(s, e).q, s.q.nextNode);
  }

  /** All steps of the run are of that kind. */
  ghost predicate AllProgress(s: State, evs: seq<Event>)
    decreases |evs|
  {
    evs == [] || (Sound(s) && Enabled(s, evs[0]) && Progresses(s, evs[0]) && AllProgress(Apply(s, evs[0]), evs[1..]))
  }

  /** Left to itself, the resolver makes no more steps than there is work. */
  lemma {:induction false} RunsEnd(s: State, evs: seq<Event>, s2: State)
    requires Good(s) && Runs(s, evs, s2) && AllProgress(s, evs)
    ensures |evs| + WorkLeft(s2) <= WorkLeft(s)
    decreases |evs|
  {
    hide Good, Sound, Enabled, Apply, Progresses, WorkLeft;
    if evs != [] {
      StepWorks(s, evs[0]);
      StepKeepsGood(s, evs[0]);
      RunsEnd(Apply(s, evs[0]), evs[1..], s2);
    }
  }

  // ---------------------------------------------------------------------
  // No work is stuck, and none is forgotten
  // ---------------------------------------------------------------------

  /** A completion can always go on. */
  lemma CompletionGoesOn(s: State, n: NodeId, now: Time) returns (e: Event)
    requires Good(s) && n in s.q.completing
    ensures Enabled(s, e) && Progresses(s, e)
  {
    hide Good, IsDup, SelectionOk, IsOrder;
    CompletingNode(s, n);
    var c := s.q.completing[n];
    var pkt := if c.ending.Answered? then c.ending.pkt else Packet(0, 0, [], [], [], []);
    if c.inFlight.Some? {
      e := CallBack(n, pkt);
    } else if c.next <= |s.q.nodes[n].children| {
      MembersAreNodes(s, n, c.next);
      e := NotifyNext(n);
    } else {
      CopyIsDup(pkt);
      e := FinishUp(n, now, pkt.(authority := [], additional := []));
    }
  }

  lemma MembersAreNodes(s: State, n: NodeId, k: nat)
    requires Good(s) && n in s.q.nodes && k <= |s.q.nodes[n].children|
    ensures Member(s.q, n, k) in s.q.nodes
  {
    hide QI.Tables, QI.Lists, QI.Tickets, QI.Notified, QI.Retrying, RC.Valid, Matched, Provenance;
  }

  lemma CopyIsDup(pkt: Packet)
    ensures IsDup(pkt, pkt.(authority := [], additional := []))
  {
  }

  /** While there is work, a timer is armed or some step is enabled. */
  lemma WorkGoesOn(s: State, now: Time)
    requires Good(s) && WorkLeft(s) > 0
    ensures (exists n :: n in s.q.nodes && s.q.nodes[n].place == Pending && s.q.nodes[n].timerOn)
            || exists e :: Enabled(s, e) && Progresses(s, e)
  {
    hide Good, Enabled;
    if s.q.cancelling != {} {
      var t :| t in s.q.cancelling;
      CancelGoesOn(s, t);
    } else {
      var n := SomeWork(s.cfg, s.q, s.q.nextNode);
      if n in s.q.completing { var e := CompletionGoesOn(s, n, now); }
    }
  }

  lemma CancelGoesOn(s: State, t: Ticket)
    requires t in s.q.cancelling
    ensures Enabled(s, CallCancelled(t)) && Progresses(s, CallCancelled(t))
  {
  }

  /** The node's query is pending, and a cancel has stopped its timer. */
  predicate IsStopped(q: Queries, n: NodeId) {
    n in q.nodes && q.nodes[n].place == Pending && q.nodes[n].stopped
  }

  /** The request waits for a query that a cancel has stopped. */
  predicate WaitsForStopped(q: Queries, n: NodeId) {
    || IsStopped(q, n)
    || (n in q.nodes && q.nodes[n].place.ChildOf? && IsStopped(q, q.nodes[n].place.parent))
  }

  /** When no work is left, every request is settled, but for those that wait for a stopped query. */
  lemma NothingForgotten(s: State, t: Ticket)
    requires Good(s) && WorkLeft(s) == 0 && t < |s.q.fates|
    ensures var fate := s.q.fates[t];
            fate.Delivered? || fate.Dropped? || (fate.Held? && WaitsForStopped(s.q, fate.node))
  {
    hide Good, WorkUpTo, Work;
    WhereItIs(s, t);
    var fate := s.q.fates[t];
    if fate.InCompletion? {
      NotCompleting(s, fate.query);
    } else if fate.Held? {
      HeldNode(s, fate.node);
      var n := fate.node;
      if s.q.nodes[n].place == Pending {
        NotWorking(s, n);
      } else if n in s.q.completing {
        NotCompleting(s, n);
      } else {
        var p := s.q.nodes[n].place.parent;
        if p in s.q.completing { NotCompleting(s, p); } else { NotWorking(s, p); }
      }
    }
  }

  lemma WhereItIs(s: State, t: Ticket)
    requires Good(s) && t < |s.q.fates|
    ensures QI.Located(s.q, t, s.q.fates[t])
  {
    hide QI.Tables, QI.Families, QI.Lists, QI.Notified, QI.Retrying, RC.Valid, Matched, Provenance;
  }

  lemma HeldNode(s: State, n: NodeId)
    requires Good(s) && n in s.q.nodes && s.q.nodes[n].cb.Live?
    ensures QI.WillBeNotified(s.q, n)
  {
    hide QI.Tables, QI.Tickets, QI.Retrying, RC.Valid, Matched, Provenance;
    QI.HeldIsReachable(s.q, n);
  }

  lemma NotCompleting(s: State, n: NodeId)
    requires Good(s) && WorkLeft(s) == 0
    ensures n !in s.q.completing
  {
    hide Good, WorkUpTo;
    if n in s.q.completing {
      CompletingNode(s, n);
      CountedNode(s, n);
      NoWork(s.cfg, s.q, s.q.nextNode, n);
    }
  }

  lemma NotWorking(s: State, n: NodeId)
    requires Good(s) && WorkLeft(s) == 0 && n in s.q.nodes && s.q.nodes[n].place == Pending
    ensures IsStopped(s.q, n)
  {
    CountedNode(s, n);
    NoWork(s.cfg, s.q, s.q.nextNode, n);
    hide QI.Tables, QI.Families, QI.Lists, QI.Tickets, QI.Notified, RC.Valid, Matched, Provenance, WorkUpTo;
  }
}
