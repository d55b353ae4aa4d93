/** What becomes of a call and of a response: found in the cache, accepted, stored. */
module ResolverOutcomes {
  import opened Bytes
  import opened Dns
  import opened NameServers
  import opened ResponseCache
  import opened Queries
  import opened ResolverRuns
  import opened ResolverReplies
  import opened ResolverTheorems
  import QI = QueryInvariant
  import RC = ResponseCache

  // ---------------------------------------------------------------------
  // Stored responses are found again
  // ---------------------------------------------------------------------

  /**
   * At time now a packet stored at time at is still to be used: not beyond the
   * configured maximum, nor the time to live of any of its answers; a failure,
   * or a packet without answers, for sixty seconds.
   */
  predicate StillGood(cfg: Settings, ok: bool, pkt: Packet, at: Time, now: Time) {
    && now < at + 1000 * cfg.cacheMaxTtl
    && if ok && pkt.answers != []
       then now < at + 1000 * 0xFFFF_FFFF && forall i :: 0 <= i < |pkt.answers| ==> now < at + 1000 * pkt.answers[i].ttl
       else now < at + 1000 * 60
  }

  lemma TtlIsBound(cfg: Settings, ok: bool, pkt: Packet, at: Time, now: Time)
    ensures now < at + 1000 * Ttl(cfg, ok, true, pkt) <==> StillGood(cfg, ok, pkt, at, now)
  {
    if ok && pkt.answers != [] {
      var m := MinTtl(pkt.answers);
      if now < at + 1000 * m {
        forall i | 0 <= i < |pkt.answers| ensures now < at + 1000 * pkt.answers[i].ttl { assert m <= pkt.answers[i].ttl; }
      }
    }
  }

  lemma UpdateFinds(cfg: Settings, c: Cache, key: Key, ok: bool, timed: bool, pkt: Packet, dup: Packet, now: Time, origin: Origin)
    requires RC.Valid(cfg, c)
    ensures key in c.table ==> c.table[key] in c.entries
    ensures var d := Update(cfg, c, key, ok, timed, pkt, dup, now, origin);
            if Ttl(cfg, ok, timed, pkt) == 0 then key !in d.table
            else key in d.table && d.table[key] in d.entries
                 && d.entries[d.table[key]].pkt == dup && d.entries[d.table[key]].expiry == Expiry(cfg, ok, timed, pkt, now)
  {
    hide RC.Valid, Ttl, Expiry, Remove;
    RC.LinkedTable(cfg, c, key);
    RC.RemoveKeepsValid(cfg, c, key);
  }

  /** A response that is not truncated is found under the key of its query for as long as it is good, and no longer. */
  lemma ResponseIsFound(s: State, e: Event, later: Time)
    requires Good(s) && Sound(s) && Enabled(s, e) && e.FinishUp? && !s.shuttingDown
    requires s.q.completing[e.n].ending.Answered? && later >= e.now
    ensures var ending, key := s.q.completing[e.n].ending, s.q.nodes[e.n].key;
            var c := Apply(s, e).c;
            if ending.pkt.flags / 0x200 % 2 == 1 then c == s.c
            else
              && (Fresh(c, key, later) <==> StillGood(s.cfg, ending.response.flags % 16 == 0, ending.pkt, e.now, later))
              && (Fresh(c, key, later) ==> c.entries[c.table[key]].pkt == e.dup)
  {
    hide QI.Valid, RC.Valid, Matched, Provenance, Update, Ttl, StillGood, Finish, IsDup, Sound;
    var ending, key := s.q.completing[e.n].ending, s.q.nodes[e.n].key;
    var ok := ending.response.flags % 16 == 0;
    KeyIsSound(s, key);
    UpdateFinds(s.cfg, s.c, key, ok, true, ending.pkt, e.dup, e.now, Network(ending.response));
    TtlIsBound(s.cfg, ok, ending.pkt, e.now, later);
  }

  /** The first answer, or in a packet without answers the first question, is about the name. */
  predicate IsAbout(pkt: Packet, qtype: nat, name: Name) {
    if pkt.answers != []
    then pkt.answers[0].rtype == qtype && 0 !in pkt.answers[0].name && SameText(pkt.answers[0].name, name)
    else pkt.questions != [] && pkt.questions[0].qtype == qtype && 0 !in pkt.questions[0].name
         && SameText(pkt.questions[0].name, name)
  }

  /** A packet that was added without an expiry is good until the largest time, if anything is cached at all. */
  predicate GoodForever(cfg: Settings, now: Time) {
    cfg.cacheMaxTtl > 0 && now < 2147483647 * 1000
  }

  /** An injected packet is found under the name of its first answer, or of its question, whatever the letter case. */
  lemma InjectedIsFound(s: State, e: Event, qtype: nat, name: Name, later: Time)
    requires Good(s) && Sound(s) && Enabled(s, e) && e.Inject? && later >= e.now
    requires e.pkt.flags / 0x8000 % 2 == 1 && qtype < 0x1_0000 && |name| < 254 && 0 !in name
    requires IsAbout(e.pkt, qtype, name)
    ensures var c, key := Apply(s, e).c, InitKey(qtype, name);
            && (Fresh(c, key, later) <==>
                  if e.timed then StillGood(s.cfg, true, e.pkt, e.now, later) else GoodForever(s.cfg, later))
            && (Fresh(c, key, later) ==> c.entries[c.table[key]].pkt == e.dup)
  {
    hide QI.Valid, RC.Valid, Matched, Provenance, Update, Ttl, StillGood, IsDup, Sound, InitKey, SameText;
    var asked := if e.pkt.answers != [] then e.pkt.answers[0].name else e.pkt.questions[0].name;
    SameKey(qtype, asked, name);
    KeyIsSound(s, InitKey(qtype, name));
    UpdateFinds(s.cfg, s.c, InitKey(qtype, name), true, e.timed, e.pkt, e.dup, e.now, Injected);
    TtlIsBound(s.cfg, true, e.pkt, e.now, later);
    UntimedTtl(s.cfg, e.pkt);
  }

  lemma UntimedTtl(cfg: Settings, pkt: Packet)
    ensures Ttl(cfg, true, false, pkt) > 0 <==> cfg.cacheMaxTtl > 0
  {
  }

  /** Names that differ in letter case only have one key. */
  lemma SameKey(qtype: nat, a: Name, b: Name)
    requires |b| < 254 && 0 !in a && 0 !in b && qtype < 0x1_0000 && SameText(a, b)
    ensures |a| == |b| && InitKey(qtype, a) == InitKey(qtype, b)
  {
    SameTextWithoutNul(a, b);
    forall i | 0 <= i < |a| ensures Lower(a[i]) == Lower(b[i]) { assert SameLetter(a[i], b[i]); }
    SameNameWithoutNul(a, b);
    KeyFoldsCase(qtype, a, qtype, b);
  }

  // ---------------------------------------------------------------------
  // Calls
  // ---------------------------------------------------------------------

  /** A call that is refused at once: a name or a type out of range, or a resolver that is being destroyed. */
  predicate IsRefused(s: State, e: Event)
    requires e.Start?
  {
    |e.name| == 0 || |e.name| >= 254 || e.qtype == 0 || e.qtype >= 0xFFFF || s.shuttingDown
  }

  /** A call for a name with a fresh response: its callback runs on the packet, and no query is started. */
  lemma CallFindsResponse(s: State, e: Event)
    requires Good(s) && Sound(s) && Enabled(s, e) && e.Start? && !IsRefused(s, e)
    requires Fresh(s.c, InitKey(e.qtype, e.name), e.now)
    ensures Apply(s, e).q == s.q && Apply(s, e).ns == s.ns
    ensures var r, key := s.c.nextReader, InitKey(e.qtype, e.name);
            && r !in s.c.readers && r in Apply(s, e).c.readers
            && key in s.c.stored && IsDup(s.c.stored[key].pkt, Apply(s, e).c.readers[r].pkt)
            && Apply(s, e).c.readers[r].pkt == s.c.entries[s.c.table[key]].pkt
  {
    hide QI.Valid, RC.Counted, RC.Pools, Matched, Provenance, IsDup, InitKey, Sound, Ttl, Expiry;
    KeyIsSound(s, InitKey(e.qtype, e.name));
  }

  /** A transmission: a server to send to, a timer, and a socket that is busy or sends to one server. */
  predicate GetsOut(s: State, e: Event)
    requires e.Start? || e.Expire?
  {
    && (e.Start? ==> e.id != 0) && s.ns != [] && e.sel.servers != [] && e.env.scheduled
    && (e.env.busy || (e.env.made && exists i :: i in e.sel.servers && i in e.env.usable && i in e.env.sent))
  }

  lemma EnqueueAccepts(s: State, now: Time, key: Key, hasCb: bool, id: nat, sel: Selection, env: TxEnv)
    requires key in s.q.byKey ==> s.q.byKey[key] in s.q.nodes
    ensures var accepted := hasCb && (key in s.q.byKey || (id != 0 && TransmitOk(s, sel, env)));
            |Enqueue(s, now, key, hasCb, id, sel, env).q.fates| == |s.q.fates| + (if accepted then 1 else 0)
    ensures key in Enqueue(s, now, key, hasCb, id, sel, env).q.byKey <==> key in s.q.byKey || (id != 0 && TransmitOk(s, sel, env))
  {
    hide TransmitOk, NsAfterTransmit, Join, Begin, Refuse;
    NewAccepts(s.q, key, id, hasCb);
    if key in s.q.byKey { JoinAccepts(s.q, key, hasCb); }
  }

  lemma JoinAccepts(q: Queries, key: Key, hasCb: bool)
    requires key in q.byKey && q.byKey[key] in q.nodes
    ensures |Join(q, key, hasCb).fates| == |q.fates| + (if hasCb then 1 else 0) && key in Join(q, key, hasCb).byKey
  {
  }

  lemma NewAccepts(q: Queries, key: Key, id: nat, hasCb: bool)
    ensures |Begin(q, key, id, hasCb).fates| == |q.fates| + (if hasCb then 1 else 0) && key in Begin(q, key, id, hasCb).byKey
    ensures |Refuse(q, hasCb).fates| == |q.fates| && Refuse(q, hasCb).byKey == q.byKey
  {
  }

  /**
   * A call with no fresh response: it is accepted exactly if a query for the
   * name, up to letter case, is pending or its own gets out; then a query for
   * the name is pending, and the callback, if any, gets a ticket.
   */
  lemma CallIsAccepted(s: State, e: Event)
    requires Good(s) && Sound(s) && Enabled(s, e) && e.Start? && !IsRefused(s, e)
    requires !Fresh(s.c, InitKey(e.qtype, e.name), e.now)
    ensures var r, key := Apply(s, e).q, InitKey(e.qtype, e.name);
            && (key in r.byKey <==> key in s.q.byKey || GetsOut(s, e))
            && |r.fates| == |s.q.fates| + (if e.hasCb && key in r.byKey then 1 else 0)
  {
    hide QI.Valid, RC.Valid, Matched, Provenance, InitKey, Sound, Enqueue, Remove, SelectionOk;
    var key := InitKey(e.qtype, e.name);
    KeyIsSound(s, key);
    EnqueueAccepts(s.(c := Remove(s.c, key)), e.now, key, e.hasCb, e.id, e.sel, e.env);
  }

  /** A call that is refused at once changes nothing. */
  lemma RefusedChangesNothing(s: State, e: Event)
    requires Sound(s) && Enabled(s, e) && e.Start? && IsRefused(s, e)
    ensures Apply(s, e) == s
  {
    hide Sound, InitKey, Enqueue;
  }

  // ---------------------------------------------------------------------
  // Expiries
  // ---------------------------------------------------------------------

  /** An expiry ends the query exactly if it has been transmitted qretr_count times, or does not get out again. */
  lemma ExpiryEnds(s: State, e: Event)
    requires Good(s) && Sound(s) && Enabled(s, e) && e.Expire? && IsPending(s, e.n)
    ensures !IsPending(Apply(s, e), e.n) <==> s.q.nodes[e.n].transmitCnt >= s.cfg.qretrCount || !GetsOut(s, e)
    ensures IsPending(Apply(s, e), e.n) ==> Apply(s, e).q.nodes[e.n].transmitCnt == s.q.nodes[e.n].transmitCnt + 1
  {
    hide QI.Valid, RC.Valid, Matched, Provenance, Sound, SelectionOk, NsAfterTransmit;
    PendingHasId(s.cfg, s.q, e.n);
  }

  /**
   * Over any run in which a query stays pending: its next expiry ends it
   * exactly if its transmissions, one more for each expiry before, have come
   * to qretr_count, or it does not get out again.
   */
  lemma TimesOutAfter(s: State, evs: seq<Event>, s2: State, e: Event)
    requires Good(s) && Runs(s, evs, s2) && e.Expire? && StaysPending(s, evs, e.n)
    requires Sound(s2) && Enabled(s2, e)
    ensures IsPending(s, e.n)
    ensures !IsPending(Apply(s2, e), e.n) <==>
              s.q.nodes[e.n].transmitCnt + Expiries(evs, e.n) >= s.cfg.qretrCount || !GetsOut(s2, e)
  {
    hide Good, Sound, Enabled, Apply, GetsOut;
    assert IsPending(s, e.n);
    ExpiriesBounded(s, evs, s2, e.n);
    RunKeepsGood(s, evs, s2);
    ExpiryEnds(s2, e);
  }

  // ---------------------------------------------------------------------
  // Responses
  // ---------------------------------------------------------------------

  /**
   * A packet ends the query for a name exactly if it comes from a configured
   * server, or that is not checked, and is a response with the query's
   * transaction id that answers the question about the name.
   */
  lemma ResponseEnds(s: State, e: Event, n: NodeId, qtype: nat, name: Name)
    requires Good(s) && Sound(s) && Enabled(s, e) && e.Receive? && IsPending(s, n)
    requires |name| < 254 && qtype < 0x1_0000 && s.q.nodes[n].key == InitKey(qtype, name)
    ensures !IsPending(Apply(s, e), n) <==>
              && (s.cfg.disableSrcCheck || exists i :: 0 <= i < |s.ns| && s.ns[i].addr == e.src)
              && e.parsed.Some? && e.parsed.value.flags / 0x8000 % 2 == 1 && e.parsed.value.id == s.q.nodes[n].id
              && IsAnswerTo(e.parsed.value, qtype, name)
  {
    hide QI.Valid, RC.Valid, Matched, Provenance, Sound, Answers, AfterReport, InitKey, IsAnswerTo;
    PendingHasId(s.cfg, s.q, n);
    if e.parsed.Some? {
      AnswersExactly(e.parsed.value, qtype, name);
      if e.parsed.value.id in s.q.byId { ByIdIsPending(s.cfg, s.q, e.parsed.value.id); }
    }
  }
}
