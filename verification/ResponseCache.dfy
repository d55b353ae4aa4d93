/**
 * The reference-counted response cache of resolver.c. An entry is used by the
 * application's callback while the lock is released, so each lock-held section
 * is one step here and a running callback is a reader in the state.
 */
module ResponseCache {
  import opened Bytes
  import opened Dns
  import opened NameServers

  const MAX_HOSTNAME: nat := 254
  const INVALID_TTL: nat := 60
  const NO_TTL: nat := 0xFFFF_FFFF
  const FOREVER: Time := 0x7FFF_FFFF * 1000

  /** The lookup key: the type and the lower-cased name in a zeroed buffer. */
  datatype Key = Key(qtype: nat, name: bytes)

  function InitKey(qtype: nat, name: Name): (k: Key)
    ensures |k.name| == MAX_HOSTNAME && k.name[MAX_HOSTNAME - 1] == 0
  {
    var n := if |name| >= MAX_HOSTNAME then MAX_HOSTNAME - 1 else |name|;
    Key(qtype % 0x1_0000, seq(MAX_HOSTNAME, i requires 0 <= i < MAX_HOSTNAME => if i < n then Lower(name[i]) else 0))
  }

  lemma KeyTellsLength(t: nat, a: Name, u: nat, b: Name)
    requires |a| < |b| < MAX_HOSTNAME && 0 !in b
    ensures InitKey(t, a).name[|a|] != InitKey(u, b).name[|a|]
  {
    assert b[|a|] in b;
  }

  /** Two names that fit, without NUL, have the same key exactly when they differ in letter case only. */
  lemma KeyFoldsCase(t: nat, a: Name, u: nat, b: Name)
    requires |a| < MAX_HOSTNAME && |b| < MAX_HOSTNAME && 0 !in a && 0 !in b
    requires t < 0x1_0000 && u < 0x1_0000
    ensures InitKey(t, a) == InitKey(u, b) <==> t == u && SameName(a, b)
  {
    var k, l := InitKey(t, a).name, InitKey(u, b).name;
    SameNameWithoutNul(a, b);
    if |a| < |b| {
      KeyTellsLength(t, a, u, b);
    } else if |b| < |a| {
      KeyTellsLength(u, b, t, a);
    } else {
      assert forall i :: 0 <= i < |a| ==> k[i] == Lower(a[i]) && l[i] == Lower(b[i]);
      assert (forall i :: 0 <= i < |a| ==> k[i] == l[i]) ==> k == l;
    }
  }

  type EntryId = nat
  type ReaderId = nat

  /** A cache entry whose pool has not been released. */
  datatype Entry = Entry(pkt: Packet, expiry: Time, refCnt: int)

  /** A callback that is running on an entry's packet. */
  datatype Reader = Reader(entry: EntryId, pkt: Packet)

  /** Where a stored packet came from. */
  datatype Origin = Injected | Network(response: Packet)

  /** The last packet stored under a key, when and with what expiry policy. */
  datatype Stored = Stored(pkt: Packet, at: Time, timed: bool, ok: bool, origin: Origin)

  /**
   * table, entries and readers are the cache; released and stored record
   * what has happened: the pools released, and the last packet stored per key.
   */
  datatype Cache = Cache(table: map<Key, EntryId>, entries: map<EntryId, Entry>, readers: map<ReaderId, Reader>,
                         nextEntry: nat, nextReader: nat, released: seq<EntryId>, stored: map<Key, Stored>)

  const EMPTY := Cache(map[], map[], map[], 0, 0, [], map[])

  // ---------------------------------------------------------------------
  // Steps
  // ---------------------------------------------------------------------

  /** Gives up one reference to an entry and releases its pool with the last one. */
  function Unref(c: Cache, e: EntryId): Cache
    requires e in c.entries
  {
    var refCnt := c.entries[e].refCnt - 1;
    if refCnt <= 0 then c.(entries := c.entries - {e}, released := c.released + [e])
    else c.(entries := c.entries[e := c.entries[e].(refCnt := refCnt)])
  }

  /** Removes a key from the table together with the table's reference. */
  function Remove(c: Cache, key: Key): Cache
    requires key in c.table ==> c.table[key] in c.entries
  {
    if key !in c.table then c else Unref(c.(table := c.table - {key}), c.table[key])
  }

  predicate Fresh(c: Cache, key: Key, now: Time) {
    key in c.table && c.table[key] in c.entries && c.entries[c.table[key]].expiry > now
  }

  /** A hit: the callback starts to run on the entry. */
  function Hit(c: Cache, key: Key): Cache
    requires key in c.table && c.table[key] in c.entries
  {
    var e := c.table[key];
    var entry := c.entries[e];
    c.(entries := c.entries[e := entry.(refCnt := entry.refCnt + 1)],
       readers := c.readers[c.nextReader := Reader(e, entry.pkt)],
       nextReader := c.nextReader + 1)
  }

  /** The callback returns. */
  function Done(c: Cache, r: ReaderId): Cache
    requires r in c.readers && c.readers[r].entry in c.entries
  {
    Unref(c.(readers := c.readers - {r}), c.readers[r].entry)
  }

  function MinTtl(answers: seq<Record>): (m: nat)
    ensures m <= NO_TTL
    ensures forall i :: 0 <= i < |answers| ==> m <= answers[i].ttl
    ensures m == NO_TTL || exists i :: 0 <= i < |answers| && m == answers[i].ttl
  {
    if answers == [] then NO_TTL else
      var k := |answers| - 1;
      var least := MinTtl(answers[..k]);
      if answers[k].ttl < least then answers[k].ttl else least
  }

  /** The time to live of a packet in the cache, in seconds. */
  function Ttl(cfg: Settings, ok: bool, timed: bool, pkt: Packet): nat {
    var ttl := if !timed then NO_TTL else if pkt.answers == [] || !ok then INVALID_TTL else MinTtl(pkt.answers);
    if ttl > cfg.cacheMaxTtl then cfg.cacheMaxTtl else ttl
  }

  function Expiry(cfg: Settings, ok: bool, timed: bool, pkt: Packet, now: Time): Time {
    if timed then now + 1000 * Ttl(cfg, ok, timed, pkt) else FOREVER
  }

  /** Puts a new entry in the table. */
  function Insert(c: Cache, key: Key, dup: Packet, expiry: Time): Cache {
    c.(table := c.table[key := c.nextEntry],
       entries := c.entries[c.nextEntry := Entry(dup, expiry, 1)],
       nextEntry := c.nextEntry + 1)
  }

  /** Reuses the pool of the key's entry for a new packet. */
  function Reset(c: Cache, key: Key, dup: Packet, expiry: Time): Cache
    requires key in c.table && c.table[key] in c.entries
  {
    c.(entries := c.entries[c.table[key] := Entry(dup, expiry, c.entries[c.table[key]].refCnt)])
  }

  /** update_res_cache: a failure clears the key first; a zero time to live leaves nothing stored. */
  function Update(cfg: Settings, c: Cache, key: Key, ok: bool, timed: bool, pkt: Packet, dup: Packet,
                  now: Time, origin: Origin): Cache
    requires key in c.table ==> c.table[key] in c.entries
  {
    var c1 := if ok then c else Remove(c, key);
    if Ttl(cfg, ok, timed, pkt) == 0 then
      if ok then Remove(c1, key) else c1
    else
      var expiry := Expiry(cfg, ok, timed, pkt, now);
      var c2 :=
        if !ok || key !in c1.table then Insert(c1, key, dup, expiry)
        else if c1.entries[c1.table[key]].refCnt > 1 then Insert(Remove(c1, key), key, dup, expiry)
        else Reset(c1, key, dup, expiry);
      c2.(stored := c2.stored[key := Stored(pkt, now, timed, ok, origin)])
  }

  // ---------------------------------------------------------------------
  // Invariant
  // ---------------------------------------------------------------------

  function ReadersOf(c: Cache, e: EntryId): set<ReaderId> {
    set r | r in c.readers && c.readers[r].entry == e
  }

  predicate InTable(c: Cache, e: EntryId) {
    exists k :: k in c.table && c.table[k] == e
  }

  /** An entry's count is one for the table, if it is there, plus one for each running callback. */
  ghost predicate Counted(c: Cache) {
    forall e :: e in c.entries ==>
      && c.entries[e].refCnt == |ReadersOf(c, e)| + (if InTable(c, e) then 1 else 0)
      && c.entries[e].refCnt >= 1
  }

  /** No two keys share an entry, and the table and the running callbacks use live pools only. */
  ghost predicate Linked(c: Cache) {
    && (forall k :: k in c.table ==> c.table[k] in c.entries)
    && (forall k, l :: k in c.table && l in c.table && c.table[k] == c.table[l] ==> k == l)
    && (forall r :: r in c.readers ==> r < c.nextReader)
    && (forall r :: r in c.readers ==>
          c.readers[r].entry in c.entries && c.entries[c.readers[r].entry].pkt == c.readers[r].pkt)
  }

  /** Every pool ever created is either live or released, and released once. */
  ghost predicate Pools(c: Cache) {
    && (forall e :: e in c.entries ==> e < c.nextEntry)
    && (forall i :: 0 <= i < |c.released| ==> c.released[i] < c.nextEntry && c.released[i] !in c.entries)
    && (forall i, j :: 0 <= i < j < |c.released| ==> c.released[i] != c.released[j])
    && (forall e: nat :: e < c.nextEntry ==> e in c.entries || e in c.released)
  }

  /** What the table holds is what was last stored under the key. */
  ghost predicate Faithful(cfg: Settings, c: Cache) {
    forall k :: k in c.table ==>
      && k in c.stored && c.table[k] in c.entries
      && var e, s := c.entries[c.table[k]], c.stored[k];
         && IsDup(s.pkt, e.pkt)
         && Ttl(cfg, s.ok, s.timed, s.pkt) > 0
         && e.expiry == Expiry(cfg, s.ok, s.timed, s.pkt, s.at)
  }

  ghost predicate Valid(cfg: Settings, c: Cache) {
    Counted(c) && Linked(c) && Pools(c) && Faithful(cfg, c)
  }

  // ---------------------------------------------------------------------
  // Every step keeps the invariant
  // ---------------------------------------------------------------------

  lemma EmptyIsValid(cfg: Settings)
    ensures Valid(cfg, EMPTY)
  {
  }

  /** An entry of which one reference is about to be given up. */
  ghost predicate OneExtra(c: Cache, e: EntryId) {
    && e in c.entries
    && c.entries[e].refCnt == |ReadersOf(c, e)| + (if InTable(c, e) then 1 else 0) + 1
    && forall f :: f in c.entries && f != e ==>
         && c.entries[f].refCnt == |ReadersOf(c, f)| + (if InTable(c, f) then 1 else 0)
         && c.entries[f].refCnt >= 1
  }

  /** Faithful looks at the packets and expiry times of table entries only. */
  lemma FaithfulFrame(cfg: Settings, c: Cache, d: Cache)
    requires Faithful(cfg, c) && d.stored == c.stored
    requires forall k :: k in d.table ==> k in c.table && d.table[k] == c.table[k]
    requires forall k :: k in d.table ==>
      && d.table[k] in d.entries && c.table[k] in c.entries
      && d.entries[d.table[k]].pkt == c.entries[c.table[k]].pkt
      && d.entries[d.table[k]].expiry == c.entries[c.table[k]].expiry
    ensures Faithful(cfg, d)
  {
    hide Ttl, Expiry, IsDup;
  }

  /** The last reference to an entry is neither the table's nor a running callback's. */
  lemma LastReference(c: Cache, e: EntryId)
    requires OneExtra(c, e) && c.entries[e].refCnt <= 1
    ensures forall k :: k in c.table ==> c.table[k] != e
    ensures forall r :: r in c.readers ==> c.readers[r].entry != e
  {
    forall k | k in c.table ensures c.table[k] != e {
      assert c.table[k] == e ==> InTable(c, e);
    }
    assert ReadersOf(c, e) == {};
    forall r | r in c.readers ensures c.readers[r].entry != e {
      assert r !in ReadersOf(c, e);
    }
  }

  lemma UnrefKeepsCounted(c: Cache, e: EntryId)
    requires OneExtra(c, e)
    ensures Counted(Unref(c, e))
  {
    var d := Unref(c, e);
    assert forall f :: InTable(d, f) == InTable(c, f);
    assert forall f :: ReadersOf(d, f) == ReadersOf(c, f);
  }

  lemma UnrefKeepsPools(c: Cache, e: EntryId)
    requires Pools(c) && e in c.entries
    ensures Pools(Unref(c, e))
  {
    var d := Unref(c, e);
    if c.entries[e].refCnt - 1 <= 0 {
      forall x: nat | x < d.nextEntry ensures x in d.entries || x in d.released {
        assert d.released[|c.released|] == e;
        if x in c.released {
          var i :| 0 <= i < |c.released| && c.released[i] == x;
          assert d.released[i] == x;
        }
      }
    }
  }

  lemma UnrefKeepsLinked(cfg: Settings, c: Cache, e: EntryId)
    requires Linked(c) && Faithful(cfg, c) && e in c.entries
    requires c.entries[e].refCnt <= 1 ==> forall k :: k in c.table ==> c.table[k] != e
    requires c.entries[e].refCnt <= 1 ==> forall r :: r in c.readers ==> c.readers[r].entry != e
    ensures Linked(Unref(c, e)) && Faithful(cfg, Unref(c, e))
  {
    hide Faithful;
    FaithfulFrame(cfg, c, Unref(c, e));
  }

  lemma UnrefKeepsValid(cfg: Settings, c: Cache, e: EntryId)
    requires OneExtra(c, e) && Linked(c) && Pools(c) && Faithful(cfg, c)
    ensures Valid(cfg, Unref(c, e))
  {
    assert e in c.entries;
    hide Faithful, Pools, Counted, Linked, Unref;
    UnrefKeepsCounted(c, e);
    UnrefKeepsPools(c, e);
    if c.entries[e].refCnt <= 1 { LastReference(c, e); }
    UnrefKeepsLinked(cfg, c, e);
  }

  lemma RemoveLeavesExtra(c: Cache, key: Key)
    requires Counted(c) && Linked(c) && key in c.table
    ensures OneExtra(c.(table := c.table - {key}), c.table[key])
  {
    var e := c.table[key];
    var c' := c.(table := c.table - {key});
    assert forall f :: ReadersOf(c', f) == ReadersOf(c, f);
    assert InTable(c, e) && !InTable(c', e);
    forall f | f in c.entries && f != e ensures InTable(c', f) == InTable(c, f) {
      if InTable(c, f) {
        var k :| k in c.table && c.table[k] == f;
        assert k in c'.table && c'.table[k] == f;
      }
    }
  }

  lemma RemoveKeepsValid(cfg: Settings, c: Cache, key: Key)
    requires Valid(cfg, c)
    ensures Valid(cfg, Remove(c, key)) && key !in Remove(c, key).table
  {
    hide Faithful, Counted, Pools, OneExtra;
    if key in c.table {
      var c' := c.(table := c.table - {key});
      RemoveLeavesExtra(c, key);
      PoolsFrame(c, c');
      FaithfulFrame(cfg, c, c');
      UnrefKeepsValid(cfg, c', c.table[key]);
    }
  }

  lemma HitKeepsCounted(c: Cache, key: Key)
    requires Counted(c) && Linked(c) && key in c.table
    ensures Counted(Hit(c, key))
  {
    hide InTable, ReadersOf, Linked;
    LinkedKey(c, key);
    var d := Hit(c, key);
    forall f | f in d.entries
      ensures d.entries[f].refCnt == |ReadersOf(d, f)| + (if InTable(d, f) then 1 else 0) && d.entries[f].refCnt >= 1
    {
      HitReaders(c, key, f);
    }
  }

  lemma LinkedKey(c: Cache, key: Key)
    requires Linked(c) && key in c.table
    ensures c.table[key] in c.entries && c.nextReader !in c.readers
  {
  }

  lemma HitReaders(c: Cache, key: Key, f: EntryId)
    requires key in c.table && c.table[key] in c.entries && c.nextReader !in c.readers
    ensures InTable(Hit(c, key), f) == InTable(c, f)
    ensures |ReadersOf(Hit(c, key), f)| == |ReadersOf(c, f)| + (if f == c.table[key] then 1 else 0)
  {
    hide InTable, ReadersOf;
    HitTable(c, key, f);
    HitReaderSet(c, key, f);
  }

  lemma HitTable(c: Cache, key: Key, f: EntryId)
    requires key in c.table && c.table[key] in c.entries
    ensures InTable(Hit(c, key), f) == InTable(c, f)
  {
    assert Hit(c, key).table == c.table;
  }

  lemma HitReaderSet(c: Cache, key: Key, f: EntryId)
    requires key in c.table && c.table[key] in c.entries && c.nextReader !in c.readers
    ensures ReadersOf(Hit(c, key), f) == ReadersOf(c, f) + (if f == c.table[key] then {c.nextReader} else {})
    ensures c.nextReader !in ReadersOf(c, f)
  {
    var d := Hit(c, key);
    forall r ensures r in ReadersOf(d, f) <==> r in ReadersOf(c, f) || (r == c.nextReader && f == c.table[key]) {
      assert r in d.readers <==> r in c.readers || r == c.nextReader;
    }
  }

  lemma HitKeepsValid(cfg: Settings, c: Cache, key: Key)
    requires Valid(cfg, c) && key in c.table
    ensures Valid(cfg, Hit(c, key))
  {
    hide Faithful, Counted;
    HitKeepsCounted(c, key);
    var d := Hit(c, key);
    assert Linked(d);
    FaithfulFrame(cfg, c, d);
  }

  lemma DoneKeepsValid(cfg: Settings, c: Cache, r: ReaderId)
    requires Valid(cfg, c) && r in c.readers
    ensures Valid(cfg, Done(c, r))
  {
    hide Faithful, Pools, Unref;
    var e := c.readers[r].entry;
    var c' := c.(readers := c.readers - {r});
    assert forall f :: InTable(c', f) == InTable(c, f);
    assert ReadersOf(c', e) == ReadersOf(c, e) - {r} && r in ReadersOf(c, e);
    assert forall f :: f != e ==> ReadersOf(c', f) == ReadersOf(c, f);
    PoolsFrame(c, c');
    FaithfulFrame(cfg, c, c');
    UnrefKeepsValid(cfg, c', e);
  }

  lemma PoolsFrame(c: Cache, d: Cache)
    requires Pools(c) && d.entries.Keys == c.entries.Keys && d.released == c.released && d.nextEntry == c.nextEntry
    ensures Pools(d)
  {
    assert forall e :: e in d.entries <==> e in c.entries.Keys;
  }

  /** Valid but for what is stored under key, which is about to be recorded. */
  ghost predicate ValidBut(cfg: Settings, c: Cache, key: Key) {
    && Counted(c) && Linked(c) && Pools(c)
    && Faithful(cfg, c.(table := c.table - {key}))
  }

  lemma InsertKeepsCounted(c: Cache, key: Key, dup: Packet, expiry: Time)
    requires Counted(c) && Linked(c) && Pools(c) && key !in c.table
    ensures Counted(Insert(c, key, dup, expiry))
  {
    var d, e := Insert(c, key, dup, expiry), c.nextEntry;
    assert d.table[key] == e && InTable(d, e);
    assert ReadersOf(c, e) == {} && forall f :: ReadersOf(d, f) == ReadersOf(c, f);
    forall f | f in c.entries ensures InTable(d, f) == InTable(c, f) {
      if InTable(c, f) {
        var k :| k in c.table && c.table[k] == f;
        assert k in d.table && d.table[k] == f;
      }
    }
  }

  lemma InsertKeepsValid(cfg: Settings, c: Cache, key: Key, dup: Packet, expiry: Time)
    requires Valid(cfg, c) && key !in c.table
    ensures ValidBut(cfg, Insert(c, key, dup, expiry), key)
  {
    hide Faithful, Counted;
    InsertKeepsCounted(c, key, dup, expiry);
    var d, e := Insert(c, key, dup, expiry), c.nextEntry;
    assert e !in c.released;
    assert Pools(d);
    assert Linked(d);
    FaithfulFrame(cfg, c, d.(table := d.table - {key}));
  }

  /** Only an entry that no callback is using is reset. */
  lemma ResetIsUnused(c: Cache, key: Key)
    requires Counted(c) && key in c.table && c.table[key] in c.entries && c.entries[c.table[key]].refCnt <= 1
    ensures forall r :: r in c.readers ==> c.readers[r].entry != c.table[key]
  {
    var e := c.table[key];
    assert InTable(c, e);
    assert |ReadersOf(c, e)| == 0;
    forall r | r in c.readers ensures c.readers[r].entry != e {
      assert c.readers[r].entry == e ==> r in ReadersOf(c, e);
    }
  }

  lemma CountedFrame(c: Cache, d: Cache)
    requires Counted(c) && d.table == c.table && d.readers == c.readers
    requires forall e :: e in d.entries ==> e in c.entries && d.entries[e].refCnt == c.entries[e].refCnt
    ensures Counted(d)
  {
    assert forall f :: InTable(d, f) == InTable(c, f);
    assert forall f :: ReadersOf(d, f) == ReadersOf(c, f);
  }

  lemma ResetKeepsValid(cfg: Settings, c: Cache, key: Key, dup: Packet, expiry: Time)
    requires Valid(cfg, c) && key in c.table && c.entries[c.table[key]].refCnt <= 1
    ensures ValidBut(cfg, Reset(c, key, dup, expiry), key)
  {
    hide Faithful, Counted;
    var d := Reset(c, key, dup, expiry);
    ResetIsUnused(c, key);
    CountedFrame(c, d);
    assert Linked(d);
    FaithfulFrame(cfg, c, d.(table := d.table - {key}));
  }

  lemma RecordKeepsValid(cfg: Settings, c: Cache, key: Key, s: Stored)
    requires ValidBut(cfg, c, key) && key in c.table
    requires Ttl(cfg, s.ok, s.timed, s.pkt) > 0
    requires IsDup(s.pkt, c.entries[c.table[key]].pkt)
    requires c.entries[c.table[key]].expiry == Expiry(cfg, s.ok, s.timed, s.pkt, s.at)
    ensures Valid(cfg, c.(stored := c.stored[key := s]))
  {
    hide Ttl, Expiry, IsDup, Counted;
    var d := c.(stored := c.stored[key := s]);
    var c' := c.(table := c.table - {key});
    CountedFrame(c, d);
    assert forall k :: k in c.table && k != key ==> k in c'.table;
  }

  /** update_res_cache keeps the cache valid; in particular it never resets an entry in use. */
  lemma UpdateKeepsValid(cfg: Settings, c: Cache, key: Key, ok: bool, timed: bool, pkt: Packet, dup: Packet,
                         now: Time, origin: Origin)
    requires Valid(cfg, c) && IsDup(pkt, dup)
    ensures Valid(cfg, Update(cfg, c, key, ok, timed, pkt, dup, now, origin))
  {
    hide Counted, Linked, Pools, Faithful, Ttl, Expiry, IsDup, Remove, Unref;
    LinkedTable(cfg, c, key);
    RemoveKeepsValid(cfg, c, key);
    var c1 := if ok then c else Remove(c, key);
    if Ttl(cfg, ok, timed, pkt) != 0 {
      var expiry := Expiry(cfg, ok, timed, pkt, now);
      var s := Stored(pkt, now, timed, ok, origin);
      if !ok || key !in c1.table {
        InsertKeepsValid(cfg, c1, key, dup, expiry);
        RecordKeepsValid(cfg, Insert(c1, key, dup, expiry), key, s);
      } else if c1.entries[c1.table[key]].refCnt > 1 {
        InsertKeepsValid(cfg, Remove(c1, key), key, dup, expiry);
        RecordKeepsValid(cfg, Insert(Remove(c1, key), key, dup, expiry), key, s);
      } else {
        ResetKeepsValid(cfg, c1, key, dup, expiry);
        RecordKeepsValid(cfg, Reset(c1, key, dup, expiry), key, s);
      }
    }
  }

  lemma LinkedTable(cfg: Settings, c: Cache, key: Key)
    requires Valid(cfg, c)
    ensures key in c.table ==> c.table[key] in c.entries
  {
  }

  // ---------------------------------------------------------------------
  // What the invariant means
  // ---------------------------------------------------------------------

  /**
   * While a callback runs on a cached packet, that packet is neither released
   * nor replaced, and the entry counts the callback.
   */
  lemma ReaderIsSafe(cfg: Settings, c: Cache, r: ReaderId)
    requires Valid(cfg, c) && r in c.readers
    ensures var e := c.readers[r].entry;
            && e in c.entries && c.entries[e].pkt == c.readers[r].pkt
            && e !in c.released && c.entries[e].refCnt >= 1 + (if InTable(c, e) then 1 else 0)
  {
    var e := c.readers[r].entry;
    assert r in ReadersOf(c, e);
    assert {r} <= ReadersOf(c, e);
  }

  /** The packet a hit returns: the last one stored under the key, before its time is up. */
  lemma HitIsFaithful(cfg: Settings, c: Cache, key: Key, now: Time)
    requires Valid(cfg, c) && Fresh(c, key, now)
    ensures key in c.stored && IsDup(c.stored[key].pkt, c.entries[c.table[key]].pkt)
    ensures var s := c.stored[key];
            s.timed ==>
              && now < s.at + 1000 * cfg.cacheMaxTtl
              && (s.ok && s.pkt.answers != [] ==>
                    forall i :: 0 <= i < |s.pkt.answers| ==> now < s.at + 1000 * s.pkt.answers[i].ttl)
              && (!s.ok || s.pkt.answers == [] ==> now < s.at + 1000 * INVALID_TTL)
    ensures !c.stored[key].timed ==> now < FOREVER
  {
    hide IsDup, Counted, Linked, Pools;
    var s := c.stored[key];
    assert c.entries[c.table[key]].expiry == Expiry(cfg, s.ok, s.timed, s.pkt, s.at);
    forall i | 0 <= i < |s.pkt.answers| && s.timed && s.ok ensures now < s.at + 1000 * s.pkt.answers[i].ttl {
      assert MinTtl(s.pkt.answers) <= s.pkt.answers[i].ttl;
    }
  }

  // ---------------------------------------------------------------------
  // Destroy
  // ---------------------------------------------------------------------

  /** Destroy's sweep: every entry of the table is released whatever its count; gone lists them. */
  function Sweep(c: Cache, gone: seq<EntryId>): Cache {
    c.(table := map[], entries := c.entries - c.table.Values, released := c.released + gone)
  }

  ghost predicate ReadersLive(c: Cache) {
    forall r :: r in c.readers ==> c.readers[r].entry in c.entries
  }

  /** The sweep takes no packet from under a running callback exactly if no entry of the table has a count above one. */
  lemma SweepIsSafeIff(cfg: Settings, c: Cache, gone: seq<EntryId>)
    requires Valid(cfg, c)
    ensures ReadersLive(Sweep(c, gone)) <==> forall k :: k in c.table ==> c.entries[c.table[k]].refCnt == 1
  {
    hide Faithful, Pools;
    var d := Sweep(c, gone);
    if k :| k in c.table && c.entries[c.table[k]].refCnt != 1 {
      var e := c.table[k];
      assert InTable(c, e);
      assert |ReadersOf(c, e)| > 0;
      var r :| r in ReadersOf(c, e);
      assert e in c.table.Values && r in d.readers && d.readers[r].entry == e;
    } else {
      forall r | r in c.readers ensures c.readers[r].entry !in c.table.Values {
        if c.readers[r].entry in c.table.Values {
          var k :| k in c.table && c.table[k] == c.readers[r].entry;
          ResetIsUnused(c, k);
        }
      }
    }
  }
}
