/** The bounded response cache, compared with an unbounded timed map. */
module Cache {
  import opened Bytes
  import opened Names
  import opened Records
  import opened Wire
  import opened Skipped

  type Key = (Text, u16)

  datatype Entry = Entry(response: seq<byte>, expiresAt: int)

  type Entries = map<Key, Entry>

  function KeyOf(name: Text, qtype: u16): Key { (Lower(name), qtype) }

  /** A key for this type and, up to case, this name, written without capitals. */
  predicate IsKey(k: Key, name: Text, qtype: u16) {
    k.1 == qtype && SameName(name, k.0) && NoCapitals(k.0)
  }

  lemma KeyOfIs(name: Text, qtype: u16)
    ensures forall k :: IsKey(k, name, qtype) <==> k == KeyOf(name, qtype)
  {
    hide Lower, SameName, NoCapitals;
    forall k: Key
      ensures IsKey(k, name, qtype) <==> k == KeyOf(name, qtype)
    {
      LowerFolds(name, k.0);
    }
  }

  /** Two queries share a key exactly when type and, up to case, name are the same. */
  predicate SameQuery(a: Text, t: u16, b: Text, u: u16) { t == u && SameName(a, b) }

  lemma KeysAgree(a: Text, t: u16, b: Text, u: u16)
    ensures KeyOf(a, t) == KeyOf(b, u) <==> SameQuery(a, t, b, u)
  {
    SameWhenFolded(a, b);
  }

  /** The answer a table gives for a key at a time. */
  function Hit(entries: Entries, key: Key, now: int): Option<seq<byte>> {
    if key in entries && entries[key].expiresAt > now then Some(entries[key].response) else None
  }

  function Live(entries: Entries, now: int): Entries {
    map k | k in entries && entries[k].expiresAt > now :: entries[k]
  }

  function AfterGet(entries: Entries, key: Key, now: int): Entries {
    if key in entries && entries[key].expiresAt <= now then entries - {key} else entries
  }

  /** `evict_if_full`: expired entries go first, then one live entry of no particular choice. */
  ghost predicate Evicted(capacity: nat, before: Entries, after: Entries, now: int) {
    if |before| < capacity then after == before
    else
      var live := Live(before, now);
      if |live| < capacity || live == map[] then after == live
      else exists victim :: victim in live && after == live - {victim}
  }

  /** `room` is the table an insert of `key` is made into. */
  ghost predicate MadeRoom(capacity: nat, before: Entries, room: Entries, key: Key, now: int) {
    if key in before then room == before else Evicted(capacity, before, room, now)
  }

  ghost predicate Inserted(capacity: nat, before: Entries, after: Entries, key: Key, response: seq<byte>, ttl: u32,
                           now: int) {
    if response == [] || ttl == 0 then after == before
    else exists room: Entries ::
           MadeRoom(capacity, before, room, key, now) && after == room[key := Entry(response, now + ttl)]
  }

  class ResponseCache {
    const capacity: nat
    var entries: Entries

    constructor (capacity: nat)
      ensures this.capacity == capacity && entries == map[]
    {
      this.capacity, entries := capacity, map[];
    }

    method Get(name: Text, qtype: u16, now: int) returns (r: Option<seq<byte>>)
      modifies this
      ensures r == Hit(old(entries), KeyOf(name, qtype), now)
      ensures entries == AfterGet(old(entries), KeyOf(name, qtype), now)
      ensures forall k :: IsKey(k, name, qtype) ==>
                            r == Hit(old(entries), k, now) && entries == AfterGet(old(entries), k, now)
    {
      KeyOfIs(name, qtype);
      hide KeyOf, IsKey;
      var key := KeyOf(name, qtype);
      var expired := false;
      if key in entries {
        if entries[key].expiresAt > now {
          return Some(entries[key].response);
        }
        expired := true;
      }
      if expired {
        entries := entries - {key};
      }
      return None;
    }

    method Insert(name: Text, qtype: u16, response: seq<byte>, ttl: u32, now: int)
      modifies this
      ensures Inserted(capacity, old(entries), entries, KeyOf(name, qtype), response, ttl, now)
      ensures forall k :: IsKey(k, name, qtype) ==>
                            Inserted(capacity, old(entries), entries, k, response, ttl, now)
    {
      KeyOfIs(name, qtype);
      hide KeyOf, IsKey;
      if response == [] || ttl == 0 {
        return;
      }
      var key := KeyOf(name, qtype);
      if key !in entries {
        EvictIfFull(now);
      }
      assert MadeRoom(capacity, old(entries), entries, key, now);
      entries := entries[key := Entry(response, now + ttl)];
    }

    method EvictIfFull(now: int)
      modifies this
      ensures Evicted(capacity, old(entries), entries, now)
    {
      if |entries| < capacity {
        return;
      }
      entries := Live(entries, now);
      if |entries| >= capacity && entries != map[] {
        assert entries.Keys != {};
        var victim :| victim in entries;
        entries := entries - {victim};
      }
    }
  }

  // ----- Runs -----

  datatype Op =
    | Get(name: Text, qtype: u16, at: int, result: Option<seq<byte>>)
    | Insert(name: Text, qtype: u16, response: seq<byte>, ttl: u32, at: int)

  ghost predicate Step(capacity: nat, before: Entries, op: Op, after: Entries) {
    match op
    case Get(name, qtype, at, result) =>
      result == Hit(before, KeyOf(name, qtype), at) && after == AfterGet(before, KeyOf(name, qtype), at)
    case Insert(name, qtype, response, ttl, at) =>
      Inserted(capacity, before, after, KeyOf(name, qtype), response, ttl, at)
  }

  /** A run from the empty cache: `states[i]` is the table before `ops[i]`. */
  ghost predicate IsRun(capacity: nat, states: seq<Entries>, ops: seq<Op>) {
    && |states| == |ops| + 1
    && states[0] == map[]
    && (forall i :: 0 <= i < |ops| ==> Step(capacity, states[i], ops[i], states[i + 1]))
  }

  /** An insert that the cache accepts, for this type and, up to case, this name. */
  predicate Stores(op: Op, name: Text, qtype: u16) {
    op.Insert? && SameQuery(op.name, op.qtype, name, qtype) && op.response != [] && op.ttl != 0
  }

  /** The unbounded timed map: every effective insert is kept, the latest one per key. */
  function Ideal(ops: seq<Op>): Entries {
    if ops == [] then map[]
    else
      var earlier, last := Ideal(ops[..|ops| - 1]), ops[|ops| - 1];
      if last.Insert? && last.response != [] && last.ttl != 0
      then earlier[KeyOf(last.name, last.qtype) := Entry(last.response, last.at + last.ttl)]
      else earlier
  }

  lemma IdealStep(ops: seq<Op>, i: nat)
    requires i < |ops|
    ensures Ideal(ops[..i + 1])
         == var op := ops[i];
            if op.Insert? && op.response != [] && op.ttl != 0
            then Ideal(ops[..i])[KeyOf(op.name, op.qtype) := Entry(op.response, op.at + op.ttl)]
            else Ideal(ops[..i])
  {
    assert ops[..i + 1][..i] == ops[..i];
  }

  /** The cache only forgets: each entry it holds is the ideal map's entry for that key. */
  ghost predicate Forgets(entries: Entries, ideal: Entries) {
    forall k :: k in entries ==> k in ideal && entries[k] == ideal[k]
  }

  lemma EvictedForgets(capacity: nat, before: Entries, after: Entries, now: int)
    requires Evicted(capacity, before, after, now)
    ensures forall k :: k in after ==> k in before && after[k] == before[k]
    ensures |before| <= Max(capacity, 1) ==> |after| < Max(capacity, 1)
  {
    if |before| >= capacity {
      var live := Live(before, now);
      assert live.Keys <= before.Keys;
      SubsetSize(live.Keys, before.Keys);
      if !(|live| < capacity || live == map[]) {
        var victim :| victim in live && after == live - {victim};
        assert after.Keys == live.Keys - {victim};
      }
    }
  }

  lemma RoomForgets(capacity: nat, before: Entries, room: Entries, key: Key, now: int)
    requires MadeRoom(capacity, before, room, key, now) && |before| <= Max(capacity, 1)
    ensures forall k :: k in room ==> k in before && room[k] == before[k]
    ensures |room.Keys + {key}| <= Max(capacity, 1)
  {
    hide Evicted;
    if key in before {
      assert room.Keys + {key} == before.Keys;
    } else {
      EvictedForgets(capacity, before, room, now);
    }
  }

  lemma InsertForgets(capacity: nat, before: Entries, after: Entries, key: Key, response: seq<byte>, ttl: u32,
                      now: int, ideal: Entries)
    requires Inserted(capacity, before, after, key, response, ttl, now) && response != [] && ttl != 0
    requires Forgets(before, ideal) && |before| <= Max(capacity, 1)
    ensures Forgets(after, ideal[key := Entry(response, now + ttl)]) && |after| <= Max(capacity, 1)
  {
    hide MadeRoom;
    var room: Entries :| MadeRoom(capacity, before, room, key, now) && after == room[key := Entry(response, now + ttl)];
    RoomForgets(capacity, before, room, key, now);
    assert after.Keys == room.Keys + {key};
  }

  lemma GetForgets(before: Entries, key: Key, now: int, ideal: Entries)
    requires Forgets(before, ideal)
    ensures Forgets(AfterGet(before, key, now), ideal) && |AfterGet(before, key, now)| <= |before|
  {
    SubsetSize(AfterGet(before, key, now).Keys, before.Keys);
  }

  lemma StepForgets(capacity: nat, before: Entries, op: Op, after: Entries, ops: seq<Op>)
    requires Step(capacity, before, op, after)
    requires Forgets(before, Ideal(ops)) && |before| <= Max(capacity, 1)
    ensures Forgets(after, Ideal(ops + [op])) && |after| <= Max(capacity, 1)
  {
    hide Ideal, Inserted, KeyOf, Forgets, AfterGet;
    IdealStep(ops + [op], |ops|);
    assert (ops + [op])[..|ops|] == ops && (ops + [op])[..|ops| + 1] == ops + [op];
    match op
    case Get(name, qtype, at, _) =>
      GetForgets(before, KeyOf(name, qtype), at, Ideal(ops));
    case Insert(name, qtype, response, ttl, at) =>
      if response != [] && ttl != 0 {
        InsertForgets(capacity, before, after, KeyOf(name, qtype), response, ttl, at, Ideal(ops));
      } else {
        InsertIgnored(capacity, before, after, KeyOf(name, qtype), response, ttl, at);
      }
  }

  lemma InsertIgnored(capacity: nat, before: Entries, after: Entries, key: Key, response: seq<byte>, ttl: u32, now: int)
    requires Inserted(capacity, before, after, key, response, ttl, now) && (response == [] || ttl == 0)
    ensures after == before
  {}

  /** What every reachable cache keeps: it agrees with the ideal map, and stays within its capacity. */
  lemma {:induction false} RunForgets(capacity: nat, states: seq<Entries>, ops: seq<Op>, i: nat)
    requires IsRun(capacity, states, ops) && i <= |ops|
    ensures Forgets(states[i], Ideal(ops[..i])) && |states[i]| <= Max(capacity, 1)
  {
    if i > 0 {
      RunForgets(capacity, states, ops, i - 1);
      hide Step;
      assert Step(capacity, states[i - 1], ops[i - 1], states[i]);
      StepForgets(capacity, states[i - 1], ops[i - 1], states[i], ops[..i - 1]);
      assert ops[..i - 1] + [ops[i - 1]] == ops[..i];
    }
  }

  /** `j` is the latest such insert before `i`. */
  ghost predicate LatestInsert(ops: seq<Op>, i: nat, name: Text, qtype: u16, j: nat) {
    && j < i <= |ops|
    && Stores(ops[j], name, qtype)
    && (forall n :: j < n < i ==> !Stores(ops[n], name, qtype))
  }

  lemma {:induction false} IdealIsLatest(ops: seq<Op>, i: nat, name: Text, qtype: u16) returns (j: nat)
    requires i <= |ops|
    ensures KeyOf(name, qtype) in Ideal(ops[..i]) ==>
              && LatestInsert(ops, i, name, qtype, j)
              && Ideal(ops[..i])[KeyOf(name, qtype)] == Entry(ops[j].response, ops[j].at + ops[j].ttl)
    ensures KeyOf(name, qtype) !in Ideal(ops[..i]) ==> forall n :: 0 <= n < i ==> !Stores(ops[n], name, qtype)
  {
    j := 0;
    if i > 0 {
      IdealStep(ops, i - 1);
      KeysAgree(ops[i - 1].name, ops[i - 1].qtype, name, qtype);
      hide KeyOf, Ideal, SameQuery;
      var k := IdealIsLatest(ops, i - 1, name, qtype);
      j := if Stores(ops[i - 1], name, qtype) then i - 1 else k;
    }
  }

  /**
    * Over every run, a hit is the response of the latest insert of that type and, up to case, that
    * name, read strictly before that insert's time to live is over.
    */
  lemma HitIsLatestAndFresh(capacity: nat, states: seq<Entries>, ops: seq<Op>, i: nat) returns (j: nat)
    requires IsRun(capacity, states, ops) && i < |ops| && ops[i].Get? && ops[i].result.Some?
    ensures LatestInsert(ops, i, ops[i].name, ops[i].qtype, j)
    ensures ops[i].result.value == ops[j].response
    ensures ops[i].at < ops[j].at + ops[j].ttl
  {
    hide KeyOf, Ideal, LatestInsert;
    RunForgets(capacity, states, ops, i);
    assert Step(capacity, states[i], ops[i], states[i + 1]);
    j := IdealIsLatest(ops, i, ops[i].name, ops[i].qtype);
  }

  /**
    * What is stored for another type or name leaves an answer alone: a query finds what it would have
    * found before, unless the cache was full of live entries and gave up this one.
    */
  lemma OthersKeepAnswer(capacity: nat, before: Entries, op: Op, after: Entries, get: Op, again: Op, end: Entries,
                         end': Entries)
    requires op.Insert? && Step(capacity, before, op, after)
    requires get.Get? && again.Get? && again == get.(result := again.result) && op.at <= get.at
    requires Step(capacity, before, get, end) && Step(capacity, after, again, end')
    requires !SameQuery(op.name, op.qtype, get.name, get.qtype)
    ensures again.result == get.result || (again.result.None? && |GoodKeys(before, op.at)| >= capacity)
  {
    KeysAgree(op.name, op.qtype, get.name, get.qtype);
    hide KeyOf, Inserted, SameQuery;
    var key, mine := KeyOf(op.name, op.qtype), KeyOf(get.name, get.qtype);
    InsertDropsAtMostOne(capacity, before, after, key, op.response, op.ttl, op.at);
    if mine in before && mine !in after && before[mine].expiresAt > op.at {
      assert mine in GoodKeys(before, op.at) - after.Keys;
    }
  }

  /** The entries still good at `now`, by key. */
  ghost function GoodKeys(entries: Entries, now: int): set<Key> {
    set k | k in entries && now < entries[k].expiresAt
  }

  lemma LiveKeys(entries: Entries, now: int)
    ensures Live(entries, now).Keys == GoodKeys(entries, now)
  {}

  /** An insert gives up at most one live entry, and only when the cache is full of live ones. */
  lemma InsertDropsAtMostOne(capacity: nat, before: Entries, after: Entries, key: Key, response: seq<byte>, ttl: u32,
                             now: int)
    requires Inserted(capacity, before, after, key, response, ttl, now)
    ensures var lost := GoodKeys(before, now) - after.Keys;
            |lost| <= 1 && (lost != {} ==> key !in before && |GoodKeys(before, now)| >= capacity)
    ensures forall k :: k in after && k != key ==> k in before && after[k] == before[k]
  {
    LiveKeys(before, now);
    var good := GoodKeys(before, now);
    if response == [] || ttl == 0 {
      assert good - after.Keys == {};
    } else {
      hide MadeRoom, Live, GoodKeys;
      var room: Entries :|
        MadeRoom(capacity, before, room, key, now) && after == room[key := Entry(response, now + ttl)];
      RoomDropsAtMostOne(capacity, before, room, key, now);
      assert good - after.Keys <= good - room.Keys;
      SubsetSize(good - after.Keys, good - room.Keys);
    }
  }

  lemma RoomDropsAtMostOne(capacity: nat, before: Entries, room: Entries, key: Key, now: int)
    requires MadeRoom(capacity, before, room, key, now)
    ensures var lost := Live(before, now).Keys - room.Keys;
            |lost| <= 1 && (lost != {} ==> key !in before && |Live(before, now).Keys| >= capacity)
    ensures forall k :: k in room ==> k in before && room[k] == before[k]
  {
    LiveWithin(before, now);
    hide Live;
    var live := Live(before, now);
    if key in before || |before| < capacity || |live| < capacity || live == map[] {
      assert live.Keys - room.Keys == {};
    } else {
      var victim :| victim in live && room == live - {victim};
      assert live.Keys - room.Keys == {victim};
    }
  }

  lemma LiveWithin(entries: Entries, now: int)
    ensures forall k :: k in Live(entries, now) ==> k in entries && Live(entries, now)[k] == entries[k]
  {}

  // ----- Below capacity nothing is forgotten -----

  predicate MonotoneOps(ops: seq<Op>) {
    forall i, j :: 0 <= i < j < |ops| ==> ops[i].at <= ops[j].at
  }

  /** What the cache lacks of the ideal map has expired by `now`. */
  ghost predicate OnlyExpiredGone(entries: Entries, ideal: Entries, now: int) {
    forall k :: k in ideal && k !in entries ==> ideal[k].expiresAt <= now
  }

  lemma {:induction false} RunKeepsLive(capacity: nat, states: seq<Entries>, ops: seq<Op>, i: nat)
    requires IsRun(capacity, states, ops) && 0 < i <= |ops| && MonotoneOps(ops)
    requires |Ideal(ops[..i])| <= capacity
    ensures OnlyExpiredGone(states[i], Ideal(ops[..i]), ops[i - 1].at)
  {
    hide Ideal, Step, KeyOf;
    var op, before, after := ops[i - 1], states[i - 1], states[i];
    var earlier, later := Ideal(ops[..i - 1]), Ideal(ops[..i]);
    IdealStep(ops, i - 1);
    assert earlier.Keys <= later.Keys;
    SubsetSize(earlier.Keys, later.Keys);
    if i > 1 {
      RunKeepsLive(capacity, states, ops, i - 1);
      assert ops[i - 2].at <= op.at;
    } else {
      EmptyIdeal(ops);
    }
    RunForgets(capacity, states, ops, i - 1);
    assert Step(capacity, before, op, after);
    StepKeepsLive(capacity, before, op, after, earlier);
  }

  lemma EmptyIdeal(ops: seq<Op>)
    ensures Ideal(ops[..0]) == map[]
  {}

  lemma StepKeepsLive(capacity: nat, before: Entries, op: Op, after: Entries, earlier: Entries)
    requires Step(capacity, before, op, after) && Forgets(before, earlier) && OnlyExpiredGone(before, earlier, op.at)
    ensures var key := KeyOf(op.name, op.qtype);
            if op.Insert? && op.response != [] && op.ttl != 0
            then var later := earlier[key := Entry(op.response, op.at + op.ttl)];
                 |later| <= capacity ==> OnlyExpiredGone(after, later, op.at)
            else OnlyExpiredGone(after, earlier, op.at)
  {
    hide KeyOf;
    var key := KeyOf(op.name, op.qtype);
    if op.Insert? {
      if op.response != [] && op.ttl != 0 {
        hide MadeRoom;
        var later := earlier[key := Entry(op.response, op.at + op.ttl)];
        var room: Entries :|
          MadeRoom(capacity, before, room, key, op.at) && after == room[key := Entry(op.response, op.at + op.ttl)];
        if |later| <= capacity {
          assert before.Keys + {key} <= later.Keys;
          SubsetSize(before.Keys + {key}, later.Keys);
          NoEviction(capacity, before, room, key, op.at);
        }
      }
    }
  }

  lemma NoEviction(capacity: nat, before: Entries, room: Entries, key: Key, now: int)
    requires MadeRoom(capacity, before, room, key, now) && |before.Keys + {key}| <= capacity
    ensures room == before
  {}

  /** The latest insert for the query is still good at `at`. */
  ghost predicate StillGood(ops: seq<Op>, i: nat, name: Text, qtype: u16, at: int, j: nat) {
    LatestInsert(ops, i, name, qtype, j) && at < ops[j].at + ops[j].ttl
  }

  lemma IdealHit(ops: seq<Op>, i: nat, name: Text, qtype: u16, at: int)
    requires i <= |ops|
    ensures Hit(Ideal(ops[..i]), KeyOf(name, qtype), at).Some? <==>
            exists j: nat :: StillGood(ops, i, name, qtype, at, j)
  {
    hide KeyOf, Ideal, Stores;
    var j := IdealIsLatest(ops, i, name, qtype);
    assert StillGood(ops, i, name, qtype, at, j) || !StillGood(ops, i, name, qtype, at, j);
  }

  /** While no more keys than the capacity were ever inserted, the cache answers as the ideal map does. */
  lemma ExactBelowCapacity(capacity: nat, states: seq<Entries>, ops: seq<Op>, i: nat)
    requires IsRun(capacity, states, ops) && i < |ops| && ops[i].Get? && MonotoneOps(ops)
    requires |Ideal(ops[..i])| <= capacity
    ensures ops[i].result == Hit(Ideal(ops[..i]), KeyOf(ops[i].name, ops[i].qtype), ops[i].at)
    ensures ops[i].result.Some? <==>
            exists j: nat :: StillGood(ops, i, ops[i].name, ops[i].qtype, ops[i].at, j)
  {
    hide KeyOf, Ideal, StillGood;
    IdealHit(ops, i, ops[i].name, ops[i].qtype, ops[i].at);
    RunForgets(capacity, states, ops, i);
    assert Step(capacity, states[i], ops[i], states[i + 1]);
    if i > 0 {
      RunKeepsLive(capacity, states, ops, i);
    } else {
      EmptyIdeal(ops);
    }
  }

  // ----- How long a forwarded response is kept -----

  const NEG_TTL_DEFAULT: u32 := 30
  const NEG_TTL_MAX: u32 := 3600

  function MinTtl(rs: seq<DnsRecord>): (t: u32)
    requires rs != []
    ensures forall i :: 0 <= i < |rs| ==> t <= Ttl(rs[i])
    ensures exists i :: 0 <= i < |rs| && t == Ttl(rs[i])
  {
    if |rs| == 1 then Ttl(rs[0])
    else
      var rest := MinTtl(rs[1..]);
      assert forall i :: 1 <= i < |rs| ==> rs[i] == rs[1..][i - 1];
      if Ttl(rs[0]) <= rest then Ttl(rs[0]) else rest
  }

  function SoaMinimum(rs: seq<DnsRecord>): Option<u32> {
    if rs == [] then None
    else if rs[0].SOA? then Some(rs[0].minimum)
    else SoaMinimum(rs[1..])
  }

  function CacheTtl(p: DnsPacket): Option<u32> {
    if p.answers != [] then Some(MinTtl(p.answers))
    else if Rcode(p.header.flags) == 3 || Rcode(p.header.flags) == 0 then
      match SoaMinimum(p.authorities)
      case Some(m) => Some(Min(m, NEG_TTL_MAX))
      case None => Some(NEG_TTL_DEFAULT)
    else None
  }

  /** The first SOA decides, whatever else the authority section holds. */
  lemma {:induction false} SoaMinimumIsFirst(rs: seq<DnsRecord>, i: nat)
    requires i <= |rs| && (forall j :: 0 <= j < i ==> !rs[j].SOA?) && (i < |rs| ==> rs[i].SOA?)
    ensures SoaMinimum(rs) == if i < |rs| then Some(rs[i].minimum) else None
  {
    if i > 0 {
      SoaMinimumIsFirst(rs[1..], i - 1);
    }
  }

  /** A response is cacheable exactly when it has answers, or its rcode is NOERROR or NXDOMAIN. */
  lemma CacheTtlCases(p: DnsPacket, i: nat)
    requires i <= |p.authorities| && (forall j :: 0 <= j < i ==> !p.authorities[j].SOA?)
    requires i < |p.authorities| ==> p.authorities[i].SOA?
    ensures CacheTtl(p).None? <==> p.answers == [] && Rcode(p.header.flags) !in {0, 3}
    ensures p.answers == [] && CacheTtl(p).Some? ==>
              CacheTtl(p).value == if i < |p.authorities| then Min(p.authorities[i].minimum, 3600) else 30
    ensures p.answers != [] ==>
              && (forall k :: 0 <= k < |p.answers| ==> CacheTtl(p).value <= Ttl(p.answers[k]))
              && (exists k :: 0 <= k < |p.answers| && CacheTtl(p).value == Ttl(p.answers[k]))
  {
    SoaMinimumIsFirst(p.authorities, i);
  }

  /** The inserts that forwarding makes: a parsed response, kept for its own cache time. */
  predicate FromForwarding(op: Op) {
    op.Insert? ==>
      var parsed := FromBytes(op.response);
      parsed.Ok? && CacheTtl(parsed.value) == Some(op.ttl)
  }

  /** Every answer of the stored message, skipped by the parser or not, is younger than its TTL on the wire. */
  ghost predicate OnTime(response: seq<byte>, age: int) {
    var raws := RawOf(response).answers;
    forall k :: 0 <= k < |raws| && raws[k].rtype != TYPE_OPT ==> age < raws[k].ttl
  }

  /** The cache time is longer than the TTL of an answer that the parser skips. */
  ghost predicate OutlivesSkipped(response: seq<byte>) {
    && FromBytes(response).Ok?
    && var raws, ttl := RawOf(response).answers, CacheTtl(FromBytes(response).value);
    ttl.Some? && exists k :: 0 <= k < |raws| && !Modelled(raws[k].rtype) && raws[k].ttl < ttl.value
  }

  /** In this run, fed by forwarding, the `i`-th operation gets the response that the `j`-th stored. */
  ghost predicate Serves(capacity: nat, states: seq<Entries>, ops: seq<Op>, i: nat, j: nat, response: seq<byte>) {
    && IsRun(capacity, states, ops)
    && (forall n :: 0 <= n < |ops| ==> FromForwarding(ops[n]))
    && i < |ops| && ops[i].Get? && ops[i].result == Some(response)
    && LatestInsert(ops, i, ops[i].name, ops[i].qtype, j)
  }

  /** Over every run, this response is only ever served on time. */
  ghost predicate NeverLate(response: seq<byte>) {
    forall capacity: nat, states: seq<Entries>, ops: seq<Op>, i: nat, j: nat ::
      Serves(capacity, states, ops, i, j, response) ==> OnTime(response, ops[i].at - ops[j].at)
  }

  /** What is served was parsed when it was stored, and is younger than its cache time. */
  lemma ServedIsFresh(capacity: nat, states: seq<Entries>, ops: seq<Op>, i: nat, j: nat, response: seq<byte>)
    requires Serves(capacity, states, ops, i, j, response)
    ensures ops[j].Insert? && ops[j].response == response && FromBytes(response).Ok?
    ensures CacheTtl(FromBytes(response).value) == Some(ops[j].ttl) && ops[i].at < ops[j].at + ops[j].ttl
  {
    hide FromBytes, CacheTtl, IsRun;
    var n := HitIsLatestAndFresh(capacity, states, ops, i);
    assert n == j;
    assert FromForwarding(ops[j]);
  }

  /** The cache time is at most the TTL of every answer the parser keeps. */
  lemma KeptAnswersCovered(response: seq<byte>, k: nat)
    requires FromBytes(response).Ok? && CacheTtl(FromBytes(response).value).Some?
    requires k < |RawOf(response).answers| && RawOf(response).answers[k].rtype != TYPE_OPT
    requires Modelled(RawOf(response).answers[k].rtype)
    ensures CacheTtl(FromBytes(response).value).value <= RawOf(response).answers[k].ttl
  {
    hide FromBytes, RawOf, Modelled, RecordType;
    PacketKept(response, FromBytes(response).value);
    var j := ModelledIsKept(RawOf(response).answers, FromBytes(response).value.answers, k);
  }

  /**
    * No answer is ever served at or past its TTL, over any run, exactly when the response's
    * cache time is not longer than the TTL of an answer that the parser skips.
    */
  lemma NeverLateExactly(response: seq<byte>)
    ensures NeverLate(response) <==> !OutlivesSkipped(response)
  {
    hide FromBytes, CacheTtl, RawOf, Modelled, OnTime, IsRun, KeyOf;
    if OutlivesSkipped(response) {
      var raws, ttl := RawOf(response).answers, CacheTtl(FromBytes(response).value).value;
      var k :| 0 <= k < |raws| && !Modelled(raws[k].rtype) && raws[k].ttl < ttl;
      LateRun(response, ttl, raws[k].ttl);
      var states, ops := RunStates(response, ttl), RunOps(response, ttl, raws[k].ttl);
      assert Serves(1, states, ops, 1, 0, response);
      LateAnswer(response, k);
    } else {
      forall capacity: nat, states: seq<Entries>, ops: seq<Op>, i: nat, j: nat
        | Serves(capacity, states, ops, i, j, response)
        ensures OnTime(response, ops[i].at - ops[j].at)
      {
        ServedIsFresh(capacity, states, ops, i, j, response);
        FreshIsOnTime(response, ops[i].at - ops[j].at);
      }
    }
  }

  lemma LateAnswer(response: seq<byte>, k: nat)
    requires k < |RawOf(response).answers| && !Modelled(RawOf(response).answers[k].rtype)
    ensures !OnTime(response, RawOf(response).answers[k].ttl)
  {
    hide FromBytes, RawOf;
  }

  lemma FreshIsOnTime(response: seq<byte>, age: int)
    requires FromBytes(response).Ok? && CacheTtl(FromBytes(response).value).Some? && !OutlivesSkipped(response)
    requires age < CacheTtl(FromBytes(response).value).value
    ensures OnTime(response, age)
  {
    hide FromBytes, CacheTtl, RawOf, Modelled;
    var raws := RawOf(response).answers;
    forall k | 0 <= k < |raws| && raws[k].rtype != TYPE_OPT
      ensures age < raws[k].ttl
    {
      if Modelled(raws[k].rtype) {
        KeptAnswersCovered(response, k);
      }
    }
  }

  // A run that stores the response at time zero and asks for it at `at`.

  function RunOps(response: seq<byte>, ttl: u32, at: int): seq<Op> {
    [Insert([], 0, response, ttl, 0), Get([], 0, at, Some(response))]
  }

  function RunStates(response: seq<byte>, ttl: u32): seq<Entries> {
    var stored := map[KeyOf([], 0) := Entry(response, ttl)];
    [map[], stored, stored]
  }

  lemma LateRun(response: seq<byte>, ttl: u32, at: nat)
    requires FromBytes(response).Ok? && CacheTtl(FromBytes(response).value) == Some(ttl) && at < ttl
    ensures Serves(1, RunStates(response, ttl), RunOps(response, ttl, at), 1, 0, response)
  {
    hide FromBytes, CacheTtl;
    var states, ops := RunStates(response, ttl), RunOps(response, ttl, at);
    assert response != [];
    assert MadeRoom(1, map[], map[], KeyOf([], 0), 0);
    assert states[1] == map[][KeyOf([], 0) := Entry(response, 0 + ttl)];
    assert Step(1, states[0], ops[0], states[1]);
    assert Step(1, states[1], ops[1], states[2]);
  }

  /** A response whose one answer is skipped: kept for thirty seconds, with a TTL of five. */
  lemma LateExample()
    ensures FromBytes(HTTPS_REPLY).Ok? && CacheTtl(FromBytes(HTTPS_REPLY).value) == Some(30)
    ensures !NeverLate(HTTPS_REPLY)
  {
    hide FromBytes, RawOf, NeverLate;
    HttpsReplyParses();
    assert !Modelled(RawOf(HTTPS_REPLY).answers[0].rtype);
    NeverLateExactly(HTTPS_REPLY);
  }

  /** End to end, over every run: what is served is on time unless its cache time outlives a skipped answer. */
  lemma ServedBeforeTtl(capacity: nat, states: seq<Entries>, ops: seq<Op>, i: nat) returns (j: nat)
    requires IsRun(capacity, states, ops) && i < |ops| && ops[i].Get? && ops[i].result.Some?
    requires forall n :: 0 <= n < |ops| ==> FromForwarding(ops[n])
    ensures j < i && ops[j].Insert? && FromBytes(ops[j].response).Ok? && ops[i].result.value == ops[j].response
    ensures OnTime(ops[j].response, ops[i].at - ops[j].at) || OutlivesSkipped(ops[j].response)
    ensures var p := FromBytes(ops[j].response).value;
            p.answers == [] ==> Rcode(p.header.flags) in {0, 3} && ops[i].at < ops[j].at + NEG_TTL_MAX
  {
    hide FromBytes, IsRun, OnTime, OutlivesSkipped;
    j := HitIsLatestAndFresh(capacity, states, ops, i);
    assert FromForwarding(ops[j]);
    var response := ops[j].response;
    if !OutlivesSkipped(response) {
      FreshIsOnTime(response, ops[i].at - ops[j].at);
    }
  }
}
