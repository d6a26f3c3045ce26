/** Authoritative answers: wildcard lookup, CNAME chasing, and the rcode, AA and SOA of a response. */
module Resolver {
  import opened Bytes
  import opened Names
  import opened NameCodec
  import opened Records
  import opened Zones
  import opened Replay

  const MAX_CNAME_CHAIN: nat := 16

  /** What the served zones hold for a name and type. */
  datatype Finding =
    | NoZone
    | NoName
    | Direct(records: seq<DnsRecord>)
    | Alias(cname: DnsRecord)
    | NoData

  function OfType(rs: seq<DnsRecord>, qtype: u16): (out: seq<DnsRecord>)
    ensures forall i :: 0 <= i < |out| ==> RecordType(out[i]) == qtype && out[i] in rs
    ensures out == [] <==> forall i :: 0 <= i < |rs| ==> RecordType(rs[i]) != qtype
  {
    if rs == [] then []
    else
      var rest := OfType(rs[1..], qtype);
      assert forall i :: 1 <= i < |rs| ==> rs[i] == rs[1..][i - 1];
      if RecordType(rs[0]) == qtype then [rs[0]] + rest else rest
  }

  /** Every record of the asked type is kept, as often as it is stored, and nothing else. */
  lemma {:induction false} OfTypeKeepsAll(rs: seq<DnsRecord>, qtype: u16, r: DnsRecord)
    ensures multiset(OfType(rs, qtype))[r] == if RecordType(r) == qtype then multiset(rs)[r] else 0
  {
    hide RecordType;
    if rs != [] {
      OfTypeKeepsAll(rs[1..], qtype, r);
      assert rs == [rs[0]] + rs[1..];
    }
  }

  /** The filter works record by record, so the records keep their order. */
  lemma {:induction false} OfTypeConcat(a: seq<DnsRecord>, b: seq<DnsRecord>, qtype: u16)
    ensures OfType(a + b, qtype) == OfType(a, qtype) + OfType(b, qtype)
  {
    if a == [] {
      assert a + b == b;
    } else {
      OfTypeConcat(a[1..], b, qtype);
      assert (a + b)[1..] == a[1..] + b;
      Reassociate(if RecordType(a[0]) == qtype then [a[0]] else [], OfType(a[1..], qtype), OfType(b, qtype));
    }
  }

  lemma Reassociate(a: seq<DnsRecord>, b: seq<DnsRecord>, c: seq<DnsRecord>)
    ensures a + (b + c) == a + b + c
    ensures [] + b == b
  {}

  function Classify(rs: seq<DnsRecord>, qtype: u16): (f: Finding)
    ensures f.Direct? ==> f.records != []
    ensures f.Alias? ==> f.cname.CNAME?
    ensures !f.NoZone? && !f.NoName?
  {
    if OfType(rs, qtype) != [] then Direct(OfType(rs, qtype))
    else if OfType(rs, TYPE_CNAME) != [] then Alias(OfType(rs, TYPE_CNAME)[0])
    else NoData
  }

  function Examine(zones: ZoneSet, name: Text, qtype: u16): (f: Finding)
    ensures f.Direct? ==> f.records != []
    ensures f.Alias? ==> f.cname.CNAME?
  {
    match FindZone(zones, name)
    case None => NoZone
    case Some(zone) =>
      match Lookup(zone, name)
      case None => NoName
      case Some(records) => Classify(records, qtype)
  }

  function Renamed(rs: seq<DnsRecord>, name: Text): (out: seq<DnsRecord>)
    ensures |out| == |rs|
  {
    seq(|rs|, i requires 0 <= i < |rs| => WithDomain(rs[i], name))
  }

  /** The answers one visited name adds. */
  function Contribution(zones: ZoneSet, name: Text, qtype: u16): seq<DnsRecord> {
    match Examine(zones, name, qtype)
    case Direct(rs) => Renamed(rs, name)
    case Alias(c) => [WithDomain(c, name)]
    case _ => []
  }

  function Target(f: Finding): Text
    requires f.Alias? && f.cname.CNAME?
  {
    Lower(f.cname.alias)
  }

  /** The names the chase visits, starting at `name`, never one in `seen`, at most `fuel` of them. */
  function Visited(zones: ZoneSet, qtype: u16, name: Text, seen: set<Text>, fuel: nat): seq<Text>
    decreases fuel
  {
    if fuel == 0 || name in seen then []
    else
      var f := Examine(zones, name, qtype);
      if f.Alias? then [name] + Visited(zones, qtype, Target(f), seen + {name}, fuel - 1)
      else [name]
  }

  function Answers(zones: ZoneSet, qtype: u16, names: seq<Text>): seq<DnsRecord> {
    if names == [] then []
    else Contribution(zones, names[0], qtype) + Answers(zones, qtype, names[1..])
  }

  /** `a` is an alias, and `b` is what it names. */
  predicate Linked(zones: ZoneSet, qtype: u16, a: Text, b: Text) {
    var f := Examine(zones, a, qtype);
    f.Alias? && Target(f) == b
  }

  /** Each name but the last is an alias of the next. */
  predicate Chain(zones: ZoneSet, qtype: u16, names: seq<Text>) {
    |names| <= 1 || (Linked(zones, qtype, names[0], names[1]) && Chain(zones, qtype, names[1..]))
  }

  predicate Distinct(names: seq<Text>) {
    names == [] || (names[0] !in names[1..] && Distinct(names[1..]))
  }

  /** Why the chase stops at the end of `names`: no alias, an alias back into `seen`, or no fuel. */
  predicate Ends(zones: ZoneSet, qtype: u16, names: seq<Text>, seen: set<Text>, fuel: nat)
    requires names != []
  {
    var f := Examine(zones, names[|names| - 1], qtype);
    !f.Alias? || |names| == fuel || Target(f) in seen || Target(f) in names
  }

  /** Soundness: the visited names are a chain of distinct names, and only the listed reasons end it. */
  lemma {:induction false} VisitedIsChain(zones: ZoneSet, qtype: u16, name: Text, seen: set<Text>, fuel: nat)
    requires fuel > 0 && name !in seen
    ensures var names := Visited(zones, qtype, name, seen, fuel);
            && 0 < |names| <= fuel && names[0] == name
            && Chain(zones, qtype, names) && Distinct(names)
            && (forall n :: n in names ==> n !in seen)
            && Ends(zones, qtype, names, seen, fuel)
    decreases fuel
  {
    hide Examine;
    var f := Examine(zones, name, qtype);
    if f.Alias? && fuel > 1 && Target(f) !in seen + {name} {
      var rest := Visited(zones, qtype, Target(f), seen + {name}, fuel - 1);
      VisitedIsChain(zones, qtype, Target(f), seen + {name}, fuel - 1);
      assert ([name] + rest)[1..] == rest;
    } else if f.Alias? {
      assert Visited(zones, qtype, Target(f), seen + {name}, fuel - 1) == [];
    }
  }

  /** Completeness: a chain of distinct names is followed to its end, or until the fuel is gone. */
  lemma {:induction false} ChainIsVisited(zones: ZoneSet, qtype: u16, names: seq<Text>, seen: set<Text>, fuel: nat)
    requires names != [] && Chain(zones, qtype, names) && Distinct(names)
    requires forall n :: n in names ==> n !in seen
    requires |names| >= fuel || !Examine(zones, names[|names| - 1], qtype).Alias?
    ensures Visited(zones, qtype, names[0], seen, fuel) == names[..Min(fuel, |names|)]
    decreases fuel
  {
    hide Examine;
    if fuel > 0 {
      assert names[0] in names;
      var f := Examine(zones, names[0], qtype);
      if |names| > 1 {
        var rest := names[1..];
        assert forall n :: n in rest ==> n in names;
        ChainIsVisited(zones, qtype, rest, seen + {names[0]}, fuel - 1);
        assert [names[0]] + rest[..Min(fuel - 1, |rest|)] == names[..Min(fuel, |names|)];
      } else if f.Alias? {
        assert fuel == 1;
        assert Visited(zones, qtype, Target(f), seen + {names[0]}, 0) == [];
      }
    }
  }

  /** The answer section for a question. */
  function AnswersFor(zones: ZoneSet, q: DnsQuestion): seq<DnsRecord> {
    Answers(zones, q.qtype, Visited(zones, q.qtype, Lower(q.qname), {}, MAX_CNAME_CHAIN))
  }

  /** The records of a type that the zone serving a name stores for it, itself or by a wildcard. */
  function RecordsAt(zones: ZoneSet, name: Text, rtype: u16): seq<DnsRecord> {
    match FindZone(zones, name)
    case None => []
    case Some(zone) => match Lookup(zone, name) case None => [] case Some(rs) => OfType(rs, rtype)
  }

  /** Those records, from the zone of the best matching origin and the entry found in it. */
  ghost predicate StoredAt(zones: ZoneSet, name: Text, rtype: u16, rs: seq<DnsRecord>) {
    || (ServedBy(zones, name, None) && rs == [])
    || (exists zone: Zone :: ServedBy(zones, name, Some(zone)) && StoredIn(zone, name, rtype, rs))
  }

  ghost predicate StoredIn(zone: Zone, name: Text, rtype: u16, rs: seq<DnsRecord>) {
    || (Finds(zone, name, None) && rs == [])
    || (exists all: seq<DnsRecord> :: Finds(zone, name, Some(all)) && rs == OfType(all, rtype))
  }

  lemma EntryIsStored(zone: Zone, name: Text, rtype: u16)
    ensures StoredIn(zone, name, rtype,
                     match Lookup(zone, name) case None => [] case Some(rs) => OfType(rs, rtype))
  {
    hide Finds, Lookup, OfType;
    LookupFinds(zone, name);
  }

  lemma RecordsAtAreStored(zones: ZoneSet, name: Text, rtype: u16)
    ensures StoredAt(zones, name, rtype, RecordsAt(zones, name, rtype))
  {
    hide ServedBy, StoredIn, FindZone, Lookup, OfType;
    ZoneIsBest(zones, name);
    match FindZone(zones, name)
    case None =>
    case Some(zone) => EntryIsStored(zone, name, rtype);
  }

  /** `r` is the first CNAME stored for `name`, under that name, where there is no record of the asked type. */
  predicate AliasRecord(zones: ZoneSet, qtype: u16, name: Text, r: DnsRecord) {
    && r.CNAME? && r.domain == name
    && RecordsAt(zones, name, qtype) == []
    && RecordsAt(zones, name, TYPE_CNAME) != []
    && r == WithDomain(RecordsAt(zones, name, TYPE_CNAME)[0], name)
  }

  /** That record, naming `next`. */
  predicate Leads(zones: ZoneSet, qtype: u16, name: Text, r: DnsRecord, next: Text) {
    AliasRecord(zones, qtype, name, r) && Lower(r.alias) == next
  }

  /** `rs` are all the records of the asked type at `name`, in their order and owned by it. */
  predicate AllOfType(zones: ZoneSet, qtype: u16, name: Text, rs: seq<DnsRecord>) {
    var stored := RecordsAt(zones, name, qtype);
    && |rs| == |stored|
    && (forall i :: 0 <= i < |rs| ==>
                      && RecordType(rs[i]) == qtype && rs[i] == WithDomain(stored[i], name)
                      && Owner(rs[i]) == (if rs[i].OPT? then [] else name))
  }

  /**
    * The answers are one CNAME for each name but the last, naming the next, and then all records
    * of the asked type at the last name; a last name that is itself an alias gives its CNAME.
    */
  predicate FollowsChain(zones: ZoneSet, qtype: u16, names: seq<Text>, answers: seq<DnsRecord>) {
    && names != [] && |answers| >= |names| - 1
    && (forall i :: 0 <= i < |names| - 1 ==> Leads(zones, qtype, names[i], answers[i], names[i + 1]))
    && LastRecords(zones, qtype, names[|names| - 1], answers[|names| - 1..])
  }

  predicate LastRecords(zones: ZoneSet, qtype: u16, last: Text, rs: seq<DnsRecord>) {
    || (|rs| == 1 && AliasRecord(zones, qtype, last, rs[0]))
    || (AllOfType(zones, qtype, last, rs) && (rs == [] ==> RecordsAt(zones, last, TYPE_CNAME) == []))
  }

  lemma ContributionRecords(zones: ZoneSet, name: Text, qtype: u16)
    ensures var f, rs := Examine(zones, name, qtype), Contribution(zones, name, qtype);
            if f.Alias? then rs == [WithDomain(f.cname, name)] && AliasRecord(zones, qtype, name, rs[0])
            else AllOfType(zones, qtype, name, rs) && (rs == [] ==> RecordsAt(zones, name, TYPE_CNAME) == [])
  {
    hide FindZone, Lookup;
  }

  lemma {:induction false} AnswersFollowNames(zones: ZoneSet, qtype: u16, names: seq<Text>)
    requires names != [] && Chain(zones, qtype, names)
    ensures FollowsChain(zones, qtype, names, Answers(zones, qtype, names))
  {
    hide Contribution, Leads, FollowsChain, Linked;
    var first := Contribution(zones, names[0], qtype);
    if |names| == 1 {
      assert Answers(zones, qtype, names[1..]) == [];
      assert names == [names[0]] && first + [] == first;
      ContributionIsLast(zones, names[0], qtype);
    } else {
      AnswersFollowNames(zones, qtype, names[1..]);
      FirstAlias(zones, qtype, names[0], names[1]);
      assert first == [first[0]];
      OneMoreAlias(zones, qtype, names, first[0], Answers(zones, qtype, names[1..]));
    }
  }

  lemma ContributionIsLast(zones: ZoneSet, name: Text, qtype: u16)
    ensures FollowsChain(zones, qtype, [name], Contribution(zones, name, qtype))
  {
    assert Contribution(zones, name, qtype)[0..] == Contribution(zones, name, qtype);
    hide Examine, AliasRecord, AllOfType, RecordsAt;
    ContributionRecords(zones, name, qtype);
  }

  lemma OneMoreAlias(zones: ZoneSet, qtype: u16, names: seq<Text>, first: DnsRecord, rest: seq<DnsRecord>)
    requires |names| > 1 && Leads(zones, qtype, names[0], first, names[1])
    requires FollowsChain(zones, qtype, names[1..], rest)
    ensures FollowsChain(zones, qtype, names, [first] + rest)
  {
    hide Leads, LastRecords;
    var answers := [first] + rest;
    forall i | 1 <= i < |names| - 1
      ensures Leads(zones, qtype, names[i], answers[i], names[i + 1])
    {
      assert names[i] == names[1..][i - 1] && names[i + 1] == names[1..][i] && answers[i] == rest[i - 1];
    }
    assert answers[|names| - 1..] == rest[|names| - 2..];
  }

  lemma FirstAlias(zones: ZoneSet, qtype: u16, name: Text, next: Text)
    requires Linked(zones, qtype, name, next)
    ensures var rs := Contribution(zones, name, qtype);
            |rs| == 1 && Leads(zones, qtype, name, rs[0], next)
  {
    hide Examine, AliasRecord, AllOfType;
    ContributionRecords(zones, name, qtype);
  }

  /** Soundness on the records themselves: distinct owners from the queried name on, each CNAME naming the next. */
  lemma AnswersFollowChain(zones: ZoneSet, q: DnsQuestion) returns (names: seq<Text>)
    ensures 0 < |names| <= MAX_CNAME_CHAIN && names[0] == Lower(q.qname) && Distinct(names)
    ensures FollowsChain(zones, q.qtype, names, AnswersFor(zones, q))
    ensures Ends(zones, q.qtype, names, {}, MAX_CNAME_CHAIN)
  {
    hide Examine, FollowsChain;
    names := Visited(zones, q.qtype, Lower(q.qname), {}, MAX_CNAME_CHAIN);
    VisitedIsChain(zones, q.qtype, Lower(q.qname), {}, MAX_CNAME_CHAIN);
    AnswersFollowNames(zones, q.qtype, names);
  }

  /**
    * Completeness: an alias chain of distinct names that ends in no further alias is answered
    * completely and in order exactly when it has at most 15 aliases; a longer chain is cut after
    * its first sixteen names.
    */
  lemma ChaseIsComplete(zones: ZoneSet, q: DnsQuestion, names: seq<Text>)
    requires names != [] && names[0] == Lower(q.qname)
    requires Chain(zones, q.qtype, names) && Distinct(names)
    requires !Examine(zones, names[|names| - 1], q.qtype).Alias?
    ensures FollowsChain(zones, q.qtype, names[..Min(MAX_CNAME_CHAIN, |names|)], AnswersFor(zones, q))
    ensures |names| - 1 <= 15 ==>
              FollowsChain(zones, q.qtype, names, AnswersFor(zones, q))
              && AllOfType(zones, q.qtype, names[|names| - 1], AnswersFor(zones, q)[|names| - 1..])
  {
    hide Examine, FollowsChain, AllOfType;
    ChainIsVisited(zones, q.qtype, names, {}, MAX_CNAME_CHAIN);
    VisitedIsChain(zones, q.qtype, names[0], {}, MAX_CNAME_CHAIN);
    AnswersFollowNames(zones, q.qtype, names[..Min(MAX_CNAME_CHAIN, |names|)]);
    if |names| - 1 <= 15 {
      assert names[..|names|] == names;
      LastIsNoAlias(zones, q.qtype, names, AnswersFor(zones, q));
    }
  }

  lemma LastIsNoAlias(zones: ZoneSet, qtype: u16, names: seq<Text>, answers: seq<DnsRecord>)
    requires FollowsChain(zones, qtype, names, answers) && !Examine(zones, names[|names| - 1], qtype).Alias?
    ensures AllOfType(zones, qtype, names[|names| - 1], answers[|names| - 1..])
  {
    hide FindZone, Lookup, AllOfType;
  }

  /** No answers exactly when the queried name itself gives none. */
  lemma EmptyAnswers(zones: ZoneSet, q: DnsQuestion)
    ensures var f := Examine(zones, Lower(q.qname), q.qtype);
            AnswersFor(zones, q) == [] <==> !f.Direct? && !f.Alias?
  {
    hide Examine;
    var name := Lower(q.qname);
    VisitedIsChain(zones, q.qtype, name, {}, MAX_CNAME_CHAIN);
    var names := Visited(zones, q.qtype, name, {}, MAX_CNAME_CHAIN);
    assert Answers(zones, q.qtype, names) == Contribution(zones, name, q.qtype) + Answers(zones, q.qtype, names[1..]);
    if !Examine(zones, name, q.qtype).Alias? {
      assert names == [name];
      assert names[1..] == [];
    }
  }

  // ----- The response -----

  predicate HasSoa(zone: Zone) {
    exists k :: k in zone && exists i :: 0 <= i < |zone[k]| && zone[k][i].SOA?
  }

  predicate HoldsSoa(zone: Zone, soa: DnsRecord) {
    soa.SOA? && exists k :: k in zone && soa in zone[k]
  }

  /** Some SOA record of the zone; a hash map's order decides which. */
  method ZoneSoa(zone: Zone) returns (soa: Option<DnsRecord>)
    ensures soa.None? <==> !HasSoa(zone)
    ensures soa.Some? ==> HoldsSoa(zone, soa.value)
  {
    var keys := zone.Keys;
    while keys != {}
      invariant keys <= zone.Keys
      invariant forall k :: k in zone && k !in keys ==> forall i :: 0 <= i < |zone[k]| ==> !zone[k][i].SOA?
      decreases keys
    {
      var k :| k in keys;
      for i := 0 to |zone[k]|
        invariant forall j :: 0 <= j < i ==> !zone[k][j].SOA?
      {
        if zone[k][i].SOA? {
          assert zone[k][i] in zone[k];
          return Some(zone[k][i]);
        }
      }
      keys := keys - {k};
    }
    return None;
  }

  /** QR, the client's RD, AA and the rcode; RA stays clear. */
  function ResponseFlags(rd: bool, aa: bool, rcode: u16): u16
    requires rcode < 16
  {
    0x8000 + (if rd then 0x100 else 0) + (if aa then 0x400 else 0) + rcode
  }

  lemma ResponseFlagsBits(rd: bool, aa: bool, rcode: u16)
    requires rcode < 16
    ensures var f := ResponseFlags(rd, aa, rcode);
            && HasBit(f, FLAG_QR) && !HasBit(f, FLAG_RA) && !HasBit(f, FLAG_TC)
            && (HasBit(f, FLAG_RD) <==> rd) && (HasBit(f, FLAG_AA) <==> aa) && Rcode(f) == rcode
  {}

  /** `zone` is the best match for the name, and `found` says whether it has an entry for it. */
  ghost predicate Locates(zones: ZoneSet, name: Text, zone: Option<Zone>, found: bool) {
    && ServedBy(zones, name, zone)
    && (found <==> zone.Some? && !Finds(zone.value, name, None))
  }

  lemma NameIsServed(zones: ZoneSet, name: Text)
    ensures var zone := FindZone(zones, name);
            Locates(zones, name, zone, zone.Some? && Lookup(zone.value, name).Some?)
  {
    hide ServedBy, FindZone;
    ZoneIsBest(zones, name);
    if FindZone(zones, name).Some? {
      FoundOrNot(FindZone(zones, name).value, name);
    }
  }

  lemma FoundOrNot(zone: Zone, name: Text)
    ensures Finds(zone, name, None) <==> Lookup(zone, name).None?
  {
    hide Below, Star;
    LookupFinds(zone, name);
  }

  /** The flag word of the response, from the zones and the request alone. */
  function FlagsFor(zones: ZoneSet, request: DnsPacket): u16 {
    var rd := HasBit(request.header.flags, FLAG_RD);
    if request.questions == [] then ResponseFlags(rd, false, 0)
    else
      var name := Lower(request.questions[0].qname);
      var zone := FindZone(zones, name);
      var found := zone.Some? && Lookup(zone.value, name).Some?;
      ResponseFlags(rd, found || (zone.Some? && HasSoa(zone.value)), if found then 0 else 3)
  }

  /** The chase loop of `build_response` for one question. */
  method Chase(zones: ZoneSet, q: DnsQuestion) returns (answers: seq<DnsRecord>, rcode: u16, authoritative: bool)
    ensures answers == AnswersFor(zones, q)
    ensures var f := Examine(zones, Lower(q.qname), q.qtype);
            && rcode == (if f.NoZone? || f.NoName? then 3 else 0)
            && (authoritative <==> !f.NoZone? && !f.NoName?)
  {
    hide Lookup, FindZone, OfType, Answers, Visited;
    var name, seen := Lower(q.qname), {};
    answers, rcode, authoritative := [], 0, false;
    ghost var start := name;
    for i := 0 to MAX_CNAME_CHAIN
      invariant var names := Visited(zones, q.qtype, name, seen, MAX_CNAME_CHAIN - i);
                AnswersFor(zones, q) == answers + Answers(zones, q.qtype, names)
      invariant i == 0 ==> name == start && answers == [] && rcode == 0 && !authoritative && seen == {}
      invariant i > 0 ==> answers != [] && rcode == 0 && authoritative && Examine(zones, start, q.qtype).Alias?
    {
      if name in seen {
        VisitedNothing(zones, q.qtype, name, seen, MAX_CNAME_CHAIN - i);
        break;
      }
      seen := seen + {name};
      var zone := FindZone(zones, name);
      if zone.None? {
        VisitedEnd(zones, q.qtype, name, seen - {name}, MAX_CNAME_CHAIN - i);
        if answers == [] {
          rcode := 3;
        }
        break;
      }
      var records := LookupLoop(zone.value, name);
      if records.None? {
        VisitedEnd(zones, q.qtype, name, seen - {name}, MAX_CNAME_CHAIN - i);
        if answers == [] {
          rcode := 3;
        }
        break;
      }
      authoritative := true;
      var direct := OfType(records.value, q.qtype);
      var cnames := OfType(records.value, TYPE_CNAME);
      ghost var f := Examine(zones, name, q.qtype);
      if direct != [] {
        VisitedEnd(zones, q.qtype, name, seen - {name}, MAX_CNAME_CHAIN - i);
        answers := answers + Renamed(direct, name);
        break;
      }
      if cnames != [] {
        VisitedAlias(zones, q.qtype, name, seen - {name}, MAX_CNAME_CHAIN - i, answers);
        answers := answers + [WithDomain(cnames[0], name)];
        name := Lower(cnames[0].alias);
        continue;
      }
      VisitedEnd(zones, q.qtype, name, seen - {name}, MAX_CNAME_CHAIN - i);
      break;
    }
    VisitedNothing(zones, q.qtype, name, seen, 0);
    assert answers + [] == answers;
  }

  lemma VisitedNothing(zones: ZoneSet, qtype: u16, name: Text, seen: set<Text>, fuel: nat)
    requires fuel == 0 || name in seen
    ensures Answers(zones, qtype, Visited(zones, qtype, name, seen, fuel)) == []
  {}

  lemma VisitedEnd(zones: ZoneSet, qtype: u16, name: Text, seen: set<Text>, fuel: nat)
    requires fuel > 0 && name !in seen && !Examine(zones, name, qtype).Alias?
    ensures Answers(zones, qtype, Visited(zones, qtype, name, seen, fuel))
         == match Examine(zones, name, qtype) case Direct(rs) => Renamed(rs, name) case _ => []
  {
    hide Examine;
    assert Visited(zones, qtype, name, seen, fuel) == [name];
    assert [name][1..] == [];
    assert Answers(zones, qtype, []) == [];
  }

  lemma VisitedAlias(zones: ZoneSet, qtype: u16, name: Text, seen: set<Text>, fuel: nat, before: seq<DnsRecord>)
    requires fuel > 0 && name !in seen && Examine(zones, name, qtype).Alias?
    ensures before + Answers(zones, qtype, Visited(zones, qtype, name, seen, fuel))
         == var f := Examine(zones, name, qtype);
            var rest := Visited(zones, qtype, Target(f), seen + {name}, fuel - 1);
            before + [WithDomain(f.cname, name)] + Answers(zones, qtype, rest)
  {
    hide Examine;
    var rest := Visited(zones, qtype, Target(Examine(zones, name, qtype)), seen + {name}, fuel - 1);
    assert ([name] + rest)[1..] == rest;
  }

  /** An OPT record advertising the negotiated size, if the client sent one. */
  function EchoedOpt(request: DnsPacket): seq<DnsRecord> {
    match EdnsUdpSize(request)
    case Some(size) => [OPT(Clamp(size, MAX_UDP_SIZE, MAX_EDNS_UDP))]
    case None => []
  }

  /** It is there exactly when the client sent one, and has the client's limit. */
  lemma EchoedOptIs(request: DnsPacket, limit: nat)
    requires Allows(request.additionals, limit)
    ensures EchoedOpt(request) == if NoOpt(request.additionals) then [] else [OPT(limit)]
  {
    hide Allows;
    UdpLimitIs(request, limit);
    LimitOfSize(request);
  }

  /**
    * The response: the chase's answers; NXDOMAIN exactly when the queried name has
    * no zone or no entry; AA exactly when its zone has an entry for it or an SOA;
    * an SOA exactly when there are no answers and that zone has one.
    */
  method BuildResponse(request: DnsPacket, zones: ZoneSet) returns (response: DnsPacket)
    ensures response.questions == request.questions && response.additionals == EchoedOpt(request)
    ensures forall limit: u16 :: Allows(request.additionals, limit) ==>
                                   response.additionals == if NoOpt(request.additionals) then [] else [OPT(limit)]
    ensures response.header.id == request.header.id && response.header.flags == FlagsFor(zones, request)
    ensures var flags := response.header.flags;
            && HasBit(flags, FLAG_QR) && !HasBit(flags, FLAG_RA) && !HasBit(flags, FLAG_TC)
            && (HasBit(flags, FLAG_RD) <==> HasBit(request.header.flags, FLAG_RD))
    ensures request.questions == [] ==>
              && response.answers == [] && response.authorities == []
              && Rcode(response.header.flags) == 0 && !HasBit(response.header.flags, FLAG_AA)
    ensures request.questions != [] ==>
              var q := request.questions[0];
              var zone := FindZone(zones, Lower(q.qname));
              var found := zone.Some? && Lookup(zone.value, Lower(q.qname)).Some?;
              && Locates(zones, Lower(q.qname), zone, found)
              && response.answers == AnswersFor(zones, q)
              && (exists names: seq<Text> ::
                    0 < |names| <= MAX_CNAME_CHAIN && names[0] == Lower(q.qname) && Distinct(names)
                    && FollowsChain(zones, q.qtype, names, response.answers))
              && Rcode(response.header.flags) == (if found then 0 else 3)
              && (HasBit(response.header.flags, FLAG_AA) <==> found || (zone.Some? && HasSoa(zone.value)))
              && (response.authorities != [] <==> response.answers == [] && zone.Some? && HasSoa(zone.value))
              && (response.authorities != [] ==>
                    |response.authorities| == 1 && HoldsSoa(zone.value, response.authorities[0]))
  {
    hide Lookup, FindZone, HasSoa, HoldsSoa, AnswersFor, HasBit, ResponseFlags, Classify, FollowsChain, Distinct;
    hide Locates, Allows;
    forall limit: u16 | Allows(request.additionals, limit)
      ensures EchoedOpt(request) == if NoOpt(request.additionals) then [] else [OPT(limit)]
    {
      EchoedOptIs(request, limit);
    }
    var answers: seq<DnsRecord>, authorities: seq<DnsRecord>, rcode: u16, authoritative := [], [], 0, false;
    if request.questions != [] {
      var q := request.questions[0];
      answers, rcode, authoritative := Chase(zones, q);
      EmptyAnswers(zones, q);
      ghost var names := AnswersFollowChain(zones, q);
      NameIsServed(zones, Lower(q.qname));
      var zone := FindZone(zones, Lower(q.qname));
      if answers == [] && zone.Some? {
        var soa := ZoneSoa(zone.value);
        if soa.Some? {
          authorities := [soa.value];
          authoritative := true;
        }
      }
    }
    var rd := HasBit(request.header.flags, FLAG_RD);
    ResponseFlagsBits(rd, authoritative, rcode);
    response := DnsPacket(
      DnsHeader(request.header.id, ResponseFlags(rd, authoritative, rcode), |request.questions| % 0x1_0000,
                |answers| % 0x1_0000, |authorities|, |EchoedOpt(request)|),
      request.questions, answers, authorities, EchoedOpt(request));
  }

  /** The size limit of a local answer is the client's own. */
  lemma ResponseLimitIsClients(request: DnsPacket, response: DnsPacket)
    requires response.additionals == EchoedOpt(request)
    ensures UdpLimit(response) == UdpLimit(request)
  {
    if EdnsUdpSize(request).Some? {
      assert OptSize(response.additionals) == Some(response.additionals[0].udpSize);
    }
  }

  /** At most one question, with a name of up to 255 wire bytes. */
  predicate SmallQuestion(request: DnsPacket) {
    && |request.questions| <= 1
    && (request.questions != [] ==> |PlainName(Labels(request.questions[0].qname))| <= 255)
  }

  /** End to end: a local answer to such a request fits the client's limit, truncated or not. */
  lemma LocalAnswerFits(request: DnsPacket, response: DnsPacket)
    requires SmallQuestion(request)
    requires response.questions == request.questions && response.additionals == EchoedOpt(request)
    ensures |ToUdpBytes(response)| <= UdpLimit(request)
  {
    hide UdpLimit, ToUdpBytes;
    UdpFits(response);
    ResponseLimitIsClients(request, response);
  }
}
