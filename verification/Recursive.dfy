/** The iterative resolver's loop, driven by arbitrary replies from the servers it asks. */
module Recursive {
  import opened Bytes
  import opened Names
  import opened Records
  import opened Wire
  import opened Zones

  const MAX_DELEGATION_DEPTH: nat := 20

  /** A server address; the port is always 53. */
  type Addr = seq<byte>

  datatype Delegation = Delegation(nsNames: seq<Text>, nsAddrs: seq<Addr>, expiresAt: int)

  type Delegations = map<Text, Delegation>

  /** What asking a list of servers comes to: all fail, a reply panics the parser, or one is parsed. */
  datatype Reply = Failed | Crash | Parsed(packet: DnsPacket)

  /** What some server of the list replied to a name in a round. */
  type Replies = (nat, Text, seq<Addr>) -> Reply

  /**
    * The world a resolution meets: any replies, a clock read once a round, and what the other
    * resolutions have made of the shared delegation cache by the time the round's reply is in.
    */
  datatype World = World(replies: Replies, clock: nat -> int, others: (nat, Delegations) -> Delegations)

  /** The normalized question, the client's ID and the root hints. */
  datatype Query = Query(name: Text, qtype: u16, id: u16, roots: seq<Addr>)

  // ----- Query names -----

  function NonEmpty(ls: seq<Label>): seq<Label> {
    if ls == [] then [] else (if ls[0] == [] then [] else [ls[0]]) + NonEmpty(ls[1..])
  }

  /** The labels minimization counts: those that are not empty. */
  function Parts(name: Text): seq<Label> { NonEmpty(Split(name)) }

  /** The last `n` elements, or all of them. */
  function Last<T>(s: seq<T>, n: nat): (r: seq<T>) {
    if n <= |s| then s[|s| - n..] else s
  }

  function MinimizedQname(name: Text, zone: Text): Text {
    var labels := Parts(name);
    if labels == [] then name
    else if zone == [] then labels[|labels| - 1]
    else
      var n := |Parts(zone)| + 1;
      if n >= |labels| then name else Join(labels[|labels| - n..])
  }

  function DelegationZone(name: Text): Text {
    match AfterDot(name) case Some(parent) => parent case None => name
  }

  predicate Proper(ls: seq<Label>) {
    Dotless(ls) && forall i :: 0 <= i < |ls| ==> ls[i] != []
  }

  lemma {:induction false} NonEmptyIsProper(ls: seq<Label>)
    requires Dotless(ls)
    ensures Proper(NonEmpty(ls))
  {
    if ls != [] {
      NonEmptyIsProper(ls[1..]);
    }
  }

  lemma {:induction false} NonEmptyKeepsProper(ls: seq<Label>)
    requires Proper(ls)
    ensures NonEmpty(ls) == ls
  {
    if ls != [] {
      NonEmptyKeepsProper(ls[1..]);
      assert [ls[0]] + ls[1..] == ls;
    }
  }

  lemma PartsAreProper(name: Text)
    ensures Proper(Parts(name))
  {
    SplitDotless(name);
    NonEmptyIsProper(Split(name));
  }

  lemma PartsOfJoin(ls: seq<Label>)
    requires Proper(ls)
    ensures Parts(Join(ls)) == ls
  {
    if ls == [] {
      assert Split([])[1..] == [];
    } else {
      SplitJoin(ls);
      NonEmptyKeepsProper(ls);
    }
  }

  /** A round sends the label suffix of the name with one label more than the zone, or the whole name. */
  lemma MinimizedParts(name: Text, zone: Text)
    ensures Parts(MinimizedQname(name, zone)) == Last(Parts(name), Min(|Parts(name)|, |Parts(zone)| + 1))
    ensures |Parts(zone)| + 1 < |Parts(name)| ==>
              MinimizedQname(name, zone) == Join(Last(Parts(name), |Parts(zone)| + 1))
    ensures zone != [] && |Parts(zone)| + 1 >= |Parts(name)| ==> MinimizedQname(name, zone) == name
  {
    hide Parts;
    var labels := Parts(name);
    PartsAreProper(name);
    OnlyTheRootHasNoParts(zone);
    assert Last(labels, |labels|) == labels;
    if labels != [] {
      assert Last(labels, 1) == [labels[|labels| - 1]];
      PartsOfJoin(Last(labels, Min(|labels|, |Parts(zone)| + 1)));
    }
  }

  lemma {:induction false} AfterDotSkips(l: Label, rest: Text)
    requires DOT !in l
    ensures AfterDot(l + [DOT] + rest) == Some(rest)
  {
    var s := l + [DOT] + rest;
    if l == [] {
      assert s[1..] == rest;
    } else {
      assert s[1..] == l[1..] + [DOT] + rest;
      AfterDotSkips(l[1..], rest);
    }
  }

  lemma {:induction false} AfterDotNone(l: Label)
    requires DOT !in l
    ensures AfterDot(l).None?
  {
    if l != [] {
      AfterDotNone(l[1..]);
    }
  }

  /** The zone after a referral: the parent of the name asked, or that name when it has one label. */
  lemma DelegationZoneParts(ls: seq<Label>)
    requires Proper(ls) && ls != []
    ensures Parts(DelegationZone(Join(ls))) == (if |ls| == 1 then ls else ls[1..])
  {
    PartsOfJoin(ls);
    if |ls| == 1 {
      AfterDotNone(ls[0]);
    } else {
      AfterDotSkips(ls[0], Join(ls[1..]));
      PartsOfJoin(ls[1..]);
    }
  }

  // ----- Delegations -----

  function NsNames(rs: seq<DnsRecord>): seq<Text> {
    if rs == [] then []
    else (if rs[0].NS? then [rs[0].nameserver] else []) + NsNames(rs[1..])
  }

  function NsTtl(rs: seq<DnsRecord>): nat {
    if rs == [] then 3600
    else if rs[0].NS? then Min(rs[0].ttl, NsTtl(rs[1..]))
    else NsTtl(rs[1..])
  }

  predicate NamesAny(names: seq<Text>, name: Text) {
    exists i :: 0 <= i < |names| && Lower(names[i]) == Lower(name)
  }

  function Glue(rs: seq<DnsRecord>, names: seq<Text>): seq<Addr> {
    if rs == [] then []
    else
      (if rs[0].A? && NamesAny(names, rs[0].domain) then [rs[0].addr]
       else if rs[0].AAAA? && NamesAny(names, rs[0].domain) then [rs[0].addr6]
       else []) + Glue(rs[1..], names)
  }

  function CachedAddrs(names: seq<Text>, cache: Delegations, now: int): seq<Addr> {
    if names == [] then []
    else
      (if names[0] in cache && now < cache[names[0]].expiresAt then cache[names[0]].nsAddrs else [])
      + CachedAddrs(names[1..], cache, now)
  }

  function ExtractDelegation(p: DnsPacket, cache: Delegations, now: int): Option<Delegation> {
    var names := NsNames(p.authorities);
    var glue := Glue(p.additionals, names);
    var addrs := if glue != [] then glue else CachedAddrs(names, cache, now);
    if names == [] || addrs == [] then None
    else Some(Delegation(names, addrs, now + NsTtl(p.authorities)))
  }

  /** `t` is the least TTL of the NS records, and no more than an hour. */
  predicate LeastTtl(rs: seq<DnsRecord>, t: int) {
    && t <= 3600 && (forall i :: 0 <= i < |rs| && rs[i].NS? ==> t <= rs[i].ttl)
    && (t == 3600 || exists i :: 0 <= i < |rs| && rs[i].NS? && rs[i].ttl == t)
  }

  lemma {:induction false} NsTtlIsLeast(rs: seq<DnsRecord>)
    ensures LeastTtl(rs, NsTtl(rs))
  {
    if rs != [] {
      NsTtlIsLeast(rs[1..]);
      assert forall i :: 1 <= i < |rs| ==> rs[i] == rs[1..][i - 1];
    }
  }

  /** The packet has an NS record for the server `n`. */
  ghost predicate NamesServer(p: DnsPacket, n: Text) {
    exists i :: 0 <= i < |p.authorities| && p.authorities[i].NS? && p.authorities[i].nameserver == n
  }

  /** `a` is the address in an additional record whose owner is, up to case, a server the packet names. */
  ghost predicate GlueFor(p: DnsPacket, a: Addr) {
    exists i, n ::
      && 0 <= i < |p.additionals| && NamesServer(p, n)
      && (|| (p.additionals[i].A? && p.additionals[i].addr == a)
          || (p.additionals[i].AAAA? && p.additionals[i].addr6 == a))
      && SameName(n, p.additionals[i].domain)
  }

  /** A server the packet names has `a` in a cached delegation that has not expired. */
  ghost predicate CachedFor(p: DnsPacket, cache: Delegations, now: int, a: Addr) {
    exists n :: NamesServer(p, n) && n in cache && now < cache[n].expiresAt && a in cache[n].nsAddrs
  }

  /** The packet or the cache gives `a` as the address of a server that the packet names. */
  ghost predicate Backed(p: DnsPacket, cache: Delegations, now: int, a: Addr) {
    GlueFor(p, a) || CachedFor(p, cache, now, a)
  }

  lemma {:induction false} NsNamesIn(rs: seq<DnsRecord>, n: Text)
    ensures n in NsNames(rs) <==> exists i :: 0 <= i < |rs| && rs[i].NS? && rs[i].nameserver == n
  {
    if rs != [] {
      NsNamesIn(rs[1..], n);
      assert forall i :: 1 <= i < |rs| ==> rs[i] == rs[1..][i - 1];
    }
  }

  lemma NamesAnyIs(names: seq<Text>, name: Text)
    ensures NamesAny(names, name) <==> exists n :: n in names && SameName(n, name)
  {
    hide Lower, SameName;
    forall i | 0 <= i < |names|
      ensures names[i] in names && (Lower(names[i]) == Lower(name) <==> SameName(names[i], name))
    {
      SameWhenFolded(names[i], name);
    }
  }

  /** `r` is an address record for `a`, owned by one of `names`. */
  predicate IsGlue(r: DnsRecord, names: seq<Text>, a: Addr) {
    ((r.A? && r.addr == a) || (r.AAAA? && r.addr6 == a)) && NamesAny(names, r.domain)
  }

  lemma {:induction false} GlueIn(rs: seq<DnsRecord>, names: seq<Text>, a: Addr)
    ensures a in Glue(rs, names) <==> exists i :: 0 <= i < |rs| && IsGlue(rs[i], names, a)
  {
    hide NamesAny;
    if rs != [] {
      GlueIn(rs[1..], names, a);
      assert forall i :: 1 <= i < |rs| ==> rs[i] == rs[1..][i - 1];
    }
  }

  lemma {:induction false} CachedIn(names: seq<Text>, cache: Delegations, now: int, a: Addr)
    ensures a in CachedAddrs(names, cache, now) <==>
            exists n :: n in names && n in cache && now < cache[n].expiresAt && a in cache[n].nsAddrs
  {
    if names != [] {
      CachedIn(names[1..], cache, now, a);
      assert forall n :: n in names <==> n == names[0] || n in names[1..];
    }
  }

  lemma GlueIsFor(p: DnsPacket, a: Addr)
    ensures a in Glue(p.additionals, NsNames(p.authorities)) <==> GlueFor(p, a)
    ensures GlueFor(p, a) ==> NsNames(p.authorities) != []
  {
    hide Glue, NsNames, NamesAny, SameName, NamesServer;
    var rs, names := p.additionals, NsNames(p.authorities);
    GlueIn(rs, names, a);
    forall n
      ensures n in names <==> NamesServer(p, n)
    {
      ServersNamed(p, n);
    }
    forall i | 0 <= i < |rs| && (rs[i].A? || rs[i].AAAA?)
      ensures NamesAny(names, rs[i].domain) <==> exists n :: n in names && SameName(n, rs[i].domain)
    {
      NamesAnyIs(names, rs[i].domain);
    }
  }

  lemma ServersNamed(p: DnsPacket, n: Text)
    ensures n in NsNames(p.authorities) <==> NamesServer(p, n)
  {
    NsNamesIn(p.authorities, n);
  }

  lemma CachedIsFor(p: DnsPacket, cache: Delegations, now: int, a: Addr)
    ensures a in CachedAddrs(NsNames(p.authorities), cache, now) <==> CachedFor(p, cache, now, a)
    ensures CachedFor(p, cache, now, a) ==> NsNames(p.authorities) != []
  {
    hide CachedAddrs, NsNames, NamesServer;
    CachedIn(NsNames(p.authorities), cache, now, a);
    forall n
      ensures n in NsNames(p.authorities) <==> NamesServer(p, n)
    {
      ServersNamed(p, n);
    }
  }

  /**
    * `d` is the delegation in the packet: its servers, all their glue or, without any, all their
    * addresses in the cache, and good until the first of its NS records or an hour is over.
    */
  ghost predicate DelegationOf(p: DnsPacket, cache: Delegations, now: int, d: Delegation) {
    && (forall n :: n in d.nsNames <==> NamesServer(p, n))
    && d.nsAddrs != []
    && (if exists a :: GlueFor(p, a) then forall a :: a in d.nsAddrs <==> GlueFor(p, a)
        else forall a :: a in d.nsAddrs <==> CachedFor(p, cache, now, a))
    && LeastTtl(p.authorities, d.expiresAt - now)
  }

  /** A referral is believed until the first of its NS records or an hour is over, whichever is sooner. */
  lemma DelegationExpires(p: DnsPacket, cache: Delegations, now: int)
    ensures var d := ExtractDelegation(p, cache, now);
            d.Some? ==> LeastTtl(p.authorities, d.value.expiresAt - now)
  {
    hide NsNames, Glue, CachedAddrs, NsTtl, LeastTtl;
    NsTtlIsLeast(p.authorities);
  }

  /**
    * A referral is followed exactly when some server it names has an address: in glue owned
    * by one of them or, failing that, in an unexpired cached delegation.
    */
  lemma DelegationIsBacked(p: DnsPacket, cache: Delegations, now: int)
    ensures var d := ExtractDelegation(p, cache, now);
            && (d.Some? <==> exists a :: Backed(p, cache, now, a))
            && (d.Some? ==> DelegationOf(p, cache, now, d.value))
  {
    DelegationExpires(p, cache, now);
    hide NsNames, Glue, CachedAddrs, NsTtl, GlueFor, CachedFor, NamesServer, LeastTtl;
    var names := NsNames(p.authorities);
    var glue, cached := Glue(p.additionals, names), CachedAddrs(names, cache, now);
    forall n
      ensures n in names <==> NamesServer(p, n)
    {
      ServersNamed(p, n);
    }
    forall a
      ensures (a in glue <==> GlueFor(p, a)) && (a in cached <==> CachedFor(p, cache, now, a))
      ensures Backed(p, cache, now, a) ==> names != []
    {
      GlueIsFor(p, a);
      CachedIsFor(p, cache, now, a);
    }
    if glue != [] {
      assert glue[0] in glue && Backed(p, cache, now, glue[0]);
    } else if cached != [] {
      assert cached[0] in cached && Backed(p, cache, now, cached[0]);
    }
  }

  // ----- The loop -----

  /** The reply as it is sent on: the client's ID, AA clear, RA set. */
  function Relayed(p: DnsPacket, id: u16): DnsPacket {
    p.(header := p.header.(id := id, flags := RelayedFlags(p.header.flags)))
  }

  function RelayedFlags(flags: u16): u16 {
    ClearedAa(flags);
    SetRa(ClearBit(flags, FLAG_AA));
    SetBit(ClearBit(flags, FLAG_AA), FLAG_RA)
  }

  /** The flag word `f` with bit 0x400 clear, bit 0x80 set and every other bit as it was. */
  predicate Relabelled(f: u16, g: u16) {
    && g / 0x800 == f / 0x800 && g / 0x400 % 2 == 0 && g % 0x400 / 0x100 == f % 0x400 / 0x100
    && g / 0x80 % 2 == 1 && g % 0x80 == f % 0x80
  }

  /** `r` is the reply `p` as the client gets it: every section and count, the client's ID, AA clear, RA set. */
  predicate SentOn(p: DnsPacket, id: u16, r: DnsPacket) {
    && r.questions == p.questions && r.answers == p.answers
    && r.authorities == p.authorities && r.additionals == p.additionals
    && r.header == p.header.(id := id, flags := r.header.flags)
    && Relabelled(p.header.flags, r.header.flags)
  }

  lemma RelayedFlagsAre(flags: u16)
    ensures Relabelled(flags, RelayedFlags(flags))
  {
    hide ClearBit, SetBit;
    ClearedAa(flags);
    var c := ClearBit(flags, FLAG_AA);
    SetRa(c);
    HighBits(c, SetBit(c, FLAG_RA));
    LowBits(flags, c);
  }

  lemma HighBits(f: u16, g: u16)
    requires f / 0x100 == g / 0x100
    ensures f / 0x800 == g / 0x800 && f / 0x400 == g / 0x400 && f % 0x400 / 0x100 == g % 0x400 / 0x100
  {
    HighByte(f);
    HighByte(g);
  }

  /** The bits above the low byte are those of the high byte. */
  lemma HighByte(f: u16)
    ensures var h := f / 0x100;
            f / 0x800 == h / 8 && f / 0x400 == h / 4 && f % 0x400 / 0x100 == h % 4
  {
    var h, l := f / 0x100, f % 0x100;
    assert f == 0x100 * h + l;
    assert f == 0x400 * (h / 4) + (0x100 * (h % 4) + l);
  }

  lemma LowBits(f: u16, g: u16)
    requires f % 0x400 == g % 0x400
    ensures f % 0x80 == g % 0x80 && f % 0x400 / 0x100 == g % 0x400 / 0x100
  {
    assert f == 0x400 * (f / 0x400) + f % 0x400 && g == 0x400 * (g / 0x400) + g % 0x400;
  }

  lemma RelayedIsSentOn(p: DnsPacket, id: u16)
    ensures SentOn(p, id, Relayed(p, id))
  {
    hide RelayedFlags, Relabelled;
    RelayedFlagsAre(p.header.flags);
  }

  lemma RelabelledBits(f: u16, g: u16)
    requires Relabelled(f, g)
    ensures HasBit(g, FLAG_RA) && !HasBit(g, FLAG_AA) && Rcode(g) == Rcode(f)
  {
    assert f == 0x80 * (f / 0x80) + f % 0x80 && g == 0x80 * (g / 0x80) + g % 0x80;
  }

  function ServFail(q: Query): DnsPacket {
    DnsPacket(DnsHeader(q.id, 0x8182, 1, 0, 0, 0), [DnsQuestion(q.name, q.qtype, 1)], [], [], [])
  }

  /** SERVFAIL to the client's question, without records. */
  predicate IsServFail(q: Query, r: DnsPacket) {
    && r.header.id == q.id && r.header.flags == 0x8182 && r.questions == [DnsQuestion(q.name, q.qtype, 1)]
    && r.answers == [] && r.authorities == [] && r.additionals == []
  }

  datatype Loop = Loop(servers: seq<Addr>, zone: Text, cache: Delegations)

  datatype Turn = Again(state: Loop) | Return(packet: DnsPacket) | Unwind

  /** What one round does with the reply to the minimized name. */
  function TakeTurn(q: Query, st: Loop, reply: Reply, now: int): Turn {
    var asked := MinimizedQname(q.name, st.zone);
    match reply
    case Failed => Return(ServFail(q))
    case Crash => Unwind
    case Parsed(p) =>
      var rcode := Rcode(p.header.flags);
      if p.answers != [] || rcode == 3 then
        if asked != q.name then Again(st.(servers := q.roots, zone := [])) else Return(Relayed(p, q.id))
      else if rcode == 0 then
        match ExtractDelegation(p, st.cache, now)
        case Some(d) =>
          var zone := DelegationZone(asked);
          Again(Loop(d.nsAddrs, zone, st.cache[zone := d]))
        case None =>
          if asked == q.name then Return(Relayed(p, q.id)) else Again(st.(servers := q.roots, zone := []))
      else Return(Relayed(p, q.id))
  }

  /** The loop's state once the round's reply is in. */
  function Meanwhile(w: World, st: Loop, depth: nat): Loop { st.(cache := w.others(depth, st.cache)) }

  /** The turn taken in the round after `depth` others. */
  function TurnAt(q: Query, w: World, st: Loop, depth: nat): Turn {
    var reply := w.replies(depth, MinimizedQname(q.name, st.zone), st.servers);
    TakeTurn(q, Meanwhile(w, st, depth), reply, w.clock(depth))
  }

  /** The packet returned, if no reply panics the parser; the names sent in order; the delegation cache left behind. */
  datatype Outcome = Outcome(packet: Option<DnsPacket>, sent: seq<Text>, cache: Delegations)

  function Rounds(q: Query, w: World, st: Loop, depth: nat): Outcome
    decreases Max(0, MAX_DELEGATION_DEPTH - depth)
  {
    if depth >= MAX_DELEGATION_DEPTH then Outcome(Some(ServFail(q)), [], st.cache)
    else
      var asked := MinimizedQname(q.name, st.zone);
      match TurnAt(q, w, st, depth)
      case Return(p) => Outcome(Some(p), [asked], w.others(depth, st.cache))
      case Unwind => Outcome(None, [asked], w.others(depth, st.cache))
      case Again(st') =>
        var rest := Rounds(q, w, st', depth + 1);
        Outcome(rest.packet, [asked] + rest.sent, rest.cache)
  }

  function TrimDots(s: Text): Text {
    if s != [] && s[|s| - 1] == DOT then TrimDots(s[..|s| - 1]) else s
  }

  /** Trailing dots go, and nothing else. */
  lemma {:induction false} TrimDotsIs(s: Text)
    ensures var t := TrimDots(s);
            && t <= s && (forall i :: |t| <= i < |s| ==> s[i] == DOT)
            && (t != [] ==> t[|t| - 1] != DOT)
  {
    if s != [] && s[|s| - 1] == DOT {
      TrimDotsIs(s[..|s| - 1]);
    }
  }

  /** The name as it is resolved: `qname` up to case, without its trailing dots and without capitals. */
  lemma NormalizedName(qname: Text)
    ensures var name := TrimDots(Lower(qname));
            && |name| <= |qname| && SameName(name, qname[..|name|]) && NoCapitals(name)
            && (forall i :: |name| <= i < |qname| ==> qname[i] == DOT) && (name != [] ==> name[|name| - 1] != DOT)
  {
    var low := Lower(qname);
    LowerFolds(qname, low);
    TrimDotsIs(low);
    assert forall i :: 0 <= i < |low| ==> SameLetter(qname[i], low[i]);
  }

  function ParentOf(name: Text): Text {
    match AfterDot(name) case Some(p) => p case None => []
  }

  /** Where a resolution starts: at the cached servers of the parent zone if they are still good. */
  function Start(q: Query, cache: Delegations, now: int): Loop {
    var parent := ParentOf(q.name);
    if parent in cache then
      if cache[parent].expiresAt <= now then Loop(q.roots, [], cache - {parent})
      else Loop(cache[parent].nsAddrs, [], cache)
    else Loop(q.roots, [], cache)
  }

  /** The name after its first dot, or the root for a name without one. */
  lemma ParentOfName(l: Label, rest: Text)
    requires DOT !in l
    ensures ParentOf(l + [DOT] + rest) == rest && ParentOf(l) == []
  {
    AfterDotSkips(l, rest);
    AfterDotNone(l);
  }

  /** A resolution starts at the unexpired servers of the parent, else at the roots; only an expired entry goes. */
  lemma StartIsFresh(q: Query, cache: Delegations, now: int)
    ensures var st, parent := Start(q, cache, now), ParentOf(q.name);
            && st.zone == []
            && st.servers == (if parent in cache && now < cache[parent].expiresAt then cache[parent].nsAddrs
                              else q.roots)
            && (forall z :: z in st.cache <==> z in cache && (z == parent ==> now < cache[z].expiresAt))
            && (forall z :: z in st.cache ==> st.cache[z] == cache[z])
  {}

  /** The whole resolution of a normalized question. */
  function Resolution(q: Query, w: World, cache: Delegations): Outcome {
    Rounds(q, w, Start(q, cache, w.clock(0)), 0)
  }

  // ----- A resolution as the rounds it takes -----

  /** A round as it went: the name asked of the servers, the cache and the time met by the reply. */
  datatype Round = Round(asked: Text, servers: seq<Addr>, cache: Delegations, now: int, reply: Reply)

  /** The reply refers to servers with known addresses. */
  ghost predicate Refers(r: Round) {
    && r.reply.Parsed? && r.reply.packet.answers == [] && r.reply.packet.header.flags % 16 == 0
    && exists a :: Backed(r.reply.packet, r.cache, r.now, a)
  }

  /**
    * The reply goes to the client: answers, NXDOMAIN or a NOERROR that refers nowhere, if the full
    * name was asked; and without answers any other rcode, whatever name was asked.
    */
  ghost predicate Final(q: Query, r: Round) {
    && r.reply.Parsed?
    && var p := r.reply.packet;
    && !Refers(r)
    && (p.answers != [] || p.header.flags % 16 in {0, 3} ==> r.asked == q.name)
  }

  /** How the loop stands after a round that goes on: at the servers referred to, or back at the roots. */
  ghost predicate Leaves(q: Query, r: Round, st: Loop) {
    && r.reply.Parsed? && !Final(q, r)
    && if Refers(r) then
      && st.zone == DelegationZone(r.asked)
      && exists d :: DelegationOf(r.reply.packet, r.cache, r.now, d)
                     && st.servers == d.nsAddrs && st.cache == r.cache[st.zone := d]
    else st.servers == q.roots && st.zone == [] && st.cache == r.cache
  }

  /** `r` is the round after `depth` others, from this state of the loop. */
  ghost predicate Meets(q: Query, w: World, depth: nat, st: Loop, r: Round) {
    && r.asked == MinimizedQname(q.name, st.zone) && r.servers == st.servers
    && r.cache == w.others(depth, st.cache) && r.now == w.clock(depth)
    && r.reply == w.replies(depth, r.asked, r.servers)
  }

  ghost predicate Leads(q: Query, w: World, depth: nat, r: Round, next: Round) {
    exists st: Loop :: Leaves(q, r, st) && Meets(q, w, depth + 1, st, next)
  }

  /** What comes of the last round, which is one that does not go on, or the twentieth. */
  ghost predicate Concludes(q: Query, depth: nat, r: Round, o: Outcome) {
    match r.reply
    case Failed => o.packet.Some? && IsServFail(q, o.packet.value) && o.cache == r.cache
    case Crash => o.packet.None? && o.cache == r.cache
    case Parsed(p) =>
      o.packet.Some? &&
      if Final(q, r) then SentOn(p, q.id, o.packet.value) && o.cache == r.cache
      else
        && depth + 1 == 20 && IsServFail(q, o.packet.value)
        && exists st: Loop :: Leaves(q, r, st) && st.cache == o.cache
  }

  /** `rounds` are what happens from a state of the loop on, and `o` is what comes of it. */
  ghost predicate Traced(q: Query, w: World, depth: nat, st: Loop, rounds: seq<Round>, o: Outcome) {
    && 0 < |rounds| == |o.sent| && depth + |rounds| <= 20
    && Meets(q, w, depth, st, rounds[0])
    && (forall i :: 0 <= i < |rounds| ==> rounds[i].asked == o.sent[i])
    && (forall i :: 0 <= i < |rounds| - 1 ==> Leads(q, w, depth + i, rounds[i], rounds[i + 1]))
    && Concludes(q, depth + |rounds| - 1, rounds[|rounds| - 1], o)
  }

  lemma TurnIs(q: Query, w: World, st: Loop, depth: nat, r: Round)
    requires Meets(q, w, depth, st, r)
    ensures var turn := TurnAt(q, w, st, depth);
            && (turn.Unwind? <==> r.reply.Crash?)
            && (turn.Return? <==> r.reply.Failed? || Final(q, r))
            && (turn.Return? && r.reply.Failed? ==> IsServFail(q, turn.packet))
            && (turn.Return? && r.reply.Parsed? ==> SentOn(r.reply.packet, q.id, turn.packet))
            && (turn.Again? ==> Leaves(q, r, turn.state))
  {
    hide MinimizedQname, DelegationZone, ExtractDelegation, Relayed, SentOn, DelegationOf, Backed;
    if r.reply.Parsed? {
      RelayedIsSentOn(r.reply.packet, q.id);
      DelegationIsBacked(r.reply.packet, r.cache, r.now);
    }
  }

  /** Every run of the loop is such a sequence of rounds. */
  lemma {:induction false} RoundsAreTraced(q: Query, w: World, st: Loop, depth: nat) returns (rounds: seq<Round>)
    requires depth < MAX_DELEGATION_DEPTH
    ensures Traced(q, w, depth, st, rounds, Rounds(q, w, st, depth))
    decreases MAX_DELEGATION_DEPTH - depth
  {
    hide TurnAt, MinimizedQname, Final, Leaves, SentOn, Traced;
    var asked := MinimizedQname(q.name, st.zone);
    var r := Round(asked, st.servers, w.others(depth, st.cache), w.clock(depth), w.replies(depth, asked, st.servers));
    TurnIs(q, w, st, depth, r);
    var turn := TurnAt(q, w, st, depth);
    if turn.Again? && depth + 1 < MAX_DELEGATION_DEPTH {
      var rest := RoundsAreTraced(q, w, turn.state, depth + 1);
      OneMoreRound(q, w, depth, st, r, turn.state, rest, Rounds(q, w, turn.state, depth + 1));
      rounds := [r] + rest;
    } else {
      LastRound(q, w, st, depth, r);
      rounds := [r];
    }
  }

  lemma LastRound(q: Query, w: World, st: Loop, depth: nat, r: Round)
    requires depth < MAX_DELEGATION_DEPTH && Meets(q, w, depth, st, r)
    requires TurnAt(q, w, st, depth).Again? ==> depth + 1 == MAX_DELEGATION_DEPTH
    ensures Traced(q, w, depth, st, [r], Rounds(q, w, st, depth))
  {
    hide TurnAt, MinimizedQname, Final, Leaves, SentOn;
    TurnIs(q, w, st, depth, r);
    var turn := TurnAt(q, w, st, depth);
    if turn.Again? {
      assert Rounds(q, w, turn.state, depth + 1) == Outcome(Some(ServFail(q)), [], turn.state.cache);
    }
  }

  lemma OneMoreRound(q: Query, w: World, depth: nat, st: Loop, r: Round, st': Loop, rest: seq<Round>, o: Outcome)
    requires Meets(q, w, depth, st, r) && Leaves(q, r, st') && Traced(q, w, depth + 1, st', rest, o)
    ensures Traced(q, w, depth, st, [r] + rest, o.(sent := [r.asked] + o.sent))
  {
    hide Leaves, Meets, Final, SentOn;
    var rounds := [r] + rest;
    forall i | 0 <= i < |rounds| - 1
      ensures Leads(q, w, depth + i, rounds[i], rounds[i + 1])
    {
      if i > 0 {
        assert Leads(q, w, depth + 1 + (i - 1), rest[i - 1], rest[i]);
      }
    }
  }

  /**
    * Over every world, a resolution is a sequence of at most twenty rounds from its start. The first
    * reply that is final goes to the client with all its records, under the client's ID, with AA clear,
    * RA set and every other bit as it came; servers that fail, or twenty rounds, give SERVFAIL.
    */
  lemma ResolutionIsTraced(q: Query, w: World, cache: Delegations) returns (rounds: seq<Round>)
    ensures Traced(q, w, 0, Start(q, cache, w.clock(0)), rounds, Resolution(q, w, cache))
    ensures var o := Resolution(q, w, cache);
            && (forall i :: 0 <= i < |rounds| && Final(q, rounds[i]) ==>
                              && i == |rounds| - 1 && o.packet.Some?
                              && SentOn(rounds[i].reply.packet, q.id, o.packet.value))
            && (o.packet.Some? ==> IsServFail(q, o.packet.value) || Final(q, rounds[|rounds| - 1]))
  {
    hide Rounds, Start, SentOn, Meets, Refers;
    rounds := RoundsAreTraced(q, w, Start(q, cache, w.clock(0)), 0);
    forall i | 0 <= i < |rounds| - 1
      ensures !Final(q, rounds[i])
    {
      assert Leads(q, w, 0 + i, rounds[i], rounds[i + 1]);
    }
  }

  // ----- What every resolution does -----

  /** Names of three labels or more never leave the top of the tree. */
  predicate Shallow(q: Query, zone: Text) {
    |Parts(q.name)| <= 2 || |Parts(zone)| <= 1
  }

  /** A name sent is the label suffix of the full name with at most two labels. */
  predicate ShortTail(q: Query, asked: Text) {
    |Parts(asked)| <= 2 && Parts(asked) == Last(Parts(q.name), |Parts(asked)|)
  }

  predicate Definite(p: DnsPacket) {
    Rcode(p.header.flags) == 0 || Rcode(p.header.flags) == 3
  }

  predicate ForClient(q: Query, p: DnsPacket) {
    p.header.id == q.id && HasBit(p.header.flags, FLAG_RA) && !HasBit(p.header.flags, FLAG_AA)
  }

  lemma AskedIsShort(q: Query, zone: Text)
    requires Shallow(q, zone)
    ensures ShortTail(q, MinimizedQname(q.name, zone))
    ensures Shallow(q, DelegationZone(MinimizedQname(q.name, zone)))
  {
    hide Parts, MinimizedQname, DelegationZone;
    MinimizedParts(q.name, zone);
    if |Parts(q.name)| > 2 {
      PartsAreProper(q.name);
      DelegationZoneParts(Last(Parts(q.name), |Parts(zone)| + 1));
    }
  }

  lemma SentOnIsForClient(q: Query, p: DnsPacket, r: DnsPacket)
    requires SentOn(p, q.id, r)
    ensures ForClient(q, r) && (Definite(r) <==> Definite(p))
  {
    hide HasBit, Rcode, Relabelled;
    RelabelledBits(p.header.flags, r.header.flags);
  }

  lemma ServFailIsForClient(q: Query)
    ensures ForClient(q, ServFail(q)) && !Definite(ServFail(q))
  {}

  lemma TurnFacts(q: Query, w: World, st: Loop, depth: nat)
    requires Shallow(q, st.zone)
    ensures var turn := TurnAt(q, w, st, depth);
            && (turn.Again? ==> Shallow(q, turn.state.zone))
            && (turn.Return? ==> ForClient(q, turn.packet))
            && (turn.Return? && Definite(turn.packet) ==> MinimizedQname(q.name, st.zone) == q.name)
  {
    hide Parts, MinimizedQname, DelegationZone, ExtractDelegation, Relayed, ServFail, Rcode, ForClient, SentOn;
    AskedIsShort(q, st.zone);
    OnlyTheRootHasNoParts([]);
    ServFailIsForClient(q);
    var reply := w.replies(depth, MinimizedQname(q.name, st.zone), st.servers);
    if reply.Parsed? {
      RelayedIsSentOn(reply.packet, q.id);
      SentOnIsForClient(q, reply.packet, Relayed(reply.packet, q.id));
    }
  }

  predicate AllShort(q: Query, sent: seq<Text>) {
    forall i :: 0 <= i < |sent| ==> ShortTail(q, sent[i])
  }

  lemma NothingSent(q: Query)
    ensures AllShort(q, [])
  {}

  lemma AllShortCons(q: Query, asked: Text, rest: seq<Text>)
    requires ShortTail(q, asked) && AllShort(q, rest)
    ensures AllShort(q, [asked] + rest)
  {
    hide ShortTail;
  }

  /** What a run of rounds guarantees, whatever the servers reply. */
  ghost predicate Sound(q: Query, o: Outcome, rounds: int) {
    && |o.sent| <= rounds
    && AllShort(q, o.sent)
    && (o.packet.Some? ==> ForClient(q, o.packet.value))
    && (o.packet.Some? && Definite(o.packet.value) ==> o.sent != [] && o.sent[|o.sent| - 1] == q.name)
  }

  /**
    * Over any replies a resolution stops within twenty rounds; each name sent is a label
    * suffix of the full name with at most two labels; the result carries the client's ID,
    * with RA set and AA clear; and NOERROR or NXDOMAIN comes only from the full name.
    */
  lemma {:induction false} RoundsAreSound(q: Query, w: World, st: Loop, depth: nat)
    requires Shallow(q, st.zone)
    ensures Sound(q, Rounds(q, w, st, depth), Max(0, MAX_DELEGATION_DEPTH - depth))
    decreases Max(0, MAX_DELEGATION_DEPTH - depth)
  {
    hide TurnAt, MinimizedQname, ShortTail, Shallow, Definite, ForClient, AllShort, ServFail;
    NothingSent(q);
    if depth < MAX_DELEGATION_DEPTH {
      TurnFacts(q, w, st, depth);
      AskedIsShort(q, st.zone);
      var asked := MinimizedQname(q.name, st.zone);
      var turn := TurnAt(q, w, st, depth);
      if turn.Again? {
        RoundsAreSound(q, w, turn.state, depth + 1);
        AllShortCons(q, asked, Rounds(q, w, turn.state, depth + 1).sent);
      } else {
        AllShortCons(q, asked, []);
        assert [asked] + [] == [asked];
      }
    } else {
      ServFailIsForClient(q);
    }
  }

  /** Every cached delegation has a server. */
  ghost predicate Usable(cache: Delegations) {
    forall z :: z in cache ==> cache[z].nsAddrs != []
  }

  /** The other resolutions leave a server in every cached delegation, as this one does. */
  ghost predicate Harmless(w: World) {
    forall depth: nat, cache: Delegations :: Usable(cache) ==> Usable(w.others(depth, cache))
  }

  /** There is always a server to ask, round after round, and the cache stays usable. */
  lemma {:induction false} ServersNeverRunOut(q: Query, w: World, st: Loop, depth: nat)
    requires q.roots != [] && st.servers != [] && Usable(st.cache) && Harmless(w)
    ensures var turn := TurnAt(q, w, st, depth);
            turn.Again? ==> turn.state.servers != [] && Usable(turn.state.cache)
    ensures Usable(Rounds(q, w, st, depth).cache)
    decreases Max(0, MAX_DELEGATION_DEPTH - depth)
  {
    TurnKeepsUsable(q, w, st, depth);
    hide TurnAt, Usable, MinimizedQname;
    var turn := TurnAt(q, w, st, depth);
    if depth < MAX_DELEGATION_DEPTH && turn.Again? {
      ServersNeverRunOut(q, w, turn.state, depth + 1);
    }
  }

  lemma TurnKeepsUsable(q: Query, w: World, st: Loop, depth: nat)
    requires q.roots != [] && st.servers != [] && Usable(st.cache) && Harmless(w)
    ensures var turn := TurnAt(q, w, st, depth);
            turn.Again? ==> turn.state.servers != [] && Usable(turn.state.cache)
  {
    hide MinimizedQname, DelegationZone, ExtractDelegation, Relayed, ServFail, Rcode;
    var reply := w.replies(depth, MinimizedQname(q.name, st.zone), st.servers);
    if reply.Parsed? {
      DelegationIsBacked(reply.packet, w.others(depth, st.cache), w.clock(depth));
    }
  }

  lemma StartIsShallow(q: Query, cache: Delegations, now: int)
    ensures Shallow(q, Start(q, cache, now).zone)
  {
    PartsOfJoin([]);
    hide Parts;
  }

  lemma ResolutionKeepsUsable(q: Query, w: World, cache: Delegations)
    requires q.roots != [] && Usable(cache) && Harmless(w)
    ensures Usable(Resolution(q, w, cache).cache)
  {
    hide Rounds;
    ServersNeverRunOut(q, w, Start(q, cache, w.clock(0)), 0);
  }

  /** The guarantees of a whole resolution; with three labels or more there is no definite answer. */
  lemma ResolutionIsSound(q: Query, w: World, cache: Delegations)
    ensures Sound(q, Resolution(q, w, cache), MAX_DELEGATION_DEPTH)
    ensures |Parts(q.name)| >= 3 ==>
              var o := Resolution(q, w, cache);
              q.name !in o.sent && (o.packet.Some? ==> !Definite(o.packet.value))
  {
    hide Rounds, Start, Definite, ForClient, Parts, Shallow;
    StartIsShallow(q, cache, w.clock(0));
    RoundsAreSound(q, w, Start(q, cache, w.clock(0)), 0);
  }

  /** Replies that refer every other name onward and answer the full one. */
  function Helpful(q: Query, referral: DnsPacket, answer: DnsPacket): Replies {
    (round, asked, servers) => if asked == q.name then Parsed(answer) else Parsed(referral)
  }

  /** A referral with glue. */
  predicate HasGlue(p: DnsPacket) {
    && p.answers == [] && Rcode(p.header.flags) == 0
    && NsNames(p.authorities) != [] && Glue(p.additionals, NsNames(p.authorities)) != []
  }

  /** A name of at most two labels is answered by servers that refer and answer. */
  lemma TwoLabelsResolve(q: Query, w: World, cache: Delegations, referral: DnsPacket, answer: DnsPacket)
    requires |Parts(q.name)| <= 2
    requires answer.answers != [] && HasGlue(referral)
    requires w.replies == Helpful(q, referral, answer)
    ensures var r := Resolution(q, w, cache).packet;
            r.Some? && SentOn(answer, q.id, r.value)
  {
    var st := Start(q, cache, w.clock(0));
    SecondAskedIsFull(q);
    if MinimizedQname(q.name, []) == q.name {
      AnswerEnds(q, w, st, 0, answer);
    } else {
      ReferralLeads(q, Meanwhile(w, st, 0), referral, w.clock(0));
      var turn := TurnAt(q, w, st, 0);
      AnswerEnds(q, w, turn.state, 1, answer);
    }
  }

  /** The resolution ends with NOERROR or NXDOMAIN. */
  predicate Answers(o: Outcome) { o.packet.Some? && Definite(o.packet.value) }

  /** A definite result is possible exactly for names of at most two labels. */
  lemma DefiniteIffTwoLabels(q: Query)
    ensures (exists w: World, cache: Delegations :: Answers(Resolution(q, w, cache))) <==> |Parts(q.name)| <= 2
  {
    forall w: World, cache: Delegations | |Parts(q.name)| >= 3
      ensures !Answers(Resolution(q, w, cache))
    {
      ResolutionIsSound(q, w, cache);
    }
    if |Parts(q.name)| <= 2 {
      var header := DnsHeader(0, 0x8000, 0, 0, 0, 0);
      var root: Text := [];
      var server := A(root, [192, 0, 2, 1], 60);
      var referral := DnsPacket(header, [], [], [NS(root, root, 60)], [server]);
      var answer := DnsPacket(header, [], [server], [], []);
      assert NsNames(referral.authorities) == [root];
      assert Lower([root][0]) == Lower(root);
      assert Glue([server], [root]) != [];
      var w := World(Helpful(q, referral, answer), round => 0, (round, cache) => cache);
      TwoLabelsResolve(q, w, map[], referral, answer);
      SentOnIsForClient(q, answer, Resolution(q, w, map[]).packet.value);
      assert Answers(Resolution(q, w, map[]));
    }
  }

  lemma SecondAskedIsFull(q: Query)
    requires |Parts(q.name)| <= 2
    ensures MinimizedQname(q.name, []) == q.name
            || MinimizedQname(q.name, DelegationZone(MinimizedQname(q.name, []))) == q.name
  {
    hide Parts, DelegationZone;
    var labels := Parts(q.name);
    PartsAreProper(q.name);
    if labels != [] {
      var last := [labels[|labels| - 1]];
      DelegationZoneParts(last);
      OnlyTheRootHasNoParts(DelegationZone(Join(last)));
    }
  }

  lemma OnlyTheRootHasNoParts(name: Text)
    ensures Parts(name) != [] ==> name != []
  {
    PartsOfJoin([]);
  }

  lemma AnswerEnds(q: Query, w: World, st: Loop, depth: nat, answer: DnsPacket)
    requires depth < MAX_DELEGATION_DEPTH && MinimizedQname(q.name, st.zone) == q.name
    requires w.replies(depth, q.name, st.servers) == Parsed(answer) && answer.answers != []
    ensures var r := Rounds(q, w, st, depth).packet;
            r.Some? && SentOn(answer, q.id, r.value)
  {
    hide MinimizedQname, Rcode, SentOn, Relayed;
    RelayedIsSentOn(answer, q.id);
  }

  lemma ReferralLeads(q: Query, st: Loop, referral: DnsPacket, now: int)
    requires HasGlue(referral)
    ensures var turn := TakeTurn(q, st, Parsed(referral), now);
            turn.Again? && turn.state.zone == DelegationZone(MinimizedQname(q.name, st.zone))
  {
    hide MinimizedQname, DelegationZone, NsNames, Glue, Rcode;
  }

  // ----- The resolver -----

  class RecursiveResolver {
    var delegations: Delegations
    const roots: seq<Addr>

    constructor (roots: seq<Addr>)
      ensures delegations == map[] && this.roots == roots && (roots != [] ==> Valid())
    {
      this.roots, delegations := roots, map[];
    }

    /** There are root servers, and every cached delegation has a server. */
    ghost predicate Valid()
      reads this
    {
      roots != [] && Usable(delegations)
    }

    /** `p` answers the client: its last reply sent on when that is final, else SERVFAIL. */
    ghost predicate RepliesWith(q: Query, last: Round, p: DnsPacket) {
      if Final(q, last) then SentOn(last.reply.packet, q.id, p) else IsServFail(q, p)
    }

    /** The normalized form of a client's question. */
    function Normalized(qname: Text, qtype: u16, id: u16): (q: Query)
      ensures q.qtype == qtype && q.id == id && q.roots == roots
      ensures |q.name| <= |qname| && SameName(q.name, qname[..|q.name|]) && NoCapitals(q.name)
      ensures forall i :: |q.name| <= i < |qname| ==> qname[i] == DOT
      ensures q.name != [] ==> q.name[|q.name| - 1] != DOT
    {
      NormalizedName(qname);
      Query(TrimDots(Lower(qname)), qtype, id, roots)
    }

    /** The bytes relayed to the client, or none when a server's reply panics the parser. */
    method Resolve(qname: Text, qtype: u16, id: u16, w: World)
      returns (result: Option<seq<byte>>, ghost sent: seq<Text>, ghost rounds: seq<Round>)
      modifies this
      ensures var q := Normalized(qname, qtype, id);
              var o := Resolution(q, w, old(delegations));
              && Traced(q, w, 0, Start(q, old(delegations), w.clock(0)), rounds, o)
              && (result.None? <==> rounds[|rounds| - 1].reply.Crash?)
              && (result.Some? ==> exists p :: result.value == ToBytes(p) && RepliesWith(q, rounds[|rounds| - 1], p))
      ensures var q := Normalized(qname, qtype, id);
              var o := Resolution(q, w, old(delegations));
              && result == (match o.packet case Some(p) => Some(ToBytes(p)) case None => None)
              && sent == o.sent && delegations == o.cache
              && |sent| <= MAX_DELEGATION_DEPTH && AllShort(q, sent)
              && (|Parts(q.name)| >= 3 ==> q.name !in sent)
      ensures result.Some? ==>
                var bytes := result.value;
                && |bytes| >= 12 && ReadU16(bytes, 0) == id
                && HasBit(ReadU16(bytes, 2), FLAG_RA) && !HasBit(ReadU16(bytes, 2), FLAG_AA)
                && (|Parts(TrimDots(Lower(qname)))| >= 3 ==> Rcode(ReadU16(bytes, 2)) !in {0, 3})
      ensures old(Valid()) && Harmless(w) ==> Valid()
    {
      var q := Normalized(qname, qtype, id);
      ghost var o := Resolution(q, w, delegations);
      ResolutionIsSound(q, w, delegations);
      rounds := ResolutionIsTraced(q, w, delegations);
      hide Start, Final, Leads, Meets, SentOn, IsServFail;
      if o.packet.Some? {
        HeaderOnWire(o.packet.value);
      }
      var packet;
      packet, sent := Iterate(q, w);
      if old(Valid()) && Harmless(w) {
        ResolutionKeepsUsable(q, w, old(delegations));
      }
      hide Resolution, ToBytes, AllShort, Parts, HasBit;
      result := match packet case Some(p) => Some(ToBytes(p)) case None => None;
    }

    /** The loop of `resolve`, up to the bytes it returns. */
    method Iterate(q: Query, w: World) returns (packet: Option<DnsPacket>, ghost sent: seq<Text>)
      modifies this
      ensures Outcome(packet, sent, delegations) == Resolution(q, w, old(delegations))
    {
      hide TurnAt, MinimizedQname, Rounds;
      var parent := ParentOf(q.name);
      var st := Loop(q.roots, [], delegations);
      if parent in delegations {
        if delegations[parent].expiresAt <= w.clock(0) {
          st := st.(cache := delegations - {parent});
        } else {
          st := st.(servers := delegations[parent].nsAddrs);
        }
      }
      delegations := st.cache;
      ghost var whole := Rounds(q, w, st, 0);
      assert whole == Resolution(q, w, old(delegations));
      var depth: nat := 0;
      sent := [];
      while depth < MAX_DELEGATION_DEPTH
        invariant delegations == st.cache
        invariant whole == After(sent, Rounds(q, w, st, depth))
      {
        var asked := MinimizedQname(q.name, st.zone);
        var turn := TurnAt(q, w, st, depth);
        RoundsStep(q, w, st, depth, sent);
        sent := sent + [asked];
        delegations := w.others(depth, delegations);
        if !turn.Again? {
          packet := if turn.Return? then Some(turn.packet) else None;
          return;
        }
        st := turn.state;
        delegations := st.cache;
        depth := depth + 1;
      }
      RoundsEnd(q, w, st, depth, sent);
      packet := Some(ServFail(q));
    }
  }

  /** An outcome with names sent before it. */
  function After(sent: seq<Text>, o: Outcome): Outcome { o.(sent := sent + o.sent) }

  lemma RoundsStep(q: Query, w: World, st: Loop, depth: nat, sent: seq<Text>)
    requires depth < MAX_DELEGATION_DEPTH
    ensures var asked := MinimizedQname(q.name, st.zone);
            var turn := TurnAt(q, w, st, depth);
            After(sent, Rounds(q, w, st, depth)) ==
            (if turn.Return? then Outcome(Some(turn.packet), sent + [asked], w.others(depth, st.cache))
             else if turn.Unwind? then Outcome(None, sent + [asked], w.others(depth, st.cache))
             else After(sent + [asked], Rounds(q, w, turn.state, depth + 1)))
  {
    hide TurnAt, MinimizedQname;
    var asked := MinimizedQname(q.name, st.zone);
    var turn := TurnAt(q, w, st, depth);
    if turn.Again? {
      var rest := Rounds(q, w, turn.state, depth + 1).sent;
      assert sent + ([asked] + rest) == sent + [asked] + rest;
    }
  }

  lemma RoundsEnd(q: Query, w: World, st: Loop, depth: nat, sent: seq<Text>)
    requires depth >= MAX_DELEGATION_DEPTH
    ensures After(sent, Rounds(q, w, st, depth)) == Outcome(Some(ServFail(q)), sent, st.cache)
  {
    assert sent + [] == sent;
  }
}
