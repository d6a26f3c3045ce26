/** The synchronous first pass over a query, and what forwarding does with an upstream's reply. */
module Server {
  import opened Bytes
  import opened Names
  import opened NameCodec
  import opened Records
  import opened Wire
  import opened RoundTrip
  import opened Overrun
  import opened Replay
  import opened Zones
  import opened Resolver
  import RateLimiter
  import Cache
  import Metrics
  import SingleFlight
  import Parser

  const RCODE_SERVFAIL: u16 := 2
  const RCODE_NXDOMAIN: u16 := 3

  /** Stands for 0.0.0.0:0, which sends a query to the iterative resolver. */
  const RECURSE: SocketAddr := 0

  datatype ForwardCtx = ForwardCtx(request: DnsPacket, raw: seq<byte>, name: Text, qtype: u16, upstream: SocketAddr,
                                   transport: Transport)

  /** `Crash` is a panic of the parser, which leaves no reply. */
  datatype Resolution = Drop | Crash | Ready(bytes: seq<byte>) | Forwarding(ctx: ForwardCtx)

  function SynthFlags(rd: bool, rcode: u16): u16
    requires rcode < 16
  {
    0x8000 + (if rd then 0x100 else 0) + 0x80 + rcode
  }

  /** A non-authoritative response without records: QR, the client's RD, RA and the rcode. */
  function Synth(request: DnsPacket, rcode: u16): DnsPacket
    requires rcode < 16
  {
    DnsPacket(
      DnsHeader(request.header.id, SynthFlags(HasBit(request.header.flags, FLAG_RD), rcode),
                |request.questions| % 0x1_0000, 0, 0, 0),
      request.questions, [], [], [])
  }

  /** `p` is made up for the request: its ID, questions and RD, with QR and RA set, and no records. */
  predicate MadeUp(request: DnsPacket, rcode: u16, p: DnsPacket) {
    && p.header.id == request.header.id && p.questions == request.questions
    && p.header.flags == 0x8080 + 0x100 * (request.header.flags / 0x100 % 2) + rcode
    && p.answers == [] && p.authorities == [] && p.additionals == []
  }

  lemma SynthIsMadeUp(request: DnsPacket, rcode: u16)
    requires rcode < 16
    ensures MadeUp(request, rcode, Synth(request, rcode))
  {}

  /** A made-up response has no records, so it never stops a parser. */
  lemma SynthNeverOverruns(request: DnsPacket, rcode: u16)
    requires rcode < 16
    ensures !Overruns(ToBytes(Synth(request, rcode)))
  {
    hide EmitSections, HeaderBytes, ParseHeader;
    var p := Synth(request, rcode);
    HeaderReads(p, EmitSections(p).bytes);
    NoRecordsNoOverrun(ToBytes(p));
  }

  // ----- Headers on the wire -----

  predicate Carries(bytes: seq<byte>, id: u16) {
    |bytes| >= 2 && ReadU16(bytes, 0) == id
  }

  /** The flag word sent is the packet's, with TC added when it is truncated. */
  lemma EncodedHeader(p: DnsPacket, transport: Transport)
    ensures var b := Encode(p, transport);
            && |b| >= 4 && ReadU16(b, 0) == p.header.id
            && (ReadU16(b, 2) == p.header.flags || ReadU16(b, 2) == SetTc(p.header.flags))
  {
    hide ToBytes, UdpLimit, SetTc;
    HeaderOnWire(p);
    HeaderOnWire(Truncate(p));
  }

  lemma EncodeCarriesId(p: DnsPacket, transport: Transport)
    ensures Carries(Encode(p, transport), p.header.id)
  {
    hide Encode;
    EncodedHeader(p, transport);
  }

  lemma SetTcKeepsRa(flags: u16)
    ensures HasBit(SetTc(flags), FLAG_RA) <==> HasBit(flags, FLAG_RA)
  {
    var h, l := flags / 0x80, flags % 0x80;
    if !HasBit(flags, FLAG_TC) {
      assert flags == 0x80 * h + l && flags + 0x200 == 0x80 * (h + 4) + l;
      assert (flags + 0x200) / 0x80 == h + 4 && (h + 4) % 2 == h % 2;
    }
  }

  /** Truncation keeps the RA bit. */
  lemma EncodeKeepsRa(p: DnsPacket, transport: Transport)
    ensures var b := Encode(p, transport);
            |b| >= 4 && (HasBit(ReadU16(b, 2), FLAG_RA) <==> HasBit(p.header.flags, FLAG_RA))
  {
    hide Encode, HasBit, SetTc;
    EncodedHeader(p, transport);
    SetTcKeepsRa(p.header.flags);
  }

  /** A replayed message carries the asking client's ID, whoever asked first and whatever was stored. */
  lemma ReplayCarriesId(raw: seq<byte>, request: DnsPacket, transport: Transport)
    requires |raw| >= 2 && Replayable(raw, transport)
    ensures Carries(ReplayBytes(raw, request, transport), request.header.id)
  {
    var id := request.header.id;
    PatchCarriesId(raw, id);
    hide FromBytes, AlignEdns, ToUdpBytes, Patched;
    if transport.Udp? && FromBytes(raw).Ok? {
      var p := WithId(FromBytes(raw).value, id);
      AlignKeepsHeader(p, request);
      UdpCarriesId(AlignEdns(p, request));
    }
  }

  lemma PatchCarriesId(raw: seq<byte>, id: u16)
    requires |raw| >= 2
    ensures Carries(Patched(raw, id), id)
  {
    U16At(Patched(raw, id), 0, id);
  }

  lemma AlignKeepsHeader(p: DnsPacket, request: DnsPacket)
    ensures AlignEdns(p, request).header == p.header
  {}

  lemma UdpCarriesId(p: DnsPacket)
    ensures Carries(ToUdpBytes(p), p.header.id)
  {
    EncodeCarriesId(p, Udp);
  }

  // ----- The server -----

  /** Everything in the cache has been parsed. */
  ghost predicate AllParsed(entries: Cache.Entries) {
    forall k :: k in entries ==> FromBytes(entries[k].response).Ok?
  }

  /** The local zones have no entry for the name. */
  predicate Unknown(zones: ZoneSet, name: Text) {
    var zone := FindZone(zones, name);
    zone.None? || Lookup(zone.value, name).None?
  }

  function WithRa(p: DnsPacket): DnsPacket {
    SetRa(p.header.flags);
    p.(header := p.header.(flags := SetBit(p.header.flags, FLAG_RA)))
  }

  lemma GetKeepsParsed(entries: Cache.Entries, key: Cache.Key, now: int)
    requires AllParsed(entries)
    ensures AllParsed(Cache.AfterGet(entries, key, now))
    ensures Cache.Live(Cache.AfterGet(entries, key, now), now) == Cache.Live(entries, now)
    ensures var hit := Cache.Hit(entries, key, now);
            hit.Some? ==> FromBytes(hit.value).Ok? && |hit.value| >= 12
  {
    hide FromBytes;
  }

  lemma InsertKeepsParsed(capacity: nat, before: Cache.Entries, after: Cache.Entries, key: Cache.Key,
                          response: seq<byte>, ttl: u32, now: int)
    requires Cache.Inserted(capacity, before, after, key, response, ttl, now)
    ensures AllParsed(before) && FromBytes(response).Ok? ==> AllParsed(after)
  {
    hide FromBytes;
  }

  lemma SynthCarriesId(request: DnsPacket, rcode: u16, transport: Transport)
    requires rcode < 16
    ensures Carries(Encode(Synth(request, rcode), transport), request.header.id)
  {
    EncodeCarriesId(Synth(request, rcode), transport);
  }

  /** A made-up response to a small request fits the client's limit. */
  lemma SynthFits(request: DnsPacket, rcode: u16)
    requires rcode < 16 && SmallQuestion(request)
    ensures |ToUdpBytes(Synth(request, rcode))| <= UdpLimit(request)
  {
    hide ToUdpBytes;
    UdpFits(Synth(request, rcode));
  }

  // ----- What the configuration decides -----

  /** The local zones have no entry for the name: no origin matches it, or the best match has none. */
  ghost predicate Unserved(zones: ZoneSet, name: Text) {
    exists zone :: Locates(zones, name, zone, false)
  }

  lemma UnservedIsUnknown(zones: ZoneSet, name: Text)
    ensures Unserved(zones, name) <==> Unknown(zones, name)
  {
    hide FindZone, Lookup, Finds, ServedBy;
    NameIsServed(zones, name);
    ZoneIsBest(zones, name);
  }

  datatype Config = Config(zones: ZoneSet, blocklist: set<Text>, rules: ForwardRules, recursive: bool) {

    predicate RecursionAvailable() { ForwardingEnabled(rules) || recursive }

    /** There is a rule, a default upstream or the iterative resolver. */
    ghost predicate OffersRecursion() { rules.rules != [] || rules.default.Some? || recursive }

    /** The query names something the blocklist has. */
    ghost predicate Refuses(request: DnsPacket) {
      request.questions != [] && Blocked(blocklist, request.questions[0].qname)
    }

    /** The query has RD set and asks for a name that is not served here, where recursion is on offer. */
    ghost predicate Recurses(request: DnsPacket) {
      && request.questions != [] && Unserved(zones, Lower(request.questions[0].qname))
      && request.header.flags / 0x100 % 2 == 1 && OffersRecursion()
    }

    /** A query that asks for recursion in vain is answered with RA clear. */
    ghost predicate SetsRa(request: DnsPacket) { OffersRecursion() && !Recurses(request) }

    /** Where a name goes: to the best rule's upstream; without one, to the default; without that, to the resolver. */
    ghost predicate GoesTo(name: Text, upstream: SocketAddr) {
      || (exists i: nat :: BestMatch(rules.rules, name, false, i) && upstream == rules.rules[i].value)
      || (NoMatch(rules.rules, name, false) && rules.default == Some(upstream))
      || (NoMatch(rules.rules, name, false) && rules.default.None? && recursive && upstream == RECURSE)
    }

    /** No rule matches, and there is neither a default nor the resolver. */
    ghost predicate GoesNowhere(name: Text) {
      NoMatch(rules.rules, name, false) && rules.default.None? && !recursive
    }

    /** `p` answers the request from the local zones, with RA as given. */
    ghost predicate Local(request: DnsPacket, p: DnsPacket, ra: bool) {
      && p.header.id == request.header.id && p.questions == request.questions
      && (forall limit: u16 :: Allows(request.additionals, limit) ==>
                                 p.additionals == if NoOpt(request.additionals) then [] else [OPT(limit)])
      && if request.questions == [] then
        p.header.flags == LocalFlags(request, false, ra, 0) && p.answers == [] && p.authorities == []
      else
        exists zone, found :: Locates(zones, Lower(request.questions[0].qname), zone, found)
                              && LocalAnswer(request, p, ra, zone, found)
    }

    /** The answer, given the best matching zone and whether it has an entry for the name. */
    ghost predicate LocalAnswer(request: DnsPacket, p: DnsPacket, ra: bool, zone: Option<Zone>, found: bool)
      requires request.questions != []
    {
      var soa := zone.Some? && HasSoa(zone.value);
      && p.answers == AnswersFor(zones, request.questions[0])
      && p.header.flags == LocalFlags(request, found || soa, ra, if found then 0 else 3)
      && (p.authorities != [] <==> p.answers == [] && soa)
      && (p.authorities != [] ==> |p.authorities| == 1 && HoldsSoa(zone.value, p.authorities[0]))
    }
  }

  /** QR, the client's RD, AA and RA as given, and the rcode. */
  ghost function LocalFlags(request: DnsPacket, aa: bool, ra: bool, rcode: u16): int {
    0x8000 + 0x100 * (request.header.flags / 0x100 % 2) + (if aa then 0x400 else 0) + (if ra then 0x80 else 0) + rcode
  }

  /** With one rule for another name, no default and no resolver, recursion is on offer but RA is clear. */
  lemma RaClearExample(id: u16, p: DnsPacket)
    ensures var cfg := Config([], {}, ForwardRules([Rule([99], 1)], None), false);
            var request := DnsPacket(DnsHeader(id, 0x100, 1, 0, 0, 0), [DnsQuestion([97], 1, 1)], [], [], []);
            && cfg.OffersRecursion() && cfg.Recurses(request) && cfg.GoesNowhere([97])
            && (cfg.Local(request, p, cfg.SetsRa(request)) ==> p.header.id == id && p.header.flags == 0x8103)
  {
    var cfg := Config([], {}, ForwardRules([Rule([99], 1)], None), false);
    var name: Text := [97];
    assert Lower(name) == name;
    assert Locates(cfg.zones, name, None, false);
    assert !AtOrBelow(name, [99]);
  }

  class ServerState {
    const cfg: Config
    const limiter: RateLimiter.Limiter
    const cache: Cache.ResponseCache
    const metrics: Metrics.ShardedMetrics

    constructor (cfg: Config, limits: RateLimiter.Limits, capacity: nat)
      ensures Valid() && fresh(limiter) && fresh(cache) && fresh(metrics) && this.cfg == cfg
    {
      this.cfg := cfg;
      limiter := new RateLimiter.Limiter(limits);
      cache := new Cache.ResponseCache(capacity);
      metrics := new Metrics.ShardedMetrics();
    }

    ghost predicate Valid()
      reads this, cache, metrics
    {
      metrics.Valid() && AllParsed(cache.entries)
    }

    ghost function CacheHit(request: DnsPacket, now: int): Option<seq<byte>>
      reads cache
    {
      if request.questions == [] then None
      else
        var q := request.questions[0];
        Cache.Hit(cache.entries, Cache.KeyOf(Lower(q.qname), q.qtype), now)
    }

    /**
      * Every query is counted once in total and, unless it crashes the parser or is forwarded, under
      * one outcome. A reply carries the client's ID. A blocked name is NXDOMAIN; recursion on an
      * unserved name comes from the cache or goes upstream; the rest is answered locally.
      */
    method ResolveLocal(req: seq<byte>, client: RateLimiter.Ip, transport: Transport, shard: nat, now: int)
      returns (r: Resolution, ghost outcome: SingleFlight.Outcome)
      requires Valid() && shard < Metrics.SHARDS
      modifies limiter, cache, metrics
      ensures Valid()
      ensures metrics.shards == SingleFlight.ArriveShards(old(metrics.shards), outcome, shard)
      ensures var limits := limiter.cfg;
              var window := RateLimiter.Touch(limits, RateLimiter.Find(old(limiter.clients), client), now);
              outcome.Limited? <==> 0 < limits.maxPerWindow < window.count
      ensures Cache.Live(cache.entries, now) == Cache.Live(old(cache.entries), now)
      ensures r.Drop? <==> outcome.Limited? || outcome.Unparsed?
      ensures r.Crash? <==> outcome.Crashed?
      ensures !outcome.Limited? ==>
                && (outcome.Crashed? <==> SomeRecordOverruns(req))
                && (outcome.Unparsed? <==> FromBytes(req).Err? && !SomeRecordOverruns(req))
      ensures r.Ready? || r.Forwarding? ==>
                && FromBytes(req).Ok?
                && var request := FromBytes(req).value;
                && (r.Ready? ==> Carries(r.bytes, request.header.id))
                && (outcome.Listed? <==> cfg.Refuses(request))
                && (outcome.Listed? ==> r.Ready? && SendsMadeUp(request, 3, transport, r.bytes))
                && (!outcome.Listed? ==> Served(cfg, request, old(CacheHit(request, now)), req, transport, r, outcome))
                && (outcome.Listed? || outcome.Answer? ==> Fits(request, transport, r))
    {
      hide FromBytes, Encode, Synth, Carries, Blocked, Served, AllParsed, Metrics.Bumped, Metrics.Sum, CacheHit;
      hide Cache.Live, RateLimiter.Touch, RateLimiter.Find, SomeRecordOverruns, Fits, SendsMadeUp;
      metrics.Bump(shard, Metrics.Total);
      var allowed := limiter.Allow(client, now);
      if !allowed {
        metrics.Bump(shard, Metrics.RateLimited);
        return Drop, SingleFlight.Limited;
      }
      var parsed := Parser.ReadPacket(req);
      if parsed == Err(RdataOverrun) {
        return Crash, SingleFlight.Crashed;
      }
      if parsed.Err? {
        metrics.Bump(shard, Metrics.Errors);
        return Drop, SingleFlight.Unparsed;
      }
      var request := parsed.value;
      if request.questions != [] && cfg.blocklist != {} {
        var blocked := IsBlocked(cfg.blocklist, request.questions[0].qname);
        if blocked {
          metrics.Bump(shard, Metrics.Blocked);
          SynthReply(request, RCODE_NXDOMAIN, transport);
          SynthIsSent(request, RCODE_NXDOMAIN, transport);
          return Ready(Encode(Synth(request, RCODE_NXDOMAIN), transport)), SingleFlight.Listed;
        }
      }
      NothingListed(cfg);
      r, outcome := Serve(request, req, transport, shard, now);
    }

    method BuildLocal(request: DnsPacket) returns (response: DnsPacket)
      ensures cfg.Local(request, response, false)
      ensures request.questions != [] ==>
                var unknown := Unknown(cfg.zones, Lower(request.questions[0].qname));
                Rcode(response.header.flags) == RCODE_NXDOMAIN <==> unknown
    {
      response := BuildResponse(request, cfg.zones);
      hide AnswersFor, FindZone, Lookup, EchoedOpt, HasSoa, HoldsSoa, FollowsChain, Locates, Allows;
      if request.questions != [] {
        var zone := FindZone(cfg.zones, Lower(request.questions[0].qname));
        var found := zone.Some? && Lookup(zone.value, Lower(request.questions[0].qname)).Some?;
        assert cfg.LocalAnswer(request, response, false, zone, found);
      }
    }

    /** The second half of `resolve_local`: the zones, the cache, then an upstream. */
    method Serve(request: DnsPacket, req: seq<byte>, transport: Transport, shard: nat, now: int)
      returns (r: Resolution, ghost outcome: SingleFlight.Outcome)
      requires Valid() && shard < Metrics.SHARDS
      modifies cache, metrics
      ensures Valid()
      ensures Cache.Live(cache.entries, now) == Cache.Live(old(cache.entries), now)
      ensures outcome in {SingleFlight.Cached, SingleFlight.Answer, SingleFlight.Forward}
      ensures metrics.shards == (if outcome.Forward? then old(metrics.shards)
                                 else Metrics.Bumped(old(metrics.shards), shard, SingleFlight.CounterOf(outcome)))
      ensures (r.Ready? || r.Forwarding?) && (r.Ready? ==> Carries(r.bytes, request.header.id))
      ensures Served(cfg, request, old(CacheHit(request, now)), req, transport, r, outcome)
      ensures outcome.Answer? ==> Fits(request, transport, r)
    {
      hide FromBytes, Encode, Carries, ReplayBytes, AllParsed, Metrics.Bumped, Metrics.Sum, HasBit, Rcode, Unknown;
      hide Config.Local, MatchName, Cache.Hit, Cache.AfterGet, Cache.Live, Fits, Sends, Config.GoesTo, RoutedTo;
      hide Config.GoesNowhere, Config.Recurses, Config.OffersRecursion, Config.RecursionAvailable;
      RecursesWhen(cfg, request);
      var response := BuildLocal(request);
      if Rcode(response.header.flags) == RCODE_NXDOMAIN && HasBit(request.header.flags, FLAG_RD)
         && cfg.RecursionAvailable() && request.questions != []
      {
        var q := request.questions[0];
        var cached := cache.Get(Lower(q.qname), q.qtype, now);
        GetKeepsParsed(old(cache.entries), Cache.KeyOf(Lower(q.qname), q.qtype), now);
        if cached.Some? {
          metrics.Bump(shard, Metrics.CacheHits);
          ReplayCarriesId(cached.value, request, transport);
          return Ready(ReplayBytes(cached.value, request, transport)), SingleFlight.Cached;
        }
        var upstream := MatchNameLoop(cfg.rules, Lower(q.qname));
        RouteDecides(cfg, Lower(q.qname), upstream);
        if upstream.Some? {
          return Forwarding(ForwardCtx(request, req, Lower(q.qname), q.qtype, upstream.value, transport)),
              SingleFlight.Forward;
        }
        if cfg.recursive {
          return Forwarding(ForwardCtx(request, req, Lower(q.qname), q.qtype, RECURSE, transport)),
              SingleFlight.Forward;
        }
      } else if cfg.RecursionAvailable() {
        RaKeepsLocal(cfg, request, response);
        response := WithRa(response);
      }
      metrics.Bump(shard, Metrics.Authoritative);
      LocalReply(cfg, request, response, transport);
      return Ready(Encode(response, transport)), SingleFlight.Answer;
    }

    /**
      * Forwarding, given what the upstream returned: the query is counted as forwarded, a failure as
      * an error too. A reply that overruns the parser crashes the forward; any other is passed on as
      * it came, or a SERVFAIL is made up; and only a reply that parses is cached, for its own cache time.
      */
    method ForwardAndCache(ctx: ForwardCtx, result: Option<seq<byte>>, shard: nat, errorShard: nat, now: int)
      returns (raw: Option<seq<byte>>)
      requires Valid() && shard < Metrics.SHARDS && errorShard < Metrics.SHARDS
      modifies cache, metrics
      ensures Valid()
      ensures var forwarded := Metrics.Bumped(old(metrics.shards), shard, Metrics.Forwarded);
              metrics.shards ==
              (if result.Some? then forwarded else Metrics.Bumped(forwarded, errorShard, Metrics.Errors))
      ensures raw.None? <==> result.Some? && SomeRecordOverruns(result.value)
      ensures raw.Some? ==>
                && !Overruns(raw.value)
                && raw.value == (if result.Some? then result.value else ToBytes(Synth(ctx.request, RCODE_SERVFAIL)))
      ensures var parsed := if result.Some? then FromBytes(result.value) else Err(RdataOverrun);
              if parsed.Err? || Cache.CacheTtl(parsed.value).None? then cache.entries == old(cache.entries)
              else
                var ttl := Cache.CacheTtl(parsed.value).value;
                var op := Cache.Op.Insert(ctx.name, ctx.qtype, result.value, ttl, now);
                Cache.FromForwarding(op) && Cache.Step(cache.capacity, old(cache.entries), op, cache.entries)
    {
      hide FromBytes, ToBytes, Synth, AllParsed, Metrics.Bumped, Metrics.Sum, Cache.CacheTtl, Cache.Inserted;
      hide SomeRecordOverruns;
      metrics.Bump(shard, Metrics.Forwarded);
      match result
      case Some(bytes) =>
        var parsed := Parser.ReadPacket(bytes);
        if parsed == Err(RdataOverrun) {
          return None;
        }
        if parsed.Ok? {
          var ttl := Cache.CacheTtl(parsed.value);
          if ttl.Some? {
            ghost var key := Cache.KeyOf(ctx.name, ctx.qtype);
            cache.Insert(ctx.name, ctx.qtype, bytes, ttl.value, now);
            InsertKeepsParsed(cache.capacity, old(cache.entries), cache.entries, key, bytes, ttl.value, now);
          }
        }
        return Some(bytes);
      case None =>
        metrics.Bump(errorShard, Metrics.Errors);
        SynthNeverOverruns(ctx.request, RCODE_SERVFAIL);
        return Some(ToBytes(Synth(ctx.request, RCODE_SERVFAIL)));
    }
  }

  // ----- What becomes of a query -----

  /** Over UDP a reply to a small request is within the client's limit. */
  predicate Fits(request: DnsPacket, transport: Transport, r: Resolution) {
    r.Ready? && transport.Udp? && SmallQuestion(request) ==> |r.bytes| <= UdpLimit(request)
  }

  /** `bytes` are `p`, or what is left of it within the client's limit. */
  ghost predicate Carried(request: DnsPacket, transport: Transport, p: DnsPacket, bytes: seq<byte>) {
    exists limit: nat, sent: DnsPacket ::
      Allows(request.additionals, limit) && SentAs(p, transport, limit, sent) && bytes == ToBytes(sent)
  }

  /** The bytes are those of a local answer, RA set in them exactly when recursion is offered and not asked in vain. */
  ghost predicate Sends(cfg: Config, request: DnsPacket, transport: Transport, bytes: seq<byte>) {
    && (exists p :: cfg.Local(request, p, cfg.SetsRa(request)) && Carried(request, transport, p, bytes))
    && |bytes| >= 4 && (ReadU16(bytes, 2) / 0x80 % 2 == 1 <==> cfg.SetsRa(request))
  }

  /** The bytes are those of a made-up response; it has no OPT, so over UDP its limit is 512 bytes. */
  ghost predicate SendsMadeUp(request: DnsPacket, rcode: u16, transport: Transport, bytes: seq<byte>) {
    exists p, sent :: MadeUp(request, rcode, p) && SentAs(p, transport, 512, sent) && bytes == ToBytes(sent)
  }

  lemma SynthIsSent(request: DnsPacket, rcode: u16, transport: Transport)
    requires rcode < 16
    ensures SendsMadeUp(request, rcode, transport, Encode(Synth(request, rcode), transport))
  {
    hide SentAs, Encode, ToBytes, MadeUp;
    SynthIsMadeUp(request, rcode);
    var sent := EncodeSends(Synth(request, rcode), transport, 512);
  }

  /**
    * What becomes of a query that is allowed, well-formed and not blocked. One that recurses comes
    * from the cache if it can; else it goes to the best rule's upstream, the default or the resolver,
    * in this order; only when there is none of these is it answered here, like all the rest.
    */
  ghost predicate Served(cfg: Config, request: DnsPacket, hit: Option<seq<byte>>, req: seq<byte>, transport: Transport,
                         r: Resolution, outcome: SingleFlight.Outcome)
  {
    if cfg.Recurses(request) && hit.Some? then
      && outcome.Cached? && Replayable(hit.value, transport)
      && r == Ready(ReplayBytes(hit.value, request, transport))
    else if cfg.Recurses(request) && !cfg.GoesNowhere(Lower(request.questions[0].qname)) then
      var q := request.questions[0];
      && outcome.Forward? && r.Forwarding?
      && r.ctx == ForwardCtx(request, req, Lower(q.qname), q.qtype, r.ctx.upstream, transport)
      && cfg.GoesTo(Lower(q.qname), r.ctx.upstream)
    else
      outcome.Answer? && r.Ready? && Sends(cfg, request, transport, r.bytes)
  }

  /** What `match_name` returns settles where the name goes. */
  lemma RouteDecides(cfg: Config, name: Text, matched: Option<SocketAddr>)
    requires RoutedTo(cfg.rules, name, matched)
    ensures matched.Some? ==> cfg.GoesTo(name, matched.value) && !cfg.GoesNowhere(name)
    ensures matched.None? && cfg.recursive ==> cfg.GoesTo(name, RECURSE) && !cfg.GoesNowhere(name)
    ensures matched.None? && !cfg.recursive ==> cfg.GoesNowhere(name)
  {
    hide Matches;
  }

  lemma RecursesWhen(cfg: Config, request: DnsPacket)
    ensures cfg.OffersRecursion() <==> cfg.RecursionAvailable()
    ensures cfg.Recurses(request) <==>
            && request.questions != [] && Unknown(cfg.zones, Lower(request.questions[0].qname))
            && HasBit(request.header.flags, FLAG_RD) && cfg.RecursionAvailable()
  {
    hide Unserved, Unknown;
    if request.questions != [] {
      UnservedIsUnknown(cfg.zones, Lower(request.questions[0].qname));
    }
  }

  lemma NothingListed(cfg: Config)
    ensures forall name :: cfg.blocklist == {} ==> !Blocked(cfg.blocklist, name)
  {}

  lemma RaKeepsLocal(cfg: Config, request: DnsPacket, p: DnsPacket)
    requires cfg.Local(request, p, false)
    ensures cfg.Local(request, WithRa(p), true)
  {
    hide AnswersFor, Locates, HasSoa, HoldsSoa, Allows;
    SetRa(p.header.flags);
    if request.questions != [] {
      var zone, found :| Locates(cfg.zones, Lower(request.questions[0].qname), zone, found)
                         && cfg.LocalAnswer(request, p, false, zone, found);
      assert cfg.LocalAnswer(request, WithRa(p), true, zone, found);
    }
  }

  lemma LocalReply(cfg: Config, request: DnsPacket, p: DnsPacket, transport: Transport)
    requires cfg.Local(request, p, cfg.SetsRa(request))
    ensures var bytes := Encode(p, transport);
            && Carries(bytes, request.header.id) && Sends(cfg, request, transport, bytes)
            && Fits(request, transport, Ready(bytes))
  {
    LocalShape(cfg, request, p, cfg.SetsRa(request));
    hide Config.Local, Allows, SentAs, Encode, ToBytes, ToUdpBytes, SmallQuestion, HasBit, UdpLimit, EchoedOpt;
    hide Config.SetsRa;
    EncodeCarriesId(p, transport);
    EncodeKeepsRa(p, transport);
    var limit := UdpLimit(request);
    UdpLimitIs(request, limit);
    ResponseLimitIsClients(request, p);
    UdpLimitIs(p, limit);
    var sent := EncodeSends(p, transport, limit);
    if SmallQuestion(request) {
      LocalAnswerFits(request, p);
    }
  }

  lemma LocalShape(cfg: Config, request: DnsPacket, p: DnsPacket, ra: bool)
    requires cfg.Local(request, p, ra)
    ensures p.header.id == request.header.id && p.questions == request.questions
    ensures p.additionals == EchoedOpt(request) && (HasBit(p.header.flags, FLAG_RA) <==> ra)
  {
    hide AnswersFor, Locates, HasSoa, HoldsSoa, Allows, UdpLimit, EchoedOpt;
    UdpLimitIs(request, UdpLimit(request));
    EchoedOptIs(request, UdpLimit(request));
  }

  lemma SynthReply(request: DnsPacket, rcode: u16, transport: Transport)
    requires rcode < 16
    ensures var bytes := Encode(Synth(request, rcode), transport);
            Carries(bytes, request.header.id) && Fits(request, transport, Ready(bytes))
  {
    hide ToUdpBytes, ToBytes, UdpLimit, Carries;
    SynthCarriesId(request, rcode, transport);
    if SmallQuestion(request) {
      SynthFits(request, rcode);
    }
  }

  /** What a leader or a follower sends its client: the shared bytes, or a SERVFAIL if there are none. */
  function Relay(shared: Option<seq<byte>>, ctx: ForwardCtx): seq<byte>
    requires shared.Some? ==> Replayable(shared.value, ctx.transport)
  {
    match shared
    case Some(raw) => ReplayBytes(raw, ctx.request, ctx.transport)
    case None =>
      SynthNeverOverruns(ctx.request, RCODE_SERVFAIL);
      ReplayBytes(ToBytes(Synth(ctx.request, RCODE_SERVFAIL)), ctx.request, ctx.transport)
  }

  /** A UDP client gets bytes that cannot be parsed as a TCP client would. */
  lemma UnparsedIsRelayed(raw: seq<byte>, ctx: ForwardCtx)
    requires ctx.transport.Udp? && FromBytes(raw).Err? && !Overruns(raw) && |raw| >= 2
    ensures Relay(Some(raw), ctx) == U16(ctx.request.header.id) + raw[2..]
  {
    hide FromBytes;
  }

  /** A TCP client gets the shared bytes with its own ID in the first two, or the SERVFAIL made up for it. */
  lemma TcpRelayIsShared(shared: Option<seq<byte>>, ctx: ForwardCtx)
    requires ctx.transport.Tcp? && (shared.Some? ==> |shared.value| >= 2)
    ensures shared.Some? ==> Relay(shared, ctx) == U16(ctx.request.header.id) + shared.value[2..]
    ensures shared.None? ==> SendsMadeUp(ctx.request, 2, Tcp, Relay(shared, ctx))
  {
    hide ToBytes, Synth, SendsMadeUp, MadeUp;
    if shared.None? {
      SynthIsMadeUp(ctx.request, RCODE_SERVFAIL);
      SynthIsSent(ctx.request, RCODE_SERVFAIL, Tcp);
      PatchIsWithId(Synth(ctx.request, RCODE_SERVFAIL), ctx.request.header.id);
      SynthHasId(ctx.request, RCODE_SERVFAIL);
    }
  }

  lemma SynthHasId(request: DnsPacket, rcode: u16)
    requires rcode < 16
    ensures WithId(Synth(request, rcode), request.header.id) == Synth(request, rcode)
  {}

  /** A UDP client reads the shared answer whole, or cut to its own limit with TC set. */
  lemma UdpRelayIsRead(raw: seq<byte>, p: DnsPacket, ctx: ForwardCtx, limit: nat)
    requires ctx.transport.Udp? && FromBytes(raw) == Ok(p) && Allows(ctx.request.additionals, limit)
    requires SizedPacket(p) && GoodPacket(p) && ShortNames(p) && |p.additionals| < 0xFFFF
    ensures var r := FromBytes(Relay(Some(raw), ctx));
            && r.Ok? && r.value.header.id == ctx.request.header.id && r.value.questions == p.questions
            && (if |ToBytes(Aligned(p, ctx.request))| <= limit then Whole(p, r.value) else Shortened(p, r.value))
  {
    hide ToBytes, FromBytes, SizedPacket, GoodPacket, ShortNames, Allows, Aligned, Whole, Shortened, ReplayBytes;
    ReplayIsWholeExactly(raw, p, ctx.request, limit);
  }

  /** Without a shared answer a UDP client reads a SERVFAIL to its own questions. */
  lemma UdpRelayFails(ctx: ForwardCtx, limit: nat)
    requires ctx.transport.Udp? && Allows(ctx.request.additionals, limit)
    requires |ctx.request.questions| < 0x1_0000 && GoodQuestions(ctx.request.questions)
    requires ShortQuestions(ctx.request.questions)
    ensures var r := FromBytes(Relay(None, ctx));
            && r.Ok? && r.value.header.id == ctx.request.header.id && r.value.questions == ctx.request.questions
            && r.value.answers == [] && r.value.authorities == [] && Rcode(r.value.header.flags) == 2
  {
    var p := Synth(ctx.request, RCODE_SERVFAIL);
    SynthIsGood(ctx.request, RCODE_SERVFAIL);
    hide ToBytes, FromBytes, Overruns, Allows, Aligned, ReplayBytes, PacketJumps, TcSet, GoodPacket, SizedPacket;
    hide ShortNames, GoodQuestions, ShortQuestions, Rcode, Synth, SynthFlags;
    PacketRoundTrip(p);
    ReplayIsWholeExactly(ToBytes(p), p, ctx.request, limit);
    var flags := FromBytes(Relay(None, ctx)).value.header.flags;
    if TcSet(p.header.flags, flags) {
      TcKeepsRcode(p.header.flags, flags);
    }
  }

  lemma TcKeepsRcode(f: u16, g: u16)
    requires TcSet(f, g)
    ensures Rcode(f) == Rcode(g)
  {
    assert f == 0x200 * (f / 0x200) + f % 0x200 && g == 0x200 * (g / 0x200) + g % 0x200;
  }

  lemma SynthIsGood(request: DnsPacket, rcode: u16)
    requires rcode < 16 && |request.questions| < 0x1_0000
    requires GoodQuestions(request.questions) && ShortQuestions(request.questions)
    ensures var p := Synth(request, rcode);
            && GoodPacket(p) && SizedPacket(p) && ShortNames(p)
            && Counted(p) == p && p.answers == [] && p.authorities == [] && p.additionals == []
            && p.header.id == request.header.id && p.questions == request.questions
            && Rcode(p.header.flags) == rcode
  {
    hide GoodName, ShortName;
  }

  /** Each client gets its own ID back, also when it shares another client's upstream query. */
  lemma RelayCarriesId(shared: Option<seq<byte>>, ctx: ForwardCtx)
    requires shared.Some? ==> |shared.value| >= 2 && Replayable(shared.value, ctx.transport)
    ensures Carries(Relay(shared, ctx), ctx.request.header.id)
  {
    hide Carries, ReplayBytes, ToBytes, Synth, Overruns;
    match shared
    case Some(raw) =>
      ReplayCarriesId(raw, ctx.request, ctx.transport);
    case None =>
      SynthNeverOverruns(ctx.request, RCODE_SERVFAIL);
      HeaderOnWire(Synth(ctx.request, RCODE_SERVFAIL));
      ReplayCarriesId(ToBytes(Synth(ctx.request, RCODE_SERVFAIL)), ctx.request, ctx.transport);
  }
}
