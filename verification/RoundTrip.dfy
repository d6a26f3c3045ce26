/** Reading inverts writing: names, rdata of every type, records, questions, packets. */
module RoundTrip {
  import opened Bytes
  import opened Names
  import opened NameCodec
  import opened Records
  import opened Wire

  // ----- What the wire format can carry -----

  /** The length of a body with its names written out in full. */
  function PlainSize(names: seq<Text>): nat {
    if names == [] then 0 else |PlainName(Labels(names[0]))| + PlainSize(names[1..])
  }

  /** The data fits its 16-bit length, even with its names written out. */
  predicate Sized(r: DnsRecord) {
    |Layout(r).head| + PlainSize(Layout(r).names) + |Layout(r).tail| <= 0xFFFF
  }

  /** Every name can be carried by the wire format, and so can a CAA tag. */
  predicate Carried(r: DnsRecord) {
    && GoodName(Owner(r))
    && (forall i :: 0 <= i < |Layout(r).names| ==> GoodName(Layout(r).names[i]))
    && (r.SRV? ==> GoodName(r.target))
    && (r.RRSIG? ==> GoodName(r.signerName))
    && (r.NSEC? ==> GoodName(r.nextName))
    && (r.CAA? ==> |r.tag| <= 255)
  }

  predicate GoodRecord(r: DnsRecord) { Carried(r) && Sized(r) }

  predicate GoodRecords(rs: seq<DnsRecord>) {
    forall i :: 0 <= i < |rs| ==> GoodRecord(rs[i])
  }

  predicate GoodQuestions(qs: seq<DnsQuestion>) {
    forall i :: 0 <= i < |qs| ==> GoodName(qs[i].qname)
  }

  predicate GoodPacket(p: DnsPacket) {
    && GoodQuestions(p.questions) && GoodRecords(p.answers)
    && GoodRecords(p.authorities) && GoodRecords(p.additionals)
    && CountsFit(p)
  }

  /** The section lengths fit the 16-bit counts of the header. */
  predicate CountsFit(p: DnsPacket) {
    && |p.questions| < 0x1_0000 && |p.answers| < 0x1_0000
    && |p.authorities| < 0x1_0000 && |p.additionals| < 0x1_0000
  }

  predicate SizedRecords(rs: seq<DnsRecord>) {
    forall i :: 0 <= i < |rs| ==> Sized(rs[i])
  }

  /** The 16-bit counts and lengths of the message do not wrap around. */
  predicate SizedPacket(p: DnsPacket) {
    CountsFit(p) && SizedRecords(p.answers) && SizedRecords(p.authorities) && SizedRecords(p.additionals)
  }

  /** The packet with its header counts set to the section lengths. */
  function Counted(p: DnsPacket): DnsPacket
    requires CountsFit(p)
  {
    p.(header := DnsHeader(p.header.id, p.header.flags, |p.questions|, |p.answers|, |p.authorities|, |p.additionals|))
  }

  // ----- How many jumps the names of a packet take -----

  /** The most jumps any of these names takes, in the order they are written. */
  function NamesReach(offs: Offsets, depths: Depths, pos: nat, names: seq<Text>): Reach
    decreases |names|
  {
    if names == [] then Reach(0, depths)
    else
      var first, e := NameReach(offs, depths, pos, Labels(names[0])), EmitName(offs, pos, Labels(names[0]));
      var rest := NamesReach(e.offs, first.depths, pos + |e.bytes|, names[1..]);
      Reach(Max(first.jumps, rest.jumps), rest.depths)
  }

  function BodyReach(offs: Offsets, depths: Depths, pos: nat, b: Body): Reach {
    NamesReach(offs, depths, pos + |b.head|, b.names)
  }

  function RecordReach(offs: Offsets, depths: Depths, pos: nat, r: DnsRecord): Reach {
    var owner, e := NameReach(offs, depths, pos, Labels(Owner(r))), EmitName(offs, pos, Labels(Owner(r)));
    var body := BodyReach(e.offs, owner.depths, pos + |e.bytes| + 10, Layout(r));
    Reach(Max(owner.jumps, body.jumps), body.depths)
  }

  function RecordsReach(offs: Offsets, depths: Depths, pos: nat, rs: seq<DnsRecord>): Reach
    decreases |rs|
  {
    if rs == [] then Reach(0, depths)
    else
      var first, e := RecordReach(offs, depths, pos, rs[0]), EmitRecord(offs, pos, rs[0]);
      var rest := RecordsReach(e.offs, first.depths, pos + |e.bytes|, rs[1..]);
      Reach(Max(first.jumps, rest.jumps), rest.depths)
  }

  function QuestionsReach(offs: Offsets, depths: Depths, pos: nat, qs: seq<DnsQuestion>): Reach
    decreases |qs|
  {
    if qs == [] then Reach(0, depths)
    else
      var first, e := NameReach(offs, depths, pos, Labels(qs[0].qname)), EmitQuestion(offs, pos, qs[0]);
      var rest := QuestionsReach(e.offs, first.depths, pos + |e.bytes|, qs[1..]);
      Reach(Max(first.jumps, rest.jumps), rest.depths)
  }

  function PacketReach(p: DnsPacket): Reach {
    var qs, e1 := QuestionsReach(map[], map[], 12, p.questions), EmitQuestions(map[], 12, p.questions);
    var p1 := 12 + |e1.bytes|;
    var an, e2 := RecordsReach(e1.offs, qs.depths, p1, p.answers), EmitRecords(e1.offs, p1, p.answers);
    var p2 := p1 + |e2.bytes|;
    var au, e3 := RecordsReach(e2.offs, an.depths, p2, p.authorities), EmitRecords(e2.offs, p2, p.authorities);
    var ad := RecordsReach(e3.offs, au.depths, p2 + |e3.bytes|, p.additionals);
    Reach(Max(Max(qs.jumps, an.jumps), Max(au.jumps, ad.jumps)), ad.depths)
  }

  /** The most jumps it takes to read a name of the encoded packet. */
  function PacketJumps(p: DnsPacket): nat { PacketReach(p).jumps }

  // ----- Names of few labels -----

  /** No compressed name has more labels than the parser makes jumps. */
  predicate ShortNames(p: DnsPacket) {
    && ShortQuestions(p.questions)
    && ShortRecords(p.answers) && ShortRecords(p.authorities) && ShortRecords(p.additionals)
  }

  predicate ShortQuestions(qs: seq<DnsQuestion>) {
    forall i :: 0 <= i < |qs| ==> ShortName(qs[i].qname)
  }

  predicate ShortName(name: Text) { |Labels(name)| <= MAX_POINTER_JUMPS }

  predicate ShortRecords(rs: seq<DnsRecord>) {
    forall i :: 0 <= i < |rs| ==> ShortRecord(rs[i])
  }

  predicate ShortRecord(r: DnsRecord) { ShortName(Owner(r)) && ShortBody(Layout(r)) }

  predicate ShortBody(b: Body) {
    forall i :: 0 <= i < |b.names| ==> ShortName(b.names[i])
  }

  // ----- Rdata sizes -----

  lemma {:induction false} GoodNamesBound(offs: Offsets, pos: nat, names: seq<Text>)
    requires forall i :: 0 <= i < |names| ==> GoodName(names[i])
    ensures |EmitNames(offs, pos, names).bytes| <= PlainSize(names)
    decreases |names|
  {
    hide EmitName, PlainName, GoodLabels;
    if names != [] {
      EmitNameShorter(offs, pos, Labels(names[0]));
      assert GoodName(names[0]);
      var first := EmitName(offs, pos, Labels(names[0]));
      GoodNamesBound(first.offs, pos + |first.bytes|, names[1..]);
    }
  }

  /** The 16-bit rdata length never wraps for a good record. */
  lemma BodyFits(offs: Offsets, pos: nat, r: DnsRecord)
    requires GoodRecord(r)
    ensures |EmitBody(offs, pos, Layout(r)).bytes| <= 0xFFFF
  {
    hide EmitNames, GoodName, PlainSize, Layout;
    GoodNamesBound(offs, pos + |Layout(r).head|, Layout(r).names);
  }

  // ----- Rdata of each type -----

  lemma OneNameReach(offs: Offsets, depths: Depths, pos: nat, b: Body)
    requires |b.names| == 1
    ensures BodyReach(offs, depths, pos, b) == NameReach(offs, depths, pos + |b.head|, Labels(b.names[0]))
  {
    hide NameReach, EmitName;
    var at := pos + |b.head|;
    var first, e := NameReach(offs, depths, at, Labels(b.names[0])), EmitName(offs, at, Labels(b.names[0]));
    assert NamesReach(e.offs, first.depths, at + |e.bytes|, b.names[1..]) == Reach(0, first.depths);
  }

  lemma TwoNamesReach(offs: Offsets, depths: Depths, pos: nat, a: Text, b: Text)
    ensures var m, e := NameReach(offs, depths, pos, Labels(a)), EmitName(offs, pos, Labels(a));
            var n := NameReach(e.offs, m.depths, pos + |e.bytes|, Labels(b));
            NamesReach(offs, depths, pos, [a, b]) == Reach(Max(m.jumps, n.jumps), n.depths)
  {
    hide NameReach, EmitName;
    assert [a, b][1..] == [b];
    var m, e := NameReach(offs, depths, pos, Labels(a)), EmitName(offs, pos, Labels(a));
    var last := Body([], [b], []);
    OneNameReach(e.offs, m.depths, pos + |e.bytes|, last);
    assert BodyReach(e.offs, m.depths, pos + |e.bytes|, last) == NamesReach(e.offs, m.depths, pos + |e.bytes|, [b]);
  }

  /** The compressed name of a body read back, and where it ends. */
  lemma OneName(buf: seq<byte>, offs: Offsets, depths: Depths, pos: nat, b: Body)
    requires |b.names| == 1 && GoodName(b.names[0]) && pos >= 12 && Sound(buf, offs, depths)
    requires At(buf, pos, EmitBody(offs, pos, b).bytes)
    ensures At(buf, pos, b.head)
    ensures var reach := BodyReach(offs, depths, pos, b);
            var r := ParseName(buf, pos + |b.head|);
            && (if reach.jumps <= MAX_POINTER_JUMPS then r.Ok? && r.value.0 == b.names[0] else r == Err(PointerLoop))
            && Sound(buf, EmitBody(offs, pos, b).offs, reach.depths)
            && (ShortBody(b) ==> reach.jumps <= MAX_POINTER_JUMPS)
  {
    hide GoodName, At, ParseName, EmitName, EmitNames, Sound, NameReach, BodyReach;
    var at := pos + |b.head|;
    var names := EmitNames(offs, at, b.names);
    assert b.names == [b.names[0]];
    EmitOneName(offs, at, b.names[0]);
    OneNameReach(offs, depths, pos, b);
    AtSplit(buf, pos, b.head, names.bytes + b.tail);
    AtSplit(buf, at, names.bytes, b.tail);
    NameRoundTrip(buf, offs, depths, at, b.names[0]);
  }

  lemma SoaReads(buf: seq<byte>, at: nat, r: DnsRecord)
    requires r.SOA? && At(buf, at, SoaTimes(r))
    ensures at + 20 <= |buf|
    ensures ReadU32(buf, at) == r.serial && ReadU32(buf, at + 4) == r.refresh && ReadU32(buf, at + 8) == r.retry
    ensures ReadU32(buf, at + 12) == r.expire && ReadU32(buf, at + 16) == r.minimum
  {
    AtU32(buf, at, r.serial, U32(r.refresh) + (U32(r.retry) + (U32(r.expire) + U32(r.minimum))));
    AtU32(buf, at + 4, r.refresh, U32(r.retry) + (U32(r.expire) + U32(r.minimum)));
    AtU32(buf, at + 8, r.retry, U32(r.expire) + U32(r.minimum));
    AtU32(buf, at + 12, r.expire, U32(r.minimum));
    U32At(buf, at + 16, r.minimum);
  }

  lemma AtU16(buf: seq<byte>, pos: nat, x: u16, rest: seq<byte>)
    requires At(buf, pos, U16(x) + rest)
    ensures pos + 2 <= |buf| && ReadU16(buf, pos) == x && At(buf, pos + 2, rest)
  {
    AtSplit(buf, pos, U16(x), rest);
    U16At(buf, pos, x);
  }

  lemma AtU32(buf: seq<byte>, pos: nat, x: u32, rest: seq<byte>)
    requires At(buf, pos, U32(x) + rest)
    ensures pos + 4 <= |buf| && ReadU32(buf, pos) == x && At(buf, pos + 4, rest)
  {
    AtSplit(buf, pos, U32(x), rest);
    U32At(buf, pos, x);
  }

  lemma AtTwo(buf: seq<byte>, pos: nat, x: byte, y: byte, rest: seq<byte>)
    requires At(buf, pos, [x, y] + rest)
    ensures pos + 2 <= |buf| && buf[pos] == x && buf[pos + 1] == y && At(buf, pos + 2, rest)
  {
    AtSplit(buf, pos, [x, y], rest);
    AtIndex(buf, pos, [x, y], 0);
    AtIndex(buf, pos, [x, y], 1);
  }

  lemma GoodRecordNames(r: DnsRecord)
    requires GoodRecord(r)
    ensures GoodName(Owner(r))
    ensures r.SOA? ==> GoodName(r.mname) && GoodName(r.rname)
    ensures r.SOA? && ShortBody(Layout(r)) ==> ShortName(r.mname) && ShortName(r.rname)
    ensures |Layout(r).names| == 1 ==> GoodName(Layout(r).names[0])
  {
    hide GoodName;
    assert r.SOA? ==> Layout(r).names[0] == r.mname && Layout(r).names[1] == r.rname;
  }

  lemma SoaBytes(offs: Offsets, pos: nat, r: DnsRecord)
    requires r.SOA?
    ensures var m := EmitName(offs, pos, Labels(r.mname));
            var n := EmitName(m.offs, pos + |m.bytes|, Labels(r.rname));
            EmitBody(offs, pos, Layout(r)) == Emit(m.bytes + (n.bytes + SoaTimes(r)), n.offs)
  {
    hide EmitName, EmitNames, SoaTimes;
    EmitTwoNames(offs, pos, r.mname, r.rname);
  }

  lemma SoaRoundTrip(buf: seq<byte>, offs: Offsets, depths: Depths, pos: nat, r: DnsRecord)
    requires r.SOA? && GoodRecord(r) && pos >= 12 && Sound(buf, offs, depths)
    requires At(buf, pos, EmitBody(offs, pos, Layout(r)).bytes)
    ensures var reach := BodyReach(offs, depths, pos, Layout(r));
            && ParseSoa(buf, pos, r.domain, r.ttl) == Within(reach.jumps, r)
            && Sound(buf, EmitBody(offs, pos, Layout(r)).offs, reach.depths)
            && (ShortBody(Layout(r)) ==> reach.jumps <= MAX_POINTER_JUMPS)
  {
    hide GoodName, GoodRecord, At, ParseName, EmitName, EmitBody, Sound, SoaTimes, ReadU32, NameReach;
    hide NamesReach, ShortBody;
    GoodRecordNames(r);
    var m := EmitName(offs, pos, Labels(r.mname));
    var n := EmitName(m.offs, pos + |m.bytes|, Labels(r.rname));
    SoaBytes(offs, pos, r);
    TwoNamesReach(offs, depths, pos, r.mname, r.rname);
    AtSplit(buf, pos, m.bytes, n.bytes + SoaTimes(r));
    NameRoundTrip(buf, offs, depths, pos, r.mname);
    AtSplit(buf, pos + |m.bytes|, n.bytes, SoaTimes(r));
    var depths' := NameReach(offs, depths, pos, Labels(r.mname)).depths;
    NameRoundTrip(buf, m.offs, depths', pos + |m.bytes|, r.rname);
    SoaReads(buf, pos + |m.bytes| + |n.bytes|, r);
  }

  lemma SrvRoundTrip(buf: seq<byte>, pos: nat, len: nat, r: DnsRecord)
    requires r.SRV? && GoodName(r.target) && len == |Layout(r).head| && At(buf, pos, Layout(r).head)
    ensures ParseSrv(buf, pos, len, r.domain, r.ttl) == Ok(r)
  {
    hide GoodName, At, ParseName, PlainName, ReadU16;
    var name := PlainName(Labels(r.target));
    AtSplit(buf, pos, SrvFields(r), name);
    PlainNameRoundTrip(buf, pos + 6, r.target);
    AtU16(buf, pos, r.priority, U16(r.weight) + U16(r.port));
    AtU16(buf, pos + 2, r.weight, U16(r.port));
    U16At(buf, pos + 4, r.port);
  }

  lemma RrsigReads(buf: seq<byte>, pos: nat, r: DnsRecord)
    requires r.RRSIG? && At(buf, pos, RrsigFields(r))
    ensures pos + 18 <= |buf|
    ensures ReadU16(buf, pos) == r.typeCovered && buf[pos + 2] == r.algorithm && buf[pos + 3] == r.labels
    ensures ReadU32(buf, pos + 4) == r.originalTtl && ReadU32(buf, pos + 8) == r.expiration
    ensures ReadU32(buf, pos + 12) == r.inception && ReadU16(buf, pos + 16) == r.keyTag
  {
    hide At, ReadU16, ReadU32, U16, U32;
    var c := U32(r.inception) + U16(r.keyTag);
    var b := U32(r.originalTtl) + (U32(r.expiration) + c);
    AtU16(buf, pos, r.typeCovered, [r.algorithm, r.labels] + b);
    AtTwo(buf, pos + 2, r.algorithm, r.labels, b);
    AtU32(buf, pos + 4, r.originalTtl, U32(r.expiration) + c);
    AtU32(buf, pos + 8, r.expiration, c);
    AtU32(buf, pos + 12, r.inception, U16(r.keyTag));
    U16At(buf, pos + 16, r.keyTag);
  }

  lemma RrsigRoundTrip(buf: seq<byte>, pos: nat, len: nat, r: DnsRecord)
    requires r.RRSIG? && GoodName(r.signerName) && len == |Layout(r).head| && At(buf, pos, Layout(r).head)
    ensures ParseRrsig(buf, pos, len, r.domain, r.ttl) == Ok(r)
  {
    hide GoodName, ParseName, PlainName, RrsigFields, ReadU16, ReadU32;
    var name := PlainName(Labels(r.signerName));
    AtSplit(buf, pos, RrsigFields(r), name + r.signature);
    AtSplit(buf, pos + 18, name, r.signature);
    PlainNameRoundTrip(buf, pos + 18, r.signerName);
    RrsigReads(buf, pos, r);
  }

  lemma NsecRoundTrip(buf: seq<byte>, pos: nat, len: nat, r: DnsRecord)
    requires r.NSEC? && GoodName(r.nextName) && len == |Layout(r).head| && At(buf, pos, Layout(r).head)
    ensures ParseNsec(buf, pos, len, r.domain, r.ttl) == Ok(r)
  {
    hide GoodName, ParseName, PlainName;
    var name := PlainName(Labels(r.nextName));
    AtSplit(buf, pos, name, r.typeBitmap);
    PlainNameRoundTrip(buf, pos, r.nextName);
  }

  lemma CaaRoundTrip(buf: seq<byte>, pos: nat, len: nat, r: DnsRecord)
    requires r.CAA? && |r.tag| <= 255 && len == |Layout(r).head| && At(buf, pos, Layout(r).head)
    ensures ParseCaa(buf, pos, len, r.domain, r.ttl) == Ok(r)
  {
    AtTwo(buf, pos, r.caaFlags, |r.tag|, r.tag + r.value);
    AtSplit(buf, pos + 2, r.tag, r.value);
  }

  predicate Nameless(r: DnsRecord) {
    r.A? || r.AAAA? || r.TXT? || r.CAA? || r.OPT? || r.DNSKEY? || r.DS?
  }

  lemma KeyBodyReads(buf: seq<byte>, pos: nat, x: u16, a: byte, b: byte, rest: seq<byte>)
    requires At(buf, pos, U16(x) + ([a, b] + rest))
    ensures var data := buf[pos..pos + 4 + |rest|];
            ReadU16(buf, pos) == x && data[2] == a && data[3] == b && data[4..] == rest
  {
    AtU16(buf, pos, x, [a, b] + rest);
    var all := U16(x) + ([a, b] + rest);
    assert all[2] == a && all[3] == b && all[4..] == rest;
  }

  lemma NamelessRoundTrip(buf: seq<byte>, pos: nat, len: nat, r: DnsRecord)
    requires Nameless(r) && GoodRecord(r) && len == |Layout(r).head| && At(buf, pos, Layout(r).head)
    ensures ParseNameless(buf, pos, len, RecordType(r), Class(r), Owner(r), Ttl(r)) == Ok(Some(r))
  {
    hide CharacterStrings, ParseCharacterStrings, GoodName, ParseCaa, ReadU16, U16;
    match r
    case TXT(_, text, _) => CharacterStringsRoundTrip(text);
    case CAA(_, _, _, _, _) => CaaRoundTrip(buf, pos, len, r);
    case DNSKEY(_, flags, protocol, algorithm, key, _) =>
      KeyBodyReads(buf, pos, flags, protocol, algorithm, key);
    case DS(_, tag, algorithm, digestType, digest, _) =>
      KeyBodyReads(buf, pos, tag, algorithm, digestType, digest);
    case _ =>
  }

  /** The rdata of every record type reads back as that record, unless a name takes too many jumps. */
  lemma RdataRoundTrip(buf: seq<byte>, offs: Offsets, depths: Depths, pos: nat, r: DnsRecord)
    requires GoodRecord(r) && pos >= 12 && Sound(buf, offs, depths)
    requires At(buf, pos, EmitBody(offs, pos, Layout(r)).bytes)
    ensures var e, reach := EmitBody(offs, pos, Layout(r)), BodyReach(offs, depths, pos, Layout(r));
            && ParseRdata(buf, pos, |e.bytes|, RecordType(r), Class(r), Owner(r), Ttl(r))
               == Within(reach.jumps, Some(r))
            && Sound(buf, e.offs, reach.depths)
            && (ShortBody(Layout(r)) ==> reach.jumps <= MAX_POINTER_JUMPS)
  {
    hide GoodRecord, At, ParseSoa, Sound, EmitBody, BodyReach;
    if |Layout(r).names| == 1 {
      OneNameRoundTrip(buf, offs, depths, pos, r);
    } else if r.SOA? {
      SoaRoundTrip(buf, offs, depths, pos, r);
    } else {
      FlatRoundTrip(buf, offs, pos, r);
      FlatReach(offs, depths, pos, Layout(r));
    }
  }

  lemma FlatReach(offs: Offsets, depths: Depths, pos: nat, b: Body)
    requires b.names == []
    ensures BodyReach(offs, depths, pos, b) == Reach(0, depths)
  {}

  lemma OneNameRoundTrip(buf: seq<byte>, offs: Offsets, depths: Depths, pos: nat, r: DnsRecord)
    requires |Layout(r).names| == 1 && GoodRecord(r) && pos >= 12 && Sound(buf, offs, depths)
    requires At(buf, pos, EmitBody(offs, pos, Layout(r)).bytes)
    ensures var e, reach := EmitBody(offs, pos, Layout(r)), BodyReach(offs, depths, pos, Layout(r));
            && ParseRdata(buf, pos, |e.bytes|, RecordType(r), Class(r), Owner(r), Ttl(r))
               == Within(reach.jumps, Some(r))
            && Sound(buf, e.offs, reach.depths)
            && (ShortBody(Layout(r)) ==> reach.jumps <= MAX_POINTER_JUMPS)
  {
    hide GoodRecord, GoodName, ParseName, Sound, EmitName, ReadU16, BodyReach, ShortBody;
    GoodRecordNames(r);
    OneName(buf, offs, depths, pos, Layout(r));
    if r.MX? {
      U16At(buf, pos, r.preference);
      EmitNameShorter(offs, pos + 2, Labels(r.exchange));
    }
  }

  lemma FlatBytes(offs: Offsets, pos: nat, b: Body)
    requires b.names == [] && b.tail == []
    ensures EmitBody(offs, pos, b) == Emit(b.head, offs)
  {
    assert EmitNames(offs, pos + |b.head|, b.names) == Emit([], offs);
    assert b.head + ([] + b.tail) == b.head;
  }

  /** Records whose rdata is written without compression. */
  lemma FlatRoundTrip(buf: seq<byte>, offs: Offsets, pos: nat, r: DnsRecord)
    requires Layout(r).names == [] && Layout(r).tail == [] && GoodRecord(r)
    requires At(buf, pos, EmitBody(offs, pos, Layout(r)).bytes)
    ensures var e := EmitBody(offs, pos, Layout(r));
            && ParseRdata(buf, pos, |e.bytes|, RecordType(r), Class(r), Owner(r), Ttl(r)) == Ok(Some(r))
            && e.offs == offs
  {
    hide At, GoodName, ParseName, ParseNameless, ParseSrv, ParseRrsig, ParseNsec;
    var head := Layout(r).head;
    FlatBytes(offs, pos, Layout(r));
    if Nameless(r) {
      NamelessRoundTrip(buf, pos, |head|, r);
    } else {
      match r
      case SRV(_, _, _, _, _, _) => SrvRoundTrip(buf, pos, |head|, r);
      case RRSIG(_, _, _, _, _, _, _, _, _, _, _) => RrsigRoundTrip(buf, pos, |head|, r);
      case NSEC(_, _, _, _) => NsecRoundTrip(buf, pos, |head|, r);
      case _ =>
    }
  }

  // ----- Records, questions and packets -----

  lemma FixedReads(buf: seq<byte>, at: nat, r: DnsRecord, len: u16)
    requires At(buf, at, Fixed(r, len))
    ensures at + 10 <= |buf|
    ensures ReadU16(buf, at) == RecordType(r) && ReadU16(buf, at + 2) == Class(r)
    ensures ReadU32(buf, at + 4) == Ttl(r) && ReadU16(buf, at + 8) == len
  {
    hide RecordType, Class, Ttl, At, ReadU16, ReadU32, U16, U32;
    AtU16(buf, at, RecordType(r), U16(Class(r)) + (U32(Ttl(r)) + U16(len)));
    AtU16(buf, at + 2, Class(r), U32(Ttl(r)) + U16(len));
    AtU32(buf, at + 4, Ttl(r), U16(len));
    U16At(buf, at + 8, len);
  }

  lemma RecordRoundTrip(buf: seq<byte>, offs: Offsets, depths: Depths, pos: nat, r: DnsRecord)
    requires GoodRecord(r) && pos >= 12 && Sound(buf, offs, depths)
    requires At(buf, pos, EmitRecord(offs, pos, r).bytes)
    ensures var e, reach := EmitRecord(offs, pos, r), RecordReach(offs, depths, pos, r);
            && ParseRecord(buf, pos) == Within(reach.jumps, (Some(r), pos + |e.bytes|))
            && Sound(buf, e.offs, reach.depths)
            && (ShortRecord(r) ==> reach.jumps <= MAX_POINTER_JUMPS)
  {
    hide GoodRecord, GoodName, At, Sound, EmitName, EmitBody, ParseName, ParseRdata, Layout, NameReach, BodyReach;
    hide RecordType, Class, Ttl, Owner, Fixed, ReadU16, ReadU32;
    GoodRecordNames(r);
    var owner := EmitName(offs, pos, Labels(Owner(r)));
    var at := pos + |owner.bytes|;
    var body := EmitBody(owner.offs, at + 10, Layout(r));
    var fixed := Fixed(r, |body.bytes|);
    AtSplit(buf, pos, owner.bytes, fixed + body.bytes);
    AtSplit(buf, at, fixed, body.bytes);
    NameRoundTrip(buf, offs, depths, pos, Owner(r));
    BodyFits(owner.offs, at + 10, r);
    FixedReads(buf, at, r, |body.bytes|);
    RdataRoundTrip(buf, owner.offs, NameReach(offs, depths, pos, Labels(Owner(r))).depths, at + 10, r);
  }

  lemma {:induction false} RecordsRoundTrip(buf: seq<byte>, offs: Offsets, depths: Depths, pos: nat, rs: seq<DnsRecord>)
    requires GoodRecords(rs) && pos >= 12 && Sound(buf, offs, depths)
    requires At(buf, pos, EmitRecords(offs, pos, rs).bytes)
    ensures var e, reach := EmitRecords(offs, pos, rs), RecordsReach(offs, depths, pos, rs);
            && ParseRecords(buf, pos, |rs|) == Within(reach.jumps, (rs, pos + |e.bytes|))
            && Sound(buf, e.offs, reach.depths)
            && (ShortRecords(rs) ==> reach.jumps <= MAX_POINTER_JUMPS)
    decreases |rs|
  {
    hide GoodRecord, At, Sound, EmitRecord, ParseRecord, RecordReach, ShortRecord;
    if rs != [] {
      var first := EmitRecord(offs, pos, rs[0]);
      var rest := EmitRecords(first.offs, pos + |first.bytes|, rs[1..]);
      AtSplit(buf, pos, first.bytes, rest.bytes);
      RecordRoundTrip(buf, offs, depths, pos, rs[0]);
      RecordsRoundTrip(buf, first.offs, RecordReach(offs, depths, pos, rs[0]).depths, pos + |first.bytes|, rs[1..]);
      assert [rs[0]] + rs[1..] == rs;
    }
  }

  lemma QuestionRoundTrip(buf: seq<byte>, offs: Offsets, depths: Depths, pos: nat, q: DnsQuestion)
    requires GoodName(q.qname) && pos >= 12 && Sound(buf, offs, depths)
    requires At(buf, pos, EmitQuestion(offs, pos, q).bytes)
    ensures var e, reach := EmitQuestion(offs, pos, q), NameReach(offs, depths, pos, Labels(q.qname));
            && ParseQuestion(buf, pos) == Within(reach.jumps, (q, pos + |e.bytes|))
            && Sound(buf, e.offs, reach.depths)
            && (ShortName(q.qname) ==> reach.jumps <= MAX_POINTER_JUMPS)
  {
    hide GoodName, At, Sound, EmitName, ParseName, ReadU16, U16, NameReach;
    var name := EmitName(offs, pos, Labels(q.qname));
    AtSplit(buf, pos, name.bytes, U16(q.qtype) + U16(q.qclass));
    NameRoundTrip(buf, offs, depths, pos, q.qname);
    AtU16(buf, pos + |name.bytes|, q.qtype, U16(q.qclass));
    U16At(buf, pos + |name.bytes| + 2, q.qclass);
  }

  lemma {:induction false} QuestionsRoundTrip(buf: seq<byte>, offs: Offsets, depths: Depths, pos: nat,
                                              qs: seq<DnsQuestion>)
    requires GoodQuestions(qs) && pos >= 12 && Sound(buf, offs, depths)
    requires At(buf, pos, EmitQuestions(offs, pos, qs).bytes)
    ensures var e, reach := EmitQuestions(offs, pos, qs), QuestionsReach(offs, depths, pos, qs);
            && ParseQuestions(buf, pos, |qs|) == Within(reach.jumps, (qs, pos + |e.bytes|))
            && Sound(buf, e.offs, reach.depths)
            && (ShortQuestions(qs) ==> reach.jumps <= MAX_POINTER_JUMPS)
    decreases |qs|
  {
    hide GoodName, At, Sound, EmitQuestion, ParseQuestion, NameReach, ShortName;
    if qs != [] {
      var first := EmitQuestion(offs, pos, qs[0]);
      var rest := EmitQuestions(first.offs, pos + |first.bytes|, qs[1..]);
      AtSplit(buf, pos, first.bytes, rest.bytes);
      QuestionRoundTrip(buf, offs, depths, pos, qs[0]);
      var depths' := NameReach(offs, depths, pos, Labels(qs[0].qname)).depths;
      QuestionsRoundTrip(buf, first.offs, depths', pos + |first.bytes|, qs[1..]);
      assert [qs[0]] + qs[1..] == qs;
    }
  }

  lemma AtStart(s: seq<byte>, rest: seq<byte>)
    ensures At(s + rest, 0, s)
  {}

  lemma HeaderReads(p: DnsPacket, rest: seq<byte>)
    ensures ParseHeader(HeaderBytes(p) + rest)
         == DnsHeader(p.header.id, p.header.flags, |p.questions| % 0x1_0000, |p.answers| % 0x1_0000,
                      |p.authorities| % 0x1_0000, |p.additionals| % 0x1_0000)
  {
    hide At, ReadU16, U16;
    var buf := HeaderBytes(p) + rest;
    AtStart(HeaderBytes(p), rest);
    var au, ad := U16(|p.authorities| % 0x1_0000), U16(|p.additionals| % 0x1_0000);
    var an := U16(|p.answers| % 0x1_0000) + (au + ad);
    AtU16(buf, 0, p.header.id, U16(p.header.flags) + CountBytes(p));
    AtU16(buf, 2, p.header.flags, CountBytes(p));
    AtU16(buf, 4, |p.questions| % 0x1_0000, an);
    AtU16(buf, 6, |p.answers| % 0x1_0000, au + ad);
    AtU16(buf, 8, |p.authorities| % 0x1_0000, ad);
    U16At(buf, 10, |p.additionals| % 0x1_0000);
  }

  /**
    * The whole packet: decoding what was encoded gives the packet back exactly when none of its
    * names takes more jumps than the parser allows, and a pointer loop otherwise.
    */
  lemma PacketRoundTrip(p: DnsPacket)
    requires GoodPacket(p)
    ensures FromBytes(ToBytes(p)) == Within(PacketJumps(p), Counted(p))
    ensures Sound(ToBytes(p), EmitSections(p).offs, PacketReach(p).depths)
    ensures ShortNames(p) ==> PacketJumps(p) <= MAX_POINTER_JUMPS
  {
    hide GoodQuestions, GoodRecords, EmitSections, HeaderBytes, ParseHeader, FromBytes, PacketReach, ShortNames;
    var buf, sections := ToBytes(p), EmitSections(p).bytes;
    HeaderReads(p, sections);
    assert At(buf, 12, sections);
    SectionsRoundTrip(buf, p);
  }

  lemma SectionsRoundTrip(buf: seq<byte>, p: DnsPacket)
    requires GoodPacket(p) && |buf| >= 12 && ParseHeader(buf) == Counted(p).header
    requires At(buf, 12, EmitSections(p).bytes) && Sound(buf, map[], map[])
    ensures FromBytes(buf) == Within(PacketJumps(p), Counted(p))
    ensures Sound(buf, EmitSections(p).offs, PacketReach(p).depths)
    ensures ShortNames(p) ==> PacketJumps(p) <= MAX_POINTER_JUMPS
  {
    hide GoodRecords, GoodQuestions, At, Sound, EmitRecords, EmitQuestions, ParseRecords, ParseQuestions, ParseHeader;
    hide RecordsReach, QuestionsReach, ShortQuestions, ShortRecords;
    var qs, d1 := EmitQuestions(map[], 12, p.questions), QuestionsReach(map[], map[], 12, p.questions).depths;
    var p1 := 12 + |qs.bytes|;
    var an, d2 := EmitRecords(qs.offs, p1, p.answers), RecordsReach(qs.offs, d1, p1, p.answers).depths;
    var p2 := p1 + |an.bytes|;
    var au, d3 := EmitRecords(an.offs, p2, p.authorities), RecordsReach(an.offs, d2, p2, p.authorities).depths;
    var p3 := p2 + |au.bytes|;
    var ad := EmitRecords(au.offs, p3, p.additionals);
    AtSplit(buf, 12, qs.bytes, an.bytes + (au.bytes + ad.bytes));
    AtSplit(buf, p1, an.bytes, au.bytes + ad.bytes);
    AtSplit(buf, p2, au.bytes, ad.bytes);
    QuestionsRoundTrip(buf, map[], map[], 12, p.questions);
    RecordsRoundTrip(buf, qs.offs, d1, p1, p.answers);
    RecordsRoundTrip(buf, an.offs, d2, p2, p.authorities);
    RecordsRoundTrip(buf, au.offs, d3, p3, p.additionals);
  }
}
