/** The wire form of records and packets, and the functions that read it back. */
module Wire {
  import opened Bytes
  import opened Names
  import opened NameCodec
  import opened Records

  // ----- Character strings (TXT) -----

  function Chunks(text: Text): seq<byte> {
    if text == [] then []
    else
      var n := Min(255, |text|);
      [n] + text[..n] + Chunks(text[n..])
  }

  /** Text as length-prefixed strings of up to 255 bytes; one empty string for the empty text. */
  function CharacterStrings(text: Text): seq<byte> {
    if text == [] then [0] else Chunks(text)
  }

  function ParseCharacterStrings(data: seq<byte>): Result<Text>
    decreases |data|
  {
    if data == [] then Ok([])
    else if 1 + data[0] > |data| then Err(Truncated("TXT character-string"))
    else
      var rest :- ParseCharacterStrings(data[1 + data[0]..]);
      Ok(data[1..1 + data[0]] + rest)
  }

  lemma {:induction false} ChunksParse(text: Text)
    ensures ParseCharacterStrings(Chunks(text)) == Ok(text)
    decreases |text|
  {
    if text != [] {
      var n := Min(255, |text|);
      var rest := Chunks(text[n..]);
      var data := [n] + text[..n] + rest;
      ChunksParse(text[n..]);
      assert data[1..1 + n] == text[..n] && data[1 + n..] == rest;
      assert text[..n] + text[n..] == text;
    }
  }

  lemma CharacterStringsRoundTrip(text: Text)
    ensures ParseCharacterStrings(CharacterStrings(text)) == Ok(text)
  {
    if text == [] {
      var data: seq<byte>, empty: seq<byte> := [0], [];
      assert data[1..] == empty && data[1..1] + empty == empty;
      assert ParseCharacterStrings(empty) == Ok(empty);
    } else {
      ChunksParse(text);
    }
  }

  // ----- Writing records -----

  /** Rdata in the order it is written: plain bytes, compressed names, plain bytes. */
  datatype Body = Body(head: seq<byte>, names: seq<Text>, tail: seq<byte>)

  function SoaTimes(r: DnsRecord): seq<byte>
    requires r.SOA?
  {
    U32(r.serial) + (U32(r.refresh) + (U32(r.retry) + (U32(r.expire) + U32(r.minimum))))
  }

  function SrvFields(r: DnsRecord): (b: seq<byte>)
    requires r.SRV?
    ensures |b| == 6
  {
    U16(r.priority) + (U16(r.weight) + U16(r.port))
  }

  function RrsigFields(r: DnsRecord): (b: seq<byte>)
    requires r.RRSIG?
    ensures |b| == 18
  {
    U16(r.typeCovered) + ([r.algorithm, r.labels]
                          + (U32(r.originalTtl) + (U32(r.expiration) + (U32(r.inception) + U16(r.keyTag)))))
  }

  /** The first 255 bytes of a CAA tag. */
  function CutTag(tag: Text): (t: Text)
    ensures |t| <= 255
  {
    if |tag| <= 255 then tag else tag[..255]
  }

  function Layout(r: DnsRecord): Body {
    match r
    case A(_, addr, _) => Body(addr, [], [])
    case AAAA(_, addr, _) => Body(addr, [], [])
    case CNAME(_, alias, _) => Body([], [alias], [])
    case MX(_, preference, exchange, _) => Body(U16(preference), [exchange], [])
    case TXT(_, text, _) => Body(CharacterStrings(text), [], [])
    case NS(_, nameserver, _) => Body([], [nameserver], [])
    case SOA(_, mname, rname, _, _, _, _, _, _) => Body([], [mname, rname], SoaTimes(r))
    case SRV(_, _, _, _, target, _) => Body(SrvFields(r) + PlainName(Labels(target)), [], [])
    case PTR(_, ptrdname, _) => Body([], [ptrdname], [])
    case CAA(_, flags, tag, value, _) => Body([flags, |CutTag(tag)|] + (CutTag(tag) + value), [], [])
    case OPT(_) => Body([], [], [])
    case DNSKEY(_, flags, protocol, algorithm, key, _) => Body(U16(flags) + ([protocol, algorithm] + key), [], [])
    case RRSIG(_, _, _, _, _, _, _, _, signer, signature, _) =>
      Body(RrsigFields(r) + (PlainName(Labels(signer)) + signature), [], [])
    case DS(_, tag, algorithm, digestType, digest, _) => Body(U16(tag) + ([algorithm, digestType] + digest), [], [])
    case NSEC(_, next, bitmap, _) => Body(PlainName(Labels(next)) + bitmap, [], [])
  }

  function EmitNames(offs: Offsets, pos: nat, names: seq<Text>): Emit
    decreases |names|
  {
    if names == [] then Emit([], offs)
    else
      var first := EmitName(offs, pos, Labels(names[0]));
      var rest := EmitNames(first.offs, pos + |first.bytes|, names[1..]);
      Emit(first.bytes + rest.bytes, rest.offs)
  }

  lemma EmitOneName(offs: Offsets, pos: nat, name: Text)
    ensures EmitNames(offs, pos, [name]) == EmitName(offs, pos, Labels(name))
  {
    var first := EmitName(offs, pos, Labels(name));
    assert [name][1..] == [];
    assert EmitNames(first.offs, pos + |first.bytes|, []) == Emit([], first.offs);
    assert first.bytes + [] == first.bytes;
  }

  lemma EmitTwoNames(offs: Offsets, pos: nat, a: Text, b: Text)
    ensures var first := EmitName(offs, pos, Labels(a));
            var second := EmitName(first.offs, pos + |first.bytes|, Labels(b));
            EmitNames(offs, pos, [a, b]) == Emit(first.bytes + second.bytes, second.offs)
  {
    hide EmitName;
    var first := EmitName(offs, pos, Labels(a));
    assert [a, b][1..] == [b];
    EmitOneName(first.offs, pos + |first.bytes|, b);
  }

  function EmitBody(offs: Offsets, pos: nat, b: Body): Emit {
    var names := EmitNames(offs, pos + |b.head|, b.names);
    Emit(b.head + (names.bytes + b.tail), names.offs)
  }

  /** Type, class, TTL and the 16-bit rdata length. */
  function Fixed(r: DnsRecord, rdlength: nat): (b: seq<byte>)
    ensures |b| == 10
  {
    U16(RecordType(r)) + (U16(Class(r)) + (U32(Ttl(r)) + U16(rdlength % 0x1_0000)))
  }

  function EmitRecord(offs: Offsets, pos: nat, r: DnsRecord): Emit {
    var owner := EmitName(offs, pos, Labels(Owner(r)));
    var body := EmitBody(owner.offs, pos + |owner.bytes| + 10, Layout(r));
    Emit(owner.bytes + (Fixed(r, |body.bytes|) + body.bytes), body.offs)
  }

  /** After its owner a record has its type, the Internet class and its TTL; an OPT has its size for a class. */
  lemma RecordOnWire(buf: seq<byte>, offs: Offsets, pos: nat, r: DnsRecord)
    requires At(buf, pos, EmitRecord(offs, pos, r).bytes)
    ensures var at := pos + |EmitName(offs, pos, Labels(Owner(r))).bytes|;
            && at + 10 <= |buf| && ReadU16(buf, at) == RecordType(r)
            && ReadU16(buf, at + 2) == (if r.OPT? then r.udpSize else 1)
            && ReadU32(buf, at + 4) == (if r.OPT? then 0 else r.ttl)
  {
    hide EmitName, EmitBody, Layout, RecordType, U16, U32, At, ReadU16, ReadU32;
    var owner := EmitName(offs, pos, Labels(Owner(r)));
    var body := EmitBody(owner.offs, pos + |owner.bytes| + 10, Layout(r)).bytes;
    var at, len := pos + |owner.bytes|, U16(|body| % 0x1_0000);
    AtSplit(buf, pos, owner.bytes, Fixed(r, |body|) + body);
    AtSplit(buf, at, Fixed(r, |body|), body);
    AtSplit(buf, at, U16(RecordType(r)), U16(Class(r)) + (U32(Ttl(r)) + len));
    AtSplit(buf, at + 2, U16(Class(r)), U32(Ttl(r)) + len);
    AtSplit(buf, at + 4, U32(Ttl(r)), len);
    AtFits(buf, at + 8, len);
    U16At(buf, at, RecordType(r));
    U16At(buf, at + 2, Class(r));
    U32At(buf, at + 4, Ttl(r));
  }

  lemma AtFits(buf: seq<byte>, pos: nat, s: seq<byte>)
    requires At(buf, pos, s)
    ensures pos + |s| <= |buf|
  {}

  function EmitRecords(offs: Offsets, pos: nat, rs: seq<DnsRecord>): Emit
    decreases |rs|
  {
    if rs == [] then Emit([], offs)
    else
      var first := EmitRecord(offs, pos, rs[0]);
      var rest := EmitRecords(first.offs, pos + |first.bytes|, rs[1..]);
      Emit(first.bytes + rest.bytes, rest.offs)
  }

  function EmitQuestion(offs: Offsets, pos: nat, q: DnsQuestion): Emit {
    var name := EmitName(offs, pos, Labels(q.qname));
    Emit(name.bytes + (U16(q.qtype) + U16(q.qclass)), name.offs)
  }

  function EmitQuestions(offs: Offsets, pos: nat, qs: seq<DnsQuestion>): Emit
    decreases |qs|
  {
    if qs == [] then Emit([], offs)
    else
      var first := EmitQuestion(offs, pos, qs[0]);
      var rest := EmitQuestions(first.offs, pos + |first.bytes|, qs[1..]);
      Emit(first.bytes + rest.bytes, rest.offs)
  }

  /** The twelve header bytes; the counts are the list lengths, not the header's own. */
  function HeaderBytes(p: DnsPacket): (b: seq<byte>)
    ensures |b| == 12
  {
    U16(p.header.id) + (U16(p.header.flags) + CountBytes(p))
  }

  function CountBytes(p: DnsPacket): (b: seq<byte>)
    ensures |b| == 8
  {
    U16(|p.questions| % 0x1_0000) + (U16(|p.answers| % 0x1_0000)
                                     + (U16(|p.authorities| % 0x1_0000) + U16(|p.additionals| % 0x1_0000)))
  }

  /** Everything after the header. */
  function EmitSections(p: DnsPacket): Emit {
    var qs := EmitQuestions(map[], 12, p.questions);
    var an := EmitRecords(qs.offs, 12 + |qs.bytes|, p.answers);
    var au := EmitRecords(an.offs, 12 + |qs.bytes| + |an.bytes|, p.authorities);
    var ad := EmitRecords(au.offs, 12 + |qs.bytes| + |an.bytes| + |au.bytes|, p.additionals);
    Emit(qs.bytes + (an.bytes + (au.bytes + ad.bytes)), ad.offs)
  }

  function ToBytes(p: DnsPacket): seq<byte> {
    HeaderBytes(p) + EmitSections(p).bytes
  }

  /** The header of a message is its first four bytes. */
  lemma HeaderOnWire(p: DnsPacket)
    ensures var b := ToBytes(p);
            |b| >= 12 && ReadU16(b, 0) == p.header.id && ReadU16(b, 2) == p.header.flags
  {
    var b := ToBytes(p);
    hide ToBytes, EmitSections;
    HeaderIsPrefix(p);
    AtSplit(b, 0, U16(p.header.id), U16(p.header.flags) + CountBytes(p));
    AtSplit(b, 2, U16(p.header.flags), CountBytes(p));
    U16At(b, 0, p.header.id);
    U16At(b, 2, p.header.flags);
  }

  lemma HeaderIsPrefix(p: DnsPacket)
    ensures At(ToBytes(p), 0, HeaderBytes(p))
  {
    hide HeaderBytes, EmitSections;
  }

  // ----- Reading records -----

  function ParseMx(buf: seq<byte>, start: nat, len: nat, domain: Text, ttl: u32): Result<DnsRecord>
    requires start + len <= |buf|
  {
    if len < 3 then Err(InvalidRdata(TYPE_MX))
    else
      var (exchange, _) :- ParseName(buf, start + 2);
      Ok(MX(domain, ReadU16(buf, start), exchange, ttl))
  }

  function ParseSoa(buf: seq<byte>, start: nat, domain: Text, ttl: u32): Result<DnsRecord> {
    var (mname, afterMname) :- ParseName(buf, start);
    var (rname, at) :- ParseName(buf, afterMname);
    if at + 20 > |buf| then Err(Truncated("SOA record"))
    else Ok(SOA(domain, mname, rname, ReadU32(buf, at), ReadU32(buf, at + 4), ReadU32(buf, at + 8),
                ReadU32(buf, at + 12), ReadU32(buf, at + 16), ttl))
  }

  function ParseSrv(buf: seq<byte>, start: nat, len: nat, domain: Text, ttl: u32): Result<DnsRecord>
    requires start + len <= |buf|
  {
    if len < 6 then Err(InvalidRdata(TYPE_SRV))
    else
      var (target, _) :- ParseName(buf, start + 6);
      Ok(SRV(domain, ReadU16(buf, start), ReadU16(buf, start + 2), ReadU16(buf, start + 4), target, ttl))
  }

  function ParseCaa(buf: seq<byte>, start: nat, len: nat, domain: Text, ttl: u32): Result<DnsRecord>
    requires start + len <= |buf|
  {
    if len < 2 || 2 + buf[start + 1] > len then Err(InvalidRdata(TYPE_CAA))
    else
      var valueAt := start + 2 + buf[start + 1];
      Ok(CAA(domain, buf[start], buf[start + 2..valueAt], buf[valueAt..start + len], ttl))
  }

  function ParseRrsig(buf: seq<byte>, start: nat, len: nat, domain: Text, ttl: u32): Result<DnsRecord>
    requires start + len <= |buf|
  {
    if len < 18 then Err(InvalidRdata(TYPE_RRSIG))
    else
      var (signer, after) :- ParseName(buf, start + 18);
      if after > start + len then Err(RdataOverrun)
      else Ok(RRSIG(domain, ReadU16(buf, start), buf[start + 2], buf[start + 3], ReadU32(buf, start + 4),
                    ReadU32(buf, start + 8), ReadU32(buf, start + 12), ReadU16(buf, start + 16), signer,
                    buf[after..start + len], ttl))
  }

  function ParseNsec(buf: seq<byte>, start: nat, len: nat, domain: Text, ttl: u32): Result<DnsRecord>
    requires start + len <= |buf|
  {
    var (next, after) :- ParseName(buf, start);
    if after > start + len then Err(RdataOverrun)
    else Ok(NSEC(domain, next, buf[after..start + len], ttl))
  }

  /** The records whose rdata holds no name. */
  function ParseNameless(buf: seq<byte>, start: nat, len: nat, rtype: u16, rclass: u16, domain: Text,
                         ttl: u32): Result<Option<DnsRecord>>
    requires start + len <= |buf|
  {
    var data := buf[start..start + len];
    if rtype == TYPE_A then
      if len != 4 then Err(InvalidRdata(TYPE_A)) else Ok(Some(A(domain, data, ttl)))
    else if rtype == TYPE_AAAA then
      if len != 16 then Err(InvalidRdata(TYPE_AAAA)) else Ok(Some(AAAA(domain, data, ttl)))
    else if rtype == TYPE_TXT then
      var text :- ParseCharacterStrings(data);
      Ok(Some(TXT(domain, text, ttl)))
    else if rtype == TYPE_CAA then
      var r :- ParseCaa(buf, start, len, domain, ttl);
      Ok(Some(r))
    else if rtype == TYPE_OPT then Ok(Some(OPT(rclass)))
    else if rtype == TYPE_DNSKEY then
      if len < 4 then Err(InvalidRdata(TYPE_DNSKEY))
      else Ok(Some(DNSKEY(domain, ReadU16(buf, start), data[2], data[3], data[4..], ttl)))
    else if rtype == TYPE_DS then
      if len < 4 then Err(InvalidRdata(TYPE_DS))
      else Ok(Some(DS(domain, ReadU16(buf, start), data[2], data[3], data[4..], ttl)))
    else Ok(None)
  }

  /** The rdata of one record; types outside the model give `None`. */
  function ParseRdata(buf: seq<byte>, start: nat, len: nat, rtype: u16, rclass: u16, domain: Text,
                      ttl: u32): Result<Option<DnsRecord>>
    requires start + len <= |buf|
  {
    if rtype == TYPE_CNAME then
      var (alias, _) :- ParseName(buf, start);
      Ok(Some(CNAME(domain, alias, ttl)))
    else if rtype == TYPE_NS then
      var (nameserver, _) :- ParseName(buf, start);
      Ok(Some(NS(domain, nameserver, ttl)))
    else if rtype == TYPE_PTR then
      var (ptrdname, _) :- ParseName(buf, start);
      Ok(Some(PTR(domain, ptrdname, ttl)))
    else if rtype == TYPE_MX then
      var r :- ParseMx(buf, start, len, domain, ttl);
      Ok(Some(r))
    else if rtype == TYPE_SOA then
      var r :- ParseSoa(buf, start, domain, ttl);
      Ok(Some(r))
    else if rtype == TYPE_SRV then
      var r :- ParseSrv(buf, start, len, domain, ttl);
      Ok(Some(r))
    else if rtype == TYPE_RRSIG then
      var r :- ParseRrsig(buf, start, len, domain, ttl);
      Ok(Some(r))
    else if rtype == TYPE_NSEC then
      var r :- ParseNsec(buf, start, len, domain, ttl);
      Ok(Some(r))
    else ParseNameless(buf, start, len, rtype, rclass, domain, ttl)
  }

  function ParseRecord(buf: seq<byte>, offset: nat): (r: Result<(Option<DnsRecord>, nat)>)
    ensures r.Ok? ==> offset + 11 <= r.value.1 <= |buf|
  {
    var (domain, at) :- ParseName(buf, offset);
    if at + 10 > |buf| then Err(Truncated("record header"))
    else
      var len := ReadU16(buf, at + 8);
      if at + 10 + len > |buf| then Err(Truncated("record data"))
      else
        var rtype, rclass, ttl := ReadU16(buf, at), ReadU16(buf, at + 2), ReadU32(buf, at + 4);
        var record :- ParseRdata(buf, at + 10, len, rtype, rclass, domain, ttl);
        Ok((record, at + 10 + len))
  }

  function Keep(r: Option<DnsRecord>): seq<DnsRecord> {
    match r case None => [] case Some(x) => [x]
  }

  /** Reads `count` records, dropping those of types outside the model. */
  function ParseRecords(buf: seq<byte>, offset: nat, count: nat): (r: Result<(seq<DnsRecord>, nat)>)
    ensures r.Ok? ==> offset + 11 * count <= r.value.1 && (count > 0 ==> r.value.1 <= |buf|)
    ensures r.Ok? && count == 0 ==> r.value.1 == offset
    decreases count
  {
    if count == 0 then Ok(([], offset))
    else
      var (first, next) :- ParseRecord(buf, offset);
      var (rest, end) :- ParseRecords(buf, next, count - 1);
      Ok((Keep(first) + rest, end))
  }

  function ParseQuestion(buf: seq<byte>, offset: nat): (r: Result<(DnsQuestion, nat)>)
    ensures r.Ok? ==> offset + 5 <= r.value.1 <= |buf|
  {
    var (qname, at) :- ParseName(buf, offset);
    if at + 4 > |buf| then Err(Truncated("question"))
    else Ok((DnsQuestion(qname, ReadU16(buf, at), ReadU16(buf, at + 2)), at + 4))
  }

  function ParseQuestions(buf: seq<byte>, offset: nat, count: nat): (r: Result<(seq<DnsQuestion>, nat)>)
    ensures r.Ok? ==> offset + 5 * count <= r.value.1 && (count > 0 ==> r.value.1 <= |buf|)
    ensures r.Ok? && count == 0 ==> r.value.1 == offset
    ensures r.Ok? ==> |r.value.0| == count
    decreases count
  {
    if count == 0 then Ok(([], offset))
    else
      var (first, next) :- ParseQuestion(buf, offset);
      var (rest, end) :- ParseQuestions(buf, next, count - 1);
      Ok(([first] + rest, end))
  }

  function ParseHeader(buf: seq<byte>): DnsHeader
    requires |buf| >= 12
  {
    DnsHeader(ReadU16(buf, 0), ReadU16(buf, 2), ReadU16(buf, 4), ReadU16(buf, 6), ReadU16(buf, 8), ReadU16(buf, 10))
  }

  /** A parsed packet accounts for its whole length: every question takes 5 bytes, every record 11. */
  function FromBytes(buf: seq<byte>): (r: Result<DnsPacket>)
    ensures r.Ok? ==>
              var h := r.value.header;
              12 + 5 * h.questions + 11 * (h.answers + h.authorities + h.additionals) <= |buf|
  {
    if |buf| < 12 then Err(Truncated("header"))
    else
      var h := ParseHeader(buf);
      var (questions, p1) :- ParseQuestions(buf, 12, h.questions);
      var (answers, p2) :- ParseRecords(buf, p1, h.answers);
      var (authorities, p3) :- ParseRecords(buf, p2, h.authorities);
      var (additionals, _) :- ParseRecords(buf, p3, h.additionals);
      Ok(DnsPacket(h, questions, answers, authorities, additionals))
  }
}
