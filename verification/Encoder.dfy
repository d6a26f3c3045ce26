/** The packet encoder: a growing buffer, a name table, and backfilled rdata lengths. */
module Encoder {
  import opened Bytes
  import opened Names
  import opened NameCodec
  import opened Records
  import opened Wire
  import opened RoundTrip

  /** Whatever two bytes stand in front of the rdata, the names written after them decode. */
  lemma BackfillKeepsOffsets(pre: seq<byte>, length: seq<byte>, offs: Offsets, r: DnsRecord)
    requires |pre| >= 12 && |length| == 2 && OffsetsDecode(pre, offs) && GoodRecord(r)
    ensures var e := EmitBody(offs, |pre| + 2, Layout(r));
            OffsetsDecode(pre + length + e.bytes, e.offs)
  {
    hide Sound, GoodRecord, EmitBody, ParseRdata, BodyReach;
    var e := EmitBody(offs, |pre| + 2, Layout(r));
    var buf := pre + length + e.bytes;
    var depths :| Sound(pre, offs, depths);
    AppendKeepsSound(pre, length, offs, depths);
    AppendKeepsSound(pre + length, e.bytes, offs, depths);
    AtEnd(pre + length, e.bytes);
    RdataRoundTrip(buf, offs, depths, |pre| + 2, r);
  }

  lemma Assoc(a: seq<byte>, b: seq<byte>, c: seq<byte>)
    ensures a + b + c == a + (b + c)
  {}

  /** Regroups a record: its header fields and rdata length, then its rdata. */
  lemma RecordAssoc(pre: seq<byte>, name: seq<byte>, t: seq<byte>, c: seq<byte>, ttl: seq<byte>, n: seq<byte>,
                    body: seq<byte>)
    ensures pre + (name + (t + (c + ttl))) + n + body == pre + (name + ((t + (c + (ttl + n))) + body))
  {}

  lemma SectionsAssoc(h: seq<byte>, a: seq<byte>, b: seq<byte>, c: seq<byte>, d: seq<byte>)
    ensures h + a + b + c + d == h + (a + (b + (c + d)))
  {}

  lemma OneNameBytes(offs: Offsets, pos: nat, head: seq<byte>, name: Text)
    ensures var e := EmitName(offs, pos + |head|, Labels(name));
            && EmitBody(offs, pos, Body(head, [name], [])) == Emit(head + e.bytes, e.offs)
            && (head == [] ==> head + e.bytes == e.bytes)
  {
    hide EmitName, EmitNames;
    var e := EmitName(offs, pos + |head|, Labels(name));
    EmitOneName(offs, pos + |head|, name);
    assert e.bytes + [] == e.bytes;
  }

  lemma ChunksStep(text: Text, i: nat, n: nat)
    requires i < |text| && n == Min(255, |text| - i)
    ensures Chunks(text[i..]) == [n] + text[i..i + n] + Chunks(text[i + n..])
  {
    assert text[i..][..n] == text[i..i + n] && text[i..][n..] == text[i + n..];
  }

  lemma EmitNameStep(offs: Offsets, pos: nat, labels: seq<Label>, i: nat)
    requires i < |labels| && Join(labels[i..]) !in offs
    ensures var offs' := if pos <= 0x3FFF then offs[Join(labels[i..]) := pos] else offs;
            var rest := EmitName(offs', pos + |LabelBytes(labels[i])|, labels[i + 1..]);
            EmitName(offs, pos, labels[i..]) == Emit(LabelBytes(labels[i]) + rest.bytes, rest.offs)
  {
    hide LabelBytes, Join;
    assert labels[i..][1..] == labels[i + 1..];
  }

  lemma AtEnd(pre: seq<byte>, s: seq<byte>)
    ensures At(pre + s, |pre|, s)
  {}

  /** Appending bytes to the buffer keeps the invariant. */
  lemma AppendKeepsOffsets(buf: seq<byte>, more: seq<byte>, offs: Offsets)
    requires OffsetsDecode(buf, offs)
    ensures OffsetsDecode(buf + more, offs)
  {
    hide Sound;
    var depths :| Sound(buf, offs, depths);
    AppendKeepsSound(buf, more, offs, depths);
  }

  lemma EmptyTableDecodes(buf: seq<byte>)
    ensures OffsetsDecode(buf, map[])
  {
    assert Sound(buf, map[], map[]);
  }

  lemma NameKeepsOffsets(pre: seq<byte>, offs: Offsets, name: Text)
    requires |pre| >= 12 && OffsetsDecode(pre, offs) && GoodName(name)
    ensures var e := EmitName(offs, |pre|, Labels(name));
            OffsetsDecode(pre + e.bytes, e.offs)
  {
    hide Sound, GoodName, EmitName, ParseName, NameReach;
    var e := EmitName(offs, |pre|, Labels(name));
    var depths :| Sound(pre, offs, depths);
    AppendKeepsSound(pre, e.bytes, offs, depths);
    AtEnd(pre, e.bytes);
    NameRoundTrip(pre + e.bytes, offs, depths, |pre|, name);
  }

  lemma RecordKeepsOffsets(pre: seq<byte>, offs: Offsets, r: DnsRecord)
    requires |pre| >= 12 && OffsetsDecode(pre, offs) && GoodRecord(r)
    ensures var e := EmitRecord(offs, |pre|, r);
            OffsetsDecode(pre + e.bytes, e.offs)
  {
    hide Sound, GoodRecord, EmitRecord, ParseRecord, RecordReach;
    var e := EmitRecord(offs, |pre|, r);
    var depths :| Sound(pre, offs, depths);
    AppendKeepsSound(pre, e.bytes, offs, depths);
    AtEnd(pre, e.bytes);
    RecordRoundTrip(pre + e.bytes, offs, depths, |pre|, r);
  }

  lemma OptRecordBytes(offs: Offsets, pos: nat, udpSize: u16)
    ensures EmitRecord(offs, pos, OPT(udpSize)) ==
            Emit([0] + ((U16(TYPE_OPT) + (U16(udpSize) + (U32(0) + U16(0)))) + []), offs)
  {
    FlatBytes(offs, pos + 11, Layout(OPT(udpSize)));
  }

  class DnsPacketEncoder {
    var buf: seq<byte>
    var nameOffsets: Offsets

    constructor ()
      ensures buf == [] && nameOffsets == map[]
    {
      buf, nameOffsets := [], map[];
    }

    /** Past the header, every remembered suffix decodes from the buffer as it stands. */
    ghost predicate Valid()
      reads this
    {
      |buf| >= 12 && OffsetsDecode(buf, nameOffsets)
    }

    method EncodeQname(qname: Text)
      modifies this
      ensures var e := EmitName(old(nameOffsets), |old(buf)|, Labels(qname));
              buf == old(buf) + e.bytes && nameOffsets == e.offs
      ensures old(Valid()) && GoodName(qname) ==> Valid()
    {
      ghost var start, offs := buf, nameOffsets;
      ghost var whole := EmitName(offs, |buf|, Labels(qname));
      if old(Valid()) && GoodName(qname) {
        NameKeepsOffsets(start, offs, qname);
      }
      if qname == [] {
        buf := buf + [0];
        return;
      }
      EncodeLabels(Split(qname));
    }

    method EncodeLabels(labels: seq<Label>)
      modifies this
      ensures var e := EmitName(old(nameOffsets), |old(buf)|, labels);
              buf == old(buf) + e.bytes && nameOffsets == e.offs
    {
      ghost var start, whole := buf, EmitName(nameOffsets, |buf|, labels);
      for i := 0 to |labels|
        invariant start + whole.bytes == buf + EmitName(nameOffsets, |buf|, labels[i..]).bytes
        invariant whole.offs == EmitName(nameOffsets, |buf|, labels[i..]).offs
      {
        hide Join, LabelBytes;
        var suffix := Join(labels[i..]);
        if suffix in nameOffsets {
          buf := buf + PointerBytes(nameOffsets[suffix]);
          return;
        }
        EmitNameStep(nameOffsets, |buf|, labels, i);
        ghost var before := buf;
        if |buf| <= 0x3FFF {
          nameOffsets := nameOffsets[suffix := |buf|];
        }
        buf := buf + LabelBytes(labels[i]);
        Assoc(before, LabelBytes(labels[i]), EmitName(nameOffsets, |buf|, labels[i + 1..]).bytes);
      }
      assert labels[|labels|..] == [];
      buf := buf + [0];
    }

    method EncodeNameUncompressed(name: Text)
      modifies this`buf
      ensures buf == old(buf) + PlainName(Labels(name))
    {
      if name == [] {
        buf := buf + [0];
        return;
      }
      var labels := Split(name);
      for i := 0 to |labels|
        invariant old(buf) + PlainName(labels) == buf + PlainName(labels[i..])
      {
        ghost var before := buf;
        buf := buf + LabelBytes(labels[i]);
        assert labels[i..][1..] == labels[i + 1..];
        assert before + PlainName(labels[i..]) == buf + PlainName(labels[i + 1..]);
      }
      buf := buf + [0];
    }

    method EncodeCharacterStrings(text: Text)
      modifies this`buf
      ensures buf == old(buf) + CharacterStrings(text)
    {
      if text == [] {
        buf := buf + [0];
        return;
      }
      var i := 0;
      while i < |text|
        invariant 0 <= i <= |text|
        invariant old(buf) + Chunks(text) == buf + Chunks(text[i..])
      {
        hide Chunks;
        var n := Min(255, |text| - i);
        ChunksStep(text, i, n);
        ghost var before := buf;
        buf := buf + ([n] + text[i..i + n]);
        Assoc(before, [n] + text[i..i + n], Chunks(text[i + n..]));
        i := i + n;
      }
      assert text[i..] == [];
    }

    method EncodeRecordHeader(domain: Text, rtype: u16, ttl: u32)
      modifies this
      ensures var e := EmitName(old(nameOffsets), |old(buf)|, Labels(domain));
              && buf == old(buf) + (e.bytes + (U16(rtype) + (U16(1) + U32(ttl))))
              && nameOffsets == e.offs
      ensures old(Valid()) && GoodName(domain) ==> Valid()
    {
      hide EmitName, GoodName, OffsetsDecode, U16, U32;
      EncodeQname(domain);
      ghost var named := buf;
      buf := buf + U16(rtype);
      buf := buf + U16(1);
      buf := buf + U32(ttl);
      Assoc(named, U16(rtype), U16(1));
      Assoc(named, U16(rtype) + U16(1), U32(ttl));
      Assoc(U16(rtype), U16(1), U32(ttl));
      Assoc(old(buf), EmitName(old(nameOffsets), |old(buf)|, Labels(domain)).bytes, U16(rtype) + (U16(1) + U32(ttl)));
      if old(Valid()) && GoodName(domain) {
        AppendKeepsOffsets(named, U16(rtype) + (U16(1) + U32(ttl)), nameOffsets);
      }
    }

    /** Writes the body behind two placeholder bytes and then overwrites them with its length. */
    method EncodeRdata(r: DnsRecord)
      requires !r.A? && !r.AAAA? && !r.OPT?
      modifies this
      ensures var e := EmitBody(old(nameOffsets), |old(buf)| + 2, Layout(r));
              && buf == old(buf) + U16(|e.bytes| % 0x1_0000) + e.bytes
              && nameOffsets == e.offs
      ensures old(Valid()) && GoodRecord(r) ==> Valid()
    {
      hide EmitBody, Layout, GoodRecord, OffsetsDecode, U16;
      ghost var start, offs := buf, nameOffsets;
      var lenPos := |buf|;
      buf := buf + U16(0);
      var rdataStart := |buf|;
      WriteBody(r);
      ghost var body := EmitBody(offs, |start| + 2, Layout(r)).bytes;
      var rdlength := (|buf| - rdataStart) % 0x1_0000;
      buf := buf[..lenPos] + U16(rdlength) + buf[lenPos + 2..];
      assert buf == start + U16(rdlength) + body;
      if old(Valid()) && GoodRecord(r) {
        BackfillKeepsOffsets(start, U16(rdlength), offs, r);
      }
    }

    method WriteBody(r: DnsRecord)
      requires !r.A? && !r.AAAA? && !r.OPT?
      modifies this
      ensures var e := EmitBody(old(nameOffsets), |old(buf)|, Layout(r));
              buf == old(buf) + e.bytes && nameOffsets == e.offs
    {
      if |Layout(r).names| > 0 {
        WriteNamedBody(r);
      } else {
        WriteFlatBody(r);
        FlatBytes(nameOffsets, |old(buf)|, Layout(r));
      }
    }

    method WriteNamedBody(r: DnsRecord)
      requires |Layout(r).names| > 0
      modifies this
      ensures var e := EmitBody(old(nameOffsets), |old(buf)|, Layout(r));
              buf == old(buf) + e.bytes && nameOffsets == e.offs
    {
      hide EmitName, EmitBody, U16;
      ghost var offs := nameOffsets;
      match r
      case CNAME(_, alias, _) =>
        EncodeQname(alias);
        OneNameBytes(offs, |old(buf)|, [], alias);
      case MX(_, preference, exchange, _) =>
        buf := buf + U16(preference);
        EncodeQname(exchange);
        OneNameBytes(offs, |old(buf)|, U16(preference), exchange);
      case NS(_, nameserver, _) =>
        EncodeQname(nameserver);
        OneNameBytes(offs, |old(buf)|, [], nameserver);
      case PTR(_, ptrdname, _) =>
        EncodeQname(ptrdname);
        OneNameBytes(offs, |old(buf)|, [], ptrdname);
      case SOA(_, _, _, _, _, _, _, _, _) =>
        WriteSoaBody(r);
    }

    method WriteSoaBody(r: DnsRecord)
      requires r.SOA?
      modifies this
      ensures var e := EmitBody(old(nameOffsets), |old(buf)|, Layout(r));
              buf == old(buf) + e.bytes && nameOffsets == e.offs
    {
      hide EmitName, EmitBody, SoaTimes, OffsetsDecode, GoodName;
      SoaBytes(nameOffsets, |buf|, r);
      ghost var m := EmitName(nameOffsets, |buf|, Labels(r.mname)).bytes;
      EncodeQname(r.mname);
      ghost var n := EmitName(nameOffsets, |buf|, Labels(r.rname)).bytes;
      EncodeQname(r.rname);
      WriteSoaTimes(r);
      Assoc(old(buf) + m, n, SoaTimes(r));
      Assoc(old(buf), m, n + SoaTimes(r));
    }

    method WriteSoaTimes(r: DnsRecord)
      requires r.SOA?
      modifies this`buf
      ensures buf == old(buf) + SoaTimes(r)
    {
      hide U32;
      buf := buf + U32(r.serial);
      buf := buf + U32(r.refresh);
      ghost var first := buf;
      buf := buf + U32(r.retry);
      buf := buf + U32(r.expire);
      buf := buf + U32(r.minimum);
      assert buf == first + (U32(r.retry) + (U32(r.expire) + U32(r.minimum)));
    }

    method WriteFlatBody(r: DnsRecord)
      requires !r.A? && !r.AAAA? && !r.OPT? && |Layout(r).names| == 0
      modifies this`buf
      ensures buf == old(buf) + Layout(r).head
    {
      hide PlainName, CharacterStrings, U16, U32;
      match r
      case TXT(_, text, _) =>
        EncodeCharacterStrings(text);
      case SRV(_, priority, weight, port, target, _) =>
        buf := buf + U16(priority);
        buf := buf + U16(weight);
        buf := buf + U16(port);
        assert buf == old(buf) + SrvFields(r);
        EncodeNameUncompressed(target);
      case CAA(_, flags, tag, value, _) =>
        buf := buf + [flags];
        var tagLen := Min(|tag|, 255);
        buf := buf + [tagLen];
        buf := buf + tag[..tagLen];
        buf := buf + value;
      case DNSKEY(_, flags, protocol, algorithm, key, _) =>
        WriteKeyBody(flags, protocol, algorithm, key);
      case RRSIG(_, _, _, _, _, _, _, _, signer, signature, _) =>
        WriteRrsigFields(r);
        EncodeNameUncompressed(signer);
        buf := buf + signature;
      case DS(_, keyTag, algorithm, digestType, digest, _) =>
        WriteKeyBody(keyTag, algorithm, digestType, digest);
      case NSEC(_, next, bitmap, _) =>
        EncodeNameUncompressed(next);
        buf := buf + bitmap;
    }

    method WriteKeyBody(x: u16, a: byte, b: byte, rest: seq<byte>)
      modifies this`buf
      ensures buf == old(buf) + (U16(x) + ([a, b] + rest))
    {
      hide U16;
      buf := buf + U16(x);
      buf := buf + [a];
      buf := buf + [b];
      buf := buf + rest;
    }

    method WriteRrsigFields(r: DnsRecord)
      requires r.RRSIG?
      modifies this`buf
      ensures buf == old(buf) + RrsigFields(r)
    {
      hide U16, U32;
      buf := buf + U16(r.typeCovered);
      buf := buf + [r.algorithm];
      buf := buf + [r.labels];
      ghost var first := buf;
      assert first == old(buf) + (U16(r.typeCovered) + [r.algorithm, r.labels]);
      buf := buf + U32(r.originalTtl);
      buf := buf + U32(r.expiration);
      buf := buf + U32(r.inception);
      buf := buf + U16(r.keyTag);
      assert buf == first + (U32(r.originalTtl) + (U32(r.expiration) + (U32(r.inception) + U16(r.keyTag))));
    }

    method EncodeRecord(r: DnsRecord)
      modifies this
      ensures var e := EmitRecord(old(nameOffsets), |old(buf)|, r);
              buf == old(buf) + e.bytes && nameOffsets == e.offs
      ensures old(Valid()) && GoodRecord(r) ==> Valid()
    {
      ghost var start, offs := buf, nameOffsets;
      if old(Valid()) && GoodRecord(r) {
        RecordKeepsOffsets(start, offs, r);
      }
      if r.OPT? {
        EncodeOpt(r.udpSize);
      } else {
        EncodeOwnedRecord(r);
      }
    }

    method EncodeOpt(udpSize: u16)
      modifies this`buf
      ensures var e := EmitRecord(nameOffsets, |old(buf)|, OPT(udpSize));
              buf == old(buf) + e.bytes && nameOffsets == e.offs
    {
      hide U16, U32, EmitRecord;
      OptRecordBytes(nameOffsets, |buf|, udpSize);
      buf := buf + [0];
      buf := buf + U16(TYPE_OPT);
      buf := buf + U16(udpSize);
      buf := buf + U32(0);
      buf := buf + U16(0);
      RecordAssoc(old(buf), [0], U16(TYPE_OPT), U16(udpSize), U32(0), U16(0), []);
    }

    method EncodeOwnedRecord(r: DnsRecord)
      requires !r.OPT?
      modifies this
      ensures var e := EmitRecord(old(nameOffsets), |old(buf)|, r);
              buf == old(buf) + e.bytes && nameOffsets == e.offs
    {
      hide EmitName, EmitBody, Layout, U16, U32, RecordType;
      ghost var name := EmitName(nameOffsets, |buf|, Labels(r.domain)).bytes;
      EncodeRecordHeader(r.domain, RecordType(r), r.ttl);
      ghost var body := EmitBody(nameOffsets, |buf| + 2, Layout(r)).bytes;
      EncodeLengthAndBody(r);
      RecordAssoc(old(buf), name, U16(RecordType(r)), U16(1), U32(r.ttl), U16(|body| % 0x1_0000), body);
    }

    /** Addresses have a fixed length; all other rdata is measured after it is written. */
    method EncodeLengthAndBody(r: DnsRecord)
      requires !r.OPT?
      modifies this
      ensures var e := EmitBody(old(nameOffsets), |old(buf)| + 2, Layout(r));
              && buf == old(buf) + U16(|e.bytes| % 0x1_0000) + e.bytes
              && nameOffsets == e.offs
    {
      hide EmitBody, U16;
      ghost var offs, at := nameOffsets, |buf|;
      if r.A? {
        buf := buf + U16(4);
        buf := buf + r.addr;
        FlatBytes(offs, at + 2, Layout(r));
      } else if r.AAAA? {
        buf := buf + U16(16);
        buf := buf + r.addr6;
        FlatBytes(offs, at + 2, Layout(r));
      } else {
        EncodeRdata(r);
      }
    }

    method EncodeQuestion(q: DnsQuestion)
      modifies this
      ensures var e := EmitQuestion(old(nameOffsets), |old(buf)|, q);
              buf == old(buf) + e.bytes && nameOffsets == e.offs
      ensures old(Valid()) && GoodName(q.qname) ==> Valid()
    {
      EncodeQname(q.qname);
      ghost var named := buf;
      buf := buf + U16(q.qtype);
      buf := buf + U16(q.qclass);
      assert buf == named + (U16(q.qtype) + U16(q.qclass));
      if old(Valid()) && GoodName(q.qname) {
        AppendKeepsOffsets(named, U16(q.qtype) + U16(q.qclass), nameOffsets);
      }
    }

    method EncodeQuestions(qs: seq<DnsQuestion>)
      modifies this
      ensures var e := EmitQuestions(old(nameOffsets), |old(buf)|, qs);
              buf == old(buf) + e.bytes && nameOffsets == e.offs
      ensures old(Valid()) && GoodQuestions(qs) ==> Valid()
    {
      hide EmitQuestion, OffsetsDecode, GoodName;
      ghost var start, whole := buf, EmitQuestions(nameOffsets, |buf|, qs);
      for i := 0 to |qs|
        invariant start + whole.bytes == buf + EmitQuestions(nameOffsets, |buf|, qs[i..]).bytes
        invariant whole.offs == EmitQuestions(nameOffsets, |buf|, qs[i..]).offs
        invariant old(Valid()) && GoodQuestions(qs) ==> Valid()
      {
        ghost var before, rest := buf, EmitQuestions(nameOffsets, |buf|, qs[i..]);
        EncodeQuestion(qs[i]);
        assert qs[i..][1..] == qs[i + 1..];
        assert before + rest.bytes == buf + EmitQuestions(nameOffsets, |buf|, qs[i + 1..]).bytes;
      }
      assert qs[|qs|..] == [];
    }

    method EncodeRecords(rs: seq<DnsRecord>)
      modifies this
      ensures var e := EmitRecords(old(nameOffsets), |old(buf)|, rs);
              buf == old(buf) + e.bytes && nameOffsets == e.offs
      ensures old(Valid()) && GoodRecords(rs) ==> Valid()
    {
      hide EmitRecord, OffsetsDecode, GoodRecord;
      ghost var start, whole := buf, EmitRecords(nameOffsets, |buf|, rs);
      for i := 0 to |rs|
        invariant start + whole.bytes == buf + EmitRecords(nameOffsets, |buf|, rs[i..]).bytes
        invariant whole.offs == EmitRecords(nameOffsets, |buf|, rs[i..]).offs
        invariant old(Valid()) && GoodRecords(rs) ==> Valid()
      {
        ghost var before, rest := buf, EmitRecords(nameOffsets, |buf|, rs[i..]);
        EncodeRecord(rs[i]);
        assert rs[i..][1..] == rs[i + 1..];
        assert before + rest.bytes == buf + EmitRecords(nameOffsets, |buf|, rs[i + 1..]).bytes;
      }
      assert rs[|rs|..] == [];
    }

    method EncodeHeader(p: DnsPacket)
      modifies this`buf
      ensures buf == old(buf) + HeaderBytes(p)
    {
      hide U16;
      buf := buf + U16(p.header.id);
      buf := buf + U16(p.header.flags);
      ghost var first := buf;
      assert first == old(buf) + (U16(p.header.id) + U16(p.header.flags));
      buf := buf + U16(|p.questions| % 0x1_0000);
      buf := buf + U16(|p.answers| % 0x1_0000);
      buf := buf + U16(|p.authorities| % 0x1_0000);
      buf := buf + U16(|p.additionals| % 0x1_0000);
      assert buf == first + CountBytes(p);
    }

    /** Encodes the packet; on a good packet the name table decodes at the end. */
    method Encode(p: DnsPacket)
      requires buf == [] && nameOffsets == map[]
      modifies this
      ensures buf == Wire.ToBytes(p) && nameOffsets == EmitSections(p).offs
      ensures GoodPacket(p) ==> Valid()
    {
      hide EmitQuestions, EmitRecords, GoodQuestions, GoodRecords, HeaderBytes, OffsetsDecode, CountBytes;
      EncodeHeader(p);
      EmptyTableDecodes(buf);
      ghost var qs := EmitQuestions(nameOffsets, |buf|, p.questions);
      EncodeQuestions(p.questions);
      ghost var an := EmitRecords(nameOffsets, |buf|, p.answers);
      EncodeRecords(p.answers);
      ghost var au := EmitRecords(nameOffsets, |buf|, p.authorities);
      EncodeRecords(p.authorities);
      ghost var ad := EmitRecords(nameOffsets, |buf|, p.additionals);
      EncodeRecords(p.additionals);
      SectionsAssoc(HeaderBytes(p), qs.bytes, an.bytes, au.bytes, ad.bytes);
    }
  }

  method ToBytes(p: DnsPacket) returns (bytes: seq<byte>)
    ensures bytes == Wire.ToBytes(p)
    ensures GoodPacket(p) ==> FromBytes(bytes) == Within(PacketJumps(p), Counted(p))
  {
    var encoder := new DnsPacketEncoder();
    encoder.Encode(p);
    bytes := encoder.buf;
    if GoodPacket(p) {
      PacketRoundTrip(p);
    }
  }
}
