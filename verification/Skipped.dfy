/**
  * Records of types the server does not model are skipped by the parser, yet stay in the bytes that
  * are stored and relayed. Here every record of a parsed message is seen, skipped or not.
  */
module Skipped {
  import opened Bytes
  import opened NameCodec
  import opened Records
  import opened Wire

  /** The types the parser keeps. */
  predicate Modelled(rtype: u16) {
    rtype in {TYPE_A, TYPE_NS, TYPE_CNAME, TYPE_SOA, TYPE_PTR, TYPE_MX, TYPE_TXT, TYPE_AAAA, TYPE_SRV, TYPE_OPT,
              TYPE_DS, TYPE_RRSIG, TYPE_NSEC, TYPE_DNSKEY, TYPE_CAA}
  }

  /** The type and TTL of a record as they stand on the wire. */
  datatype RawRecord = RawRecord(rtype: u16, ttl: u32)

  function RawAt(buf: seq<byte>, offset: nat): RawRecord
    requires ParseRecord(buf, offset).Ok?
  {
    var at := ParseName(buf, offset).value.1;
    RawRecord(ReadU16(buf, at), ReadU32(buf, at + 4))
  }

  /** The records of a section that can be read. */
  function RawSection(buf: seq<byte>, offset: nat, count: nat): seq<RawRecord>
    decreases count
  {
    if count == 0 || ParseRecord(buf, offset).Err? then []
    else [RawAt(buf, offset)] + RawSection(buf, ParseRecord(buf, offset).value.1, count - 1)
  }

  /** The parsed record is the one on the wire; an OPT record has no TTL. */
  predicate Mirrors(raw: RawRecord, r: DnsRecord) {
    RecordType(r) == raw.rtype && (r.OPT? || Ttl(r) == raw.ttl)
  }

  /** `rs` holds exactly the modelled records of `raws`, in order. */
  predicate Keeps(raws: seq<RawRecord>, rs: seq<DnsRecord>) {
    if raws == [] then rs == []
    else if Modelled(raws[0].rtype) then rs != [] && Mirrors(raws[0], rs[0]) && Keeps(raws[1..], rs[1..])
    else Keeps(raws[1..], rs)
  }

  lemma RdataKept(buf: seq<byte>, start: nat, len: nat, rtype: u16, rclass: u16, domain: Text, ttl: u32)
    requires start + len <= |buf|
    ensures var r := ParseRdata(buf, start, len, rtype, rclass, domain, ttl);
            r.Ok? ==>
              && (r.value.Some? <==> Modelled(rtype))
              && (r.value.Some? ==> Mirrors(RawRecord(rtype, ttl), r.value.value))
  {
    hide ParseName, ReadU16, ReadU32, ParseCharacterStrings;
  }

  lemma RecordKept(buf: seq<byte>, offset: nat)
    requires ParseRecord(buf, offset).Ok?
    ensures var raw, r := RawAt(buf, offset), ParseRecord(buf, offset).value.0;
            (r.Some? <==> Modelled(raw.rtype)) && (r.Some? ==> Mirrors(raw, r.value))
  {
    hide ParseName, ParseRdata, ReadU16, ReadU32, Modelled, Mirrors;
    var domain, at := ParseName(buf, offset).value.0, ParseName(buf, offset).value.1;
    RdataKept(buf, at + 10, ReadU16(buf, at + 8), ReadU16(buf, at), ReadU16(buf, at + 2), domain, ReadU32(buf, at + 4));
  }

  /** The parser keeps exactly the modelled records of a section, in order. */
  lemma {:induction false} SectionKept(buf: seq<byte>, offset: nat, count: nat)
    requires ParseRecords(buf, offset, count).Ok?
    ensures |RawSection(buf, offset, count)| == count
    ensures Keeps(RawSection(buf, offset, count), ParseRecords(buf, offset, count).value.0)
    decreases count
  {
    hide ParseRecord, Modelled, Mirrors, RawAt;
    if count > 0 {
      var (first, next) := ParseRecord(buf, offset).value;
      RecordKept(buf, offset);
      SectionKept(buf, next, count - 1);
      var raws, rest := RawSection(buf, offset, count), ParseRecords(buf, next, count - 1).value.0;
      assert raws[0] == RawAt(buf, offset) && raws[1..] == RawSection(buf, next, count - 1);
      assert first.Some? ==> ([first.value] + rest)[1..] == rest;
      assert first.None? ==> [] + rest == rest;
    }
  }

  // ----- A whole message -----

  datatype RawPacket = RawPacket(answers: seq<RawRecord>, authorities: seq<RawRecord>, additionals: seq<RawRecord>)

  /** The sections of a message that can be read; nothing of any other. */
  function RawOf(buf: seq<byte>): RawPacket {
    if FromBytes(buf).Err? then RawPacket([], [], [])
    else
      var h := ParseHeader(buf);
      var p1 := ParseQuestions(buf, 12, h.questions).value.1;
      var p2 := ParseRecords(buf, p1, h.answers).value.1;
      var p3 := ParseRecords(buf, p2, h.authorities).value.1;
      RawPacket(RawSection(buf, p1, h.answers), RawSection(buf, p2, h.authorities), RawSection(buf, p3, h.additionals))
  }

  /** Of every section of a parsed message the modelled records are kept; the header counts them all. */
  lemma PacketKept(buf: seq<byte>, p: DnsPacket)
    ensures FromBytes(buf) == Ok(p) ==>
              var raw := RawOf(buf);
              && Keeps(raw.answers, p.answers) && Keeps(raw.authorities, p.authorities)
              && Keeps(raw.additionals, p.additionals)
              && |raw.answers| == p.header.answers && |raw.authorities| == p.header.authorities
              && |raw.additionals| == p.header.additionals
  {
    hide ParseHeader, ParseQuestions, ParseRecords, RawSection, Keeps;
    if FromBytes(buf) != Ok(p) {
      return;
    }
    var h := ParseHeader(buf);
    var p1 := ParseQuestions(buf, 12, h.questions).value.1;
    var p2 := ParseRecords(buf, p1, h.answers).value.1;
    var p3 := ParseRecords(buf, p2, h.authorities).value.1;
    SectionKept(buf, p1, h.answers);
    SectionKept(buf, p2, h.authorities);
    SectionKept(buf, p3, h.additionals);
  }

  // ----- What is lost -----

  predicate NoneSkipped(raws: seq<RawRecord>) {
    forall i :: 0 <= i < |raws| ==> Modelled(raws[i].rtype)
  }

  /** The parser returns fewer records than there are, exactly when it skips one. */
  lemma {:induction false} SkippingLoses(raws: seq<RawRecord>, rs: seq<DnsRecord>)
    requires Keeps(raws, rs)
    ensures |rs| <= |raws|
    ensures |rs| == |raws| <==> NoneSkipped(raws)
    decreases |raws|
  {
    hide Modelled, Mirrors;
    if raws != [] {
      SkippingLoses(raws[1..], if Modelled(raws[0].rtype) then rs[1..] else rs);
      assert forall i :: 1 <= i < |raws| ==> raws[i] == raws[1..][i - 1];
    }
  }

  /** A modelled record other than OPT is among those kept, with its TTL. */
  lemma {:induction false} ModelledIsKept(raws: seq<RawRecord>, rs: seq<DnsRecord>, i: nat) returns (j: nat)
    requires Keeps(raws, rs) && i < |raws| && Modelled(raws[i].rtype)
    ensures j < |rs| && Mirrors(raws[i], rs[j])
    decreases |raws|
  {
    hide Modelled, Mirrors;
    if i == 0 {
      j := 0;
    } else if Modelled(raws[0].rtype) {
      j := ModelledIsKept(raws[1..], rs[1..], i - 1);
      j := j + 1;
    } else {
      j := ModelledIsKept(raws[1..], rs, i - 1);
    }
  }

  // ----- An example -----

  /** A reply whose one answer is an HTTPS record (type 65) with a TTL of five seconds. */
  const HTTPS_REPLY: seq<byte> := [0, 1, 128, 0, 0, 0, 0, 1, 0, 0, 0, 0, 0, 0, 65, 0, 1, 0, 0, 0, 5, 0, 0]

  lemma HttpsReplyParses()
    ensures FromBytes(HTTPS_REPLY) == Ok(DnsPacket(DnsHeader(1, 0x8000, 0, 1, 0, 0), [], [], [], []))
    ensures RawOf(HTTPS_REPLY).answers == [RawRecord(65, 5)]
  {
    var buf := HTTPS_REPLY;
    HttpsRecordParses();
    hide ParseRecord, ParseName, RawAt;
    assert ParseHeader(buf) == DnsHeader(1, 0x8000, 0, 1, 0, 0);
    assert ParseQuestions(buf, 12, 0) == Ok(([], 12));
    assert ParseRecords(buf, 23, 0) == Ok(([], 23));
    OneSkipped(buf, 12, 23);
    assert RawSection(buf, 23, 0) == [];
    assert RawSection(buf, 12, 1) == [RawRecord(65, 5)];
  }

  lemma OneSkipped(buf: seq<byte>, offset: nat, next: nat)
    requires ParseRecord(buf, offset) == Ok((None, next))
    ensures ParseRecords(buf, offset, 1) == Ok(([], next))
  {
    hide ParseRecord;
    assert ParseRecords(buf, next, 0) == Ok(([], next));
    assert Keep(None) + [] == [];
  }

  lemma HttpsRecordParses()
    ensures ParseRecord(HTTPS_REPLY, 12) == Ok((None, 23)) && RawAt(HTTPS_REPLY, 12) == RawRecord(65, 5)
  {
    var buf := HTTPS_REPLY;
    assert Walk(buf, 12, MAX_POINTER_JUMPS) == Ok(Walked([], 13));
    assert ReadU16(buf, 13) == 65 && ReadU32(buf, 17) == 5 && ReadU16(buf, 21) == 0;
  }
}
