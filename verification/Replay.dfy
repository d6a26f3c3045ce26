/** Replaying a stored response: transaction IDs, EDNS sizes and UDP truncation. */
module Replay {
  import opened Bytes
  import opened Names
  import opened NameCodec
  import opened Records
  import opened Wire
  import opened RoundTrip
  import opened ReadBack
  import opened Overrun
  import opened Skipped

  const MAX_UDP_SIZE: nat := 512
  const MAX_EDNS_UDP: nat := 1232

  datatype Transport = Udp | Tcp

  /** The UDP size in the first OPT record, if any. */
  function OptSize(rs: seq<DnsRecord>): (r: Option<u16>)
    ensures r.None? <==> forall i :: 0 <= i < |rs| ==> !rs[i].OPT?
    ensures r.Some? ==> OPT(r.value) in rs
  {
    if rs == [] then None
    else if rs[0].OPT? then Some(rs[0].udpSize)
    else OptSize(rs[1..])
  }

  function EdnsUdpSize(p: DnsPacket): Option<u16> { OptSize(p.additionals) }

  function UdpLimit(p: DnsPacket): (limit: nat)
    ensures MAX_UDP_SIZE <= limit <= MAX_EDNS_UDP
  {
    match EdnsUdpSize(p)
    case Some(size) => Clamp(size, MAX_UDP_SIZE, MAX_EDNS_UDP)
    case None => MAX_UDP_SIZE
  }

  /** The packet sent instead of one that is too large: no answers, TC set. */
  function Truncate(p: DnsPacket): DnsPacket {
    DnsPacket(
      p.header.(flags := SetTc(p.header.flags), answers := 0, authorities := 0,
      additionals := |p.additionals| % 0x1_0000),
      p.questions, [], [], p.additionals)
  }

  function SetTc(flags: u16): (r: u16)
    ensures HasBit(r, FLAG_TC)
  {
    SetBit(flags, FLAG_TC)
  }

  function ToUdpBytes(p: DnsPacket): seq<byte> {
    if |ToBytes(p)| <= UdpLimit(p) then ToBytes(p) else ToBytes(Truncate(p))
  }

  function Encode(p: DnsPacket, transport: Transport): seq<byte> {
    match transport case Udp => ToUdpBytes(p) case Tcp => ToBytes(p)
  }

  // ----- What the limit and the truncation come to -----

  predicate NoOpt(rs: seq<DnsRecord>) {
    forall i :: 0 <= i < |rs| ==> !rs[i].OPT?
  }

  predicate FirstOpt(rs: seq<DnsRecord>, i: nat) {
    i < |rs| && rs[i].OPT? && NoOpt(rs[..i])
  }

  /** The limit a packet with these additional records has: 512, or the first OPT's size kept from 512 to 1232. */
  ghost predicate Allows(rs: seq<DnsRecord>, limit: nat) {
    if NoOpt(rs) then limit == 512
    else exists i: nat ::
           && FirstOpt(rs, i)
           && (rs[i].udpSize < 512 ==> limit == 512) && (rs[i].udpSize > 1232 ==> limit == 1232)
           && (512 <= rs[i].udpSize <= 1232 ==> limit == rs[i].udpSize)
  }

  lemma {:induction false} OptSizeIsFirst(rs: seq<DnsRecord>, i: nat)
    requires FirstOpt(rs, i)
    ensures OptSize(rs) == Some(rs[i].udpSize)
  {
    if i > 0 {
      assert !rs[..i][0].OPT?;
      assert rs[1..][..i - 1] == rs[..i][1..];
      OptSizeIsFirst(rs[1..], i - 1);
    }
  }

  lemma {:induction false} SomeOptIsFirst(rs: seq<DnsRecord>) returns (i: nat)
    requires !NoOpt(rs)
    ensures FirstOpt(rs, i)
  {
    if rs[0].OPT? {
      i := 0;
    } else {
      var k := SomeOptIsFirst(rs[1..]);
      i := k + 1;
      assert rs[..i] == [rs[0]] + rs[1..][..k];
    }
  }

  lemma UdpLimitIs(p: DnsPacket, limit: nat)
    ensures Allows(p.additionals, limit) <==> limit == UdpLimit(p)
  {
    var rs := p.additionals;
    if !NoOpt(rs) {
      forall i: nat | FirstOpt(rs, i)
        ensures OptSize(rs) == Some(rs[i].udpSize)
      {
        OptSizeIsFirst(rs, i);
      }
      var i := SomeOptIsFirst(rs);
    }
  }

  /** `g` is the flag word `f` with bit 0x200 set and every other bit as it was. */
  predicate TcSet(f: u16, g: u16) {
    g / 0x400 == f / 0x400 && g / 0x200 % 2 == 1 && g % 0x200 == f % 0x200
  }

  lemma SetTcIs(f: u16, g: u16)
    ensures TcSet(f, g) <==> g == SetTc(f)
  {
    var h, l := f / 0x400, f % 0x200;
    assert f == 0x400 * h + 0x200 * (f / 0x200 % 2) + l;
    assert g == 0x400 * (g / 0x400) + 0x200 * (g / 0x200 % 2) + g % 0x200;
    if !HasBit(f, FLAG_TC) {
      assert f + 0x200 == 0x400 * h + 0x200 + l;
    }
  }

  /** What is sent of `p` under a limit: all of it, or its questions and additionals with TC set. */
  ghost predicate SentAs(p: DnsPacket, transport: Transport, limit: nat, sent: DnsPacket) {
    if transport.Tcp? || |ToBytes(p)| <= limit then sent == p
    else
      && sent.header.id == p.header.id && TcSet(p.header.flags, sent.header.flags)
      && sent.questions == p.questions && sent.answers == [] && sent.authorities == []
      && sent.additionals == p.additionals
  }

  /** The bytes are those of what is sent, under the limit the packet's own OPT records give. */
  lemma EncodeSends(p: DnsPacket, transport: Transport, limit: nat) returns (sent: DnsPacket)
    requires Allows(p.additionals, limit)
    ensures SentAs(p, transport, limit, sent) && Encode(p, transport) == ToBytes(sent)
    ensures transport.Udp? ==> sent == Delivered(p)
  {
    hide ToBytes, UdpLimit, Allows, SetTc, TcSet;
    UdpLimitIs(p, limit);
    SetTcIs(p.header.flags, SetTc(p.header.flags));
    sent := if transport.Tcp? then p else Delivered(p);
  }

  // ----- EDNS alignment -----

  function ReplaceOpt(rs: seq<DnsRecord>, size: u16): seq<DnsRecord> {
    if rs == [] then [OPT(size)]
    else if rs[0].OPT? then [OPT(size)] + rs[1..]
    else [rs[0]] + ReplaceOpt(rs[1..], size)
  }

  function StripOpt(rs: seq<DnsRecord>): seq<DnsRecord> {
    if rs == [] then []
    else if rs[0].OPT? then StripOpt(rs[1..])
    else [rs[0]] + StripOpt(rs[1..])
  }

  /** Overwrites the first OPT record, adds one, or strips them all, as the client's EDNS asks. */
  function AlignEdns(p: DnsPacket, request: DnsPacket): DnsPacket {
    match EdnsUdpSize(request)
    case Some(size) => p.(additionals := ReplaceOpt(p.additionals, Clamp(size, MAX_UDP_SIZE, MAX_EDNS_UDP)))
    case None => p.(additionals := StripOpt(p.additionals))
  }

  lemma {:induction false} ReplaceOptSize(rs: seq<DnsRecord>, size: u16)
    ensures OptSize(ReplaceOpt(rs, size)) == Some(size)
  {
    if rs != [] && !rs[0].OPT? {
      ReplaceOptSize(rs[1..], size);
      assert ReplaceOpt(rs, size)[1..] == ReplaceOpt(rs[1..], size);
    }
  }

  lemma {:induction false} StripOptSize(rs: seq<DnsRecord>)
    ensures OptSize(StripOpt(rs)) == None
  {
    if rs != [] {
      StripOptSize(rs[1..]);
      if !rs[0].OPT? {
        assert StripOpt(rs)[1..] == StripOpt(rs[1..]);
      }
    }
  }

  /** After alignment the size limit is the client's alone, whatever the stored packet carried. */
  lemma AlignedLimitIsClients(p: DnsPacket, request: DnsPacket)
    ensures UdpLimit(AlignEdns(p, request)) == UdpLimit(request)
  {
    match EdnsUdpSize(request)
    case Some(size) =>
      ReplaceOptSize(p.additionals, Clamp(size, MAX_UDP_SIZE, MAX_EDNS_UDP));
    case None =>
      StripOptSize(p.additionals);
  }

  /** A client's size takes the place of the first OPT or comes last; a client without one gets none. */
  lemma AlignedAdditionals(p: DnsPacket, request: DnsPacket, limit: nat)
    requires Allows(request.additionals, limit)
    ensures var rs, out := p.additionals, AlignEdns(p, request).additionals;
            if NoOpt(request.additionals) then NoOpt(out) && out == StripOpt(rs)
            else if NoOpt(rs) then out == rs + [OPT(limit)]
            else exists i: nat :: FirstOpt(rs, i) && out == rs[i := OPT(limit)]
  {
    hide UdpLimit, Allows, ReplaceOpt, StripOpt;
    UdpLimitIs(request, limit);
    LimitOfSize(request);
    var rs := p.additionals;
    if NoOpt(request.additionals) {
      StripOptSize(rs);
    } else {
      var i: nat := |rs|;
      if !NoOpt(rs) {
        i := SomeOptIsFirst(rs);
        assert forall j :: 0 <= j < i ==> rs[j] == rs[..i][j];
      }
      ReplaceOptAt(rs, i, limit);
    }
  }

  lemma LimitOfSize(p: DnsPacket)
    ensures EdnsUdpSize(p).None? <==> NoOpt(p.additionals)
    ensures EdnsUdpSize(p).Some? ==> UdpLimit(p) == Clamp(EdnsUdpSize(p).value, MAX_UDP_SIZE, MAX_EDNS_UDP)
  {}

  /** Stripping is done record by record, so the rest keeps its order. */
  lemma {:induction false} StripOptConcat(a: seq<DnsRecord>, b: seq<DnsRecord>)
    ensures StripOpt(a + b) == StripOpt(a) + StripOpt(b)
    ensures |a| == 1 ==> StripOpt(a) == if a[0].OPT? then [] else a
  {
    if a == [] {
      assert a + b == b;
    } else {
      StripOptConcat(a[1..], b);
      assert (a + b)[1..] == a[1..] + b;
    }
  }

  /** Alignment touches OPT records only. */
  lemma {:induction false} ReplaceOptKeeps(rs: seq<DnsRecord>, size: u16)
    ensures StripOpt(ReplaceOpt(rs, size)) == StripOpt(rs)
    ensures |rs| <= |ReplaceOpt(rs, size)| <= |rs| + 1
    ensures forall r :: r in ReplaceOpt(rs, size) ==> r in rs || r == OPT(size)
  {
    if rs == [] {
      assert ReplaceOpt(rs, size)[1..] == [];
    } else if rs[0].OPT? {
      assert ([OPT(size)] + rs[1..])[1..] == rs[1..];
    } else {
      ReplaceOptKeeps(rs[1..], size);
      assert ReplaceOpt(rs, size)[1..] == ReplaceOpt(rs[1..], size);
    }
  }

  lemma OptIsGood(size: u16)
    ensures GoodRecord(OPT(size)) && Sized(OPT(size)) && ShortRecord(OPT(size))
  {}

  lemma {:induction false} StripOptKeeps(rs: seq<DnsRecord>)
    ensures |StripOpt(rs)| <= |rs|
    ensures forall r :: r in StripOpt(rs) <==> r in rs && !r.OPT?
  {
    if rs != [] {
      StripOptKeeps(rs[1..]);
    }
  }

  /** Alignment brings in no record but an OPT. */
  lemma AlignedElements(p: DnsPacket, request: DnsPacket, i: nat)
    requires i < |AlignEdns(p, request).additionals|
    ensures var r := AlignEdns(p, request).additionals[i];
            r in p.additionals || (r.OPT? && GoodRecord(r) && Sized(r) && ShortRecord(r))
  {
    hide GoodRecord, Sized, ShortRecord;
    var r := AlignEdns(p, request).additionals[i];
    match EdnsUdpSize(request)
    case Some(size) =>
      var negotiated := Clamp(size, MAX_UDP_SIZE, MAX_EDNS_UDP);
      ReplaceOptKeeps(p.additionals, negotiated);
      OptIsGood(negotiated);
      assert r in ReplaceOpt(p.additionals, negotiated);
    case None =>
      StripOptKeeps(p.additionals);
      assert r in StripOpt(p.additionals);
  }

  lemma AlignedCounts(p: DnsPacket, request: DnsPacket)
    requires CountsFit(p) && |p.additionals| < 0xFFFF
    ensures CountsFit(AlignEdns(p, request))
  {
    match EdnsUdpSize(request)
    case Some(size) =>
      ReplaceOptKeeps(p.additionals, Clamp(size, MAX_UDP_SIZE, MAX_EDNS_UDP));
    case None =>
      StripOptKeeps(p.additionals);
  }

  /** What holds of every record of a packet still does once it is aligned. */
  lemma AlignedIsGood(p: DnsPacket, request: DnsPacket)
    requires CountsFit(p) && |p.additionals| < 0xFFFF
    ensures GoodPacket(p) ==> GoodPacket(AlignEdns(p, request))
    ensures SizedPacket(p) ==> SizedPacket(AlignEdns(p, request))
    ensures ShortNames(p) ==> ShortNames(AlignEdns(p, request))
  {
    AlignedCounts(p, request);
    var q := AlignEdns(p, request);
    assert q == p.(additionals := q.additionals);
    hide GoodRecord, GoodName, Sized, ShortRecord, AlignEdns, ShortName;
    forall i | 0 <= i < |q.additionals|
      ensures GoodRecords(p.additionals) ==> GoodRecord(q.additionals[i])
      ensures SizedRecords(p.additionals) ==> Sized(q.additionals[i])
      ensures ShortRecords(p.additionals) ==> ShortRecord(q.additionals[i])
    {
      AlignedElements(p, request, i);
    }
  }

  lemma {:induction false} ReplaceOptAt(rs: seq<DnsRecord>, i: nat, size: u16)
    requires i <= |rs| && (forall j :: 0 <= j < i ==> !rs[j].OPT?) && (i < |rs| ==> rs[i].OPT?)
    ensures ReplaceOpt(rs, size) == if i < |rs| then rs[i := OPT(size)] else rs + [OPT(size)]
  {
    if i > 0 {
      ReplaceOptAt(rs[1..], i - 1, size);
      assert rs == [rs[0]] + rs[1..];
    } else if rs != [] {
      assert rs[0 := OPT(size)] == [OPT(size)] + rs[1..];
    }
  }

  lemma StripOptSnoc(rs: seq<DnsRecord>, i: nat)
    requires i < |rs|
    ensures StripOpt(rs[i..]) == (if rs[i].OPT? then [] else [rs[i]]) + StripOpt(rs[i + 1..])
  {
    assert rs[i..][1..] == rs[i + 1..];
  }

  /** The in-place form: find the first OPT and overwrite it, push one, or retain the rest. */
  method AlignInPlace(packet: DnsPacket, request: DnsPacket) returns (r: DnsPacket)
    ensures r == AlignEdns(packet, request)
  {
    var rs := packet.additionals;
    match EdnsUdpSize(request)
    case Some(clientSize) =>
      var negotiated := Clamp(clientSize, MAX_UDP_SIZE, MAX_EDNS_UDP);
      var i := 0;
      while i < |rs| && !rs[i].OPT?
        invariant i <= |rs| && forall j :: 0 <= j < i ==> !rs[j].OPT?
      {
        i := i + 1;
      }
      ReplaceOptAt(rs, i, negotiated);
      rs := if i < |rs| then rs[i := OPT(negotiated)] else rs + [OPT(negotiated)];
      r := packet.(additionals := rs);
    case None =>
      var kept: seq<DnsRecord> := [];
      for i := 0 to |rs|
        invariant kept + StripOpt(rs[i..]) == StripOpt(rs)
      {
        StripOptSnoc(rs, i);
        if !rs[i].OPT? {
          kept := kept + [rs[i]];
        }
      }
      r := packet.(additionals := kept);
  }

  // ----- Replay -----

  function Patched(bytes: seq<byte>, id: u16): seq<byte> {
    if |bytes| >= 2 then U16(id) + bytes[2..] else bytes
  }

  method PatchTransactionId(bytes: array<byte>, id: u16)
    modifies bytes
    ensures bytes[..] == Patched(old(bytes[..]), id)
  {
    if bytes.Length >= 2 {
      bytes[0] := U16(id)[0];
      bytes[1] := U16(id)[1];
    }
  }

  function WithId(p: DnsPacket, id: u16): DnsPacket { p.(header := p.header.(id := id)) }

  /** Only UDP replay parses the message, and a message that overruns would stop it. */
  predicate Replayable(raw: seq<byte>, transport: Transport) { transport.Udp? ==> !Overruns(raw) }

  function ReplayBytes(raw: seq<byte>, request: DnsPacket, transport: Transport): seq<byte>
    requires Replayable(raw, transport)
  {
    match transport
    case Tcp => Patched(raw, request.header.id)
    case Udp =>
      match FromBytes(raw)
      case Ok(p) => ToUdpBytes(AlignEdns(WithId(p, request.header.id), request))
      case Err(_) => Patched(raw, request.header.id)
  }

  /** Overwriting the ID of an encoded packet gives the encoding of the packet with that ID. */
  lemma PatchIsWithId(p: DnsPacket, id: u16)
    ensures Patched(ToBytes(p), id) == ToBytes(WithId(p, id))
  {
    hide EmitSections, CountBytes, Patched, U16;
    RestIgnoresId(p, id);
    PatchPrefix(U16(p.header.id), U16(p.header.flags) + CountBytes(p), EmitSections(p).bytes, id);
  }

  lemma RestIgnoresId(p: DnsPacket, id: u16)
    ensures CountBytes(WithId(p, id)) == CountBytes(p) && EmitSections(WithId(p, id)) == EmitSections(p)
  {
    hide EmitQuestions, EmitRecords, U16;
    var q := WithId(p, id);
    assert q.questions == p.questions && q.answers == p.answers;
    assert q.authorities == p.authorities && q.additionals == p.additionals;
  }

  lemma PatchPrefix(was: seq<byte>, header: seq<byte>, rest: seq<byte>, id: u16)
    requires |was| == 2
    ensures Patched(was + header + rest, id) == U16(id) + header + rest
  {
    hide U16;
    assert (was + header + rest)[2..] == header + rest;
  }

  lemma JumpsIgnoreId(p: DnsPacket, id: u16)
    ensures PacketJumps(WithId(p, id)) == PacketJumps(p)
  {
    hide QuestionsReach, RecordsReach, EmitQuestions, EmitRecords;
    var q := WithId(p, id);
    assert q.questions == p.questions && q.answers == p.answers;
    assert q.authorities == p.authorities && q.additionals == p.additionals;
  }

  /** Over TCP a replayed encoding decodes exactly when it did before, to the same packet with only the ID changed. */
  lemma TcpReplayKeepsMeaning(p: DnsPacket, request: DnsPacket)
    requires GoodPacket(p)
    ensures FromBytes(ToBytes(p)) == Within(PacketJumps(p), Counted(p))
    ensures FromBytes(ReplayBytes(ToBytes(p), request, Tcp))
         == Within(PacketJumps(p), WithId(Counted(p), request.header.id))
  {
    hide GoodName, GoodRecords, GoodQuestions, ToBytes, FromBytes, PacketReach;
    PatchIsWithId(p, request.header.id);
    JumpsIgnoreId(p, request.header.id);
    PacketRoundTrip(p);
    PacketRoundTrip(WithId(p, request.header.id));
  }

  /** What a UDP client sees of `p`: all of it, or its questions and additionals with TC set. */
  function Delivered(p: DnsPacket): DnsPacket {
    if |ToBytes(p)| <= UdpLimit(p) then p else Truncate(p)
  }

  lemma UdpBytesDecode(p: DnsPacket)
    requires GoodPacket(p)
    ensures GoodPacket(Delivered(p))
    ensures FromBytes(ToUdpBytes(p)) == Within(PacketJumps(Delivered(p)), Counted(Delivered(p)))
    ensures ShortNames(p) ==> PacketJumps(Delivered(p)) <= MAX_POINTER_JUMPS
  {
    hide GoodName, GoodRecord, GoodQuestions, ToBytes, FromBytes, PacketReach, ShortRecords, ShortQuestions;
    NothingIsShort();
    PacketRoundTrip(p);
    PacketRoundTrip(Truncate(p));
  }

  lemma NothingIsShort()
    ensures ShortRecords([])
  {}

  /** A stored response as it is encoded for the client. */
  function Aligned(p: DnsPacket, request: DnsPacket): DnsPacket {
    AlignEdns(WithId(p, request.header.id), request)
  }

  /** The client reads all that the parser kept of the answer: flags, answers and authorities. */
  predicate Whole(p: DnsPacket, r: DnsPacket) {
    r.header.flags == p.header.flags && r.answers == p.answers && r.authorities == p.authorities
  }

  /** The client reads neither answers nor authorities, and TC tells it so. */
  predicate Shortened(p: DnsPacket, r: DnsPacket) {
    TcSet(p.header.flags, r.header.flags) && r.answers == [] && r.authorities == []
  }

  /** What the client reads of a stored response, as far as the parser kept it. */
  ghost predicate KeepsMeaning(p: DnsPacket, request: DnsPacket, limit: nat, r: DnsPacket) {
    var aligned := Aligned(p, request);
    && r.header.id == request.header.id && r.questions == p.questions && r.additionals == aligned.additionals
    && Allows(r.additionals, limit)
    && (if |ToBytes(aligned)| <= limit then Whole(p, r) else Shortened(p, r))
  }

  lemma UdpBytesAreDelivered(p: DnsPacket)
    ensures ToUdpBytes(p) == ToBytes(Delivered(p))
  {
    hide ToBytes, UdpLimit;
  }

  lemma DeliveredIsGood(p: DnsPacket)
    requires CountsFit(p)
    ensures CountsFit(Delivered(p)) && (GoodPacket(p) ==> GoodPacket(Delivered(p)))
    ensures SizedPacket(p) ==> SizedPacket(Delivered(p))
  {
    hide ToBytes, UdpLimit, GoodRecord, GoodName, Sized;
  }

  /** The header of what is read is that of the encoded packet, with its sections counted. */
  lemma ReadHeader(p: DnsPacket)
    requires CountsFit(p)
    ensures FromBytes(ToBytes(p)).Ok? ==> FromBytes(ToBytes(p)).value.header == Counted(p).header
  {
    hide EmitSections, HeaderBytes, ParseHeader, ParseQuestions, ParseRecords;
    HeaderReads(p, EmitSections(p).bytes);
  }

  /** The client reads the meaning of the stored response exactly when it reads the packet delivered to it. */
  lemma MeaningIsDelivered(p: DnsPacket, request: DnsPacket, limit: nat, r: DnsPacket)
    requires CountsFit(p) && |p.additionals| < 0xFFFF && CountsFit(Delivered(Aligned(p, request)))
    requires r.header == Counted(Delivered(Aligned(p, request))).header && Allows(request.additionals, limit)
    ensures KeepsMeaning(p, request, limit, r) <==> r == Counted(Delivered(Aligned(p, request)))
  {
    hide ToBytes, AlignEdns, UdpLimit, SetTc, TcSet, Allows;
    var q := WithId(p, request.header.id);
    var aligned := Aligned(p, request);
    AlignedKeeps(q, request);
    AlignedLimitIsClients(q, request);
    UdpLimitIs(request, limit);
    UdpLimitIs(aligned, limit);
    SetTcIs(p.header.flags, r.header.flags);
  }

  /**
    * Over UDP a stored response decodes, at the client, to the packet the parser kept of it, with the
    * client's ID and aligned EDNS, exactly when every name it is sent with is good and takes few
    * enough jumps. Answers and authorities are truncated only together, only above the client's own
    * limit, and only with TC set.
    */
  lemma UdpReplayKeepsMeaning(raw: seq<byte>, p: DnsPacket, request: DnsPacket, limit: nat)
    requires SizedPacket(p) && |p.additionals| < 0xFFFF && Allows(request.additionals, limit)
    ensures FromBytes(raw) == Ok(p) ==>
              var r, sent := FromBytes(ReplayBytes(raw, request, Udp)), Delivered(Aligned(p, request));
              && (r.Ok? && KeepsMeaning(p, request, limit, r.value) <==>
                  GoodPacket(sent) && PacketJumps(sent) <= MAX_POINTER_JUMPS)
              && (GoodPacket(sent) && PacketJumps(sent) > MAX_POINTER_JUMPS ==> r == Err(PointerLoop))
    ensures GoodPacket(p) ==> GoodPacket(Delivered(Aligned(p, request)))
    ensures GoodPacket(p) && ShortNames(p) ==> PacketJumps(Delivered(Aligned(p, request))) <= MAX_POINTER_JUMPS
  {
    hide GoodQuestions, GoodRecords, SizedRecords, ToBytes, FromBytes, AlignEdns, PacketReach, ShortNames;
    hide KeepsMeaning, Delivered, ToUdpBytes, Allows;
    var aligned := Aligned(p, request);
    var sent := Delivered(aligned);
    AlignedIsGood(WithId(p, request.header.id), request);
    IdIsIrrelevant(p, request.header.id);
    DeliveredIsGood(aligned);
    UdpBytesAreDelivered(aligned);
    ReadBackExactly(sent);
    ReadHeader(sent);
    var r := FromBytes(ToBytes(sent));
    if r.Ok? {
      MeaningIsDelivered(p, request, limit, r.value);
    }
    if GoodPacket(sent) {
      PacketRoundTrip(sent);
    }
    if GoodPacket(p) {
      UdpBytesDecode(aligned);
    }
  }

  /**
    * End to end: the client reads the stored flags, answers and authorities exactly when the message
    * for it is within its limit, which is 512 bytes without an OPT and the size it sent from 512 to
    * 1232; a larger message reads so only if there was nothing in it to cut and TC was stored with it.
    */
  lemma ReplayIsWholeExactly(raw: seq<byte>, p: DnsPacket, request: DnsPacket, limit: nat)
    requires SizedPacket(p) && GoodPacket(p) && ShortNames(p) && |p.additionals| < 0xFFFF
    requires Allows(request.additionals, limit)
    ensures FromBytes(raw) == Ok(p) ==>
              var r, size := FromBytes(ReplayBytes(raw, request, Udp)), |ToBytes(Aligned(p, request))|;
              && r.Ok? && r.value.header.id == request.header.id && r.value.questions == p.questions
              && (Whole(p, r.value) <==> size <= limit || Shortened(p, p))
              && (size > limit ==> Shortened(p, r.value))
  {
    hide SizedPacket, GoodPacket, ShortNames, ToBytes, FromBytes, Aligned, Allows, ReplayBytes, TcSet, PacketJumps;
    UdpReplayKeepsMeaning(raw, p, request, limit);
    TcStays(p);
  }

  /** Setting TC changes nothing exactly when it is set. */
  lemma TcStays(p: DnsPacket)
    ensures forall g: u16 :: TcSet(p.header.flags, g) ==>
                               (g == p.header.flags <==> TcSet(p.header.flags, p.header.flags))
  {
    forall g: u16
      ensures TcSet(p.header.flags, g) <==> g == SetTc(p.header.flags)
    {
      SetTcIs(p.header.flags, g);
    }
  }

  lemma IdIsIrrelevant(p: DnsPacket, id: u16)
    ensures GoodPacket(WithId(p, id)) <==> GoodPacket(p)
    ensures SizedPacket(WithId(p, id)) <==> SizedPacket(p)
    ensures ShortNames(WithId(p, id)) <==> ShortNames(p)
  {
    hide GoodQuestions, GoodRecords, SizedRecords, ShortQuestions, ShortRecords;
  }

  /** A reply with one question, whose one label is `a.` with the dot inside it. */
  const DOTTED_REPLY: seq<byte> := [0, 1, 128, 0, 0, 1, 0, 0, 0, 0, 0, 0, 2, 97, 46, 0, 0, 1, 0, 1]

  /** A stored message that a UDP client reads as a question for `a` of type 0 and class 256, with TC clear. */
  lemma DottedLabelExample(request: DnsPacket)
    requires request.additionals == [] && request.header.id == 1
    ensures FromBytes(DOTTED_REPLY) ==
            Ok(DnsPacket(DnsHeader(1, 0x8000, 1, 0, 0, 0), [DnsQuestion([97, 46], 1, 1)], [], [], []))
    ensures ReplayBytes(DOTTED_REPLY, request, Udp) ==
            [0, 1, 128, 0, 0, 1, 0, 0, 0, 0, 0, 0] + [1, 97, 0, 0, 0, 1, 0, 1]
    ensures FromBytes(ReplayBytes(DOTTED_REPLY, request, Udp)) ==
            Ok(DnsPacket(DnsHeader(1, 0x8000, 1, 0, 0, 0), [DnsQuestion([97], 0, 256)], [], [], []))
  {
    var p := DnsPacket(DnsHeader(1, 0x8000, 1, 0, 0, 0), [DnsQuestion([97, 46], 1, 1)], [], [], []);
    DottedParses();
    DottedEncodes(p);
    DottedReadsWrong();
    hide FromBytes, ToBytes;
    assert Aligned(p, request) == p;
  }

  lemma DottedParses()
    ensures FromBytes(DOTTED_REPLY) ==
            Ok(DnsPacket(DnsHeader(1, 0x8000, 1, 0, 0, 0), [DnsQuestion([97, 46], 1, 1)], [], [], []))
  {
    var buf := DOTTED_REPLY;
    var l: Label := [97, 46];
    assert LabelBytes(l) == [2, 97, 46] == buf[12..15];
    WalkLabel(buf, 12, l, MAX_POINTER_JUMPS);
    assert Walk(buf, 15, MAX_POINTER_JUMPS) == Ok(Walked([], 16));
    OneQuestionParses(buf, DnsQuestion([97, 46], 1, 1), 16);
  }

  lemma DottedReadsWrong()
    ensures FromBytes([0, 1, 128, 0, 0, 1, 0, 0, 0, 0, 0, 0] + [1, 97, 0, 0, 0, 1, 0, 1]) ==
            Ok(DnsPacket(DnsHeader(1, 0x8000, 1, 0, 0, 0), [DnsQuestion([97], 0, 256)], [], [], []))
  {
    var buf: seq<byte> := [0, 1, 128, 0, 0, 1, 0, 0, 0, 0, 0, 0] + [1, 97, 0, 0, 0, 1, 0, 1];
    var l: Label := [97];
    assert LabelBytes(l) == [1, 97] == buf[12..14];
    WalkLabel(buf, 12, l, MAX_POINTER_JUMPS);
    assert Walk(buf, 14, MAX_POINTER_JUMPS) == Ok(Walked([], 15));
    OneQuestionParses(buf, DnsQuestion([97], 0, 256), 15);
  }

  lemma OneQuestionParses(buf: seq<byte>, q: DnsQuestion, at: nat)
    requires |buf| >= 12 && ParseHeader(buf) == DnsHeader(1, 0x8000, 1, 0, 0, 0)
    requires ParseName(buf, 12) == Ok((q.qname, at)) && at + 4 <= |buf|
    requires ReadU16(buf, at) == q.qtype && ReadU16(buf, at + 2) == q.qclass
    ensures FromBytes(buf) == Ok(DnsPacket(DnsHeader(1, 0x8000, 1, 0, 0, 0), [q], [], [], []))
  {
    hide ParseName, ReadU16, ParseHeader;
    assert ParseQuestion(buf, 12) == Ok((q, at + 4));
    assert ParseQuestions(buf, at + 4, 0) == Ok(([], at + 4));
    assert ParseQuestions(buf, 12, 1) == Ok(([q] + [], at + 4)) && [q] + [] == [q];
    assert ParseRecords(buf, at + 4, 0) == Ok(([], at + 4));
  }

  lemma DottedEncodes(p: DnsPacket)
    requires p == DnsPacket(DnsHeader(1, 0x8000, 1, 0, 0, 0), [DnsQuestion([97, 46], 1, 1)], [], [], [])
    ensures ToBytes(p) == [0, 1, 128, 0, 0, 1, 0, 0, 0, 0, 0, 0] + [1, 97, 0, 0, 0, 1, 0, 1]
  {
    DottedLabels();
    DottedName(map[], 12);
    OneQuestionBytes(p);
    DottedHeader(p);
    hide EmitName, ToBytes, Labels, HeaderBytes;
    assert EmitQuestion(map[], 12, p.questions[0]).bytes == [1, 97, 0, 0, 0, 1, 0, 1];
  }

  lemma DottedHeader(p: DnsPacket)
    requires p.header.id == 1 && p.header.flags == 0x8000
    requires |p.questions| == 1 && p.answers == [] && p.authorities == [] && p.additionals == []
    ensures HeaderBytes(p) == [0, 1, 128, 0, 0, 1, 0, 0, 0, 0, 0, 0]
  {}

  lemma OneQuestionBytes(p: DnsPacket)
    requires |p.questions| == 1 && p.answers == [] && p.authorities == [] && p.additionals == []
    ensures ToBytes(p) == HeaderBytes(p) + EmitQuestion(map[], 12, p.questions[0]).bytes
  {
    hide EmitQuestion, HeaderBytes;
    var e := EmitQuestion(map[], 12, p.questions[0]);
    assert EmitQuestions(e.offs, 12 + |e.bytes|, p.questions[1..]).bytes == [];
    assert EmitSections(p).bytes == e.bytes;
  }

  lemma DottedLabels()
    ensures Labels([97, 46]) == [[97], []]
  {
    var name: Text, dot: Text := [97, 46], [46];
    assert name[1..] == dot && dot[1..] == [];
    assert Split(dot) == [[]] + [[]];
    assert Split(name) == [[97] + []] + [[]] && [97] + [] == [97];
  }

  lemma DottedName(offs: Offsets, pos: nat)
    requires offs == map[] && pos == 12
    ensures EmitName(offs, pos, [[97], []]).bytes == [1, 97, 0, 0]
  {
    var labels: seq<Label>, last: seq<Label> := [[97], []], [[]];
    assert labels[1..] == last && last[1..] == [];
    assert Join(labels[1..]) == [] && Join(labels) == [97, 46];
    var offs1: Offsets := offs[[97, 46] := 12];
    assert LabelBytes([97]) == [1, 97] && LabelBytes([]) == [0];
    var offs2: Offsets := offs1[[] := 14];
    assert EmitName(offs2, 15, []) == Emit([0], offs2);
    assert EmitName(offs1, 14, last).bytes == [0] + [0];
  }

  // ----- What replay over UDP loses -----

  /** The records on the wire that are not OPT. */
  function OtherThanOpt(raws: seq<RawRecord>): nat {
    if raws == [] then 0 else (if raws[0].rtype == TYPE_OPT then 0 else 1) + OtherThanOpt(raws[1..])
  }

  lemma {:induction false} SkippingLosesOthers(raws: seq<RawRecord>, rs: seq<DnsRecord>)
    requires Keeps(raws, rs)
    ensures |StripOpt(rs)| <= OtherThanOpt(raws)
    ensures |StripOpt(rs)| == OtherThanOpt(raws) <==> NoneSkipped(raws)
    decreases |raws|
  {
    if raws != [] {
      SkippingLosesOthers(raws[1..], if Modelled(raws[0].rtype) then rs[1..] else rs);
      hide Modelled, Keeps, StripOpt, OtherThanOpt;
      assert forall i :: 1 <= i < |raws| ==> raws[i] == raws[1..][i - 1];
    }
  }

  /** The client's packet has as many records in every section as the stored message, OPT apart. */
  predicate KeepsCounts(raw: RawPacket, r: DnsPacket) {
    && |r.answers| == |raw.answers| && |r.authorities| == |raw.authorities|
    && |StripOpt(r.additionals)| == OtherThanOpt(raw.additionals)
  }

  /** An untruncated replay over UDP keeps every record exactly when the parser skipped none. */
  lemma UdpReplayLosesSkipped(raw: seq<byte>, p: DnsPacket, request: DnsPacket, limit: nat, r: DnsPacket)
    requires KeepsMeaning(p, request, limit, r) && |ToBytes(Aligned(p, request))| <= limit
    ensures FromBytes(raw) == Ok(p) ==>
              var stored := RawOf(raw);
              KeepsCounts(stored, r) <==>
              NoneSkipped(stored.answers) && NoneSkipped(stored.authorities) && NoneSkipped(stored.additionals)
  {
    hide FromBytes, ToBytes, AlignEdns, Allows, RawOf, Keeps, NoneSkipped, StripOpt, OtherThanOpt;
    if FromBytes(raw) == Ok(p) {
      var stored := RawOf(raw);
      PacketKept(raw, p);
      SkippingLoses(stored.answers, p.answers);
      SkippingLoses(stored.authorities, p.authorities);
      SkippingLosesOthers(stored.additionals, p.additionals);
      AlignedKeeps(WithId(p, request.header.id), request);
    }
  }

  /** A stored answer that UDP replay drops without setting TC. */
  lemma LostAnswerExample(request: DnsPacket)
    requires request.additionals == []
    ensures FromBytes(HTTPS_REPLY).Ok? && RawOf(HTTPS_REPLY).answers == [RawRecord(65, 5)]
    ensures ReplayBytes(HTTPS_REPLY, request, Udp)
         == ToBytes(DnsPacket(DnsHeader(request.header.id, 0x8000, 0, 1, 0, 0), [], [], [], []))
  {
    hide FromBytes, RawOf;
    HttpsReplyParses();
    var empty := DnsPacket(DnsHeader(request.header.id, 0x8000, 0, 1, 0, 0), [], [], [], []);
    assert Aligned(FromBytes(HTTPS_REPLY).value, request) == empty;
    EmptyFits(empty);
  }

  lemma EmptyFits(p: DnsPacket)
    requires p.questions == [] && p.answers == [] && p.authorities == [] && p.additionals == []
    ensures |ToBytes(p)| == 12
  {}

  lemma AlignedKeeps(p: DnsPacket, request: DnsPacket)
    ensures var q := AlignEdns(p, request);
            q == p.(additionals := q.additionals) && StripOpt(q.additionals) == StripOpt(p.additionals)
  {
    match EdnsUdpSize(request)
    case Some(size) =>
      ReplaceOptKeeps(p.additionals, Clamp(size, MAX_UDP_SIZE, MAX_EDNS_UDP));
    case None =>
      StripTwice(p.additionals);
  }

  lemma {:induction false} StripTwice(rs: seq<DnsRecord>)
    ensures StripOpt(StripOpt(rs)) == StripOpt(rs)
  {
    if rs != [] {
      StripTwice(rs[1..]);
      if !rs[0].OPT? {
        assert StripOpt(rs)[1..] == StripOpt(rs[1..]);
      }
    }
  }

  // ----- Size -----

  /** At most one question with a name of up to 255 wire bytes, and at most one extra record, an OPT. */
  predicate Small(p: DnsPacket) {
    && |p.questions| <= 1
    && (p.questions != [] ==> |PlainName(Labels(p.questions[0].qname))| <= 255)
    && |p.additionals| <= 1
    && (p.additionals != [] ==> p.additionals[0].OPT?)
  }

  lemma OptBytes(offs: Offsets, pos: nat, size: u16)
    ensures |EmitRecord(offs, pos, OPT(size)).bytes| == 11
  {
    FlatBytes(offs, pos + 11, Layout(OPT(size)));
  }

  lemma EmitRecordsAtMostOne(offs: Offsets, pos: nat, rs: seq<DnsRecord>)
    requires |rs| <= 1 && (rs != [] ==> rs[0].OPT?)
    ensures |EmitRecords(offs, pos, rs).bytes| <= 11
  {
    hide EmitRecord;
    if rs != [] {
      OptBytes(offs, pos, rs[0].udpSize);
      var first := EmitRecord(offs, pos, rs[0]);
      assert EmitRecords(first.offs, pos + |first.bytes|, rs[1..]).bytes == [];
    }
  }

  lemma EmitQuestionsAtMostOne(qs: seq<DnsQuestion>)
    requires |qs| <= 1 && (qs != [] ==> |PlainName(Labels(qs[0].qname))| <= 255)
    ensures |EmitQuestions(map[], 12, qs).bytes| <= 260
  {
    hide EmitName, PlainName;
    if qs != [] {
      EmitNameShorter(map[], 12, Labels(qs[0].qname));
      var first := EmitQuestion(map[], 12, qs[0]);
      assert EmitQuestions(first.offs, 12 + |first.bytes|, qs[1..]).bytes == [];
    }
  }

  /** A small response always fits the limit it is sent under, truncated or not. */
  lemma UdpFits(p: DnsPacket)
    requires Small(p)
    ensures |ToUdpBytes(p)| <= UdpLimit(p)
  {
    hide EmitQuestions, EmitRecords, PlainName, HeaderBytes;
    var t := Truncate(p);
    var qs := EmitQuestions(map[], 12, t.questions);
    EmitQuestionsAtMostOne(t.questions);
    EmitNone(qs.offs, 12 + |qs.bytes|);
    EmitRecordsAtMostOne(qs.offs, 12 + |qs.bytes|, t.additionals);
  }

  lemma EmitNone(offs: Offsets, pos: nat)
    ensures EmitRecords(offs, pos, []) == Emit([], offs)
  {}

  /** End to end: replaying any small stored response over UDP respects the client's own limit. */
  lemma UdpReplayFits(raw: seq<byte>, p: DnsPacket, request: DnsPacket)
    requires Small(Aligned(p, request))
    ensures FromBytes(raw) == Ok(p) ==> |ReplayBytes(raw, request, Udp)| <= UdpLimit(request)
  {
    hide Small, AlignEdns, ToUdpBytes, FromBytes, UdpLimit;
    var q := WithId(p, request.header.id);
    UdpFits(AlignEdns(q, request));
    AlignedLimitIsClients(q, request);
  }
}
