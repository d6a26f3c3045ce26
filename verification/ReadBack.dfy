/**
  * What cannot be read back. A name with an empty label, or with one of more than 63 bytes, is
  * written so that reading it gives another name; hence a packet is read back exactly when all its
  * names are good and take few enough jumps.
  */
module ReadBack {
  import opened Bytes
  import opened Names
  import opened NameCodec
  import opened Records
  import opened Wire
  import opened RoundTrip

  // ----- Names -----

  lemma BadSuffixIsNew(buf: seq<byte>, offs: Offsets, depths: Depths, labels: seq<Label>)
    requires Dotless(labels) && !GoodLabels(labels) && ShortSound(buf, offs, depths, |labels|)
    ensures Join(labels) !in offs
    ensures labels != [[]] ==> |Labels(Join(labels))| == |labels|
  {
    hide Walk, TakesJumps;
    assert labels != [];
    if labels == [[]] {
      assert Join(labels) == [] && Labels([]) == [];
    } else {
      SplitJoin(labels);
      assert Split([]) == [[]];
    }
  }

  lemma CutFacts(l: Label)
    requires DOT !in l && l != []
    ensures LabelBytes(l) == LabelBytes(Cut(l)) && 1 <= |Cut(l)| <= 63 && DOT !in Cut(l)
    ensures |l| > 63 <==> Cut(l) != l
  {}

  /** A name with a bad label reads as other labels, whatever was written before it. */
  lemma {:induction false} BadNameReads(buf: seq<byte>, offs: Offsets, depths: Depths, pos: nat, labels: seq<Label>,
                                        budget: nat)
    requires Dotless(labels) && !GoodLabels(labels) && pos >= 12
    requires ShortSound(buf, offs, depths, |labels|)
    requires At(buf, pos, EmitName(offs, pos, labels).bytes)
    ensures var r := Walk(buf, pos, budget);
            r.Ok? ==> r.value.labels != labels && Dotless(r.value.labels)
    decreases |labels|
  {
    hide Walk, At, LabelBytes, Join, Labels, Decodes;
    BadSuffixIsNew(buf, offs, depths, labels);
    var l, tail, suffix := labels[0], labels[1..], Join(labels);
    var offs' := if pos <= 0x3FFF then offs[suffix := pos] else offs;
    var at := pos + |LabelBytes(l)|;
    AtSplit(buf, pos, LabelBytes(l), EmitName(offs', at, tail).bytes);
    if l == [] {
      EmptyLabelEnds(buf, pos, budget);
    } else {
      CutFacts(l);
      WalkLabel(buf, pos, Cut(l), budget);
      ShortSoundTail(buf, offs, depths, pos, suffix, |tail|);
      if GoodLabels(tail) {
        EmitNameDecodes(buf, offs', depths, at, tail, budget);
      } else {
        BadNameReads(buf, offs', depths, at, tail, budget);
      }
      assert [l] + tail == labels;
      LabelledDiffers(l, tail, Walk(buf, at, budget));
    }
  }

  lemma EmptyLabelEnds(buf: seq<byte>, pos: nat, budget: nat)
    requires At(buf, pos, LabelBytes([]))
    ensures Walk(buf, pos, budget) == Ok(Walked([], pos + 1))
  {
    assert LabelBytes([]) == [0];
    WalkRoot(buf, pos, budget);
  }

  lemma LabelledDiffers(l: Label, tail: seq<Label>, r: Result<Walked>)
    requires l != [] && DOT !in l && Dotless(tail) && !GoodLabels([l] + tail)
    requires r.Ok? ==> Dotless(r.value.labels) && (r.value.labels == tail ==> GoodLabels(tail))
    ensures var r' := Labelled(Cut(l), r);
            r'.Ok? ==> r'.value.labels != [l] + tail && Dotless(r'.value.labels)
  {
    CutFacts(l);
    if r.Ok? {
      var read, whole := [Cut(l)] + r.value.labels, [l] + tail;
      assert read[0] == Cut(l) && read[1..] == r.value.labels && whole[0] == l && whole[1..] == tail;
      assert Cut(l) == l && r.value.labels == tail ==> GoodLabels(whole);
    }
  }

  lemma {:induction false} BadPlainReads(buf: seq<byte>, pos: nat, labels: seq<Label>, budget: nat)
    requires Dotless(labels) && !GoodLabels(labels) && At(buf, pos, PlainName(labels))
    ensures var r := Walk(buf, pos, budget);
            r.Ok? ==> r.value.labels != labels && Dotless(r.value.labels)
    decreases |labels|
  {
    hide Walk, At, LabelBytes;
    var l, tail := labels[0], labels[1..];
    var at := pos + |LabelBytes(l)|;
    AtSplit(buf, pos, LabelBytes(l), PlainName(tail));
    if l == [] {
      EmptyLabelEnds(buf, pos, budget);
    } else {
      CutFacts(l);
      WalkLabel(buf, pos, Cut(l), budget);
      if GoodLabels(tail) {
        PlainNameWalks(buf, at, tail, budget);
      } else {
        BadPlainReads(buf, at, tail, budget);
      }
      assert [l] + tail == labels;
      LabelledDiffers(l, tail, Walk(buf, at, budget));
    }
  }

  /** Other dotless labels make another name. */
  lemma OtherLabelsOtherName(name: Text, labels: seq<Label>)
    requires name != [] && Dotless(labels) && labels != Labels(name)
    ensures Join(labels) != name
  {
    if labels != [] {
      SplitJoin(labels);
    }
  }

  /** A name is read back only if it is good. */
  lemma ReadNameIsGood(buf: seq<byte>, offs: Offsets, depths: Depths, pos: nat, name: Text)
    requires pos >= 12 && Sound(buf, offs, depths)
    requires At(buf, pos, EmitName(offs, pos, Labels(name)).bytes)
    requires ParseName(buf, pos).Ok? && ParseName(buf, pos).value.0 == name
    ensures GoodName(name)
  {
    hide Walk, At, EmitName, GoodLabels, Decodes;
    if !GoodName(name) {
      RootIsGood();
      SplitDotless(name);
      BadNameReads(buf, offs, depths, pos, Labels(name), MAX_POINTER_JUMPS);
      OtherLabelsOtherName(name, Walk(buf, pos, MAX_POINTER_JUMPS).value.labels);
    }
  }

  lemma RootIsGood()
    ensures GoodName([])
  {}

  lemma ReadPlainNameIsGood(buf: seq<byte>, pos: nat, name: Text)
    requires At(buf, pos, PlainName(Labels(name)))
    requires ParseName(buf, pos).Ok? && ParseName(buf, pos).value.0 == name
    ensures GoodName(name)
  {
    hide Walk, At, PlainName, GoodLabels;
    if !GoodName(name) {
      RootIsGood();
      SplitDotless(name);
      BadPlainReads(buf, pos, Labels(name), MAX_POINTER_JUMPS);
      OtherLabelsOtherName(name, Walk(buf, pos, MAX_POINTER_JUMPS).value.labels);
    }
  }

  // ----- Records -----

  /** What reading the rdata of `r` returns. */
  function ReadRdata(buf: seq<byte>, pos: nat, len: nat, r: DnsRecord): Result<Option<DnsRecord>>
    requires pos + len <= |buf|
  {
    ParseRdata(buf, pos, len, RecordType(r), Class(r), Owner(r), Ttl(r))
  }

  lemma SrvIsGood(buf: seq<byte>, pos: nat, len: nat, r: DnsRecord)
    requires r.SRV? && At(buf, pos, Layout(r).head) && pos + len <= |buf|
    requires ParseSrv(buf, pos, len, r.domain, r.ttl) == Ok(r)
    ensures GoodName(r.target)
  {
    hide GoodName, ParseName, PlainName, SrvFields, ReadU16, At;
    AtSplit(buf, pos, SrvFields(r), PlainName(Labels(r.target)));
    ReadPlainNameIsGood(buf, pos + 6, r.target);
  }

  lemma RrsigIsGood(buf: seq<byte>, pos: nat, len: nat, r: DnsRecord)
    requires r.RRSIG? && At(buf, pos, Layout(r).head) && pos + len <= |buf|
    requires ParseRrsig(buf, pos, len, r.domain, r.ttl) == Ok(r)
    ensures GoodName(r.signerName)
  {
    hide GoodName, ParseName, PlainName, RrsigFields, ReadU16, ReadU32, At;
    var name := PlainName(Labels(r.signerName));
    AtSplit(buf, pos, RrsigFields(r), name + r.signature);
    AtSplit(buf, pos + 18, name, r.signature);
    ReadPlainNameIsGood(buf, pos + 18, r.signerName);
  }

  lemma NsecIsGood(buf: seq<byte>, pos: nat, len: nat, r: DnsRecord)
    requires r.NSEC? && At(buf, pos, Layout(r).head) && pos + len <= |buf|
    requires ParseNsec(buf, pos, len, r.domain, r.ttl) == Ok(r)
    ensures GoodName(r.nextName)
  {
    hide GoodName, ParseName, PlainName, At;
    AtSplit(buf, pos, PlainName(Labels(r.nextName)), r.typeBitmap);
    ReadPlainNameIsGood(buf, pos, r.nextName);
  }

  lemma FlatIsGood(buf: seq<byte>, pos: nat, r: DnsRecord)
    requires Layout(r).names == [] && At(buf, pos, Layout(r).head) && GoodName(Owner(r))
    requires ReadRdata(buf, pos, |Layout(r).head|, r) == Ok(Some(r))
    ensures Carried(r)
  {
    hide GoodName, ParseName, PlainName, SrvFields, RrsigFields, CharacterStrings, ParseCharacterStrings;
    hide ReadU16, ReadU32, U16, U32, ParseSrv, ParseRrsig, ParseNsec;
    var len := |Layout(r).head|;
    match r
    case SRV(_, _, _, _, _, _) => SrvIsGood(buf, pos, len, r);
    case RRSIG(_, _, _, _, _, _, _, _, _, _, _) => RrsigIsGood(buf, pos, len, r);
    case NSEC(_, _, _, _) => NsecIsGood(buf, pos, len, r);
    case _ =>
  }

  lemma OneNameIsGood(buf: seq<byte>, offs: Offsets, depths: Depths, pos: nat, len: nat, r: DnsRecord)
    requires |Layout(r).names| == 1 && pos >= 12 && Sound(buf, offs, depths) && GoodName(Owner(r))
    requires At(buf, pos, EmitBody(offs, pos, Layout(r)).bytes) && pos + len <= |buf|
    requires ReadRdata(buf, pos, len, r) == Ok(Some(r))
    ensures Carried(r)
  {
    hide GoodName, ParseName, EmitName, EmitNames, Sound, ReadU16, U16, At;
    var b := Layout(r);
    var at := pos + |b.head|;
    var names := EmitNames(offs, at, b.names);
    assert b.names == [b.names[0]];
    EmitOneName(offs, at, b.names[0]);
    AtSplit(buf, pos, b.head, names.bytes + b.tail);
    AtSplit(buf, at, names.bytes, b.tail);
    ReadNameIsGood(buf, offs, depths, at, b.names[0]);
  }

  lemma SoaIsGood(buf: seq<byte>, offs: Offsets, depths: Depths, pos: nat, r: DnsRecord)
    requires r.SOA? && pos >= 12 && Sound(buf, offs, depths) && GoodName(Owner(r))
    requires At(buf, pos, EmitBody(offs, pos, Layout(r)).bytes)
    requires ParseSoa(buf, pos, r.domain, r.ttl) == Ok(r)
    ensures Carried(r)
  {
    hide GoodName, ParseName, EmitName, EmitBody, Sound, SoaTimes, ReadU32, NameReach, At;
    var m := EmitName(offs, pos, Labels(r.mname));
    var n := EmitName(m.offs, pos + |m.bytes|, Labels(r.rname));
    SoaBytes(offs, pos, r);
    AtSplit(buf, pos, m.bytes, n.bytes + SoaTimes(r));
    AtSplit(buf, pos + |m.bytes|, n.bytes, SoaTimes(r));
    ReadNameIsGood(buf, offs, depths, pos, r.mname);
    NameRoundTrip(buf, offs, depths, pos, r.mname);
    var depths' := NameReach(offs, depths, pos, Labels(r.mname)).depths;
    ReadNameIsGood(buf, m.offs, depths', pos + |m.bytes|, r.rname);
  }

  lemma RdataIsGood(buf: seq<byte>, offs: Offsets, depths: Depths, pos: nat, len: nat, r: DnsRecord)
    requires pos >= 12 && Sound(buf, offs, depths) && GoodName(Owner(r)) && pos + len <= |buf|
    requires At(buf, pos, EmitBody(offs, pos, Layout(r)).bytes)
    requires Layout(r).names == [] ==> len == |Layout(r).head|
    requires ReadRdata(buf, pos, len, r) == Ok(Some(r))
    ensures Carried(r)
  {
    hide Carried, At, ParseSoa, Sound, EmitBody, GoodName;
    if |Layout(r).names| == 1 {
      OneNameIsGood(buf, offs, depths, pos, len, r);
    } else if r.SOA? {
      SoaIsGood(buf, offs, depths, pos, r);
    } else {
      FlatBytes(offs, pos, Layout(r));
      FlatIsGood(buf, pos, r);
    }
  }

  lemma RecordIsGood(buf: seq<byte>, offs: Offsets, depths: Depths, pos: nat, r: DnsRecord)
    requires Sized(r) && pos >= 12 && Sound(buf, offs, depths)
    requires At(buf, pos, EmitRecord(offs, pos, r).bytes)
    requires ParseRecord(buf, pos).Ok? && ParseRecord(buf, pos).value.0 == Some(r)
    ensures GoodRecord(r)
  {
    hide Carried, GoodName, At, Sound, EmitName, EmitBody, ParseName, ParseRdata, NameReach, Sized, Layout;
    hide RecordType, Class, Ttl, Owner, Fixed, ReadU16, ReadU32;
    var owner := EmitName(offs, pos, Labels(Owner(r)));
    var at := pos + |owner.bytes|;
    var body := EmitBody(owner.offs, at + 10, Layout(r));
    var fixed := Fixed(r, |body.bytes|);
    AtSplit(buf, pos, owner.bytes, fixed + body.bytes);
    AtSplit(buf, at, fixed, body.bytes);
    ParsedOwner(buf, pos, r);
    OwnerIsGood(buf, offs, depths, pos, r);
    NameRoundTrip(buf, offs, depths, pos, Owner(r));
    var len := |body.bytes| % 0x1_0000;
    SameFixed(r, |body.bytes|);
    FixedReads(buf, at, r, len);
    FlatLength(owner.offs, at + 10, r);
    RdataIsGood(buf, owner.offs, NameReach(offs, depths, pos, Labels(Owner(r))).depths, at + 10, len, r);
  }

  lemma SameFixed(r: DnsRecord, n: nat)
    ensures Fixed(r, n) == Fixed(r, n % 0x1_0000)
  {}

  /** Data without compressed names is as long as it is in full, so its length does not wrap around. */
  lemma FlatLength(offs: Offsets, pos: nat, r: DnsRecord)
    requires Sized(r)
    ensures Layout(r).names == [] ==> |EmitBody(offs, pos, Layout(r)).bytes| == |Layout(r).head| <= 0xFFFF
  {
    if Layout(r).names == [] {
      FlatBytes(offs, pos, Layout(r));
    }
  }

  /** The record returned has the owner that was read; OPT has none. */
  lemma ParsedOwner(buf: seq<byte>, pos: nat, r: DnsRecord)
    requires ParseRecord(buf, pos).Ok? && ParseRecord(buf, pos).value.0 == Some(r)
    ensures ParseName(buf, pos).Ok? && (r.OPT? || ParseName(buf, pos).value.0 == Owner(r))
  {
    hide ParseName, ReadU16, ReadU32, ParseCharacterStrings;
  }

  lemma OwnerIsGood(buf: seq<byte>, offs: Offsets, depths: Depths, pos: nat, r: DnsRecord)
    requires pos >= 12 && Sound(buf, offs, depths)
    requires At(buf, pos, EmitName(offs, pos, Labels(Owner(r))).bytes)
    requires ParseName(buf, pos).Ok? && (r.OPT? || ParseName(buf, pos).value.0 == Owner(r))
    ensures GoodName(Owner(r))
  {
    hide GoodName, ParseName, EmitName, Sound, At;
    if r.OPT? {
      RootIsGood();
    } else {
      ReadNameIsGood(buf, offs, depths, pos, Owner(r));
    }
  }

  // ----- Sections and packets -----

  lemma {:induction false} NoMoreThanCounted(buf: seq<byte>, pos: nat, count: nat)
    ensures ParseRecords(buf, pos, count).Ok? ==> |ParseRecords(buf, pos, count).value.0| <= count
    decreases count
  {
    hide ParseRecord;
    if count > 0 && ParseRecord(buf, pos).Ok? {
      NoMoreThanCounted(buf, ParseRecord(buf, pos).value.1, count - 1);
    }
  }

  /** If as many records come back as were counted, the first was not skipped. */
  lemma FirstIsKept(buf: seq<byte>, pos: nat, rs: seq<DnsRecord>)
    requires rs != [] && ParseRecords(buf, pos, |rs|).Ok? && ParseRecords(buf, pos, |rs|).value.0 == rs
    ensures ParseRecord(buf, pos).Ok? && ParseRecord(buf, pos).value.0 == Some(rs[0])
    ensures var rest := ParseRecords(buf, ParseRecord(buf, pos).value.1, |rs| - 1);
            rest.Ok? && rest.value.0 == rs[1..]
  {
    hide ParseRecord;
    var (first, next) := ParseRecord(buf, pos).value;
    NoMoreThanCounted(buf, next, |rs| - 1);
    var rest := ParseRecords(buf, next, |rs| - 1).value.0;
    assert rs == Keep(first) + rest;
    if first.Some? {
      assert ([first.value] + rest)[1..] == rest;
    }
  }

  lemma {:induction false} RecordsAreGood(buf: seq<byte>, offs: Offsets, depths: Depths, pos: nat, rs: seq<DnsRecord>)
    requires SizedRecords(rs) && pos >= 12 && Sound(buf, offs, depths)
    requires At(buf, pos, EmitRecords(offs, pos, rs).bytes)
    requires ParseRecords(buf, pos, |rs|).Ok? && ParseRecords(buf, pos, |rs|).value.0 == rs
    ensures GoodRecords(rs)
    decreases |rs|
  {
    hide GoodRecord, At, Sound, EmitRecord, ParseRecord, RecordReach, Sized, ParseRecords;
    if rs != [] {
      FirstIsKept(buf, pos, rs);
      var first := EmitRecord(offs, pos, rs[0]);
      var rest := EmitRecords(first.offs, pos + |first.bytes|, rs[1..]);
      AtSplit(buf, pos, first.bytes, rest.bytes);
      RecordIsGood(buf, offs, depths, pos, rs[0]);
      RecordRoundTrip(buf, offs, depths, pos, rs[0]);
      var depths' := RecordReach(offs, depths, pos, rs[0]).depths;
      RecordsAreGood(buf, first.offs, depths', pos + |first.bytes|, rs[1..]);
      assert forall i :: 1 <= i < |rs| ==> rs[i] == rs[1..][i - 1];
    }
  }

  lemma FirstQuestion(buf: seq<byte>, pos: nat, qs: seq<DnsQuestion>)
    requires qs != [] && ParseQuestions(buf, pos, |qs|).Ok? && ParseQuestions(buf, pos, |qs|).value.0 == qs
    ensures ParseQuestion(buf, pos).Ok? && ParseQuestion(buf, pos).value.0 == qs[0]
    ensures var rest := ParseQuestions(buf, ParseQuestion(buf, pos).value.1, |qs| - 1);
            rest.Ok? && rest.value.0 == qs[1..]
  {
    hide ParseQuestion;
    var first := ParseQuestion(buf, pos).value;
    var rest := ParseQuestions(buf, first.1, |qs| - 1).value.0;
    assert qs == [first.0] + rest && qs[1..] == rest;
  }

  lemma {:induction false} QuestionsAreGood(buf: seq<byte>, offs: Offsets, depths: Depths, pos: nat,
                                            qs: seq<DnsQuestion>)
    requires pos >= 12 && Sound(buf, offs, depths)
    requires At(buf, pos, EmitQuestions(offs, pos, qs).bytes)
    requires ParseQuestions(buf, pos, |qs|).Ok? && ParseQuestions(buf, pos, |qs|).value.0 == qs
    ensures GoodQuestions(qs)
    decreases |qs|
  {
    hide GoodName, At, Sound, EmitName, ParseName, NameReach, ReadU16, ParseQuestions;
    if qs != [] {
      var name := EmitName(offs, pos, Labels(qs[0].qname));
      var first := EmitQuestion(offs, pos, qs[0]);
      var rest := EmitQuestions(first.offs, pos + |first.bytes|, qs[1..]);
      AtSplit(buf, pos, first.bytes, rest.bytes);
      AtSplit(buf, pos, name.bytes, U16(qs[0].qtype) + U16(qs[0].qclass));
      FirstQuestion(buf, pos, qs);
      ReadNameIsGood(buf, offs, depths, pos, qs[0].qname);
      QuestionRoundTrip(buf, offs, depths, pos, qs[0]);
      var depths' := NameReach(offs, depths, pos, Labels(qs[0].qname)).depths;
      QuestionsAreGood(buf, first.offs, depths', pos + |first.bytes|, qs[1..]);
      assert forall i :: 1 <= i < |qs| ==> qs[i] == qs[1..][i - 1];
    }
  }

  lemma SectionsAreGood(buf: seq<byte>, p: DnsPacket)
    requires SizedPacket(p) && |buf| >= 12 && ParseHeader(buf) == Counted(p).header
    requires At(buf, 12, EmitSections(p).bytes)
    requires FromBytes(buf) == Ok(Counted(p))
    ensures GoodPacket(p)
  {
    hide GoodRecords, GoodQuestions, At, EmitRecords, EmitQuestions, ParseRecords, ParseQuestions, ParseHeader;
    hide SizedRecords, RecordsReach, QuestionsReach;
    assert Sound(buf, map[], map[]);
    hide Sound;
    var qs, d1 := EmitQuestions(map[], 12, p.questions), QuestionsReach(map[], map[], 12, p.questions).depths;
    var p1 := 12 + |qs.bytes|;
    var an, d2 := EmitRecords(qs.offs, p1, p.answers), RecordsReach(qs.offs, d1, p1, p.answers).depths;
    var p2 := p1 + |an.bytes|;
    var au, d3 := EmitRecords(an.offs, p2, p.authorities), RecordsReach(an.offs, d2, p2, p.authorities).depths;
    var p3 := p2 + |au.bytes|;
    var ad := EmitRecords(au.offs, p3, p.additionals);
    AtSplit(buf, 12, qs.bytes, an.bytes + (au.bytes + ad.bytes));
    AtSplit(buf, p1, an.bytes, au.bytes + ad.bytes);
    AtSplit(buf, p2, au.bytes, ad.bytes);
    QuestionsAreGood(buf, map[], map[], 12, p.questions);
    QuestionsRoundTrip(buf, map[], map[], 12, p.questions);
    RecordsAreGood(buf, qs.offs, d1, p1, p.answers);
    RecordsRoundTrip(buf, qs.offs, d1, p1, p.answers);
    RecordsAreGood(buf, an.offs, d2, p2, p.authorities);
    RecordsRoundTrip(buf, an.offs, d2, p2, p.authorities);
    RecordsAreGood(buf, au.offs, d3, p3, p.additionals);
  }

  /**
    * Decoding an encoded packet gives it back exactly when every name of it can be carried and no
    * name takes more jumps than the parser allows.
    */
  lemma ReadBackExactly(p: DnsPacket)
    requires SizedPacket(p)
    ensures FromBytes(ToBytes(p)) == Ok(Counted(p)) <==> GoodPacket(p) && PacketJumps(p) <= MAX_POINTER_JUMPS
  {
    hide GoodRecords, GoodQuestions, SizedRecords, EmitSections, HeaderBytes, ParseHeader, FromBytes, PacketReach;
    if GoodPacket(p) {
      PacketRoundTrip(p);
    } else if FromBytes(ToBytes(p)) == Ok(Counted(p)) {
      var buf, sections := ToBytes(p), EmitSections(p).bytes;
      HeaderReads(p, sections);
      assert At(buf, 12, sections);
      SectionsAreGood(buf, p);
    }
  }

  // ----- Names as they come off the wire -----

  /** After every dot comes a character other than a dot. */
  predicate NoDanglingDot(l: Label) {
    forall i :: 0 <= i < |l| && l[i] == DOT ==> i + 1 < |l| && l[i + 1] != DOT
  }

  /** The label starts with a character other than a dot, and has one after every dot. */
  predicate Tidy(l: Label) { l != [] && l[0] != DOT && NoDanglingDot(l) }

  /** Labels of the length the wire format has. */
  predicate WireLabels(ls: seq<Label>) {
    forall i :: 0 <= i < |ls| ==> 1 <= |ls[i]| <= 63
  }

  lemma {:induction false} WalkedAreWireLabels(buf: seq<byte>, cur: nat, budget: nat)
    ensures Walk(buf, cur, budget).Ok? ==> WireLabels(Walk(buf, cur, budget).value.labels)
    decreases budget, |buf| - cur
  {
    if cur < |buf| {
      if IsPointer(buf[cur]) {
        if cur + 1 < |buf| && budget > 0 {
          WalkedAreWireLabels(buf, PointerTarget(buf[cur], buf[cur + 1]), budget - 1);
        }
      } else if buf[cur] != 0 && cur + 1 + buf[cur] <= |buf| {
        WalkedAreWireLabels(buf, cur + 1 + buf[cur], budget);
      }
    }
  }

  predicate NoneEmpty(ls: seq<Label>) {
    forall i :: 0 <= i < |ls| ==> ls[i] != []
  }

  predicate AllTidy(ls: seq<Label>) {
    forall i :: 0 <= i < |ls| ==> Tidy(ls[i])
  }

  lemma {:induction false} PiecesAreShort(s: Text)
    ensures forall i :: 0 <= i < |Split(s)| ==> |Split(s)[i]| <= |s|
  {
    if s != [] {
      PiecesAreShort(s[1..]);
    }
  }

  lemma {:induction false} LaterPieces(s: Text)
    ensures NoneEmpty(Split(s)[1..]) <==> NoDanglingDot(s)
    ensures Split(s)[0] == [] <==> s == [] || s[0] == DOT
  {
    if s != [] {
      var t, rest := s[1..], Split(s[1..]);
      LaterPieces(t);
      assert forall i :: 1 <= i < |s| ==> s[i] == t[i - 1];
      assert NoDanglingDot(t) <==> forall i :: 1 <= i < |s| && s[i] == DOT ==> i + 1 < |s| && s[i + 1] != DOT;
      hide NoDanglingDot;
      NoneEmptyCons(rest);
      if s[0] == DOT {
        assert Split(s)[1..] == rest;
      } else {
        assert Split(s)[1..] == rest[1..];
      }
    }
  }

  lemma NoneEmptyCons(ls: seq<Label>)
    requires ls != []
    ensures NoneEmpty(ls) <==> ls[0] != [] && NoneEmpty(ls[1..])
  {
    assert forall i :: 1 <= i < |ls| ==> ls[i] == ls[1..][i - 1];
  }

  lemma PiecesOfTidy(s: Text)
    ensures NoneEmpty(Split(s)) <==> Tidy(s)
  {
    hide NoneEmpty, NoDanglingDot;
    LaterPieces(s);
    NoneEmptyCons(Split(s));
  }

  /** Splitting a joined name again gives the pieces of its labels. */
  lemma {:induction false} PiecesOfJoin(ls: seq<Label>)
    requires ls != [] && WireLabels(ls)
    ensures NoneEmpty(Split(Join(ls))) <==> AllTidy(ls)
    ensures forall i :: 0 <= i < |Split(Join(ls))| ==> |Split(Join(ls))[i]| <= 63
    ensures Join(ls) != []
  {
    hide Tidy;
    PiecesOfTidy(ls[0]);
    PiecesAreShort(ls[0]);
    if |ls| > 1 {
      var rest := Join(ls[1..]);
      PiecesOfJoin(ls[1..]);
      SplitConcat(ls[0], rest);
      NoneEmptyConcat(Split(ls[0]), Split(rest));
      AllTidyCons(ls);
      hide Split;
    } else {
      assert ls == [ls[0]];
    }
  }

  lemma NoneEmptyConcat(a: seq<Label>, b: seq<Label>)
    ensures NoneEmpty(a + b) <==> NoneEmpty(a) && NoneEmpty(b)
  {
    assert forall i :: 0 <= i < |a| ==> a[i] == (a + b)[i];
    assert forall i :: 0 <= i < |b| ==> b[i] == (a + b)[|a| + i];
  }

  lemma AllTidyCons(ls: seq<Label>)
    requires ls != []
    ensures AllTidy(ls) <==> Tidy(ls[0]) && AllTidy(ls[1..])
  {
    hide Tidy;
    assert forall i :: 1 <= i < |ls| ==> ls[i] == ls[1..][i - 1];
  }

  /** A name off the wire is good exactly when none of its labels has a dot at an end or two in a row. */
  lemma ParsedNameIsGood(buf: seq<byte>, at: nat)
    ensures Walk(buf, at, MAX_POINTER_JUMPS).Ok? ==>
              var labels := Walk(buf, at, MAX_POINTER_JUMPS).value.labels;
              && ParseName(buf, at).value.0 == Join(labels)
              && (GoodName(Join(labels)) <==> AllTidy(labels))
  {
    hide Walk, Tidy;
    WalkedAreWireLabels(buf, at, MAX_POINTER_JUMPS);
    if Walk(buf, at, MAX_POINTER_JUMPS).Ok? {
      JoinedNameIsGood(Walk(buf, at, MAX_POINTER_JUMPS).value.labels);
    }
  }

  lemma JoinedNameIsGood(ls: seq<Label>)
    requires WireLabels(ls)
    ensures GoodName(Join(ls)) <==> AllTidy(ls)
  {
    hide Tidy, Split;
    if ls == [] {
      RootIsGood();
    } else {
      PiecesOfJoin(ls);
      SplitDotless(Join(ls));
    }
  }
}
