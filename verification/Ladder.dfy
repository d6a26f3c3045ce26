/**
  * Where the jump budget ends: a first name takes no jump whatever its length, while a message
  * whose names each extend the last by one label takes one jump more with every name.
  */
module Ladder {
  import opened Bytes
  import opened Names
  import opened NameCodec
  import opened Records
  import opened Wire
  import opened RoundTrip

  // ----- One long name -----

  /** A name all of whose suffixes are new takes no jump. */
  lemma {:induction false} NewNameTakesNone(offs: Offsets, depths: Depths, pos: nat, labels: seq<Label>)
    requires GoodLabels(labels) && forall s :: s in offs ==> |Labels(s)| > |labels|
    ensures NameReach(offs, depths, pos, labels).jumps == 0
    decreases |labels|
  {
    hide Labels, Join, GoodLabels, LabelBytes;
    if labels != [] {
      LabelsJoin(labels);
      GoodTail(labels);
      var offs' := if pos <= 0x3FFF then offs[Join(labels) := pos] else offs;
      NewNameTakesNone(offs', depths, pos + |LabelBytes(labels[0])|, labels[1..]);
    }
  }

  /** A message with one question and no records is read back however many labels the name has. */
  lemma OneQuestionRoundTrip(p: DnsPacket)
    requires GoodPacket(p) && |p.questions| == 1 && p.answers == [] && p.authorities == [] && p.additionals == []
    ensures FromBytes(ToBytes(p)) == Ok(Counted(p))
  {
    PacketRoundTrip(p);
    var q := p.questions[0];
    NewNameTakesNone(map[], map[], 12, Labels(q.qname));
    hide FromBytes, ToBytes, NameReach, EmitQuestion;
    var e, first := EmitQuestion(map[], 12, q), NameReach(map[], map[], 12, Labels(q.qname));
    assert QuestionsReach(e.offs, first.depths, 12 + |e.bytes|, p.questions[1..]).jumps == 0;
  }

  // ----- The ladder -----

  /** `n` labels of one letter each. */
  function Rung(n: nat): (ls: seq<Label>)
    ensures |ls| == n
  {
    if n == 0 then [] else [[97]] + Rung(n - 1)
  }

  function RungName(n: nat): Text { Join(Rung(n)) }

  function Asked(n: nat): DnsQuestion { DnsQuestion(RungName(n), 1, 1) }

  /** Questions for names of `k` to `n` labels, then for the longest again. */
  function Steps(n: nat, k: nat): (qs: seq<DnsQuestion>)
    requires k <= n + 1
    ensures |qs| == n + 2 - k
    decreases n + 1 - k
  {
    if k == n + 1 then [Asked(n)] else [Asked(k)] + Steps(n, k + 1)
  }

  function Packet(n: nat): DnsPacket
    requires n > 0
  {
    DnsPacket(DnsHeader(0, 0, 0, 0, 0, 0), Steps(n, 1), [], [], [])
  }

  lemma {:induction false} RungFacts(n: nat)
    ensures GoodLabels(Rung(n)) && (n > 0 ==> |RungName(n)| == 2 * n - 1)
    ensures Labels(RungName(n)) == Rung(n)
  {
    hide Labels;
    NoLabels();
    if n > 0 {
      RungFacts(n - 1);
      assert Rung(n)[1..] == Rung(n - 1);
      LabelsJoin(Rung(n));
    }
  }

  /** Uncompressed, the name is within the 255 bytes of RFC 1035 up to 127 labels. */
  lemma {:induction false} RungWireLength(n: nat)
    ensures |PlainName(Labels(RungName(n)))| == 2 * n + 1
  {
    RungFacts(n);
    if n > 0 {
      RungFacts(n - 1);
      RungWireLength(n - 1);
      assert Rung(n)[1..] == Rung(n - 1);
    }
  }

  lemma NoLabels()
    ensures Labels(RungName(0)) == []
  {}

  /** The tables after the first `k` questions. */
  ghost predicate Climbed(offs: Offsets, depths: Depths, k: nat) {
    && (forall j: nat :: 1 <= j <= k ==> RungName(j) in offs && RungName(j) in depths && depths[RungName(j)] == j - 1)
    && (forall j: nat :: j > k ==> RungName(j) !in offs)
  }

  lemma RungsDiffer(j: nat, k: nat)
    requires j > 0 && k > 0 && j != k
    ensures RungName(j) != RungName(k)
  {
    RungFacts(j);
    RungFacts(k);
  }

  /** A new rung is one label and a pointer to the rung below, so it takes one jump more than that. */
  lemma ClimbOne(offs: Offsets, depths: Depths, pos: nat, k: nat)
    requires 0 < k && pos <= 0x3FFF && Climbed(offs, depths, k - 1)
    ensures var e, reach := EmitName(offs, pos, Rung(k)), NameReach(offs, depths, pos, Rung(k));
            |e.bytes| <= 4 && reach.jumps == k - 1 && Climbed(e.offs, reach.depths, k)
  {
    hide RungName, Join, LabelBytes, PointerBytes;
    var offs': Offsets := offs[RungName(k) := pos];
    forall j: nat | j > 0 && j != k
      ensures RungName(j) != RungName(k)
    {
      RungsDiffer(j, k);
    }
    LetterLength();
    RungStep(offs, depths, pos, k);
    if k > 1 {
      RungAgain(offs', depths, pos + 2, k - 1);
    }
  }

  lemma LetterLength()
    ensures |LabelBytes([97])| == 2
  {}

  lemma RungStep(offs: Offsets, depths: Depths, pos: nat, k: nat)
    requires 0 < k && pos <= 0x3FFF && RungName(k) !in offs
    ensures var offs' := offs[RungName(k) := pos];
            var e, reach := EmitName(offs', pos + 2, Rung(k - 1)), NameReach(offs', depths, pos + 2, Rung(k - 1));
            && EmitName(offs, pos, Rung(k)) == Emit(LabelBytes([97]) + e.bytes, e.offs)
            && NameReach(offs, depths, pos, Rung(k)) == Reach(reach.jumps, reach.depths[RungName(k) := reach.jumps])
  {
    hide LabelBytes, Join;
    LetterLength();
    assert Rung(k)[0] == [97] && Rung(k)[1..] == Rung(k - 1);
  }

  lemma RungAgain(offs: Offsets, depths: Depths, pos: nat, k: nat)
    requires 0 < k && RungName(k) in offs && RungName(k) in depths
    ensures EmitName(offs, pos, Rung(k)) == Emit(PointerBytes(offs[RungName(k)]), offs)
    ensures NameReach(offs, depths, pos, Rung(k)) == Reach(depths[RungName(k)] + 1, depths)
  {
    hide PointerBytes, Join;
  }

  lemma {:induction false} Climb(offs: Offsets, depths: Depths, pos: nat, n: nat, k: nat)
    requires 1 <= k <= n + 1 && 1 <= n && pos + 8 * (n + 1 - k) <= 0x3FFF && Climbed(offs, depths, k - 1)
    ensures QuestionsReach(offs, depths, pos, Steps(n, k)).jumps == n
    decreases n + 1 - k
  {
    hide Climbed, EmitName, NameReach, RungName, Rung;
    var i := if k == n + 1 then n else k;
    RungFacts(i);
    var e, reach := EmitQuestion(offs, pos, Asked(i)), NameReach(offs, depths, pos, Rung(i));
    if k == n + 1 {
      Top(offs, depths, pos, n);
      assert Steps(n, k)[1..] == [];
      assert QuestionsReach(e.offs, reach.depths, pos + |e.bytes|, []).jumps == 0;
    } else {
      ClimbOne(offs, depths, pos, k);
      assert Steps(n, k)[1..] == Steps(n, k + 1);
      Climb(e.offs, reach.depths, pos + |e.bytes|, n, k + 1);
    }
  }

  lemma Top(offs: Offsets, depths: Depths, pos: nat, n: nat)
    requires 1 <= n && Climbed(offs, depths, n)
    ensures NameReach(offs, depths, pos, Rung(n)).jumps == n
  {
    hide NameReach, RungName;
    RungAgain(offs, depths, pos, n);
  }

  lemma LadderJumps(n: nat)
    requires 1 <= n && 12 + 8 * n <= 0x3FFF
    ensures PacketJumps(Packet(n)) == n
  {
    hide QuestionsReach, EmitQuestions, Steps;
    Climb(map[], map[], 12, n, 1);
  }

  lemma {:induction false} StepsAreGood(n: nat, k: nat)
    requires k <= n + 1
    ensures GoodQuestions(Steps(n, k))
    decreases n + 1 - k
  {
    hide GoodName, RungName;
    RungIsGood(n);
    if k <= n {
      RungIsGood(k);
      StepsAreGood(n, k + 1);
    }
  }

  lemma RungIsGood(n: nat)
    ensures GoodName(RungName(n))
  {
    RungFacts(n);
  }

  /** Such a message is read back up to 64 labels and rejected as a pointer loop from 65 on. */
  lemma LadderRoundTrip(n: nat)
    requires 1 <= n && 12 + 8 * n <= 0x3FFF
    ensures GoodPacket(Packet(n))
    ensures FromBytes(ToBytes(Packet(n))) == if n <= 64 then Ok(Counted(Packet(n))) else Err(PointerLoop)
  {
    hide FromBytes, ToBytes, PacketReach, GoodQuestions;
    StepsAreGood(n, 1);
    PacketRoundTrip(Packet(n));
    LadderJumps(n);
  }
}
