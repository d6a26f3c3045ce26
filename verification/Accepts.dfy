/** Which names and messages the parser accepts, by the positions of their labels, questions and records alone. */
module Accepts {
  import opened Bytes
  import opened Names
  import opened NameCodec
  import opened Records
  import opened Wire
  import opened Overrun

  // ----- Names -----

  /** A label of 1 to 63 bytes stands at `a`, and the name goes on after it at `b`. */
  predicate LabelStep(buf: seq<byte>, a: nat, b: nat) {
    a < |buf| && 1 <= buf[a] <= 63 && b == a + 1 + buf[a] && b <= |buf|
  }

  /** A byte above 63 and the one after it stand at `a`: fourteen bits that say the name goes on at `b`. */
  predicate JumpStep(buf: seq<byte>, a: nat, b: nat) {
    a + 1 < |buf| && buf[a] >= 64 && var hi: int, lo: int := buf[a] % 64, buf[a + 1]; b == 256 * hi + lo
  }

  /** The positions a name goes through, up to the zero byte that ends it. */
  predicate Path(buf: seq<byte>, ps: seq<nat>)
    decreases |ps|
  {
    && ps != [] && ps[0] < |buf|
    && if |ps| == 1 then buf[ps[0]] == 0
    else (LabelStep(buf, ps[0], ps[1]) || JumpStep(buf, ps[0], ps[1])) && Path(buf, ps[1..])
  }

  function JumpsOn(buf: seq<byte>, ps: seq<nat>): nat
    requires Path(buf, ps)
    decreases |ps|
  {
    if |ps| == 1 then 0 else (if buf[ps[0]] >= 64 then 1 else 0) + JumpsOn(buf, ps[1..])
  }

  function LabelsOn(buf: seq<byte>, ps: seq<nat>): seq<Label>
    requires Path(buf, ps)
    decreases |ps|
  {
    if |ps| == 1 then []
    else (if buf[ps[0]] >= 64 then [] else [buf[ps[0] + 1..ps[1]]]) + LabelsOn(buf, ps[1..])
  }

  /** After its zero byte or, if it jumps, after its first two jump bytes. */
  function EndOf(buf: seq<byte>, ps: seq<nat>): nat
    requires Path(buf, ps)
    decreases |ps|
  {
    if |ps| == 1 then ps[0] + 1
    else if buf[ps[0]] >= 64 then ps[0] + 2
    else EndOf(buf, ps[1..])
  }

  lemma {:induction false} PathIsWalked(buf: seq<byte>, ps: seq<nat>, budget: nat)
    requires Path(buf, ps) && JumpsOn(buf, ps) <= budget
    ensures Walk(buf, ps[0], budget) == Ok(Walked(LabelsOn(buf, ps), EndOf(buf, ps)))
    decreases |ps|
  {
    if |ps| > 1 {
      PathIsWalked(buf, ps[1..], if buf[ps[0]] >= 64 then budget - 1 else budget);
      assert [] + LabelsOn(buf, ps[1..]) == LabelsOn(buf, ps[1..]);
    }
  }

  lemma {:induction false} WalkHasPath(buf: seq<byte>, cur: nat, budget: nat) returns (ps: seq<nat>)
    requires Walk(buf, cur, budget).Ok?
    ensures Path(buf, ps) && ps[0] == cur && JumpsOn(buf, ps) <= budget
    decreases budget, |buf| - cur
  {
    ps := [cur];
    if IsPointer(buf[cur]) {
      var rest := WalkHasPath(buf, PointerTarget(buf[cur], buf[cur + 1]), budget - 1);
      ps := [cur] + rest;
      assert ps[1..] == rest;
    } else if buf[cur] != 0 {
      var rest := WalkHasPath(buf, cur + 1 + buf[cur], budget);
      ps := [cur] + rest;
      assert ps[1..] == rest;
    }
  }

  /** `name` stands at `at` along these positions, with at most 64 jumps, and what follows it starts at `end`. */
  ghost predicate Spells(buf: seq<byte>, at: nat, ps: seq<nat>, name: Text, end: nat) {
    Path(buf, ps) && ps[0] == at && JumpsOn(buf, ps) <= 64 && name == Join(LabelsOn(buf, ps)) && end == EndOf(buf, ps)
  }

  /** A name is read exactly when it is spelt out that way. */
  lemma NameReadExactly(buf: seq<byte>, at: nat, name: Text, end: nat)
    ensures ParseName(buf, at) == Ok((name, end)) <==> exists ps :: Spells(buf, at, ps, name, end)
  {
    hide Walk, Path, LabelsOn, EndOf, JumpsOn;
    if Walk(buf, at, MAX_POINTER_JUMPS).Ok? {
      var ps := WalkHasPath(buf, at, MAX_POINTER_JUMPS);
      PathIsWalked(buf, ps, MAX_POINTER_JUMPS);
      assert Spells(buf, at, ps, Join(LabelsOn(buf, ps)), EndOf(buf, ps));
    }
    if ps :| Spells(buf, at, ps, name, end) {
      PathIsWalked(buf, ps, MAX_POINTER_JUMPS);
    }
  }

  // ----- Questions and records -----

  /** A name can be read at `at`. */
  predicate Named(buf: seq<byte>, at: nat) { ParseName(buf, at).Ok? }

  /** Where the name read at `at` ends. */
  function NameEnd(buf: seq<byte>, at: nat): nat
    requires Named(buf, at)
  {
    ParseName(buf, at).value.1
  }

  /** A run of length-prefixed strings takes up all of the data. */
  predicate Strings(data: seq<byte>)
    decreases |data|
  {
    data == [] || (1 + data[0] <= |data| && Strings(data[1 + data[0]..]))
  }

  /** The data from `start` to `end` is well-formed for its type; data of a type outside the model always is. */
  predicate DataReadable(buf: seq<byte>, start: nat, end: nat, rtype: u16)
    requires start <= end <= |buf|
  {
    && (rtype == 1 ==> end == start + 4)
    && (rtype == 28 ==> end == start + 16)
    && (rtype in {2, 5, 12} ==> Named(buf, start))
    && (rtype == 6 ==>
          Named(buf, start) && Named(buf, NameEnd(buf, start)) && NameEnd(buf, NameEnd(buf, start)) + 20 <= |buf|)
    && (rtype == 15 ==> start + 3 <= end && Named(buf, start + 2))
    && (rtype == 16 ==> Strings(buf[start..end]))
    && (rtype == 33 ==> start + 6 <= end && Named(buf, start + 6))
    && (rtype in {43, 48} ==> start + 4 <= end)
    && (rtype == 46 ==> start + 18 <= end && Named(buf, start + 18) && NameEnd(buf, start + 18) <= end)
    && (rtype == 47 ==> Named(buf, start) && NameEnd(buf, start) <= end)
    && (rtype == 257 ==> start + 2 <= end && start + 2 + buf[start + 1] <= end)
  }

  /** A question stands from `start` to `end`: a name and four bytes. */
  predicate IsQuestion(buf: seq<byte>, start: nat, end: nat) {
    Named(buf, start) && end == NameEnd(buf, start) + 4 && end <= |buf|
  }

  /** A record stands from `start` to `end`: a name, ten bytes, and as much data as the last two of these say. */
  predicate IsRecord(buf: seq<byte>, start: nat, end: nat) {
    && Named(buf, start)
    && var at := NameEnd(buf, start);
    && at + 10 <= end <= |buf| && end == at + 10 + ReadU16(buf, at + 8)
    && DataReadable(buf, at + 10, end, ReadU16(buf, at))
  }

  /** The boundaries of a run of records. */
  ghost predicate RecordsAt(buf: seq<byte>, ends: seq<nat>) {
    ends != [] && forall i :: 0 <= i < |ends| - 1 ==> IsRecord(buf, ends[i], ends[i + 1])
  }

  /** The boundaries of a run of questions. */
  ghost predicate QuestionsAt(buf: seq<byte>, ends: seq<nat>) {
    ends != [] && forall i :: 0 <= i < |ends| - 1 ==> IsQuestion(buf, ends[i], ends[i + 1])
  }

  /**
    * The message divides into its header, as many questions as bytes 4 and 5 say, and as many records
    * as the next three pairs of bytes say together.
    */
  ghost predicate Divides(buf: seq<byte>, qs: seq<nat>, rs: seq<nat>) {
    && |buf| >= 12 && QuestionsAt(buf, qs) && RecordsAt(buf, rs)
    && qs[0] == 12 && rs[0] == qs[|qs| - 1]
    && |qs| - 1 == ReadU16(buf, 4)
    && |rs| - 1 == (ReadU16(buf, 6) as int) + ReadU16(buf, 8) + ReadU16(buf, 10)
  }

  // ----- One record -----

  lemma {:induction false} StringsParse(data: seq<byte>)
    ensures ParseCharacterStrings(data).Ok? <==> Strings(data)
    decreases |data|
  {
    if data != [] && 1 + data[0] <= |data| {
      StringsParse(data[1 + data[0]..]);
    }
  }

  lemma NamelessAccepted(buf: seq<byte>, start: nat, len: nat, rtype: u16, rclass: u16, domain: Text, ttl: u32)
    requires start + len <= |buf| && rtype !in {2, 5, 6, 12, 15, 33, 46, 47}
    ensures ParseNameless(buf, start, len, rtype, rclass, domain, ttl).Ok? <==>
            DataReadable(buf, start, start + len, rtype)
  {
    hide Named, NameEnd, ParseCharacterStrings, Strings, ReadU16;
    StringsParse(buf[start..start + len]);
  }

  lemma DataAccepted(buf: seq<byte>, start: nat, len: nat, rtype: u16, rclass: u16, domain: Text, ttl: u32)
    requires start + len <= |buf|
    ensures ParseRdata(buf, start, len, rtype, rclass, domain, ttl).Ok? <==>
            DataReadable(buf, start, start + len, rtype)
  {
    hide ParseName, ParseNameless, Strings, ReadU16, ReadU32;
    if rtype !in {2, 5, 6, 12, 15, 33, 46, 47} {
      NamelessAccepted(buf, start, len, rtype, rclass, domain, ttl);
    }
  }

  lemma RecordAccepted(buf: seq<byte>, start: nat, end: nat)
    ensures IsRecord(buf, start, end) <==> ParseRecord(buf, start).Ok? && ParseRecord(buf, start).value.1 == end
  {
    hide ParseName, ParseRdata, DataReadable, ReadU16, ReadU32;
    if Named(buf, start) {
      var domain, at := ParseName(buf, start).value.0, NameEnd(buf, start);
      if at + 10 <= |buf| && at + 10 + ReadU16(buf, at + 8) <= |buf| {
        DataAccepted(buf, at + 10, ReadU16(buf, at + 8), ReadU16(buf, at), ReadU16(buf, at + 2), domain,
                     ReadU32(buf, at + 4));
      }
    }
  }

  lemma QuestionAccepted(buf: seq<byte>, start: nat, end: nat)
    ensures IsQuestion(buf, start, end) <==> ParseQuestion(buf, start).Ok? && ParseQuestion(buf, start).value.1 == end
  {
    hide ParseName, ReadU16;
  }

  // ----- Runs of them -----

  lemma {:induction false} RecordsHaveEnds(buf: seq<byte>, start: nat, count: nat) returns (ends: seq<nat>)
    requires ParseRecords(buf, start, count).Ok?
    ensures RecordsAt(buf, ends) && |ends| == count + 1 && ends[0] == start
    ensures ends[count] == ParseRecords(buf, start, count).value.1
    decreases count
  {
    hide ParseRecord, IsRecord;
    ends := [start];
    if count > 0 {
      var next := ParseRecord(buf, start).value.1;
      RecordAccepted(buf, start, next);
      var rest := RecordsHaveEnds(buf, next, count - 1);
      ends := [start] + rest;
    }
  }

  lemma {:induction false} EndsParseRecords(buf: seq<byte>, ends: seq<nat>)
    requires RecordsAt(buf, ends)
    ensures var r := ParseRecords(buf, ends[0], |ends| - 1);
            r.Ok? && r.value.1 == ends[|ends| - 1]
    decreases |ends|
  {
    hide ParseRecord, IsRecord;
    if |ends| > 1 {
      RecordAccepted(buf, ends[0], ends[1]);
      EndsParseRecords(buf, ends[1..]);
    }
  }

  lemma {:induction false} QuestionsHaveEnds(buf: seq<byte>, start: nat, count: nat) returns (ends: seq<nat>)
    requires ParseQuestions(buf, start, count).Ok?
    ensures QuestionsAt(buf, ends) && |ends| == count + 1 && ends[0] == start
    ensures ends[count] == ParseQuestions(buf, start, count).value.1
    decreases count
  {
    hide ParseQuestion, IsQuestion;
    ends := [start];
    if count > 0 {
      var next := ParseQuestion(buf, start).value.1;
      QuestionAccepted(buf, start, next);
      var rest := QuestionsHaveEnds(buf, next, count - 1);
      ends := [start] + rest;
    }
  }

  lemma {:induction false} EndsParseQuestions(buf: seq<byte>, ends: seq<nat>)
    requires QuestionsAt(buf, ends)
    ensures var r := ParseQuestions(buf, ends[0], |ends| - 1);
            r.Ok? && r.value.1 == ends[|ends| - 1]
    decreases |ends|
  {
    hide ParseQuestion, IsQuestion;
    if |ends| > 1 {
      QuestionAccepted(buf, ends[0], ends[1]);
      EndsParseQuestions(buf, ends[1..]);
    }
  }

  // ----- A whole message -----

  /** The three sections are read exactly when their records are as one run. */
  lemma SectionsAccepted(buf: seq<byte>)
    requires |buf| >= 12
    ensures var h := ParseHeader(buf);
            FromBytes(buf).Ok? <==>
            && ParseQuestions(buf, 12, h.questions).Ok?
            && ParseRecords(buf, ParseQuestions(buf, 12, h.questions).value.1, RecordCount(h)).Ok?
  {
    hide ParseQuestions, ParseRecords, ParseHeader;
    var h := ParseHeader(buf);
    if ParseQuestions(buf, 12, h.questions).Ok? {
      SectionsAreOneRun(buf, ParseQuestions(buf, 12, h.questions).value.1, h.answers, h.authorities, h.additionals);
    }
  }

  /** A message is accepted exactly when it divides into a header, questions and well-formed records. */
  lemma AcceptedExactly(buf: seq<byte>)
    ensures FromBytes(buf).Ok? <==> exists qs, rs :: Divides(buf, qs, rs)
  {
    hide FromBytes, ParseQuestions, ParseRecords, QuestionsAt, RecordsAt;
    if |buf| >= 12 {
      var h := ParseHeader(buf);
      SectionsAccepted(buf);
      if FromBytes(buf).Ok? {
        var qs := QuestionsHaveEnds(buf, 12, h.questions);
        var rs := RecordsHaveEnds(buf, qs[|qs| - 1], RecordCount(h));
        assert Divides(buf, qs, rs);
      }
      if qs, rs :| Divides(buf, qs, rs) {
        EndsParseQuestions(buf, qs);
        EndsParseRecords(buf, rs);
      }
    } else {
      TooShort(buf);
    }
  }

  lemma TooShort(buf: seq<byte>)
    requires |buf| < 12
    ensures FromBytes(buf).Err?
  {}
}
