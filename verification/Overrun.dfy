/**
  * Messages that stop the parser. The RRSIG and NSEC arms slice the record data from the end of
  * an inner name on; when that name ends past the data, the slice is out of range and the Rust
  * code panics. `RdataOverrun` stands for that panic; here is exactly when it happens.
  */
module Overrun {
  import opened Bytes
  import opened NameCodec
  import opened Records
  import opened Wire

  /** Parsing this message panics. */
  predicate Overruns(buf: seq<byte>) { FromBytes(buf) == Err(RdataOverrun) }

  // ----- One record -----

  /** The name at `at` can be read and ends after `end`. */
  predicate NameEndsPast(buf: seq<byte>, at: nat, end: nat) {
    ParseName(buf, at).Ok? && ParseName(buf, at).value.1 > end
  }

  /** The record data is that of an NSEC, or of an RRSIG with its fixed fields, whose inner name runs past it. */
  predicate DataOverruns(buf: seq<byte>, start: nat, len: nat, rtype: u16) {
    || (rtype == TYPE_NSEC && NameEndsPast(buf, start, start + len))
    || (rtype == TYPE_RRSIG && len >= 18 && NameEndsPast(buf, start + 18, start + len))
  }

  /** The record at `offset` has an owner, its fixed fields and its data, and that data overruns. */
  predicate RecordOverruns(buf: seq<byte>, offset: nat) {
    && ParseName(buf, offset).Ok?
    && var at := ParseName(buf, offset).value.1;
    && at + 10 <= |buf|
    && var len := ReadU16(buf, at + 8);
    && at + 10 + len <= |buf|
    && DataOverruns(buf, at + 10, len, ReadU16(buf, at))
  }

  lemma {:induction false} NamesNeverOverrun(buf: seq<byte>, cur: nat, budget: nat)
    ensures Walk(buf, cur, budget) != Err(RdataOverrun)
    decreases budget, |buf| - cur
  {
    if cur < |buf| {
      if IsPointer(buf[cur]) {
        if cur + 1 < |buf| && budget > 0 {
          NamesNeverOverrun(buf, PointerTarget(buf[cur], buf[cur + 1]), budget - 1);
        }
      } else if buf[cur] != 0 && cur + 1 + buf[cur] <= |buf| {
        NamesNeverOverrun(buf, cur + 1 + buf[cur], budget);
      }
    }
  }

  lemma NameNeverOverruns(buf: seq<byte>, at: nat)
    ensures ParseName(buf, at) != Err(RdataOverrun)
  {
    hide Walk;
    NamesNeverOverrun(buf, at, MAX_POINTER_JUMPS);
  }

  lemma {:induction false} TextNeverOverruns(data: seq<byte>)
    ensures ParseCharacterStrings(data) != Err(RdataOverrun)
    decreases |data|
  {
    if data != [] && 1 + data[0] <= |data| {
      TextNeverOverruns(data[1 + data[0]..]);
    }
  }

  lemma DataOverrunsExactly(buf: seq<byte>, start: nat, len: nat, rtype: u16, rclass: u16, domain: Text, ttl: u32)
    requires start + len <= |buf|
    ensures ParseRdata(buf, start, len, rtype, rclass, domain, ttl) == Err(RdataOverrun) <==>
            DataOverruns(buf, start, len, rtype)
  {
    hide ParseName, ReadU16, ReadU32;
    if rtype == TYPE_SOA {
      SoaNeverOverruns(buf, start, domain, ttl);
    } else if rtype == TYPE_TXT {
      TextNeverOverruns(buf[start..start + len]);
    } else {
      NameNeverOverruns(buf, start);
      NameNeverOverruns(buf, start + 2);
      NameNeverOverruns(buf, start + 6);
      NameNeverOverruns(buf, start + 18);
    }
  }

  lemma SoaNeverOverruns(buf: seq<byte>, start: nat, domain: Text, ttl: u32)
    ensures ParseSoa(buf, start, domain, ttl) != Err(RdataOverrun)
  {
    hide ParseName, ReadU32;
    NameNeverOverruns(buf, start);
    if ParseName(buf, start).Ok? {
      NameNeverOverruns(buf, ParseName(buf, start).value.1);
    }
  }

  /** A record stops the parser exactly when its data overruns. */
  lemma RecordOverrunsExactly(buf: seq<byte>, offset: nat)
    ensures ParseRecord(buf, offset) == Err(RdataOverrun) <==> RecordOverruns(buf, offset)
  {
    hide ParseName, ParseRdata, ReadU16, ReadU32, DataOverruns;
    NameNeverOverruns(buf, offset);
    if ParseName(buf, offset).Ok? {
      var (domain, at) := ParseName(buf, offset).value;
      if at + 10 <= |buf| && at + 10 + ReadU16(buf, at + 8) <= |buf| {
        DataOverrunsExactly(buf, at + 10, ReadU16(buf, at + 8), ReadU16(buf, at), ReadU16(buf, at + 2), domain,
                            ReadU32(buf, at + 4));
      }
    }
  }

  // ----- A whole message -----

  /** Reading on after `r`. */
  function Then(buf: seq<byte>, r: Result<(seq<DnsRecord>, nat)>, n: nat): Result<(seq<DnsRecord>, nat)> {
    var (rs, next) :- r;
    var (more, end) :- ParseRecords(buf, next, n);
    Ok((rs + more, end))
  }

  /** Sections are read one after the other. */
  lemma {:induction false} ParseRecordsAppend(buf: seq<byte>, offset: nat, m: nat, n: nat)
    ensures ParseRecords(buf, offset, m + n) == Then(buf, ParseRecords(buf, offset, m), n)
    decreases m
  {
    hide ParseRecord;
    if m == 0 {
      match ParseRecords(buf, offset, n)
      case Ok(v) => assert [] + v.0 == v.0;
      case Err(_) =>
    } else if ParseRecord(buf, offset).Ok? {
      var (first, next) := ParseRecord(buf, offset).value;
      ParseRecordsAppend(buf, next, m - 1, n);
      if ParseRecords(buf, next, m - 1).Ok? {
        var (rs, at) := ParseRecords(buf, next, m - 1).value;
        if ParseRecords(buf, at, n).Ok? {
          var more := ParseRecords(buf, at, n).value.0;
          assert Keep(first) + (rs + more) == Keep(first) + rs + more;
        }
      }
    }
  }

  /** The `k` records before it can be read, and the next one overruns. */
  predicate OverrunsAfter(buf: seq<byte>, offset: nat, k: nat) {
    ParseRecords(buf, offset, k).Ok? && RecordOverruns(buf, ParseRecords(buf, offset, k).value.1)
  }

  lemma NoneRead(buf: seq<byte>, offset: nat)
    ensures ParseRecords(buf, offset, 0) == Ok(([], offset))
  {}

  lemma OneRecord(buf: seq<byte>, offset: nat)
    ensures ParseRecords(buf, offset, 1) == Err(RdataOverrun) <==> ParseRecord(buf, offset) == Err(RdataOverrun)
  {
    hide ParseRecord;
  }

  lemma {:induction false} RecordsOverrunExactly(buf: seq<byte>, offset: nat, count: nat)
    ensures ParseRecords(buf, offset, count) == Err(RdataOverrun) <==>
            exists k: nat :: k < count && OverrunsAfter(buf, offset, k)
    decreases count
  {
    hide ParseRecords, RecordOverruns, ParseRecord;
    if count == 0 {
      NoneRead(buf, offset);
    } else {
      RecordsOverrunExactly(buf, offset, count - 1);
      ParseRecordsAppend(buf, offset, count - 1, 1);
      var before := ParseRecords(buf, offset, count - 1);
      if before.Ok? {
        OneRecord(buf, before.value.1);
        RecordOverrunsExactly(buf, before.value.1);
        assert OverrunsAfter(buf, offset, count - 1) <==> RecordOverruns(buf, before.value.1);
      } else {
        assert !OverrunsAfter(buf, offset, count - 1);
      }
    }
  }

  /** The records a header announces, over the three sections. */
  function RecordCount(h: DnsHeader): nat {
    var an: nat, au: nat, ad: nat := h.answers, h.authorities, h.additionals;
    an + au + ad
  }

  /** The header and the questions can be read, and so can the records up to one that overruns. */
  ghost predicate SomeRecordOverruns(buf: seq<byte>) {
    && |buf| >= 12
    && var h := ParseHeader(buf);
    && ParseQuestions(buf, 12, h.questions).Ok?
    && exists k: nat :: k < RecordCount(h) && OverrunsAfter(buf, ParseQuestions(buf, 12, h.questions).value.1, k)
  }

  lemma {:induction false} QuestionsNeverOverrun(buf: seq<byte>, offset: nat, count: nat)
    ensures ParseQuestions(buf, offset, count) != Err(RdataOverrun)
    decreases count
  {
    hide ParseName, ReadU16;
    if count > 0 {
      NameNeverOverruns(buf, offset);
      if ParseQuestion(buf, offset).Ok? {
        QuestionsNeverOverrun(buf, ParseQuestion(buf, offset).value.1, count - 1);
      }
    }
  }

  /** The three sections fail as one run of records does. */
  lemma SectionsAreOneRun(buf: seq<byte>, p1: nat, a: nat, b: nat, c: nat)
    ensures ParseRecords(buf, p1, a + b + c) ==
            Then(buf, Then(buf, ParseRecords(buf, p1, a), b), c)
  {
    hide ParseRecords;
    ParseRecordsAppend(buf, p1, a + b, c);
    ParseRecordsAppend(buf, p1, a, b);
  }

  /** A message stops the parser exactly when it reaches a record whose data overruns. */
  lemma OverrunsExactly(buf: seq<byte>)
    ensures Overruns(buf) <==> SomeRecordOverruns(buf)
  {
    hide ParseQuestions, ParseRecords, ParseHeader, OverrunsAfter;
    if |buf| >= 12 {
      var h := ParseHeader(buf);
      QuestionsNeverOverrun(buf, 12, h.questions);
      if ParseQuestions(buf, 12, h.questions).Ok? {
        var p1 := ParseQuestions(buf, 12, h.questions).value.1;
        SectionsAreOneRun(buf, p1, h.answers, h.authorities, h.additionals);
        RecordsOverrunExactly(buf, p1, RecordCount(h));
      }
    }
  }

  /** A message without records never stops the parser. */
  lemma NoRecordsNoOverrun(buf: seq<byte>)
    requires |buf| >= 12 && RecordCount(ParseHeader(buf)) == 0
    ensures !Overruns(buf)
  {
    OverrunsExactly(buf);
  }

  /** A query of 24 bytes that does: one additional NSEC record with no data, and one zero byte after it. */
  const NSEC_WITHOUT_DATA: seq<byte> := [0, 1, 0, 0, 0, 0, 0, 0, 0, 0, 0, 1, 0, 0, 47, 0, 1, 0, 0, 0, 0, 0, 0, 0]

  lemma OverrunExample()
    ensures Overruns(NSEC_WITHOUT_DATA)
  {
    var buf := NSEC_WITHOUT_DATA;
    assert Walk(buf, 12, MAX_POINTER_JUMPS) == Ok(Walked([], 13));
    assert Walk(buf, 23, MAX_POINTER_JUMPS) == Ok(Walked([], 24));
    assert ReadU16(buf, 13) == TYPE_NSEC && ReadU16(buf, 21) == 0;
    assert RecordOverruns(buf, 12);
    assert OverrunsAfter(buf, 12, 0);
    assert ParseHeader(buf) == DnsHeader(1, 0, 0, 0, 0, 1);
    OverrunsExactly(buf);
  }
}
