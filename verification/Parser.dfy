/** The parsing loops, each proved to compute its specification function. */
module Parser {
  import opened Bytes
  import opened Names
  import opened NameCodec
  import opened Records
  import opened Wire
  import opened Overrun

  /** Every label followed by a dot, as the parser accumulates a name. */
  function Dotted(ls: seq<Label>): Text {
    if ls == [] then [] else ls[0] + [DOT] + Dotted(ls[1..])
  }

  lemma {:induction false} DottedAppend(ls: seq<Label>, l: Label)
    ensures Dotted(ls + [l]) == Dotted(ls) + (l + [DOT])
  {
    if ls == [] {
      assert [l][1..] == [];
      assert Dotted([]) == [];
      assert Dotted([l]) == l + [DOT] + [];
      assert ls + [l] == [l];
    } else {
      DottedAppend(ls[1..], l);
      assert (ls + [l])[1..] == ls[1..] + [l];
    }
  }

  lemma {:induction false} DottedIsJoin(ls: seq<Label>)
    ensures Dotted(ls) == if ls == [] then [] else Join(ls) + [DOT]
    ensures ls == [] ==> Join(ls) == []
  {
    if |ls| == 1 {
      assert ls[1..] == [];
    } else if |ls| > 1 {
      DottedIsJoin(ls[1..]);
    }
  }

  /** A walk whose labels so far are `prefix`, and whose end is fixed once it has jumped. */
  function Resume(prefix: seq<Label>, jumped: bool, end: nat, r: Result<Walked>): Result<Walked> {
    match r
    case Err(e) => Err(e)
    case Ok(w) => Ok(Walked(prefix + w.labels, if jumped then end else w.end))
  }

  /** `parse_qname`; `work` counts the buffer bytes looked at, with repetition. */
  method ParseQname(buf: seq<byte>, offset: nat) returns (r: Result<(Text, nat)>, ghost work: nat)
    ensures r == ParseName(buf, offset)
    ensures r.Ok? ==> offset < r.value.1 <= |buf|
    ensures work == BytesRead(buf, offset, MAX_POINTER_JUMPS) <= (MAX_POINTER_JUMPS + 1) * |buf|
  {
    hide Dotted, Join, PointerTarget, Walk, BytesRead, Resume;
    WorkBound(buf, offset, MAX_POINTER_JUMPS);
    DottedIsJoin([]);
    ghost var labels: seq<Label> := [];
    ghost var whole := Walk(buf, offset, MAX_POINTER_JUMPS);
    ghost var all := BytesRead(buf, offset, MAX_POINTER_JUMPS);
    work := 0;
    var qname: Text, current: nat, jumped, endOffset: nat, jumps: nat := [], offset, false, 0, 0;
    ResumeStart(whole);
    while true
      invariant jumps <= MAX_POINTER_JUMPS
      invariant whole == Resume(labels, jumped, endOffset, Walk(buf, current, MAX_POINTER_JUMPS - jumps))
      invariant all == work + BytesRead(buf, current, MAX_POINTER_JUMPS - jumps)
      invariant qname == Dotted(labels)
      decreases MAX_POINTER_JUMPS - jumps, |buf| - current
    {
      ghost var left, prefix := MAX_POINTER_JUMPS - jumps, labels;
      WalkStep(buf, current, left, prefix, jumped, endOffset);
      if current >= |buf| {
        return Err(Truncated("qname label length")), work;
      }
      var len := buf[current];
      if IsPointer(len) {
        if current + 1 >= |buf| {
          return Err(Truncated("compression pointer")), work + 1;
        }
        jumps := jumps + 1;
        if jumps > MAX_POINTER_JUMPS {
          return Err(PointerLoop), work + 2;
        }
        if !jumped {
          endOffset := current + 2;
          jumped := true;
        }
        work := work + 2;
        current := PointerTarget(buf[current], buf[current + 1]);
        continue;
      }
      if len == 0 {
        if !jumped {
          endOffset := current + 1;
        }
        work := work + 1;
        break;
      }
      current := current + 1;
      if current + len > |buf| {
        return Err(Truncated("qname label")), work + 1;
      }
      var piece := buf[current..current + len];
      DottedAppend(labels, piece);
      labels := labels + [piece];
      qname := qname + (piece + [DOT]);
      work := work + 1 + len;
      current := current + len;
    }
    DottedIsJoin(labels);
    if qname != [] && qname[|qname| - 1] == DOT {
      qname := qname[..|qname| - 1];
    }
    return Ok((qname, endOffset)), work;
  }

  lemma ResumeStart(r: Result<Walked>)
    ensures Resume([], false, 0, r) == r
  {
    if r.Ok? {
      assert [] + r.value.labels == r.value.labels;
    }
  }

  /** One turn of the name-reading loop, seen on the walk and on the work that remain. */
  lemma WalkStep(buf: seq<byte>, cur: nat, left: nat, prefix: seq<Label>, jumped: bool, end: nat)
    ensures cur >= |buf| ==>
              && Resume(prefix, jumped, end, Walk(buf, cur, left)) == Err(Truncated("qname label length"))
              && BytesRead(buf, cur, left) == 0
    ensures cur < |buf| && IsPointer(buf[cur]) && cur + 1 >= |buf| ==>
              && Resume(prefix, jumped, end, Walk(buf, cur, left)) == Err(Truncated("compression pointer"))
              && BytesRead(buf, cur, left) == 1
    ensures cur + 1 < |buf| && IsPointer(buf[cur]) && left == 0 ==>
              && Resume(prefix, jumped, end, Walk(buf, cur, left)) == Err(PointerLoop)
              && BytesRead(buf, cur, left) == 2
    ensures cur + 1 < |buf| && IsPointer(buf[cur]) && left > 0 ==>
              var target := PointerTarget(buf[cur], buf[cur + 1]);
              && Resume(prefix, jumped, end, Walk(buf, cur, left))
                 == Resume(prefix, true, if jumped then end else cur + 2, Walk(buf, target, left - 1))
              && BytesRead(buf, cur, left) == 2 + BytesRead(buf, target, left - 1)
    ensures cur < |buf| && buf[cur] == 0 ==>
              && Resume(prefix, jumped, end, Walk(buf, cur, left))
                 == Ok(Walked(prefix, if jumped then end else cur + 1))
              && BytesRead(buf, cur, left) == 1
    ensures cur < |buf| && 0 < buf[cur] < 64 && cur + 1 + buf[cur] > |buf| ==>
              && Resume(prefix, jumped, end, Walk(buf, cur, left)) == Err(Truncated("qname label"))
              && BytesRead(buf, cur, left) == 1
    ensures cur < |buf| && 0 < buf[cur] < 64 && cur + 1 + buf[cur] <= |buf| ==>
              var next := cur + 1 + buf[cur];
              && Resume(prefix, jumped, end, Walk(buf, cur, left))
                 == Resume(prefix + [buf[cur + 1..next]], jumped, end, Walk(buf, next, left))
              && BytesRead(buf, cur, left) == 1 + buf[cur] + BytesRead(buf, next, left)
  {
    if cur < |buf| && buf[cur] == 0 {
      assert prefix + [] == prefix;
    } else if cur < |buf| && buf[cur] < 64 && cur + 1 + buf[cur] <= |buf| {
      var next := cur + 1 + buf[cur];
      var rest := Walk(buf, next, left);
      if rest.Ok? {
        var l := buf[cur + 1..next];
        assert prefix + [l] + rest.value.labels == prefix + ([l] + rest.value.labels);
      }
    }
  }

  method ReadCharacterStrings(data: seq<byte>) returns (r: Result<Text>)
    ensures r == ParseCharacterStrings(data)
  {
    var text: Text, i: nat := [], 0;
    assert data[0..] == data;
    assert forall t: Text :: text + t == t;
    while i < |data|
      invariant 0 <= i <= |data|
      invariant ParseCharacterStrings(data)
             == match ParseCharacterStrings(data[i..]) case Err(e) => Err(e) case Ok(t) => Ok(text + t)
    {
      var len := data[i];
      ghost var rest := data[i..];
      i := i + 1;
      if i + len > |data| {
        return Err(Truncated("TXT character-string"));
      }
      assert rest[1..1 + len] == data[i..i + len] && rest[1 + len..] == data[i + len..];
      ghost var before, piece := text, data[i..i + len];
      text := text + data[i..i + len];
      i := i + len;
      assert forall t: Text :: before + (piece + t) == before + piece + t;
    }
    assert data[i..] == [] && text + [] == text;
    return Ok(text);
  }

  function Prefixed<T>(done: seq<T>, r: Result<(seq<T>, nat)>): Result<(seq<T>, nat)> {
    match r case Err(e) => Err(e) case Ok((xs, end)) => Ok((done + xs, end))
  }

  lemma PrefixedNone<T>(r: Result<(seq<T>, nat)>)
    ensures Prefixed([], r) == r
  {
    if r.Ok? {
      assert [] + r.value.0 == r.value.0;
    }
  }

  lemma PrefixedMore<T>(done: seq<T>, some: seq<T>, r: Result<(seq<T>, nat)>)
    ensures Prefixed(done + some, r) == Prefixed(done, Prefixed(some, r))
  {
    if r.Ok? {
      assert done + some + r.value.0 == done + (some + r.value.0);
    }
  }

  method ReadQuestions(buf: seq<byte>, start: nat, count: nat) returns (r: Result<(seq<DnsQuestion>, nat)>)
    ensures r == ParseQuestions(buf, start, count)
  {
    hide ParseName, ReadU16;
    var questions: seq<DnsQuestion>, offset: nat := [], start;
    PrefixedNone(ParseQuestions(buf, start, count));
    for i := 0 to count
      invariant ParseQuestions(buf, start, count) == Prefixed(questions, ParseQuestions(buf, offset, count - i))
    {
      var name, _ := ParseQname(buf, offset);
      if name.Err? {
        return Err(name.error);
      }
      var at := name.value.1;
      if at + 4 > |buf| {
        return Err(Truncated("question"));
      }
      var q := DnsQuestion(name.value.0, ReadU16(buf, at), ReadU16(buf, at + 2));
      PrefixedMore(questions, [q], ParseQuestions(buf, at + 4, count - i - 1));
      questions := questions + [q];
      offset := at + 4;
    }
    assert questions + [] == questions;
    return Ok((questions, offset));
  }

  method ReadSection(buf: seq<byte>, start: nat, count: nat) returns (r: Result<(seq<DnsRecord>, nat)>)
    ensures r == ParseRecords(buf, start, count)
  {
    hide ParseRecord;
    var records: seq<DnsRecord>, offset: nat := [], start;
    PrefixedNone(ParseRecords(buf, start, count));
    for i := 0 to count
      invariant ParseRecords(buf, start, count) == Prefixed(records, ParseRecords(buf, offset, count - i))
    {
      var parsed := ParseRecord(buf, offset);
      if parsed.Err? {
        return Err(parsed.error);
      }
      var (record, next) := parsed.value;
      PrefixedMore(records, Keep(record), ParseRecords(buf, next, count - i - 1));
      if record.Some? {
        records := records + [record.value];
      } else {
        assert records + [] == records;
      }
      offset := next;
    }
    assert records + [] == records;
    return Ok((records, offset));
  }

  /** `from_bytes`; `RdataOverrun` stands for the panic of the RRSIG and NSEC arms. */
  method ReadPacket(buf: seq<byte>) returns (r: Result<DnsPacket>)
    ensures r == FromBytes(buf)
    ensures r == Err(RdataOverrun) <==> SomeRecordOverruns(buf)
  {
    OverrunsExactly(buf);
    hide ParseQuestions, ParseRecords, ParseHeader;
    if |buf| < 12 {
      return Err(Truncated("header"));
    }
    var header := ParseHeader(buf);
    var questions :- ReadQuestions(buf, 12, header.questions);
    var answers :- ReadSection(buf, questions.1, header.answers);
    var authorities :- ReadSection(buf, answers.1, header.authorities);
    var additionals :- ReadSection(buf, authorities.1, header.additionals);
    return Ok(DnsPacket(header, questions.0, answers.0, authorities.0, additionals.0));
  }
}
