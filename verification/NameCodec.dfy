/**
  * Name compression (section 4.1.4 of RFC 1035): the reading side follows
  * pointers with a jump budget, the writing side points back at any suffix it
  * has already written.
  */
module NameCodec {
  import opened Bytes
  import opened Names

  /** `RdataOverrun` stands for the slice panics of RRSIG and NSEC parsing. */
  datatype DnsError =
    | Truncated(what: string)
    | InvalidRdata(rtype: u16)
    | PointerLoop
    | RdataOverrun

  datatype Result<+T> = Ok(value: T) | Err(error: DnsError) {
    predicate IsFailure() { Err? }

    function PropagateFailure<U>(): Result<U>
      requires Err?
    {
      Err(error)
    }

    function Extract(): T
      requires Ok?
    {
      value
    }
  }

  // ----- Reading -----

  const MAX_POINTER_JUMPS: nat := 64

  /** The labels found by following a name, and where the text after it starts. */
  datatype Walked = Walked(labels: seq<Label>, end: nat)

  predicate IsPointer(b: byte) { b >= 64 }

  function PointerTarget(hi: byte, lo: byte): nat { hi % 64 * 256 + lo }

  /** Follows the name at `cur`, with at most `budget` pointer jumps left. */
  function Walk(buf: seq<byte>, cur: nat, budget: nat): (r: Result<Walked>)
    ensures r.Ok? ==> cur < r.value.end <= |buf|
    decreases budget, |buf| - cur
  {
    if cur >= |buf| then Err(Truncated("qname label length"))
    else if IsPointer(buf[cur]) then
      if cur + 1 >= |buf| then Err(Truncated("compression pointer"))
      else if budget == 0 then Err(PointerLoop)
      else
        var w :- Walk(buf, PointerTarget(buf[cur], buf[cur + 1]), budget - 1);
        Ok(Walked(w.labels, cur + 2))
    else if buf[cur] == 0 then Ok(Walked([], cur + 1))
    else if cur + 1 + buf[cur] > |buf| then Err(Truncated("qname label"))
    else
      var w :- Walk(buf, cur + 1 + buf[cur], budget);
      Ok(Walked([buf[cur + 1..cur + 1 + buf[cur]]] + w.labels, w.end))
  }

  /** The number of buffer bytes the walk looks at, counted with repetition. */
  function BytesRead(buf: seq<byte>, cur: nat, budget: nat): nat
    decreases budget, |buf| - cur
  {
    if cur >= |buf| then 0
    else if IsPointer(buf[cur]) then
      if cur + 1 >= |buf| then 1
      else if budget == 0 then 2
      else 2 + BytesRead(buf, PointerTarget(buf[cur], buf[cur + 1]), budget - 1)
    else if buf[cur] == 0 then 1
    else if cur + 1 + buf[cur] > |buf| then 1
    else 1 + buf[cur] + BytesRead(buf, cur + 1 + buf[cur], budget)
  }

  /** Every walk, through pointer cycles too, reads each byte at most once per jump. */
  lemma {:induction false} WorkBound(buf: seq<byte>, cur: nat, budget: nat)
    ensures BytesRead(buf, cur, budget) <= Max(0, |buf| - cur) + budget * |buf|
    decreases budget, |buf| - cur
  {
    if cur < |buf| {
      if IsPointer(buf[cur]) {
        if cur + 1 < |buf| && budget > 0 {
          WorkBound(buf, PointerTarget(buf[cur], buf[cur + 1]), budget - 1);
          assert budget * |buf| == (budget - 1) * |buf| + |buf|;
        } else {
          assert budget * |buf| >= 0;
        }
      } else if buf[cur] != 0 && cur + 1 + buf[cur] <= |buf| {
        WorkBound(buf, cur + 1 + buf[cur], budget);
      } else {
        assert budget * |buf| >= 0;
      }
    }
  }

  /** A larger jump budget never changes a successful walk. */
  lemma {:induction false} WalkMoreBudget(buf: seq<byte>, cur: nat, budget: nat, more: nat)
    requires budget <= more && Walk(buf, cur, budget).Ok?
    ensures Walk(buf, cur, more) == Walk(buf, cur, budget)
    decreases budget, |buf| - cur
  {
    if IsPointer(buf[cur]) {
      WalkMoreBudget(buf, PointerTarget(buf[cur], buf[cur + 1]), budget - 1, more - 1);
    } else if buf[cur] != 0 {
      WalkMoreBudget(buf, cur + 1 + buf[cur], budget, more);
    }
  }

  /** Appending bytes never changes a walk that does not run off the end. */
  lemma {:induction false} WalkExtends(buf: seq<byte>, more: seq<byte>, cur: nat, budget: nat)
    requires Walk(buf, cur, budget).Ok? || Walk(buf, cur, budget) == Err(PointerLoop)
    ensures Walk(buf + more, cur, budget) == Walk(buf, cur, budget)
    decreases budget, |buf| - cur
  {
    assert (buf + more)[cur] == buf[cur];
    if IsPointer(buf[cur]) {
      assert (buf + more)[cur + 1] == buf[cur + 1];
      if budget > 0 {
        WalkExtends(buf, more, PointerTarget(buf[cur], buf[cur + 1]), budget - 1);
      }
    } else if buf[cur] != 0 {
      var next := cur + 1 + buf[cur];
      assert (buf + more)[cur + 1..next] == buf[cur + 1..next];
      WalkExtends(buf, more, next, budget);
    }
  }

  /** `parse_qname`: the dotted name at `offset` and the offset after it. */
  function ParseName(buf: seq<byte>, offset: nat): (r: Result<(Text, nat)>)
    ensures r.Ok? ==> offset < r.value.1 <= |buf|
  {
    var w :- Walk(buf, offset, MAX_POINTER_JUMPS);
    Ok((Join(w.labels), w.end))
  }

  // ----- Writing -----

  /** A position that fits in the 14 bits of a compression pointer. */
  type Ptr = x: nat | x <= 0x3FFF

  /** For each suffix already written, where its first label starts. */
  type Offsets = map<Text, Ptr>

  /** The bytes a writer appends, and its name table afterwards. */
  datatype Emit = Emit(bytes: seq<byte>, offs: Offsets)

  /** Only 63 bytes of a label can be represented. */
  function Cut(l: Label): (r: Label)
    ensures |r| <= 63
  {
    if |l| <= 63 then l else l[..63]
  }

  /** A label as written: its length, then its bytes. */
  function LabelBytes(l: Label): (b: seq<byte>)
    ensures 1 <= |b| <= 64
  {
    [|Cut(l)|] + Cut(l)
  }

  function PointerBytes(p: Ptr): (b: seq<byte>)
    ensures |b| == 2
  {
    var x: int := p;
    U16(0xC000 + x)
  }

  /** What writing the name with these labels at `pos` appends. */
  function EmitName(offs: Offsets, pos: nat, labels: seq<Label>): Emit
    decreases |labels|
  {
    if labels == [] then Emit([0], offs)
    else
      var suffix := Join(labels);
      if suffix in offs then Emit(PointerBytes(offs[suffix]), offs)
      else
        var offs' := if pos <= 0x3FFF then offs[suffix := pos] else offs;
        var l := LabelBytes(labels[0]);
        var rest := EmitName(offs', pos + |l|, labels[1..]);
        Emit(l + rest.bytes, rest.offs)
  }

  /** What writing the name without compression appends. */
  function PlainName(labels: seq<Label>): seq<byte> {
    if labels == [] then [0]
    else LabelBytes(labels[0]) + PlainName(labels[1..])
  }

  predicate GoodLabels(labels: seq<Label>) {
    Dotless(labels) && forall i :: 0 <= i < |labels| ==> 1 <= |labels[i]| <= 63
  }

  /** A name the wire format can carry: labels of 1 to 63 bytes. */
  predicate GoodName(name: Text) { GoodLabels(Labels(name)) }

  // ----- How many jumps a written name takes -----

  /** For each suffix in the name table, the jumps it takes to read it where it was written. */
  type Depths = map<Text, nat>

  /** The jumps a reader needs, and the depths after writing. */
  datatype Reach = Reach(jumps: nat, depths: Depths)

  /** A pointer takes one jump more than the suffix it points at; a label takes none. */
  function NameReach(offs: Offsets, depths: Depths, pos: nat, labels: seq<Label>): Reach
    decreases |labels|
  {
    if labels == [] then Reach(0, depths)
    else
      var suffix := Join(labels);
      if suffix in offs then Reach(if suffix in depths then depths[suffix] + 1 else 1, depths)
      else
        var offs' := if pos <= 0x3FFF then offs[suffix := pos] else offs;
        var rest := NameReach(offs', depths, pos + |LabelBytes(labels[0])|, labels[1..]);
        Reach(rest.jumps, if pos <= 0x3FFF then rest.depths[suffix := rest.jumps] else rest.depths)
  }

  /** What a reader with the real budget gets: the value, or a pointer loop if it takes too many jumps. */
  function Within<T>(jumps: nat, value: T): Result<T> {
    if jumps <= MAX_POINTER_JUMPS then Ok(value) else Err(PointerLoop)
  }

  // ----- Writing, then reading -----

  /** Reading at `at` gives these labels with `jumps` jumps or more, and a pointer loop with fewer. */
  ghost predicate TakesJumps(buf: seq<byte>, at: nat, labels: seq<Label>, jumps: nat) {
    forall budget: nat ::
      var r := Walk(buf, at, budget);
      if budget >= jumps then r.Ok? && r.value.labels == labels else r == Err(PointerLoop)
  }

  /** A good `suffix` was written at `at`, after the header, and takes `jumps` jumps: fewer than it has labels. */
  ghost predicate Decodes(buf: seq<byte>, suffix: Text, at: nat, jumps: nat) {
    && suffix != [] && GoodName(suffix)
    && 12 <= at < |buf|
    && !IsPointer(buf[at])
    && jumps < |Labels(suffix)|
    && TakesJumps(buf, at, Labels(suffix), jumps)
  }

  /** Every remembered suffix can be read back where it was written, with exactly its depth in jumps. */
  ghost predicate Sound(buf: seq<byte>, offs: Offsets, depths: Depths) {
    forall s :: s in offs ==> s in depths && Decodes(buf, s, offs[s], depths[s])
  }

  /** The encoder's invariant. */
  ghost predicate OffsetsDecode(buf: seq<byte>, offs: Offsets) {
    exists depths: Depths :: Sound(buf, offs, depths)
  }

  /** The part of the invariant that a name of `n` labels can look at. */
  ghost predicate ShortSound(buf: seq<byte>, offs: Offsets, depths: Depths, n: nat) {
    forall s :: s in offs && |Labels(s)| <= n ==> s in depths && Decodes(buf, s, offs[s], depths[s])
  }

  /** The later tables keep every entry of the earlier ones and add only entries that decode. */
  ghost predicate OnlyAddsGood(buf: seq<byte>, offs: Offsets, depths: Depths, offs': Offsets, depths': Depths) {
    && (forall s :: s in offs ==> s in offs' && offs'[s] == offs[s])
    && (forall s :: s in offs && s in depths ==> s in depths' && depths'[s] == depths[s])
    && (forall s :: s in offs' && s !in offs ==> s in depths' && Decodes(buf, s, offs'[s], depths'[s]))
  }

  lemma LabelsJoin(labels: seq<Label>)
    requires |labels| > 0 && GoodLabels(labels)
    ensures Labels(Join(labels)) == labels && Join(labels) != []
  {
    SplitJoin(labels);
  }

  lemma GoodTail(labels: seq<Label>)
    requires labels != [] && GoodLabels(labels)
    ensures GoodLabels(labels[1..]) && [labels[0]] + labels[1..] == labels
    ensures Cut(labels[0]) == labels[0] && 1 <= |labels[0]| <= 63
  {}

  /** What a label in front of a name makes of reading it. */
  function Labelled(l: Label, r: Result<Walked>): Result<Walked> {
    match r case Ok(w) => Ok(Walked([l] + w.labels, w.end)) case Err(e) => Err(e)
  }

  lemma WalkLabel(buf: seq<byte>, pos: nat, l: Label, budget: nat)
    requires 1 <= |l| <= 63 && At(buf, pos, LabelBytes(l))
    ensures Walk(buf, pos, budget) == Labelled(l, Walk(buf, pos + |LabelBytes(l)|, budget))
    ensures pos < |buf| && !IsPointer(buf[pos])
  {
    AtIndex(buf, pos, LabelBytes(l), 0);
    AtSplit(buf, pos, [|l|], l);
  }

  lemma WalkRoot(buf: seq<byte>, pos: nat, budget: nat)
    requires At(buf, pos, [0])
    ensures Walk(buf, pos, budget) == Ok(Walked([], pos + 1))
  {
    AtIndex(buf, pos, [0], 0);
  }

  lemma WalkPointer(buf: seq<byte>, pos: nat, target: Ptr, budget: nat)
    requires At(buf, pos, PointerBytes(target))
    ensures budget == 0 ==> Walk(buf, pos, budget) == Err(PointerLoop)
    ensures budget > 0 ==>
              match Walk(buf, target, budget - 1)
              case Ok(w) => Walk(buf, pos, budget) == Ok(Walked(w.labels, pos + 2))
              case Err(e) => Walk(buf, pos, budget) == Err(e)
  {
    PointerReads(target);
    AtIndex(buf, pos, PointerBytes(target), 0);
    AtIndex(buf, pos, PointerBytes(target), 1);
    hide PointerBytes, PointerTarget, IsPointer, At;
  }

  lemma PointerReads(target: Ptr)
    ensures var b := PointerBytes(target);
            IsPointer(b[0]) && PointerTarget(b[0], b[1]) == target
  {}

  /** What reading a written name gives, for every budget. */
  function ReadBack(labels: seq<Label>, end: nat, jumps: nat, budget: nat): Result<Walked> {
    if budget >= jumps then Ok(Walked(labels, end)) else Err(PointerLoop)
  }

  /**
    * A name written into any buffer is read back from it exactly when the budget covers
    * its reach, which is no more than its labels, and every suffix it registers decodes too.
    */
  lemma {:induction false} EmitNameDecodes(buf: seq<byte>, offs: Offsets, depths: Depths, pos: nat,
                                           labels: seq<Label>, budget: nat)
    requires GoodLabels(labels) && pos >= 12
    requires ShortSound(buf, offs, depths, |labels|)
    requires At(buf, pos, EmitName(offs, pos, labels).bytes)
    ensures var e, reach := EmitName(offs, pos, labels), NameReach(offs, depths, pos, labels);
            && reach.jumps <= |labels|
            && Walk(buf, pos, budget) == ReadBack(labels, pos + |e.bytes|, reach.jumps, budget)
            && OnlyAddsGood(buf, offs, depths, e.offs, reach.depths)
    decreases |labels|
  {
    hide Walk, Join, Labels, GoodLabels, At;
    if labels == [] {
      WalkRoot(buf, pos, budget);
    } else {
      LabelsJoin(labels);
      var suffix := Join(labels);
      if suffix in offs {
        assert Decodes(buf, suffix, offs[suffix], depths[suffix]);
        WalkPointer(buf, pos, offs[suffix], budget);
      } else {
        EmitLabelDecodes(buf, offs, depths, pos, labels, budget);
      }
    }
  }

  lemma {:induction false} EmitLabelDecodes(buf: seq<byte>, offs: Offsets, depths: Depths, pos: nat,
                                            labels: seq<Label>, budget: nat)
    requires labels != [] && GoodLabels(labels) && pos >= 12
    requires ShortSound(buf, offs, depths, |labels|)
    requires Join(labels) !in offs && Join(labels) != [] && Labels(Join(labels)) == labels
    requires At(buf, pos, EmitName(offs, pos, labels).bytes)
    ensures var e, reach := EmitName(offs, pos, labels), NameReach(offs, depths, pos, labels);
            && reach.jumps <= |labels|
            && Walk(buf, pos, budget) == ReadBack(labels, pos + |e.bytes|, reach.jumps, budget)
            && OnlyAddsGood(buf, offs, depths, e.offs, reach.depths)
    decreases |labels|, 0
  {
    hide Walk, Join, Labels, GoodLabels, At, LabelBytes;
    var l, tail, suffix := labels[0], labels[1..], Join(labels);
    var offs' := if pos <= 0x3FFF then offs[suffix := pos] else offs;
    var at := pos + |LabelBytes(l)|;
    var rest, reach := EmitName(offs', at, tail), NameReach(offs', depths, at, tail);
    AtSplit(buf, pos, LabelBytes(l), rest.bytes);
    GoodTail(labels);
    ShortSoundTail(buf, offs, depths, pos, suffix, |tail|);
    hide ShortSound, OnlyAddsGood, Decodes;
    forall b: nat
      ensures Walk(buf, pos, b) == ReadBack(labels, at + |rest.bytes|, reach.jumps, b)
    {
      EmitNameDecodes(buf, offs', depths, at, tail, b);
      WalkLabel(buf, pos, l, b);
    }
    EmitNameDecodes(buf, offs', depths, at, tail, budget);
    WalkLabel(buf, pos, l, budget);
    NowDecodes(buf, suffix, pos, labels, at + |rest.bytes|, reach.jumps);
    AddsOne(buf, offs, depths, pos, suffix, rest.offs, reach);
  }

  /** The new entry is too long for its own tail to look at. */
  lemma ShortSoundTail(buf: seq<byte>, offs: Offsets, depths: Depths, pos: nat, suffix: Text, n: nat)
    requires ShortSound(buf, offs, depths, n + 1) && |Labels(suffix)| == n + 1
    ensures ShortSound(buf, if pos <= 0x3FFF then offs[suffix := pos] else offs, depths, n)
  {
    hide Decodes, Labels;
  }

  lemma NowDecodes(buf: seq<byte>, suffix: Text, pos: nat, labels: seq<Label>, end: nat, jumps: nat)
    requires suffix != [] && Labels(suffix) == labels && GoodLabels(labels) && jumps < |labels|
    requires 12 <= pos < |buf| && !IsPointer(buf[pos])
    requires forall b: nat :: Walk(buf, pos, b) == ReadBack(labels, end, jumps, b)
    ensures Decodes(buf, suffix, pos, jumps)
  {
    hide Walk, Labels;
  }

  /** Registering a name on top of its tail. */
  lemma AddsOne(buf: seq<byte>, offs: Offsets, depths: Depths, pos: nat, suffix: Text, after: Offsets, reach: Reach)
    requires suffix !in offs && (pos <= 0x3FFF ==> Decodes(buf, suffix, pos, reach.jumps))
    requires var offs' := if pos <= 0x3FFF then offs[suffix := pos] else offs;
             OnlyAddsGood(buf, offs', depths, after, reach.depths)
    ensures var depths' := if pos <= 0x3FFF then reach.depths[suffix := reach.jumps] else reach.depths;
            OnlyAddsGood(buf, offs, depths, after, depths')
  {
    hide Decodes;
  }

  /** The name alone, with the budget the parser really has. */
  lemma NameRoundTrip(buf: seq<byte>, offs: Offsets, depths: Depths, pos: nat, name: Text)
    requires GoodName(name) && pos >= 12 && Sound(buf, offs, depths)
    requires At(buf, pos, EmitName(offs, pos, Labels(name)).bytes)
    ensures var e, reach := EmitName(offs, pos, Labels(name)), NameReach(offs, depths, pos, Labels(name));
            && ParseName(buf, pos) == Within(reach.jumps, (name, pos + |e.bytes|))
            && reach.jumps <= |Labels(name)|
            && Sound(buf, e.offs, reach.depths)
  {
    hide Walk, Decodes, EmitName, NameReach, At, GoodLabels;
    EmitNameDecodes(buf, offs, depths, pos, Labels(name), MAX_POINTER_JUMPS);
    JoinLabels(name);
  }

  lemma {:induction false} PlainNameWalks(buf: seq<byte>, pos: nat, labels: seq<Label>, budget: nat)
    requires GoodLabels(labels) && At(buf, pos, PlainName(labels))
    ensures Walk(buf, pos, budget) == Ok(Walked(labels, pos + |PlainName(labels)|))
    decreases |labels|
  {
    hide Walk, GoodLabels, At, LabelBytes;
    if labels == [] {
      WalkRoot(buf, pos, budget);
    } else {
      var l, tail := labels[0], labels[1..];
      var at := pos + |LabelBytes(l)|;
      AtSplit(buf, pos, LabelBytes(l), PlainName(tail));
      GoodTail(labels);
      PlainNameWalks(buf, at, tail, budget);
      WalkLabel(buf, pos, l, budget);
    }
  }

  lemma PlainNameRoundTrip(buf: seq<byte>, pos: nat, name: Text)
    requires GoodName(name) && At(buf, pos, PlainName(Labels(name)))
    ensures ParseName(buf, pos) == Ok((name, pos + |PlainName(Labels(name))|))
  {
    hide Walk, PlainName, GoodLabels, Labels;
    PlainNameWalks(buf, pos, Labels(name), MAX_POINTER_JUMPS);
    JoinLabels(name);
  }

  /** Compression never makes a name longer, and a name takes at least one byte. */
  lemma {:induction false} EmitNameShorter(offs: Offsets, pos: nat, labels: seq<Label>)
    ensures 1 <= |EmitName(offs, pos, labels).bytes| <= |PlainName(labels)| + 1
    ensures GoodLabels(labels) ==> |EmitName(offs, pos, labels).bytes| <= |PlainName(labels)|
    decreases |labels|
  {
    if labels != [] {
      var suffix := Join(labels);
      if suffix !in offs {
        var offs' := if pos <= 0x3FFF then offs[suffix := pos] else offs;
        EmitNameShorter(offs', pos + |LabelBytes(labels[0])|, labels[1..]);
      }
    }
  }

  lemma AppendDecodes(buf: seq<byte>, more: seq<byte>, suffix: Text, at: nat, jumps: nat)
    requires Decodes(buf, suffix, at, jumps)
    ensures Decodes(buf + more, suffix, at, jumps)
  {
    hide Walk, Labels;
    forall budget: nat
      ensures Walk(buf + more, at, budget) == Walk(buf, at, budget)
    {
      WalkExtends(buf, more, at, budget);
    }
  }

  /** Appending bytes to the buffer keeps every depth. */
  lemma AppendKeepsSound(buf: seq<byte>, more: seq<byte>, offs: Offsets, depths: Depths)
    requires Sound(buf, offs, depths)
    ensures Sound(buf + more, offs, depths)
  {
    hide Decodes;
    forall s | s in offs
      ensures Decodes(buf + more, s, offs[s], depths[s])
    {
      AppendDecodes(buf, more, s, offs[s], depths[s]);
    }
  }
}
