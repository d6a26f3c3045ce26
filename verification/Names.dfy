/** Domain names as dotted text, their labels, and suffixes on a label boundary. */
module Names {
  import opened Bytes

  type Label = Text

  const DOT: byte := 46
  const STAR: byte := 42

  /** Puts one more character in front of an already split text. */
  function Prepend(c: byte, ls: seq<Label>): (r: seq<Label>)
    requires |ls| >= 1
    ensures |r| >= 1
  {
    if c == DOT then [[]] + ls else [[c] + ls[0]] + ls[1..]
  }

  /** Rust's `str::split('.')`: always at least one piece. */
  function Split(s: Text): (ls: seq<Label>)
    ensures |ls| >= 1
  {
    if s == [] then [[]] else Prepend(s[0], Split(s[1..]))
  }

  function Join(ls: seq<Label>): Text {
    if |ls| == 0 then []
    else if |ls| == 1 then ls[0]
    else ls[0] + [DOT] + Join(ls[1..])
  }

  /** The labels of a name; the root name is the empty text and has none. */
  function Labels(name: Text): seq<Label> {
    if name == [] then [] else Split(name)
  }

  predicate Dotless(ls: seq<Label>) {
    forall i :: 0 <= i < |ls| ==> DOT !in ls[i]
  }

  lemma {:induction false} SplitDotless(s: Text)
    ensures Dotless(Split(s))
  {
    if s != [] {
      SplitDotless(s[1..]);
    }
  }

  lemma JoinCons(a: Label, ls: seq<Label>)
    ensures Join([a] + ls) == if ls == [] then a else a + [DOT] + Join(ls)
  {
    assert ([a] + ls)[1..] == ls;
  }

  lemma JoinPrepend(c: byte, ls: seq<Label>)
    requires |ls| >= 1
    ensures Join(Prepend(c, ls)) == [c] + Join(ls)
  {
    hide Join;
    if c == DOT {
      JoinCons([], ls);
      assert [] + [DOT] == [DOT];
    } else {
      JoinCons(ls[0], ls[1..]);
      assert [ls[0]] + ls[1..] == ls;
      JoinCons([c] + ls[0], ls[1..]);
      FirstByte(c, ls[0], Join(ls[1..]));
    }
  }

  lemma FirstByte(c: byte, a: Text, rest: Text)
    ensures [c] + a + [DOT] + rest == [c] + (a + [DOT] + rest)
  {}

  lemma {:induction false} JoinSplit(s: Text)
    ensures Join(Split(s)) == s
  {
    if s != [] {
      hide Prepend, Join;
      JoinSplit(s[1..]);
      JoinPrepend(s[0], Split(s[1..]));
    }
  }

  lemma JoinLabels(name: Text)
    ensures Join(Labels(name)) == name
  {
    JoinSplit(name);
  }

  lemma {:induction false} SplitConcat(a: Text, b: Text)
    ensures Split(a + [DOT] + b) == Split(a) + Split(b)
  {
    var whole := a + [DOT] + b;
    if a == [] {
      assert whole[1..] == b;
    } else {
      SplitConcat(a[1..], b);
      assert whole[0] == a[0] && whole[1..] == a[1..] + [DOT] + b;
      PrependConcat(a[0], Split(a[1..]), Split(b));
    }
  }

  lemma PrependConcat(c: byte, r: seq<Label>, t: seq<Label>)
    requires |r| >= 1
    ensures Prepend(c, r + t) == Prepend(c, r) + t
  {
    assert (r + t)[1..] == r[1..] + t;
  }

  lemma {:induction false} SplitSingle(l: Label)
    requires DOT !in l
    ensures Split(l) == [l]
  {
    if l != [] {
      SplitSingle(l[1..]);
      assert [l[0]] + l[1..] == l;
    }
  }

  lemma {:induction false} SplitJoin(ls: seq<Label>)
    requires |ls| > 0 && Dotless(ls)
    ensures Split(Join(ls)) == ls
  {
    SplitSingle(ls[0]);
    if |ls| > 1 {
      SplitJoin(ls[1..]);
      SplitConcat(ls[0], Join(ls[1..]));
      assert [ls[0]] + ls[1..] == ls;
    } else {
      assert ls == [ls[0]];
    }
  }

  // ----- Case folding -----

  function LowerByte(b: byte): byte { if 65 <= b <= 90 then b + 32 else b }

  function Lower(s: Text): (r: Text)
    ensures |r| == |s|
    ensures forall i :: 0 <= i < |s| ==> r[i] == LowerByte(s[i])
  {
    seq(|s|, i requires 0 <= i < |s| => LowerByte(s[i]))
  }

  /** The same letter up to the case of A to Z, or the same byte. */
  predicate SameLetter(x: byte, y: byte) {
    x == y || (65 <= x <= 90 && 97 <= y <= 122 && y == x + 32) || (97 <= x <= 122 && 65 <= y <= 90 && x == y + 32)
  }

  predicate SameName(a: Text, b: Text) {
    |a| == |b| && forall i :: 0 <= i < |a| ==> SameLetter(a[i], b[i])
  }

  predicate NoCapitals(s: Text) {
    forall i :: 0 <= i < |s| ==> !(65 <= s[i] <= 90)
  }

  /** Folding gives the one name without capitals that is the same name. */
  lemma LowerFolds(s: Text, t: Text)
    ensures t == Lower(s) <==> SameName(s, t) && NoCapitals(t)
  {
    if SameName(s, t) && NoCapitals(t) {
      assert forall i :: 0 <= i < |s| ==> t[i] == Lower(s)[i];
    }
  }

  /** Two names fold to the same exactly when they are byte for byte equal up to case. */
  lemma SameWhenFolded(a: Text, b: Text)
    ensures Lower(a) == Lower(b) <==> SameName(a, b)
  {
    if Lower(a) == Lower(b) {
      assert forall i :: 0 <= i < |a| ==> Lower(a)[i] == Lower(b)[i];
    }
  }

  // ----- Suffixes on a label boundary -----

  predicate EndsWith(s: Text, t: Text) {
    |t| <= |s| && s[|s| - |t|..] == t
  }

  /** `name` is a strict descendant of `s`: it ends with a dot followed by `s`. */
  predicate Below(name: Text, s: Text) {
    EndsWith(name, [DOT] + s)
  }

  predicate AtOrBelow(name: Text, s: Text) {
    name == s || Below(name, s)
  }

  predicate ListSuffix<T(==)>(whole: seq<T>, part: seq<T>) {
    |part| <= |whole| && whole[|whole| - |part|..] == part
  }

  /** The textual test is exactly the label-list suffix relation. */
  lemma AtOrBelowIsLabelSuffix(name: Text, s: Text)
    ensures AtOrBelow(name, s) <==> ListSuffix(Split(name), Split(s))
    ensures Below(name, s) <==> ListSuffix(Split(name), Split(s)) && |Split(s)| < |Split(name)|
  {
    if Below(name, s) {
      var a := name[..|name| - |s| - 1];
      assert name == a + [DOT] + s;
      SplitConcat(a, s);
    }
    if ListSuffix(Split(name), Split(s)) {
      var n := |Split(name)| - |Split(s)|;
      JoinSplit(name);
      JoinSplit(s);
      if n > 0 {
        JoinDrop(Split(name), n);
      } else {
        assert Split(name)[0..] == Split(name);
      }
    }
  }

  /** Joining all but the first `n` labels leaves a strict descendant. */
  lemma {:induction false} JoinDrop(ls: seq<Label>, n: nat)
    requires 0 < n < |ls|
    ensures Below(Join(ls), Join(ls[n..]))
  {
    if n > 1 {
      JoinDrop(ls[1..], n - 1);
      assert ls[1..][n - 1..] == ls[n..];
    }
    var inner, whole := Join(ls[1..]), Join(ls);
    assert whole == ls[0] + [DOT] + inner;
    assert AtOrBelow(inner, Join(ls[n..]));
    assert whole[|whole| - |inner|..] == inner;
    if n > 1 {
      var t := [DOT] + Join(ls[n..]);
      assert inner[|inner| - |t|..] == t;
      assert whole[|whole| - |t|..] == inner[|inner| - |t|..];
    } else {
      assert whole[|whole| - |inner| - 1..] == [DOT] + inner;
    }
  }

  /** Two suffixes of one name: the shorter is a suffix of the longer, and equal lengths mean equal. */
  lemma SuffixesNest(name: Text, s: Text, t: Text)
    requires AtOrBelow(name, s) && AtOrBelow(name, t) && |s| <= |t|
    ensures AtOrBelow(t, s)
    ensures |s| == |t| ==> s == t
  {
    assert name[|name| - |s|..] == s;
    assert name[|name| - |t|..] == t;
    assert t[|t| - |s|..] == s;
    if |s| < |t| {
      assert name[|name| - |s| - 1..] == [DOT] + s;
      assert t[|t| - |s| - 1..] == [DOT] + s;
    }
  }
}
