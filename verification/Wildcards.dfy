/**
  * Wildcard lookup against RFC 4592. There a node exists when it or a descendant has an entry; an
  * existing name is never answered from a wildcard; and any other name is answered from the wildcard
  * of its closest encloser, its longest existing ancestor, alone. A node without an entry has no
  * data, be it the name itself or that wildcard (sections 3.3.1 and 4.9).
  */
module Wildcards {
  import opened Bytes
  import opened Names
  import opened Zones

  predicate Exists<V>(entries: map<Text, V>, node: Text) {
    exists e :: e in entries && AtOrBelow(e, node)
  }

  /** An entry, the stored one or a wildcard's; a node without entry (no data); or no such name. */
  datatype Answer<V> = Entry(value: V) | EmptyNode | NoName

  function ClosestEncloser<V>(entries: map<Text, V>, name: Text): Option<Text>
    decreases |name|
  {
    match AfterDot(name)
    case None => None
    case Some(parent) =>
      AfterDotIsParent(name);
      if Exists(entries, parent) then Some(parent) else ClosestEncloser(entries, parent)
  }

  /** What RFC 4592 answers. */
  function RfcLookup<V>(entries: map<Text, V>, name: Text): Answer<V> {
    if name in entries then Entry(entries[name])
    else if Exists(entries, name) then EmptyNode
    else
      match ClosestEncloser(entries, name)
      case None => NoName
      case Some(e) =>
        if Star(e) in entries then Entry(entries[Star(e)])
        else if Exists(entries, Star(e)) then EmptyNode
        else NoName
  }

  /** The server can only answer with an entry or with NXDOMAIN. */
  predicate Agrees<V(==)>(found: Option<V>, answer: Answer<V>) {
    match answer
    case Entry(v) => found == Some(v)
    case EmptyNode => false
    case NoName => found == None
  }

  lemma {:induction false} EncloserIsClosest<V>(entries: map<Text, V>, name: Text)
    ensures var e := ClosestEncloser(entries, name);
            && (e.None? ==> forall t :: Below(name, t) ==> !Exists(entries, t))
            && (e.Some? ==> Below(name, e.value) && Exists(entries, e.value)
                            && forall t :: Below(name, t) && Exists(entries, t) ==> |t| <= |e.value|)
    decreases |name|
  {
    hide Below, AtOrBelow, Exists;
    AfterDotIsParent(name);
    if AfterDot(name).Some? {
      var parent := AfterDot(name).value;
      forall t | Below(name, t)
        ensures |t| <= |parent| && (t == parent || Below(parent, t))
      {
        AtOrBelowShorter(parent, t);
      }
      if !Exists(entries, parent) {
        EncloserIsClosest(entries, parent);
        if ClosestEncloser(entries, parent).Some? {
          BelowTransitive(name, parent, ClosestEncloser(entries, parent).value);
        }
      }
    }
  }

  /** The parent of a wildcard entry exists. */
  lemma WildcardParentExists<V>(entries: map<Text, V>, s: Text)
    requires Star(s) in entries
    ensures Exists(entries, s)
  {
    assert Star(s)[|Star(s)| - |[DOT] + s|..] == [DOT] + s;
    assert AtOrBelow(Star(s), s);
  }

  /** No existing ancestor lies below the parent of the best wildcard. */
  ghost predicate NothingBetween<V>(entries: map<Text, V>, name: Text) {
    forall s, t :: BestWildcard(entries, name, s) && Below(name, t) && Exists(entries, t) ==> |t| <= |s|
  }

  ghost predicate IsClosest<V>(entries: map<Text, V>, name: Text, e: Text) {
    && Below(name, e) && Exists(entries, e)
    && (forall t :: Below(name, t) && Exists(entries, t) ==> |t| <= |e|)
  }

  /** The wildcard of the closest encloser has an entry, or does not exist at all. */
  ghost predicate SourceIsPlain<V>(entries: map<Text, V>, name: Text) {
    forall e :: IsClosest(entries, name, e) ==> Star(e) in entries || !Exists(entries, Star(e))
  }

  /**
    * Lookup answers as RFC 4592 does exactly when the name has an entry, or it does not exist at
    * all, no existing ancestor of it lies below the parent of the best wildcard, and the wildcard
    * of its closest encloser is no empty non-terminal.
    */
  lemma LookupAgreesExactly<V>(entries: map<Text, V>, name: Text)
    ensures Agrees(Lookup(entries, name), RfcLookup(entries, name)) <==>
            || name in entries
            || (!Exists(entries, name) && NothingBetween(entries, name) && SourceIsPlain(entries, name))
  {
    hide Below, Exists, Star, Wildcard, ClosestEncloser, BestWildcard;
    if name !in entries && !Exists(entries, name) {
      EncloserIsClosest(entries, name);
      var e := ClosestEncloser(entries, name);
      var s := WildcardIsBest(entries, name);
      if e.Some? {
        OnlyClosest(entries, name, e.value);
      }
      if Wildcard(entries, name).None? {
        NoBestWildcard(entries, name);
      } else {
        BestIsWildcard(entries, name, s);
        WildcardParentExists(entries, s);
        if |e.value| <= |s| {
          SameAncestor(name, e.value, s);
          OnlyBest(entries, name, s);
        } else {
          LongerHasNone(entries, name, s, e.value);
        }
      }
    }
  }

  lemma OnlyClosest<V>(entries: map<Text, V>, name: Text, e: Text)
    requires IsClosest(entries, name, e)
    ensures SourceIsPlain(entries, name) <==> Star(e) in entries || !Exists(entries, Star(e))
  {
    hide Below, Exists, Star;
    forall t | IsClosest(entries, name, t)
      ensures t == e
    {
      SameAncestor(name, t, e);
    }
  }

  lemma SameAncestor(name: Text, a: Text, b: Text)
    requires Below(name, a) && Below(name, b) && |a| == |b|
    ensures a == b
  {
    SuffixesNest(name, a, b);
  }

  lemma NoBestWildcard<V>(entries: map<Text, V>, name: Text)
    requires forall t :: Below(name, t) ==> Star(t) !in entries
    ensures NothingBetween(entries, name)
  {
    hide Below, Star, Exists;
  }

  lemma BestIsWildcard<V>(entries: map<Text, V>, name: Text, s: Text)
    requires BestWildcard(entries, name, s)
    ensures Below(name, s) && Star(s) in entries
  {}

  lemma OnlyBest<V>(entries: map<Text, V>, name: Text, s: Text)
    requires BestWildcard(entries, name, s)
    requires forall t :: Below(name, t) && Exists(entries, t) ==> |t| <= |s|
    ensures NothingBetween(entries, name)
  {
    hide Below, Star, Exists;
  }

  lemma LongerHasNone<V>(entries: map<Text, V>, name: Text, s: Text, t: Text)
    requires BestWildcard(entries, name, s) && Below(name, t) && Exists(entries, t) && |t| > |s|
    ensures Star(t) !in entries && !NothingBetween(entries, name)
  {
    hide Below, Star, Exists;
  }

  // ----- Examples -----

  /** With `*.c` and `b.c` stored, `a.b.c` is answered from `*.c`, past its closest encloser `b.c`. */
  lemma PastTheEncloser<V>(star: V, node: V)
    ensures var entries := map[[42, 46, 99] := star, [98, 46, 99] := node];
            var name := [97, 46, 98, 46, 99];
            Lookup(entries, name) == Some(star) && RfcLookup(entries, name) == NoName
  {
    var entries: map<Text, V> := map[[42, 46, 99] := star, [98, 46, 99] := node];
    var name: Text := [97, 46, 98, 46, 99];
    var parent: Text, top: Text := [98, 46, 99], [99];
    assert name[1..] == [46, 98, 46, 99] && name[1..][1..] == parent;
    assert AfterDot(name[1..]) == Some(parent) && AfterDot(name) == Some(parent);
    assert parent[1..] == [46, 99] && parent[1..][1..] == top;
    assert AfterDot(parent[1..]) == Some(top) && AfterDot(parent) == Some(top);
    assert Star(parent) == [42, 46, 98, 46, 99] && Star(top) == [42, 46, 99];
    assert |Star(parent)| == 5 && Star(parent) !in entries;
    assert Wildcard(entries, parent) == Some(star);
    assert AtOrBelow(parent, parent);
    assert Exists(entries, parent);
    forall e | e in entries
      ensures !AtOrBelow(e, name)
    {
      assert |e| == 3;
    }
    assert !Exists(entries, name);
  }

  /** With only `a.b.c` stored, `b.c` is an empty node, yet it is answered as if it did not exist. */
  lemma EmptyNodeMissed<V>(node: V)
    ensures var entries := map[[97, 46, 98, 46, 99] := node];
            var name := [98, 46, 99];
            Lookup(entries, name) == None && RfcLookup(entries, name) == EmptyNode
  {
    var entries: map<Text, V> := map[[97, 46, 98, 46, 99] := node];
    var name: Text, top: Text, stored: Text := [98, 46, 99], [99], [97, 46, 98, 46, 99];
    assert name[1..] == [46, 99] && name[1..][1..] == top && top[1..] == [];
    assert AfterDot(name[1..]) == Some(top) && AfterDot(name) == Some(top);
    assert AfterDot(top[1..]) == None && AfterDot(top) == None;
    assert |Star(top)| == 3 && Star(top) !in entries;
    assert Wildcard(entries, top) == None;
    assert stored[1..] == [DOT] + name;
    assert AtOrBelow(stored, name) && stored in entries;
  }

  /** With only `x.*.c` stored, `*.c` is an empty node, so `a.c` has no data; yet it is answered as not existing. */
  lemma EmptySourceMissed<V>(node: V)
    ensures var entries := map[[120, 46, 42, 46, 99] := node];
            var name := [97, 46, 99];
            Lookup(entries, name) == None && RfcLookup(entries, name) == EmptyNode
  {
    var stored: Text, name: Text, top: Text := [120, 46, 42, 46, 99], [97, 46, 99], [99];
    var entries: map<Text, V> := map[stored := node];
    assert name[1..] == [46, 99] && name[1..][1..] == top && top[1..] == [];
    assert AfterDot(name[1..]) == Some(top) && AfterDot(name) == Some(top);
    assert AfterDot(top[1..]) == None && AfterDot(top) == None;
    assert Star(top) == [42, 46, 99] && |Star(top)| == 3 && Star(top) !in entries && name !in entries;
    assert Wildcard(entries, top) == None;
    assert stored[1..] == [DOT] + Star(top) && stored[3..] == [DOT] + top;
    assert AtOrBelow(stored, Star(top)) && AtOrBelow(stored, top) && stored in entries;
    assert stored[2] == 42;
    assert !AtOrBelow(stored, name) by {
      assert stored[1..] != [DOT] + name by {
        assert stored[1..][1] == 42 && ([DOT] + name)[1] == 97;
      }
    }
    assert !Exists(entries, name);
  }
}
