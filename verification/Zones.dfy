/** Longest-suffix matching: zones, forwarding rules, wildcard records and the blocklist. */
module Zones {
  import opened Bytes
  import opened Names
  import opened Records

  /** A value configured for a name suffix: a zone at its origin, or an upstream. */
  datatype Rule<V> = Rule(suffix: Text, value: V)

  /** Places a rule before the rules that are no longer than it. */
  function Place<V>(r: Rule<V>, rs: seq<Rule<V>>): seq<Rule<V>> {
    if rs == [] || |r.suffix| >= |rs[0].suffix| then [r] + rs
    else [rs[0]] + Place(r, rs[1..])
  }

  /** The stable sort by decreasing suffix length that both constructors make. */
  function Sorted<V>(rs: seq<Rule<V>>): seq<Rule<V>> {
    if rs == [] then [] else Place(rs[0], Sorted(rs[1..]))
  }

  ghost predicate Decreasing<V>(rs: seq<Rule<V>>) {
    forall i, j :: 0 <= i < j < |rs| ==> |rs[i].suffix| >= |rs[j].suffix|
  }

  lemma {:induction false} PlaceFacts<V(!new)>(r: Rule<V>, rs: seq<Rule<V>>)
    requires Decreasing(rs)
    ensures Decreasing(Place(r, rs))
    ensures forall x :: x in Place(r, rs) <==> x == r || x in rs
  {
    if rs != [] && |r.suffix| < |rs[0].suffix| {
      PlaceFacts(r, rs[1..]);
      var rest := Place(r, rs[1..]);
      forall j | 0 <= j < |rest|
        ensures |rs[0].suffix| >= |rest[j].suffix|
      {
        assert rest[j] in Place(r, rs[1..]);
        if rest[j] != r {
          assert rest[j] in rs[1..];
          var k :| 0 <= k < |rs[1..]| && rs[1..][k] == rest[j];
          assert rs[k + 1] == rest[j];
        }
      }
    }
  }

  lemma {:induction false} SortedFacts<V(!new)>(rs: seq<Rule<V>>)
    ensures Decreasing(Sorted(rs))
    ensures forall x :: x in Sorted(rs) <==> x in rs
  {
    if rs != [] {
      SortedFacts(rs[1..]);
      PlaceFacts(rs[0], Sorted(rs[1..]));
    }
  }

  /** The rules with suffixes of one length, in order. */
  function OfLength<V>(rs: seq<Rule<V>>, n: nat): seq<Rule<V>> {
    if rs == [] then [] else (if |rs[0].suffix| == n then [rs[0]] else []) + OfLength(rs[1..], n)
  }

  lemma {:induction false} PlaceOfLength<V>(r: Rule<V>, rs: seq<Rule<V>>, n: nat)
    ensures OfLength(Place(r, rs), n) == (if |r.suffix| == n then [r] else []) + OfLength(rs, n)
  {
    if rs == [] || |r.suffix| >= |rs[0].suffix| {
      assert ([r] + rs)[1..] == rs;
    } else {
      PlaceOfLength(r, rs[1..], n);
      assert Place(r, rs)[1..] == Place(r, rs[1..]);
    }
  }

  /** The sort loses and repeats nothing, and keeps the order of rules of one length. */
  lemma {:induction false} SortIsStable<V>(rs: seq<Rule<V>>, n: nat)
    ensures OfLength(Sorted(rs), n) == OfLength(rs, n)
  {
    if rs != [] {
      SortIsStable(rs[1..], n);
      PlaceOfLength(rs[0], Sorted(rs[1..]), n);
    }
  }

  /** With `rootMatchesAll`, an empty suffix matches every name. */
  predicate Matches<V>(r: Rule<V>, name: Text, rootMatchesAll: bool) {
    (rootMatchesAll && r.suffix == []) || AtOrBelow(name, r.suffix)
  }

  function FirstMatch<V>(rs: seq<Rule<V>>, name: Text, rootMatchesAll: bool): Option<Rule<V>> {
    if rs == [] then None
    else if Matches(rs[0], name, rootMatchesAll) then Some(rs[0])
    else FirstMatch(rs[1..], name, rootMatchesAll)
  }

  /** No configured rule that matches has a longer suffix. */
  ghost predicate LongestMatch<V(!new)>(rs: seq<Rule<V>>, name: Text, rootMatchesAll: bool, r: Rule<V>) {
    && r in rs && Matches(r, name, rootMatchesAll)
    && (forall x :: x in rs && Matches(x, name, rootMatchesAll) ==> |x.suffix| <= |r.suffix|)
  }

  lemma {:induction false} FirstMatchFacts<V(!new)>(rs: seq<Rule<V>>, name: Text, all: bool)
    requires Decreasing(rs)
    ensures var m := FirstMatch(rs, name, all);
            && (m.None? <==> forall x :: x in rs ==> !Matches(x, name, all))
            && (m.Some? ==> LongestMatch(rs, name, all, m.value))
  {
    hide Matches;
    if rs != [] {
      FirstMatchFacts(rs[1..], name, all);
      forall x | x in rs
        ensures |x.suffix| <= |rs[0].suffix|
      {
        var i :| 0 <= i < |rs| && rs[i] == x;
      }
      assert forall x :: x in rs <==> x == rs[0] || x in rs[1..];
    }
  }

  function Find<V>(rs: seq<Rule<V>>, name: Text, rootMatchesAll: bool): Option<Rule<V>> {
    FirstMatch(Sorted(rs), name, rootMatchesAll)
  }

  /** Lookup in the sorted list is the longest configured match. */
  lemma FindIsLongest<V(!new)>(rs: seq<Rule<V>>, name: Text, all: bool)
    ensures var m := Find(rs, name, all);
            && (m.None? <==> forall x :: x in rs ==> !Matches(x, name, all))
            && (m.Some? ==> LongestMatch(rs, name, all, m.value))
  {
    SortedFacts(rs);
    FirstMatchFacts(Sorted(rs), name, all);
    hide Matches, Sorted;
    assert forall x :: x in Sorted(rs) <==> x in rs;
  }

  /** `rs[i]` matches; no matching rule has a longer suffix, and none configured before it has one as long. */
  ghost predicate BestMatch<V>(rs: seq<Rule<V>>, name: Text, rootMatchesAll: bool, i: nat) {
    && i < |rs| && Matches(rs[i], name, rootMatchesAll)
    && (forall j :: 0 <= j < |rs| && Matches(rs[j], name, rootMatchesAll) ==>
                      || |rs[j].suffix| < |rs[i].suffix|
                      || (|rs[j].suffix| == |rs[i].suffix| && i <= j))
  }

  ghost predicate NoMatch<V>(rs: seq<Rule<V>>, name: Text, rootMatchesAll: bool) {
    forall i :: 0 <= i < |rs| ==> !Matches(rs[i], name, rootMatchesAll)
  }

  lemma {:induction false} PlaceFirstMatch<V(!new)>(r: Rule<V>, rs: seq<Rule<V>>, name: Text, all: bool)
    requires Decreasing(rs)
    ensures var m := FirstMatch(rs, name, all);
            FirstMatch(Place(r, rs), name, all) ==
            if Matches(r, name, all) && (m.None? || |r.suffix| >= |m.value.suffix|) then Some(r) else m
  {
    hide Matches;
    if rs == [] || |r.suffix| >= |rs[0].suffix| {
      FirstMatchFacts(rs, name, all);
      assert ([r] + rs)[1..] == rs;
    } else {
      PlaceFirstMatch(r, rs[1..], name, all);
      assert Place(r, rs)[1..] == Place(r, rs[1..]);
    }
  }

  /** Lookup in the sorted list finds the best configured match, and none only when nothing matches. */
  lemma {:induction false} FindIsBest<V(!new)>(rs: seq<Rule<V>>, name: Text, all: bool) returns (i: nat)
    ensures Find(rs, name, all).None? ==> NoMatch(rs, name, all)
    ensures Find(rs, name, all).Some? ==> BestMatch(rs, name, all, i) && Find(rs, name, all) == Some(rs[i])
  {
    hide Matches;
    i := 0;
    if rs != [] {
      var k := FindIsBest(rs[1..], name, all);
      SortedFacts(rs[1..]);
      PlaceFirstMatch(rs[0], Sorted(rs[1..]), name, all);
      hide Sorted;
      assert forall j :: 1 <= j < |rs| ==> rs[j] == rs[1..][j - 1];
      if Find(rs[1..], name, all).Some? && Find(rs, name, all) != Some(rs[0]) {
        i := k + 1;
      }
    }
  }

  ghost predicate DistinctSuffixes<V(!new)>(rs: seq<Rule<V>>) {
    forall x, y :: x in rs && y in rs && x.suffix == y.suffix ==> x == y
  }

  /** With distinct suffixes the configuration order does not matter. */
  lemma FindIgnoresOrder<V(!new)>(rs: seq<Rule<V>>, other: seq<Rule<V>>, name: Text, all: bool)
    requires DistinctSuffixes(rs) && forall x :: x in rs <==> x in other
    ensures Find(rs, name, all) == Find(other, name, all)
  {
    FindIsLongest(rs, name, all);
    FindIsLongest(other, name, all);
    var a, b := Find(rs, name, all), Find(other, name, all);
    hide Find;
    if a.Some? {
      assert Matches(a.value, name, all) && a.value in other;
      assert b.Some? && Matches(b.value, name, all) && b.value in rs;
      assert |a.value.suffix| == |b.value.suffix|;
      if a.value.suffix != [] {
        SuffixesNest(name, a.value.suffix, b.value.suffix);
      }
    } else {
      assert b.None?;
    }
  }

  /** A match in terms of labels: the rule's labels end the name's labels. */
  lemma MatchIsLabelSuffix<V>(r: Rule<V>, name: Text, all: bool)
    ensures Matches(r, name, all) <==> ListSuffix(Split(name), Split(r.suffix)) || (all && r.suffix == [])
  {
    AtOrBelowIsLabelSuffix(name, r.suffix);
  }

  // ----- Zones and forwarding rules -----

  type Zone = map<Text, seq<DnsRecord>>

  type ZoneSet = seq<Rule<Zone>>

  type SocketAddr = nat

  datatype ForwardRules = ForwardRules(rules: seq<Rule<SocketAddr>>, default: Option<SocketAddr>)

  /** `ZoneSet::find` on the zones as configured. */
  function FindZone(zones: ZoneSet, name: Text): Option<Zone> {
    match Find(zones, name, true) case Some(r) => Some(r.value) case None => None
  }

  /** What serves a name: nothing when no origin matches it, else the zone of the best match. */
  ghost predicate ServedBy(zones: ZoneSet, name: Text, zone: Option<Zone>) {
    match zone
    case None => NoMatch(zones, name, true)
    case Some(z) => exists i: nat :: BestMatch(zones, name, true, i) && zones[i].value == z
  }

  lemma ZoneIsBest(zones: ZoneSet, name: Text)
    ensures ServedBy(zones, name, FindZone(zones, name))
    ensures forall zone :: ServedBy(zones, name, zone) ==> zone == FindZone(zones, name)
  {
    hide Find, Matches;
    var i := FindIsBest(zones, name, true);
  }

  /** With distinct origins the order in which zones are configured does not matter. */
  lemma ZoneIgnoresOrder(zones: ZoneSet, other: ZoneSet, name: Text)
    requires DistinctSuffixes(zones) && forall x :: x in zones <==> x in other
    ensures FindZone(zones, name) == FindZone(other, name)
  {
    FindIgnoresOrder(zones, other, name, true);
  }

  /** Where the rules send a name: to the best match's upstream, or to the default when none matches. */
  ghost predicate RoutedTo(f: ForwardRules, name: Text, upstream: Option<SocketAddr>) {
    || (exists i: nat :: BestMatch(f.rules, name, false, i) && upstream == Some(f.rules[i].value))
    || (NoMatch(f.rules, name, false) && upstream == f.default)
  }

  function MatchName(f: ForwardRules, name: Text): Option<SocketAddr> {
    match Find(f.rules, name, false) case Some(r) => Some(r.value) case None => f.default
  }

  lemma RouteIsBest(f: ForwardRules, name: Text)
    ensures RoutedTo(f, name, MatchName(f, name))
    ensures forall upstream :: RoutedTo(f, name, upstream) ==> upstream == MatchName(f, name)
  {
    hide Find, Matches;
    var i := FindIsBest(f.rules, name, false);
  }

  /** With distinct suffixes the order in which rules are configured does not matter. */
  lemma RouteIgnoresOrder(f: ForwardRules, other: seq<Rule<SocketAddr>>, name: Text)
    requires DistinctSuffixes(f.rules) && forall x :: x in f.rules <==> x in other
    ensures MatchName(f, name) == MatchName(f.(rules := other), name)
  {
    FindIgnoresOrder(f.rules, other, name, false);
  }

  predicate ForwardingEnabled(f: ForwardRules) { f.default.Some? || f.rules != [] }

  /** The loop of `match_name` over the sorted rules. */
  method MatchNameLoop(f: ForwardRules, name: Text) returns (r: Option<SocketAddr>)
    ensures r == MatchName(f, name) && RoutedTo(f, name, r)
  {
    RouteIsBest(f, name);
    hide RoutedTo;
    var rules := Sorted(f.rules);
    for i := 0 to |rules|
      invariant FirstMatch(rules, name, false) == FirstMatch(rules[i..], name, false)
    {
      if AtOrBelow(name, rules[i].suffix) {
        return Some(rules[i].value);
      }
      assert rules[i..][1..] == rules[i + 1..];
    }
    return f.default;
  }

  // ----- Wildcards -----

  function Star(s: Text): Text { [STAR, DOT] + s }

  /** The text after the first dot. */
  function AfterDot(s: Text): Option<Text> {
    if s == [] then None
    else if s[0] == DOT then Some(s[1..])
    else AfterDot(s[1..])
  }

  /** The next ancestor up is the longest one; a name without a dot has none. */
  lemma {:induction false} AfterDotIsParent(s: Text)
    ensures AfterDot(s).None? ==> forall t :: !Below(s, t)
    ensures AfterDot(s).Some? ==> Below(s, AfterDot(s).value) && |AfterDot(s).value| < |s|
    ensures AfterDot(s).Some? ==> forall t :: Below(s, t) ==> AtOrBelow(AfterDot(s).value, t)
  {
    if s != [] && s[0] != DOT {
      AfterDotIsParent(s[1..]);
      forall t | Below(s, t)
        ensures Below(s[1..], t)
      {
        BelowTail(s, t);
      }
      if AfterDot(s).Some? {
        var p := [DOT] + AfterDot(s).value;
        assert s[|s| - |p|..] == s[1..][|s[1..]| - |p|..];
      }
    } else if s != [] {
      assert s == [DOT] + s[1..];
      forall t | Below(s, t)
        ensures AtOrBelow(s[1..], t)
      {
        if |t| + 1 < |s| {
          BelowTail(s, t);
        } else {
          assert s == [DOT] + t;
          assert s[1..] == t;
        }
      }
    }
  }

  lemma BelowTail(s: Text, t: Text)
    requires s != [] && Below(s, t) && (s[0] != DOT || |t| + 1 < |s|)
    ensures Below(s[1..], t)
  {
    var p := [DOT] + t;
    assert |p| < |s| by {
      assert s[|s| - |p|..][0] == DOT;
    }
    assert s[1..][|s| - 1 - |p|..] == s[|s| - |p|..];
  }

  /** Climbs from `name` to the first ancestor with a wildcard entry. */
  function Wildcard<V>(entries: map<Text, V>, name: Text): Option<V>
    decreases |name|
  {
    match AfterDot(name)
    case None => None
    case Some(parent) =>
      AfterDotIsParent(name);
      if Star(parent) in entries then Some(entries[Star(parent)]) else Wildcard(entries, parent)
  }

  function Lookup<V>(entries: map<Text, V>, name: Text): Option<V> {
    if name in entries then Some(entries[name]) else Wildcard(entries, name)
  }

  /** `s` is the longest strict ancestor of `name` with a wildcard entry. */
  ghost predicate BestWildcard<V>(entries: map<Text, V>, name: Text, s: Text) {
    && Below(name, s) && Star(s) in entries
    && (forall t :: Below(name, t) && Star(t) in entries ==> |t| <= |s|)
  }

  lemma {:induction false} WildcardIsBest<V>(entries: map<Text, V>, name: Text) returns (s: Text)
    ensures Wildcard(entries, name).Some? ==>
              BestWildcard(entries, name, s) && Wildcard(entries, name).value == entries[Star(s)]
    ensures Wildcard(entries, name).None? ==> forall t :: Below(name, t) ==> Star(t) !in entries
    decreases |name|
  {
    hide Below, AtOrBelow, Star;
    s := [];
    AfterDotIsParent(name);
    if AfterDot(name).Some? {
      var parent := AfterDot(name).value;
      forall t | Below(name, t)
        ensures |t| <= |parent| && (t == parent || Below(parent, t))
      {
        AtOrBelowShorter(parent, t);
      }
      if Star(parent) in entries {
        s := parent;
      } else {
        s := WildcardIsBest(entries, parent);
        if Wildcard(entries, parent).Some? {
          BelowTransitive(name, parent, s);
        }
      }
    }
  }

  lemma AtOrBelowShorter(s: Text, t: Text)
    requires AtOrBelow(s, t)
    ensures |t| <= |s| && (t == s || Below(s, t))
  {}

  lemma BelowTransitive(a: Text, b: Text, c: Text)
    requires Below(a, b) && Below(b, c)
    ensures Below(a, c)
  {
    var p := [DOT] + c;
    assert a[|a| - |b|..] == ([DOT] + b)[1..];
    assert a[|a| - |p|..] == a[|a| - |b|..][|b| - |p|..];
  }

  /** What a name finds: its own entry, else the closest ancestor's wildcard entry, else nothing. */
  ghost predicate Finds<V>(entries: map<Text, V>, name: Text, r: Option<V>) {
    if name in entries then r == Some(entries[name])
    else match r
         case Some(v) => exists s :: BestWildcard(entries, name, s) && v == entries[Star(s)]
         case None => forall s :: Below(name, s) ==> Star(s) !in entries
  }

  lemma LookupFinds<V>(entries: map<Text, V>, name: Text)
    ensures Finds(entries, name, Lookup(entries, name))
  {
    hide BestWildcard, Below, Star;
    var s := WildcardIsBest(entries, name);
    BestIsEntry(entries, name, s);
  }

  lemma BestIsEntry<V>(entries: map<Text, V>, name: Text, s: Text)
    ensures BestWildcard(entries, name, s) ==> Star(s) in entries
  {}

  /** The loop of `lookup`: exact entry first, then each ancestor's wildcard. */
  method LookupLoop<V>(entries: map<Text, V>, name: Text) returns (r: Option<V>)
    ensures r == Lookup(entries, name) && Finds(entries, name, r)
  {
    LookupFinds(entries, name);
    hide Finds;
    if name in entries {
      return Some(entries[name]);
    }
    var remainder := name;
    while AfterDot(remainder).Some?
      invariant Wildcard(entries, name) == Wildcard(entries, remainder)
      decreases |remainder|
    {
      AfterDotIsParent(remainder);
      remainder := AfterDot(remainder).value;
      if Star(remainder) in entries {
        return Some(entries[Star(remainder)]);
      }
    }
    return None;
  }

  /** The name is listed, or some strict ancestor's wildcard is. */
  ghost predicate Blocked(entries: set<Text>, qname: Text) {
    Lower(qname) in entries || exists s :: Below(Lower(qname), s) && Star(s) in entries
  }

  method IsBlocked(entries: set<Text>, qname: Text) returns (blocked: bool)
    ensures blocked <==> Blocked(entries, qname)
  {
    hide Below, AtOrBelow, Star;
    var name := Lower(qname);
    if name in entries {
      return true;
    }
    var remainder := name;
    while AfterDot(remainder).Some?
      invariant remainder == name || Below(name, remainder)
      invariant forall t :: Below(name, t) && Star(t) in entries ==> Below(remainder, t)
      decreases |remainder|
    {
      AfterDotIsParent(remainder);
      var parent := AfterDot(remainder).value;
      if remainder != name {
        BelowTransitive(name, remainder, parent);
      }
      if Star(parent) in entries {
        return true;
      }
      forall t | Below(name, t) && Star(t) in entries
        ensures Below(parent, t)
      {
        AtOrBelowShorter(parent, t);
      }
      remainder := parent;
    }
    AfterDotIsParent(remainder);
    return false;
  }
}
