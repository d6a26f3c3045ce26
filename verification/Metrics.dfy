/** Sharded counters: writers bump one shard, readers sum over all of them. */
module Metrics {
  datatype Counter = Total | Authoritative | CacheHits | Forwarded | Coalesced | RateLimited | Blocked | Errors

  /** One shard; a counter never bumped reads as zero. */
  type Counters = map<Counter, nat>

  const SHARDS: nat := 32

  function Get(c: Counters, k: Counter): nat { if k in c then c[k] else 0 }

  function Sum(shards: seq<Counters>, k: Counter): nat {
    if shards == [] then 0 else Get(shards[0], k) + Sum(shards[1..], k)
  }

  function Incremented(c: Counters, k: Counter): Counters {
    var n: nat := Get(c, k) + 1;
    c[k := n]
  }

  function Bumped(shards: seq<Counters>, shard: nat, k: Counter): (r: seq<Counters>)
    requires shard < |shards|
    ensures |r| == |shards|
  {
    shards[shard := Incremented(shards[shard], k)]
  }

  function Fresh(n: nat): (r: seq<Counters>)
    ensures |r| == n
  {
    seq(n, i => map[])
  }

  lemma {:induction false} FreshSum(n: nat, k: Counter)
    ensures Sum(Fresh(n), k) == 0
  {
    if n > 0 {
      FreshSum(n - 1, k);
      assert Fresh(n)[1..] == Fresh(n - 1);
    }
  }

  /** Whichever shard is hit, the sum of that counter grows by one and no other sum changes. */
  lemma {:induction false} BumpSum(shards: seq<Counters>, shard: nat, k: Counter, other: Counter)
    requires shard < |shards|
    ensures Sum(Bumped(shards, shard, k), other) == Sum(shards, other) + if other == k then 1 else 0
  {
    var after := Bumped(shards, shard, k);
    if shard == 0 {
      assert after[1..] == shards[1..];
    } else {
      BumpSum(shards[1..], shard - 1, k, other);
      assert after[1..] == Bumped(shards[1..], shard - 1, k);
    }
  }

  class ShardedMetrics {
    var shards: seq<Counters>

    ghost predicate Valid()
      reads this
    {
      |shards| == SHARDS
    }

    constructor ()
      ensures Valid()
      ensures forall k :: Sum(shards, k) == 0
    {
      shards := Fresh(SHARDS);
      new;
      forall k
        ensures Sum(shards, k) == 0
      {
        FreshSum(SHARDS, k);
      }
    }

    method Bump(shard: nat, k: Counter)
      requires Valid() && shard < SHARDS
      modifies this
      ensures Valid() && shards == Bumped(old(shards), shard, k)
      ensures forall other :: Sum(shards, other) == Sum(old(shards), other) + if other == k then 1 else 0
    {
      ghost var before := shards;
      shards := shards[shard := Incremented(shards[shard], k)];
      forall other
        ensures Sum(shards, other) == Sum(before, other) + if other == k then 1 else 0
      {
        BumpSum(before, shard, k, other);
      }
    }

    /** The fold behind every getter. */
    method Read(k: Counter) returns (n: nat)
      ensures n == Sum(shards, k)
    {
      n := 0;
      for i := 0 to |shards|
        invariant n + Sum(shards[i..], k) == Sum(shards, k)
      {
        n := n + Get(shards[i], k);
        assert shards[i..][1..] == shards[i + 1..];
      }
    }
  }
}
