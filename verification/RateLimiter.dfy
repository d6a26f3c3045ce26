/** The per-client fixed-window rate limiter and what its answers amount to over a run. */
module RateLimiter {
  import opened Bytes

  type Ip = nat

  datatype Window = Window(startedAt: int, count: u32)

  type Clients = map<Ip, Window>

  datatype Limits = Limits(maxPerWindow: u32, window: nat)

  /** The 32-bit counter wraps around. */
  function Increment(count: u32): u32 { (count + 1) % 0x1_0000_0000 }

  /** The client's window once a query at `now` is counted. */
  function Touch(cfg: Limits, w: Option<Window>, now: int): Window {
    match w
    case Some(Window(started, count)) =>
      if now - started >= cfg.window then Window(now, 1) else Window(started, Increment(count))
    case None => Window(now, 1)
  }

  function Find(clients: Clients, ip: Ip): Option<Window> {
    if ip in clients then Some(clients[ip]) else None
  }

  function Cleaned(cfg: Limits, clients: Clients, now: int): Clients {
    map ip | ip in clients && Max(0, now - clients[ip].startedAt) < cfg.window :: clients[ip]
  }

  class Limiter {
    const cfg: Limits
    var clients: Clients

    constructor (cfg: Limits)
      ensures this.cfg == cfg && clients == map[]
    {
      this.cfg, clients := cfg, map[];
    }

    method Allow(ip: Ip, now: int) returns (ok: bool)
      modifies this
      ensures cfg.maxPerWindow == 0 ==> ok && clients == old(clients)
      ensures cfg.maxPerWindow > 0 ==>
                var w := Touch(cfg, Find(old(clients), ip), now);
                clients == old(clients)[ip := w] && ok == (w.count <= cfg.maxPerWindow)
    {
      if cfg.maxPerWindow == 0 {
        return true;
      }
      if ip !in clients {
        clients := clients[ip := Window(now, 0)];
      }
      if now - clients[ip].startedAt >= cfg.window {
        clients := clients[ip := Window(now, 0)];
      }
      clients := clients[ip := Window(clients[ip].startedAt, Increment(clients[ip].count))];
      ok := clients[ip].count <= cfg.maxPerWindow;
    }

    method Cleanup(now: int)
      modifies this
      ensures clients == Cleaned(cfg, old(clients), now)
      ensures forall ip :: ip in clients <==>
                           ip in old(clients) && cfg.window > 0 && now < old(clients)[ip].startedAt + cfg.window
      ensures forall ip :: ip in clients ==> clients[ip] == old(clients)[ip]
    {
      var keys := clients.Keys;
      while keys != {}
        invariant keys <= clients.Keys <= old(clients).Keys
        invariant forall ip :: ip in clients ==> clients[ip] == old(clients)[ip]
        invariant forall ip :: ip in old(clients) && ip !in keys ==>
                                 (ip in clients <==> Max(0, now - old(clients)[ip].startedAt) < cfg.window)
        decreases |keys|
      {
        var ip :| ip in keys;
        keys := keys - {ip};
        if Max(0, now - clients[ip].startedAt) >= cfg.window {
          clients := clients - {ip};
        }
      }
    }
  }

  // ----- Runs -----

  datatype Event = Query(ip: Ip, at: int) | Cleanup(at: int)

  /** `window` is the start of the fixed window the query was counted in. */
  datatype Answer = Answer(ip: Ip, at: int, ok: bool, window: int)

  /** The answers given over a run of queries and cleanups. */
  function Run(cfg: Limits, clients: Clients, es: seq<Event>): seq<Answer>
    decreases |es|
  {
    if es == [] then []
    else match es[0]
         case Cleanup(at) => Run(cfg, Cleaned(cfg, clients, at), es[1..])
         case Query(ip, at) =>
           if cfg.maxPerWindow == 0 then [Answer(ip, at, true, at)] + Run(cfg, clients, es[1..])
           else
             var w := Touch(cfg, Find(clients, ip), at);
             [Answer(ip, at, w.count <= cfg.maxPerWindow, w.startedAt)] + Run(cfg, clients[ip := w], es[1..])
  }

  /** Times never decrease, and none is before `from`. */
  predicate Monotone(from: int, es: seq<Event>)
    decreases |es|
  {
    es == [] || (from <= es[0].at && Monotone(es[0].at, es[1..]))
  }

  function WithoutCleanups(es: seq<Event>): seq<Event> {
    if es == [] then []
    else if es[0].Cleanup? then WithoutCleanups(es[1..])
    else [es[0]] + WithoutCleanups(es[1..])
  }

  lemma {:induction false} WithoutCleanupsMonotone(from: int, es: seq<Event>)
    requires Monotone(from, es)
    ensures Monotone(from, WithoutCleanups(es))
    decreases |es|
  {
    if es != [] {
      WithoutCleanupsMonotone(es[0].at, es[1..]);
      var rest := WithoutCleanups(es[1..]);
      if es[0].Cleanup? {
        MonotoneEarlier(from, es[0].at, rest);
      } else {
        assert ([es[0]] + rest)[1..] == rest;
      }
    }
  }

  lemma MonotoneEarlier(a: int, b: int, es: seq<Event>)
    requires a <= b && Monotone(b, es)
    ensures Monotone(a, es)
  {}

  /** The cleaned table agrees with the uncleaned one, except for windows that are over by `now`. */
  ghost predicate Agree(cfg: Limits, now: int, swept: Clients, full: Clients) {
    && (forall ip :: ip in full ==> full[ip].startedAt <= now)
    && (forall ip :: ip in swept ==> ip in full && swept[ip] == full[ip])
    && (forall ip :: ip in full && ip !in swept ==> now - full[ip].startedAt >= cfg.window)
  }

  lemma {:induction false} RunsAgree(cfg: Limits, now: int, swept: Clients, full: Clients, es: seq<Event>)
    requires Agree(cfg, now, swept, full) && Monotone(now, es)
    ensures Run(cfg, swept, es) == Run(cfg, full, WithoutCleanups(es))
    decreases |es|
  {
    if es != [] {
      var rest := WithoutCleanups(es[1..]);
      match es[0]
      case Cleanup(at) =>
        assert Agree(cfg, at, Cleaned(cfg, swept, at), full);
        RunsAgree(cfg, at, Cleaned(cfg, swept, at), full, es[1..]);
      case Query(ip, at) =>
        assert ([es[0]] + rest)[1..] == rest;
        if cfg.maxPerWindow == 0 {
          assert Agree(cfg, at, swept, full);
          RunsAgree(cfg, at, swept, full, es[1..]);
        } else {
          var w := Touch(cfg, Find(swept, ip), at);
          assert w == Touch(cfg, Find(full, ip), at);
          assert Agree(cfg, at, swept[ip := w], full[ip := w]);
          RunsAgree(cfg, at, swept[ip := w], full[ip := w], es[1..]);
        }
    }
  }

  /** Cleanups never change an answer. */
  lemma CleanupIsInvisible(cfg: Limits, from: int, es: seq<Event>)
    requires Monotone(from, es)
    ensures Run(cfg, map[], es) == Run(cfg, map[], WithoutCleanups(es))
  {
    RunsAgree(cfg, from, map[], map[], es);
  }

  // ----- How many queries get through -----

  /** Allowed answers to `ip` in the half-open interval from `lo` to `hi`. */
  function AllowedIn(log: seq<Answer>, ip: Ip, lo: int, hi: int): nat {
    if log == [] then 0
    else
      var a := log[0];
      (if a.ip == ip && a.ok && lo <= a.at < hi then 1 else 0) + AllowedIn(log[1..], ip, lo, hi)
  }

  function AllowedBefore(log: seq<Answer>, ip: Ip, hi: int): nat {
    if log == [] then 0
    else
      var a := log[0];
      (if a.ip == ip && a.ok && a.at < hi then 1 else 0) + AllowedBefore(log[1..], ip, hi)
  }

  /** Queries of `ip` in the half-open interval of length `span` from `lo` on. */
  function QueriesIn(es: seq<Event>, ip: Ip, lo: int, span: nat): nat {
    if es == [] then 0
    else
      var counts := es[0].Query? && es[0].ip == ip && lo <= es[0].at < lo + span;
      (if counts then 1 else 0) + QueriesIn(es[1..], ip, lo, span)
  }

  /** No window-long interval holds 2^32 queries of this client. */
  ghost predicate CounterFits(cfg: Limits, es: seq<Event>, ip: Ip) {
    forall lo :: QueriesIn(es, ip, lo, cfg.window) < 0x1_0000_0000
  }

  /** The window can count every query of its own that is still to come. */
  ghost predicate Counts(cfg: Limits, w: Window, es: seq<Event>, ip: Ip) {
    w.count + QueriesIn(es, ip, w.startedAt, cfg.window) < 0x1_0000_0000
  }

  predicate AllQueries(es: seq<Event>) {
    forall i :: 0 <= i < |es| ==> es[i].Query?
  }

  /** What the window has left. */
  function Budget(cfg: Limits, w: Window): nat {
    Max(0, cfg.maxPerWindow - w.count)
  }

  lemma {:induction false} AllowedInBefore(log: seq<Answer>, ip: Ip, lo: int, hi: int)
    ensures AllowedIn(log, ip, lo, hi) <= AllowedBefore(log, ip, hi)
  {
    if log != [] {
      AllowedInBefore(log[1..], ip, lo, hi);
    }
  }

  /** No answer is older than the first event. */
  lemma {:induction false} NoneBefore(cfg: Limits, clients: Clients, es: seq<Event>, ip: Ip, hi: int)
    requires Monotone(hi, es) && AllQueries(es) && cfg.maxPerWindow > 0
    ensures AllowedBefore(Run(cfg, clients, es), ip, hi) == 0
    decreases |es|
  {
    if es != [] {
      var next := clients[es[0].ip := Touch(cfg, Find(clients, es[0].ip), es[0].at)];
      MonotoneEarlier(hi, es[0].at, es[1..]);
      NoneBefore(cfg, next, es[1..], ip, hi);
      RunHead(cfg, clients, es);
    }
  }

  lemma RunHead(cfg: Limits, clients: Clients, es: seq<Event>)
    requires es != [] && es[0].Query? && cfg.maxPerWindow > 0
    ensures var w := Touch(cfg, Find(clients, es[0].ip), es[0].at);
            var log := Run(cfg, clients, es);
            && log != []
            && log[0] == Answer(es[0].ip, es[0].at, w.count <= cfg.maxPerWindow, w.startedAt)
            && log[1..] == Run(cfg, clients[es[0].ip := w], es[1..])
  {}

  /** Up to the end of the current window, at most its remaining budget gets through. */
  lemma {:induction false} WindowBound(cfg: Limits, clients: Clients, es: seq<Event>, ip: Ip, hi: int)
    requires AllQueries(es) && cfg.maxPerWindow > 0 && ip in clients
    requires Monotone(clients[ip].startedAt, es) && Counts(cfg, clients[ip], es, ip)
    requires hi <= clients[ip].startedAt + cfg.window
    ensures AllowedBefore(Run(cfg, clients, es), ip, hi) <= Budget(cfg, clients[ip])
    decreases |es|
  {
    if es != [] {
      hide Run;
      RunHead(cfg, clients, es);
      var w := clients[ip];
      var next := clients[es[0].ip := Touch(cfg, Find(clients, es[0].ip), es[0].at)];
      MonotoneEarlier(w.startedAt, es[0].at, es[1..]);
      if es[0].at < hi {
        WindowBound(cfg, next, es[1..], ip, hi);
      } else {
        MonotoneEarlier(hi, es[0].at, es[1..]);
        NoneBefore(cfg, next, es[1..], ip, hi);
      }
    }
  }

  /** Over the current window and one more, at most its remaining budget and one full budget. */
  lemma {:induction false} TwoWindowBound(cfg: Limits, clients: Clients, es: seq<Event>, ip: Ip, hi: int)
    requires AllQueries(es) && cfg.maxPerWindow > 0 && ip in clients && CounterFits(cfg, es, ip)
    requires Monotone(clients[ip].startedAt, es) && Counts(cfg, clients[ip], es, ip)
    requires hi <= clients[ip].startedAt + 2 * cfg.window
    ensures AllowedBefore(Run(cfg, clients, es), ip, hi) <= Budget(cfg, clients[ip]) + cfg.maxPerWindow
    decreases |es|
  {
    if es != [] {
      hide Run;
      RunHead(cfg, clients, es);
      var w, at := clients[ip], es[0].at;
      var next := clients[es[0].ip := Touch(cfg, Find(clients, es[0].ip), at)];
      MonotoneEarlier(w.startedAt, at, es[1..]);
      FitsTail(cfg, es, ip);
      if es[0].ip == ip && at - w.startedAt >= cfg.window {
        NewWindow(cfg, es, ip);
        if at < hi {
          WindowBound(cfg, next, es[1..], ip, hi);
        } else {
          MonotoneEarlier(hi, at, es[1..]);
          NoneBefore(cfg, next, es[1..], ip, hi);
        }
      } else {
        TwoWindowBound(cfg, next, es[1..], ip, hi);
      }
    }
  }

  lemma FitsTail(cfg: Limits, es: seq<Event>, ip: Ip)
    requires es != [] && CounterFits(cfg, es, ip)
    ensures CounterFits(cfg, es[1..], ip)
  {
    forall lo
      ensures QueriesIn(es[1..], ip, lo, cfg.window) < 0x1_0000_0000
    {
      assert QueriesIn(es, ip, lo, cfg.window) < 0x1_0000_0000;
    }
  }

  /** A window opened by a query can count the rest of that window. */
  lemma NewWindow(cfg: Limits, es: seq<Event>, ip: Ip)
    requires es != [] && es[0].Query? && es[0].ip == ip && CounterFits(cfg, es, ip)
    ensures Counts(cfg, Window(es[0].at, 1), es[1..], ip)
  {
    var at := es[0].at;
    assert QueriesIn(es, ip, at, cfg.window) < 0x1_0000_0000;
    if cfg.window == 0 {
      EmptyInterval(es[1..], ip, at);
    }
  }

  lemma {:induction false} EmptyInterval(es: seq<Event>, ip: Ip, at: int)
    ensures QueriesIn(es, ip, at, 0) == 0
  {
    if es != [] {
      EmptyInterval(es[1..], ip, at);
    }
  }

  /** A window the limiter can reach: it has begun, holds a query, and can count those to come. */
  ghost predicate InUse(cfg: Limits, clients: Clients, from: int, es: seq<Event>, ip: Ip) {
    ip in clients ==>
      clients[ip].startedAt <= from && clients[ip].count >= 1 && Counts(cfg, clients[ip], es, ip)
  }

  /** A query counted in the interval either opens a window or continues one that holds another query. */
  lemma FromFirstCounted(cfg: Limits, clients: Clients, es: seq<Event>, ip: Ip, lo: int)
    requires AllQueries(es) && cfg.maxPerWindow > 0 && CounterFits(cfg, es, ip)
    requires es != [] && es[0].ip == ip && lo <= es[0].at && Monotone(es[0].at, es[1..])
    requires InUse(cfg, clients, es[0].at, es, ip)
    ensures AllowedIn(Run(cfg, clients, es), ip, lo, lo + cfg.window) <= 2 * cfg.maxPerWindow - 1
  {
    hide Run;
    RunHead(cfg, clients, es);
    FitsTail(cfg, es, ip);
    var at, hi := es[0].at, lo + cfg.window;
    var next := clients[ip := Touch(cfg, Find(clients, ip), at)];
    AllowedInBefore(Run(cfg, next, es[1..]), ip, lo, hi);
    MonotoneEarlier(next[ip].startedAt, at, es[1..]);
    if ip !in clients || at - clients[ip].startedAt >= cfg.window {
      NewWindow(cfg, es, ip);
      WindowBound(cfg, next, es[1..], ip, hi);
    } else {
      TwoWindowBound(cfg, next, es[1..], ip, hi);
    }
  }

  lemma InUseAfter(cfg: Limits, clients: Clients, from: int, es: seq<Event>, ip: Ip)
    requires AllQueries(es) && CounterFits(cfg, es, ip) && es != [] && Monotone(from, es)
    requires InUse(cfg, clients, from, es, ip)
    ensures InUse(cfg, clients[es[0].ip := Touch(cfg, Find(clients, es[0].ip), es[0].at)], es[0].at, es[1..], ip)
  {
    if es[0].ip == ip && (ip !in clients || es[0].at - clients[ip].startedAt >= cfg.window) {
      NewWindow(cfg, es, ip);
    }
  }

  /** The sliding bound for a run of queries, from any table the limiter can reach. */
  lemma {:induction false} SlidingBoundFrom(cfg: Limits, clients: Clients, from: int, es: seq<Event>, ip: Ip, lo: int)
    requires AllQueries(es) && cfg.maxPerWindow > 0 && CounterFits(cfg, es, ip) && Monotone(from, es)
    requires InUse(cfg, clients, from, es, ip)
    ensures AllowedIn(Run(cfg, clients, es), ip, lo, lo + cfg.window) <= 2 * cfg.maxPerWindow - 1
    decreases |es|
  {
    hide Run, Counts, CounterFits;
    if es != [] {
      if es[0].ip == ip && lo <= es[0].at {
        FromFirstCounted(cfg, clients, es, ip, lo);
      } else {
        RunHead(cfg, clients, es);
        FitsTail(cfg, es, ip);
        InUseAfter(cfg, clients, from, es, ip);
        var next := clients[es[0].ip := Touch(cfg, Find(clients, es[0].ip), es[0].at)];
        SlidingBoundFrom(cfg, next, es[0].at, es[1..], ip, lo);
      }
    } else {
      NoMore(cfg, clients, ip, lo);
    }
  }

  lemma {:induction false} WithoutCleanupsIsQueries(es: seq<Event>)
    ensures AllQueries(WithoutCleanups(es))
  {
    if es != [] {
      WithoutCleanupsIsQueries(es[1..]);
    }
  }

  lemma {:induction false} WithoutCleanupsSameQueries(es: seq<Event>, ip: Ip, lo: int, span: nat)
    ensures QueriesIn(WithoutCleanups(es), ip, lo, span) == QueriesIn(es, ip, lo, span)
  {
    if es != [] {
      WithoutCleanupsSameQueries(es[1..], ip, lo, span);
      var rest := WithoutCleanups(es[1..]);
      assert ([es[0]] + rest)[1..] == rest;
    }
  }

  lemma WithoutCleanupsFits(cfg: Limits, es: seq<Event>, ip: Ip)
    requires CounterFits(cfg, es, ip)
    ensures CounterFits(cfg, WithoutCleanups(es), ip)
  {
    forall t
      ensures QueriesIn(WithoutCleanups(es), ip, t, cfg.window) < 0x1_0000_0000
    {
      WithoutCleanupsSameQueries(es, ip, t, cfg.window);
      assert QueriesIn(es, ip, t, cfg.window) < 0x1_0000_0000;
    }
  }

  /**
    * Over every run of queries and cleanups under a monotone clock, any interval
    * one window long lets through fewer than twice the limit for each client.
    */
  lemma SlidingBound(cfg: Limits, from: int, es: seq<Event>, ip: Ip, lo: int)
    requires cfg.maxPerWindow > 0 && Monotone(from, es) && CounterFits(cfg, es, ip)
    ensures AllowedIn(Run(cfg, map[], es), ip, lo, lo + cfg.window) <= 2 * cfg.maxPerWindow - 1
  {
    CleanupIsInvisible(cfg, from, es);
    var queries := WithoutCleanups(es);
    WithoutCleanupsMonotone(from, es);
    WithoutCleanupsIsQueries(es);
    WithoutCleanupsFits(cfg, es, ip);
    SlidingBoundFrom(cfg, map[], from, queries, ip, lo);
  }

  // ----- Fixed windows -----

  const WRAP: nat := 0x1_0000_0000

  /** Queries of `ip` counted in the window that starts at `start`, and those of them that were allowed. */
  function CountedOf(log: seq<Answer>, ip: Ip, start: int): nat {
    if log == [] then 0
    else (if log[0].ip == ip && log[0].window == start then 1 else 0) + CountedOf(log[1..], ip, start)
  }

  function AllowedOf(log: seq<Answer>, ip: Ip, start: int): nat {
    if log == [] then 0
    else (if log[0].ip == ip && log[0].ok && log[0].window == start then 1 else 0) + AllowedOf(log[1..], ip, start)
  }

  /** How many of the first `n` queries of a window pass, the counter wrapping around. */
  function Passed(cfg: Limits, n: nat): nat {
    if n == 0 then 0 else Passed(cfg, n - 1) + if n % WRAP <= cfg.maxPerWindow then 1 else 0
  }

  /** The client's window started before `start`, or at `start` with `k` queries counted so far. */
  predicate Reached(clients: Clients, ip: Ip, start: int, k: nat) {
    if ip in clients && clients[ip].startedAt == start then clients[ip].count == k % WRAP
    else k == 0 && (ip in clients ==> clients[ip].startedAt < start)
  }

  /** Once a later window has begun, nothing more is counted in an earlier one. */
  lemma {:induction false} ClosedWindow(cfg: Limits, clients: Clients, from: int, es: seq<Event>, ip: Ip, start: int)
    requires AllQueries(es) && cfg.maxPerWindow > 0 && Monotone(from, es)
    requires ip in clients && start < clients[ip].startedAt <= from
    ensures CountedOf(Run(cfg, clients, es), ip, start) == 0 && AllowedOf(Run(cfg, clients, es), ip, start) == 0
    decreases |es|
  {
    hide Run;
    if es == [] {
      NoAnswers(cfg, clients);
    } else {
      EventsTail(from, es);
      RunHead(cfg, clients, es);
      var next := clients[es[0].ip := Touch(cfg, Find(clients, es[0].ip), es[0].at)];
      ClosedWindow(cfg, next, es[0].at, es[1..], ip, start);
    }
  }

  lemma EventsTail(from: int, es: seq<Event>)
    requires es != [] && AllQueries(es) && Monotone(from, es)
    ensures es[0].Query? && from <= es[0].at && AllQueries(es[1..]) && Monotone(es[0].at, es[1..])
  {}

  /** What passes of the queries a window counts, from its `k`-th query on. */
  lemma {:induction false} WindowCountsFrom(cfg: Limits, clients: Clients, from: int, es: seq<Event>, ip: Ip,
                                            start: int, k: nat)
    requires AllQueries(es) && cfg.maxPerWindow > 0 && cfg.window > 0 && Monotone(from, es)
    requires Reached(clients, ip, start, k) && (ip in clients ==> clients[ip].startedAt <= from)
    ensures var log := Run(cfg, clients, es);
            Passed(cfg, k) + AllowedOf(log, ip, start) == Passed(cfg, k + CountedOf(log, ip, start))
    decreases |es|
  {
    hide Run, Passed;
    if es == [] {
      NoAnswers(cfg, clients);
    } else {
      EventsTail(from, es);
      RunHead(cfg, clients, es);
      var w := Touch(cfg, Find(clients, es[0].ip), es[0].at);
      var next := clients[es[0].ip := w];
      if es[0].ip == ip && w.startedAt == start {
        CountsOneMore(cfg, clients, es[0].at, ip, start, k);
        PassedStep(cfg, k);
        WindowCountsFrom(cfg, next, es[0].at, es[1..], ip, start, k + 1);
      } else if es[0].ip == ip && w.startedAt > start {
        ClosedWindow(cfg, next, es[0].at, es[1..], ip, start);
      } else {
        WindowCountsFrom(cfg, next, es[0].at, es[1..], ip, start, k);
      }
    }
  }

  lemma CountsOneMore(cfg: Limits, clients: Clients, at: int, ip: Ip, start: int, k: nat)
    requires cfg.window > 0 && Reached(clients, ip, start, k)
    requires Touch(cfg, Find(clients, ip), at).startedAt == start
    ensures Touch(cfg, Find(clients, ip), at).count == (k + 1) % WRAP
  {}

  lemma PassedStep(cfg: Limits, k: nat)
    ensures Passed(cfg, k + 1) == Passed(cfg, k) + if (k + 1) % WRAP <= cfg.maxPerWindow then 1 else 0
  {}

  /** Up to the wrap-around the limit passes and no more; the query that wraps passes too. */
  lemma {:induction false} PassedBelowWrap(cfg: Limits, n: nat)
    requires n < WRAP
    ensures Passed(cfg, n) == Min(n, cfg.maxPerWindow)
  {
    if n > 0 {
      PassedBelowWrap(cfg, n - 1);
    }
  }

  lemma {:induction false} PassedGrows(cfg: Limits, m: nat, n: nat)
    requires m <= n
    ensures Passed(cfg, m) <= Passed(cfg, n)
  {
    if m < n {
      PassedGrows(cfg, m, n - 1);
    }
  }

  lemma PassedWithinLimit(cfg: Limits, n: nat)
    ensures Passed(cfg, n) <= cfg.maxPerWindow <==> n < WRAP
  {
    hide Passed;
    if n < WRAP {
      PassedBelowWrap(cfg, n);
    } else {
      PassedBelowWrap(cfg, WRAP - 1);
      PassedStep(cfg, WRAP - 1);
      PassedGrows(cfg, WRAP, n);
    }
  }

  /** No window can start at `start` any more: that time is past, or an older window covers it. */
  predicate TooLate(cfg: Limits, clients: Clients, from: int, ip: Ip, start: int) {
    && (ip in clients ==> clients[ip].startedAt != start && clients[ip].startedAt <= from)
    && (from > start || (from == start && ip in clients && start - clients[ip].startedAt < cfg.window))
  }

  lemma {:induction false} NeverOpens(cfg: Limits, clients: Clients, from: int, es: seq<Event>, ip: Ip, start: int)
    requires AllQueries(es) && cfg.maxPerWindow > 0 && cfg.window > 0 && Monotone(from, es)
    requires TooLate(cfg, clients, from, ip, start)
    ensures CountedOf(Run(cfg, clients, es), ip, start) == 0
    decreases |es|
  {
    hide Run;
    if es == [] {
      NoAnswers(cfg, clients);
    } else {
      EventsTail(from, es);
      RunHead(cfg, clients, es);
      var next := clients[es[0].ip := Touch(cfg, Find(clients, es[0].ip), es[0].at)];
      NeverOpens(cfg, next, es[0].at, es[1..], ip, start);
    }
  }

  /** An open window counts every query of its client until it ends, and none after. */
  lemma {:induction false} OpenWindowCounts(cfg: Limits, clients: Clients, from: int, es: seq<Event>, ip: Ip)
    requires AllQueries(es) && cfg.maxPerWindow > 0 && cfg.window > 0 && Monotone(from, es)
    requires ip in clients && clients[ip].startedAt <= from
    ensures var start := clients[ip].startedAt;
            CountedOf(Run(cfg, clients, es), ip, start) == QueriesIn(es, ip, start, cfg.window)
    decreases |es|
  {
    hide Run;
    if es == [] {
      NoAnswers(cfg, clients);
    } else {
      EventsTail(from, es);
      RunHead(cfg, clients, es);
      var start := clients[ip].startedAt;
      var next := clients[es[0].ip := Touch(cfg, Find(clients, es[0].ip), es[0].at)];
      if next[ip].startedAt == start {
        OpenWindowCounts(cfg, next, es[0].at, es[1..], ip);
      } else {
        NeverOpens(cfg, next, es[0].at, es[1..], ip, start);
        NoneFrom(es[0].at, es[1..], ip, start, cfg.window);
      }
    }
  }

  /** No query from `from` on is in an interval that ends there or before. */
  lemma {:induction false} NoneFrom(from: int, es: seq<Event>, ip: Ip, lo: int, span: nat)
    requires Monotone(from, es) && lo + span <= from
    ensures QueriesIn(es, ip, lo, span) == 0
    decreases |es|
  {
    if es != [] {
      NoneFrom(es[0].at, es[1..], ip, lo, span);
    }
  }

  /** A window that is opened counts exactly the client's queries from its start to its end. */
  lemma {:induction false} OpenedWindowCounts(cfg: Limits, clients: Clients, from: int, es: seq<Event>, ip: Ip,
                                              start: int)
    requires AllQueries(es) && cfg.maxPerWindow > 0 && cfg.window > 0 && Monotone(from, es)
    requires ip in clients ==> clients[ip].startedAt <= from && clients[ip].startedAt < start
    ensures var counted := CountedOf(Run(cfg, clients, es), ip, start);
            counted == 0 || counted == QueriesIn(es, ip, start, cfg.window)
    decreases |es|
  {
    hide Run;
    if es == [] {
      NoAnswers(cfg, clients);
    } else {
      EventsTail(from, es);
      RunHead(cfg, clients, es);
      var at := es[0].at;
      var next := clients[es[0].ip := Touch(cfg, Find(clients, es[0].ip), at)];
      if es[0].ip == ip && next[ip].startedAt == start {
        OpenWindowCounts(cfg, next, at, es[1..], ip);
      } else if es[0].ip == ip && at >= start {
        NeverOpens(cfg, next, at, es[1..], ip, start);
      } else {
        OpenedWindowCounts(cfg, next, at, es[1..], ip, start);
      }
    }
  }

  /**
    * Over every run with cleanups, a fixed window that is opened lets through at most the limit
    * exactly when fewer than 2^32 queries of its client fall into it.
    */
  lemma FixedWindowBoundExactly(cfg: Limits, from: int, es: seq<Event>, ip: Ip, start: int)
    requires cfg.maxPerWindow > 0 && cfg.window > 0 && Monotone(from, es)
    ensures var log, n := Run(cfg, map[], es), QueriesIn(es, ip, start, cfg.window);
            if CountedOf(log, ip, start) == 0 then AllowedOf(log, ip, start) == 0
            else
              && CountedOf(log, ip, start) == n && AllowedOf(log, ip, start) == Passed(cfg, n)
              && (AllowedOf(log, ip, start) <= cfg.maxPerWindow <==> n < WRAP)
  {
    CleanupIsInvisible(cfg, from, es);
    WithoutCleanupsMonotone(from, es);
    WithoutCleanupsIsQueries(es);
    WithoutCleanupsSameQueries(es, ip, start, cfg.window);
    WindowCountsFrom(cfg, map[], from, WithoutCleanups(es), ip, start, 0);
    OpenedWindowCounts(cfg, map[], from, WithoutCleanups(es), ip, start);
    hide Run, Passed;
    PassedNone(cfg);
    PassedWithinLimit(cfg, CountedOf(Run(cfg, map[], es), ip, start));
  }

  lemma PassedNone(cfg: Limits)
    ensures Passed(cfg, 0) == 0
  {}

  // ----- The bound is attained -----

  /** `n` queries at once. */
  function Burst(ip: Ip, at: int, n: nat): seq<Event> {
    if n == 0 then [] else [Query(ip, at)] + Burst(ip, at, n - 1)
  }

  function Allowed(cfg: Limits, clients: Clients, es: seq<Event>, ip: Ip, lo: int): nat {
    AllowedIn(Run(cfg, clients, es), ip, lo, lo + cfg.window)
  }

  lemma {:induction false} BurstAllowed(cfg: Limits, clients: Clients, w: Window, ip: Ip, at: int, n: nat,
                                        rest: seq<Event>, lo: int)
    requires at - w.startedAt < cfg.window && lo <= at < lo + cfg.window && w.count + n <= cfg.maxPerWindow
    ensures Allowed(cfg, clients[ip := w], Burst(ip, at, n) + rest, ip, lo) ==
            n + Allowed(cfg, clients[ip := Window(w.startedAt, w.count + n)], rest, ip, lo)
    decreases n
  {
    hide Allowed;
    var es := Burst(ip, at, n) + rest;
    if n == 0 {
      assert es == rest;
    } else {
      assert es[0] == Query(ip, at) && es[1..] == Burst(ip, at, n - 1) + rest;
      var next := Window(w.startedAt, w.count + 1);
      assert clients[ip := w][ip := next] == clients[ip := next];
      QueryAllowed(cfg, clients[ip := w], es, next, lo);
      BurstAllowed(cfg, clients, next, ip, at, n - 1, rest, lo);
    }
  }

  lemma QueryAllowed(cfg: Limits, clients: Clients, es: seq<Event>, w: Window, lo: int)
    requires es != [] && es[0].Query? && cfg.maxPerWindow > 0
    requires w == Touch(cfg, Find(clients, es[0].ip), es[0].at) && w.count <= cfg.maxPerWindow
    ensures Allowed(cfg, clients, es, es[0].ip, lo) ==
            (if lo <= es[0].at < lo + cfg.window then 1 else 0)
            + Allowed(cfg, clients[es[0].ip := w], es[1..], es[0].ip, lo)
  {
    hide Run;
    RunHead(cfg, clients, es);
  }

  /** One query, the rest of its limit at the very end of its window, and a full limit right after. */
  function Straddle(cfg: Limits, ip: Ip): seq<Event>
    requires cfg.maxPerWindow > 0
  {
    var rest := Burst(ip, cfg.window, cfg.maxPerWindow - 1) + [];
    [Query(ip, 0)] + (Burst(ip, cfg.window - 1, cfg.maxPerWindow - 1) + ([Query(ip, cfg.window)] + rest))
  }

  lemma {:induction false} BurstMonotone(from: int, ip: Ip, at: int, n: nat, rest: seq<Event>)
    requires from <= at && Monotone(at, rest)
    ensures Monotone(from, Burst(ip, at, n) + rest)
    decreases n
  {
    if n == 0 {
      assert Burst(ip, at, n) + rest == rest;
      MonotoneEarlier(from, at, rest);
    } else {
      BurstMonotone(at, ip, at, n - 1, rest);
      assert (Burst(ip, at, n) + rest)[1..] == Burst(ip, at, n - 1) + rest;
    }
  }

  lemma StraddleMonotone(cfg: Limits, ip: Ip)
    requires cfg.maxPerWindow > 0 && cfg.window >= 1
    ensures Monotone(0, Straddle(cfg, ip))
  {
    hide Burst;
    var end := Burst(ip, cfg.window, cfg.maxPerWindow - 1) + [];
    BurstMonotone(cfg.window, ip, cfg.window, cfg.maxPerWindow - 1, []);
    var second := [Query(ip, cfg.window)] + end;
    assert second[1..] == end;
    BurstMonotone(0, ip, cfg.window - 1, cfg.maxPerWindow - 1, second);
    assert Straddle(cfg, ip)[1..] == Burst(ip, cfg.window - 1, cfg.maxPerWindow - 1) + second;
  }

  /** The sliding bound cannot be improved. */
  lemma SlidingBoundIsTight(cfg: Limits, ip: Ip)
    requires cfg.maxPerWindow > 0 && cfg.window >= 2
    ensures Monotone(0, Straddle(cfg, ip))
    ensures var log := Run(cfg, map[], Straddle(cfg, ip));
            AllowedIn(log, ip, cfg.window - 1, 2 * cfg.window - 1) == 2 * cfg.maxPerWindow - 1
  {
    StraddleMonotone(cfg, ip);
    hide Run, AllowedIn, Burst, Monotone;
    var m, w, lo := cfg.maxPerWindow, cfg.window, cfg.window - 1;
    var second := [Query(ip, w)] + (Burst(ip, w, m - 1) + []);
    var es := Straddle(cfg, ip);
    assert es[0] == Query(ip, 0) && es[1..] == Burst(ip, w - 1, m - 1) + second;
    QueryAllowed(cfg, map[], es, Window(0, 1), lo);
    BurstAllowed(cfg, map[], Window(0, 1), ip, w - 1, m - 1, second, lo);
    SecondWindow(cfg, map[ip := Window(0, m)], ip, second);
    assert map[][ip := Window(0, m)] == map[ip := Window(0, m)];
    assert Allowed(cfg, map[], es, ip, lo) - m == m - 1;
  }

  lemma SecondWindow(cfg: Limits, clients: Clients, ip: Ip, second: seq<Event>)
    requires cfg.maxPerWindow > 0 && cfg.window >= 2 && ip in clients && clients[ip].startedAt == 0
    requires second == [Query(ip, cfg.window)] + (Burst(ip, cfg.window, cfg.maxPerWindow - 1) + [])
    ensures Allowed(cfg, clients, second, ip, cfg.window - 1) == cfg.maxPerWindow
  {
    hide Allowed, Burst;
    var m, w, lo := cfg.maxPerWindow, cfg.window, cfg.window - 1;
    assert second[1..] == Burst(ip, w, m - 1) + [];
    QueryAllowed(cfg, clients, second, Window(w, 1), lo);
    BurstAllowed(cfg, clients, Window(w, 1), ip, w, m - 1, [], lo);
    NoneLeft(cfg, clients[ip := Window(w, m)], ip, lo);
  }

  lemma NoneLeft(cfg: Limits, clients: Clients, ip: Ip, lo: int)
    ensures Allowed(cfg, clients, [], ip, lo) == 0
  {}

  lemma NoMore(cfg: Limits, clients: Clients, ip: Ip, lo: int)
    ensures AllowedIn(Run(cfg, clients, []), ip, lo, lo + cfg.window) == 0
  {}

  // ----- Past the wrap-around -----

  lemma {:induction false} PassedAboveWrap(cfg: Limits, n: nat)
    requires n < WRAP
    ensures Passed(cfg, WRAP + n) == cfg.maxPerWindow + 1 + Min(n, cfg.maxPerWindow)
    decreases n
  {
    hide Passed;
    if n == 0 {
      PassedBelowWrap(cfg, WRAP - 1);
      PassedStep(cfg, WRAP - 1);
    } else {
      PassedAboveWrap(cfg, n - 1);
      PassedStep(cfg, WRAP + n - 1);
    }
  }

  /** A burst is counted in one window, all of it inside the interval from that time on. */
  lemma {:induction false} BurstInOneWindow(cfg: Limits, clients: Clients, ip: Ip, n: nat)
    requires cfg.maxPerWindow > 0 && cfg.window > 0 && (ip in clients ==> clients[ip].startedAt == 0)
    ensures var log := Run(cfg, clients, Burst(ip, 0, n));
            CountedOf(log, ip, 0) == n && AllowedIn(log, ip, 0, cfg.window) == AllowedOf(log, ip, 0)
    decreases n
  {
    hide Run;
    if n == 0 {
      NoAnswers(cfg, clients);
    } else {
      var es := Burst(ip, 0, n);
      assert es[0] == Query(ip, 0) && es[1..] == Burst(ip, 0, n - 1);
      RunHead(cfg, clients, es);
      BurstInOneWindow(cfg, clients[ip := Touch(cfg, Find(clients, ip), 0)], ip, n - 1);
    }
  }

  /** With enough queries to wrap the counter around, one window lets through more than twice the limit. */
  lemma WrapBreaksTheBounds(cfg: Limits, ip: Ip)
    requires cfg.maxPerWindow > 0 && cfg.window > 0
    ensures var es := Burst(ip, 0, WRAP + cfg.maxPerWindow);
            && Monotone(0, es)
            && AllowedIn(Run(cfg, map[], es), ip, 0, cfg.window) == 2 * cfg.maxPerWindow + 1
  {
    hide Run, Passed, Burst;
    var n: nat := cfg.maxPerWindow;
    BurstMonotone(0, ip, 0, WRAP + n, []);
    assert Burst(ip, 0, WRAP + n) + [] == Burst(ip, 0, WRAP + n);
    BurstInOneWindow(cfg, map[], ip, WRAP + n);
    FixedWindowBoundExactly(cfg, 0, Burst(ip, 0, WRAP + n), ip, 0);
    PassedAboveWrap(cfg, n);
  }

  // ----- Who is never denied -----

  ghost predicate AtMost(cfg: Limits, es: seq<Event>, ip: Ip) {
    forall lo :: QueriesIn(es, ip, lo, cfg.window) <= cfg.maxPerWindow
  }

  ghost predicate NeverDenies(log: seq<Answer>, ip: Ip) {
    forall i :: 0 <= i < |log| && log[i].ip == ip ==> log[i].ok
  }

  lemma {:induction false} NeverDeniedFrom(cfg: Limits, clients: Clients, from: int, es: seq<Event>, ip: Ip)
    requires AllQueries(es) && cfg.maxPerWindow > 0 && Monotone(from, es) && AtMost(cfg, es, ip)
    requires ip in clients ==>
               var w := clients[ip];
               w.startedAt <= from && w.count + QueriesIn(es, ip, w.startedAt, cfg.window) <= cfg.maxPerWindow
    ensures NeverDenies(Run(cfg, clients, es), ip)
    decreases |es|
  {
    hide Run;
    if es == [] {
      NoAnswers(cfg, clients);
    } else {
      RunHead(cfg, clients, es);
      var at := es[0].at;
      var next := clients[es[0].ip := Touch(cfg, Find(clients, es[0].ip), at)];
      forall lo
        ensures QueriesIn(es[1..], ip, lo, cfg.window) <= cfg.maxPerWindow
      {
        assert QueriesIn(es, ip, lo, cfg.window) <= cfg.maxPerWindow;
      }
      if cfg.window == 0 {
        EmptyInterval(es[1..], ip, at);
      }
      assert QueriesIn(es, ip, at, cfg.window) <= cfg.maxPerWindow;
      NeverDeniedFrom(cfg, next, at, es[1..], ip);
      var log := Run(cfg, clients, es);
      assert forall i :: 1 <= i < |log| ==> log[i] == log[1..][i - 1];
    }
  }

  lemma NoAnswers(cfg: Limits, clients: Clients)
    ensures Run(cfg, clients, []) == []
  {}

  /** Over every run with cleanups, a client that keeps to the limit in every window's length is never denied. */
  lemma NeverDenied(cfg: Limits, from: int, es: seq<Event>, ip: Ip)
    requires cfg.maxPerWindow > 0 && Monotone(from, es) && AtMost(cfg, es, ip)
    ensures NeverDenies(Run(cfg, map[], es), ip)
  {
    hide Run, NeverDenies;
    CleanupIsInvisible(cfg, from, es);
    var queries := WithoutCleanups(es);
    WithoutCleanupsMonotone(from, es);
    WithoutCleanupsIsQueries(es);
    forall t
      ensures QueriesIn(queries, ip, t, cfg.window) <= cfg.maxPerWindow
    {
      WithoutCleanupsSameQueries(es, ip, t, cfg.window);
      assert QueriesIn(es, ip, t, cfg.window) <= cfg.maxPerWindow;
    }
    NeverDeniedFrom(cfg, map[], from, queries, ip);
  }
}
