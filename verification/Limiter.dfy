/**
 * The per-IP rate limiter (internal/web/limiter.go): a token bucket per address, and a loop that forgets
 * addresses not seen for ten minutes. A bucket starts full and refills at a constant rate up to its
 * burst; time and tokens are real numbers.
 */
module Limiter {
  import opened Basics

  type Ip = string

  const IDLE: real := 600.0

  /** One address: the tokens at the time of its last call, and that time. */
  datatype Bucket = Bucket(tokens: real, last: real)

  /** The settings of a limiter: tokens per second, and the size of a bucket. */
  datatype Config = Config(rate: real, burst: nat) {
    predicate Valid() { rate > 0.0 && burst >= 1 }

    function Full(): real { burst as real }

    /** Tokens gained in dt seconds. */
    function Gain(dt: real): real { rate * dt }

    /** An idle bucket is full again before it can be forgotten. */
    predicate RefillsWhenIdle() { Full() <= Gain(IDLE) }
  }

  function Minimum(a: real, b: real): real { if a <= b then a else b }

  function Refilled(c: Config, b: Bucket, now: real): real { Minimum(c.Full(), b.tokens + c.Gain(now - b.last)) }

  /** The tokens an address has at time `now`: all of them when it has no bucket. */
  function Level(c: Config, b: Option<Bucket>, now: real): real { if b.None? then c.Full() else Refilled(c, b.value, now) }

  predicate Passes(c: Config, b: Option<Bucket>, now: real) { Level(c, b, now) >= 1.0 }

  /** The bucket after a call at time `now`. */
  function AfterCall(c: Config, b: Option<Bucket>, now: real): Bucket {
    Bucket(if Passes(c, b, now) then Level(c, b, now) - 1.0 else Level(c, b, now), now)
  }

  function Look(seen: map<Ip, Bucket>, ip: Ip): Option<Bucket> { if ip in seen then Some(seen[ip]) else None }

  class IpLimiter {
    const config: Config
    var seen: map<Ip, Bucket>

    constructor (config: Config)
      ensures this.config == config && seen == map[]
    {
      this.config, seen := config, map[];
    }

    /** allow: find or make the bucket, stamp it, take a token if there is one. */
    method Allow(ip: Ip, now: real) returns (ok: bool)
      modifies `seen
      ensures ok == Passes(config, Look(old(seen), ip), now)
      ensures seen == old(seen)[ip := AfterCall(config, Look(old(seen), ip), now)]
      ensures
        var full := config.burst as real;
        var tokens := if ip in old(seen) then Minimum(full, old(seen)[ip].tokens + config.rate * (now - old(seen)[ip].last)) else full;
        && (ok <==> tokens >= 1.0)
        && seen == old(seen)[ip := Bucket(if ok then tokens - 1.0 else tokens, now)]
    {
      var e := if ip in seen then seen[ip] else Bucket(config.Full(), now);
      var tokens := Refilled(config, e, now);
      assert ip !in seen ==> config.Gain(now - now) == 0.0;
      assert config.Gain(now - e.last) == config.rate * (now - e.last);
      assert ip in seen ==> tokens == Minimum(config.burst as real, seen[ip].tokens + config.rate * (now - seen[ip].last));
      ghost var level := tokens;
      ok := tokens >= 1.0;
      if ok {
        tokens := tokens - 1.0;
      }
      assert tokens == if ok then level - 1.0 else level;
      seen := seen[ip := Bucket(tokens, now)];
    }

    /** The eviction loop: forget every address idle for more than ten minutes. */
    method Evict(now: real)
      modifies `seen
      ensures seen == Evicted(old(seen), now)
      ensures forall ip :: ip in seen <==> ip in old(seen) && now - old(seen)[ip].last <= 600.0
    {
      var todo := seen.Keys;
      while todo != {}
        invariant todo <= old(seen).Keys
        invariant forall ip :: ip in seen <==> ip in old(seen) && (ip in todo || !Idle(old(seen)[ip], now))
        invariant forall ip | ip in seen :: seen[ip] == old(seen)[ip]
        decreases |todo|
      {
        var ip :| ip in todo;
        todo := todo - {ip};
        if Idle(seen[ip], now) {
          seen := seen - {ip};
        }
      }
    }
  }

  predicate Idle(b: Bucket, now: real) { now - b.last > IDLE }

  function Evicted(seen: map<Ip, Bucket>, now: real): map<Ip, Bucket> {
    map ip | ip in seen && !Idle(seen[ip], now) :: seen[ip]
  }

  // ---- forgetting changes no answer ----

  /** What happens to a limiter, each at its own time. */
  datatype Event = Call(ip: Ip, at: real) | Eviction(at: real)

  function Next(c: Config, seen: map<Ip, Bucket>, e: Event): map<Ip, Bucket> {
    match e
    case Call(ip, now) => seen[ip := AfterCall(c, Look(seen, ip), now)]
    case Eviction(now) => Evicted(seen, now)
  }

  /** The answers of the limiter to the calls among the events. */
  function Answers(c: Config, seen: map<Ip, Bucket>, events: seq<Event>): seq<bool>
    decreases |events|
  {
    if events == [] then []
    else
      (if events[0].Call? then [Passes(c, Look(seen, events[0].ip), events[0].at)] else [])
      + Answers(c, Next(c, seen, events[0]), events[1..])
  }

  /** The calls alone: what a limiter that never forgets would see. */
  function Calls(events: seq<Event>): seq<Event> {
    if events == [] then [] else (if events[0].Call? then [events[0]] else []) + Calls(events[1..])
  }

  /** The clock does not go back. */
  predicate InOrder(events: seq<Event>, from: real) {
    && (forall i | 0 <= i < |events| :: from <= events[i].at)
    && (forall i, j | 0 <= i < j < |events| :: events[i].at <= events[j].at)
  }

  /** Buckets hold between nothing and the burst, and were stamped in the past. */
  predicate Sane(c: Config, seen: map<Ip, Bucket>, now: real) {
    forall ip | ip in seen :: 0.0 <= seen[ip].tokens <= c.Full() && seen[ip].last <= now
  }

  /** What the limiter forgot would be full by now; what it kept is the same. */
  predicate Agree(c: Config, small: map<Ip, Bucket>, big: map<Ip, Bucket>, now: real) {
    && small.Keys <= big.Keys
    && (forall ip | ip in small :: small[ip] == big[ip])
    && (forall ip | ip in big && ip !in small :: Refilled(c, big[ip], now) == c.Full())
  }

  lemma GainGrows(c: Config, x: real, y: real)
    requires c.Valid() && x <= y
    ensures c.Gain(x) <= c.Gain(y) && c.Gain(0.0) == 0.0 && c.Gain(y) - c.Gain(x) == c.Gain(y - x)
  {
    assert c.rate * (y - x) >= 0.0;
    assert c.rate * (y - x) == c.rate * y - c.rate * x;
  }

  /** Refilling goes on: full stays full. */
  lemma StaysFull(c: Config, b: Bucket, now: real, later: real)
    requires c.Valid() && now <= later
    ensures Refilled(c, b, now) == c.Full() ==> Refilled(c, b, later) == c.Full()
  {
    GainGrows(c, now - b.last, later - b.last);
  }

  /** An idle bucket is full, when the burst is small enough for the rate. */
  lemma IdleIsFull(c: Config, b: Bucket, now: real)
    requires c.Valid() && c.RefillsWhenIdle() && Idle(b, now) && 0.0 <= b.tokens
    ensures Refilled(c, b, now) == c.Full()
  {
    GainGrows(c, IDLE, now - b.last);
  }

  lemma RefilledRange(c: Config, b: Bucket, now: real)
    requires c.Valid() && 0.0 <= b.tokens && b.last <= now
    ensures 0.0 <= Refilled(c, b, now) <= c.Full()
  {
    GainGrows(c, 0.0, now - b.last);
  }

  lemma SaneNext(c: Config, seen: map<Ip, Bucket>, from: real, e: Event)
    requires c.Valid() && Sane(c, seen, from) && from <= e.at
    ensures Sane(c, Next(c, seen, e), e.at)
  {
    hide Refilled;
    if e.Call? && e.ip in seen {
      RefilledRange(c, seen[e.ip], e.at);
    }
  }

  lemma AgreeNext(c: Config, small: map<Ip, Bucket>, big: map<Ip, Bucket>, from: real, e: Event)
    requires c.Valid() && c.RefillsWhenIdle() && Agree(c, small, big, from) && Sane(c, big, from) && from <= e.at
    ensures Agree(c, Next(c, small, e), if e.Eviction? then big else Next(c, big, e), e.at)
    ensures e.Call? ==> Passes(c, Look(small, e.ip), e.at) == Passes(c, Look(big, e.ip), e.at)
  {
    hide Refilled;
    forall ip | ip in big && ip !in small
      ensures Refilled(c, big[ip], e.at) == c.Full()
    {
      StaysFull(c, big[ip], from, e.at);
    }
    match e
    case Eviction(now) =>
      forall ip | ip in small && Idle(small[ip], now)
        ensures Refilled(c, big[ip], now) == c.Full()
      {
        IdleIsFull(c, big[ip], now);
      }
    case Call(ip, now) =>
  }

  lemma {:induction false} SameAnswers(c: Config, small: map<Ip, Bucket>, big: map<Ip, Bucket>, events: seq<Event>, from: real)
    requires c.Valid() && c.RefillsWhenIdle() && Agree(c, small, big, from) && Sane(c, big, from) && InOrder(events, from)
    ensures Answers(c, small, events) == Answers(c, big, Calls(events))
    decreases |events|
  {
    hide Agree, Sane, Next, Passes;
    if events != [] {
      var e := events[0];
      AgreeNext(c, small, big, from, e);
      SaneNext(c, big, from, e);
      if e.Eviction? {
        assert Sane(c, big, e.at) by { SaneLater(c, big, from, e.at); }
        SameAnswers(c, Next(c, small, e), big, events[1..], e.at);
        assert Calls(events) == Calls(events[1..]);
        assert Answers(c, small, events) == Answers(c, Next(c, small, e), events[1..]);
      } else {
        SameAnswers(c, Next(c, small, e), Next(c, big, e), events[1..], e.at);
        assert Calls(events)[0] == e && Calls(events)[1..] == Calls(events[1..]);
      }
    }
  }

  lemma SaneLater(c: Config, seen: map<Ip, Bucket>, from: real, later: real)
    requires Sane(c, seen, from) && from <= later
    ensures Sane(c, seen, later)
  {
  }

  /** What a limiter answers does not depend on evictions, if a bucket refills within the ten minutes. */
  lemma ForgettingIsInvisible(c: Config, events: seq<Event>, from: real)
    requires c.Valid() && c.RefillsWhenIdle() && InOrder(events, from)
    ensures Answers(c, map[], events) == Answers(c, map[], Calls(events))
  {
    SameAnswers(c, map[], map[], events, from);
  }

  // ---- the bound on passes ----

  /** How many calls of ip pass. */
  function Passed(c: Config, seen: map<Ip, Bucket>, events: seq<Event>, ip: Ip): nat
    decreases |events|
  {
    if events == [] then 0
    else
      var e := events[0];
      (if e.Call? && e.ip == ip && Passes(c, Look(seen, ip), e.at) then 1 else 0) + Passed(c, Next(c, seen, e), events[1..], ip)
  }

  /** The limiter after some events. */
  function Seen(c: Config, seen: map<Ip, Bucket>, events: seq<Event>): map<Ip, Bucket>
    decreases |events|
  {
    if events == [] then seen else Seen(c, Next(c, seen, events[0]), events[1..])
  }

  lemma LevelGrows(c: Config, b: Option<Bucket>, from: real, later: real)
    requires c.Valid() && from <= later
    ensures Level(c, b, later) <= Level(c, b, from) + c.Gain(later - from)
  {
    GainGrows(c, 0.0, later - from);
    if b.Some? {
      GainGrows(c, from - b.value.last, later - b.value.last);
    }
  }

  /** A pass costs a token, and nothing else gives any. */
  lemma LevelNext(c: Config, seen: map<Ip, Bucket>, from: real, e: Event, ip: Ip)
    requires c.Valid() && c.RefillsWhenIdle() && Sane(c, seen, from) && from <= e.at
    ensures
      var cost := if e.Call? && e.ip == ip && Passes(c, Look(seen, ip), e.at) then 1.0 else 0.0;
      Level(c, Look(Next(c, seen, e), ip), e.at) <= Level(c, Look(seen, ip), e.at) - cost
  {
    GainGrows(c, 0.0, 0.0);
    if ip in seen {
      if e.Eviction? && Idle(seen[ip], e.at) {
        IdleIsFull(c, seen[ip], e.at);
      }
    }
  }

  lemma LevelNotNegative(c: Config, seen: map<Ip, Bucket>, from: real, ip: Ip)
    requires c.Valid() && Sane(c, seen, from)
    ensures 0.0 <= Level(c, Look(seen, ip), from) <= c.Full()
  {
    if ip in seen {
      RefilledRange(c, seen[ip], from);
    }
  }

  lemma {:induction false} PassedBound(c: Config, seen: map<Ip, Bucket>, events: seq<Event>, from: real, to: real, ip: Ip)
    requires c.Valid() && c.RefillsWhenIdle() && Sane(c, seen, from) && InOrder(events, from) && from <= to
    requires forall e | e in events :: e.at <= to
    ensures Passed(c, seen, events, ip) as real <= Level(c, Look(seen, ip), from) + c.Gain(to - from)
    decreases |events|
  {
    hide Sane, Next, Level, Passes;
    GainGrows(c, 0.0, to - from);
    if events == [] {
      LevelNotNegative(c, seen, from, ip);
    } else {
      var e := events[0];
      SaneNext(c, seen, from, e);
      PassedBound(c, Next(c, seen, e), events[1..], e.at, to, ip);
      LevelNext(c, seen, from, e, ip);
      LevelGrows(c, Look(seen, ip), from, e.at);
      GainGrows(c, e.at - from, to - from);
    }
  }

  lemma {:induction false} SaneSeen(c: Config, seen: map<Ip, Bucket>, events: seq<Event>, from: real, to: real)
    requires c.Valid() && Sane(c, seen, from) && InOrder(events, from) && from <= to && forall e | e in events :: e.at <= to
    ensures Sane(c, Seen(c, seen, events), to)
    decreases |events|
  {
    hide Sane, Next;
    if events == [] {
      SaneLater(c, seen, from, to);
    } else {
      SaneNext(c, seen, from, events[0]);
      SaneSeen(c, Next(c, seen, events[0]), events[1..], events[0].at, to);
    }
  }

  /**
   * In any window of time, after any history and with evictions at any time, an address gets at most
   * burst + rate * T calls through.
   */
  lemma WindowBound(c: Config, before: seq<Event>, window: seq<Event>, start: real, from: real, to: real, ip: Ip)
    requires c.Valid() && c.RefillsWhenIdle() && start <= from <= to
    requires InOrder(before, start) && (forall e | e in before :: e.at <= from)
    requires InOrder(window, from) && (forall e | e in window :: e.at <= to)
    ensures Passed(c, Seen(c, map[], before), window, ip) as real <= c.burst as real + c.rate * (to - from)
  {
    hide Sane, Seen, Passed, Level, InOrder;
    var seen := Seen(c, map[], before);
    assert Sane(c, map[], start) by { NothingSeen(c, start); }
    SaneSeen(c, map[], before, start, from);
    PassedBound(c, seen, window, from, to, ip);
    LevelNotNegative(c, seen, from, ip);
  }

  lemma NothingSeen(c: Config, now: real)
    ensures Sane(c, map[], now)
  {
  }

  // ---- the condition is exact ----

  lemma {:induction false} AnswersAppend(c: Config, seen: map<Ip, Bucket>, a: seq<Event>, b: seq<Event>)
    ensures Answers(c, seen, a + b) == Answers(c, seen, a) + Answers(c, Seen(c, seen, a), b)
    decreases |a|
  {
    hide Passes, Next;
    if a == [] {
      assert a + b == b;
    } else {
      assert (a + b)[1..] == a[1..] + b;
      AnswersAppend(c, Next(c, seen, a[0]), a[1..], b);
    }
  }

  lemma {:induction false} SeenAppend(c: Config, seen: map<Ip, Bucket>, a: seq<Event>, b: seq<Event>)
    ensures Seen(c, seen, a + b) == Seen(c, Seen(c, seen, a), b)
    decreases |a|
  {
    if a == [] {
      assert a + b == b;
    } else {
      assert (a + b)[1..] == a[1..] + b;
      SeenAppend(c, Next(c, seen, a[0]), a[1..], b);
    }
  }

  lemma {:induction false} CallsAppend(a: seq<Event>, b: seq<Event>)
    ensures Calls(a + b) == Calls(a) + Calls(b)
  {
    if a == [] {
      assert a + b == b;
    } else {
      assert (a + b)[1..] == a[1..] + b;
      CallsAppend(a[1..], b);
    }
  }

  /** n calls at one moment. */
  function Burst(ip: Ip, at: real, n: nat): (events: seq<Event>)
    ensures |events| == n && forall e | e in events :: e == Call(ip, at)
  {
    if n == 0 then [] else [Call(ip, at)] + Burst(ip, at, n - 1)
  }

  lemma {:induction false} BurstCalls(ip: Ip, at: real, n: nat)
    ensures Calls(Burst(ip, at, n)) == Burst(ip, at, n)
  {
    if n > 0 {
      assert Burst(ip, at, n)[1..] == Burst(ip, at, n - 1);
      BurstCalls(ip, at, n - 1);
    }
  }

  /** Calls at one moment take one token each, as long as there are any. */
  lemma {:induction false} BurstTakes(c: Config, seen: map<Ip, Bucket>, ip: Ip, at: real, n: nat)
    requires c.Valid() && Sane(c, seen, at)
    ensures
      var x := Level(c, Look(seen, ip), at);
      var y := Level(c, Look(Seen(c, seen, Burst(ip, at, n)), ip), at);
      (x < 1.0 ==> y == x) && (x >= n as real ==> y == x - n as real) && (y < 1.0 || y == x - n as real)
    decreases n
  {
    hide Sane;
    if n > 0 {
      var e := Call(ip, at);
      assert Burst(ip, at, n)[1..] == Burst(ip, at, n - 1);
      SaneNext(c, seen, at, e);
      OneCall(c, seen, ip, at);
      BurstTakes(c, Next(c, seen, e), ip, at, n - 1);
    }
  }

  lemma OneCall(c: Config, seen: map<Ip, Bucket>, ip: Ip, at: real)
    requires c.Valid() && Sane(c, seen, at)
    ensures
      var x := Level(c, Look(seen, ip), at);
      Level(c, Look(Next(c, seen, Call(ip, at)), ip), at) == if x >= 1.0 then x - 1.0 else x
  {
    GainGrows(c, 0.0, 0.0);
    LevelNotNegative(c, seen, at, ip);
  }

  lemma {:induction false} BurstStamps(c: Config, seen: map<Ip, Bucket>, ip: Ip, at: real, n: nat)
    requires n >= 1
    ensures
      var seen' := Seen(c, seen, Burst(ip, at, n));
      ip in seen' && seen'[ip].last == at && seen'.Keys == seen.Keys + {ip}
    decreases n
  {
    hide Passes, Level;
    assert Burst(ip, at, n)[1..] == Burst(ip, at, n - 1);
    if n > 1 {
      BurstStamps(c, Next(c, seen, Call(ip, at)), ip, at, n - 1);
    }
  }

  /** A whole burst empties a new bucket. */
  lemma BurstEmpties(c: Config, ip: Ip)
    requires c.Valid()
    ensures Seen(c, map[], Burst(ip, 0.0, c.burst)) == map[ip := Bucket(0.0, 0.0)]
  {
    NothingSeen(c, 0.0);
    BurstTakes(c, map[], ip, 0.0, c.burst);
    BurstStamps(c, map[], ip, 0.0, c.burst);
    SaneBurst(c, map[], ip, 0.0, c.burst);
    GainGrows(c, 0.0, 0.0);
  }

  lemma {:induction false} SaneBurst(c: Config, seen: map<Ip, Bucket>, ip: Ip, at: real, n: nat)
    requires c.Valid() && Sane(c, seen, at)
    ensures Sane(c, Seen(c, seen, Burst(ip, at, n)), at)
    decreases n
  {
    hide Sane, Next;
    if n > 0 {
      assert Burst(ip, at, n)[1..] == Burst(ip, at, n - 1);
      SaneNext(c, seen, at, Call(ip, at));
      SaneBurst(c, Next(c, seen, Call(ip, at)), ip, at, n - 1);
    }
  }

  /** Use up a burst, wait until just past the ten minutes, and use up another. */
  function TwoBursts(c: Config, ip: Ip, at: real): seq<Event>
    requires c.burst >= 1
  {
    Burst(ip, 0.0, c.burst) + [Eviction(at)] + Burst(ip, at, c.burst - 1) + [Call(ip, at)]
  }

  /** The forgetful limiter lets the last call through, the other one does not. */
  lemma LastCallDiffers(c: Config, ip: Ip, at: real)
    requires c.Valid() && at > IDLE && c.Gain(at) < c.Full()
    ensures Answers(c, map[], TwoBursts(c, ip, at)) != Answers(c, map[], Calls(TwoBursts(c, ip, at)))
  {
    hide Passes, Level, Answers, Seen, Calls, Sane, Burst;
    var first, second := Burst(ip, 0.0, c.burst), Burst(ip, at, c.burst - 1);
    var pre := first + [Eviction(at)] + second;
    var call := [Call(ip, at)];
    CallsAppend(pre, call);
    CallsAppend(first + [Eviction(at)], second);
    CallsAppend(first, [Eviction(at)]);
    BurstCalls(ip, 0.0, c.burst);
    BurstCalls(ip, at, c.burst - 1);
    CallsOne(ip, at);
    assert first + [] == first;
    assert Calls(TwoBursts(c, ip, at)) == first + second + call;
    AnswersAppend(c, map[], pre, call);
    AnswersAppend(c, map[], first + second, call);
    LastOne(c, Seen(c, map[], pre), ip, at);
    LastOne(c, Seen(c, map[], first + second), ip, at);
    SeenAppend(c, map[], first + [Eviction(at)], second);
    SeenAppend(c, map[], first, [Eviction(at)]);
    SeenAppend(c, map[], first, second);
    BurstEmpties(c, ip);
    var empty := map[ip := Bucket(0.0, 0.0)];
    Forgets(c, ip, at);
    SecondForgetful(c, ip, at);
    SecondLasting(c, ip, at);
    LastDiffers(Answers(c, map[], pre), true, Answers(c, map[], first + second), false);
  }

  lemma LastDiffers(a: seq<bool>, x: bool, b: seq<bool>, y: bool)
    requires x != y
    ensures a + [x] != b + [y]
  {
    assert (a + [x])[|a + [x]| - 1] == x && (b + [y])[|b + [y]| - 1] == y;
  }

  lemma CallsOne(ip: Ip, at: real)
    ensures Calls([Call(ip, at)]) == [Call(ip, at)] && Calls([Eviction(at)]) == []
  {
  }

  lemma LastOne(c: Config, seen: map<Ip, Bucket>, ip: Ip, at: real)
    ensures Answers(c, seen, [Call(ip, at)]) == [Passes(c, Look(seen, ip), at)]
  {
  }

  lemma Forgets(c: Config, ip: Ip, at: real)
    requires at > IDLE
    ensures Seen(c, map[ip := Bucket(0.0, 0.0)], [Eviction(at)]) == map[]
  {
    assert [Eviction(at)][1..] == [];
  }

  lemma SecondForgetful(c: Config, ip: Ip, at: real)
    requires c.Valid()
    ensures Passes(c, Look(Seen(c, map[], Burst(ip, at, c.burst - 1)), ip), at)
  {
    NothingSeen(c, at);
    BurstTakes(c, map[], ip, at, c.burst - 1);
  }

  lemma SecondLasting(c: Config, ip: Ip, at: real)
    requires c.Valid() && at > IDLE && c.Gain(at) < c.Full()
    ensures !Passes(c, Look(Seen(c, map[ip := Bucket(0.0, 0.0)], Burst(ip, at, c.burst - 1)), ip), at)
  {
    var empty := map[ip := Bucket(0.0, 0.0)];
    assert Level(c, Look(empty, ip), at) == c.Gain(at) by { assert at - 0.0 == at; }
    BurstTakes(c, empty, ip, at, c.burst - 1);
  }

  /** No sequence of events tells the two limiters apart. */
  ghost predicate Invisible(c: Config) {
    forall events, from | InOrder(events, from) :: Answers(c, map[], events) == Answers(c, map[], Calls(events))
  }

  /**
   * Forgetting idle addresses is invisible exactly when a bucket refills within the ten minutes, that is
   * when burst <= 600 * rate.
   */
  lemma InvisibleExactly(c: Config)
    requires c.Valid()
    ensures Invisible(c) <==> c.burst as real <= c.rate * 600.0
  {
    hide Answers, Calls, TwoBursts;
    if c.RefillsWhenIdle() {
      forall events, from | InOrder(events, from)
        ensures Answers(c, map[], events) == Answers(c, map[], Calls(events))
      {
        ForgettingIsInvisible(c, events, from);
      }
    } else {
      var at := (IDLE + c.Full() / c.rate) / 2.0;
      JustPast(c, at);
      LastCallDiffers(c, "ip", at);
      assert InOrder(TwoBursts(c, "ip", at), 0.0) by { TwoBurstsInOrder(c, "ip", at); }
    }
  }

  lemma JustPast(c: Config, at: real)
    requires c.Valid() && !c.RefillsWhenIdle() && at == (IDLE + c.Full() / c.rate) / 2.0
    ensures at > IDLE && c.Gain(at) < c.Full()
  {
    var q := c.Full() / c.rate;
    Quotient(c.Full(), c.rate);
    Midpoint(c.rate, IDLE, q);
    if q <= IDLE {
      GainGrows(c, q, IDLE);
    }
  }

  lemma Quotient(x: real, r: real)
    requires r > 0.0
    ensures r * (x / r) == x
  {
  }

  lemma Midpoint(r: real, x: real, y: real)
    ensures r * ((x + y) / 2.0) == (r * x + r * y) / 2.0
  {
    var m := (x + y) / 2.0;
    assert r * (m + m) == r * m + r * m;
    assert r * (x + y) == r * x + r * y;
  }

  lemma TwoBurstsInOrder(c: Config, ip: Ip, at: real)
    requires c.burst >= 1 && at > 0.0
    ensures InOrder(TwoBursts(c, ip, at), 0.0)
  {
    var events := TwoBursts(c, ip, at);
    var first, second := Burst(ip, 0.0, c.burst), Burst(ip, at, c.burst - 1);
    forall i | 0 <= i < |events|
      ensures events[i].at == if i < c.burst then 0.0 else at
    {
      if i < c.burst {
        assert events[i] == first[i] && first[i] in first;
      } else if c.burst < i < |events| - 1 {
        assert events[i] == second[i - c.burst - 1] && second[i - c.burst - 1] in second;
      }
    }
  }

  /** The server's two limiters, 20 per second up to 40 and one in ten seconds up to 5, refill in time. */
  lemma ServerLimits()
    ensures Invisible(Config(20.0, 40)) && Invisible(Config(0.1, 5))
  {
    hide Invisible;
    InvisibleExactly(Config(20.0, 40));
    InvisibleExactly(Config(0.1, 5));
  }
}
