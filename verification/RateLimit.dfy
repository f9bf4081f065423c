/**
 The per-client rate limiter: one token bucket per key, dropped by a sweep once it has been idle for
 ten minutes. Tokens and seconds are reals, each call reads the clock once, and the bucket is the
 documented one of the rate library (reserve, delay, cancel).
 */
module RateLimit {
  const IDLE_TTL := 600.0

  datatype Config = Config(limit: real, burst: int)

  /** What the configuration loader enforces when rate limiting is on; the rest is not enforced. */
  predicate ValidConfig(c: Config) {
    c.limit > 0.0 && c.burst >= 1
  }

  /** The tokens a given number of seconds adds. */
  function Refill(c: Config, seconds: real): real {
    c.limit * seconds
  }

  /** The claim behind eviction: a bucket idle that long has refilled. */
  predicate RefillsWhileIdle(c: Config) {
    Refill(c, IDLE_TTL) >= c.burst as real
  }

  datatype Bucket = Bucket(tokens: real, last: real)

  datatype Tracked = Tracked(bucket: Bucket, seen: real)

  datatype Decision = Admitted | Denied(wait: real)

  datatype Reservation = NotOk | Ok(wait: real)

  function Min(a: real, b: real): real {
    if a < b then a else b
  }

  function NewBucket(c: Config, now: real): Bucket {
    Bucket(c.burst as real, now)
  }

  /** The tokens the bucket holds at a given time, as the library's `advance` computes them. */
  function Level(c: Config, b: Bucket, now: real): real {
    Min(c.burst as real, b.tokens + Refill(c, if now > b.last then now - b.last else 0.0))
  }

  function Reserve(c: Config, b: Bucket, now: real): (Bucket, Reservation)
    requires c.limit > 0.0
  {
    if c.burst < 1 then (b, NotOk)
    else
      var tokens := Level(c, b, now) - 1.0;
      (Bucket(tokens, now), Ok(if tokens < 0.0 then -tokens / c.limit else 0.0))
  }

  /** Cancelling the latest reservation at the instant it was made puts its token back. */
  function Cancel(c: Config, b: Bucket, now: real): Bucket {
    Bucket(Min(c.burst as real, Level(c, b, now) + 1.0), now)
  }

  /** Reserve, look at the delay, and cancel if there is one. */
  function Ask(c: Config, b: Bucket, now: real): (Bucket, Decision)
    requires c.limit > 0.0
  {
    var (reserved, r) := Reserve(c, b, now);
    if r.NotOk? then (reserved, Denied(0.0))
    else if r.wait > 0.0 then (Cancel(c, reserved, now), Denied(r.wait))
    else (reserved, Admitted)
  }

  type Store = map<string, Tracked>

  function Allowed(c: Config, s: Store, key: string, now: real): (Store, Decision)
    requires c.limit > 0.0
  {
    var bucket := if key in s then s[key].bucket else NewBucket(c, now);
    var (bucket', d) := Ask(c, bucket, now);
    (s[key := Tracked(bucket', now)], d)
  }

  function Swept(s: Store, now: real): Store {
    map key | key in s && !(s[key].seen < now - IDLE_TTL) :: s[key]
  }

  /** The whole seconds of a wait, and never less than one. */
  function RetryAfter(wait: real): int {
    var seconds := wait.Floor;
    if seconds < 1 then 1 else seconds
  }

  datatype Response = PassedOn | TooManyRequests(retryAfter: int)

  class LimiterStore {
    const config: Config
    var limiters: Store

    constructor (config: Config)
      ensures this.config == config && limiters == map[]
    {
      this.config := config;
      limiters := map[];
    }

    method Allow(key: string, now: real) returns (allowed: bool, wait: real)
      requires config.limit > 0.0
      modifies this
      ensures limiters == Allowed(config, old(limiters), key, now).0
      ensures Allowed(config, old(limiters), key, now).1 == if allowed then Admitted else Denied(wait)
      ensures allowed ==> wait == 0.0
    {
      if key !in limiters {
        limiters := limiters[key := Tracked(NewBucket(config, now), now)];
      }
      limiters := limiters[key := limiters[key].(seen := now)];

      var (reserved, reservation) := Reserve(config, limiters[key].bucket, now);
      limiters := limiters[key := limiters[key].(bucket := reserved)];
      if reservation.NotOk? {
        return false, 0.0;
      }
      wait := reservation.wait;
      if wait > 0.0 {
        limiters := limiters[key := limiters[key].(bucket := Cancel(config, reserved, now))];
        return false, wait;
      }
      return true, 0.0;
    }

    method Sweep(now: real)
      modifies this
      ensures limiters == Swept(old(limiters), now)
    {
      var cutoff := now - IDLE_TTL;
      var keys := limiters.Keys;
      while keys != {}
        invariant keys <= limiters.Keys
        invariant limiters == map key | key in old(limiters)
            && (key in keys || !(old(limiters)[key].seen < cutoff)) :: old(limiters)[key]
        decreases keys
      {
        var key :| key in keys;
        if limiters[key].seen < cutoff {
          limiters := limiters - {key};
        }
        keys := keys - {key};
      }
    }

    /** Health probes are never limited; a refusal says when to come back. */
    method Enforce(probe: bool, key: string, now: real) returns (r: Response)
      requires config.limit > 0.0
      modifies this
      ensures probe ==> r == PassedOn && limiters == old(limiters)
      ensures !probe ==>
                var (store, d) := Allowed(config, old(limiters), key, now);
                limiters == store && r == if d.Admitted? then PassedOn else TooManyRequests(RetryAfter(d.wait))
    {
      if probe {
        return PassedOn;
      }
      var allowed, wait := Allow(key, now);
      if allowed {
        return PassedOn;
      }
      var seconds := wait.Floor;
      if seconds < 1 {
        seconds := 1;
      }
      return TooManyRequests(seconds);
    }
  }

  // ----- Runs ------------------------------------------------------------------------------------

  datatype Event = Request(key: string, at: real) | Sweep(at: real)

  ghost predicate Timed(es: seq<Event>) {
    forall i, j :: 0 <= i < j < |es| ==> es[i].at <= es[j].at
  }

  /** The evicting store after a run. */
  function StoreAfter(c: Config, es: seq<Event>): Store
    requires c.limit > 0.0
  {
    if es == [] then map[]
    else
      var s := StoreAfter(c, es[..|es| - 1]);
      match es[|es| - 1]
      case Request(key, at) => Allowed(c, s, key, at).0
      case Sweep(at) => Swept(s, at)
  }

  function StoreDecision(c: Config, es: seq<Event>, i: nat): Decision
    requires c.limit > 0.0 && i < |es| && es[i].Request?
  {
    Allowed(c, StoreAfter(c, es[..i]), es[i].key, es[i].at).1
  }

  /** The reference: a client's own bucket, never evicted and never touched by anyone else. */
  function OwnBucket(c: Config, es: seq<Event>, key: string, now: real): Bucket
    requires c.limit > 0.0
  {
    if es == [] then NewBucket(c, now)
    else
      var front, e := es[..|es| - 1], es[|es| - 1];
      if e.Request? && e.key == key then Ask(c, OwnBucket(c, front, key, e.at), e.at).0
      else OwnBucket(c, front, key, now)
  }

  function OwnDecision(c: Config, es: seq<Event>, i: nat): Decision
    requires c.limit > 0.0 && i < |es| && es[i].Request?
  {
    Ask(c, OwnBucket(c, es[..i], es[i].key, es[i].at), es[i].at).1
  }

  // ----- One bucket --------------------------------------------------------------------------------

  lemma RefillOrder(c: Config, a: real, b: real)
    requires c.limit > 0.0
    ensures a <= b <==> Refill(c, a) <= Refill(c, b)
    ensures a < b <==> Refill(c, a) < Refill(c, b)
  {
  }

  lemma RefillSum(c: Config, a: real, b: real)
    ensures Refill(c, a) + Refill(c, b) == Refill(c, a + b)
  {
  }

  lemma NoTimeNoRefill(c: Config)
    ensures Refill(c, 0.0) == 0.0
  {
  }

  lemma RefillTime(c: Config, tokens: real)
    requires c.limit > 0.0
    ensures Refill(c, tokens / c.limit) == tokens
    ensures tokens > 0.0 <==> tokens / c.limit > 0.0
  {
  }

  /** Levels only rise with time, at most at the limit. */
  lemma LevelGrows(c: Config, b: Bucket, t: real, u: real)
    requires c.limit > 0.0 && t <= u
    ensures Level(c, b, t) <= Level(c, b, u) <= Level(c, b, t) + Refill(c, u - t)
  {
    hide Refill;
    var d, e := if t > b.last then t - b.last else 0.0, if u > b.last then u - b.last else 0.0;
    RefillOrder(c, d, e);
    RefillOrder(c, e - d, u - t);
    RefillSum(c, d, e - d);
  }

  /** A bucket that can hold no token admits nobody and says nothing of when to come back. */
  lemma NoBurstNoEntry(c: Config, b: Bucket, now: real)
    requires c.limit > 0.0 && c.burst < 1
    ensures Ask(c, b, now) == (b, Denied(0.0)) && RetryAfter(0.0) == 1
  {
  }

  /** The level after a request, and what decides it. */
  lemma AskLevel(c: Config, b: Bucket, now: real)
    requires ValidConfig(c)
    ensures var (b', d) := Ask(c, b, now);
            && b'.last == now
            && b'.tokens == Level(c, b', now) == Level(c, b, now) - (if d.Admitted? then 1.0 else 0.0)
            && (d.Admitted? <==> Level(c, b, now) >= 1.0)
            && (d.Denied? ==> d.wait > 0.0 && Refill(c, d.wait) == 1.0 - Level(c, b, now))
  {
    hide Refill;
    RefillTime(c, 1.0 - Level(c, b, now));
    NoTimeNoRefill(c);
  }

  /** Only the level matters: buckets that agree now answer alike and agree ever after. */
  lemma AskDependsOnLevel(c: Config, a: Bucket, b: Bucket, now: real)
    requires ValidConfig(c) && Level(c, a, now) == Level(c, b, now)
    ensures Ask(c, a, now) == Ask(c, b, now)
  {
    hide Refill;
  }

  /** A refused request leaves the bucket, at every later time, as if it had never been made. */
  lemma {:induction false} RefusalLeavesNoTrace(c: Config, b: Bucket, now: real, later: real)
    requires ValidConfig(c) && now >= b.last && later >= now
    requires Ask(c, b, now).1.Denied?
    ensures Level(c, Ask(c, b, now).0, later) == Level(c, b, later)
    ensures Ask(c, Ask(c, b, now).0, later) == Ask(c, b, later)
  {
    hide Refill;
    var b' := Ask(c, b, now).0;
    AskLevel(c, b, now);
    RefillSum(c, now - b.last, later - now);
    AskDependsOnLevel(c, b', b, later);
  }

  /** The wait is exact: left alone, the bucket admits from `now + wait` on and not before. */
  lemma WaitIsExact(c: Config, b: Bucket, now: real, later: real)
    requires ValidConfig(c) && later >= now
    requires Ask(c, b, now).1.Denied?
    ensures var (b', d) := Ask(c, b, now);
            Ask(c, b', later).1.Admitted? <==> later >= now + d.wait
  {
    hide Refill;
    var (b', d) := Ask(c, b, now);
    AskLevel(c, b, now);
    AskLevel(c, b', later);
    RefillOrder(c, d.wait, later - now);
    NoTimeNoRefill(c);
  }

  /**
   Retry-After falls short of the wait by less than a second, and a client that comes back exactly
   then is admitted only if the wait was at most one second or a whole number of them.
   */
  lemma RetryAfterRoundsDown(c: Config, b: Bucket, now: real)
    requires ValidConfig(c) && Ask(c, b, now).1.Denied?
    ensures var (b', d) := Ask(c, b, now);
            var seconds := RetryAfter(d.wait);
            && seconds >= 1 && d.wait - 1.0 < seconds as real
            && (d.wait <= 1.0 ==> seconds == 1)
            && (d.wait > 1.0 ==> seconds as real <= d.wait)
            && (Ask(c, b', now + seconds as real).1.Admitted? <==> d.wait <= 1.0 || d.wait == d.wait.Floor as real)
  {
    hide Refill;
    var (b', d) := Ask(c, b, now);
    AskLevel(c, b, now);
    WaitIsExact(c, b, now, now + RetryAfter(d.wait) as real);
  }
}
