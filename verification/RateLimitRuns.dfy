/**
 What eviction does over whole runs: any timestamped sequence of requests from any clients and any
 sweeps, compared with clients that each own a bucket nobody evicts.
 */
module RateLimitRuns {
  import opened RateLimit

  lemma TimedFront(es: seq<Event>)
    requires Timed(es) && es != []
    ensures Timed(es[..|es| - 1])
    ensures forall i :: 0 <= i < |es| ==> es[i].at <= es[|es| - 1].at
  {
    hide Refill;
  }

  /** The client's own level as a function of time. */
  function OwnLevel(c: Config, es: seq<Event>, key: string, now: real): real
    requires c.limit > 0.0
  {
    Level(c, OwnBucket(c, es, key, now), now)
  }

  /** Until the first request the own bucket is new, and full, whenever it is looked at. */
  lemma {:induction false} OwnBucketFixed(c: Config, es: seq<Event>, key: string, t: real, u: real)
    requires ValidConfig(c)
    ensures OwnBucket(c, es, key, t) == OwnBucket(c, es, key, u)
            || (OwnBucket(c, es, key, t) == NewBucket(c, t) && OwnBucket(c, es, key, u) == NewBucket(c, u))
  {
    hide Refill;
    if es != [] {
      OwnBucketFixed(c, es[..|es| - 1], key, t, u);
    }
  }

  lemma OwnLevelGrows(c: Config, es: seq<Event>, key: string, t: real, u: real)
    requires ValidConfig(c) && t <= u
    ensures OwnLevel(c, es, key, t) <= OwnLevel(c, es, key, u) <= OwnLevel(c, es, key, t) + Refill(c, u - t)
  {
    hide Refill;
    OwnBucketFixed(c, es, key, t, u);
    LevelGrows(c, OwnBucket(c, es, key, t), t, u);
    RefillOrder(c, 0.0, u - t);
    NoTimeNoRefill(c);
  }

  lemma {:induction false} OwnLevelBounds(c: Config, es: seq<Event>, key: string, now: real)
    requires ValidConfig(c)
    ensures OwnBucket(c, es, key, now).tokens >= 0.0
    ensures 0.0 <= OwnLevel(c, es, key, now) <= c.burst as real
  {
    hide Refill;
    var b := OwnBucket(c, es, key, now);
    if es != [] {
      var front, e := es[..|es| - 1], es[|es| - 1];
      if e.Request? && e.key == key {
        OwnLevelBounds(c, front, key, e.at);
        AskLevel(c, OwnBucket(c, front, key, e.at), e.at);
      } else {
        OwnLevelBounds(c, front, key, now);
      }
    }
    RefillOrder(c, 0.0, if now > b.last then now - b.last else 0.0);
    NoTimeNoRefill(c);
  }

  // ----- Eviction loses nothing ----------------------------------------------------------------------

  /** The kept buckets are the clients' own; a forgotten one is full from `now` on. */
  ghost predicate Agrees(c: Config, es: seq<Event>, key: string, now: real) {
    c.limit > 0.0 &&
    var s := StoreAfter(c, es);
    if key in s then
      && s[key].seen == s[key].bucket.last <= now
      && forall t :: OwnBucket(c, es, key, t) == s[key].bucket
    else forall t :: t >= now ==> OwnLevel(c, es, key, t) == c.burst as real
  }

  lemma IdleMeansFull(c: Config, b: Bucket, now: real)
    requires ValidConfig(c) && RefillsWhileIdle(c)
    requires b.tokens >= 0.0 && b.last < now - IDLE_TTL
    ensures Level(c, b, now) == c.burst as real
  {
    hide Refill;
    RefillOrder(c, IDLE_TTL, now - b.last);
  }

  lemma AgreesAfterSweep(c: Config, es: seq<Event>, at: real, key: string, now: real)
    requires ValidConfig(c) && RefillsWhileIdle(c) && now <= at
    requires Agrees(c, es, key, now)
    ensures Agrees(c, es + [Sweep(at)], key, at)
  {
    hide Refill;
    var es' := es + [Sweep(at)];
    assert es'[..|es|] == es;
    assert forall t :: OwnBucket(c, es', key, t) == OwnBucket(c, es, key, t);
    assert forall t :: OwnLevel(c, es', key, t) == OwnLevel(c, es, key, t);
    var s := StoreAfter(c, es);
    if key in s && s[key].seen < at - IDLE_TTL {
      forall t | t >= at
        ensures OwnLevel(c, es', key, t) == c.burst as real
      {
        OwnLevelBounds(c, es, key, t);
        IdleMeansFull(c, s[key].bucket, t);
      }
    }
  }

  lemma AgreesAfterRequest(c: Config, es: seq<Event>, e: Event, key: string, now: real)
    requires ValidConfig(c) && e.Request? && now <= e.at
    requires Agrees(c, es, key, now)
    ensures Agrees(c, es + [e], key, e.at)
    ensures e.key == key ==> Allowed(c, StoreAfter(c, es), key, e.at).1 == Ask(c, OwnBucket(c, es, key, e.at), e.at).1
  {
    hide Refill;
    NoTimeNoRefill(c);
    var es' := es + [e];
    assert es'[..|es|] == es;
    var s, own := StoreAfter(c, es), OwnBucket(c, es, key, e.at);
    if e.key == key {
      var used := if key in s then s[key].bucket else NewBucket(c, e.at);
      assert Level(c, used, e.at) == Level(c, own, e.at) by {
        if key !in s {
          assert OwnLevel(c, es, key, e.at) == c.burst as real;
        }
      }
      AskDependsOnLevel(c, used, own, e.at);
      AskLevel(c, used, e.at);
    } else {
      assert forall t :: OwnBucket(c, es', key, t) == OwnBucket(c, es, key, t);
      assert forall t :: OwnLevel(c, es', key, t) == OwnLevel(c, es, key, t);
    }
  }

  lemma {:induction false} AgreesAfterRun(c: Config, es: seq<Event>, key: string, now: real)
    requires ValidConfig(c) && RefillsWhileIdle(c)
    requires Timed(es) && forall i :: 0 <= i < |es| ==> es[i].at <= now
    ensures Agrees(c, es, key, now)
  {
    hide Refill;
    NoTimeNoRefill(c);
    if es != [] {
      var front, e := es[..|es| - 1], es[|es| - 1];
      TimedFront(es);
      AgreesAfterRun(c, front, key, e.at);
      assert front + [e] == es;
      match e
      case Request(_, _) => AgreesAfterRequest(c, front, e, key, e.at);
      case Sweep(at) => AgreesAfterSweep(c, front, at, key, at);
    }
  }

  /** If an idle bucket refills, the evicting store answers every request as the client's own bucket would. */
  lemma EvictionLosesNothing(c: Config, es: seq<Event>, i: nat)
    requires ValidConfig(c) && RefillsWhileIdle(c)
    requires Timed(es) && i < |es| && es[i].Request?
    ensures StoreDecision(c, es, i) == OwnDecision(c, es, i)
  {
    hide Refill;
    var e := es[i];
    AgreesAfterRun(c, es[..i], e.key, e.at);
    AgreesAfterRequest(c, es[..i], e, e.key, e.at);
  }

  // ----- And only then -------------------------------------------------------------------------------

  function Burst(key: string, at: real, n: nat): (es: seq<Event>)
    ensures |es| == n && forall i :: 0 <= i < n ==> es[i] == Request(key, at)
  {
    seq(n, _ => Request(key, at))
  }

  lemma OwnAfterRequest(c: Config, es: seq<Event>, key: string, at: real)
    requires ValidConfig(c)
    ensures var before, after := OwnLevel(c, es, key, at), OwnLevel(c, es + [Request(key, at)], key, at);
            && after == (if before >= 1.0 then before - 1.0 else before)
            && OwnBucket(c, es + [Request(key, at)], key, at).last == at
  {
    hide Refill;
    assert (es + [Request(key, at)])[..|es|] == es;
    AskLevel(c, OwnBucket(c, es, key, at), at);
  }

  /** Requests made at one instant each take a token until less than one is left. */
  lemma {:induction false} BurstDrainsOwn(c: Config, es: seq<Event>, key: string, at: real, n: nat)
    requires ValidConfig(c)
    ensures var level := OwnLevel(c, es + Burst(key, at, n), key, at);
            level == OwnLevel(c, es, key, at) - n as real
                || (level < 1.0 && level > OwnLevel(c, es, key, at) - n as real)
    ensures n > 0 ==> OwnBucket(c, es + Burst(key, at, n), key, at).last == at
  {
    hide OwnLevel, OwnBucket;
    if n == 0 {
      assert es + Burst(key, at, n) == es;
    } else {
      BurstDrainsOwn(c, es, key, at, n - 1);
      OwnAfterRequest(c, es + Burst(key, at, n - 1), key, at);
      assert es + Burst(key, at, n) == es + Burst(key, at, n - 1) + [Request(key, at)];
    }
  }

  lemma StoreAfterRequest(c: Config, es: seq<Event>, key: string, at: real, tokens: real)
    requires ValidConfig(c) && 1.0 <= tokens <= c.burst as real
    requires var s := StoreAfter(c, es);
             if key in s then s[key].bucket == Bucket(tokens, at) else tokens == c.burst as real
    ensures var s := StoreAfter(c, es + [Request(key, at)]);
            key in s && s[key].seen == at && s[key].bucket == Bucket(tokens - 1.0, at)
  {
    hide Refill;
    NoTimeNoRefill(c);
    assert (es + [Request(key, at)])[..|es|] == es;
  }

  lemma {:induction false} BurstDrainsStore(c: Config, es: seq<Event>, key: string, at: real, n: nat)
    requires ValidConfig(c) && n <= c.burst
    requires key !in StoreAfter(c, es)
    ensures var s := StoreAfter(c, es + Burst(key, at, n));
            n > 0 ==> key in s && s[key].seen == at && s[key].bucket == Bucket(c.burst as real - n as real, at)
    ensures n == 0 ==> key !in StoreAfter(c, es + Burst(key, at, n))
  {
    hide StoreAfter;
    if n == 0 {
      assert es + Burst(key, at, n) == es;
    } else {
      BurstDrainsStore(c, es, key, at, n - 1);
      StoreAfterRequest(c, es + Burst(key, at, n - 1), key, at, c.burst as real - (n - 1) as real);
      assert es + Burst(key, at, n) == es + Burst(key, at, n - 1) + [Request(key, at)];
    }
  }

  /** An instant past the idle time at which an emptied bucket has not refilled. */
  lemma StillShort(c: Config) returns (later: real)
    requires ValidConfig(c) && !RefillsWhileIdle(c)
    ensures later > IDLE_TTL && Refill(c, later) < c.burst as real
  {
    hide Refill;
    var refill := c.burst as real / c.limit;
    RefillTime(c, c.burst as real);
    RefillOrder(c, refill, IDLE_TTL);
    later := (IDLE_TTL + refill) / 2.0;
    RefillOrder(c, later, refill);
  }

  /** The client empties its bucket, is forgotten, and comes back `n` times at once. */
  function Comeback(c: Config, later: real, n: nat): seq<Event>
    requires c.burst >= 1
  {
    Burst("k", 0.0, c.burst) + [Sweep(later)] + Burst("k", later, n)
  }

  lemma ComebackInStore(c: Config, later: real)
    requires ValidConfig(c) && later > IDLE_TTL
    ensures Allowed(c, StoreAfter(c, Comeback(c, later, c.burst - 1)), "k", later).1.Admitted?
  {
    hide Refill;
    NoTimeNoRefill(c);
    var first := Burst("k", 0.0, c.burst);
    var idle := first + [Sweep(later)];
    BurstDrainsStore(c, [], "k", 0.0, c.burst);
    assert [] + first == first;
    assert idle[..|first|] == first;
    BurstDrainsStore(c, idle, "k", later, c.burst - 1);
    var s := StoreAfter(c, Comeback(c, later, c.burst - 1));
    AskLevel(c, if "k" in s then s["k"].bucket else NewBucket(c, later), later);
  }

  lemma {:induction false} FirstRequestsDrain(c: Config, n: nat)
    requires ValidConfig(c) && 1 <= n <= c.burst
    ensures forall t :: OwnBucket(c, Burst("k", 0.0, n), "k", t) == Bucket(c.burst as real - n as real, 0.0)
  {
    hide Refill;
    var es := Burst("k", 0.0, n);
    assert es[..n - 1] == Burst("k", 0.0, n - 1);
    if n > 1 {
      FirstRequestsDrain(c, n - 1);
    }
    AskLevel(c, OwnBucket(c, es[..n - 1], "k", 0.0), 0.0);
  }

  lemma ComebackOnItsOwn(c: Config, later: real)
    requires ValidConfig(c) && later > IDLE_TTL && Refill(c, later) < c.burst as real
    ensures Ask(c, OwnBucket(c, Comeback(c, later, c.burst - 1), "k", later), later).1.Denied?
  {
    hide Refill;
    var first := Burst("k", 0.0, c.burst);
    var idle := first + [Sweep(later)];
    FirstRequestsDrain(c, c.burst);
    assert idle[..|first|] == first;
    assert OwnBucket(c, idle, "k", later) == OwnBucket(c, first, "k", later) == Bucket(0.0, 0.0);
    assert later - 0.0 == later;
    assert OwnLevel(c, idle, "k", later) == Refill(c, later);
    BurstDrainsOwn(c, idle, "k", later, c.burst - 1);
    AskLevel(c, OwnBucket(c, Comeback(c, later, c.burst - 1), "k", later), later);
  }

  /** A run of one client and one sweep in which forgetting hands out a token the client did not have. */
  lemma EvictionCanForgive(c: Config) returns (es: seq<Event>, i: nat)
    requires ValidConfig(c) && !RefillsWhileIdle(c)
    ensures Timed(es) && i < |es| && es[i].Request?
    ensures StoreDecision(c, es, i).Admitted? && OwnDecision(c, es, i).Denied?
  {
    hide Refill;
    NoTimeNoRefill(c);
    var later := StillShort(c);
    var prefix := Comeback(c, later, c.burst - 1);
    ComebackInStore(c, later);
    ComebackOnItsOwn(c, later);
    es, i := prefix + [Request("k", later)], |prefix|;
    assert es[..i] == prefix;
  }

  lemma TenMinutesRefill(c: Config)
    ensures RefillsWhileIdle(c) <==> c.limit * 600.0 >= c.burst as real
  {
  }

  /**
   The comment on the store claims that forgetting an idle bucket loses nothing. It is true of a
   configuration exactly when the limit refills the burst within the idle time, which the
   configuration loader does not require.
   */
  lemma ForgettingIsHarmlessIff(c: Config)
    requires ValidConfig(c)
    ensures (forall es: seq<Event>, i: nat :: Timed(es) && i < |es| && es[i].Request? ==>
        StoreDecision(c, es, i) == OwnDecision(c, es, i))
            <==> c.limit * 600.0 >= c.burst as real
  {
    TenMinutesRefill(c);
    hide Refill;
    if RefillsWhileIdle(c) {
      forall es: seq<Event>, i: nat | Timed(es) && i < |es| && es[i].Request?
        ensures StoreDecision(c, es, i) == OwnDecision(c, es, i)
      {
        EvictionLosesNothing(c, es, i);
      }
    } else {
      var es, i := EvictionCanForgive(c);
    }
  }

  // ----- The rate, over any window -------------------------------------------------------------------

  /** How many of the client's requests among es[i..j] the evicting store admitted. */
  function Admissions(c: Config, es: seq<Event>, key: string, i: nat, j: nat): nat
    requires c.limit > 0.0 && i <= j <= |es|
  {
    if i == j then 0
    else Admissions(c, es, key, i, j - 1)
         + if es[j - 1].Request? && es[j - 1].key == key && StoreDecision(c, es, j - 1).Admitted? then 1 else 0
  }

  lemma OwnLevelStep(c: Config, es: seq<Event>, e: Event, key: string)
    requires ValidConfig(c)
    ensures var asked := e.Request? && e.key == key;
            var taken := if asked && Ask(c, OwnBucket(c, es, key, e.at), e.at).1.Admitted? then 1.0 else 0.0;
            OwnLevel(c, es + [e], key, e.at) == OwnLevel(c, es, key, e.at) - taken
  {
    hide Refill;
    assert (es + [e])[..|es|] == es;
    AskLevel(c, OwnBucket(c, es, key, e.at), e.at);
  }

  lemma LastEventSpends(c: Config, es: seq<Event>, key: string, j: nat)
    requires ValidConfig(c) && RefillsWhileIdle(c) && Timed(es) && 0 < j <= |es|
    ensures Admissions(c, es, key, j - 1, j) as real + OwnLevel(c, es[..j], key, es[j - 1].at)
            == OwnLevel(c, es[..j - 1], key, es[j - 1].at)
  {
    hide Refill;
    var e := es[j - 1];
    assert es[..j] == es[..j - 1] + [e];
    OwnLevelStep(c, es[..j - 1], e, key);
    if e.Request? {
      EvictionLosesNothing(c, es, j - 1);
    }
    assert Admissions(c, es, key, j - 1, j - 1) == 0;
  }

  lemma AdmissionsSplit(c: Config, es: seq<Event>, key: string, i: nat, j: nat)
    requires c.limit > 0.0 && i < j <= |es|
    ensures Admissions(c, es, key, i, j) == Admissions(c, es, key, i, j - 1) + Admissions(c, es, key, j - 1, j)
  {
    hide Refill;
    assert Admissions(c, es, key, j - 1, j - 1) == 0;
  }

  lemma {:induction false} AdmissionsSpendLevel(c: Config, es: seq<Event>, key: string, i: nat, j: nat)
    requires ValidConfig(c) && RefillsWhileIdle(c) && Timed(es) && i < j <= |es|
    ensures OwnLevel(c, es[..j], key, es[j - 1].at) + Admissions(c, es, key, i, j) as real
            <= OwnLevel(c, es[..i], key, es[i].at) + Refill(c, es[j - 1].at - es[i].at)
    decreases j
  {
    hide Refill;
    var k := j - 1;
    LastEventSpends(c, es, key, j);
    if k > i {
      AdmissionsSplit(c, es, key, i, j);
      AdmissionsSpendLevel(c, es, key, i, k);
      OwnLevelGrows(c, es[..k], key, es[k - 1].at, es[k].at);
      RefillSum(c, es[k - 1].at - es[i].at, es[k].at - es[k - 1].at);
    } else {
      assert es[..k] == es[..i];
      NoTimeNoRefill(c);
    }
  }

  /** In any window of a run, whatever was evicted and re-created, at most burst + limit * length get through. */
  lemma WindowBound(c: Config, es: seq<Event>, key: string, i: nat, j: nat)
    requires ValidConfig(c) && RefillsWhileIdle(c) && Timed(es) && i < j <= |es|
    ensures Admissions(c, es, key, i, j) as real <= c.burst as real + Refill(c, es[j - 1].at - es[i].at)
  {
    hide Refill;
    AdmissionsSpendLevel(c, es, key, i, j);
    OwnLevelBounds(c, es[..i], key, es[i].at);
    OwnLevelBounds(c, es[..j], key, es[j - 1].at);
  }

  lemma FullEnough(c: Config, s: Store, key: string, at: real)
    requires ValidConfig(c)
    requires key in s ==> s[key].bucket.tokens >= 1.0 && s[key].bucket.last == at
    ensures Allowed(c, s, key, at).1.Admitted?
  {
    hide Refill;
    NoTimeNoRefill(c);
    AskLevel(c, if key in s then s[key].bucket else NewBucket(c, at), at);
  }

  /** A burst from a client the store does not know is admitted up to the bucket's size. */
  lemma {:induction false} FreshBurstIsAdmitted(c: Config, es: seq<Event>, key: string, at: real, i: nat, n: nat)
    requires ValidConfig(c) && n <= c.burst && i + n <= |es|
    requires key !in StoreAfter(c, es[..i])
    requires forall k :: i <= k < i + n ==> es[k] == Request(key, at)
    ensures Admissions(c, es, key, i, i + n) == n
  {
    hide Refill, StoreAfter, Level, Ask;
    if n > 0 {
      FreshBurstIsAdmitted(c, es, key, at, i, n - 1);
      assert es[..i + n - 1] == es[..i] + Burst(key, at, n - 1);
      BurstDrainsStore(c, es[..i], key, at, n - 1);
      FullEnough(c, StoreAfter(c, es[..i + n - 1]), key, at);
    }
  }

  lemma {:induction false} AdmissionsConcat(c: Config, es: seq<Event>, key: string, i: nat, j: nat, k: nat)
    requires c.limit > 0.0 && i <= j <= k <= |es|
    ensures Admissions(c, es, key, i, k) == Admissions(c, es, key, i, j) + Admissions(c, es, key, j, k)
    decreases k
  {
    hide Refill, StoreDecision;
    if j < k {
      AdmissionsConcat(c, es, key, i, j, k - 1);
    }
  }

  /** After emptying its bucket and being forgotten the client is unknown again. */
  lemma ForgottenAfterBurst(c: Config, later: real)
    requires ValidConfig(c) && later > IDLE_TTL
    ensures "k" !in StoreAfter(c, Burst("k", 0.0, c.burst) + [Sweep(later)])
  {
    hide Refill;
    var first := Burst("k", 0.0, c.burst);
    var idle := first + [Sweep(later)];
    BurstDrainsStore(c, [], "k", 0.0, c.burst);
    assert [] + first == first;
    assert idle[..|first|] == first;
  }

  lemma NobodyAtFirst(c: Config)
    requires c.limit > 0.0
    ensures "k" !in StoreAfter(c, [])
  {
  }

  /** A window in which a forgotten client is admitted twice its burst, though less than that has been refilled. */
  lemma WindowCanOverflow(c: Config) returns (es: seq<Event>)
    requires ValidConfig(c) && !RefillsWhileIdle(c)
    ensures Timed(es) && |es| > 0
    ensures Admissions(c, es, "k", 0, |es|) as real > c.burst as real + Refill(c, es[|es| - 1].at - es[0].at)
  {
    hide Refill, Admissions, StoreAfter;
    var later := StillShort(c);
    var n := c.burst;
    es := Comeback(c, later, n);
    assert es[..0] == [] && es[..n + 1] == Burst("k", 0.0, n) + [Sweep(later)];
    NobodyAtFirst(c);
    FreshBurstIsAdmitted(c, es, "k", 0.0, 0, n);
    ForgottenAfterBurst(c, later);
    FreshBurstIsAdmitted(c, es, "k", later, n + 1, n);
    AdmissionsConcat(c, es, "k", 0, n, |es|);
    AdmissionsConcat(c, es, "k", n, n + 1, |es|);
    assert later - 0.0 == later;
  }

  ghost predicate WindowsBounded(c: Config)
    requires c.limit > 0.0
  {
    forall es: seq<Event>, key: string, i: nat, j: nat :: Timed(es) && i < j <= |es| ==>
      Admissions(c, es, key, i, j) as real <= c.burst as real + Refill(c, es[j - 1].at - es[i].at)
  }

  /** The rate holds over every window of every run exactly when the idle time refills the burst. */
  lemma RateHoldsIff(c: Config)
    requires ValidConfig(c)
    ensures WindowsBounded(c) <==> c.limit * 600.0 >= c.burst as real
  {
    TenMinutesRefill(c);
    hide Refill, Admissions;
    if RefillsWhileIdle(c) {
      forall es: seq<Event>, key: string, i: nat, j: nat | Timed(es) && i < j <= |es|
        ensures Admissions(c, es, key, i, j) as real <= c.burst as real + Refill(c, es[j - 1].at - es[i].at)
      {
        WindowBound(c, es, key, i, j);
      }
    } else {
      var es := WindowCanOverflow(c);
    }
  }

  // ----- Coming back ---------------------------------------------------------------------------------

  lemma {:induction false} OthersDoNotMatter(c: Config, es: seq<Event>, more: seq<Event>, key: string, now: real)
    requires ValidConfig(c) && forall e :: e in more && e.Request? ==> e.key != key
    ensures OwnBucket(c, es + more, key, now) == OwnBucket(c, es, key, now)
  {
    hide Refill;
    var all := es + more;
    if more == [] {
      assert all == es;
    } else {
      assert all[..|all| - 1] == es + more[..|more| - 1];
      OthersDoNotMatter(c, es, more[..|more| - 1], key, now);
    }
  }

  /**
   In the store: after a refusal at index i, whatever other clients and the sweeper do, the client's
   next request (index j) is admitted exactly when its time has come.
   */
  lemma RefusedClientComesBack(c: Config, es: seq<Event>, i: nat, j: nat)
    requires ValidConfig(c) && RefillsWhileIdle(c) && Timed(es)
    requires i < j < |es| && es[i].Request? && es[j].Request? && es[j].key == es[i].key
    requires forall k :: i < k < j && es[k].Request? ==> es[k].key != es[i].key
    requires StoreDecision(c, es, i).Denied?
    ensures StoreDecision(c, es, j).Admitted? <==> es[j].at >= es[i].at + StoreDecision(c, es, i).wait
  {
    hide Refill;
    var key := es[i].key;
    EvictionLosesNothing(c, es, i);
    EvictionLosesNothing(c, es, j);
    var b := OwnBucket(c, es[..i], key, es[i].at);
    assert es[..i + 1][..i] == es[..i];
    assert OwnBucket(c, es[..i + 1], key, es[j].at) == Ask(c, b, es[i].at).0;
    assert es[..j] == es[..i + 1] + es[i + 1..j];
    OthersDoNotMatter(c, es[..i + 1], es[i + 1..j], key, es[j].at);
    WaitIsExact(c, b, es[i].at, es[j].at);
  }
}
