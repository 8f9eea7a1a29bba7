/**
 The in-process token bucket, one per visitor.  Token counts are reals, times are
 nanoseconds of one clock.
 */
module TokenBuckets {
  import opened Admission
  import opened Wrappers

  const SECOND: int := 1_000_000_000

  datatype Config = Config(rate: real, capacity: real)

  predicate Sensible(c: Config) {
    0.0 <= c.rate && 0.0 <= c.capacity
  }

  datatype Bucket = Bucket(tokens: real, lastRefill: int)

  function Refill(c: Config, elapsed: int): real {
    elapsed as real / SECOND as real * c.rate
  }

  /** The tokens a call at `now` finds. */
  function Available(c: Config, b: Bucket, now: int): real {
    var tokens := b.tokens + Refill(c, now - b.lastRefill);
    if tokens > c.capacity then c.capacity else tokens
  }

  function Allow(c: Config, b: Bucket, now: int): (Bucket, bool) {
    var tokens := Available(c, b, now);
    if tokens < 1.0 then (Bucket(tokens, now), false) else (Bucket(tokens - 1.0, now), true)
  }

  function After(c: Config, b: Bucket, times: Run<int>): Bucket {
    match times
    case Start => b
    case Then(past, now) => Allow(c, After(c, b, past), now).0
  }

  function Decisions(c: Config, b: Bucket, times: Run<int>): Trace {
    match times
    case Start => Start
    case Then(past, now) => Then(Decisions(c, b, past), Call(now, Allow(c, After(c, b, past), now).1))
  }

  /** Per second, `rate` tokens. */
  lemma RefillInSeconds(c: Config, elapsed: int)
    ensures Refill(c, elapsed) == c.rate * (elapsed as real / 1_000_000_000.0)
  {}

  lemma RefillIsLinear(c: Config, a: int, b: int)
    ensures Refill(c, a) + Refill(c, b) == Refill(c, a + b)
    ensures Sensible(c) && a <= b ==> Refill(c, a) <= Refill(c, b)
  {
    var x, y := a as real / SECOND as real, b as real / SECOND as real;
    assert (a + b) as real / SECOND as real == x + y;
    assert x * c.rate + y * c.rate == (x + y) * c.rate;
    if Sensible(c) && a <= b {
      Monotone(x, y, c.rate);
    }
  }

  lemma Monotone(x: real, y: real, r: real)
    requires x <= y && 0.0 <= r
    ensures x * r <= y * r
  {
    assert (y - x) * r >= 0.0;
  }

  lemma {:induction false} RefillBudget(c: Config, b: Bucket, times: Run<int>, s: int, t: int)
    requires Sensible(c) && b.tokens <= c.capacity && InOrder(Decisions(c, b, times))
    requires times.Then? && times.last <= t
    ensures var after, n := After(c, b, times), Count(Decisions(c, b, times), s, t);
            && after.lastRefill == times.last && after.tokens <= c.capacity
            && if times.last < s then n == 0 else after.tokens + n as real <= c.capacity + Refill(c, times.last - s)
  {
    hide Refill;
    var past, now := times.past, times.last;
    if past.Then? {
      RefillBudget(c, b, past, s, t);
      if s <= past.last {
        RefillIsLinear(c, past.last - s, now - past.last);
      } else if s <= now {
        RefillIsLinear(c, 0, now - s);
      }
    } else if s <= now {
      RefillIsLinear(c, 0, now - s);
    }
  }

  /** Tokens left and admissions since `s` together never exceed a full bucket plus what has been refilled since `s`. */
  lemma Budget(c: Config, b: Bucket, times: Run<int>, s: int, t: int)
    requires Sensible(c) && b.tokens <= c.capacity && InOrder(Decisions(c, b, times))
    requires times.Then? && times.last <= t
    ensures var after, n := After(c, b, times), Count(Decisions(c, b, times), s, t);
            && after.lastRefill == times.last && after.tokens <= c.capacity
            && if times.last < s then n == 0
               else after.tokens + n as real <= c.capacity + c.rate * ((times.last - s) as real / 1_000_000_000.0)
  {
    hide Refill, After, Decisions, Count;
    RefillBudget(c, b, times, s, t);
    RefillInSeconds(c, times.last - s);
  }

  lemma {:induction false} TokensStayNonNegative(c: Config, b: Bucket, times: Run<int>)
    requires Sensible(c) && 0.0 <= b.tokens <= c.capacity
    requires InOrder(Decisions(c, b, times)) && (times.Then? ==> b.lastRefill <= First(times))
    ensures 0.0 <= After(c, b, times).tokens <= c.capacity
    ensures After(c, b, times).lastRefill == if times.Then? then times.last else b.lastRefill
  {
    if times.Then? {
      TokensStayNonNegative(c, b, times.past);
      RefillIsLinear(c, 0, times.last - After(c, b, times.past).lastRefill);
    }
  }

  function First(times: Run<int>): int
    requires times.Then?
  {
    if times.past.Then? then First(times.past) else times.last
  }

  lemma {:induction false} RefillBound(c: Config, b: Bucket, times: Run<int>, s: int, t: int)
    requires Sensible(c) && 0.0 <= b.tokens <= c.capacity && InOrder(Decisions(c, b, times)) && s <= t
    requires times.Then? ==> b.lastRefill <= First(times)
    ensures Count(Decisions(c, b, times), s, t) as real <= c.capacity + Refill(c, t - s)
  {
    hide Refill;
    RefillIsLinear(c, 0, t - s);
    if times.Then? {
      if times.last <= t {
        RefillBudget(c, b, times, s, t);
        TokensStayNonNegative(c, b, times);
        if s <= times.last {
          RefillIsLinear(c, times.last - s, t - s);
        }
      } else {
        RefillBound(c, b, times.past, s, t);
      }
    }
  }

  /** A bucket admits at most capacity + rate * (t - s) calls in any interval [s, t]. */
  lemma AdmissionBound(c: Config, b: Bucket, times: Run<int>, s: int, t: int)
    requires Sensible(c) && 0.0 <= b.tokens <= c.capacity && InOrder(Decisions(c, b, times)) && s <= t
    requires times.Then? ==> b.lastRefill <= First(times)
    ensures Count(Decisions(c, b, times), s, t) as real <= c.capacity + c.rate * ((t - s) as real / 1_000_000_000.0)
  {
    hide Refill, Decisions, Count;
    RefillBound(c, b, times, s, t);
    RefillInSeconds(c, t - s);
  }

  // ---------------------------------------------------------------- exactly which calls are admitted

  function Admitted(c: Config, b: Bucket, times: Run<int>): nat {
    match times
    case Start => 0
    case Then(past, now) => Admitted(c, b, past) + if Allow(c, After(c, b, past), now).1 then 1 else 0
  }

  /** `n` tokens are no more than `start` tokens at `since` and what is added by `now`, `rate` a second. */
  predicate Covered(c: Config, n: real, start: real, since: int, now: int) {
    n <= start + c.rate * ((now - since) as real / 1_000_000_000.0)
  }

  /**
   `x` more tokens at `now` can be had: with those spent since any earlier call they are
   covered by a full bucket at that call, and with all of them by the bucket at the start.
   */
  ghost predicate Affordable(c: Config, b: Bucket, times: Run<int>, now: int, x: real) {
    && x <= c.capacity
    && Covered(c, Admitted(c, b, times) as real + x, b.tokens, b.lastRefill, now)
    && forall early | IsPrefix(early, times) && early.Then? ::
         Covered(c, (Admitted(c, b, times) - Admitted(c, b, early.past)) as real + x, c.capacity, early.last, now)
  }

  lemma {:induction false} LastRefill(c: Config, b: Bucket, times: Run<int>)
    ensures After(c, b, times).lastRefill == if times.Then? then times.last else b.lastRefill
  {}

  lemma CoveredByRefill(c: Config, n: real, start: real, since: int, now: int)
    ensures Covered(c, n, start, since, now) <==> n <= start + Refill(c, now - since)
  {
    RefillInSeconds(c, now - since);
    hide Refill;
  }

  /** What is refilled after `m` covers the rest. */
  lemma CoveredBefore(c: Config, n: real, start: real, since: int, m: int, now: int)
    ensures Covered(c, n - Refill(c, now - m), start, since, m) <==> Covered(c, n, start, since, now)
  {
    CoveredByRefill(c, n - Refill(c, now - m), start, since, m);
    CoveredByRefill(c, n, start, since, now);
    RefillIsLinear(c, now - m, m - since);
    hide Refill, Covered;
  }

  lemma AffordableBefore(c: Config, b: Bucket, times: Run<int>, now: int, x: real)
    requires times.Then?
    ensures var spent := (Admitted(c, b, times) - Admitted(c, b, times.past)) as real;
            Affordable(c, b, times, now, x)
            <==> x <= c.capacity && Affordable(c, b, times.past, times.last, x + spent - Refill(c, now - times.last))
  {
    hide Allow, After, Refill, Covered, Admitted;
    var m, r := times.last, Refill(c, now - times.last);
    var all, before := Admitted(c, b, times), Admitted(c, b, times.past);
    var y := x + (all - before) as real - r;
    CoveredBefore(c, all as real + x, b.tokens, b.lastRefill, m, now);
    assert before as real + y == all as real + x - r;
    CoveredByRefill(c, (all - before) as real + x, c.capacity, m, now);
    forall early | IsPrefix(early, times.past) && early.Then?
      ensures Covered(c, (before - Admitted(c, b, early.past)) as real + y, c.capacity, early.last, m)
              <==> Covered(c, (all - Admitted(c, b, early.past)) as real + x, c.capacity, early.last, now)
    {
      var k := Admitted(c, b, early.past);
      CoveredBefore(c, (all - k) as real + x, c.capacity, early.last, m, now);
      assert (before - k) as real + y == (all - k) as real + x - r;
    }
    assert IsPrefix(times, times);
  }

  lemma {:induction false} AvailableExactlyWhen(c: Config, b: Bucket, times: Run<int>, now: int, x: real)
    ensures Available(c, After(c, b, times), now) >= x <==> Affordable(c, b, times, now, x)
  {
    var left := After(c, b, times);
    LastRefill(c, b, times);
    if times.Then? {
      hide Refill, Affordable;
      var spent := (Admitted(c, b, times) - Admitted(c, b, times.past)) as real;
      AffordableBefore(c, b, times, now, x);
      AvailableExactlyWhen(c, b, times.past, times.last, x + spent - Refill(c, now - times.last));
    } else {
      hide Refill, Covered;
      CoveredByRefill(c, x, b.tokens, b.lastRefill, now);
    }
  }

  /**
   A call is admitted exactly when one more token can be had: so no call is turned away that
   would have stayed within a full bucket and the refill since each earlier call.
   */
  lemma AdmittedExactlyWhen(c: Config, b: Bucket, times: Run<int>, now: int)
    ensures Allow(c, After(c, b, times), now).1 <==> Affordable(c, b, times, now, 1.0)
  {
    AvailableExactlyWhen(c, b, times, now, 1.0);
  }
}
