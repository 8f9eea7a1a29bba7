/**
 The in-process limiter of the AI service.  A bucket keeps only a count and the
 time of the last accepted call; a gap longer than the window resets the count.
 */
module GapLimiter {
  import opened Admission
  import opened Wrappers

  datatype Bucket = Bucket(count: int, lastSeen: int)

  /** What one call does to the bucket of its user: the new bucket and the verdict. */
  function Step(b: Option<Bucket>, rate: int, window: nat, now: int): (Bucket, bool) {
    match b
    case None => (Bucket(1, now), true)
    case Some(b) =>
      if now - b.lastSeen > window then (Bucket(1, now), true)
      else if b.count >= rate then (b, false)
      else (Bucket(b.count + 1, now), true)
  }

  function After(rate: int, window: nat, times: Run<int>): Option<Bucket> {
    match times
    case Start => None
    case Then(past, now) => Some(Step(After(rate, window, past), rate, window, now).0)
  }

  function Decisions(rate: int, window: nat, times: Run<int>): Trace {
    match times
    case Start => Start
    case Then(past, now) =>
      Then(Decisions(rate, window, past), Call(now, Step(After(rate, window, past), rate, window, now).1))
  }

  /**
   Reference definition over the whole history: the length of the last run of
   admissions in which each follows the one before within the window, and when it ended.
   */
  function Chain(tr: Trace, window: nat): Option<Bucket> {
    match tr
    case Start => None
    case Then(past, c) =>
      var before := Chain(past, window);
      if !c.admitted then before
      else if before.Some? && c.at - before.value.lastSeen <= window
      then Some(Bucket(before.value.count + 1, c.at))
      else Some(Bucket(1, c.at))
  }

  /**
   The two fields stand for the whole history: they are the chain of the trace, and
   the next call is admitted exactly when it starts a new chain or extends one shorter than `rate`.
   */
  lemma {:induction false} BucketIsChain(rate: int, window: nat, times: Run<int>, now: int)
    ensures var chain := Chain(Decisions(rate, window, times), window);
            && After(rate, window, times) == chain
            && (Decisions(rate, window, Then(times, now)).last.admitted
                <==> chain.None? || now - chain.value.lastSeen > window || chain.value.count < rate)
  {
    if times.Then? {
      BucketIsChain(rate, window, times.past, times.last);
    }
  }

  function Max(a: int, b: int): int {
    if a < b then b else a
  }

  /** `n` admissions since `s` are all links of the current chain, so its count bounds them. */
  predicate Tracks(b: Option<Bucket>, rate: int, s: int, n: nat) {
    match b
    case None => n == 0
    case Some(b) => 1 <= b.count <= Max(1, rate) && n <= if b.lastSeen < s then 0 else b.count
  }

  lemma {:induction false} CountTracksInterval(rate: int, window: nat, times: Run<int>, s: int)
    requires InOrder(Decisions(rate, window, times))
    requires Before(Decisions(rate, window, times), s + window)
    ensures Tracks(After(rate, window, times), rate, s, Count(Decisions(rate, window, times), s, s + window))
  {
    if times.Then? {
      CountTracksInterval(rate, window, times.past, s);
    }
  }

  /** No closed interval of the window's length ever holds more than max(1, rate) admissions. */
  lemma {:induction false} AtMostRatePerWindow(rate: int, window: nat, times: Run<int>, s: int)
    requires InOrder(Decisions(rate, window, times))
    ensures Count(Decisions(rate, window, times), s, s + window) <= Max(1, rate)
  {
    if times.Then? {
      if times.last <= s + window {
        CountTracksInterval(rate, window, times, s);
      } else {
        AtMostRatePerWindow(rate, window, times.past, s);
      }
    }
  }

  class RateLimiter {
    var limits: map<string, Bucket>
    const rate: int
    const window: nat

    constructor (rate: int, window: nat)
      ensures this.rate == rate && this.window == window && limits == map[]
    {
      this.rate, this.window, limits := rate, window, map[];
    }

    function Of(userId: string): Option<Bucket>
      reads this
    {
      if userId in limits then Some(limits[userId]) else None
    }

    /** One call for one user: the bucket takes one step and other users' buckets are not touched. */
    method Allow(userId: string, now: int) returns (ok: bool)
      modifies this
      ensures ok == Step(old(Of(userId)), rate, window, now).1
      ensures limits == old(limits)[userId := Step(old(Of(userId)), rate, window, now).0]
    {
      if userId !in limits {
        limits := limits[userId := Bucket(1, now)];
        return true;
      }
      var bucket := limits[userId];
      if now - bucket.lastSeen > window {
        limits := limits[userId := Bucket(1, now)];
        return true;
      }
      if bucket.count >= rate {
        return false;
      }
      limits := limits[userId := Bucket(bucket.count + 1, now)];
      return true;
    }
  }
}
