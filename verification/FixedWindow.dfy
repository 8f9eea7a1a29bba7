/**
 The fixed-window counter behind login and MFA attempts: INCR, and EXPIRE on the
 first increment.  EXPIRE takes whole seconds, so the part of the window below a
 second is cut off.  Times and windows are nanoseconds of one clock; a key is gone
 once its expiry time is reached.
 */
module FixedWindow {
  import opened Admission
  import opened Wrappers

  const SECOND: nat := 1_000_000_000

  datatype Key = Absent | Counter(count: nat, expireAt: int)

  /** A limiter as its callers configure it; a non-positive limit or window is an error, see RateLimitCheck. */
  datatype Config = Config(limit: nat, window: nat)

  /** int64(window / time.Second), in nanoseconds again. */
  function Ttl(window: nat): nat {
    (window / SECOND) * SECOND
  }

  function Script(k: Key, window: nat, now: int): (Key, nat) {
    var count := if k.Counter? && now < k.expireAt then k.count + 1 else 1;
    if count == 1
    then (if Ttl(window) == 0 then Absent else Counter(1, now + Ttl(window)), 1)
    else (k.(count := count), count)
  }

  function After(c: Config, times: Run<int>): Key {
    match times
    case Start => Absent
    case Then(past, now) => Script(After(c, past), c.window, now).0
  }

  function Decisions(c: Config, times: Run<int>): Trace {
    match times
    case Start => Start
    case Then(past, now) => Then(Decisions(c, past), Call(now, Script(After(c, past), c.window, now).1 <= c.limit))
  }

  function Min(a: int, b: int): int {
    if a < b then a else b
  }

  /**
   The most admissions since `s` once the current window, opened `d` after `s`, is used up.
   Windows open at least `ttl` apart, so which earlier ones can matter depends on `d` alone.
   */
  function Room(limit: nat, ttl: nat, d: int): int {
    if d < 0 then limit - 1
    else if d == 0 then limit
    else if d < ttl then 2 * limit - 1
    else if d == ttl then 2 * limit
    else 3 * limit - 1
  }

  predicate Tracks(k: Key, c: Config, s: int, n: nat, last: int) {
    match k
    case Absent => n == 0
    case Counter(count, expireAt) =>
      && 1 <= count
      && expireAt - Ttl(c.window) <= last < expireAt
      && n <= Room(c.limit, Ttl(c.window), expireAt - Ttl(c.window) - s) - c.limit + Min(count, c.limit)
      && (last < s ==> n == 0)
  }

  lemma StepTracks(k: Key, c: Config, s: int, n: nat, last: int, now: int)
    requires 1 <= c.limit && SECOND <= c.window && last <= now < s + 2 * Ttl(c.window)
    requires Tracks(k, c, s, n, last)
    ensures var (k', count) := Script(k, c.window, now);
            Tracks(k', c, s, n + if count <= c.limit && s <= now then 1 else 0, now)
  {}

  lemma {:induction false} WindowsAreApart(c: Config, times: Run<int>, s: int)
    requires 1 <= c.limit && SECOND <= c.window && InOrder(Decisions(c, times))
    requires times.Then? && times.last <= s + c.window
    ensures Tracks(After(c, times), c, s, Count(Decisions(c, times), s, s + c.window), times.last)
  {
    var past, now := times.past, times.last;
    if past.Then? {
      WindowsAreApart(c, past, s);
      StepTracks(After(c, past), c, s, Count(Decisions(c, past), s, s + c.window), past.last, now);
    } else {
      StepTracks(Absent, c, s, 0, now, now);
    }
  }

  /** What the counter promises over any interval of the configured window's length, for windows of a second or more. */
  lemma {:induction false} IntervalBound(c: Config, times: Run<int>, s: int)
    requires 1 <= c.limit && SECOND <= c.window && InOrder(Decisions(c, times))
    ensures Count(Decisions(c, times), s, s + c.window)
            <= if c.window % SECOND == 0 then 2 * c.limit else 3 * c.limit - 1
  {
    if times.Then? {
      if times.last <= s + c.window {
        WindowsAreApart(c, times, s);
      } else {
        IntervalBound(c, times.past, s);
      }
    }
  }

  function Append(a: Run<int>, b: Run<int>): Run<int> {
    match b
    case Start => a
    case Then(past, now) => Then(Append(a, past), now)
  }

  lemma {:induction false} CountOver(tr: Trace, lo: int, hi: int)
    requires InOrder(tr) && Before(tr, lo - 1)
    ensures Count(tr, lo, hi) == 0
  {
    if tr.Then? {
      CountOver(tr.past, lo, hi);
    }
  }

  /** A live counter outlasts every call so far, so the calls before an opening are all strictly earlier. */
  lemma {:induction false} NothingBefore(c: Config, past: Run<int>, now: int)
    requires SECOND <= c.window && InOrder(Decisions(c, Then(past, now)))
    ensures After(c, past).Counter? ==> After(c, past).count >= 1 && past.Then? && past.last < After(c, past).expireAt
    ensures Script(After(c, past), c.window, now).1 == 1
        ==> Count(Decisions(c, past), now, now + Ttl(c.window) - 1) == 0
  {
    if past.Then? {
      NothingBefore(c, past.past, past.last);
      if Script(After(c, past), c.window, now).1 == 1 {
        CountOver(Decisions(c, past), now, now + Ttl(c.window) - 1);
      }
    }
  }

  /** Of all calls that fall into one window, counted from the call that opened it, at most `limit` are admitted. */
  lemma {:induction false} WindowBound(c: Config, past: Run<int>, opening: int, later: Run<int>)
    requires 1 <= c.limit && SECOND <= c.window
    requires Script(After(c, past), c.window, opening).1 == 1
    requires InOrder(Decisions(c, Append(Then(past, opening), later)))
    ensures var times := Append(Then(past, opening), later);
            var n := Count(Decisions(c, times), opening, opening + Ttl(c.window) - 1);
            && n <= c.limit
            && times.Then? && opening <= times.last
            && (times.last < opening + Ttl(c.window) ==>
                  && After(c, times).Counter?
                  && After(c, times).expireAt == opening + Ttl(c.window)
                  && n <= After(c, times).count)
  {
    if later.Then? {
      WindowBound(c, past, opening, later.past);
    } else {
      NothingBefore(c, past, opening);
    }
  }

  /** `n` more calls at time `t`. */
  function Burst(times: Run<int>, t: int, n: nat): Run<int> {
    if n == 0 then times else Then(Burst(times, t, n - 1), t)
  }

  lemma {:induction false} BurstInWindow(c: Config, times: Run<int>, t: int, n: nat, lo: int, hi: int)
    requires var k := After(c, times); k.Counter? && 1 <= k.count && k.count + n <= c.limit && t < k.expireAt
    requires InOrder(Decisions(c, times)) && Before(Decisions(c, times), t)
    ensures var times', k := Burst(times, t, n), After(c, times);
            && After(c, times') == Counter(k.count + n, k.expireAt)
            && Count(Decisions(c, times'), lo, hi) == Count(Decisions(c, times), lo, hi)
                + (if lo <= t <= hi then n else 0)
            && InOrder(Decisions(c, times')) && Before(Decisions(c, times'), t)
  {
    if n > 0 {
      BurstInWindow(c, times, t, n - 1, lo, hi);
    }
  }

  /** Below one second EXPIRE deletes the counter at once and every call is the first. */
  lemma {:induction false} NoWindowBelowOneSecond(c: Config, n: nat)
    requires 1 <= c.limit && c.window < SECOND
    ensures var times := Burst(Start, 0, n);
            && After(c, times) == Absent
            && InOrder(Decisions(c, times)) && Before(Decisions(c, times), 0)
            && Count(Decisions(c, times), 0, c.window) == n
  {
    if n > 0 {
      NoWindowBelowOneSecond(c, n - 1);
    }
  }

  /** A call at `t` opens a window, and as many more as it admits follow at once. */
  function FullWindow(times: Run<int>, t: int, limit: nat): Run<int>
    requires 1 <= limit
  {
    Burst(Then(times, t), t, limit - 1)
  }

  lemma FullWindowAdmits(c: Config, times: Run<int>, t: int, lo: int, hi: int)
    requires 1 <= c.limit && SECOND <= c.window
    requires InOrder(Decisions(c, times)) && Before(Decisions(c, times), t)
    requires After(c, times).Counter? ==> After(c, times).expireAt <= t
    ensures var times' := FullWindow(times, t, c.limit);
            && After(c, times') == Counter(c.limit, t + Ttl(c.window))
            && Count(Decisions(c, times'), lo, hi) == Count(Decisions(c, times), lo, hi)
                + (if lo <= t <= hi then c.limit else 0)
            && InOrder(Decisions(c, times')) && Before(Decisions(c, times'), t)
  {
    BurstInWindow(c, Then(times, t), t, c.limit - 1, lo, hi);
  }

  /** Three windows can meet one interval when a fraction of a second is cut off the window: the bound is reached. */
  lemma ThreeWindows(c: Config) returns (times: Run<int>, s: int)
    requires 1 <= c.limit && SECOND <= c.window && c.window % SECOND != 0
    ensures InOrder(Decisions(c, times)) && InInterval(c, times, s) == 3 * c.limit - 1
  {
    var ttl := Ttl(c.window);
    s := ttl - 1;
    var first := Burst(Then(Start, 0), s, c.limit - 1);
    BurstInWindow(c, Then(Start, 0), s, c.limit - 1, s, s + c.window);
    assert InInterval(c, first, s) == c.limit - 1;
    hide After, Decisions, Count, Burst, FullWindow, Admission.InOrder;
    FullWindowAdmits(c, first, ttl, s, s + c.window);
    var second := FullWindow(first, ttl, c.limit);
    FullWindowAdmits(c, second, 2 * ttl, s, s + c.window);
    times := FullWindow(second, 2 * ttl, c.limit);
  }

  /** And with whole seconds the bound is reached by two full windows, one opened at either end of the interval. */
  lemma TwoWindows(c: Config) returns (times: Run<int>, s: int)
    requires 1 <= c.limit && SECOND <= c.window && c.window % SECOND == 0
    ensures InOrder(Decisions(c, times)) && InInterval(c, times, s) == 2 * c.limit
  {
    s := 0;
    FullWindowAdmits(c, Start, 0, 0, c.window);
    var first := FullWindow(Start, 0, c.limit);
    FullWindowAdmits(c, first, c.window, 0, c.window);
    times := FullWindow(first, c.window, c.limit);
  }

  /** Admissions in the closed interval of the window's length that starts at `s`. */
  function InInterval(c: Config, times: Run<int>, s: int): nat {
    Count(Decisions(c, times), s, s + c.window)
  }

  /** At most twice the limit in any interval of the window's length, on every run. */
  ghost predicate TwiceTheLimit(c: Config) {
    forall times, s :: InOrder(Decisions(c, times)) ==> InInterval(c, times, s) <= 2 * c.limit
  }

  /**
   The counter meets that promise exactly for windows of whole seconds, or of at least a second
   with a limit of one.
   */
  lemma TwiceTheLimitExactly(c: Config)
    requires 1 <= c.limit && 1 <= c.window
    ensures TwiceTheLimit(c) <==> SECOND <= c.window && (c.window % SECOND == 0 || c.limit == 1)
  {
    if c.window < SECOND {
      NoWindowBelowOneSecond(c, 2 * c.limit + 1);
      assert InInterval(c, Burst(Start, 0, 2 * c.limit + 1), 0) == 2 * c.limit + 1;
    } else if c.window % SECOND == 0 || c.limit == 1 {
      forall times, s
        ensures InOrder(Decisions(c, times)) ==> InInterval(c, times, s) <= 2 * c.limit
      {
        if InOrder(Decisions(c, times)) {
          IntervalBound(c, times, s);
        }
      }
    } else {
      var times, s := ThreeWindows(c);
      assert InInterval(c, times, s) == 3 * c.limit - 1;
    }
  }

  class CounterKey {
    var key: Key

    constructor ()
      ensures key == Absent
    {
      key := Absent;
    }

    /** An invalid request is an error and leaves the counter alone; a refused one still increments it. */
    method RateLimitCheck(userId: string, limit: int, window: int, now: int) returns (r: Result<bool, string>)
      modifies this
      ensures r.Err? <==> userId == "" || limit <= 0 || window <= 0
      ensures r.Err? ==> key == old(key)
      ensures r.Ok? ==> var (k, count) := Script(old(key), window, now); key == k && r.value == (count <= limit)
    {
      if userId == "" || limit <= 0 || window <= 0 {
        return Err("invalid rate limit request");
      }
      var count := 1;
      if key.Counter? && now < key.expireAt {
        count := key.count + 1;
        key := key.(count := count);
      }
      if count == 1 {
        key := if Ttl(window) == 0 then Absent else Counter(1, now + Ttl(window));
      }
      return Ok(count <= limit);
    }
  }
}
