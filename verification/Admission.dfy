/**
 The one specification against which every rate limiter is judged: a trace of
 calls, each at some time and either admitted or turned away, and the number of
 admissions that fall in a closed interval of time.  Times are integers, so a
 half-open interval (a, b] is the closed interval [a + 1, b].
 */
module Admission {
  import opened Wrappers

  datatype Call = Call(at: int, admitted: bool)

  type Trace = Run<Call>

  predicate Counts(c: Call, lo: int, hi: int) {
    c.admitted && lo <= c.at <= hi
  }

  /** Number of admissions in [lo, hi]. */
  function Count(tr: Trace, lo: int, hi: int): nat {
    match tr
    case Start => 0
    case Then(past, c) => Count(past, lo, hi) + if Counts(c, lo, hi) then 1 else 0
  }

  /** The clock never runs backwards. */
  predicate InOrder(tr: Trace) {
    tr.Then? ==> InOrder(tr.past) && Before(tr.past, tr.last.at)
  }

  /** The trace is over by time `t`. */
  predicate Before(tr: Trace, t: int) {
    tr.Then? ==> tr.last.at <= t
  }

  /** Up to time `hi'`, an interval that starts later and ends later sees no more admissions. */
  lemma {:induction false} CountNarrow(tr: Trace, lo: int, hi: int, lo': int, hi': int)
    requires InOrder(tr) && Before(tr, hi) && lo <= lo'
    ensures Count(tr, lo', hi') <= Count(tr, lo, hi)
  {
    if tr.Then? {
      CountNarrow(tr.past, lo, hi, lo', hi');
    }
  }

  /** Every admission looked back over the window ending at it and found fewer than `limit` admissions. */
  predicate AdmitsBelow(tr: Trace, window: nat, limit: nat) {
    match tr
    case Start => true
    case Then(past, c) =>
      && AdmitsBelow(past, window, limit)
      && (c.admitted ==> Count(past, c.at - window + 1, c.at) < limit)
  }

  /** Then no window anywhere holds more than `limit` admissions, whether or not it ends at a call. */
  lemma {:induction false} SlidingBound(tr: Trace, window: nat, limit: nat, t: int)
    requires InOrder(tr) && AdmitsBelow(tr, window, limit)
    ensures Count(tr, t - window + 1, t) <= limit
  {
    if tr.Then? {
      var c := tr.last;
      SlidingBound(tr.past, window, limit, t);
      if Counts(c, t - window + 1, t) {
        CountNarrow(tr.past, c.at - window + 1, c.at, t - window + 1, t);
      }
    }
  }
}
