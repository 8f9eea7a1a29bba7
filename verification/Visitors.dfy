/**
 The visitor table over the token buckets.  A request looks its bucket up under one
 lock and spends a token under another; every minute a janitor drops buckets that
 have not been touched for more than three minutes.
 */
module Visitors {
  import opened TokenBuckets
  import opened Wrappers

  const IDLE: int := 180 * SECOND

  /** Buckets live on a heap: a request keeps its bucket even when the table has dropped it. */
  datatype Owned = Owned(ip: string, bucket: Bucket)

  datatype Table = Table(
    visitors: map<string, nat>,
    heap: seq<Owned>,
    held: map<nat, nat>,
    replies: Run<(nat, bool)>)

  datatype Event =
    | Fetch(req: nat, ip: string, now: int)
    | Spend(req: nat, now: int)
    | Cleanup(now: int)

  const EMPTY_TABLE := Table(map[], [], map[], Start)

  /** Every index is a heap address, and the table files each bucket under its own visitor. */
  predicate Valid(t: Table) {
    && (forall ip | ip in t.visitors :: t.visitors[ip] < |t.heap| && t.heap[t.visitors[ip]].ip == ip)
    && (forall r | r in t.held :: t.held[r] < |t.heap|)
  }

  predicate Stale(t: Table, id: nat, now: int) {
    id < |t.heap| && now - t.heap[id].bucket.lastRefill > IDLE
  }

  function GetVisitor(c: Config, t: Table, req: nat, ip: string, now: int): (t': Table)
    requires Valid(t)
    ensures Valid(t')
  {
    if ip in t.visitors then t.(held := t.held[req := t.visitors[ip]])
    else
      var id := |t.heap|;
      t.(heap := t.heap + [Owned(ip, Bucket(c.capacity, now))],
         visitors := t.visitors[ip := id],
         held := t.held[req := id])
  }

  function SpendToken(c: Config, t: Table, req: nat, now: int): (t': Table)
    requires Valid(t)
    ensures Valid(t')
  {
    if req !in t.held then t
    else
      var id := t.held[req];
      var (b, ok) := Allow(c, t.heap[id].bucket, now);
      t.(heap := t.heap[id := t.heap[id].(bucket := b)],
         held := t.held - {req},
         replies := Then(t.replies, (req, ok)))
  }

  function Sweep(t: Table, now: int): (t': Table)
    requires Valid(t)
    ensures Valid(t')
  {
    t.(visitors := map ip | ip in t.visitors && !Stale(t, t.visitors[ip], now) :: t.visitors[ip])
  }

  function Step(c: Config, t: Table, e: Event): (t': Table)
    requires Valid(t)
    ensures Valid(t')
  {
    match e
    case Fetch(req, ip, now) => GetVisitor(c, t, req, ip, now)
    case Spend(req, now) => SpendToken(c, t, req, now)
    case Cleanup(now) => Sweep(t, now)
  }

  function After(c: Config, run: Run<Event>): (t: Table)
    ensures Valid(t)
  {
    match run
    case Start => EMPTY_TABLE
    case Then(past, e) => Step(c, After(c, past), e)
  }

  /** The same requests, had the janitor never run. */
  function WithoutCleanup(run: Run<Event>): Run<Event> {
    match run
    case Start => Start
    case Then(past, e) => if e.Cleanup? then WithoutCleanup(past) else Then(WithoutCleanup(past), e)
  }

  /** The clock never runs backwards. */
  predicate InOrder(run: Run<Event>) {
    run.Then? ==> InOrder(run.past) && (run.past.Then? ==> run.past.last.now <= run.last.now)
  }

  /** A bucket is filed, or only known to requests that looked it up before it was dropped. */
  predicate Filed(t: Table, id: nat) {
    id < |t.heap| && t.heap[id].ip in t.visitors && t.visitors[t.heap[id].ip] == id
  }

  /** A sweep now would drop no bucket that a request has looked up but not yet used. */
  predicate NoneWaiting(t: Table, now: int) {
    forall r | r in t.held :: !(Filed(t, t.held[r]) && Stale(t, t.held[r], now))
  }

  /** No sweep of the run does. */
  predicate NoneHeld(c: Config, run: Run<Event>) {
    run.Then? ==>
      && NoneHeld(c, run.past)
      && (run.last.Cleanup? ==> NoneWaiting(After(c, run.past), run.last.now))
  }

  predicate Full(c: Config, b: Bucket, now: int) {
    Available(c, b, now) == c.capacity
  }

  /** No call at `now` or later can tell these two buckets apart. */
  predicate Alike(c: Config, a: Bucket, b: Bucket, now: int) {
    a == b || (Full(c, a, now) && Full(c, b, now))
  }

  predicate Proper(c: Config, b: Bucket, now: int) {
    0.0 <= b.tokens <= c.capacity && b.lastRefill <= now
  }

  /** What one visitor's entry looks like in a table with evictions (`t`) and in one without (`u`). */
  predicate SameVisitor(c: Config, t: Table, u: Table, ip: string, now: int)
    requires Valid(t) && Valid(u)
  {
    && (ip in u.visitors ==> Proper(c, u.heap[u.visitors[ip]].bucket, now))
    && (ip in t.visitors ==>
          && ip in u.visitors
          && Proper(c, t.heap[t.visitors[ip]].bucket, now)
          && Alike(c, t.heap[t.visitors[ip]].bucket, u.heap[u.visitors[ip]].bucket, now))
    && (ip in u.visitors && ip !in t.visitors ==> Full(c, u.heap[u.visitors[ip]].bucket, now))
  }

  /**
   A waiting request holds the bucket that either table files under its visitor, or one and the
   same that neither does.
   */
  predicate SameRequest(t: Table, u: Table, r: nat)
    requires Valid(t) && Valid(u)
  {
    && (r in t.held <==> r in u.held)
    && (r in t.held ==>
          var (i, j) := (t.held[r], u.held[r]);
          if Filed(t, i) then Filed(u, j) && u.heap[j].ip == t.heap[i].ip
          else i == j && !Filed(u, j) && t.heap[i] == u.heap[j])
  }

  ghost predicate Same(c: Config, t: Table, u: Table, now: int) {
    && Valid(t) && Valid(u)
    && t.replies == u.replies
    && (forall ip :: SameVisitor(c, t, u, ip, now))
    && (forall r :: SameRequest(t, u, r))
  }

  lemma FullStays(c: Config, b: Bucket, now: int, later: int)
    requires Sensible(c) && Full(c, b, now) && now <= later
    ensures Full(c, b, later)
  {
    RefillIsLinear(c, now - b.lastRefill, later - b.lastRefill);
  }

  /** After three idle minutes a bucket that refills that fast is as good as a new one. */
  lemma IdleIsFull(c: Config, b: Bucket, now: int)
    requires Sensible(c) && c.rate * 180.0 >= c.capacity
    requires 0.0 <= b.tokens && now - b.lastRefill > IDLE
    ensures Full(c, b, now)
  {
    RefillIsLinear(c, IDLE, now - b.lastRefill);
    assert Refill(c, IDLE) == 180.0 * c.rate;
  }

  lemma AllowKeepsProper(c: Config, a: Bucket, b: Bucket, now: int)
    requires Sensible(c) && Proper(c, a, now) && Proper(c, b, now) && Alike(c, a, b, now)
    ensures Allow(c, a, now) == Allow(c, b, now)
    ensures Proper(c, Allow(c, a, now).0, now)
  {
    RefillIsLinear(c, 0, now - a.lastRefill);
  }

  lemma SameLater(c: Config, t: Table, u: Table, now: int, later: int)
    requires Sensible(c) && Same(c, t, u, now) && now <= later
    ensures Same(c, t, u, later)
  {
    forall ip ensures SameVisitor(c, t, u, ip, later) {
      assert SameVisitor(c, t, u, ip, now);
      if ip in u.visitors && Full(c, u.heap[u.visitors[ip]].bucket, now) {
        FullStays(c, u.heap[u.visitors[ip]].bucket, now, later);
      }
      if ip in t.visitors && Full(c, t.heap[t.visitors[ip]].bucket, now) {
        FullStays(c, t.heap[t.visitors[ip]].bucket, now, later);
      }
    }
  }

  lemma SweepIsUnseen(c: Config, t: Table, u: Table, now: int)
    requires Sensible(c) && c.rate * 180.0 >= c.capacity && Same(c, t, u, now)
    requires NoneWaiting(t, now)
    ensures Same(c, Sweep(t, now), u, now)
  {
    var t' := Sweep(t, now);
    forall ip ensures SameVisitor(c, t', u, ip, now) {
      assert SameVisitor(c, t, u, ip, now);
      if ip in t.visitors && ip !in t'.visitors {
        IdleIsFull(c, t.heap[t.visitors[ip]].bucket, now);
      }
    }
    forall r ensures SameRequest(t', u, r) {
      assert SameRequest(t, u, r);
    }
  }

  lemma FetchVisitor(c: Config, t: Table, u: Table, req: nat, ip: string, now: int, i: string)
    requires Sensible(c) && Same(c, t, u, now)
    ensures SameVisitor(c, GetVisitor(c, t, req, ip, now), GetVisitor(c, u, req, ip, now), i, now)
  {
    RefillIsLinear(c, 0, 0);
    assert SameVisitor(c, t, u, i, now);
  }

  lemma FetchKeeps(c: Config, t: Table, req: nat, ip: string, now: int, id: nat)
    requires Valid(t) && id < |t.heap|
    ensures var t' := GetVisitor(c, t, req, ip, now);
            id < |t'.heap| && t'.heap[id] == t.heap[id] && (Filed(t', id) <==> Filed(t, id))
  {}

  lemma FetchHolds(c: Config, t: Table, req: nat, ip: string, now: int)
    requires Valid(t)
    ensures var t' := GetVisitor(c, t, req, ip, now);
            && req in t'.held && t'.held == t.held[req := t'.held[req]]
            && Filed(t', t'.held[req]) && t'.heap[t'.held[req]].ip == ip
  {}

  lemma FetchRequest(c: Config, t: Table, u: Table, req: nat, ip: string, now: int, r: nat)
    requires Sensible(c) && Same(c, t, u, now)
    ensures SameRequest(GetVisitor(c, t, req, ip, now), GetVisitor(c, u, req, ip, now), r)
  {
    assert SameRequest(t, u, r);
    FetchHolds(c, t, req, ip, now);
    FetchHolds(c, u, req, ip, now);
    if r != req && r in t.held {
      FetchKeeps(c, t, req, ip, now, t.held[r]);
      FetchKeeps(c, u, req, ip, now, u.held[r]);
    }
    hide GetVisitor, SameVisitor, Filed;
  }

  lemma FetchIsSame(c: Config, t: Table, u: Table, req: nat, ip: string, now: int)
    requires Sensible(c) && Same(c, t, u, now)
    ensures Same(c, GetVisitor(c, t, req, ip, now), GetVisitor(c, u, req, ip, now), now)
  {
    var t', u' := GetVisitor(c, t, req, ip, now), GetVisitor(c, u, req, ip, now);
    forall i ensures SameVisitor(c, t', u', i, now) {
      FetchVisitor(c, t, u, req, ip, now, i);
    }
    forall r ensures SameRequest(t', u', r) {
      FetchRequest(c, t, u, req, ip, now, r);
    }
  }

  lemma SpendIsSame(c: Config, t: Table, u: Table, req: nat, now: int)
    requires Sensible(c) && Same(c, t, u, now)
    ensures Same(c, SpendToken(c, t, req, now), SpendToken(c, u, req, now), now)
  {
    assert SameRequest(t, u, req);
    if req in t.held {
      var t', u' := SpendToken(c, t, req, now), SpendToken(c, u, req, now);
      var mine := t.heap[t.held[req]].ip;
      assert SameVisitor(c, t, u, mine, now);
      if Filed(t, t.held[req]) {
        AllowKeepsProper(c, t.heap[t.held[req]].bucket, u.heap[u.held[req]].bucket, now);
      }
      forall i ensures SameVisitor(c, t', u', i, now) {
        assert SameVisitor(c, t, u, i, now);
      }
      forall r ensures SameRequest(t', u', r) {
        assert SameRequest(t, u, r);
      }
    }
  }

  function Clock(run: Run<Event>): int {
    if run.Then? then run.last.now else 0
  }

  lemma {:induction false} CleanupIsUnseen(c: Config, run: Run<Event>)
    requires Sensible(c) && c.rate * 180.0 >= c.capacity
    requires InOrder(run) && NoneHeld(c, run)
    ensures Same(c, After(c, run), After(c, WithoutCleanup(run)), Clock(run))
  {
    if run.Then? {
      var t, u, now := After(c, run.past), After(c, WithoutCleanup(run.past)), run.last.now;
      CleanupIsUnseen(c, run.past);
      if run.past.Then? {
        SameLater(c, t, u, run.past.last.now, now);
      }
      match run.last
      case Fetch(req, ip, _) => FetchIsSame(c, t, u, req, ip, now);
      case Spend(req, _) => SpendIsSame(c, t, u, req, now);
      case Cleanup(_) => SweepIsUnseen(c, t, u, now);
    }
  }

  /**
   When three minutes refill a whole bucket, dropping idle buckets cannot be observed:
   every request gets the reply it would have got had the janitor never run.
   */
  lemma EvictionUnobservable(c: Config, run: Run<Event>)
    requires Sensible(c) && c.rate * 180.0 >= c.capacity
    requires InOrder(run) && NoneHeld(c, run)
    ensures After(c, run).replies == After(c, WithoutCleanup(run)).replies
  {
    CleanupIsUnseen(c, run);
  }

  // ---------------------------------------------------------------- one sweep

  /** What follows from a table in which the sweep under question has or has not been made. */
  function Continue(c: Config, t: Table, later: Run<Event>): (t': Table)
    requires Valid(t)
    ensures Valid(t')
  {
    match later
    case Start => t
    case Then(past, e) => Step(c, Continue(c, t, past), e)
  }

  /** Lookups and spends from `now` on. */
  predicate Requests(later: Run<Event>, now: int) {
    later.Then? ==>
      && Requests(later.past, now) && !later.last.Cleanup?
      && now <= later.last.now && (later.past.Then? ==> later.past.last.now <= later.last.now)
  }

  /** Whatever requests follow, they get the replies they would have got without the sweep. */
  ghost predicate Unobservable(c: Config, t: Table, now: int)
    requires Valid(t)
  {
    forall later :: Requests(later, now) ==> Continue(c, Sweep(t, now), later).replies == Continue(c, t, later).replies
  }

  predicate AllProper(c: Config, t: Table, now: int) {
    forall id | 0 <= id < |t.heap| :: Proper(c, t.heap[id].bucket, now)
  }

  lemma {:induction false} AlwaysProper(c: Config, run: Run<Event>)
    requires Sensible(c) && InOrder(run)
    ensures AllProper(c, After(c, run), Clock(run))
  {
    if run.Then? {
      var t := After(c, run.past);
      AlwaysProper(c, run.past);
      if run.last.Spend? && run.last.req in t.held {
        var b := t.heap[t.held[run.last.req]].bucket;
        RefillIsLinear(c, 0, run.last.now - b.lastRefill);
      }
    }
  }

  lemma SweptIsSame(c: Config, t: Table, now: int)
    requires Sensible(c) && c.rate * 180.0 >= c.capacity && Valid(t) && AllProper(c, t, now) && NoneWaiting(t, now)
    ensures Same(c, Sweep(t, now), t, now)
  {
    var u := Sweep(t, now);
    forall ip ensures SameVisitor(c, u, t, ip, now) {
      if ip in t.visitors && ip !in u.visitors {
        IdleIsFull(c, t.heap[t.visitors[ip]].bucket, now);
      }
    }
  }

  lemma {:induction false} SameContinues(c: Config, t: Table, u: Table, now: int, later: Run<Event>)
    requires Sensible(c) && Same(c, t, u, now) && Requests(later, now)
    ensures Same(c, Continue(c, t, later), Continue(c, u, later), if later.Then? then later.last.now else now)
  {
    if later.Then? {
      var t', u' := Continue(c, t, later.past), Continue(c, u, later.past);
      SameContinues(c, t, u, now, later.past);
      SameLater(c, t', u', if later.past.Then? then later.past.last.now else now, later.last.now);
      match later.last
      case Fetch(req, ip, at) => FetchIsSame(c, t', u', req, ip, at);
      case Spend(req, at) => SpendIsSame(c, t', u', req, at);
    }
  }

  /** A bucket that cannot hold one token never admits, so there is nothing to observe. */
  lemma {:induction false} NothingToObserve(c: Config, t: Table, u: Table, now: int, later: Run<Event>)
    requires c.capacity < 1.0 && Valid(t) && Valid(u) && t.replies == u.replies && t.held.Keys == u.held.Keys
    requires Requests(later, now)
    ensures Continue(c, t, later).replies == Continue(c, u, later).replies
    ensures Continue(c, t, later).held.Keys == Continue(c, u, later).held.Keys
  {
    if later.Then? {
      hide Refill, Stale;
      NothingToObserve(c, t, u, now, later.past);
      var t', u' := Continue(c, t, later.past), Continue(c, u, later.past);
      match later.last
      case Fetch(req, ip, at) =>
      case Spend(req, at) => assert req in t'.held <==> req in u'.held;
    }
  }

  /** `n` times: look up the bucket of `ip` and spend from it. */
  function Calls(later: Run<Event>, r: nat, ip: string, now: int, n: nat): Run<Event> {
    if n == 0 then later else Then(Then(Calls(later, r, ip, now, n - 1), Fetch(r, ip, now)), Spend(r, now))
  }

  /** The next call for `ip` at this instant finds `x` tokens. */
  predicate Finds(c: Config, t: Table, ip: string, now: int, x: real)
    requires Valid(t)
  {
    && 0.0 <= x <= c.capacity
    && (if ip in t.visitors then t.heap[t.visitors[ip]].bucket == Bucket(x, now) else x == c.capacity)
  }

  lemma OneCall(c: Config, t: Table, r: nat, ip: string, now: int, x: real)
    requires Valid(t) && Finds(c, t, ip, now, x)
    ensures var t' := SpendToken(c, GetVisitor(c, t, r, ip, now), r, now);
            t'.replies == Then(t.replies, (r, x >= 1.0)) && Finds(c, t', ip, now, if x >= 1.0 then x - 1.0 else x)
  {
    assert Refill(c, 0) == 0.0;
    assert Allow(c, Bucket(x, now), now) == if x >= 1.0 then (Bucket(x - 1.0, now), true) else (Bucket(x, now), false);
  }

  lemma {:induction false} ManyCalls(c: Config, t: Table, later: Run<Event>, r: nat, ip: string, now: int, n: nat,
      x: real, left: real)
    requires Valid(t) && Finds(c, Continue(c, t, later), ip, now, x) && 0.0 <= left && x == left + n as real
    ensures Finds(c, Continue(c, t, Calls(later, r, ip, now, n)), ip, now, left)
  {
    if n > 0 {
      hide Finds, Continue, Sensible;
      OneLess(n);
      ManyCalls(c, t, later, r, ip, now, n - 1, x, left + 1.0);
      OneMoreCall(c, t, Calls(later, r, ip, now, n - 1), r, ip, now, left + 1.0);
    }
  }

  lemma OneLess(n: nat)
    requires 0 < n
    ensures (n - 1) as real == n as real - 1.0
  {}

  lemma OneMoreCall(c: Config, t: Table, later: Run<Event>, r: nat, ip: string, now: int, x: real)
    requires Valid(t) && Finds(c, Continue(c, t, later), ip, now, x)
    ensures var t' := Continue(c, t, Then(Then(later, Fetch(r, ip, now)), Spend(r, now)));
            && t'.replies == Then(Continue(c, t, later).replies, (r, x >= 1.0))
            && Finds(c, t', ip, now, if x >= 1.0 then x - 1.0 else x)
  {
    hide Finds;
    OneCall(c, Continue(c, t, later), r, ip, now, x);
  }

  lemma LastReply(c: Config, t: Table, later: Run<Event>, r: nat, ip: string, now: int, n: nat, x: real)
    requires Valid(t) && Finds(c, Continue(c, t, later), ip, now, x) && n as real <= x
    ensures var replies := Continue(c, t, Calls(later, r, ip, now, n + 1)).replies;
            replies.Then? && replies.last == (r, x - n as real >= 1.0)
  {
    ManyCalls(c, t, later, r, ip, now, n, x, x - n as real);
    OneMoreCall(c, t, Calls(later, r, ip, now, n), r, ip, now, x - n as real);
  }

  lemma {:induction false} CallsAreRequests(r: nat, ip: string, now: int, n: nat)
    ensures var later := Calls(Then(Start, Spend(r, now)), r, ip, now, n);
        Requests(later, now) && later.Then? && later.last.now == now
  {
    if n > 0 {
      CallsAreRequests(r, ip, now, n - 1);
    }
  }

  /**
   After the waiting request has spent, the next call finds a full bucket where the sweep was
   made, and one token less where it was not.
   */
  lemma SpendAfterSweep(c: Config, t: Table, r: nat, now: int)
    requires Sensible(c) && c.rate * 180.0 >= c.capacity >= 1.0 && Valid(t) && AllProper(c, t, now)
    requires r in t.held && Filed(t, t.held[r]) && Stale(t, t.held[r], now)
    ensures var ip, spend := t.heap[t.held[r]].ip, Then(Start, Spend(r, now));
            && Finds(c, Continue(c, Sweep(t, now), spend), ip, now, c.capacity)
            && Finds(c, Continue(c, t, spend), ip, now, c.capacity - 1.0)
  {
    IdleIsFull(c, t.heap[t.held[r]].bucket, now);
    assert Continue(c, t, Start) == t && Continue(c, Sweep(t, now), Start) == Sweep(t, now);
  }

  /**
   As many calls as a full bucket admits: all are admitted if the first finds a full bucket,
   the last is not if it finds one token less.
   */
  lemma CallsDrain(c: Config, t: Table, later: Run<Event>, r: nat, ip: string, now: int, full: bool)
    requires 1.0 <= c.capacity && Valid(t)
    requires Finds(c, Continue(c, t, later), ip, now, if full then c.capacity else c.capacity - 1.0)
    ensures var replies := Continue(c, t, Calls(later, r, ip, now, c.capacity.Floor)).replies;
            replies.Then? && replies.last == (r, full)
  {
    hide Finds, Calls, Continue;
    LastReply(c, t, later, r, ip, now, c.capacity.Floor - 1, if full then c.capacity else c.capacity - 1.0);
  }

  /** The waiting request spends, then that many calls follow: the last one tells the tables apart. */
  lemma SweepShows(c: Config, t: Table, r: nat, now: int)
    requires Sensible(c) && c.rate * 180.0 >= c.capacity >= 1.0 && Valid(t) && AllProper(c, t, now)
    requires r in t.held && Filed(t, t.held[r]) && Stale(t, t.held[r], now)
    ensures var later := Calls(Then(Start, Spend(r, now)), r, t.heap[t.held[r]].ip, now, c.capacity.Floor);
            Requests(later, now) && Continue(c, Sweep(t, now), later).replies != Continue(c, t, later).replies
  {
    var ip, spend := t.heap[t.held[r]].ip, Then(Start, Spend(r, now));
    hide Finds, Calls, Continue, Requests, Sweep;
    SpendAfterSweep(c, t, r, now);
    CallsAreRequests(r, ip, now, c.capacity.Floor);
    CallsDrain(c, Sweep(t, now), spend, r, ip, now, true);
    CallsDrain(c, t, spend, r, ip, now, false);
  }

  /**
   When three minutes refill a whole bucket: a sweep after any run whatever cannot be
   observed by any requests that follow exactly when it drops no bucket a waiting request
   has looked up, or when buckets are too small to admit anything.
   */
  lemma {:induction false} SweepUnobservableExactlyWhen(c: Config, run: Run<Event>, now: int)
    requires Sensible(c) && c.rate * 180.0 >= c.capacity && InOrder(run) && Clock(run) <= now
    ensures Unobservable(c, After(c, run), now) <==> c.capacity < 1.0 || NoneWaiting(After(c, run), now)
  {
    var t := After(c, run);
    AlwaysProper(c, run);
    assert AllProper(c, t, now);
    if c.capacity < 1.0 {
      forall later | Requests(later, now)
          ensures Continue(c, Sweep(t, now), later).replies == Continue(c, t, later).replies {
        NothingToObserve(c, Sweep(t, now), t, now, later);
      }
    } else if NoneWaiting(t, now) {
      SweptIsSame(c, t, now);
      forall later | Requests(later, now)
          ensures Continue(c, Sweep(t, now), later).replies == Continue(c, t, later).replies {
        SameContinues(c, Sweep(t, now), t, now, later);
      }
    } else {
      var r :| r in t.held && Filed(t, t.held[r]) && Stale(t, t.held[r], now);
      SweepShows(c, t, r, now);
    }
  }

  // ---------------------------------------------------------------- an instance

  const TIGHT := Config(1.0, 1.0)
  const LATER := 200 * SECOND
  const LOOKED_UP: Run<Event> := Then(Then(Then(Start, Fetch(0, "v", 0)), Spend(0, 0)), Fetch(1, "v", LATER))

  /**
   One request a second allowed, and a second request that has looked its bucket up after
   200 idle seconds and not yet spent: a sweep at that moment shows.
   */
  lemma SweepBetweenLookupAndSpend()
    ensures Sensible(TIGHT) && TIGHT.rate * 180.0 >= TIGHT.capacity && InOrder(LOOKED_UP)
    ensures !Unobservable(TIGHT, After(TIGHT, LOOKED_UP), LATER)
  {
    hide Allow;
    assert InOrder(LOOKED_UP.past);
    var t1 := After(TIGHT, LOOKED_UP.past.past);
    assert t1 == Table(map["v" := 0], [Owned("v", Bucket(1.0, 0))], map[0 := 0], Start);
    var t2 := SpendToken(TIGHT, t1, 0, 0);
    SpentAt(TIGHT, Bucket(1.0, 0), 0);
    assert t2.visitors == map["v" := 0] && t2.heap[0].ip == "v" && t2.heap[0].bucket.lastRefill == 0;
    var t3 := GetVisitor(TIGHT, t2, 1, "v", LATER);
    assert Filed(t3, t3.held[1]) && Stale(t3, t3.held[1], LATER);
    SweepUnobservableExactlyWhen(TIGHT, LOOKED_UP, LATER);
  }

  lemma SpentAt(c: Config, b: Bucket, now: int)
    ensures Allow(c, b, now).0.lastRefill == now
  {}

  class TokenBucket {
    const c: Config
    var tokens: real
    var lastRefill: int

    constructor (c: Config, now: int)
      ensures this.c == c && View() == Bucket(c.capacity, now)
    {
      this.c, tokens, lastRefill := c, c.capacity, now;
    }

    function View(): Bucket
      reads this
    {
      Bucket(tokens, lastRefill)
    }

    method Allow(now: int) returns (ok: bool)
      modifies this
      ensures (View(), ok) == TokenBuckets.Allow(c, old(View()), now)
      ensures lastRefill == now
      ensures var refilled := old(tokens) + c.rate * ((now - old(lastRefill)) as real / 1_000_000_000.0);
              var found := if refilled > c.capacity then c.capacity else refilled;
              ok == (found >= 1.0) && tokens == found - if ok then 1.0 else 0.0
    {
      RefillInSeconds(c, now - lastRefill);
      tokens := tokens + Refill(c, now - lastRefill);
      lastRefill := now;
      if tokens > c.capacity {
        tokens := c.capacity;
      }
      if tokens < 1.0 {
        return false;
      }
      tokens := tokens - 1.0;
      return true;
    }
  }

  class RateLimiter {
    const c: Config
    var visitors: map<string, TokenBucket>

    constructor (c: Config)
      ensures this.c == c && visitors == map[]
    {
      this.c, visitors := c, map[];
    }

    /** The bucket already filed under `ip`, or a new full one; the caller spends from it later. */
    method GetVisitor(ip: string, now: int) returns (tb: TokenBucket)
      modifies this
      ensures visitors == old(visitors)[ip := tb]
      ensures ip in old(visitors) ==> tb == old(visitors)[ip]
      ensures ip !in old(visitors) ==> fresh(tb) && tb.c == c && tb.View() == Bucket(c.capacity, now)
    {
      if ip in visitors {
        tb := visitors[ip];
        assert visitors == visitors[ip := tb];
        return;
      }
      tb := new TokenBucket(c, now);
      visitors := visitors[ip := tb];
    }

    /** One sweep: exactly the idle buckets leave the table, and no bucket changes. */
    method Cleanup(now: int)
      modifies this
      ensures visitors == map ip | ip in old(visitors)
          && now - old(visitors)[ip].lastRefill <= 180_000_000_000 :: old(visitors)[ip]
    {
      var todo := visitors.Keys;
      while todo != {}
        invariant todo <= visitors.Keys <= old(visitors).Keys
        invariant forall ip | ip in visitors :: visitors[ip] == old(visitors)[ip]
        invariant forall ip | ip in old(visitors) && ip !in todo ::
                    ip in visitors <==> now - old(visitors)[ip].lastRefill <= IDLE
        decreases |todo|
      {
        var ip :| ip in todo;
        if now - visitors[ip].lastRefill > IDLE {
          visitors := visitors - {ip};
        }
        todo := todo - {ip};
      }
    }
  }
}
