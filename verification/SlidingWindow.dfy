/**
 The Redis-backed sliding-window limiter.  One sorted set per caller holds the
 admissions that are still inside the window; the script prunes it, counts it and
 adds to it in one atomic step.  Times are milliseconds of one clock.
 */
module SlidingWindow {
  import opened Admission
  import opened Wrappers

  /** A sorted set maps each member to its score; Redis drops the key once `expireAt` is reached. */
  datatype Key = Key(zset: map<string, int>, expireAt: int)

  datatype Request = Request(now: nat, limit: int, member: string)

  datatype Reply = Reply(blocked: bool, count: int)

  /** EXPIRE takes whole seconds: the window rounded up, plus one. */
  function Ttl(window: nat): nat {
    ((window + 999) / 1000 + 1) * 1000
  }

  /** The set as a command run at `now` sees it. */
  function Seen(k: Key, now: int): map<string, int> {
    if now < k.expireAt then k.zset else map[]
  }

  /** ZREMRANGEBYSCORE key 0 bound */
  function Prune(z: map<string, int>, bound: int): map<string, int> {
    map m | m in z && !(0 <= z[m] <= bound) :: z[m]
  }

  function Script(k: Key, window: nat, r: Request): (Key, Reply) {
    var z := Prune(Seen(k, r.now), r.now - window);
    if |z| < r.limit
    then (Key(z[r.member := r.now], r.now + Ttl(window)), Reply(false, |z| + 1))
    else (k.(zset := z), Reply(true, |z|))
  }

  function After(window: nat, run: Run<Request>): Key {
    match run
    case Start => Key(map[], 0)
    case Then(past, r) => Script(After(window, past), window, r).0
  }

  function Decisions(window: nat, run: Run<Request>): Trace {
    match run
    case Start => Start
    case Then(past, r) =>
      Then(Decisions(window, past), Call(r.now, !Script(After(window, past), window, r).1.blocked))
  }

  function Members(run: Run<Request>): set<string> {
    match run
    case Start => {}
    case Then(past, r) => Members(past) + {r.member}
  }

  /** The clock never runs backwards and the generated members never repeat. */
  predicate History(run: Run<Request>) {
    run.Then? ==>
      && History(run.past)
      && Over(run.past, run.last.now)
      && run.last.member !in Members(run.past)
  }

  predicate Over(run: Run<Request>, t: int) {
    run.Then? ==> run.last.now <= t
  }

  /** Reference: the members of all admissions of the run that happened after `bound`. */
  function Kept(window: nat, run: Run<Request>, bound: int): map<string, int> {
    match run
    case Start => map[]
    case Then(past, r) =>
      var before := Kept(window, past, bound);
      if !Script(After(window, past), window, r).1.blocked && bound < r.now then before[r.member := r.now] else before
  }

  lemma {:induction false} KeptFrom(window: nat, run: Run<Request>, bound: int, t: int)
    requires History(run) && Over(run, t)
    ensures var z := Kept(window, run, bound);
            z.Keys <= Members(run) && forall m | m in z :: bound < z[m] && 0 <= z[m] <= t
  {
    if run.Then? {
      KeptFrom(window, run.past, bound, run.last.now);
    }
  }

  lemma {:induction false} KeptPruned(window: nat, run: Run<Request>, b: int, b': int)
    requires History(run) && b <= b'
    ensures Prune(Kept(window, run, b), b') == Kept(window, run, b')
  {
    if run.Then? {
      KeptPruned(window, run.past, b, b');
      KeptFrom(window, run.past, b, run.last.now);
      KeptFrom(window, run.past, b', run.last.now);
    }
  }

  lemma {:induction false} KeptCount(window: nat, run: Run<Request>, b: int, t: int)
    requires History(run) && Over(run, t)
    ensures |Kept(window, run, b)| == Count(Decisions(window, run), b + 1, t)
  {
    if run.Then? {
      KeptCount(window, run.past, b, t);
      KeptFrom(window, run.past, b, run.last.now);
    }
  }

  /** At time `t` the script would find exactly `z`. */
  predicate Holds(k: Key, window: nat, t: int, z: map<string, int>) {
    Prune(Seen(k, t), t - window) == z
  }

  /**
   One script keeps the agreement: `atNow` is what it finds, `later` what a look at time `t`
   would have found without it.
   */
  lemma ScriptKeepsHistory(k: Key, window: nat, r: Request, t: nat, atNow: map<string, int>, later: map<string, int>)
    requires r.now <= t && r.member !in atNow
    requires forall m | m in atNow :: 0 <= atNow[m] <= r.now
    requires Holds(k, window, r.now, atNow) && Holds(k, window, t, later)
    requires Prune(atNow, t - window) == later
    ensures var (k', reply) := Script(k, window, r);
            Holds(k', window, t, if !reply.blocked && t - window < r.now then later[r.member := r.now] else later)
  {
    var (k', reply) := Script(k, window, r);
    if reply.blocked {
      assert k'.expireAt == k.expireAt;
    } else {
      assert k'.zset == atNow[r.member := r.now];
    }
  }

  lemma ScriptAfterRun(k: Key, window: nat, past: Run<Request>, r: Request, t: nat)
    requires History(Then(past, r)) && r.now <= t
    requires Holds(k, window, r.now, Kept(window, past, r.now - window))
    requires Holds(k, window, t, Kept(window, past, t - window))
    ensures var (k', reply) := Script(k, window, r);
            var later := Kept(window, past, t - window);
            Holds(k', window, t, if !reply.blocked && t - window < r.now then later[r.member := r.now] else later)
  {
    hide Holds, Script;
    KeptPruned(window, past, r.now - window, t - window);
    KeptFrom(window, past, r.now - window, r.now);
    ScriptKeepsHistory(k, window, r, t, Kept(window, past, r.now - window), Kept(window, past, t - window));
  }

  /**
   The pruned set is the admission history, cut at the window: whatever was pruned
   earlier, and even if the whole key has expired meanwhile, nothing that counts is missing.
   */
  lemma {:induction false} SetIsHistory(window: nat, run: Run<Request>, t: nat)
    requires History(run) && Over(run, t)
    ensures Holds(After(window, run), window, t, Kept(window, run, t - window))
    decreases run
  {
    hide Holds, Script, Members, Kept, After;
    if run == Start {
      NothingAtFirst(window, t);
    } else {
      SetIsHistory(window, run.past, run.last.now);
      SetIsHistory(window, run.past, t);
      OneMoreRequest(window, run.past, run.last, t);
    }
  }

  lemma NothingAtFirst(window: nat, t: nat)
    ensures Holds(After(window, Start), window, t, Kept(window, Start, t - window))
  {}

  lemma OneMoreRequest(window: nat, past: Run<Request>, r: Request, t: nat)
    requires History(Then(past, r)) && r.now <= t
    requires Holds(After(window, past), window, r.now, Kept(window, past, r.now - window))
    requires Holds(After(window, past), window, t, Kept(window, past, t - window))
    ensures Holds(After(window, Then(past, r)), window, t, Kept(window, Then(past, r), t - window))
  {
    hide Holds, Script, History;
    ScriptAfterRun(After(window, past), window, past, r, t);
  }

  lemma ReplyCounts(k: Key, window: nat, r: Request, z: map<string, int>)
    requires Holds(k, window, r.now, z)
    ensures var reply := Script(k, window, r).1;
            (reply.blocked <==> |z| >= r.limit) && reply.count == |z| + if reply.blocked then 0 else 1
  {}

  /**
   The verdict on a request after any history, in terms of the trace and of nothing else; and
   the count in its reply.
   */
  lemma {:induction false} BlockedExactlyWhenFull(window: nat, past: Run<Request>, r: Request)
    requires History(Then(past, r))
    ensures var inWindow := Count(Decisions(window, past), r.now - window + 1, r.now);
            var reply := Script(After(window, past), window, r).1;
            && (reply.blocked <==> inWindow >= r.limit)
            && reply.count == inWindow + if reply.blocked then 0 else 1
  {
    hide Holds, Script;
    SetIsHistory(window, past, r.now);
    KeptCount(window, past, r.now - window, r.now);
    ReplyCounts(After(window, past), window, r, Kept(window, past, r.now - window));
  }

  predicate LimitsAtMost(run: Run<Request>, limit: nat) {
    run.Then? ==> LimitsAtMost(run.past, limit) && run.last.limit <= limit
  }

  lemma {:induction false} EveryAdmissionFoundRoom(window: nat, run: Run<Request>, limit: nat)
    requires History(run) && LimitsAtMost(run, limit)
    ensures InOrder(Decisions(window, run)) && AdmitsBelow(Decisions(window, run), window, limit)
  {
    if run.Then? {
      EveryAdmissionFoundRoom(window, run.past, limit);
      BlockedExactlyWhenFull(window, run.past, run.last);
    }
  }

  /** With every limit at most `limit`, no half-open interval (t - window, t] holds more than `limit` admissions. */
  lemma WindowBound(window: nat, run: Run<Request>, limit: nat, t: int)
    requires History(run) && LimitsAtMost(run, limit)
    ensures Count(Decisions(window, run), t - window + 1, t) <= limit
  {
    EveryAdmissionFoundRoom(window, run, limit);
    SlidingBound(Decisions(window, run), window, limit, t);
  }

  class RedisKey {
    var zset: map<string, int>
    var expireAt: int

    constructor ()
      ensures View() == Key(map[], 0)
    {
      zset, expireAt := map[], 0;
    }

    function View(): Key
      reads this
    {
      Key(zset, expireAt)
    }

    /** The script, command by command. */
    method Eval(now: nat, window: nat, limit: int, member: string) returns (reply: Reply)
      modifies this
      ensures (View(), reply) == Script(old(View()), window, Request(now, limit, member))
    {
      if expireAt <= now {
        zset := map[];
      }
      zset := Prune(zset, now - window);
      var count := |zset|;
      if count < limit {
        zset := zset[member := now];
        expireAt := now + Ttl(window);
        return Reply(false, count + 1);
      }
      return Reply(true, count);
    }
  }
}
