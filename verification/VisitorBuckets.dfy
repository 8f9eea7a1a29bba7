/**
 Which requests the visitor table admits while the janitor has not run: each visitor's are
 answered by one token bucket, full when the visitor first came.
 */
module VisitorBuckets {
  import opened TokenBuckets
  import opened Visitors
  import opened Wrappers

  predicate NoSweeps(run: Run<Event>) {
    run.Then? ==> NoSweeps(run.past) && !run.last.Cleanup?
  }

  /** The visitor a request has last looked up and not spent from since. */
  function Waiting(run: Run<Event>, req: nat): Option<string> {
    match run
    case Start => None
    case Then(past, Fetch(r, ip, _)) => if r == req then Some(ip) else Waiting(past, req)
    case Then(past, Spend(r, _)) => if r == req then None else Waiting(past, req)
    case Then(past, Cleanup(_)) => Waiting(past, req)
  }

  function FirstSeen(run: Run<Event>, ip: string): Option<int> {
    match run
    case Start => None
    case Then(past, e) =>
      if FirstSeen(past, ip).Some? then FirstSeen(past, ip)
      else if e.Fetch? && e.ip == ip then Some(e.now) else None
  }

  /** When requests of the visitor spent. */
  function Spends(run: Run<Event>, ip: string): Run<int> {
    match run
    case Start => Start
    case Then(past, e) =>
      if e.Spend? && Waiting(past, e.req) == Some(ip) then Then(Spends(past, ip), e.now)
      else Spends(past, ip)
  }

  /** The one bucket of a visitor. */
  ghost predicate OneBucket(c: Config, t: Table, run: Run<Event>, ip: string)
    requires Valid(t)
  {
    match FirstSeen(run, ip)
    case None => ip !in t.visitors
    case Some(first) =>
      && ip in t.visitors
      && t.heap[t.visitors[ip]].bucket == TokenBuckets.After(c, Bucket(c.capacity, first), Spends(run, ip))
  }

  predicate HoldsIt(t: Table, run: Run<Event>, req: nat) {
    match Waiting(run, req)
    case None => req !in t.held
    case Some(ip) => req in t.held && ip in t.visitors && t.held[req] == t.visitors[ip]
  }

  lemma FetchKeepsBuckets(c: Config, t: Table, run: Run<Event>, e: Event, ip: string)
    requires Valid(t) && e.Fetch? && OneBucket(c, t, run, ip)
    ensures OneBucket(c, Visitors.Step(c, t, e), Then(run, e), ip)
  {
    NothingSpentBefore(run, ip);
  }

  lemma SpendKeepsBuckets(c: Config, t: Table, run: Run<Event>, e: Event, ip: string)
    requires Valid(t) && e.Spend? && OneBucket(c, t, run, ip) && HoldsIt(t, run, e.req)
    ensures OneBucket(c, Visitors.Step(c, t, e), Then(run, e), ip)
  {
    hide TokenBuckets.Allow;
    if Waiting(run, e.req).Some? {
      SeenWhenWaiting(run, e.req);
    }
  }

  lemma HoldsAfter(c: Config, t: Table, run: Run<Event>, e: Event, req: nat)
    requires Valid(t) && !e.Cleanup? && HoldsIt(t, run, req)
    ensures HoldsIt(Visitors.Step(c, t, e), Then(run, e), req)
  {
    hide TokenBuckets.Allow;
  }

  lemma {:induction false} OneBucketEach(c: Config, run: Run<Event>, ip: string, req: nat)
    requires NoSweeps(run)
    ensures OneBucket(c, Visitors.After(c, run), run, ip) && HoldsIt(Visitors.After(c, run), run, req)
  {
    if run.Then? {
      hide OneBucket, HoldsIt, Visitors.Step;
      var t, e := Visitors.After(c, run.past), run.last;
      OneBucketEach(c, run.past, ip, req);
      HoldsAfter(c, t, run.past, e, req);
      if e.Fetch? {
        FetchKeepsBuckets(c, t, run.past, e, ip);
      } else {
        OneBucketEach(c, run.past, ip, e.req);
        SpendKeepsBuckets(c, t, run.past, e, ip);
      }
    }
  }

  lemma {:induction false} SeenWhenWaiting(run: Run<Event>, req: nat)
    requires Waiting(run, req).Some?
    ensures FirstSeen(run, Waiting(run, req).value).Some?
  {
    if Waiting(run.past, req).Some? && !(run.last.Fetch? && run.last.req == req) {
      SeenWhenWaiting(run.past, req);
    }
  }

  lemma {:induction false} NothingSpentBefore(run: Run<Event>, ip: string)
    ensures FirstSeen(run, ip).None? ==> Spends(run, ip) == Start
  {
    if run.Then? {
      NothingSpentBefore(run.past, ip);
      if run.last.Spend? && Waiting(run.past, run.last.req) == Some(ip) {
        SeenWhenWaiting(run.past, run.last.req);
      }
    }
  }

  /**
   A request that has looked its visitor up is admitted exactly when one more token can be
   had: covered, with those its visitor has had since any earlier request, by a full bucket and
   the refill since; a request that has not is not answered.
   */
  lemma RepliesExactlyWhen(c: Config, run: Run<Event>, req: nat, now: int)
    requires NoSweeps(run)
    ensures var t, t' := Visitors.After(c, run), Visitors.After(c, Then(run, Spend(req, now)));
            match Waiting(run, req)
            case None => t'.replies == t.replies
            case Some(ip) =>
              && FirstSeen(run, ip).Some?
              && t'.replies
                 == Then(t.replies,
                         (req, Affordable(c, Bucket(c.capacity, FirstSeen(run, ip).value), Spends(run, ip),
                                          now, 1.0)))
  {
    hide TokenBuckets.Allow, Affordable;
    OneBucketEach(c, run, "", req);
    if Waiting(run, req).Some? {
      var ip := Waiting(run, req).value;
      SeenWhenWaiting(run, req);
      OneBucketEach(c, run, ip, req);
      AdmittedExactlyWhen(c, Bucket(c.capacity, FirstSeen(run, ip).value), Spends(run, ip), now);
    }
  }
}
