/**
 What a request is answered, in terms of the events of the run before it: which store
 of a response for its resource came last and has not expired, and whether a lock stands.
 */
module Replays {
  import opened Idempotency
  import opened Wrappers

  // ---------------------------------------------------------------- the history of a request

  /** Whatever a request does or is told comes from its own arrival and from what its own handler did. */
  predicate Told(run: Run<Event>, id: nat, l: Live) {
    && Occurs(run, Arrive(id, l.request))
    && (l.phase.Ran? || l.phase.Releasing? ==> Occurs(run, End(id, l.phase.outcome)))
    && (l.phase.Done? && l.phase.reply.Handled? ==> Occurs(run, End(id, l.phase.reply.outcome)))
  }

  /** What one step makes of one request. */
  predicate Becomes(s: State, e: Event, s': State, id: nat)
    requires id in s'.requests
  {
    var l' := s'.requests[id];
    if id !in s.requests then e.Arrive? && e.id == id && l' == Live(e.request, Arrived)
    else
      var l := s.requests[id];
      && l'.request == l.request
      && (l.phase.Done? ==> l' == l)
      && (l'.phase.Ran? && l' != l ==> e == End(id, l'.phase.outcome))
      && (l'.phase.Releasing? && l' != l ==> l.phase.Ran? && l.phase.outcome == l'.phase.outcome)
      && (l'.phase.Done? && l'.phase.reply.Handled? && l' != l ==>
            l.phase.Releasing? && l.phase.outcome == l'.phase.reply.outcome)
  }

  lemma StepOfOne(sha: Hash, s: State, e: Event, id: nat)
    requires id in Step(sha, s, e).requests
    ensures Becomes(s, e, Step(sha, s, e), id)
  {
    hide DoLookUp, DoTakeLock, DoEnd, DoStore, DoRelease;
    match e
    case LookUp(_, _) => LookUpOfOne(sha, s, e, id);
    case TakeLock(_, _, _) => TakeLockOfOne(sha, s, e, id);
    case End(_, _) => EndOfOne(sha, s, e, id);
    case Store(_, _) => FinishOfOne(sha, s, e, id);
    case Release(_, _) => FinishOfOne(sha, s, e, id);
    case _ =>
  }

  lemma LookUpOfOne(sha: Hash, s: State, e: Event, id: nat)
    requires e.LookUp? && id in Step(sha, s, e).requests
    ensures Becomes(s, e, Step(sha, s, e), id)
  {
    hide Admit, Resource;
    if id in s.requests && id == e.id && s.requests[id].phase.Arrived? {
      AdmitReplies(s.requests[id].request);
      var phase := Step(sha, s, e).requests[id].phase;
      assert phase.Missed? || phase.Done?;
    }
  }

  lemma TakeLockOfOne(sha: Hash, s: State, e: Event, id: nat)
    requires e.TakeLock? && id in Step(sha, s, e).requests
    ensures Becomes(s, e, Step(sha, s, e), id)
  {
    hide Resource;
  }

  lemma EndOfOne(sha: Hash, s: State, e: Event, id: nat)
    requires e.End? && id in Step(sha, s, e).requests
    ensures Becomes(s, e, Step(sha, s, e), id)
  {
    hide Resource;
  }

  lemma FinishOfOne(sha: Hash, s: State, e: Event, id: nat)
    requires (e.Store? || e.Release?) && id in Step(sha, s, e).requests
    ensures Becomes(s, e, Step(sha, s, e), id)
  {
    hide Resource, Storable;
  }

  lemma AdmitReplies(r: Request)
    ensures Admit(r).Some? ==> !Admit(r).value.Handled?
  {}

  lemma {:induction false} AlwaysTold(sha: Hash, run: Run<Event>, id: nat)
    requires id in After(sha, run).requests
    ensures Told(run, id, After(sha, run).requests[id])
  {
    var s := After(sha, run.past);
    StepOfOne(sha, s, run.last, id);
    hide Step;
    if id in s.requests {
      AlwaysTold(sha, run.past, id);
    }
  }

  lemma {:induction false} DoneForGood(sha: Hash, early: Run<Event>, run: Run<Event>, id: nat)
    requires IsPrefix(early, run) && At(After(sha, early), id).Done?
    ensures id in After(sha, run).requests && After(sha, run).requests[id] == After(sha, early).requests[id]
  {
    if early != run {
      DoneForGood(sha, early, run.past, id);
      StepGrows(sha, After(sha, run.past), run.last);
      StepOfOne(sha, After(sha, run.past), run.last, id);
    }
  }

  // ---------------------------------------------------------------- the stored response

  /** The SET of a response under this key is applied: its handler has returned, without error, nothing too long. */
  predicate Stores(sha: Hash, past: Run<Event>, e: Event, resource: string) {
    && e.Store? && e.net != NotApplied && At(After(sha, past), e.id).Ran?
    && Resource(sha, After(sha, past).requests[e.id].request) == resource
    && match At(After(sha, past), e.id).outcome
       case Panicked => false
       case Returned(failed, response, encodes) =>
         !failed && encodes && response.status < 500 && |response.body| <= 524288
  }

  /** The last store under this key, unless what it stored has expired since. */
  function LastStore(sha: Hash, run: Run<Event>, resource: string): Option<Execution> {
    match run
    case Start => None
    case Then(past, e) =>
      if e == ResponseExpires(resource) then None
      else if Stores(sha, past, e, resource) then
        var Live(q, phase) := After(sha, past).requests[e.id];
        Some(Execution(e.id, resource, sha(q.body), phase.outcome.response))
      else LastStore(sha, past, resource)
  }

  predicate Holds(responses: map<string, Stored>, resource: string, x: Option<Execution>) {
    match x
    case None => resource !in responses
    case Some(x) =>
      resource in responses && responses[resource].hash == x.hash && responses[resource].response == x.response
  }

  lemma OnlyStoresAndExpiries(sha: Hash, s: State, e: Event)
    requires !e.Store? && !e.ResponseExpires?
    ensures Step(sha, s, e).responses == s.responses
  {
    hide Admit, Resource;
  }

  lemma {:induction false} LastStoreHolds(sha: Hash, run: Run<Event>, resource: string)
    ensures Holds(After(sha, run).responses, resource, LastStore(sha, run, resource))
  {
    if run.Then? {
      LastStoreHolds(sha, run.past, resource);
      hide Resource, DoLookUp, DoTakeLock, DoEnd, DoRelease;
      if !run.last.Store? && !run.last.ResponseExpires? {
        OnlyStoresAndExpiries(sha, After(sha, run.past), run.last);
        hide Step;
      }
    }
  }

  /** The stored response is what the handler of some request returned for this key and that body. */
  predicate IsReturned(sha: Hash, run: Run<Event>, resource: string, x: Execution) {
    && Occurs(run, End(x.id, Returned(false, x.response, true)))
    && x.id in After(sha, run).requests
    && var q := After(sha, run).requests[x.id].request;
       Occurs(run, Arrive(x.id, q)) && Resource(sha, q) == resource == x.resource && sha(q.body) == x.hash
  }

  lemma {:induction false} LastStoreIsReturned(sha: Hash, run: Run<Event>, resource: string)
    requires LastStore(sha, run, resource).Some?
    ensures IsReturned(sha, run, resource, LastStore(sha, run, resource).value)
  {
    var id := LastStore(sha, run, resource).value.id;
    var s := After(sha, run.past);
    if Stores(sha, run.past, run.last, resource) {
      AlwaysTold(sha, run.past, id);
    } else {
      LastStoreIsReturned(sha, run.past, resource);
    }
    hide Step, Resource;
    StepGrows(sha, s, run.last);
    StepOfOne(sha, s, run.last, id);
  }

  // ---------------------------------------------------------------- what a lookup leads to

  predicate Guarded(r: Request) {
    && r.verb != "GET" && r.verb != "HEAD" && r.verb != "OPTIONS"
    && 0 < |r.key| <= 128 && AllAllowed(r.key)
    && r.userId != ""
  }

  predicate AllAllowed(key: string) {
    forall i | 0 <= i < |key| ::
      'a' <= key[i] <= 'z' || 'A' <= key[i] <= 'Z' || '0' <= key[i] <= '9' || key[i] in "-_.:"
  }

  /** What a request that is not guarded is told without a look at Redis. */
  function Unguarded(r: Request): Reply {
    if r.verb == "GET" || r.verb == "HEAD" || r.verb == "OPTIONS" || r.key == "" then PassedThrough
    else if |r.key| > 128 || !AllAllowed(r.key) then KeyInvalid
    else Unauthorized
  }

  lemma GuardedExactlyWhen(r: Request)
    ensures if Guarded(r) then Admit(r).None? else Admit(r) == Some(Unguarded(r))
  {
    forall i | 0 <= i < |r.key|
      ensures ValidKeyChar(r.key[i]) <==>
              'a' <= r.key[i] <= 'z' || 'A' <= r.key[i] <= 'Z' || '0' <= r.key[i] <= '9' || r.key[i] in "-_.:"
    {
    }
  }

  /** What a request is told by the lookup that comes after `past`; None when it goes on to take the lock. */
  function Answer(sha: Hash, past: Run<Event>, r: Request, fails: bool): Option<Reply> {
    if !Guarded(r) then Some(Unguarded(r))
    else if fails then Some(Unavailable)
    else
      match LastStore(sha, past, Resource(sha, r))
      case None => None
      case Some(x) =>
        Some(if x.hash == "" then StateInvalid else if x.hash == sha(r.body) then Replayed(x.response) else KeyReused)
  }

  lemma LookUpAnswers(sha: Hash, run: Run<Event>, id: nat, fails: bool)
    requires At(After(sha, run), id).Arrived?
    ensures var r := After(sha, run).requests[id].request;
            At(After(sha, Then(run, LookUp(id, fails))), id)
            == match Answer(sha, run, r, fails)
               case None => Missed(Length(run))
               case Some(reply) => Done(reply)
  {
    var r := After(sha, run).requests[id].request;
    GuardedExactlyWhen(r);
    LastStoreHolds(sha, run, Resource(sha, r));
    ClockIsPosition(sha, run);
    hide Guarded, Unguarded, Admit, Resource, LastStore;
  }

  /**
   The lookup decides.  A guarded request whose lookup comes after an applied store of a
   response for its resource, unexpired, ends with that response, which the handler of the
   request that stored it returned, if its body has the digest of that request's body, and
   is refused otherwise (or if that digest is empty, as SHA-256 in hexadecimal never is);
   without such a store it goes on to take the lock.
   */
  lemma AnsweredByLastStore(sha: Hash, run: Run<Event>, moment: Run<Event>, id: nat)
    requires IsPrefix(moment, run) && moment.Then? && moment.last == LookUp(id, false)
    requires At(After(sha, moment.past), id).Arrived? && Guarded(After(sha, moment.past).requests[id].request)
    ensures var r := After(sha, moment.past).requests[id].request;
            match LastStore(sha, moment.past, Resource(sha, r))
            case None => At(After(sha, moment), id) == Missed(Length(moment.past))
            case Some(x) =>
              && IsReturned(sha, moment.past, Resource(sha, r), x)
              && At(After(sha, run), id)
                 == Done(if x.hash == "" then StateInvalid
                         else if sha(r.body) == x.hash then Replayed(x.response) else KeyReused)
  {
    var r := After(sha, moment.past).requests[id].request;
    LookUpAnswers(sha, moment.past, id, false);
    if LastStore(sha, moment.past, Resource(sha, r)).Some? {
      LastStoreIsReturned(sha, moment.past, Resource(sha, r));
      hide Step, Guarded, Resource, LastStore, IsReturned;
      DoneForGood(sha, moment, run, id);
    }
  }

  // ---------------------------------------------------------------- what the lock leads to

  /** The token of the lock that stands: taken while none stood, neither expired nor released by its holder since. */
  function StandingLock(sha: Hash, run: Run<Event>, resource: string): Option<string> {
    match run
    case Start => None
    case Then(past, e) =>
      var standing := StandingLock(sha, past, resource);
      var s := After(sha, past);
      if e == LockExpires(resource) then None
      else if standing.None? then
        if e.TakeLock? && e.net != NotApplied && At(s, e.id).Missed? && e.token !in s.owner
           && Resource(sha, s.requests[e.id].request) == resource
        then Some(e.token) else None
      else if e.Release? && e.net != NotApplied && At(s, e.id).Releasing? && At(s, e.id).token == standing.value
              && Resource(sha, s.requests[e.id].request) == resource
        then None
      else standing
  }

  lemma OnlyLockersLock(sha: Hash, s: State, e: Event)
    requires !e.TakeLock? && !e.Release? && !e.LockExpires?
    ensures Step(sha, s, e).locks == s.locks
  {
    hide Admit, Resource, Storable;
  }

  lemma {:induction false} StandingLockStands(sha: Hash, run: Run<Event>, resource: string)
    ensures var locks := After(sha, run).locks;
            StandingLock(sha, run, resource) == if resource in locks then Some(locks[resource]) else None
  {
    if run.Then? {
      StandingLockStands(sha, run.past, resource);
      hide Resource, DoLookUp, DoEnd, DoStore;
      if !run.last.TakeLock? && !run.last.Release? && !run.last.LockExpires? {
        OnlyLockersLock(sha, After(sha, run.past), run.last);
        hide Step;
      }
    }
  }

  /**
   An answered attempt at the lock leads to the handler exactly when no lock stands; what a
   request that went through the handler is told in the end is what its handler did.
   */
  lemma HandlerExactlyWhenNoLockStands(sha: Hash, run: Run<Event>, id: nat, token: string, net: Net)
    requires At(After(sha, run), id).Missed? && token !in After(sha, run).owner
    ensures var s := After(sha, run);
            At(After(sha, Then(run, TakeLock(id, token, net))), id)
            == if net != Answered then Done(Unavailable)
               else if StandingLock(sha, run, Resource(sha, s.requests[id].request)).None?
               then Locked(At(s, id).lookedAt, token) else Done(InProgress)
  {
    StandingLockStands(sha, run, Resource(sha, After(sha, run).requests[id].request));
    hide Resource, StandingLock;
  }

  lemma ToldWhatTheHandlerDid(sha: Hash, run: Run<Event>, id: nat)
    requires At(After(sha, run), id).Done? && At(After(sha, run), id).reply.Handled?
    ensures Occurs(run, End(id, At(After(sha, run), id).reply.outcome))
  {
    AlwaysTold(sha, run, id);
  }
}
