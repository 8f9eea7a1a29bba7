/**
 How often the handler for a resource still runs once a response is stored, whatever
 follows: any interleaving of any further requests, crashes, lost answers and lost locks.
 */
module Duplicates {
  import opened Idempotency
  import opened Wrappers

  function Continue(sha: Hash, s: State, later: Run<Event>): State {
    match later
    case Start => s
    case Then(past, e) => Step(sha, Continue(sha, s, past), e)
  }

  /** The stored response of the resource does not expire. */
  predicate Keeps(later: Run<Event>, resource: string) {
    later.Then? ==> Keeps(later.past, resource) && later.last != ResponseExpires(resource)
  }

  /** Past its lookup and not yet through the handler. */
  predicate MayRun(p: Phase) {
    p.Missed? || p.Locked? || p.Running?
  }

  predicate Pends(sha: Hash, s: State, resource: string, id: nat) {
    id in s.requests && Resource(sha, s.requests[id].request) == resource && MayRun(s.requests[id].phase)
  }

  function Pending(sha: Hash, s: State, resource: string): set<nat> {
    set id | id in s.requests && Pends(sha, s, resource, id)
  }

  function Executions(runs: Run<Execution>, resource: string): nat {
    match runs
    case Start => 0
    case Then(past, x) => Executions(past, resource) + if x.resource == resource then 1 else 0
  }

  /** With a response stored, no request starts to pend, and a recorded run is one of a request that pends no more. */
  predicate Drains(sha: Hash, s: State, s': State, resource: string) {
    && resource in s'.responses
    && Pending(sha, s', resource) <= Pending(sha, s, resource)
    && (s'.runs == s.runs ||
          (s'.runs.Then? && s'.runs.past == s.runs &&
           var x := s'.runs.last;
           x.resource == resource ==> x.id in Pending(sha, s, resource) && x.id !in Pending(sha, s', resource)))
  }

  lemma MoveDrains(sha: Hash, s: State, id: nat, phase: Phase, resource: string)
    requires id in s.requests && resource in s.responses
    requires MayRun(phase) ==> MayRun(s.requests[id].phase) || Resource(sha, s.requests[id].request) != resource
    ensures Drains(sha, s, Move(s, id, phase), resource)
    ensures !MayRun(phase) ==> id !in Pending(sha, Move(s, id, phase), resource)
  {
    hide Resource;
  }

  lemma LookUpDrains(sha: Hash, s: State, id: nat, fails: bool, resource: string)
    requires resource in s.responses
    ensures Drains(sha, s, DoLookUp(sha, s, id, fails), resource)
  {
    hide Resource, Admit, Drains;
    if At(s, id).Arrived? {
      var phase := DoLookUp(sha, s, id, fails).requests[id].phase;
      MoveDrains(sha, s, id, phase, resource);
    } else {
      StaysDrained(sha, s, resource);
    }
  }

  lemma StaysDrained(sha: Hash, s: State, resource: string)
    requires resource in s.responses
    ensures Drains(sha, s, s, resource)
  {}

  /** Drains reads the requests, the stored responses and the recorded runs only. */
  lemma DrainsReads(sha: Hash, s: State, s': State, t': State, resource: string)
    requires Drains(sha, s, s', resource) && t'.requests == s'.requests && t'.runs == s'.runs
    requires resource in t'.responses
    ensures Drains(sha, s, t', resource)
  {
    assert Pending(sha, t', resource) == Pending(sha, s', resource);
  }

  lemma TakeLockDrains(sha: Hash, s: State, id: nat, token: string, net: Net, resource: string)
    requires resource in s.responses
    ensures Drains(sha, s, DoTakeLock(sha, s, id, token, net), resource)
  {
    hide Resource, Drains;
    var s' := DoTakeLock(sha, s, id, token, net);
    if s' == s {
      StaysDrained(sha, s, resource);
    } else {
      MoveDrains(sha, s, id, s'.requests[id].phase, resource);
      DrainsReads(sha, s, Move(s, id, s'.requests[id].phase), s', resource);
    }
  }

  lemma EndDrains(sha: Hash, s: State, id: nat, outcome: Outcome, resource: string)
    requires resource in s.responses
    ensures Drains(sha, s, DoEnd(sha, s, id, outcome), resource)
  {
    hide Resource;
    var s' := DoEnd(sha, s, id, outcome);
    if s' == s {
      StaysDrained(sha, s, resource);
    } else {
      var moved := Move(s, id, s'.requests[id].phase);
      MoveDrains(sha, s, id, s'.requests[id].phase, resource);
      assert Pending(sha, s', resource) == Pending(sha, moved, resource);
    }
  }

  lemma FinishDrains(sha: Hash, s: State, id: nat, net: Net, resource: string)
    requires resource in s.responses
    ensures Drains(sha, s, DoStore(sha, s, id, net), resource)
    ensures Drains(sha, s, DoRelease(sha, s, id, net), resource)
  {
    hide Resource, Drains;
    StaysDrained(sha, s, resource);
    var s1, s2 := DoStore(sha, s, id, net), DoRelease(sha, s, id, net);
    if s1 != s {
      MoveDrains(sha, s, id, s1.requests[id].phase, resource);
      DrainsReads(sha, s, Move(s, id, s1.requests[id].phase), s1, resource);
    }
    if s2 != s {
      MoveDrains(sha, s, id, s2.requests[id].phase, resource);
      DrainsReads(sha, s, Move(s, id, s2.requests[id].phase), s2, resource);
    }
  }

  lemma OtherDrains(sha: Hash, s: State, e: Event, resource: string)
    requires resource in s.responses && e != ResponseExpires(resource)
    requires e.Arrive? || e.Begin? || e.Crash? || e.LockExpires? || e.ResponseExpires?
    ensures Drains(sha, s, Act(sha, s, e), resource)
  {
    hide Resource, Drains;
    StaysDrained(sha, s, resource);
    var s' := Act(sha, s, e);
    match e
    case Arrive(id, r) =>
      if s' != s {
        ArriveDrains(sha, s, id, r, resource);
      }
    case Begin(id) =>
      if s' != s {
        MoveDrains(sha, s, id, s'.requests[id].phase, resource);
      }
    case Crash(id) =>
      if s' != s {
        MoveDrains(sha, s, id, Dead, resource);
      }
    case LockExpires(_) => DrainsReads(sha, s, s, s', resource);
    case ResponseExpires(_) => DrainsReads(sha, s, s, s', resource);
  }

  lemma ArriveDrains(sha: Hash, s: State, id: nat, r: Request, resource: string)
    requires resource in s.responses && id !in s.requests
    ensures Drains(sha, s, s.(requests := s.requests[id := Live(r, Arrived)]), resource)
  {
    hide Resource;
  }

  lemma StepDrains(sha: Hash, s: State, e: Event, resource: string)
    requires resource in s.responses && e != ResponseExpires(resource)
    ensures Drains(sha, s, Step(sha, s, e), resource)
  {
    hide Drains, DoLookUp, DoTakeLock, DoEnd, DoStore, DoRelease;
    match e {
      case LookUp(id, fails) => LookUpDrains(sha, s, id, fails, resource);
      case TakeLock(id, token, net) => TakeLockDrains(sha, s, id, token, net, resource);
      case End(id, outcome) => EndDrains(sha, s, id, outcome, resource);
      case Store(id, net) => FinishDrains(sha, s, id, net, resource);
      case Release(id, net) => FinishDrains(sha, s, id, net, resource);
      case _ => OtherDrains(sha, s, e, resource);
    }
    DrainsKept(sha, s, Act(sha, s, e), Step(sha, s, e), resource);
  }

  lemma DrainsKept(sha: Hash, s: State, s': State, t': State, resource: string)
    requires Drains(sha, s, s', resource) && t' == s'.(clock := t'.clock)
    ensures Drains(sha, s, t', resource)
  {
    DrainsReads(sha, s, s', t', resource);
  }

  lemma DrainsCounts(sha: Hash, s: State, s': State, resource: string)
    requires Drains(sha, s, s', resource)
    ensures Executions(s'.runs, resource) + |Pending(sha, s', resource)|
            <= Executions(s.runs, resource) + |Pending(sha, s, resource)|
    ensures Executions(s.runs, resource) <= Executions(s'.runs, resource)
  {
    var before, after := Pending(sha, s, resource), Pending(sha, s', resource);
    SubsetSize(after, before);
    if s'.runs != s.runs && s'.runs.last.resource == resource {
      SubsetSize(after, before - {s'.runs.last.id});
    }
  }

  lemma {:induction false} SubsetSize(a: set<nat>, b: set<nat>)
    requires a <= b
    ensures |a| <= |b|
  {
    if a != {} {
      var x :| x in a;
      SubsetSize(a - {x}, b - {x});
    }
  }

  /**
   While a response stays stored, the handler runs at most once more for every request
   that is past its lookup now: whatever arrives, crashes, loses answers or loses locks.
   */
  lemma {:induction false} AtMostPendingRunAgain(sha: Hash, s: State, resource: string, later: Run<Event>)
    requires resource in s.responses && Keeps(later, resource)
    ensures var s' := Continue(sha, s, later);
            && resource in s'.responses
            && Executions(s.runs, resource) <= Executions(s'.runs, resource)
            && Executions(s'.runs, resource) + |Pending(sha, s', resource)|
               <= Executions(s.runs, resource) + |Pending(sha, s, resource)|
  {
    if later.Then? {
      var before := Continue(sha, s, later.past);
      AtMostPendingRunAgain(sha, s, resource, later.past);
      StepDrains(sha, before, later.last, resource);
      DrainsCounts(sha, before, Step(sha, before, later.last), resource);
      hide Step, Pending, Executions;
    }
  }

  /** Some token has not been used. */
  lemma {:induction false} FreshToken(used: set<string>) returns (token: string)
    ensures token != "" && forall t | t in used :: |t| < |token|
    decreases |used|
  {
    token := "a";
    if used != {} {
      var u :| u in used;
      var longer := FreshToken(used - {u});
      token := longer + u;
      assert forall t | t in used :: t == u || t in used - {u};
    }
  }

  /** The lock expires if it is taken, and the request goes through the handler. */
  function GoOn(p: Phase, id: nat, resource: string, token: string): Run<Event> {
    var locked := if p.Missed? then Then(Then(Start, LockExpires(resource)), TakeLock(id, token, Answered)) else Start;
    var running := if p.Running? then locked else Then(locked, Begin(id));
    Then(running, End(id, Returned(false, Response(200, "", ""), true)))
  }

  lemma GoOnKeeps(p: Phase, id: nat, resource: string, token: string)
    ensures Keeps(GoOn(p, id, resource, token), resource)
  {
    var locked := if p.Missed? then Then(Then(Start, LockExpires(resource)), TakeLock(id, token, Answered)) else Start;
    assert Keeps(if p.Missed? then locked.past else Start, resource) && Keeps(locked, resource);
    assert Keeps(GoOn(p, id, resource, token).past, resource);
  }

  lemma GoesThrough(sha: Hash, s: State, id: nat, resource: string, token: string)
    requires Pends(sha, s, resource, id) && token !in s.owner
    ensures var later := GoOn(s.requests[id].phase, id, resource, token);
            && Keeps(later, resource)
            && Executions(Continue(sha, s, later).runs, resource) == Executions(s.runs, resource) + 1
  {
    hide Resource, Admit;
    var p := s.requests[id].phase;
    var later := GoOn(p, id, resource, token);
    var last := Continue(sha, s, later.past);
    GoOnKeeps(p, id, resource, token);
    GetsToRun(sha, s, id, resource, token);
    assert Continue(sha, s, later) == Step(sha, last, End(id, Returned(false, Response(200, "", ""), true)));
  }

  lemma Locks(sha: Hash, s: State, id: nat, resource: string, token: string)
    requires Pends(sha, s, resource, id) && s.requests[id].phase.Missed? && token !in s.owner
    ensures var s' := Step(sha, Step(sha, s, LockExpires(resource)), TakeLock(id, token, Answered));
            && id in s'.requests && s'.requests[id].request == s.requests[id].request
            && s'.requests[id].phase.Locked? && s'.runs == s.runs
  {
    hide Resource;
  }

  lemma GetsToRun(sha: Hash, s: State, id: nat, resource: string, token: string)
    requires Pends(sha, s, resource, id) && token !in s.owner
    ensures var s' := Continue(sha, s, GoOn(s.requests[id].phase, id, resource, token).past);
            && id in s'.requests && s'.requests[id].request == s.requests[id].request
            && s'.requests[id].phase.Running? && s'.runs == s.runs
  {
    assert Continue(sha, s, Start) == s;
    if s.requests[id].phase.Missed? {
      var free := Step(sha, s, LockExpires(resource));
      assert Continue(sha, s, Then(Start, LockExpires(resource))) == free;
      Locks(sha, s, id, resource, token);
      hide Resource, DoTakeLock, DoLookUp, DoEnd, DoStore, DoRelease;
      var locked := Step(sha, free, TakeLock(id, token, Answered));
      assert Continue(sha, s, Then(Then(Start, LockExpires(resource)), TakeLock(id, token, Answered))) == locked;
    } else {
      hide Resource, DoTakeLock, DoLookUp, DoEnd, DoStore, DoRelease;
    }
  }

  /**
   The stored response is not looked up again under the lock.  So, with a response stored
   and for as long as it is, the handler is never run again for the resource exactly when
   no request for it is past its lookup and not yet through the handler.
   */
  lemma {:induction false} NeverRunsAgainExactlyWhen(sha: Hash, s: State, resource: string)
    requires resource in s.responses
    ensures NeverRunsAgain(sha, s, resource) <==> forall id | id in s.requests :: !Pends(sha, s, resource, id)
  {
    if forall id | id in s.requests :: !Pends(sha, s, resource, id) {
      assert Pending(sha, s, resource) == {};
      forall later | Keeps(later, resource)
        ensures Executions(Continue(sha, s, later).runs, resource) == Executions(s.runs, resource)
      {
        AtMostPendingRunAgain(sha, s, resource, later);
      }
    } else {
      var id :| id in s.requests && Pends(sha, s, resource, id);
      var token := FreshToken(s.owner.Keys);
      GoesThrough(sha, s, id, resource, token);
    }
  }

  ghost predicate NeverRunsAgain(sha: Hash, s: State, resource: string) {
    forall later :: Keeps(later, resource) ==>
      Executions(Continue(sha, s, later).runs, resource) == Executions(s.runs, resource)
  }
}
