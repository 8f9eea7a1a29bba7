/**
 The idempotency handler as the server executes it: each method is one step of one
 request, changing the Redis keys and the request's own progress in place.  Every
 method is one step of the protocol state machine in module Idempotency.
 */
module IdempotencyGateway {
  import opened Idempotency
  import opened Wrappers

  class Gateway {
    const sha: Hash
    var locks: map<string, string>
    var responses: map<string, Stored>
    var requests: map<nat, Live>
    var clock: nat
    var owner: map<string, nat>
    var expired: set<string>
    var runs: Run<Execution>

    constructor (sha: Hash)
      ensures this.sha == sha && View() == INITIAL_STATE
    {
      this.sha := sha;
      locks, responses, requests, clock, owner, expired, runs := map[], map[], map[], 0, map[], {}, Start;
    }

    function View(): State
      reads this
    {
      State(locks, responses, requests, clock, owner, expired, runs)
    }

    method Advance(id: nat, phase: Phase)
      requires id in requests
      modifies this`requests, this`clock
      ensures View() == Move(old(View()), id, phase).(clock := old(clock) + 1)
    {
      requests := requests[id := requests[id].(phase := phase)];
      clock := clock + 1;
    }

    /** The checks on the request, then GET of the stored response. */
    method LookUpResponse(id: nat, fails: bool)
      requires id in requests && requests[id].phase.Arrived?
      modifies this
      ensures View() == Step(sha, old(View()), LookUp(id, fails))
    {
      var r := requests[id].request;
      if IsSafeMethod(r.verb) || r.key == "" {
        Advance(id, Done(PassedThrough));
        return;
      }
      if !ValidKey(r.key) {
        Advance(id, Done(KeyInvalid));
        return;
      }
      if r.userId == "" {
        Advance(id, Done(Unauthorized));
        return;
      }
      if fails {
        Advance(id, Done(Unavailable));
        return;
      }
      var responseKey := Resource(sha, r);
      if responseKey !in responses {
        Advance(id, Missed(clock));
        return;
      }
      var stored := responses[responseKey];
      if stored.hash == "" {
        Advance(id, Done(StateInvalid));
      } else if stored.hash != sha(r.body) {
        Advance(id, Done(KeyReused));
      } else {
        Advance(id, Done(Replayed(stored.response)));
      }
    }

    /** SETNX of the lock with a fresh token. */
    method AcquireLock(id: nat, token: string, net: Net)
      requires id in requests && requests[id].phase.Missed? && token !in owner
      modifies this
      ensures View() == Step(sha, old(View()), TakeLock(id, token, net))
    {
      var lockKey := Resource(sha, requests[id].request);
      var lookedAt := requests[id].phase.lookedAt;
      var acquired := lockKey !in locks;
      if acquired && net != NotApplied {
        locks := locks[lockKey := token];
        owner := owner[token := id];
      }
      if net != Answered {
        Advance(id, Done(Unavailable));
      } else if !acquired {
        Advance(id, Done(InProgress));
      } else {
        Advance(id, Locked(lookedAt, token));
      }
    }

    /** SET of the response, when there is one worth keeping. */
    method StoreResponse(id: nat, net: Net)
      requires id in requests && requests[id].phase.Ran?
      modifies this
      ensures View() == Step(sha, old(View()), Store(id, net))
    {
      var Live(r, phase) := requests[id];
      match phase.outcome {
        case Panicked =>
        case Returned(failed, response, encodes) =>
          if !failed && response.status < 500 && |response.body| <= MAX_STORED_BODY {
            if encodes && net != NotApplied {
              responses := responses[Resource(sha, r) := Stored(sha(r.body), response, clock)];
            }
          }
      }
      Advance(id, Releasing(phase.lookedAt, phase.token, phase.outcome));
    }

    /** The deferred release script. */
    method ReleaseLock(id: nat, net: Net)
      requires id in requests && requests[id].phase.Releasing?
      modifies this
      ensures View() == Step(sha, old(View()), Release(id, net))
    {
      var Live(r, phase) := requests[id];
      var lockKey := Resource(sha, r);
      if net != NotApplied {
        if lockKey in locks && locks[lockKey] == phase.token {
          locks := locks - {lockKey};
        }
      }
      Advance(id, Done(Handled(phase.outcome)));
    }
  }
}
