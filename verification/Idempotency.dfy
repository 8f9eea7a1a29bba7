/**
 Replay protection for mutations that carry an Idempotency-Key.  Any number of
 requests run the handler's steps interleaved: look up a stored response, take a
 lock, run the wrapped handler, store its response, release the lock by token.
 Redis commands may fail before or after taking effect, a server may die between
 any two steps, and locks and stored responses may expire at any time.
 */
module Idempotency {
  import opened Wrappers

  const MAX_KEY_LENGTH := 128
  const MAX_STORED_BODY := 512 * 1024

  /** `key` is the trimmed header value, "" when the header is absent. */
  datatype Request = Request(verb: string, path: string, key: string, userId: string, body: string)

  datatype Response = Response(status: int, contentType: string, body: string)

  /** What the wrapped handler did; `encodes` says whether its response can be marshalled. */
  datatype Outcome = Panicked | Returned(failed: bool, response: Response, encodes: bool)

  datatype Reply =
    | PassedThrough
    | KeyInvalid
    | Unauthorized
    | StateInvalid
    | KeyReused
    | Unavailable
    | InProgress
    | Replayed(response: Response)
    | Handled(outcome: Outcome)

  /** Where a request stands.  `lookedAt` is when it found no stored response. */
  datatype Phase =
    | Arrived
    | Missed(lookedAt: nat)
    | Locked(lookedAt: nat, token: string)
    | Running(lookedAt: nat, token: string)
    | Ran(lookedAt: nat, token: string, outcome: Outcome)
    | Releasing(lookedAt: nat, token: string, outcome: Outcome)
    | Done(reply: Reply)
    | Dead

  datatype Live = Live(request: Request, phase: Phase)

  datatype Stored = Stored(hash: string, response: Response, storedAt: nat)

  datatype Execution = Execution(id: nat, resource: string, hash: string, response: Response)

  /** Redis (`locks`, `responses`), the requests in flight, and the history the properties speak of. */
  datatype State = State(
    locks: map<string, string>,
    responses: map<string, Stored>,
    requests: map<nat, Live>,
    clock: nat,
    owner: map<string, nat>,
    expired: set<string>,
    runs: Run<Execution>)

  /** How a Redis command ended: answered, never applied, or applied with the answer lost. */
  datatype Net = Answered | NotApplied | AnswerLost

  datatype Event =
    | Arrive(id: nat, request: Request)
    | LookUp(id: nat, fails: bool)
    | TakeLock(id: nat, token: string, net: Net)
    | Begin(id: nat)
    | End(id: nat, outcome: Outcome)
    | Store(id: nat, net: Net)
    | Release(id: nat, net: Net)
    | Crash(id: nat)
    | LockExpires(resource: string)
    | ResponseExpires(resource: string)

  const INITIAL_STATE := State(map[], map[], map[], 0, map[], {}, Start)

  predicate IsSafeMethod(verb: string) {
    verb == "GET" || verb == "HEAD" || verb == "OPTIONS"
  }

  predicate ValidKeyChar(c: char) {
    'a' <= c <= 'z' || 'A' <= c <= 'Z' || '0' <= c <= '9' || c == '-' || c == '_' || c == '.' || c == ':'
  }

  predicate ValidKey(key: string) {
    |key| <= MAX_KEY_LENGTH && forall i | 0 <= i < |key| :: ValidKeyChar(key[i])
  }

  /** The checks made before Redis is consulted: a final reply, or None for a request that is guarded. */
  function Admit(r: Request): (a: Option<Reply>)
    ensures a.Some? ==> a.value.PassedThrough? || a.value.KeyInvalid? || a.value.Unauthorized?
  {
    if IsSafeMethod(r.verb) || r.key == "" then Some(PassedThrough)
    else if !ValidKey(r.key) then Some(KeyInvalid)
    else if r.userId == "" then Some(Unauthorized)
    else None
  }

  const NUL: string := [0 as char]

  function ResourceText(r: Request): string {
    r.userId + NUL + r.verb + NUL + r.path + NUL + r.key
  }

  type Hash = string -> string

  function Resource(sha: Hash, r: Request): string {
    sha(ResourceText(r))
  }

  predicate Storable(o: Outcome) {
    o.Returned? && !o.failed && o.response.status < 500 && |o.response.body| <= MAX_STORED_BODY && o.encodes
  }

  function At(s: State, id: nat): Phase {
    if id in s.requests then s.requests[id].phase else Dead
  }

  function Move(s: State, id: nat, phase: Phase): State
    requires id in s.requests
  {
    s.(requests := s.requests[id := s.requests[id].(phase := phase)])
  }

  function DoLookUp(sha: Hash, s: State, id: nat, fails: bool): State {
    if !At(s, id).Arrived? then s
    else
      var r := s.requests[id].request;
      var resource := Resource(sha, r);
      if Admit(r).Some? then Move(s, id, Done(Admit(r).value))
      else if fails then Move(s, id, Done(Unavailable))
      else if resource !in s.responses then Move(s, id, Missed(s.clock))
      else
        var stored := s.responses[resource];
        if stored.hash == "" then Move(s, id, Done(StateInvalid))
        else if stored.hash != sha(r.body) then Move(s, id, Done(KeyReused))
        else Move(s, id, Done(Replayed(stored.response)))
  }

  /** SETNX with a token that was never used before. */
  function DoTakeLock(sha: Hash, s: State, id: nat, token: string, net: Net): State {
    var phase := At(s, id);
    if !phase.Missed? || token in s.owner then s
    else
      var resource := Resource(sha, s.requests[id].request);
      var free := resource !in s.locks;
      var s' := if free && !net.NotApplied?
                then s.(locks := s.locks[resource := token], owner := s.owner[token := id]) else s;
      if !net.Answered? then Move(s', id, Done(Unavailable))
      else if free then Move(s', id, Locked(phase.lookedAt, token))
      else Move(s', id, Done(InProgress))
  }

  function DoEnd(sha: Hash, s: State, id: nat, outcome: Outcome): State {
    var phase := At(s, id);
    if !phase.Running? then s
    else
      var r := s.requests[id].request;
      var s' := Move(s, id, Ran(phase.lookedAt, phase.token, outcome));
      if outcome.Panicked? then s'
      else s'.(runs := Then(s.runs, Execution(id, Resource(sha, r), sha(r.body), outcome.response)))
  }

  function DoStore(sha: Hash, s: State, id: nat, net: Net): State {
    var phase := At(s, id);
    if !phase.Ran? then s
    else
      var r := s.requests[id].request;
      var s' := Move(s, id, Releasing(phase.lookedAt, phase.token, phase.outcome));
      if Storable(phase.outcome) && !net.NotApplied?
      then s'.(responses := s.responses[Resource(sha, r) := Stored(sha(r.body), phase.outcome.response, s.clock)])
      else s'
  }

  /** The release script: delete the lock only if it still holds this request's token. */
  function DoRelease(sha: Hash, s: State, id: nat, net: Net): State {
    var phase := At(s, id);
    if !phase.Releasing? then s
    else
      var resource := Resource(sha, s.requests[id].request);
      var s' := Move(s, id, Done(Handled(phase.outcome)));
      if !net.NotApplied? && resource in s.locks && s.locks[resource] == phase.token
      then s'.(locks := s.locks - {resource}) else s'
  }

  function Act(sha: Hash, s: State, e: Event): State {
    match e
    case Arrive(id, r) =>
      if id in s.requests then s else s.(requests := s.requests[id := Live(r, Arrived)])
    case LookUp(id, fails) => DoLookUp(sha, s, id, fails)
    case TakeLock(id, token, net) => DoTakeLock(sha, s, id, token, net)
    case Begin(id) =>
      var phase := At(s, id);
      if phase.Locked? then Move(s, id, Running(phase.lookedAt, phase.token)) else s
    case End(id, outcome) => DoEnd(sha, s, id, outcome)
    case Store(id, net) => DoStore(sha, s, id, net)
    case Release(id, net) => DoRelease(sha, s, id, net)
    case Crash(id) => if id in s.requests && !At(s, id).Done? then Move(s, id, Dead) else s
    case LockExpires(resource) =>
      if resource in s.locks
      then s.(locks := s.locks - {resource}, expired := s.expired + {s.locks[resource]}) else s
    case ResponseExpires(resource) => s.(responses := s.responses - {resource})
  }

  function Step(sha: Hash, s: State, e: Event): State {
    Act(sha, s, e).(clock := s.clock + 1)
  }

  function After(sha: Hash, run: Run<Event>): State {
    match run
    case Start => INITIAL_STATE
    case Then(past, e) => Step(sha, After(sha, past), e)
  }

  // ---------------------------------------------------------------- the invariant

  predicate Holding(p: Phase) {
    p.Locked? || p.Running? || p.Ran? || p.Releasing?
  }

  predicate PastLookUp(p: Phase) {
    p.Missed? || Holding(p)
  }

  /** Some handler run returned this response for this resource and body hash. */
  predicate Produced(runs: Run<Execution>, resource: string, hash: string, response: Response) {
    runs.Then? &&
    ((runs.last.resource == resource && runs.last.hash == hash && runs.last.response == response)
     || Produced(runs.past, resource, hash, response))
  }

  /** What every step keeps true of one request. */
  predicate Sound(sha: Hash, s: State, id: nat)
    requires id in s.requests
  {
    var Live(r, phase) := s.requests[id];
    var resource := Resource(sha, r);
    && (Holding(phase) ==>
          && phase.token in s.owner && s.owner[phase.token] == id
          && (phase.token in s.expired || (resource in s.locks && s.locks[resource] == phase.token)))
    && (PastLookUp(phase) ==>
          && phase.lookedAt < s.clock
          && (resource in s.responses ==> phase.lookedAt < s.responses[resource].storedAt))
    && ((phase.Ran? || phase.Releasing?) && phase.outcome.Returned? ==>
          Produced(s.runs, resource, sha(r.body), phase.outcome.response))
    && (phase.Done? && phase.reply.Replayed? ==>
          Produced(s.runs, resource, sha(r.body), phase.reply.response))
  }

  ghost predicate Inv(sha: Hash, s: State) {
    && StoreSound(s)
    && (forall id | id in s.requests :: Sound(sha, s, id))
  }

  /** What a step of request `id` may do to everything else. */
  ghost predicate Advances(s: State, s': State, id: nat) {
    && s'.clock == s.clock + 1
    && (s'.runs == s.runs || (s'.runs.Then? && s'.runs.past == s.runs))
    && (forall t | t in s.owner :: t in s'.owner && s'.owner[t] == s.owner[t])
    && (forall t | t in s.expired :: t in s'.expired)
    && (forall k | k in s'.responses ::
          (k in s.responses && s'.responses[k] == s.responses[k]) || s'.responses[k].storedAt == s.clock)
    && (forall k | k in s.locks ::
          (k in s'.locks && s'.locks[k] == s.locks[k]) || (s.locks[k] in s.owner && s.owner[s.locks[k]] == id))
    && s'.requests.Keys == s.requests.Keys + {id}
    && (forall i | i in s.requests && i != id :: s'.requests[i] == s.requests[i])
  }

  lemma OthersStaySound(sha: Hash, s: State, s': State, id: nat, i: nat)
    requires Advances(s, s', id) && i in s.requests && i != id && Sound(sha, s, i)
    ensures Sound(sha, s', i)
  {}

  ghost predicate StoreSound(s: State) {
    && (forall k | k in s.locks :: s.locks[k] in s.owner)
    && (forall k | k in s.responses ::
          var stored := s.responses[k];
          stored.storedAt < s.clock && Produced(s.runs, k, stored.hash, stored.response))
  }

  lemma AdvanceKeepsInv(sha: Hash, s: State, s': State, id: nat)
    requires Inv(sha, s) && Advances(s, s', id) && StoreSound(s') && Sound(sha, s', id)
    ensures Inv(sha, s')
  {
    hide Sound;
    forall i | i in s'.requests ensures Sound(sha, s', i) {
      if i != id {
        OthersStaySound(sha, s, s', id, i);
      }
    }
  }

  /** A step that only moves request `id` to another phase. */
  lemma MoveAdvances(sha: Hash, s: State, id: nat, phase: Phase)
    requires Inv(sha, s) && id in s.requests
    ensures var s' := Move(s, id, phase).(clock := s.clock + 1); Advances(s, s', id) && StoreSound(s')
  {}

  lemma LookUpSound(sha: Hash, s: State, id: nat, fails: bool)
    requires StoreSound(s) && id in s.requests && s.requests[id].phase.Arrived?
    ensures Sound(sha, Step(sha, s, LookUp(id, fails)), id)
  {
    hide Admit, ResourceText;
    var r := s.requests[id].request;
    if Resource(sha, r) in s.responses {
      var stored := s.responses[Resource(sha, r)];
      assert Produced(s.runs, Resource(sha, r), stored.hash, stored.response);
    }
  }

  lemma LookUpAdvances(sha: Hash, s: State, id: nat, fails: bool)
    requires Inv(sha, s) && id in s.requests
    ensures var s' := Step(sha, s, LookUp(id, fails)); Advances(s, s', id) && StoreSound(s') && Sound(sha, s', id)
  {
    hide Advances, StoreSound, Sound, Admit, Resource;
    var s' := Step(sha, s, LookUp(id, fails));
    if s.requests[id].phase.Arrived? {
      LookUpSound(sha, s, id, fails);
    } else {
      IdleSound(sha, s, id);
    }
    MoveAdvances(sha, s, id, s'.requests[id].phase);
    assert s' == Move(s, id, s'.requests[id].phase).(clock := s.clock + 1);
  }

  lemma IdleSound(sha: Hash, s: State, id: nat)
    requires Inv(sha, s) && id in s.requests
    ensures Sound(sha, s.(clock := s.clock + 1), id)
  {
    assert Sound(sha, s, id);
  }

  /** A successful SETNX, whether or not its answer arrives. */
  lemma LockAdvances(sha: Hash, s: State, id: nat, resource: string, token: string, phase: Phase)
    requires Inv(sha, s) && id in s.requests && resource !in s.locks && token !in s.owner
    ensures var s' := Move(s.(locks := s.locks[resource := token], owner := s.owner[token := id]), id,
        phase).(clock := s.clock + 1);
            Advances(s, s', id) && StoreSound(s')
  {}

  lemma TakeLockSound(sha: Hash, s: State, id: nat, token: string, net: Net)
    requires Inv(sha, s) && id in s.requests
    ensures Sound(sha, Step(sha, s, TakeLock(id, token, net)), id)
  {
    assert Sound(sha, s, id);
  }

  lemma TakeLockAdvances(sha: Hash, s: State, id: nat, token: string, net: Net)
    requires Inv(sha, s) && id in s.requests
    ensures var s' := Step(sha, s, TakeLock(id, token, net));
        Advances(s, s', id) && StoreSound(s') && Sound(sha, s', id)
  {
    hide Advances, StoreSound, Sound;
    var s' := Step(sha, s, TakeLock(id, token, net));
    TakeLockSound(sha, s, id, token, net);
    var resource, phase := Resource(sha, s.requests[id].request), s'.requests[id].phase;
    if s.requests[id].phase.Missed? && token !in s.owner && resource !in s.locks && !net.NotApplied? {
      LockAdvances(sha, s, id, resource, token, phase);
    } else {
      MoveAdvances(sha, s, id, phase);
      assert s' == Move(s, id, phase).(clock := s.clock + 1);
    }
  }

  lemma BeginAdvances(sha: Hash, s: State, id: nat)
    requires Inv(sha, s) && id in s.requests
    ensures var s' := Step(sha, s, Begin(id)); Advances(s, s', id) && StoreSound(s') && Sound(sha, s', id)
  {
    hide Advances, StoreSound;
    var s' := Step(sha, s, Begin(id));
    MoveAdvances(sha, s, id, s'.requests[id].phase);
    assert s' == Move(s, id, s'.requests[id].phase).(clock := s.clock + 1);
    assert Sound(sha, s, id);
  }

  lemma EndStepSound(sha: Hash, s: State, id: nat, outcome: Outcome)
    requires Inv(sha, s) && id in s.requests
    ensures Sound(sha, Step(sha, s, End(id, outcome)), id)
  {
    hide StoreSound, ResourceText;
    assert Sound(sha, s, id);
  }

  lemma EndAdvances(sha: Hash, s: State, id: nat, outcome: Outcome)
    requires Inv(sha, s) && id in s.requests
    ensures var s' := Step(sha, s, End(id, outcome)); Advances(s, s', id) && StoreSound(s') && Sound(sha, s', id)
  {
    EndStepSound(sha, s, id, outcome);
    hide Sound, Resource;
  }

  lemma StoreStepSound(sha: Hash, s: State, id: nat, net: Net)
    requires Inv(sha, s) && id in s.requests
    ensures Sound(sha, Step(sha, s, Store(id, net)), id)
  {
    hide StoreSound, ResourceText;
    assert Sound(sha, s, id);
  }

  /** A SET of what a handler run has produced. */
  lemma PutAdvances(sha: Hash, s: State, id: nat, resource: string, stored: Stored, phase: Phase)
    requires Inv(sha, s) && id in s.requests && stored.storedAt == s.clock
    requires Produced(s.runs, resource, stored.hash, stored.response)
    ensures var s' := Move(s.(responses := s.responses[resource := stored]), id, phase).(clock := s.clock + 1);
            Advances(s, s', id) && StoreSound(s')
  {}

  /** What a store comes to: a SET of what the request's handler has produced, or nothing but the move. */
  predicate Puts(sha: Hash, s: State, s': State, id: nat)
    requires id in s.requests && id in s'.requests
  {
    var Live(r, phase) := s.requests[id];
    || s' == Move(s, id, s'.requests[id].phase).(clock := s.clock + 1)
    || (phase.Ran? && phase.outcome.Returned? &&
        var stored := Stored(sha(r.body), phase.outcome.response, s.clock);
        s' == Move(s.(responses := s.responses[Resource(sha, r) := stored]), id, s'.requests[id].phase).(
                clock := s.clock + 1))
  }

  lemma StorePuts(sha: Hash, s: State, id: nat, net: Net)
    requires id in s.requests
    ensures var s' := Step(sha, s, Store(id, net)); id in s'.requests && Puts(sha, s, s', id)
  {
    hide Resource;
  }

  lemma StoreAdvances(sha: Hash, s: State, id: nat, net: Net)
    requires Inv(sha, s) && id in s.requests
    ensures var s' := Step(sha, s, Store(id, net)); Advances(s, s', id) && StoreSound(s') && Sound(sha, s', id)
  {
    assert Sound(sha, s, id);
    hide Advances, StoreSound, Produced, Resource, Step;
    var s' := Step(sha, s, Store(id, net));
    var Live(r, phase) := s.requests[id];
    StoreStepSound(sha, s, id, net);
    StorePuts(sha, s, id, net);
    MoveAdvances(sha, s, id, s'.requests[id].phase);
    if phase.Ran? && phase.outcome.Returned? {
      PutAdvances(sha, s, id, Resource(sha, r), Stored(sha(r.body), phase.outcome.response, s.clock),
                  s'.requests[id].phase);
    }
  }

  lemma ReleaseStepSound(sha: Hash, s: State, id: nat, net: Net)
    requires Inv(sha, s) && id in s.requests
    ensures Sound(sha, Step(sha, s, Release(id, net)), id)
  {
    hide StoreSound, ResourceText;
    assert Sound(sha, s, id);
  }

  /** A DEL of the request's own lock. */
  lemma UnlockAdvances(sha: Hash, s: State, id: nat, resource: string, phase: Phase)
    requires Inv(sha, s) && id in s.requests && resource in s.locks
    requires s.locks[resource] in s.owner && s.owner[s.locks[resource]] == id
    ensures var s' := Move(s.(locks := s.locks - {resource}), id, phase).(clock := s.clock + 1);
            Advances(s, s', id) && StoreSound(s')
  {}

  /** What a release comes to: a DEL of the lock with the request's token, or nothing but the move. */
  predicate Unlocks(sha: Hash, s: State, s': State, id: nat)
    requires id in s.requests && id in s'.requests
  {
    var Live(r, phase) := s.requests[id];
    || s' == Move(s, id, s'.requests[id].phase).(clock := s.clock + 1)
    || (phase.Releasing? && Resource(sha, r) in s.locks && s.locks[Resource(sha, r)] == phase.token &&
        s' == Move(s.(locks := s.locks - {Resource(sha, r)}), id, s'.requests[id].phase).(clock := s.clock + 1))
  }

  lemma ReleaseUnlocks(sha: Hash, s: State, id: nat, net: Net)
    requires id in s.requests
    ensures var s' := Step(sha, s, Release(id, net)); id in s'.requests && Unlocks(sha, s, s', id)
  {
    hide Resource;
  }

  lemma ReleaseAdvances(sha: Hash, s: State, id: nat, net: Net)
    requires Inv(sha, s) && id in s.requests
    ensures var s' := Step(sha, s, Release(id, net)); Advances(s, s', id) && StoreSound(s') && Sound(sha, s', id)
  {
    assert Sound(sha, s, id);
    hide Advances, StoreSound, Produced, Resource, Step;
    var s' := Step(sha, s, Release(id, net));
    var Live(r, phase) := s.requests[id];
    ReleaseStepSound(sha, s, id, net);
    ReleaseUnlocks(sha, s, id, net);
    MoveAdvances(sha, s, id, s'.requests[id].phase);
    if phase.Releasing? && Resource(sha, r) in s.locks && s.locks[Resource(sha, r)] == phase.token {
      UnlockAdvances(sha, s, id, Resource(sha, r), s'.requests[id].phase);
    }
  }

  lemma CrashAdvances(sha: Hash, s: State, id: nat)
    requires Inv(sha, s) && id in s.requests
    ensures var s' := Step(sha, s, Crash(id)); Advances(s, s', id) && StoreSound(s') && Sound(sha, s', id)
  {
    hide Advances, StoreSound;
    var s' := Step(sha, s, Crash(id));
    MoveAdvances(sha, s, id, s'.requests[id].phase);
    assert s' == Move(s, id, s'.requests[id].phase).(clock := s.clock + 1);
    assert Sound(sha, s, id);
  }

  lemma ArriveAdvances(sha: Hash, s: State, id: nat, r: Request)
    requires Inv(sha, s)
    ensures var s' := Step(sha, s, Arrive(id, r)); Advances(s, s', id) && StoreSound(s') && Sound(sha, s', id)
  {
    assert id in s.requests ==> Sound(sha, s, id);
  }

  /** Time passes, or a key expires: every request stays sound. */
  lemma EnvironmentKeepsInv(sha: Hash, s: State, e: Event)
    requires Inv(sha, s) && Act(sha, s, e).requests == s.requests
    requires Act(sha, s, e) == s || e.LockExpires? || e.ResponseExpires?
    ensures Inv(sha, Step(sha, s, e))
  {
    var s' := Step(sha, s, e);
    forall i | i in s'.requests ensures Sound(sha, s', i) {
      assert Sound(sha, s, i);
    }
  }

  lemma {:induction false} StepKeepsInv(sha: Hash, s: State, e: Event)
    requires Inv(sha, s)
    ensures Inv(sha, Step(sha, s, e))
  {
    hide Inv, Sound, Advances, StoreSound, Step;
    var s' := Step(sha, s, e);
    match e
    case LockExpires(_) => EnvironmentKeepsInv(sha, s, e);
    case ResponseExpires(_) => EnvironmentKeepsInv(sha, s, e);
    case Arrive(id, r) =>
      ArriveAdvances(sha, s, id, r);
      AdvanceKeepsInv(sha, s, s', id);
    case _ =>
      if e.id !in s.requests {
        EnvironmentKeepsInv(sha, s, e);
      } else {
        match e {
          case LookUp(id, fails) => LookUpAdvances(sha, s, id, fails);
          case TakeLock(id, token, net) => TakeLockAdvances(sha, s, id, token, net);
          case Begin(id) => BeginAdvances(sha, s, id);
          case End(id, outcome) => EndAdvances(sha, s, id, outcome);
          case Store(id, net) => StoreAdvances(sha, s, id, net);
          case Release(id, net) => ReleaseAdvances(sha, s, id, net);
          case Crash(id) => CrashAdvances(sha, s, id);
        }
        AdvanceKeepsInv(sha, s, s', e.id);
      }
  }

  lemma {:induction false} AlwaysInv(sha: Hash, run: Run<Event>)
    ensures Inv(sha, After(sha, run))
  {
    if run.Then? {
      AlwaysInv(sha, run.past);
      StepKeepsInv(sha, After(sha, run.past), run.last);
    }
  }

  // ---------------------------------------------------------------- mutual exclusion

  /**
   Two handlers for one resource are in progress at once only if the lock of one of
   them expired while it was still at work.
   */
  lemma {:induction false} OverlapNeedsExpiry(sha: Hash, run: Run<Event>, a: nat, b: nat)
    requires var s := After(sha, run);
             && a in s.requests && b in s.requests && a != b
             && Holding(s.requests[a].phase) && Holding(s.requests[b].phase)
             && Resource(sha, s.requests[a].request) == Resource(sha, s.requests[b].request)
    ensures var s := After(sha, run);
            s.requests[a].phase.token in s.expired || s.requests[b].phase.token in s.expired
  {
    AlwaysInv(sha, run);
    var s := After(sha, run);
    assert Sound(sha, s, a) && Sound(sha, s, b);
  }

  predicate NoLockExpires(run: Run<Event>) {
    run.Then? ==> NoLockExpires(run.past) && !run.last.LockExpires?
  }

  lemma OnlyLockExpiryExpires(sha: Hash, s: State, e: Event)
    requires !e.LockExpires?
    ensures Step(sha, s, e).expired == s.expired
  {
    hide Admit, Resource;
  }

  lemma {:induction false} NothingExpired(sha: Hash, run: Run<Event>)
    requires NoLockExpires(run)
    ensures After(sha, run).expired == {}
  {
    if run.Then? {
      NothingExpired(sha, run.past);
      OnlyLockExpiryExpires(sha, After(sha, run.past), run.last);
    }
  }

  /** As long as no lock expires, handlers for one resource never overlap, however the steps interleave. */
  lemma MutualExclusion(sha: Hash, run: Run<Event>, a: nat, b: nat)
    requires NoLockExpires(run)
    requires var s := After(sha, run);
             && a in s.requests && b in s.requests
             && s.requests[a].phase.Running? && s.requests[b].phase.Running?
             && Resource(sha, s.requests[a].request) == Resource(sha, s.requests[b].request)
    ensures a == b
  {
    NothingExpired(sha, run);
    if a != b {
      OverlapNeedsExpiry(sha, run, a, b);
    }
  }

  /** The lock of a request that is at work and has not lost it. */
  predicate HasLock(sha: Hash, s: State, id: nat) {
    && id in s.requests && Holding(s.requests[id].phase)
    && var resource := Resource(sha, s.requests[id].request);
       resource in s.locks && s.locks[resource] == s.requests[id].phase.token
  }

  /** Even when locks do expire, a release never takes away a lock that another request holds. */
  lemma ReleaseOnlyOwnLock(sha: Hash, run: Run<Event>, id: nat, net: Net, other: nat)
    requires other != id && HasLock(sha, After(sha, run), other)
    ensures HasLock(sha, After(sha, Then(run, Release(id, net))), other)
  {
    AlwaysInv(sha, run);
    hide Inv;
    ReleaseKeepsOthers(sha, After(sha, run), id, net, other);
  }

  lemma ReleaseKeepsOthers(sha: Hash, s: State, id: nat, net: Net, other: nat)
    requires Inv(sha, s) && other != id && HasLock(sha, s, other)
    ensures HasLock(sha, Step(sha, s, Release(id, net)), other)
  {
    hide Admit, Produced, StoreSound;
    assert Sound(sha, s, other) && (id in s.requests ==> Sound(sha, s, id));
  }

  // ---------------------------------------------------------------- replays

  predicate HasRun(p: Phase) {
    p.Ran? || p.Releasing? || p.Dead? || (p.Done? && p.reply.Handled?)
  }

  /** This is the run of a guarded request with that resource and body hash. */
  predicate RunOf(sha: Hash, requests: map<nat, Live>, x: Execution) {
    && x.id in requests && HasRun(requests[x.id].phase)
    && Admit(requests[x.id].request).None?
    && Resource(sha, requests[x.id].request) == x.resource
    && sha(requests[x.id].request.body) == x.hash
  }

  predicate RunsSound(sha: Hash, requests: map<nat, Live>, runs: Run<Execution>) {
    runs.Then? ==> RunsSound(sha, requests, runs.past) && RunOf(sha, requests, runs.last)
  }

  predicate RequestsGrow(before: map<nat, Live>, after: map<nat, Live>) {
    forall id | id in before ::
      && id in after && after[id].request == before[id].request
      && (HasRun(before[id].phase) ==> HasRun(after[id].phase))
  }

  lemma {:induction false} RunsStaySound(sha: Hash, before: map<nat, Live>, after: map<nat, Live>, runs: Run<Execution>)
    requires RunsSound(sha, before, runs) && RequestsGrow(before, after)
    ensures RunsSound(sha, after, runs)
  {
    if runs.Then? {
      RunsStaySound(sha, before, after, runs.past);
    }
  }

  lemma LookUpGrows(sha: Hash, s: State, id: nat, fails: bool)
    ensures RequestsGrow(s.requests, DoLookUp(sha, s, id, fails).requests)
  {
    hide Admit, Resource;
  }

  lemma TakeLockGrows(sha: Hash, s: State, id: nat, token: string, net: Net)
    ensures RequestsGrow(s.requests, DoTakeLock(sha, s, id, token, net).requests)
  {
    hide Resource;
  }

  lemma EndGrows(sha: Hash, s: State, id: nat, outcome: Outcome)
    ensures RequestsGrow(s.requests, DoEnd(sha, s, id, outcome).requests)
  {
    hide Resource;
  }

  lemma StoreGrows(sha: Hash, s: State, id: nat, net: Net)
    ensures RequestsGrow(s.requests, DoStore(sha, s, id, net).requests)
  {
    hide Resource;
  }

  lemma ReleaseGrows(sha: Hash, s: State, id: nat, net: Net)
    ensures RequestsGrow(s.requests, DoRelease(sha, s, id, net).requests)
  {
    hide Resource;
  }

  lemma StepGrows(sha: Hash, s: State, e: Event)
    ensures RequestsGrow(s.requests, Step(sha, s, e).requests)
  {
    hide DoLookUp, DoTakeLock, DoEnd, DoStore, DoRelease;
    match e
    case LookUp(id, fails) => LookUpGrows(sha, s, id, fails);
    case TakeLock(id, token, net) => TakeLockGrows(sha, s, id, token, net);
    case End(id, outcome) => EndGrows(sha, s, id, outcome);
    case Store(id, net) => StoreGrows(sha, s, id, net);
    case Release(id, net) => ReleaseGrows(sha, s, id, net);
    case _ =>
  }

  /** A request gets past the checks exactly when Admit says so. */
  predicate Checked(l: Live) {
    l.phase.Arrived? || l.phase.Dead? || Admit(l.request).None?
        || (l.phase.Done? && l.phase.reply == Admit(l.request).value)
  }

  ghost predicate AllChecked(s: State) {
    forall id | id in s.requests :: Checked(s.requests[id])
  }

  lemma {:induction false} AlwaysChecked(sha: Hash, run: Run<Event>)
    ensures AllChecked(After(sha, run))
  {
    if run.Then? {
      AlwaysChecked(sha, run.past);
      CheckedStep(sha, After(sha, run.past), run.last);
    }
  }

  lemma CheckedStep(sha: Hash, s: State, e: Event)
    requires AllChecked(s)
    ensures AllChecked(Step(sha, s, e))
  {
    hide Admit, Resource, DoLookUp, DoTakeLock, DoEnd, DoStore, DoRelease;
    match e
    case LookUp(id, fails) => LookUpChecked(sha, s, id, fails);
    case TakeLock(id, token, net) => WorkChecked(sha, s, id, token, Panicked, net);
    case End(id, outcome) => WorkChecked(sha, s, id, "", outcome, Answered);
    case Store(id, net) => WorkChecked(sha, s, id, "", Panicked, net);
    case Release(id, net) => WorkChecked(sha, s, id, "", Panicked, net);
    case _ =>
  }

  lemma LookUpChecked(sha: Hash, s: State, id: nat, fails: bool)
    requires AllChecked(s)
    ensures AllChecked(DoLookUp(sha, s, id, fails))
  {
    hide Resource, IsSafeMethod, ValidKey;
  }

  lemma WorkChecked(sha: Hash, s: State, id: nat, token: string, outcome: Outcome, net: Net)
    requires AllChecked(s)
    ensures AllChecked(DoTakeLock(sha, s, id, token, net))
    ensures AllChecked(DoEnd(sha, s, id, outcome))
    ensures AllChecked(DoStore(sha, s, id, net))
    ensures AllChecked(DoRelease(sha, s, id, net))
  {
    hide Admit, Resource;
  }

  /** A recorded run is by a guarded request at work. */
  lemma EndIsRecorded(sha: Hash, s: State, e: Event)
    requires AllChecked(s)
    ensures var s' := Step(sha, s, e);
            s'.runs == s.runs || (s'.runs.Then? && s'.runs.past == s.runs && RunOf(sha, s'.requests, s'.runs.last))
  {
    hide Admit, Resource;
  }

  lemma {:induction false} AlwaysRunsSound(sha: Hash, run: Run<Event>)
    ensures RunsSound(sha, After(sha, run).requests, After(sha, run).runs)
  {
    if run.Then? {
      hide Step, RequestsGrow, RunOf, Checked;
      var s := After(sha, run.past);
      AlwaysRunsSound(sha, run.past);
      AlwaysChecked(sha, run.past);
      StepGrows(sha, s, run.last);
      EndIsRecorded(sha, s, run.last);
      RunsStaySound(sha, s.requests, After(sha, run).requests, s.runs);
    }
  }

  lemma {:induction false} Producer(sha: Hash, requests: map<nat, Live>, runs: Run<Execution>, resource: string,
      hash: string, response: Response)
    returns (x: Execution)
    requires Produced(runs, resource, hash, response) && RunsSound(sha, requests, runs)
    ensures Occurs(runs, x) && x.resource == resource && x.hash == hash && x.response == response
    ensures RunOf(sha, requests, x)
  {
    if runs.last.resource == resource && runs.last.hash == hash && runs.last.response == response {
      x := runs.last;
    } else {
      x := Producer(sha, requests, runs.past, resource, hash, response);
    }
  }

  predicate NulFree(s: string) {
    forall i | 0 <= i < |s| :: s[i] != 0 as char
  }

  lemma FirstPart(a: string, x: string, b: string, y: string)
    requires NulFree(a) && NulFree(b) && a + NUL + x == b + NUL + y
    ensures a == b && x == y
  {
    var s := a + NUL + x;
    assert s[|a|] == 0 as char && s[|b|] == 0 as char;
    assert forall i | 0 <= i < |a| :: s[i] == a[i];
    assert forall i | 0 <= i < |b| :: s[i] == b[i];
    assert |a| == |b|;
    assert a == s[..|a|] && b == s[..|b|];
    assert x == s[|a| + 1..] && y == s[|b| + 1..];
  }

  lemma LastPart(x: string, a: string, y: string, b: string)
    requires NulFree(a) && NulFree(b) && x + NUL + a == y + NUL + b
    ensures x == y && a == b
  {
    var s := x + NUL + a;
    assert s[|x|] == 0 as char && s[|y|] == 0 as char;
    assert forall i | 0 <= i < |a| :: s[|x| + 1 + i] == a[i];
    assert forall i | 0 <= i < |b| :: s[|y| + 1 + i] == b[i];
    assert |x| == |y|;
    assert x == s[..|x|] && y == s[..|y|];
    assert a == s[|x| + 1..] && b == s[|y| + 1..];
  }

  predicate SameTarget(r: Request, q: Request) {
    r.userId == q.userId && r.verb == q.verb && r.path == q.path && r.key == q.key
  }

  /** The hashed text pins down user, method, path and key, whatever the path contains. */
  lemma ResourceTextInjective(r: Request, q: Request)
    requires NulFree(r.userId) && NulFree(q.userId) && NulFree(r.verb) && NulFree(q.verb)
    requires ValidKey(r.key) && ValidKey(q.key) && ResourceText(r) == ResourceText(q)
    ensures SameTarget(r, q)
  {
    var (rest, rest') := (r.verb + NUL + r.path, q.verb + NUL + q.path);
    assert ResourceText(r) == (r.userId + NUL + rest) + NUL + r.key;
    assert ResourceText(q) == (q.userId + NUL + rest') + NUL + q.key;
    LastPart(r.userId + NUL + rest, r.key, q.userId + NUL + rest', q.key);
    FirstPart(r.userId, rest, q.userId, rest');
    FirstPart(r.verb, r.path, q.verb, q.path);
  }

  /** Two different texts with one digest. */
  ghost predicate Collides(sha: Hash) {
    exists x, y :: Collision(sha, x, y)
  }

  predicate Collision(sha: Hash, x: string, y: string) {
    x != y && sha(x) == sha(y)
  }

  /** User ids and methods, which the server sets itself, hold no NUL. */
  predicate ServerSet(r: Request) {
    NulFree(r.userId) && NulFree(r.verb)
  }

  /**
   A replayed response is one that the handler run of another request returned, for the
   same user, method, path, key and body, unless the digest has a collision.
   */
  lemma {:induction false} ReplayIsOfSameRequest(sha: Hash, run: Run<Event>, id: nat) returns (x: Execution)
    requires var s := After(sha, run);
             && id in s.requests && s.requests[id].phase.Done? && s.requests[id].phase.reply.Replayed?
             && forall i | i in s.requests :: ServerSet(s.requests[i].request)
    ensures var s := After(sha, run);
            && Occurs(s.runs, x) && x.id in s.requests && x.id != id
            && x.response == s.requests[id].phase.reply.response
            && var r, q := s.requests[x.id].request, s.requests[id].request;
               Collides(sha) || (SameTarget(r, q) && r.body == q.body)
  {
    AlwaysInv(sha, run);
    AlwaysRunsSound(sha, run);
    AlwaysChecked(sha, run);
    var s := After(sha, run);
    assert Sound(sha, s, id);
    var q := s.requests[id].request;
    x := Producer(sha, s.requests, s.runs, Resource(sha, q), sha(q.body), s.requests[id].phase.reply.response);
    var r := s.requests[x.id].request;
    if ResourceText(r) != ResourceText(q) {
      assert Collision(sha, ResourceText(r), ResourceText(q));
    } else if r.body != q.body {
      assert Collision(sha, r.body, q.body);
    } else {
      assert Checked(s.requests[id]);
      ResourceTextInjective(r, q);
    }
  }

  // ---------------------------------------------------------------- duplicates

  /** Times are positions in the run. */
  lemma {:induction false} ClockIsPosition(sha: Hash, run: Run<Event>)
    ensures After(sha, run).clock == Length(run)
  {
    if run.Then? {
      ClockIsPosition(sha, run.past);
    }
  }

  /**
   A request that is on its way to the handler, or in it, while a response for its
   resource is stored, made its lookup before that response was stored.
   */
  lemma DuplicateLookedUpBeforeStore(sha: Hash, run: Run<Event>, id: nat)
    requires var s := After(sha, run);
             && id in s.requests && PastLookUp(s.requests[id].phase)
             && Resource(sha, s.requests[id].request) in s.responses
    ensures var s := After(sha, run);
            s.requests[id].phase.lookedAt < s.responses[Resource(sha, s.requests[id].request)].storedAt < Length(run)
  {
    AlwaysInv(sha, run);
    ClockIsPosition(sha, run);
    assert Sound(sha, After(sha, run), id);
  }

  // ---------------------------------------------------------------- a handler can run twice

  /** A request that has looked up locks and runs its handler undisturbed, ... */
  function RunAlone(run: Run<Event>, id: nat, token: string, o: Outcome): (r: Run<Event>)
    ensures NoLockExpires(run) ==> NoLockExpires(r)
  {
    var locked := Then(run, TakeLock(id, token, Answered));
    assert NoLockExpires(run) ==> NoLockExpires(locked);
    Then(Then(locked, Begin(id)), End(id, o))
  }

  /** ... then stores its response and releases the lock. */
  function FinishAlone(run: Run<Event>, id: nat): (r: Run<Event>)
    ensures NoLockExpires(run) ==> NoLockExpires(r)
  {
    Then(Then(run, Store(id, Answered)), Release(id, Answered))
  }

  lemma TakesLock(sha: Hash, s: State, id: nat, token: string)
    requires id in s.requests && s.requests[id].phase.Missed? && token !in s.owner
    requires Resource(sha, s.requests[id].request) !in s.locks
    ensures Step(sha, s, TakeLock(id, token, Answered))
            == Move(s, id, Locked(s.requests[id].phase.lookedAt, token)).(
                 locks := s.locks[Resource(sha, s.requests[id].request) := token],
                 owner := s.owner[token := id], clock := s.clock + 1)
  {
    hide Resource;
  }

  lemma RunsHandler(sha: Hash, s: State, id: nat, o: Outcome)
    requires id in s.requests && s.requests[id].phase.Locked? && o.Returned?
    ensures var Live(r, phase) := s.requests[id];
            Step(sha, Step(sha, s, Begin(id)), End(id, o))
            == Move(s, id, Ran(phase.lookedAt, phase.token, o)).(
                 runs := Then(s.runs, Execution(id, Resource(sha, r), sha(r.body), o.response)), clock := s.clock + 2)
  {
    hide Resource;
    var Live(r, phase) := s.requests[id];
    assert Step(sha, s, Begin(id)) == Move(s, id, Running(phase.lookedAt, phase.token)).(clock := s.clock + 1);
  }

  lemma StoresResponse(sha: Hash, s: State, id: nat)
    requires id in s.requests && s.requests[id].phase.Ran? && Storable(s.requests[id].phase.outcome)
    ensures var Live(r, phase) := s.requests[id];
            Step(sha, s, Store(id, Answered))
            == Move(s, id, Releasing(phase.lookedAt, phase.token, phase.outcome)).(
                 responses := s.responses[Resource(sha, r) := Stored(sha(r.body), phase.outcome.response, s.clock)],
                 clock := s.clock + 1)
  {
    hide Resource;
  }

  lemma ReleasesLock(sha: Hash, s: State, id: nat)
    requires HasLock(sha, s, id) && s.requests[id].phase.Releasing?
    ensures Step(sha, s, Release(id, Answered))
            == Move(s, id, Done(Handled(s.requests[id].phase.outcome))).(
                 locks := s.locks - {Resource(sha, s.requests[id].request)}, clock := s.clock + 1)
  {
    hide Resource;
  }

  lemma {:induction false} RunAloneRuns(sha: Hash, run: Run<Event>, id: nat, token: string, o: Outcome)
    requires var s := After(sha, run);
             && id in s.requests && s.requests[id].phase.Missed? && token !in s.owner
             && Resource(sha, s.requests[id].request) !in s.locks && o.Returned?
    ensures var s, Live(r, phase) := After(sha, run), After(sha, run).requests[id];
            var k := Resource(sha, r);
            After(sha, RunAlone(run, id, token, o))
            == Move(s, id, Ran(phase.lookedAt, token, o)).(
                 locks := s.locks[k := token], owner := s.owner[token := id],
                 runs := Then(s.runs, Execution(id, k, sha(r.body), o.response)), clock := s.clock + 3)
  {
    hide Resource, Step;
    var s := After(sha, run);
    TakesLock(sha, s, id, token);
    var locked := Then(run, TakeLock(id, token, Answered));
    assert After(sha, locked) == Step(sha, s, TakeLock(id, token, Answered));
    RunsHandler(sha, After(sha, locked), id, o);
    assert After(sha, Then(locked, Begin(id))) == Step(sha, After(sha, locked), Begin(id));
  }

  lemma FinishAloneFinishes(sha: Hash, run: Run<Event>, id: nat)
    requires var s := After(sha, run);
             HasLock(sha, s, id) && s.requests[id].phase.Ran? && Storable(s.requests[id].phase.outcome)
    ensures var s, Live(r, phase) := After(sha, run), After(sha, run).requests[id];
            var k := Resource(sha, r);
            After(sha, FinishAlone(run, id))
            == Move(s, id, Done(Handled(phase.outcome))).(
                 locks := s.locks - {k}, clock := s.clock + 2,
                 responses := s.responses[k := Stored(sha(r.body), phase.outcome.response, s.clock)])
  {
    hide Resource, Storable, Step;
    var s := After(sha, run);
    StoresResponse(sha, s, id);
    ReleasesLock(sha, Step(sha, s, Store(id, Answered)), id);
  }

  lemma TwoLookUps(sha: Hash, r: Request) returns (run: Run<Event>)
    requires Admit(r).None?
    ensures NoLockExpires(run)
    ensures After(sha, run) == INITIAL_STATE.(requests := map[0 := Live(r, Missed(2)), 1 := Live(r, Missed(3))],
        clock := 4)
  {
    hide Admit, Resource;
    var r1 := Then(Start, Arrive(0, r));
    var r2 := Then(r1, Arrive(1, r));
    var s2 := INITIAL_STATE.(requests := map[0 := Live(r, Arrived), 1 := Live(r, Arrived)], clock := 2);
    assert After(sha, r1) == INITIAL_STATE.(requests := map[0 := Live(r, Arrived)], clock := 1);
    assert After(sha, r2) == s2;
    var s3 := s2.(requests := map[0 := Live(r, Missed(2)), 1 := Live(r, Arrived)], clock := 3);
    assert After(sha, Then(r2, LookUp(0, false))) == s3;
    run := Then(Then(r2, LookUp(0, false)), LookUp(1, false));
    assert NoLockExpires(r1) && NoLockExpires(run.past);
  }

  /** Hence a mutation can run twice although nothing expired: two lookups, then one run after the other. */
  lemma {:induction false} HandlerCanRunTwice(sha: Hash, r: Request, o: Outcome) returns (run: Run<Event>)
    requires Admit(r).None? && Storable(o)
    ensures NoLockExpires(run)
    ensures var s, x := After(sha, run), Execution(0, Resource(sha, r), sha(r.body), o.response);
            && s.requests == map[0 := Live(r, Done(Handled(o))), 1 := Live(r, Done(Handled(o)))]
            && s.runs == Then(Then(Start, x), x.(id := 1))
  {
    assert o.Returned?;
    hide After, Step, Admit, Resource, Storable;
    var looked := TwoLookUps(sha, r);
    RunAloneRuns(sha, looked, 0, "a", o);
    FinishAloneFinishes(sha, RunAlone(looked, 0, "a", o), 0);
    var first := FinishAlone(RunAlone(looked, 0, "a", o), 0);
    RunAloneRuns(sha, first, 1, "b", o);
    FinishAloneFinishes(sha, RunAlone(first, 1, "b", o), 1);
    run := FinishAlone(RunAlone(first, 1, "b", o), 1);
    assert After(sha, run).requests == map[0 := Live(r, Done(Handled(o))), 1 := Live(r, Done(Handled(o)))];
  }
}