/**
 Refresh-token rotation in Redis: a new namespace keyed by the token's digest, the older
 one keyed by the token itself, and a script that moves a user from one token to the next.
 Every script and every single command is one atomic step.  Times and lifetimes are in
 nanoseconds.
 */
module RefreshTokens {
  import opened Wrappers

  const SECOND: int := 1_000_000_000

  datatype Entry = Entry(user: string, expireAt: int)

  /** The keys of Redis, expired ones included: a key is not found from its expiry on. */
  type Keys = map<string, Entry>

  /** SHA-256 in base64url is library code. */
  type Digest = string -> string

  function V2Key(digest: Digest, token: string): string {
    "refresh:v2:" + digest(token)
  }

  function LegacyKey(token: string): string {
    "refresh:" + token
  }

  predicate LiveKey(keys: Keys, key: string, now: int) {
    key in keys && now < keys[key].expireAt
  }

  /** The user a token stands for, as ValidateRefreshTokenV2 finds it. */
  function Validate(digest: Digest, keys: Keys, token: string, now: int): Option<string> {
    if token == "" then None
    else if LiveKey(keys, V2Key(digest, token), now)
        && keys[V2Key(digest, token)].user != "" then Some(keys[V2Key(digest, token)].user)
    else if LiveKey(keys, LegacyKey(token), now)
        && keys[LegacyKey(token)].user != "" then Some(keys[LegacyKey(token)].user)
    else None
  }

  function Store(digest: Digest, keys: Keys, user: string, token: string, expiration: int, now: int): Keys {
    if user == "" || token == "" || expiration <= 0 then keys
    else keys[V2Key(digest, token) := Entry(user, now + expiration)]
  }

  /** The script: what is left in Redis, and the user it returns; an expiry of 0 fails the SET after the DELs. */
  function Script(digest: Digest, keys: Keys, given: string, next: string,
      seconds: int, now: int): (Keys, Option<string>) {
    var k1, k2, k3 := V2Key(digest, given), LegacyKey(given), V2Key(digest, next);
    var current := if LiveKey(keys, k1, now) then Some(keys[k1].user)
        else if LiveKey(keys, k2, now) then Some(keys[k2].user) else None;
    if current.None? then (keys, None)
    else
      var deleted := if LiveKey(keys, k1, now) then keys - {k1} else keys - {k1, k2};
      if seconds <= 0 then (deleted, None)
      else (deleted[k3 := Entry(current.value, now + seconds * SECOND)], current)
  }

  function Rotate(digest: Digest, keys: Keys, given: string, next: string,
      expiration: int, now: int): (Keys, Option<string>) {
    if given == "" || next == "" || expiration <= 0 then (keys, None)
    else
      var (keys', user) := Script(digest, keys, given, next, expiration / SECOND, now);
      (keys', if user == Some("") then None else user)
  }

  // ---------------------------------------------------------------- one rotation

  lemma KeyTails(digest: Digest, token: string)
    ensures LegacyKey(token)[8..] == token && V2Key(digest, token)[8..] == "v2:" + digest(token)
    ensures V2Key(digest, token)[11..] == digest(token)
  {}

  /** A string names another token's entry in the new namespace exactly when it spells that entry's key. */
  lemma NamespacesMeet(digest: Digest, given: string, token: string)
    ensures LegacyKey(given) == V2Key(digest, token) <==> given == "v2:" + digest(token)
  {
    KeyTails(digest, given);
    KeyTails(digest, token);
  }

  /** Generated tokens have no colon (base64url), so they spell no such key. */
  lemma NamespacesApart(digest: Digest, token: string, other: string)
    requires ':' !in token
    ensures LegacyKey(token) != V2Key(digest, other)
  {
    NamespacesMeet(digest, token, other);
    assert ("v2:" + digest(other))[2] == ':';
  }

  lemma DifferentDigests(digest: Digest, a: string, b: string)
    requires digest(a) != digest(b)
    ensures V2Key(digest, a) != V2Key(digest, b)
  {
    KeyTails(digest, a);
    KeyTails(digest, b);
  }

  lemma LegacyKeysDiffer(a: string, b: string)
    requires a != b
    ensures LegacyKey(a) != LegacyKey(b)
  {
    assert LegacyKey(a)[8..] == a && LegacyKey(b)[8..] == b;
  }

  /** The string does not stand in both namespaces. */
  predicate InOne(digest: Digest, keys: Keys, token: string) {
    V2Key(digest, token) in keys && LegacyKey(token) in keys ==> V2Key(digest, token) == LegacyKey(token)
  }

  /** The replacement is a generated token: no entry and not the presented string has its keys. */
  predicate Fresh(digest: Digest, keys: Keys, given: string, next: string) {
    && next != "" && ':' !in next
    && V2Key(digest, next) !in keys && LegacyKey(next) !in keys
    && V2Key(digest, next) != V2Key(digest, given) && V2Key(digest, next) != LegacyKey(given)
  }

  /**
   Whatever the client presents: a rotation succeeds exactly when the presented string
   validates and the new lifetime is at least a second.  Then the user has moved to the
   new token and the presented string is dead; with a shorter lifetime it is dead and
   there is no new token.  No key but those of the two has changed.
   */
  lemma RotationMoves(digest: Digest, keys: Keys, given: string, next: string, expiration: int, now: int)
    requires InOne(digest, keys, given) && Fresh(digest, keys, given, next)
    ensures var (keys', user) := Rotate(digest, keys, given, next, expiration, now);
            var owner := Validate(digest, keys, given, now);
            && user == (if expiration >= SECOND then owner else None)
            && (user.Some? ==> Validate(digest, keys', next, now) == owner)
            && (user.None? ==> Validate(digest, keys', next, now).None?)
            && (expiration > 0 ==> Validate(digest, keys', given, now).None?)
            && (forall key | key != V2Key(digest, given) && key != LegacyKey(given) && key != V2Key(digest, next) ::
                  (key in keys' <==> key in keys) && (key in keys ==> keys'[key] == keys[key]))
  {
    NamespacesApart(digest, next, given);
    NamespacesApart(digest, next, next);
  }

  /** How many live tokens a user has. */
  function LiveOf(keys: Keys, user: string, now: int): set<string> {
    set key | key in keys && keys[key].user == user && now < keys[key].expireAt
  }

  lemma LiveOfRemoved(keys: Keys, key: string, user: string, now: int)
    ensures LiveOf(keys - {key}, user, now) == LiveOf(keys, user, now) - {key}
  {}

  lemma LiveOfAdded(keys: Keys, key: string, e: Entry, user: string, now: int)
    requires key !in keys && now < e.expireAt
    ensures LiveOf(keys[key := e], user, now) == LiveOf(keys, user, now) + if e.user == user then {key} else {}
  {
    assert forall k | k in keys :: keys[key := e][k] == keys[k];
  }

  /** The key the user is found under. */
  function FoundUnder(digest: Digest, keys: Keys, token: string, now: int): string {
    if LiveKey(keys, V2Key(digest, token), now) then V2Key(digest, token) else LegacyKey(token)
  }

  lemma RotatedKeys(digest: Digest, keys: Keys, given: string, next: string, expiration: int, now: int)
    requires InOne(digest, keys, given) && Fresh(digest, keys, given, next) && expiration > 0
    requires Validate(digest, keys, given, now).Some?
    ensures var key, owner := FoundUnder(digest, keys, given, now), Validate(digest, keys, given, now).value;
            && key in keys && now < keys[key].expireAt && keys[key].user == owner
            && Rotate(digest, keys, given, next, expiration, now).0
               == if expiration < SECOND then keys - {key}
                  else (keys - {key})[V2Key(digest, next) := Entry(owner, now + expiration / SECOND * SECOND)]
  {
    if !LiveKey(keys, V2Key(digest, given), now) {
      assert keys - {V2Key(digest, given), LegacyKey(given)} == keys - {LegacyKey(given)};
    }
  }

  /**
   Rotation leaves every user's number of live tokens as it was exactly when the new lifetime
   is at least a second.
   */
  lemma RotationCounts(digest: Digest, keys: Keys, given: string, next: string, expiration: int, now: int, user: string)
    requires InOne(digest, keys, given) && Fresh(digest, keys, given, next) && expiration > 0
    requires Validate(digest, keys, given, now) == Some(user)
    ensures var keys' := Rotate(digest, keys, given, next, expiration, now).0;
            && (|LiveOf(keys', user, now)| == |LiveOf(keys, user, now)| <==> expiration >= SECOND)
            && (expiration < SECOND ==> |LiveOf(keys', user, now)| == |LiveOf(keys, user, now)| - 1)
            && (forall other | other != user :: |LiveOf(keys', other, now)| == |LiveOf(keys, other, now)|)
  {
    RotatedKeys(digest, keys, given, next, expiration, now);
    hide Rotate, Script, InOne, LiveKey, V2Key, FoundUnder, Validate;
    var key, e := FoundUnder(digest, keys, given, now), Entry(user, now + expiration / SECOND * SECOND);
    forall u: string ensures |LiveOf(Rotate(digest, keys, given, next, expiration, now).0, u, now)|
                             == |LiveOf(keys, u, now)| - if u == user && expiration < SECOND then 1 else 0 {
      CountAfter(keys, key, V2Key(digest, next), e, u, now);
    }
  }

  lemma CountAfter(keys: Keys, key: string, added: string, e: Entry, user: string, now: int)
    requires key in keys && now < keys[key].expireAt && keys[key].user == e.user && added !in keys
    ensures |LiveOf(keys - {key}, user, now)| == |LiveOf(keys, user, now)| - if user == e.user then 1 else 0
    ensures now < e.expireAt ==> |LiveOf((keys - {key})[added := e], user, now)| == |LiveOf(keys, user, now)|
  {
    LiveOfRemoved(keys, key, user, now);
    if now < e.expireAt {
      LiveOfAdded(keys - {key}, added, e, user, now);
    }
  }

  /** The presented string is dead after a rotation exactly when it was not alive in both namespaces. */
  lemma DiesUnlessInBoth(digest: Digest, keys: Keys, given: string, next: string, expiration: int, now: int)
    requires given != "" && Fresh(digest, keys, given, next) && expiration > 0
    ensures Validate(digest, Rotate(digest, keys, given, next, expiration, now).0, given, now).None?
            <==> !(&& LiveKey(keys, V2Key(digest, given), now) && LiveKey(keys, LegacyKey(given), now)
                   && V2Key(digest, given) != LegacyKey(given) && keys[LegacyKey(given)].user != "")
  {}

  /** A token alive in both namespaces survives its first rotation under the older key. */
  lemma BothNamespacesRotateTwice(digest: Digest, keys: Keys, given: string, next: string, expiration: int, now: int)
    requires given != "" && given != "v2:" + digest(given) && Fresh(digest, keys, given, next) && expiration >= SECOND
    requires LiveKey(keys, V2Key(digest, given), now) && LiveKey(keys, LegacyKey(given), now)
    requires keys[V2Key(digest, given)].user != "" && keys[LegacyKey(given)].user != ""
    ensures var (keys', user) := Rotate(digest, keys, given, next, expiration, now);
            && user == Some(keys[V2Key(digest, given)].user)
            && Validate(digest, keys', given, now) == Some(keys[LegacyKey(given)].user)
  {
    NamespacesMeet(digest, given, given);
  }

  // ---------------------------------------------------------------- any interleaving

  datatype Event =
    | RotateToken(given: string, next: string, expiration: int, now: int)
    | StoreToken(user: string, token: string, expiration: int, now: int)

  function Step(digest: Digest, keys: Keys, e: Event): Keys {
    match e
    case RotateToken(given, next, expiration, now) => Rotate(digest, keys, given, next, expiration, now).0
    case StoreToken(user, token, expiration, now) => Store(digest, keys, user, token, expiration, now)
  }

  function After(digest: Digest, keys: Keys, run: Run<Event>): Keys {
    match run
    case Start => keys
    case Then(past, e) => Step(digest, After(digest, keys, past), e)
  }

  predicate InOrder(run: Run<Event>, start: int) {
    run.Then? ==>
      && InOrder(run.past, start) && start <= run.last.now
      && (run.past.Then? ==> run.past.last.now <= run.last.now)
  }

  function Clock(run: Run<Event>, start: int): int {
    if run.Then? then run.last.now else start
  }

  /** No token handed out during the run gets a key of ours: another digest, and not one that our string spells. */
  predicate OthersIssued(digest: Digest, run: Run<Event>, token: string) {
    run.Then? ==>
      && OthersIssued(digest, run.past, token)
      && var issued := if run.last.RotateToken? then run.last.next else run.last.token;
         digest(issued) != digest(token) && token != "v2:" + digest(issued)
  }

  /** A rotation of this string that the script is run for. */
  predicate Attempts(e: Event, token: string) {
    e.RotateToken? && e.given == token && token != "" && e.next != "" && 0 < e.expiration
  }

  predicate Attempted(run: Run<Event>, token: string) {
    run.Then? && (Attempts(run.last, token) || Attempted(run.past, token))
  }

  predicate Succeeds(digest: Digest, keys: Keys, e: Event, token: string) {
    Attempts(e, token) && Rotate(digest, keys, e.given, e.next, e.expiration, e.now).1.Some?
  }

  function Wins(digest: Digest, keys: Keys, run: Run<Event>, token: string): nat {
    match run
    case Start => 0
    case Then(past, e) =>
      Wins(digest, keys, past, token) + if Succeeds(digest, After(digest, keys, past), e, token) then 1 else 0
  }

  /** The first attempt comes while the token is alive, with a lifetime of a second or more for its replacement. */
  predicate FirstAttemptGood(digest: Digest, keys: Keys, run: Run<Event>, token: string) {
    run.Then? &&
    if Attempted(run.past, token) then FirstAttemptGood(digest, keys, run.past, token)
    else
      && Attempts(run.last, token) && run.last.expiration >= SECOND
      && Validate(digest, After(digest, keys, run.past), token, run.last.now).Some?
  }

  /** The token's entries are as they were. */
  predicate SameFor(digest: Digest, keys: Keys, keys': Keys, token: string) {
    && (V2Key(digest, token) in keys' <==> V2Key(digest, token) in keys)
    && (V2Key(digest, token) in keys ==> keys'[V2Key(digest, token)] == keys[V2Key(digest, token)])
    && (LegacyKey(token) in keys' <==> LegacyKey(token) in keys)
    && (LegacyKey(token) in keys ==> keys'[LegacyKey(token)] == keys[LegacyKey(token)])
  }

  /** The token's entries may have gone, but are not changed and not added to. */
  predicate AtMostGone(digest: Digest, keys: Keys, keys': Keys, token: string) {
    && (V2Key(digest, token) in keys'
        ==> V2Key(digest, token) in keys && keys'[V2Key(digest, token)] == keys[V2Key(digest, token)])
    && (LegacyKey(token) in keys' ==> LegacyKey(token) in keys && keys'[LegacyKey(token)] == keys[LegacyKey(token)])
  }

  predicate Dead(digest: Digest, keys: Keys, token: string, now: int) {
    !LiveKey(keys, V2Key(digest, token), now) && !LiveKey(keys, LegacyKey(token), now)
  }

  /** Whatever happens, nothing is added to a token that is not issued again. */
  lemma EventsOnlyDelete(digest: Digest, keys: Keys, e: Event, token: string)
    requires OthersIssued(digest, Then(Start, e), token)
    ensures AtMostGone(digest, keys, Step(digest, keys, e), token)
  {
    var issued := if e.RotateToken? then e.next else e.token;
    DifferentDigests(digest, issued, token);
    NamespacesMeet(digest, token, issued);
  }

  /** An attempt kills the token, and succeeds exactly when it was alive and the lifetime is long enough. */
  lemma AttemptKills(digest: Digest, keys: Keys, e: Event, token: string)
    requires InOne(digest, keys, token) && Attempts(e, token) && OthersIssued(digest, Then(Start, e), token)
    ensures Dead(digest, Step(digest, keys, e), token, e.now)
    ensures Succeeds(digest, keys, e, token) <==> Validate(digest, keys, token, e.now).Some? && e.expiration >= SECOND
  {
    DifferentDigests(digest, e.next, token);
    NamespacesMeet(digest, token, e.next);
  }

  /**
   However rotations of anything a client may present interleave with each other and with
   other logins: a string's entries are never changed, only deleted; from its first
   rotation on it is dead for ever, in both namespaces; and the rotations of it that
   succeed are one if the first came while it was alive and asked for a lifetime of at
   least a second, and none otherwise.
   */
  lemma {:induction false} RotatedAtMostOnce(digest: Digest, keys: Keys, run: Run<Event>, token: string, start: int)
    requires InOne(digest, keys, token) && OthersIssued(digest, run, token) && InOrder(run, start)
    ensures var keys' := After(digest, keys, run);
            && Wins(digest, keys, run, token) == (if FirstAttemptGood(digest, keys, run, token) then 1 else 0)
            && AtMostGone(digest, keys, keys', token)
            && (Attempted(run, token) ==> Dead(digest, keys', token, Clock(run, start)))
  {
    if run.Then? {
      RotatedAtMostOnce(digest, keys, run.past, token, start);
      var before := After(digest, keys, run.past);
      EventsOnlyDelete(digest, before, run.last, token);
      if Attempts(run.last, token) {
        AttemptKills(digest, before, run.last, token);
      }
      hide V2Key, LegacyKey, Rotate, Step;
    }
  }

  /** So a string presented for rotation once never validates again. */
  lemma NeverValidatesAgain(digest: Digest, keys: Keys, run: Run<Event>, token: string, start: int, now: int)
    requires InOne(digest, keys, token) && OthersIssued(digest, run, token) && InOrder(run, start)
    requires Attempted(run, token) && Clock(run, start) <= now
    ensures Validate(digest, After(digest, keys, run), token, now).None?
  {
    RotatedAtMostOnce(digest, keys, run, token, start);
  }

  // ---------------------------------------------------------------- strings that spell a key

  /** The one string besides a token that names the token's entry. */
  function Alias(digest: Digest, token: string): string {
    "v2:" + digest(token)
  }

  /** The script is run for the alias and finds the token's entry. */
  predicate TakesByAlias(digest: Digest, keys: Keys, e: Event, token: string) {
    && Attempts(e, Alias(digest, token))
    && !LiveKey(keys, V2Key(digest, Alias(digest, token)), e.now) && LiveKey(keys, V2Key(digest, token), e.now)
  }

  predicate TakenByAlias(digest: Digest, keys: Keys, run: Run<Event>, token: string) {
    run.Then? && (TakesByAlias(digest, After(digest, keys, run.past), run.last, token)
                  || TakenByAlias(digest, keys, run.past, token))
  }

  /** No other presented string has the token's digest. */
  predicate OthersPresented(digest: Digest, run: Run<Event>, token: string) {
    run.Then? ==>
      && OthersPresented(digest, run.past, token)
      && (run.last.RotateToken? && run.last.given != token ==> digest(run.last.given) != digest(token))
  }

  /**
   A token validates as the user it was stored for until it expires, and not after unless the
   older namespace has it.
   */
  lemma StoredTokenValidates(digest: Digest, keys: Keys, user: string, token: string, expiration: int, now: int,
      later: int)
    requires user != "" && token != "" && 0 < expiration
    ensures var keys' := Store(digest, keys, user, token, expiration, now);
            && (later < now + expiration ==> Validate(digest, keys', token, later) == Some(user))
            && (now + expiration <= later && LegacyKey(token) !in keys ==> Validate(digest, keys', token, later).None?)
  {}

  /** And so it does after any run in which it is not presented, nor found by its alias. */
  lemma StoredTokenStands(digest: Digest, keys: Keys, user: string, token: string, expiration: int, now: int,
      run: Run<Event>, later: int)
    requires user != "" && token != "" && 0 < expiration && ':' !in token && LegacyKey(token) !in keys
    requires OthersIssued(digest, run, token) && OthersPresented(digest, run, token) && !Attempted(run, token)
    requires !TakenByAlias(digest, Store(digest, keys, user, token, expiration, now), run, token)
    ensures Validate(digest, After(digest, Store(digest, keys, user, token, expiration, now), run), token, later)
            == if later < now + expiration then Some(user) else None
  {
    var stored := Store(digest, keys, user, token, expiration, now);
    StandsUnlessTakenByAlias(digest, stored, run, token);
    StoredTokenValidates(digest, keys, user, token, expiration, now, later);
    NamespacesApart(digest, token, token);
    hide After, TakenByAlias, OthersIssued, OthersPresented, V2Key, LegacyKey;
  }

  /** A rotation of another string leaves a generated token as it was, except through the alias. */
  lemma OtherEvent(digest: Digest, keys: Keys, e: Event, token: string)
    requires ':' !in token && OthersIssued(digest, Then(Start, e), token)
        && OthersPresented(digest, Then(Start, e), token)
    requires !Attempts(e, token)
    ensures SameFor(digest, keys, Step(digest, keys, e), token) <==> !TakesByAlias(digest, keys, e, token)
    ensures TakesByAlias(digest, keys, e, token)
        ==> V2Key(digest, token) in keys && V2Key(digest, token) !in Step(digest, keys, e)
  {
    var issued := if e.RotateToken? then e.next else e.token;
    DifferentDigests(digest, issued, token);
    NamespacesApart(digest, token, issued);
    if e.RotateToken? && e.given != token {
      DifferentDigests(digest, e.given, token);
      NamespacesApart(digest, token, e.given);
      NamespacesMeet(digest, e.given, token);
      LegacyKeysDiffer(e.given, token);
    }
  }

  /**
   Until a generated token is itself presented for rotation it stands as it was exactly
   when no rotation has found it by its alias.
   */
  lemma {:induction false} StandsUnlessTakenByAlias(digest: Digest, keys: Keys, run: Run<Event>, token: string)
    requires ':' !in token && OthersIssued(digest, run, token) && OthersPresented(digest, run, token)
    requires !Attempted(run, token)
    ensures SameFor(digest, keys, After(digest, keys, run), token) <==> !TakenByAlias(digest, keys, run, token)
    ensures AtMostGone(digest, keys, After(digest, keys, run), token)
    ensures TakenByAlias(digest, keys, run, token)
        ==> V2Key(digest, token) in keys && V2Key(digest, token) !in After(digest, keys, run)
  {
    if run.Then? {
      var before := After(digest, keys, run.past);
      StandsUnlessTakenByAlias(digest, keys, run.past, token);
      EventsOnlyDelete(digest, before, run.last, token);
      OtherEvent(digest, before, run.last, token);
      hide V2Key, LegacyKey, Rotate, Step, Alias;
    }
  }

  /** The alias validates and rotates as the user, and takes a live token with it that was never presented. */
  lemma AliasTakesTheToken(digest: Digest, keys: Keys, token: string, next: string, expiration: int, now: int)
    requires token != "" && ':' !in token && Fresh(digest, keys, token, next) && expiration >= SECOND
    requires digest(next) != digest(Alias(digest, token))
    requires LiveKey(keys, V2Key(digest, token), now) && keys[V2Key(digest, token)].user != ""
        && LegacyKey(token) !in keys
    requires V2Key(digest, Alias(digest, token)) !in keys
    ensures var given, owner := Alias(digest, token), Some(keys[V2Key(digest, token)].user);
            && Validate(digest, keys, token, now) == owner == Validate(digest, keys, given, now)
            && Rotate(digest, keys, given, next, expiration, now).1 == owner
            && Validate(digest, Rotate(digest, keys, given, next, expiration, now).0, token, now).None?
  {
    NamespacesMeet(digest, Alias(digest, token), token);
    NamespacesApart(digest, token, next);
    DifferentDigests(digest, next, Alias(digest, token));
  }

  /** So a token that is alive can have its first rotation fail: the run that presents the alias just before it. */
  lemma NoRotationSucceeds(digest: Digest, keys: Keys, token: string, n1: string, n2: string, expiration: int, now: int)
    requires token != "" && ':' !in token && n1 != "" && n2 != "" && expiration >= SECOND
    requires LiveKey(keys, V2Key(digest, token), now) && keys[V2Key(digest, token)].user != ""
        && LegacyKey(token) !in keys
    requires V2Key(digest, Alias(digest, token)) !in keys
    requires digest(n1) != digest(token) && digest(n2) != digest(token)
    ensures var run := Then(Then(Start, RotateToken(Alias(digest, token), n1, expiration, now)),
        RotateToken(token, n2, expiration, now));
            && OthersIssued(digest, run, token) && InOrder(run, now)
            && Validate(digest, keys, token, now).Some? && Wins(digest, keys, run, token) == 0
  {
    var first := RotateToken(Alias(digest, token), n1, expiration, now);
    var run := Then(Then(Start, first), RotateToken(token, n2, expiration, now));
    NamespacesMeet(digest, Alias(digest, token), token);
    NamespacesApart(digest, token, n1);
    NamespacesApart(digest, token, n2);
    NamespacesMeet(digest, token, n1);
    NamespacesMeet(digest, token, n2);
    assert OthersIssued(digest, Then(Start, first), token) && InOrder(Then(Start, first), now);
    DifferentDigests(digest, n1, token);
    assert After(digest, keys, Then(Start, first)) == Step(digest, keys, first);
    assert Dead(digest, Step(digest, keys, first), token, now);
    RotatedAtMostOnce(digest, keys, run, token, now);
  }

  /** The keys of Redis and the commands that are sent to it. */
  class RefreshTokenStore {
    const digest: Digest
    var keys: Keys

    constructor (digest: Digest)
      ensures this.digest == digest && keys == map[]
    {
      this.digest, keys := digest, map[];
    }

    method StoreRefreshToken(userId: string, refreshToken: string, expiration: int, now: int) returns (ok: bool)
      modifies this
      ensures keys == Store(digest, old(keys), userId, refreshToken, expiration, now)
      ensures ok <==> userId != "" && refreshToken != "" && expiration > 0
    {
      if userId == "" || refreshToken == "" || expiration <= 0 {
        return false;
      }
      keys := keys[V2Key(digest, refreshToken) := Entry(userId, now + expiration)];
      return true;
    }

    /** GET */
    method Fetch(key: string, now: int) returns (r: Option<string>)
      ensures r == if LiveKey(keys, key, now) then Some(keys[key].user) else None
    {
      return if key in keys && now < keys[key].expireAt then Some(keys[key].user) else None;
    }

    method RunScript(key1: string, key2: string, key3: string, seconds: int, now: int) returns (failed: bool, r: string)
      modifies this
      ensures forall given, next | key1 == V2Key(digest, given) && key2 == LegacyKey(given)
          && key3 == V2Key(digest, next) ::
                var (keys', user) := Script(digest, old(keys), given, next, seconds, now);
                && keys == keys'
                && (if failed then user.None? && seconds <= 0 else r == if user.Some? then user.value else "")
    {
      var current := Fetch(key1, now);
      if current.None? {
        current := Fetch(key2, now);
        if current.Some? {
          keys := keys - {key2};
        }
      }
      if current.None? {
        return false, "";
      }
      keys := keys - {key1};
      if seconds <= 0 {
        return true, "";
      }
      keys := keys[key3 := Entry(current.value, now + seconds * SECOND)];
      return false, current.value;
    }

    method RotateRefreshToken(oldToken: string, newToken: string, expiration: int, now: int)
        returns (user: Option<string>)
      modifies this
      ensures (keys, user) == Rotate(digest, old(keys), oldToken, newToken, expiration, now)
    {
      if oldToken == "" || newToken == "" || expiration <= 0 {
        return None;
      }
      var failed, userId := RunScript(V2Key(digest, oldToken), LegacyKey(oldToken), V2Key(digest, newToken),
          expiration / SECOND, now);
      if failed || userId == "" {
        return None;
      }
      return Some(userId);
    }

    method ValidateRefreshToken(refreshToken: string, now: int) returns (user: Option<string>)
      ensures user == Validate(digest, keys, refreshToken, now)
    {
      if refreshToken == "" {
        return None;
      }
      user := Fetch(V2Key(digest, refreshToken), now);
      if user.Some? && user.value != "" {
        return user;
      }
      user := Fetch(LegacyKey(refreshToken), now);
      if user == Some("") {
        return None;
      }
    }
  }
}
