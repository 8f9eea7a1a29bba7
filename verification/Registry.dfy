/**
 Which clients are connected, as the realtime hub should know it: one list per user, and
 what registrations, removals and shutdowns in any order do to it.
 */
module Registry {
  import opened Wrappers

  type UserId = seq<bv8>

  /** A client pointer: `id` is its identity, `connected` that it has a connection. */
  datatype Client = Client(id: nat, userId: UserId, connected: bool)

  const SHARD_COUNT: nat := 32

  /** One byte of 32-bit FNV-1a; the product wraps. */
  function FnvStep(hash: bv32, byte: bv8): bv32 {
    (hash ^ (byte as bv32)) * 16777619
  }

  /** The hash of the first `n` bytes. */
  function Fnv(userId: UserId, n: nat): bv32
    requires n <= |userId|
  {
    if n == 0 then 2166136261 else FnvStep(Fnv(userId, n - 1), userId[n - 1])
  }

  function ShardIndex(hash: bv32): (i: nat)
    ensures i == hash as int % 32 < SHARD_COUNT
  {
    hash as int % SHARD_COUNT
  }

  function ShardOf(userId: UserId): (i: nat)
    ensures i < SHARD_COUNT
  {
    ShardIndex(Fnv(userId, |userId|))
  }

  datatype Event =
    | Register(client: Client)      // the register channel, or Serve
    | Unregister(client: Client)
    | StopShard(shard: nat)         // Stop goes shard by shard, each under its own lock

  predicate Accepted(c: Client) {
    c.connected && c.userId != []
  }

  function IndexOf(l: seq<Client>, c: Client, i: nat): nat
    requires i <= |l|
    ensures i <= IndexOf(l, c, i) <= |l|
    decreases |l| - i
  {
    if i == |l| || l[i] == c then i else IndexOf(l, c, i + 1)
  }

  /** The list without the first occurrence. */
  function RemoveFirst(l: seq<Client>, c: Client): seq<Client> {
    var i := IndexOf(l, c, 0);
    if i == |l| then l else l[..i] + l[i + 1..]
  }

  /** What an event does to the list of one user. */
  function Touch(l: seq<Client>, user: UserId, e: Event): seq<Client> {
    match e
    case Register(c) => if Accepted(c) && c.userId == user then l + [c] else l
    case Unregister(c) => if c.userId == user then RemoveFirst(l, c) else l
    case StopShard(i) => if i == ShardOf(user) then [] else l
  }

  function Clients(run: Run<Event>, user: UserId): seq<Client> {
    match run
    case Start => []
    case Then(past, e) => Touch(Clients(past, user), user, e)
  }

  // ---------------------------------------------------------------- removal

  lemma {:induction false} IndexOfFirst(l: seq<Client>, c: Client, i: nat)
    requires i <= |l|
    ensures var k := IndexOf(l, c, i);
            && (forall j | i <= j < k :: l[j] != c)
            && (k < |l| ==> l[k] == c)
    decreases |l| - i
  {
    if i < |l| && l[i] != c {
      IndexOfFirst(l, c, i + 1);
    }
  }

  /** Removal deletes exactly one occurrence of the client, if there is one, and nothing else. */
  lemma RemovesOne(l: seq<Client>, c: Client)
    ensures multiset(RemoveFirst(l, c)) == multiset(l) - multiset{c}
  {
    var i := IndexOf(l, c, 0);
    IndexOfFirst(l, c, 0);
    if i < |l| {
      assert l == l[..i] + [l[i]] + l[i + 1..];
    }
  }

  // ---------------------------------------------------------------- the history

  /**
   Read backwards: the clients of the user that registered and have not been unregistered
   or stopped since, in order of registration; `gone` are those unregistered later.
   */
  function Standing(run: Run<Event>, user: UserId, gone: set<Client>): seq<Client> {
    match run
    case Start => []
    case Then(past, e) =>
      match e {
        case Register(c) =>
          Standing(past, user, gone)
          + if c.connected && c.userId != [] && c.userId == user && c !in gone then [c] else []
        case Unregister(c) => Standing(past, user, gone + {c})
        case StopShard(i) => if i == ShardOf(user) then [] else Standing(past, user, gone)
      }
  }

  /** Each client is registered at most once. */
  predicate RegisterOnce(run: Run<Event>) {
    run.Then? ==> RegisterOnce(run.past) && (run.last.Register? ==> !Occurs(run.past, run.last))
  }

  function Without(l: seq<Client>, gone: set<Client>): seq<Client> {
    if l == [] then []
    else
      var n := |l| - 1;
      Without(l[..n], gone) + if l[n] in gone then [] else [l[n]]
  }

  predicate Distinct(l: seq<Client>) {
    forall i, j | 0 <= i < j < |l| :: l[i] != l[j]
  }

  lemma WithoutSnoc(l: seq<Client>, c: Client, gone: set<Client>)
    ensures Without(l + [c], gone) == Without(l, gone) + if c in gone then [] else [c]
  {
    assert (l + [c])[..|l|] == l;
  }

  lemma {:induction false} WithoutAppend(l: seq<Client>, m: seq<Client>, gone: set<Client>)
    ensures Without(l + m, gone) == Without(l, gone) + Without(m, gone)
  {
    if m == [] {
      assert l + m == l;
    } else {
      var n := |m| - 1;
      WithoutAppend(l, m[..n], gone);
      assert (l + m)[..|l| + n] == l + m[..n];
    }
  }

  lemma {:induction false} WithoutAbsent(l: seq<Client>, c: Client, gone: set<Client>)
    requires c !in l
    ensures Without(l, gone + {c}) == Without(l, gone)
  {
    if l != [] {
      WithoutAbsent(l[..|l| - 1], c, gone);
    }
  }

  lemma {:induction false} WithoutNothing(l: seq<Client>)
    ensures Without(l, {}) == l
  {
    if l != [] {
      WithoutNothing(l[..|l| - 1]);
    }
  }

  /** In a list without repetitions, removing the first occurrence leaves none. */
  lemma RemoveThenWithout(l: seq<Client>, c: Client, gone: set<Client>)
    requires Distinct(l)
    ensures Without(RemoveFirst(l, c), gone) == Without(l, gone + {c})
  {
    var i := IndexOf(l, c, 0);
    IndexOfFirst(l, c, 0);
    if i == |l| {
      WithoutAbsent(l, c, gone);
    } else {
      var a, b := l[..i], l[i + 1..];
      assert l == a + [c] + b;
      WithoutAppend(a + [c], b, gone + {c});
      WithoutSnoc(a, c, gone + {c});
      WithoutAbsent(a, c, gone);
      WithoutAbsent(b, c, gone);
      WithoutAppend(a, b, gone);
    }
  }

  lemma RemoveKeepsDistinct(l: seq<Client>, c: Client)
    requires Distinct(l)
    ensures Distinct(RemoveFirst(l, c)) && forall d | d in RemoveFirst(l, c) :: d in l
  {}

  lemma {:induction false} ClientsDistinct(run: Run<Event>, user: UserId)
    requires RegisterOnce(run)
    ensures Distinct(Clients(run, user))
    ensures forall c | c in Clients(run, user) :: Occurs(run, Register(c))
  {
    if run.Then? {
      ClientsDistinct(run.past, user);
      if run.last.Unregister? {
        RemoveKeepsDistinct(Clients(run.past, user), run.last.client);
      }
    }
  }

  lemma {:induction false} StandingIsWithout(run: Run<Event>, user: UserId, gone: set<Client>)
    requires RegisterOnce(run)
    ensures Standing(run, user, gone) == Without(Clients(run, user), gone)
  {
    if run.Then? {
      var l := Clients(run.past, user);
      match run.last
      case Register(c) =>
        StandingIsWithout(run.past, user, gone);
        WithoutSnoc(l, c, gone);
      case Unregister(c) =>
        StandingIsWithout(run.past, user, gone + {c});
        ClientsDistinct(run.past, user);
        if c.userId == user {
          RemoveThenWithout(l, c, gone);
        } else {
          UsersOwnClients(run.past, user);
          WithoutAbsent(l, c, gone);
        }
      case StopShard(i) =>
        StandingIsWithout(run.past, user, gone);
    }
  }

  lemma {:induction false} UsersOwnClients(run: Run<Event>, user: UserId)
    ensures forall c | c in Clients(run, user) :: c.userId == user && Accepted(c)
  {
    if run.Then? {
      UsersOwnClients(run.past, user);
    }
  }

  /** At every moment the hub knows exactly the standing clients, in the order they came. */
  lemma ClientsAreStanding(run: Run<Event>, user: UserId)
    requires RegisterOnce(run)
    ensures Clients(run, user) == Standing(run, user, {})
  {
    StandingIsWithout(run, user, {});
    WithoutNothing(Clients(run, user));
  }

  /** Published test values of 32-bit FNV-1a: nothing, the letter a, and foobar byte by byte. */
  lemma FnvTestValues()
    ensures Fnv([], 0) == 0x811C_9DC5 && Fnv([0x61], 1) == 0xE40C_292C
    ensures var foobar: UserId := [0x66, 0x6F, 0x6F, 0x62, 0x61, 0x72];
            && Fnv(foobar, 1) == 0xE30C_2799 && Fnv(foobar, 2) == 0x6222_E842 && Fnv(foobar, 3) == 0xA9F3_7ED7
            && Fnv(foobar, 4) == 0x3F50_76EF && Fnv(foobar, 5) == 0x39AA_A18A && Fnv(foobar, 6) == 0xBF9C_F968
            && ShardOf(foobar) == 8
  {
    var foobar: UserId := [0x66, 0x6F, 0x6F, 0x62, 0x61, 0x72];
    assert Fnv([0x61], 0) == 0x811C_9DC5;
    assert Fnv(foobar, 0) == 0x811C_9DC5;
    assert Fnv(foobar, 1) == 0xE30C_2799;
    assert Fnv(foobar, 2) == 0x6222_E842;
    assert Fnv(foobar, 3) == 0xA9F3_7ED7;
    assert Fnv(foobar, 4) == 0x3F50_76EF;
    assert Fnv(foobar, 5) == 0x39AA_A18A;
  }
}
