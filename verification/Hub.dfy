/**
 The realtime hub's own data: 32 shards, each a map from user to a slice of clients that is
 appended to and cut in place.
 */
module Hub {
  import opened Registry
  import opened Wrappers

  /** A Go slice that starts at the beginning of its backing array; the capacity is the array's length. */
  datatype Slice = Slice(arr: array<Client>, len: nat)

  class Hub {
    const shards: array<map<UserId, Slice>>

    function Slot(user: UserId): map<UserId, Slice>
      requires shards.Length == SHARD_COUNT
      reads shards
    {
      shards[ShardOf(user)]
    }

    /** The arrays that hold a user's clients. */
    function Backing(user: UserId): set<object>
      requires shards.Length == SHARD_COUNT
      reads shards
    {
      if user in Slot(user) then {Slot(user)[user].arr} else {}
    }

    /** Every user is only in its own shard, with at least one client, in an array nobody else uses. */
    ghost predicate Valid()
      reads shards
    {
      && shards.Length == SHARD_COUNT
      && (forall i, user | 0 <= i < SHARD_COUNT :: Placed(i, user))
      && (forall u, v :: Apart(u, v))
    }

    ghost predicate Placed(i: nat, user: UserId)
      requires i < SHARD_COUNT == shards.Length
      reads shards
    {
      user in shards[i] ==> i == ShardOf(user) && 1 <= shards[i][user].len <= shards[i][user].arr.Length
    }

    ghost predicate Apart(u: UserId, v: UserId)
      requires shards.Length == SHARD_COUNT
      reads shards
    {
      u in Slot(u) && v in Slot(v) && u != v ==> Slot(u)[u].arr != Slot(v)[v].arr
    }

    /** The clients of a user. */
    function List(user: UserId): seq<Client>
      requires Valid()
      reads shards, if shards.Length == SHARD_COUNT then Backing(user) else {}
    {
      assert Placed(ShardOf(user), user);
      if user in Slot(user) then Slot(user)[user].arr[..Slot(user)[user].len] else []
    }

    /** No other user's clients are in this array. */
    ghost predicate Unshared(user: UserId, arr: array<Client>)
      requires shards.Length == SHARD_COUNT
      reads shards
    {
      forall v | v in Slot(v) && v != user :: Slot(v)[v].arr != arr
    }

    constructor ()
      ensures Valid() && fresh(shards) && Arrays() == {}
      ensures forall user :: List(user) == [] && Backing(user) == {}
    {
      shards := new map<UserId, Slice>[SHARD_COUNT](_ => map[]);
    }

    method GetShard(userId: UserId) returns (i: nat)
      ensures i == ShardOf(userId)
    {
      hide FnvStep, ShardIndex;
      var hash: bv32 := 2166136261;
      for k := 0 to |userId|
        invariant hash == Fnv(userId, k)
      {
        hash := FnvStep(hash, userId[k]);
      }
      return ShardIndex(hash);
    }

    /** append(s, c): in place while there is room, otherwise in a larger array. */
    method Append(s: Slice, c: Client) returns (s': Slice)
      requires s.len <= s.arr.Length
      modifies if s.len < s.arr.Length then {s.arr} else {}
      ensures s'.len == s.len + 1 <= s'.arr.Length
      ensures s'.arr[..s'.len] == old(s.arr[..s.len]) + [c]
      ensures if s.len < s.arr.Length then s'.arr == s.arr else fresh(s'.arr)
    {
      if s.len < s.arr.Length {
        s.arr[s.len] := c;
        return Slice(s.arr, s.len + 1);
      }
      var bigger := new Client[2 * s.len + 1](_ => c);
      for k := 0 to s.len
        invariant bigger[..k] == s.arr[..k]
        invariant bigger[s.len] == c
      {
        bigger[k] := s.arr[k];
      }
      return Slice(bigger, s.len + 1);
    }

    /** append(s[:i], s[i+1:]...): the elements after i move down by one, in place. */
    method CutOut(s: Slice, i: nat) returns (s': Slice)
      requires i < s.len <= s.arr.Length
      modifies s.arr
      ensures s'.arr == s.arr && s'.len == s.len - 1
      ensures s'.arr[..s'.len] == old(s.arr[..i] + s.arr[i + 1..s.len])
    {
      for k := i to s.len - 1
        invariant forall j | 0 <= j < i || k <= j < s.len :: s.arr[j] == old(s.arr[j])
        invariant forall j | i <= j < k :: s.arr[j] == old(s.arr[j + 1])
      {
        s.arr[k] := s.arr[k + 1];
      }
      return Slice(s.arr, s.len - 1);
    }

    lemma UnsharedNow(user: UserId)
      requires Valid() && user in Slot(user)
      ensures Unshared(user, Slot(user)[user].arr) && 1 <= Slot(user)[user].len <= Slot(user)[user].arr.Length
    {
      assert Placed(ShardOf(user), user);
      forall v | v in Slot(v) && v != user ensures Slot(v)[v].arr != Slot(user)[user].arr {
        assert Apart(v, user);
      }
    }

    method Put(user: UserId, s: Slice)
      requires Valid() && 1 <= s.len <= s.arr.Length && Unshared(user, s.arr)
      modifies shards
      ensures Valid() && user in Slot(user) && Slot(user)[user] == s
      ensures forall v | v != user :: List(v) == old(List(v)) && Backing(v) == old(Backing(v))
    {
      var i := GetShard(user);
      hide Fnv, ShardIndex;
      shards[i] := shards[i][user := s];
      forall j, w | 0 <= j < SHARD_COUNT ensures Placed(j, w) {
        assert old(Placed(j, w));
      }
      forall v | v != user ensures (v in Slot(v) <==> v in old(Slot(v)))
          && (v in Slot(v) ==> Slot(v)[v] == old(Slot(v)[v])) {
      }
      forall u, v ensures Apart(u, v) {
        assert old(Apart(u, v));
      }
    }

    method Delete(user: UserId)
      requires Valid()
      modifies shards
      ensures Valid() && user !in Slot(user)
      ensures forall v | v != user :: List(v) == old(List(v)) && Backing(v) == old(Backing(v))
    {
      var i := GetShard(user);
      hide Fnv, ShardIndex;
      shards[i] := shards[i] - {user};
      forall j, w | 0 <= j < SHARD_COUNT ensures Placed(j, w) {
        assert old(Placed(j, w));
      }
      forall v | v != user ensures (v in Slot(v) <==> v in old(Slot(v)))
          && (v in Slot(v) ==> Slot(v)[v] == old(Slot(v)[v])) {
      }
      forall u, v ensures Apart(u, v) {
        assert old(Apart(u, v));
      }
    }

    /** A client from the register channel, or through Serve; one that is not acceptable is ignored. */
    method Register(client: Client)
      requires Valid()
      modifies shards, Backing(client.userId)
      ensures Valid() && forall user :: fresh(Backing(user) - old(Backing(user)))
      ensures forall user :: List(user) == Touch(old(List(user)), user, Event.Register(client))
    {
      hide ShardOf;
      if !client.connected || client.userId == [] {
        return;
      }
      var i := GetShard(client.userId);
      var clients: Slice;
      if client.userId in shards[i] {
        clients := shards[i][client.userId];
        UnsharedNow(client.userId);
      } else {
        var none := new Client[0];
        clients := Slice(none, 0);
      }
      clients := Append(clients, client);
      Put(client.userId, clients);
    }

    method Unregister(client: Client)
      requires Valid()
      modifies shards, Backing(client.userId)
      ensures Valid() && forall user :: Backing(user) <= old(Backing(user))
      ensures forall user :: List(user) == Touch(old(List(user)), user, Event.Unregister(client))
    {
      hide ShardOf;
      var i := GetShard(client.userId);
      if client.userId !in shards[i] {
        return;
      }
      var clients := shards[i][client.userId];
      UnsharedNow(client.userId);
      var j := 0;
      while j < clients.len && clients.arr[j] != client
        invariant 0 <= j <= clients.len
        invariant IndexOf(clients.arr[..clients.len], client, 0) == IndexOf(clients.arr[..clients.len], client, j)
      {
        j := j + 1;
      }
      if j < clients.len {
        clients := CutOut(clients, j);
        if clients.len == 0 {
          Delete(client.userId);
        } else {
          Put(client.userId, clients);
        }
      }
    }

    /** One turn of Stop. */
    method StopShard(i: nat)
      requires Valid() && i < SHARD_COUNT
      modifies shards
      ensures Valid() && forall user :: Backing(user) <= old(Backing(user))
      ensures forall user :: List(user) == Touch(old(List(user)), user, Event.StopShard(i))
    {
      hide Fnv, ShardIndex;
      shards[i] := map[];
      forall j, w | 0 <= j < SHARD_COUNT ensures Placed(j, w) {
        assert old(Placed(j, w));
      }
      forall u, v ensures Apart(u, v) {
        assert old(Apart(u, v));
      }
    }

    method Stop()
      requires Valid()
      modifies shards
      ensures Valid() && forall user :: List(user) == []
    {
      for i := 0 to SHARD_COUNT
        invariant Valid() && forall user | ShardOf(user) < i :: List(user) == []
      {
        StopShard(i);
      }
    }

    /** The copy a delivery works on. */
    method Snapshot(toUserId: UserId) returns (clients: array<Client>)
      requires Valid()
      ensures fresh(clients) && clients[..] == List(toUserId) && clients !in Arrays()
    {
      var i := GetShard(toUserId);
      if toUserId !in shards[i] {
        clients := new Client[0];
        return;
      }
      UnsharedNow(toUserId);
      var s := shards[i][toUserId];
      clients := new Client[s.len](_ => Client(0, [], false));
      for k := 0 to s.len
        invariant clients[..k] == s.arr[..k]
      {
        clients[k] := s.arr[k];
      }
    }

    /** All arrays of the shards. */
    ghost function Arrays(): set<object>
      requires shards.Length == SHARD_COUNT
      reads shards
    {
      set i, user | 0 <= i < SHARD_COUNT && user in shards[i] :: shards[i][user].arr
    }

    /** They are the users' arrays. */
    lemma ArraysAreBacking()
      requires Valid()
      ensures forall user :: Backing(user) <= Arrays()
      ensures forall o | o in Arrays() :: exists user :: o in Backing(user)
    {
      forall o | o in Arrays() ensures exists user :: o in Backing(user) {
        var i, user :| 0 <= i < SHARD_COUNT && user in shards[i] && o == shards[i][user].arr;
        assert Placed(i, user);
        assert o in Backing(user);
      }
    }

    method Handle(e: Event)
      requires Valid()
      modifies shards, Arrays()
      ensures Valid() && fresh(Arrays() - old(Arrays()))
      ensures forall user :: List(user) == Touch(old(List(user)), user, e)
    {
      ArraysAreBacking();
      match e {
        case Register(c) => Register(c);
        case Unregister(c) => Unregister(c);
        case StopShard(i) =>
          if i < SHARD_COUNT {
            StopShard(i);
          }
      }
      ArraysAreBacking();
    }

    method HandleAll(events: seq<Event>)
      requires Valid()
      modifies shards, Arrays()
      ensures Valid() && fresh(Arrays() - old(Arrays()))
      ensures forall user :: List(user) == TouchAll(old(List(user)), user, events, |events|)
    {
      for k := 0 to |events|
        invariant Valid() && fresh(Arrays() - old(Arrays()))
        invariant forall user :: List(user) == TouchAll(old(List(user)), user, events, k)
      {
        Handle(events[k]);
      }
    }

    /** The hub goes on, with the arrays it had and new ones, and an array of somebody else is left alone. */
    method Interfere(events: seq<Event>, clients: array<Client>)
      requires Valid() && clients !in Arrays()
      modifies shards, Arrays()
      ensures Valid() && clients !in Arrays() && clients[..] == old(clients[..])
      ensures forall o | o in Arrays() :: o in old(Arrays()) || fresh(o)
    {
      HandleAll(events);
    }

    /**
     A delivery during which anything may happen: `during[k]` before the k-th write, the
     first of them after the copy is made.  It reaches everyone who was there when it
     began, in order, and nobody else.
     */
    method LocalDelivery(toUserId: UserId, during: seq<seq<Event>>) returns (written: seq<Client>)
      requires Valid()
      modifies shards, Arrays()
      ensures Valid() && written == old(List(toUserId))
    {
      hide Touch, TouchAll, ShardOf, Arrays;
      ghost var mine := Arrays();
      var clients := Snapshot(toUserId);
      written := [];
      for k := 0 to clients.Length
        invariant Valid() && clients !in Arrays() && forall o | o in Arrays() :: o in mine || fresh(o)
        invariant clients[..] == old(List(toUserId)) && written == clients[..k]
      {
        if k < |during| {
          Interfere(during[k], clients);
        }
        written := written + [clients[k]];
      }
    }
  }

  function TouchAll(l: seq<Client>, user: UserId, events: seq<Event>, n: nat): seq<Client>
    requires n <= |events|
  {
    if n == 0 then l else Touch(TouchAll(l, user, events, n - 1), user, events[n - 1])
  }

  /** The hub through any sequence of events: for every user it holds the list the registry says. */
  method Run(events: seq<Event>) returns (h: Hub)
    ensures fresh(h) && h.Valid() && forall user :: h.List(user) == Clients(FirstN(events, |events|), user)
  {
    h := new Hub();
    for k := 0 to |events|
      invariant fresh(h) && fresh(h.shards) && h.Valid() && fresh(h.Arrays())
      invariant forall user :: h.List(user) == Clients(FirstN(events, k), user)
    {
      h.Handle(events[k]);
    }
  }
}
