/**
 The L1 cache: a map from keys to list elements and a list of the same elements in
 order of use, both changed in place.  It is measured against the access history alone.
 */
module LruCache {
  import opened Wrappers

  datatype Entry<+K, +V> = Entry(key: K, value: V)

  datatype Op<+K, +V> = Get(key: K) | Put(key: K, value: V) | Clear

  /** Where `k` is cached, or |es|. */
  function Index<K(==), V>(es: seq<Entry<K, V>>, k: K): (i: nat)
    ensures i <= |es|
    ensures i < |es| ==> es[i].key == k
    ensures forall j | 0 <= j < i :: es[j].key != k
  {
    if es == [] || es[0].key == k then 0 else Index(es[1..], k) + 1
  }

  function ToFront<T>(s: seq<T>, i: nat): seq<T>
    requires i < |s|
  {
    [s[i]] + s[..i] + s[i + 1..]
  }

  function GetStep<K(==), V>(es: seq<Entry<K, V>>, k: K): seq<Entry<K, V>> {
    var i := Index(es, k);
    if i < |es| then ToFront(es, i) else es
  }

  /** A list that is at or over capacity first loses its oldest element, if it has one. */
  function Evict<T>(capacity: int, s: seq<T>): seq<T> {
    if |s| >= capacity && s != [] then s[..|s| - 1] else s
  }

  function PutStep<K(==), V>(capacity: int, es: seq<Entry<K, V>>, k: K, v: V): seq<Entry<K, V>> {
    var i := Index(es, k);
    if i < |es| then ToFront(es, i)[0 := Entry(k, v)] else [Entry(k, v)] + Evict(capacity, es)
  }

  function After<K(==), V>(capacity: int, run: Run<Op<K, V>>): seq<Entry<K, V>> {
    match run
    case Start => []
    case Then(past, Get(k)) => GetStep(After(capacity, past), k)
    case Then(past, Put(k, v)) => PutStep(capacity, After(capacity, past), k, v)
    case Then(_, Clear) => []
  }

  // ---------------------------------------------------------------- the reference

  /** Every occurrence of `k` dropped. */
  function Without<K(==)>(s: seq<K>, k: K): seq<K> {
    if s == [] then []
    else if s[0] == k then Without(s[1..], k)
    else [s[0]] + Without(s[1..], k)
  }

  /** Each key once, at its first occurrence. */
  function Distinct<K(==)>(s: seq<K>): seq<K> {
    if s == [] then [] else [s[0]] + Without(Distinct(s[1..]), s[0])
  }

  function Take<T>(n: nat, s: seq<T>): seq<T> {
    if |s| <= n then s else s[..n]
  }

  /** A capacity of zero or less caches one entry: the oldest is evicted before a new one is added. */
  function Room(capacity: int): nat {
    if capacity < 1 then 1 else capacity
  }

  /**
   The keys used since the last Clear, latest first: every Put, and every Get of one of the
   keys cached by this very definition.
   */
  function Touched<K(==), V>(room: nat, run: Run<Op<K, V>>): seq<K> {
    match run
    case Start => []
    case Then(past, Get(k)) =>
      var before := Touched(room, past);
      if k in Take(room, Distinct(before)) then [k] + before else before
    case Then(past, Put(k, _)) => [k] + Touched(room, past)
    case Then(_, Clear) => []
  }

  function LastPut<K(==), V>(run: Run<Op<K, V>>, k: K): Option<V> {
    match run
    case Start => None
    case Then(past, Get(_)) => LastPut(past, k)
    case Then(past, Put(k', v)) => if k == k' then Some(v) else LastPut(past, k)
    case Then(_, Clear) => None
  }

  predicate NoRepeat<K(==)>(s: seq<K>) {
    forall i, j | 0 <= i < j < |s| :: s[i] != s[j]
  }

  lemma {:induction false} WithoutOnce<K>(s: seq<K>, k: K, i: nat)
    requires NoRepeat(s) && i <= |s| && (if i < |s| then s[i] == k else k !in s)
    ensures Without(s, k) == if i < |s| then s[..i] + s[i + 1..] else s
  {
    if s != [] {
      if s[0] == k {
        assert i == 0 && k !in s[1..];
        WithoutOnce(s[1..], k, |s| - 1);
        assert s[..0] + s[1..] == s[1..];
      } else {
        WithoutOnce(s[1..], k, i - 1);
        assert i < |s| ==> [s[0]] + s[1..i] + s[i + 1..] == s[..i] + s[i + 1..];
      }
    }
  }

  /** Index of an element, or the length. */
  function Find<K(==)>(s: seq<K>, k: K): (i: nat)
    ensures i <= |s| && (if i < |s| then s[i] == k else k !in s)
  {
    if s == [] || s[0] == k then 0 else Find(s[1..], k) + 1
  }

  lemma RemovedNoRepeat<T>(s: seq<T>, i: nat)
    requires NoRepeat(s) && i < |s|
    ensures NoRepeat(s[..i] + s[i + 1..]) && s[i] !in s[..i] + s[i + 1..]
  {}

  lemma ConsNoRepeat<T>(x: T, s: seq<T>)
    requires NoRepeat(s) && x !in s
    ensures NoRepeat([x] + s)
  {}

  lemma {:induction false} DistinctNoRepeat<K>(s: seq<K>)
    ensures NoRepeat(Distinct(s))
  {
    if s != [] {
      var rest := Distinct(s[1..]);
      var i := Find(rest, s[0]);
      DistinctNoRepeat(s[1..]);
      WithoutOnce(rest, s[0], i);
      hide Distinct, Without, Find;
      if i < |rest| {
        RemovedNoRepeat(rest, i);
        ConsNoRepeat(s[0], rest[..i] + rest[i + 1..]);
      } else {
        ConsNoRepeat(s[0], rest);
      }
    }
  }

  /** `k` among the first `n` of a + [k] + b: moving it to the front and cutting at `n` commute. */
  lemma TakeHit<K>(n: nat, a: seq<K>, k: K, b: seq<K>)
    requires |a| < n
    ensures Take(n, [k] + (a + b)) == ToFront(Take(n, a + [k] + b), |a|)
  {
    var rest := Take(n - 1 - |a|, b);
    var kept := a + [k] + rest;
    assert Take(n, a + [k] + b) == kept;
    assert kept[..|a|] == a && kept[|a| + 1..] == rest;
    assert Take(n, [k] + (a + b)) == [k] + a + rest;
  }

  /** `k` behind the first `n`, or nowhere: putting it in front and cutting at `n` displaces the last. */
  lemma TakeMiss<K>(n: nat, a: seq<K>, k: K, b: seq<K>)
    requires 1 <= n && (n <= |a| || b == [])
    ensures Take(n, [k] + (a + b)) == [k] + Evict(n, Take(n, a))
    ensures n <= |a| ==> Take(n, a) == Take(n, a + [k] + b)
  {
    if n <= |a| {
      assert a[..n][..n - 1] == a[..n - 1];
      assert ([k] + (a + b))[..n] == [k] + a[..n - 1];
    } else {
      assert a + b == a;
    }
  }

  lemma SplitAt<K>(s: seq<K>, i: nat)
    requires i < |s|
    ensures s == s[..i] + [s[i]] + s[i + 1..]
  {}

  lemma FindIs<K>(s: seq<K>, k: K, i: nat)
    requires NoRepeat(s) && i < |s| && s[i] == k
    ensures Find(s, k) == i
  {}

  /** Using a key moves it to the front of the distinct keys; cut at `n`, it displaces either itself or the last. */
  lemma {:induction false} TouchTake<K>(n: nat, d: seq<K>, k: K)
    requires 1 <= n && NoRepeat(d)
    ensures var kept := Take(n, d);
            var i := Find(kept, k);
            Take(n, [k] + Without(d, k)) == if i < |kept| then ToFront(kept, i) else [k] + Evict(n, kept)
  {
    var i := Find(d, k);
    WithoutOnce(d, k, i);
    if i == |d| {
      TakeMiss(n, d, k, []);
      assert d + [] == d && k !in Take(n, d);
    } else {
      SplitAt(d, i);
      if i < n {
        TakeHit(n, d[..i], k, d[i + 1..]);
        FindIs(Take(n, d), k, i);
      } else {
        TakeMiss(n, d[..i], k, d[i + 1..]);
        assert k !in Take(n, d);
      }
    }
  }

  function Keys<K, V>(es: seq<Entry<K, V>>): seq<K> {
    seq(|es|, i requires 0 <= i < |es| => es[i].key)
  }

  lemma IndexIsFind<K, V>(es: seq<Entry<K, V>>, k: K)
    requires NoRepeat(Keys(es))
    ensures Index(es, k) == Find(Keys(es), k)
  {
    var i, j := Index(es, k), Find(Keys(es), k);
    if i < |es| {
      assert Keys(es)[i] == k;
    }
    if j < |es| {
      assert es[j].key == k;
    }
  }

  lemma KeysToFront<K, V>(es: seq<Entry<K, V>>, i: nat)
    requires i < |es|
    ensures Keys(ToFront(es, i)) == ToFront(Keys(es), i)
  {}

  lemma KeysOfGet<K, V>(es: seq<Entry<K, V>>, k: K)
    requires NoRepeat(Keys(es))
    ensures var keys, i := Keys(es), Find(Keys(es), k);
            Keys(GetStep(es, k)) == if i < |keys| then ToFront(keys, i) else keys
  {
    IndexIsFind(es, k);
    var i := Index(es, k);
    if i < |es| {
      KeysToFront(es, i);
    }
  }

  lemma KeysOfPut<K, V>(capacity: int, es: seq<Entry<K, V>>, k: K, v: V)
    requires NoRepeat(Keys(es)) && |es| <= Room(capacity)
    ensures var keys, i := Keys(es), Find(Keys(es), k);
            Keys(PutStep(capacity, es, k, v))
            == if i < |keys| then ToFront(keys, i) else [k] + Evict(Room(capacity), keys)
  {
    IndexIsFind(es, k);
    var i := Index(es, k);
    if i < |es| {
      KeysToFront(es, i);
      assert Keys(ToFront(es, i)[0 := Entry(k, v)]) == Keys(ToFront(es, i));
    } else {
      assert Keys([Entry(k, v)] + Evict(capacity, es)) == [k] + Evict(Room(capacity), Keys(es));
    }
  }

  /**
   The cache is the access history: its keys, in order of use, are the first
   `capacity` distinct keys of the reversed history of uses.
   */
  lemma {:induction false} KeysAreHistory<K, V>(capacity: int, run: Run<Op<K, V>>)
    ensures var es := After(capacity, run);
            && Keys(es) == Take(Room(capacity), Distinct(Touched(Room(capacity), run)))
            && NoRepeat(Keys(es)) && |es| <= Room(capacity)
  {
    var room := Room(capacity);
    if run.Then? {
      KeysAreHistory(capacity, run.past);
      hide After, Distinct;
      KeysOfStep(capacity, run.past, run.last);
    }
    assert Keys(After(capacity, run)) == Take(room, Distinct(Touched(room, run)));
    DistinctNoRepeat(Touched(room, run));
    assert |After(capacity, run)| == |Keys(After(capacity, run))|;
  }

  lemma KeysOfStep<K, V>(capacity: int, past: Run<Op<K, V>>, op: Op<K, V>)
    requires var es := After(capacity, past);
             && Keys(es) == Take(Room(capacity), Distinct(Touched(Room(capacity), past)))
             && NoRepeat(Keys(es)) && |es| <= Room(capacity)
    ensures var run := Then(past, op);
            Keys(After(capacity, run)) == Take(Room(capacity), Distinct(Touched(Room(capacity), run)))
  {
    var room, before := Room(capacity), After(capacity, past);
    DistinctNoRepeat(Touched(room, past));
    match op
    case Get(k) =>
      KeysOfGet(before, k);
      TouchTake(room, Distinct(Touched(room, past)), k);
      assert ([k] + Touched(room, past))[1..] == Touched(room, past);
    case Put(k, v) =>
      KeysOfPut(capacity, before, k, v);
      TouchTake(room, Distinct(Touched(room, past)), k);
      assert ([k] + Touched(room, past))[1..] == Touched(room, past);
    case Clear =>
  }

  lemma KeptByPut<K, V>(capacity: int, es: seq<Entry<K, V>>, k: K, v: V, e: Entry<K, V>)
    requires NoRepeat(Keys(es)) && e in PutStep(capacity, es, k, v)
    ensures e == Entry(k, v) || (e in es && e.key != k)
  {
    var i := Index(es, k);
    if e != Entry(k, v) {
      if i < |es| {
        assert e in es[..i] + es[i + 1..];
        var j :| 0 <= j < |es| && j != i && es[j] == e;
        assert Keys(es)[j] != Keys(es)[i];
      } else {
        assert e in Evict(capacity, es);
      }
    }
  }

  lemma KeptByGet<K, V>(es: seq<Entry<K, V>>, k: K, e: Entry<K, V>)
    requires e in GetStep(es, k)
    ensures e in es
  {}

  /** And each cached value is the last one put under its key. */
  lemma {:induction false} ValuesAreLastPut<K, V>(capacity: int, run: Run<Op<K, V>>, e: Entry<K, V>)
    requires e in After(capacity, run)
    ensures LastPut(run, e.key) == Some(e.value)
  {
    var es := After(capacity, run.past);
    match run.last
    case Get(k) =>
      KeptByGet(es, k, e);
      ValuesAreLastPut(capacity, run.past, e);
    case Put(k, v) =>
      KeysAreHistory(capacity, run.past);
      KeptByPut(capacity, es, k, v, e);
      if e != Entry(k, v) {
        ValuesAreLastPut(capacity, run.past, e);
      }
  }

  class Element<K(==), V> {
    const key: K
    var value: V

    constructor (key: K, value: V)
      ensures this.key == key && this.value == value
    {
      this.key, this.value := key, value;
    }
  }

  function Entries<K(==), V>(list: seq<Element<K, V>>): (es: seq<Entry<K, V>>)
    reads list
    ensures |es| == |list|
  {
    seq(|list|, i requires 0 <= i < |list| reads list => Entry(list[i].key, list[i].value))
  }

  /** Map and list hold the same elements, one per key. */
  ghost predicate Agree<K, V>(cache: map<K, Element<K, V>>, list: seq<Element<K, V>>) {
    && NoRepeat(list)
    && (forall k | k in cache :: cache[k] in list && cache[k].key == k)
    && (forall e | e in list :: e.key in cache && cache[e.key] == e)
  }

  lemma ToFrontMembers<T>(s: seq<T>, i: nat)
    requires i < |s|
    ensures forall x :: x in s <==> x in ToFront(s, i)
  {
    SplitAt(s, i);
  }

  lemma ToFrontNoRepeat<T>(s: seq<T>, i: nat)
    requires i < |s| && NoRepeat(s)
    ensures NoRepeat(ToFront(s, i))
  {
    var t := ToFront(s, i);
    assert forall j | 0 <= j < |t| :: t[j] == if j == 0 then s[i] else if j <= i then s[j - 1] else s[j];
  }

  lemma AgreeToFront<K, V>(cache: map<K, Element<K, V>>, list: seq<Element<K, V>>, i: nat)
    requires Agree(cache, list) && i < |list|
    ensures Agree(cache, ToFront(list, i))
  {
    ToFrontMembers(list, i);
    ToFrontNoRepeat(list, i);
  }

  lemma AgreeCons<K, V>(cache: map<K, Element<K, V>>, list: seq<Element<K, V>>, e: Element<K, V>)
    requires Agree(cache, list) && e.key !in cache
    ensures Agree(cache[e.key := e], [e] + list)
  {
    var cache', list' := cache[e.key := e], [e] + list;
    assert e !in list;
    assert forall x :: x in list' <==> x == e || x in list;
  }

  lemma EntriesCons<K, V>(list: seq<Element<K, V>>, e: Element<K, V>)
    ensures Entries([e] + list) == [Entry(e.key, e.value)] + Entries(list)
  {}

  class LRUCache<K(==), V> {
    const capacity: int
    var cache: map<K, Element<K, V>>
    var list: seq<Element<K, V>>

    ghost predicate Valid()
      reads this
    {
      Agree(cache, list)
    }

    function Contents(): seq<Entry<K, V>>
      reads this, list
    {
      Entries(list)
    }

    constructor (capacity: int)
      ensures Valid() && this.capacity == capacity && Contents() == []
    {
      this.capacity, cache, list := capacity, map[], [];
    }

    lemma Located(i: nat)
      requires Valid() && i < |list|
      ensures Index(Contents(), list[i].key) == i
    {
      var es := Contents();
      assert forall j | 0 <= j < |es| :: es[j].key == list[j].key;
    }

    lemma Missing(k: K)
      requires Valid() && k !in cache
      ensures Index(Contents(), k) == |list|
    {
      var es := Contents();
      assert forall j | 0 <= j < |es| :: es[j].key == list[j].key;
    }

    lemma ContentsToFront(i: nat)
      requires i < |list|
      ensures Entries(ToFront(list, i)) == ToFront(Contents(), i)
    {}

    method Position(e: Element<K, V>) returns (i: nat)
      requires e in list
      ensures i < |list| && list[i] == e
    {
      i := 0;
      while list[i] != e
        invariant i < |list| && e in list[i..]
        decreases |list| - i
      {
        i := i + 1;
      }
    }

    method MoveToFront(e: Element<K, V>) returns (ghost i: nat)
      requires Valid() && e in list
      modifies this`list
      ensures Valid()
      ensures i < |old(list)| && list == ToFront(old(list), i) && list[0] == e
      ensures Contents() == ToFront(old(Contents()), i) && i == Index(old(Contents()), e.key)
    {
      var at := Position(e);
      i := at;
      Located(at);
      ContentsToFront(at);
      AgreeToFront(cache, list, at);
      list := ToFront(list, at);
    }

    method Get(key: K) returns (r: Option<V>)
      requires Valid()
      modifies this`list
      ensures Valid()
      ensures Contents() == GetStep(old(Contents()), key)
      ensures var es, i := old(Contents()), Index(old(Contents()), key);
              r == if i < |es| then Some(es[i].value) else None
    {
      if key in cache {
        var elem := cache[key];
        ghost var i := MoveToFront(elem);
        return Some(elem.value);
      }
      Missing(key);
      return None;
    }

    method RemoveOldest()
      requires Valid()
      modifies this
      ensures Valid()
      ensures list == if old(list) == [] then [] else old(list)[..|old(list)| - 1]
      ensures forall k | k in cache :: k in old(cache)
    {
      if list != [] {
        var elem := list[|list| - 1];
        list := list[..|list| - 1];
        cache := cache - {elem.key};
      }
    }

    method Refresh(elem: Element<K, V>, value: V)
      requires Valid() && elem in list
      modifies this`list, elem`value
      ensures Valid()
      ensures Contents() == PutStep(capacity, old(Contents()), elem.key, value)
      ensures forall e | e in list :: e in old(list)
    {
      ghost var i := MoveToFront(elem);
      elem.value := value;
      assert Contents() == ToFront(old(Contents()), i)[0 := Entry(elem.key, value)];
    }

    /** Capacity check and eviction; the map loses the key the list loses. */
    method MakeRoom()
      requires Valid()
      modifies this
      ensures Valid() && Contents() == Evict(capacity, old(Contents()))
      ensures forall k | k in cache :: k in old(cache)
      ensures forall e | e in list :: e in old(list)
    {
      if |list| >= capacity {
        RemoveOldest();
      }
      assert list == Evict(capacity, old(list));
    }

    method Insert(key: K, value: V)
      requires Valid() && key !in cache
      modifies this
      ensures Valid()
      ensures Contents() == PutStep(capacity, old(Contents()), key, value)
      ensures list != [] && fresh(list[0]) && forall e | e in list[1..] :: e in old(list)
    {
      hide Agree;
      Missing(key);
      MakeRoom();
      var elem := new Element(key, value);
      AgreeCons(cache, list, elem);
      EntriesCons(list, elem);
      list := [elem] + list;
      cache := cache[key := elem];
    }

    method Put(key: K, value: V)
      requires Valid()
      modifies this, list
      ensures Valid()
      ensures Contents() == PutStep(capacity, old(Contents()), key, value)
      ensures forall e | e in list :: e in old(list) || fresh(e)
    {
      if key in cache {
        Refresh(cache[key], value);
      } else {
        Insert(key, value);
        assert list == [list[0]] + list[1..];
      }
    }

    method Clear()
      modifies this
      ensures Valid() && Contents() == []
    {
      cache, list := map[], [];
    }
  }
}
