/**
 The audit chain of privacy actions: leaves, the rolling root over them, and what a root
 commits to.  Collision freedom of the hash is not assumed: where it matters, the lemmas
 produce the collision.
 */
module AuditChain {
  import opened Wrappers

  type Bytes = seq<bv8>

  type Digest = d: Bytes | |d| == 32 witness ZERO

  const ZERO: Bytes := seq(32, _ => 0)

  /** SHA-256 is library code. */
  type Hash = Bytes -> Digest

  const COLON: bv8 := 0x3A

  // ---------------------------------------------------------------- the root

  function Root(h: Hash, leaves: Run<Digest>): Digest {
    match leaves
    case Start => ZERO
    case Then(past, leaf) => if past == Start then leaf else h(Root(h, past) + leaf)
  }

  predicate Collision(h: Hash, x: Bytes, y: Bytes) {
    x != y && h(x) == h(y)
  }

  /** The shorter list is the longer one with its first leaves folded into their root. */
  predicate FoldedTail(h: Hash, short: Run<Digest>, long: Run<Digest>) {
    short.Then? && long.Then? &&
    if short.past == Start then short.last == Root(h, long)
    else long.last == short.last && FoldedTail(h, short.past, long.past)
  }

  /** Two non-empty lists with one root: a collision, or one is the other with its first leaves folded. */
  lemma {:induction false} SameRoot(h: Hash, a: Run<Digest>, b: Run<Digest>) returns (x: Bytes, y: Bytes)
    requires a.Then? && b.Then? && Length(a) <= Length(b) && Root(h, a) == Root(h, b)
    ensures Collision(h, x, y) || FoldedTail(h, a, b)
  {
    x, y := [], [];
    if a.past != Start {
      x, y := Root(h, a.past) + a.last, Root(h, b.past) + b.last;
      if x == y {
        assert x[..32] == Root(h, a.past) && y[..32] == Root(h, b.past) && x[32..] == a.last && y[32..] == b.last;
        x, y := SameRoot(h, a.past, b.past);
      }
    }
  }

  lemma {:induction false} FoldedToSame(h: Hash, a: Run<Digest>, b: Run<Digest>)
    requires Length(a) == Length(b) && FoldedTail(h, a, b)
    ensures a == b
  {
    if a.past != Start {
      FoldedToSame(h, a.past, b.past);
    }
  }

  /**
   A root binds the leaves of a list of known length: two lists of one length and one root are
   equal, or here is a collision.
   */
  lemma RootBindsLeaves(h: Hash, a: Run<Digest>, b: Run<Digest>) returns (x: Bytes, y: Bytes)
    requires Length(a) == Length(b) && Root(h, a) == Root(h, b)
    ensures a == b || Collision(h, x, y)
  {
    x, y := [], [];
    if a.Then? {
      x, y := SameRoot(h, a, b);
      if !Collision(h, x, y) {
        FoldedToSame(h, a, b);
      }
    }
  }

  lemma {:induction false} FoldedHasSameRoot(h: Hash, short: Run<Digest>, long: Run<Digest>)
    requires FoldedTail(h, short, long)
    ensures Root(h, short) == Root(h, long)
  {
    if short.past != Start {
      FoldedHasSameRoot(h, short.past, long.past);
    }
  }

  /** It does not bind the length: any two leaves and their root as the only leaf agree. */
  lemma LengthIsNotBound(h: Hash, a: Digest, b: Digest)
    ensures Root(h, Then(Then(Start, a), b)) == Root(h, Then(Start, h(a + b)))
  {
    FoldedHasSameRoot(h, Then(Start, h(a + b)), Then(Then(Start, a), b));
  }

  // ---------------------------------------------------------------- privacy actions

  datatype Action = Action(userId: Bytes, action: Bytes)

  function Text(a: Action): Bytes {
    a.userId + [COLON] + a.action
  }

  function Leaves(h: Hash, actions: Run<Action>): Run<Digest> {
    match actions
    case Start => Start
    case Then(past, a) => Then(Leaves(h, past), h(Text(a)))
  }

  predicate PlainUsers(actions: Run<Action>) {
    actions.Then? ==> PlainUsers(actions.past) && COLON !in actions.last.userId
  }

  lemma {:induction false} LeavesLength(h: Hash, actions: Run<Action>)
    ensures Length(Leaves(h, actions)) == Length(actions)
  {
    if actions.Then? {
      LeavesLength(h, actions.past);
    }
  }

  /** One text read with its colon in two places: the longer user id takes in a part of the shorter one's action. */
  predicate ReadsOn(a: Action, b: Action) {
    var n := |a.userId|;
    && n < |b.userId| && b.userId[..n + 1] == a.userId + [COLON]
    && a.action == b.userId[n + 1..] + [COLON] + b.action
  }

  lemma ReadsOnSame(a: Action, b: Action)
    requires ReadsOn(a, b)
    ensures Text(a) == Text(b)
  {
    var n := |a.userId|;
    assert b.userId == b.userId[..n + 1] + b.userId[n + 1..];
  }

  lemma SameReadsOn(a: Action, b: Action)
    requires Text(a) == Text(b) && |a.userId| < |b.userId|
    ensures ReadsOn(a, b)
  {
    var n, m, text := |a.userId|, |b.userId|, Text(a);
    assert text[..m] == b.userId && text[..n] == a.userId && text[n] == COLON;
    assert a.action == text[n + 1..] && text[n + 1..] == text[n + 1..m] + text[m..];
    assert text[m..] == [COLON] + b.action && b.userId[n + 1..] == text[n + 1..m];
    assert b.userId[..n + 1] == text[..n] + [text[n]];
  }

  /** Two different actions have one text exactly when one user id reads on into the other's action, past a colon. */
  lemma SameTextExactlyWhen(a: Action, b: Action)
    ensures Text(a) == Text(b) <==> a == b || ReadsOn(a, b) || ReadsOn(b, a)
  {
    if Text(a) == Text(b) {
      if |a.userId| < |b.userId| {
        SameReadsOn(a, b);
      } else if |b.userId| < |a.userId| {
        SameReadsOn(b, a);
      } else {
        assert a.userId == Text(a)[..|a.userId|] && a.action == Text(a)[|a.userId| + 1..];
        assert b.userId == Text(b)[..|b.userId|] && b.action == Text(b)[|b.userId| + 1..];
      }
    }
    if ReadsOn(a, b) {
      ReadsOnSame(a, b);
    }
    if ReadsOn(b, a) {
      ReadsOnSame(b, a);
    }
  }

  /** Action by action, the two histories have one text. */
  predicate ReadAlike(a: Run<Action>, b: Run<Action>) {
    match a
    case Start => b == Start
    case Then(past, action) =>
      b.Then? && ReadAlike(past, b.past) && (action == b.last || ReadsOn(action, b.last) || ReadsOn(b.last, action))
  }

  lemma {:induction false} SameLeaves(h: Hash, a: Run<Action>, b: Run<Action>) returns (x: Bytes, y: Bytes)
    requires Leaves(h, a) == Leaves(h, b)
    ensures ReadAlike(a, b) || Collision(h, x, y)
  {
    x, y := [], [];
    if a.Then? {
      x, y := SameLeaves(h, a.past, b.past);
      if !Collision(h, x, y) {
        x, y := Text(a.last), Text(b.last);
        SameTextExactlyWhen(a.last, b.last);
      }
    }
  }

  /**
   The root commits to who did what, in which order: of two histories of one length and
   one root every action of one is the other's, or reads on into it past a colon in a user
   id; or here is a collision.
   */
  lemma RootBindsHistory(h: Hash, a: Run<Action>, b: Run<Action>) returns (x: Bytes, y: Bytes)
    requires Length(a) == Length(b) && Root(h, Leaves(h, a)) == Root(h, Leaves(h, b))
    ensures ReadAlike(a, b) || Collision(h, x, y)
  {
    LeavesLength(h, a);
    LeavesLength(h, b);
    x, y := RootBindsLeaves(h, Leaves(h, a), Leaves(h, b));
    if !Collision(h, x, y) {
      x, y := SameLeaves(h, a, b);
    }
  }

  /** More it cannot tell: such histories have one root. */
  lemma {:induction false} AlikeHaveOneRoot(h: Hash, a: Run<Action>, b: Run<Action>)
    requires ReadAlike(a, b)
    ensures Leaves(h, a) == Leaves(h, b) && Root(h, Leaves(h, a)) == Root(h, Leaves(h, b))
  {
    if a.Then? {
      AlikeHaveOneRoot(h, a.past, b.past);
      SameTextExactlyWhen(a.last, b.last);
    }
  }

  /** Without colons in user ids they are the same history. */
  lemma {:induction false} PlainAlikeAreEqual(a: Run<Action>, b: Run<Action>)
    requires PlainUsers(a) && PlainUsers(b) && ReadAlike(a, b)
    ensures a == b
  {
    if a.Then? {
      PlainAlikeAreEqual(a.past, b.past);
      ReadsOnHasColon(a.last, b.last);
      ReadsOnHasColon(b.last, a.last);
    }
  }

  lemma ReadsOnHasColon(a: Action, b: Action)
    ensures ReadsOn(a, b) ==> COLON in b.userId
  {
    if ReadsOn(a, b) {
      assert b.userId[..|a.userId| + 1][|a.userId|] == COLON;
    }
  }

  /** A user id with a colon can stand for another user's action. */
  lemma ColonConfuses(h: Hash)
    ensures var a, b := Action([1, COLON, 2], [3]), Action([1], [2, COLON, 3]);
            a != b && Leaves(h, Then(Start, a)) == Leaves(h, Then(Start, b))
  {
    assert Text(Action([1, COLON, 2], [3])) == [1, COLON, 2, COLON, 3] == Text(Action([1], [2, COLON, 3]));
  }

  // ---------------------------------------------------------------- the tree

  /** A Go byte slice from the beginning of its backing array. */
  datatype Slice = Slice(arr: array<bv8>, len: nat)

  predicate Full(s: Slice) {
    s.len == s.arr.Length == 32
  }

  function FirstLeaves(leaves: seq<Slice>, n: nat): Run<Digest>
    requires n <= |leaves| && forall s | s in leaves :: Full(s)
    reads set s | s in leaves :: s.arr
  {
    if n == 0 then Start
    else
      assert Full(leaves[n - 1]);
      var leaf: Digest := leaves[n - 1].arr[..];
      Then(FirstLeaves(leaves, n - 1), leaf)
  }

  lemma {:induction false} FirstOfMoreLeaves(leaves: seq<Slice>, more: Slice, n: nat)
    requires n <= |leaves| && (forall s | s in leaves :: Full(s)) && Full(more)
    ensures FirstLeaves(leaves + [more], n) == FirstLeaves(leaves, n)
  {
    if n > 0 {
      FirstOfMoreLeaves(leaves, more, n - 1);
    }
  }

  class MerkleAuditTree {
    const h: Hash
    var leaves: seq<Slice>

    constructor (h: Hash)
      ensures this.h == h && Valid() && History() == Start
    {
      this.h, leaves := h, [];
    }

    /** Every leaf fills its array, so that appending to it never writes into it. */
    predicate Valid()
      reads this
    {
      forall s | s in leaves :: Full(s)
    }

    function Arrays(): set<object>
      reads this
    {
      set s | s in leaves :: s.arr
    }

    function History(): Run<Digest>
      requires Valid()
      reads this, Arrays()
    {
      FirstLeaves(leaves, |leaves|)
    }

    /** append(s, t...): in place while there is room, otherwise in a new array. */
    method Append(s: Slice, t: Slice) returns (r: Slice)
      requires s.len <= s.arr.Length && t.len <= t.arr.Length
      requires s.len + t.len <= s.arr.Length ==> s.arr != t.arr
      modifies if s.len + t.len <= s.arr.Length then {s.arr} else {}
      ensures r.len == s.len + t.len <= r.arr.Length
      ensures r.arr[..r.len] == old(s.arr[..s.len] + t.arr[..t.len])
      ensures if s.len + t.len <= s.arr.Length then r.arr == s.arr else fresh(r.arr)
    {
      r := Slice(s.arr, s.len + t.len);
      if r.len > s.arr.Length {
        var larger := new bv8[r.len];
        r := Slice(larger, r.len);
        for k := 0 to s.len
          invariant r.arr[..k] == s.arr[..k]
        {
          r.arr[k] := s.arr[k];
        }
      }
      for k := 0 to t.len
        invariant r.arr[..s.len] == old(s.arr[..s.len])
        invariant r.arr[s.len..s.len + k] == t.arr[..k]
      {
        r.arr[s.len + k] := t.arr[k];
      }
    }

    method AppendPrivacyAction(action: Bytes, userId: Bytes)
      requires Valid()
      modifies this
      ensures Valid() && |leaves| == |old(leaves)| + 1 && leaves[..|old(leaves)|] == old(leaves)
          && fresh(leaves[|leaves| - 1].arr)
      ensures History() == Then(old(History()), h(Text(Action(userId, action))))
    {
      var digest := h(userId + [COLON] + action);
      var hash := new bv8[32](i requires 0 <= i < 32 => digest[i]);
      assert hash[..] == digest;
      FirstOfMoreLeaves(leaves, Slice(hash, 32), |leaves|);
      leaves := leaves + [Slice(hash, 32)];
    }

    /** The root over all leaves; nothing is modified, in particular no leaf. */
    method GetRootHash() returns (result: Digest)
      requires Valid()
      ensures result == Root(h, History())
    {
      if |leaves| == 0 {
        return ZERO;
      }
      var root := leaves[0];
      assert Full(root);
      for i := 1 to |leaves|
        invariant root.len == root.arr.Length == 32
        invariant root.arr[..] == Root(h, FirstLeaves(leaves, i))
      {
        assert Full(leaves[i]);
        var combined := Append(root, leaves[i]);
        assert combined.arr[..combined.len] == root.arr[..] + leaves[i].arr[..];
        var digest := h(combined.arr[..combined.len]);
        var hash := new bv8[32](k requires 0 <= k < 32 => digest[k]);
        assert hash[..] == digest;
        root := Slice(hash, 32);
      }
      return root.arr[..];
    }
  }
}
