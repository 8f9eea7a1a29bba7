/**
 Following the cursors over one list: when it ends, and when the pages are the list.
 */
module FeedCursors {
  import opened Feed

  /** The cursor after `n` pages. */
  function CursorAfter(items: seq<FeedItem>, limit: int, n: nat): string
    requires 1 <= limit
  {
    if n == 0 then "" else Page(items, limit, CursorAfter(items, limit, n - 1)).1
  }

  /** The first `n` pages, one after the other. */
  function Collected(items: seq<FeedItem>, limit: int, n: nat): seq<FeedItem>
    requires 1 <= limit
  {
    if n == 0 then [] else Collected(items, limit, n - 1) + Page(items, limit, CursorAfter(items, limit, n - 1)).0
  }

  /** A client that stops at the first empty cursor asks for `n` pages. */
  ghost predicate Ends(items: seq<FeedItem>, limit: int, n: nat)
    requires 1 <= limit
  {
    1 <= n && CursorAfter(items, limit, n) == "" && forall k | 1 <= k < n :: CursorAfter(items, limit, k) != ""
  }

  /** Where a page begins and ends in the list. */
  function Begin(items: seq<FeedItem>, cursor: string): (k: nat)
    ensures k <= |items|
  {
    AfterInRange(items, cursor, 0);
    if cursor == "" then 0 else After(items, cursor, 0)
  }

  function Span(items: seq<FeedItem>, limit: int, cursor: string): (nat, nat)
    requires 1 <= limit
  {
    if |items| <= limit then (0, |items|)
    else
      var k := Begin(items, cursor);
      (k, if k + limit > |items| then |items| else k + limit)
  }

  function Range(i: nat, j: nat): seq<nat>
    requires i <= j
  {
    seq(j - i, k requires 0 <= k < j - i => i + k)
  }

  lemma PageIsSpan(items: seq<FeedItem>, limit: int, cursor: string)
    requires 1 <= limit
    ensures var (i, j) := Span(items, limit, cursor);
            && i <= j <= |items| && j - i <= limit && (j < |items| ==> j - i == limit && limit < |items|)
            && Page(items, limit, cursor) == (items[i..j], if j < |items| then items[j - 1].id else "")
  {
    assert items[0..|items|] == items;
  }

  /** The positions of the items that the first `n` pages show. */
  function Shown(items: seq<FeedItem>, limit: int, n: nat): seq<nat>
    requires 1 <= limit
  {
    if n == 0 then []
    else
      PageIsSpan(items, limit, CursorAfter(items, limit, n - 1));
      var (i, j) := Span(items, limit, CursorAfter(items, limit, n - 1));
      Shown(items, limit, n - 1) + Range(i, j)
  }

  lemma NoPages(items: seq<FeedItem>, limit: int)
    requires 1 <= limit
    ensures CursorAfter(items, limit, 0) == "" && Shown(items, limit, 0) == [] && Collected(items, limit, 0) == []
  {}

  /** One more page, in positions and in items. */
  lemma OnePage(items: seq<FeedItem>, limit: int, n: nat)
    requires 1 <= limit
    ensures var cursor := CursorAfter(items, limit, n);
            var (i, j) := Span(items, limit, cursor);
            && i <= j <= |items| && j - i <= limit && (j < |items| ==> j - i == limit && limit < |items|)
            && (limit < |items| ==> i == Begin(items, cursor))
            && CursorAfter(items, limit, n + 1) == (if j < |items| then items[j - 1].id else "")
            && Shown(items, limit, n + 1) == Shown(items, limit, n) + Range(i, j)
            && |Shown(items, limit, n + 1)| == |Shown(items, limit, n)| + (j - i)
            && Collected(items, limit, n + 1) == Collected(items, limit, n) + items[i..j]
  {
    PageIsSpan(items, limit, CursorAfter(items, limit, n));
  }

  /** In numbers only. */
  lemma PageLength(items: seq<FeedItem>, limit: int, n: nat) returns (i: nat, j: nat)
    requires 1 <= limit
    ensures i <= j <= |items| && (j < |items| ==> j - i == limit)
    ensures limit < |items| ==> i == Begin(items, CursorAfter(items, limit, n))
    ensures CursorAfter(items, limit, n + 1) == (if j < |items| && j > 0 then items[j - 1].id else "")
    ensures |Shown(items, limit, n + 1)| == |Shown(items, limit, n)| + j - i
  {
    OnePage(items, limit, n);
    var span := Span(items, limit, CursorAfter(items, limit, n));
    i, j := span.0, span.1;
  }

  /** Item by item, `got` is what `shown` says. */
  predicate Reads(items: seq<FeedItem>, got: seq<FeedItem>, shown: seq<nat>) {
    |got| == |shown| && forall i | 0 <= i < |shown| :: shown[i] < |items| && got[i] == items[shown[i]]
  }

  lemma SliceIsRange(items: seq<FeedItem>, got: seq<FeedItem>, shown: seq<nat>, i: nat, j: nat)
    requires i <= j <= |items| && Reads(items, got, shown)
    ensures Reads(items, got + items[i..j], shown + Range(i, j))
  {}

  lemma {:induction false} CollectedIsShown(items: seq<FeedItem>, limit: int, n: nat)
    requires 1 <= limit
    ensures Reads(items, Collected(items, limit, n), Shown(items, limit, n)) && |Shown(items, limit, n)| <= n * limit
  {
    hide Collected, Shown, CursorAfter, Span, Begin, Range, Page;
    NoPages(items, limit);
    if n > 0 {
      hide Reads;
      CollectedIsShown(items, limit, n - 1);
      OnePage(items, limit, n - 1);
      Times(n - 1, limit);
      var (i, j) := Span(items, limit, CursorAfter(items, limit, n - 1));
      SliceIsRange(items, Collected(items, limit, n - 1), Shown(items, limit, n - 1), i, j);
    }
  }

  /** Every item is shown once, in order. */
  ghost predicate ShowsEachOnce(items: seq<FeedItem>, limit: int)
    requires 1 <= limit
  {
    exists n :: Ends(items, limit, n) && Shown(items, limit, n) == Range(0, |items|)
  }

  /** The pages together read like the list. */
  ghost predicate ReadsLikeList(items: seq<FeedItem>, limit: int)
    requires 1 <= limit
  {
    exists n :: Ends(items, limit, n) && Collected(items, limit, n) == items
  }

  lemma EachOnceReadsLikeList(items: seq<FeedItem>, limit: int)
    requires 1 <= limit && ShowsEachOnce(items, limit)
    ensures ReadsLikeList(items, limit)
  {
    var n: nat :| Ends(items, limit, n) && Shown(items, limit, n) == Range(0, |items|);
    CollectedIsShown(items, limit, n);
    assert Collected(items, limit, n) == items;
  }

  // ---------------------------------------------------------------- marked page ends suffice

  /** The first `k` pages end where they should. */
  lemma {:induction false} InStep(items: seq<FeedItem>, limit: int, k: nat)
    requires 1 <= limit < |items| && GoodEnds(items, limit) && k * limit < |items|
    ensures CursorAfter(items, limit, k) == CursorAt(items, k * limit)
    ensures Shown(items, limit, k) == Range(0, k * limit)
  {
    hide Shown, Collected, CursorAfter, Span, Begin, Page, GoodEnds, Range;
    NoPages(items, limit);
    JoinRanges(0, 0);
    if k > 0 {
      Times(k - 1, limit);
      InStep(items, limit, k - 1);
      BeginsAt(items, limit, k - 1);
      OnePage(items, limit, k - 1);
      SpanAt(items, limit, CursorAfter(items, limit, k - 1), (k - 1) * limit);
      JoinRanges((k - 1) * limit, k * limit);
    }
  }

  lemma BeginsAt(items: seq<FeedItem>, limit: int, k: nat)
    requires 1 <= limit && GoodEnds(items, limit) && k * limit < |items|
    ensures Begin(items, CursorAt(items, k * limit)) == k * limit
  {
    assert EndMarked(items, limit, k);
    if k > 0 {
      Times(k - 1, limit);
      AfterFinds(items, k * limit, 0);
    }
  }

  lemma NextCursor(items: seq<FeedItem>, limit: int, n: nat)
    requires 1 <= limit && GoodEnds(items, limit) && 1 <= n && n * limit < |items|
    ensures CursorAfter(items, limit, n) != ""
  {
    Times(n - 1, limit);
    Times(n, limit);
    InStep(items, limit, n);
    assert EndMarked(items, limit, n);
    hide CursorAfter, GoodEnds;
  }

  lemma MarkedEndsSuffice(items: seq<FeedItem>, limit: int) returns (n: nat)
    requires 1 <= limit && GoodEnds(items, limit)
    ensures Ends(items, limit, n) && Shown(items, limit, n) == Range(0, |items|)
    ensures |items| <= n * limit && (n == 1 || (n - 1) * limit < |items|)
  {
    hide CursorAfter, Page, Shown, Range, Marks;
    n := 1;
    while n * limit < |items|
      invariant 1 <= n && (n == 1 || (n - 1) * limit < |items|)
      invariant forall k | 1 <= k < n :: CursorAfter(items, limit, k) != ""
      decreases |items| - n * limit
    {
      Times(n, limit);
      NextCursor(items, limit, n);
      n := n + 1;
    }
    LastPage(items, limit, n);
  }

  lemma LastPage(items: seq<FeedItem>, limit: int, n: nat)
    requires 1 <= limit && GoodEnds(items, limit) && 1 <= n
    requires |items| <= n * limit && (n == 1 || (n - 1) * limit < |items|)
    ensures CursorAfter(items, limit, n) == "" && Shown(items, limit, n) == Range(0, |items|)
  {
    hide Page, Begin, GoodEnds, CursorAfter, Shown, Collected, Range;
    NoPages(items, limit);
    if n > 1 {
      Times(n - 2, limit);
      InStep(items, limit, n - 1);
      BeginsAt(items, limit, n - 1);
    }
    var k := if n == 1 then 0 else (n - 1) * limit;
    Times(n - 1, limit);
    OnePage(items, limit, n - 1);
    SpanAt(items, limit, CursorAfter(items, limit, n - 1), k);
    JoinRanges(0, 0);
    JoinRanges(k, |items|);
  }

  lemma SpanAt(items: seq<FeedItem>, limit: int, cursor: string, k: nat)
    requires 1 <= limit && (if |items| <= limit then k == 0 else Begin(items, cursor) == k)
    ensures Span(items, limit, cursor) == (k, if k + limit > |items| then |items| else k + limit)
  {}

  lemma JoinRanges(i: nat, j: nat)
    requires i <= j
    ensures Range(0, i) + Range(i, j) == Range(0, j) && Range(0, 0) == []
  {}

  // ---------------------------------------------------------------- and are needed

  lemma {:induction false} AfterFirst(items: seq<FeedItem>, k: nat, i: nat)
    requires i < k <= |items| && forall j | 0 <= j < i :: items[j].id != items[k - 1].id
    ensures After(items, items[k - 1].id, i) <= k
    ensures After(items, items[k - 1].id, i) == k && items[k - 1].id != "" ==> Marks(items, k)
    decreases k - i
  {
    if i < k - 1 && items[i].id != items[k - 1].id {
      AfterFirst(items, k, i + 1);
    }
  }

  /** After `k` pages the next one begins where they end. */
  predicate Aligned(items: seq<FeedItem>, limit: int, k: nat)
    requires 1 <= limit
  {
    Begin(items, CursorAfter(items, limit, k)) == k * limit
  }

  /** A full page that begins in the right place ends in the right place, and the next begins no later. */
  lemma NextBegins(items: seq<FeedItem>, limit: int, k: nat)
    requires 1 <= limit && Aligned(items, limit, k) && CursorAfter(items, limit, k + 1) != ""
    ensures var end := (k + 1) * limit;
            && 0 < end < |items| && CursorAfter(items, limit, k + 1) == items[end - 1].id
            && Begin(items, items[end - 1].id) <= end
            && (Aligned(items, limit, k + 1) ==> Marks(items, end))
  {
    Times(k, limit);
    PageIsSpan(items, limit, CursorAfter(items, limit, k));
    AfterFirst(items, (k + 1) * limit, 0);
  }

  /** As long as there is a next cursor, pages are full. */
  lemma FullPage(items: seq<FeedItem>, limit: int, k: nat)
    requires 1 <= limit && CursorAfter(items, limit, k + 1) != ""
    ensures |Shown(items, limit, k + 1)| == |Shown(items, limit, k)| + limit
  {
    var i, j := PageLength(items, limit, k);
  }

  lemma {:induction false} FullPages(items: seq<FeedItem>, limit: int, k: nat)
    requires 1 <= limit && forall j | 1 <= j <= k :: CursorAfter(items, limit, j) != ""
    ensures |Shown(items, limit, k)| == k * limit
  {
    hide CursorAfter, Page, Span;
    if k == 0 {
      assert Shown(items, limit, 0) == [];
    } else {
      FullPages(items, limit, k - 1);
      FullPage(items, limit, k - 1);
      Times(k - 1, limit);
    }
  }

  lemma AlignedIsMarked(items: seq<FeedItem>, limit: int, n: nat)
    requires 1 <= limit && Ends(items, limit, n) && |items| <= n * limit
    requires forall k | 0 <= k < n :: Aligned(items, limit, k)
    ensures GoodEnds(items, limit)
  {
    hide CursorAfter, Begin, Page, Marks, Aligned;
    forall m: nat ensures EndMarked(items, limit, m) {
      if 1 <= m && m * limit < |items| {
        TimesLess(m, n, limit);
        assert Aligned(items, limit, m - 1) && Aligned(items, limit, m);
        NextBegins(items, limit, m - 1);
      }
    }
  }

  lemma TimesLess(m: nat, n: nat, limit: int)
    requires 1 <= limit && m * limit < n * limit
    ensures m < n
  {}

  lemma {:induction false} ShownExtends(items: seq<FeedItem>, limit: int, k: nat, n: nat)
    requires 1 <= limit && k <= n
    ensures Shown(items, limit, k) <= Shown(items, limit, n)
  {
    if k < n {
      ShownExtends(items, limit, k, n - 1);
    }
  }

  lemma BeginsAtFirst(items: seq<FeedItem>, limit: int)
    requires 1 <= limit
    ensures Aligned(items, limit, 0)
  {}

  lemma {:induction false} OnceIsAligned(items: seq<FeedItem>, limit: int, n: nat, k: nat)
    requires 1 <= limit && Ends(items, limit, n) && Shown(items, limit, n) == Range(0, |items|) && k < n
    ensures Aligned(items, limit, k)
  {
    hide Shown, CursorAfter, Begin, Page, Span, Marks;
    if k == 0 {
      BeginsAtFirst(items, limit);
    } else {
      OnceIsAligned(items, limit, n, k - 1);
      NextBegins(items, limit, k - 1);
      FullPages(items, limit, k);
      OnePage(items, limit, k);
      ShownExtends(items, limit, k + 1, n);
      Times(k - 1, limit);
      var (i, j) := Span(items, limit, CursorAfter(items, limit, k));
      assert Shown(items, limit, k + 1)[k * limit] == Range(i, j)[0];
    }
  }

  /**
   Following the cursors ends having shown every item once, in order, exactly when the id
   at the end of every page but the last is not empty and no earlier item has it.
   Elsewhere ids may repeat or be empty.
   */
  lemma EachOnceExactlyWhen(items: seq<FeedItem>, limit: int)
    requires 1 <= limit
    ensures ShowsEachOnce(items, limit) <==> GoodEnds(items, limit)
  {
    if GoodEnds(items, limit) {
      var n := MarkedEndsSuffice(items, limit);
    }
    if ShowsEachOnce(items, limit) {
      var n: nat :| Ends(items, limit, n) && Shown(items, limit, n) == Range(0, |items|);
      CollectedIsShown(items, limit, n);
      forall k | 0 <= k < n ensures Aligned(items, limit, k) {
        OnceIsAligned(items, limit, n, k);
      }
      AlignedIsMarked(items, limit, n);
    }
  }

  predicate HasIds(items: seq<FeedItem>) {
    forall i | 0 <= i < |items| :: items[i].id != ""
  }

  /** Without empty ids the client goes on to the end of the list from wherever it is. */
  lemma {:induction false} RestIsShown(items: seq<FeedItem>, limit: int, n: nat, k: nat)
    requires 1 <= limit < |items| && HasIds(items) && Ends(items, limit, n) && k < n
    ensures |Shown(items, limit, n)| - |Shown(items, limit, k)| >= |items| - Begin(items, CursorAfter(items, limit, k))
    decreases n - k
  {
    hide Shown, CursorAfter, Begin, Page;
    var i, j := PageLength(items, limit, k);
    if k + 1 < n {
      RestIsShown(items, limit, n, k + 1);
      BeginsBy(items, j);
    }
  }

  lemma BeginsBy(items: seq<FeedItem>, k: nat)
    requires 1 <= k <= |items|
    ensures Begin(items, items[k - 1].id) <= k
  {
    AfterFirst(items, k, 0);
  }

  lemma {:induction false} LikeListIsAligned(items: seq<FeedItem>, limit: int, n: nat, k: nat)
    requires 1 <= limit && HasIds(items) && Ends(items, limit, n) && |Shown(items, limit, n)| == |items| && k < n
    ensures Aligned(items, limit, k)
  {
    hide Shown, CursorAfter, Begin, Page, Marks, HasIds;
    if k == 0 {
      BeginsAtFirst(items, limit);
    } else {
      LikeListIsAligned(items, limit, n, k - 1);
      NextBegins(items, limit, k - 1);
      FullPages(items, limit, k);
      RestIsShown(items, limit, n, k);
    }
  }

  /** When every item has an id, the same is the exact condition for the pages to read like the list. */
  lemma ReadsLikeListExactlyWhen(items: seq<FeedItem>, limit: int)
    requires 1 <= limit && HasIds(items)
    ensures ReadsLikeList(items, limit) <==> GoodEnds(items, limit)
  {
    if GoodEnds(items, limit) {
      EachOnceExactlyWhen(items, limit);
      EachOnceReadsLikeList(items, limit);
    }
    if ReadsLikeList(items, limit) {
      var n: nat :| Ends(items, limit, n) && Collected(items, limit, n) == items;
      CollectedIsShown(items, limit, n);
      hide Ends, Collected, Shown, HasIds, GoodEnds;
      forall k | 0 <= k < n ensures Aligned(items, limit, k) {
        LikeListIsAligned(items, limit, n, k);
      }
      AlignedIsMarked(items, limit, n);
    }
  }

  /** In particular for distinct non-empty ids: as many pages as it takes, and together they are the list. */
  lemma PagesAreTheList(items: seq<FeedItem>, limit: int) returns (n: nat)
    requires GoodIds(items) && 1 <= limit
    ensures Ends(items, limit, n) && Collected(items, limit, n) == items
    ensures |items| <= n * limit && (n == 1 || (n - 1) * limit < |items|)
  {
    GoodIdsMarkEnds(items, limit);
    n := MarkedEndsSuffice(items, limit);
    CollectedIsShown(items, limit, n);
    assert Collected(items, limit, n) == items;
  }

  // ---------------------------------------------------------------- instances

  const REPEATED := [FeedItem("a", "", ""), FeedItem("b", "", ""), FeedItem("a", "", ""), FeedItem("c", "", "")]

  lemma RepeatedPages()
    ensures Page(REPEATED, 1, "").1 == "a" && Page(REPEATED, 1, "a").1 == "b" && Page(REPEATED, 1, "b").1 == "a"
  {
    assert After(REPEATED, "a", 0) == 1;
    assert After(REPEATED, "b", 1) == 2;
  }

  /** With an id that occurs twice, following the cursors can go round for ever. */
  lemma {:induction false} RepeatedIdLoops(n: nat)
    ensures CursorAfter(REPEATED, 1, n + 1) == if n % 2 == 0 then "a" else "b"
  {
    hide Page, REPEATED;
    RepeatedPages();
    if n > 0 {
      RepeatedIdLoops(n - 1);
    }
  }

  const FIRST := [FeedItem("a", "", ""), FeedItem("b", "", "")]
  const SECOND := [FeedItem("", "", ""), FeedItem("a", "", "")]
  const THIRD := [FeedItem("b", "", ""), FeedItem("", "", "")]

  lemma HiddenPages()
    ensures var items := FIRST + SECOND + THIRD;
            Page(items, 2, "") == (FIRST, "b") && Page(items, 2, "b") == (SECOND, "a")
                && Page(items, 2, "a") == (THIRD, "")
  {
    var items := FIRST + SECOND + THIRD;
    assert After(items, "b", 1) == 2 && After(items, "b", 0) == 2 && After(items, "a", 0) == 1;
    assert items[0..2] == FIRST && items[2..4] == SECOND && items[1..3] == THIRD;
  }

  /**
   With an empty id, pages can read like the list although they have shown the second and
   third items twice and the last two never: so without ids the condition is exact for
   what is shown, and only sufficient for how it reads.
   */
  lemma EmptyIdHidesALoop()
    ensures var items := FIRST + SECOND + THIRD;
            ReadsLikeList(items, 2) && !ShowsEachOnce(items, 2) && !GoodEnds(items, 2)
  {
    var items := FIRST + SECOND + THIRD;
    HiddenPages();
    hide Page;
    assert CursorAfter(items, 2, 0) == "" && CursorAfter(items, 2, 1) == "b";
    assert CursorAfter(items, 2, 2) == "a" && CursorAfter(items, 2, 3) == "";
    assert Collected(items, 2, 0) == [] && Collected(items, 2, 1) == FIRST && Collected(items, 2, 2) == FIRST + SECOND;
    assert Collected(items, 2, 3) == items && Ends(items, 2, 3);
    assert !EndMarked(items, 2, 2) by {
      assert items[0].id == items[3].id;
    }
    EachOnceExactlyWhen(items, 2);
  }
}
