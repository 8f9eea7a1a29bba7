/**
 A ranked feed read page by page: cursors, the hot cache in front of Redis, and what a
 client that follows the cursors receives while others use the engine.
 */
module Feed {
  import opened Wrappers

  datatype FeedItem = FeedItem(id: string, author: string, content: string)

  const CACHED_ITEMS: nat := 100
  const DEFAULT_LIMIT: int := 20

  // ---------------------------------------------------------------- one page

  /** One past the first item from `i` on that has the id, 0 if there is none. */
  function After(items: seq<FeedItem>, id: string, i: nat): nat
    requires i <= |items|
    decreases |items| - i
  {
    if i == |items| then 0 else if items[i].id == id then i + 1 else After(items, id, i + 1)
  }

  function Page(items: seq<FeedItem>, limit: int, cursor: string): (seq<FeedItem>, string)
    requires 1 <= limit
  {
    if |items| <= limit then (items, "")
    else
      var start := if cursor == "" then 0 else After(items, cursor, 0);
      AfterInRange(items, cursor, 0);
      var end := if start + limit > |items| then |items| else start + limit;
      (items[start..end], if end < |items| then items[end - 1].id else "")
  }

  lemma {:induction false} AfterInRange(items: seq<FeedItem>, id: string, i: nat)
    requires i <= |items|
    ensures After(items, id, i) <= |items|
    decreases |items| - i
  {
    if i < |items| {
      AfterInRange(items, id, i + 1);
    }
  }

  /** The k-th item has an id, and no item before it has the same: as a cursor it stands for position k. */
  predicate Marks(items: seq<FeedItem>, k: nat)
    requires 1 <= k <= |items|
  {
    items[k - 1].id != "" && forall j | 0 <= j < k - 1 :: items[j].id != items[k - 1].id
  }

  predicate EndMarked(items: seq<FeedItem>, limit: int, m: nat) {
    1 <= m && 1 <= limit && m * limit < |items| ==> Marks(items, m * limit)
  }

  /** Every page but the last ends with an item whose id marks its position. */
  ghost predicate GoodEnds(items: seq<FeedItem>, limit: int) {
    forall m: nat :: EndMarked(items, limit, m)
  }

  predicate GoodIds(items: seq<FeedItem>) {
    && (forall i | 0 <= i < |items| :: items[i].id != "")
    && (forall i, j | 0 <= i < j < |items| :: items[i].id != items[j].id)
  }

  lemma GoodIdsMarkEnds(items: seq<FeedItem>, limit: int)
    requires GoodIds(items)
    ensures GoodEnds(items, limit)
  {}

  /** The cursor of a client that has received the first `k` items. */
  function CursorAt(items: seq<FeedItem>, k: nat): string
    requires k <= |items|
  {
    if k == 0 then "" else items[k - 1].id
  }

  lemma {:induction false} AfterFinds(items: seq<FeedItem>, k: nat, i: nat)
    requires i < k <= |items| && Marks(items, k)
    ensures After(items, items[k - 1].id, i) == k
    decreases k - i
  {
    if i < k - 1 {
      AfterFinds(items, k, i + 1);
    }
  }

  /** The page at a cursor that marks its position is the next `limit` items, and its cursor is where it ends. */
  lemma PageAt(items: seq<FeedItem>, limit: int, k: nat)
    requires 1 <= limit < |items| && k < |items| && (k == 0 || Marks(items, k))
    ensures Page(items, limit, CursorAt(items, k))
            == if k + limit < |items| then (items[k..k + limit], CursorAt(items, k + limit)) else (items[k..], "")
  {
    if k > 0 {
      AfterFinds(items, k, 0);
    }
    assert items[k..|items|] == items[k..];
  }

  // ---------------------------------------------------------------- cache and Redis

  /** The hot cache, which may lose entries at any time, and the ranked feeds in Redis. */
  datatype Engine = Engine(hot: map<string, seq<FeedItem>>, redis: map<string, seq<FeedItem>>)

  function HotKey(user: string, cursor: string): string {
    "feed:" + user + ":" + cursor
  }

  function RedisKey(user: string): string {
    "feed:hot:" + user
  }

  function Cut(items: seq<FeedItem>): seq<FeedItem> {
    if |items| > CACHED_ITEMS then items[..CACHED_ITEMS] else items
  }

  /** ComputeRankedFeed stores what it has ranked: all of it in Redis, the first hundred in the cache. */
  function Store(e: Engine, user: string, ranked: seq<FeedItem>): Engine {
    Engine(e.hot[HotKey(user, "") := Cut(ranked)], e.redis[RedisKey(user) := ranked])
  }

  /** The list a request is answered from, if there is one. */
  function Source(e: Engine, user: string, cursor: string): Option<seq<FeedItem>> {
    if HotKey(user, cursor) in e.hot then Some(e.hot[HotKey(user, cursor)])
    else if RedisKey(user) in e.redis then Some(e.redis[RedisKey(user)])
    else None
  }

  function Limit(limit: int): (l: int)
    ensures 1 <= l
  {
    if limit <= 0 then DEFAULT_LIMIT else limit
  }

  function Answer(e: Engine, user: string, limit: int, cursor: string): (seq<FeedItem>, string) {
    var items := Source(e, user, cursor);
    if items.None? then ([], "") else Page(items.value, Limit(limit), cursor)
  }

  /** A miss that Redis can answer is kept in the cache. */
  function Get(e: Engine, user: string, cursor: string): Engine {
    var items := Source(e, user, cursor);
    if items.None? then e else e.(hot := e.hot[HotKey(user, cursor) := items.value])
  }

  // ---------------------------------------------------------------- a client among others

  datatype Event =
    | Next                                             // our client asks for its next page
    | Request(user: string, cursor: string)            // any other request
    | Ranked(user: string, items: seq<FeedItem>)       // a feed is computed anew
    | Evict(key: string)
    | Expire(user: string)

  datatype Client = Client(got: seq<FeedItem>, cursor: string, done: bool)

  datatype World = World(engine: Engine, client: Client)

  function Step(w: World, user: string, limit: int, e: Event): World {
    match e
    case Next =>
      if w.client.done then w
      else
        var (page, next) := Answer(w.engine, user, limit, w.client.cursor);
        World(Get(w.engine, user, w.client.cursor), Client(w.client.got + page, next, next == ""))
    case Request(u, cursor) => w.(engine := Get(w.engine, u, cursor))
    case Ranked(u, items) => w.(engine := Store(w.engine, u, items))
    case Evict(key) => w.(engine := w.engine.(hot := w.engine.hot - {key}))
    case Expire(u) => w.(engine := w.engine.(redis := w.engine.redis - {RedisKey(u)}))
  }

  /** Our client's feed has just been stored, in an engine in whatever state; then the run. */
  function Session(engine: Engine, user: string, items: seq<FeedItem>, limit: int, run: Run<Event>): World {
    match run
    case Start => World(Store(engine, user, items), Client([], "", false))
    case Then(past, e) => Step(Session(engine, user, items, limit, past), user, limit, e)
  }

  /** User ids have no colon; the user's feed is neither computed anew nor dropped from Redis during the session. */
  predicate Undisturbed(run: Run<Event>, user: string) {
    run.Then? ==> Undisturbed(run.past, user) && Harmless(run.last, user)
  }

  predicate Harmless(e: Event, user: string) {
    match e
    case Next => true
    case Request(u, _) => ':' !in u
    case Ranked(u, _) => ':' !in u && u != user
    case Evict(_) => true
    case Expire(u) => u != user
  }

  function Nexts(run: Run<Event>): nat {
    match run
    case Start => 0
    case Then(past, e) => Nexts(past) + if e.Next? then 1 else 0
  }

  /**
   Redis has the new feed; the cache has it too, or its cut for the first page, or what was
   cached under a later cursor before the session began (`before`).
   */
  ghost predicate Serves(e: Engine, before: Engine, user: string, items: seq<FeedItem>) {
    && RedisKey(user) in e.redis && e.redis[RedisKey(user)] == items
    && forall cursor :: HotKey(user, cursor) in e.hot ==>
         MayServe(before, user, items, cursor, e.hot[HotKey(user, cursor)])
  }

  predicate MayServe(before: Engine, user: string, items: seq<FeedItem>, cursor: string, list: seq<FeedItem>) {
    || list == items
    || (cursor == "" && list == Cut(items))
    || (cursor != "" && HotKey(user, cursor) in before.hot && before.hot[HotKey(user, cursor)] == list)
  }

  function FirstColon(s: string, i: nat): nat
    decreases |s| - i
  {
    if i >= |s| || s[i] == ':' then i else FirstColon(s, i + 1)
  }

  lemma {:induction false} FirstColonEndsUser(user: string, cursor: string, i: nat)
    requires ':' !in user && i <= |user|
    ensures FirstColon(user + ":" + cursor, i) == |user|
    decreases |user| - i
  {
    if i < |user| {
      assert (user + ":" + cursor)[i] == user[i];
      FirstColonEndsUser(user, cursor, i + 1);
    }
  }

  lemma HotKeyInjective(u: string, c: string, v: string, d: string)
    requires ':' !in u && ':' !in v && HotKey(u, c) == HotKey(v, d)
    ensures u == v && c == d
  {
    var s, t := u + ":" + c, v + ":" + d;
    assert HotKey(u, c)[5..] == s && HotKey(v, d)[5..] == t;
    FirstColonEndsUser(u, c, 0);
    FirstColonEndsUser(v, d, 0);
    assert u == s[..|u|] && v == t[..|v|] && c == s[|u| + 1..] && d == t[|v| + 1..];
  }

  lemma RedisKeyInjective(u: string, v: string)
    requires RedisKey(u) == RedisKey(v)
    ensures u == v
  {
    assert RedisKey(u)[9..] == u && RedisKey(v)[9..] == v;
  }

  /** What is cached under the client's cursor after m pages, if anything, has the page the new feed has there. */
  predicate OldPageAgrees(e: Engine, user: string, items: seq<FeedItem>, limit: int, m: nat) {
    1 <= m && 1 <= limit && m * limit < |items| ==>
      var cursor := items[m * limit - 1].id;
      HotKey(user, cursor) in e.hot ==> Page(e.hot[HotKey(user, cursor)], limit, cursor) == Page(items, limit, cursor)
  }

  ghost predicate OldPagesAgree(e: Engine, user: string, items: seq<FeedItem>, limit: int) {
    forall m: nat :: OldPageAgrees(e, user, items, limit, m)
  }

  lemma StoreServes(e: Engine, user: string, items: seq<FeedItem>)
    requires ':' !in user
    ensures Serves(Store(e, user, items), e, user, items)
  {
    forall cursor | HotKey(user, cursor) == HotKey(user, "") ensures cursor == "" {
      HotKeyInjective(user, cursor, user, "");
    }
  }

  lemma PutServes(e: Engine, before: Engine, user: string, items: seq<FeedItem>, u: string, c: string,
      list: seq<FeedItem>)
    requires ':' !in user && ':' !in u && Serves(e, before, user, items)
    requires u == user ==> MayServe(before, user, items, c, list)
    ensures Serves(e.(hot := e.hot[HotKey(u, c) := list]), before, user, items)
  {
    forall cursor | HotKey(user, cursor) == HotKey(u, c) ensures u == user && cursor == c {
      HotKeyInjective(user, cursor, u, c);
    }
  }

  lemma StepServes(w: World, before: Engine, user: string, items: seq<FeedItem>, limit: int, e: Event)
    requires ':' !in user && Serves(w.engine, before, user, items) && Harmless(e, user)
    ensures Serves(Step(w, user, limit, e).engine, before, user, items)
  {
    hide MayServe;
    match e
    case Next =>
      if !w.client.done {
        GetServes(w.engine, before, user, items, user, w.client.cursor);
      }
    case Request(u, cursor) =>
      GetServes(w.engine, before, user, items, u, cursor);
    case Ranked(u, list) =>
      if RedisKey(u) == RedisKey(user) {
        RedisKeyInjective(u, user);
      }
      PutServes(w.engine, before, user, items, u, "", Cut(list));
    case Evict(_) =>
    case Expire(u) =>
      if RedisKey(u) == RedisKey(user) {
        RedisKeyInjective(u, user);
      }
  }

  lemma GetServes(e: Engine, before: Engine, user: string, items: seq<FeedItem>, u: string, cursor: string)
    requires ':' !in user && ':' !in u && Serves(e, before, user, items)
    ensures Serves(Get(e, u, cursor), before, user, items)
  {
    if Source(e, u, cursor).Some? {
      PutServes(e, before, user, items, u, cursor, Source(e, u, cursor).value);
    }
  }

  /** Pages of a hundred or more from a longer list: the cut list is one page, and there is no next one. */
  predicate CutHides(items: seq<FeedItem>, limit: int) {
    |items| > 100 && Limit(limit) >= 100
  }

  /** What a client has after its n-th request: n full pages, or all it will ever get. */
  ghost predicate Received(c: Client, items: seq<FeedItem>, limit: int, n: nat) {
    if !c.done then 0 <= n * Limit(limit) <= |items| && (n == 0 || n * Limit(limit) < |items|)
                    && c.got == items[..n * Limit(limit)] && c.cursor == CursorAt(items, n * Limit(limit))
    else c.got == items || (CutHides(items, limit) && c.got == Cut(items))
  }

  lemma CutPage(items: seq<FeedItem>, limit: int)
    requires 1 <= limit < CACHED_ITEMS
    ensures Page(Cut(items), limit, "") == Page(items, limit, "")
  {
    assert |items| > CACHED_ITEMS ==> items[..CACHED_ITEMS][0..limit] == items[0..limit];
  }

  /** The page a client gets that has received the first k items of the list. */
  lemma PageAfter(items: seq<FeedItem>, limit: int, k: nat)
    requires 1 <= limit && k <= |items|
    requires k == 0 || (limit < |items| && k < |items| && Marks(items, k))
    requires k + limit < |items| ==> Marks(items, k + limit)
    ensures var (page, next) := Page(items, limit, CursorAt(items, k));
            if k + limit < |items| then page == items[k..k + limit] && next == CursorAt(items, k + limit) != ""
            else page == items[k..] && next == ""
  {
    if limit < |items| {
      PageAt(items, limit, k);
    } else {
      assert items[0..] == items;
    }
  }

  /** The first page from the cut list. */
  lemma FirstPage(items: seq<FeedItem>, limit: int)
    requires 1 <= limit && |items| > CACHED_ITEMS && (limit < |items| ==> Marks(items, limit))
    ensures var (page, next) := Page(Cut(items), limit, "");
            if limit < CACHED_ITEMS then page == items[..limit] && next == CursorAt(items, limit) != ""
            else page == Cut(items) && next == ""
  {
    if limit < CACHED_ITEMS {
      CutPage(items, limit);
      PageAfter(items, limit, 0);
    }
  }

  lemma Times(n: nat, limit: int)
    requires 1 <= limit
    ensures (n + 1) * limit == n * limit + limit && (n == 0 || limit <= n * limit)
  {}

  /** At the client's cursor the list that answers has the page of the new feed, unless it is the cut first page. */
  lemma PageServed(before: Engine, user: string, items: seq<FeedItem>, limit: int, n: nat, list: seq<FeedItem>)
    requires 1 <= limit && OldPagesAgree(before, user, items, limit) && GoodEnds(items, limit)
    requires n * limit <= |items| && (n == 0 || n * limit < |items|)
    requires MayServe(before, user, items, CursorAt(items, n * limit), list)
    ensures var cursor := CursorAt(items, n * limit);
            Page(list, limit, cursor) == Page(items, limit, cursor) || (n == 0 && list == Cut(items))
  {
    assert OldPageAgrees(before, user, items, limit, n) && EndMarked(items, limit, n);
    if n > 0 {
      Times(n - 1, limit);
    }
    hide Page;
  }

  lemma EndsAreMarked(items: seq<FeedItem>, limit: int, m: nat)
    requires 1 <= limit && GoodEnds(items, limit) && 1 <= m && m * limit < |items|
    ensures 1 <= m * limit && Marks(items, m * limit)
  {
    Times(m - 1, limit);
    assert EndMarked(items, limit, m);
  }

  /** One more request takes the client from n pages to n + 1, or to its end. */
  lemma NextReceives(w: World, before: Engine, user: string, items: seq<FeedItem>, limit: int, n: nat)
    requires Serves(w.engine, before, user, items) && GoodEnds(items, Limit(limit))
    requires OldPagesAgree(before, user, items, Limit(limit))
    requires Received(w.client, items, limit, n) && !w.client.done
    ensures Received(Step(w, user, limit, Next).client, items, limit, n + 1)
  {
    var list := Source(w.engine, user, w.client.cursor).value;
    assert MayServe(before, user, items, w.client.cursor, list);
    hide Page, Received, GoodEnds, Serves, OldPagesAgree, MayServe, Limit, HotKey, RedisKey;
    PageReceived(before, user, items, limit, n, list, w.client);
  }

  lemma PageReceived(before: Engine, user: string, items: seq<FeedItem>, limit: int, n: nat, list: seq<FeedItem>,
      c: Client)
    requires MayServe(before, user, items, c.cursor, list) && GoodEnds(items, Limit(limit))
    requires OldPagesAgree(before, user, items, Limit(limit))
    requires Received(c, items, limit, n) && !c.done
    ensures var (page, next) := Page(list, Limit(limit), c.cursor);
            Received(Client(c.got + page, next, next == ""), items, limit, n + 1)
  {
    hide Page, Marks, CursorAt, GoodEnds, OldPagesAgree, MayServe, Limit, HotKey, RedisKey;
    var l := Limit(limit);
    var k := n * l;
    Times(n, l);
    PageServed(before, user, items, l, n, list);
    if n > 0 {
      EndsAreMarked(items, l, n);
    }
    if k + l < |items| {
      EndsAreMarked(items, l, n + 1);
    }
    if Page(list, l, c.cursor) == Page(items, l, c.cursor) {
      PageAfter(items, l, k);
      JoinsPage(items, k, l);
    } else {
      CursorMarks(items, k);
      FirstPage(items, l);
    }
  }

  lemma JoinsPage(items: seq<FeedItem>, k: nat, limit: int)
    requires 1 <= limit && k <= |items|
    ensures items[..k] + items[k..] == items
    ensures k + limit < |items| ==> items[..k] + items[k..k + limit] == items[..k + limit]
  {}

  lemma CursorMarks(items: seq<FeedItem>, k: nat)
    requires k <= |items| && (k == 0 || Marks(items, k))
    ensures CursorAt(items, k) == "" <==> k == 0
  {}

  /** After any undisturbed session: the client has received its first pages, or the feed, or its cut. */
  lemma {:induction false} SessionReceives(engine: Engine, user: string, items: seq<FeedItem>, limit: int,
      run: Run<Event>)
    requires ':' !in user && GoodEnds(items, Limit(limit)) && Undisturbed(run, user)
    requires OldPagesAgree(engine, user, items, Limit(limit))
    ensures var w := Session(engine, user, items, limit, run);
            Serves(w.engine, engine, user, items) && Received(w.client, items, limit, Nexts(run))
  {
    hide OldPagesAgree, GoodEnds, Serves;
    if run == Start {
      StoreServes(engine, user, items);
    } else {
      var w := Session(engine, user, items, limit, run.past);
      SessionReceives(engine, user, items, limit, run.past);
      StepServes(w, engine, user, items, limit, run.last);
      if run.last == Next && !w.client.done {
        NextReceives(w, engine, user, items, limit, Nexts(run.past));
      }
    }
  }

  /**
   Following the cursors ends, after as many requests as it takes to fill the list with
   pages, and then the pages are exactly the list, if it has at most a hundred items or the
   pages are smaller than that.
   */
  lemma {:induction false} FollowingTheCursors(engine: Engine, user: string, items: seq<FeedItem>, limit: int,
      run: Run<Event>)
    requires ':' !in user && GoodEnds(items, Limit(limit)) && Undisturbed(run, user)
    requires !CutHides(items, limit) && OldPagesAgree(engine, user, items, Limit(limit))
    ensures var c := Session(engine, user, items, limit, run).client;
            && (c.done ==> c.got == items)
            && (0 < Nexts(run) && |items| <= Nexts(run) * Limit(limit) ==> c.done)
            && (!c.done ==> 0 <= Nexts(run) * Limit(limit) <= |items| && c.got == items[..Nexts(run) * Limit(limit)])
  {
    hide Session, Serves, CursorAt, GoodEnds, Limit, Undisturbed, OldPagesAgree;
    SessionReceives(engine, user, items, limit, run);
  }

  /** Otherwise it does not: the first page is the first hundred items, and there is no next one. */
  lemma LargePagesLoseTheRest(engine: Engine, user: string, items: seq<FeedItem>, limit: int)
    requires CutHides(items, limit)
    ensures Session(engine, user, items, limit, Then(Start, Next)).client == Client(items[..100], "", true)
  {
    assert Session(engine, user, items, limit, Start).client == Client([], "", false);
    assert [] + items[..100] == items[..100];
  }

  /**
   And a page of an older feed that is still cached under the client's cursor is served,
   although the feed has been ranked anew.
   */
  lemma OldPageIsServed(engine: Engine, user: string, items: seq<FeedItem>, older: seq<FeedItem>, limit: int)
    requires ':' !in user && 1 <= limit < |items| && limit < CACHED_ITEMS && Marks(items, limit)
    requires var key := HotKey(user, CursorAt(items, limit)); key in engine.hot && engine.hot[key] == older
    ensures Session(engine, user, items, limit, Then(Then(Start, Next), Next)).client.got
            == items[..limit] + Page(older, limit, CursorAt(items, limit)).0
  {
    var w := Session(engine, user, items, limit, Start);
    var w1 := Session(engine, user, items, limit, Then(Start, Next));
    var cursor := CursorAt(items, limit);
    assert w.engine.hot[HotKey(user, "")] == Cut(items);
    CutPage(items, limit);
    PageAfter(items, limit, 0);
    assert w1.client == Client(items[..limit], cursor, false) by {
      assert [] + items[..limit] == items[..limit];
    }
    if HotKey(user, "") == HotKey(user, cursor) {
      HotKeyInjective(user, "", user, cursor);
    }
    assert w1.engine.hot[HotKey(user, cursor)] == older;
  }

  // ---------------------------------------------------------------- exactly when

  /**
   Whatever happens around it, a client that follows the cursors has its first n pages after n
   requests, or the feed.
   */
  ghost predicate AlwaysFollows(engine: Engine, user: string, items: seq<FeedItem>, limit: int) {
    forall run :: Undisturbed(run, user) ==>
      ReceivedAll(Session(engine, user, items, limit, run).client, items, limit, Nexts(run))
  }

  ghost predicate ReceivedAll(c: Client, items: seq<FeedItem>, limit: int, n: nat) {
    Received(c, items, limit, n) && (c.done ==> c.got == items)
  }

  function OnlyNexts(n: nat): Run<Event> {
    if n == 0 then Start else Then(OnlyNexts(n - 1), Next)
  }

  /** Pages have at most `limit` items, and what is cached stays cached. */
  lemma {:induction false} AfterNexts(engine: Engine, user: string, items: seq<FeedItem>, limit: int, n: nat)
    ensures Undisturbed(OnlyNexts(n), user) && Nexts(OnlyNexts(n)) == n
    ensures var w := Session(engine, user, items, limit, OnlyNexts(n));
            && |w.client.got| <= n * Limit(limit)
            && forall key | key in engine.hot && key != HotKey(user, "") ::
                 key in w.engine.hot && w.engine.hot[key] == engine.hot[key]
  {
    if n > 0 {
      var w := Session(engine, user, items, limit, OnlyNexts(n - 1));
      AfterNexts(engine, user, items, limit, n - 1);
      Times(n - 1, Limit(limit));
      NextKeeps(w, user, limit);
      hide Step, HotKey, Limit, Store;
    }
  }

  lemma NextKeeps(w: World, user: string, limit: int)
    ensures var w' := Step(w, user, limit, Next);
            && |w'.client.got| <= |w.client.got| + Limit(limit)
            && forall key | key in w.engine.hot :: key in w'.engine.hot && w'.engine.hot[key] == w.engine.hot[key]
  {
    if Source(w.engine, user, w.client.cursor).Some? {
      PageFits(Source(w.engine, user, w.client.cursor).value, Limit(limit), w.client.cursor);
    }
    hide Page, HotKey, RedisKey, Limit;
  }

  lemma PageFits(items: seq<FeedItem>, limit: int, cursor: string)
    requires 1 <= limit
    ensures |Page(items, limit, cursor).0| <= limit
  {
    AfterInRange(items, cursor, 0);
  }

  lemma SamePage(items: seq<FeedItem>, limit: int, k: nat, c: Client, c': Client, answer: (seq<FeedItem>, string))
    requires 1 <= limit && 1 <= k < |items| && limit < |items| && Marks(items, k)
    requires k + limit < |items| ==> Marks(items, k + limit)
    requires c.got == items[..k] && |answer.0| <= limit && c' == Client(c.got + answer.0, answer.1, answer.1 == "")
    requires if c'.done then c'.got == items
             else k + limit < |items| && c'.got == items[..k + limit] && c'.cursor == CursorAt(items, k + limit)
    ensures answer == Page(items, limit, CursorAt(items, k))
  {
    PageAfter(items, limit, k);
    assert answer.0 == c'.got[k..];
  }

  /** After m requests the client stands at the end of page m. */
  lemma StandsAtEnd(engine: Engine, user: string, items: seq<FeedItem>, limit: int, m: nat)
    requires AlwaysFollows(engine, user, items, limit) && m * Limit(limit) < |items|
    ensures var c := Session(engine, user, items, limit, OnlyNexts(m)).client;
            !c.done && c.got == items[..m * Limit(limit)] && c.cursor == CursorAt(items, m * Limit(limit))
  {
    AfterNexts(engine, user, items, limit, m);
    hide Session, OnlyNexts, Undisturbed, Nexts, CursorAt;
    var c := Session(engine, user, items, limit, OnlyNexts(m)).client;
    assert ReceivedAll(c, items, limit, m);
  }

  lemma AnsweredFromCache(w: World, user: string, limit: int)
    requires !w.client.done && HotKey(user, w.client.cursor) in w.engine.hot
    ensures var answer := Page(w.engine.hot[HotKey(user, w.client.cursor)], Limit(limit), w.client.cursor);
            Step(w, user, limit, Next).client == Client(w.client.got + answer.0, answer.1, answer.1 == "")
  {}

  lemma StaysCached(engine: Engine, user: string, items: seq<FeedItem>, limit: int, m: nat, cursor: string)
    requires ':' !in user && cursor != "" && HotKey(user, cursor) in engine.hot
    ensures var hot := Session(engine, user, items, limit, OnlyNexts(m)).engine.hot;
            HotKey(user, cursor) in hot && hot[HotKey(user, cursor)] == engine.hot[HotKey(user, cursor)]
  {
    AfterNexts(engine, user, items, limit, m);
    if HotKey(user, cursor) == HotKey(user, "") {
      HotKeyInjective(user, cursor, user, "");
    }
  }

  /** So the next answer shows what is cached there, and must be the page of the new feed. */
  lemma CachedPageAgrees(engine: Engine, user: string, items: seq<FeedItem>, limit: int, m: nat)
    requires ':' !in user && GoodEnds(items, Limit(limit)) && AlwaysFollows(engine, user, items, limit)
    requires 1 <= m && m * Limit(limit) < |items|
    requires 1 <= m * Limit(limit) && Marks(items, m * Limit(limit))
    requires HotKey(user, CursorAt(items, m * Limit(limit))) in engine.hot
    ensures var cursor := CursorAt(items, m * Limit(limit));
            Page(engine.hot[HotKey(user, cursor)], Limit(limit), cursor) == Page(items, Limit(limit), cursor)
  {
    hide Page, HotKey, RedisKey, Limit, Marks, GoodEnds, Step, Session, OnlyNexts, Undisturbed, Nexts, CursorAt,
        AlwaysFollows;
    var l, k := Limit(limit), m * Limit(limit);
    var cursor := CursorAt(items, k);
    var w := Session(engine, user, items, limit, OnlyNexts(m));
    Times(m - 1, l);
    Times(m, l);
    if k + l < |items| {
      EndsAreMarked(items, l, m + 1);
    }
    CursorMarks(items, k);
    StandsAtEnd(engine, user, items, limit, m);
    StaysCached(engine, user, items, limit, m, cursor);
    OneMoreNext(engine, user, items, limit, m);
    AnsweredFromCache(w, user, limit);
    PageFits(engine.hot[HotKey(user, cursor)], l, cursor);
    var c' := Step(w, user, limit, Next).client;
    SamePage(items, l, k, w.client, c', Page(engine.hot[HotKey(user, cursor)], l, cursor));
  }

  lemma OneMoreNext(engine: Engine, user: string, items: seq<FeedItem>, limit: int, m: nat)
    requires AlwaysFollows(engine, user, items, limit)
    ensures ReceivedAll(Step(Session(engine, user, items, limit, OnlyNexts(m)), user, limit, Next).client, items,
        limit, m + 1)
  {
    AfterNexts(engine, user, items, limit, m + 1);
    hide Step, Undisturbed, ReceivedAll, Nexts;
    assert ReceivedAll(Session(engine, user, items, limit, OnlyNexts(m + 1)).client, items, limit, m + 1);
  }

  lemma AlwaysFollowsAgrees(engine: Engine, user: string, items: seq<FeedItem>, limit: int, m: nat)
    requires ':' !in user && GoodEnds(items, Limit(limit)) && AlwaysFollows(engine, user, items, limit)
    ensures OldPageAgrees(engine, user, items, Limit(limit), m)
  {
    hide AlwaysFollows, GoodEnds, Marks, Page, HotKey, Limit;
    if 1 <= m && m * Limit(limit) < |items| {
      EndsAreMarked(items, Limit(limit), m);
      if HotKey(user, CursorAt(items, m * Limit(limit))) in engine.hot {
        CachedPageAgrees(engine, user, items, limit, m);
      }
    }
  }

  lemma CutFails(engine: Engine, user: string, items: seq<FeedItem>, limit: int)
    requires CutHides(items, limit)
    ensures !AlwaysFollows(engine, user, items, limit)
  {
    LargePagesLoseTheRest(engine, user, items, limit);
    var run := Then(Start, Next);
    assert Undisturbed(run, user) by {
      assert Undisturbed(run.past, user);
    }
    assert !ReceivedAll(Session(engine, user, items, limit, run).client, items, limit, Nexts(run));
  }

  /**
   For a feed whose page ends are marked, whatever the engine holds from before: every
   session follows the cursors to exactly the feed if and only if the pages are smaller
   than a hundred or the feed is not longer, and what is still cached under the cursors at
   its page ends has the same page there.
   */
  lemma SessionsFollowExactlyWhen(engine: Engine, user: string, items: seq<FeedItem>, limit: int)
    requires ':' !in user && GoodEnds(items, Limit(limit))
    ensures AlwaysFollows(engine, user, items, limit)
            <==> !CutHides(items, limit) && OldPagesAgree(engine, user, items, Limit(limit))
  {
    if !CutHides(items, limit) && OldPagesAgree(engine, user, items, Limit(limit)) {
      forall run | Undisturbed(run, user)
        ensures ReceivedAll(Session(engine, user, items, limit, run).client, items, limit, Nexts(run))
      {
        SessionReceives(engine, user, items, limit, run);
      }
    }
    if AlwaysFollows(engine, user, items, limit) {
      forall m: nat ensures OldPageAgrees(engine, user, items, Limit(limit), m) {
        AlwaysFollowsAgrees(engine, user, items, limit, m);
      }
    }
    if CutHides(items, limit) {
      CutFails(engine, user, items, limit);
    }
  }

  /** The engine's stores and the methods that change them. */
  class FeedEngine {
    var hotCache: map<string, seq<FeedItem>>
    var redis: map<string, seq<FeedItem>>

    constructor ()
      ensures View() == Engine(map[], map[])
    {
      hotCache, redis := map[], map[];
    }

    function View(): Engine
      reads this
    {
      Engine(hotCache, redis)
    }

    method Paginate(items: seq<FeedItem>, limit: int, cursor: string) returns (page: seq<FeedItem>, nextCursor: string)
      requires 1 <= limit
      ensures (page, nextCursor) == Page(items, limit, cursor)
    {
      if |items| <= limit {
        return items, "";
      }
      var startIdx: nat := 0;
      if cursor != "" {
        var i := 0;
        while i < |items|
          invariant 0 <= i <= |items| && startIdx == 0
          invariant After(items, cursor, 0) == After(items, cursor, i)
        {
          if items[i].id == cursor {
            startIdx := i + 1;
            break;
          }
          i := i + 1;
        }
        assert startIdx == After(items, cursor, 0);
      }
      var endIdx := startIdx + limit;
      if endIdx > |items| {
        endIdx := |items|;
      }
      nextCursor := "";
      if endIdx < |items| {
        nextCursor := items[endIdx - 1].id;
      }
      return items[startIdx..endIdx], nextCursor;
    }

    method GetFeed(userId: string, limit: int, cursor: string) returns (page: seq<FeedItem>, nextCursor: string)
      modifies this
      ensures (page, nextCursor) == Answer(old(View()), userId, limit, cursor)
      ensures View() == Get(old(View()), userId, cursor)
    {
      var n := limit;
      if n <= 0 {
        n := 20;
      }
      var cacheKey := "feed:" + userId + ":" + cursor;
      if cacheKey in hotCache {
        assert hotCache[cacheKey := hotCache[cacheKey]] == hotCache;
        page, nextCursor := Paginate(hotCache[cacheKey], n, cursor);
        return;
      }
      var redisKey := "feed:hot:" + userId;
      if redisKey in redis {
        var cachedItems := redis[redisKey];
        hotCache := hotCache[cacheKey := cachedItems];
        page, nextCursor := Paginate(cachedItems, n, cursor);
        return;
      }
      return [], "";
    }

    /** The end of ComputeRankedFeed; the ranking is an input. */
    method StoreRanked(userId: string, ranked: seq<FeedItem>)
      modifies this
      ensures View() == Store(old(View()), userId, ranked)
    {
      redis := redis["feed:hot:" + userId := ranked];
      var diversified := ranked;
      if |diversified| > 100 {
        diversified := diversified[..100];
      }
      hotCache := hotCache["feed:" + userId + ":" := diversified];
      assert "feed:" + userId + ":" == HotKey(userId, "");
    }
  }
}
