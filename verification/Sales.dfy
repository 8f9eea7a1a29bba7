/**
 Any number of orders, one after the other: what is sold and what is left.
 */
module Sales {
  import opened Marketplace
  import opened Wrappers

  /** A call of CreateOrder; `commits` is false when the database fails it at some statement. */
  datatype Call = Call(buyerId: string, items: Run<Item>, commits: bool)

  predicate Commits(ids: Ids, db: Db, c: Call) {
    c.commits && OrderTx(ids, db, c.buyerId, c.items).Some?
  }

  function Step(ids: Ids, db: Db, c: Call): Db {
    if Commits(ids, db, c) then OrderTx(ids, db, c.buyerId, c.items).value else db
  }

  function After(ids: Ids, db: Db, run: Run<Call>): Db {
    match run
    case Start => db
    case Then(past, c) => Step(ids, After(ids, db, past), c)
  }

  function Sold(orders: Run<Order>, product: Uuid): int {
    match orders
    case Start => 0
    case Then(past, o) => Sold(past, product) + LineUnits(o.lines, product)
  }

  /** Every order's total is the sum over its lines and fits 32 bits. */
  predicate AllPriced(orders: Run<Order>) {
    orders.Then? ==> AllPriced(orders.past) && orders.last.total == LineSum(orders.last.lines) <= MAX_INT32
  }

  lemma {:induction false} AlwaysSound(ids: Ids, db: Db, run: Run<Call>)
    requires TableOk(db.products) && AllPriced(db.orders)
    ensures var db' := After(ids, db, run);
            TableOk(db'.products) && SameButStock(db.products, db'.products) && AllPriced(db'.orders)
  {
    if run.Then? {
      AlwaysSound(ids, db, run.past);
      var before, c := After(ids, db, run.past), run.last;
      if Commits(ids, before, c) {
        ReserveSums(ids, before.products, c.items);
      }
    }
  }

  /** Some order took units of the product when its stock was already 0. */
  predicate TakenWhenEmpty(ids: Ids, db: Db, run: Run<Call>, product: Uuid) {
    run.Then? &&
    var before := After(ids, db, run.past);
    || TakenWhenEmpty(ids, db, run.past, product)
    || (Commits(ids, before, run.last) && product in before.products && before.products[product].stock == 0
        && Orders(ids, run.last.items, product))
  }

  lemma {:induction false} OrderedUnits(ids: Ids, products: map<Uuid, Product>, items: Run<Item>, product: Uuid)
    requires AllGood(ids, products, items)
    ensures 0 <= Units(ids, items, product) && (0 < Units(ids, items, product) <==> Orders(ids, items, product))
  {
    if items.Then? {
      OrderedUnits(ids, products, items.past, product);
    }
  }

  lemma SoldStep(ids: Ids, db: Db, c: Call, product: Uuid)
    requires TableOk(db.products) && product in db.products && Commits(ids, db, c)
    ensures var db', units := Step(ids, db, c), Units(ids, c.items, product);
            && product in db'.products && Sold(db'.orders, product) == Sold(db.orders, product) + units
            && 0 <= units && (0 < units <==> Orders(ids, c.items, product))
            && db'.products[product].stock as int == NewStock(db.products[product].stock as int, units)
            && 0 <= db'.products[product].stock
  {
    CommittedOrder(ids, db, c.buyerId, c.items, product);
    CommitsExactlyWhen(ids, db, c.buyerId, c.items);
    OrderedUnits(ids, db.products, c.items, product);
  }

  /**
   A product that starts with S > 0 units: as long as nothing is taken from an empty
   stock, the units sold and the units left add up to S.  Once something is, more than S
   units have been sold and the stock reads 0 for good.
   */
  lemma {:induction false} StockIsConserved(ids: Ids, db: Db, run: Run<Call>, product: Uuid)
    requires TableOk(db.products) && AllPriced(db.orders) && product in db.products && 0 < db.products[product].stock
    ensures var db' := After(ids, db, run);
            && product in db'.products
            && var sold, left := Sold(db'.orders, product) - Sold(db.orders, product),
                db'.products[product].stock as int;
               && 0 <= left
               && (if TakenWhenEmpty(ids, db, run, product) then left == 0 && sold > db.products[product].stock as int
                   else sold + left == db.products[product].stock as int)
  {
    if run.Then? {
      StockIsConserved(ids, db, run.past, product);
      AlwaysSound(ids, db, run.past);
      var before := After(ids, db, run.past);
      if Commits(ids, before, run.last) {
        hide OrderTx;
        SoldStep(ids, before, run.last, product);
      }
    }
  }

  /** So more is sold than there was exactly when some order came after the stock had reached 0. */
  lemma OversoldExactlyWhen(ids: Ids, db: Db, run: Run<Call>, product: Uuid)
    requires TableOk(db.products) && AllPriced(db.orders) && product in db.products && 0 < db.products[product].stock
    ensures Sold(After(ids, db, run).orders, product) - Sold(db.orders, product) > db.products[product].stock as int
            <==> TakenWhenEmpty(ids, db, run, product)
  {
    StockIsConserved(ids, db, run, product);
  }

  /** The last unit can be sold twice. */
  lemma {:induction false} LastUnitSoldTwice()
    ensures var ids := Ids(s => if s == "p" then Some(0) else Some(1), n => "", s => s);
            var db := Db({1}, map[0 := Product(10, 1, true)], Start);
            var c := Call("b", Then(Start, Item("p", 1)), true);
            TableOk(db.products) && Sold(After(ids, db, Then(Then(Start, c), c)).orders, 0) == 2
  {
    var ids := Ids(s => if s == "p" then Some(0) else Some(1), n => "", s => s);
    var db := Db({1}, map[0 := Product(10, 1, true)], Start);
    var items := Then(Start, Item("p", 1));
    var lines := Then(Start, Line(0, 1, 10));
    var once := After(ids, db, Then(Start, Call("b", items, true)));
    assert Reserve(ids, db.products, items.past) == Some(Working(db.products, 0, Start));
    assert db.products[0 := Product(10, 0, true)] == map[0 := Product(10, 0, true)];
    assert ReserveItem(ids, Working(db.products, 0, Start), Item("p", 1))
        == Some(Working(map[0 := Product(10, 0, true)], 10, lines));
    assert Reserve(ids, db.products, items) == Some(Working(map[0 := Product(10, 0, true)], 10, lines));
    assert once == Db({1}, map[0 := Product(10, 0, true)], Then(Start, Order(1, 10, lines)));
    assert Reserve(ids, once.products, items.past) == Some(Working(once.products, 0, Start));
    assert once.products[0 := Product(10, 0, true)] == once.products;
    assert ReserveItem(ids, Working(once.products, 0, Start), Item("p", 1)) == Some(Working(once.products, 10, lines));
    assert Reserve(ids, once.products, items) == Some(Working(once.products, 10, lines));
    assert LineUnits(lines, 0) == 1;
    assert Step(ids, once, Call("b", items, true)).orders == Then(once.orders, Order(1, 10, lines));
    assert Sold(once.orders, 0) == 1;
  }
}
