/**
 Orders: stock reservation and pricing.  A stock of 0 means unlimited, so a product sold
 down to 0 becomes unlimited.  Orders are transactions, one after the other.
 */
module Marketplace {
  import opened Wrappers

  newtype int32 = x: int | -0x8000_0000 <= x < 0x8000_0000
  newtype int64 = x: int | -0x8000_0000_0000_0000 <= x < 0x8000_0000_0000_0000

  datatype Product = Product(price: int32, stock: int32, active: bool)

  datatype Item = Item(productId: string, quantity: int32)

  datatype Line = Line(product: Uuid, quantity: int32, price: int32)

  datatype Order = Order(buyer: Uuid, total: int, lines: Run<Line>)

  datatype Db = Db(users: set<Uuid>, products: map<Uuid, Product>, orders: Run<Order>)

  // ---------------------------------------------------------------- one order

  /** The UPDATE finds the product and lets it go at this quantity. */
  predicate Reservable(p: Product, quantity: int32) {
    p.active && (p.stock == 0 || p.stock >= quantity)
  }

  function Reduced(p: Product, quantity: int32): Product
    requires Reservable(p, quantity) && 0 < quantity
  {
    p.(stock := if p.stock == 0 then 0 else p.stock - quantity)
  }

  datatype Working = Working(products: map<Uuid, Product>, total: int, lines: Run<Line>)

  /** The reservation of one more item on a working copy of the products. */
  function ReserveItem(ids: Ids, w: Working, item: Item): Option<Working> {
    var id := Parse(ids, item.productId);
    if id.None? || item.quantity <= 0 || id.value !in w.products
        || !Reservable(w.products[id.value], item.quantity) then None
    else
      var p := w.products[id.value];
      var cost := p.price as int * item.quantity as int;
      if p.price <= 0 || w.total + cost > MAX_INT32 then None
      else
        Some(Working(w.products[id.value := Reduced(p, item.quantity)], w.total + cost,
                     Then(w.lines, Line(id.value, item.quantity, p.price))))
  }

  function Reserve(ids: Ids, products: map<Uuid, Product>, items: Run<Item>): Option<Working> {
    match items
    case Start => Some(Working(products, 0, Start))
    case Then(past, item) =>
      var before := Reserve(ids, products, past);
      if before.None? then None else ReserveItem(ids, before.value, item)
  }

  predicate HasLine(lines: Run<Line>, product: Uuid) {
    lines.Then? && (lines.last.product == product || HasLine(lines.past, product))
  }

  /** The primary key of order_items is (order, product). */
  predicate KeysUnique(lines: Run<Line>) {
    lines.Then? ==> KeysUnique(lines.past) && !HasLine(lines.past, lines.last.product)
  }

  /** CreateOrder when the database executes every statement; None when it is refused. */
  function OrderTx(ids: Ids, db: Db, buyerId: string, items: Run<Item>): Option<Db> {
    var buyer, w := Parse(ids, buyerId), Reserve(ids, db.products, items);
    if buyer.None? || items == Start || w.None? || buyer.value !in db.users || !KeysUnique(w.value.lines) then None
    else Some(db.(products := w.value.products,
        orders := Then(db.orders, Order(buyer.value, w.value.total, w.value.lines))))
  }

  // ---------------------------------------------------------------- what makes an order good

  /** An item that could be ordered alone. */
  predicate GoodItem(ids: Ids, products: map<Uuid, Product>, item: Item) {
    var id := Parse(ids, item.productId);
    && id.Some? && 0 < item.quantity && id.value in products
    && Reservable(products[id.value], item.quantity) && 0 < products[id.value].price
  }

  predicate AllGood(ids: Ids, products: map<Uuid, Product>, items: Run<Item>) {
    items.Then? ==> AllGood(ids, products, items.past) && GoodItem(ids, products, items.last)
  }

  function Price(products: map<Uuid, Product>, id: Option<Uuid>): int32 {
    if id.Some? && id.value in products then products[id.value].price else 0
  }

  /** The sum of price times quantity. */
  function Sum(ids: Ids, products: map<Uuid, Product>, items: Run<Item>): int {
    match items
    case Start => 0
    case Then(past, item) =>
      Sum(ids, products, past) + Price(products, Parse(ids, item.productId)) as int * item.quantity as int
  }

  predicate Orders(ids: Ids, items: Run<Item>, product: Uuid) {
    items.Then? && (Parse(ids, items.last.productId) == Some(product) || Orders(ids, items.past, product))
  }

  /** No product twice, however its id is spelled. */
  predicate NoRepeats(ids: Ids, items: Run<Item>) {
    items.Then? ==>
      && NoRepeats(ids, items.past)
      && var id := Parse(ids, items.last.productId); (id.Some? ==> !Orders(ids, items.past, id.value))
  }

  /** Units of a product in an order's items, and in its lines. */
  function Units(ids: Ids, items: Run<Item>, product: Uuid): int {
    match items
    case Start => 0
    case Then(past, item) => Units(ids, past, product) + if Parse(ids, item.productId) == Some(product)
        then item.quantity as int else 0
  }

  function LineUnits(lines: Run<Line>, product: Uuid): int {
    match lines
    case Start => 0
    case Then(past, l) => LineUnits(past, product) + if l.product == product then l.quantity as int else 0
  }

  function LineSum(lines: Run<Line>): int {
    match lines
    case Start => 0
    case Then(past, l) => LineSum(past) + l.price as int * l.quantity as int
  }

  predicate PositiveLines(lines: Run<Line>) {
    lines.Then? ==> PositiveLines(lines.past) && 0 < lines.last.quantity && 0 < lines.last.price
  }

  /** What the table's CHECK constraints say. */
  ghost predicate TableOk(products: map<Uuid, Product>) {
    forall id | id in products :: 0 <= products[id].price && 0 <= products[id].stock
  }

  /** Only stocks differ. */
  ghost predicate SameButStock(products: map<Uuid, Product>, products': map<Uuid, Product>) {
    && products'.Keys == products.Keys
    && forall id | id in products :: products'[id] == products[id].(stock := products'[id].stock)
  }

  lemma CostPositive(price: int32, quantity: int32)
    requires 0 < price && 0 < quantity
    ensures 0 < price as int * quantity as int
  {}

  /**
   Also when a product is repeated: the total is the sum over all lines, prices are untouched,
   no stock becomes negative.
   */
  lemma {:induction false} ReserveSums(ids: Ids, products: map<Uuid, Product>, items: Run<Item>)
    requires TableOk(products) && Reserve(ids, products, items).Some?
    ensures var w := Reserve(ids, products, items).value;
            && TableOk(w.products) && SameButStock(products, w.products)
            && w.total == Sum(ids, products, items) == LineSum(w.lines) && 0 <= w.total <= MAX_INT32
            && PositiveLines(w.lines)
  {
    if items.Then? {
      ReserveSums(ids, products, items.past);
      var w := Reserve(ids, products, items.past).value;
      CostPositive(w.products[Parse(ids, items.last.productId).value].price, items.last.quantity);
    }
  }

  lemma {:induction false} LinesAreItems(ids: Ids, products: map<Uuid, Product>, items: Run<Item>, product: Uuid)
    requires Reserve(ids, products, items).Some?
    ensures var w := Reserve(ids, products, items).value;
            && (HasLine(w.lines, product) <==> Orders(ids, items, product))
            && LineUnits(w.lines, product) == Units(ids, items, product)
  {
    if items.Then? {
      LinesAreItems(ids, products, items.past, product);
    }
  }

  lemma {:induction false} KeysAreRepeats(ids: Ids, products: map<Uuid, Product>, items: Run<Item>)
    requires Reserve(ids, products, items).Some?
    ensures KeysUnique(Reserve(ids, products, items).value.lines) <==> NoRepeats(ids, items)
  {
    if items.Then? {
      KeysAreRepeats(ids, products, items.past);
      LinesAreItems(ids, products, items.past, Parse(ids, items.last.productId).value);
    }
  }

  lemma {:induction false} NotOrdered(ids: Ids, products: map<Uuid, Product>, items: Run<Item>, product: Uuid)
    requires Reserve(ids, products, items).Some? && !Orders(ids, items, product)
    ensures var w := Reserve(ids, products, items).value;
            && (product in w.products <==> product in products)
            && (product in products ==> w.products[product] == products[product])
            && Units(ids, items, product) == 0
  {
    if items.Then? {
      NotOrdered(ids, products, items.past, product);
    }
  }

  lemma {:induction false} SumGrows(ids: Ids, products: map<Uuid, Product>, items: Run<Item>)
    requires AllGood(ids, products, items)
    ensures 0 <= Sum(ids, products, items)
  {
    if items.Then? {
      SumGrows(ids, products, items.past);
      CostPositive(Price(products, Parse(ids, items.last.productId)), items.last.quantity);
    }
  }

  /** Without repeats the items do not get into each other's way: each is judged by the table as it was. */
  lemma {:induction false} ReservesExactlyWhen(ids: Ids, products: map<Uuid, Product>, items: Run<Item>)
    requires TableOk(products) && NoRepeats(ids, items)
    ensures Reserve(ids, products, items).Some?
            <==> AllGood(ids, products, items) && Sum(ids, products, items) <= MAX_INT32
  {
    if items.Then? {
      ReservesExactlyWhen(ids, products, items.past);
      var id := Parse(ids, items.last.productId);
      if AllGood(ids, products, items) {
        SumGrows(ids, products, items.past);
        CostPositive(Price(products, id), items.last.quantity);
      }
      if Reserve(ids, products, items.past).Some? && id.Some? {
        ReserveSums(ids, products, items.past);
        NotOrdered(ids, products, items.past, id.value);
      }
    }
  }

  /** Exactly these orders commit. */
  lemma CommitsExactlyWhen(ids: Ids, db: Db, buyerId: string, items: Run<Item>)
    requires TableOk(db.products)
    ensures OrderTx(ids, db, buyerId, items).Some? <==>
            && Parse(ids, buyerId).Some? && Parse(ids, buyerId).value in db.users
            && items.Then? && NoRepeats(ids, items)
            && AllGood(ids, db.products, items) && Sum(ids, db.products, items) <= MAX_INT32
  {
    if Reserve(ids, db.products, items).Some? {
      KeysAreRepeats(ids, db.products, items);
    }
    if NoRepeats(ids, items) {
      ReservesExactlyWhen(ids, db.products, items);
    }
  }

  /** Line by line, the items with the prices of the table. */
  predicate Lists(ids: Ids, products: map<Uuid, Product>, items: Run<Item>, lines: Run<Line>) {
    match items
    case Start => lines == Start
    case Then(past, item) =>
      && lines.Then? && Lists(ids, products, past, lines.past)
      && Parse(ids, item.productId) == Some(lines.last.product) && lines.last.quantity == item.quantity
      && lines.last.product in products && lines.last.price == products[lines.last.product].price
  }

  lemma {:induction false} LinesList(ids: Ids, products: map<Uuid, Product>, items: Run<Item>)
    requires TableOk(products) && Reserve(ids, products, items).Some?
    ensures Lists(ids, products, items, Reserve(ids, products, items).value.lines)
  {
    if items.Then? {
      LinesList(ids, products, items.past);
      ReserveSums(ids, products, items.past);
    }
  }

  /** The new stock of a product of which `units` are sold. */
  function NewStock(stock: int, units: int): int {
    if stock == 0 then 0 else stock - units
  }

  lemma {:induction false} StockAfter(ids: Ids, products: map<Uuid, Product>, items: Run<Item>, product: Uuid)
    requires Reserve(ids, products, items).Some? && NoRepeats(ids, items) && product in products
    ensures var w := Reserve(ids, products, items).value;
            && product in w.products
            && w.products[product].stock as int == NewStock(products[product].stock as int, Units(ids, items, product))
            && (products[product].stock == 0 || Units(ids, items, product) <= products[product].stock as int
                || !Orders(ids, items, product))
  {
    if items.Then? {
      StockAfter(ids, products, items.past, product);
      if Parse(ids, items.last.productId) == Some(product) {
        NotOrdered(ids, products, items.past, product);
      }
    }
  }

  /**
   What a committed order did: it priced its lines, took its units from every limited stock,
   and changed nothing else.
   */
  lemma CommittedOrder(ids: Ids, db: Db, buyerId: string, items: Run<Item>, product: Uuid)
    requires TableOk(db.products) && OrderTx(ids, db, buyerId, items).Some? && product in db.products
    ensures var db' := OrderTx(ids, db, buyerId, items).value;
            && db'.orders.Then? && db'.orders.past == db.orders && db'.users == db.users
            && SameButStock(db.products, db'.products) && TableOk(db'.products)
            && var o := db'.orders.last;
               && Parse(ids, buyerId) == Some(o.buyer) && Lists(ids, db.products, items, o.lines)
               && o.total == Sum(ids, db.products, items) == LineSum(o.lines) <= MAX_INT32
               && LineUnits(o.lines, product) == Units(ids, items, product)
               && db'.products[product].stock as int
                  == if db.products[product].stock == 0 then 0
                     else db.products[product].stock as int - LineUnits(o.lines, product)
  {
    ReserveSums(ids, db.products, items);
    LinesList(ids, db.products, items);
    KeysAreRepeats(ids, db.products, items);
    LinesAreItems(ids, db.products, items, product);
    StockAfter(ids, db.products, items, product);
  }

  /** An order of one item, in full: when it commits, what it costs, and what it leaves. */
  lemma OneItem(ids: Ids, db: Db, buyerId: string, item: Item)
    requires TableOk(db.products)
    ensures var order := OrderTx(ids, db, buyerId, Then(Start, item));
            var buyer, id := Parse(ids, buyerId), Parse(ids, item.productId);
            if buyer.None? || buyer.value !in db.users || id.None? || id.value !in db.products then order.None?
            else
              var Product(price, stock, active) := db.products[id.value];
              var cost := price as int * item.quantity as int;
              if !active || item.quantity <= 0 || price <= 0 || (0 < stock < item.quantity) || cost > MAX_INT32
              then order.None?
              else
                order == Some(db.(
                  products := db.products[id.value :=
                                Product(price, if stock == 0 then 0 else stock - item.quantity, active)],
                  orders := Then(db.orders,
                                 Order(buyer.value, cost, Then(Start, Line(id.value, item.quantity, price))))))
  {
    assert Reserve(ids, db.products, Then(Start, item)) == ReserveItem(ids, Working(db.products, 0, Start), item);
    assert KeysUnique(Start) && !HasLine(Start, 0);
  }
}
