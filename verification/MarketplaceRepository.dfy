/**
 CreateOrder as it executes, statement after statement on a working copy, with the
 source's 32- and 64-bit arithmetic, and the service's purchase in front of it.
 */
module MarketplaceRepository {
  import opened Marketplace
  import opened Wrappers
  import Sales

  const MAX: int64 := 0x7FFF_FFFF

  /** What the caller's order is filled in with. */
  datatype Receipt = Receipt(total: int32, prices: seq<int32>, subtotals: seq<int32>)

  lemma CostFits(price: int32, quantity: int32)
    ensures -0x4000_0000_0000_0000 <= price as int * quantity as int <= 0x4000_0000_0000_0000
    ensures 0 < price && 0 < quantity ==> 0 < price as int * quantity as int
  {
    var a, b := price as int, quantity as int;
    if 0 <= a && 0 <= b {
      MulGrows(a, 0x8000_0000, b, 0x8000_0000);
    } else if 0 <= a {
      MulGrows(a, 0x8000_0000, -b, 0x8000_0000);
    } else if 0 <= b {
      MulGrows(-a, 0x8000_0000, b, 0x8000_0000);
    } else {
      MulGrows(-a, 0x8000_0000, -b, 0x8000_0000);
    }
  }

  /** The line is the item's, at the table's price, and price times quantity is positive and fits 32 bits. */
  predicate Priced(ids: Ids, products: map<Uuid, Product>, item: Item, line: Line) {
    && Parse(ids, item.productId) == Some(line.product) && line.quantity == item.quantity
    && line.price == Price(products, Some(line.product))
    && 0 < line.price as int * line.quantity as int <= MAX_INT32
  }

  /** The receipt names, item by item, the table's price and price times quantity. */
  ghost predicate Itemized(ids: Ids, products: map<Uuid, Product>, items: seq<Item>, r: Receipt) {
    && |r.prices| == |r.subtotals| == |items|
    && forall i | 0 <= i < |items| ::
         && r.prices[i] == Price(products, Parse(ids, items[i].productId))
         && r.subtotals[i] as int == r.prices[i] as int * items[i].quantity as int
  }

  lemma MulGrows(a: int, c: int, b: int, d: int)
    requires 0 <= a <= c && 0 <= b <= d
    ensures 0 <= a * b <= c * d
  {}

  class PostgresMarketplaceRepository {
    const ids: Ids
    const users: set<Uuid>
    var products: map<Uuid, Product>
    var orders: Run<Order>

    constructor (ids: Ids, db: Db)
      ensures this.ids == ids && View() == db
    {
      this.ids, users, products, orders := ids, db.users, db.products, db.orders;
    }

    function View(): Db
      reads this
    {
      Db(users, products, orders)
    }

    method GetProduct(id: string) returns (p: Option<Product>)
      ensures p == (var key := Parse(ids, id);
                    if key.Some? && key.value in products then Some(products[key.value]) else None)
    {
      var key := Parse(ids, id);
      if key.None? || key.value !in products {
        return None;
      }
      return Some(products[key.value]);
    }

    /** One turn of the first loop: the UPDATE that takes the stock, and the pricing of the line. */
    method ReserveOne(work: map<Uuid, Product>, total: int64, item: Item, ghost lines: Run<Line>)
        returns (r: Option<(map<Uuid, Product>, int64, Line)>)
      requires TableOk(work) && 0 <= total <= MAX
      ensures r.Some? ==>
        && var (work', total', line) := r.value;
           TableOk(work') && SameButStock(work, work') && 0 <= total' <= MAX && Priced(ids, work, item, line)
           && ReserveItem(ids, Working(work, total as int, lines), item)
               == Some(Working(work', total' as int, Then(lines, line)))
           && total' as int == total as int + line.price as int * line.quantity as int
      ensures r.None? ==> ReserveItem(ids, Working(work, total as int, lines), item).None?
    {
      var productId := Parse(ids, item.productId);
      if productId.None? || item.quantity <= 0 || productId.value !in work {
        return None;
      }
      var p := work[productId.value];
      if !(p.active && (p.stock == 0 || p.stock >= item.quantity)) {
        return None;
      }
      var work' := work[productId.value := p.(stock := if p.stock == 0 then 0 else p.stock - item.quantity)];
      if p.price <= 0 {
        return None;
      }
      CostFits(p.price, item.quantity);
      var lineTotal := p.price as int64 * item.quantity as int64;
      if lineTotal <= 0 || total > MAX - lineTotal {
        return None;
      }
      return Some((work', total + lineTotal, Line(productId.value, item.quantity, p.price)));
    }

    /** The first loop; 1 + i is the number of the i-th UPDATE. */
    method ReserveStock(items: seq<Item>, fault: Fault)
        returns (ok: bool, work: map<Uuid, Product>, total: int64, reserved: seq<Line>)
      requires TableOk(products)
      ensures ok ==> |reserved| == |items| && 0 <= total <= MAX
                     && Reserve(ids, products, FirstN(items, |items|))
                         == Some(Working(work, total as int, FirstN(reserved, |reserved|)))
                     && forall i | 0 <= i < |items| :: Priced(ids, products, items[i], reserved[i])
      ensures !ok && !fault.FailsAt? ==> Reserve(ids, products, FirstN(items, |items|)).None?
    {
      hide ReserveItem, Priced;
      work, total, reserved := products, 0, [];
      var i := 0;
      while i < |items|
        invariant 0 <= i <= |items| && |reserved| == i && 0 <= total <= MAX
        invariant TableOk(work) && SameButStock(products, work)
        invariant Reserve(ids, products, FirstN(items, i)) == Some(Working(work, total as int, FirstN(reserved, i)))
        invariant forall j | 0 <= j < i :: Priced(ids, products, items[j], reserved[j])
      {
        if fault == FailsAt(1 + i) {
          return false, work, total, reserved;
        }
        var r := ReserveOne(work, total, items[i], FirstN(reserved, i));
        if r.None? {
          RefusedForGood(items, i);
          return false, work, total, reserved;
        }
        var (newWork, newTotal, line) := r.value;
        PricedBefore(work, items[i], line);
        FirstNOfLonger(reserved, [line], i);
        work, total, reserved := newWork, newTotal, reserved + [line];
        i := i + 1;
      }
      ok := true;
    }

    /** The second loop: the order's lines, under the primary key of their table. */
    method InsertLines(reserved: seq<Line>, first: nat, fault: Fault) returns (ok: bool, rows: Run<Line>)
      ensures ok ==> rows == FirstN(reserved, |reserved|) && KeysUnique(rows)
      ensures !ok && !fault.FailsAt? ==> !KeysUnique(FirstN(reserved, |reserved|))
    {
      rows := Start;
      var i := 0;
      while i < |reserved|
        invariant 0 <= i <= |reserved|
        invariant rows == FirstN(reserved, i) && KeysUnique(rows)
      {
        if fault == FailsAt(first + i) {
          return false, rows;
        }
        if HasLine(rows, reserved[i].product) {
          ClashForGood(reserved, i + 1);
          return false, rows;
        }
        rows := Then(rows, reserved[i]);
        i := i + 1;
      }
      ok := true;
    }

    method CreateOrder(buyerId: string, items: seq<Item>, fault: Fault) returns (r: Option<Receipt>)
      requires TableOk(products)
      modifies this
      ensures View() == Sales.Step(ids, old(View()), Sales.Call(buyerId, FirstN(items, |items|), !fault.FailsAt?))
      ensures r.Some? <==> OrderTx(ids, old(View()), buyerId, FirstN(items, |items|)).Some? && fault == NoFault
      ensures r.Some? ==> r.value.total as int == Sum(ids, old(products), FirstN(items, |items|))
      ensures r.Some? ==> Itemized(ids, old(products), items, r.value)
    {
      hide Reserve, KeysUnique, Priced;
      var buyer := Parse(ids, buyerId);
      if buyer.None? || |items| == 0 || fault == FailsAt(0) {
        return None;
      }
      var ok, work, total, reserved := ReserveStock(items, fault);
      if !ok || fault == FailsAt(1 + |items|) || buyer.value !in users {
        return None;
      }
      ReserveSums(ids, products, FirstN(items, |items|));
      var inserted, rows := InsertLines(reserved, 2 + |items|, fault);
      if !inserted || fault.FailsAt? {
        return None;
      }
      ghost var was := products;
      products, orders := work, Then(orders, Order(buyer.value, total as int, rows));
      if fault == CommitAnswerLost {
        return None;
      }
      var prices, subtotals := FillIn(was, items, reserved);
      return Some(Receipt(total as int32, prices, subtotals));
    }

    /** Once one item is refused, so is the order. */
    lemma {:induction false} RefusedForGood(items: seq<Item>, i: nat)
      requires i < |items|
      ensures Reserve(ids, products, FirstN(items, i + 1)).None?
          ==> Reserve(ids, products, FirstN(items, |items|)).None?
      decreases |items| - i
    {
      if i + 1 < |items| && Reserve(ids, products, FirstN(items, i + 1)).None? {
        assert Reserve(ids, products, FirstN(items, i + 2)).None?;
        RefusedForGood(items, i + 1);
      }
    }

    lemma PricedBefore(work: map<Uuid, Product>, item: Item, line: Line)
      requires SameButStock(products, work) && Priced(ids, work, item, line)
      ensures Priced(ids, products, item, line)
    {}

    /** Once two lines clash, they clash. */
    lemma {:induction false} ClashForGood(reserved: seq<Line>, n: nat)
      requires n <= |reserved| && !KeysUnique(FirstN(reserved, n))
      ensures !KeysUnique(FirstN(reserved, |reserved|))
      decreases |reserved| - n
    {
      if n < |reserved| {
        ClashForGood(reserved, n + 1);
      }
    }

    /** The last loop fills in each item's price and subtotal, in 32 bits. */
    method FillIn(ghost was: map<Uuid, Product>, items: seq<Item>, reserved: seq<Line>)
        returns (prices: seq<int32>, subtotals: seq<int32>)
      requires |reserved| == |items| && forall i | 0 <= i < |items| :: Priced(ids, was, items[i], reserved[i])
      ensures |prices| == |subtotals| == |items|
      ensures forall i | 0 <= i < |items| ::
                && prices[i] == Price(was, Parse(ids, items[i].productId))
                && subtotals[i] as int == prices[i] as int * items[i].quantity as int
    {
      prices, subtotals := [], [];
      for i := 0 to |items|
        invariant |prices| == |subtotals| == i
        invariant forall j | 0 <= j < i ::
                    && prices[j] == Price(was, Parse(ids, items[j].productId))
                    && subtotals[j] as int == prices[j] as int * items[j].quantity as int
      {
        prices := prices + [reserved[i].price];
        subtotals := subtotals + [reserved[i].price * reserved[i].quantity];
      }
    }
  }
}
