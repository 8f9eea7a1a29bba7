/**
 The service's purchase: a check of every product in advance, then the order.
 */
module MarketplaceService {
  import opened Marketplace
  import opened MarketplaceRepository
  import opened Wrappers
  import Sales

  function Zip(productIds: seq<string>, quantities: seq<int32>): seq<Item>
    requires |productIds| == |quantities|
  {
    seq(|productIds|, i requires 0 <= i < |productIds| => Item(productIds[i], quantities[i]))
  }

  /** What the check in advance has established after some items. */
  predicate Passes(ids: Ids, products: map<Uuid, Product>, items: Run<Item>) {
    AllGood(ids, products, items) && Sum(ids, products, items) <= MAX_INT32
  }

  /** An order that passes does so from its first item on. */
  lemma {:induction false} PassesBefore(ids: Ids, products: map<Uuid, Product>, items: seq<Item>, i: nat, n: nat)
    requires i <= n <= |items| && Passes(ids, products, FirstN(items, n))
    ensures Passes(ids, products, FirstN(items, i))
  {
    if i < n {
      var item := items[n - 1];
      CostPositive(Price(products, Parse(ids, item.productId)), item.quantity);
      PassesBefore(ids, products, items, i, n - 1);
    }
  }

  class MarketplaceService {
    const repo: PostgresMarketplaceRepository

    constructor (repo: PostgresMarketplaceRepository)
      ensures this.repo == repo
    {
      this.repo := repo;
    }

    /** One turn of the loop: the product as read now, the running total in 64 bits and the item's subtotal in 32. */
    method CheckOne(item: Item, total: int64) returns (r: Option<(int64, int32)>)
      requires TableOk(repo.products) && 0 <= total <= MAX
      ensures r.Some? <==> GoodItem(repo.ids, repo.products, item)
                           && total as int + Price(repo.products, Parse(repo.ids, item.productId)) as int
                                             * item.quantity as int <= MAX_INT32
      ensures r.Some? ==> 0 <= r.value.0 <= MAX && r.value.0 as int == total as int + r.value.1 as int
                          && r.value.1 as int == Price(repo.products, Parse(repo.ids, item.productId)) as int
                                                 * item.quantity as int
    {
      if item.quantity <= 0 {
        return None;
      }
      var prod := repo.GetProduct(item.productId);
      if prod.None? || !prod.value.active || prod.value.price <= 0 {
        return None;
      }
      if 0 < prod.value.stock && prod.value.stock < item.quantity {
        return None;
      }
      CostFits(prod.value.price, item.quantity);
      var lineTotal := prod.value.price as int64 * item.quantity as int64;
      if lineTotal <= 0 || total > MAX - lineTotal {
        return None;
      }
      return Some((total + lineTotal, prod.value.price * item.quantity));
    }

    /**
     When nothing happens between the check and the order, the check turns away no order
     that would have committed; and whatever it lets through is judged again.
     */
    method Purchase(buyerId: string, productIds: seq<string>, quantities: seq<int32>, fault: Fault)
        returns (r: Option<Receipt>)
      requires TableOk(repo.products)
      modifies repo
      ensures |productIds| != |quantities| ==> r.None? && repo.View() == old(repo.View())
      ensures |productIds| == |quantities| ==>
                var items := FirstN(Zip(productIds, quantities), |productIds|);
                && repo.View() == Sales.Step(repo.ids, old(repo.View()), Sales.Call(buyerId, items, !fault.FailsAt?))
                && (r.Some? <==> OrderTx(repo.ids, old(repo.View()), buyerId, items).Some? && fault == NoFault)
                && (r.Some? ==> r.value.total as int == Sum(repo.ids, old(repo.products), items))
                && (r.Some? ==> Itemized(repo.ids, old(repo.products), Zip(productIds, quantities), r.value))
    {
      hide OrderTx, Passes, GoodItem;
      if |productIds| == 0 || |productIds| != |quantities| {
        NoEmptyOrder(buyerId);
        return None;
      }
      ghost var wanted := Zip(productIds, quantities);
      var total: int64 := 0;
      var items: seq<Item> := [];
      var i := 0;
      assert Passes(repo.ids, repo.products, FirstN(wanted, 0)) by { PassesNothing(); }
      while i < |productIds|
        invariant 0 <= i <= |productIds| && |items| == i && 0 <= total <= MAX
        invariant forall j | 0 <= j < i :: items[j] == wanted[j]
        invariant repo.View() == old(repo.View())
        invariant total as int == Sum(repo.ids, repo.products, FirstN(wanted, i))
        invariant Passes(repo.ids, repo.products, FirstN(wanted, i))
      {
        var next := CheckOne(Item(productIds[i], quantities[i]), total);
        PassesOneMore(wanted, i);
        if next.None? {
          TurnedAway(buyerId, wanted, i + 1);
          return None;
        }
        total := next.value.0;
        items := items + [Item(productIds[i], quantities[i])];
        i := i + 1;
      }
      assert items == wanted;
      r := repo.CreateOrder(buyerId, items, fault);
    }

    lemma NoEmptyOrder(buyerId: string)
      ensures OrderTx(repo.ids, repo.View(), buyerId, Start).None?
    {}

    lemma PassesNothing()
      ensures Passes(repo.ids, repo.products, Start)
    {}

    lemma PassesOneMore(wanted: seq<Item>, i: nat)
      requires i < |wanted| && Passes(repo.ids, repo.products, FirstN(wanted, i))
      ensures Passes(repo.ids, repo.products, FirstN(wanted, i + 1))
              <==>
              && GoodItem(repo.ids, repo.products, wanted[i])
              && Sum(repo.ids, repo.products, FirstN(wanted, i + 1)) <= MAX_INT32
    {}

    lemma TurnedAway(buyerId: string, wanted: seq<Item>, i: nat)
      requires TableOk(repo.products) && i <= |wanted| && !Passes(repo.ids, repo.products, FirstN(wanted, i))
      ensures OrderTx(repo.ids, repo.View(), buyerId, FirstN(wanted, |wanted|)).None?
    {
      CommitsExactlyWhen(repo.ids, repo.View(), buyerId, FirstN(wanted, |wanted|));
      if OrderTx(repo.ids, repo.View(), buyerId, FirstN(wanted, |wanted|)).Some? {
        PassesBefore(repo.ids, repo.products, wanted, i, |wanted|);
      }
    }
  }
}
