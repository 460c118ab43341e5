/** One batch of orders for the same stock and side, with the price statistics it keeps up to date. */
module OrderBatch {
  import opened Wrappers

  datatype Side = Buy | Sell

  datatype PriceType = Market | Limit

  datatype Order = Order(
    orderId: string, stockCode: string, side: Side, priceType: PriceType, limitPrice: Option<real>, quantity: nat, createdAt: int)

  /** A missing price and a zero price are the same to the program. */
  predicate HasPrice(o: Order) {
    o.limitPrice.Some? && o.limitPrice.value != 0.0
  }

  predicate Priced(o: Order) {
    o.priceType == Limit && HasPrice(o)
  }

  function TotalQuantity(orders: seq<Order>): nat {
    if orders == [] then 0 else TotalQuantity(orders[..|orders| - 1]) + orders[|orders| - 1].quantity
  }

  /** The limit prices of the priced orders, in order. */
  function Prices(orders: seq<Order>): seq<real> {
    if orders == [] then []
    else
      var o := orders[|orders| - 1];
      var earlier := Prices(orders[..|orders| - 1]);
      if Priced(o) then earlier + [o.limitPrice.value] else earlier
  }

  function Worth(price: real, quantity: nat): real {
    price * quantity as real
  }

  function LimitValue(orders: seq<Order>): real {
    if orders == [] then 0.0
    else
      var o := orders[|orders| - 1];
      LimitValue(orders[..|orders| - 1]) + if Priced(o) then Worth(o.limitPrice.value, o.quantity) else 0.0
  }

  /** All limit orders count here, with or without a price. */
  function LimitQuantity(orders: seq<Order>): nat {
    if orders == [] then 0
    else
      var o := orders[|orders| - 1];
      LimitQuantity(orders[..|orders| - 1]) + if o.priceType == Limit then o.quantity else 0
  }

  ghost predicate LeastOf(x: real, s: seq<real>) {
    x in s && forall y :: y in s ==> x <= y
  }

  ghost predicate GreatestOf(x: real, s: seq<real>) {
    x in s && forall y :: y in s ==> y <= x
  }

  method Extremes(s: seq<real>) returns (least: real, greatest: real)
    requires s != []
    ensures LeastOf(least, s) && GreatestOf(greatest, s)
  {
    least, greatest := s[0], s[0];
    for i := 1 to |s|
      invariant LeastOf(least, s[..i]) && GreatestOf(greatest, s[..i])
    {
      assert s[..i + 1] == s[..i] + [s[i]];
      if s[i] < least {
        least := s[i];
      }
      if s[i] > greatest {
        greatest := s[i];
      }
    }
    assert s[..|s|] == s;
  }

  class OrderBatch {
    var stockCode: string
    var orders: seq<Order>
    var batchType: Option<Side>
    var totalQuantity: nat
    var averagePrice: Option<real>
    var minPrice: Option<real>
    var maxPrice: Option<real>

    /** One stock and one side throughout, and statistics of exactly the orders held. */
    ghost predicate Valid()
      reads this
    {
      && (orders == [] <==> batchType == None)
      && (forall o :: o in orders ==> o.stockCode == stockCode && batchType == Some(o.side))
      && totalQuantity == TotalQuantity(orders)
      && (if Prices(orders) == [] then minPrice == maxPrice == averagePrice == None
          else && minPrice.Some? && LeastOf(minPrice.value, Prices(orders))
               && maxPrice.Some? && GreatestOf(maxPrice.value, Prices(orders))
               && (LimitQuantity(orders) > 0 ==>
                     averagePrice == Some(LimitValue(orders) / LimitQuantity(orders) as real)))
    }

    constructor ()
      ensures Valid() && orders == []
    {
      stockCode, orders, batchType := "", [], None;
      totalQuantity, averagePrice, minPrice, maxPrice := 0, None, None, None;
    }

    /** An order of another stock or side is refused and changes nothing; any other is appended. */
    method AddOrder(order: Order) returns (added: bool)
      requires Valid()
      modifies this
      ensures Valid()
      ensures added <==> old(orders) == [] || (order.stockCode == old(stockCode) && Some(order.side) == old(batchType))
      ensures orders == if added then old(orders) + [order] else old(orders)
      ensures stockCode == (if added then order.stockCode else old(stockCode))
      ensures batchType == if added then Some(order.side) else old(batchType)
    {
      hide Prices, TotalQuantity, LimitValue, LimitQuantity, LeastOf, GreatestOf;
      if orders != [] {
        if order.stockCode != stockCode {
          return false;
        }
        if Some(order.side) != batchType {
          return false;
        }
      }
      NothingPricedYet(orders, order);
      stockCode, batchType := order.stockCode, Some(order.side);
      orders := orders + [order];
      UpdateStatistics();
      return true;
    }

    /** Brings the statistics of the orders held up to date; without orders nothing changes. */
    method UpdateStatistics()
      requires Prices(orders) == [] ==> minPrice == maxPrice == averagePrice == None
      requires forall o :: o in orders ==> o.stockCode == stockCode && batchType == Some(o.side)
      modifies this`totalQuantity, this`averagePrice, this`minPrice, this`maxPrice
      ensures orders != [] ==> Valid()
      ensures orders == [] ==> totalQuantity == old(totalQuantity) && averagePrice == old(averagePrice)
      ensures orders == [] ==> minPrice == old(minPrice) && maxPrice == old(maxPrice)
    {
      hide LeastOf, GreatestOf;
      if orders == [] {
        return;
      }
      totalQuantity := TotalQuantity(orders);
      var prices := Prices(orders);
      if prices != [] {
        var least, greatest := Extremes(prices);
        minPrice, maxPrice := Some(least), Some(greatest);
        var totalQty := LimitQuantity(orders);
        if totalQty > 0 {
          averagePrice := Some(LimitValue(orders) / totalQty as real);
        }
      }
    }

    predicate CanMerge(other: OrderBatch)
      reads this, other
    {
      stockCode == other.stockCode && batchType == other.batchType
    }

    /** Merging gives a new batch with both lists of orders, and leaves the two as they are. */
    method Merge(other: OrderBatch) returns (merged: OrderBatch)
      requires Valid() && other.Valid() && CanMerge(other)
      ensures fresh(merged) && merged.Valid()
      ensures merged.orders == orders + other.orders
    {
      merged := new OrderBatch();
      if orders + other.orders != [] {
        merged.stockCode, merged.batchType := stockCode, batchType;
        merged.orders := orders + other.orders;
        merged.UpdateStatistics();
      }
    }
  }

  lemma NothingPricedYet(orders: seq<Order>, order: Order)
    ensures Prices(orders + [order]) == [] ==> Prices(orders) == []
  {
    assert (orders + [order])[..|orders|] == orders;
  }

  /** The statistics add up over lists joined in order, and are those of the order itself for a single one. */
  lemma {:induction false} StatisticsAdd(a: seq<Order>, b: seq<Order>)
    ensures TotalQuantity(a + b) == TotalQuantity(a) + TotalQuantity(b)
    ensures Prices(a + b) == Prices(a) + Prices(b)
    ensures LimitValue(a + b) == LimitValue(a) + LimitValue(b)
    ensures LimitQuantity(a + b) == LimitQuantity(a) + LimitQuantity(b)
  {
    hide Worth;
    if b == [] {
      assert a + b == a;
    } else {
      var n := |b| - 1;
      StatisticsAdd(a, b[..n]);
      assert (a + b)[..|a| + n] == a + b[..n];
    }
  }

  lemma StatisticsOfOne(o: Order)
    ensures TotalQuantity([o]) == o.quantity
    ensures o.priceType == Market ==> Prices([o]) == [] && LimitQuantity([o]) == 0
    ensures o.priceType == Limit ==> LimitQuantity([o]) == o.quantity
    ensures o.priceType == Limit && HasPrice(o) ==>
      Prices([o]) == [o.limitPrice.value] && LimitValue([o]) == o.limitPrice.value * o.quantity as real
    ensures !Priced(o) ==> Prices([o]) == [] && LimitValue([o]) == 0.0
  {
    assert [o][..0] == [];
  }

  // ---- The average is one ----

  lemma {:induction false} ValueBounds(orders: seq<Order>, low: real, high: real)
    requires forall o :: o in orders ==> (o.priceType == Limit ==> HasPrice(o))
    requires forall p :: p in Prices(orders) ==> low <= p <= high
    ensures Worth(low, LimitQuantity(orders)) <= LimitValue(orders) <= Worth(high, LimitQuantity(orders))
  {
    hide Worth;
    if orders == [] {
      NothingWorth(low);
      NothingWorth(high);
    } else {
      var n := |orders| - 1;
      var o := orders[n];
      assert o in orders;
      assert forall p :: p in Prices(orders[..n]) ==> p in Prices(orders);
      ValueBounds(orders[..n], low, high);
      if Priced(o) {
        var p := o.limitPrice.value;
        assert Prices(orders)[|Prices(orders)| - 1] == p;
        assert p in Prices(orders);
        WorthMonotone(low, p, o.quantity);
        WorthMonotone(p, high, o.quantity);
        WorthAdds(low, LimitQuantity(orders[..n]), o.quantity);
        WorthAdds(high, LimitQuantity(orders[..n]), o.quantity);
      }
    }
  }

  lemma NothingWorth(x: real)
    ensures Worth(x, 0) == 0.0
  {
  }

  lemma WorthMonotone(x: real, y: real, quantity: nat)
    requires x <= y
    ensures Worth(x, quantity) <= Worth(y, quantity)
  {
  }

  lemma WorthAdds(x: real, a: nat, b: nat)
    ensures Worth(x, a + b) == Worth(x, a) + Worth(x, b)
  {
    assert (a + b) as real == a as real + b as real;
  }

  lemma QuotientBetween(low: real, value: real, high: real, quantity: nat)
    requires quantity > 0 && Worth(low, quantity) <= value <= Worth(high, quantity)
    ensures low <= value / quantity as real <= high
  {
  }

  /** When every limit order has a price, a batch's average price lies between its lowest and highest. */
  lemma AverageInRange(orders: seq<Order>, low: real, high: real)
    requires forall o :: o in orders ==> (o.priceType == Limit ==> HasPrice(o))
    requires LeastOf(low, Prices(orders)) && GreatestOf(high, Prices(orders)) && LimitQuantity(orders) > 0
    ensures low <= LimitValue(orders) / LimitQuantity(orders) as real <= high
  {
    hide LimitValue, LimitQuantity, Worth;
    ValueBounds(orders, low, high);
    QuotientBetween(low, LimitValue(orders), high, LimitQuantity(orders));
  }
}
