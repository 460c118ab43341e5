/** The in-memory broker: order, position and exchange objects updated in place, proved to do to their values
    what the ledger says. */
module KiwoomSimulator {
  import opened Wrappers
  import opened Ledger

  datatype OrderStatus = Pending | Submitted | PartiallyFilled | FilledStatus | Cancelled | Rejected | FailedStatus

  class Order {
    const data: OrderData
    var status: OrderStatus
    var filledQuantity: nat
    var filledPrice: Option<real>

    constructor (data: OrderData)
      ensures this.data == data && status == Pending && filledQuantity == 0 && filledPrice == None
    {
      this.data, status, filledQuantity, filledPrice := data, Pending, 0, None;
    }
  }

  class Position {
    const stockCode: string
    var quantity: int
    var averageBuyPrice: real
    var currentPrice: real

    ghost function Value(): Holding
      reads this
    {
      Holding(quantity, averageBuyPrice, currentPrice)
    }

    constructor (stockCode: string, quantity: Quantity, averageBuyPrice: real, currentPrice: real)
      requires CanOpen(averageBuyPrice, currentPrice)
      ensures this.stockCode == stockCode && Value() == Holding(quantity, averageBuyPrice, currentPrice)
    {
      this.stockCode, this.quantity, this.averageBuyPrice, this.currentPrice :=
        stockCode, quantity, averageBuyPrice, currentPrice;
    }

    function EvaluationAmount(): real
      reads this
    {
      Amount(currentPrice, quantity)
    }

    function UnrealizedPnl(): real
      reads this
    {
      Amount(currentPrice - averageBuyPrice, quantity)
    }

    method AddQuantity(additional: Quantity, buyPrice: real)
      requires quantity >= 0
      modifies this
      ensures Value() == Added(old(Value()), additional, buyPrice)
    {
      var totalCost := Amount(averageBuyPrice, quantity) + Amount(buyPrice, additional);
      quantity := quantity + additional;
      averageBuyPrice := totalCost / quantity as real;
    }

    /** Fails, changing nothing, exactly when more is to go than is held. */
    method ReduceQuantity(reduction: Quantity) returns (ok: bool)
      modifies this
      ensures ok <==> reduction <= old(quantity)
      ensures Value() == if ok then old(Value()).(quantity := old(quantity) - reduction) else old(Value())
    {
      if reduction > quantity {
        return false;
      }
      quantity := quantity - reduction;
      return true;
    }
  }

  function MarketPrice(price: real, side: Side): real {
    if side == Buy then Ask(price) else Bid(price)
  }

  function GetOr(m: map<string, real>, key: string, default: real): real {
    if key in m then m[key] else default
  }

  class FakeExchange {
    var prices: map<string, real>
    var bidPrices: map<string, real>
    var askPrices: map<string, real>

    /** Every priced stock has both quotes, a thousandth either side of its price. */
    ghost predicate Valid()
      reads this
    {
      && bidPrices.Keys == askPrices.Keys == prices.Keys
      && forall s :: s in prices ==> bidPrices[s] == Bid(prices[s]) && askPrices[s] == Ask(prices[s])
    }

    constructor ()
      ensures Valid() && prices == map[]
    {
      prices, bidPrices, askPrices := map[], map[], map[];
    }

    method SetPrice(stockCode: string, price: real)
      requires Valid()
      modifies this
      ensures Valid() && prices == old(prices)[stockCode := price]
    {
      prices := prices[stockCode := price];
      var spread := price * SPREAD;
      bidPrices := bidPrices[stockCode := price - spread];
      askPrices := askPrices[stockCode := price + spread];
    }

    /** Recomputing the quotes from the prices leaves them as they are. */
    method Tick()
      requires Valid()
      modifies this
      ensures Valid() && prices == old(prices) && bidPrices == old(bidPrices) && askPrices == old(askPrices)
    {
      var todo := prices.Keys;
      while todo != {}
        invariant todo <= prices.Keys && prices == old(prices)
        invariant bidPrices == old(bidPrices) && askPrices == old(askPrices)
      {
        var s :| s in todo;
        todo := todo - {s};
        var spread := prices[s] * SPREAD;
        assert bidPrices[s := prices[s] - spread] == bidPrices && askPrices[s := prices[s] + spread] == askPrices;
        bidPrices := bidPrices[s := prices[s] - spread];
        askPrices := askPrices[s := prices[s] + spread];
      }
    }

    function GetPrice(stockCode: string): Option<real>
      reads this
    {
      if stockCode in prices then Some(prices[stockCode]) else None
    }

    method ExecuteMarketOrder(order: Order) returns (known: bool)
      requires Valid()
      modifies order
      ensures known <==> order.data.stockCode in prices
      ensures known ==> order.status == FilledStatus && order.filledQuantity == order.data.quantity
      ensures known ==> order.filledPrice == Some(MarketPrice(prices[order.data.stockCode], order.data.side))
      ensures !known ==> unchanged(order)
    {
      var stockCode := order.data.stockCode;
      var currentPrice := GetPrice(stockCode);
      if currentPrice == None {
        return false;
      }
      var executionPrice;
      if order.data.side == Buy {
        executionPrice := GetOr(askPrices, stockCode, currentPrice.value);
      } else {
        executionPrice := GetOr(bidPrices, stockCode, currentPrice.value);
      }
      order.status := FilledStatus;
      order.filledQuantity := order.data.quantity;
      order.filledPrice := Some(executionPrice);
      return true;
    }

    method ExecuteLimitOrder(order: Order) returns (accepted: bool)
      modifies order
      ensures accepted <==> order.data.stockCode in prices && order.data.limitPrice.Some?
      ensures accepted ==>
        var price, limit := prices[order.data.stockCode], order.data.limitPrice.value;
        if (if order.data.side == Buy then price <= limit else price >= limit)
        then order.status == FilledStatus && order.filledQuantity == order.data.quantity && order.filledPrice == Some(price)
        else order.status == (if old(order.status) == Pending then Submitted else old(order.status))
             && order.filledQuantity == old(order.filledQuantity) && order.filledPrice == old(order.filledPrice)
      ensures !accepted ==> unchanged(order)
    {
      var currentPrice := GetPrice(order.data.stockCode);
      if currentPrice == None {
        return false;
      }
      if order.data.limitPrice == None {
        return false;
      }
      var canFill := false;
      var executionPrice := 0.0;
      if order.data.side == Buy {
        if currentPrice.value <= order.data.limitPrice.value {
          canFill, executionPrice := true, currentPrice.value;
        }
      } else {
        if currentPrice.value >= order.data.limitPrice.value {
          canFill, executionPrice := true, currentPrice.value;
        }
      }
      if canFill {
        order.status := FilledStatus;
        order.filledQuantity := order.data.quantity;
        order.filledPrice := Some(executionPrice);
      } else if order.status == Pending {
        order.status := Submitted;
      }
      return true;
    }

    /** The exchange does to an order in a stock it knows what the ledger's execution rule says. */
    method ExecuteOrder(order: Order) returns (accepted: bool)
      requires Valid()
      modifies order
      ensures order.data.stockCode !in prices ==> !accepted && unchanged(order)
      ensures order.data.stockCode in prices ==>
        var execution := Execute(prices[order.data.stockCode], order.data);
        && (accepted <==> !execution.Refuse?)
        && (if execution.Fill?
            then order.status == FilledStatus && order.filledQuantity == order.data.quantity
                 && order.filledPrice == Some(execution.price)
            else order.status == (if execution.Rest? && old(order.status) == Pending then Submitted else old(order.status))
                 && order.filledQuantity == old(order.filledQuantity) && order.filledPrice == old(order.filledPrice))
    {
      if order.data.priceType == Market {
        accepted := ExecuteMarketOrder(order);
      } else {
        accepted := ExecuteLimitOrder(order);
      }
    }
  }

  class KiwoomSimulator {
    var cashBalance: real
    var totalAssetValue: real
    var totalPnl: real
    var positions: map<string, Position>
    var orderHistory: map<string, Order>
    const exchange: FakeExchange

    ghost predicate Valid()
      reads this, positions.Values, exchange
    {
      && exchange.Valid()
      && (forall s :: s in positions ==> positions[s].stockCode == s && positions[s].quantity > 0)
    }

    ghost function View(): Book
      reads this, positions.Values
    {
      Book(cashBalance, map s | s in positions :: positions[s].Value())
    }

    constructor (initialBalance: real)
      ensures Valid() && View() == Book(initialBalance, map[]) && fresh(exchange)
      ensures exchange.prices == map[] && orderHistory == map[]
      ensures totalAssetValue == initialBalance && totalPnl == 0.0
    {
      cashBalance, totalAssetValue, totalPnl := initialBalance, initialBalance, 0.0;
      positions, orderHistory := map[], map[];
      exchange := new FakeExchange();
      new;
      assert View().holdings == map[];
    }

    /** The account's totals: cash plus the positions' values, and the sum of their unrealised gains. */
    method GetAccount()
      requires Valid()
      modifies this`totalAssetValue, this`totalPnl
      ensures totalAssetValue == View().cash + Sum(View().holdings, AtLastPrice)
      ensures totalPnl == Sum(View().holdings, Gain)
    {
      hide Amount, Sum;
      var value, gain := 0.0, 0.0;
      var todo := positions.Keys;
      ghost var holdings := View().holdings;
      assert Part(holdings, todo) == holdings;
      while todo != {}
        invariant todo <= positions.Keys
        invariant value + Sum(Part(holdings, todo), AtLastPrice) == Sum(holdings, AtLastPrice)
        invariant gain + Sum(Part(holdings, todo), Gain) == Sum(holdings, Gain)
      {
        var s :| s in todo;
        ghost var part := Part(holdings, todo);
        SumRemove(part, s, AtLastPrice);
        SumRemove(part, s, Gain);
        todo := todo - {s};
        assert Part(holdings, todo) == part - {s};
        value := value + positions[s].EvaluationAmount();
        gain := gain + positions[s].UnrealizedPnl();
      }
      EmptyPart(holdings);
      totalAssetValue := cashBalance + value;
      totalPnl := gain;
      assert View().holdings == holdings;
    }

    /** Writes the exchange's prices into the positions. */
    method GetPositions()
      requires Valid()
      modifies positions.Values
      ensures Valid() && View() == Refresh(old(View()), exchange.prices)
    {
      var todo := positions.Keys;
      while todo != {}
        invariant todo <= positions.Keys
        invariant Valid()
        invariant forall s :: s in positions ==>
            positions[s].Value() == if s !in todo && s in exchange.prices
                                    then old(positions[s].Value()).(lastPrice := exchange.prices[s])
                                    else old(positions[s].Value())
      {
        var s :| s in todo;
        todo := todo - {s};
        var price := exchange.GetPrice(s);
        if price.Some? {
          positions[s].currentPrice := price.value;
        }
      }
    }

    /** An order is recorded unless it failed inside the exchange or while a position was being created. */
    predicate Recorded(outcome: Outcome) {
      outcome != Failed(NoLimitPrice) && outcome != Failed(InvalidPosition)
    }

    method SubmitOrder(order: Order) returns (outcome: Outcome)
      requires Valid()
      modifies this, positions.Values, order
      ensures Valid()
      ensures (View(), outcome) == Submit(old(View()), exchange.prices, order.data)
      ensures orderHistory ==
        if Recorded(outcome) then old(orderHistory)[order.data.orderId := order] else old(orderHistory)
      ensures Settled(order, outcome)
    {
      hide SubmitBuy, SubmitSell;
      order.status := Submitted;
      var stockCode := order.data.stockCode;
      var currentPrice := exchange.GetPrice(stockCode);
      assert View() == old(View());
      if currentPrice == None {
        order.status := Rejected;
        orderHistory := orderHistory[order.data.orderId := order];
        assert View() == old(View());
        return Failed(UnknownStock);
      }
      if order.data.side == Buy {
        outcome := SubmitBuyOrder(order, currentPrice.value);
      } else {
        outcome := SubmitSellOrder(order, currentPrice.value);
      }
    }

    /** Debits a filled buy, then adds to the position or opens one; opening fails on a price no position accepts. */
    method ApplyBuy(data: OrderData, currentPrice: real, fill: real) returns (outcome: Outcome)
      requires Valid()
      modifies this`cashBalance, this`positions, positions.Values
      ensures Valid()
      ensures (View(), outcome) == BuyFilled(old(View()), currentPrice, data, fill)
    {
      hide Amount, Added;
      var stockCode := data.stockCode;
      cashBalance := cashBalance - Amount(fill, data.quantity);
      if stockCode in positions {
        AddedQuantity(positions[stockCode].Value(), data.quantity, fill);
        positions[stockCode].AddQuantity(data.quantity, fill);
        assert View().holdings == old(View()).holdings[stockCode := positions[stockCode].Value()];
      } else {
        if !CanOpen(fill, currentPrice) {
          assert View().holdings == old(View()).holdings;
          return Failed(InvalidPosition);
        }
        var position := new Position(stockCode, data.quantity, fill, currentPrice);
        positions := positions[stockCode := position];
        assert View().holdings == old(View()).holdings[stockCode := position.Value()];
      }
      return Filled(fill);
    }

    /** Credits a filled sell, then reduces the position, dropping it when nothing is left. */
    method ApplySell(data: OrderData, fill: real) returns (outcome: Outcome)
      requires Valid() && data.stockCode in positions && data.quantity <= positions[data.stockCode].quantity
      modifies this`cashBalance, this`positions, positions.Values
      ensures Valid()
      ensures (View(), outcome) == SellFilled(old(View()), data, fill)
    {
      hide Amount;
      var position := positions[data.stockCode];
      cashBalance := cashBalance + Amount(fill, data.quantity);
      var reduced := position.ReduceQuantity(data.quantity);
      if position.quantity == 0 {
        positions := positions - {data.stockCode};
        assert View().holdings == old(View()).holdings - {data.stockCode};
      } else {
        assert View().holdings == old(View()).holdings[data.stockCode := position.Value()];
      }
      return Filled(fill);
    }

    method Record(order: Order)
      requires Valid()
      modifies this`orderHistory
      ensures Valid() && View() == old(View())
      ensures orderHistory == old(orderHistory)[order.data.orderId := order]
    {
      orderHistory := orderHistory[order.data.orderId := order];
    }

    method Reject(order: Order)
      requires Valid()
      modifies this`orderHistory, order
      ensures Valid() && View() == old(View()) && order.status == Rejected
      ensures orderHistory == old(orderHistory)[order.data.orderId := order]
    {
      order.status := Rejected;
      Record(order);
    }

    method Forward(order: Order) returns (accepted: bool)
      requires Valid() && order.data.stockCode in exchange.prices && order.status == Submitted
      modifies order
      ensures Valid() && View() == old(View())
      ensures var execution := Execute(exchange.prices[order.data.stockCode], order.data);
        && (accepted <==> !execution.Refuse?)
        && (execution.Fill? ==> order.status == FilledStatus && order.filledQuantity == order.data.quantity
                                && order.filledPrice == Some(execution.price))
        && (!execution.Fill? ==> order.status == Submitted)
    {
      accepted := exchange.ExecuteOrder(order);
      assert View().holdings == old(View()).holdings;
    }

    method SubmitBuyOrder(order: Order, currentPrice: real) returns (outcome: Outcome)
      requires Valid() && order.data.side == Buy && order.status == Submitted
      requires order.data.stockCode in exchange.prices && currentPrice == exchange.prices[order.data.stockCode]
      modifies this, positions.Values, order
      ensures Valid()
      ensures (View(), outcome) == SubmitBuy(old(View()), currentPrice, order.data)
      ensures orderHistory ==
        if Recorded(outcome) then old(orderHistory)[order.data.orderId := order] else old(orderHistory)
      ensures Settled(order, outcome)
    {
      hide Amount, Added, Ask, Bid, Execute, BuyFilled;
      ghost var book := View();
      if cashBalance < Amount(currentPrice, order.data.quantity) {
        Reject(order);
        return Failed(InsufficientBalance);
      }
      var accepted := Forward(order);
      if !accepted {
        return Failed(NoLimitPrice);
      }
      outcome := Resting;
      if order.status == FilledStatus {
        outcome := ApplyBuy(order.data, currentPrice, order.filledPrice.value);
        BuyOutcomes(book, currentPrice, order.data, order.filledPrice.value);
        if outcome == Failed(InvalidPosition) {
          return;
        }
      }
      Record(order);
    }

    method SubmitSellOrder(order: Order, currentPrice: real) returns (outcome: Outcome)
      requires Valid() && order.data.side == Sell && order.status == Submitted
      requires order.data.stockCode in exchange.prices && currentPrice == exchange.prices[order.data.stockCode]
      modifies this, positions.Values, order
      ensures Valid()
      ensures (View(), outcome) == SubmitSell(old(View()), currentPrice, order.data)
      ensures orderHistory ==
        if Recorded(outcome) then old(orderHistory)[order.data.orderId := order] else old(orderHistory)
      ensures Settled(order, outcome)
    {
      hide Amount, Added, Ask, Bid, Execute, SellFilled;
      ghost var book := View();
      var stockCode := order.data.stockCode;
      if stockCode !in positions {
        Reject(order);
        return Failed(NoPosition);
      }
      if order.data.quantity > positions[stockCode].quantity {
        Reject(order);
        return Failed(InsufficientQuantity);
      }
      var accepted := Forward(order);
      if !accepted {
        return Failed(NoLimitPrice);
      }
      outcome := Resting;
      if order.status == FilledStatus {
        outcome := ApplySell(order.data, order.filledPrice.value);
        SellOutcomes(book, order.data, order.filledPrice.value);
      }
      Record(order);
    }
  }

  /** How an order object ends up. */
  ghost predicate Settled(order: Order, outcome: Outcome)
    reads order
  {
    match outcome
    case Filled(price) =>
      order.status == FilledStatus && order.filledQuantity == order.data.quantity && order.filledPrice == Some(price)
    case Resting => order.status == Submitted
    case Failed(error) =>
      order.status == if error == InvalidPosition then FilledStatus else if error == NoLimitPrice then Submitted else Rejected
  }

  lemma BuyOutcomes(book: Book, price: real, data: OrderData, fill: real)
    requires Positive(book)
    ensures BuyFilled(book, price, data, fill).1 in {Filled(fill), Failed(InvalidPosition)}
  {
  }

  lemma SellOutcomes(book: Book, data: OrderData, fill: real)
    requires data.stockCode in book.holdings
    ensures SellFilled(book, data, fill).1 == Filled(fill)
  {
  }

  lemma EmptyPart(holdings: map<string, Holding>)
    ensures forall m :: Sum(Part(holdings, {}), m) == 0.0
  {
  }

  ghost function Part(holdings: map<string, Holding>, stocks: set<string>): map<string, Holding> {
    map s | s in holdings && s in stocks :: holdings[s]
  }
}
