/** The simulator's money: cash, holdings and what one order does to them, as values; and what any run of price
    changes and orders conserves. Prices and cash are exact. */
module Ledger {
  import opened Wrappers

  datatype Side = Buy | Sell

  datatype PriceType = Market | Limit

  type Quantity = n: nat | n > 0 witness 1

  /** What an order asks for. */
  datatype OrderData = OrderData(
    orderId: string, stockCode: string, side: Side, priceType: PriceType, quantity: Quantity, limitPrice: Option<real>)

  /** Holdings of one stock; `lastPrice` is the price last written into the position. */
  datatype Holding = Holding(quantity: int, averagePrice: real, lastPrice: real)

  datatype Book = Book(cash: real, holdings: map<string, Holding>)

  const SPREAD: real := 0.001

  /** Price times quantity. */
  function Amount(price: real, quantity: int): real {
    price * quantity as real
  }

  function Bid(price: real): real { price - price * SPREAD }

  function Ask(price: real): real { price + price * SPREAD }

  datatype Error =
    | UnknownStock | InsufficientBalance | NoPosition | InsufficientQuantity | NoLimitPrice | InvalidPosition

  /** What the exchange does with an order at a price. */
  datatype Execution = Fill(price: real) | Rest | Refuse

  function Execute(price: real, o: OrderData): Execution {
    match o.priceType
    case Market => Fill(if o.side == Buy then Ask(price) else Bid(price))
    case Limit =>
      if o.limitPrice == None then Refuse
      else if o.side == Buy then (if price <= o.limitPrice.value then Fill(price) else Rest)
      else (if price >= o.limitPrice.value then Fill(price) else Rest)
  }

  datatype Outcome = Filled(price: real) | Resting | Failed(error: Error)

  function Added(h: Holding, quantity: Quantity, price: real): Holding
    requires h.quantity >= 0
  {
    var total := Amount(h.averagePrice, h.quantity) + Amount(price, quantity);
    h.(quantity := h.quantity + quantity, averagePrice := total / (h.quantity + quantity) as real)
  }

  /** A position is only created with a positive average and current price. */
  predicate CanOpen(fill: real, price: real) {
    fill > 0.0 && price > 0.0
  }

  predicate Positive(book: Book) {
    forall s :: s in book.holdings ==> book.holdings[s].quantity > 0
  }

  /** A filled buy debits the cash first, then adds to the position or opens one. */
  function BuyFilled(book: Book, price: real, o: OrderData, fill: real): (Book, Outcome)
    requires Positive(book)
  {
    var cash := book.cash - Amount(fill, o.quantity);
    if o.stockCode in book.holdings
    then (Book(cash, book.holdings[o.stockCode := Added(book.holdings[o.stockCode], o.quantity, fill)]), Filled(fill))
    else if CanOpen(fill, price)
    then (Book(cash, book.holdings[o.stockCode := Holding(o.quantity, fill, price)]), Filled(fill))
    else (Book(cash, book.holdings), Failed(InvalidPosition))
  }

  function SellFilled(book: Book, o: OrderData, fill: real): (Book, Outcome)
    requires o.stockCode in book.holdings
  {
    var h := book.holdings[o.stockCode];
    var cash := book.cash + Amount(fill, o.quantity);
    if h.quantity == o.quantity
    then (Book(cash, book.holdings - {o.stockCode}), Filled(fill))
    else (Book(cash, book.holdings[o.stockCode := h.(quantity := h.quantity - o.quantity)]), Filled(fill))
  }

  function SubmitBuy(book: Book, price: real, o: OrderData): (Book, Outcome)
    requires Positive(book)
  {
    if book.cash < Amount(price, o.quantity) then (book, Failed(InsufficientBalance))
    else
      match Execute(price, o)
      case Refuse => (book, Failed(NoLimitPrice))
      case Rest => (book, Resting)
      case Fill(fill) => BuyFilled(book, price, o, fill)
  }

  function SubmitSell(book: Book, price: real, o: OrderData): (Book, Outcome) {
    if o.stockCode !in book.holdings then (book, Failed(NoPosition))
    else
      var h := book.holdings[o.stockCode];
      if o.quantity > h.quantity then (book, Failed(InsufficientQuantity))
      else
        match Execute(price, o)
        case Refuse => (book, Failed(NoLimitPrice))
        case Rest => (book, Resting)
        case Fill(fill) => SellFilled(book, o, fill)
  }

  function Submit(book: Book, prices: map<string, real>, o: OrderData): (Book, Outcome)
    requires Positive(book)
  {
    if o.stockCode !in prices then (book, Failed(UnknownStock))
    else if o.side == Buy then SubmitBuy(book, prices[o.stockCode], o)
    else SubmitSell(book, prices[o.stockCode], o)
  }

  function Refresh(book: Book, prices: map<string, real>): Book {
    book.(holdings := map s | s in book.holdings ::
      if s in prices then book.holdings[s].(lastPrice := prices[s]) else book.holdings[s])
  }

  // ---- Sums over holdings ----

  /** Ways to value a holding. */
  datatype Measure = AtCost | AtLastPrice | Gain | AtPrices(prices: map<string, real>)

  function Value(m: Measure, stockCode: string, h: Holding): real {
    match m
    case AtCost => Amount(h.averagePrice, h.quantity)
    case AtLastPrice => Amount(h.lastPrice, h.quantity)
    case Gain => Amount(h.lastPrice - h.averagePrice, h.quantity)
    case AtPrices(prices) => if stockCode in prices then Amount(prices[stockCode], h.quantity) else 0.0
  }

  ghost function Sum(m: map<string, Holding>, measure: Measure): real {
    if m == map[] then 0.0
    else
      var s :| s in m;
      Value(measure, s, m[s]) + Sum(m - {s}, measure)
  }

  /** Any entry may be taken out of a sum first. */
  lemma {:induction false} SumRemove(m: map<string, Holding>, s: string, measure: Measure)
    requires s in m
    ensures Sum(m, measure) == Value(measure, s, m[s]) + Sum(m - {s}, measure)
  {
    var first :| first in m && Sum(m, measure) == Value(measure, first, m[first]) + Sum(m - {first}, measure);
    if first != s {
      SumRemove(m - {first}, s, measure);
      SumRemove(m - {s}, first, measure);
      assert m - {first} - {s} == m - {s} - {first};
    }
  }

  lemma SumUpdate(m: map<string, Holding>, s: string, h: Holding, measure: Measure)
    ensures Sum(m[s := h], measure) == Sum(m, measure) - (if s in m then Value(measure, s, m[s]) else 0.0) + Value(measure, s, h)
  {
    SumRemove(m[s := h], s, measure);
    assert m[s := h] - {s} == m - {s};
    if s in m {
      SumRemove(m, s, measure);
    } else {
      assert m - {s} == m;
    }
  }

  lemma {:induction false} SumSplit(m: map<string, Holding>)
    ensures Sum(m, AtLastPrice) == Sum(m, AtCost) + Sum(m, Gain)
  {
    hide Amount;
    if m != map[] {
      var s :| s in m;
      SumRemove(m, s, AtLastPrice);
      SumRemove(m, s, AtCost);
      SumRemove(m, s, Gain);
      SumSplit(m - {s});
      AmountByPrice(m[s].lastPrice, m[s].averagePrice, m[s].quantity);
    }
  }

  /** Cash plus what the holdings cost. */
  ghost function Invested(book: Book): real {
    book.cash + Sum(book.holdings, AtCost)
  }

  /** Cash plus what the holdings are worth at the exchange's prices. */
  ghost function Equity(book: Book, prices: map<string, real>): real {
    book.cash + Sum(book.holdings, AtPrices(prices))
  }

  /** What an order realises: for a filled sell, the fill less the average cost, on the quantity sold. */
  function Realised(book: Book, o: OrderData, outcome: Outcome): real {
    if outcome.Filled? && o.side == Sell && o.stockCode in book.holdings
    then Amount(outcome.price - book.holdings[o.stockCode].averagePrice, o.quantity)
    else 0.0
  }

  lemma AmountByQuantity(x: real, a: int, b: int)
    ensures Amount(x, a + b) == Amount(x, a) + Amount(x, b)
    ensures Amount(x, a - b) == Amount(x, a) - Amount(x, b)
  {
    assert (a + b) as real == a as real + b as real;
    assert (a - b) as real == a as real - b as real;
  }

  lemma AmountByPrice(x: real, y: real, n: int)
    ensures Amount(x - y, n) == Amount(x, n) - Amount(y, n)
    ensures Amount(x + y, n) == Amount(x, n) + Amount(y, n)
  {
  }

  lemma AmountSign(x: real, n: int)
    requires n > 0
    ensures Amount(x, n) > 0.0 <==> x > 0.0
    ensures Amount(x, n) < 0.0 <==> x < 0.0
  {
    var r := n as real;
    assert r > 0.0;
    if x > 0.0 {
      assert x * r > 0.0;
    } else if x < 0.0 {
      assert (-x) * r > 0.0;
    }
  }

  lemma AddedCost(h: Holding, quantity: Quantity, price: real)
    requires h.quantity >= 0
    ensures var added := Added(h, quantity, price);
      Amount(added.averagePrice, added.quantity) == Amount(h.averagePrice, h.quantity) + Amount(price, quantity)
  {
    var total, n := Amount(h.averagePrice, h.quantity) + Amount(price, quantity), (h.quantity + quantity) as real;
    assert total / n * n == total;
  }

  /** The order can be executed at the price: it is a market order, or its limit is given and met. */
  predicate Executable(price: real, o: OrderData) {
    o.priceType == Market
    || (o.limitPrice.Some? && if o.side == Buy then price <= o.limitPrice.value else price >= o.limitPrice.value)
  }

  /** The order is a buy at a negative price, affordable and fillable, in a stock that is not held yet. */
  predicate OpensAtNegativePrice(book: Book, prices: map<string, real>, o: OrderData) {
    && o.side == Buy && o.stockCode in prices && prices[o.stockCode] < 0.0
    && o.stockCode !in book.holdings
    && book.cash >= Amount(prices[o.stockCode], o.quantity)
    && Executable(prices[o.stockCode], o)
  }

  lemma OpeningFails(book: Book, prices: map<string, real>, o: OrderData)
    requires Positive(book)
    ensures OpensAtNegativePrice(book, prices, o) <==>
            o.stockCode in prices && prices[o.stockCode] < 0.0 && Submit(book, prices, o).1 == Failed(InvalidPosition)
  {
    hide Amount, Ask;
  }

  /** The money identity of one order: cash plus cost changes by exactly what the order realises, except when a
      buy would open a position at a negative price. That buy debits a negative cost and then fails. */
  lemma SubmitConserves(book: Book, prices: map<string, real>, o: OrderData)
    requires Positive(book)
    ensures var (after, outcome) := Submit(book, prices, o);
      Invested(after) == Invested(book) + Realised(book, o, outcome) <==> !OpensAtNegativePrice(book, prices, o)
  {
    OpeningFails(book, prices, o);
    hide Invested, SubmitBuy, SubmitSell, OpensAtNegativePrice;
    if o.stockCode in prices {
      if o.side == Buy {
        BuyConserves(book, prices[o.stockCode], o);
      } else {
        SellConserves(book, prices[o.stockCode], o);
      }
    }
  }

  lemma BuyConserves(book: Book, price: real, o: OrderData)
    requires Positive(book) && o.side == Buy
    ensures var (after, outcome) := SubmitBuy(book, price, o);
      && (outcome != Failed(InvalidPosition) ==> Invested(after) == Invested(book))
      && (outcome == Failed(InvalidPosition) ==> price <= 0.0 && (Invested(after) == Invested(book) <==> price == 0.0))
  {
    hide Amount, Added, Sum;
    var (after, outcome) := SubmitBuy(book, price, o);
    var s := o.stockCode;
    if outcome.Filled? {
      SumUpdate(book.holdings, s, after.holdings[s], AtCost);
      if s in book.holdings {
        AddedCost(book.holdings[s], o.quantity, outcome.price);
      }
    } else if outcome == Failed(InvalidPosition) {
      AmountSign(Execute(price, o).price, o.quantity);
    }
  }

  lemma SellConserves(book: Book, price: real, o: OrderData)
    requires Positive(book) && o.side == Sell
    ensures var (after, outcome) := SubmitSell(book, price, o);
      && outcome != Failed(InvalidPosition)
      && Invested(after) == Invested(book) + Realised(book, o, outcome)
  {
    hide Amount, Sum, Execute;
    var (after, outcome) := SubmitSell(book, price, o);
    if outcome.Filled? {
      var s := o.stockCode;
      var h := book.holdings[s];
      AmountByPrice(outcome.price, h.averagePrice, o.quantity);
      if h.quantity == o.quantity {
        SumRemove(book.holdings, s, AtCost);
      } else {
        SumUpdate(book.holdings, s, after.holdings[s], AtCost);
        AmountByQuantity(h.averagePrice, h.quantity, o.quantity);
      }
    }
  }

  // ---- What becomes of an order, from the caller's data alone ----

  /** The order waits: its limit is given and not met. */
  predicate Waits(price: real, o: OrderData) {
    o.priceType == Limit && o.limitPrice.Some? && !Executable(price, o)
  }

  /** A market order gives way by a thousandth of the price; a limit order is executed at the price itself. */
  function FillAt(price: real, o: OrderData): real {
    if o.priceType == Limit then price else if o.side == Buy then price * 1.001 else price * 0.999
  }

  /** Nothing but the given stock's holding and the cash is touched. */
  ghost predicate OnlyTouches(before: Book, after: Book, stockCode: string) {
    after.holdings - {stockCode} == before.holdings - {stockCode}
  }

  lemma UnknownIff(book: Book, prices: map<string, real>, o: OrderData)
    requires Positive(book)
    ensures Submit(book, prices, o).1 == Failed(UnknownStock) <==> o.stockCode !in prices
    ensures o.stockCode !in prices ==> Submit(book, prices, o).0 == book
  {
    hide Amount;
  }

  /** A sell is filled exactly when at least its quantity is held and it can be executed; each refusal has its own
      condition and changes nothing. */
  lemma SellDecided(book: Book, prices: map<string, real>, o: OrderData)
    requires Positive(book) && o.side == Sell && o.stockCode in prices
    ensures var s, price, (after, outcome) := o.stockCode, prices[o.stockCode], Submit(book, prices, o);
      var enough := s in book.holdings && book.holdings[s].quantity >= o.quantity;
      && (outcome == Filled(FillAt(price, o)) <==> enough && Executable(price, o))
      && (outcome == Resting <==> enough && Waits(price, o))
      && (outcome == Failed(NoLimitPrice) <==> enough && o.priceType == Limit && o.limitPrice == None)
      && (outcome == Failed(NoPosition) <==> s !in book.holdings)
      && (outcome == Failed(InsufficientQuantity) <==> s in book.holdings && book.holdings[s].quantity < o.quantity)
      && (!outcome.Filled? ==> after == book)
  {
    hide Amount;
  }

  /** A filled sell credits the fill for the quantity sold and takes that quantity off the holding, which goes when nothing
      is left and otherwise keeps its average. */
  lemma SellMoves(book: Book, prices: map<string, real>, o: OrderData)
    requires Positive(book) && o.side == Sell && Submit(book, prices, o).1.Filled?
    ensures o.stockCode in prices && o.stockCode in book.holdings
    ensures var s, after := o.stockCode, Submit(book, prices, o).0;
      var h := book.holdings[s];
      && after.cash == book.cash + FillAt(prices[s], o) * o.quantity as real
      && (s in after.holdings <==> h.quantity > o.quantity)
      && (s in after.holdings ==>
            after.holdings[s] == Holding(h.quantity - o.quantity, h.averagePrice, h.lastPrice))
      && OnlyTouches(book, after, s)
  {
    SellDecided(book, prices, o);
  }

  /** A buy is filled exactly when the cash covers the quantity at the current price and it can be executed (and, for a stock
      not held yet, the price is positive); each refusal has its own condition and, that last case apart, changes nothing. */
  lemma BuyDecided(book: Book, prices: map<string, real>, o: OrderData)
    requires Positive(book) && o.side == Buy && o.stockCode in prices
    ensures var s, price, (after, outcome) := o.stockCode, prices[o.stockCode], Submit(book, prices, o);
      var covered, opens := book.cash >= price * o.quantity as real, s in book.holdings || price > 0.0;
      && (outcome == Filled(FillAt(price, o)) <==> covered && Executable(price, o) && opens)
      && (outcome == Resting <==> covered && Waits(price, o))
      && (outcome == Failed(NoLimitPrice) <==> covered && o.priceType == Limit && o.limitPrice == None)
      && (outcome == Failed(InsufficientBalance) <==> !covered)
      && (outcome == Failed(InvalidPosition) <==> covered && Executable(price, o) && !opens)
      && (!outcome.Filled? && outcome != Failed(InvalidPosition) ==> after == book)
  {
    assert Amount(prices[o.stockCode], o.quantity) == prices[o.stockCode] * o.quantity as real;
    hide Amount, Added;
  }

  /** A filled buy debits the fill for the quantity bought and adds that quantity; the average is what the holding cost in
      all, divided by its quantity. */
  lemma BuyMoves(book: Book, prices: map<string, real>, o: OrderData)
    requires Positive(book) && o.side == Buy && Submit(book, prices, o).1.Filled?
    ensures o.stockCode in prices && o.stockCode in Submit(book, prices, o).0.holdings
    ensures var s, after := o.stockCode, Submit(book, prices, o).0;
      var fill, h := FillAt(prices[s], o), after.holdings[s];
      var had, cost := Held(book, s), if s in book.holdings then Amount(book.holdings[s].averagePrice, Held(book, s)) else 0.0;
      && after.cash == book.cash - fill * o.quantity as real
      && h.quantity == had + o.quantity
      && h.averagePrice * h.quantity as real == cost + fill * o.quantity as real
      && h.lastPrice == (if s in book.holdings then book.holdings[s].lastPrice else prices[s])
      && OnlyTouches(book, after, s)
  {
    BuyDecided(book, prices, o);
    var s := o.stockCode;
    if s in book.holdings {
      AddedCost(book.holdings[s], o.quantity, FillAt(prices[s], o));
    }
  }

  // ---- Bounds on cash and on equity ----

  ghost predicate Priced(book: Book, prices: map<string, real>) {
    && (forall s :: s in prices ==> prices[s] > 0.0)
    && (forall s :: s in book.holdings ==> s in prices && book.holdings[s].averagePrice > 0.0)
  }

  /** A buy is checked against the current price but a market buy fills at the ask: it leaves at worst a
      thousandth of the cash before owing. A limit buy never overdraws, and a sell only adds cash. */
  lemma CashBounds(book: Book, prices: map<string, real>, o: OrderData)
    requires Positive(book) && Priced(book, prices)
    ensures var after := Submit(book, prices, o).0;
      && (o.side == Buy && after.cash != book.cash ==> after.cash >= -book.cash * SPREAD)
      && (o.side == Buy && o.priceType == Limit && after.cash != book.cash ==> after.cash >= 0.0)
      && (o.side == Sell ==> after.cash >= book.cash)
  {
    if o.stockCode in prices {
      var price := prices[o.stockCode];
      MarketAmounts(price, o.quantity);
      AmountSign(price, o.quantity);
      AmountSign(Bid(price), o.quantity);
      hide Amount, Added, Ask, Bid;
    }
  }

  lemma MarketAmounts(price: real, n: Quantity)
    ensures Amount(Ask(price), n) == Amount(price, n) + Amount(price, n) * SPREAD
    ensures Amount(Bid(price), n) == Amount(price, n) - Amount(price, n) * SPREAD
    ensures price > 0.0 ==> Bid(price) > 0.0
  {
    AmountByPrice(price, price * SPREAD, n);
    assert price * SPREAD * n as real == price * n as real * SPREAD;
  }

  /** What trading at market costs: a thousandth of the value traded. */
  function Fee(prices: map<string, real>, o: OrderData, outcome: Outcome): real {
    if outcome.Filled? && o.priceType == Market && o.stockCode in prices
    then Amount(prices[o.stockCode], o.quantity) * SPREAD else 0.0
  }

  /** At fixed positive prices an order changes equity by exactly its fee. */
  lemma EquityFallsByFee(book: Book, prices: map<string, real>, o: OrderData)
    requires Positive(book) && Priced(book, prices)
    ensures var (after, outcome) := Submit(book, prices, o);
      Equity(after, prices) == Equity(book, prices) - Fee(prices, o, outcome) && Fee(prices, o, outcome) >= 0.0
  {
    var (after, outcome) := Submit(book, prices, o);
    if outcome.Filled? {
      var s, price := o.stockCode, prices[o.stockCode];
      MarketAmounts(price, o.quantity);
      AmountSign(price, o.quantity);
      FillPrice(price, o);
      hide Amount, Sum, Execute, Added, Ask, Bid;
      if s in after.holdings {
        SumUpdate(book.holdings, s, after.holdings[s], AtPrices(prices));
      } else {
        SumRemove(book.holdings, s, AtPrices(prices));
      }
      if s in book.holdings {
        AmountByQuantity(price, book.holdings[s].quantity, o.quantity);
        AddedQuantity(book.holdings[s], o.quantity, outcome.price);
      }
    } else {
      NoFillNoChange(book, prices, o);
    }
  }

  lemma AddedQuantity(h: Holding, quantity: Quantity, price: real)
    requires h.quantity >= 0
    ensures Added(h, quantity, price).quantity == h.quantity + quantity
  {
  }

  lemma FillPrice(price: real, o: OrderData)
    requires Execute(price, o).Fill?
    ensures Execute(price, o).price ==
            if o.priceType == Limit then price else if o.side == Buy then Ask(price) else Bid(price)
  {
  }

  lemma NoFillNoChange(book: Book, prices: map<string, real>, o: OrderData)
    requires Positive(book) && Priced(book, prices) && !Submit(book, prices, o).1.Filled?
    ensures Submit(book, prices, o).0 == book
  {
    if o.stockCode in prices {
      MarketAmounts(prices[o.stockCode], o.quantity);
      assert Ask(prices[o.stockCode]) > 0.0;
    }
  }

  // ---- Whole runs ----

  datatype Event = SetPrice(stockCode: string, price: real) | Place(order: OrderData) | RefreshPositions

  /** An executed order with the price it filled at and the gain it realised. */
  datatype Trade = Trade(order: OrderData, price: real, realised: real)

  datatype Simulation = Simulation(prices: map<string, real>, book: Book, trades: seq<Trade>)

  function After(s: Simulation, e: Event): Simulation
    requires Positive(s.book)
  {
    match e
    case SetPrice(stockCode, price) => s.(prices := s.prices[stockCode := price])
    case RefreshPositions => s.(book := Refresh(s.book, s.prices))
    case Place(o) =>
      var (book, outcome) := Submit(s.book, s.prices, o);
      Simulation(s.prices, book,
        if outcome.Filled? then s.trades + [Trade(o, outcome.price, Realised(s.book, o, outcome))] else s.trades)
  }

  lemma AfterPositive(s: Simulation, e: Event)
    requires Positive(s.book)
    ensures Positive(After(s, e).book)
  {
  }

  function Run(initial: real, events: seq<Event>): (s: Simulation)
    ensures Positive(s.book)
  {
    if events == [] then Simulation(map[], Book(initial, map[]), [])
    else
      var before := Run(initial, events[..|events| - 1]);
      AfterPositive(before, events[|events| - 1]);
      After(before, events[|events| - 1])
  }

  predicate PositivePrices(events: seq<Event>) {
    forall i :: 0 <= i < |events| && events[i].SetPrice? ==> events[i].price > 0.0
  }

  function TotalRealised(trades: seq<Trade>): real {
    if trades == [] then 0.0 else TotalRealised(trades[..|trades| - 1]) + trades[|trades| - 1].realised
  }

  /** What a filled order adds to the holding of a stock. */
  function Moved(o: OrderData, stockCode: string): int {
    if o.stockCode != stockCode then 0 else if o.side == Buy then o.quantity else 0 - o.quantity
  }

  /** Bought less sold, of one stock. */
  function Net(trades: seq<Trade>, stockCode: string): int {
    if trades == [] then 0
    else
      var t := trades[|trades| - 1].order;
      Net(trades[..|trades| - 1], stockCode) +
        Moved(t, stockCode)
  }

  function Held(book: Book, stockCode: string): int {
    if stockCode in book.holdings then book.holdings[stockCode].quantity else 0
  }

  lemma {:induction false} RefreshKeepsCost(m: map<string, Holding>, n: map<string, Holding>)
    requires m.Keys == n.Keys
    requires forall s :: s in m ==> n[s].quantity == m[s].quantity && n[s].averagePrice == m[s].averagePrice
    ensures Sum(m, AtCost) == Sum(n, AtCost)
  {
    hide Amount;
    if m != map[] {
      var s :| s in m;
      SumRemove(m, s, AtCost);
      SumRemove(n, s, AtCost);
      RefreshKeepsCost(m - {s}, n - {s});
    } else {
      assert n == map[];
    }
  }

  /** After a refresh the holdings are valued at the exchange's prices. */
  lemma {:induction false} RefreshedSum(m: map<string, Holding>, n: map<string, Holding>, prices: map<string, real>)
    requires m.Keys == n.Keys && m.Keys <= prices.Keys
    requires forall s :: s in m ==> n[s].quantity == m[s].quantity && n[s].lastPrice == prices[s]
    ensures Sum(n, AtLastPrice) == Sum(m, AtPrices(prices))
  {
    hide Amount;
    if m != map[] {
      var s :| s in m;
      SumRemove(m, s, AtPrices(prices));
      SumRemove(n, s, AtLastPrice);
      RefreshedSum(m - {s}, n - {s}, prices);
    } else {
      assert n == map[];
    }
  }

  /** Right after a refresh the account reports the equity at the exchange's prices, when all that is held is priced. */
  lemma RefreshShowsEquity(book: Book, prices: map<string, real>)
    requires book.holdings.Keys <= prices.Keys
    ensures var refreshed := Refresh(book, prices);
      refreshed.cash + Sum(refreshed.holdings, AtLastPrice) == Equity(book, prices)
  {
    RefreshedSum(book.holdings, Refresh(book, prices).holdings, prices);
  }

  lemma AveragePositive(h: Holding, quantity: Quantity, price: real)
    requires h.quantity > 0 && h.averagePrice > 0.0 && price > 0.0
    ensures Added(h, quantity, price).averagePrice > 0.0
  {
    AmountSign(h.averagePrice, h.quantity);
    AmountSign(price, quantity);
  }

  lemma PricedStep(s: Simulation, e: Event)
    requires Positive(s.book) && Priced(s.book, s.prices)
    requires e.SetPrice? ==> e.price > 0.0
    ensures Priced(After(s, e).book, After(s, e).prices)
  {
    if e.Place? && e.order.stockCode in s.prices {
      var o, price := e.order, s.prices[e.order.stockCode];
      MarketAmounts(price, o.quantity);
      assert Ask(price) > 0.0;
      if Submit(s.book, s.prices, o).1.Filled? && o.side == Buy && o.stockCode in s.book.holdings {
        AveragePositive(s.book.holdings[o.stockCode], o.quantity, Submit(s.book, s.prices, o).1.price);
      }
      hide Amount, Added, Ask, Bid;
    }
  }

  ghost predicate Balanced(initial: real, s: Simulation) {
    && Invested(s.book) == initial + TotalRealised(s.trades)
    && (forall stockCode :: Held(s.book, stockCode) == Net(s.trades, stockCode))
  }

  lemma PlaceBalances(initial: real, s: Simulation, o: OrderData)
    requires Positive(s.book) && Priced(s.book, s.prices) && Balanced(initial, s)
    ensures Balanced(initial, After(s, Place(o)))
  {
    var (book, outcome) := Submit(s.book, s.prices, o);
    var s' := After(s, Place(o));
    SubmitConserves(s.book, s.prices, o);
    if outcome.Filled? {
      var trade := Trade(o, outcome.price, Realised(s.book, o, outcome));
      assert (s.trades + [trade])[..|s.trades|] == s.trades;
      forall stockCode: string
        ensures Held(book, stockCode) == Net(s'.trades, stockCode)
      {
        HeldAfter(s.book, s.prices, o, stockCode);
        assert Net(s'.trades, stockCode) == Net(s.trades, stockCode) +
          Moved(o, stockCode);
      }
      hide Invested, Submit, Realised;
    } else {
      NoFillNoChange(s.book, s.prices, o);
    }
  }

  lemma HeldAfter(book: Book, prices: map<string, real>, o: OrderData, stockCode: string)
    requires Positive(book) && Submit(book, prices, o).1.Filled?
    ensures Held(Submit(book, prices, o).0, stockCode) == Held(book, stockCode) +
            Moved(o, stockCode)
  {
    hide Amount, Execute;
  }

  /** Main result: after any run of positive price changes, refreshes and accepted or rejected orders, cash plus
      the cost of the holdings is the initial balance plus everything realised by sells; every holding is
      positive, bought at a positive average, and equals buys minus sells. */
  lemma {:induction false} MoneyConserved(initial: real, events: seq<Event>)
    requires PositivePrices(events)
    ensures var s := Run(initial, events);
      Balanced(initial, s) && Positive(s.book) && Priced(s.book, s.prices)
  {
    if events == [] {
      assert Sum(map[], AtCost) == 0.0;
    } else {
      var n := |events| - 1;
      var before, e := Run(initial, events[..n]), events[n];
      MoneyConserved(initial, events[..n]);
      PricedStep(before, e);
      hide Priced;
      match e
      case Place(o) =>
        PlaceBalances(initial, before, o);
      case RefreshPositions =>
        RefreshKeepsCost(before.book.holdings, Refresh(before.book, before.prices).holdings);
      case SetPrice(_, _) =>
    }
  }

  /** What the account reports: total assets are the initial balance plus realised plus unrealised gains. */
  lemma AccountIdentity(initial: real, events: seq<Event>)
    requires PositivePrices(events)
    ensures var s := Run(initial, events);
      s.book.cash + Sum(s.book.holdings, AtLastPrice) == initial + TotalRealised(s.trades) + Sum(s.book.holdings, Gain)
  {
    MoneyConserved(initial, events);
    SumSplit(Run(initial, events).book.holdings);
  }

  predicate LimitOnly(events: seq<Event>) {
    forall i :: 0 <= i < |events| && events[i].Place? ==> events[i].order.priceType == Limit
  }

  /** Limit-only trading from a non-negative balance never overdraws. */
  lemma {:induction false} LimitOnlySolvent(initial: real, events: seq<Event>)
    requires PositivePrices(events) && LimitOnly(events) && initial >= 0.0
    ensures Run(initial, events).book.cash >= 0.0
  {
    if events != [] {
      var n := |events| - 1;
      LimitOnlySolvent(initial, events[..n]);
      MoneyConserved(initial, events[..n]);
      if events[n].Place? {
        var before := Run(initial, events[..n]);
        CashBounds(before.book, before.prices, events[n].order);
      }
    }
  }

  function FeesOf(s: Simulation, orders: seq<OrderData>): real
    requires Positive(s.book)
    decreases orders
  {
    if orders == [] then 0.0
    else
      AfterPositive(s, Place(orders[0]));
      Fee(s.prices, orders[0], Submit(s.book, s.prices, orders[0]).1) + FeesOf(After(s, Place(orders[0])), orders[1..])
  }

  function PlaceAll(s: Simulation, orders: seq<OrderData>): Simulation
    requires Positive(s.book)
    decreases orders
  {
    if orders == [] then s
    else
      AfterPositive(s, Place(orders[0]));
      PlaceAll(After(s, Place(orders[0])), orders[1..])
  }

  /** At fixed positive prices no sequence of orders raises equity: it falls by exactly the market fees. */
  lemma {:induction false} TradingNeverGains(s: Simulation, orders: seq<OrderData>)
    requires Positive(s.book) && Priced(s.book, s.prices)
    ensures FeesOf(s, orders) >= 0.0
    ensures Equity(PlaceAll(s, orders).book, s.prices) == Equity(s.book, s.prices) - FeesOf(s, orders)
    decreases orders
  {
    if orders != [] {
      var e := Place(orders[0]);
      AfterPositive(s, e);
      PricedStep(s, e);
      EquityFallsByFee(s.book, s.prices, orders[0]);
      hide Equity, Priced, Submit, Fee;
      TradingNeverGains(After(s, e), orders[1..]);
    }
  }
}
