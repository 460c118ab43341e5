/** The batch aggregator: per-stock buffers that become batches when full, when their timer fires or when they
    are flushed, with an exact account of where every accepted order goes. */
module OrderBatchAggregator {
  import opened Wrappers
  import opened OrderBatch

  datatype Strategy = Strategy(
    maxBatchSize: int, batchTimeout: int, enablePriceGrouping: bool, priceTolerance: real,
    enableSmartBatching: bool, prioritySymbols: set<string>)

  // ---- Grouping by price ----

  datatype Bucket = AtMarket | Range(lower: int)

  /** Python's `int` on a decimal: towards zero. */
  function Truncate(x: real): int {
    if x >= 0.0 then x.Floor else -((-x).Floor)
  }

  function BasePrice(price: real, tolerance: real): real {
    price * (1.0 - tolerance)
  }

  function PriceRange(price: real, tolerance: real): int {
    Truncate(BasePrice(price, tolerance) / 100.0) * 100
  }

  /** A limit order without a price falls into no bucket. */
  function BucketOf(o: Order, tolerance: real): Option<Bucket> {
    if o.priceType == Market then Some(AtMarket)
    else if HasPrice(o) then Some(Range(PriceRange(o.limitPrice.value, tolerance)))
    else None
  }

  datatype PriceGroup = PriceGroup(bucket: Bucket, orders: seq<Order>)

  /** Groups in the order their buckets first appear. */
  function AddToGroups(groups: seq<PriceGroup>, bucket: Bucket, o: Order): seq<PriceGroup> {
    if groups == [] then [PriceGroup(bucket, [o])]
    else if groups[0].bucket == bucket then [PriceGroup(bucket, groups[0].orders + [o])] + groups[1..]
    else [groups[0]] + AddToGroups(groups[1..], bucket, o)
  }

  function GroupByPrice(orders: seq<Order>, tolerance: real): seq<PriceGroup> {
    if orders == [] then []
    else
      var o := orders[|orders| - 1];
      var earlier := GroupByPrice(orders[..|orders| - 1], tolerance);
      match BucketOf(o, tolerance)
      case None => earlier
      case Some(bucket) => AddToGroups(earlier, bucket, o)
  }

  function GroupedOrders(groups: seq<PriceGroup>): multiset<Order> {
    if groups == [] then multiset{} else multiset(groups[0].orders) + GroupedOrders(groups[1..])
  }

  ghost predicate GroupOk(g: PriceGroup, tolerance: real) {
    g.orders != [] && forall o :: o in g.orders ==> BucketOf(o, tolerance) == Some(g.bucket)
  }

  lemma {:induction false} AddToGroupsOk(groups: seq<PriceGroup>, bucket: Bucket, o: Order, tolerance: real)
    requires BucketOf(o, tolerance) == Some(bucket)
    requires forall i :: 0 <= i < |groups| ==> GroupOk(groups[i], tolerance)
    ensures forall i :: 0 <= i < |AddToGroups(groups, bucket, o)| ==> GroupOk(AddToGroups(groups, bucket, o)[i], tolerance)
  {
    hide BucketOf;
    if groups != [] && groups[0].bucket != bucket {
      AddToGroupsOk(groups[1..], bucket, o, tolerance);
    }
  }

  lemma {:induction false} AddToGroupsConserves(groups: seq<PriceGroup>, bucket: Bucket, o: Order)
    ensures GroupedOrders(AddToGroups(groups, bucket, o)) == GroupedOrders(groups) + multiset{o}
  {
    var after := AddToGroups(groups, bucket, o);
    if groups == [] {
      assert after[1..] == [];
    } else {
      var rest := groups[1..];
      if groups[0].bucket == bucket {
        assert after[1..] == rest;
        Regroup(multiset(groups[0].orders), multiset{o}, GroupedOrders(rest));
      } else {
        AddToGroupsConserves(rest, bucket, o);
        assert after[1..] == AddToGroups(rest, bucket, o);
        Regroup(multiset(groups[0].orders), GroupedOrders(rest), multiset{o});
      }
    }
  }

  function Unpriced(orders: seq<Order>): multiset<Order> {
    if orders == [] then multiset{}
    else
      var o := orders[|orders| - 1];
      var earlier := Unpriced(orders[..|orders| - 1]);
      if o.priceType == Limit && !HasPrice(o) then earlier + multiset{o} else earlier
  }

  /** Price groups hold every order but the unpriced limit orders, each order in the group of its own bucket. */
  lemma {:induction false} GroupingConserves(orders: seq<Order>, tolerance: real)
    ensures var groups := GroupByPrice(orders, tolerance);
      && (forall i :: 0 <= i < |groups| ==> GroupOk(groups[i], tolerance))
      && multiset(orders) == GroupedOrders(groups) + Unpriced(orders)
  {
    if orders != [] {
      var n := |orders| - 1;
      var front, o := orders[..n], orders[n];
      var groups, unpriced := GroupByPrice(front, tolerance), Unpriced(front);
      GroupingConserves(front, tolerance);
      assert orders == front + [o];
      PushedMultiset(front, o);
      var bucket := BucketOf(o, tolerance);
      if bucket.Some? {
        AddToGroupsOk(groups, bucket.value, o, tolerance);
        AddToGroupsConserves(groups, bucket.value, o);
        Regroup(GroupedOrders(groups), unpriced, multiset{o});
      } else {
        Regroup(GroupedOrders(groups), unpriced, multiset{o});
      }
      hide GroupedOrders, AddToGroups, GroupOk;
    }
  }

  /** A bucket is a hundred wide and starts at a multiple of a hundred; below zero it is rounded towards zero. */
  lemma RangeHolds(price: real, tolerance: real)
    ensures var lower, base := PriceRange(price, tolerance), price * (1.0 - tolerance);
      && lower % 100 == 0
      && (base >= 0.0 ==> lower as real <= base < (lower + 100) as real)
      && (base <= 0.0 ==> (lower - 100) as real < base <= lower as real)
  {
    var base := BasePrice(price, tolerance);
    assert base == price * (1.0 - tolerance);
    hide BasePrice, Truncate;
    TruncateHolds(base / 100.0);
  }

  lemma TruncateHolds(x: real)
    ensures x >= 0.0 ==> Truncate(x) as real <= x < (Truncate(x) + 1) as real
    ensures x <= 0.0 ==> (Truncate(x) - 1) as real < x <= Truncate(x) as real
  {
  }

  lemma BucketWidth(x: real, y: real)
    requires 0.0 <= x && 0.0 <= y && Truncate(x / 100.0) == Truncate(y / 100.0)
    ensures -100.0 < x - y < 100.0
  {
  }

  /** For a tolerance below one, positive limit prices that share a bucket differ by less than 100/(1 - tolerance). */
  lemma SameBucketClose(p: real, q: real, tolerance: real)
    requires tolerance < 1.0 && p > 0.0 && q > 0.0
    requires PriceRange(p, tolerance) == PriceRange(q, tolerance)
    ensures -(100.0 / (1.0 - tolerance)) < p - q < 100.0 / (1.0 - tolerance)
  {
    BasePrices(p, q, tolerance);
    var x, y := BasePrice(p, tolerance), BasePrice(q, tolerance);
    hide BasePrice;
    BucketWidth(x, y);
    Divided(p - q, 1.0 - tolerance, 100.0);
  }

  lemma BasePrices(p: real, q: real, tolerance: real)
    requires tolerance < 1.0 && p > 0.0 && q > 0.0
    ensures BasePrice(p, tolerance) >= 0.0 && BasePrice(q, tolerance) >= 0.0
    ensures (p - q) * (1.0 - tolerance) == BasePrice(p, tolerance) - BasePrice(q, tolerance)
  {
    NonNegative(p, 1.0 - tolerance);
    NonNegative(q, 1.0 - tolerance);
  }

  lemma NonNegative(p: real, k: real)
    requires p >= 0.0 && k >= 0.0
    ensures p * k >= 0.0
  {
  }

  lemma Divided(d: real, k: real, width: real)
    requires k > 0.0 && -width < d * k < width
    ensures -(width / k) < d < width / k
  {
    assert d == d * k / k;
  }

  // ---- The batches a buffer becomes ----

  function OfSide(orders: seq<Order>, side: Side): seq<Order> {
    if orders == [] then []
    else
      var o := orders[|orders| - 1];
      var earlier := OfSide(orders[..|orders| - 1], side);
      if o.side == side then earlier + [o] else earlier
  }

  function OrdersOf(groups: seq<PriceGroup>): seq<seq<Order>> {
    seq(|groups|, i requires 0 <= i < |groups| => groups[i].orders)
  }

  function SideBatches(strategy: Strategy, orders: seq<Order>): seq<seq<Order>> {
    if orders == [] then []
    else if strategy.enablePriceGrouping then OrdersOf(GroupByPrice(orders, strategy.priceTolerance))
    else [orders]
  }

  /** The batches as lists of orders: buys first, then sells, each split by price; or, without smart batching,
      one batch that only takes orders of the first order's side. */
  function Batches(strategy: Strategy, orders: seq<Order>): seq<seq<Order>> {
    if strategy.enableSmartBatching
    then SideBatches(strategy, OfSide(orders, Buy)) + SideBatches(strategy, OfSide(orders, Sell))
    else if orders == [] then [[]] else [OfSide(orders, orders[0].side)]
  }

  function Flatten(batches: seq<seq<Order>>): seq<Order> {
    if batches == [] then [] else batches[0] + Flatten(batches[1..])
  }

  function Contents(batches: seq<seq<Order>>): multiset<Order> {
    multiset(Flatten(batches))
  }

  function Other(side: Side): Side { if side == Buy then Sell else Buy }

  /** The orders no batch takes: unpriced limit orders under price grouping, and the other side's orders
      without smart batching. */
  function Lost(strategy: Strategy, orders: seq<Order>): multiset<Order> {
    if orders == [] then multiset{}
    else if !strategy.enableSmartBatching then multiset(OfSide(orders, Other(orders[0].side)))
    else if strategy.enablePriceGrouping then Unpriced(OfSide(orders, Buy)) + Unpriced(OfSide(orders, Sell))
    else multiset{}
  }

  lemma Regroup<T>(a: multiset<T>, b: multiset<T>, c: multiset<T>)
    ensures a + (b + c) == (a + b) + c
    ensures (a + b) + c == (a + c) + b
  {
  }

  lemma PushedMultiset<T>(s: seq<T>, x: T)
    ensures multiset(s + [x]) == multiset(s) + multiset{x}
  {
  }

  lemma {:induction false} SidesSplit(orders: seq<Order>)
    ensures multiset(orders) == multiset(OfSide(orders, Buy)) + multiset(OfSide(orders, Sell))
  {
    if orders != [] {
      var n := |orders| - 1;
      var front, o := orders[..n], orders[n];
      var buys, sells := OfSide(front, Buy), OfSide(front, Sell);
      SidesSplit(front);
      assert orders == front + [o];
      PushedMultiset(front, o);
      PushedMultiset(buys, o);
      PushedMultiset(sells, o);
      Regroup(multiset(buys), multiset(sells), multiset{o});
    }
  }

  lemma {:induction false} SideMembers(orders: seq<Order>, side: Side)
    ensures forall o :: o in OfSide(orders, side) <==> o in orders && o.side == side
  {
    if orders != [] {
      var n := |orders| - 1;
      SideMembers(orders[..n], side);
      assert orders == orders[..n] + [orders[n]];
    }
  }

  lemma {:induction false} ContentsOfGroups(groups: seq<PriceGroup>)
    ensures Contents(OrdersOf(groups)) == GroupedOrders(groups)
  {
    if groups != [] {
      ContentsOfGroups(groups[1..]);
      assert OrdersOf(groups)[1..] == OrdersOf(groups[1..]);
    }
  }

  lemma FlattenOne(batch: seq<Order>)
    ensures Flatten([batch]) == batch
  {
    assert [batch][1..] == [];
  }

  lemma Associate<T>(a: seq<T>, b: seq<T>, c: seq<T>)
    ensures a + (b + c) == (a + b) + c
  {
  }

  lemma {:induction false} FlattenAppend(a: seq<seq<Order>>, b: seq<seq<Order>>)
    ensures Flatten(a + b) == Flatten(a) + Flatten(b)
  {
    if a == [] {
      assert a + b == b;
    } else {
      FlattenAppend(a[1..], b);
      assert (a + b)[0] == a[0] && (a + b)[1..] == a[1..] + b;
      Associate(a[0], Flatten(a[1..]), Flatten(b));
    }
  }

  lemma SideBatchesConserve(strategy: Strategy, orders: seq<Order>)
    ensures multiset(orders) == Contents(SideBatches(strategy, orders)) +
            if strategy.enablePriceGrouping then Unpriced(orders) else multiset{}
    ensures forall b, o :: b in SideBatches(strategy, orders) && o in b ==> o in orders
  {
    if orders != [] {
      if strategy.enablePriceGrouping {
        var groups := GroupByPrice(orders, strategy.priceTolerance);
        GroupingConserves(orders, strategy.priceTolerance);
        ContentsOfGroups(groups);
      } else {
        FlattenOne(orders);
      }
      BatchMembers(SideBatches(strategy, orders));
      forall b, o | b in SideBatches(strategy, orders) && o in b
        ensures o in orders
      {
        assert o in multiset(orders);
      }
    }
  }

  lemma {:induction false} BatchMembers(batches: seq<seq<Order>>)
    ensures forall b, o :: b in batches && o in b ==> o in Contents(batches)
  {
    if batches != [] {
      BatchMembers(batches[1..]);
      forall b, o | b in batches && o in b
        ensures o in Contents(batches)
      {
        if b == batches[0] {
          assert o in multiset(batches[0]);
        } else {
          assert b in batches[1..];
        }
      }
    }
  }

  lemma ContentsAppend(a: seq<seq<Order>>, b: seq<seq<Order>>)
    ensures Contents(a + b) == Contents(a) + Contents(b)
  {
    FlattenAppend(a, b);
  }

  lemma Interleave<T>(buys: multiset<T>, sells: multiset<T>, a: multiset<T>, b: multiset<T>, c: multiset<T>, d: multiset<T>)
    requires buys == a + b && sells == c + d
    ensures buys + sells == (a + c) + (b + d)
  {
  }

  lemma SimpleConserves(strategy: Strategy, orders: seq<Order>)
    requires !strategy.enableSmartBatching
    ensures multiset(orders) == Contents(Batches(strategy, orders)) + Lost(strategy, orders)
  {
    SidesSplit(orders);
    hide OfSide;
    FlattenOne(if orders == [] then [] else OfSide(orders, orders[0].side));
  }

  /** Main result: whatever the strategy, the batches made from a buffer hold each of its orders exactly once,
      except exactly the lost ones. */
  lemma BatchesConserve(strategy: Strategy, orders: seq<Order>)
    ensures multiset(orders) == Contents(Batches(strategy, orders)) + Lost(strategy, orders)
  {
    SidesSplit(orders);
    var buys, sells := OfSide(orders, Buy), OfSide(orders, Sell);
    hide OfSide, Contents;
    if !strategy.enableSmartBatching {
      SimpleConserves(strategy, orders);
    } else {
      var x, y := SideBatches(strategy, buys), SideBatches(strategy, sells);
      SideBatchesConserve(strategy, buys);
      SideBatchesConserve(strategy, sells);
      ContentsAppend(x, y);
      hide SideBatches, Unpriced;
      Interleave(multiset(buys), multiset(sells), Contents(x), if strategy.enablePriceGrouping then Unpriced(buys) else multiset{},
                 Contents(y), if strategy.enablePriceGrouping then Unpriced(sells) else multiset{});
    }
  }

  predicate Groupable(o: Order) {
    o.priceType == Market || HasPrice(o)
  }

  lemma {:induction false} UnpricedMembers(orders: seq<Order>)
    ensures forall o :: o in Unpriced(orders) <==> o in orders && !Groupable(o)
  {
    if orders != [] {
      var n := |orders| - 1;
      UnpricedMembers(orders[..n]);
      assert orders == orders[..n] + [orders[n]];
    }
  }

  lemma EmptyIff<T>(m: multiset<T>)
    ensures m == multiset{} <==> forall x :: x !in m
  {
  }

  predicate Unplaced(strategy: Strategy, firstSide: Side, o: Order) {
    if strategy.enableSmartBatching then strategy.enablePriceGrouping && !Groupable(o) else o.side != firstSide
  }

  lemma LostMembers(strategy: Strategy, orders: seq<Order>)
    requires orders != []
    ensures forall o :: o in Lost(strategy, orders) <==> o in orders && Unplaced(strategy, orders[0].side, o)
  {
    SideMembers(orders, Buy);
    SideMembers(orders, Sell);
    var buys, sells := OfSide(orders, Buy), OfSide(orders, Sell);
    if strategy.enableSmartBatching {
      UnpricedMembers(buys);
      UnpricedMembers(sells);
    } else {
      var others := OfSide(orders, Other(orders[0].side));
      assert forall o :: o in multiset(others) <==> o in others;
    }
  }

  /** A buffer loses nothing exactly when, under smart batching, every order is groupable or price grouping is
      off, and, without smart batching, all its orders are of one side. */
  lemma LosesNothingIff(strategy: Strategy, orders: seq<Order>)
    requires orders != []
    ensures Lost(strategy, orders) == multiset{} <==>
      if strategy.enableSmartBatching
      then !strategy.enablePriceGrouping || forall o :: o in orders ==> Groupable(o)
      else forall o :: o in orders ==> o.side == orders[0].side
  {
    hide Lost;
    LostMembers(strategy, orders);
    EmptyIff(Lost(strategy, orders));
  }

  // ---- Which orders share a batch ----

  /** The orders of a bucket, in order. */
  function OfBucket(orders: seq<Order>, bucket: Bucket, tolerance: real): seq<Order> {
    if orders == [] then []
    else
      var n := |orders| - 1;
      var earlier := OfBucket(orders[..n], bucket, tolerance);
      if BucketOf(orders[n], tolerance) == Some(bucket) then earlier + [orders[n]] else earlier
  }

  /** Where a bucket's first order stands; past the end when it has none. */
  function FirstIndex(orders: seq<Order>, bucket: Bucket, tolerance: real): (i: nat)
    ensures i <= |orders|
  {
    if orders == [] then 0
    else
      var n := |orders| - 1;
      var earlier := FirstIndex(orders[..n], bucket, tolerance);
      if earlier < n || BucketOf(orders[n], tolerance) == Some(bucket) then earlier else n + 1
  }

  /** One group for each bucket, holding all its orders in order; the groups stand in the order of their first orders. */
  ghost predicate OneGroupEach(groups: seq<PriceGroup>, orders: seq<Order>, tolerance: real) {
    && (forall i :: 0 <= i < |groups| ==> groups[i].orders == OfBucket(orders, groups[i].bucket, tolerance))
    && (forall i :: 0 <= i < |groups| ==> FirstIndex(orders, groups[i].bucket, tolerance) < |orders|)
    && (forall i, j :: 0 <= i < j < |groups| ==>
          FirstIndex(orders, groups[i].bucket, tolerance) < FirstIndex(orders, groups[j].bucket, tolerance))
    && (forall bucket :: FirstIndex(orders, bucket, tolerance) < |orders| ==>
          exists i :: 0 <= i < |groups| && groups[i].bucket == bucket)
  }

  lemma {:induction false} NoneOfBucket(orders: seq<Order>, bucket: Bucket, tolerance: real)
    ensures FirstIndex(orders, bucket, tolerance) == |orders| <==> OfBucket(orders, bucket, tolerance) == []
  {
    hide BucketOf;
    if orders != [] {
      NoneOfBucket(orders[..|orders| - 1], bucket, tolerance);
    }
  }

  /** An order joins the first group of its bucket, or opens a new one at the end. */
  lemma {:induction false} AddedAt(groups: seq<PriceGroup>, bucket: Bucket, o: Order) returns (at: nat)
    ensures at <= |groups| && forall i :: 0 <= i < at ==> groups[i].bucket != bucket
    ensures if at == |groups| then AddToGroups(groups, bucket, o) == groups + [PriceGroup(bucket, [o])]
            else groups[at].bucket == bucket
                 && AddToGroups(groups, bucket, o) == groups[at := PriceGroup(bucket, groups[at].orders + [o])]
  {
    at := 0;
    if groups != [] && groups[0].bucket != bucket {
      at := AddedAt(groups[1..], bucket, o);
      at := at + 1;
    }
  }

  /** What one more order does to the orders of a bucket. */
  lemma BucketAfter(front: seq<Order>, o: Order, bucket: Bucket, tolerance: real)
    ensures var ours := BucketOf(o, tolerance) == Some(bucket);
      && OfBucket(front + [o], bucket, tolerance) == OfBucket(front, bucket, tolerance) + (if ours then [o] else [])
      && FirstIndex(front + [o], bucket, tolerance) ==
         if FirstIndex(front, bucket, tolerance) < |front| || ours then FirstIndex(front, bucket, tolerance) else |front| + 1
  {
    assert (front + [o])[..|front|] == front;
  }

  lemma OneGroupEachStep(groups: seq<PriceGroup>, front: seq<Order>, o: Order, tolerance: real)
    requires OneGroupEach(groups, front, tolerance)
    ensures OneGroupEach(match BucketOf(o, tolerance) case None => groups case Some(bucket) => AddToGroups(groups, bucket, o),
                         front + [o], tolerance)
  {
    hide BucketOf, OfBucket, FirstIndex, AddToGroups;
    forall bucket
      ensures var ours := BucketOf(o, tolerance) == Some(bucket);
        && OfBucket(front + [o], bucket, tolerance) == OfBucket(front, bucket, tolerance) + (if ours then [o] else [])
        && FirstIndex(front + [o], bucket, tolerance) ==
           if FirstIndex(front, bucket, tolerance) < |front| || ours then FirstIndex(front, bucket, tolerance) else |front| + 1
      ensures FirstIndex(front, bucket, tolerance) == |front| <==> OfBucket(front, bucket, tolerance) == []
    {
      BucketAfter(front, o, bucket, tolerance);
      NoneOfBucket(front, bucket, tolerance);
    }
    if BucketOf(o, tolerance).Some? {
      var bucket := BucketOf(o, tolerance).value;
      var at := AddedAt(groups, bucket, o);
      var after := AddToGroups(groups, bucket, o);
      if at == |groups| {
        assert after[at].bucket == bucket;
      }
      assert forall i :: 0 <= i < |groups| ==> after[i].bucket == groups[i].bucket;
    }
  }

  lemma {:induction false} GroupsAreBuckets(orders: seq<Order>, tolerance: real)
    ensures OneGroupEach(GroupByPrice(orders, tolerance), orders, tolerance)
  {
    hide OneGroupEach, BucketOf, AddToGroups;
    if orders == [] {
      NoGroups(tolerance);
    } else {
      var n := |orders| - 1;
      GroupsAreBuckets(orders[..n], tolerance);
      OneGroupEachStep(GroupByPrice(orders[..n], tolerance), orders[..n], orders[n], tolerance);
      assert orders == orders[..n] + [orders[n]];
    }
  }

  lemma NoGroups(tolerance: real)
    ensures OneGroupEach([], [], tolerance)
  {
  }

  /** The strategy puts the two orders into one batch: the same side and, under price grouping, the same bucket. */
  predicate SameBatch(strategy: Strategy, a: Order, b: Order) {
    && a.side == b.side
    && (strategy.enablePriceGrouping ==>
          BucketOf(a, strategy.priceTolerance).Some? && BucketOf(a, strategy.priceTolerance) == BucketOf(b, strategy.priceTolerance))
  }

  /** The orders that go with a given one, in order. */
  function Companions(strategy: Strategy, orders: seq<Order>, like: Order): seq<Order> {
    if orders == [] then []
    else
      var n := |orders| - 1;
      var earlier := Companions(strategy, orders[..n], like);
      if SameBatch(strategy, like, orders[n]) then earlier + [orders[n]] else earlier
  }

  lemma {:induction false} CompanionsOfSide(strategy: Strategy, orders: seq<Order>, like: Order)
    requires strategy.enablePriceGrouping ==> BucketOf(like, strategy.priceTolerance).Some?
    ensures Companions(strategy, orders, like) ==
            if strategy.enablePriceGrouping
            then OfBucket(OfSide(orders, like.side), BucketOf(like, strategy.priceTolerance).value, strategy.priceTolerance)
            else OfSide(orders, like.side)
  {
    hide BucketOf;
    if orders != [] {
      var n := |orders| - 1;
      CompanionsOfSide(strategy, orders[..n], like);
      if orders[n].side == like.side && strategy.enablePriceGrouping {
        BucketAfter(OfSide(orders[..n], like.side), orders[n], BucketOf(like, strategy.priceTolerance).value, strategy.priceTolerance);
      }
    }
  }

  /** Each batch is its first order with all its companions, and the companions of no other batch's. */
  ghost predicate ByCompanions(strategy: Strategy, batches: seq<seq<Order>>, orders: seq<Order>) {
    && (forall i :: 0 <= i < |batches| ==> batches[i] != [] && batches[i] == Companions(strategy, orders, batches[i][0]))
    && (forall i, j :: 0 <= i < j < |batches| ==> !SameBatch(strategy, batches[i][0], batches[j][0]))
  }

  lemma NonEmptySide(strategy: Strategy, orders: seq<Order>)
    ensures forall b :: b in SideBatches(strategy, orders) ==> b != []
  {
    if orders != [] && strategy.enablePriceGrouping {
      GroupingConserves(orders, strategy.priceTolerance);
    }
  }

  lemma GroupHeads(orders: seq<Order>, tolerance: real)
    ensures var groups := GroupByPrice(orders, tolerance);
      && (forall i :: 0 <= i < |groups| ==>
            && groups[i].orders != [] && BucketOf(groups[i].orders[0], tolerance) == Some(groups[i].bucket)
            && groups[i].orders == OfBucket(orders, groups[i].bucket, tolerance))
      && (forall i, j :: 0 <= i < j < |groups| ==> groups[i].bucket != groups[j].bucket)
  {
    hide GroupByPrice, BucketOf, OfBucket, FirstIndex;
    var groups := GroupByPrice(orders, tolerance);
    GroupsAreBuckets(orders, tolerance);
    GroupingConserves(orders, tolerance);
    forall i | 0 <= i < |groups|
      ensures groups[i].orders != [] && BucketOf(groups[i].orders[0], tolerance) == Some(groups[i].bucket)
    {
      assert GroupOk(groups[i], tolerance) && groups[i].orders[0] in groups[i].orders;
    }
  }

  lemma GroupedByCompanions(strategy: Strategy, orders: seq<Order>, side: Side)
    requires strategy.enablePriceGrouping
    ensures ByCompanions(strategy, OrdersOf(GroupByPrice(OfSide(orders, side), strategy.priceTolerance)), orders)
    ensures forall g :: g in GroupByPrice(OfSide(orders, side), strategy.priceTolerance) ==> g.orders != [] && g.orders[0].side == side
  {
    var ours, tolerance := OfSide(orders, side), strategy.priceTolerance;
    var groups := GroupByPrice(ours, tolerance);
    GroupHeads(ours, tolerance);
    SideMembers(orders, side);
    hide GroupByPrice, OfSide, Companions, BucketOf, OfBucket;
    forall i | 0 <= i < |groups|
      ensures groups[i].orders[0].side == side
      ensures groups[i].orders == Companions(strategy, orders, groups[i].orders[0])
    {
      BucketMembers(ours, groups[i].bucket, tolerance);
      assert groups[i].orders[0] in groups[i].orders;
      CompanionsOfSide(strategy, orders, groups[i].orders[0]);
    }
  }

  lemma {:induction false} BucketMembers(orders: seq<Order>, bucket: Bucket, tolerance: real)
    ensures forall o :: o in OfBucket(orders, bucket, tolerance) ==> o in orders
  {
    hide BucketOf;
    if orders != [] {
      BucketMembers(orders[..|orders| - 1], bucket, tolerance);
    }
  }

  lemma SideByCompanions(strategy: Strategy, orders: seq<Order>, side: Side)
    ensures ByCompanions(strategy, SideBatches(strategy, OfSide(orders, side)), orders)
    ensures forall b: seq<Order> :: b in SideBatches(strategy, OfSide(orders, side)) ==> b != [] && b[0].side == side
  {
    var ours := OfSide(orders, side);
    if ours != [] {
      if strategy.enablePriceGrouping {
        GroupedByCompanions(strategy, orders, side);
      } else {
        SideMembers(orders, side);
        assert ours[0] in ours;
        CompanionsOfSide(strategy, orders, ours[0]);
      }
      hide GroupByPrice, OfSide, ByCompanions;
    }
  }

  /** Main result: under smart batching two orders share a batch exactly when they are of one side and, with price grouping,
      of one bucket; each batch keeps its orders in order, and buys come before sells. */
  lemma BatchesByCompanions(strategy: Strategy, orders: seq<Order>)
    requires strategy.enableSmartBatching
    ensures var batches := Batches(strategy, orders);
      && ByCompanions(strategy, batches, orders)
      && forall i, j :: 0 <= i < j < |batches| ==> (batches[i][0].side == Sell ==> batches[j][0].side == Sell)
  {
    SideByCompanions(strategy, orders, Buy);
    SideByCompanions(strategy, orders, Sell);
    var buys, sells := SideBatches(strategy, OfSide(orders, Buy)), SideBatches(strategy, OfSide(orders, Sell));
    hide OfSide, SideBatches, Companions;
    assert forall i :: 0 <= i < |buys| ==> buys[i] in buys;
    assert forall i :: 0 <= i < |sells| ==> sells[i] in sells;
  }

  // ---- Buffers ----

  ghost function Buffered(buffers: map<string, seq<Order>>): multiset<Order> {
    if buffers == map[] then multiset{}
    else
      var s :| s in buffers;
      multiset(buffers[s]) + Buffered(buffers - {s})
  }

  lemma {:induction false} BufferedRemove(buffers: map<string, seq<Order>>, s: string)
    requires s in buffers
    ensures Buffered(buffers) == Buffered(buffers - {s}) + multiset(buffers[s])
  {
    var first :| first in buffers && Buffered(buffers) == multiset(buffers[first]) + Buffered(buffers - {first});
    if first != s {
      BufferedRemove(buffers - {first}, s);
      BufferedRemove(buffers - {s}, first);
      assert buffers - {first} - {s} == buffers - {s} - {first};
      Regroup(Buffered(buffers - {s} - {first}), multiset(buffers[first]), multiset(buffers[s]));
    }
  }

  function BufferOf(buffers: map<string, seq<Order>>, s: string): seq<Order> {
    if s in buffers then buffers[s] else []
  }

  lemma BufferedAdd(buffers: map<string, seq<Order>>, s: string, o: Order)
    ensures Buffered(buffers[s := BufferOf(buffers, s) + [o]]) == Buffered(buffers) + multiset{o}
  {
    var after := buffers[s := BufferOf(buffers, s) + [o]];
    BufferedRemove(after, s);
    assert after - {s} == buffers - {s};
    PushedMultiset(BufferOf(buffers, s), o);
    if s in buffers {
      BufferedRemove(buffers, s);
    } else {
      assert buffers - {s} == buffers;
    }
    Regroup(Buffered(buffers - {s}), multiset(BufferOf(buffers, s)), multiset{o});
  }

  /** Every buffer is non-empty, of one stock, and below the maximum size. */
  ghost predicate BuffersOk(buffers: map<string, seq<Order>>, maxBatchSize: int) {
    forall s :: s in buffers ==> 0 < |buffers[s]| < maxBatchSize && ForStock(buffers[s], s)
  }

  /** The same, except that one stock's buffer may have reached the maximum. */
  ghost predicate PartlyOk(buffers: map<string, seq<Order>>, stockCode: string, maxBatchSize: int) {
    forall s :: s in buffers ==> buffers[s] != [] && (s == stockCode || |buffers[s]| < maxBatchSize) && ForStock(buffers[s], s)
  }

  ghost predicate ForStock(orders: seq<Order>, stockCode: string) {
    forall o :: o in orders ==> o.stockCode == stockCode
  }

  ghost predicate LossExplained(lost: multiset<Order>, accepted: multiset<Order>, strategy: Strategy) {
    strategy.enableSmartBatching && (!strategy.enablePriceGrouping || forall o :: o in accepted ==> Groupable(o))
    ==> lost == multiset{}
  }

  ghost function Held(batches: seq<OrderBatch>): seq<seq<Order>>
    reads batches
  {
    seq(|batches|, i requires 0 <= i < |batches| reads batches => batches[i].orders)
  }

  ghost predicate Sound(batches: seq<OrderBatch>)
    reads batches
  {
    forall b :: b in batches ==> b.Valid()
  }

  ghost function OrdersIn(batch: Option<OrderBatch>): multiset<Order>
    reads if batch.Some? then {batch.value} else {}
  {
    if batch.Some? then multiset(batch.value.orders) else multiset{}
  }

  /** What is handed back is the first of the batches, if there is one. */
  ghost predicate Handed(result: Option<OrderBatch>, batches: seq<seq<Order>>)
    reads if result.Some? then {result.value} else {}
  {
    && (result.Some? <==> batches != [])
    && (result.Some? ==> result.value.orders == batches[0])
    && OrdersIn(result) == First(batches)
  }

  /** Filling one batch, in order; an order of another side than the first is refused. */
  method Fill(orders: seq<Order>) returns (batch: OrderBatch)
    requires forall i, j :: 0 <= i < |orders| && 0 <= j < |orders| ==> orders[i].stockCode == orders[j].stockCode
    ensures fresh(batch) && batch.Valid()
    ensures batch.orders == if orders == [] then [] else OfSide(orders, orders[0].side)
  {
    hide OrderBatch.Valid;
    batch := new OrderBatch();
    for i := 0 to |orders|
      invariant fresh(batch) && batch.Valid()
      invariant batch.orders == if i == 0 then [] else OfSide(orders[..i], orders[0].side)
      invariant i > 0 ==> batch.orders != [] && batch.stockCode == orders[0].stockCode && batch.batchType == Some(orders[0].side)
    {
      assert orders[..i + 1][..i] == orders[..i];
      if i == 0 {
        assert orders[..1] == [orders[0]] && orders[..1][..0] == [];
      }
      var added := batch.AddOrder(orders[i]);
    }
    assert orders[..|orders|] == orders;
  }

  method GroupOrders(orders: seq<Order>, tolerance: real) returns (groups: seq<PriceGroup>)
    ensures groups == GroupByPrice(orders, tolerance)
  {
    groups := [];
    for i := 0 to |orders|
      invariant groups == GroupByPrice(orders[..i], tolerance)
    {
      assert orders[..i + 1][..i] == orders[..i];
      var o := orders[i];
      if o.priceType == Market {
        groups := AddToGroups(groups, AtMarket, o);
      } else if HasPrice(o) {
        groups := AddToGroups(groups, Range(PriceRange(o.limitPrice.value, tolerance)), o);
      }
    }
    assert orders[..|orders|] == orders;
  }

  lemma {:induction false} OneSided(orders: seq<Order>, side: Side)
    requires forall o :: o in orders ==> o.side == side
    ensures OfSide(orders, side) == orders
  {
    if orders != [] {
      OneSided(orders[..|orders| - 1], side);
      assert orders[|orders| - 1] in orders;
    }
  }

  ghost predicate Alike(orders: seq<Order>, stockCode: string, side: Side) {
    forall o :: o in orders ==> o.stockCode == stockCode && o.side == side
  }

  /** Filling a batch from orders that are all alike takes every one of them. */
  method FillAll(orders: seq<Order>, ghost stockCode: string, ghost side: Side) returns (batch: OrderBatch)
    requires Alike(orders, stockCode, side)
    ensures fresh(batch) && batch.Valid() && batch.orders == orders
  {
    assert forall i :: 0 <= i < |orders| ==> orders[i] in orders;
    OneSided(orders, side);
    batch := Fill(orders);
  }

  lemma GroupsAlike(orders: seq<Order>, tolerance: real, stockCode: string, side: Side)
    requires Alike(orders, stockCode, side)
    ensures forall i :: 0 <= i < |GroupByPrice(orders, tolerance)| ==>
        Alike(GroupByPrice(orders, tolerance)[i].orders, stockCode, side)
  {
    var groups := GroupByPrice(orders, tolerance);
    GroupingConserves(orders, tolerance);
    forall i | 0 <= i < |groups|
      ensures Alike(groups[i].orders, stockCode, side)
    {
      forall o | o in groups[i].orders
        ensures o in orders
      {
        GroupedMember(groups, i, o);
        assert o in multiset(orders);
      }
    }
  }

  lemma {:induction false} GroupedMember(groups: seq<PriceGroup>, i: nat, o: Order)
    requires i < |groups| && o in groups[i].orders
    ensures o in GroupedOrders(groups)
  {
    if i > 0 {
      GroupedMember(groups[1..], i - 1, o);
    }
  }

  /** The batches for one side's orders. */
  method BatchSide(strategy: Strategy, orders: seq<Order>, ghost stockCode: string, ghost side: Side)
    returns (batches: seq<OrderBatch>)
    requires Alike(orders, stockCode, side)
    ensures forall b :: b in batches ==> fresh(b)
    ensures Sound(batches) && Held(batches) == SideBatches(strategy, orders)
  {
    hide OrderBatch.Valid, GroupByPrice;
    batches := [];
    if orders == [] {
      return;
    }
    if strategy.enablePriceGrouping {
      var groups := GroupOrders(orders, strategy.priceTolerance);
      GroupsAlike(orders, strategy.priceTolerance, stockCode, side);
      for i := 0 to |groups|
        invariant forall b :: b in batches ==> fresh(b)
        invariant Sound(batches) && Held(batches) == OrdersOf(groups)[..i]
      {
        var batch := FillAll(groups[i].orders, stockCode, side);
        batches := batches + [batch];
      }
    } else {
      var batch := FillAll(orders, stockCode, side);
      batches := [batch];
    }
  }

  method SelectSide(orders: seq<Order>, side: Side) returns (selected: seq<Order>)
    ensures selected == OfSide(orders, side)
  {
    selected := [];
    for i := 0 to |orders|
      invariant selected == OfSide(orders[..i], side)
    {
      assert orders[..i + 1][..i] == orders[..i];
      if orders[i].side == side {
        selected := selected + [orders[i]];
      }
    }
    assert orders[..|orders|] == orders;
  }

  lemma HeldConcat(a: seq<OrderBatch>, b: seq<OrderBatch>)
    ensures Held(a + b) == Held(a) + Held(b)
  {
  }

  /** Smart batching: buys first, then sells. */
  method SmartBatches(strategy: Strategy, orders: seq<Order>, ghost stockCode: string) returns (batches: seq<OrderBatch>)
    requires forall o :: o in orders ==> o.stockCode == stockCode
    ensures forall b :: b in batches ==> fresh(b)
    ensures Sound(batches)
    ensures Held(batches) == SideBatches(strategy, OfSide(orders, Buy)) + SideBatches(strategy, OfSide(orders, Sell))
  {
    hide SideBatches, Held;
    SideMembers(orders, Buy);
    SideMembers(orders, Sell);
    var buyOrders := SelectSide(orders, Buy);
    var sellOrders := SelectSide(orders, Sell);
    hide OfSide;
    var buys := BatchSide(strategy, buyOrders, stockCode, Buy);
    var sells := BatchSide(strategy, sellOrders, stockCode, Sell);
    batches := buys + sells;
    HeldConcat(buys, sells);
  }

  /** Splitting one stock's orders into batch objects, as the strategy says. */
  method MakeBatches(strategy: Strategy, orders: seq<Order>, ghost stockCode: string) returns (batches: seq<OrderBatch>)
    requires orders != [] && ForStock(orders, stockCode)
    ensures forall b :: b in batches ==> fresh(b)
    ensures Sound(batches) && Held(batches) == Batches(strategy, orders)
  {
    hide OfSide, SideBatches;
    if strategy.enableSmartBatching {
      batches := SmartBatches(strategy, orders, stockCode);
    } else {
      assert forall i :: 0 <= i < |orders| ==> orders[i] in orders;
      var batch := Fill(orders);
      batches := [batch];
    }
  }

  // ---- Accounting ----

  function Taken(strategy: Strategy, orders: seq<Order>): seq<seq<Order>> {
    if orders == [] then [] else Batches(strategy, orders)
  }

  function Tail<T>(s: seq<T>): seq<T> {
    if s == [] then [] else s[1..]
  }

  function First(batches: seq<seq<Order>>): multiset<Order> {
    if batches == [] then multiset{} else multiset(batches[0])
  }

  ghost function Total(buffers: map<string, seq<Order>>, queued: seq<seq<Order>>, handedOut: multiset<Order>,
                       discarded: multiset<Order>, lost: multiset<Order>): multiset<Order> {
    Buffered(buffers) + Contents(queued) + handedOut + discarded + lost
  }

  lemma Rearrange<T>(buffered: multiset<T>, orders: multiset<T>, queued: multiset<T>, handedOut: multiset<T>,
                     discarded: multiset<T>, lost: multiset<T>, first: multiset<T>, rest: multiset<T>, unplaced: multiset<T>)
    requires orders == (first + rest) + unplaced
    ensures (buffered + orders) + queued + handedOut + discarded + lost
         == buffered + (queued + rest) + handedOut + discarded + (lost + unplaced) + first
  {
  }

  lemma FirstAndTail(batches: seq<seq<Order>>)
    ensures Contents(batches) == First(batches) + Contents(Tail(batches))
  {
    if batches != [] {
      assert multiset(batches[0] + Flatten(batches[1..])) == multiset(batches[0]) + multiset(Flatten(batches[1..]));
    }
  }

  lemma TakenConserves(strategy: Strategy, orders: seq<Order>)
    ensures multiset(orders) == Contents(Taken(strategy, orders)) + Lost(strategy, orders)
  {
    if orders != [] {
      BatchesConserve(strategy, orders);
    }
  }

  ghost predicate Splits<T>(whole: multiset<T>, part: multiset<T>, rest: multiset<T>) {
    whole == part + rest
  }

  lemma {:induction false} NoGroupsIff(orders: seq<Order>, tolerance: real)
    ensures GroupByPrice(orders, tolerance) == [] <==> forall o :: o in orders ==> !Groupable(o)
  {
    if orders != [] {
      var n := |orders| - 1;
      NoGroupsIff(orders[..n], tolerance);
      assert orders == orders[..n] + [orders[n]];
      assert BucketOf(orders[n], tolerance).Some? <==> Groupable(orders[n]);
    }
  }

  /** No batch is empty; so a timer discards nothing only where there is no batch at all. */
  lemma FirstNeverEmpty(strategy: Strategy, orders: seq<Order>)
    ensures First(Taken(strategy, orders)) == multiset{} <==> Taken(strategy, orders) == []
  {
    var batches := Taken(strategy, orders);
    if batches != [] {
      NonEmptySide(strategy, OfSide(orders, Buy));
      NonEmptySide(strategy, OfSide(orders, Sell));
      SideMembers(orders, orders[0].side);
      assert orders[0] in OfSide(orders, orders[0].side);
      hide OfSide, SideBatches;
      assert batches[0] in batches;
      assert batches[0][0] in multiset(batches[0]);
    }
  }

  lemma NoSideBatches(strategy: Strategy, orders: seq<Order>)
    ensures SideBatches(strategy, orders) == [] <==>
            orders == [] || (strategy.enablePriceGrouping && forall o :: o in orders ==> !Groupable(o))
  {
    NoGroupsIff(orders, strategy.priceTolerance);
    assert |OrdersOf(GroupByPrice(orders, strategy.priceTolerance))| == |GroupByPrice(orders, strategy.priceTolerance)|;
  }

  /** A timer discards at least one order, except exactly when smart batching groups by price and no waiting order can
      be grouped: then all of them are lost instead. */
  lemma TimerDiscardsIff(strategy: Strategy, orders: seq<Order>)
    requires orders != []
    ensures First(Taken(strategy, orders)) == multiset{} <==>
      && strategy.enableSmartBatching && strategy.enablePriceGrouping
      && forall o :: o in orders ==> !Groupable(o)
  {
    FirstNeverEmpty(strategy, orders);
    var buys, sells := OfSide(orders, Buy), OfSide(orders, Sell);
    SideMembers(orders, Buy);
    SideMembers(orders, Sell);
    NoSideBatches(strategy, buys);
    NoSideBatches(strategy, sells);
    hide OfSide, SideBatches, First, Groupable;
    assert orders[0] in orders;
    if strategy.enableSmartBatching {
      assert Taken(strategy, orders) == [] <==> SideBatches(strategy, buys) == [] && SideBatches(strategy, sells) == [];
      forall o | o in orders
        ensures o in buys || o in sells
      {
      }
    }
  }

  /** Taking a buffer apart moves its orders to the first batch, the queue and the lost ones; nothing else changes. */
  lemma TakeApart(strategy: Strategy, buffers: map<string, seq<Order>>, s: string, orders: seq<Order>,
                  batches: seq<seq<Order>>, queued: seq<seq<Order>>,
                  handedOut: multiset<Order>, discarded: multiset<Order>, lost: multiset<Order>)
    requires orders == BufferOf(buffers, s) && batches == Taken(strategy, orders)
    ensures Splits(Total(buffers, queued, handedOut, discarded, lost),
                   Total(buffers - {s}, queued + Tail(batches), handedOut, discarded, lost + Lost(strategy, orders)),
                   First(batches))
  {
    hide Taken, Lost, Contents;
    TakenConserves(strategy, orders);
    FirstAndTail(batches);
    ContentsAppend(queued, Tail(batches));
    if s in buffers {
      BufferedRemove(buffers, s);
    } else {
      assert buffers - {s} == buffers;
      assert Buffered(buffers) + multiset(orders) == Buffered(buffers);
    }
    hide Buffered, Tail, First;
    Rearrange(Buffered(buffers - {s}), multiset(orders), Contents(queued), handedOut, discarded, lost,
              First(batches), Contents(Tail(batches)), Lost(strategy, orders));
  }

  lemma LossStaysExplained(strategy: Strategy, orders: seq<Order>, lost: multiset<Order>, accepted: multiset<Order>)
    requires LossExplained(lost, accepted, strategy)
    requires forall o :: o in orders ==> o in accepted
    ensures LossExplained(lost + Lost(strategy, orders), accepted, strategy)
  {
    if orders != [] {
      LosesNothingIff(strategy, orders);
    }
  }

  lemma BufferedMembers(buffers: map<string, seq<Order>>, s: string)
    requires s in buffers
    ensures forall o :: o in buffers[s] ==> o in Buffered(buffers)
  {
    BufferedRemove(buffers, s);
    assert forall o :: o in buffers[s] ==> o in multiset(buffers[s]);
  }

  lemma BufferedShrinks(buffers: map<string, seq<Order>>, s: string)
    ensures Buffered(buffers - {s}) <= Buffered(buffers)
  {
    if s in buffers {
      BufferedRemove(buffers, s);
    } else {
      assert buffers - {s} == buffers;
    }
  }

  lemma BuffersStayOk(buffers: map<string, seq<Order>>, s: string, maxBatchSize: int)
    requires PartlyOk(buffers, s, maxBatchSize)
    ensures BuffersOk(buffers - {s}, maxBatchSize)
    ensures s in buffers <==> BufferOf(buffers, s) != []
    ensures ForStock(BufferOf(buffers, s), s)
  {
  }

  lemma QueueAll(queue: seq<OrderBatch>, batches: seq<OrderBatch>)
    requires Sound(queue) && Sound(batches) && batches != []
    ensures Sound(queue + batches[1..]) && batches[0].Valid()
    ensures Held(queue + batches[1..]) == Held(queue) + Tail(Held(batches))
    ensures Held(batches) != [] && Held(batches)[0] == batches[0].orders
  {
    assert Held(batches)[1..] == Held(batches[1..]);
    HeldConcat(queue, batches[1..]);
    assert forall b :: b in batches[1..] ==> b in batches;
  }

  lemma NoneHeld()
    ensures Held([]) == []
  {
  }

  lemma NothingTaken(strategy: Strategy, queued: seq<seq<Order>>, lost: multiset<Order>)
    ensures Taken(strategy, []) == [] && First([]) == multiset{}
    ensures queued + Tail([]) == queued && lost + Lost(strategy, []) == lost
  {
  }

  /** Removing a buffer keeps the structural facts. */
  lemma Detach(strategy: Strategy, buffers: map<string, seq<Order>>, s: string, lost: multiset<Order>, accepted: multiset<Order>)
    requires PartlyOk(buffers, s, strategy.maxBatchSize) && LossExplained(lost, accepted, strategy) && Within(buffers, accepted)
    ensures BuffersOk(buffers - {s}, strategy.maxBatchSize)
    ensures LossExplained(lost + Lost(strategy, BufferOf(buffers, s)), accepted, strategy)
    ensures Within(buffers - {s}, accepted)
    ensures s in buffers <==> BufferOf(buffers, s) != []
    ensures s !in buffers ==> buffers - {s} == buffers
    ensures ForStock(BufferOf(buffers, s), s)
  {
    hide LossExplained, Lost;
    BuffersStayOk(buffers, s, strategy.maxBatchSize);
    BufferedShrinks(buffers, s);
    if s in buffers {
      BufferedMembers(buffers, s);
    } else {
      assert buffers - {s} == buffers;
    }
    LossStaysExplained(strategy, BufferOf(buffers, s), lost, accepted);
  }

  ghost predicate Within(buffers: map<string, seq<Order>>, accepted: multiset<Order>) {
    Buffered(buffers) <= accepted
  }

  /** A newly accepted order joins its buffer. */
  lemma Arrive(strategy: Strategy, buffers: map<string, seq<Order>>, order: Order, queued: seq<seq<Order>>,
               handedOut: multiset<Order>, discarded: multiset<Order>, lost: multiset<Order>, accepted: multiset<Order>)
    requires BuffersOk(buffers, strategy.maxBatchSize) && LossExplained(lost, accepted, strategy)
    requires accepted == Total(buffers, queued, handedOut, discarded, lost)
    ensures var s := order.stockCode; var after := buffers[s := BufferOf(buffers, s) + [order]];
      && PartlyOk(after, s, strategy.maxBatchSize)
      && (|after[s]| < strategy.maxBatchSize ==> BuffersOk(after, strategy.maxBatchSize))
      && accepted + multiset{order} == Total(after, queued, handedOut, discarded, lost)
      && Within(after, accepted + multiset{order})
    ensures LossExplained(lost, accepted + multiset{order}, strategy)
  {
    BufferedAdd(buffers, order.stockCode, order);
    hide Buffered, Contents;
    assert forall o :: o in accepted ==> o in accepted + multiset{order};
  }

  lemma HandOver(buffers: map<string, seq<Order>>, queued: seq<seq<Order>>, handedOut: multiset<Order>,
                 discarded: multiset<Order>, lost: multiset<Order>, orders: multiset<Order>)
    ensures Total(buffers, queued, handedOut + orders, discarded, lost) == Total(buffers, queued, handedOut, discarded, lost) + orders
    ensures Total(buffers, queued, handedOut, discarded + orders, lost) == Total(buffers, queued, handedOut, discarded, lost) + orders
  {
    hide Buffered, Contents;
  }

  lemma WithinTotal(buffers: map<string, seq<Order>>, queued: seq<seq<Order>>, handedOut: multiset<Order>,
                    discarded: multiset<Order>, lost: multiset<Order>)
    ensures Within(buffers, Total(buffers, queued, handedOut, discarded, lost))
  {
    hide Buffered, Contents;
  }

  function Rotated(batches: seq<seq<Order>>): seq<seq<Order>> {
    if batches == [] then [] else batches[1..] + [batches[0]]
  }

  lemma Enqueue(buffers: map<string, seq<Order>>, queued: seq<seq<Order>>, handedOut: multiset<Order>,
                discarded: multiset<Order>, lost: multiset<Order>, orders: seq<Order>)
    ensures Total(buffers, queued + [orders], handedOut, discarded, lost) ==
            Total(buffers, queued, handedOut, discarded, lost) + multiset(orders)
  {
    ContentsAppend(queued, [orders]);
    FlattenOne(orders);
    assert Contents([orders]) == multiset(orders);
    hide Buffered, Contents;
  }

  lemma NothingInHand<T>(whole: multiset<T>, part: multiset<T>)
    requires Splits(whole, part, multiset{})
    ensures whole == part
  {
  }

  lemma HeldOne(batch: OrderBatch)
    ensures Held([batch]) == [batch.orders]
  {
  }

  lemma SoundPush(queue: seq<OrderBatch>, batch: OrderBatch)
    requires Sound(queue) && batch.Valid()
    ensures Sound(queue + [batch])
  {
  }

  predicate Overdue(orders: seq<Order>, now: int, timeout: int) {
    orders != [] && now - orders[0].createdAt > timeout
  }

  // ---- The aggregator ----

  class OrderBatchAggregator {
    const strategy: Strategy
    var orderBuffer: map<string, seq<Order>>
    var readyBatches: seq<OrderBatch>
    var batchTimers: set<string>
    /** Where orders went: everything accepted; what callers were handed; what timers discarded; what no batch took. */
    ghost var accepted: multiset<Order>
    ghost var handedOut: multiset<Order>
    ghost var discarded: multiset<Order>
    ghost var lost: multiset<Order>

    ghost function Account(): multiset<Order>
      reads this, readyBatches
    {
      Total(orderBuffer, Held(readyBatches), handedOut, discarded, lost)
    }

    ghost predicate Structure()
      reads this, readyBatches
    {
      && Sound(readyBatches)
      && LossExplained(lost, accepted, strategy)
    }

    /** Every accepted order is buffered, queued, handed out, discarded or lost, each exactly once; a timer runs for
        exactly the stocks that have orders waiting. */
    ghost predicate Valid()
      reads this, readyBatches
    {
      && Structure()
      && BuffersOk(orderBuffer, strategy.maxBatchSize)
      && batchTimers == orderBuffer.Keys
      && accepted == Account()
    }

    constructor (strategy: Strategy)
      ensures Valid() && this.strategy == strategy
      ensures orderBuffer == map[] && readyBatches == [] && accepted == multiset{}
    {
      this.strategy := strategy;
      orderBuffer, readyBatches, batchTimers := map[], [], {};
      accepted, handedOut, discarded, lost := multiset{}, multiset{}, multiset{}, multiset{};
    }

    /** The first batch is handed back and the others are queued, in order. */
    method QueueRest(batches: seq<OrderBatch>) returns (result: Option<OrderBatch>)
      requires Sound(readyBatches) && Sound(batches)
      modifies this`readyBatches
      ensures Sound(readyBatches) && Held(readyBatches) == old(Held(readyBatches)) + Tail(Held(batches))
      ensures result == if batches == [] then None else Some(batches[0])
      ensures result.Some? ==> result.value.Valid()
      ensures Handed(result, Held(batches))
    {
      hide Sound, Held;
      result := None;
      ghost var queue := readyBatches;
      for i := 0 to |batches|
        invariant result == if i == 0 then None else Some(batches[0])
        invariant readyBatches == queue + Tail(batches[..i])
      {
        if i == 0 {
          result := Some(batches[0]);
        } else {
          assert Tail(batches[..i + 1]) == Tail(batches[..i]) + [batches[i]];
          readyBatches := readyBatches + [batches[i]];
        }
      }
      assert batches[..|batches|] == batches;
      if batches == [] {
        NoneHeld();
        assert queue + Tail(batches) == queue;
        assert Held(queue) + Tail(Held(batches)) == Held(queue);
      } else {
        QueueAll(queue, batches);
      }
    }

    /** Splits one stock's orders into batches; the first is handed back, the others are queued. */
    method Dispatch(stockCode: string, orders: seq<Order>) returns (result: Option<OrderBatch>)
      requires Sound(readyBatches) && orders != [] && ForStock(orders, stockCode)
      modifies this`readyBatches
      ensures Sound(readyBatches) && Held(readyBatches) == old(Held(readyBatches)) + Tail(Taken(strategy, orders))
      ensures result.Some? ==> result.value.Valid() && fresh(result.value)
      ensures Handed(result, Taken(strategy, orders))
    {
      hide Sound, Held, Batches, ForStock, Tail, First;
      var batches := MakeBatches(strategy, orders, stockCode);
      assert batches != [] ==> batches[0] in batches;
      result := QueueRest(batches);
    }

    /** Takes a stock's orders out of the buffers and stops its timer. */
    method PopBuffer(stockCode: string) returns (orders: seq<Order>)
      modifies this`orderBuffer, this`batchTimers
      ensures orders == BufferOf(old(orderBuffer), stockCode)
      ensures orderBuffer == old(orderBuffer) - {stockCode}
      ensures batchTimers == if orders == [] then old(batchTimers) else old(batchTimers) - {stockCode}
    {
      orders := BufferOf(orderBuffer, stockCode);
      orderBuffer := orderBuffer - {stockCode};
      if orders == [] {
        return;
      }
      batchTimers := batchTimers - {stockCode};
    }

    /** Takes a stock's buffer apart: its timer stops, its first batch is in hand, the others are queued. */
    method CreateBatch(stockCode: string) returns (result: Option<OrderBatch>)
      requires Structure() && Within(orderBuffer, accepted) && PartlyOk(orderBuffer, stockCode, strategy.maxBatchSize)
      modifies this`orderBuffer, this`readyBatches, this`batchTimers, this`lost
      ensures Structure() && Within(orderBuffer, accepted) && BuffersOk(orderBuffer, strategy.maxBatchSize)
      ensures Splits(old(Account()), Account(), OrdersIn(result))
      ensures result.Some? ==> result.value.Valid() && fresh(result.value)
      ensures orderBuffer == old(orderBuffer) - {stockCode}
      ensures batchTimers == if BufferOf(old(orderBuffer), stockCode) == [] then old(batchTimers) else old(batchTimers) - {stockCode}
      ensures lost == old(lost) + Lost(strategy, BufferOf(old(orderBuffer), stockCode))
      ensures Handed(result, Taken(strategy, BufferOf(old(orderBuffer), stockCode)))
      ensures Held(readyBatches) == old(Held(readyBatches)) + Tail(Taken(strategy, BufferOf(old(orderBuffer), stockCode)))
    {
      hide Total, Buffered, Lost, LossExplained, BuffersOk, PartlyOk, ForStock, Sound, Held, Tail, First, Taken, Within, Splits, OrderBatch.Valid;
      ghost var before, queued := orderBuffer, Held(readyBatches);
      Detach(strategy, orderBuffer, stockCode, lost, accepted);
      var orders := PopBuffer(stockCode);
      ghost var batches := Taken(strategy, orders);
      TakeApart(strategy, before, stockCode, orders, batches, queued, handedOut, discarded, lost);
      lost := lost + Lost(strategy, orders);
      if orders == [] {
        NothingTaken(strategy, queued, lost);
        return None;
      }
      hide BufferOf;
      result := Dispatch(stockCode, orders);
      assert OrdersIn(result) == First(batches);
    }

    ghost predicate Buffering(buffers: map<string, seq<Order>>, order: Order, after: map<string, seq<Order>>,
                              result: Option<OrderBatch>)
      reads if result.Some? then {result.value} else {}
    {
      var orders := BufferOf(buffers, order.stockCode) + [order];
      if |orders| >= strategy.maxBatchSize
      then after == buffers[order.stockCode := orders] - {order.stockCode} && Handed(result, Taken(strategy, orders))
      else result == None && after == buffers[order.stockCode := orders]
    }

    method HandleImmediately(order: Order) returns (result: Option<OrderBatch>)
      requires Valid() && LossExplained(lost, accepted + multiset{order}, strategy)
      modifies this`accepted, this`handedOut
      ensures Valid() && accepted == old(accepted) + multiset{order}
      ensures handedOut == old(handedOut) + OrdersIn(result)
      ensures result.Some? && result.value.Valid() && fresh(result.value) && result.value.orders == [order]
    {
      hide Total, Buffered, Lost, LossExplained, BuffersOk, PartlyOk, ForStock, Sound, Held, Tail, First, Taken, Within;
      HandOver(orderBuffer, Held(readyBatches), handedOut, discarded, lost, multiset{order});
      accepted := accepted + multiset{order};
      handedOut := handedOut + multiset{order};
      var batch := new OrderBatch();
      var added := batch.AddOrder(order);
      hide OrderBatch.Valid;
      result := Some(batch);
      assert OrdersIn(result) == multiset{order};
    }

    method Buffer(order: Order) returns (size: nat)
      requires Valid()
      modifies this`orderBuffer, this`accepted
      ensures Structure() && PartlyOk(orderBuffer, order.stockCode, strategy.maxBatchSize) && Within(orderBuffer, accepted)
      ensures size < strategy.maxBatchSize ==> BuffersOk(orderBuffer, strategy.maxBatchSize)
      ensures accepted == Account() && accepted == old(accepted) + multiset{order}
      ensures orderBuffer == old(orderBuffer)[order.stockCode := BufferOf(old(orderBuffer), order.stockCode) + [order]]
      ensures size == |BufferOf(old(orderBuffer), order.stockCode)| + 1
    {
      hide Total, Buffered, Lost, LossExplained, BuffersOk, PartlyOk, ForStock, Sound, Held, Within, OrderBatch.Valid;
      Arrive(strategy, orderBuffer, order, Held(readyBatches), handedOut, discarded, lost, accepted);
      accepted := accepted + multiset{order};
      orderBuffer := orderBuffer[order.stockCode := BufferOf(orderBuffer, order.stockCode) + [order]];
      size := |orderBuffer[order.stockCode]|;
    }

    /** The orders in hand reach the caller, or nobody. */
    ghost method Settle(orders: multiset<Order>, toCaller: bool)
      requires Structure() && Splits(accepted, Account(), orders)
      modifies this`handedOut, this`discarded
      ensures Structure() && accepted == Account()
      ensures handedOut == if toCaller then old(handedOut) + orders else old(handedOut)
      ensures discarded == if toCaller then old(discarded) else old(discarded) + orders
    {
      hide Total, Buffered, LossExplained, Sound, Held, OrderBatch.Valid;
      HandOver(orderBuffer, Held(readyBatches), handedOut, discarded, lost, orders);
      if toCaller {
        handedOut := handedOut + orders;
      } else {
        discarded := discarded + orders;
      }
    }

    /** Takes a stock's buffer apart and hands the first batch to the caller. */
    method BatchNow(stockCode: string) returns (result: Option<OrderBatch>)
      requires Structure() && Within(orderBuffer, accepted) && PartlyOk(orderBuffer, stockCode, strategy.maxBatchSize)
      requires accepted == Account() && batchTimers + {stockCode} == orderBuffer.Keys
      modifies this`orderBuffer, this`readyBatches, this`batchTimers, this`lost, this`handedOut, this`discarded
      ensures Valid() && discarded == old(discarded) && handedOut == old(handedOut) + OrdersIn(result)
      ensures result.Some? ==> result.value.Valid() && fresh(result.value)
      ensures orderBuffer == old(orderBuffer) - {stockCode}
      ensures Handed(result, Taken(strategy, BufferOf(old(orderBuffer), stockCode)))
    {
      hide Total, Buffered, Lost, LossExplained, BuffersOk, ForStock, Sound, Held, Tail, First, Taken, Within,
        OrderBatch.Valid, Splits;
      assert BufferOf(orderBuffer, stockCode) != [];
      hide PartlyOk, BufferOf, Handed;
      result := CreateBatch(stockCode);
      Settle(OrdersIn(result), true);
    }

    /** An order waits in its stock's buffer until that is full. */
    method Collect(order: Order) returns (result: Option<OrderBatch>)
      requires Valid()
      modifies this
      ensures Valid() && accepted == old(accepted) + multiset{order} && discarded == old(discarded)
      ensures handedOut == old(handedOut) + OrdersIn(result)
      ensures result.Some? ==> result.value.Valid() && fresh(result.value)
      ensures Buffering(old(orderBuffer), order, orderBuffer, result)
    {
      hide Total, Buffered, Lost, LossExplained, BuffersOk, PartlyOk, ForStock, Sound, Held, Tail, First, Taken, Within,
        OrderBatch.Valid, Splits;
      var size := Buffer(order);
      if size >= strategy.maxBatchSize {
        result := BatchNow(order.stockCode);
      } else {
        if size == 1 {
          batchTimers := batchTimers + {order.stockCode};
        }
        result := None;
      }
    }

    /** An order for a priority stock becomes a batch of its own; any other is buffered. What comes back is handed
        to the caller. */
    method AddOrder(order: Order) returns (result: Option<OrderBatch>)
      requires Valid()
      modifies this
      ensures Valid() && accepted == old(accepted) + multiset{order} && discarded == old(discarded)
      ensures handedOut == old(handedOut) + OrdersIn(result)
      ensures result.Some? ==> result.value.Valid() && fresh(result.value)
      ensures order.stockCode in strategy.prioritySymbols ==>
          result.Some? && result.value.orders == [order] && orderBuffer == old(orderBuffer)
      ensures order.stockCode !in strategy.prioritySymbols ==>
          Buffering(old(orderBuffer), order, orderBuffer, result)
    {
      hide Total, Buffered, LossExplained, BuffersOk, PartlyOk, Sound, Held, OrdersIn, Buffering, OrderBatch.Valid;
      if order.stockCode in strategy.prioritySymbols {
        Arrive(strategy, orderBuffer, order, Held(readyBatches), handedOut, discarded, lost, accepted);
        result := HandleImmediately(order);
      } else {
        result := Collect(order);
      }
    }

    /** When a stock's timer fires its buffer is taken apart; the first batch reaches nobody. */
    method TimerFires(stockCode: string)
      requires Valid() && stockCode in batchTimers
      modifies this
      ensures Valid() && accepted == old(accepted) && handedOut == old(handedOut)
      ensures orderBuffer == old(orderBuffer) - {stockCode}
      ensures discarded == old(discarded) + First(Taken(strategy, BufferOf(old(orderBuffer), stockCode)))
    {
      hide Total, Buffered, Lost, LossExplained, ForStock, Sound, Held, Tail, First, Taken, OrderBatch.Valid, Splits;
      WithinTotal(orderBuffer, Held(readyBatches), handedOut, discarded, lost);
      assert PartlyOk(orderBuffer, stockCode, strategy.maxBatchSize);
      assert BufferOf(orderBuffer, stockCode) != [];
      hide BuffersOk, PartlyOk, BufferOf, Within;
      var result := CreateBatch(stockCode);
      assert OrdersIn(result) == First(Taken(strategy, BufferOf(old(orderBuffer), stockCode)));
      hide Handed, OrdersIn;
      Settle(OrdersIn(result), false);
    }

    method QueueLast(batch: OrderBatch)
      requires Structure() && Splits(accepted, Account(), multiset(batch.orders)) && batch.Valid()
      modifies this`readyBatches
      ensures Structure() && accepted == Account()
      ensures Held(readyBatches) == old(Held(readyBatches)) + [batch.orders]
    {
      hide Total, LossExplained, Sound, Held, OrderBatch.Valid;
      Enqueue(orderBuffer, Held(readyBatches), handedOut, discarded, lost, batch.orders);
      HeldConcat(readyBatches, [batch]);
      HeldOne(batch);
      SoundPush(readyBatches, batch);
      readyBatches := readyBatches + [batch];
    }

    /** Flushing a stock queues all its batches, the first one last. */
    method FlushStock(stockCode: string)
      requires Structure() && BuffersOk(orderBuffer, strategy.maxBatchSize) && accepted == Account()
      requires stockCode in orderBuffer
      modifies this`orderBuffer, this`readyBatches, this`batchTimers, this`lost
      ensures Structure() && BuffersOk(orderBuffer, strategy.maxBatchSize) && accepted == Account()
      ensures orderBuffer == old(orderBuffer) - {stockCode} && batchTimers == old(batchTimers) - {stockCode}
      ensures Held(readyBatches) == old(Held(readyBatches)) + Rotated(Taken(strategy, BufferOf(old(orderBuffer), stockCode)))
    {
      hide Total, Buffered, Lost, LossExplained, ForStock, Sound, Held, First, Taken, OrderBatch.Valid, Splits;
      WithinTotal(orderBuffer, Held(readyBatches), handedOut, discarded, lost);
      assert PartlyOk(orderBuffer, stockCode, strategy.maxBatchSize);
      assert BufferOf(orderBuffer, stockCode) != [];
      hide BuffersOk, PartlyOk, BufferOf, Within;
      ghost var batches, queued := Taken(strategy, BufferOf(orderBuffer, stockCode)), Held(readyBatches);
      var batch := CreateBatch(stockCode);
      if batch.Some? {
        QueueLast(batch.value);
        assert queued + Tail(batches) + [batches[0]] == queued + Rotated(batches);
      } else {
        NothingInHand(accepted, Account());
        assert queued + Tail(batches) == queued + Rotated(batches);
      }
    }

    /** Flushes the given stocks; the order in which they are visited is left open. */
    method FlushEach(stocks: set<string>)
      requires Structure() && BuffersOk(orderBuffer, strategy.maxBatchSize) && accepted == Account()
      requires stocks <= orderBuffer.Keys
      modifies this`orderBuffer, this`readyBatches, this`batchTimers, this`lost
      ensures Structure() && BuffersOk(orderBuffer, strategy.maxBatchSize) && accepted == Account()
      ensures orderBuffer == old(orderBuffer) - stocks && batchTimers == old(batchTimers) - stocks
      ensures old(Held(readyBatches)) <= Held(readyBatches)
    {
      hide Total, Buffered, LossExplained, BuffersOk, Sound, Held, OrderBatch.Valid, Rotated, Taken;
      ghost var buffers, timers, queued := orderBuffer, batchTimers, Held(readyBatches);
      var left := stocks;
      while left != {}
        invariant left <= stocks
        invariant Structure() && BuffersOk(orderBuffer, strategy.maxBatchSize) && accepted == Account()
        invariant orderBuffer == buffers - (stocks - left) && batchTimers == timers - (stocks - left)
        invariant queued <= Held(readyBatches)
        decreases |left|
      {
        var stockCode :| stockCode in left;
        FlushStock(stockCode);
        left := left - {stockCode};
      }
    }

    /** The periodic flush: exactly the stocks whose first order has waited longer than the timeout. */
    method FlushOldBatches(now: int)
      requires Valid()
      modifies this`orderBuffer, this`readyBatches, this`batchTimers, this`lost
      ensures Valid() && old(Held(readyBatches)) <= Held(readyBatches)
      ensures forall s :: s in old(orderBuffer) ==> old(orderBuffer)[s] != []
      ensures orderBuffer == map s | s in old(orderBuffer) && now - old(orderBuffer)[s][0].createdAt <= strategy.batchTimeout
                             :: old(orderBuffer)[s]
    {
      assert forall s :: s in orderBuffer ==> orderBuffer[s] != [];
      hide Total, Buffered, LossExplained, BuffersOk, Sound, Held, OrderBatch.Valid;
      FlushEach(set s | s in orderBuffer && Overdue(orderBuffer[s], now, strategy.batchTimeout));
    }

    /** Stopping cancels the timers and flushes everything: each accepted order is queued, handed out, discarded by
        an earlier timer, or lost. */
    method Stop()
      requires Valid()
      modifies this`orderBuffer, this`readyBatches, this`batchTimers, this`lost
      ensures Valid() && orderBuffer == map[] && old(Held(readyBatches)) <= Held(readyBatches)
      ensures accepted == Contents(Held(readyBatches)) + handedOut + discarded + lost
    {
      hide LossExplained, BuffersOk, Sound, Held, Contents, OrderBatch.Valid;
      batchTimers := {};
      FlushEach(orderBuffer.Keys);
      assert orderBuffer == map[];
      assert Buffered(orderBuffer) == multiset{};
    }

    /** The oldest queued batch, if any. */
    method GetReadyBatch() returns (result: Option<OrderBatch>)
      requires Valid()
      modifies this`readyBatches, this`handedOut
      ensures Valid() && handedOut == old(handedOut) + OrdersIn(result)
      ensures if old(readyBatches) == [] then result == None && readyBatches == []
              else result == Some(old(readyBatches)[0]) && readyBatches == old(readyBatches)[1..]
    {
      hide Buffered, LossExplained, BuffersOk, OrderBatch.Valid;
      if readyBatches == [] {
        return None;
      }
      var batch := readyBatches[0];
      Dequeue(orderBuffer, readyBatches, handedOut, discarded, lost);
      result := Some(batch);
      readyBatches := readyBatches[1..];
      handedOut := handedOut + multiset(batch.orders);
    }

    /** With smart batching and only market or priced limit orders (or no price grouping), nothing is lost: accepted
        orders are exactly the buffered, queued, handed out and discarded ones. */
    lemma NothingIsLost()
      requires Valid() && strategy.enableSmartBatching
      requires !strategy.enablePriceGrouping || forall o :: o in accepted ==> Groupable(o)
      ensures accepted == Buffered(orderBuffer) + Contents(Held(readyBatches)) + handedOut + discarded
    {
      hide Buffered, Contents, Held;
    }
  }

  lemma Dequeue(buffers: map<string, seq<Order>>, queue: seq<OrderBatch>, handedOut: multiset<Order>,
                discarded: multiset<Order>, lost: multiset<Order>)
    requires queue != [] && Sound(queue)
    ensures Sound(queue[1..])
    ensures Total(buffers, Held(queue[1..]), handedOut + multiset(queue[0].orders), discarded, lost)
         == Total(buffers, Held(queue), handedOut, discarded, lost)
  {
    FirstAndTail(Held(queue));
    assert Tail(Held(queue)) == Held(queue[1..]);
    assert First(Held(queue)) == multiset(queue[0].orders);
    hide Buffered, Contents, Held;
  }
}
