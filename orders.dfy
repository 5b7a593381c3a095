/** The order-service data model (Order, OrderItem, OrderStatus) and the two
    aggregations of OrderService: the per-user statistics (a stream
    map/reduce/filter/count) and the per-seller statistics (a nested loop). */
module Orders {
  import opened Common

  /** BigDecimal: exact decimal arithmetic, so no rounding drift. */
  type Money = real

  /** Java's 32-bit int (OrderItem.quantity, the loop counter totalItemsSold). */
  type Int32 = x: int | -0x8000_0000 <= x < 0x8000_0000

  /** Java's `int += int`: the exact sum reduced to 32 bits, two's complement. */
  function Wrap32(n: int): (r: Int32)
    ensures (r - n) % 0x1_0000_0000 == 0
    ensures -0x8000_0000 <= n < 0x8000_0000 ==> r == n
  {
    (n + 0x8000_0000) % 0x1_0000_0000 - 0x8000_0000
  }

  /** Accumulating with wrap-around step by step equals wrapping the exact sum once. */
  lemma Wrap32Add(a: int, b: int)
    ensures Wrap32(Wrap32(a) + b) == Wrap32(a + b)
  {
  }

  /** OrderStatus: the three constants the services use, and any other one. */
  datatype OrderStatus = Pending | Delivered | Cancelled | OtherStatus(name: string)

  datatype OrderItem = OrderItem(
    productId: Option<string>,
    sellerId: Option<string>,
    name: Option<string>,
    price: Money,
    quantity: Int32)

  /** An order document. createdAt and shippingAddress are opaque to the core. */
  datatype Order = Order(
    id: Option<string>,
    userId: Option<string>,
    customerEmail: Option<string>,
    items: Option<seq<OrderItem>>,
    totalAmount: Money,
    status: OrderStatus,
    createdAt: int,
    paymentMethod: Option<string>,
    paymentDetails: Option<map<string, string>>,
    shippingAddress: Option<string>)

  // ---------------------------------------------------------------------------
  // getUserStats: totalSpent, completedOrders, totalOrders

  /** `orders.stream().map(getTotalAmount).reduce(ZERO, add)`, folded from the left. */
  function TotalSpent(orders: seq<Order>): (total: Money)
    ensures (forall i :: 0 <= i < |orders| ==> orders[i].totalAmount >= 0.0) ==> total >= 0.0
    ensures (forall i :: 0 <= i < |orders| ==> orders[i].totalAmount == 0.0) ==> total == 0.0
  {
    if orders == [] then 0.0
    else TotalSpent(orders[..|orders| - 1]) + orders[|orders| - 1].totalAmount
  }

  /** `orders.stream().filter(status == DELIVERED).count()` */
  function CompletedOrders(orders: seq<Order>): (count: nat)
    ensures count <= |orders|
    ensures count == 0 <==> forall i :: 0 <= i < |orders| ==> orders[i].status != Delivered
  {
    if orders == [] then 0
    else CompletedOrders(orders[..|orders| - 1]) + (if orders[|orders| - 1].status == Delivered then 1 else 0)
  }

  /** The positions of the delivered orders: an independent reading of "completed". */
  function DeliveredPositions(orders: seq<Order>): set<nat>
  {
    set i: nat | i < |orders| && orders[i].status == Delivered
  }

  datatype UserStats = UserStats(totalSpent: Money, completedOrders: nat, totalOrders: nat)

  function UserStatsOf(orders: seq<Order>): (stats: UserStats)
    ensures stats.totalOrders == |orders|
    ensures stats.completedOrders == |DeliveredPositions(orders)|
    ensures stats.completedOrders <= stats.totalOrders
  {
    CompletedCountsDelivered(orders);
    UserStats(TotalSpent(orders), CompletedOrders(orders), |orders|)
  }

  /** completedOrders is the number of positions holding a DELIVERED order,
      which is at most the number of orders. */
  lemma {:induction false} CompletedCountsDelivered(orders: seq<Order>)
    ensures CompletedOrders(orders) == |DeliveredPositions(orders)|
    ensures CompletedOrders(orders) <= |orders|
  {
    if orders != [] {
      var n := |orders| - 1;
      var prefix := orders[..n];
      CompletedCountsDelivered(prefix);
      var before := DeliveredPositions(prefix);
      assert n !in before;
      if orders[n].status == Delivered {
        assert DeliveredPositions(orders) == before + {n};
      } else {
        assert DeliveredPositions(orders) == before;
      }
    }
  }

  /** Spend adds up over concatenated order lists, whatever the statuses:
      cancelled orders count towards spend. */
  lemma {:induction false} TotalSpentAppend(a: seq<Order>, b: seq<Order>)
    ensures TotalSpent(a + b) == TotalSpent(a) + TotalSpent(b)
  {
    if b != [] {
      var n := |b| - 1;
      assert (a + b)[..|a + b| - 1] == a + b[..n];
      TotalSpentAppend(a, b[..n]);
    } else {
      assert a + b == a;
    }
  }

  /** Completed orders add up over concatenated order lists. */
  lemma {:induction false} CompletedOrdersAppend(a: seq<Order>, b: seq<Order>)
    ensures CompletedOrders(a + b) == CompletedOrders(a) + CompletedOrders(b)
  {
    if b != [] {
      var n := |b| - 1;
      assert (a + b)[..|a + b| - 1] == a + b[..n];
      CompletedOrdersAppend(a, b[..n]);
    } else {
      assert a + b == a;
    }
  }

  /** The case of OrderServiceTest.getUserStatsShouldCalculateCorrectly. */
  lemma UserStatsExample(delivered: Order, pending: Order)
    requires delivered.totalAmount == 50.00 && delivered.status == Delivered
    requires pending.totalAmount == 50.00 && pending.status == Pending
    ensures UserStatsOf([delivered, pending]) == UserStats(100.00, 1, 2)
  {
    assert [delivered, pending][..1] == [delivered];
    assert [delivered][..0] == [];
    assert TotalSpent([delivered]) == 50.00;
    assert CompletedOrders([delivered]) == 1;
  }

  // ---------------------------------------------------------------------------
  // getSellerStats: totalSales, totalItemsSold

  predicate SoldBy(item: OrderItem, sellerId: string) {
    item.sellerId == Some(sellerId)
  }

  /** What one item adds to the seller's sales: price × quantity if it is the seller's. */
  function LineSales(item: OrderItem, sellerId: string): Money {
    if SoldBy(item, sellerId) then item.price * item.quantity as real else 0.0
  }

  /** What one item adds to the seller's sold quantity. */
  function LineQuantity(item: OrderItem, sellerId: string): int {
    if SoldBy(item, sellerId) then item.quantity else 0
  }

  /** Σ price × quantity over the seller's items of one item list. */
  function ItemsSales(items: seq<OrderItem>, sellerId: string): Money
  {
    if items == [] then 0.0
    else ItemsSales(items[..|items| - 1], sellerId) + LineSales(items[|items| - 1], sellerId)
  }

  /** Σ quantity over the seller's items of one item list (exact). */
  function ItemsQuantity(items: seq<OrderItem>, sellerId: string): int
  {
    if items == [] then 0
    else ItemsQuantity(items[..|items| - 1], sellerId) + LineQuantity(items[|items| - 1], sellerId)
  }

  /** An order contributes to seller statistics unless it is cancelled or has no item list. */
  predicate Counted(order: Order) {
    order.status != Cancelled && order.items.Some?
  }

  function OrderSales(order: Order, sellerId: string): Money {
    if Counted(order) then ItemsSales(order.items.value, sellerId) else 0.0
  }

  function OrderQuantity(order: Order, sellerId: string): int {
    if Counted(order) then ItemsQuantity(order.items.value, sellerId) else 0
  }

  function SellerSales(orders: seq<Order>, sellerId: string): Money
  {
    if orders == [] then 0.0
    else SellerSales(orders[..|orders| - 1], sellerId) + OrderSales(orders[|orders| - 1], sellerId)
  }

  function SellerQuantity(orders: seq<Order>, sellerId: string): int
  {
    if orders == [] then 0
    else SellerQuantity(orders[..|orders| - 1], sellerId) + OrderQuantity(orders[|orders| - 1], sellerId)
  }

  datatype SellerStats = SellerStats(totalSales: Money, totalItemsSold: Int32)

  /** totalSales is exact; totalItemsSold is the exact quantity wrapped to a Java int. */
  function SellerStatsOf(orders: seq<Order>, sellerId: string): (stats: SellerStats)
    ensures orders == [] ==> stats == SellerStats(0.0, 0)
    ensures (stats.totalItemsSold - SellerQuantity(orders, sellerId)) % 0x1_0000_0000 == 0
    ensures -0x8000_0000 <= SellerQuantity(orders, sellerId) < 0x8000_0000 ==> stats.totalItemsSold == SellerQuantity(orders, sellerId)
  {
    SellerStats(SellerSales(orders, sellerId), Wrap32(SellerQuantity(orders, sellerId)))
  }

  /** The outer loop of getSellerStats over the list the store returned:
      cancelled orders and orders without an item list are skipped. */
  method ComputeSellerStats(allOrders: seq<Order>, sellerId: string) returns (stats: SellerStats)
    ensures stats == SellerStatsOf(allOrders, sellerId)
  {
    var totalSales: Money := 0.0;
    var totalItemsSold: Int32 := 0;
    var i := 0;
    while i < |allOrders|
      invariant 0 <= i <= |allOrders|
      invariant totalSales == SellerSales(allOrders[..i], sellerId)
      invariant totalItemsSold == Wrap32(SellerQuantity(allOrders[..i], sellerId))
    {
      var order := allOrders[i];
      assert allOrders[..i + 1][..i] == allOrders[..i];
      if order.status != Cancelled && order.items.Some? {
        totalSales, totalItemsSold :=
          AccumulateItems(order.items.value, sellerId, totalSales, totalItemsSold, SellerQuantity(allOrders[..i], sellerId));
      }
      i := i + 1;
    }
    assert allOrders[..i] == allOrders;
    stats := SellerStats(totalSales, totalItemsSold);
  }

  /** The inner loop of getSellerStats over one order's items: adds price × quantity
      of the seller's items to the sales and their quantities to the Java int counter,
      whose exact value before the loop is `soldExact`. */
  method AccumulateItems(items: seq<OrderItem>, sellerId: string, sales: Money, sold: Int32, ghost soldExact: int)
    returns (totalSales: Money, totalItemsSold: Int32)
    requires sold == Wrap32(soldExact)
    ensures totalSales == sales + ItemsSales(items, sellerId)
    ensures totalItemsSold == Wrap32(soldExact + ItemsQuantity(items, sellerId))
  {
    totalSales, totalItemsSold := sales, sold;
    ghost var exact := soldExact;
    var j := 0;
    while j < |items|
      invariant 0 <= j <= |items|
      invariant totalSales == sales + ItemsSales(items[..j], sellerId)
      invariant exact == soldExact + ItemsQuantity(items[..j], sellerId)
      invariant totalItemsSold == Wrap32(exact)
    {
      var item := items[j];
      ItemsStep(items, j, sellerId);
      if item.sellerId == Some(sellerId) {
        var itemTotal := item.price * item.quantity as real;
        totalSales := totalSales + itemTotal;
        Wrap32Add(exact, item.quantity);
        totalItemsSold := Wrap32(totalItemsSold + item.quantity);
        exact := exact + item.quantity;
      }
      j := j + 1;
    }
    assert items[..j] == items;
  }

  /** One more item of the list adds its line to both sums. */
  lemma ItemsStep(items: seq<OrderItem>, j: nat, sellerId: string)
    requires j < |items|
    ensures ItemsSales(items[..j + 1], sellerId) == ItemsSales(items[..j], sellerId) + LineSales(items[j], sellerId)
    ensures ItemsQuantity(items[..j + 1], sellerId) == ItemsQuantity(items[..j], sellerId) + LineQuantity(items[j], sellerId)
  {
    assert items[..j + 1][..j] == items[..j];
  }

  /** Seller statistics add up over concatenated order lists. */
  lemma {:induction false} SellerStatsAppend(a: seq<Order>, b: seq<Order>, sellerId: string)
    ensures SellerSales(a + b, sellerId) == SellerSales(a, sellerId) + SellerSales(b, sellerId)
    ensures SellerQuantity(a + b, sellerId) == SellerQuantity(a, sellerId) + SellerQuantity(b, sellerId)
  {
    if b != [] {
      var n := |b| - 1;
      assert (a + b)[..|a + b| - 1] == a + b[..n];
      SellerStatsAppend(a, b[..n], sellerId);
    } else {
      assert a + b == a;
    }
  }

  /** An item list none of whose items belongs to the seller contributes nothing. */
  lemma {:induction false} ForeignItemsContributeNothing(items: seq<OrderItem>, sellerId: string)
    requires forall k :: 0 <= k < |items| ==> !SoldBy(items[k], sellerId)
    ensures ItemsSales(items, sellerId) == 0.0 && ItemsQuantity(items, sellerId) == 0
  {
    if items != [] {
      ForeignItemsContributeNothing(items[..|items| - 1], sellerId);
    }
  }

  /** Inserting a cancelled order, or an order without an item of the seller,
      anywhere in the list leaves that seller's statistics unchanged. */
  lemma SellerStatsIgnore(a: seq<Order>, order: Order, b: seq<Order>, sellerId: string)
    requires order.status == Cancelled
          || order.items.None?
          || forall k :: 0 <= k < |order.items.value| ==> !SoldBy(order.items.value[k], sellerId)
    ensures SellerStatsOf(a + [order] + b, sellerId) == SellerStatsOf(a + b, sellerId)
  {
    if Counted(order) {
      ForeignItemsContributeNothing(order.items.value, sellerId);
    }
    assert SellerSales([order], sellerId) == 0.0 && SellerQuantity([order], sellerId) == 0 by {
      assert [order][..0] == [];
    }
    SellerStatsAppend(a, [order], sellerId);
    SellerStatsAppend(a + [order], b, sellerId);
    SellerStatsAppend(a, b, sellerId);
  }

  /** The case of OrderServiceTest.getSellerStatsShouldCalculateSalesForSellerOnly:
      the other seller's item is left out entirely. */
  lemma SellerStatsExample(order: Order, mine: OrderItem, other: OrderItem)
    requires mine.sellerId == Some("seller1") && mine.price == 10.00 && mine.quantity == 2
    requires other.sellerId == Some("seller2") && other.price == 5.00 && other.quantity == 1
    requires order.status == Delivered && order.items == Some([mine, other])
    ensures SellerStatsOf([order], "seller1") == SellerStats(20.00, 2)
  {
    assert [mine, other][..1] == [mine];
    assert [mine][..0] == [];
    assert "seller2"[6] != "seller1"[6];
    assert LineSales(other, "seller1") == 0.0 && LineQuantity(other, "seller1") == 0;
    assert ItemsSales([mine], "seller1") == 20.00;
    assert ItemsQuantity([mine], "seller1") == 2;
    assert ItemsSales([mine, other], "seller1") == 20.00;
    assert ItemsQuantity([mine, other], "seller1") == 2;
    assert SellerSales([order], "seller1") == 20.00;
    assert SellerQuantity([order], "seller1") == 2;
    assert [order][..0] == [];
  }

  // ---------------------------------------------------------------------------
  // Independence from the order in which the store lists the documents

  /** Removing one occurrence of `x` from a permutation of `rest + [x]` leaves a permutation of `rest`. */
  lemma SplitAtOccurrence(rest: seq<Order>, x: Order, b: seq<Order>) returns (before: seq<Order>, after: seq<Order>)
    requires multiset(rest + [x]) == multiset(b)
    ensures b == before + [x] + after
    ensures multiset(rest) == multiset(before + after)
  {
    assert x in multiset(b);
    var j :| 0 <= j < |b| && b[j] == x;
    before, after := b[..j], b[j + 1..];
    assert b == before + [x] + after;
    calc {
      multiset(rest) + multiset{x};
      multiset(rest + [x]);
      multiset(before + [x] + after);
      multiset(before) + multiset{x} + multiset(after);
    }
    assert multiset(before + after) == multiset(before) + multiset(after);
    assert multiset(rest) == (multiset(rest) + multiset{x}) - multiset{x};
    assert multiset(before) + multiset(after) == (multiset(before) + multiset{x} + multiset(after)) - multiset{x};
  }

  /** Every aggregate of `before + [x] + after` is that of `before + after + [x]`. */
  lemma MoveToEnd(before: seq<Order>, x: Order, after: seq<Order>, sellerId: string)
    ensures TotalSpent(before + [x] + after) == TotalSpent(before + after + [x])
    ensures CompletedOrders(before + [x] + after) == CompletedOrders(before + after + [x])
    ensures SellerSales(before + [x] + after, sellerId) == SellerSales(before + after + [x], sellerId)
    ensures SellerQuantity(before + [x] + after, sellerId) == SellerQuantity(before + after + [x], sellerId)
  {
    assert [x][..0] == [];
    TotalSpentAppend(before + [x], after);
    TotalSpentAppend(before, [x]);
    TotalSpentAppend(before + after, [x]);
    TotalSpentAppend(before, after);
    CompletedOrdersAppend(before + [x], after);
    CompletedOrdersAppend(before, [x]);
    CompletedOrdersAppend(before + after, [x]);
    CompletedOrdersAppend(before, after);
    SellerStatsAppend(before + [x], after, sellerId);
    SellerStatsAppend(before, [x], sellerId);
    SellerStatsAppend(before + after, [x], sellerId);
    SellerStatsAppend(before, after, sellerId);
  }

  /** Both statistics depend only on which orders are listed, not on their order. */
  lemma {:induction false} StatsPermutation(a: seq<Order>, b: seq<Order>, sellerId: string)
    requires multiset(a) == multiset(b)
    ensures TotalSpent(a) == TotalSpent(b) && CompletedOrders(a) == CompletedOrders(b)
    ensures SellerSales(a, sellerId) == SellerSales(b, sellerId)
    ensures SellerQuantity(a, sellerId) == SellerQuantity(b, sellerId)
    decreases |a|
  {
    if a == [] {
      assert |b| == |multiset(b)| == 0;
    } else {
      var n := |a| - 1;
      var x := a[n];
      assert a == a[..n] + [x];
      var before, after := SplitAtOccurrence(a[..n], x, b);
      StatsPermutation(a[..n], before + after, sellerId);
      MoveToEnd(before, x, after, sellerId);
      assert (before + after + [x])[..|before + after|] == before + after;
    }
  }
}
