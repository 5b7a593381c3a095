/** OrderService over its order store. The store is the map from id to the
    saved order document; `saveLog` records every document
    OrderRepository.save returns, with the id it carries once saved, in call order. */
module OrderLifecycle {
  import opened Common
  import opened Orders
  import opened Payment

  /** Whether a listing keeps an order: all orders, or those of one user (findByUserId). */
  predicate Selected(order: Order, user: Option<string>) {
    user.None? || order.userId == user
  }

  /** `listing` is what the store returns for a query: each selected document
      exactly once, in an order the store chooses. */
  predicate Lists(listing: seq<Order>, store: map<string, Order>, user: Option<string>) {
    && (forall i :: 0 <= i < |listing| ==>
          listing[i].id.Some? && listing[i].id.value in store && store[listing[i].id.value] == listing[i]
          && Selected(listing[i], user))
    && (forall i, j :: 0 <= i < j < |listing| ==> listing[i].id != listing[j].id)
    && (forall id :: id in store && Selected(store[id], user) ==> store[id] in listing)
  }

  class OrderService {
    var orders: map<string, Order>
    ghost var saveLog: seq<Order>
    /** The PaymentStrategy beans by name; defaultStrategy is PayOnDelivery. */
    const strategies: map<string, Strategy>

    /** Every stored document carries the id it is stored under. */
    ghost predicate Valid()
      reads this
    {
      forall id :: id in orders ==> orders[id].id == Some(id)
    }

    constructor (strategies: map<string, Strategy>)
      ensures Valid() && orders == map[] && saveLog == [] && this.strategies == strategies
    {
      this.strategies := strategies;
      orders := map[];
      saveLog := [];
    }

    /** OrderRepository.save: a document without an id gets a fresh one; a document
        with an id replaces what is stored under it. */
    method Save(order: Order) returns (saved: Order)
      requires Valid()
      modifies this
      ensures Valid() && saved.id.Some?
      ensures order.id.Some? ==> saved == order
      ensures order.id.None? ==> saved == order.(id := saved.id) && saved.id.value !in old(orders)
      ensures orders == old(orders)[saved.id.value := saved]
      ensures saveLog == old(saveLog) + [saved]
    {
      saved := order;
      if saved.id.None? {
        var id := FreshKey(orders);
        saved := saved.(id := Some(id));
      }
      orders := orders[saved.id.value := saved];
      saveLog := saveLog + [saved];
    }

    /** createOrder: save the draft, settle it with the selected strategy, merge the
        result into paymentDetails and save again. A settlement failure propagates
        after the first save, which is not undone. */
    method CreateOrder(order: Order, gateway: Gateway) returns (r: Result<Order, Fault>)
      requires Valid()
      modifies this
      ensures Valid()
      ensures |saveLog| == |old(saveLog)| + (if r.Success? then 2 else 1) && saveLog[..|old(saveLog)|] == old(saveLog)
      ensures
        var first := saveLog[|old(saveLog)|];
        && first.id.Some?
        && (order.id.Some? ==> first == order)
        && (order.id.None? ==> first == order.(id := first.id) && first.id.value !in old(orders))
        && var outcome := Process(SelectStrategy(strategies, first.paymentMethod), first, gateway);
        && (outcome.Failure? ==> r == Failure(outcome.error) && orders == old(orders)[first.id.value := first])
        && (outcome.Success? ==>
              && r == Success(Settle(first, outcome.value))
              && saveLog[|old(saveLog)| + 1] == r.value
              && orders == old(orders)[first.id.value := r.value])
    {
      var savedOrder := Save(order);
      var key := savedOrder.paymentMethod;
      if key.None? {
        key := Some(DefaultMethodKey);
      }
      var strategy := if key.value in strategies then strategies[key.value] else PayOnDelivery;
      assert strategy == SelectStrategy(strategies, savedOrder.paymentMethod);
      var paymentResult := ProcessPayment(strategy, savedOrder, gateway);
      if paymentResult.Failure? {
        return Failure(paymentResult.error);
      }
      var settled := savedOrder;
      if settled.paymentDetails.None? {
        settled := settled.(paymentDetails := Some(map[]));
      }
      settled := settled.(paymentDetails := Some(settled.paymentDetails.value + paymentResult.value));
      assert settled == Settle(savedOrder, paymentResult.value);
      var final := Save(settled);
      r := Success(final);
    }

    /** updateOrderStatus: any status may replace any other; an unknown id fails. */
    method UpdateOrderStatus(orderId: string, status: OrderStatus) returns (r: Result<Order, Fault>)
      requires Valid()
      modifies this
      ensures Valid()
      ensures orderId !in old(orders) ==>
        r == Failure(RuntimeFault("Order not found")) && orders == old(orders) && saveLog == old(saveLog)
      ensures orderId in old(orders) ==>
        && r == Success(old(orders)[orderId].(status := status))
        && orders == old(orders)[orderId := r.value]
        && saveLog == old(saveLog) + [r.value]
    {
      if orderId !in orders {
        return Failure(RuntimeFault("Order not found"));
      }
      var order := orders[orderId];
      order := order.(status := status);
      var saved := Save(order);
      r := Success(saved);
    }

    /** findAll / findByUserId: walks the stored documents in an unspecified order. */
    method Listing(user: Option<string>) returns (listing: seq<Order>)
      requires Valid()
      ensures Lists(listing, orders, user)
    {
      var rest := orders.Keys;
      listing := [];
      while rest != {}
        invariant rest <= orders.Keys
        invariant forall i :: 0 <= i < |listing| ==>
          listing[i].id.Some? && listing[i].id.value in orders.Keys - rest
          && orders[listing[i].id.value] == listing[i] && Selected(listing[i], user)
        invariant forall i, j :: 0 <= i < j < |listing| ==> listing[i].id != listing[j].id
        invariant forall id :: id in orders.Keys - rest && Selected(orders[id], user) ==> orders[id] in listing
        decreases |rest|
      {
        var id :| id in rest;
        if Selected(orders[id], user) {
          listing := listing + [orders[id]];
        }
        rest := rest - {id};
      }
    }

    /** getOrdersByUserId: every order of the user, once each, and no other. */
    method GetOrdersByUserId(userId: string) returns (result: seq<Order>)
      requires Valid()
      ensures Lists(result, orders, Some(userId))
    {
      result := Listing(Some(userId));
    }

    /** getAllOrders: every stored order, once each. */
    method GetAllOrders() returns (result: seq<Order>)
      requires Valid()
      ensures Lists(result, orders, None)
    {
      result := Listing(None);
    }

    /** getUserStats over the user's orders as the store lists them. */
    method GetUserStats(userId: string) returns (stats: UserStats)
      requires Valid()
      ensures exists listing :: Lists(listing, orders, Some(userId)) && stats == UserStatsOf(listing)
      ensures forall listing :: Lists(listing, orders, Some(userId)) ==> stats == UserStatsOf(listing)
    {
      var userOrders := GetOrdersByUserId(userId);
      stats := UserStatsOf(userOrders);
      forall listing | Lists(listing, orders, Some(userId)) ensures stats == UserStatsOf(listing) {
        ListingsPermute(userOrders, listing, orders, Some(userId));
        StatsPermutation(userOrders, listing, "");
        assert |userOrders| == |multiset(userOrders)| == |multiset(listing)| == |listing|;
      }
    }

    /** getSellerStats over all orders as the store lists them. */
    method GetSellerStats(sellerId: string) returns (stats: SellerStats)
      requires Valid()
      ensures exists listing :: Lists(listing, orders, None) && stats == SellerStatsOf(listing, sellerId)
      ensures forall listing :: Lists(listing, orders, None) ==> stats == SellerStatsOf(listing, sellerId)
    {
      var allOrders := GetAllOrders();
      stats := ComputeSellerStats(allOrders, sellerId);
      forall listing | Lists(listing, orders, None) ensures stats == SellerStatsOf(listing, sellerId) {
        ListingsPermute(allOrders, listing, orders, None);
        StatsPermutation(allOrders, listing, sellerId);
      }
    }
  }

  /** Two listings of the same store hold the same documents, so repeated reads
      without an intervening write agree up to order. */
  lemma ListingsAgree(a: seq<Order>, b: seq<Order>, store: map<string, Order>, user: Option<string>)
    requires Lists(a, store, user) && Lists(b, store, user)
    ensures forall o :: o in a <==> o in b
  {
    forall o | o in a ensures o in b {
      var i :| 0 <= i < |a| && a[i] == o;
    }
    forall o | o in b ensures o in a {
      var i :| 0 <= i < |b| && b[i] == o;
    }
  }

  /** In a listing, an order with distinct ids occurs at most once. */
  lemma {:induction false} DistinctOccurrences(s: seq<Order>)
    requires forall i, j :: 0 <= i < j < |s| ==> s[i].id != s[j].id
    ensures forall o :: multiset(s)[o] == if o in s then 1 else 0
  {
    if s != [] {
      var n := |s| - 1;
      assert s == s[..n] + [s[n]];
      DistinctOccurrences(s[..n]);
      assert s[n] !in s[..n];
      forall o ensures multiset(s)[o] == if o in s then 1 else 0 {
        assert multiset(s) == multiset(s[..n]) + multiset{s[n]};
        assert o in s <==> o in s[..n] || o == s[n];
      }
    }
  }

  /** Two listings of the same store are permutations of each other. */
  lemma ListingsPermute(a: seq<Order>, b: seq<Order>, store: map<string, Order>, user: Option<string>)
    requires Lists(a, store, user) && Lists(b, store, user)
    ensures multiset(a) == multiset(b)
  {
    ListingsAgree(a, b, store, user);
    DistinctOccurrences(a);
    DistinctOccurrences(b);
    assert forall o :: multiset(a)[o] == multiset(b)[o];
  }
}
