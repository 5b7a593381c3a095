/** The payment strategies of the order service (PaymentStrategy.process and its
    two implementations), the string-keyed registry createOrder picks one
    from, and the merge of a strategy's result into Order.paymentDetails. */
module Payment {
  import opened Common
  import opened Orders

  // ---------------------------------------------------------------------------
  // PayOnDeliveryStrategy

  /** PayOnDeliveryStrategy.process: no external step, a fresh empty map, so
      merging it into an order's details adds and replaces nothing. */
  function PayOnDeliveryProcess(order: Order): (result: map<string, string>)
    ensures forall existing :: MergeDetails(existing, result) == existing.GetOr(map[])
  {
    map[]
  }

  // ---------------------------------------------------------------------------
  // StripeStrategy: the parts that do not talk to Stripe

  /** The two injected settings: STRIPE_SECRET_KEY and DOMAIN_NAME (default "localhost"). */
  datatype StripeConfig = StripeConfig(secretKey: string, domainName: string)

  const LocalFrontend := "http://localhost:4200"
  const HostedPrefix := "https://app."

  /** The frontend the checkout page sends the customer back to: the local
      development server, or the "app." host of the domain, from which the
      domain can be read back. */
  function FrontendUrl(domainName: string): (url: string)
    ensures domainName == "localhost" ==> url == "http://localhost:4200"
    ensures domainName != "localhost" ==> StartsWith(url, "https://app.") && url[12..] == domainName
  {
    var url := if domainName == "localhost" then LocalFrontend else HostedPrefix + domainName;
    assert domainName != "localhost" ==> url[..12] == HostedPrefix;
    url
  }

  /** Where a paid checkout returns: the order list of the frontend. */
  function SuccessUrl(domainName: string): (url: string)
    ensures StartsWith(url, FrontendUrl(domainName)) && EndsWith(url, "/orders")
    ensures |url| == |FrontendUrl(domainName)| + 7
  {
    var f := FrontendUrl(domainName);
    assert (f + "/orders")[..|f|] == f && (f + "/orders")[|f|..] == "/orders";
    f + "/orders"
  }

  /** Where an abandoned checkout returns: the cart of the frontend. */
  function CancelUrl(domainName: string): (url: string)
    ensures StartsWith(url, FrontendUrl(domainName)) && EndsWith(url, "/cart")
    ensures |url| == |FrontendUrl(domainName)| + 5
  {
    var f := FrontendUrl(domainName);
    assert (f + "/cart")[..|f|] == f && (f + "/cart")[|f|..] == "/cart";
    f + "/cart"
  }

  /** The frontend URL is the local development server for "localhost"; for any
      other domain it is the "app." host of that domain over https, from which the
      domain can be read back. The redirect URLs are exactly it followed by
      /orders and by /cart. */
  lemma FrontendUrlChoice(domainName: string)
    ensures domainName == "localhost" ==> FrontendUrl(domainName) == "http://localhost:4200"
    ensures domainName != "localhost" ==>
      StartsWith(FrontendUrl(domainName), "https://app.") && FrontendUrl(domainName)[12..] == domainName
    ensures StartsWith(SuccessUrl(domainName), FrontendUrl(domainName)) && EndsWith(SuccessUrl(domainName), "/orders")
    ensures StartsWith(CancelUrl(domainName), FrontendUrl(domainName)) && EndsWith(CancelUrl(domainName), "/cart")
    ensures SuccessUrl(domainName) == FrontendUrl(domainName) + "/orders"
    ensures CancelUrl(domainName) == FrontendUrl(domainName) + "/cart"
  {
    var f := FrontendUrl(domainName);
    assert SuccessUrl(domainName)[..|f|] == f && SuccessUrl(domainName)[|f|..] == "/orders";
    assert CancelUrl(domainName)[..|f|] == f && CancelUrl(domainName)[|f|..] == "/cart";
    if domainName != "localhost" {
      assert f == HostedPrefix + domainName;
      assert f[..12] == HostedPrefix;
    }
  }

  /** BigDecimal.toBigInteger: the fractional part is discarded, rounding toward zero. */
  function TruncateTowardZero(x: real): (r: int)
    ensures 0.0 <= x ==> 0 <= r && r as real <= x < r as real + 1.0
    ensures x < 0.0 ==> r <= 0 && r as real - 1.0 < x <= r as real
  {
    if x >= 0.0 then x.Floor else -((-x).Floor)
  }

  /** BigInteger.longValue: the low-order 64 bits, read as a signed long. */
  function Wrap64(n: int): (r: int)
    ensures -0x8000_0000_0000_0000 <= r < 0x8000_0000_0000_0000
    ensures (r - n) % 0x1_0000_0000_0000_0000 == 0
    ensures -0x8000_0000_0000_0000 <= n < 0x8000_0000_0000_0000 ==> r == n
  {
    (n + 0x8000_0000_0000_0000) % 0x1_0000_0000_0000_0000 - 0x8000_0000_0000_0000
  }

  /** `price.multiply(new BigDecimal(100)).longValue()`: the amount in cents, a
      Java long, exact for a price in whole cents, of either sign, within the
      long range. */
  function UnitAmount(price: Money): (cents: int)
    ensures -0x8000_0000_0000_0000 <= cents < 0x8000_0000_0000_0000
    ensures && (price * 100.0).Floor as real == price * 100.0
            && -0x8000_0000_0000_0000 as real <= price * 100.0 < 0x8000_0000_0000_0000 as real
            ==> cents as real == price * 100.0
  {
    var x := price * 100.0;
    var t := TruncateTowardZero(x);
    assert x.Floor as real == x && x < 0.0 ==> t == x.Floor;
    Wrap64(t)
  }

  /** A non-negative price below the long range becomes its number of whole cents,
      dropping fractions of a cent; a price in whole cents converts exactly. */
  lemma UnitAmountInCents(price: Money)
    requires 0.0 <= price * 100.0 < 0x8000_0000_0000_0000 as real
    ensures 0 <= UnitAmount(price)
    ensures UnitAmount(price) as real <= price * 100.0 < UnitAmount(price) as real + 1.0
    ensures (price * 100.0).Floor as real == price * 100.0 ==> UnitAmount(price) as real == price * 100.0
  {
    var t := TruncateTowardZero(price * 100.0);
    assert t < 0x8000_0000_0000_0000;
  }

  /** The case of StripeStrategyTest: 100.00 is 10000 cents. */
  lemma UnitAmountExample()
    ensures UnitAmount(100.00) == 10000
  {
    assert (100.00 * 100.0).Floor == 10000;
  }

  /** A Stripe line item: SessionCreateParams.LineItem with its PriceData and ProductData. */
  datatype LineItem = LineItem(quantity: int, currency: string, unitAmount: int, productName: Option<string>)

  /** The line item for one order item. */
  function LineItemOf(item: OrderItem): LineItem {
    LineItem(item.quantity, "usd", UnitAmount(item.price), item.name)
  }

  /** The manifest: the line items the loop appends, one per order item. */
  function Manifest(items: seq<OrderItem>): (lineItems: seq<LineItem>)
    ensures |lineItems| == |items|
  {
    if items == [] then []
    else Manifest(items[..|items| - 1]) + [LineItemOf(items[|items| - 1])]
  }

  /** One line item per order item, in item order: quantity and name passed through,
      currency "usd", unit amount the price in cents. */
  lemma {:induction false} ManifestShape(items: seq<OrderItem>)
    ensures |Manifest(items)| == |items|
    ensures forall k :: 0 <= k < |items| ==>
      && Manifest(items)[k].quantity == items[k].quantity
      && Manifest(items)[k].currency == "usd"
      && Manifest(items)[k].unitAmount == UnitAmount(items[k].price)
      && Manifest(items)[k].productName == items[k].name
  {
    if items != [] {
      var n := |items| - 1;
      ManifestShape(items[..n]);
      forall k | 0 <= k < n
        ensures Manifest(items)[k] == Manifest(items[..n])[k]
      {
      }
    }
  }

  datatype CheckoutMode = PaymentMode

  /** SessionCreateParams as built by StripeStrategy.process. */
  datatype SessionParams = SessionParams(
    mode: CheckoutMode,
    successUrl: string,
    cancelUrl: string,
    lineItems: seq<LineItem>,
    metadata: map<string, Option<string>>,
    customerEmail: Option<string>)

  function StripeParams(config: StripeConfig, order: Order, items: seq<OrderItem>): (params: SessionParams)
    ensures |params.lineItems| == |items|
    ensures params.metadata.Keys == {"orderId"} && params.metadata["orderId"] == order.id
    ensures StartsWith(params.successUrl, FrontendUrl(config.domainName)) && StartsWith(params.cancelUrl, FrontendUrl(config.domainName))
  {
    SessionParams(
      PaymentMode,
      SuccessUrl(config.domainName),
      CancelUrl(config.domainName),
      Manifest(items),
      map["orderId" := order.id],
      order.customerEmail)
  }

  /** What Session.create gives back: a session, or the exception it throws. */
  datatype SessionOutcome = Created(url: string, sessionId: string) | CreateFailed(reason: string)

  /** Session.create, outside the model: it reads the global Stripe.apiKey, which
      process sets to the secret key just before the call. */
  type Gateway = (string, SessionParams) -> SessionOutcome

  const StripeFailure := "Failed to create Stripe session"

  /** StripeStrategy.process as a function: a null item list fails before the try
      block (a NullPointerException); a failed session is rethrown with one message;
      a created session gives exactly its URL and id. */
  function StripeOutcome(config: StripeConfig, order: Order, gateway: Gateway): (r: Result<map<string, string>, Fault>)
    ensures order.items.None? ==> r == Failure(NullPointerFault)
    ensures order.items.Some? && gateway(config.secretKey, StripeParams(config, order, order.items.value)).CreateFailed? ==>
      r == Failure(RuntimeFault("Failed to create Stripe session"))
    ensures r.Success? <==> order.items.Some? && gateway(config.secretKey, StripeParams(config, order, order.items.value)).Created?
    ensures r.Success? ==>
      var session := gateway(config.secretKey, StripeParams(config, order, order.items.value));
      r.value.Keys == {"stripeUrl", "sessionId"} && r.value["stripeUrl"] == session.url && r.value["sessionId"] == session.sessionId
  {
    if order.items.None? then Failure(NullPointerFault)
    else
      match gateway(config.secretKey, StripeParams(config, order, order.items.value))
      case Created(url, sessionId) => Success(map["stripeUrl" := url, "sessionId" := sessionId])
      case CreateFailed(_) => Failure(RuntimeFault(StripeFailure))
  }

  /** StripeStrategy.process: builds the line items in a loop, the session parameters,
      calls Stripe, and fills the response map. */
  method StripeProcess(config: StripeConfig, order: Order, gateway: Gateway) returns (r: Result<map<string, string>, Fault>)
    ensures r == StripeOutcome(config, order, gateway)
  {
    var apiKey := config.secretKey;
    var frontendUrl := FrontendUrl(config.domainName);
    if order.items.None? {
      return Failure(NullPointerFault);
    }
    var items := order.items.value;
    var lineItems: seq<LineItem> := [];
    var i := 0;
    while i < |items|
      invariant 0 <= i <= |items|
      invariant lineItems == Manifest(items[..i])
    {
      assert items[..i + 1][..i] == items[..i];
      var amountInCents := UnitAmount(items[i].price);
      lineItems := lineItems + [LineItem(items[i].quantity, "usd", amountInCents, items[i].name)];
      i := i + 1;
    }
    assert items[..i] == items;
    var params := SessionParams(
      PaymentMode, frontendUrl + "/orders", frontendUrl + "/cart", lineItems,
      map["orderId" := order.id], order.customerEmail);
    var session := gateway(apiKey, params);
    match session {
      case Created(url, sessionId) =>
        var response: map<string, string> := map[];
        response := response["stripeUrl" := url];
        response := response["sessionId" := sessionId];
        r := Success(response);
      case CreateFailed(_) =>
        r := Failure(RuntimeFault(StripeFailure));
    }
  }

  /** The session Stripe is asked for carries the order's id as metadata, the
      customer's email and the manifest of the order's items. */
  lemma StripeSessionRequest(config: StripeConfig, order: Order, items: seq<OrderItem>)
    ensures StripeParams(config, order, items).metadata == map["orderId" := order.id]
    ensures StripeParams(config, order, items).customerEmail == order.customerEmail
    ensures |StripeParams(config, order, items).lineItems| == |items|
    ensures StripeParams(config, order, items).successUrl == FrontendUrl(config.domainName) + "/orders"
    ensures StripeParams(config, order, items).cancelUrl == FrontendUrl(config.domainName) + "/cart"
    ensures StripeParams(config, order, items).mode == PaymentMode
  {
    ManifestShape(items);
  }

  // ---------------------------------------------------------------------------
  // The strategy registry and the dispatch of createOrder

  /** The PaymentStrategy beans. */
  datatype Strategy = PayOnDelivery | Stripe(config: StripeConfig)

  /** PaymentStrategy.process, dispatched on the bean. */
  function Process(strategy: Strategy, order: Order, gateway: Gateway): (r: Result<map<string, string>, Fault>)
    ensures strategy.PayOnDelivery? ==> r == Success(map[])
    ensures r.Failure? ==> strategy.Stripe?
    ensures r.Success? && strategy.Stripe? ==> r.value.Keys == {"stripeUrl", "sessionId"}
  {
    match strategy
    case PayOnDelivery => Success(PayOnDeliveryProcess(order))
    case Stripe(config) => StripeOutcome(config, order, gateway)
  }

  method ProcessPayment(strategy: Strategy, order: Order, gateway: Gateway) returns (r: Result<map<string, string>, Fault>)
    ensures r == Process(strategy, order, gateway)
  {
    match strategy {
      case PayOnDelivery =>
        r := Success(PayOnDeliveryProcess(order));
      case Stripe(config) =>
        r := StripeProcess(config, order, gateway);
    }
  }

  /** The key createOrder substitutes for a null payment method. */
  const DefaultMethodKey := "PAY_ON_DELIVERY"

  /** The registry lookup of createOrder: a null method becomes "PAY_ON_DELIVERY",
      and a key without a bean falls back to the built-in PayOnDeliveryStrategy. */
  function SelectStrategy(registry: map<string, Strategy>, paymentMethod: Option<string>): (strategy: Strategy)
    ensures strategy in registry.Values || strategy == PayOnDelivery
    ensures paymentMethod.Some? && paymentMethod.value in registry ==> strategy == registry[paymentMethod.value]
    ensures paymentMethod.None? && DefaultMethodKey in registry ==> strategy == registry[DefaultMethodKey]
  {
    var key := paymentMethod.GetOr(DefaultMethodKey);
    if key in registry then registry[key] else PayOnDelivery
  }

  /** A null method selects what "PAY_ON_DELIVERY" selects; a key missing from the
      registry selects PayOnDelivery, whose processing cannot fail. */
  lemma SelectionFallbacks(registry: map<string, Strategy>, key: string, order: Order, gateway: Gateway)
    ensures SelectStrategy(registry, None) == SelectStrategy(registry, Some("PAY_ON_DELIVERY"))
    ensures key !in registry ==>
      SelectStrategy(registry, Some(key)) == PayOnDelivery
      && Process(SelectStrategy(registry, Some(key)), order, gateway) == Success(map[])
  {
  }

  /** The beans as Spring registers them, under their @Component names. */
  function SpringRegistry(config: StripeConfig): map<string, Strategy> {
    map["PAY_ON_DELIVERY" := PayOnDelivery, "STRIPE" := Stripe(config)]
  }

  /** With the application's beans, every method key but "STRIPE", and a null one,
      settles with an empty result and never calls Stripe. */
  lemma OnlyStripeKeyCallsStripe(config: StripeConfig, paymentMethod: Option<string>, order: Order, gateway: Gateway)
    ensures paymentMethod != Some("STRIPE") ==>
      Process(SelectStrategy(SpringRegistry(config), paymentMethod), order, gateway) == Success(map[])
    ensures paymentMethod == Some("STRIPE") ==>
      Process(SelectStrategy(SpringRegistry(config), paymentMethod), order, gateway) == StripeOutcome(config, order, gateway)
  {
    assert DefaultMethodKey[0] != "STRIPE"[0];
  }

  // ---------------------------------------------------------------------------
  // Merging the result into paymentDetails

  /** `if (details == null) details = new HashMap(); details.putAll(result)` */
  function MergeDetails(existing: Option<map<string, string>>, result: map<string, string>): (merged: map<string, string>)
    ensures merged.Keys == existing.GetOr(map[]).Keys + result.Keys
    ensures forall k :: k in result ==> merged[k] == result[k]
    ensures forall k :: k in existing.GetOr(map[]) && k !in result ==> merged[k] == existing.value[k]
  {
    existing.GetOr(map[]) + result
  }

  /** Merging an empty result is the identity on existing details, and turns null
      details into an empty map; merging the same result twice is merging it once. */
  lemma MergeLaws(existing: Option<map<string, string>>, result: map<string, string>)
    ensures existing.Some? ==> MergeDetails(existing, map[]) == existing.value
    ensures existing.None? ==> MergeDetails(existing, map[]) == map[]
    ensures MergeDetails(Some(MergeDetails(existing, result)), result) == MergeDetails(existing, result)
  {
  }

  /** The order createOrder saves the second time. */
  function Settle(order: Order, result: map<string, string>): (settled: Order)
    ensures settled.(paymentDetails := order.paymentDetails) == order
    ensures settled.paymentDetails.Some? && result.Keys <= settled.paymentDetails.value.Keys
    ensures forall k :: k in result ==> settled.paymentDetails.value[k] == result[k]
  {
    order.(paymentDetails := Some(MergeDetails(order.paymentDetails, result)))
  }

  /** Settlement changes paymentDetails and nothing else: status, items, totals,
      owner and payment method are kept; with PayOnDelivery the existing details
      are kept exactly. */
  lemma SettleChangesOnlyPaymentDetails(order: Order, result: map<string, string>)
    ensures Settle(order, result).(paymentDetails := order.paymentDetails) == order
    ensures Settle(order, result).status == order.status && Settle(order, result).items == order.items
    ensures Settle(order, result).totalAmount == order.totalAmount && Settle(order, result).userId == order.userId
    ensures Settle(order, result).paymentMethod == order.paymentMethod
    ensures order.paymentDetails.Some? ==>
      Settle(order, PayOnDeliveryProcess(order)).paymentDetails == order.paymentDetails
  {
    MergeLaws(order.paymentDetails, map[]);
  }
}
