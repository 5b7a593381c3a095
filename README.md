# buy-02 services in Dafny

This project models the business core of the buy-02 marketplace backend: four Spring services and two payment strategies.

- **Orders** (`orders.dfy`, `payment.dfy`, `order_service.dfy`). `OrderService` stores orders and computes per-user and per-seller statistics. `createOrder` saves the order twice, with the payment strategy chosen from a registry running in between. `PayOnDeliveryStrategy` returns an empty map. `StripeStrategy` builds a Checkout session request (frontend URLs, line-item manifest, metadata) and turns the session, or its failure, into the payment details.
- **Users** (`user_service.dfy`). `UserService` covers:
  - registration with a unique email;
  - login;
  - a partial profile update that only overwrites supplied fields;
  - the profile view;
  - the wishlist toggle.
- **Products** (`product_service.dfy`). `ProductService` covers:
  - creation, stamped with the caller as seller;
  - update and delete, which check existence and then ownership;
  - the query choice behind `filterProducts`.
- **Media** (`media_service.dfy`). `MediaService` covers:
  - upload validation: size, then content type, then file extension, then the `..` check;
  - the stored name and the saved record;
  - the record lookup;
  - the three-way choice of the file `getMediaData` reads.

Shared pieces are in `common.dfy`: null as `Option`, exceptions as `Result` and `Fault`, `startsWith`/`endsWith`/`contains`, and the fresh id a store assigns to a new document.

How the model is built:

- **Entities are datatypes.** Orders, items, users, products and media records are datatypes. This uses the documents' own field names, as far as the services touch them.
- **Each service is a class.** Its repository is a `map` field from id to document. The class's methods perform the service operations.
- **Saves are logged.** A ghost `saveLog` records every document `save` returns, in call order. That is the saved document, carrying the id it has once saved, which a document without an id did not have when it was passed in. This is how "saved exactly twice" and "nothing saved" are stated.
- **`save` assigns ids.** Saving a document without an id picks a fresh key; saving one with an id overwrites that key.
- **Listings are enumerations.** `findAll` and `findByUserId` are modelled as an enumeration of the map in an unspecified order (`OrderLifecycle.Lists`). Any two listings are permutations of each other. Both statistics are proved independent of that order.
- **Money is `real`.** `BigDecimal` arithmetic is exact, and so is `real`.
- **Java integers wrap.** Java's `int` accumulation in `getSellerStats` wraps to 32 bits (`Orders.Wrap32`). `BigDecimal.longValue` truncates toward zero and keeps the low 64 bits (`Payment.TruncateTowardZero`, `Payment.Wrap64`).
- **Foreign code is a parameter.** Code outside the services is passed in as functions: Stripe's `Session.create`, `PasswordEncoder`, `JwtUtil.generateToken`, `StringUtils.cleanPath`, `UUID.randomUUID`, `Files.copy`, `Files.exists` and `Files.readAllBytes`.
- **Null status.** A null order status compares unequal to all three named constants, so it behaves exactly like an `OtherStatus` value.

## Model

| member | source | states |
|---|---|---|
| Orders.Wrap32 | services/order-service/src/main/java/com/buy01/orderservice/service/OrderService.java:95 | The counter is a 32-bit int: the result agrees with the exact sum modulo 2^32 and equals it whenever the sum fits. |
| Orders.Wrap32Add | services/order-service/src/main/java/com/buy01/orderservice/service/OrderService.java:95 | Wrapping after every `+=` is the same as wrapping the exact total once. |
| Orders.TotalSpent | services/order-service/src/main/java/com/buy01/orderservice/service/OrderService.java:64-66 | With no negative amount the spend is non-negative, and with all amounts zero it is zero. TotalSpentAppend gives its additivity. |
| Orders.CompletedOrders | services/order-service/src/main/java/com/buy01/orderservice/service/OrderService.java:68-70 | The count is at most the number of orders, and is zero iff no order is DELIVERED. |
| Orders.UserStatsOf | services/order-service/src/main/java/com/buy01/orderservice/service/OrderService.java:62-77 | totalOrders is the list length. completedOrders is the number of positions holding a DELIVERED order, so it never exceeds totalOrders. |
| Orders.CompletedCountsDelivered | services/order-service/src/main/java/com/buy01/orderservice/service/OrderService.java:68-70 | The filter-and-count equals the size of the set of delivered positions, and is at most the list length. |
| Orders.TotalSpentAppend | services/order-service/src/main/java/com/buy01/orderservice/service/OrderService.java:64-66 | totalSpent adds up over concatenated lists whatever the statuses, so cancelled orders count towards spend. |
| Orders.CompletedOrdersAppend | services/order-service/src/main/java/com/buy01/orderservice/service/OrderService.java:68-70 | completedOrders adds up over concatenated lists. |
| Orders.UserStatsExample | services/order-service/src/test/java/com/buy01/orderservice/service/OrderServiceTest.java:75-92 | A delivered and a pending order of 50.00 each give spend 100.00, 1 completed and 2 in total. |
| Orders.SellerStatsOf | services/order-service/src/main/java/com/buy01/orderservice/service/OrderService.java:79-105 | No orders give zero sales and zero items. The item count agrees with the exact quantity modulo 2^32, and equals it when that fits a Java int. |
| Orders.ComputeSellerStats | services/order-service/src/main/java/com/buy01/orderservice/service/OrderService.java:79-105 | The outer loop yields exactly the totals `SellerStatsOf` defines. Cancelled orders and orders without items are skipped, and the item counter wraps to 32 bits. |
| Orders.AccumulateItems | services/order-service/src/main/java/com/buy01/orderservice/service/OrderService.java:91-97 | The inner loop adds price × quantity and the quantity of exactly the seller's items to the running totals, wrapping the counter. |
| Orders.SellerStatsAppend | services/order-service/src/main/java/com/buy01/orderservice/service/OrderService.java:84-99 | Seller sales and the exact item count add up over concatenated order lists. |
| Orders.ForeignItemsContributeNothing | services/order-service/src/main/java/com/buy01/orderservice/service/OrderService.java:91-97 | Items none of which match the seller contribute zero sales and zero items. |
| Orders.SellerStatsIgnore | services/order-service/src/main/java/com/buy01/orderservice/service/OrderService.java:86-98 | Inserting a cancelled order, an order without items, or an order with no item from the seller anywhere in the list leaves that seller's stats unchanged. |
| Orders.SellerStatsExample | services/order-service/src/test/java/com/buy01/orderservice/service/OrderServiceTest.java:95-118 | An order with seller1's item (10.00 × 2) and seller2's item (5.00 × 1) gives seller1 sales 20.00 and 2 items. |
| Orders.StatsPermutation | services/order-service/src/main/java/com/buy01/orderservice/service/OrderService.java:62-105 | Both statistics depend only on which orders are listed, not on the order the store returns them in. |
| Payment.PayOnDeliveryProcess | services/order-service/src/main/java/com/buy01/orderservice/service/payment/PayOnDeliveryStrategy.java:10-14 | The result is empty: merging it into any order's details adds and replaces nothing. |
| Payment.FrontendUrl | services/order-service/src/main/java/com/buy01/orderservice/service/payment/StripeStrategy.java:30-35 | "localhost" gives http://localhost:4200. Any other domain gives "https://app." followed by exactly that domain. |
| Payment.SuccessUrl | services/order-service/src/main/java/com/buy01/orderservice/service/payment/StripeStrategy.java:57 | The frontend URL followed by /orders and nothing else: it starts with the frontend URL, ends with /orders, and is exactly 7 characters longer. |
| Payment.CancelUrl | services/order-service/src/main/java/com/buy01/orderservice/service/payment/StripeStrategy.java:58 | The frontend URL followed by /cart and nothing else: it starts with the frontend URL, ends with /cart, and is exactly 5 characters longer. |
| Payment.FrontendUrlChoice | services/order-service/src/main/java/com/buy01/orderservice/service/payment/StripeStrategy.java:30-35 | "localhost" gives http://localhost:4200. Any other domain gives "https://app." followed by exactly that domain. The success URL is exactly the frontend URL + "/orders", and the cancel URL exactly the frontend URL + "/cart". |
| Payment.TruncateTowardZero | services/order-service/src/main/java/com/buy01/orderservice/service/payment/StripeStrategy.java:41 | The integer part of a decimal, rounded toward zero, for either sign. |
| Payment.Wrap64 | services/order-service/src/main/java/com/buy01/orderservice/service/payment/StripeStrategy.java:41 | `longValue` keeps the low 64 bits: the result lies in the long range, agrees modulo 2^64, and is exact inside the range. |
| Payment.UnitAmount | services/order-service/src/main/java/com/buy01/orderservice/service/payment/StripeStrategy.java:41 | The amount is a Java long. A price in whole cents, positive or negative, whose cent amount lies in the long range converts exactly; -1.50 gives -150. |
| Payment.UnitAmountInCents | services/order-service/src/main/java/com/buy01/orderservice/service/payment/StripeStrategy.java:41 | A non-negative price within range becomes its number of whole cents, truncated, and a whole-cent price converts exactly. |
| Payment.UnitAmountExample | services/order-service/src/test/java/com/buy01/orderservice/service/payment/StripeStrategyTest.java:44 | 100.00 is 10000 cents. |
| Payment.Manifest | services/order-service/src/main/java/com/buy01/orderservice/service/payment/StripeStrategy.java:37-53 | One line item per order item. Each is built by `LineItemOf`, the builder chain for one item, and ManifestShape gives their contents item by item. |
| Payment.ManifestShape | services/order-service/src/main/java/com/buy01/orderservice/service/payment/StripeStrategy.java:39-53 | One line item per order item, in item order. Each has the item's quantity, currency "usd", the price in cents as unit amount, and the item name. |
| Payment.StripeParams | services/order-service/src/main/java/com/buy01/orderservice/service/payment/StripeStrategy.java:55-62 | One line item per order item, metadata with exactly the key orderId holding the order's id, and both redirect URLs under the frontend URL. |
| Payment.StripeOutcome | services/order-service/src/main/java/com/buy01/orderservice/service/payment/StripeStrategy.java:27-73 | Null items fail with a NullPointerException before the try block. A failed session is rethrown as "Failed to create Stripe session". A result exists iff the session is created, and then has exactly the keys stripeUrl and sessionId, taken from the session. |
| Payment.StripeProcess | services/order-service/src/main/java/com/buy01/orderservice/service/payment/StripeStrategy.java:27-73 | The loop that builds the line items, plus the response map, compute exactly `StripeOutcome`. |
| Payment.StripeSessionRequest | services/order-service/src/main/java/com/buy01/orderservice/service/payment/StripeStrategy.java:55-62 | The session request is in payment mode. It carries metadata orderId = the order's id, the order's customer email and one line item per order item. The success URL is exactly frontend URL + "/orders", and the cancel URL exactly frontend URL + "/cart". |
| Payment.Process | services/order-service/src/main/java/com/buy01/orderservice/service/OrderService.java:39 | PayOnDelivery always yields the empty map. Only Stripe can fail, and a Stripe result has exactly the keys stripeUrl and sessionId. |
| Payment.SelectStrategy | services/order-service/src/main/java/com/buy01/orderservice/service/OrderService.java:31-37 | The strategy is a registered bean or the built-in PayOnDelivery. A registered key selects its own bean, and a null method selects the bean under "PAY_ON_DELIVERY" when there is one. |
| Payment.ProcessPayment | services/order-service/src/main/java/com/buy01/orderservice/service/OrderService.java:39 | Dispatching `process` on the selected bean computes exactly `Process`. |
| Payment.SelectionFallbacks | services/order-service/src/main/java/com/buy01/orderservice/service/OrderService.java:31-37 | A null method selects the same bean as "PAY_ON_DELIVERY". A key missing from the registry selects the built-in PayOnDelivery, whose result is the empty map and never a failure. |
| Payment.OnlyStripeKeyCallsStripe | services/order-service/src/main/java/com/buy01/orderservice/service/payment/PayOnDeliveryStrategy.java:7-14 | With the beans under their component names, every method other than "STRIPE" (null included) yields an empty result, and "STRIPE" yields the Stripe outcome. |
| Payment.MergeDetails | services/order-service/src/main/java/com/buy01/orderservice/service/OrderService.java:40-43 | The merged keys are the existing keys (none if null) plus the result's keys. Result values win on shared keys, and the other existing entries are kept. |
| Payment.MergeLaws | services/order-service/src/main/java/com/buy01/orderservice/service/OrderService.java:40-43 | Merging an empty result keeps existing details exactly and turns null into an empty map. Merging a result twice equals merging it once. |
| Payment.Settle | services/order-service/src/main/java/com/buy01/orderservice/service/OrderService.java:40-45 | Only paymentDetails changes. The settled order has details, and they hold every key of the result with the result's value. |
| Payment.SettleChangesOnlyPaymentDetails | services/order-service/src/main/java/com/buy01/orderservice/service/OrderService.java:39-45 | Settling changes paymentDetails only: status, items, total, owner and payment method are kept. PayOnDelivery keeps existing details exactly. |
| OrderLifecycle.OrderService.constructor | services/order-service/src/main/java/com/buy01/orderservice/service/OrderService.java:21-25 | Starts with an empty store and the given strategy registry. |
| OrderLifecycle.OrderService.Save | services/order-service/src/main/java/com/buy01/orderservice/service/OrderService.java:29 | A document without an id gets a key not in use. One with an id overwrites that key. Each save is logged. |
| OrderLifecycle.OrderService.CreateOrder | services/order-service/src/main/java/com/buy01/orderservice/service/OrderService.java:27-46 | Saves the draft, with a fresh id if it has none, and settles it with the selected strategy. On success it saves the settled order as a second save. On failure the first save stands and the fault propagates. |
| OrderLifecycle.OrderService.UpdateOrderStatus | services/order-service/src/main/java/com/buy01/orderservice/service/OrderService.java:56-60 | An unknown id fails with "Order not found" and nothing changes. Otherwise any status replaces any other, nothing else in the order changes, and only that order is saved. |
| OrderLifecycle.OrderService.Listing | services/order-service/src/main/java/com/buy01/orderservice/service/OrderService.java:48-54 | Lists every selected stored order exactly once: nothing missing, nothing extra, no duplicates. |
| OrderLifecycle.OrderService.GetOrdersByUserId | services/order-service/src/main/java/com/buy01/orderservice/service/OrderService.java:48-50 | Exactly the user's stored orders, once each. |
| OrderLifecycle.OrderService.GetAllOrders | services/order-service/src/main/java/com/buy01/orderservice/service/OrderService.java:52-54 | Every stored order, once each. |
| OrderLifecycle.OrderService.GetUserStats | services/order-service/src/main/java/com/buy01/orderservice/service/OrderService.java:62-77 | The user statistics of the user's orders, the same for every order the store may list them in. |
| OrderLifecycle.OrderService.GetSellerStats | services/order-service/src/main/java/com/buy01/orderservice/service/OrderService.java:79-105 | The seller statistics over all stored orders, the same for every listing order. |
| OrderLifecycle.ListingsAgree | services/order-service/src/main/java/com/buy01/orderservice/service/OrderService.java:48-54 | Two listings of the same store hold the same orders. |
| OrderLifecycle.ListingsPermute | services/order-service/src/main/java/com/buy01/orderservice/service/OrderService.java:48-54 | Two listings of the same store are permutations of each other. |
| Users.NewUser | services/user-service/src/main/java/com/buy01/userservice/service/UserService.java:32-35 | A new user has the given email, encoded password and role, and no id, address or phone. |
| Users.ApplyUpdate | services/user-service/src/main/java/com/buy01/userservice/service/UserService.java:57-69 | id, email, role and wishlist are never changed by an update. |
| Users.UpdateTouchesOnlySupplied | services/user-service/src/main/java/com/buy01/userservice/service/UserService.java:57-69 | The password changes only for a non-null, non-empty request password, and becomes its encoding. Street, city, zip, country and phone each take the supplied value when non-null and are kept otherwise. |
| Users.EmptyUpdateIsIdentity | services/user-service/src/main/java/com/buy01/userservice/service/UserService.java:57-69 | A request with nothing in it (an empty password counts as nothing) leaves the user unchanged. |
| Users.UpdatesCompose | services/user-service/src/main/java/com/buy01/userservice/service/UserService.java:57-71 | Two updates equal one in which the later request wins field by field, so repeating an update changes nothing more. |
| Users.ProfileOf | services/user-service/src/main/java/com/buy01/userservice/service/UserService.java:77-85 | The profile copies id, email, role, street, city, zip, country and phone from the user. |
| Users.ProfileHidesSecrets | services/user-service/src/main/java/com/buy01/userservice/service/UserService.java:74-86 | The profile does not depend on the password or the wishlist. |
| Users.RemoveFirst | services/user-service/src/main/java/com/buy01/userservice/service/UserService.java:93 | Removing an absent id leaves the list as it is. |
| Users.RemoveFirstCuts | services/user-service/src/main/java/com/buy01/userservice/service/UserService.java:93 | Removing a present id cuts the list around its first occurrence. |
| Users.RemoveFirstMultiset | services/user-service/src/main/java/com/buy01/userservice/service/UserService.java:93 | Removal drops exactly one occurrence and keeps everything else. |
| Users.Toggle | services/user-service/src/main/java/com/buy01/userservice/service/UserService.java:92-96 | The list shrinks by one if the id is present and grows by one otherwise. No other id's count changes. |
| Users.ToggleMultiset | services/user-service/src/main/java/com/buy01/userservice/service/UserService.java:92-96 | A present id loses one occurrence. An absent id gains one, appended at the end. Every other id is kept. |
| Users.ToggleFlipsMembership | services/user-service/src/main/java/com/buy01/userservice/service/UserService.java:92-96 | On a list holding the id at most once, a toggle flips whether it is in the list. |
| Users.ToggleTwiceRestores | services/user-service/src/main/java/com/buy01/userservice/service/UserService.java:92-96 | Toggling an absent id twice gives back the original list. |
| Users.UserService.constructor | services/user-service/src/main/java/com/buy01/userservice/service/UserService.java:22-26 | Starts with an empty store and the injected encoder, matcher and token issuer. |
| Users.UserService.FindByEmail | services/user-service/src/main/java/com/buy01/userservice/service/UserService.java:42-43 | Finds the one stored user with the email, iff there is one. |
| Users.UserService.Save | services/user-service/src/main/java/com/buy01/userservice/service/UserService.java:36 | Fresh id for a new user, overwrite for an existing one, email uniqueness kept, and the save is logged. |
| Users.UserService.Register | services/user-service/src/main/java/com/buy01/userservice/service/UserService.java:28-39 | A taken email fails BAD_REQUEST "Email already exists" and nothing is saved. Otherwise exactly one user is saved, with the encoded password and the requested role and a fresh id, and the response carries its token, role and email. |
| Users.UserService.Login | services/user-service/src/main/java/com/buy01/userservice/service/UserService.java:41-51 | An unknown email fails NOT_FOUND and a mismatched password fails UNAUTHORIZED. A token is issued iff a user with the email exists and the password matches. |
| Users.UserService.UpdateUser | services/user-service/src/main/java/com/buy01/userservice/service/UserService.java:53-72 | An unknown email fails NOT_FOUND and nothing is saved. Otherwise that user alone becomes its update and is saved once. |
| Users.UserService.GetProfile | services/user-service/src/main/java/com/buy01/userservice/service/UserService.java:74-86 | An unknown email fails NOT_FOUND. Otherwise the result is the user's profile. |
| Users.UserService.ToggleWishlist | services/user-service/src/main/java/com/buy01/userservice/service/UserService.java:88-98 | An unknown id fails NOT_FOUND and a null wishlist fails on dereference, with nothing saved in either case. Otherwise only that user's wishlist is toggled and the user is saved once. |
| Users.UserService.GetWishlist | services/user-service/src/main/java/com/buy01/userservice/service/UserService.java:100-104 | An unknown id fails NOT_FOUND. Otherwise the stored list is returned as it is, with nothing written. |
| Products.TrimLeading | services/product-service/src/main/java/com/buy01/productservice/service/ProductService.java:33 | The result is a suffix of the input that starts with a non-blank character, or is empty. Every dropped character is blank, at most the space character. |
| Products.TrimTrailing | services/product-service/src/main/java/com/buy01/productservice/service/ProductService.java:33 | The result is a prefix of the input that ends with a non-blank character, or is empty. Every dropped character is blank. |
| Products.Trim | services/product-service/src/main/java/com/buy01/productservice/service/ProductService.java:33 | The result is no longer than the input, and neither starts nor ends with a blank. |
| Products.TrimKeepsMiddle | services/product-service/src/main/java/com/buy01/productservice/service/ProductService.java:33 | What trim keeps is one contiguous run of the input, and every character it drops before or after that run is blank. |
| Products.TrimEmptyIffBlank | services/product-service/src/main/java/com/buy01/productservice/service/ProductService.java:33 | `trim()` is empty iff every character is at most the space character. |
| Products.FilterProducts | services/product-service/src/main/java/com/buy01/productservice/service/ProductService.java:32-37 | A null bound fails. Otherwise the name-and-range query is used iff the query is non-null and not blank, it gets the untrimmed query, and both queries get the bounds as given. |
| Products.Revised | services/product-service/src/main/java/com/buy01/productservice/service/ProductService.java:52-55 | Exactly name, description, price and imageUrls come from the request, and id and sellerId are kept. |
| Products.RevisedIgnoresIdentity | services/product-service/src/main/java/com/buy01/productservice/service/ProductService.java:52-57 | The request's id and sellerId have no effect, and revising twice equals revising once. |
| Products.OwnershipCheck | services/product-service/src/main/java/com/buy01/productservice/service/ProductService.java:48-50 | The check passes iff the stored sellerId equals the caller. A null stored sellerId fails on `equals`, and any other failing case is refused. |
| Products.ProductService.constructor | services/product-service/src/main/java/com/buy01/productservice/service/ProductService.java:16-18 | Starts with an empty store. |
| Products.ProductService.Save | services/product-service/src/main/java/com/buy01/productservice/service/ProductService.java:41 | Fresh id for a product without one, overwrite for one with an id, and the save is logged. |
| Products.ProductService.CreateProduct | services/product-service/src/main/java/com/buy01/productservice/service/ProductService.java:39-42 | The caller becomes the seller whatever the body said. The body's id, if any, is kept and overwrites that key; otherwise a fresh key is used. |
| Products.ProductService.CreateProductFresh | services/product-service/src/main/java/com/buy01/productservice/service/ProductService.java:39-42 | The corrected creation: it always inserts under a fresh key, and no stored product changes. |
| Products.CreateOverwritesForeignProduct | services/product-service/src/main/java/com/buy01/productservice/service/ProductService.java:39-42 | Calling CreateProduct as "mallory" with a body naming "p1", which is stored with seller "alice", replaces the stored "p1" by the saved body, now with seller "mallory". |
| Products.ProductService.UpdateProduct | services/product-service/src/main/java/com/buy01/productservice/service/ProductService.java:44-58 | NOT_FOUND comes before the ownership check. A non-owner fails FORBIDDEN "Unauthorized to update this product" and nothing is saved. The owner's request revises that product only, and it is saved once. |
| Products.ProductService.DeleteProduct | services/product-service/src/main/java/com/buy01/productservice/service/ProductService.java:60-69 | NOT_FOUND comes before the ownership check. A non-owner fails FORBIDDEN "Unauthorized to delete this product" and nothing is deleted. The owner's call removes exactly that id. |
| MediaFiles.SplitNames | services/media-service/src/main/java/com/buy01/mediaservice/service/MediaService.java:115 | The name elements of a path string are non-empty and contain no separator. |
| MediaFiles.ParsePath | services/media-service/src/main/java/com/buy01/mediaservice/service/MediaService.java:115 | The path is absolute iff the string starts with a separator, and each name element is non-empty and separator-free. |
| MediaFiles.PathString | services/media-service/src/main/java/com/buy01/mediaservice/service/MediaService.java:135 | An absolute path prints with a leading separator. PathRoundTrip shows that parsing the printed form gives the path back. |
| MediaFiles.Resolve | services/media-service/src/main/java/com/buy01/mediaservice/service/MediaService.java:123-127 | An absolute argument replaces the base. A relative one is appended to the base's names. |
| MediaFiles.FileName | services/media-service/src/main/java/com/buy01/mediaservice/service/MediaService.java:122 | The file name is the last name element, and is null iff the path has no names. |
| MediaFiles.PathRoundTrip | services/media-service/src/main/java/com/buy01/mediaservice/service/MediaService.java:115 | Parsing a path's string form gives the path back. |
| MediaFiles.NoParentStep | services/media-service/src/main/java/com/buy01/mediaservice/service/MediaService.java:75-79 | A name that passes the `..` check parses to a path with no `..` element. |
| MediaFiles.Lower | services/media-service/src/main/java/com/buy01/mediaservice/service/MediaService.java:58 | Keeps the length. No upper-case letter A–Z is left; each one becomes its lower-case partner, and every other character is kept. |
| MediaFiles.LowerIdempotent | services/media-service/src/main/java/com/buy01/mediaservice/service/MediaService.java:58 | Lower-casing twice is lower-casing once. |
| MediaFiles.ExtensionIgnoresCase | services/media-service/src/main/java/com/buy01/mediaservice/service/MediaService.java:57-65 | Whether a name has an image extension does not depend on its letter case. |
| MediaFiles.ExtensionList | services/media-service/src/main/java/com/buy01/mediaservice/service/MediaService.java:58-61 | Having an image extension is exactly one of the six `endsWith` tests (.jpg, .jpeg, .png, .gif, .webp, .bmp) holding on the lower-cased name. |
| MediaFiles.IsImage | services/media-service/src/main/java/com/buy01/mediaservice/service/MediaService.java:49-65 | An image content type, or a name with an image extension, makes a file an image. The extension test `HasImageExtension` is the chain of six `endsWith` calls on the lower-cased name, as ExtensionList shows. A file with neither a name nor a content type is never an image. |
| MediaFiles.CheckUpload | services/media-service/src/main/java/com/buy01/mediaservice/service/MediaService.java:42-70 | Anything over 8 MiB fails "File size exceeds the limit of 8MB" before any type check. Otherwise the file passes iff it is an image (by content type "image/…" or by image extension), and a non-image fails "Only image files are allowed". |
| MediaFiles.UploadLimits | services/media-service/src/main/java/com/buy01/mediaservice/service/MediaService.java:42-54 | Exactly 8 MiB passes and one byte more fails. An image content type passes whatever the file name. |
| MediaFiles.UploadByExtension | services/media-service/src/main/java/com/buy01/mediaservice/service/MediaService.java:57-65 | A generic content type is rescued by ".png" or ".JPG" and not by ".pdf", and a null content type likewise. |
| MediaFiles.StoredName | services/media-service/src/main/java/com/buy01/mediaservice/service/MediaService.java:72 | The name is the random prefix, "_", and then exactly the cleaned original name, or "null" when the name is null: it starts and ends with those parts and its length is their sum. |
| MediaFiles.ResolveStored | services/media-service/src/main/java/com/buy01/mediaservice/service/MediaService.java:113-136 | Only a path that exists is ever read. A failure is a NullPointerException or "File not found at …". |
| MediaFiles.ResolveBranches | services/media-service/src/main/java/com/buy01/mediaservice/service/MediaService.java:113-136 | Four cases: a relative path resolves under the root; an existing absolute path is used as is; a missing absolute path with no file name fails; otherwise the last name element is looked up under the root. |
| MediaFiles.MovedFileFallsBack | services/media-service/src/main/java/com/buy01/mediaservice/service/MediaService.java:117-124 | A legacy absolute path whose file is gone is looked up by its file name in the current root. |
| MediaFiles.UploadedNameResolvesUnderRoot | services/media-service/src/main/java/com/buy01/mediaservice/service/MediaService.java:72-89 | A name stored by an upload is relative and has no `..` element, so reading it resolves under the storage root. |
| MediaFiles.MediaService.constructor | services/media-service/src/main/java/com/buy01/mediaservice/service/MediaService.java:26-28 | Starts with an empty store and the absolute storage root. |
| MediaFiles.MediaService.Save | services/media-service/src/main/java/com/buy01/mediaservice/service/MediaService.java:92 | A new record gets a fresh id and the save is logged. |
| MediaFiles.MediaService.UploadMedia | services/media-service/src/main/java/com/buy01/mediaservice/service/MediaService.java:38-97 | The pre-checks' fault is returned unchanged. A stored name containing `..`, or a failed copy, gives "Could not store file <name>. Please try again!". Otherwise exactly one record is saved, holding the original name, the content type, the relative stored name and the uploader. Nothing is saved on failure. |
| MediaFiles.MediaService.GetMedia | services/media-service/src/main/java/com/buy01/mediaservice/service/MediaService.java:99-103 | An unknown id fails NOT_FOUND "Media not found". Otherwise the stored record is returned. |
| MediaFiles.MediaService.GetMediaData | services/media-service/src/main/java/com/buy01/mediaservice/service/MediaService.java:105-139 | An unknown id fails NOT_FOUND. Otherwise the bytes of the path `ResolveStored` chooses are returned, or its fault. |

## Left out

- Persistence: the MongoDB repositories and their derived queries. Each store is a map, and `save` picks a fresh key.
- `filterProducts` does not execute its queries. The `double` price-range queries of ProductRepository and the `doubleValue()` conversion of the bounds are floating point. The model returns which query runs, with the bounds as given.
- Products: `getAllProducts`, `getProductsBySeller` and `searchProducts` are single repository calls with no logic of their own.
- Product prices are doubles that the service only copies, so they are opaque bit patterns (`Products.Price`).
- Foreign calls are function parameters with no properties assumed:
  - Stripe `Session.create`;
  - `PasswordEncoder.encode` and `matches`;
  - `JwtUtil.generateToken`;
  - `StringUtils.cleanPath`;
  - `UUID.randomUUID`;
  - `Files.copy`, `Files.exists`, `Files.readAllBytes`.
  
  `Stripe.apiKey` is a global that `process` assigns. It is modelled as the key argument of the session call, so its persistence across calls is not modelled.
- `PasswordEncoder.encode` is a function in the model, so encoding is deterministic. The real encoder salts each call.
- Users.UpdatesCompose: says nothing about a real salted encoder, because double updates compare encodings.
- File-system effects in MediaService:
  - directory creation in the constructor and its failure;
  - the bytes copied and read;
  - `toAbsolutePath().normalize()`, which the model replaces by taking the root as an absolute path;
  - `InvalidPathException` from `Paths.get`.
- Logging, the HTTP controllers, the DTO classes and the frontend are not modelled.
  - The controllers' parameter defaults (minPrice 0, maxPrice 1000000) and the bearer-token strip are not modelled.
  - ProductController.java:47 calls a two-argument `filterProducts` that ProductService.java:32 does not declare. The model follows the service.
  - UserService.java:77 calls a constructor that UserProfileResponse.java:17 declares private. The model gives the profile the fields that call passes.
- Concurrency: the race between concurrent status updates, and other readers seeing the order between createOrder's two saves. The model is sequential.
- NullPointerExceptions from null fields in arithmetic are not modelled. Prices, amounts and quantities are never null in the model, though a null `totalAmount`, `price` or `quantity` would throw in Java. Null item lists, wishlists, seller ids, original upload names and price bounds are modelled. A stored media record's filePath is never null in the model, though `Paths.get` on a null filePath would throw in getMediaData.
- Aliasing: createOrder mutates the draft's own paymentDetails map with `putAll`, so a caller holding that map sees the change. The model works on values.
- User.java, Product.java and Media.java are not part of this model. The documents have only the fields the services use.
  - `new User(email, password, role)` is assumed to leave the address fields null and the wishlist empty.
  - A stored user's wishlist may be null.
- AuthRequest email and password are never null in the model.
- A created Stripe session always has a URL and an id in the model. A null `session.getUrl()` would be stored as a null map value.
- createOrder saves the request's order as it came, with any id the body carries, so `save` overwrites an order stored under that id. OrderLifecycle.OrderService.CreateOrder reproduces this through Save. No corrected variant is given, because the order service has no ownership rule that shows another intent.
- MediaFiles.Lower: only A–Z are lower-cased, because `String.toLowerCase` is locale- and Unicode-dependent. A name whose extension needs non-ASCII case mapping may be judged differently.
- MediaFiles.SplitNames: only Unix path syntax is modelled. Windows paths and `Paths.get` rejecting a NUL character are not.

## Findings

| source | as written | input that shows it | evidently intended | confidence | as-written member | corrected member |
|---|---|---|---|---|---|---|
| services/product-service/src/main/java/com/buy01/productservice/service/ProductService.java:39-42 | createProduct keeps the id of the request body, so `save` overwrites the product stored under that id and stamps the caller as its seller | seller "mallory" posts a body with id "p1", where "p1" is stored with seller "alice": "p1" now belongs to "mallory" | creation adds a new product and cannot take over another seller's product, as update and delete forbid | medium; not executed; depends on the body's id being bindable, and Product.java is not part of this model | Products.CreateOverwritesForeignProduct | Products.ProductService.CreateProductFresh |
