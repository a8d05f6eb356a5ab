# Ganesha Bakery back end — a verified model

This project models the request handlers of the Ganesha Bakery shop's
Express/Mongoose back end:

- the cart (view with totals, add, update, remove, clear);
- order checkout from the cart, with its stock decrements, admin status
  updates, cancellation with stock restore, and the admin order listing;
- the Razorpay payment routes (gateway-order request, payment verification
  that creates the order, and the webhook);
- the product and category catalogue endpoints;
- the Order and Product schemas: enums, defaults, bounds, the `inStock`
  virtual and the pre-save hook that numbers orders.

The database is the class `Store.Db`. Its fields are the product, category
and cart collections (maps from id to document) and the order collection (a
sequence; an order's id is its position, since orders are never deleted).
Every state-changing endpoint is a method that `modifies db`. Each such
method is proved equal to a pure function of the old state (`PlaceOrder`,
`VerifyPayment`, `WebhookOutcome`, `AddCategory`, …) or states its new state
outright. The lemmas about those functions carry the properties: the error
cases, what is stored, which invariants are kept, and the round trips (a
cancel undoes a checkout, a stock edit is undone by the reverse edit).

`Store.ValidState` is what the schemas and indexes guarantee of a stored
database: valid products, unique category names, carts whose lines have a
quantity of at least one with each product on at most one line, and numbered
orders whose lines have a quantity of at least one. Every endpoint method
ensures that a valid store stays valid.

Schema validation is modelled by the `Parse*` functions and `Valid*`
predicates. A save the schema rejects is `Err(ServerError(ValidationFailed))`,
the 500 the controllers send. JavaScript truthiness (`x || y`, `if (x)`) is
`Common.Present` for strings and `Common.Truthy` for numbers. Money and
weights are `real`.

The payment routes are modelled twice, selected by `Payment.Variant`:
`AsWritten` is the code as it stands, and `Corrected` is the evidently
intended code (see "## Findings").

## Model

| member | source | states |
|---|---|---|
| Common.HttpStatus | backend/controllers/orderController.js:16-29 | each error response carries its status: 500 exactly for server errors, 403 for not-authorised, 404 for the not-found family, 400 otherwise; the error-path lemmas below state their responses' statuses through it |
| Common.StringOr | backend/controllers/categoryController.js:69 | JavaScript `or` on a string: the string when it is present and non-empty, else the fallback |
| Common.DecimalInjective | backend/models/Order.js:96 | distinct numbers are written as distinct digit strings, the basis for unique order numbers and receipts |
| ProductModel.ParsePriceUnit | backend/models/Product.js:18-22 | the unit enum accepts exactly 'piece' and 'kg' and yields the unit with that name |
| ProductModel.PriceUnitRoundTrip | backend/models/Product.js:18-22 | every unit round-trips through its stored name |
| ProductModel.NotInStockMeansEmptyOrUnavailable | backend/models/Product.js:57-59 | for a valid product, `inStock` is false exactly when the stock is 0 or the product is unavailable |
| ProductModel.NewProduct | backend/models/Product.js:3-54 | creating a product succeeds iff name, price ≥ 0 and category are given, stock ≥ 0 and the unit is in the enum; defaults: unit piece, stock 0, image '', available, not featured; name, price, category, description and subcategory are stored as given and the creation time is now |
| OrderModel.ParseStatus | backend/models/Order.js:63-67 | the status enum accepts exactly its six names and yields the status with that name |
| OrderModel.ParseMethod | backend/models/Order.js:53-57 | the payment-method enum accepts exactly 'cod' and 'online' |
| OrderModel.ParsePaymentStatus | backend/models/Order.js:58-62 | the payment-status enum accepts exactly 'pending', 'paid' and 'failed', case-sensitively |
| OrderModel.EnumsRoundTrip | backend/models/Order.js:53-67 | every status, method and payment status round-trips through its stored name |
| OrderModel.NewOrder | backend/models/Order.js:53-84 | a new order defaults to status pending, payment pending by cod, no gateway ids, no paid or delivered time, no number; it keeps the given user, lines, total, address, notes and time |
| OrderModel.AssignOrderNumber | backend/models/Order.js:93-99 | the pre-save hook gives an unnumbered order "ORD" + time + (count + 1) and leaves a numbered order unchanged |
| OrderModel.OrderNumberStable | backend/models/Order.js:93-99 | saving again, at any later time and count, never renumbers an order |
| OrderModel.OrderNumberInjective | backend/models/Order.js:96 | with times of equal length, two generated numbers are equal only when the time and the count are both equal |
| Store.LinePrice | backend/controllers/orderController.js:37-42 | a line costs price × weight for kg products with a truthy weight, else price × quantity |
| Store.LinePriceExamples | backend/controllers/cartController.js:26-30 | worked cases: two pieces at 45 cost 90; half a kilo at 450/kg costs 225; a zero weight falls back to the quantity |
| CartController.IndexOf | backend/controllers/cartController.js:73-75 | `findIndex`: -1 iff no line has the product, else the first line that has it |
| CartController.TotalsIgnoreDeleted | backend/controllers/cartController.js:23-24 | a line whose product no longer exists, at any position in the cart, adds nothing to either total |
| CartController.TotalsNonNegative | backend/controllers/cartController.js:20-32 | with valid lines and products, the item count and the amount are not negative |
| CartController.CartTotals | backend/controllers/cartController.js:20-32 | the loop's totals are the quantity sum and the line-price sum over the lines whose product exists |
| CartController.GetCart | backend/controllers/cartController.js:7-43 | a caller without a cart gets an empty one; the totals are those of the returned cart; no other collection changes; a valid store stays valid |
| CartController.AddLine | backend/controllers/cartController.js:73-91 | merging adds the quantity to the product's line (rejected above stock; weight replaced only by a truthy one) or appends a new line, leaving other lines unchanged |
| CartController.AddLineKeepsOneLinePerProduct | backend/controllers/cartController.js:73-91 | adding never creates a second line for a product |
| CartController.AddLineWithinStock | backend/controllers/cartController.js:79-82 | after a successful add, the product's line is within the stock |
| CartController.AddToCart | backend/controllers/cartController.js:48-108 | 404 for an unknown product, 400 when out of stock or the quantity (default 1) exceeds stock, then the AddLine edit is saved; a cart created on the way persists even when the merge is refused; a valid store stays valid |
| CartController.SetOrRemove | backend/controllers/cartController.js:137-143 | a quantity ≤ 0 splices the line out; otherwise it sets the quantity (and a truthy weight) and leaves the other lines alone |
| CartController.SetOrRemoveKeepsInvariants | backend/controllers/cartController.js:137-143 | the edit keeps one line per product and keeps lines valid |
| CartController.UpdateCartItem | backend/controllers/cartController.js:113-160 | 404 for an unknown product, 400 above stock, 404 when the user had no cart, 404 when the product is not in the cart, 500 with no cart change when the request has no quantity, else the SetOrRemove edit is saved; a valid store stays valid |
| CartController.WithoutProduct | backend/controllers/cartController.js:175-177 | the kept lines are exactly the lines of other products |
| CartController.WithoutProductKeepsInvariants | backend/controllers/cartController.js:175-177 | removing a product's lines keeps every quantity at least 1 and each product on at most one line |
| CartController.WithoutProductAppend | backend/controllers/cartController.js:175-177 | the filter distributes over concatenation, so the surviving lines keep their order |
| CartController.WithoutProductIdempotent | backend/controllers/cartController.js:175-177 | removing twice is removing once |
| CartController.WithoutAbsentProduct | backend/controllers/cartController.js:175-177 | removing a product that has no line leaves the cart unchanged |
| CartController.RemoveFromCart | backend/controllers/cartController.js:165-192 | 404 with no cart; otherwise the filtered lines are saved; a valid store stays valid |
| CartController.ClearCart | backend/controllers/cartController.js:197-211 | an existing cart is emptied; with no cart nothing changes; a valid store stays valid |
| OrderController.StopIndex | backend/controllers/orderController.js:24-35 | the line at which the checkout loop stops lies within the cart |
| OrderController.CheckoutTotalIsSum | backend/controllers/orderController.js:53 | the checkout total is the sum of the order-line prices |
| OrderController.CheckoutNeverMissesProduct | backend/controllers/orderController.js:25-29 | when the populated cart and the live catalog differ only in stock, the 'Product … not found' response cannot occur |
| OrderController.SnapshotIgnoresStock | backend/controllers/orderController.js:44-51 | an order line depends on the product's name, price and unit, not on its stock |
| OrderController.CheckoutSuccess | backend/controllers/orderController.js:24-58 | a checkout that passes makes one order line per cart line, in order, each the priced snapshot of its product |
| OrderController.CheckoutSuccessStock | backend/controllers/orderController.js:55-57 | after a checkout that passes, the catalog is the old one with every line's quantity taken off its product's stock |
| OrderController.CheckoutFailure | backend/controllers/orderController.js:24-35 | a checkout that fails stops at one line, after the earlier lines' decrements; it fails with a 500 for a deleted product, else with 'Insufficient stock' naming the current stock |
| OrderController.DecrementedStock | backend/controllers/orderController.js:55-57 | the decrements take each product's summed line quantity off its stock and change nothing else |
| OrderController.LineQuantityAbsent | backend/controllers/orderController.js:56 | a product without a cart line has no quantity taken off |
| OrderController.RestoredStock | backend/controllers/orderController.js:205-211 | the restore adds each product's summed item quantity to its stock and changes nothing else |
| OrderController.SnapshotQuantities | backend/controllers/orderController.js:44-51 | the order lines carry the same per-product quantities as the cart lines |
| OrderController.LineQuantitySplit | backend/controllers/orderController.js:24-58 | the per-product quantity of a concatenation of cart lines is the sum over its parts |
| OrderController.CancelUndoesCheckout | backend/controllers/orderController.js:205-211 | cancelling a checked-out order gives back exactly the catalog from before the checkout |
| OrderController.CheckoutKeepsCatalogValid | backend/controllers/orderController.js:31-35 | the stock check keeps every stock ≥ 0 through the decrements |
| OrderController.CheckoutItemsValid | backend/models/Order.js:10-14 | order lines from valid cart lines satisfy the quantity ≥ 1 of the item schema |
| OrderController.PlaceOrderEmptyCart | backend/controllers/orderController.js:16-18 | no cart or an empty cart gives 'Cart is empty' with status 400 and changes nothing |
| OrderController.PlaceOrderSuccess | backend/controllers/orderController.js:8-79 | a successful checkout appends one pending, unpaid order numbered "ORD" + time + count, whose lines are the cart's snapshots and whose total is their sum, with the payment method given ('cod' by default), the address and notes given and the current time, and empties the cart |
| OrderController.PlaceOrderStock | backend/controllers/orderController.js:55-57 | a successful checkout takes each product's summed cart quantity off its stock |
| OrderController.PlaceOrderFailure | backend/controllers/orderController.js:24-68 | a failed checkout stores no order and keeps the cart, yet keeps the decrements of the lines before the failure (or of every line when the order document is refused) |
| OrderController.StopIndexOnSuccess | backend/controllers/orderController.js:24-58 | a checkout that passes walks every line |
| OrderController.PlaceOrderStoppingProductUntouched | backend/controllers/orderController.js:31-35 | the product whose stock check failed keeps its stock, for a cart with one line per product, which every valid store has |
| OrderController.PlaceOrderKeepsStoreValid | backend/controllers/orderController.js:8-79 | checkout keeps the store valid: valid products, unique category names, carts of valid lines with one line per product, numbered orders of valid lines |
| OrderController.CheckoutLines | backend/controllers/orderController.js:24-58 | the loop's order lines, total, stopping error and saved stock are exactly those of the checkout walk; no other collection changes |
| OrderController.CreateOrder | backend/controllers/orderController.js:8-79 | the reply and the new store are exactly PlaceOrder's, and a valid store stays valid |
| OrderController.CancelOrder | backend/controllers/orderController.js:186-221 | 404, then 403 for a stranger who is not admin, then 400 unless pending; otherwise stock is restored for surviving products and the order becomes cancelled; a valid store stays valid |
| OrderController.CancelRestoresQuantities | backend/controllers/orderController.js:205-214 | cancelling gives every product back its ordered quantity and keeps the order number |
| OrderController.RestoredKeepsCatalogValid | backend/controllers/orderController.js:205-211 | restoring stock keeps the catalog valid |
| OrderController.UpdateOrderStatus | backend/controllers/orderController.js:160-181 | 404 for an unknown order, 500 for a name outside the enum; otherwise the status is set and 'delivered' stamps deliveredAt; a valid store stays valid |
| OrderController.StatusUpdateStampsDelivery | backend/controllers/orderController.js:169-172 | the new status is the one named, deliveredAt is set exactly for delivered, and the number is kept |
| OrderController.NewerFirstIsTotalPreorder | backend/controllers/orderController.js:139 | newest-first is a total preorder, so the sort is well defined |
| OrderController.MatchingOrders | backend/controllers/orderController.js:129-132 | the listed orders are exactly the stored orders with the requested status, or all orders when no status is given, each as often as it is stored |
| OrderController.AllOrdersSpec | backend/controllers/orderController.js:125-155 | the page holds only matching orders, newest first, at most `limit` of them; the total counts every match |
| Listing.StrLeTotal | backend/controllers/categoryController.js:8 | the name order compares any two names |
| Listing.StrLeTransitive | backend/controllers/categoryController.js:8 | the name order is transitive |
| Listing.StrLeAntisymmetric | backend/controllers/categoryController.js:8 | two names ordered both ways are equal |
| Listing.SortBy | backend/controllers/productController.js:39-43 | sorting permutes the documents |
| Listing.SortBySorted | backend/controllers/productController.js:39-43 | with a total preorder, the result is sorted and a permutation of the input |
| Listing.Filter | backend/controllers/productController.js:39 | `find(query)` keeps exactly the documents that satisfy the query |
| Listing.FilterCounts | backend/controllers/productController.js:39 | `find(query)` keeps each accepted document as often as it is stored and drops every other |
| Listing.FilterAppend | backend/controllers/productController.js:39 | filtering a concatenation is the concatenation of the filtered parts, so the kept documents stay in storage order |
| Listing.Window | backend/controllers/productController.js:41-43 | skip/limit returns the documents from the skip on: none past the end, all the rest for limit 0, else as many as the absolute value of limit or as remain, whichever is fewer |
| Listing.PageCount | backend/controllers/productController.js:50 | `Math.ceil(total / limit)`; none for limit 0 |
| Listing.SkipFor | backend/controllers/productController.js:37 | `(page - 1) * limit`, negative exactly when the page is below 1 |
| Listing.Paginate | backend/controllers/productController.js:37-52 | a negative skip is refused; otherwise the page is the window, total is the match count and pages is PageCount |
| Listing.SortedPage | backend/controllers/orderController.js:134-148 | a page of sorted matches is sorted, holds only matches, is within the limit and reports the full total |
| Listing.DefaultsGiveFirstPage | backend/controllers/productController.js:8-52 | without page and limit, the defaults 1 and 20 give the first twenty matches, the page count rounded up from total / 20, and the full total |
| Listing.PagesTile | backend/controllers/productController.js:37 | consecutive pages are adjacent slices of the sorted matches |
| Payment.StatusLiteralValidation | backend/routes/payment.js:138 | the capitalised 'Paid' and 'Failed' are refused by the enum; the corrected lowercase names are accepted |
| Payment.RoundHalfUp | backend/routes/payment.js:30 | `Math.round` gives the integer within half a unit |
| Payment.CreatePaymentOrder | backend/routes/payment.js:18-34 | 400 iff the amount is missing or ≤ 0; otherwise the request is the amount in paise, the currency (default INR), the receipt (default receipt_<time>) and capture 1 |
| Payment.PaiseExact | backend/routes/payment.js:29-34 | an amount of whole paise is sent exactly |
| Payment.DefaultReceiptsDistinct | backend/routes/payment.js:32 | default receipts made at different times differ |
| Payment.CheckPaymentSignature | backend/routes/payment.js:66-85 | passes iff all three ids are present and the signature is the HMAC of the order id and payment id joined by a bar; else 'Missing payment details' or 'Invalid payment signature' |
| Payment.FirstOrder | backend/routes/payment.js:88 | `findOne` yields the first matching order, or none when no order matches |
| Payment.PaidItems | backend/routes/payment.js:109-122 | one order line per cart line |
| Payment.PriceLines | backend/routes/payment.js:108-122 | the loop stops exactly when a line's product is gone; otherwise it yields the order lines and the cart amount |
| Payment.Verify | backend/routes/payment.js:57-170 | the result and new store are exactly VerifyPayment's, and a valid store stays valid |
| Payment.VerifyKeepsStoreValid | backend/routes/payment.js:57-170 | verification keeps the store valid: a stored order has valid lines and a number, and the cart it empties is valid |
| Payment.VerifyLeavesCatalog | backend/routes/payment.js:57-170 | verification never changes products or categories |
| Payment.VerifyChecksSignature | backend/routes/payment.js:66-85 | missing ids change nothing; success needs the three ids and a valid signature |
| Payment.AsWrittenVerifyNeverCreates | backend/routes/payment.js:125-145 | as written, verification never stores an order: past the checks, with a non-empty cart, it always answers with status 500 |
| Payment.CorrectedVerifyCreates | backend/routes/payment.js:125-151 | corrected, a valid first verification stores one paid, online, pending, numbered order with the gateway ids, the cart's priced lines and amount, the given address or the caller's default one, the given notes or 'Paid via Razorpay UPI', and the current time, and empties the cart; products and categories are unchanged |
| Payment.PaidItemsQuantities | backend/routes/payment.js:116-121 | each order line keeps its cart line's product and quantity |
| Payment.VerifyIdempotent | backend/routes/payment.js:87-95 | repeating a successful verification returns the same order and changes nothing |
| Payment.CorrectedItemsSumToTotal | backend/routes/payment.js:108-122 | corrected, the order-line prices sum to the total charged |
| Payment.AsWrittenItemsMissTotal | backend/routes/payment.js:120 | as written, two pieces at 45 make a total of 90 while the lines sum to 45 |
| Payment.CorrectedPricesMatchCheckout | backend/routes/payment.js:110-120 | corrected, each line is priced as the cash-on-delivery checkout prices it |
| Payment.HandleWebhook | backend/routes/payment.js:175-238 | the handler's result and new orders are exactly WebhookOutcome's; nothing else changes, and a valid store stays valid |
| Payment.WebhookNullPaths | backend/routes/payment.js:197-231 | a body without `payload.payment` is a 500 for every event; a payment without an entity is a 500 only for captured and failed events; other events are acknowledged and change nothing |
| Payment.WebhookKeepsOrdersValid | backend/routes/payment.js:204-231 | a webhook save keeps every order's lines and number, so valid orders stay valid |
| Payment.WebhookChecksSignature | backend/routes/payment.js:177-195 | a missing or wrong signature is refused with status 400 and no change; success implies a valid signature; no order is added or removed |
| Payment.AsWrittenWebhookNeverSaves | backend/routes/payment.js:204-231 | as written, no webhook changes any order; a captured or failed event for a known order is a 500 |
| Payment.CorrectedCaptureOutcome | backend/routes/payment.js:204-217 | corrected, a capture marks the first order with the gateway order id paid, with payment id and time, unless it is already paid |
| Payment.CorrectedCaptureMarksPaid | backend/routes/payment.js:204-217 | corrected, after a capture the matched order is paid and every other order is unchanged |
| Payment.CaptureWithoutOrderIdHitsUnlinkedOrder | backend/routes/payment.js:204-217 | a captured payment whose `order_id` is null matches the first order without a gateway order id (the schema default, as on cash-on-delivery orders): as written the event is a 500, and as corrected that unrelated order is marked paid |
| Payment.CorrectedCaptureIdempotent | backend/routes/payment.js:204-217 | corrected, a redelivered capture event changes nothing more |
| Payment.CorrectedFailureOverridesPaid | backend/routes/payment.js:220-231 | corrected, a failed event marks the matched order failed, even a paid one |
| ProductController.SortOrdersAreTotal | backend/controllers/productController.js:32-35 | every sort option is a total preorder |
| ProductController.ListProductsSpec | backend/controllers/productController.js:6-57 | the page holds only available products that pass every filter, in the requested order, within the limit; total and pages count every match |
| ProductController.ListProductsRejectsPageZero | backend/controllers/productController.js:37 | with a positive limit, a page below 1 gives a negative skip, which the query refuses |
| ProductController.FeaturedProducts | backend/controllers/productController.js:197-208 | the first 8 (or all, when fewer) featured, available products with stock, in storage order |
| ProductController.FeaturedAreInStock | backend/controllers/productController.js:199 | every featured product listed is in stock by the virtual |
| ProductController.FeaturedFillsUp | backend/controllers/productController.js:199-201 | with at least 8 candidates exactly 8 are listed; with fewer, every candidate is listed |
| ProductController.CreateDraft | backend/controllers/productController.js:101-111 | the unit defaults to 'piece' when not given or empty; stock and the featured flag are always sent; availability is left to the schema |
| ProductController.CreateDefaults | backend/controllers/productController.js:101-111 | a created product is available, with unit piece, stock 0, not featured and image '' when those are not given |
| ProductController.CreateValidation | backend/controllers/productController.js:97-119 | creation fails iff the name, price or category is missing, price or stock is negative, or the unit is outside the enum |
| ProductController.CreateProduct | backend/controllers/productController.js:97-119 | a valid draft is stored under the new id; otherwise 500 and no change; a valid store stays valid |
| ProductController.MergeProduct | backend/controllers/productController.js:130-142 | a merged product that saves is valid and keeps its creation time |
| ProductController.MergeFields | backend/controllers/productController.js:131-140 | string fields and the category take truthy values (a missing or empty category id is `None` in the body); price, stock and both flags take any given value, true, false and 0 included; every field not given keeps its old value, and the creation time is kept |
| ProductController.MergeEmptyIsIdentity | backend/controllers/productController.js:131-140 | an empty update leaves a valid product unchanged |
| ProductController.MergeIdempotent | backend/controllers/productController.js:131-140 | applying the same update twice equals applying it once |
| ProductController.MergeValidation | backend/controllers/productController.js:131-142 | the save fails iff the resulting price or stock is negative or the unit is outside the enum |
| ProductController.UpdateProduct | backend/controllers/productController.js:124-152 | 404 for an unknown product, 500 for a merge the schema refuses, else the merge is stored; a valid store stays valid |
| ProductController.SetStock | backend/controllers/productController.js:162-165 | setting stock succeeds iff a stock ≥ 0 is given; only the stock changes, and the product is in stock iff the new stock is positive and it is available |
| ProductController.SetStockRoundTrip | backend/controllers/productController.js:157-173 | setting a stock and then setting the old stock back restores the product |
| ProductController.UpdateStock | backend/controllers/productController.js:157-173 | 404 for an unknown product, 500 for a refused stock, else only the stock changes; a valid store stays valid |
| ProductController.RemoveProduct | backend/controllers/productController.js:178-192 | 404 iff the product is unknown; otherwise exactly that product is gone |
| ProductController.RemoveProductKeepsCatalogValid | backend/controllers/productController.js:183 | deletion keeps the catalog valid and the product gone |
| ProductController.DeleteProduct | backend/controllers/productController.js:178-192 | the store changes exactly as RemoveProduct says; a valid store stays valid |
| CategoryController.NameOrderIsTotal | backend/controllers/categoryController.js:8 | the name order is a total preorder |
| CategoryController.ActiveCategoriesSpec | backend/controllers/categoryController.js:6-14 | the list holds exactly the active categories, each as often as stored, in name order |
| CategoryController.GetCategory | backend/controllers/categoryController.js:19-31 | 404 iff the id is unknown, else that category |
| CategoryController.AddCategorySpec | backend/controllers/categoryController.js:36-57 | creation succeeds iff a non-empty name is given that no category has; a taken name gives 'Category already exists'; a new category is active with the given subcategories or none |
| CategoryController.AddCategoryKeepsNamesUnique | backend/controllers/categoryController.js:40-50 | creation keeps category names unique |
| CategoryController.CreateCategory | backend/controllers/categoryController.js:36-57 | the store changes exactly as AddCategory says; a valid store stays valid |
| CategoryController.ReviseCategorySpec | backend/controllers/categoryController.js:62-84 | 404 for an unknown id; otherwise the merge of lines 69-73 is stored unless the unique index refuses the new name |
| CategoryController.ReviseWithoutRenameSucceeds | backend/controllers/categoryController.js:69-75 | an update that does not rename always saves |
| CategoryController.ReviseCategoryKeepsNamesUnique | backend/controllers/categoryController.js:62-84 | updates keep category names unique |
| CategoryController.UpdateCategory | backend/controllers/categoryController.js:62-84 | the store changes exactly as ReviseCategory says; a valid store stays valid |
| CategoryController.RemoveCategory | backend/controllers/categoryController.js:89-103 | 404 iff the id is unknown; otherwise exactly that category is gone |
| CategoryController.RemoveCategoryFreesName | backend/controllers/categoryController.js:94 | after a deletion, the deleted category's name is free again |
| CategoryController.DeleteCategory | backend/controllers/categoryController.js:89-103 | the store changes exactly as RemoveCategory says; a valid store stays valid |
| CategoryController.WithSubcategory | backend/controllers/categoryController.js:114 | the push appends one subcategory and keeps everything else |
| CategoryController.SubcategoriesInOrder | backend/controllers/categoryController.js:114 | successive pushes keep their order |
| CategoryController.AddSubcategory | backend/controllers/categoryController.js:108-124 | 404 for an unknown id, else the category with the subcategory appended is stored; a valid store stays valid |

## Left out

- Requests, responses and the database are not executed or modelled as I/O. A handler is a method on `Store.Db`; the clock, the HMAC function and its secret, the JSON parser and fresh document ids are parameters.
- Reads of populated references are not modelled separately, except in checkout. There the cart's populated products (`populated`) and the live `findById` reads (`live`) are kept apart.
- The response JSON shapes (`populate` projections, `success`/`message` fields, the `key_id` of create-order) are not modelled. An operation returns the document or the error it sends.
- Interleaving of concurrent requests is not modelled. Each handler runs atomically. Checkout's per-line product saves are therefore modelled as one sequence of edits.
- Floating-point arithmetic is not modelled. Prices, weights and totals are exact reals, and `Math.round` is `Payment.RoundHalfUp`.
- String trimming, case-insensitive regular-expression search, the distinction between `null` and `undefined`, and `parseInt` of non-numeric text are not modelled. Search is an abstract `nameMatches` predicate, and query numbers are given as integers. The caller applies the defaults `page = 1` and `limit = 20` (productController.js:8, orderController.js:127; `Listing.DefaultPage` and `Listing.DefaultLimit`) before calling `ListProducts` or `AllOrders`.
- The relative order of documents that tie under a sort key is not modelled. Mongo leaves it unspecified; the model uses a stable sort of the storage order, given as a `docs` sequence.
- The razorpay client call that sends the gateway-order request is not modelled. `Payment.CreatePaymentOrder` builds the request; the gateway's answer and its failures are out of scope.
- The internals of HMAC-SHA256 are not modelled. Signatures are an abstract function `hmac(secret, message)`.
- getOrders, getOrderById, getProductById and getProductsByCategory are plain reads that are not part of this model.
- The auth routes, the `protect`/`admin` middleware, the front end, seed.js and test_api.js are not part of this model. Admin-only operations are not gated here; cancelOrder's own owner-or-admin check is modelled.
- The Cart, Category and User schema files are not part of this model. Cart lines are taken to need a quantity of at least 1, so a line whose quantity is unset is refused when saved (`UpdateCartItem` with no `quantity` answers 500). A category is taken to need a non-empty, unique `name`, with `isActive` defaulting to true.
- Payment.PaidItems: the model does not give verification's order lines the product's name or unit. The code passes neither, so the lines get no name and the schema default 'piece'.
- CategoryController.AddCategorySpec: `findOne({ name: undefined })` is modelled as matching no category, so a missing name fails validation (500) rather than the duplicate check.
- OrderController.UpdateOrderStatus: the model does not handle a request without a `status` field, because the status is given as a string.

## Findings

| source | as written | input that shows it | evidently intended | confidence | as-written member | corrected member |
|---|---|---|---|---|---|---|
| backend/routes/payment.js:138 | `paymentStatus: 'Paid'` in the verify route; the enum allows only 'pending', 'paid' and 'failed', so `Order.create` is refused | any verify request with a valid signature, a new payment id and a non-empty cart: 500 and no order, although the customer has paid | store the lowercase 'paid' | not executed | Payment.AsWrittenVerifyNeverCreates | Payment.CorrectedVerifyCreates |
| backend/routes/payment.js:209-210, 226 | the webhook compares with and writes 'Paid', and writes 'Failed'; the save is refused and the comparison is always true | a signed `payment.captured` or `payment.failed` event whose `order_id` matches a stored order: 500, order unchanged | compare with and write 'paid', write 'failed' | not executed | Payment.AsWrittenWebhookNeverSaves | Payment.CorrectedCaptureMarksPaid |
| backend/routes/payment.js:120 | each order line stores the product's unit price, not the line total the checkout route stores | a cart of two pieces at 45: the order total is 90 but its line prices sum to 45 | `price: itemTotal`, as in the cash-on-delivery checkout | not executed | Payment.AsWrittenItemsMissTotal | Payment.CorrectedItemsSumToTotal |
