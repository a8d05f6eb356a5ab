/** The payment routes: the gateway order request built from an amount, the
    verification of a completed payment (which materialises the order from
    the cart) and the gateway's webhook (which reconciles an order's payment
    status).

    Two lines of the verification and webhook code write payment statuses
    the order schema does not accept, and verification stores each line's
    unit price where checkout stores the line total. `Variant` selects the
    code as written or as evidently intended; the lemmas state what each
    does. The HMAC-SHA256 signer is a parameter: only the comparison of its
    output with the signature sent is modelled. */
module Payment {
  import opened Common
  import opened ProductModel
  import opened OrderModel
  import opened Store
  import opened OrderController

  datatype Variant = AsWritten | Corrected

  /** The payment-status literal a write uses. The code as written capitalises
      'Paid' and 'Failed'; the schema's values are lower case. */
  function StatusLiteral(variant: Variant, p: PaymentStatus): (s: string)
    ensures variant == Corrected ==> s == PaymentStatusName(p)
  {
    match (variant, p)
    case (AsWritten, Paid) => "Paid"
    case (AsWritten, Failed) => "Failed"
    case _ => PaymentStatusName(p)
  }

  /** The capitalised literals fail the enum validator; the corrected ones pass. */
  lemma StatusLiteralValidation(p: PaymentStatus)
    ensures p != Unpaid ==> ParsePaymentStatus(StatusLiteral(AsWritten, p)).None?
    ensures ParsePaymentStatus(StatusLiteral(Corrected, p)) == Some(p)
  {
  }

  // ---------------------------------------------------------------- create-order

  /** The order request sent to the gateway: an amount in paise, a currency
      and a receipt label, with automatic capture on. */
  datatype GatewayRequest = GatewayRequest(amount: int, currency: string, receipt: string, paymentCapture: int)

  /** `Math.round`: to the nearest integer, halves upwards. */
  function RoundHalfUp(x: real): (n: int)
    ensures x - 0.5 < n as real <= x + 0.5
  {
    (x + 0.5).Floor
  }

  /** POST /api/payment/create-order: a missing, zero or negative amount is
      refused; otherwise the amount is converted to whole paise, the currency
      defaults to INR and the receipt to one stamped with the time. */
  function CreatePaymentOrder(amount: Option<real>, currency: Option<string>, receipt: Option<string>, now: nat): (r: Result<GatewayRequest>)
    ensures r.Err? <==> amount.None? || amount.value <= 0.0
    ensures r.Err? ==> r.error == InvalidAmount
    ensures r.Ok? ==> r.value.amount >= 0 && r.value.amount as real - 0.5 <= amount.value * 100.0 < r.value.amount as real + 0.5
    ensures r.Ok? ==> r.value.currency == currency.GetOr("INR") && r.value.paymentCapture == 1
    ensures r.Ok? && Present(receipt) ==> r.value.receipt == receipt.value
    ensures r.Ok? && !Present(receipt) ==> r.value.receipt == "receipt_" + Decimal(now)
  {
    if !Truthy(amount) || amount.value <= 0.0 then Err(InvalidAmount)
    else Ok(GatewayRequest(RoundHalfUp(amount.value * 100.0), currency.GetOr("INR"), StringOr(receipt, "receipt_" + Decimal(now)), 1))
  }

  /** An amount given to the paisa is sent exactly. */
  lemma PaiseExact(paise: nat, currency: Option<string>, receipt: Option<string>, now: nat)
    requires paise >= 1
    ensures CreatePaymentOrder(Some(paise as real / 100.0), currency, receipt, now) == Ok(GatewayRequest(paise, currency.GetOr("INR"), StringOr(receipt, "receipt_" + Decimal(now)), 1))
  {
    var x := paise as real / 100.0;
    assert x * 100.0 == paise as real;
    assert x > 0.0;
    var n := RoundHalfUp(paise as real);
    assert paise as real - 0.5 < n as real <= paise as real + 0.5;
    assert n == paise;
  }

  /** Default receipts made at different times differ. */
  lemma DefaultReceiptsDistinct(now: nat, now': nat)
    requires now != now'
    ensures "receipt_" + Decimal(now) != "receipt_" + Decimal(now')
  {
    var a, b := "receipt_" + Decimal(now), "receipt_" + Decimal(now');
    assert a[8..] == Decimal(now) && b[8..] == Decimal(now');
    DecimalInjective(now, now');
  }

  // ---------------------------------------------------------------- verify

  /** What the client sends with a completed payment. */
  datatype OrderData = OrderData(shippingAddress: Option<Address>, notes: Option<string>)

  datatype VerifyRequest = VerifyRequest(
    orderId: Option<string>,
    paymentId: Option<string>,
    signature: Option<string>,
    orderData: Option<OrderData>)

  /** The signature the gateway puts on a payment: the HMAC of
      "<order id>|<payment id>" under the key secret. */
  function PaymentSignature(hmac: (string, string) -> string, secret: string, orderId: string, paymentId: string): string {
    hmac(secret, orderId + "|" + paymentId)
  }

  /** The request checks before any lookup: all three gateway fields present,
      and the signature the one the gateway would have made. */
  function CheckPaymentSignature(hmac: (string, string) -> string, secret: string, req: VerifyRequest): (r: Option<ApiError>)
    ensures r.None? <==>
      Present(req.orderId) && Present(req.paymentId) && Present(req.signature) &&
      req.signature.value == PaymentSignature(hmac, secret, req.orderId.value, req.paymentId.value)
    ensures r.Some? && !(Present(req.orderId) && Present(req.paymentId) && Present(req.signature)) ==> r == Some(MissingPaymentDetails)
    ensures r.Some? && Present(req.orderId) && Present(req.paymentId) && Present(req.signature) ==> r == Some(InvalidPaymentSignature)
  {
    if !Present(req.orderId) || !Present(req.paymentId) || !Present(req.signature) then Some(MissingPaymentDetails)
    else if req.signature.value != PaymentSignature(hmac, secret, req.orderId.value, req.paymentId.value) then Some(InvalidPaymentSignature)
    else None
  }

  /** The two `findOne` filters on orders: by gateway payment id and by
      gateway order id. A `null` value in the filter matches the orders whose
      field is still `null`, the schema default. */
  datatype OrderKey = ByPaymentId(paymentId: Option<string>) | ByGatewayOrder(orderId: Option<string>)

  predicate Matches(o: Order, key: OrderKey) {
    match key
    case ByPaymentId(pid) => o.razorpayPaymentId == pid
    case ByGatewayOrder(oid) => o.razorpayOrderId == oid
  }

  /** `findOne`: the position of the first order the filter matches. */
  function FirstOrder(orders: seq<Order>, key: OrderKey): (k: Option<nat>)
    ensures k.Some? ==> k.value < |orders| && Matches(orders[k.value], key) && forall j :: 0 <= j < k.value ==> !Matches(orders[j], key)
    ensures k.None? ==> forall j :: 0 <= j < |orders| ==> !Matches(orders[j], key)
  {
    if orders == [] then None
    else if Matches(orders[0], key) then Some(0)
    else
      var k := FirstOrder(orders[1..], key);
      if k.Some? then Some(k.value + 1) else None
  }

  /** Every line's product still exists, so the populate filled it in. */
  predicate AllInCatalog(products: map<ProductId, Product>, lines: seq<CartItem>) {
    forall i :: 0 <= i < |lines| ==> lines[i].product in products
  }

  /** The order line verification makes of a cart line: no name and the
      default unit; as written its price is the unit price, as corrected the
      line total. */
  function PaidItem(variant: Variant, p: Product, line: CartItem): OrderItem {
    OrderItem(line.product, None, line.quantity, line.weight,
              if variant == AsWritten then p.price else LinePrice(p, line.quantity, line.weight), Piece)
  }

  function PaidItems(variant: Variant, products: map<ProductId, Product>, lines: seq<CartItem>): (items: seq<OrderItem>)
    requires AllInCatalog(products, lines)
    ensures |items| == |lines|
  {
    if lines == [] then []
    else
      var last := lines[|lines| - 1];
      PaidItems(variant, products, lines[..|lines| - 1]) + [PaidItem(variant, products[last.product], last)]
  }

  /** Σ line price over the cart. */
  function CartAmount(products: map<ProductId, Product>, lines: seq<CartItem>): real
    requires AllInCatalog(products, lines)
  {
    if lines == [] then 0.0
    else
      var last := lines[|lines| - 1];
      CartAmount(products, lines[..|lines| - 1]) + LinePrice(products[last.product], last.quantity, last.weight)
  }

  /** The address used when the client sends none. */
  function DefaultAddress(caller: Caller): Address {
    Address(caller.name, StringOr(caller.phone, ""), "To be updated", "To be updated", "To be updated", "000000")
  }

  /** The order a verified payment creates, before the pre-save hook numbers it. */
  function PaidOrder(caller: Caller, data: OrderData, orderId: string, paymentId: string, signature: string,
                     items: seq<OrderItem>, total: real, status: PaymentStatus, now: nat): Order {
    Order(caller.id, None, items, total, Some(data.shippingAddress.GetOr(DefaultAddress(caller))), Online, status, Pending,
          Some(StringOr(data.notes, "Paid via Razorpay UPI")), Some(orderId), Some(paymentId), Some(signature),
          Some(now as int), now, None)
  }

  /** POST /api/payment/verify as a function of the store. */
  function VerifyPayment(variant: Variant, st: State, caller: Caller, req: VerifyRequest,
                         hmac: (string, string) -> string, secret: string, now: nat): (Result<Order>, State)
  {
    var bad := CheckPaymentSignature(hmac, secret, req);
    if bad.Some? then (Err(bad.value), st)
    else
      var existing := FirstOrder(st.orders, ByPaymentId(req.paymentId));
      if existing.Some? then (Ok(st.orders[existing.value]), st)
      else if caller.id !in st.carts || |st.carts[caller.id].items| == 0 then (Err(CartEmpty), st)
      else
        var lines := st.carts[caller.id].items;
        if !AllInCatalog(st.products, lines) || req.orderData.None? then (Err(ServerError(NullDereference)), st)
        else
          var status := ParsePaymentStatus(StatusLiteral(variant, Paid));
          var items := PaidItems(variant, st.products, lines);
          if status.None? || !ItemsValid(items) then (Err(ServerError(ValidationFailed)), st)
          else
            var o := AssignOrderNumber(PaidOrder(caller, req.orderData.value, req.orderId.value, req.paymentId.value,
                                                 req.signature.value, items, CartAmount(st.products, lines), status.value, now),
                                       now, |st.orders|);
            (Ok(o), st.(orders := st.orders + [o], carts := st.carts[caller.id := Cart([])]))
  }

  /** Verification keeps the store valid: an order it creates has lines of
      quantity at least one and a number, and the only cart it touches is
      emptied. */
  lemma VerifyKeepsStoreValid(variant: Variant, st: State, caller: Caller, req: VerifyRequest,
                              hmac: (string, string) -> string, secret: string, now: nat)
    requires ValidState(st)
    ensures ValidState(VerifyPayment(variant, st, caller, req, hmac, secret, now).1)
  {
    var (r, st') := VerifyPayment(variant, st, caller, req, hmac, secret, now);
    if r.Ok? && |st'.orders| > |st.orders| {
      assert st'.orders == st.orders + [r.value];
      assert ValidOrder(r.value);
      assert forall k :: 0 <= k < |st.orders| ==> st'.orders[k] == st.orders[k];
    }
  }

  /** The loop over the cart at verification: each line priced from the
      catalog, stopping at the first line whose product no longer exists. */
  method PriceLines(db: Db, variant: Variant, lines: seq<CartItem>)
      returns (orderItems: seq<OrderItem>, totalAmount: real, missing: bool)
    ensures missing <==> !AllInCatalog(db.products, lines)
    ensures !missing ==> orderItems == PaidItems(variant, db.products, lines) && totalAmount == CartAmount(db.products, lines)
  {
    orderItems, totalAmount := [], 0.0;
    var i := 0;
    while i < |lines|
      invariant 0 <= i <= |lines|
      invariant AllInCatalog(db.products, lines[..i])
      invariant orderItems == PaidItems(variant, db.products, lines[..i])
      invariant totalAmount == CartAmount(db.products, lines[..i])
    {
      var line := lines[i];
      if line.product !in db.products {
        return orderItems, totalAmount, true;
      }
      var product := db.products[line.product];
      assert lines[..i + 1][..i] == lines[..i];
      totalAmount := totalAmount + LinePrice(product, line.quantity, line.weight);
      orderItems := orderItems + [PaidItem(variant, product, line)];
      i := i + 1;
    }
    assert lines[..i] == lines;
    missing := false;
  }

  /** POST /api/payment/verify. */
  method Verify(db: Db, variant: Variant, caller: Caller, req: VerifyRequest,
                hmac: (string, string) -> string, secret: string, now: nat) returns (r: Result<Order>)
    modifies db
    ensures ValidState(old(db.View())) ==> ValidState(db.View())
    ensures (r, db.View()) == VerifyPayment(variant, old(db.View()), caller, req, hmac, secret, now)
  {
    if ValidState(db.View()) {
      VerifyKeepsStoreValid(variant, db.View(), caller, req, hmac, secret, now);
    }
    var bad := CheckPaymentSignature(hmac, secret, req);
    if bad.Some? {
      return Err(bad.value);
    }
    var existing := FirstOrder(db.orders, ByPaymentId(req.paymentId));
    if existing.Some? {
      return Ok(db.orders[existing.value]);
    }
    if caller.id !in db.carts || |db.carts[caller.id].items| == 0 {
      return Err(CartEmpty);
    }
    var lines := db.carts[caller.id].items;
    var orderItems, totalAmount, missing := PriceLines(db, variant, lines);
    if missing {
      return Err(ServerError(NullDereference));
    }
    if req.orderData.None? {
      return Err(ServerError(NullDereference));
    }
    var status := ParsePaymentStatus(StatusLiteral(variant, Paid));
    if status.None? || !ItemsValid(orderItems) {
      return Err(ServerError(ValidationFailed));
    }
    var order := AssignOrderNumber(PaidOrder(caller, req.orderData.value, req.orderId.value, req.paymentId.value,
                                             req.signature.value, orderItems, totalAmount, status.value, now),
                                   now, |db.orders|);
    db.orders := db.orders + [order];
    db.carts := db.carts[caller.id := Cart([])];
    r := Ok(order);
  }

  /** Verification never touches the catalog or the categories: stock is
      neither checked nor decremented. */
  lemma VerifyLeavesCatalog(variant: Variant, st: State, caller: Caller, req: VerifyRequest,
                            hmac: (string, string) -> string, secret: string, now: nat)
    ensures var st' := VerifyPayment(variant, st, caller, req, hmac, secret, now).1;
      st'.products == st.products && st'.categories == st.categories
  {
  }

  /** A request with a missing field or a wrong signature is refused and
      nothing changes; an accepted one carried the gateway's signature. */
  lemma VerifyChecksSignature(variant: Variant, st: State, caller: Caller, req: VerifyRequest,
                              hmac: (string, string) -> string, secret: string, now: nat)
    ensures var (r, st') := VerifyPayment(variant, st, caller, req, hmac, secret, now);
      && (!(Present(req.orderId) && Present(req.paymentId) && Present(req.signature)) ==>
            r == Err(MissingPaymentDetails) && st' == st)
      && (r.Ok? ==>
            (Present(req.orderId) && Present(req.paymentId) && Present(req.signature) &&
             req.signature.value == PaymentSignature(hmac, secret, req.orderId.value, req.paymentId.value)))
  {
  }

  /** As written, verification never creates an order and never empties the
      cart: every request that gets past the cart check ends in a 500. */
  lemma AsWrittenVerifyNeverCreates(st: State, caller: Caller, req: VerifyRequest,
                                    hmac: (string, string) -> string, secret: string, now: nat)
    ensures var (r, st') := VerifyPayment(AsWritten, st, caller, req, hmac, secret, now);
      && st' == st
      && (r.Ok? ==> r.value in st.orders)
      && ((CheckPaymentSignature(hmac, secret, req).None? &&
           FirstOrder(st.orders, ByPaymentId(req.paymentId)).None? &&
           caller.id in st.carts && |st.carts[caller.id].items| > 0) ==> r.Err? && HttpStatus(r.error) == 500)
  {
    StatusLiteralValidation(Paid);
  }

  /** As corrected, a verified payment with a non-empty cart of valid lines
      whose products all exist creates one online, paid, pending order that
      carries the three gateway values, and empties the cart. */
  lemma CorrectedVerifyCreates(st: State, caller: Caller, req: VerifyRequest,
                               hmac: (string, string) -> string, secret: string, now: nat)
    requires CheckPaymentSignature(hmac, secret, req).None?
    requires FirstOrder(st.orders, ByPaymentId(req.paymentId)).None?
    requires caller.id in st.carts && |st.carts[caller.id].items| > 0
    requires AllInCatalog(st.products, st.carts[caller.id].items) && LinesValid(st.carts[caller.id].items)
    requires req.orderData.Some?
    ensures var (r, st') := VerifyPayment(Corrected, st, caller, req, hmac, secret, now);
      && r.Ok?
      && st'.orders == st.orders + [r.value]
      && st'.carts == st.carts[caller.id := Cart([])]
      && r.value.user == caller.id && r.value.paymentMethod == Online && r.value.paymentStatus == Paid
      && r.value.status == Pending && r.value.paidAt == Some(now as int) && r.value.orderNumber.Some?
      && r.value.razorpayOrderId == req.orderId && r.value.razorpayPaymentId == req.paymentId
      && r.value.razorpaySignature == req.signature
      && r.value.totalAmount == CartAmount(st.products, st.carts[caller.id].items)
      && |r.value.items| == |st.carts[caller.id].items|
      && r.value.items == PaidItems(Corrected, st.products, st.carts[caller.id].items)
      && r.value.shippingAddress == Some(req.orderData.value.shippingAddress.GetOr(DefaultAddress(caller)))
      && r.value.notes == Some(StringOr(req.orderData.value.notes, "Paid via Razorpay UPI"))
      && r.value.createdAt == now && r.value.deliveredAt.None?
      && st'.products == st.products && st'.categories == st.categories
  {
    var lines := st.carts[caller.id].items;
    var items := PaidItems(Corrected, st.products, lines);
    PaidItemsQuantities(Corrected, st.products, lines);
  }

  /** Order lines made at verification keep the cart's quantities. */
  lemma {:induction false} PaidItemsQuantities(variant: Variant, products: map<ProductId, Product>, lines: seq<CartItem>)
    requires AllInCatalog(products, lines)
    ensures forall k :: 0 <= k < |lines| ==>
      (PaidItems(variant, products, lines)[k].quantity == lines[k].quantity &&
       PaidItems(variant, products, lines)[k].product == lines[k].product)
    decreases |lines|
  {
    if lines != [] {
      var n := |lines| - 1;
      assert AllInCatalog(products, lines[..n]);
      PaidItemsQuantities(variant, products, lines[..n]);
      forall k | 0 <= k < n ensures lines[..n][k] == lines[k] { }
    }
  }

  /** Verifying the same payment twice creates one order: the second call
      returns the order the first made and changes nothing. */
  lemma VerifyIdempotent(variant: Variant, st: State, caller: Caller, req: VerifyRequest,
                         hmac: (string, string) -> string, secret: string, now: nat, later: nat)
    requires VerifyPayment(variant, st, caller, req, hmac, secret, now).0.Ok?
    ensures var (r, st') := VerifyPayment(variant, st, caller, req, hmac, secret, now);
      VerifyPayment(variant, st', caller, req, hmac, secret, later) == (r, st')
  {
    var (r, st') := VerifyPayment(variant, st, caller, req, hmac, secret, now);
    var p := ByPaymentId(req.paymentId);
    if FirstOrder(st.orders, p).None? {
      assert st'.orders == st.orders + [r.value];
      assert Matches(st'.orders[|st.orders|], p);
      assert forall j :: 0 <= j < |st.orders| ==> st'.orders[j] == st.orders[j];
    }
  }

  /** As corrected, each order line's price is its line total, so the lines
      add up to the order's total. */
  lemma {:induction false} CorrectedItemsSumToTotal(products: map<ProductId, Product>, lines: seq<CartItem>)
    requires AllInCatalog(products, lines)
    ensures SumPrices(PaidItems(Corrected, products, lines)) == CartAmount(products, lines)
    decreases |lines|
  {
    if lines != [] {
      var n := |lines| - 1;
      assert AllInCatalog(products, lines[..n]);
      CorrectedItemsSumToTotal(products, lines[..n]);
      var items := PaidItems(Corrected, products, lines);
      assert items[..n] == PaidItems(Corrected, products, lines[..n]);
    }
  }

  /** As written, two pieces at 45 make an order of total 90 whose single line
      shows 45. */
  lemma AsWrittenItemsMissTotal(p: Product)
    requires p.price == 45.0 && p.priceUnit == Piece
    ensures var products := map[0 := p];
      var lines := [CartItem(0, 2, None)];
      && AllInCatalog(products, lines)
      && CartAmount(products, lines) == 90.0
      && SumPrices(PaidItems(AsWritten, products, lines)) == 45.0
  {
    var products := map[0 := p];
    var lines := [CartItem(0, 2, None)];
    assert lines[..0] == [];
    var items := PaidItems(AsWritten, products, lines);
    assert items[..0] == [];
  }

  /** As corrected, the verified order's lines are priced as checkout prices
      them from the same catalog. */
  lemma {:induction false} CorrectedPricesMatchCheckout(products: map<ProductId, Product>, lines: seq<CartItem>)
    requires AllInCatalog(products, lines)
    ensures forall k :: 0 <= k < |lines| ==>
      PaidItems(Corrected, products, lines)[k].price == Snapshot(products[lines[k].product], lines[k]).price
    decreases |lines|
  {
    if lines != [] {
      var n := |lines| - 1;
      assert AllInCatalog(products, lines[..n]);
      CorrectedPricesMatchCheckout(products, lines[..n]);
      forall k | 0 <= k < n ensures lines[..n][k] == lines[k] { }
    }
  }

  // ---------------------------------------------------------------- webhook

  /** The payment entity of a webhook event; `orderId` is absent when the
      payment was made without a gateway order (`order_id` is `null`). */
  datatype PaymentEntity = PaymentEntity(id: string, orderId: Option<string>)

  /** The `payload.payment` object of a webhook body; its `entity` may be
      missing. */
  datatype PaymentPayload = PaymentPayload(entity: Option<PaymentEntity>)

  /** A parsed webhook body; `payment` is absent when the body has no
      `payload.payment`. */
  datatype WebhookEvent = WebhookEvent(eventType: string, payment: Option<PaymentPayload>)
  {
    /** `event.payload.payment.entity`, when the payment object is there. */
    function Entity(): Option<PaymentEntity> {
      if payment.None? then None else payment.value.entity
    }
  }

  datatype Ack = Received

  /** Write a payment status into order `k` and save it: the save fails
      validation when the literal is outside the enum, and nothing is stored. */
  function SaveStatus(variant: Variant, orders: seq<Order>, k: nat, o: Order, target: PaymentStatus, now: nat): (Result<Ack>, seq<Order>)
    requires k < |orders|
  {
    var status := ParsePaymentStatus(StatusLiteral(variant, target));
    if status.None? then (Err(ServerError(ValidationFailed)), orders)
    else (Ok(Received), orders[k := AssignOrderNumber(o.(paymentStatus := status.value), now, |orders|)])
  }

  /** POST /api/payment/webhook as a function of the order collection. `parse`
      is `JSON.parse`, absent when the body is not JSON. */
  function WebhookOutcome(variant: Variant, orders: seq<Order>, signature: Option<string>, body: string,
                          hmac: (string, string) -> string, secret: string,
                          parse: string -> Option<WebhookEvent>, now: nat): (Result<Ack>, seq<Order>)
  {
    if !Present(signature) then (Err(MissingSignature), orders)
    else if signature.value != hmac(secret, body) then (Err(InvalidSignature), orders)
    else
      var ev := parse(body);
      if ev.None? then (Err(ServerError(MalformedJson)), orders)
      else if ev.value.payment.None? then (Err(ServerError(NullDereference)), orders)
      else if ev.value.eventType == "payment.captured" then
        if ev.value.Entity().None? then (Err(ServerError(NullDereference)), orders)
        else
          var e := ev.value.Entity().value;
          var k := FirstOrder(orders, ByGatewayOrder(e.orderId));
          if k.Some? && PaymentStatusName(orders[k.value].paymentStatus) != StatusLiteral(variant, Paid) then
            SaveStatus(variant, orders, k.value, orders[k.value].(razorpayPaymentId := Some(e.id), paidAt := Some(now as int)), Paid, now)
          else (Ok(Received), orders)
      else if ev.value.eventType == "payment.failed" then
        if ev.value.Entity().None? then (Err(ServerError(NullDereference)), orders)
        else
          var k := FirstOrder(orders, ByGatewayOrder(ev.value.Entity().value.orderId));
          if k.Some? then SaveStatus(variant, orders, k.value, orders[k.value], Failed, now)
          else (Ok(Received), orders)
      else (Ok(Received), orders)
  }

  /** A webhook save keeps every order valid: it changes only the payment
      fields of one order and keeps its lines and its number. */
  lemma WebhookKeepsOrdersValid(variant: Variant, orders: seq<Order>, signature: Option<string>, body: string,
                                hmac: (string, string) -> string, secret: string,
                                parse: string -> Option<WebhookEvent>, now: nat)
    requires forall k :: 0 <= k < |orders| ==> ValidOrder(orders[k])
    ensures var orders' := WebhookOutcome(variant, orders, signature, body, hmac, secret, parse, now).1;
      |orders'| == |orders| && forall k :: 0 <= k < |orders'| ==> ValidOrder(orders'[k])
  {
  }

  /** POST /api/payment/webhook. */
  method HandleWebhook(db: Db, variant: Variant, signature: Option<string>, body: string,
                       hmac: (string, string) -> string, secret: string,
                       parse: string -> Option<WebhookEvent>, now: nat) returns (r: Result<Ack>)
    modifies db
    ensures ValidState(old(db.View())) ==> ValidState(db.View())
    ensures db.products == old(db.products) && db.carts == old(db.carts) && db.categories == old(db.categories)
    ensures (r, db.orders) == WebhookOutcome(variant, old(db.orders), signature, body, hmac, secret, parse, now)
  {
    if !Present(signature) {
      return Err(MissingSignature);
    }
    if signature.value != hmac(secret, body) {
      return Err(InvalidSignature);
    }
    var ev := parse(body);
    if ev.None? {
      return Err(ServerError(MalformedJson));
    }
    if ev.value.payment.None? {
      return Err(ServerError(NullDereference));
    }
    var entity := ev.value.payment.value.entity;
    var target: Option<(nat, Order, PaymentStatus)> := None;
    if ev.value.eventType == "payment.captured" {
      if entity.None? {
        return Err(ServerError(NullDereference));
      }
      var k := FirstOrder(db.orders, ByGatewayOrder(entity.value.orderId));
      if k.Some? && PaymentStatusName(db.orders[k.value].paymentStatus) != StatusLiteral(variant, Paid) {
        var order := db.orders[k.value];
        order := order.(razorpayPaymentId := Some(entity.value.id));
        order := order.(paidAt := Some(now as int));
        target := Some((k.value, order, Paid));
      }
    }
    if ev.value.eventType == "payment.failed" {
      if entity.None? {
        return Err(ServerError(NullDereference));
      }
      var k := FirstOrder(db.orders, ByGatewayOrder(entity.value.orderId));
      if k.Some? {
        target := Some((k.value, db.orders[k.value], Failed));
      }
    }
    if target.Some? {
      var (k, order, paymentStatus) := target.value;
      var status := ParsePaymentStatus(StatusLiteral(variant, paymentStatus));
      if status.None? {
        return Err(ServerError(ValidationFailed));
      }
      db.orders := db.orders[k := AssignOrderNumber(order.(paymentStatus := status.value), now, |db.orders|)];
    }
    r := Ok(Received);
  }

  /** The signature gate: a missing header or a body the webhook secret did
      not sign is refused and no order changes; after the gate every event
      is acknowledged unless a save or the body fails. */
  lemma WebhookChecksSignature(variant: Variant, orders: seq<Order>, signature: Option<string>, body: string,
                               hmac: (string, string) -> string, secret: string,
                               parse: string -> Option<WebhookEvent>, now: nat)
    ensures var (r, orders') := WebhookOutcome(variant, orders, signature, body, hmac, secret, parse, now);
      && (!Present(signature) ==> r == Err(MissingSignature) && orders' == orders)
      && (Present(signature) && signature.value != hmac(secret, body) ==> r == Err(InvalidSignature) && orders' == orders)
      && (r.Ok? ==> Present(signature) && signature.value == hmac(secret, body) && r == Ok(Received))
      && (!(Present(signature) && signature.value == hmac(secret, body)) ==> HttpStatus(r.error) == 400)
      && |orders'| == |orders|
  {
  }

  /** After the gate: a body without `payload.payment` is a 500 for every
      event; a payment without an entity is a 500 only for the captured and
      failed events, which read the entity; any other event is acknowledged
      and changes nothing. */
  lemma WebhookNullPaths(variant: Variant, orders: seq<Order>, signature: Option<string>, body: string,
                         hmac: (string, string) -> string, secret: string,
                         parse: string -> Option<WebhookEvent>, now: nat)
    requires Present(signature) && signature.value == hmac(secret, body) && parse(body).Some?
    ensures var ev := parse(body).value;
      var (r, orders') := WebhookOutcome(variant, orders, signature, body, hmac, secret, parse, now);
      && (ev.payment.None? ==> r == Err(ServerError(NullDereference)) && orders' == orders)
      && (ev.payment.Some? && ev.Entity().None? && ev.eventType in {"payment.captured", "payment.failed"} ==>
            r == Err(ServerError(NullDereference)) && orders' == orders)
      && (ev.payment.Some? && ev.eventType !in {"payment.captured", "payment.failed"} ==>
            r == Ok(Received) && orders' == orders)
  {
  }

  /** As written, the webhook never changes an order: a captured or failed
      event that finds its order ends in a 500. */
  lemma AsWrittenWebhookNeverSaves(orders: seq<Order>, signature: Option<string>, body: string,
                                   hmac: (string, string) -> string, secret: string,
                                   parse: string -> Option<WebhookEvent>, now: nat)
    ensures var (r, orders') := WebhookOutcome(AsWritten, orders, signature, body, hmac, secret, parse, now);
      && orders' == orders
      && (Present(signature) && signature.value == hmac(secret, body) && parse(body).Some? &&
          parse(body).value.Entity().Some? &&
          parse(body).value.eventType in {"payment.captured", "payment.failed"} &&
          FirstOrder(orders, ByGatewayOrder(parse(body).value.Entity().value.orderId)).Some?
          ==> r == Err(ServerError(ValidationFailed)))
  {
    StatusLiteralValidation(Paid);
    StatusLiteralValidation(Failed);
  }

  /** The captured event's outcome, as corrected, in closed form. */
  lemma CorrectedCaptureOutcome(orders: seq<Order>, signature: Option<string>, body: string,
                                hmac: (string, string) -> string, secret: string,
                                parse: string -> Option<WebhookEvent>, now: nat)
    requires Present(signature) && signature.value == hmac(secret, body)
    requires parse(body).Some? && parse(body).value.eventType == "payment.captured" && parse(body).value.Entity().Some?
    ensures var e := parse(body).value.Entity().value;
      var k := FirstOrder(orders, ByGatewayOrder(e.orderId));
      WebhookOutcome(Corrected, orders, signature, body, hmac, secret, parse, now) ==
        if k.Some? && orders[k.value].paymentStatus != Paid then
          (Ok(Received), orders[k.value := AssignOrderNumber(orders[k.value].(razorpayPaymentId := Some(e.id), paidAt := Some(now as int), paymentStatus := Paid), now, |orders|)])
        else (Ok(Received), orders)
  {
    assert ParsePaymentStatus(StatusLiteral(Corrected, Paid)) == Some(Paid);
    assert forall s :: s != Paid ==> PaymentStatusName(s) != "paid";
  }

  /** As corrected, a captured event marks the first order with that gateway
      order id as paid, with the payment id and time, unless it is already
      paid; no other order changes. */
  lemma CorrectedCaptureMarksPaid(orders: seq<Order>, signature: Option<string>, body: string,
                                  hmac: (string, string) -> string, secret: string,
                                  parse: string -> Option<WebhookEvent>, now: nat)
    requires Present(signature) && signature.value == hmac(secret, body)
    requires parse(body).Some? && parse(body).value.eventType == "payment.captured" && parse(body).value.Entity().Some?
    ensures var e := parse(body).value.Entity().value;
      var k := FirstOrder(orders, ByGatewayOrder(e.orderId));
      var (r, orders') := WebhookOutcome(Corrected, orders, signature, body, hmac, secret, parse, now);
      && r == Ok(Received) && |orders'| == |orders|
      && (forall j :: 0 <= j < |orders| && Some(j) != k ==> orders'[j] == orders[j])
      && (k.Some? ==> orders'[k.value].paymentStatus == Paid)
      && (k.Some? && orders[k.value].paymentStatus != Paid ==>
            orders'[k.value].razorpayPaymentId == Some(e.id) && orders'[k.value].paidAt == Some(now as int) &&
            orders'[k.value].orderNumber.Some?)
      && (k.Some? && orders[k.value].paymentStatus == Paid ==> orders' == orders)
  {
    CorrectedCaptureOutcome(orders, signature, body, hmac, secret, parse, now);
    var e := parse(body).value.Entity().value;
    var k := FirstOrder(orders, ByGatewayOrder(e.orderId));
    if k.Some? && orders[k.value].paymentStatus != Paid {
      var o := orders[k.value].(razorpayPaymentId := Some(e.id), paidAt := Some(now as int), paymentStatus := Paid);
      var orders' := orders[k.value := AssignOrderNumber(o, now, |orders|)];
      assert orders'[k.value] == AssignOrderNumber(o, now, |orders|);
    }
  }

  /** A captured payment without a gateway order id looks up the orders
      whose gateway order id is still unset, such as cash-on-delivery orders:
      as written the first of them makes the event a 500, and as corrected it
      is marked paid although the payment is not for it. */
  lemma CaptureWithoutOrderIdHitsUnlinkedOrder(orders: seq<Order>, signature: Option<string>, body: string,
                                               hmac: (string, string) -> string, secret: string,
                                               parse: string -> Option<WebhookEvent>, now: nat, j: nat)
    requires Present(signature) && signature.value == hmac(secret, body)
    requires parse(body).Some? && parse(body).value.eventType == "payment.captured" && parse(body).value.Entity().Some?
    requires parse(body).value.Entity().value.orderId.None?
    requires j < |orders| && orders[j].razorpayOrderId.None?
    requires forall i :: 0 <= i < j ==> orders[i].razorpayOrderId.Some?
    ensures WebhookOutcome(AsWritten, orders, signature, body, hmac, secret, parse, now).0 == Err(ServerError(ValidationFailed))
    ensures var (r, orders') := WebhookOutcome(Corrected, orders, signature, body, hmac, secret, parse, now);
      r == Ok(Received) && orders'[j].paymentStatus == Paid && orders'[j].razorpayOrderId.None?
  {
    var k := FirstOrder(orders, ByGatewayOrder(None));
    assert Matches(orders[j], ByGatewayOrder(None));
    assert k == Some(j);
    AsWrittenWebhookNeverSaves(orders, signature, body, hmac, secret, parse, now);
    CorrectedCaptureMarksPaid(orders, signature, body, hmac, secret, parse, now);
    CorrectedCaptureOutcome(orders, signature, body, hmac, secret, parse, now);
  }

  /** As corrected, delivering the same captured event twice has the effect of
      delivering it once. */
  lemma CorrectedCaptureIdempotent(orders: seq<Order>, signature: Option<string>, body: string,
                                   hmac: (string, string) -> string, secret: string,
                                   parse: string -> Option<WebhookEvent>, now: nat, later: nat)
    requires Present(signature) && signature.value == hmac(secret, body)
    requires parse(body).Some? && parse(body).value.eventType == "payment.captured" && parse(body).value.Entity().Some?
    ensures var once := WebhookOutcome(Corrected, orders, signature, body, hmac, secret, parse, now);
      WebhookOutcome(Corrected, once.1, signature, body, hmac, secret, parse, later) == once
  {
    var e := parse(body).value.Entity().value;
    var p := ByGatewayOrder(e.orderId);
    var k := FirstOrder(orders, p);
    var once := WebhookOutcome(Corrected, orders, signature, body, hmac, secret, parse, now);
    CorrectedCaptureMarksPaid(orders, signature, body, hmac, secret, parse, now);
    if k.Some? {
      assert Matches(once.1[k.value], p);
      assert forall j :: 0 <= j < k.value ==> once.1[j] == orders[j];
    } else {
      assert once.1 == orders;
    }
  }

  /** As corrected, a failed event marks its order as failed even when the
      order was already paid. */
  lemma CorrectedFailureOverridesPaid(orders: seq<Order>, signature: Option<string>, body: string,
                                      hmac: (string, string) -> string, secret: string,
                                      parse: string -> Option<WebhookEvent>, now: nat)
    requires Present(signature) && signature.value == hmac(secret, body)
    requires parse(body).Some? && parse(body).value.eventType == "payment.failed" && parse(body).value.Entity().Some?
    ensures var k := FirstOrder(orders, ByGatewayOrder(parse(body).value.Entity().value.orderId));
      var (r, orders') := WebhookOutcome(Corrected, orders, signature, body, hmac, secret, parse, now);
      && r == Ok(Received)
      && (k.Some? ==> orders'[k.value].paymentStatus == Failed)
      && (k.None? ==> orders' == orders)
  {
    EnumsRoundTrip(Pending, Cod, Failed);
  }
}
