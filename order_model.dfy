/** The Order document: its line items, the three enums with their defaults,
    the schema's item bounds and the pre-save hook that numbers new orders. */
module OrderModel {
  import opened Common
  import opened ProductModel

  datatype OrderStatus = Pending | Confirmed | Preparing | OutForDelivery | Delivered | Cancelled

  function StatusName(s: OrderStatus): string {
    match s
    case Pending => "pending"
    case Confirmed => "confirmed"
    case Preparing => "preparing"
    case OutForDelivery => "out_for_delivery"
    case Delivered => "delivered"
    case Cancelled => "cancelled"
  }

  /** The status enum validator: the status a stored string names, if any. */
  function ParseStatus(s: string): (r: Option<OrderStatus>)
    ensures r.Some? <==> s in {"pending", "confirmed", "preparing", "out_for_delivery", "delivered", "cancelled"}
    ensures r.Some? ==> StatusName(r.value) == s
  {
    if s == "pending" then Some(Pending)
    else if s == "confirmed" then Some(Confirmed)
    else if s == "preparing" then Some(Preparing)
    else if s == "out_for_delivery" then Some(OutForDelivery)
    else if s == "delivered" then Some(Delivered)
    else if s == "cancelled" then Some(Cancelled)
    else None
  }

  datatype PaymentMethod = Cod | Online

  function MethodName(m: PaymentMethod): string {
    match m
    case Cod => "cod"
    case Online => "online"
  }

  /** The payment-method enum validator. */
  function ParseMethod(s: string): (r: Option<PaymentMethod>)
    ensures r.Some? <==> s == "cod" || s == "online"
    ensures r.Some? ==> MethodName(r.value) == s
  {
    if s == "cod" then Some(Cod) else if s == "online" then Some(Online) else None
  }

  /** The payment-status enum; `Unpaid` is the stored value 'pending'. */
  datatype PaymentStatus = Unpaid | Paid | Failed

  function PaymentStatusName(p: PaymentStatus): string {
    match p
    case Unpaid => "pending"
    case Paid => "paid"
    case Failed => "failed"
  }

  /** The payment-status enum validator. It is case-sensitive. */
  function ParsePaymentStatus(s: string): (r: Option<PaymentStatus>)
    ensures r.Some? <==> s == "pending" || s == "paid" || s == "failed"
    ensures r.Some? ==> PaymentStatusName(r.value) == s
  {
    if s == "pending" then Some(Unpaid)
    else if s == "paid" then Some(Paid)
    else if s == "failed" then Some(Failed)
    else None
  }

  /** Each enum value round-trips through its stored name. */
  lemma EnumsRoundTrip(s: OrderStatus, m: PaymentMethod, p: PaymentStatus)
    ensures ParseStatus(StatusName(s)) == Some(s)
    ensures ParseMethod(MethodName(m)) == Some(m)
    ensures ParsePaymentStatus(PaymentStatusName(p)) == Some(p)
  {
  }

  datatype OrderItem = OrderItem(
    product: ProductId,
    name: Option<string>,
    quantity: int,
    weight: Option<real>,
    price: real,
    priceUnit: PriceUnit)

  datatype Address = Address(name: string, phone: string, street: string, city: string, state: string, pincode: string)

  datatype Order = Order(
    user: UserId,
    orderNumber: Option<string>,
    items: seq<OrderItem>,
    totalAmount: real,
    shippingAddress: Option<Address>,
    paymentMethod: PaymentMethod,
    paymentStatus: PaymentStatus,
    status: OrderStatus,
    notes: Option<string>,
    razorpayOrderId: Option<string>,
    razorpayPaymentId: Option<string>,
    razorpaySignature: Option<string>,
    paidAt: Option<int>,
    createdAt: int,
    deliveredAt: Option<int>)

  /** The item schema's `min: 1` on quantity (price is required and the unit
      is an enum, both guaranteed by the types here). */
  predicate ItemsValid(items: seq<OrderItem>) {
    forall i :: 0 <= i < |items| ==> items[i].quantity >= 1
  }

  /** A fresh order document: status 'pending', payment 'pending' by cash on
      delivery unless given, no gateway ids, no payment or delivery time and
      no order number yet. */
  function NewOrder(user: UserId, items: seq<OrderItem>, total: real, address: Option<Address>,
                    notes: Option<string>, now: int): (o: Order)
    ensures o.status == Pending && o.paymentStatus == Unpaid && o.paymentMethod == Cod
    ensures o.razorpayOrderId.None? && o.razorpayPaymentId.None? && o.razorpaySignature.None?
    ensures o.paidAt.None? && o.deliveredAt.None? && o.orderNumber.None?
    ensures o.user == user && o.items == items && o.totalAmount == total && o.createdAt == now
    ensures o.shippingAddress == address && o.notes == notes
  {
    Order(user, None, items, total, address, Cod, Unpaid, Pending, notes, None, None, None, None, now, None)
  }

  /** "ORD" followed by the time in milliseconds and the new document count. */
  function OrderNumberFor(now: nat, count: nat): string {
    "ORD" + Decimal(now) + Decimal(count + 1)
  }

  /** The pre-save hook: an order without a number is given one; a numbered
      order keeps its number. */
  function AssignOrderNumber(o: Order, now: nat, count: nat): (r: Order)
    ensures r.orderNumber.Some? && |r.orderNumber.value| > 0
    ensures Present(o.orderNumber) ==> r == o
    ensures !Present(o.orderNumber) ==> r == o.(orderNumber := Some(OrderNumberFor(now, count)))
  {
    if Present(o.orderNumber) then o else o.(orderNumber := Some(OrderNumberFor(now, count)))
  }

  /** Saving again, at any time and count, never renumbers an order. */
  lemma OrderNumberStable(o: Order, now: nat, count: nat, later: nat, laterCount: nat)
    ensures AssignOrderNumber(AssignOrderNumber(o, now, count), later, laterCount) == AssignOrderNumber(o, now, count)
  {
  }

  /** Numbers made at times written with the same number of digits collide
      only when both the time and the count are equal. */
  lemma {:induction false} OrderNumberInjective(now: nat, count: nat, now': nat, count': nat)
    requires |Decimal(now)| == |Decimal(now')|
    requires OrderNumberFor(now, count) == OrderNumberFor(now', count')
    ensures now == now' && count == count'
  {
    var a, a' := OrderNumberFor(now, count), OrderNumberFor(now', count');
    var n := 3 + |Decimal(now)|;
    assert a[3..n] == Decimal(now);
    assert a'[3..n] == Decimal(now');
    assert a[n..] == Decimal(count + 1);
    assert a'[n..] == Decimal(count' + 1);
    DecimalInjective(now, now');
    DecimalInjective(count + 1, count' + 1);
  }

  /** What the schema demands of a saved order. */
  predicate ValidOrder(o: Order) {
    ItemsValid(o.items) && o.orderNumber.Some?
  }
}
