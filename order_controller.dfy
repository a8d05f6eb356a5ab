/** The order endpoints: checkout from the cart (createOrder), cancellation
    with stock restoration, the admin status update and the admin order list.

    Checkout walks the cart line by line and writes each stock decrement as
    it goes; a line that fails stops the walk with the earlier decrements
    already saved and no order created. `Checkout` states that walk as a
    function on values, the `CreateOrder` method performs it on the store,
    and the lemmas below say what it achieves. */
module OrderController {
  import opened Common
  import opened ProductModel
  import opened OrderModel
  import opened Store
  import opened Listing

  /** The order line a cart line becomes: the product's current name, unit
      and line price, with the cart's quantity and weight. */
  function Snapshot(p: Product, line: CartItem): OrderItem {
    OrderItem(line.product, Some(p.name), line.quantity, line.weight, LinePrice(p, line.quantity, line.weight), p.priceUnit)
  }

  /** Σ price over order lines. */
  function SumPrices(items: seq<OrderItem>): real {
    if items == [] then 0.0 else SumPrices(items[..|items| - 1]) + items[|items| - 1].price
  }

  /** Σ quantity over the order lines for one product. */
  function ItemQuantity(items: seq<OrderItem>, id: ProductId): int {
    if items == [] then 0
    else ItemQuantity(items[..|items| - 1], id) + (if items[|items| - 1].product == id then items[|items| - 1].quantity else 0)
  }

  /** Σ quantity over the cart lines for one product. */
  function LineQuantity(lines: seq<CartItem>, id: ProductId): int {
    if lines == [] then 0
    else (if lines[0].product == id then lines[0].quantity else 0) + LineQuantity(lines[1..], id)
  }

  /** `catalog` with every line's quantity taken off its product's stock, in order. */
  function Decremented(catalog: map<ProductId, Product>, lines: seq<CartItem>): map<ProductId, Product> {
    if lines == [] then catalog
    else
      var l := lines[0];
      Decremented(if l.product in catalog then catalog[l.product := catalog[l.product].(stock := catalog[l.product].stock - l.quantity)]
                  else catalog, lines[1..])
  }

  /** `catalog` with every order line's quantity given back to its product,
      skipping products that no longer exist. */
  function Restored(catalog: map<ProductId, Product>, items: seq<OrderItem>): map<ProductId, Product> {
    if items == [] then catalog
    else
      var before := Restored(catalog, items[..|items| - 1]);
      var it := items[|items| - 1];
      if it.product in before then before[it.product := before[it.product].(stock := before[it.product].stock + it.quantity)]
      else before
  }

  /** Two catalogs that differ at most in stock levels. */
  ghost predicate SameButStock(a: map<ProductId, Product>, b: map<ProductId, Product>) {
    a.Keys == b.Keys && forall id :: id in a ==> b[id] == a[id].(stock := b[id].stock)
  }

  // ---------------------------------------------------------------- checkout

  /** Where the checkout walk stands: the live catalog, the order lines and
      total so far, and the error that stopped it, if one did. */
  datatype Progress = Progress(products: map<ProductId, Product>, items: seq<OrderItem>, total: real, failure: Option<ApiError>)

  /** The checkout walk over the remaining `lines`. `populated` is the catalog
      as the cart's populate read it (a line whose product it lacks has a null
      product, and reading its id throws); `live` is the catalog as
      `findById` reads it, step by step. */
  function Checkout(populated: map<ProductId, Product>, live: map<ProductId, Product>, lines: seq<CartItem>,
                    items: seq<OrderItem>, total: real): Progress
    decreases |lines|
  {
    if lines == [] then Progress(live, items, total, None)
    else
      var line := lines[0];
      if line.product !in populated then Progress(live, items, total, Some(ServerError(NullDereference)))
      else if line.product !in live then Progress(live, items, total, Some(OrderProductMissing(populated[line.product].name)))
      else
        var p := live[line.product];
        if p.stock < line.quantity then Progress(live, items, total, Some(InsufficientStock(p.name, p.stock)))
        else Checkout(populated, live[line.product := p.(stock := p.stock - line.quantity)], lines[1..],
                      items + [Snapshot(p, line)], total + LinePrice(p, line.quantity, line.weight))
  }

  /** The position of the line that stops the walk; `|lines|` when none does. */
  function StopIndex(populated: map<ProductId, Product>, live: map<ProductId, Product>, lines: seq<CartItem>): (k: nat)
    ensures k <= |lines|
    decreases |lines|
  {
    if lines == [] then 0
    else
      var l := lines[0];
      if l.product !in populated || l.product !in live || live[l.product].stock < l.quantity then 0
      else 1 + StopIndex(populated, live[l.product := live[l.product].(stock := live[l.product].stock - l.quantity)], lines[1..])
  }

  /** The running total is always the sum of the lines captured so far. */
  lemma {:induction false} CheckoutTotalIsSum(populated: map<ProductId, Product>, live: map<ProductId, Product>,
                                              lines: seq<CartItem>, items: seq<OrderItem>, total: real)
    requires total == SumPrices(items)
    ensures var r := Checkout(populated, live, lines, items, total); r.total == SumPrices(r.items)
    decreases |lines|
  {
    if lines != [] && lines[0].product in populated && lines[0].product in live && live[lines[0].product].stock >= lines[0].quantity {
      var p := live[lines[0].product];
      var s := Snapshot(p, lines[0]);
      assert (items + [s])[..|items|] == items;
      CheckoutTotalIsSum(populated, live[lines[0].product := p.(stock := p.stock - lines[0].quantity)], lines[1..],
                         items + [s], total + s.price);
    }
  }

  /** A walk that reads the same catalog the populate read never meets a
      missing product: the 'Product ... not found' reply cannot happen without
      a concurrent deletion. */
  lemma {:induction false} CheckoutNeverMissesProduct(populated: map<ProductId, Product>, live: map<ProductId, Product>,
                                                      lines: seq<CartItem>, items: seq<OrderItem>, total: real)
    requires SameButStock(populated, live)
    ensures var r := Checkout(populated, live, lines, items, total); !(r.failure.Some? && r.failure.value.OrderProductMissing?)
    decreases |lines|
  {
    if lines != [] && lines[0].product in populated && lines[0].product in live && live[lines[0].product].stock >= lines[0].quantity {
      var p := live[lines[0].product];
      var live' := live[lines[0].product := p.(stock := p.stock - lines[0].quantity)];
      assert SameButStock(populated, live');
      CheckoutNeverMissesProduct(populated, live', lines[1..], items + [Snapshot(p, lines[0])], total + LinePrice(p, lines[0].quantity, lines[0].weight));
    }
  }

  /** The snapshot of a line does not depend on the product's stock. */
  lemma SnapshotIgnoresStock(p: Product, q: Product, line: CartItem)
    requires q == p.(stock := q.stock)
    ensures Snapshot(q, line) == Snapshot(p, line)
  {
  }

  /** A walk that gets through every line captures one snapshot per line, in
      cart order, priced from the catalog as the populate read it. */
  lemma {:induction false} CheckoutSuccess(populated: map<ProductId, Product>, live: map<ProductId, Product>,
                                           lines: seq<CartItem>, items: seq<OrderItem>, total: real)
    requires SameButStock(populated, live)
    requires Checkout(populated, live, lines, items, total).failure.None?
    ensures var r := Checkout(populated, live, lines, items, total);
      && |r.items| == |items| + |lines|
      && r.items[..|items|] == items
      && (forall k :: 0 <= k < |lines| ==>
            (lines[k].product in populated && r.items[|items| + k] == Snapshot(populated[lines[k].product], lines[k])))
    decreases |lines|
  {
    if lines != [] {
      var line := lines[0];
      var p := live[line.product];
      var live' := live[line.product := p.(stock := p.stock - line.quantity)];
      var s := Snapshot(p, line);
      var items' := items + [s];
      var total' := total + LinePrice(p, line.quantity, line.weight);
      assert SameButStock(populated, live');
      assert Checkout(populated, live, lines, items, total) == Checkout(populated, live', lines[1..], items', total');
      CheckoutSuccess(populated, live', lines[1..], items', total');
      var r := Checkout(populated, live', lines[1..], items', total');
      SnapshotIgnoresStock(populated[line.product], p, line);
      assert r.items[..|items|] == items'[..|items|];
      forall k | 0 <= k < |lines|
        ensures lines[k].product in populated && r.items[|items| + k] == Snapshot(populated[lines[k].product], lines[k])
      {
        if k == 0 {
          assert r.items[|items|] == items'[|items|];
        } else {
          assert lines[k] == lines[1..][k - 1];
        }
      }
    }
  }

  /** A walk that gets through every line leaves the catalog with every
      line's quantity taken off, in cart order. */
  lemma {:induction false} CheckoutSuccessStock(populated: map<ProductId, Product>, live: map<ProductId, Product>,
                                                lines: seq<CartItem>, items: seq<OrderItem>, total: real)
    requires Checkout(populated, live, lines, items, total).failure.None?
    ensures Checkout(populated, live, lines, items, total).products == Decremented(live, lines)
    decreases |lines|
  {
    if lines != [] {
      var line := lines[0];
      var p := live[line.product];
      CheckoutSuccessStock(populated, live[line.product := p.(stock := p.stock - line.quantity)], lines[1..],
                           items + [Snapshot(p, line)], total + LinePrice(p, line.quantity, line.weight));
    }
  }

  /** A walk that stops does so at `StopIndex`, with the decrements of every
      earlier line in place and the stopping line's product untouched by its
      own line; the reply names the cause. */
  lemma {:induction false} CheckoutFailure(populated: map<ProductId, Product>, live: map<ProductId, Product>,
                                           lines: seq<CartItem>, items: seq<OrderItem>, total: real)
    requires SameButStock(populated, live)
    requires Checkout(populated, live, lines, items, total).failure.Some?
    ensures var r := Checkout(populated, live, lines, items, total);
      var k := StopIndex(populated, live, lines);
      && k < |lines|
      && r.products == Decremented(live, lines[..k])
      && (lines[k].product !in populated ==> r.failure == Some(ServerError(NullDereference)))
      && (lines[k].product in populated ==>
            lines[k].product in r.products
            && r.products[lines[k].product].stock < lines[k].quantity
            && r.failure == Some(InsufficientStock(r.products[lines[k].product].name, r.products[lines[k].product].stock)))
    decreases |lines|
  {
    var line := lines[0];
    if line.product in populated && line.product in live && live[line.product].stock >= line.quantity {
      var p := live[line.product];
      var live' := live[line.product := p.(stock := p.stock - line.quantity)];
      assert SameButStock(populated, live');
      var items', total' := items + [Snapshot(p, line)], total + LinePrice(p, line.quantity, line.weight);
      assert Checkout(populated, live, lines, items, total) == Checkout(populated, live', lines[1..], items', total');
      CheckoutFailure(populated, live', lines[1..], items', total');
      var k := StopIndex(populated, live', lines[1..]);
      assert StopIndex(populated, live, lines) == k + 1;
      assert lines[1..][..k] == lines[..k + 1][1..];
      assert Decremented(live, lines[..k + 1]) == Decremented(live', lines[1..][..k]);
      assert lines[1..][k] == lines[k + 1];
    } else {
      assert StopIndex(populated, live, lines) == 0;
      assert Decremented(live, lines[..0]) == live;
    }
  }

  /** Decrementing keeps the catalog's products and changes only stock: by
      exactly the quantity the lines order of each product. */
  lemma {:induction false} DecrementedStock(catalog: map<ProductId, Product>, lines: seq<CartItem>)
    ensures var d := Decremented(catalog, lines);
      && d.Keys == catalog.Keys
      && forall id :: id in catalog ==> d[id] == catalog[id].(stock := catalog[id].stock - LineQuantity(lines, id))
    decreases |lines|
  {
    if lines != [] {
      var l := lines[0];
      var next := if l.product in catalog then catalog[l.product := catalog[l.product].(stock := catalog[l.product].stock - l.quantity)]
                  else catalog;
      DecrementedStock(next, lines[1..]);
    }
  }

  /** Lines that do not mention a product order none of it. */
  lemma {:induction false} LineQuantityAbsent(lines: seq<CartItem>, id: ProductId)
    requires forall k :: 0 <= k < |lines| ==> lines[k].product != id
    ensures LineQuantity(lines, id) == 0
    decreases |lines|
  {
    if lines != [] {
      LineQuantityAbsent(lines[1..], id);
    }
  }

  /** Restoring keeps the catalog's products and gives back exactly the
      quantity the order lines hold of each. */
  lemma {:induction false} RestoredStock(catalog: map<ProductId, Product>, items: seq<OrderItem>)
    ensures var r := Restored(catalog, items);
      && r.Keys == catalog.Keys
      && forall id :: id in catalog ==> r[id] == catalog[id].(stock := catalog[id].stock + ItemQuantity(items, id))
    decreases |items|
  {
    if items != [] {
      RestoredStock(catalog, items[..|items| - 1]);
    }
  }

  /** Order lines captured from cart lines hold the same quantities. */
  lemma {:induction false} SnapshotQuantities(populated: map<ProductId, Product>, lines: seq<CartItem>, items: seq<OrderItem>, id: ProductId)
    requires |items| == |lines|
    requires forall k :: 0 <= k < |lines| ==> lines[k].product in populated && items[k] == Snapshot(populated[lines[k].product], lines[k])
    ensures ItemQuantity(items, id) == LineQuantity(lines, id)
    decreases |lines|
  {
    if lines != [] {
      var n := |lines| - 1;
      SnapshotQuantities(populated, lines[..n], items[..n], id);
      LineQuantitySplit(lines[..n], lines[n..], id);
      assert lines[..n] + lines[n..] == lines;
      assert lines[n..][1..] == [];
    }
  }

  lemma {:induction false} LineQuantitySplit(a: seq<CartItem>, b: seq<CartItem>, id: ProductId)
    ensures LineQuantity(a + b, id) == LineQuantity(a, id) + LineQuantity(b, id)
    decreases |a|
  {
    if a != [] {
      assert (a + b)[1..] == a[1..] + b;
      LineQuantitySplit(a[1..], b, id);
    } else {
      assert a + b == b;
    }
  }

  /** The checkout outcome from a cart and the catalog as it stands. */
  function CheckoutFrom(catalog: map<ProductId, Product>, lines: seq<CartItem>): Progress {
    Checkout(catalog, catalog, lines, [], 0.0)
  }

  /** Cancelling a checked-out order gives the catalog back exactly as it was
      before the checkout, when no product changed in between. */
  lemma CancelUndoesCheckout(catalog: map<ProductId, Product>, lines: seq<CartItem>)
    requires CheckoutFrom(catalog, lines).failure.None?
    ensures var r := CheckoutFrom(catalog, lines); Restored(r.products, r.items) == catalog
  {
    var r := CheckoutFrom(catalog, lines);
    CheckoutSuccess(catalog, catalog, lines, [], 0.0);
    CheckoutSuccessStock(catalog, catalog, lines, [], 0.0);
    var d := Decremented(catalog, lines);
    DecrementedStock(catalog, lines);
    RestoredStock(d, r.items);
    var back := Restored(d, r.items);
    assert back.Keys == catalog.Keys;
    forall id | id in catalog ensures back[id] == catalog[id] {
      SnapshotQuantities(catalog, lines, r.items, id);
      assert d[id] == catalog[id].(stock := catalog[id].stock - LineQuantity(lines, id));
      assert back[id] == d[id].(stock := d[id].stock + ItemQuantity(r.items, id));
    }
  }

  /** Checkout never drives a stock below zero: each line is checked against
      the stock before it is taken off. */
  lemma {:induction false} CheckoutKeepsCatalogValid(populated: map<ProductId, Product>, live: map<ProductId, Product>,
                                                     lines: seq<CartItem>, items: seq<OrderItem>, total: real)
    requires ValidCatalog(live)
    ensures ValidCatalog(Checkout(populated, live, lines, items, total).products)
    decreases |lines|
  {
    if lines != [] && lines[0].product in populated && lines[0].product in live && live[lines[0].product].stock >= lines[0].quantity {
      var p := live[lines[0].product];
      var live' := live[lines[0].product := p.(stock := p.stock - lines[0].quantity)];
      assert ValidCatalog(live');
      CheckoutKeepsCatalogValid(populated, live', lines[1..], items + [Snapshot(p, lines[0])], total + LinePrice(p, lines[0].quantity, lines[0].weight));
    }
  }

  /** Checked-out lines keep the cart's quantities, so a cart of valid lines
      yields valid order lines. */
  lemma CheckoutItemsValid(catalog: map<ProductId, Product>, lines: seq<CartItem>)
    requires LinesValid(lines)
    requires CheckoutFrom(catalog, lines).failure.None?
    ensures ItemsValid(CheckoutFrom(catalog, lines).items)
  {
    CheckoutSuccess(catalog, catalog, lines, [], 0.0);
    var items := CheckoutFrom(catalog, lines).items;
    forall k | 0 <= k < |items| ensures items[k].quantity >= 1 {
      assert items[k] == Snapshot(catalog[lines[k].product], lines[k]);
    }
  }

  // ---------------------------------------------------------------- createOrder

  /** POST /api/orders as a function of the store: the reply and the store
      afterwards. */
  function PlaceOrder(st: State, user: UserId, address: Option<Address>, methodField: Option<string>,
                      notes: Option<string>, now: nat): (Result<OrderId>, State)
  {
    if user !in st.carts || |st.carts[user].items| == 0 then (Err(CartEmpty), st)
    else
      var c := CheckoutFrom(st.products, st.carts[user].items);
      if c.failure.Some? then (Err(c.failure.value), st.(products := c.products))
      else
        var m := ParseMethod(methodField.GetOr("cod"));
        if m.None? || !ItemsValid(c.items) then (Err(ServerError(ValidationFailed)), st.(products := c.products))
        else
          var o := AssignOrderNumber(NewOrder(user, c.items, c.total, address, notes, now).(paymentMethod := m.value), now, |st.orders|);
          (Ok(|st.orders|), st.(products := c.products, orders := st.orders + [o], carts := st.carts[user := Cart([])]))
  }

  /** A missing or empty cart is refused before anything changes. */
  lemma PlaceOrderEmptyCart(st: State, user: UserId, address: Option<Address>, methodField: Option<string>, notes: Option<string>, now: nat)
    requires user !in st.carts || st.carts[user].items == []
    ensures PlaceOrder(st, user, address, methodField, notes, now) == (Err(CartEmpty), st)
    ensures HttpStatus(PlaceOrder(st, user, address, methodField, notes, now).0.error) == 400
  {
  }

  /** A successful checkout appends one pending, unpaid, numbered order whose
      lines are the cart's lines in order and whose total is the sum of its
      line prices, and empties the cart. */
  lemma PlaceOrderSuccess(st: State, user: UserId, address: Option<Address>, methodField: Option<string>, notes: Option<string>, now: nat)
    requires PlaceOrder(st, user, address, methodField, notes, now).0.Ok?
    ensures var res := PlaceOrder(st, user, address, methodField, notes, now);
      var st' := res.1;
      var lines := st.carts[user].items;
      var o := st'.orders[|st.orders|];
      && res.0.value == |st.orders| && |st'.orders| == |st.orders| + 1 && st'.orders[..|st.orders|] == st.orders
      && st'.carts == st.carts[user := Cart([])] && st'.categories == st.categories
      && o.user == user && o.status == Pending && o.paymentStatus == Unpaid
      && o.orderNumber == Some(OrderNumberFor(now, |st.orders|))
      && ParseMethod(methodField.GetOr("cod")) == Some(o.paymentMethod)
      && o.shippingAddress == address && o.notes == notes && o.createdAt == now
      && o.razorpayOrderId.None? && o.paidAt.None? && o.deliveredAt.None?
      && o.totalAmount == SumPrices(o.items)
      && |o.items| == |lines|
      && (forall k :: 0 <= k < |lines| ==>
            (lines[k].product in st.products && o.items[k] == Snapshot(st.products[lines[k].product], lines[k])))
  {
    var lines := st.carts[user].items;
    CheckoutSuccess(st.products, st.products, lines, [], 0.0);
    CheckoutTotalIsSum(st.products, st.products, lines, [], 0.0);
  }

  /** After a successful checkout each product's stock has dropped by the
      quantity the cart held of it, and nothing else about the catalog changed. */
  lemma PlaceOrderStock(st: State, user: UserId, address: Option<Address>, methodField: Option<string>, notes: Option<string>, now: nat)
    requires PlaceOrder(st, user, address, methodField, notes, now).0.Ok?
    ensures var st' := PlaceOrder(st, user, address, methodField, notes, now).1;
      var lines := st.carts[user].items;
      && st'.products.Keys == st.products.Keys
      && (forall id :: id in st.products ==>
            st'.products[id] == st.products[id].(stock := st.products[id].stock - LineQuantity(lines, id)))
  {
    var lines := st.carts[user].items;
    CheckoutSuccessStock(st.products, st.products, lines, [], 0.0);
    DecrementedStock(st.products, lines);
  }

  /** A refused checkout with a non-empty cart creates no order and keeps the
      cart, yet the decrements of the lines before the stopping line stay. */
  lemma PlaceOrderFailure(st: State, user: UserId, address: Option<Address>, methodField: Option<string>, notes: Option<string>, now: nat)
    requires user in st.carts && st.carts[user].items != []
    requires PlaceOrder(st, user, address, methodField, notes, now).0.Err?
    ensures var res := PlaceOrder(st, user, address, methodField, notes, now);
      var st' := res.1;
      var lines := st.carts[user].items;
      var k := StopIndex(st.products, st.products, lines);
      && st'.orders == st.orders && st'.carts == st.carts && st'.categories == st.categories
      && !res.0.error.OrderProductMissing?
      && (k < |lines| ==> st'.products == Decremented(st.products, lines[..k]))
      && (k == |lines| ==> st'.products == Decremented(st.products, lines) && res.0.error == ServerError(ValidationFailed))
  {
    var lines := st.carts[user].items;
    var c := CheckoutFrom(st.products, lines);
    CheckoutNeverMissesProduct(st.products, st.products, lines, [], 0.0);
    if c.failure.Some? {
      CheckoutFailure(st.products, st.products, lines, [], 0.0);
    } else {
      CheckoutSuccessStock(st.products, st.products, lines, [], 0.0);
      StopIndexOnSuccess(st.products, st.products, lines, [], 0.0);
    }
  }

  lemma {:induction false} StopIndexOnSuccess(populated: map<ProductId, Product>, live: map<ProductId, Product>,
                                              lines: seq<CartItem>, items: seq<OrderItem>, total: real)
    requires Checkout(populated, live, lines, items, total).failure.None?
    ensures StopIndex(populated, live, lines) == |lines|
    decreases |lines|
  {
    if lines != [] {
      var p := live[lines[0].product];
      StopIndexOnSuccess(populated, live[lines[0].product := p.(stock := p.stock - lines[0].quantity)], lines[1..],
                         items + [Snapshot(p, lines[0])], total + LinePrice(p, lines[0].quantity, lines[0].weight));
    }
  }

  /** With one line per product, the product whose line stops the walk keeps
      its stock. */
  lemma PlaceOrderStoppingProductUntouched(st: State, user: UserId, address: Option<Address>, methodField: Option<string>,
                                           notes: Option<string>, now: nat)
    requires user in st.carts && OneLinePerProduct(st.carts[user].items)
    requires CheckoutFrom(st.products, st.carts[user].items).failure.Some?
    ensures var lines := st.carts[user].items;
      var k := StopIndex(st.products, st.products, lines);
      var st' := PlaceOrder(st, user, address, methodField, notes, now).1;
      k < |lines| && lines[k].product in st.products ==>
        lines[k].product in st'.products && st'.products[lines[k].product] == st.products[lines[k].product]
  {
    var lines := st.carts[user].items;
    var k := StopIndex(st.products, st.products, lines);
    CheckoutFailure(st.products, st.products, lines, [], 0.0);
    if lines[k].product in st.products {
      DecrementedStock(st.products, lines[..k]);
      forall j | 0 <= j < |lines[..k]| ensures lines[..k][j].product != lines[k].product {
        assert lines[..k][j] == lines[j];
      }
      LineQuantityAbsent(lines[..k], lines[k].product);
    }
  }

  /** Checkout keeps every stored document valid. */
  lemma PlaceOrderKeepsStoreValid(st: State, user: UserId, address: Option<Address>, methodField: Option<string>, notes: Option<string>, now: nat)
    requires ValidState(st)
    ensures ValidState(PlaceOrder(st, user, address, methodField, notes, now).1)
  {
    var res := PlaceOrder(st, user, address, methodField, notes, now);
    var st' := res.1;
    if user in st.carts && |st.carts[user].items| > 0 {
      CheckoutKeepsCatalogValid(st.products, st.products, st.carts[user].items, [], 0.0);
      assert ValidCatalog(st'.products);
      if res.0.Ok? {
        assert forall k :: 0 <= k < |st.orders| ==> st'.orders[k] == st.orders[k];
        assert ValidOrder(st'.orders[|st.orders|]);
        assert forall u :: u in st'.carts ==> LinesValid(st'.carts[u].items);
      }
    }
  }

  /** The stock-checking loop of POST /api/orders: walks the cart lines,
      saving each product's decremented stock as it goes, and stops at the
      first line that fails. */
  method CheckoutLines(db: Db, populated: map<ProductId, Product>, lines: seq<CartItem>)
      returns (orderItems: seq<OrderItem>, totalAmount: real, failure: Option<ApiError>)
    modifies db
    ensures db.carts == old(db.carts) && db.orders == old(db.orders) && db.categories == old(db.categories)
    ensures Progress(db.products, orderItems, totalAmount, failure) == Checkout(populated, old(db.products), lines, [], 0.0)
  {
    orderItems, totalAmount, failure := [], 0.0, None;
    var i := 0;
    while i < |lines|
      invariant 0 <= i <= |lines|
      invariant db.carts == old(db.carts) && db.orders == old(db.orders) && db.categories == old(db.categories)
      invariant Checkout(populated, old(db.products), lines, [], 0.0) == Checkout(populated, db.products, lines[i..], orderItems, totalAmount)
    {
      var line := lines[i];
      assert lines[i..][0] == line && lines[i..][1..] == lines[i + 1..];
      if line.product !in populated {
        return orderItems, totalAmount, Some(ServerError(NullDereference));
      }
      if line.product !in db.products {
        return orderItems, totalAmount, Some(OrderProductMissing(populated[line.product].name));
      }
      var product := db.products[line.product];
      if product.stock < line.quantity {
        return orderItems, totalAmount, Some(InsufficientStock(product.name, product.stock));
      }
      var itemPrice := LinePrice(product, line.quantity, line.weight);
      orderItems := orderItems + [Snapshot(product, line)];
      totalAmount := totalAmount + itemPrice;
      db.products := db.products[line.product := product.(stock := product.stock - line.quantity)];
      i := i + 1;
    }
    assert lines[i..] == [];
  }

  /** POST /api/orders. */
  method CreateOrder(db: Db, user: UserId, address: Option<Address>, methodField: Option<string>, notes: Option<string>, now: nat)
      returns (r: Result<OrderId>)
    modifies db
    ensures ValidState(old(db.View())) ==> ValidState(db.View())
    ensures (r, db.View()) == PlaceOrder(old(db.View()), user, address, methodField, notes, now)
  {
    if ValidState(db.View()) {
      PlaceOrderKeepsStoreValid(db.View(), user, address, methodField, notes, now);
    }
    if user !in db.carts || |db.carts[user].items| == 0 {
      return Err(CartEmpty);
    }
    var lines := db.carts[user].items;
    var orderItems, totalAmount, failure := CheckoutLines(db, db.products, lines);
    if failure.Some? {
      return Err(failure.value);
    }
    var m := ParseMethod(methodField.GetOr("cod"));
    if m.None? || !ItemsValid(orderItems) {
      return Err(ServerError(ValidationFailed));
    }
    var order := AssignOrderNumber(NewOrder(user, orderItems, totalAmount, address, notes, now).(paymentMethod := m.value), now, |db.orders|);
    db.orders := db.orders + [order];
    db.carts := db.carts[user := Cart([])];
    r := Ok(|db.orders| - 1);
  }

  // ---------------------------------------------------------------- cancel, status

  /** PUT /api/orders/:id/cancel: refused for a missing order, for a caller who
      is neither the owner nor an admin, and for an order past 'pending';
      otherwise each line's quantity goes back to its product, if the product
      still exists, and the order becomes 'cancelled' with its number kept. */
  method CancelOrder(db: Db, caller: Caller, id: OrderId, now: nat) returns (r: Result<Order>)
    modifies db
    ensures ValidState(old(db.View())) ==> ValidState(db.View())
    ensures db.carts == old(db.carts) && db.categories == old(db.categories) && |db.orders| == |old(db.orders)|
    ensures id >= |old(db.orders)| ==> r == Err(OrderNotFound) && db.View() == old(db.View())
    ensures id < |old(db.orders)| ==>
      var o := old(db.orders)[id];
      && (o.user != caller.id && !caller.isAdmin ==> r == Err(NotAuthorized) && db.View() == old(db.View()))
      && ((o.user == caller.id || caller.isAdmin) && o.status != Pending ==> r == Err(CannotCancel) && db.View() == old(db.View()))
      && ((o.user == caller.id || caller.isAdmin) && o.status == Pending ==>
            var o' := AssignOrderNumber(o.(status := Cancelled), now, |old(db.orders)|);
            && r == Ok(o')
            && db.products == Restored(old(db.products), o.items)
            && db.orders == old(db.orders)[id := o'])
  {
    if id >= |db.orders| {
      return Err(OrderNotFound);
    }
    var order := db.orders[id];
    if order.user != caller.id && !caller.isAdmin {
      return Err(NotAuthorized);
    }
    if order.status != Pending {
      return Err(CannotCancel);
    }
    var i := 0;
    while i < |order.items|
      invariant 0 <= i <= |order.items|
      invariant db.products == Restored(old(db.products), order.items[..i])
      invariant db.carts == old(db.carts) && db.orders == old(db.orders) && db.categories == old(db.categories)
    {
      var item := order.items[i];
      assert order.items[..i + 1][..i] == order.items[..i];
      if item.product in db.products {
        var product := db.products[item.product];
        db.products := db.products[item.product := product.(stock := product.stock + item.quantity)];
      }
      i := i + 1;
    }
    assert order.items[..|order.items|] == order.items;
    if ValidState(old(db.View())) {
      assert ValidOrder(old(db.orders)[id]);
      RestoredKeepsCatalogValid(old(db.products), order.items);
    }
    var cancelled := AssignOrderNumber(order.(status := Cancelled), now, |db.orders|);
    db.orders := db.orders[id := cancelled];
    r := Ok(cancelled);
  }

  /** Cancelling restores each surviving product's stock by exactly the
      quantity the order held of it and keeps the order's number. */
  lemma CancelRestoresQuantities(catalog: map<ProductId, Product>, o: Order, now: nat, count: nat)
    requires o.orderNumber.Some? && o.orderNumber.value != ""
    ensures var r := Restored(catalog, o.items);
      && r.Keys == catalog.Keys
      && (forall id :: id in catalog ==> r[id].stock == catalog[id].stock + ItemQuantity(o.items, id))
      && AssignOrderNumber(o.(status := Cancelled), now, count).orderNumber == o.orderNumber
  {
    RestoredStock(catalog, o.items);
  }

  /** Restoring order lines of quantity at least one keeps every stock valid. */
  lemma {:induction false} RestoredKeepsCatalogValid(catalog: map<ProductId, Product>, items: seq<OrderItem>)
    requires ValidCatalog(catalog) && ItemsValid(items)
    ensures ValidCatalog(Restored(catalog, items))
    decreases |items|
  {
    if items != [] {
      var init := items[..|items| - 1];
      assert ItemsValid(init) by {
        forall k | 0 <= k < |init| ensures init[k].quantity >= 1 {
          assert init[k] == items[k];
        }
      }
      RestoredKeepsCatalogValid(catalog, init);
    }
  }

  /** PUT /api/orders/:id/status (admins only): any status the enum accepts is
      written as given, and 'delivered' also stamps the delivery time; a
      status outside the enum fails validation and nothing is saved. */
  method UpdateOrderStatus(db: Db, id: OrderId, statusField: string, now: nat) returns (r: Result<Order>)
    modifies db
    ensures ValidState(old(db.View())) ==> ValidState(db.View())
    ensures db.products == old(db.products) && db.carts == old(db.carts) && db.categories == old(db.categories)
    ensures |db.orders| == |old(db.orders)|
    ensures id >= |old(db.orders)| ==> r == Err(OrderNotFound) && db.orders == old(db.orders)
    ensures id < |old(db.orders)| && ParseStatus(statusField).None? ==>
      r == Err(ServerError(ValidationFailed)) && db.orders == old(db.orders)
    ensures id < |old(db.orders)| && ParseStatus(statusField).Some? ==>
      var o := old(db.orders)[id];
      var s := ParseStatus(statusField).value;
      var o' := AssignOrderNumber(o.(status := s, deliveredAt := if s == Delivered then Some(now as int) else o.deliveredAt),
                                  now, |old(db.orders)|);
      r == Ok(o') && db.orders == old(db.orders)[id := o']
  {
    if id >= |db.orders| {
      return Err(OrderNotFound);
    }
    var order := db.orders[id];
    var s := ParseStatus(statusField);
    if s.None? {
      return Err(ServerError(ValidationFailed));
    }
    order := order.(status := s.value);
    if statusField == "delivered" {
      order := order.(deliveredAt := Some(now as int));
    }
    order := AssignOrderNumber(order, now, |db.orders|);
    db.orders := db.orders[id := order];
    r := Ok(order);
  }

  /** The delivery stamp is set exactly when the new status is 'delivered';
      the order number of a numbered order never changes. */
  lemma StatusUpdateStampsDelivery(o: Order, s: OrderStatus, now: nat, count: nat)
    ensures var o' := AssignOrderNumber(o.(status := s, deliveredAt := if s == Delivered then Some(now as int) else o.deliveredAt), now, count);
      && o'.status == s
      && (s == Delivered ==> o'.deliveredAt == Some(now as int))
      && (s != Delivered ==> o'.deliveredAt == o.deliveredAt)
      && (Present(o.orderNumber) ==> o'.orderNumber == o.orderNumber)
  {
  }

  // ---------------------------------------------------------------- admin list

  /** Newest first. */
  predicate NewerFirst(a: Order, b: Order) {
    a.createdAt >= b.createdAt
  }

  lemma NewerFirstIsTotalPreorder()
    ensures TotalPreorder(NewerFirst)
  {
  }

  /** The orders an admin list query matches: all, or those with the given status. */
  function MatchingOrders(orders: seq<Order>, status: Option<string>): (r: seq<Order>)
    ensures forall o :: o in r <==> o in orders && (Present(status) ==> StatusName(o.status) == status.value)
    ensures |r| <= |orders|
    ensures forall o :: multiset(r)[o] == if !Present(status) || StatusName(o.status) == status.value then multiset(orders)[o] else 0
  {
    var keep := (o: Order) => !Present(status) || StatusName(o.status) == status.value;
    FilterCounts(orders, keep);
    Filter(orders, keep)
  }

  /** GET /api/orders/admin/all: the page of matching orders, newest first,
      with the page count and the number of all matches. */
  function AllOrders(orders: seq<Order>, status: Option<string>, page: int, limit: int): Option<(seq<Order>, PageInfo)> {
    Paginate(SortBy(NewerFirst, MatchingOrders(orders, status)), page, limit)
  }

  /** Every listed order matches the filter, the list is newest first, and the
      total counts every match, not only the page. */
  lemma AllOrdersSpec(orders: seq<Order>, status: Option<string>, page: int, limit: int)
    requires SkipFor(page, limit) >= 0
    ensures var r := AllOrders(orders, status, page, limit);
      && r.Some?
      && r.value.1.total == |MatchingOrders(orders, status)|
      && (forall o :: o in r.value.0 ==> o in orders && (Present(status) ==> StatusName(o.status) == status.value))
      && SortedBy(NewerFirst, r.value.0)
      && (limit > 0 ==> |r.value.0| <= limit)
  {
    NewerFirstIsTotalPreorder();
    SortedPage(NewerFirst, MatchingOrders(orders, status), page, limit);
  }
}
