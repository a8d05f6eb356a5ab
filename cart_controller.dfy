/** The cart endpoints: the totals of GET /api/cart and the four list edits
    (add, update, remove, clear). They edit the caller's cart in place and
    only ever read products. */
module CartController {
  import opened Common
  import opened ProductModel
  import opened Store

  /** The caller's cart lines, or none when the caller has no cart. */
  function ItemsOf(carts: map<UserId, Cart>, user: UserId): seq<CartItem> {
    if user in carts then carts[user].items else []
  }

  /** `items.findIndex(item => item.product === id)`. */
  function IndexOf(items: seq<CartItem>, id: ProductId): (r: int)
    ensures -1 <= r < |items|
    ensures r == -1 <==> forall k :: 0 <= k < |items| ==> items[k].product != id
    ensures r >= 0 ==> items[r].product == id && forall k :: 0 <= k < r ==> items[k].product != id
  {
    if items == [] then -1
    else if items[0].product == id then 0
    else
      var k := IndexOf(items[1..], id);
      if k == -1 then -1 else k + 1
  }

  // ---------------------------------------------------------------- totals

  /** Σ quantity over the lines whose product still exists. */
  function CountedQuantity(items: seq<CartItem>, products: map<ProductId, Product>): int {
    if items == [] then 0
    else
      var last := items[|items| - 1];
      CountedQuantity(items[..|items| - 1], products) + (if last.product in products then last.quantity else 0)
  }

  /** Σ line price over the lines whose product still exists. */
  function CountedAmount(items: seq<CartItem>, products: map<ProductId, Product>): real {
    if items == [] then 0.0
    else
      var last := items[|items| - 1];
      CountedAmount(items[..|items| - 1], products)
        + (if last.product in products then LinePrice(products[last.product], last.quantity, last.weight) else 0.0)
  }

  /** A line whose product was deleted counts for nothing, wherever it sits
      in the cart. */
  lemma {:induction false} TotalsIgnoreDeleted(a: seq<CartItem>, l: CartItem, b: seq<CartItem>, products: map<ProductId, Product>)
    requires l.product !in products
    ensures CountedQuantity(a + [l] + b, products) == CountedQuantity(a + b, products)
    ensures CountedAmount(a + [l] + b, products) == CountedAmount(a + b, products)
    decreases |b|
  {
    if b == [] {
      assert (a + [l] + b)[..|a|] == a && a + b == a;
    } else {
      var init := b[..|b| - 1];
      assert (a + [l] + b)[..|a + [l] + b| - 1] == a + [l] + init;
      assert (a + b)[..|a + b| - 1] == a + init;
      assert (a + [l] + b)[|a + [l] + b| - 1] == b[|b| - 1] == (a + b)[|a + b| - 1];
      TotalsIgnoreDeleted(a, l, init, products);
    }
  }

  /** With every line valid and every product valid, the totals are not negative. */
  lemma {:induction false} TotalsNonNegative(items: seq<CartItem>, products: map<ProductId, Product>)
    requires LinesValid(items) && ValidCatalog(products)
    requires forall k :: 0 <= k < |items| ==> items[k].weight.Some? ==> items[k].weight.value >= 0.0
    ensures CountedQuantity(items, products) >= 0
    ensures CountedAmount(items, products) >= 0.0
  {
    if items != [] {
      var init := items[..|items| - 1];
      assert forall k :: 0 <= k < |init| ==> init[k] == items[k];
      TotalsNonNegative(init, products);
      var last := items[|items| - 1];
      if last.product in products {
        var p := products[last.product];
        assert p.price >= 0.0;
        if p.priceUnit == Kg && Truthy(last.weight) {
          assert p.price * last.weight.value >= 0.0;
        } else {
          assert last.quantity as real >= 0.0;
          assert p.price * last.quantity as real >= 0.0;
        }
      }
    }
  }

  /** The `forEach` of getCart: totals over the lines whose product exists. */
  method CartTotals(items: seq<CartItem>, products: map<ProductId, Product>) returns (totalItems: int, totalAmount: real)
    ensures totalItems == CountedQuantity(items, products)
    ensures totalAmount == CountedAmount(items, products)
  {
    totalItems, totalAmount := 0, 0.0;
    var i := 0;
    while i < |items|
      invariant 0 <= i <= |items|
      invariant totalItems == CountedQuantity(items[..i], products)
      invariant totalAmount == CountedAmount(items[..i], products)
    {
      var item := items[i];
      assert items[..i + 1][..i] == items[..i];
      if item.product in products {
        totalItems := totalItems + item.quantity;
        totalAmount := totalAmount + LinePrice(products[item.product], item.quantity, item.weight);
      }
      i := i + 1;
    }
    assert items[..|items|] == items;
  }

  /** GET /api/cart: creates an empty cart for a caller who has none, then
      returns the cart and its totals. */
  method GetCart(db: Db, user: UserId) returns (cart: Cart, totalItems: int, totalAmount: real)
    modifies db
    ensures ValidState(old(db.View())) ==> ValidState(db.View())
    ensures db.products == old(db.products) && db.orders == old(db.orders) && db.categories == old(db.categories)
    ensures user in old(db.carts) ==> db.carts == old(db.carts) && cart == old(db.carts)[user]
    ensures user !in old(db.carts) ==> db.carts == old(db.carts)[user := Cart([])] && cart == Cart([])
    ensures totalItems == CountedQuantity(cart.items, db.products)
    ensures totalAmount == CountedAmount(cart.items, db.products)
  {
    if user !in db.carts {
      db.carts := db.carts[user := Cart([])];
    }
    cart := db.carts[user];
    totalItems, totalAmount := CartTotals(cart.items, db.products);
  }

  // ---------------------------------------------------------------- add

  /** The list edit of addToCart once the product checks have passed: merge
      into the product's line (rejected when the new quantity exceeds the
      stock; the weight replaced only by a truthy one) or append a line. */
  function AddLine(items: seq<CartItem>, id: ProductId, quantity: int, weight: Option<real>, stock: int): (r: Result<seq<CartItem>>)
    ensures var k := IndexOf(items, id);
      k >= 0 ==>
        if items[k].quantity + quantity > stock then r == Err(OnlyAvailable(stock))
        else r.Ok? && |r.value| == |items|
             && r.value[k] == CartItem(id, items[k].quantity + quantity, if Truthy(weight) then weight else items[k].weight)
             && forall j :: 0 <= j < |items| && j != k ==> r.value[j] == items[j]
    ensures IndexOf(items, id) == -1 ==>
      r == Ok(items + [CartItem(id, quantity, if Truthy(weight) then weight else None)])
  {
    var k := IndexOf(items, id);
    if k >= 0 then
      var q := items[k].quantity + quantity;
      if q > stock then Err(OnlyAvailable(stock))
      else Ok(items[k := items[k].(quantity := q, weight := if Truthy(weight) then weight else items[k].weight)])
    else
      Ok(items + [CartItem(id, quantity, if Truthy(weight) then weight else None)])
  }

  /** Adding never puts a second line for a product into a cart. */
  lemma AddLineKeepsOneLinePerProduct(items: seq<CartItem>, id: ProductId, quantity: int, weight: Option<real>, stock: int)
    requires OneLinePerProduct(items)
    requires AddLine(items, id, quantity, weight, stock).Ok?
    ensures OneLinePerProduct(AddLine(items, id, quantity, weight, stock).value)
  {
    var r := AddLine(items, id, quantity, weight, stock).value;
    if IndexOf(items, id) == -1 {
      forall i, j | 0 <= i < j < |r| ensures r[i].product != r[j].product {
        if j == |items| {
          assert r[i] == items[i];
        }
      }
    }
  }

  /** A successful add leaves the product's line within its stock. */
  lemma {:induction false} AddLineWithinStock(items: seq<CartItem>, id: ProductId, quantity: int, weight: Option<real>, stock: int)
    requires quantity <= stock
    requires AddLine(items, id, quantity, weight, stock).Ok?
    ensures var r := AddLine(items, id, quantity, weight, stock).value;
      var k := IndexOf(r, id);
      k >= 0 && r[k].quantity <= stock
  {
    var r := AddLine(items, id, quantity, weight, stock).value;
    var k := IndexOf(items, id);
    if k >= 0 {
      assert forall j :: 0 <= j < k ==> r[j] == items[j];
      assert IndexOf(r, id) == k;
    } else {
      assert forall j :: 0 <= j < |items| ==> r[j] == items[j] && r[j].product != id;
      assert r[|items|].product == id;
      assert IndexOf(r, id) == |items|;
    }
  }

  /** POST /api/cart. A caller without a cart gets an empty one before the
      line is merged, and keeps it even when the merge is then rejected. */
  method AddToCart(db: Db, user: UserId, id: ProductId, quantityField: Option<int>, weight: Option<real>)
      returns (r: Result<Cart>)
    modifies db
    ensures ValidState(old(db.View())) ==> ValidState(db.View())
    ensures db.products == old(db.products) && db.orders == old(db.orders) && db.categories == old(db.categories)
    ensures id !in db.products ==> r == Err(ProductNotFound) && db.carts == old(db.carts)
    ensures id in db.products && db.products[id].stock <= 0 ==> r == Err(OutOfStock) && db.carts == old(db.carts)
    ensures id in db.products && 0 < db.products[id].stock < quantityField.GetOr(1) ==>
      r == Err(OnlyAvailable(db.products[id].stock)) && db.carts == old(db.carts)
    ensures id in db.products && 0 < db.products[id].stock && quantityField.GetOr(1) <= db.products[id].stock ==>
      var stock := db.products[id].stock;
      var edit := AddLine(ItemsOf(old(db.carts), user), id, quantityField.GetOr(1), weight, stock);
      && (edit.Err? ==> r == Err(edit.error) && db.carts == old(db.carts)[user := Cart(ItemsOf(old(db.carts), user))])
      && (edit.Ok? && !LinesValid(edit.value) ==>
            r == Err(ServerError(ValidationFailed)) && db.carts == old(db.carts)[user := Cart(ItemsOf(old(db.carts), user))])
      && (edit.Ok? && LinesValid(edit.value) ==>
            r == Ok(Cart(edit.value)) && db.carts == old(db.carts)[user := Cart(edit.value)])
  {
    var quantity := quantityField.GetOr(1);
    if id !in db.products {
      return Err(ProductNotFound);
    }
    var product := db.products[id];
    if product.stock <= 0 {
      return Err(OutOfStock);
    }
    if quantity > product.stock {
      return Err(OnlyAvailable(product.stock));
    }
    if user !in db.carts {
      db.carts := db.carts[user := Cart([])];
    }
    var items := db.carts[user].items;
    var edit := AddLine(items, id, quantity, weight, product.stock);
    if edit.Err? {
      return Err(edit.error);
    }
    if !LinesValid(edit.value) {
      return Err(ServerError(ValidationFailed));
    }
    db.carts := db.carts[user := Cart(edit.value)];
    r := Ok(Cart(edit.value));
  }

  // ---------------------------------------------------------------- update

  /** The list edit of updateCartItem on the line at `k`: a quantity of 0 or
      less splices the line out, any other sets it exactly. */
  function SetOrRemove(items: seq<CartItem>, k: nat, quantity: int, weight: Option<real>): (r: seq<CartItem>)
    requires k < |items|
    ensures quantity <= 0 ==> r == items[..k] + items[k + 1..]
    ensures quantity > 0 ==> |r| == |items| && r[k].quantity == quantity && r[k].product == items[k].product
    ensures quantity > 0 ==> r[k].weight == if Truthy(weight) then weight else items[k].weight
    ensures quantity > 0 ==> forall j :: 0 <= j < |items| && j != k ==> r[j] == items[j]
  {
    if quantity <= 0 then items[..k] + items[k + 1..]
    else items[k := items[k].(quantity := quantity, weight := if Truthy(weight) then weight else items[k].weight)]
  }

  /** Setting or removing keeps at most one line per product, and keeps every
      line valid when the new quantity is. */
  lemma SetOrRemoveKeepsInvariants(items: seq<CartItem>, k: nat, quantity: int, weight: Option<real>)
    requires k < |items|
    ensures OneLinePerProduct(items) ==> OneLinePerProduct(SetOrRemove(items, k, quantity, weight))
    ensures LinesValid(items) ==> LinesValid(SetOrRemove(items, k, quantity, weight))
  {
    var r := SetOrRemove(items, k, quantity, weight);
    if quantity <= 0 {
      assert forall j :: 0 <= j < |r| ==> r[j] == if j < k then items[j] else items[j + 1];
    }
  }

  /** PUT /api/cart/:productId. */
  method UpdateCartItem(db: Db, user: UserId, id: ProductId, quantity: Option<int>, weight: Option<real>) returns (r: Result<Cart>)
    modifies db
    ensures ValidState(old(db.View())) ==> ValidState(db.View())
    ensures db.products == old(db.products) && db.orders == old(db.orders) && db.categories == old(db.categories)
    ensures id !in old(db.products) ==> r == Err(ProductNotFound) && db.carts == old(db.carts)
    ensures id in old(db.products) && quantity.Some? && quantity.value > old(db.products)[id].stock ==>
      r == Err(OnlyAvailable(old(db.products)[id].stock)) && db.carts == old(db.carts)
    ensures id in old(db.products) && !(quantity.Some? && quantity.value > old(db.products)[id].stock) ==>
      && (user !in old(db.carts) ==> r == Err(CartNotFound) && db.carts == old(db.carts))
      && (user in old(db.carts) ==>
            var items := old(db.carts)[user].items;
            var k := IndexOf(items, id);
            && (k == -1 ==> r == Err(ItemNotInCart) && db.carts == old(db.carts))
            && (k >= 0 && quantity.None? ==> r == Err(ServerError(ValidationFailed)) && db.carts == old(db.carts))
            && (k >= 0 && quantity.Some? ==>
                  r == Ok(Cart(SetOrRemove(items, k, quantity.value, weight)))
                  && db.carts == old(db.carts)[user := Cart(SetOrRemove(items, k, quantity.value, weight))]))
  {
    if id !in db.products {
      return Err(ProductNotFound);
    }
    var product := db.products[id];
    if quantity.Some? && quantity.value > product.stock {
      return Err(OnlyAvailable(product.stock));
    }
    if user !in db.carts {
      return Err(CartNotFound);
    }
    var items := db.carts[user].items;
    var k := IndexOf(items, id);
    if k == -1 {
      return Err(ItemNotInCart);
    }
    if quantity.None? {
      // The line's quantity becomes `undefined`, which the save refuses.
      return Err(ServerError(ValidationFailed));
    }
    var edited := SetOrRemove(items, k, quantity.value, weight);
    db.carts := db.carts[user := Cart(edited)];
    r := Ok(Cart(edited));
  }

  // ---------------------------------------------------------------- remove, clear

  /** `items.filter(item => item.product !== id)`. */
  function WithoutProduct(items: seq<CartItem>, id: ProductId): (r: seq<CartItem>)
    ensures forall x :: x in r <==> x in items && x.product != id
    ensures |r| <= |items|
  {
    if items == [] then []
    else if items[0].product == id then WithoutProduct(items[1..], id)
    else [items[0]] + WithoutProduct(items[1..], id)
  }

  /** Dropping a product's lines keeps every line's quantity valid and keeps
      each product on at most one line. */
  lemma WithoutProductKeepsInvariants(items: seq<CartItem>, id: ProductId)
    requires LinesValid(items) && OneLinePerProduct(items)
    ensures LinesValid(WithoutProduct(items, id)) && OneLinePerProduct(WithoutProduct(items, id))
  {
    var r := WithoutProduct(items, id);
    forall i | 0 <= i < |r| ensures r[i].quantity >= 1 {
      assert r[i] in items;
    }
    WithoutProductKeepsOneLine(items, id);
  }

  lemma {:induction false} WithoutProductKeepsOneLine(items: seq<CartItem>, id: ProductId)
    requires OneLinePerProduct(items)
    ensures OneLinePerProduct(WithoutProduct(items, id))
  {
    if items != [] {
      var tail := items[1..];
      assert OneLinePerProduct(tail) by {
        forall i, j | 0 <= i < j < |tail| ensures tail[i].product != tail[j].product {
          assert tail[i] == items[i + 1] && tail[j] == items[j + 1];
        }
      }
      WithoutProductKeepsOneLine(tail, id);
      if items[0].product != id {
        var rest := WithoutProduct(tail, id);
        var r := [items[0]] + rest;
        forall i, j | 0 <= i < j < |r| ensures r[i].product != r[j].product {
          assert r[j] == rest[j - 1];
          if i == 0 {
            OnLaterLine(items, rest[j - 1]);
          } else {
            assert r[i] == rest[i - 1];
          }
        }
      }
    }
  }

  /** A line of the tail of a cart with one line per product is not for the
      head's product. */
  lemma OnLaterLine(items: seq<CartItem>, x: CartItem)
    requires OneLinePerProduct(items) && |items| > 0 && x in items[1..]
    ensures x.product != items[0].product
  {
    var k :| 0 <= k < |items[1..]| && items[1..][k] == x;
    assert items[k + 1] == x;
  }

  /** The filter keeps the surviving lines in their order: it distributes over
      concatenation. */
  lemma {:induction false} WithoutProductAppend(a: seq<CartItem>, b: seq<CartItem>, id: ProductId)
    ensures WithoutProduct(a + b, id) == WithoutProduct(a, id) + WithoutProduct(b, id)
  {
    if a != [] {
      assert (a + b)[1..] == a[1..] + b;
      WithoutProductAppend(a[1..], b, id);
    } else {
      assert a + b == b;
    }
  }

  /** Removing twice is removing once. */
  lemma {:induction false} WithoutProductIdempotent(items: seq<CartItem>, id: ProductId)
    ensures WithoutProduct(WithoutProduct(items, id), id) == WithoutProduct(items, id)
  {
    if items != [] {
      WithoutProductIdempotent(items[1..], id);
    }
  }

  /** Removing a product that has no line changes nothing. */
  lemma {:induction false} WithoutAbsentProduct(items: seq<CartItem>, id: ProductId)
    requires forall k :: 0 <= k < |items| ==> items[k].product != id
    ensures WithoutProduct(items, id) == items
  {
    if items != [] {
      WithoutAbsentProduct(items[1..], id);
    }
  }

  /** DELETE /api/cart/:productId. */
  method RemoveFromCart(db: Db, user: UserId, id: ProductId) returns (r: Result<Cart>)
    modifies db
    ensures ValidState(old(db.View())) ==> ValidState(db.View())
    ensures db.products == old(db.products) && db.orders == old(db.orders) && db.categories == old(db.categories)
    ensures user !in old(db.carts) ==> r == Err(CartNotFound) && db.carts == old(db.carts)
    ensures user in old(db.carts) ==>
      var kept := WithoutProduct(old(db.carts)[user].items, id);
      r == Ok(Cart(kept)) && db.carts == old(db.carts)[user := Cart(kept)]
  {
    if user !in db.carts {
      return Err(CartNotFound);
    }
    var kept := WithoutProduct(db.carts[user].items, id);
    if ValidState(db.View()) {
      WithoutProductKeepsInvariants(db.carts[user].items, id);
    }
    db.carts := db.carts[user := Cart(kept)];
    r := Ok(Cart(kept));
  }

  /** DELETE /api/cart: empties an existing cart; no cart, no change. */
  method ClearCart(db: Db, user: UserId) returns (cart: Option<Cart>)
    modifies db
    ensures ValidState(old(db.View())) ==> ValidState(db.View())
    ensures db.products == old(db.products) && db.orders == old(db.orders) && db.categories == old(db.categories)
    ensures user in old(db.carts) ==> db.carts == old(db.carts)[user := Cart([])] && cart == Some(Cart([]))
    ensures user !in old(db.carts) ==> db.carts == old(db.carts) && cart == None
  {
    if user in db.carts {
      db.carts := db.carts[user := Cart([])];
      cart := Some(Cart([]));
    } else {
      cart := None;
    }
  }
}
