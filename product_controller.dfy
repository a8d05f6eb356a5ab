/** The product endpoints: the public listing with its filters, sort orders
    and pages, the featured strip, and the admin create, update, stock and
    delete operations. */
module ProductController {
  import opened Common
  import opened ProductModel
  import opened Store
  import opened Listing

  // ---------------------------------------------------------------- listing

  /** The query string of GET /api/products after `parseInt` of page and
      limit (defaults 1 and 20). `category` is absent when the parameter is
      missing or empty. */
  datatype ProductQuery = ProductQuery(
    category: Option<CategoryId>,
    subcategory: Option<string>,
    search: Option<string>,
    featured: Option<string>,
    inStock: Option<string>,
    sort: Option<string>,
    limit: int,
    page: int)

  /** The query the listing sends to the database: only available products,
      plus each filter the request turns on. `nameMatches(pattern, name)` is
      the case-insensitive regular-expression match. */
  predicate ListedBy(p: Product, q: ProductQuery, nameMatches: (string, string) -> bool) {
    && p.isAvailable
    && (q.category.Some? ==> p.category == q.category.value)
    && (Present(q.subcategory) ==> p.subcategory == q.subcategory)
    && (Present(q.search) ==> nameMatches(q.search.value, p.name))
    && (q.featured == Some("true") ==> p.isFeatured)
    && (q.inStock == Some("true") ==> p.stock > 0)
  }

  predicate PriceAscending(a: Product, b: Product) { a.price <= b.price }
  predicate PriceDescending(a: Product, b: Product) { a.price >= b.price }
  predicate NameAscending(a: Product, b: Product) { StrLe(a.name, b.name) }
  predicate NewestFirst(a: Product, b: Product) { a.createdAt >= b.createdAt }

  /** The sort option a `sort` parameter selects; newest first otherwise. */
  function SortOrder(sort: Option<string>): (le: (Product, Product) -> bool) {
    if sort == Some("price_asc") then PriceAscending
    else if sort == Some("price_desc") then PriceDescending
    else if sort == Some("name") then NameAscending
    else NewestFirst
  }

  /** Each sort option is a total preorder, so sorting by it is well defined
      up to ties. */
  lemma SortOrdersAreTotal(sort: Option<string>)
    ensures TotalPreorder(SortOrder(sort))
  {
    if sort == Some("name") {
      forall a: Product, b: Product ensures NameAscending(a, b) || NameAscending(b, a) {
        StrLeTotal(a.name, b.name);
      }
      forall a: Product, b: Product, c: Product | NameAscending(a, b) && NameAscending(b, c)
        ensures NameAscending(a, c)
      {
        StrLeTransitive(a.name, b.name, c.name);
      }
    }
  }

  /** GET /api/products over the collection in storage order: the requested
      page of matching products in the requested order, with the page count
      and the number of all matches; `None` is the 500 a negative skip causes. */
  function ListProducts(docs: seq<Product>, q: ProductQuery, nameMatches: (string, string) -> bool): Option<(seq<Product>, PageInfo)> {
    Paginate(SortBy(SortOrder(q.sort), Filter(docs, (p: Product) => ListedBy(p, q, nameMatches))), q.page, q.limit)
  }

  /** Every listed product is an available product of the collection that
      passes every filter; the page is in the requested order and no longer
      than the limit; the total counts all matches, not only the page. */
  lemma ListProductsSpec(docs: seq<Product>, q: ProductQuery, nameMatches: (string, string) -> bool)
    requires SkipFor(q.page, q.limit) >= 0
    ensures var r := ListProducts(docs, q, nameMatches);
      && r.Some?
      && (forall p :: p in r.value.0 ==> p in docs && p.isAvailable && ListedBy(p, q, nameMatches))
      && SortedBy(SortOrder(q.sort), r.value.0)
      && (q.limit > 0 ==> |r.value.0| <= q.limit)
      && r.value.1.total == |Filter(docs, (p: Product) => ListedBy(p, q, nameMatches))|
      && r.value.1.pages == PageCount(r.value.1.total, q.limit)
  {
    SortOrdersAreTotal(q.sort);
    SortedPage(SortOrder(q.sort), Filter(docs, (p: Product) => ListedBy(p, q, nameMatches)), q.page, q.limit);
  }

  /** A request for page zero or below with a positive limit asks for a
      negative skip, which the database refuses. */
  lemma ListProductsRejectsPageZero(docs: seq<Product>, q: ProductQuery, nameMatches: (string, string) -> bool)
    requires q.limit > 0 && q.page < 1
    ensures ListProducts(docs, q, nameMatches).None?
  {
  }

  /** The featured strip's filter: featured, available and with stock. */
  predicate Featurable(p: Product) {
    p.isFeatured && p.isAvailable && p.stock > 0
  }

  /** GET /api/products/featured: the first eight featured, available
      products that have stock, in storage order. */
  function FeaturedProducts(docs: seq<Product>): (r: seq<Product>)
    ensures |r| <= 8
    ensures forall p :: p in r ==> p in docs && p.isFeatured && p.isAvailable && p.stock > 0
    ensures r == Filter(docs, Featurable)[..Min(8, |Filter(docs, Featurable)|)]
  {
    var featured := Filter(docs, Featurable);
    WindowWithin(featured, 0, 8);
    Window(featured, 0, 8)
  }

  /** Featured products are in stock. */
  lemma FeaturedAreInStock(docs: seq<Product>)
    ensures forall p :: p in FeaturedProducts(docs) ==> InStock(p)
  {
  }

  /** With at least eight candidates the strip is full; with fewer, every
      candidate is on it. */
  lemma FeaturedFillsUp(docs: seq<Product>)
    ensures |Filter(docs, Featurable)| >= 8 ==> |FeaturedProducts(docs)| == 8
    ensures |Filter(docs, Featurable)| < 8 ==> forall p :: p in docs && Featurable(p) ==> p in FeaturedProducts(docs)
  {
  }

  // ---------------------------------------------------------------- create

  /** The document POST /api/products builds from the body: unit
      `priceUnit || 'piece'`, stock `stock || 0`, `isFeatured || false`; the
      body's availability flag is not passed on. */
  function CreateDraft(body: ProductDraft): (d: ProductDraft)
    ensures d.priceUnit == Some(StringOr(body.priceUnit, "piece"))
    ensures d.stock.Some? && d.isFeatured.Some? && d.isAvailable.None?
  {
    body.(priceUnit := Some(StringOr(body.priceUnit, "piece")),
          stock := Some(if body.stock.None? || body.stock.value == 0 then 0 else body.stock.value),
          isFeatured := Some(body.isFeatured.GetOr(false)),
          isAvailable := None)
  }

  /** A created product is available; without the optional fields it is sold
      by the piece, has no stock and is not featured. */
  lemma CreateDefaults(body: ProductDraft, now: int)
    requires NewProduct(CreateDraft(body), now).Some?
    ensures var p := NewProduct(CreateDraft(body), now).value;
      && p.isAvailable
      && (!Present(body.priceUnit) ==> p.priceUnit == Piece)
      && (body.stock.None? ==> p.stock == 0)
      && (body.isFeatured.None? ==> !p.isFeatured)
      && (body.image.None? ==> p.image == "")
      && p.name == body.name.value && p.price == body.price.value
  {
  }

  /** A body is refused exactly when it lacks a name, a price or a category,
      carries a negative price or stock, or names a unit other than piece
      and kg. */
  lemma CreateValidation(body: ProductDraft, now: int)
    ensures NewProduct(CreateDraft(body), now).None? <==>
      || !Present(body.name) || body.price.None? || body.price.value < 0.0 || body.category.None?
      || (body.stock.Some? && body.stock.value < 0)
      || (Present(body.priceUnit) && ParsePriceUnit(body.priceUnit.value).None?)
  {
  }

  /** POST /api/products (admins only); `id` is the fresh document id. */
  method CreateProduct(db: Db, id: ProductId, body: ProductDraft, now: int) returns (r: Result<ProductId>)
    requires id !in db.products
    modifies db
    ensures ValidState(old(db.View())) ==> ValidState(db.View())
    ensures db.categories == old(db.categories) && db.carts == old(db.carts) && db.orders == old(db.orders)
    ensures NewProduct(CreateDraft(body), now).None? ==> r == Err(ServerError(ValidationFailed)) && db.products == old(db.products)
    ensures NewProduct(CreateDraft(body), now).Some? ==>
      r == Ok(id) && db.products == old(db.products)[id := NewProduct(CreateDraft(body), now).value]
  {
    var product := NewProduct(CreateDraft(body), now);
    if product.None? {
      return Err(ServerError(ValidationFailed));
    }
    db.products := db.products[id := product.value];
    r := Ok(id);
  }

  // ---------------------------------------------------------------- update

  /** PUT /api/products/:id's field merge and validation: strings, unit and
      category are replaced only by a truthy value; price, stock and the two
      flags by any defined value, 0 and false included. `None` is a save the
      validators refuse. */
  function MergeProduct(p: Product, body: ProductDraft): (r: Option<Product>)
    ensures r.Some? ==> ValidProduct(r.value)
    ensures r.Some? ==> r.value.createdAt == p.createdAt
  {
    var unit := if Present(body.priceUnit) then ParsePriceUnit(body.priceUnit.value) else Some(p.priceUnit);
    var merged := p.(
      name := StringOr(body.name, p.name),
      description := if Present(body.description) then body.description else p.description,
      price := body.price.GetOr(p.price),
      category := body.category.GetOr(p.category),
      subcategory := if Present(body.subcategory) then body.subcategory else p.subcategory,
      image := StringOr(body.image, p.image),
      stock := body.stock.GetOr(p.stock),
      isAvailable := body.isAvailable.GetOr(p.isAvailable),
      isFeatured := body.isFeatured.GetOr(p.isFeatured));
    if unit.None? || !ValidProduct(merged) then None else Some(merged.(priceUnit := unit.value))
  }

  /** The merge rules field by field: a falsy string keeps the old value, an
      undefined number or flag keeps the old value, and a defined 0 or false
      is written. */
  lemma MergeFields(p: Product, body: ProductDraft)
    requires MergeProduct(p, body).Some?
    ensures var m := MergeProduct(p, body).value;
      && m.name == (if Present(body.name) then body.name.value else p.name)
      && m.description == (if Present(body.description) then body.description else p.description)
      && m.image == (if Present(body.image) then body.image.value else p.image)
      && m.subcategory == (if Present(body.subcategory) then body.subcategory else p.subcategory)
      && m.priceUnit == (if Present(body.priceUnit) then ParsePriceUnit(body.priceUnit.value).value else p.priceUnit)
      && m.category == (if body.category.Some? then body.category.value else p.category)
      && (body.price.None? ==> m.price == p.price) && (body.price.Some? ==> m.price == body.price.value)
      && (body.stock.None? ==> m.stock == p.stock) && (body.stock.Some? ==> m.stock == body.stock.value)
      && m.isAvailable == (if body.isAvailable.Some? then body.isAvailable.value else p.isAvailable)
      && m.isFeatured == (if body.isFeatured.Some? then body.isFeatured.value else p.isFeatured)
      && m.createdAt == p.createdAt
  {
  }

  /** An empty body saves a valid product unchanged. */
  lemma MergeEmptyIsIdentity(p: Product)
    requires ValidProduct(p)
    ensures MergeProduct(p, ProductDraft(None, None, None, None, None, None, None, None, None, None)) == Some(p)
  {
  }

  /** Sending the same update twice has the effect of sending it once. */
  lemma MergeIdempotent(p: Product, body: ProductDraft)
    requires MergeProduct(p, body).Some?
    ensures MergeProduct(MergeProduct(p, body).value, body) == MergeProduct(p, body)
  {
  }

  /** The update is refused exactly when the merged product breaks a bound or
      the unit given is not piece or kg. */
  lemma MergeValidation(p: Product, body: ProductDraft)
    requires ValidProduct(p)
    ensures MergeProduct(p, body).None? <==>
      || body.price.GetOr(p.price) < 0.0 || body.stock.GetOr(p.stock) < 0
      || (Present(body.priceUnit) && ParsePriceUnit(body.priceUnit.value).None?)
  {
  }

  /** PUT /api/products/:id (admins only). */
  method UpdateProduct(db: Db, id: ProductId, body: ProductDraft) returns (r: Result<Product>)
    modifies db
    ensures ValidState(old(db.View())) ==> ValidState(db.View())
    ensures db.categories == old(db.categories) && db.carts == old(db.carts) && db.orders == old(db.orders)
    ensures id !in old(db.products) ==> r == Err(ProductNotFound) && db.products == old(db.products)
    ensures id in old(db.products) && MergeProduct(old(db.products)[id], body).None? ==>
      r == Err(ServerError(ValidationFailed)) && db.products == old(db.products)
    ensures id in old(db.products) && MergeProduct(old(db.products)[id], body).Some? ==>
      r == Ok(MergeProduct(old(db.products)[id], body).value) && db.products == old(db.products)[id := r.value]
  {
    if id !in db.products {
      return Err(ProductNotFound);
    }
    var merged := MergeProduct(db.products[id], body);
    if merged.None? {
      return Err(ServerError(ValidationFailed));
    }
    db.products := db.products[id := merged.value];
    r := Ok(merged.value);
  }

  // ---------------------------------------------------------------- stock, delete

  /** PATCH /api/products/:id/stock's write and validation: the stock becomes
      exactly the value sent; a missing or negative value is refused. */
  function SetStock(p: Product, stock: Option<int>): (r: Option<Product>)
    ensures r.Some? <==> stock.Some? && stock.value >= 0 && ValidProduct(p.(stock := stock.value))
    ensures r.Some? ==> r.value == p.(stock := stock.value) && InStock(r.value) == (stock.value > 0 && p.isAvailable)
  {
    if stock.None? || !ValidProduct(p.(stock := stock.value)) then None else Some(p.(stock := stock.value))
  }

  /** Setting the stock of a stored product to a value it can hold succeeds,
      and setting it again to the old value restores the product. */
  lemma SetStockRoundTrip(p: Product, n: int)
    requires ValidProduct(p) && n >= 0
    ensures SetStock(p, Some(n)).Some?
    ensures SetStock(SetStock(p, Some(n)).value, Some(p.stock)) == Some(p)
  {
  }

  /** PATCH /api/products/:id/stock (admins only); the reply carries the new stock. */
  method UpdateStock(db: Db, id: ProductId, stock: Option<int>) returns (r: Result<int>)
    modifies db
    ensures ValidState(old(db.View())) ==> ValidState(db.View())
    ensures db.categories == old(db.categories) && db.carts == old(db.carts) && db.orders == old(db.orders)
    ensures id !in old(db.products) ==> r == Err(ProductNotFound) && db.products == old(db.products)
    ensures id in old(db.products) && SetStock(old(db.products)[id], stock).None? ==>
      r == Err(ServerError(ValidationFailed)) && db.products == old(db.products)
    ensures id in old(db.products) && SetStock(old(db.products)[id], stock).Some? ==>
      r == Ok(stock.value) && db.products == old(db.products)[id := SetStock(old(db.products)[id], stock).value]
  {
    if id !in db.products {
      return Err(ProductNotFound);
    }
    var updated := SetStock(db.products[id], stock);
    if updated.None? {
      return Err(ServerError(ValidationFailed));
    }
    db.products := db.products[id := updated.value];
    r := Ok(updated.value.stock);
  }

  /** DELETE /api/products/:id's effect on the catalog: only that product goes. */
  function RemoveProduct(products: map<ProductId, Product>, id: ProductId): (r: Result<map<ProductId, Product>>)
    ensures r.Err? <==> id !in products
    ensures r.Err? ==> r.error == ProductNotFound
    ensures r.Ok? ==> r.value.Keys == products.Keys - {id} && forall k :: k in r.value ==> r.value[k] == products[k]
  {
    if id !in products then Err(ProductNotFound) else Ok(products - {id})
  }

  /** Deleting keeps the rest of the catalog valid and the product gone. */
  lemma RemoveProductKeepsCatalogValid(products: map<ProductId, Product>, id: ProductId)
    requires ValidCatalog(products) && id in products
    ensures ValidCatalog(RemoveProduct(products, id).value)
    ensures id !in RemoveProduct(products, id).value
  {
  }

  /** DELETE /api/products/:id (admins only). Cart lines and order lines that
      reference the product are left as they are. */
  method DeleteProduct(db: Db, id: ProductId) returns (r: Result<ProductId>)
    modifies db
    ensures ValidState(old(db.View())) ==> ValidState(db.View())
    ensures db.categories == old(db.categories) && db.carts == old(db.carts) && db.orders == old(db.orders)
    ensures RemoveProduct(old(db.products), id).Err? ==> r == Err(ProductNotFound) && db.products == old(db.products)
    ensures RemoveProduct(old(db.products), id).Ok? ==> r == Ok(id) && db.products == RemoveProduct(old(db.products), id).value
  {
    var removed := RemoveProduct(db.products, id);
    if removed.Err? {
      return Err(removed.error);
    }
    db.products := removed.value;
    r := Ok(id);
  }
}
