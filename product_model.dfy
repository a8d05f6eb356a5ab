/** The Product document: its fields, the schema's enum, bounds and defaults,
    and the `inStock` virtual. */
module ProductModel {
  import opened Common

  datatype PriceUnit = Piece | Kg

  function PriceUnitName(u: PriceUnit): string {
    match u
    case Piece => "piece"
    case Kg => "kg"
  }

  /** The `enum: ['piece', 'kg']` validator: the unit a stored string names. */
  function ParsePriceUnit(s: string): (r: Option<PriceUnit>)
    ensures r.Some? <==> s == "piece" || s == "kg"
    ensures r.Some? ==> PriceUnitName(r.value) == s
  {
    if s == "piece" then Some(Piece) else if s == "kg" then Some(Kg) else None
  }

  /** Every unit round-trips through its stored name. */
  lemma PriceUnitRoundTrip(u: PriceUnit)
    ensures ParsePriceUnit(PriceUnitName(u)) == Some(u)
  {
  }

  datatype Product = Product(
    name: string,
    description: Option<string>,
    price: real,
    priceUnit: PriceUnit,
    category: CategoryId,
    subcategory: Option<string>,
    image: string,
    stock: int,
    isAvailable: bool,
    isFeatured: bool,
    createdAt: int)

  /** What the schema's validators demand of a saved product: a name
      (required strings must be non-empty), `price >= 0` and `stock >= 0`. */
  predicate ValidProduct(p: Product) {
    p.name != "" && p.price >= 0.0 && p.stock >= 0
  }

  predicate ValidCatalog(products: map<ProductId, Product>) {
    forall id :: id in products ==> ValidProduct(products[id])
  }

  /** The `inStock` virtual. */
  predicate InStock(p: Product) {
    p.stock > 0 && p.isAvailable
  }

  /** For a stored product, being out of stock means stock 0 or withdrawn. */
  lemma NotInStockMeansEmptyOrUnavailable(p: Product)
    requires ValidProduct(p)
    ensures !InStock(p) <==> p.stock == 0 || !p.isAvailable
  {
  }

  /** The fields a create request may leave out; `None` is `undefined`. */
  datatype ProductDraft = ProductDraft(
    name: Option<string>,
    description: Option<string>,
    price: Option<real>,
    priceUnit: Option<string>,
    category: Option<CategoryId>,
    subcategory: Option<string>,
    image: Option<string>,
    stock: Option<int>,
    isAvailable: Option<bool>,
    isFeatured: Option<bool>)

  /** `new Product(draft)` followed by validation: the schema defaults fill
      the missing fields (unit 'piece', stock 0, available, not featured,
      image ''), and a draft the validators reject yields `None`. */
  function NewProduct(d: ProductDraft, now: int): (r: Option<Product>)
    ensures r.Some? <==>
      && Present(d.name) && d.price.Some? && d.price.value >= 0.0 && d.category.Some?
      && d.stock.GetOr(0) >= 0
      && (d.priceUnit.None? || ParsePriceUnit(d.priceUnit.value).Some?)
    ensures r.Some? ==> ValidProduct(r.value)
    ensures r.Some? ==> r.value.priceUnit == (if d.priceUnit.None? then Piece else ParsePriceUnit(d.priceUnit.value).value)
    ensures r.Some? ==> r.value.stock == d.stock.GetOr(0) && r.value.image == d.image.GetOr("")
    ensures r.Some? ==> r.value.isAvailable == d.isAvailable.GetOr(true) && r.value.isFeatured == d.isFeatured.GetOr(false)
    ensures r.Some? ==> r.value.name == d.name.value && r.value.price == d.price.value && r.value.createdAt == now
    ensures r.Some? ==> r.value.category == d.category.value && r.value.description == d.description && r.value.subcategory == d.subcategory
  {
    var unit := if d.priceUnit.None? then Some(Piece) else ParsePriceUnit(d.priceUnit.value);
    if !Present(d.name) || d.price.None? || d.price.value < 0.0 || d.category.None?
       || d.stock.GetOr(0) < 0 || unit.None?
    then None
    else Some(Product(d.name.value, d.description, d.price.value, unit.value, d.category.value,
                      d.subcategory, d.image.GetOr(""), d.stock.GetOr(0),
                      d.isAvailable.GetOr(true), d.isFeatured.GetOr(false), now))
  }
}
