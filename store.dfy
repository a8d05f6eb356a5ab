/** The database the controllers read and write: the product, category, cart
    and order collections, held by one object whose fields the operations
    reassign. Carts and categories are described here because their schema
    files are not part of this model. */
module Store {
  import opened Common
  import opened ProductModel
  import opened OrderModel

  /** A cart line: a product reference, a quantity and, for goods sold by
      weight, the weight chosen. */
  datatype CartItem = CartItem(product: ProductId, quantity: int, weight: Option<real>)

  datatype Cart = Cart(items: seq<CartItem>)

  datatype Subcategory = Subcategory(name: Option<string>, description: Option<string>)

  datatype Category = Category(
    name: string,
    description: Option<string>,
    image: Option<string>,
    subcategories: seq<Subcategory>,
    isActive: bool)

  /** Cart lines are saved with a quantity of at least one. */
  predicate LinesValid(items: seq<CartItem>) {
    forall i :: 0 <= i < |items| ==> items[i].quantity >= 1
  }

  /** No product appears on two lines of one cart. */
  predicate OneLinePerProduct(items: seq<CartItem>) {
    forall i, j :: 0 <= i < j < |items| ==> items[i].product != items[j].product
  }

  /** The price of `quantity` units of `p`: by weight when the product is
      sold by the kilogram and a weight was chosen, else by count. Order
      creation, the cart totals and payment verification all use it. */
  function LinePrice(p: Product, quantity: int, weight: Option<real>): (r: real)
    ensures p.priceUnit == Kg && Truthy(weight) ==> r == p.price * weight.value
    ensures !(p.priceUnit == Kg && Truthy(weight)) ==> r == p.price * quantity as real
  {
    if p.priceUnit == Kg && Truthy(weight) then p.price * weight.value else p.price * quantity as real
  }

  /** Two worked cases: two pieces at 45 cost 90; half a kilo at 450/kg costs 225. */
  lemma LinePriceExamples(p: Product)
    ensures LinePrice(p.(price := 45.0, priceUnit := Piece), 2, None) == 90.0
    ensures LinePrice(p.(price := 450.0, priceUnit := Kg), 1, Some(0.5)) == 225.0
    ensures LinePrice(p.(price := 450.0, priceUnit := Kg), 3, Some(0.0)) == 1350.0
  {
  }

  /** No two stored categories share a name: the unique index on `name`. */
  predicate UniqueNames(categories: map<CategoryId, Category>) {
    forall a, b :: a in categories && b in categories && a != b ==> categories[a].name != categories[b].name
  }

  /** The whole database as a value. */
  datatype State = State(
    products: map<ProductId, Product>,
    categories: map<CategoryId, Category>,
    carts: map<UserId, Cart>,
    orders: seq<Order>)

  /** What the schemas guarantee of stored documents. */
  ghost predicate ValidState(s: State) {
    && ValidCatalog(s.products)
    && UniqueNames(s.categories)
    && (forall u :: u in s.carts ==> LinesValid(s.carts[u].items) && OneLinePerProduct(s.carts[u].items))
    && (forall k :: 0 <= k < |s.orders| ==> ValidOrder(s.orders[k]))
  }

  class Db {
    var products: map<ProductId, Product>
    var categories: map<CategoryId, Category>
    var carts: map<UserId, Cart>
    var orders: seq<Order>

    constructor ()
      ensures View() == State(map[], map[], map[], [])
      ensures ValidState(View())
    {
      products, categories, carts, orders := map[], map[], map[], [];
    }

    /** The collections as one value, for contracts. */
    function View(): State
      reads this
    {
      State(products, categories, carts, orders)
    }
  }
}
