/** Values shared by every part of the bakery back end: optional values, the
    error responses the controllers send, the identifiers of stored documents
    and the JavaScript truthiness tests (`x || y`, `if (x)`) that the
    controllers apply to request fields. */
module Common {

  datatype Option<T> = None | Some(value: T) {
    /** `x !== undefined ? x : d` and the destructuring default `{ x = d }`. */
    function GetOr(default: T): T {
      if Some? then value else default
    }
  }

  datatype Result<T> = Ok(value: T) | Err(error: ApiError)

  /** Document identifiers. Orders are identified by their position in the
      order collection, since orders are never deleted. */
  type ProductId = nat
  type CategoryId = nat
  type UserId = nat
  type OrderId = nat

  /** The authenticated principal the auth middleware attaches to a request. */
  datatype Caller = Caller(id: UserId, isAdmin: bool, name: string, phone: Option<string>)

  /** Why a request ends in a 500: a schema validator rejected a save, a
      property was read from `null` or `undefined`, a body was not JSON, or
      the database refused a query. */
  datatype Cause = ValidationFailed | NullDereference | MalformedJson | QueryFailed

  /** Every response other than a success, with the data its message carries. */
  datatype ApiError =
    | CartEmpty                                     // 400 'Cart is empty'
    | OrderProductMissing(productName: string)      // 400 'Product <name> not found'
    | InsufficientStock(name: string, available: int) // 400 'Insufficient stock for <name>. Available: <n>'
    | ProductNotFound                               // 404 'Product not found'
    | OutOfStock                                    // 400 'Product is out of stock'
    | OnlyAvailable(available: int)                 // 400 'Only <n> items available in stock'
    | CartNotFound                                  // 404 'Cart not found'
    | ItemNotInCart                                 // 404 'Item not found in cart'
    | OrderNotFound                                 // 404 'Order not found'
    | NotAuthorized                                 // 403 'Not authorized'
    | CannotCancel                                  // 400 'Cannot cancel order that is already being processed'
    | CategoryNotFound                              // 404 'Category not found'
    | CategoryExists                                // 400 'Category already exists'
    | InvalidAmount                                 // 400 'Invalid amount'
    | MissingPaymentDetails                         // 400 'Missing payment details'
    | InvalidPaymentSignature                       // 400 'Invalid payment signature'
    | MissingSignature                              // 400 'Missing signature'
    | InvalidSignature                              // 400 'Invalid signature'
    | ServerError(cause: Cause)                     // 500 'Server error'

  /** The HTTP status code each error is sent with. */
  function HttpStatus(e: ApiError): (code: int)
    ensures code == 500 <==> e.ServerError?
    ensures code == 403 <==> e.NotAuthorized?
    ensures code == 404 <==> (e.ProductNotFound? || e.CartNotFound? || e.ItemNotInCart? ||
                              e.OrderNotFound? || e.CategoryNotFound?)
    ensures code in {400, 403, 404, 500}
  {
    match e
    case ServerError(_) => 500
    case NotAuthorized => 403
    case ProductNotFound | CartNotFound | ItemNotInCart | OrderNotFound | CategoryNotFound => 404
    case _ => 400
  }

  /** JavaScript truthiness of an optional string: absent and "" are falsy. */
  predicate Present(s: Option<string>) {
    s.Some? && s.value != ""
  }

  /** JavaScript truthiness of an optional number: absent and 0 are falsy. */
  predicate Truthy(x: Option<real>) {
    x.Some? && x.value != 0.0
  }

  /** `s || fallback` for an optional string. */
  function StringOr(s: Option<string>, fallback: string): (r: string)
    ensures Present(s) ==> r == s.value
    ensures !Present(s) ==> r == fallback
  {
    if Present(s) then s.value else fallback
  }

  /** The decimal digits of `n`, as `String(n)` writes them. */
  function Decimal(n: nat): (r: string)
    ensures |r| >= 1
    ensures forall i :: 0 <= i < |r| ==> '0' <= r[i] <= '9'
    ensures (|r| == 1) == (n < 10)
    decreases n
  {
    if n < 10 then [Digit(n)] else Decimal(n / 10) + [Digit(n % 10)]
  }

  function Digit(d: nat): (c: char)
    requires d < 10
    ensures '0' <= c <= '9'
  {
    ['0', '1', '2', '3', '4', '5', '6', '7', '8', '9'][d]
  }

  lemma DigitInjective(a: nat, b: nat)
    requires a < 10 && b < 10
    ensures Digit(a) == Digit(b) ==> a == b
  {
  }

  /** Distinct numbers are written with distinct digit strings. */
  lemma {:induction false} DecimalInjective(a: nat, b: nat)
    ensures Decimal(a) == Decimal(b) ==> a == b
    decreases a
  {
    if Decimal(a) == Decimal(b) {
      var da, db := Decimal(a), Decimal(b);
      if a < 10 {
        assert b < 10;
        DigitInjective(a, b);
      } else {
        assert b >= 10;
        assert da[..|da| - 1] == Decimal(a / 10);
        assert db[..|db| - 1] == Decimal(b / 10);
        DecimalInjective(a / 10, b / 10);
        assert da[|da| - 1] == Digit(a % 10);
        assert db[|db| - 1] == Digit(b % 10);
        DigitInjective(a % 10, b % 10);
      }
    }
  }
}
