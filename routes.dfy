/**
 * The request handling of the storefront (app/routes.py): for each route, the
 * decision that turns request fields and lookups into a response, and for the two
 * routes that place orders, a handler that runs the decision against the store.
 */
module Routes {
  import opened Wrappers
  import opened Db
  import opened Orders

  /** What a page template is rendered with. */
  datatype View =
    | CatalogView(products: seq<Product>)
    | ProductView(product: Product)
    | CheckoutView(product: Product)
    | OrderView(order: Order, items: seq<JoinedItem>)

  /** The JSON bodies of the API. */
  datatype Body =
    | ErrorMessage(error: string)
    | CreatedOrder(id: int)
    | ProductList(products: seq<Product>)

  datatype Response =
    | Page(view: View)              // 200, a rendered template
    | Json(status: int, body: Body)
    | RedirectToOrder(orderId: int) // 302 to the confirmation page /order/<id>
    | Abort(status: int)            // an error page

  function Status(r: Response): int {
    match r
    case Page(_) => 200
    case Json(status, _) => status
    case RedirectToOrder(_) => 302
    case Abort(status) => status
  }

  /** A text field that is present and, in Python's sense, truthy: not the empty string. */
  predicate Given(field: Option<string>) {
    field.Some? && field.value != ""
  }

  /**
   * A quantity as it arrives: absent (or JSON null), the empty string, a JSON
   * integer, or a non-empty string that `int()` reads as `n`.
   */
  datatype QuantityField = Missing | Blank | Number(n: int) | Numeral(n: int)

  /** Python's falsy values among those: None, "" and 0. A string such as "0" is truthy. */
  predicate Falsy(q: QuantityField) {
    q.Missing? || q.Blank? || q == Number(0)
  }

  /** `int(value or 1)` */
  function Quantity(q: QuantityField): (n: int)
    ensures Falsy(q) ==> n == 1
    ensures !Falsy(q) ==> n == q.n
    ensures n == 0 <==> q == Numeral(0)
  {
    if Falsy(q) then 1 else q.n
  }

  /** What a validated request asks of `create_order`, or the response that ends it early. */
  datatype Decision =
    | Reject(response: Response)
    | Place(email: string, sku: Option<string>, quantity: int)

  // ---------------------------------------------------------------------------
  // Catalog pages and listing

  /** `SELECT ... FROM product ORDER BY id`: in a consistent table, rowid order is id order. */
  function ListProducts(t: Tables): (r: seq<Product>)
    requires Consistent(t)
    ensures |r| == |t.products|
    ensures forall p :: p in r <==> p in t.products
    ensures forall i, j :: 0 <= i < j < |r| ==> r[i].id < r[j].id
  {
    t.products
  }

  /** `index`: the catalog page. */
  function Index(t: Tables): (r: Response)
    requires Consistent(t)
    ensures r.Page? && r.view.CatalogView?
    ensures |r.view.products| == |t.products|
    ensures forall p :: p in r.view.products <==> p in t.products
    ensures forall i, j :: 0 <= i < j < |r.view.products| ==> r.view.products[i].id < r.view.products[j].id
  {
    Page(CatalogView(ListProducts(t)))
  }

  /** `api_products`: every product once, by ascending id, with id, sku, title and price_cents. */
  function ApiProducts(t: Tables): (r: Response)
    requires Consistent(t)
    ensures r.Json? && r.status == 200 && r.body.ProductList?
    ensures |r.body.products| == |t.products|
    ensures forall p :: p in r.body.products <==> p in t.products
    ensures forall i, j :: 0 <= i < j < |r.body.products| ==> r.body.products[i].id < r.body.products[j].id
  {
    Json(200, ProductList(ListProducts(t)))
  }

  /** `product_page`: 404 unless some product carries the SKU. */
  function ProductPage(t: Tables, sku: string): (r: Response)
    ensures r == Abort(404) <==> !SkuTaken(t.products, sku)
    ensures r != Abort(404) ==>
      r.Page? && r.view.ProductView? && r.view.product in t.products && r.view.product.sku == sku
  {
    match FindProductBySku(t.products, Some(sku))
    case None => Abort(404)
    case Some(p) => Page(ProductView(p))
  }

  // ---------------------------------------------------------------------------
  // Checkout form

  /** A form field is always text: absent, empty, or a numeral, never a JSON integer. */
  type FormQuantity = q: QuantityField | !q.Number? witness Missing

  datatype CheckoutForm = CheckoutForm(sku: Option<string>, email: Option<string>, quantity: FormQuantity)

  datatype CheckoutRequest =
    | CheckoutGet(sku: Option<string>)   // the `sku` query argument
    | CheckoutPost(form: CheckoutForm)

  /** `checkout` on GET: 400 without a SKU, 404 for an unknown one, else the form for the product. */
  function CheckoutPage(t: Tables, sku: Option<string>): (r: Response)
    ensures Status(r) == 400 <==> !Given(sku)
    ensures Status(r) == 404 <==> Given(sku) && !SkuTaken(t.products, sku.value)
    ensures r.Abort? || r.Page?
    ensures r.Page? <==> Given(sku) && SkuTaken(t.products, sku.value)
    ensures r.Page? ==>
      r.view.CheckoutView? && r.view.product in t.products && sku == Some(r.view.product.sku)
  {
    if !Given(sku) then Abort(400)
    else
      match FindProductBySku(t.products, sku)
      case None => Abort(404)
      case Some(p) => Page(CheckoutView(p))
  }

  /** `checkout` on POST, up to the call of `create_order`: 400 when sku or email is empty. */
  function CheckoutDecision(form: CheckoutForm): (d: Decision)
    ensures d.Reject? <==> !Given(form.sku) || !Given(form.email)
    ensures d.Reject? ==> d.response == Abort(400)
    ensures d.Place? ==>
      d.email == form.email.value && d.sku == form.sku && d.quantity == Quantity(form.quantity)
    ensures d.Place? ==> (d.quantity == 1 <==> form.quantity.Missing? || form.quantity.Blank? || form.quantity == Numeral(1))
    ensures d.Place? ==> (d.quantity == 0 <==> form.quantity == Numeral(0))
  {
    if !Given(form.sku) || !Given(form.email) then Reject(Abort(400))
    else Place(form.email.value, form.sku, Quantity(form.quantity))
  }

  /** `checkout` on POST, after `create_order`: 404 for None, else the redirect to the order. */
  function CheckoutReply(placed: Option<int>): (r: Response)
    ensures r == Abort(404) <==> placed.None?
    ensures placed.Some? ==> r == RedirectToOrder(placed.value) && Status(r) == 302
  {
    match placed
    case None => Abort(404)
    case Some(id) => RedirectToOrder(id)
  }

  /** The `/checkout` route. */
  method Checkout(db: Store, req: CheckoutRequest) returns (resp: Response)
    requires db.Valid()
    modifies db
    ensures db.Valid()
    ensures req.CheckoutGet? ==>
      resp == CheckoutPage(old(db.Current()), req.sku) &&
      db.Current() == old(db.Current()) && db.commits == old(db.commits)
    ensures req.CheckoutPost? ==>
      match CheckoutDecision(req.form)
      case Reject(r) => resp == r && db.Current() == old(db.Current()) && db.commits == old(db.commits)
      case Place(email, sku, quantity) =>
        var placed := PlaceOrder(old(db.Current()), email, sku, quantity);
        resp == CheckoutReply(placed.id) && db.Current() == placed.after &&
        db.commits == old(db.commits) + (if placed.id.Some? then [placed.after] else [])
  {
    match req
    case CheckoutGet(sku) =>
      resp := CheckoutPage(db.Current(), sku);
    case CheckoutPost(form) =>
      match CheckoutDecision(form)
      case Reject(r) =>
        resp := r;
      case Place(email, sku, quantity) =>
        var placed := CreateOrder(db, email, sku, quantity);
        resp := CheckoutReply(placed);
  }

  /** `order_success`: 404 when no order has the id, else the order with its joined items. */
  function OrderSuccess(t: Tables, orderId: nat): (r: Response)
    ensures r == Abort(404) <==> forall i :: 0 <= i < |t.orders| ==> t.orders[i].id != orderId
    ensures r != Abort(404) ==>
      r.Page? && r.view.OrderView? && r.view.order in t.orders && r.view.order.id == orderId &&
      r.view.items == GetOrder(t, orderId).items
  {
    var found := GetOrder(t, orderId);
    match found.order
    case None => Abort(404)
    case Some(o) => Page(OrderView(o, found.items))
  }

  // ---------------------------------------------------------------------------
  // JSON order API

  datatype ItemField = ItemField(sku: Option<string>, quantity: QuantityField)

  /**
   * The JSON body of `POST /api/orders`; a body that is not JSON reads as one with
   * neither field.
   */
  datatype ApiOrderRequest = ApiOrderRequest(email: Option<string>, items: Option<seq<ItemField>>)

  const RequiredMessage := "email and items are required"
  const NotFoundMessage := "SKU not found"

  /** `api_create_order` up to `create_order`: 400 without email or items; else only the first item counts. */
  function ApiOrderDecision(req: ApiOrderRequest): (d: Decision)
    ensures d.Reject? <==> !Given(req.email) || req.items.None? || req.items.value == []
    ensures d.Reject? ==> d.response == Json(400, ErrorMessage(RequiredMessage))
    ensures d.Place? ==>
      d.email == req.email.value &&
      d.sku == req.items.value[0].sku && d.quantity == Quantity(req.items.value[0].quantity)
  {
    var items := if req.items.Some? then req.items.value else [];
    if !Given(req.email) || items == [] then Reject(Json(400, ErrorMessage(RequiredMessage)))
    else
      var first := items[0];
      Place(req.email.value, first.sku, Quantity(first.quantity))
  }

  /** `api_create_order` after `create_order`: 404 for None, else 201 with the id. */
  function ApiOrderReply(placed: Option<int>): (r: Response)
    ensures placed.None? <==> r == Json(404, ErrorMessage(NotFoundMessage))
    ensures placed.Some? ==> r == Json(201, CreatedOrder(placed.value))
  {
    match placed
    case None => Json(404, ErrorMessage(NotFoundMessage))
    case Some(id) => Json(201, CreatedOrder(id))
  }

  /** The `POST /api/orders` route. */
  method ApiCreateOrder(db: Store, req: ApiOrderRequest) returns (resp: Response)
    requires db.Valid()
    modifies db
    ensures db.Valid()
    ensures match ApiOrderDecision(req)
      case Reject(r) => resp == r && db.Current() == old(db.Current()) && db.commits == old(db.commits)
      case Place(email, sku, quantity) =>
        var placed := PlaceOrder(old(db.Current()), email, sku, quantity);
        resp == ApiOrderReply(placed.id) && db.Current() == placed.after &&
        db.commits == old(db.commits) + (if placed.id.Some? then [placed.after] else [])
  {
    match ApiOrderDecision(req)
    case Reject(r) =>
      resp := r;
    case Place(email, sku, quantity) =>
      var placed := CreateOrder(db, email, sku, quantity);
      resp := ApiOrderReply(placed);
  }

  // ---------------------------------------------------------------------------
  // Properties of the request handling

  /** Items after the first never change what the API does. */
  lemma ApiOnlyFirstItem(req: ApiOrderRequest, rest: seq<ItemField>)
    requires req.items.Some? && req.items.value != []
    ensures ApiOrderDecision(req.(items := Some([req.items.value[0]] + rest))) == ApiOrderDecision(req)
  {
  }

  /** An accepted API order whose SKU is unknown answers 404 and writes nothing. */
  lemma ApiUnknownSku(t: Tables, req: ApiOrderRequest)
    requires ApiOrderDecision(req).Place?
    requires req.items.value[0].sku.None? || !SkuTaken(t.products, req.items.value[0].sku.value)
    ensures var d := ApiOrderDecision(req);
      var placed := PlaceOrder(t, d.email, d.sku, d.quantity);
      ApiOrderReply(placed.id) == Json(404, ErrorMessage(NotFoundMessage)) && placed.after == t
  {
  }

  /** An accepted API order for a known SKU answers 201 with the id of the one order it adds. */
  lemma ApiKnownSku(t: Tables, req: ApiOrderRequest, p: Product)
    requires ApiOrderDecision(req).Place?
    requires FindProductBySku(t.products, req.items.value[0].sku) == Some(p)
    ensures var d := ApiOrderDecision(req);
      var placed := PlaceOrder(t, d.email, d.sku, d.quantity);
      ApiOrderReply(placed.id) == Json(201, CreatedOrder(t.orderSeq + 1)) &&
      placed.after.orders == t.orders + [Order(t.orderSeq + 1, req.email.value, p.priceCents * d.quantity)]
  {
  }

  /** The seeded catalog as listed by the API. */
  lemma SeededListing()
    ensures ApiProducts(Seeded(Empty)) == Json(200, ProductList([
      Product(1, "SKU-1", "Футболка", 1990),
      Product(2, "SKU-2", "Кепка", 1490),
      Product(3, "SKU-3", "Кружка", 990)]))
  {
    EmptyConsistent();
    SeedKeepsConsistent(Empty);
    SeedEmptyCatalog(Empty);
  }

  /** Two SKU-1 shirts on a freshly seeded database: order 1, with a total of 3980. */
  lemma SeededApiOrder()
    ensures var t := Seeded(Empty);
      var d := ApiOrderDecision(ApiOrderRequest(Some("a@b.com"), Some([ItemField(Some("SKU-1"), Number(2))])));
      d.Place? &&
      var placed := PlaceOrder(t, d.email, d.sku, d.quantity);
      ApiOrderReply(placed.id) == Json(201, CreatedOrder(1)) &&
      GetOrder(placed.after, 1).order == Some(Order(1, "a@b.com", 3980))
  {
    var t := Seeded(Empty);
    var req := ApiOrderRequest(Some("a@b.com"), Some([ItemField(Some("SKU-1"), Number(2))]));
    var shirt := Product(1, "SKU-1", "Футболка", 1990);
    SeededShirt();
    assert ApiOrderDecision(req) == Place("a@b.com", Some("SKU-1"), 2);
    ApiKnownSku(t, req, shirt);
    GetOrderAfterPlaceOrder(t, "a@b.com", Some("SKU-1"), 2);
  }

  /** The seeded database is consistent, has handed out no order id, and sells SKU-1 at 1990. */
  lemma SeededShirt()
    ensures Consistent(Seeded(Empty)) && Seeded(Empty).orderSeq == 0
    ensures SkuTaken(Seeded(Empty).products, "SKU-1")
    ensures FindProductBySku(Seeded(Empty).products, Some("SKU-1")) == Some(Product(1, "SKU-1", "Футболка", 1990))
  {
    var t := Seeded(Empty);
    EmptyConsistent();
    SeedKeepsConsistent(Empty);
    SeedEmptyCatalog(Empty);
    assert t.products[0] == Product(1, "SKU-1", "Футболка", 1990);
    FindProductBySkuUnique(t.products, 0);
  }

  /** An SKU the seeded catalog lacks: 404, nothing written. */
  lemma SeededApiUnknownSku()
    ensures var t := Seeded(Empty);
      var d := ApiOrderDecision(ApiOrderRequest(Some("a@b.com"), Some([ItemField(Some("NOPE"), Missing)])));
      d.Place? &&
      var placed := PlaceOrder(t, d.email, d.sku, d.quantity);
      ApiOrderReply(placed.id) == Json(404, ErrorMessage("SKU not found")) && placed.after == t
  {
    var t := Seeded(Empty);
    SeedEmptyCatalog(Empty);
    forall i | 0 <= i < |t.products|
      ensures t.products[i].sku != "NOPE"
    {
      assert t.products[i].sku[0] == 'S';
    }
  }
}
