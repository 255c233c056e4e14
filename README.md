# Storefront order creation, modelled in Dafny

This project models the core of a small Flask and sqlite storefront. That core covers
three things. First, the order service: it looks a product up by SKU, creates an order
with exactly one line item whose total is `price_cents * quantity`, and reads an order
back joined to its products. Second, the seeding of the demo catalog, which happens only
when the catalog is empty, and the record shapes of the schema. Third, the request
handling of the pages and of the JSON API, which turns request fields into a status and
a call to `create_order`.

The database is replaced by values and one class:

- `Db.Tables` holds the three tables as sequences in rowid order, which is the order in
  which sqlite stores a rowid table. It also holds one AUTOINCREMENT counter per table,
  the table's `sqlite_sequence` entry. A new row's id is that counter plus one.
- `Db.Consistent` is what holds at every commit. Ids are positive, strictly increasing
  and never above the counter. SKUs are unique. Every line item points at an existing
  order and an existing product. Every order has exactly one line item, and its total
  is that item's product price times its quantity.
- `Db.Store` is the request's connection. Its fields are what the connection reads,
  including its own uncommitted writes. `committed` is the database as of the last
  commit. `InsertProduct`, `InsertOrder`, `InsertOrderItem` and `Commit` are the SQL
  statements the core issues.
- `Orders.PlaceOrder` and `Db.Seeded` define the effect of `create_order` and
  `seed_demo_data`. The methods `Orders.CreateOrder` and `Db.SeedDemoData` are proved
  against them, and the lemmas state what the source promises about them.
- In `Routes`, each route is a decision function over the request's fields and the
  tables. The two routes that place orders (`api_create_order` and `checkout` on POST)
  also have a handler method. It runs the decision and calls `CreateOrder` on the store.

Behaviour of the code worth stating explicitly:

- A quantity is replaced by 1 only when it is falsy in Python's sense: absent, `None`,
  the empty string or the integer 0. A checkout form field is always a string, so a form
  quantity of `"0"` is truthy and reaches `create_order` as 0. The same holds for the
  JSON string `"0"`. Only the JSON integer 0 becomes 1 (`Routes.Quantity`).
- A quantity that is not a number is not defaulted. `int(...)` raises, and the request
  fails. That path is left out (see below).
- The service accepts any quantity, including zero and negative ones, and any email.
  Only the routes require a non-empty email.
- An API item without a `sku` is not a 400. `create_order` receives `None`, the SQL
  comparison `sku = NULL` matches no row, and the answer is 404 "SKU not found". The
  model therefore gives the SKU argument of `FindProductBySku` and `CreateOrder` the
  type `Option<string>`.

## Model

| member | source | states |
|---|---|---|
| `Db.ProductById` | app/services/orders.py:49 | the product joined to an item is one whose id matches, or none when no product has that id |
| `Db.OrderById` | app/services/orders.py:47 | the order found is in the table and has the asked id; none exactly when no row has it |
| `Db.ItemsOf` | app/services/orders.py:48-51 | the item rows of an order: every row returned has that `order_id`, and every such row of the table is returned |
| `Db.EmptyConsistent` | app/db.py:14-31 | a freshly created database satisfies every table invariant |
| `Db.ProductByIdFindsMember` | app/db.py:16 | with strictly increasing primary keys, looking up a product's id finds that very product |
| `Db.OrderByIdFindsMember` | app/db.py:22 | with strictly increasing primary keys, looking up an order's id finds that very order |
| `Db.ItemsOfNone` | app/services/orders.py:48-51 | an order id that no item carries has no item rows |
| `Db.ItemsNeedProducts` | app/db.py:29 | a line item refers to a product, so an empty catalog has no line items |
| `Db.OrdersNeedItems` | app/services/orders.py:31-36 | every order has its line item, so a database without line items has no orders |
| `Db.Store.constructor` | app/db.py:54-58 | a newly initialised database is consistent, has no rows, and every AUTOINCREMENT counter is 0 |
| `Db.Store.InsertProduct` | app/db.py:15-20 | a duplicate SKU is rejected and nothing changes; otherwise one row is appended with the next id |
| `Db.Store.InsertOrder` | app/services/orders.py:31-32 | appends one order row with id counter+1 and returns that id as `lastrowid` |
| `Db.Store.InsertOrderItem` | app/services/orders.py:33-36 | appends one line item row with the next item id and the given order, product and quantity |
| `Db.Store.Commit` | app/services/orders.py:37 | the connection's writes, both inserts included, become the committed database, and that state is appended to the history of commits |
| `Db.Seeded` | app/db.py:61-77 | the catalog is non-empty afterwards; a non-empty catalog is left unchanged; orders and items are never touched |
| `Db.DemoSkusDistinct` | app/db.py:72-74 | the three demo SKUs are pairwise distinct |
| `Db.SeedEmptyCatalog` | app/db.py:69-76 | seeding an empty catalog inserts exactly SKU-1/1990, SKU-2/1490, SKU-3/990, in that order, with the next three ids |
| `Db.SeedIdempotent` | app/db.py:67-68 | seeding twice gives the same database as seeding once |
| `Db.SeedKeepsConsistent` | app/db.py:67-77 | seeding keeps every table invariant, unique SKUs included |
| `Db.SeedDemoData` | app/db.py:61-77 | the method counts the products and inserts the demo rows one by one only into an empty catalog; the committed result is `Seeded` of the old database, reached by exactly one commit when seeding and none otherwise |
| `Orders.FindProductBySku` | app/services/orders.py:13-17 | returns a product of the table carrying exactly that SKU, or none exactly when no product carries it (always none for a NULL SKU) |
| `Orders.FindProductBySkuUnique` | app/db.py:17 | with unique SKUs, the lookup returns the one product that carries the SKU |
| `Orders.PlaceOrder` | app/services/orders.py:20-38 | an unknown SKU yields none and an unchanged database; otherwise the result is the next order id, one order row with the given email and total price*quantity, and one item linking it to the product with the quantity; the product table never changes |
| `Orders.LinkedOrdersBelowCounter` | app/db.py:21-28 | every item's order id is at most the order counter |
| `Orders.PlaceOrderFreshIds` | app/services/orders.py:31-32 | the new order's id is greater than every existing order id, and neither it nor the new item id was ever used |
| `Orders.AppendOrderIds` | app/db.py:22 | an order appended with counter+1 keeps order ids strictly increasing and within the counter |
| `Orders.AppendItemIds` | app/db.py:27 | an item appended with counter+1 keeps item ids strictly increasing and within the counter |
| `Orders.PlacedOrderLinked` | app/services/orders.py:33-36 | the new item points at the new order and an existing product, and no older item loses its order |
| `Orders.PlacedOrderBacked` | app/services/orders.py:30-36 | the new order has exactly one item and its total is that item's price times quantity; older orders keep theirs |
| `Orders.AppendOrderKeepsConsistent` | app/services/orders.py:31-36 | appending an order and its one item with fresh ids keeps every invariant |
| `Orders.PlaceOrderKeepsConsistent` | app/services/orders.py:26-38 | creating an order, successful or not, keeps every invariant |
| `Orders.CreateOrder` | app/services/orders.py:20-38 | the lookup, the two inserts and the single commit have exactly the effect of `PlaceOrder`; the store is consistent and fully committed afterwards; the history of commits grows by exactly one state, holding both rows, when the order is placed and by none when the SKU is unknown, so no state with only one of the two rows is ever committed |
| `Orders.JoinProducts` | app/services/orders.py:48-51 | every joined row carries an item of the input with the sku, title and price of that item's product |
| `Orders.JoinProductsAllLinked` | app/services/orders.py:48-51 | when every item has its product, the join keeps every item, in order |
| `Orders.GetOrder` | app/services/orders.py:41-52 | the order is the row with that id, or none exactly when no row has it; every item row belongs to that order and carries its product's fields |
| `Orders.GetOrderExisting` | app/services/orders.py:47-51 | in a consistent database, every existing order reads back as itself with exactly one joined row: its line item, carrying its product's sku, title and price |
| `Orders.ItemsOfLinked` | app/db.py:29 | when every item references an existing product, so do the items of any one order |
| `Orders.GetOrderMissing` | app/services/orders.py:46-52 | in a consistent database, an id with no order gives (none, empty list) |
| `Orders.GetOrderAfterPlaceOrder` | app/services/orders.py:47-51 | reading back a just-created order gives that order and exactly one item with the product's sku, title and price and the quantity |
| `Routes.Quantity` | app/routes.py:101 | `int(q or 1)`: a missing, empty or zero quantity becomes 1, any other value is kept, and the result is 0 only for the string "0" |
| `Routes.ListProducts` | app/routes.py:87 | every product exactly once, by strictly ascending id |
| `Routes.Index` | app/routes.py:27-32 | the catalog page shows every product of the table exactly once, by strictly ascending id |
| `Routes.ApiProducts` | app/routes.py:83-88 | 200 with every product exactly once, by ascending id, with its id, sku, title and price |
| `Routes.ProductPage` | app/routes.py:35-42 | 404 exactly when no product has the SKU; otherwise the page of the product that has it |
| `Routes.CheckoutPage` | app/routes.py:51-59 | GET: 400 exactly when the `sku` argument is missing or empty, 404 exactly when it names no product, and the form, for that product, exactly when the argument is given and names a product |
| `Routes.CheckoutDecision` | app/routes.py:61-66 | POST: 400 exactly when sku or email is missing or empty; otherwise the order to place; the quantity is 1 for a missing or empty field (or "1") and 0 exactly for the field "0", since form fields are always text |
| `Routes.CheckoutReply` | app/routes.py:67-70 | POST: 404 exactly when `create_order` returned none, else a redirect to that order's page |
| `Routes.Checkout` | app/routes.py:45-70 | GET never writes or commits; a rejected POST writes and commits nothing; an accepted POST commits once exactly when the order is placed, and has the effect of `PlaceOrder` and answers with its result |
| `Routes.OrderSuccess` | app/routes.py:73-79 | 404 exactly when no order has the id; otherwise the order with its joined items |
| `Routes.ApiOrderDecision` | app/routes.py:94-101 | 400 "email and items are required" exactly when the email is missing or empty or there are no items; otherwise the first item's SKU and defaulted quantity and the email |
| `Routes.ApiOrderReply` | app/routes.py:102-105 | 404 "SKU not found" exactly when `create_order` returned none, else 201 with that id |
| `Routes.ApiCreateOrder` | app/routes.py:91-105 | a rejected request writes and commits nothing; an accepted one commits once exactly when the order is placed, and has the effect of `PlaceOrder` and answers with its result |
| `Routes.ApiOnlyFirstItem` | app/routes.py:99-101 | items after the first do not change the decision, so they change neither the response nor the store |
| `Routes.ApiUnknownSku` | app/routes.py:102-104 | an accepted request for an unknown or missing SKU answers 404 "SKU not found" and writes nothing |
| `Routes.ApiKnownSku` | app/routes.py:102-105 | an accepted request for a known SKU answers 201 with the new order's id, and that order carries the email and the derived total |
| `Routes.SeededListing` | app/routes.py:83-88 | on a freshly seeded database the API lists exactly the three demo products with ids 1, 2, 3 |
| `Routes.SeededShirt` | app/db.py:72 | the freshly seeded database is consistent and sells SKU-1 as product 1 at 1990 |
| `Routes.SeededApiOrder` | app/routes.py:91-105 | two SKU-1 items ordered through the API on a freshly seeded database give 201 with id 1 and an order whose total is 3980 |
| `Routes.SeededApiUnknownSku` | app/routes.py:102-104 | the SKU "NOPE" on a freshly seeded database gives 404 "SKU not found" and writes nothing |

## Left out

- The Flask machinery is not modelled: blueprint registration, `render_template` (a page is the `View` it would be rendered with), `redirect`/`url_for` (the response `RedirectToOrder`), `jsonify`, and the parsing of the request body. A body that is not JSON is modelled as one with neither field.
- The `before_app_request` hook (app/routes.py:21-24) is not modelled. It runs `seed_demo_data` before every request. `SeedDemoData` is a method of its own and the handlers do not call it.
- `get_db`/`close_db` (the connection cached in `g`) and the execution of the DDL in `init_db` are not modelled. The store is passed explicitly, and its constructor stands for a freshly initialised database.
- `app/__init__.py` and `app.py` (the app factory, `DATABASE_URL`, the dev server) are not part of this model.
- `int(...)` raising on a quantity that is not a number (app/routes.py:64,101) is not modelled. A quantity arrives already read as an integer.
- JSON values of the wrong type are not modelled: a non-string email or SKU, a float or boolean quantity, an `items` value that is not a list, an item that is not an object.
- Storage failures are not modelled. A failure between the two inserts would end the request before the commit, and the open transaction would be rolled back. Overflow of sqlite's 64-bit INTEGER by a large total is also not modelled: totals are unbounded integers.
- The item query in `get_order` has no ORDER BY. The model returns items in rowid order, which is one order sqlite may produce.
- `Routes.ListProducts`, `Routes.Index`, `Routes.ApiProducts`: these require `Consistent`, under which rowid order (the table's storage order) is id order, so `ORDER BY id` returns the table as stored. The model does not sort a table whose ids are out of order.
- Concurrent requests and the storage engine's write serialisation are not modelled.
