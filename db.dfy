/**
 * The storage layer of the storefront (app/db.py): the rows of the three tables
 * of the schema, the consistency the schema and the order service keep between
 * them, an in-memory store standing in for the sqlite connection, and the seeding
 * of the demo catalog.
 */
module Db {
  import opened Wrappers

  /** A row of `product`: `sku` is UNIQUE, `id` an AUTOINCREMENT primary key. */
  datatype Product = Product(id: int, sku: string, title: string, priceCents: int)

  /** A row of `"order"`. */
  datatype Order = Order(id: int, email: string, totalCents: int)

  /** A row of `order_item`, referring to an order and to a product by id. */
  datatype OrderItem = OrderItem(id: int, orderId: int, productId: int, quantity: int)

  /**
   * The contents of the database. Each table is kept in rowid order, the order in
   * which sqlite stores a rowid table; `productSeq`, `orderSeq` and `itemSeq` are
   * the tables' `sqlite_sequence` entries, the largest id AUTOINCREMENT has handed out.
   */
  datatype Tables = Tables(
    products: seq<Product>, orders: seq<Order>, items: seq<OrderItem>,
    productSeq: nat, orderSeq: nat, itemSeq: nat)

  /** A database just created by the schema script. */
  const Empty := Tables([], [], [], 0, 0, 0)

  // AUTOINCREMENT ids: positive, strictly increasing in rowid order, never above the counter.

  predicate ProductIdsAssigned(ps: seq<Product>, top: nat) {
    (forall i, j :: 0 <= i < j < |ps| ==> ps[i].id < ps[j].id) &&
    (forall i :: 0 <= i < |ps| ==> 1 <= ps[i].id <= top)
  }

  predicate OrderIdsAssigned(os: seq<Order>, top: nat) {
    (forall i, j :: 0 <= i < j < |os| ==> os[i].id < os[j].id) &&
    (forall i :: 0 <= i < |os| ==> 1 <= os[i].id <= top)
  }

  predicate ItemIdsAssigned(its: seq<OrderItem>, top: nat) {
    (forall i, j :: 0 <= i < j < |its| ==> its[i].id < its[j].id) &&
    (forall i :: 0 <= i < |its| ==> 1 <= its[i].id <= top)
  }

  /** The UNIQUE constraint on `product.sku`. */
  predicate SkusUnique(ps: seq<Product>) {
    forall i, j :: 0 <= i < j < |ps| ==> ps[i].sku != ps[j].sku
  }

  predicate SkuTaken(ps: seq<Product>, sku: string) {
    exists i :: 0 <= i < |ps| && ps[i].sku == sku
  }

  /** `SELECT * FROM product WHERE id = ?` */
  function ProductById(ps: seq<Product>, id: int): (r: Option<Product>)
    ensures r.Some? ==> r.value in ps && r.value.id == id
    ensures r.None? ==> forall i :: 0 <= i < |ps| ==> ps[i].id != id
  {
    if ps == [] then None
    else if ps[|ps| - 1].id == id then Some(ps[|ps| - 1])
    else ProductById(ps[..|ps| - 1], id)
  }

  /** `SELECT * FROM "order" WHERE id = ?` */
  function OrderById(os: seq<Order>, id: int): (r: Option<Order>)
    ensures r.Some? ==> r.value in os && r.value.id == id
    ensures r.None? ==> forall i :: 0 <= i < |os| ==> os[i].id != id
  {
    if os == [] then None
    else if os[|os| - 1].id == id then Some(os[|os| - 1])
    else OrderById(os[..|os| - 1], id)
  }

  /** `SELECT * FROM order_item WHERE order_id = ?`, in rowid order. */
  function ItemsOf(its: seq<OrderItem>, orderId: int): (r: seq<OrderItem>)
    ensures forall k :: 0 <= k < |r| ==> r[k] in its && r[k].orderId == orderId
    ensures forall i :: 0 <= i < |its| && its[i].orderId == orderId ==> its[i] in r
  {
    if its == [] then []
    else
      var last := its[|its| - 1];
      ItemsOf(its[..|its| - 1], orderId) + (if last.orderId == orderId then [last] else [])
  }

  /** Every line item points at an existing order and an existing product. */
  predicate ItemsLinked(t: Tables) {
    forall i :: 0 <= i < |t.items| ==>
      OrderById(t.orders, t.items[i].orderId).Some? &&
      ProductById(t.products, t.items[i].productId).Some?
  }

  /** An order has exactly one line item, and its total is that item's price times quantity. */
  predicate OrderBacked(t: Tables, o: Order) {
    var its := ItemsOf(t.items, o.id);
    |its| == 1 &&
    match ProductById(t.products, its[0].productId)
    case Some(p) => o.totalCents == p.priceCents * its[0].quantity
    case None => false
  }

  predicate TotalsDerived(t: Tables) {
    forall i :: 0 <= i < |t.orders| ==> OrderBacked(t, t.orders[i])
  }

  /** What holds of the database at every commit. */
  predicate Consistent(t: Tables) {
    ProductIdsAssigned(t.products, t.productSeq) &&
    OrderIdsAssigned(t.orders, t.orderSeq) &&
    ItemIdsAssigned(t.items, t.itemSeq) &&
    SkusUnique(t.products) &&
    ItemsLinked(t) &&
    TotalsDerived(t)
  }

  lemma EmptyConsistent()
    ensures Consistent(Empty)
  {
  }

  lemma {:induction false} ProductByIdFindsMember(ps: seq<Product>, k: int)
    requires forall i, j :: 0 <= i < j < |ps| ==> ps[i].id < ps[j].id
    requires 0 <= k < |ps|
    ensures ProductById(ps, ps[k].id) == Some(ps[k])
  {
    if k < |ps| - 1 {
      var prefix := ps[..|ps| - 1];
      assert prefix[k] == ps[k];
      ProductByIdFindsMember(prefix, k);
    }
  }

  lemma {:induction false} OrderByIdFindsMember(os: seq<Order>, k: int)
    requires forall i, j :: 0 <= i < j < |os| ==> os[i].id < os[j].id
    requires 0 <= k < |os|
    ensures OrderById(os, os[k].id) == Some(os[k])
  {
    if k < |os| - 1 {
      var prefix := os[..|os| - 1];
      assert prefix[k] == os[k];
      OrderByIdFindsMember(prefix, k);
    }
  }

  lemma {:induction false} ItemsOfAppend(its: seq<OrderItem>, x: OrderItem, orderId: int)
    ensures ItemsOf(its + [x], orderId) == ItemsOf(its, orderId) + (if x.orderId == orderId then [x] else [])
  {
    assert (its + [x])[..|its|] == its;
  }

  lemma {:induction false} ItemsOfNone(its: seq<OrderItem>, orderId: int)
    requires forall i :: 0 <= i < |its| ==> its[i].orderId != orderId
    ensures ItemsOf(its, orderId) == []
  {
    if its != [] {
      ItemsOfNone(its[..|its| - 1], orderId);
    }
  }

  lemma OrderByIdAppend(os: seq<Order>, o: Order, id: int)
    ensures OrderById(os + [o], id) == if o.id == id then Some(o) else OrderById(os, id)
  {
    assert (os + [o])[..|os|] == os;
  }

  // ---------------------------------------------------------------------------
  // The connection

  /**
   * The request's sqlite connection. Its fields are what the connection reads,
   * its own uncommitted writes included; `committed` is the database as of the
   * last commit, what any other connection would read.
   */
  class Store {
    var products: seq<Product>
    var orders: seq<Order>
    var items: seq<OrderItem>
    var productSeq: nat
    var orderSeq: nat
    var itemSeq: nat
    var committed: Tables
    /** Every database state committed so far, oldest first. */
    ghost var commits: seq<Tables>

    function Current(): Tables
      reads this
    {
      Tables(products, orders, items, productSeq, orderSeq, itemSeq)
    }

    /** Between requests: the database is consistent and no transaction is open. */
    predicate Valid()
      reads this
    {
      Consistent(Current()) && committed == Current()
    }

    /** A freshly created database file with the schema applied. */
    constructor ()
      ensures Valid() && Current() == Empty && commits == []
    {
      products, orders, items := [], [], [];
      productSeq, orderSeq, itemSeq := 0, 0, 0;
      committed := Empty;
      commits := [];
    }

    /** `INSERT INTO product (sku, title, price_cents)`: None is the UNIQUE violation on `sku`. */
    method InsertProduct(sku: string, title: string, priceCents: int) returns (rowid: Option<int>)
      modifies this`products, this`productSeq
      ensures rowid.None? <==> SkuTaken(old(products), sku)
      ensures rowid.None? ==> products == old(products) && productSeq == old(productSeq)
      ensures rowid.Some? ==>
        rowid.value == old(productSeq) + 1 && productSeq == rowid.value &&
        products == old(products) + [Product(rowid.value, sku, title, priceCents)]
    {
      if SkuTaken(products, sku) {
        rowid := None;
      } else {
        productSeq := productSeq + 1;
        products := products + [Product(productSeq, sku, title, priceCents)];
        rowid := Some(productSeq);
      }
    }

    /** `INSERT INTO "order" (email, total_cents)`; the result is `lastrowid`. */
    method InsertOrder(email: string, totalCents: int) returns (rowid: int)
      modifies this`orders, this`orderSeq
      ensures rowid == old(orderSeq) + 1 && orderSeq == rowid
      ensures orders == old(orders) + [Order(rowid, email, totalCents)]
    {
      orderSeq := orderSeq + 1;
      rowid := orderSeq;
      orders := orders + [Order(rowid, email, totalCents)];
    }

    /** `INSERT INTO order_item (order_id, product_id, quantity)`. */
    method InsertOrderItem(orderId: int, productId: int, quantity: int) returns (rowid: int)
      modifies this`items, this`itemSeq
      ensures rowid == old(itemSeq) + 1 && itemSeq == rowid
      ensures items == old(items) + [OrderItem(rowid, orderId, productId, quantity)]
    {
      itemSeq := itemSeq + 1;
      rowid := itemSeq;
      items := items + [OrderItem(rowid, orderId, productId, quantity)];
    }

    /** `commit()`: the connection's writes become the database. */
    method Commit()
      modifies this`committed, this`commits
      ensures committed == Current()
      ensures commits == old(commits) + [Current()]
    {
      committed := Current();
      commits := commits + [Current()];
    }
  }

  // ---------------------------------------------------------------------------
  // Demo catalog

  /** The rows `seed_demo_data` inserts: (sku, title, price_cents). */
  const DemoCatalog: seq<(string, string, int)> :=
    [("SKU-1", "Футболка", 1990), ("SKU-2", "Кепка", 1490), ("SKU-3", "Кружка", 990)]

  /** The demo rows as inserted after `base` ids have been handed out. */
  function DemoRows(base: nat): seq<Product> {
    seq(|DemoCatalog|, i requires 0 <= i < |DemoCatalog| =>
      Product(base + 1 + i, DemoCatalog[i].0, DemoCatalog[i].1, DemoCatalog[i].2))
  }

  /** The database after `seed_demo_data`: the demo rows are added only to an empty catalog. */
  function Seeded(t: Tables): (r: Tables)
    ensures |r.products| > 0
    ensures |t.products| > 0 ==> r == t
    ensures r.orders == t.orders && r.items == t.items
    ensures r.orderSeq == t.orderSeq && r.itemSeq == t.itemSeq
  {
    if |t.products| == 0 then
      t.(products := DemoRows(t.productSeq), productSeq := t.productSeq + |DemoCatalog|)
    else t
  }

  lemma DemoSkusDistinct()
    ensures forall i, j :: 0 <= i < j < |DemoCatalog| ==> DemoCatalog[i].0 != DemoCatalog[j].0
  {
    assert DemoCatalog[0].0[4] == '1' && DemoCatalog[1].0[4] == '2' && DemoCatalog[2].0[4] == '3';
  }

  /** Seeding an empty catalog inserts SKU-1/1990, SKU-2/1490, SKU-3/990, in that order. */
  lemma SeedEmptyCatalog(t: Tables)
    requires |t.products| == 0
    ensures Seeded(t).products == [
      Product(t.productSeq + 1, "SKU-1", "Футболка", 1990),
      Product(t.productSeq + 2, "SKU-2", "Кепка", 1490),
      Product(t.productSeq + 3, "SKU-3", "Кружка", 990)]
    ensures Seeded(t).productSeq == t.productSeq + 3
  {
  }

  lemma SeedIdempotent(t: Tables)
    ensures Seeded(Seeded(t)) == Seeded(t)
  {
  }

  lemma ItemsNeedProducts(t: Tables)
    requires ItemsLinked(t)
    ensures |t.items| > 0 ==> |t.products| > 0
  {
    if |t.items| > 0 {
      assert ProductById(t.products, t.items[0].productId).Some?;
    }
  }

  lemma OrdersNeedItems(t: Tables)
    requires TotalsDerived(t)
    ensures |t.orders| > 0 ==> |t.items| > 0
  {
    if |t.orders| > 0 {
      assert OrderBacked(t, t.orders[0]);
    }
  }

  lemma SeedKeepsConsistent(t: Tables)
    requires Consistent(t)
    ensures Consistent(Seeded(t))
  {
    if |t.products| == 0 {
      // With no product to point at there is no line item, and so no order either.
      ItemsNeedProducts(t);
      OrdersNeedItems(t);
      DemoSkusDistinct();
    }
  }

  /** `seed_demo_data`: count the products; if there are none, insert the demo rows and commit. */
  method SeedDemoData(db: Store)
    requires db.Valid()
    modifies db
    ensures db.Valid()
    ensures db.Current() == Seeded(old(db.Current()))
    ensures db.commits == old(db.commits) + (if |old(db.products)| == 0 then [db.Current()] else [])
  {
    if |db.products| == 0 {
      ghost var base := db.productSeq;
      DemoSkusDistinct();
      var i := 0;
      while i < |DemoCatalog|
        invariant 0 <= i <= |DemoCatalog|
        invariant db.products == DemoRows(base)[..i]
        invariant db.productSeq == base + i
        invariant db.orders == old(db.orders) && db.items == old(db.items)
        invariant db.orderSeq == old(db.orderSeq) && db.itemSeq == old(db.itemSeq)
        invariant db.committed == old(db.committed) && db.commits == old(db.commits)
      {
        assert !SkuTaken(db.products, DemoCatalog[i].0);
        var rowid := db.InsertProduct(DemoCatalog[i].0, DemoCatalog[i].1, DemoCatalog[i].2);
        assert DemoRows(base)[..i + 1] == DemoRows(base)[..i] + [DemoRows(base)[i]];
        i := i + 1;
      }
      SeedKeepsConsistent(old(db.Current()));
      db.Commit();
    }
  }
}
