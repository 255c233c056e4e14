/**
 * The order service (app/services/orders.py): look a product up by SKU, create an
 * order with exactly one line item, and read an order back joined to its products.
 */
module Orders {
  import opened Wrappers
  import opened Db

  /**
   * `SELECT * FROM product WHERE sku = ?`. The SKU is nullable: a request that
   * names no SKU binds NULL, and `sku = NULL` holds of no row.
   */
  function FindProductBySku(products: seq<Product>, sku: Option<string>): (r: Option<Product>)
    ensures r.Some? ==> r.value in products && sku == Some(r.value.sku)
    ensures r.None? <==> sku.None? || !SkuTaken(products, sku.value)
  {
    if sku.None? || products == [] then None
    else if products[|products| - 1].sku == sku.value then Some(products[|products| - 1])
    else FindProductBySku(products[..|products| - 1], sku)
  }

  /** With SKUs unique, the product found is the one that carries the SKU. */
  lemma {:induction false} FindProductBySkuUnique(products: seq<Product>, k: int)
    requires SkusUnique(products)
    requires 0 <= k < |products|
    ensures FindProductBySku(products, Some(products[k].sku)) == Some(products[k])
  {
    if k < |products| - 1 {
      var prefix := products[..|products| - 1];
      assert prefix[k] == products[k];
      FindProductBySkuUnique(prefix, k);
    }
  }

  /** What `create_order` returns, and the database it leaves behind. */
  datatype Placed = Placed(id: Option<int>, after: Tables)

  /**
   * `create_order`: on an unknown SKU nothing is written; otherwise one order row
   * with the derived total and one line item pointing at it and at the product.
   */
  function PlaceOrder(t: Tables, email: string, sku: Option<string>, quantity: int): (r: Placed)
    ensures r.id.None? <==> FindProductBySku(t.products, sku).None?
    ensures r.id.None? ==> r.after == t
    ensures r.after.products == t.products && r.after.productSeq == t.productSeq
    ensures r.id.Some? ==>
      var p := FindProductBySku(t.products, sku).value;
      r.id.value == t.orderSeq + 1 &&
      r.after.orders == t.orders + [Order(r.id.value, email, p.priceCents * quantity)] &&
      r.after.items == t.items + [OrderItem(t.itemSeq + 1, r.id.value, p.id, quantity)] &&
      r.after.orderSeq == t.orderSeq + 1 && r.after.itemSeq == t.itemSeq + 1
  {
    match FindProductBySku(t.products, sku)
    case None => Placed(None, t)
    case Some(p) =>
      var orderId := t.orderSeq + 1;
      var itemId := t.itemSeq + 1;
      Placed(Some(orderId), t.(
        orders := t.orders + [Order(orderId, email, p.priceCents * quantity)],
        items := t.items + [OrderItem(itemId, orderId, p.id, quantity)],
        orderSeq := orderId, itemSeq := itemId))
  }

  /** Every order id in a consistent database is at most the counter. */
  lemma LinkedOrdersBelowCounter(t: Tables)
    requires Consistent(t)
    ensures forall i :: 0 <= i < |t.items| ==> t.items[i].orderId <= t.orderSeq
  {
    forall i | 0 <= i < |t.items|
      ensures t.items[i].orderId <= t.orderSeq
    {
      var o := OrderById(t.orders, t.items[i].orderId).value;
      var j :| 0 <= j < |t.orders| && t.orders[j] == o;
    }
  }

  /** The new order has an id no row has had, and so does its line item. */
  lemma PlaceOrderFreshIds(t: Tables, email: string, sku: Option<string>, quantity: int)
    requires Consistent(t)
    ensures var r := PlaceOrder(t, email, sku, quantity);
      r.id.Some? ==>
        (forall i :: 0 <= i < |t.orders| ==> t.orders[i].id < r.id.value) &&
        (forall i :: 0 <= i < |t.items| ==> t.items[i].id < t.itemSeq + 1 && t.items[i].orderId != r.id.value)
  {
    LinkedOrdersBelowCounter(t);
  }

  /** Creating an order keeps every invariant of the database. */
  lemma PlaceOrderKeepsConsistent(t: Tables, email: string, sku: Option<string>, quantity: int)
    requires Consistent(t)
    ensures Consistent(PlaceOrder(t, email, sku, quantity).after)
  {
    var r := PlaceOrder(t, email, sku, quantity);
    if r.id.Some? {
      var p := FindProductBySku(t.products, sku).value;
      var o := Order(t.orderSeq + 1, email, p.priceCents * quantity);
      var x := OrderItem(t.itemSeq + 1, t.orderSeq + 1, p.id, quantity);
      var k :| 0 <= k < |t.products| && t.products[k] == p;
      ProductByIdFindsMember(t.products, k);
      AppendOrderKeepsConsistent(t, o, x, p);
      assert r.after == t.(orders := t.orders + [o], items := t.items + [x],
                           orderSeq := t.orderSeq + 1, itemSeq := t.itemSeq + 1);
    }
  }

  /** Appending an order with a fresh id and its one line item keeps the database consistent. */
  lemma AppendOrderKeepsConsistent(t: Tables, o: Order, x: OrderItem, p: Product)
    requires Consistent(t)
    requires o.id == t.orderSeq + 1 && x.id == t.itemSeq + 1
    requires x.orderId == o.id && x.productId == p.id
    requires ProductById(t.products, p.id) == Some(p)
    requires o.totalCents == p.priceCents * x.quantity
    ensures Consistent(t.(orders := t.orders + [o], items := t.items + [x],
                          orderSeq := t.orderSeq + 1, itemSeq := t.itemSeq + 1))
  {
    var u := t.(orders := t.orders + [o], items := t.items + [x],
                orderSeq := t.orderSeq + 1, itemSeq := t.itemSeq + 1);
    LinkedOrdersBelowCounter(t);
    AppendOrderIds(t.orders, o, t.orderSeq);
    AppendItemIds(t.items, x, t.itemSeq);
    PlacedOrderLinked(t, o, x);
    PlacedOrderBacked(t, o, x, p);
    assert ItemsLinked(u) && TotalsDerived(u);
  }

  lemma AppendOrderIds(os: seq<Order>, o: Order, top: nat)
    requires OrderIdsAssigned(os, top) && o.id == top + 1
    ensures OrderIdsAssigned(os + [o], top + 1)
  {
  }

  lemma AppendItemIds(its: seq<OrderItem>, x: OrderItem, top: nat)
    requires ItemIdsAssigned(its, top) && x.id == top + 1
    ensures ItemIdsAssigned(its + [x], top + 1)
  {
  }

  /** The appended item is linked, and no linked item loses its order. */
  lemma PlacedOrderLinked(t: Tables, o: Order, x: OrderItem)
    requires ItemsLinked(t)
    requires o.id == x.orderId
    requires ProductById(t.products, x.productId).Some?
    ensures ItemsLinked(t.(orders := t.orders + [o], items := t.items + [x]))
  {
    var u := t.(orders := t.orders + [o], items := t.items + [x]);
    forall i | 0 <= i < |u.items|
      ensures OrderById(u.orders, u.items[i].orderId).Some?
    {
      OrderByIdAppend(t.orders, o, u.items[i].orderId);
    }
  }

  /** The new order is backed by the new item; the old orders keep theirs. */
  lemma PlacedOrderBacked(t: Tables, o: Order, x: OrderItem, p: Product)
    requires TotalsDerived(t)
    requires forall i :: 0 <= i < |t.items| ==> t.items[i].orderId != o.id
    requires forall i :: 0 <= i < |t.orders| ==> t.orders[i].id != o.id
    requires x.orderId == o.id && x.productId == p.id
    requires ProductById(t.products, p.id) == Some(p)
    requires o.totalCents == p.priceCents * x.quantity
    ensures TotalsDerived(t.(orders := t.orders + [o], items := t.items + [x]))
  {
    var u := t.(orders := t.orders + [o], items := t.items + [x]);
    forall i | 0 <= i < |u.orders|
      ensures OrderBacked(u, u.orders[i])
    {
      ItemsOfAppend(t.items, x, u.orders[i].id);
      if i == |t.orders| {
        ItemsOfNone(t.items, o.id);
      } else {
        assert OrderBacked(t, t.orders[i]);
      }
    }
  }

  /**
   * `create_order` on the request's connection: the product lookup, the two
   * inserts, then a single commit covering both.
   */
  method CreateOrder(db: Store, email: string, sku: Option<string>, quantity: int) returns (orderId: Option<int>)
    requires db.Valid()
    modifies db
    ensures db.Valid()
    ensures Placed(orderId, db.Current()) == PlaceOrder(old(db.Current()), email, sku, quantity)
    ensures db.commits == old(db.commits) + (if orderId.Some? then [db.Current()] else [])
  {
    ghost var before := db.Current();
    var product := FindProductBySku(db.products, sku);
    if product.None? {
      return None;
    }
    var p := product.value;
    var total := p.priceCents * quantity;
    var id := db.InsertOrder(email, total);
    var itemId := db.InsertOrderItem(id, p.id, quantity);
    ghost var placed := PlaceOrder(before, email, sku, quantity);
    assert db.Current() == placed.after;
    PlaceOrderKeepsConsistent(before, email, sku, quantity);
    db.Commit();
    orderId := Some(id);
  }

  /** A row of the item query: the `order_item` row and its product's sku, title and price. */
  datatype JoinedItem = JoinedItem(item: OrderItem, sku: string, title: string, priceCents: int)

  /** The item joined to its product: sku, title and price come from that product. */
  predicate JoinedWith(j: JoinedItem, products: seq<Product>) {
    match ProductById(products, j.item.productId)
    case Some(p) => j.sku == p.sku && j.title == p.title && j.priceCents == p.priceCents
    case None => false
  }

  /** Every item of `its` has its product. */
  predicate AllLinked(its: seq<OrderItem>, products: seq<Product>) {
    forall i :: 0 <= i < |its| ==> ProductById(products, its[i].productId).Some?
  }

  /** One item's contribution to the join: its row, or nothing when its product is missing. */
  function JoinOne(x: OrderItem, products: seq<Product>): seq<JoinedItem> {
    match ProductById(products, x.productId)
    case Some(p) => [JoinedItem(x, p.sku, p.title, p.priceCents)]
    case None => []
  }

  /** `JOIN product p ON p.id = oi.product_id`: an item without its product drops out. */
  function JoinProducts(its: seq<OrderItem>, products: seq<Product>): (r: seq<JoinedItem>)
    ensures |r| <= |its|
    ensures forall k :: 0 <= k < |r| ==> r[k].item in its && JoinedWith(r[k], products)
  {
    if its == [] then []
    else
      var prefix := its[..|its| - 1];
      var head := JoinProducts(prefix, products);
      assert forall k :: 0 <= k < |head| ==> head[k].item in its;
      head + JoinOne(its[|its| - 1], products)
  }

  /** When every item has its product, the join keeps every item, in order. */
  lemma {:induction false} JoinProductsAllLinked(its: seq<OrderItem>, products: seq<Product>)
    requires AllLinked(its, products)
    ensures |JoinProducts(its, products)| == |its|
    ensures forall k :: 0 <= k < |its| ==> JoinProducts(its, products)[k].item == its[k]
  {
    if its != [] {
      var prefix := its[..|its| - 1];
      assert AllLinked(prefix, products) by {
        forall i | 0 <= i < |prefix| ensures ProductById(products, prefix[i].productId).Some? {
          assert prefix[i] == its[i];
        }
      }
      JoinProductsAllLinked(prefix, products);
      var head := JoinProducts(prefix, products);
      var x := its[|its| - 1];
      var p := ProductById(products, x.productId).value;
      assert JoinOne(x, products) == [JoinedItem(x, p.sku, p.title, p.priceCents)];
      var r := JoinProducts(its, products);
      assert r == head + [JoinedItem(x, p.sku, p.title, p.priceCents)];
      forall k | 0 <= k < |its| ensures r[k].item == its[k] {
        if k < |prefix| {
          assert r[k] == head[k];
          assert prefix[k] == its[k];
        }
      }
    }
  }

  /** What `get_order` returns: the order row, if any, and its joined items. */
  datatype OrderLookup = OrderLookup(order: Option<Order>, items: seq<JoinedItem>)

  /** `get_order`: two read-only queries, the order by id and its items joined to their products. */
  function GetOrder(t: Tables, orderId: int): (r: OrderLookup)
    ensures r.order.Some? ==> r.order.value in t.orders && r.order.value.id == orderId
    ensures r.order.None? <==> forall i :: 0 <= i < |t.orders| ==> t.orders[i].id != orderId
    ensures forall k :: 0 <= k < |r.items| ==>
      r.items[k].item in t.items && r.items[k].item.orderId == orderId &&
      JoinedWith(r.items[k], t.products)
  {
    OrderLookup(OrderById(t.orders, orderId), JoinProducts(ItemsOf(t.items, orderId), t.products))
  }

  /** In a consistent database a missing order has no items either. */
  lemma GetOrderMissing(t: Tables, orderId: int)
    requires Consistent(t)
    requires forall i :: 0 <= i < |t.orders| ==> t.orders[i].id != orderId
    ensures GetOrder(t, orderId) == OrderLookup(None, [])
  {
    forall i | 0 <= i < |t.items|
      ensures t.items[i].orderId != orderId
    {
      assert OrderById(t.orders, t.items[i].orderId).Some?;
    }
    ItemsOfNone(t.items, orderId);
  }

  /** In a consistent database, every order reads back with exactly its one line item. */
  lemma GetOrderExisting(t: Tables, k: int)
    requires Consistent(t)
    requires 0 <= k < |t.orders|
    ensures var r := GetOrder(t, t.orders[k].id);
      r.order == Some(t.orders[k]) &&
      |r.items| == 1 && r.items[0].item == ItemsOf(t.items, t.orders[k].id)[0] &&
      JoinedWith(r.items[0], t.products)
  {
    var o := t.orders[k];
    OrderByIdFindsMember(t.orders, k);
    var its := ItemsOf(t.items, o.id);
    assert OrderBacked(t, o);
    ItemsOfLinked(t, o.id);
    JoinProductsAllLinked(its, t.products);
  }

  /** The items of any one order all have their products. */
  lemma ItemsOfLinked(t: Tables, orderId: int)
    requires ItemsLinked(t)
    ensures AllLinked(ItemsOf(t.items, orderId), t.products)
  {
    var its := ItemsOf(t.items, orderId);
    forall i | 0 <= i < |its|
      ensures ProductById(t.products, its[i].productId).Some?
    {
      var j :| 0 <= j < |t.items| && t.items[j] == its[i];
    }
  }

  /** Reading back a just-created order yields it and exactly its one line item. */
  lemma GetOrderAfterPlaceOrder(t: Tables, email: string, sku: Option<string>, quantity: int)
    requires Consistent(t)
    requires FindProductBySku(t.products, sku).Some?
    ensures var r := PlaceOrder(t, email, sku, quantity);
      var p := FindProductBySku(t.products, sku).value;
      r.id.Some? &&
      GetOrder(r.after, r.id.value) == OrderLookup(
        Some(Order(r.id.value, email, p.priceCents * quantity)),
        [JoinedItem(OrderItem(t.itemSeq + 1, r.id.value, p.id, quantity), p.sku, p.title, p.priceCents)])
  {
    var r := PlaceOrder(t, email, sku, quantity);
    var p := FindProductBySku(t.products, sku).value;
    var o := Order(r.id.value, email, p.priceCents * quantity);
    var x := OrderItem(t.itemSeq + 1, r.id.value, p.id, quantity);
    OrderByIdAppend(t.orders, o, o.id);
    LinkedOrdersBelowCounter(t);
    ItemsOfNone(t.items, o.id);
    ItemsOfAppend(t.items, x, o.id);
    var k :| 0 <= k < |t.products| && t.products[k] == p;
    ProductByIdFindsMember(t.products, k);
    assert JoinProducts([x], t.products) == [JoinedItem(x, p.sku, p.title, p.priceCents)] by {
      assert [x][..0] == [];
    }
  }
}
