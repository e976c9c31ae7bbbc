/**
 * The `/orders` routes: checkout turns the caller's cart lines into a paid
 * order, and the two ownership-filtered lookups list and show orders.
 */
module OrderRoutes {
  import opened Wrappers
  import opened Tables
  import opened ProductSchema
  import opened CartSchema
  import opened Api
  import opened Db
  import opened CartRoutes

  const PlacedMessage := "Order placed successfully"

  /** The body checkout returns: message, the new order's key and the charged total. */
  datatype Receipt = Receipt(message: string, orderId: nat, total: real)

  /** The body `GET /orders/{order_id}` returns: the order and its items. */
  datatype OrderDetail = OrderDetail(order: Row<Order>, items: seq<Row<OrderItem>>)

  /** Every line refers to a stored product (the lookup at checkout cannot fail). */
  ghost predicate Priced(lines: seq<Row<CartItem>>, products: seq<Row<Product>>) {
    forall i :: 0 <= i < |lines| ==> lines[i].data.productId in Ids(products)
  }

  /**
   * The order item written for one cart line: the product's id, name and price
   * as stored at checkout time, the line's quantity and their product.
   */
  function Snapshot(key: nat, orderId: nat, line: Row<CartItem>, products: seq<Row<Product>>): (r: Row<OrderItem>)
    requires line.data.productId in Ids(products)
    ensures r.id == key && r.data.orderId == orderId
    ensures r.data.productId == line.data.productId && r.data.quantity == line.data.quantity
    ensures Pairwise(products, DistinctIds) ==>
      forall p :: Row(line.data.productId, p) in products ==> p.name == r.data.productName && p.price == r.data.productPrice
    ensures r.data.subtotal == LineAmount(r.data.productPrice, r.data.quantity)
  {
    var p := Find(products, line.data.productId).value;
    Row(key, OrderItem(orderId, line.data.productId, p.name, p.price, line.data.quantity, LineAmount(p.price, line.data.quantity)))
  }

  /** The order items checkout writes for `lines`, in order, under consecutive keys from `firstId`. */
  function OrderLines(orderId: nat, lines: seq<Row<CartItem>>, products: seq<Row<Product>>, firstId: nat): (r: seq<Row<OrderItem>>)
    requires Priced(lines, products)
    ensures |r| == |lines|
    ensures forall i :: 0 <= i < |r| ==> r[i] == Snapshot(firstId + i, orderId, lines[i], products)
  {
    if lines == [] then []
    else
      var init := lines[..|lines| - 1];
      assert forall x :: x in init ==> x in lines;
      OrderLines(orderId, init, products, firstId) + [Snapshot(firstId + |init|, orderId, lines[|lines| - 1], products)]
  }

  /** What checkout charges for `lines`: the stored price times the quantity, summed from the left. */
  function Charge(lines: seq<Row<CartItem>>, products: seq<Row<Product>>): real
    requires Priced(lines, products)
  {
    if lines == [] then 0.0
    else
      var init := lines[..|lines| - 1];
      var last := lines[|lines| - 1];
      assert forall x :: x in init ==> x in lines;
      Charge(init, products) + LineAmount(Find(products, last.data.productId).value.price, last.data.quantity)
  }

  /**
   * Against a catalogue of valid products (price above 0), lines of at least
   * one unit are never charged a negative amount, and a non-empty run of them
   * is charged a positive one.
   */
  lemma {:induction false} ChargePositive(lines: seq<Row<CartItem>>, products: seq<Row<Product>>)
    requires Priced(lines, products) && CatalogOk(products)
    requires forall i :: 0 <= i < |lines| ==> lines[i].data.quantity >= 1
    ensures Charge(lines, products) >= 0.0
    ensures lines != [] ==> Charge(lines, products) > 0.0
  {
    if lines != [] {
      var init, last := lines[..|lines| - 1], lines[|lines| - 1];
      assert forall x :: x in init ==> x in lines;
      ChargePositive(init, products);
      var price := Find(products, last.data.productId).value.price;
      assert Row(last.data.productId, Find(products, last.data.productId).value) in products;
      PositiveProduct(price, last.data.quantity as real);
    }
  }

  /**
   * `POST /orders/checkout`. The caller's cart lines are read; none is a 400
   * that changes nothing. Otherwise a pending order with total 0 is inserted,
   * then for each line an order item snapshotting the product is inserted and
   * the line is deleted, and finally the order gets the running total and
   * status paid. The caller's cart rows stay, emptied; other carts' lines
   * stay as they were.
   */
  method Checkout(db: Store, user: UserId, now: Timestamp) returns (r: Result<Receipt, ApiError>)
    requires db.Valid()
    modifies db
    ensures db.Valid()
    ensures var lines := LinesIn(old(db.cartItems), CartIdsOf(old(db.carts), user));
      lines == [] ==> r == Failure(CartIsEmpty) && unchanged(db)
    ensures var lines := LinesIn(old(db.cartItems), CartIdsOf(old(db.carts), user));
      lines != [] ==>
        && Priced(lines, old(db.products))
        && var id := old(db.nextId);
           var total := Charge(lines, old(db.products));
           && r == Success(Receipt(PlacedMessage, id, total))
           && db.orders == old(db.orders) + [Row(id, Order(user, total, now, Paid))]
           && db.orderItems == old(db.orderItems) + OrderLines(id, lines, old(db.products), id + 1)
           && db.cartItems == RemoveIds(old(db.cartItems), Ids(lines))
           && db.nextId == id + 1 + |lines|
    ensures LinesIn(db.cartItems, CartIdsOf(db.carts, user)) == []
    ensures db.products == old(db.products) && db.categories == old(db.categories) && db.carts == old(db.carts)
  {
    var lines := LinesIn(db.cartItems, CartIdsOf(db.carts, user));
    if lines == [] {
      return Failure(CartIsEmpty);
    }
    LinesPriced(db.cartItems, CartIdsOf(db.carts, user), db.products);
    DrainCart(db.cartItems, CartIdsOf(db.carts, user));
    r := PlaceOrder(db, user, now, lines);
  }

  /**
   * Checkout of the lines `lines`: a pending order is staged, then an order
   * item for each line and the line's deletion, then the order is given its
   * total and status paid, and everything is committed.
   */
  method PlaceOrder(db: Store, user: UserId, now: Timestamp, lines: seq<Row<CartItem>>) returns (r: Result<Receipt, ApiError>)
    requires db.Valid() && Priced(lines, db.products)
    modifies db
    ensures db.Valid()
    ensures db.products == old(db.products) && db.categories == old(db.categories) && db.carts == old(db.carts)
    ensures var id := old(db.nextId);
      var total := Charge(lines, old(db.products));
      && r == Success(Receipt(PlacedMessage, id, total))
      && db.orders == old(db.orders) + [Row(id, Order(user, total, now, Paid))]
      && db.orderItems == old(db.orderItems) + OrderLines(id, lines, old(db.products), id + 1)
      && db.cartItems == RemoveIds(old(db.cartItems), Ids(lines))
      && db.nextId == id + 1 + |lines|
  {
    var orderId := db.nextId;
    // the source commits a pending order with total 0 first (backend/routes/order.py:41);
    // here the paid order is written once, together with its items and the deletions, at the commit
    var total, added, deleted := StageLines(db.products, orderId, lines, orderId + 1);
    var placed := db.orders + [Row(orderId, Order(user, total, now, Paid))];
    CheckoutKeepsValid(db.products, db.categories, db.carts, db.cartItems, db.orders, db.orderItems, orderId, user, now, lines,
                       total, added, deleted, placed);
    Commit(db, placed, db.orderItems + added, RemoveIds(db.cartItems, deleted), orderId + 1 + |lines|);
    r := Success(Receipt(PlacedMessage, orderId, total));
  }

  /** The commit at the end of checkout: the orders, order items and cart lines the session staged are written. */
  method Commit(db: Store, orders: seq<Row<Order>>, orderItems: seq<Row<OrderItem>>, cartItems: seq<Row<CartItem>>, nextId: nat)
    requires Consistent(db.products, db.categories, db.carts, cartItems, orders, orderItems, nextId)
    modifies db
    ensures db.Valid()
    ensures db.orders == orders && db.orderItems == orderItems && db.cartItems == cartItems && db.nextId == nextId
    ensures db.products == old(db.products) && db.categories == old(db.categories) && db.carts == old(db.carts)
  {
    db.orders, db.orderItems, db.cartItems, db.nextId := orders, orderItems, cartItems, nextId;
  }

  /**
   * The loop of checkout: for each line, in order, the order item the session
   * stages under the next fresh key, and the line it stages for deletion;
   * `total` is the running total. The staged rows are written at the commit
   * that follows the loop.
   */
  method StageLines(products: seq<Row<Product>>, orderId: nat, lines: seq<Row<CartItem>>, firstId: nat)
    returns (total: real, added: seq<Row<OrderItem>>, deleted: set<nat>)
    requires Priced(lines, products)
    ensures total == Charge(lines, products)
    ensures added == OrderLines(orderId, lines, products, firstId)
    ensures deleted == Ids(lines)
  {
    total, added, deleted := 0.0, [], {};
    assert lines[..0] == [] && Ids(lines[..0]) == {};
    for i := 0 to |lines|
      invariant total == Charge(lines[..i], products)
      invariant added == OrderLines(orderId, lines[..i], products, firstId)
      invariant deleted == Ids(lines[..i])
    {
      var line := lines[i];
      PrefixStep(lines, products, i, orderId, firstId);
      var product := Find(products, line.data.productId).value;
      var subtotal := LineAmount(product.price, line.data.quantity);
      total := total + subtotal;
      added := added + [Row(firstId + i, OrderItem(orderId, line.data.productId, product.name, product.price, line.data.quantity, subtotal))];
      deleted := deleted + {line.id};
    }
    assert lines[..|lines|] == lines;
  }

  /** One more line of a prefix: its order items, charge and keys grow by that line. */
  lemma PrefixStep(lines: seq<Row<CartItem>>, products: seq<Row<Product>>, i: nat, orderId: nat, firstId: nat)
    requires i < |lines| && Priced(lines, products)
    ensures Priced(lines[..i + 1], products) && Priced(lines[..i], products)
    ensures Ids(lines[..i + 1]) == Ids(lines[..i]) + {lines[i].id}
    ensures OrderLines(orderId, lines[..i + 1], products, firstId)
         == OrderLines(orderId, lines[..i], products, firstId) + [Snapshot(firstId + i, orderId, lines[i], products)]
    ensures Charge(lines[..i + 1], products)
         == Charge(lines[..i], products) + LineAmount(Find(products, lines[i].data.productId).value.price, lines[i].data.quantity)
  {
    var a, b := lines[..i], lines[..i + 1];
    assert b == a + [lines[i]];
    assert b[..i] == a;
    assert b[i] in b;
    forall x | x in a ensures x in b { }
    forall x | x in b ensures x in a || x == lines[i] { }
  }

  /** The cart lines after the loop's `db.delete(item)` for each of `lines`, in order. */
  function DeleteEach(items: seq<Row<CartItem>>, lines: seq<Row<CartItem>>): (r: seq<Row<CartItem>>)
    ensures forall x {:trigger x in r} {:trigger x in items} :: x in r <==> x in items && x.id !in Ids(lines)
    ensures |r| <= |items|
  {
    if lines == [] then
      assert Ids(lines) == {};
      items
    else
      var init, last := lines[..|lines| - 1], lines[|lines| - 1];
      assert lines == init + [last];
      IdsSnoc(init, last);
      RemoveIds(DeleteEach(items, init), {last.id})
  }

  /** Deleting the lines one at a time, as the loop does, deletes exactly the keys checkout stages for deletion. */
  lemma {:induction false} DeleteEachIsBatch(items: seq<Row<CartItem>>, lines: seq<Row<CartItem>>)
    ensures DeleteEach(items, lines) == RemoveIds(items, Ids(lines))
  {
    if lines == [] {
      assert Ids(lines) == {};
      RemoveNothing(items, {});
    } else {
      var init, last := lines[..|lines| - 1], lines[|lines| - 1];
      DeleteEachIsBatch(items, init);
      RemoveIdsTwice(items, Ids(init), last.id);
      assert lines == init + [last];
      IdsSnoc(init, last);
    }
  }

  /** Lines taken from a table whose every line refers to a stored product refer to stored products. */
  lemma LinesPriced(items: seq<Row<CartItem>>, cartIds: set<nat>, products: seq<Row<Product>>)
    requires forall x {:trigger x in items} :: x in items ==> x.data.productId in Ids(products)
    ensures Priced(LinesIn(items, cartIds), products)
  {
    var lines := LinesIn(items, cartIds);
    assert forall i :: 0 <= i < |lines| ==> lines[i] in lines;
  }

  /** Deleting the lines of the carts in `cartIds` leaves those carts without lines. */
  lemma DrainCart(items: seq<Row<CartItem>>, cartIds: set<nat>)
    ensures LinesIn(RemoveIds(items, Ids(LinesIn(items, cartIds))), cartIds) == []
  {
    var rest := RemoveIds(items, Ids(LinesIn(items, cartIds)));
    forall x | x in rest
      ensures x.data.cartId !in cartIds
    {
    }
    LinesInNone(rest, cartIds);
  }

  /**
   * With unique keys, deleting the lines of the carts in `cartIds` keeps every
   * line of every other cart.
   */
  lemma OtherCartsKept(items: seq<Row<CartItem>>, bound: nat, cartIds: set<nat>)
    requires Keyed(items, bound)
    ensures forall x :: x in items && x.data.cartId !in cartIds ==> x in RemoveIds(items, Ids(LinesIn(items, cartIds)))
  {
    var lines := LinesIn(items, cartIds);
    forall x | x in items && x.data.cartId !in cartIds
      ensures x in RemoveIds(items, Ids(lines))
    {
      if x.id in Ids(lines) {
        var y :| y in lines && y.id == x.id;
        KeyedRow(items, bound, x, y);
      }
    }
  }

  /** The tables checkout commits are consistent again. */
  lemma CheckoutKeepsValid(products: seq<Row<Product>>, categories: seq<Row<Category>>, carts: seq<Row<Cart>>,
                           cartItems: seq<Row<CartItem>>, orders: seq<Row<Order>>, orderItems: seq<Row<OrderItem>>,
                           orderId: nat, user: UserId, now: Timestamp, lines: seq<Row<CartItem>>,
                           total: real, added: seq<Row<OrderItem>>, deleted: set<nat>, placed: seq<Row<Order>>)
    requires Consistent(products, categories, carts, cartItems, orders, orderItems, orderId)
    requires Priced(lines, products)
    requires total == Charge(lines, products) && added == OrderLines(orderId, lines, products, orderId + 1) && deleted == Ids(lines)
    requires placed == orders + [Row(orderId, Order(user, total, now, Paid))]
    ensures Consistent(products, categories, carts, RemoveIds(cartItems, deleted), placed, orderItems + added, orderId + 1 + |lines|)
  {
    var n := orderId + 1 + |lines|;
    var o := Row(orderId, Order(user, Charge(lines, products), now, Paid));
    KeyedGrow(products, orderId, n);
    KeyedGrow(categories, orderId, n);
    KeyedGrow(carts, orderId, n);
    KeyedRemove(cartItems, orderId, Ids(lines));
    KeyedGrow(RemoveIds(cartItems, Ids(lines)), orderId, n);
    KeyedAppend(orders, orderId, o);
    KeyedGrow(orders + [o], orderId + 1, n);
    KeyedOrderLines(orderItems, orderId, lines, products);
    CartsAfterCheckout(carts, cartItems, products, Ids(lines));
    OrdersAfterPlacing(orders, orderItems, user, now, lines, products, orderId);
  }

  /** Deleting cart lines keeps the remaining ones consistent. */
  lemma CartsAfterCheckout(carts: seq<Row<Cart>>, items: seq<Row<CartItem>>, products: seq<Row<Product>>, ids: set<nat>)
    requires CartsOk(carts, items, products)
    ensures CartsOk(carts, RemoveIds(items, ids), products)
  {
    PairwiseRemove(items, ids, DifferentLines);
  }

  /** The placed order and its items keep every order consistent. */
  lemma OrdersAfterPlacing(orders: seq<Row<Order>>, items: seq<Row<OrderItem>>, user: UserId, now: Timestamp,
                           lines: seq<Row<CartItem>>, products: seq<Row<Product>>, orderId: nat)
    requires OrdersOk(orders, items) && Keyed(orders, orderId) && Priced(lines, products)
    ensures OrdersOk(orders + [Row(orderId, Order(user, Charge(lines, products), now, Paid))],
                     items + OrderLines(orderId, lines, products, orderId + 1))
  {
    var added := OrderLines(orderId, lines, products, orderId + 1);
    var o := Row(orderId, Order(user, Charge(lines, products), now, Paid));
    forall x | x in added
      ensures x.data.orderId == orderId
      ensures x.data.subtotal == LineAmount(x.data.productPrice, x.data.quantity)
    {
      var i :| 0 <= i < |added| && added[i] == x;
    }
    OrderLinesTotal(orderId, lines, products, orderId + 1);
    assert o.data.totalAmount == SubtotalSum(added);
    OrdersAfterCheckout(orders, items, o, added);
  }

  /** The new order items carry fresh, distinct keys. */
  lemma KeyedOrderLines(items: seq<Row<OrderItem>>, orderId: nat, lines: seq<Row<CartItem>>, products: seq<Row<Product>>)
    requires Keyed(items, orderId) && Priced(lines, products)
    ensures Keyed(items + OrderLines(orderId, lines, products, orderId + 1), orderId + 1 + |lines|)
  {
    var u := items + OrderLines(orderId, lines, products, orderId + 1);
    forall i, j | 0 <= i < j < |u|
      ensures DistinctIds(u[i], u[j])
    {
      if j < |items| {
        assert DistinctIds(items[i], items[j]);
      } else if i < |items| {
        assert items[i] in items;
      }
    }
    forall x | x in u
      ensures x.id < orderId + 1 + |lines|
    {
      var i :| 0 <= i < |u| && u[i] == x;
      if i < |items| {
        assert items[i] in items;
      }
    }
  }

  /**
   * Appending a paid order whose total is the sum of its new items keeps
   * every order's total equal to the sum of its items.
   */
  lemma OrdersAfterCheckout(orders: seq<Row<Order>>, items: seq<Row<OrderItem>>, o: Row<Order>, added: seq<Row<OrderItem>>)
    requires OrdersOk(orders, items)
    requires Keyed(orders, o.id)
    requires forall x :: x in added ==> x.data.orderId == o.id
    requires forall x :: x in added ==> x.data.subtotal == LineAmount(x.data.productPrice, x.data.quantity)
    requires o.data.status == Paid && o.data.totalAmount == SubtotalSum(added)
    ensures OrdersOk(orders + [o], items + added)
  {
    var orders', items' := orders + [o], items + added;
    assert forall x :: x in orders ==> x in orders';
    assert o in orders';
    forall x | x in items'
      ensures x.data.orderId in Ids(orders')
    {
      if x in items {
        var y :| y in orders && y.id == x.data.orderId;
        assert y in orders';
      }
    }
    forall x | x in orders'
      ensures x.data.totalAmount == SubtotalSum(ItemsOf(items', x.id))
    {
      TotalAfterCheckout(orders, items, o, added, x);
    }
  }

  /** An order's items after checkout: unchanged for the earlier orders, exactly the new items for the new one. */
  lemma TotalAfterCheckout(orders: seq<Row<Order>>, items: seq<Row<OrderItem>>, o: Row<Order>, added: seq<Row<OrderItem>>, x: Row<Order>)
    requires OrdersOk(orders, items)
    requires Keyed(orders, o.id)
    requires forall x :: x in added ==> x.data.orderId == o.id
    requires o.data.totalAmount == SubtotalSum(added)
    requires x in orders + [o]
    ensures x.data.totalAmount == SubtotalSum(ItemsOf(items + added, x.id))
  {
    ItemsOfConcat(items, added, x.id);
    if x in orders {
      ItemsOfNone(added, x.id);
      assert ItemsOf(items, x.id) + [] == ItemsOf(items, x.id);
    } else {
      ItemsOfNone(items, o.id);
      ItemsOfAll(added, o.id);
      assert [] + added == added;
    }
  }

  /** The total checkout records is the sum of the subtotals of the items it writes. */
  lemma {:induction false} OrderLinesTotal(orderId: nat, lines: seq<Row<CartItem>>, products: seq<Row<Product>>, firstId: nat)
    requires Priced(lines, products)
    ensures SubtotalSum(OrderLines(orderId, lines, products, firstId)) == Charge(lines, products)
  {
    if lines != [] {
      var init := lines[..|lines| - 1];
      assert forall x :: x in init ==> x in lines;
      OrderLinesTotal(orderId, init, products, firstId);
      var r := OrderLines(orderId, lines, products, firstId);
      assert r[..|r| - 1] == OrderLines(orderId, init, products, firstId);
    }
  }

  /**
   * Checkout charges what the cart showed just before: with one cart per
   * user, the caller's lines are that cart's lines, and each is charged its
   * live price times its quantity.
   */
  lemma ChargeIsCartTotal(db: Store, user: UserId)
    requires db.Valid()
    requires ViewCart(db, user).Success?
    ensures Priced(LinesIn(db.cartItems, CartIdsOf(db.carts, user)), db.products)
    ensures Charge(LinesIn(db.cartItems, CartIdsOf(db.carts, user)), db.products) == ViewCart(db, user).value.Total()
  {
    var cart := FindCart(db.carts, user).value;
    assert CartIdsOf(db.carts, user) == {cart.id};
    var lines := LinesIn(db.cartItems, {cart.id});
    ChargeIsSum(lines, db.products, db.categories);
  }

  /** Charging the lines at stored prices is the cart total of their views. */
  lemma {:induction false} ChargeIsSum(lines: seq<Row<CartItem>>, products: seq<Row<Product>>, categories: seq<Row<Category>>)
    requires Priced(lines, products)
    ensures Charge(lines, products) == Sum(LineViews(lines, products, categories))
  {
    if lines != [] {
      var init := lines[..|lines| - 1];
      assert forall x :: x in init ==> x in lines;
      ChargeIsSum(init, products, categories);
      var views := LineViews(lines, products, categories);
      assert views[..|views| - 1] == LineViews(init, products, categories);
    }
  }

  /** `GET /orders/my`: exactly the caller's orders, in table order (the source promises no order). */
  function OrderHistory(db: Store, user: UserId): (r: seq<Row<Order>>)
    reads db
    ensures forall o {:trigger o in r} {:trigger o in db.orders} :: o in r <==> o in db.orders && o.data.userId == user
  {
    OrdersOf(db.orders, user)
  }

  function OrdersOf(orders: seq<Row<Order>>, user: UserId): (r: seq<Row<Order>>)
    ensures forall o {:trigger o in r} {:trigger o in orders} :: o in r <==> o in orders && o.data.userId == user
    ensures |r| <= |orders|
  {
    if orders == [] then []
    else if orders[0].data.userId == user then [orders[0]] + OrdersOf(orders[1..], user)
    else OrdersOf(orders[1..], user)
  }

  /**
   * `GET /orders/{order_id}`: 404 unless an order with that key belongs to the
   * caller; otherwise the order and exactly the items with that order key.
   */
  function GetOrderDetail(db: Store, user: UserId, orderId: nat): (r: Result<OrderDetail, ApiError>)
    reads db
    requires db.Valid()
    ensures r.Success? <==> exists o :: o in db.orders && o.id == orderId && o.data.userId == user
    ensures r.Failure? ==> r.error == OrderNotFound
    ensures r.Success? ==> r.value.order in db.orders && r.value.order.id == orderId && r.value.order.data.userId == user
    ensures r.Success? ==> forall x :: x in r.value.items <==> x in db.orderItems && x.data.orderId == orderId
  {
    match Find(db.orders, orderId)
    case Some(o) =>
      if o.userId == user then Success(OrderDetail(Row(orderId, o), ItemsOf(db.orderItems, orderId))) else Failure(OrderNotFound)
    case None => Failure(OrderNotFound)
  }

  /** Every order shown is paid, its total is the sum of its items' subtotals, and each subtotal is price times quantity. */
  lemma DetailIsConsistent(db: Store, user: UserId, orderId: nat)
    requires db.Valid()
    requires GetOrderDetail(db, user, orderId).Success?
    ensures var d := GetOrderDetail(db, user, orderId).value;
      && d.order.data.status == Paid
      && d.order.data.totalAmount == SubtotalSum(d.items)
      && forall x :: x in d.items ==> x.data.subtotal == LineAmount(x.data.productPrice, x.data.quantity)
  {
  }
}
