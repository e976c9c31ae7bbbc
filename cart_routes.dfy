/** The `/cart` routes: add one unit of a product to the caller's cart, and view the cart. */
module CartRoutes {
  import opened Wrappers
  import opened Tables
  import opened ProductSchema
  import opened CartSchema
  import opened Api
  import opened Db

  const AddedMessage := "Product added to cart"

  /**
   * `POST /cart/add/{product_id}`. A product id absent from the products
   * table (active or not: only existence is checked) is a 404 and changes
   * nothing. Otherwise the caller's cart is found or created, then the
   * product's line in it gains exactly one unit, or a line with quantity 1 is
   * inserted when there is none; no other line and no other cart changes.
   */
  method AddToCart(db: Store, user: UserId, productId: nat) returns (r: Result<string, ApiError>)
    requires db.Valid()
    modifies db
    ensures db.Valid()
    ensures productId !in Ids(old(db.products)) ==> r == Failure(ProductNotFound) && unchanged(db)
    ensures productId in Ids(old(db.products)) ==>
      && r == Success(AddedMessage)
      && db.carts == WithCart(old(db.carts), user, old(db.nextId))
      && var cartId := FindCart(db.carts, user).value.id;
         var key := if old(FindCart(db.carts, user)).Some? then old(db.nextId) else old(db.nextId) + 1;
         && db.cartItems == WithOneMore(old(db.cartItems), cartId, productId, key)
         && Quantity(db.cartItems, cartId, productId) == Quantity(old(db.cartItems), cartId, productId) + 1
         && db.nextId == key + if LineIndex(old(db.cartItems), cartId, productId).Some? then 0 else 1
    ensures db.products == old(db.products) && db.categories == old(db.categories)
    ensures db.orders == old(db.orders) && db.orderItems == old(db.orderItems)
  {
    if Find(db.products, productId).None? {
      return Failure(ProductNotFound);
    }
    ghost var before := db.cartItems;
    var cart := GetOrCreateCart(db, user);
    AddLine(db, cart, productId);
    OneMoreUnit(before, cart.id, productId, if old(FindCart(db.carts, user)).Some? then old(db.nextId) else old(db.nextId) + 1);
    r := Success(AddedMessage);
  }

  /** The carts table once the caller's cart is found or created: a cart under `key` is added when the caller has none. */
  function WithCart(carts: seq<Row<Cart>>, user: UserId, key: nat): (r: seq<Row<Cart>>)
    ensures FindCart(r, user).Some?
    ensures forall c :: c in carts ==> c in r
    ensures forall c :: c in r && c.data.userId != user ==> c in carts
  {
    if FindCart(carts, user).Some? then carts
    else
      var r := carts + [Row(key, Cart(user))];
      assert r[|carts|] in r;
      r
  }

  /** The cart lines once one unit of `productId` is added to cart `cartId`; a new line gets key `key`. */
  function WithOneMore(items: seq<Row<CartItem>>, cartId: nat, productId: nat, key: nat): (r: seq<Row<CartItem>>)
    ensures |r| == |items| + if LineIndex(items, cartId, productId).Some? then 0 else 1
    ensures forall i :: 0 <= i < |items| && (items[i].data.cartId != cartId || items[i].data.productId != productId) ==>
      r[i] == items[i]
    ensures forall i :: 0 <= i < |r| ==> (i < |items| && r[i].id == items[i].id) || r[i].id == key
    ensures exists i :: 0 <= i < |r| && r[i].data == CartItem(cartId, productId, Quantity(items, cartId, productId) + 1)
  {
    match LineIndex(items, cartId, productId)
    case Some(k) =>
      var r := items[k := Row(items[k].id, items[k].data.(quantity := items[k].data.quantity + 1))];
      assert r[k].data == CartItem(cartId, productId, Quantity(items, cartId, productId) + 1);
      r
    case None =>
      var r := items + [Row(key, CartItem(cartId, productId, 1))];
      assert r[|items|].data == CartItem(cartId, productId, Quantity(items, cartId, productId) + 1);
      r
  }

  /** How many units of `productId` cart `cartId` holds: the quantity on its line, 0 without one. */
  function Quantity(items: seq<Row<CartItem>>, cartId: nat, productId: nat): (r: nat)
    ensures r == 0 <== forall x {:trigger x in items} :: x in items ==> x.data.cartId != cartId || x.data.productId != productId
    ensures r != 0 ==> exists x {:trigger x in items} :: x in items && x.data == CartItem(cartId, productId, r)
    ensures Pairwise(items, DifferentLines) ==> forall x {:trigger x in items} ::
      x in items && x.data.cartId == cartId && x.data.productId == productId ==> r == x.data.quantity
  {
    match LineIndex(items, cartId, productId)
    case Some(k) =>
      assert items[k] in items && items[k].data == CartItem(cartId, productId, items[k].data.quantity);
      assert Pairwise(items, DifferentLines) ==> forall x {:trigger x in items} ::
          x in items && x.data.cartId == cartId && x.data.productId == productId ==> items[k].data.quantity == x.data.quantity by {
        if Pairwise(items, DifferentLines) {
          forall x | x in items && x.data.cartId == cartId && x.data.productId == productId
            ensures items[k].data.quantity == x.data.quantity
          {
            var i :| 0 <= i < |items| && items[i] == x;
            LineIndexAt(items, cartId, productId, i);
          }
        }
      }
      items[k].data.quantity
    case None => 0
  }

  /** The first half of `AddToCart`: the caller's cart, inserted when there is none. */
  method GetOrCreateCart(db: Store, user: UserId) returns (cart: Row<Cart>)
    requires db.Valid()
    modifies db
    ensures db.Valid()
    ensures db.carts == WithCart(old(db.carts), user, old(db.nextId))
    ensures FindCart(db.carts, user) == Some(cart)
    ensures db.nextId == if old(FindCart(db.carts, user)).Some? then old(db.nextId) else old(db.nextId) + 1
    ensures db.products == old(db.products) && db.categories == old(db.categories) && db.cartItems == old(db.cartItems)
    ensures db.orders == old(db.orders) && db.orderItems == old(db.orderItems)
  {
    match FindCart(db.carts, user)
    case Some(c) =>
      cart := c;
    case None =>
      cart := Row(db.nextId, Cart(user));
      KeyedAppend(db.carts, db.nextId, cart);
      NewCartKeepsCartsOk(db.carts, db.cartItems, db.products, cart);
      KeysGrow(db, 1);
      db.carts := db.carts + [cart];
      db.nextId := db.nextId + 1;
      FindCartUnique(db.carts, user, cart);
  }

  /**
   * The second half of `AddToCart`: one more unit on the product's line in
   * `cart`, or a new line with quantity 1.
   */
  method AddLine(db: Store, cart: Row<Cart>, productId: nat)
    requires db.Valid()
    requires cart in db.carts && productId in Ids(db.products)
    modifies db
    ensures db.Valid()
    ensures db.cartItems == WithOneMore(old(db.cartItems), cart.id, productId, old(db.nextId))
    ensures db.nextId == if LineIndex(old(db.cartItems), cart.id, productId).Some? then old(db.nextId) else old(db.nextId) + 1
    ensures db.products == old(db.products) && db.categories == old(db.categories) && db.carts == old(db.carts)
    ensures db.orders == old(db.orders) && db.orderItems == old(db.orderItems)
  {
    var items := db.cartItems;
    match LineIndex(items, cart.id, productId)
    case Some(k) =>
      var line := Row(items[k].id, items[k].data.(quantity := items[k].data.quantity + 1));
      KeyedUpdate(items, db.nextId, k, line.data);
      IncrementKeepsCartsOk(db.carts, items, db.products, k);
      db.cartItems := items[k := line];
    case None =>
      var line := Row(db.nextId, CartItem(cart.id, productId, 1));
      KeyedAppend(items, db.nextId, line);
      InsertKeepsCartsOk(db.carts, items, db.products, line);
      KeysGrow(db, 1);
      db.cartItems := items + [line];
      db.nextId := db.nextId + 1;
  }

  /**
   * Adding one unit puts exactly one more unit of that product in that cart,
   * leaves every other (cart, product) quantity and every other line as it
   * was, and keeps one line per (cart, product).
   */
  lemma OneMoreUnit(items: seq<Row<CartItem>>, cartId: nat, productId: nat, key: nat)
    requires Pairwise(items, DifferentLines)
    ensures var r := WithOneMore(items, cartId, productId, key);
      && Pairwise(r, DifferentLines)
      && Quantity(r, cartId, productId) == Quantity(items, cartId, productId) + 1
      && (forall c, p :: c != cartId || p != productId ==> Quantity(r, c, p) == Quantity(items, c, p))
      && (forall x :: x in items && (x.data.cartId != cartId || x.data.productId != productId) ==> x in r)
  {
    match LineIndex(items, cartId, productId)
    case Some(k) => IncrementedLine(items, cartId, productId, k);
    case None => InsertedLine(items, cartId, productId, key);
  }

  /** One more unit on the line found at `k`. */
  lemma IncrementedLine(items: seq<Row<CartItem>>, cartId: nat, productId: nat, k: nat)
    requires Pairwise(items, DifferentLines)
    requires LineIndex(items, cartId, productId) == Some(k)
    ensures var r := items[k := Row(items[k].id, items[k].data.(quantity := items[k].data.quantity + 1))];
      && Pairwise(r, DifferentLines)
      && Quantity(r, cartId, productId) == Quantity(items, cartId, productId) + 1
      && (forall c, p :: c != cartId || p != productId ==> Quantity(r, c, p) == Quantity(items, c, p))
      && (forall x :: x in items && (x.data.cartId != cartId || x.data.productId != productId) ==> x in r)
  {
    var y := Row(items[k].id, items[k].data.(quantity := items[k].data.quantity + 1));
    var r := items[k := y];
    assert forall i :: 0 <= i < k ==> DifferentLines(items[i], items[k]);
    assert forall j :: k < j < |items| ==> DifferentLines(items[k], items[j]);
    PairwiseUpdate(items, DifferentLines, k, y);
    LineIndexAt(r, cartId, productId, k);
    forall c, p | c != cartId || p != productId
      ensures Quantity(r, c, p) == Quantity(items, c, p)
    {
      match LineIndex(items, c, p)
      case Some(j) =>
        LineIndexAt(r, c, p, j);
      case None =>
        assert forall x :: x in r ==> x == y || x in items;
    }
    forall x | x in items && (x.data.cartId != cartId || x.data.productId != productId)
      ensures x in r
    {
      var i :| 0 <= i < |items| && items[i] == x;
      assert r[i] == x;
    }
  }

  /** A new line with quantity 1 for a (cart, product) pair that has none. */
  lemma InsertedLine(items: seq<Row<CartItem>>, cartId: nat, productId: nat, key: nat)
    requires Pairwise(items, DifferentLines)
    requires LineIndex(items, cartId, productId).None?
    ensures var r := items + [Row(key, CartItem(cartId, productId, 1))];
      && Pairwise(r, DifferentLines)
      && Quantity(r, cartId, productId) == Quantity(items, cartId, productId) + 1
      && (forall c, p :: c != cartId || p != productId ==> Quantity(r, c, p) == Quantity(items, c, p))
      && (forall x :: x in items ==> x in r)
  {
    var y := Row(key, CartItem(cartId, productId, 1));
    var r := items + [y];
    assert forall i :: 0 <= i < |items| ==> items[i] in items;
    PairwiseAppend(items, DifferentLines, y);
    LineIndexAt(r, cartId, productId, |items|);
    forall c, p | c != cartId || p != productId
      ensures Quantity(r, c, p) == Quantity(items, c, p)
    {
      match LineIndex(items, c, p)
      case Some(j) =>
        LineIndexAt(r, c, p, j);
      case None =>
        assert forall x :: x in r ==> x == y || x in items;
    }
  }

  /** With one line per (cart, product), a matching line is the one `LineIndex` finds. */
  lemma LineIndexAt(items: seq<Row<CartItem>>, cartId: nat, productId: nat, k: nat)
    requires Pairwise(items, DifferentLines) && k < |items|
    requires items[k].data.cartId == cartId && items[k].data.productId == productId
    ensures LineIndex(items, cartId, productId) == Some(k)
  {
    assert items[k] in items;
    var j := LineIndex(items, cartId, productId).value;
    assert j < k ==> DifferentLines(items[j], items[k]);
    assert k < j ==> DifferentLines(items[k], items[j]);
  }

  /** A first cart for a user who has none keeps every cart consistent. */
  lemma NewCartKeepsCartsOk(carts: seq<Row<Cart>>, items: seq<Row<CartItem>>, products: seq<Row<Product>>, cart: Row<Cart>)
    requires CartsOk(carts, items, products)
    requires forall c :: c in carts ==> c.data.userId != cart.data.userId
    ensures CartsOk(carts + [cart], items, products)
  {
    assert forall i :: 0 <= i < |carts| ==> carts[i] in carts;
    PairwiseAppend(carts, DifferentOwners, cart);
    forall x | x in items
      ensures x.data.cartId in Ids(carts + [cart])
    {
      var c :| c in carts && c.id == x.data.cartId;
      assert c in carts + [cart];
    }
  }

  /** One more unit on an existing line keeps every cart consistent. */
  lemma IncrementKeepsCartsOk(carts: seq<Row<Cart>>, items: seq<Row<CartItem>>, products: seq<Row<Product>>, k: nat)
    requires CartsOk(carts, items, products) && k < |items|
    ensures CartsOk(carts, items[k := Row(items[k].id, items[k].data.(quantity := items[k].data.quantity + 1))], products)
  {
    var line := Row(items[k].id, items[k].data.(quantity := items[k].data.quantity + 1));
    assert items[k] in items;
    PairwiseUpdate(items, DifferentLines, k, line);
    forall x | x in items[k := line]
      ensures x.data.cartId in Ids(carts) && x.data.productId in Ids(products) && x.data.quantity >= 1
    {
      if x != line {
        var i :| 0 <= i < |items| && items[k := line][i] == x;
        assert items[i] in items;
      }
    }
  }

  /** A new line for a (cart, product) pair that has none keeps every cart consistent. */
  lemma InsertKeepsCartsOk(carts: seq<Row<Cart>>, items: seq<Row<CartItem>>, products: seq<Row<Product>>, line: Row<CartItem>)
    requires CartsOk(carts, items, products)
    requires line.data.cartId in Ids(carts) && line.data.productId in Ids(products) && line.data.quantity >= 1
    requires forall x :: x in items ==> DifferentLines(x, line)
    ensures CartsOk(carts, items + [line], products)
  {
    assert forall i :: 0 <= i < |items| ==> items[i] in items;
    PairwiseAppend(items, DifferentLines, line);
  }

  /** One line with the product it refers to as currently stored (`selectinload(CartItem.product)`). */
  function LineView(line: Row<CartItem>, products: seq<Row<Product>>, categories: seq<Row<Category>>): (r: CartItemResponse)
    requires line.data.productId in Ids(products)
    ensures r.id == line.id && r.productId == line.data.productId && r.quantity == line.data.quantity
    ensures Row(r.productId, Find(products, r.productId).value) in products
    ensures r.product == ProductOut(Row(r.productId, Find(products, r.productId).value), categories)
    ensures Pairwise(products, DistinctIds) ==> forall p :: Row(line.data.productId, p) in products ==>
      && r.product.id == line.data.productId
      && r.product.Base() == p.Base()
      && r.product.isActive == p.isActive
  {
    var pid := line.data.productId;
    CartItemResponse(line.id, pid, line.data.quantity, ProductOut(Row(pid, Find(products, pid).value), categories))
  }

  function LineViews(lines: seq<Row<CartItem>>, products: seq<Row<Product>>, categories: seq<Row<Category>>): (r: seq<CartItemResponse>)
    requires forall x :: x in lines ==> x.data.productId in Ids(products)
    ensures |r| == |lines|
    ensures forall i :: 0 <= i < |r| ==> r[i] == LineView(lines[i], products, categories)
  {
    seq(|lines|, i requires 0 <= i < |lines| => LineView(lines[i], products, categories))
  }

  /**
   * `GET /cart/`: 404 when the caller has no cart (an empty cart is not an
   * error); otherwise the caller's cart with each of its lines joined to the
   * product it refers to, live.
   */
  function ViewCart(db: Store, user: UserId): (r: Result<CartResponse, ApiError>)
    reads db
    requires db.Valid()
    ensures r.Failure? <==> forall c :: c in db.carts ==> c.data.userId != user
    ensures r.Failure? ==> r.error == CartNotFound
    ensures r.Success? ==> Row(r.value.id, Cart(user)) in db.carts && r.value.userId == user
    ensures r.Success? ==>
      r.value.items == LineViews(LinesIn(db.cartItems, {r.value.id}), db.products, db.categories)
  {
    match FindCart(db.carts, user)
    case None => Failure(CartNotFound)
    case Some(cart) =>
      Success(CartResponse(cart.id, user, LineViews(LinesIn(db.cartItems, {cart.id}), db.products, db.categories)))
  }

  /** Every cart shown has a total that is never negative: prices are positive and quantities at least 1. */
  lemma CartTotalNonNegative(db: Store, user: UserId)
    requires db.Valid()
    requires ViewCart(db, user).Success?
    ensures ViewCart(db, user).value.Total() >= 0.0
    ensures ViewCart(db, user).value.items != [] ==> ViewCart(db, user).value.Total() > 0.0
  {
    var items := ViewCart(db, user).value.items;
    var lines := LinesIn(db.cartItems, {ViewCart(db, user).value.id});
    forall i | 0 <= i < |items|
      ensures items[i].product.price > 0.0 && items[i].quantity >= 1
    {
      assert lines[i] in lines;
      var pid := lines[i].data.productId;
      assert Row(pid, Find(db.products, pid).value) in db.products;
    }
    SumPositive(items);
  }
}
