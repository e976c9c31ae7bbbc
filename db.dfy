/**
 * The database: one table per model (products, categories, carts,
 * cart_items, orders, order_items), the queries several routes share, and the
 * consistency the routes keep between the tables.
 */
module Db {
  import opened Wrappers
  import opened Tables
  import opened ProductSchema
  import opened CartSchema

  /** The authenticated caller's id. */
  type UserId = nat

  /** A `products` row; `is_active` is true unless the product was soft-deleted. */
  datatype Product = Product(
    name: string,
    description: Option<string>,
    price: real,
    categoryId: Option<int>,
    isActive: bool)
  {
    function Base(): ProductBase {
      ProductBase(name, description, price, categoryId)
    }
  }

  /** A `categories` row. */
  datatype Category = Category(name: string, createdAt: Timestamp)

  /** A `carts` row. */
  datatype Cart = Cart(userId: UserId)

  /** A `cart_items` row: one product in one cart with its quantity. */
  datatype CartItem = CartItem(cartId: nat, productId: nat, quantity: nat)

  /** The values of `orders.status`: "pending" and "paid". */
  datatype OrderStatus = Pending | Paid

  /** An `orders` row. */
  datatype Order = Order(userId: UserId, totalAmount: real, createdAt: Timestamp, status: OrderStatus)

  /** An `order_items` row: a copy of the product's id, name and price at checkout time. */
  datatype OrderItem = OrderItem(
    orderId: nat,
    productId: nat,
    productName: string,
    productPrice: real,
    quantity: nat,
    subtotal: real)

  /**
   * Keys of the carts owned by `user` (the join `CartItem JOIN Cart WHERE
   * Cart.user_id = user`). With one cart per user this is the key of the cart
   * `FindCart` finds, or nothing when the user has no cart.
   */
  function CartIdsOf(carts: seq<Row<Cart>>, user: UserId): (r: set<nat>)
    ensures forall c {:trigger c in carts} :: c in carts && c.data.userId == user ==> c.id in r
    ensures forall id :: id in r ==> exists c {:trigger c in carts} :: c in carts && c.data.userId == user && c.id == id
    ensures Pairwise(carts, DifferentOwners) ==>
      r == if FindCart(carts, user).Some? then {FindCart(carts, user).value.id} else {}
  {
    var r := set c {:trigger c in carts} | c in carts && c.data.userId == user :: c.id;
    SoleOwnerCart(carts, user, r);
    r
  }

  /** The keys of a user's carts, when each user has at most one cart. */
  lemma SoleOwnerCart(carts: seq<Row<Cart>>, user: UserId, r: set<nat>)
    requires forall c {:trigger c in carts} :: c in carts && c.data.userId == user ==> c.id in r
    requires forall id :: id in r ==> exists c {:trigger c in carts} :: c in carts && c.data.userId == user && c.id == id
    ensures Pairwise(carts, DifferentOwners) ==>
      r == if FindCart(carts, user).Some? then {FindCart(carts, user).value.id} else {}
  {
    if Pairwise(carts, DifferentOwners) {
      match FindCart(carts, user)
      case Some(f) =>
        forall id | id in r
          ensures id == f.id
        {
          var c :| c in carts && c.data.userId == user && c.id == id;
          FindCartUnique(carts, user, c);
        }
      case None =>
        assert r == {};
    }
  }

  /** With one cart per user, `FindCart` finds the user's only cart. */
  lemma FindCartUnique(carts: seq<Row<Cart>>, user: UserId, c: Row<Cart>)
    requires Pairwise(carts, DifferentOwners)
    requires c in carts && c.data.userId == user
    ensures FindCart(carts, user) == Some(c)
  {
    var f := FindCart(carts, user).value;
    var i :| 0 <= i < |carts| && carts[i] == c;
    var j :| 0 <= j < |carts| && carts[j] == f;
    assert i < j ==> DifferentOwners(carts[i], carts[j]);
    assert j < i ==> DifferentOwners(carts[j], carts[i]);
  }

  /** The first cart owned by `user` (`WHERE Cart.user_id = user`, first match). */
  function FindCart(carts: seq<Row<Cart>>, user: UserId): (r: Option<Row<Cart>>)
    ensures r.Some? ==> r.value in carts && r.value.data.userId == user
    ensures r.None? <==> forall c {:trigger c in carts} :: c in carts ==> c.data.userId != user
  {
    if carts == [] then None
    else if carts[0].data.userId == user then Some(carts[0])
    else
      assert forall c :: c in carts ==> c == carts[0] || c in carts[1..];
      FindCart(carts[1..], user)
  }

  /** The lines of the carts in `cartIds`, in table order. */
  function LinesIn(items: seq<Row<CartItem>>, cartIds: set<nat>): (r: seq<Row<CartItem>>)
    ensures forall x {:trigger x in r} {:trigger x in items} :: x in r <==> x in items && x.data.cartId in cartIds
  {
    if items == [] then []
    else if items[0].data.cartId in cartIds then [items[0]] + LinesIn(items[1..], cartIds)
    else LinesIn(items[1..], cartIds)
  }

  /** Lines none of which belongs to a cart in `cartIds` contain none of those carts' lines. */
  lemma {:induction false} LinesInNone(items: seq<Row<CartItem>>, cartIds: set<nat>)
    requires forall x :: x in items ==> x.data.cartId !in cartIds
    ensures LinesIn(items, cartIds) == []
  {
    if items != [] {
      assert items[0] in items;
      assert forall x :: x in items[1..] ==> x in items;
      LinesInNone(items[1..], cartIds);
    }
  }

  /** Position of the line of `productId` in cart `cartId`, if there is one. */
  function LineIndex(items: seq<Row<CartItem>>, cartId: nat, productId: nat): (r: Option<nat>)
    ensures r.Some? ==>
      r.value < |items| && items[r.value].data.cartId == cartId && items[r.value].data.productId == productId
    ensures r.None? <==>
      forall x {:trigger x in items} :: x in items ==> x.data.cartId != cartId || x.data.productId != productId
  {
    if items == [] then None
    else if items[0].data.cartId == cartId && items[0].data.productId == productId then assert items[0] in items; Some(0)
    else
      assert forall x :: x in items ==> x == items[0] || x in items[1..];
      assert forall x :: x in items[1..] ==> x in items;
      match LineIndex(items[1..], cartId, productId)
      case Some(k) => Some(k + 1)
      case None => None
  }

  /** The items of order `orderId`, in table order. */
  function ItemsOf(items: seq<Row<OrderItem>>, orderId: nat): (r: seq<Row<OrderItem>>)
    ensures forall x {:trigger x in r} {:trigger x in items} :: x in r <==> x in items && x.data.orderId == orderId
  {
    if items == [] then []
    else if items[0].data.orderId == orderId then [items[0]] + ItemsOf(items[1..], orderId)
    else ItemsOf(items[1..], orderId)
  }

  /** The sum of the items' subtotals, folded from the left. */
  function SubtotalSum(items: seq<Row<OrderItem>>): real {
    if items == [] then 0.0
    else SubtotalSum(items[..|items| - 1]) + items[|items| - 1].data.subtotal
  }

  /** The category as a response body. */
  function CategoryOut(c: Row<Category>): (r: CategoryResponse)
    ensures r.id == c.id && r.name == c.data.name && r.createdAt == c.data.createdAt
  {
    CategoryResponse(c.data.name, c.id, c.data.createdAt)
  }

  /** The product as a response body, with its category joined in when that category exists. */
  function ProductOut(p: Row<Product>, categories: seq<Row<Category>>): (r: ProductResponse)
    ensures r.Base() == p.data.Base() && r.id == p.id && r.isActive == p.data.isActive
    ensures r.category.Some? <==>
      p.data.categoryId.Some? && p.data.categoryId.value >= 0 && p.data.categoryId.value as nat in Ids(categories)
    ensures r.category.Some? ==>
      && r.category.value.id as int == p.data.categoryId.value
      && Row(r.category.value.id, Category(r.category.value.name, r.category.value.createdAt)) in categories
  {
    var category :=
      match p.data.categoryId
      case Some(k) =>
        if k < 0 then None
        else (match Find(categories, k as nat)
              case Some(c) => Some(CategoryOut(Row(k as nat, c)))
              case None => None)
      case None => None;
    ProductResponse(p.data.name, p.data.description, p.data.price, p.data.categoryId,
                    p.id, p.data.isActive, category)
  }

  predicate DifferentOwners(a: Row<Cart>, b: Row<Cart>) {
    a.data.userId != b.data.userId
  }

  predicate DifferentLines(a: Row<CartItem>, b: Row<CartItem>) {
    a.data.cartId != b.data.cartId || a.data.productId != b.data.productId
  }

  /** Every stored product satisfies the `ProductBase` constraints it was validated against. */
  ghost predicate CatalogOk(products: seq<Row<Product>>) {
    forall p {:trigger p in products} :: p in products ==> ValidBase(p.data.Base())
  }

  /**
   * At most one cart per user, at most one line per (cart, product), and every
   * line belongs to a stored cart, refers to a stored product and has a positive
   * quantity.
   */
  ghost predicate CartsOk(carts: seq<Row<Cart>>, items: seq<Row<CartItem>>, products: seq<Row<Product>>) {
    && Pairwise(carts, DifferentOwners)
    && Pairwise(items, DifferentLines)
    && forall x {:trigger x in items} :: x in items ==>
         && x.data.cartId in Ids(carts)
         && x.data.productId in Ids(products)
         && x.data.quantity >= 1
  }

  /**
   * Every order item belongs to a stored order and its subtotal is its price
   * times its quantity; every order is paid and its total is the sum of its
   * items' subtotals.
   */
  ghost predicate OrdersOk(orders: seq<Row<Order>>, items: seq<Row<OrderItem>>) {
    && (forall x {:trigger x in items} :: x in items ==>
          && x.data.orderId in Ids(orders)
          && x.data.subtotal == LineAmount(x.data.productPrice, x.data.quantity))
    && forall o {:trigger o in orders} :: o in orders ==>
         && o.data.status == Paid
         && o.data.totalAmount == SubtotalSum(ItemsOf(items, o.id))
  }

  /** Unique keys below the counter in every table, and the three consistency conditions above. */
  ghost predicate Consistent(products: seq<Row<Product>>, categories: seq<Row<Category>>, carts: seq<Row<Cart>>,
                             cartItems: seq<Row<CartItem>>, orders: seq<Row<Order>>, orderItems: seq<Row<OrderItem>>,
                             nextId: nat)
  {
    && Keyed(products, nextId)
    && Keyed(categories, nextId)
    && Keyed(carts, nextId)
    && Keyed(cartItems, nextId)
    && Keyed(orders, nextId)
    && Keyed(orderItems, nextId)
    && CatalogOk(products)
    && CartsOk(carts, cartItems, products)
    && OrdersOk(orders, orderItems)
  }

  /** All tables of the database, and a counter that hands out fresh primary keys. */
  class Store {
    var products: seq<Row<Product>>
    var categories: seq<Row<Category>>
    var carts: seq<Row<Cart>>
    var cartItems: seq<Row<CartItem>>
    var orders: seq<Row<Order>>
    var orderItems: seq<Row<OrderItem>>
    var nextId: nat

    ghost predicate Valid()
      reads this
    {
      Consistent(products, categories, carts, cartItems, orders, orderItems, nextId)
    }

    /** An empty database. */
    constructor ()
      ensures Valid()
      ensures products == [] && categories == [] && carts == []
      ensures cartItems == [] && orders == [] && orderItems == []
    {
      products, categories, carts := [], [], [];
      cartItems, orders, orderItems := [], [], [];
      nextId := 0;
    }
  }

  /** Every table stays keyed when the key counter moves up by `n`. */
  lemma KeysGrow(db: Store, n: nat)
    requires db.Valid()
    ensures Keyed(db.products, db.nextId + n) && Keyed(db.categories, db.nextId + n)
    ensures Keyed(db.carts, db.nextId + n) && Keyed(db.cartItems, db.nextId + n)
    ensures Keyed(db.orders, db.nextId + n) && Keyed(db.orderItems, db.nextId + n)
  {
  }

  /** Items are grouped by order independently in two runs of rows. */
  lemma {:induction false} ItemsOfConcat(a: seq<Row<OrderItem>>, b: seq<Row<OrderItem>>, orderId: nat)
    ensures ItemsOf(a + b, orderId) == ItemsOf(a, orderId) + ItemsOf(b, orderId)
  {
    if a == [] {
      assert a + b == b;
    } else {
      assert (a + b)[1..] == a[1..] + b;
      ItemsOfConcat(a[1..], b, orderId);
    }
  }

  /** Rows that all belong to `orderId` are exactly its items. */
  lemma {:induction false} ItemsOfAll(a: seq<Row<OrderItem>>, orderId: nat)
    requires forall x :: x in a ==> x.data.orderId == orderId
    ensures ItemsOf(a, orderId) == a
  {
    if a != [] {
      assert a[0] in a;
      assert forall x :: x in a[1..] ==> x in a;
      ItemsOfAll(a[1..], orderId);
      assert [a[0]] + a[1..] == a;
    }
  }

  /** Rows none of which belong to `orderId` contain none of its items. */
  lemma {:induction false} ItemsOfNone(a: seq<Row<OrderItem>>, orderId: nat)
    requires forall x :: x in a ==> x.data.orderId != orderId
    ensures ItemsOf(a, orderId) == []
  {
    if a != [] {
      assert a[0] in a;
      ItemsOfNone(a[1..], orderId);
    }
  }
}
