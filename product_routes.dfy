/**
 * The `/products` routes: list and fetch active products, and the
 * admin-only create, soft delete and update.
 */
module ProductRoutes {
  import opened Wrappers
  import opened Tables
  import opened ProductSchema
  import opened Api
  import opened Db

  /** Default page size of `GET /products/`. */
  const DefaultLimit: nat := 10
  const DeletedMessage := "Product deleted"

  /** The active products, in table order (`WHERE is_active = true`). */
  function ActiveOnly(products: seq<Row<Product>>): (r: seq<Row<Product>>)
    ensures forall p {:trigger p in r} {:trigger p in products} :: p in r <==> p in products && p.data.isActive
    ensures |r| <= |products|
  {
    if products == [] then []
    else if products[0].data.isActive then [products[0]] + ActiveOnly(products[1..])
    else ActiveOnly(products[1..])
  }

  function Responses(rows: seq<Row<Product>>, categories: seq<Row<Category>>): (r: seq<ProductResponse>)
    ensures |r| == |rows|
    ensures forall i :: 0 <= i < |r| ==> r[i] == ProductOut(rows[i], categories)
  {
    seq(|rows|, i requires 0 <= i < |rows| => ProductOut(rows[i], categories))
  }

  /**
   * `GET /products/`: skips the first `skip` active products and returns at
   * most `limit` of the following ones; inactive products never appear.
   */
  function GetProducts(db: Store, skip: nat := 0, limit: nat := DefaultLimit): (r: seq<ProductResponse>)
    reads db
    ensures |r| <= limit
    ensures var active := ActiveOnly(db.products);
      && |r| == (if skip >= |active| then 0 else Min(limit, |active| - skip))
      && forall i :: 0 <= i < |r| ==> r[i] == ProductOut(active[skip + i], db.categories)
    ensures forall i :: 0 <= i < |r| ==> r[i].isActive
  {
    var page := Page(ActiveOnly(db.products), skip, limit);
    assert forall i :: 0 <= i < |page| ==> page[i] in ActiveOnly(db.products);
    Responses(page, db.categories)
  }

  /** `GET /products/{id}`: the product when it exists and is active, else 404. */
  function GetProduct(db: Store, id: nat): (r: Result<ProductResponse, ApiError>)
    reads db
    requires db.Valid()
    ensures r.Success? <==> exists p :: p in db.products && p.id == id && p.data.isActive
    ensures r.Success? ==> forall p :: p in db.products && p.id == id ==> r.value == ProductOut(p, db.categories)
    ensures r.Failure? ==> r.error == ProductNotFound
  {
    match Find(db.products, id)
    case Some(p) =>
      if p.isActive then Success(ProductOut(Row(id, p), db.categories)) else Failure(ProductNotFound)
    case None => Failure(ProductNotFound)
  }

  /** The row that `CreateProduct` inserts for a validated body: active by default. */
  function NewProduct(data: ProductCreate): Product {
    Product(data.name, data.description, data.price, data.categoryId, true)
  }

  /**
   * `POST /products/` (admin only): inserts the validated body as a new
   * active product under a fresh key and returns it.
   */
  method CreateProduct(db: Store, isAdmin: bool, body: ProductInput) returns (r: Result<ProductResponse, ApiError>)
    requires db.Valid()
    modifies db
    ensures db.Valid()
    ensures !isAdmin ==> r == Failure(NotAuthorized) && unchanged(db)
    ensures isAdmin && !Acceptable(body) ==> r == Failure(ValidationFailed(Errors(body))) && unchanged(db)
    ensures isAdmin && Acceptable(body) ==>
      var row := Row(old(db.nextId), Product(body.name.value, body.description, body.price.value, body.categoryId, true));
      && db.products == old(db.products) + [row]
      && db.nextId == old(db.nextId) + 1
      && r == Success(ProductOut(row, db.categories))
      && GetProduct(db, row.id) == r
    ensures db.categories == old(db.categories) && db.carts == old(db.carts) && db.cartItems == old(db.cartItems)
    ensures db.orders == old(db.orders) && db.orderItems == old(db.orderItems)
  {
    if !isAdmin {
      return Failure(NotAuthorized);
    }
    match Validate(body)
    case Failure(errs) =>
      r := Failure(ValidationFailed(errs));
    case Success(data) =>
      var row := Row(db.nextId, NewProduct(data));
      KeyedAppend(db.products, db.nextId, row);
      KeysGrow(db, 1);
      db.products := db.products + [row];
      db.nextId := db.nextId + 1;
      assert Ids(old(db.products)) <= Ids(db.products) by {
        forall x | x in old(db.products) ensures x in db.products { }
      }
      r := Success(ProductOut(row, db.categories));
  }

  /**
   * `DELETE /products/{id}` (admin only): a soft delete. The product keeps its
   * row and its other fields and becomes inactive; the lookup does not filter
   * on `is_active`, so deleting an inactive product succeeds and changes nothing.
   */
  method DeleteProduct(db: Store, isAdmin: bool, id: nat) returns (r: Result<string, ApiError>)
    requires db.Valid()
    modifies db
    ensures db.Valid()
    ensures !isAdmin ==> r == Failure(NotAuthorized) && unchanged(db)
    ensures isAdmin && id !in Ids(old(db.products)) ==> r == Failure(ProductNotFound) && unchanged(db)
    ensures isAdmin && id in Ids(old(db.products)) ==>
      && r == Success(DeletedMessage)
      && |db.products| == |old(db.products)|
      && (forall i :: 0 <= i < |db.products| ==>
            db.products[i] == if old(db.products)[i].id == id
                              then Row(id, old(db.products)[i].data.(isActive := false))
                              else old(db.products)[i])
      && GetProduct(db, id) == Failure(ProductNotFound)
      && (forall p :: p in ActiveOnly(db.products) ==> p.id != id)
    ensures isAdmin && (forall p :: p in old(db.products) && p.id == id ==> !p.data.isActive) ==>
      db.products == old(db.products)
    ensures db.nextId == old(db.nextId) && db.categories == old(db.categories)
    ensures db.carts == old(db.carts) && db.cartItems == old(db.cartItems)
    ensures db.orders == old(db.orders) && db.orderItems == old(db.orderItems)
  {
    if !isAdmin {
      return Failure(NotAuthorized);
    }
    match FindIndex(db.products, id)
    case None =>
      r := Failure(ProductNotFound);
    case Some(k) =>
      var before := db.products;
      var data := before[k].data.(isActive := false);
      KeyedUpdate(before, db.nextId, k, data);
      assert before[k] in before;
      UpdatedCatalog(before, k, Row(id, data));
      db.products := before[k := Row(id, data)];
      SameKeyAt(before, db.nextId, k);
      assert Ids(db.products) == Ids(before) by {
        assert forall i :: 0 <= i < |before| ==> db.products[i].id == before[i].id;
        SameIds(before, db.products);
      }
      assert !before[k].data.isActive ==> db.products == before;
      r := Success(DeletedMessage);
  }

  /**
   * `PUT /products/{id}` (admin only): replaces exactly the name, description
   * and price with the validated body's; `is_active` and `category_id` are
   * left as they were, and other products are untouched.
   */
  method UpdateProduct(db: Store, isAdmin: bool, id: nat, body: ProductInput) returns (r: Result<ProductResponse, ApiError>)
    requires db.Valid()
    modifies db
    ensures db.Valid()
    ensures !isAdmin ==> r == Failure(NotAuthorized) && unchanged(db)
    ensures isAdmin && !Acceptable(body) ==> r == Failure(ValidationFailed(Errors(body))) && unchanged(db)
    ensures isAdmin && Acceptable(body) && id !in Ids(old(db.products)) ==>
      r == Failure(ProductNotFound) && unchanged(db)
    ensures isAdmin && Acceptable(body) && id in Ids(old(db.products)) ==>
      && |db.products| == |old(db.products)|
      && (forall i :: 0 <= i < |db.products| ==>
            db.products[i] == if old(db.products)[i].id == id
                              then Row(id, old(db.products)[i].data.(name := body.name.value,
                                                                      description := body.description,
                                                                      price := body.price.value))
                              else old(db.products)[i])
      && r.Success? && r.value.id == id
      && (forall p :: p in db.products && p.id == id ==> r.value == ProductOut(p, db.categories))
    ensures db.nextId == old(db.nextId) && db.categories == old(db.categories)
    ensures db.carts == old(db.carts) && db.cartItems == old(db.cartItems)
    ensures db.orders == old(db.orders) && db.orderItems == old(db.orderItems)
  {
    if !isAdmin {
      return Failure(NotAuthorized);
    }
    match Validate(body)
    case Failure(errs) =>
      r := Failure(ValidationFailed(errs));
    case Success(input) =>
      match FindIndex(db.products, id)
      case None =>
        r := Failure(ProductNotFound);
      case Some(k) =>
        var before := db.products;
        var data := before[k].data.(name := input.name, description := input.description, price := input.price);
        KeyedUpdate(before, db.nextId, k, data);
        assert ValidBase(data.Base());
        UpdatedCatalog(before, k, Row(id, data));
        db.products := before[k := Row(id, data)];
        SameKeyAt(before, db.nextId, k);
        assert Ids(db.products) == Ids(before) by {
          assert forall i :: 0 <= i < |before| ==> db.products[i].id == before[i].id;
          SameIds(before, db.products);
        }
        assert db.products[k] in db.products;
        r := Success(ProductOut(Row(id, data), db.categories));
  }

  /** A validated row can replace a stored product. */
  lemma UpdatedCatalog(before: seq<Row<Product>>, k: nat, row: Row<Product>)
    requires k < |before| && CatalogOk(before) && ValidBase(row.data.Base())
    ensures CatalogOk(before[k := row])
  {
    forall p | p in before[k := row]
      ensures ValidBase(p.data.Base())
    {
      if p != row {
        var i :| 0 <= i < |before| && before[k := row][i] == p;
        assert before[i] in before;
      }
    }
  }

  /** Only the row found at `k` carries key `id`. */
  lemma SameKeyAt(t: seq<Row<Product>>, bound: nat, k: nat)
    requires Keyed(t, bound) && k < |t|
    ensures forall i :: 0 <= i < |t| && t[i].id == t[k].id ==> i == k
  {
  }

  /** Two tables with the same keys position by position have the same key set. */
  lemma SameIds(a: seq<Row<Product>>, b: seq<Row<Product>>)
    requires |a| == |b|
    requires forall i :: 0 <= i < |a| ==> a[i].id == b[i].id
    ensures Ids(a) == Ids(b)
  {
    forall x | x in Ids(a) ensures x in Ids(b) {
      var r :| r in a && r.id == x;
      var i :| 0 <= i < |a| && a[i] == r;
      assert b[i] in b;
    }
    forall x | x in Ids(b) ensures x in Ids(a) {
      var r :| r in b && r.id == x;
      var i :| 0 <= i < |b| && b[i] == r;
      assert a[i] in a;
    }
  }
}
