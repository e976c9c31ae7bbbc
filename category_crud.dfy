/** The category data-access functions: create, list a page, fetch by id. */
module CategoryCrud {
  import opened Wrappers
  import opened Tables
  import opened ProductSchema
  import opened Db

  /** Default page size of `get_categories`. */
  const DefaultLimit: nat := 100

  /** `get_category`: the category with key `id`, or None when there is none. */
  function GetCategory(db: Store, id: nat): (r: Option<Row<Category>>)
    reads db
    ensures r.Some? <==> id in Ids(db.categories)
    ensures r.Some? ==> r.value in db.categories && r.value.id == id
    ensures Keyed(db.categories, db.nextId) ==>
      forall c :: c in db.categories && c.id == id ==> r == Some(c)
  {
    match Find(db.categories, id)
    case Some(c) => Some(Row(id, c))
    case None => None
  }

  /** `get_categories`: skips the first `skip` categories and returns at most `limit` of the rest. */
  function GetCategories(db: Store, skip: nat := 0, limit: nat := DefaultLimit): (r: seq<Row<Category>>)
    reads db
    ensures |r| <= limit
    ensures |r| == if skip >= |db.categories| then 0 else Min(limit, |db.categories| - skip)
    ensures forall i :: 0 <= i < |r| ==> r[i] == db.categories[skip + i]
  {
    Page(db.categories, skip, limit)
  }

  /**
   * `create_category`: inserts a category with the given name under a fresh
   * key (its creation time is the database's clock, an input here) and
   * returns it; afterwards `get_category` finds it and every earlier
   * category is found unchanged.
   */
  method CreateCategory(db: Store, name: string, now: Timestamp) returns (r: Row<Category>)
    requires db.Valid()
    modifies db
    ensures db.Valid()
    ensures r == Row(old(db.nextId), Category(name, now))
    ensures db.categories == old(db.categories) + [r]
    ensures db.nextId == old(db.nextId) + 1
    ensures GetCategory(db, r.id) == Some(r)
    ensures forall c :: c in old(db.categories) ==> GetCategory(db, c.id) == Some(c)
    ensures db.products == old(db.products) && db.carts == old(db.carts) && db.cartItems == old(db.cartItems)
    ensures db.orders == old(db.orders) && db.orderItems == old(db.orderItems)
  {
    r := Row(db.nextId, Category(name, now));
    KeyedAppend(db.categories, db.nextId, r);
    KeysGrow(db, 1);
    db.categories := db.categories + [r];
    db.nextId := db.nextId + 1;
  }
}
