# Sports e-commerce backend: catalog, cart and checkout

This project models the core of a FastAPI/SQLAlchemy shop backend and proves its
behaviour in Dafny. The modelled parts are:

- the product catalog: listing, fetching, and the admin-only create, soft delete and
  update, plus the categories' data-access functions;
- the product request validator and the response shapes;
- the shopping cart: adding one unit of a product, viewing the cart, and the cart's
  computed total;
- checkout, which turns the caller's cart lines into a paid order, and the two
  ownership-filtered order lookups.

The database is the class `Db.Store`. It holds one field per table: `products`,
`categories`, `carts`, `cartItems`, `orders` and `orderItems`. Each table is a
sequence of `Row(id, data)` in insertion order. A counter, `nextId`, hands out fresh
primary keys; it stands for the UUIDs and autoincrement keys of the real schema.

`Store.Valid()` is the consistency every route keeps:

- keys are unique and below the counter;
- every stored product satisfies the `ProductBase` constraints;
- each user has at most one cart;
- each (cart, product) pair has at most one cart line;
- every cart line refers to a stored cart and a stored product, with quantity at least 1;
- every order item belongs to a stored order, and its subtotal is its price times its
  quantity;
- every order is paid, and its total is the sum of its items' subtotals.

The constructor establishes `Valid()` on an empty database. Every method that writes
preserves it.

Each source file has its own module. `ProductSchema` and `CartSchema` are the pydantic
schemas. `CategoryCrud`, `ProductRoutes`, `CartRoutes` and `OrderRoutes` hold the
handlers. `Tables` and `Db` hold the queries the handlers share, and `Api` holds the
HTTP errors with the source's status codes and messages.

The handlers are module-level members that take the database as a parameter
`db: Store`, as the routes receive their session through `Depends(get_db)`. Handlers
that change the database are methods. Each one states the whole new state of the
tables, either directly or through a function of the old state, such as `WithCart`,
`WithOneMore`, `OrderLines` or `RemoveIds`. Read-only handlers are functions.

Checkout's loop is the method `OrderRoutes.StageLines`. It is proved against the
functions `Charge` and `OrderLines`. Its rows are written in a single commit at the
end (the method `Commit`).

The model follows the source as written:

- add-to-cart checks only that the product exists, not that it is active
  (backend/routes/cart.py:25-28);
- add-to-cart takes no quantity and always adds exactly one unit
  (backend/routes/cart.py:49-57);
- the order history query has no ORDER BY and returns the order rows alone, without
  their items (backend/routes/order.py:83-87);
- checkout reads each product again when it reaches its line
  (backend/routes/order.py:46). With no concurrent writers this gives the products as
  they were when checkout began.

## Model

| member | source | states |
|---|---|---|
| Tables.FindIndex | backend/routes/product.py:54-58 | the position of the first row with the key; None exactly when no row has it |
| Tables.Find | backend/routes/order.py:46 | the columns of a row with the key, present exactly when such a row exists; with unique keys, the columns of that only row |
| Tables.RemoveIds | backend/routes/order.py:62 | a row remains exactly when it was there and its key is not deleted; nothing is added |
| Tables.RemoveNothing | backend/routes/order.py:62 | deleting keys that no row carries leaves the table as it was |
| Tables.RemoveIdsTwice | backend/routes/order.py:62 | deleting a set of keys and then one more key is deleting both at once |
| Tables.Page | backend/crud/categories.py:14-16 | OFFSET/LIMIT: the result has min(limit, n - skip) rows (none when skip >= n), and its i-th row is row skip + i |
| Db.CartIdsOf | backend/routes/order.py:18-23 | exactly the keys of the carts whose user_id is the caller (the join on Cart); with one cart per user, that is the key of the cart FindCart finds, or no key when it finds none |
| Db.FindCart | backend/routes/cart.py:31-32 | a cart owned by the user, and None exactly when the user owns no cart |
| Db.FindCartUnique | backend/routes/cart.py:31-32 | with one cart per user, the first match is the user's only cart |
| Db.SoleOwnerCart | backend/routes/order.py:18-23 | with one cart per user, the keys of the user's carts are that of the cart FindCart finds, or none |
| Db.LinesIn | backend/routes/order.py:18-23 | a line is selected exactly when it is stored and belongs to one of the given carts |
| Db.LinesInNone | backend/routes/order.py:25-29 | when no stored line belongs to the given carts, the selection is empty |
| Db.LineIndex | backend/routes/cart.py:41-47 | the position of a line with that cart and that product; None exactly when there is no such line |
| Db.ItemsOf | backend/routes/order.py:110-114 | an item is selected exactly when it is stored and carries that order key |
| Db.ItemsOfConcat | backend/routes/order.py:110-114 | grouping items by order key distributes over two runs of rows |
| Db.ProductOut | backend/schemas/product.py:31-36 | the response carries the base fields, id and is_active; the nested category is present exactly when category_id names a stored category, and it is that category |
| ProductSchema.Errors | backend/schemas/product.py:6-11 | each field error is reported exactly when its constraint fails: name missing, shorter than 2 or longer than 100; description longer than 500; price missing or not above 0; no other error is reported, and at most one per field, so at most three |
| ProductSchema.Validate | backend/schemas/product.py:6-14 | a body is accepted exactly when name and price are present, the name has 2 to 100 characters, the description is absent or at most 500, and the price is above 0; an accepted body keeps every field as sent, and category_id is None when absent; a rejected body yields its non-empty error list |
| CartSchema.Sum | backend/schemas/cart.py:19-22 | the left fold that `sum` performs over the lines equals the reference total: the first line's price times quantity plus the total of the rest |
| CartSchema.SumConcat | backend/schemas/cart.py:19-22 | the total of two runs of lines is the sum of their totals |
| CartSchema.SumInsert | backend/schemas/cart.py:22 | a line added anywhere adds exactly its live price times its quantity to the total |
| CartSchema.SumPositive | backend/schemas/cart.py:22 | with prices above 0 and quantities at least 1, the total is never negative, and it is positive once there is a line |
| CategoryCrud.GetCategory | backend/crud/categories.py:18-20 | the stored category with that id when there is one, else None; with unique keys it is the only such category |
| CategoryCrud.GetCategories | backend/crud/categories.py:14-16 | skips the first skip categories and returns at most limit of the following ones, in table order; defaults 0 and 100 |
| CategoryCrud.CreateCategory | backend/crud/categories.py:7-12 | appends a category with the given name under a fresh key and returns it; get_category then finds it, every earlier category is found unchanged, and no other table changes |
| ProductRoutes.ActiveOnly | backend/routes/product.py:20-25 | a product is kept exactly when it is stored and active |
| ProductRoutes.GetProducts | backend/routes/product.py:13-27 | skips the first skip active products and returns at most limit of the following ones, each as its response; every product listed is active; defaults 0 and 10 |
| ProductRoutes.GetProduct | backend/routes/product.py:97-116 | succeeds exactly when a stored product has that id and is active, and returns that product; otherwise 404 "Product not found" |
| ProductRoutes.CreateProduct | backend/routes/product.py:30-44 | a non-admin gets 403 and nothing changes; an invalid body gets 422 with its errors and nothing changes; otherwise a new active product with the body's fields is appended under a fresh key and returned, and get_product finds it |
| ProductRoutes.DeleteProduct | backend/routes/product.py:47-67 | 403 for a non-admin and 404 for an unknown id, both changing nothing; otherwise only that product becomes inactive, keeping its row and other fields; get_product then gives 404 and get_products omits it; deleting an inactive product succeeds and changes nothing |
| ProductRoutes.UpdateProduct | backend/routes/product.py:70-94 | 403, 422 and 404 change nothing; otherwise exactly the name, description and price of that product are replaced, is_active and category_id are kept, other products are untouched, and the updated product is returned |
| ProductRoutes.UpdatedCatalog | backend/routes/product.py:87-91 | replacing a product with a row that satisfies the ProductBase constraints keeps every stored product valid |
| CartRoutes.AddToCart | backend/routes/cart.py:18-60 | an unknown product id (only existence counts, not is_active) gives 404 and changes nothing; otherwise the caller's cart is found or created, the product's line in it gains exactly one unit, or a line with quantity 1 is inserted, and the carts and lines follow WithCart and WithOneMore; the key counter advances by one for each row inserted (the cart, the line) |
| CartRoutes.WithCart | backend/routes/cart.py:31-38 | afterwards the user has a cart; every earlier cart remains, and any other added cart belongs to the user |
| CartRoutes.WithOneMore | backend/routes/cart.py:41-57 | one line more exactly when the pair had none; every line of another pair stays at its position; every line keeps its key or is the new one; some line of the pair now holds one unit more than Quantity said before |
| CartRoutes.Quantity | backend/routes/cart.py:41-50 | 0 when no line has the pair; otherwise a stored line of the pair holds that many units, and with one line per pair it is the quantity of that only line |
| CartRoutes.GetOrCreateCart | backend/routes/cart.py:30-38 | returns the user's cart, inserting one with that user_id under a fresh key when the user has none; only the carts table and the counter change |
| CartRoutes.AddLine | backend/routes/cart.py:40-59 | the cart lines become WithOneMore of the old ones: the matching line gains one unit, or a new line with quantity 1 is inserted under a fresh key; the other tables are unchanged |
| CartRoutes.OneMoreUnit | backend/routes/cart.py:41-57 | adding a unit keeps one line per (cart, product), raises that pair's quantity by exactly 1, leaves every other pair's quantity unchanged, and keeps every other line |
| CartRoutes.IncrementedLine | backend/routes/cart.py:49-50 | `quantity += 1` on the found line: one line per pair is kept, that pair's quantity rises by exactly 1, and no other pair or line changes |
| CartRoutes.InsertedLine | backend/routes/cart.py:51-57 | a new line with quantity 1 keeps one line per pair, raises that pair's quantity from 0 to 1, and keeps every earlier line and quantity |
| CartRoutes.LineIndexAt | backend/routes/cart.py:41-47 | with one line per (cart, product), the lookup finds the matching line |
| CartRoutes.NewCartKeepsCartsOk | backend/routes/cart.py:34-38 | inserting a first cart for a user who has none keeps one cart per user and keeps every line pointing at a stored cart |
| CartRoutes.IncrementKeepsCartsOk | backend/routes/cart.py:49-50 | incrementing a line keeps the cart invariant |
| CartRoutes.InsertKeepsCartsOk | backend/routes/cart.py:51-57 | inserting a line for a pair that has none, in a stored cart and for a stored product, keeps the cart invariant |
| CartRoutes.LineView | backend/schemas/cart.py:6-10 | a line's response carries its id, product id and quantity, and the product row stored now under that id; with unique product keys its name, description, price, category_id and is_active are those of the stored product (live, not a snapshot) |
| CartRoutes.ViewCart | backend/routes/cart.py:62-82 | 404 "Cart not found" exactly when the caller has no cart (an empty cart is not an error); otherwise the caller's cart with exactly its lines, each joined to its live product |
| CartRoutes.CartTotalNonNegative | backend/schemas/cart.py:19-22 | the total of any cart shown is never negative, and is positive when the cart has lines |
| OrderRoutes.Snapshot | backend/routes/order.py:46-58 | the order item for a line: its key and order id, the line's product id and quantity, the stored product's name and price at checkout time, and subtotal = price times quantity |
| OrderRoutes.OrderLines | backend/routes/order.py:44-60 | exactly one order item per cart line read, in order, under consecutive keys, each that line's snapshot |
| OrderRoutes.Checkout | backend/routes/order.py:12-73 | with no cart lines: 400 "Cart is empty" and nothing changes. Otherwise: exactly one new order owned by the caller, paid, whose total is the charge and is also the returned total; one snapshot item per line; exactly the caller's lines deleted; cart rows, products and categories unchanged. Afterwards the caller has no lines, so an immediate second checkout is "Cart is empty" |
| OrderRoutes.PlaceOrder | backend/routes/order.py:31-67 | one order is appended under the next key, owned by the caller, paid, with the running total Charge; its items are OrderLines of the lines under the following keys; exactly the lines' keys are deleted; the counter moves past the keys used; Valid is kept |
| OrderRoutes.Commit | backend/routes/order.py:67 | the staged tables are written; the products, categories and carts are unchanged |
| OrderRoutes.StageLines | backend/routes/order.py:44-62 | the loop: the running total is Charge of the lines, the staged items are OrderLines (one per line, in order), and the staged deletions are exactly the lines' keys |
| OrderRoutes.PrefixStep | backend/routes/order.py:44-62 | one more iteration adds that line's snapshot, its subtotal and its key |
| OrderRoutes.DeleteEach | backend/routes/order.py:62 | deleting the lines one at a time keeps a row exactly when it was there and its key is none of the lines' keys |
| OrderRoutes.DeleteEachIsBatch | backend/routes/order.py:62 | deleting the lines one at a time, in loop order, deletes exactly the set of their keys |
| OrderRoutes.LinesPriced | backend/routes/order.py:46 | every line read at checkout refers to a stored product, so the lookup cannot fail |
| OrderRoutes.DrainCart | backend/routes/order.py:18-62 | after the caller's lines are deleted, the same query finds no lines of those carts |
| OrderRoutes.OtherCartsKept | backend/routes/order.py:62 | with unique keys, deleting the caller's lines keeps every line of every other cart |
| OrderRoutes.CheckoutKeepsValid | backend/routes/order.py:31-67 | the tables checkout commits are consistent again: unique keys, the cart invariant and the order invariant |
| OrderRoutes.CartsAfterCheckout | backend/routes/order.py:62 | deleting cart lines keeps the cart invariant for the remaining lines |
| OrderRoutes.OrdersAfterPlacing | backend/routes/order.py:64-65 | the placed order, paid with the charged total, together with its items, keeps every order's total equal to the sum of its items |
| OrderRoutes.KeyedOrderLines | backend/routes/order.py:51-60 | the new order items carry fresh, distinct keys |
| OrderRoutes.OrdersAfterCheckout | backend/routes/order.py:64-67 | appending a paid order whose total is the sum of its new items keeps the order invariant |
| OrderRoutes.TotalAfterCheckout | backend/routes/order.py:64 | after checkout, each earlier order's items are unchanged, and the new order's items are exactly the new ones |
| OrderRoutes.OrderLinesTotal | backend/routes/order.py:48-64 | the total recorded on the order equals the sum of the subtotals of the items written |
| OrderRoutes.ChargeIsCartTotal | backend/routes/order.py:44-49 | checkout charges exactly the total the cart shows just before |
| OrderRoutes.Charge | backend/routes/order.py:31-49 | the running total: 0 for no lines, else the total of the earlier lines plus the last line's stored price times its quantity; it has no contract of its own, and ChargePositive, ChargeIsSum, ChargeIsCartTotal and OrderLinesTotal state its properties |
| OrderRoutes.ChargePositive | backend/routes/order.py:31-49 | the running total starts at 0 and, with stored prices above 0 and quantities of at least 1, is never negative and is positive once there is a line |
| OrderRoutes.ChargeIsSum | backend/routes/order.py:48-49 | charging lines at stored prices equals the cart total of their responses |
| OrderRoutes.OrderHistory | backend/routes/order.py:76-87 | exactly the orders whose user_id is the caller; no order is promised |
| OrderRoutes.OrdersOf | backend/routes/order.py:83-87 | an order is selected exactly when it is stored and owned by the user |
| OrderRoutes.GetOrderDetail | backend/routes/order.py:90-119 | 404 "Order not found" unless an order with that id belongs to the caller; otherwise that order and exactly the items carrying its id |
| OrderRoutes.DetailIsConsistent | backend/routes/order.py:110-119 | every order shown is paid, its total is the sum of its items' subtotals, and each subtotal is price times quantity |

## Left out

- Authentication: password hashing, JWT decoding and the 401 answers of `get_current_user` are not modelled. The caller is a `UserId` parameter, and admin status is an `isAdmin` parameter; a non-admin gets 403 "Not authorized" before the body is validated, as the framework resolves dependencies first.
- Sessions, commits and concurrency: checkout commits the pending order before the loop (backend/routes/order.py:41), so another request could see a pending order with total 0. The model stages the pending order, the items and the deletions, then writes them in one commit. Concurrent requests, rollback and the sync-`Session`-on-`AsyncSession` mismatch of the order routes are not modelled.
- OrderRoutes.PlaceOrder: the pending order with total 0 that the source commits before the loop (backend/routes/order.py:33-42) is not modelled as a state of its own; the contract states only the paid order that the final commit leaves.
- Floating point: the `Float` columns are modelled as `real`, without rounding.
- Generated values: UUIDs and autoincrement keys are natural numbers from one shared counter. `datetime.utcnow()` and the database's creation times are `Timestamp` inputs. Ids passed as strings that are not valid UUIDs, which the database rejects, are not modelled.
- Row order: SQL queries without ORDER BY promise no order; the model returns rows in table order. OrderRoutes.OrderHistory states only which orders are returned, as the source promises.
- Missing products at checkout: `db.get` could return None and crash (backend/routes/order.py:46). The model excludes this through `Store.Valid()`, whose cart invariant says every line refers to a stored product; products are only ever deactivated, never deleted.
- Every route requires `Store.Valid()`, the invariant the constructor establishes and every modelled write preserves; the source itself states no precondition.
- Category foreign key and relationship: backend/models/product.py:7-14 declares no `category_id` column and no `category` relationship, while the routes and schemas pass and return `category_id` and the response nests a `category`. The model follows the routes: it keeps `category_id` on the product row, stores it as sent (the routes do not check it against the categories table), and Db.ProductOut joins the nested category on `category_id`, showing a product whose category does not exist without one. A foreign key in the real schema, if there is one, would instead reject an unknown `category_id` at the insert or update.
- Integer widths: quantities are unbounded; the 32-bit `Integer` column's overflow is not modelled.
- Pagination bounds: `skip` and `limit` are natural numbers; negative values, which the database rejects, are not modelled. CategoryCrud.GetCategory takes a natural id; a negative id finds nothing in the source, too.
- String lengths count characters; pydantic's counting of Unicode code points is not modelled separately.
- Serialisation: the order history returns stored rows without their items or relationships, and the framework's JSON encoding of rows is not modelled.
- Other routes and wiring: authentication routes, the categories router that only forwards to the data-access functions, the test route, the migration environment, the engine and the application setup.
