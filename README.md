# Order-item reservation in obesho_back

This project models the reservation rule of the ObeSho retail backend.
A client asks to add `qty` units of a product model in one size to an order.
The order is either an existing one or a new one started by the request.
The rule lives in `DataStore.add_item_to_order`, with its helpers `start_new_order` and `get_order_by_id`.

The store is three tables:

- `available_size` is stock: a map from (model id, size id) to a quantity.
- `order` is a set of order ids.
- `order_item` is order lines: a map from (order id, model id, size id) to a quantity.

A map holds one value per key, which is the composite primary key of each table.
New order ids come from the order id sequence. The model keeps its next value as `orderSeq`.

A request runs in four steps:

1. Look up the stock row. A missing row fails with `NotFound`.
2. Fewer units than requested fails with `InsufficientStock`. Otherwise the decrement is staged.
3. Resolve the order. With no id, a new order is started. With an id, the order must exist, or the call fails with `OrderNotFound`.
4. For an existing order, an existing line for the pair grows by `qty`; otherwise a new line with `qty` is attached.

Everything is committed once at the end.
A failure raises before the commit, and the per-request session is dropped, so nothing persists.
That includes the stock decrement staged before an unknown order is detected.

Files:

- `tables.dfy` holds the keys, the returned rows, the error type and the store invariant `Valid`.
- `totals.dfy` holds the sum of a table's quantities, used to state conservation.
- `orders.dfy` holds the rule as pure functions from the tables to the committed tables or an error.
- `order_properties.dfy` holds the lemmas about one request, two requests, and any series of requests.
- `data_store.dfy` holds the `DataStore` class. It keeps the three tables as `map`/`set` fields, stages changes in locals and commits them in one assignment. Each method is proved equal to the pure function.

Three details of the code, and how the model treats them. Line quantities are evidently meant to be positive, and errors to be typed; the model follows the code as written:

- The code never checks that `qty` is positive, so no member requires it. A request with `qty == 0` passes the stock check and leaves stock unchanged; one with `qty < 0` passes it and raises stock. Stock still never goes negative. Positive line quantities need `qty >= 1`, which `AddItemKeepsLinesPositive` assumes.
- A missing stock row raises the ORM's no-result error, and an unknown order raises a transport-level 400 error. Neither is an `OperationError`. The model gives them the closed variants `NotFound` and `OrderNotFound`.
- `add_item_to_order` starts a new order inline rather than calling `start_new_order`. Both do the same thing, and the model reuses `StartNewOrder`.

## Model

| member | source | states |
|---|---|---|
| Orders.StartNewOrder | obesho_back.py:173-178 | the new order id is added to the orders; stock and lines are unchanged; on a valid store the id is not an existing order, owns no line, and the store stays valid |
| Orders.GetOrderById | obesho_back.py:180-184 | succeeds exactly when the id is an existing order, and returns that id; otherwise fails with OrderNotFound |
| Orders.Reserve | obesho_back.py:193-201 | succeeds iff the stock row exists and holds at least qty; a missing row gives NotFound and a short row InsufficientStock; on success the row drops by qty and stays >= 0, and no other row changes |
| Orders.ResolveOrder | obesho_back.py:205-215 | with no id, succeeds with a new order added to the orders, stock and lines unchanged, and on a valid store an id that is not an existing order; with an id, succeeds exactly when the order exists, returns that id and leaves the tables unchanged; otherwise fails with OrderNotFound |
| Orders.AddItemToOrder | obesho_back.py:186-253 | succeeds iff the stock row exists, holds at least qty, and the order (if given) exists; each failure gets its own error, checked in source order; the returned order is the given one, or a new one not among the existing orders; the returned rows are that order, its line for the pair, and the decremented stock row |
| OrderProperties.AddItemUpdatesStock | obesho_back.py:197-201 | on success the stock row for the pair is old minus qty and is >= 0; every other row is unchanged and no row is added or removed |
| OrderProperties.AddItemToNewOrder | obesho_back.py:205-236 | with no order id, success adds exactly one order, not an existing one, holding exactly one line: the pair with qty units |
| OrderProperties.AddItemMergesLine | obesho_back.py:218-225 | for an existing order with a line for the pair, that line becomes old plus qty; no order or line is created; other lines are unchanged |
| OrderProperties.AddItemAddsLine | obesho_back.py:226-236 | for an existing order with no line for the pair, exactly one line with qty units is added; orders and all other lines are unchanged |
| OrderProperties.AddItemPreservesValid | obesho_back.py:193-239 | a successful request keeps the invariant: no negative stock, every order id drawn from the sequence, every line on an existing order and a stocked pair |
| OrderProperties.AddItemConserves | obesho_back.py:201-236 | on success the stock total falls by qty and the line total rises by qty |
| OrderProperties.AddItemKeepsLinesPositive | obesho_back.py:224-235 | with qty >= 1, line quantities stay positive |
| OrderProperties.AddTwiceMerges | obesho_back.py:218-225 | two requests for the same pair on the same order leave one line holding the old quantity plus both amounts, and stock down by both |
| OrderProperties.TwoNewOrders | obesho_back.py:205-236 | two requests without an order id create two distinct new orders, each holding exactly one line, for its own pair with its own quantity |
| OrderProperties.ServePreservesValid | obesho_back.py:186-239 | after any series of requests, successful or failed, the invariant holds, including that every stock quantity is >= 0 |
| OrderProperties.ServeConserves | obesho_back.py:186-239 | after any series of requests, units in stock plus units on lines are unchanged |
| OrderProperties.ReservationScenario | obesho_back.py:193-236 | with 3 in stock, a new order for 2 gives one line of 2 and leaves 1; 2 more on that order fails with InsufficientStock; an unknown order fails with OrderNotFound |
| Store.DataStore.constructor | obesho_back.py:159-160 | a handle on valid tables exposes exactly those tables |
| Store.DataStore.StartNewOrder | obesho_back.py:173-178 | adds a fresh order id, leaves stock and lines unchanged, keeps the invariant, and matches Orders.StartNewOrder; it commits the order at once, where the source only stages it (see Left out) |
| Store.DataStore.GetOrderById | obesho_back.py:180-184 | reads only; succeeds exactly for existing orders, as Orders.GetOrderById |
| Store.DataStore.AddItemToOrder | obesho_back.py:186-253 | on failure returns the error and leaves all tables unchanged; on success commits exactly the tables of Orders.AddItemToOrder and returns its rows; keeps the invariant |

## Left out

- The Tornado handlers, routing, CORS headers, error rendering and the JSON body-parsing and encoding patches (obesho_back.py:256-374) are HTTP transport.
- The handler's loose typing of `order_id`, which defaults to an empty list (obesho_back.py:337), is not modelled; `order_id` is an `Option`.
- The handler's fixed `qty = 1` (obesho_back.py:340) is not modelled; `add_item_to_order` itself does not check `qty`.
- SQLAlchemy engine, session and mapping setup are not modelled beyond the shape of the three tables. Inside `AddItemToOrder`, the session's staging and single commit become local copies written back once.
- Store.DataStore.StartNewOrder: commits the new order at once, because the model has no session. The source only stages it with `session.add` (its commit is commented out at obesho_back.py:177), so in the source it persists only if a later commit on the same session runs, and its id is assigned at flush.
- Quantities and ids are unbounded `int`. The columns are SQLite 64-bit integers, where a value outside that range fails at the write; the model does not capture that failure.
- Model, Size and their name, price (a float) and image columns are not modelled; only their ids appear, as keys.
- The catalogue read path (`get_models_incl_available_sizes`, `get_sizes`, `Model.rr`) is a plain projection with no invariant.
- `entity_as_dict` is reflection over ORM columns; the model returns the three rows as datatype values.
- `OrderStatus` and `OrderStatusHistory` are not used by any operation.
- Logging, `print` calls and the mapping of errors to HTTP status codes are left out; errors are the closed type `NotFound | InsufficientStock | OrderNotFound`.
- Concurrency and transaction isolation between simultaneous requests are left out; the model is single-threaded.
- db_fill.py is fixture seeding with no logic.
- The order id sequence is modelled as a counter above every existing id. The database's actual id allocation is not modelled.
