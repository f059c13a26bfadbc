/** What one reservation does to each table, what it keeps, and what a
    series of reservations does. */
module OrderProperties {
  import opened Tables
  import opened Totals
  import opened Orders

  /** The stock row for the pair loses exactly `qty` units; no other row
      changes and no row appears or disappears. */
  lemma AddItemUpdatesStock(db: Db, orderId: Option<OrderId>, modelId: ModelId, sizeId: SizeId, qty: int)
    requires AddItemToOrder(db, orderId, modelId, sizeId, qty).Ok?
    ensures var db' := AddItemToOrder(db, orderId, modelId, sizeId, qty).value.0;
      && db'.stock.Keys == db.stock.Keys
      && db'.stock[(modelId, sizeId)] == db.stock[(modelId, sizeId)] - qty
      && db'.stock[(modelId, sizeId)] >= 0
      && forall k :: k in db.stock && k != (modelId, sizeId) ==> db'.stock[k] == db.stock[k]
  {
  }

  /** Without an order id, exactly one order is created, distinct from every
      existing one, and it holds a single line: the pair with `qty` units. */
  lemma AddItemToNewOrder(db: Db, modelId: ModelId, sizeId: SizeId, qty: int)
    requires Valid(db)
    requires AddItemToOrder(db, None, modelId, sizeId, qty).Ok?
    ensures var (db', receipt) := AddItemToOrder(db, None, modelId, sizeId, qty).value;
      var o := receipt.order.id;
      && o !in db.orders
      && db'.orders == db.orders + {o}
      && (o, modelId, sizeId) !in db.lines
      && db'.lines == db.lines[(o, modelId, sizeId) := qty]
      && forall l :: l in db'.lines && l.0 == o ==> l == (o, modelId, sizeId)
  {
  }

  /** With an existing order that already has a line for the pair, the
      line's quantity grows by `qty`; no order and no line is created and
      every other line is unchanged. */
  lemma AddItemMergesLine(db: Db, o: OrderId, modelId: ModelId, sizeId: SizeId, qty: int)
    requires AddItemToOrder(db, Some(o), modelId, sizeId, qty).Ok?
    requires (o, modelId, sizeId) in db.lines
    ensures var db' := AddItemToOrder(db, Some(o), modelId, sizeId, qty).value.0;
      && db'.orders == db.orders
      && db'.lines.Keys == db.lines.Keys
      && db'.lines[(o, modelId, sizeId)] == db.lines[(o, modelId, sizeId)] + qty
      && forall l :: l in db.lines && l != (o, modelId, sizeId) ==> db'.lines[l] == db.lines[l]
  {
  }

  /** With an existing order that has no line for the pair, exactly one
      line with `qty` units is added and every other line is unchanged. */
  lemma AddItemAddsLine(db: Db, o: OrderId, modelId: ModelId, sizeId: SizeId, qty: int)
    requires AddItemToOrder(db, Some(o), modelId, sizeId, qty).Ok?
    requires (o, modelId, sizeId) !in db.lines
    ensures var db' := AddItemToOrder(db, Some(o), modelId, sizeId, qty).value.0;
      && db'.orders == db.orders
      && db'.lines.Keys == db.lines.Keys + {(o, modelId, sizeId)}
      && |db'.lines| == |db.lines| + 1
      && db'.lines[(o, modelId, sizeId)] == qty
      && forall l :: l in db.lines ==> db'.lines[l] == db.lines[l]
  {
  }

  /** A successful reservation keeps the store's invariant; in particular
      no stock quantity becomes negative. */
  lemma AddItemPreservesValid(db: Db, orderId: Option<OrderId>, modelId: ModelId, sizeId: SizeId, qty: int)
    requires Valid(db)
    requires AddItemToOrder(db, orderId, modelId, sizeId, qty).Ok?
    ensures Valid(AddItemToOrder(db, orderId, modelId, sizeId, qty).value.0)
  {
  }

  /** Units move from stock to the order lines: the stock total falls by
      `qty`, the line total rises by `qty`, and their sum is unchanged. */
  lemma AddItemConserves(db: Db, orderId: Option<OrderId>, modelId: ModelId, sizeId: SizeId, qty: int)
    requires Valid(db)
    requires AddItemToOrder(db, orderId, modelId, sizeId, qty).Ok?
    ensures var db' := AddItemToOrder(db, orderId, modelId, sizeId, qty).value.0;
      && Total(db'.stock) == Total(db.stock) - qty
      && Total(db'.lines) == Total(db.lines) + qty
  {
    var (db', receipt) := AddItemToOrder(db, orderId, modelId, sizeId, qty).value;
    var sk := (modelId, sizeId);
    var lk := (receipt.order.id, modelId, sizeId);
    TotalUpdate(db.stock, sk, db.stock[sk] - qty);
    assert db'.stock == db.stock[sk := db.stock[sk] - qty];
    if lk in db.lines {
      AddItemMergesLine(db, receipt.order.id, modelId, sizeId, qty);
      TotalUpdate(db.lines, lk, db.lines[lk] + qty);
      assert db'.lines == db.lines[lk := db.lines[lk] + qty];
    } else {
      TotalUpdate(db.lines, lk, qty);
      assert db'.lines == db.lines[lk := qty];
    }
  }

  /** Line quantities stay positive when every request is for at least one
      unit. */
  lemma AddItemKeepsLinesPositive(db: Db, orderId: Option<OrderId>, modelId: ModelId, sizeId: SizeId, qty: int)
    requires Valid(db) && LinesPositive(db) && qty >= 1
    requires AddItemToOrder(db, orderId, modelId, sizeId, qty).Ok?
    ensures LinesPositive(AddItemToOrder(db, orderId, modelId, sizeId, qty).value.0)
  {
  }

  /** Two requests for the same pair against the same order leave one line
      holding both quantities, and the stock row down by both. */
  lemma AddTwiceMerges(db: Db, o: OrderId, modelId: ModelId, sizeId: SizeId, q1: int, q2: int)
    requires AddItemToOrder(db, Some(o), modelId, sizeId, q1).Ok?
    requires AddItemToOrder(AddItemToOrder(db, Some(o), modelId, sizeId, q1).value.0, Some(o), modelId, sizeId, q2).Ok?
    ensures var db1 := AddItemToOrder(db, Some(o), modelId, sizeId, q1).value.0;
      var db2 := AddItemToOrder(db1, Some(o), modelId, sizeId, q2).value.0;
      && db2.lines.Keys == db.lines.Keys + {(o, modelId, sizeId)}
      && db2.lines[(o, modelId, sizeId)]
         == (if (o, modelId, sizeId) in db.lines then db.lines[(o, modelId, sizeId)] else 0) + q1 + q2
      && db2.stock[(modelId, sizeId)] == db.stock[(modelId, sizeId)] - q1 - q2
  {
  }

  /** Two requests without an order id create two distinct new orders,
      each holding its own single line. */
  lemma TwoNewOrders(db: Db, m1: ModelId, s1: SizeId, q1: int, m2: ModelId, s2: SizeId, q2: int)
    requires Valid(db)
    requires AddItemToOrder(db, None, m1, s1, q1).Ok?
    requires AddItemToOrder(AddItemToOrder(db, None, m1, s1, q1).value.0, None, m2, s2, q2).Ok?
    ensures var (db1, r1) := AddItemToOrder(db, None, m1, s1, q1).value;
      var (db2, r2) := AddItemToOrder(db1, None, m2, s2, q2).value;
      && r1.order.id != r2.order.id
      && r1.order.id !in db.orders && r2.order.id !in db.orders
      && db2.orders == db.orders + {r1.order.id, r2.order.id}
      && (r1.order.id, m1, s1) in db2.lines && db2.lines[(r1.order.id, m1, s1)] == q1
      && (r2.order.id, m2, s2) in db2.lines && db2.lines[(r2.order.id, m2, s2)] == q2
      && (forall l :: l in db2.lines && l.0 == r1.order.id ==> l == (r1.order.id, m1, s1))
      && (forall l :: l in db2.lines && l.0 == r2.order.id ==> l == (r2.order.id, m2, s2))
  {
  }

  /** One reservation request, as the handler passes it on. */
  datatype Request = Request(orderId: Option<OrderId>, modelId: ModelId, sizeId: SizeId, qty: int)

  /** The tables after serving `reqs` one after the other; a request that
      fails commits nothing. */
  function Serve(db: Db, reqs: seq<Request>): Db
    decreases |reqs|
  {
    if reqs == [] then db
    else
      var q := reqs[0];
      match AddItemToOrder(db, q.orderId, q.modelId, q.sizeId, q.qty)
      case Err(_) => Serve(db, reqs[1..])
      case Ok((db', _)) => Serve(db', reqs[1..])
  }

  /** After any series of requests, successful or not, the invariant holds,
      so every stock quantity is still at least zero. */
  lemma {:induction false} ServePreservesValid(db: Db, reqs: seq<Request>)
    requires Valid(db)
    ensures Valid(Serve(db, reqs))
    decreases |reqs|
  {
    if reqs != [] {
      var q := reqs[0];
      var r := AddItemToOrder(db, q.orderId, q.modelId, q.sizeId, q.qty);
      if r.Ok? {
        AddItemPreservesValid(db, q.orderId, q.modelId, q.sizeId, q.qty);
        ServePreservesValid(r.value.0, reqs[1..]);
      } else {
        ServePreservesValid(db, reqs[1..]);
      }
    }
  }

  /** After any series of requests, the units in stock plus the units on
      order lines are as many as before. */
  lemma {:induction false} ServeConserves(db: Db, reqs: seq<Request>)
    requires Valid(db)
    ensures Total(Serve(db, reqs).stock) + Total(Serve(db, reqs).lines) == Total(db.stock) + Total(db.lines)
    decreases |reqs|
  {
    if reqs != [] {
      var q := reqs[0];
      var r := AddItemToOrder(db, q.orderId, q.modelId, q.sizeId, q.qty);
      if r.Ok? {
        AddItemPreservesValid(db, q.orderId, q.modelId, q.sizeId, q.qty);
        AddItemConserves(db, q.orderId, q.modelId, q.sizeId, q.qty);
        ServeConserves(r.value.0, reqs[1..]);
      } else {
        ServeConserves(db, reqs[1..]);
      }
    }
  }

  /** Stock (model 1, size 40) holds 3. A new order for 2 succeeds with one
      line of 2 and leaves 1 in stock; asking for 2 more on that order
      fails with InsufficientStock, so stock stays at 1 and the line at 2.
      An unknown order id fails with OrderNotFound. */
  lemma ReservationScenario()
    ensures var db := Db(map[(1, 40) := 3], {}, map[], 1);
      var r1 := AddItemToOrder(db, None, 1, 40, 2);
      && r1.Ok?
      && r1.value.1.order.id == 1
      && r1.value.1.orderItem.qty == 2
      && r1.value.1.availableSize.qty == 1
      && r1.value.0.lines == map[(1, 1, 40) := 2]
      && AddItemToOrder(r1.value.0, Some(1), 1, 40, 2) == Err(InsufficientStock)
      && AddItemToOrder(r1.value.0, Some(7), 1, 40, 1) == Err(OrderNotFound)
  {
  }
}
