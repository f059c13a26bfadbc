/** The order-item reservation rule of `DataStore`, as functions from the
    persisted tables to the tables after the one commit, or to the error
    that leaves them as they were. */
module Orders {
  import opened Tables

  /** `start_new_order`: a new, empty order whose id is the next value of
      the order id sequence. */
  function StartNewOrder(db: Db): (r: (Db, OrderId))
    ensures r.0.orders == db.orders + {r.1}
    ensures r.0.stock == db.stock && r.0.lines == db.lines
    ensures Valid(db) ==> r.1 !in db.orders && Valid(r.0)
    ensures Valid(db) ==> forall l :: l in r.0.lines ==> l.0 != r.1
  {
    (db.(orders := db.orders + {db.orderSeq}, orderSeq := db.orderSeq + 1), db.orderSeq)
  }

  /** `get_order_by_id`: the order with that id, or `OrderNotFound` when
      the query finds no row. */
  function GetOrderById(db: Db, id: OrderId): (r: Result<OrderId>)
    ensures r.Ok? <==> id in db.orders
    ensures r.Ok? ==> r.value == id
    ensures r.Err? ==> r.error == OrderNotFound
  {
    if id in db.orders then Ok(id) else Err(OrderNotFound)
  }

  /** The stock step of `add_item_to_order`: the row for the pair must
      exist and hold at least `qty` units; it then holds `qty` fewer. */
  function Reserve(stock: map<StockKey, int>, modelId: ModelId, sizeId: SizeId, qty: int)
    : (r: Result<map<StockKey, int>>)
    ensures r.Ok? <==> (modelId, sizeId) in stock && qty <= stock[(modelId, sizeId)]
    ensures r.Err? && (modelId, sizeId) !in stock ==> r.error == NotFound
    ensures r.Err? && (modelId, sizeId) in stock ==> r.error == InsufficientStock
    ensures r.Ok? ==> r.value.Keys == stock.Keys
    ensures r.Ok? ==> r.value[(modelId, sizeId)] == stock[(modelId, sizeId)] - qty >= 0
    ensures r.Ok? ==> forall k :: k in stock && k != (modelId, sizeId) ==> r.value[k] == stock[k]
  {
    var key := (modelId, sizeId);
    if key !in stock then Err(NotFound)
    else if stock[key] < qty then Err(InsufficientStock)
    else Ok(stock[key := stock[key] - qty])
  }

  /** Resolving the target order: a new one when no id is given, otherwise
      the existing order with that id. */
  function ResolveOrder(db: Db, orderId: Option<OrderId>): (r: Result<(Db, OrderId)>)
    ensures orderId.None? ==> r.Ok? && r.value.0.orders == db.orders + {r.value.1}
    ensures orderId.None? ==> r.value.0.stock == db.stock && r.value.0.lines == db.lines
    ensures orderId.None? && Valid(db) ==> r.value.1 !in db.orders && Valid(r.value.0)
    ensures orderId.Some? ==> (r.Ok? <==> orderId.value in db.orders)
    ensures orderId.Some? && r.Ok? ==> r.value == (db, orderId.value)
    ensures r.Err? ==> r.error == OrderNotFound
  {
    match orderId
    case None => Ok(StartNewOrder(db))
    case Some(id) =>
      match GetOrderById(db, id)
      case Err(e) => Err(e)
      case Ok(o) => Ok((db, o))
  }

  /** `add_item_to_order`: reserve `qty` units of (model, size), resolve
      the order, and add `qty` to the order's line for the pair, creating
      the line when there is none. A line is only looked up for an order
      that already existed; a new order always gets a new line. On success
      the tables after the commit and the three returned rows; on failure
      the error, and nothing is committed. */
  function AddItemToOrder(db: Db, orderId: Option<OrderId>, modelId: ModelId, sizeId: SizeId, qty: int)
    : (r: Result<(Db, Receipt)>)
    ensures r.Ok? <==>
      && (modelId, sizeId) in db.stock
      && qty <= db.stock[(modelId, sizeId)]
      && (orderId.Some? ==> orderId.value in db.orders)
    ensures (modelId, sizeId) !in db.stock ==> r == Err(NotFound)
    ensures (modelId, sizeId) in db.stock && db.stock[(modelId, sizeId)] < qty ==> r == Err(InsufficientStock)
    ensures r.Err? && (modelId, sizeId) in db.stock && qty <= db.stock[(modelId, sizeId)] ==> r.error == OrderNotFound
    ensures r.Ok? && orderId.Some? ==> r.value.1.order.id == orderId.value
    ensures r.Ok? && orderId.None? && Valid(db) ==> r.value.1.order.id !in db.orders
    ensures r.Ok? ==>
      var (db', receipt) := r.value;
      && receipt.order.id in db'.orders
      && (receipt.order.id, modelId, sizeId) in db'.lines
      && (modelId, sizeId) in db'.stock
      && receipt.orderItem == OrderItemRow(receipt.order.id, modelId, sizeId, db'.lines[(receipt.order.id, modelId, sizeId)])
      && receipt.availableSize == AvailableSizeRow(modelId, sizeId, db'.stock[(modelId, sizeId)])
  {
    match Reserve(db.stock, modelId, sizeId, qty)
    case Err(e) => Err(e)
    case Ok(stock) =>
      // The decrement is staged before the order is resolved; an unknown
      // order discards it together with everything else.
      match ResolveOrder(db.(stock := stock), orderId)
      case Err(e) => Err(e)
      case Ok((staged, o)) =>
        var key := (o, modelId, sizeId);
        var merge := orderId.Some? && key in staged.lines;
        var lineQty := if merge then staged.lines[key] + qty else qty;
        var db' := staged.(lines := staged.lines[key := lineQty]);
        Ok((db', Receipt(OrderRow(o), OrderItemRow(o, modelId, sizeId, lineQty),
                         AvailableSizeRow(modelId, sizeId, stock[(modelId, sizeId)]))))
  }
}
