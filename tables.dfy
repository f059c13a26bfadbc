/** The three tables the reservation rule reads and writes, as values.
    `stock` is the `available_size` table keyed by (model id, size id),
    `orders` the ids of the `order` table, `lines` the `order_item` table
    keyed by (order id, model id, size id), and `orderSeq` the next value
    of the order id sequence. A map key can occur once, which is the
    composite primary key of each table. */
module Tables {

  type ModelId = int
  type SizeId = int
  type OrderId = int

  /** Primary key of an `available_size` row. */
  type StockKey = (ModelId, SizeId)

  /** Primary key of an `order_item` row. */
  type LineKey = (OrderId, ModelId, SizeId)

  datatype Option<T> = None | Some(value: T)

  /** The ways a reservation can fail: no stock row for the pair, fewer
      units in stock than requested, or an order id that names no order. */
  datatype Error = NotFound | InsufficientStock | OrderNotFound

  datatype Result<T> = Ok(value: T) | Err(error: Error)

  /** The persisted state of the store. */
  datatype Db = Db(
    stock: map<StockKey, int>,
    orders: set<OrderId>,
    lines: map<LineKey, int>,
    orderSeq: OrderId)

  /** The store's invariant: no stock quantity is negative, every order id
      was drawn from the sequence, and every order line belongs to an
      existing order and to a stocked (model, size) pair. */
  predicate Valid(db: Db) {
    && (forall k :: k in db.stock ==> db.stock[k] >= 0)
    && (forall o :: o in db.orders ==> o < db.orderSeq)
    && (forall l :: l in db.lines ==> l.0 in db.orders && (l.1, l.2) in db.stock)
  }

  /** Every order line holds at least one unit. */
  predicate LinesPositive(db: Db) {
    forall l :: l in db.lines ==> db.lines[l] > 0
  }

  /** The rows `add_item_to_order` returns, as plain value snapshots. */
  datatype OrderRow = OrderRow(id: OrderId)
  datatype OrderItemRow = OrderItemRow(orderId: OrderId, modelId: ModelId, sizeId: SizeId, qty: int)
  datatype AvailableSizeRow = AvailableSizeRow(modelId: ModelId, sizeId: SizeId, qty: int)
  datatype Receipt = Receipt(order: OrderRow, orderItem: OrderItemRow, availableSize: AvailableSizeRow)
}
