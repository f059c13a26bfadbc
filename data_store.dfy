/** `DataStore`: the store handle whose methods stage changes to the three
    tables and commit them once. Each method is specified by the functions
    of module Orders, whose properties module OrderProperties proves. */
module Store {
  import opened Tables
  import Orders
  import OrderProperties

  class DataStore {
    var stock: map<StockKey, int>
    var orders: set<OrderId>
    var lines: map<LineKey, int>
    var orderSeq: OrderId

    /** The committed tables. */
    function State(): Db
      reads this
    {
      Db(stock, orders, lines, orderSeq)
    }

    ghost predicate Valid()
      reads this
    {
      Tables.Valid(State())
    }

    /** A handle on tables that already hold the catalogue's stock. */
    constructor (db: Db)
      requires Tables.Valid(db)
      ensures Valid() && State() == db
    {
      stock, orders, lines, orderSeq := db.stock, db.orders, db.lines, db.orderSeq;
    }

    /** `start_new_order`: adds an empty order with a fresh id. */
    method StartNewOrder() returns (id: OrderId)
      requires Valid()
      modifies this
      ensures Valid()
      ensures id !in old(orders) && orders == old(orders) + {id}
      ensures stock == old(stock) && lines == old(lines)
      ensures (State(), id) == Orders.StartNewOrder(old(State()))
    {
      id := orderSeq;
      orders := orders + {id};
      orderSeq := orderSeq + 1;
    }

    /** `get_order_by_id`: reads only. */
    method GetOrderById(id: OrderId) returns (r: Result<OrderId>)
      ensures r.Ok? <==> id in orders
      ensures r == Orders.GetOrderById(State(), id)
    {
      if id in orders {
        r := Ok(id);
      } else {
        r := Err(OrderNotFound);
      }
    }

    /** `add_item_to_order`: the changes are staged in local copies of the
        tables and written back in one commit at the end; every error
        returns before the commit, so a failed call changes nothing. */
    method AddItemToOrder(orderId: Option<OrderId>, modelId: ModelId, sizeId: SizeId, qty: int)
      returns (r: Result<Receipt>)
      requires Valid()
      modifies this
      ensures Valid()
      ensures var spec := Orders.AddItemToOrder(old(State()), orderId, modelId, sizeId, qty);
        && (spec.Err? ==> r == Err(spec.error) && State() == old(State()))
        && (spec.Ok? ==> r == Ok(spec.value.1) && State() == spec.value.0)
    {
      ghost var db := State();
      ghost var spec := Orders.AddItemToOrder(db, orderId, modelId, sizeId, qty);
      var key := (modelId, sizeId);
      if key !in stock {
        return Err(NotFound);
      }
      if stock[key] < qty {
        return Err(InsufficientStock);
      }
      var stagedStock := stock[key := stock[key] - qty];
      var stagedOrders, stagedLines, stagedSeq := orders, lines, orderSeq;

      var order: OrderId;
      var newOrderItem := true;
      if orderId.None? {
        order := stagedSeq;
        stagedOrders := stagedOrders + {order};
        stagedSeq := stagedSeq + 1;
      } else {
        if orderId.value !in stagedOrders {
          // The staged decrement is dropped with the session.
          return Err(OrderNotFound);
        }
        order := orderId.value;
        var lineKey := (order, modelId, sizeId);
        if lineKey in stagedLines {
          stagedLines := stagedLines[lineKey := stagedLines[lineKey] + qty];
          newOrderItem := false;
        }
      }
      if newOrderItem {
        stagedLines := stagedLines[(order, modelId, sizeId) := qty];
      }

      var receipt := Receipt(OrderRow(order),
                             OrderItemRow(order, modelId, sizeId, stagedLines[(order, modelId, sizeId)]),
                             AvailableSizeRow(modelId, sizeId, stagedStock[key]));
      assert spec == Ok((Db(stagedStock, stagedOrders, stagedLines, stagedSeq), receipt));
      OrderProperties.AddItemPreservesValid(db, orderId, modelId, sizeId, qty);

      // The one commit.
      stock, orders, lines, orderSeq := stagedStock, stagedOrders, stagedLines, stagedSeq;
      r := Ok(receipt);
    }
  }
}
