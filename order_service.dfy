/** The order service (emporia-api/services/order_services.py): order
    placement as the five commands run through one invoker, cancellation as
    a status command, and the dictionaries the order views are turned into.
    The service creates its invoker once, so the command history is shared
    by every call; `PlaceOrderFixed` is placement with an invoker of its
    own per call. `Place` and `Cancel` say what the methods do. */
module OrderService {
  import opened Common
  import opened Tables
  import opened ProductRepo
  import opened CartRepo
  import opened OrderRepo
  import opened OrderCommands
  import opened OrderInvoker
  import Payment

  /** The dictionary `place_order` returns; `order_id` only on success. */
  datatype PlaceResult = PlaceResult(success: bool, message: string, orderId: Option<int>)

  /** The tables, the invoker's history and the returned dictionary. */
  datatype Placed = Placed(tables: Tables, history: seq<Command>, result: PlaceResult)

  /** The message of the `AttributeError` raised by `None.items`. */
  const NoCartMessage := "'NoneType' object has no attribute 'items'"

  /** `order.order_id` of the order `CreateOrderCommand.execute` returned. */
  function OrderIdOf(v: Value): int
  {
    match v
    case Created(id) => id
    case Done => 0
  }

  /** The `except` branch of `place_order`. */
  function PlaceFailed(t: Tables, h: seq<Command>, m: string): Placed
  {
    Placed(t, h, PlaceResult(false, "Order placement failed: " + m, None))
  }

  /** `place_order(shopping_cart, customer_id, payment_method)` with the
      invoker's history `h`: validate, create the order (status "pending",
      the cart's total price), update the inventory, pay, set the status to
      "paid"; the first step that raises ends it, after the invoker has
      rolled back its whole history. */
  function Place(t: Tables, h: seq<Command>, cart: Option<ShoppingCart>, customerId: int,
                 payMethod: string, now: int): Placed
  {
    match cart
    case None => PlaceFailed(t, h, NoCartMessage)
    case Some(c) => AfterValidate(Invoke(t, h, ValidateOrder(c.items, customerId, false), now), c, customerId, payMethod, now)
  }

  function AfterValidate(s1: Invoked, c: ShoppingCart, customerId: int, payMethod: string, now: int): Placed
  {
    match s1.result
    case Err(m) => PlaceFailed(s1.tables, s1.history, m)
    case Ok(_) =>
      AfterCreate(Invoke(s1.tables, s1.history, CreateOrder(customerId, c.items, c.totalPrice, None), now), c, payMethod, now)
  }

  function AfterCreate(s2: Invoked, c: ShoppingCart, payMethod: string, now: int): Placed
  {
    match s2.result
    case Err(m) => PlaceFailed(s2.tables, s2.history, m)
    case Ok(created) =>
      AfterInventory(Invoke(s2.tables, s2.history, UpdateInventory(c.items, []), now), c, OrderIdOf(created), payMethod, now)
  }

  function AfterInventory(s3: Invoked, c: ShoppingCart, id: int, payMethod: string, now: int): Placed
  {
    match s3.result
    case Err(m) => PlaceFailed(s3.tables, s3.history, m)
    case Ok(_) => AfterPayment(Invoke(s3.tables, s3.history, ProcessPayment(id, c.totalPrice, payMethod, None), now), id, now)
  }

  function AfterPayment(s4: Invoked, id: int, now: int): Placed
  {
    match s4.result
    case Err(m) => PlaceFailed(s4.tables, s4.history, m)
    case Ok(_) => AfterStatus(Invoke(s4.tables, s4.history, UpdateOrderStatus(id, "paid", None), now), id)
  }

  function AfterStatus(s5: Invoked, id: int): Placed
  {
    match s5.result
    case Err(m) => PlaceFailed(s5.tables, s5.history, m)
    case Ok(_) => Placed(s5.tables, s5.history, PlaceResult(true, "Order placed successfully", Some(id)))
  }

  /** The dictionary `cancel_order` returns. */
  datatype CancelResult = CancelResult(success: bool, message: string)

  datatype Cancelled = Cancelled(tables: Tables, history: seq<Command>, result: CancelResult)

  /** `cancel_order(order_id, customer_id=None)`: a missing order, then an
      order of another customer (checked only for a truthy customer id),
      then the status command through the shared invoker. */
  function Cancel(t: Tables, h: seq<Command>, orderId: int, customerId: int, now: int): Cancelled
  {
    if orderId !in t.orders then Cancelled(t, h, CancelResult(false, OrderNotFound(orderId)))
    else if customerId != 0 && t.orders[orderId].customerId != customerId then
      Cancelled(t, h, CancelResult(false, "You do not have permission to cancel this order"))
    else
      var s := Invoke(t, h, UpdateOrderStatus(orderId, "cancelled", None), now);
      match s.result
      case Ok(_) => Cancelled(s.tables, s.history, CancelResult(true, "Order cancelled successfully"))
      case Err(m) => Cancelled(s.tables, s.history, CancelResult(false, "Order cancellation failed: " + m))
  }

  /** One serialised item. */
  datatype ItemDict = ItemDict(productId: int, name: string, price: real, quantity: int, subtotal: real)

  /** One serialised order; the date stays a number. */
  datatype OrderDict = OrderDict(orderId: int, date: int, status: string, totalAmount: real, items: seq<ItemDict>)

  function ItemDictOf(l: OrderLine): (d: ItemDict)
    ensures d.subtotal == l.price * (l.quantity as real)
  {
    ItemDict(l.productId, l.name, l.price, l.quantity, l.price * (l.quantity as real))
  }

  /** The dictionary of an order: its fields and one item per line, in line
      order. */
  function OrderDictOf(o: Order): (d: OrderDict)
    ensures d.orderId == o.id && d.status == o.status && d.totalAmount == o.amount && d.date == o.date
    ensures |d.items| == |o.items|
    ensures forall i :: 0 <= i < |o.items| ==>
              d.items[i].productId == o.items[i].productId && d.items[i].name == o.items[i].name &&
              d.items[i].price == o.items[i].price && d.items[i].quantity == o.items[i].quantity &&
              d.items[i].subtotal == o.items[i].price * (o.items[i].quantity as real)
  {
    OrderDict(o.id, o.date, o.status, o.amount, seq(|o.items|, i requires 0 <= i < |o.items| => ItemDictOf(o.items[i])))
  }

  /** What a placement leaves when each step succeeds: the new order under
      the next id, "paid", for the customer and at the cart's total, and
      the five commands appended to the history in their run state. */
  lemma PlacedOrderIsPaid(t: Tables, h: seq<Command>, c: ShoppingCart, customerId: int, payMethod: string, now: int)
    requires Valid(t)
    requires Place(t, h, Some(c), customerId, payMethod, now).result.success
    ensures var p := Place(t, h, Some(c), customerId, payMethod, now);
            var id := t.nextOrderId;
            Valid(p.tables) &&
            p.result == PlaceResult(true, "Order placed successfully", Some(id)) &&
            id !in t.orders && p.tables.orders == t.orders[id := OrderRow(customerId, now, "paid", c.totalPrice)] &&
            |p.history| == |h| + 5 && p.history[..|h|] == h &&
            p.history[|h|] == ValidateOrder(c.items, customerId, true) &&
            p.history[|h| + 2].UpdateInventory? && p.history[|h| + 2].lines == c.items &&
            p.history[|h| + 1] == CreateOrder(customerId, c.items, c.totalPrice, Some(id)) &&
            p.history[|h| + 3] == ProcessPayment(id, c.totalPrice, payMethod, Some(Payment.PaymentId(id, c.totalPrice))) &&
            p.history[|h| + 4] == UpdateOrderStatus(id, "paid", Some("pending")) &&
            PlacementHistory(p.history[|h|..], id)
  {
    ValidateStage(t, h, c.items, customerId, now);
    var s1 := Invoke(t, h, ValidateOrder(c.items, customerId, false), now);
    CreateTail(s1, c, customerId, payMethod, now);
    var p := AfterValidate(s1, c, customerId, payMethod, now);
    assert Place(t, h, Some(c), customerId, payMethod, now) == p;
    assert s1.history == h + [ValidateOrder(c.items, customerId, true)];
    assert p.history[..|h|] == p.history[..|s1.history|][..|h|];
    var tail := p.history[|h|..];
    assert forall k :: 0 <= k < 5 ==> tail[k] == p.history[|h| + k];
  }

  /** How placement goes on after validation succeeded. */
  lemma CreateTail(s1: Invoked, c: ShoppingCart, customerId: int, payMethod: string, now: int)
    requires Valid(s1.tables) && s1.result.Ok?
    ensures var p := AfterValidate(s1, c, customerId, payMethod, now);
            var t := s1.tables;
            var id := t.nextOrderId;
            p.result.success ==>
              Valid(p.tables) &&
              p.result == PlaceResult(true, "Order placed successfully", Some(id)) &&
              id !in t.orders && p.tables.orders == t.orders[id := OrderRow(customerId, now, "paid", c.totalPrice)] &&
              |p.history| == |s1.history| + 4 && p.history[..|s1.history|] == s1.history &&
              p.history[|s1.history|] == CreateOrder(customerId, c.items, c.totalPrice, Some(id)) &&
              p.history[|s1.history| + 1].UpdateInventory? && p.history[|s1.history| + 1].lines == c.items &&
              p.history[|s1.history| + 2] == ProcessPayment(id, c.totalPrice, payMethod, Some(Payment.PaymentId(id, c.totalPrice))) &&
              p.history[|s1.history| + 3] == UpdateOrderStatus(id, "paid", Some("pending"))
  {
    var t := s1.tables;
    var id := t.nextOrderId;
    CreateStage(t, s1.history, customerId, c.items, c.totalPrice, now);
    var s2 := Invoked(OrderCreate(t, customerId, now, "pending", c.totalPrice, c.items),
                      s1.history + [CreateOrder(customerId, c.items, c.totalPrice, Some(id))], Ok(Created(id)));
    assert AfterValidate(s1, c, customerId, payMethod, now) == AfterCreate(s2, c, payMethod, now);
    CreatedTail(t, s1.history, s2, c, customerId, payMethod, now);
  }

  /** The same from the state the order's creation left. */
  lemma CreatedTail(t: Tables, h: seq<Command>, s2: Invoked, c: ShoppingCart, customerId: int, payMethod: string, now: int)
    requires Valid(t)
    requires s2 == Invoked(OrderCreate(t, customerId, now, "pending", c.totalPrice, c.items),
                           h + [CreateOrder(customerId, c.items, c.totalPrice, Some(t.nextOrderId))], Ok(Created(t.nextOrderId)))
    ensures var p := AfterCreate(s2, c, payMethod, now);
            var id := t.nextOrderId;
            p.result.success ==>
              Valid(p.tables) &&
              p.result == PlaceResult(true, "Order placed successfully", Some(id)) &&
              id !in t.orders && p.tables.orders == t.orders[id := OrderRow(customerId, now, "paid", c.totalPrice)] &&
              |p.history| == |h| + 4 && p.history[..|h|] == h &&
              p.history[|h|] == CreateOrder(customerId, c.items, c.totalPrice, Some(id)) &&
              p.history[|h| + 1].UpdateInventory? && p.history[|h| + 1].lines == c.items &&
              p.history[|h| + 2] == ProcessPayment(id, c.totalPrice, payMethod, Some(Payment.PaymentId(id, c.totalPrice))) &&
              p.history[|h| + 3] == UpdateOrderStatus(id, "paid", Some("pending"))
  {
    var id := t.nextOrderId;
    CreatedPending(t, customerId, now, c.totalPrice, c.items);
    InventoryTail(s2, c, id, payMethod, now);
  }

  /** The order creation leaves: the new order "pending", and once it is
      set to "paid" the orders are the old ones plus the paid order. */
  lemma CreatedPending(t: Tables, customerId: int, now: int, amount: real, lines: seq<CartLine>)
    requires Valid(t)
    ensures var u := OrderCreate(t, customerId, now, "pending", amount, lines);
            var id := t.nextOrderId;
            Valid(u) && id !in t.orders && id in u.orders && u.orders[id].status == "pending" &&
            u.orders[id := u.orders[id].(status := "paid")] == t.orders[id := OrderRow(customerId, now, "paid", amount)]
  {
    OrderCreateSpec(t, customerId, now, "pending", amount, lines);
  }

  /** How placement goes on after the order `id` was created "pending". */
  lemma InventoryTail(s2: Invoked, c: ShoppingCart, id: int, payMethod: string, now: int)
    requires Valid(s2.tables) && id in s2.tables.orders && s2.tables.orders[id].status == "pending"
    requires s2.result == Ok(Created(id))
    ensures var r := Run(s2.tables, UpdateInventory(c.items, []), now);
            var paid := s2.tables.orders[id := s2.tables.orders[id].(status := "paid")];
            var p := AfterCreate(s2, c, payMethod, now);
            (r.result.Err? ==> !p.result.success) &&
            (r.result.Ok? ==>
               r.command == UpdateInventory(c.items, r.command.originalStock) &&
               p == Placed(r.tables.(orders := paid),
                           s2.history + [r.command, ProcessPayment(id, c.totalPrice, payMethod, Some(Payment.PaymentId(id, c.totalPrice))),
                                         UpdateOrderStatus(id, "paid", Some("pending"))],
                           PlaceResult(true, "Order placed successfully", Some(id))) &&
               Valid(r.tables.(orders := paid)) && r.tables.orders == s2.tables.orders)
  {
    InventoryStage(s2.tables, s2.history, c.items, now);
    var r := Run(s2.tables, UpdateInventory(c.items, []), now);
    if r.result.Ok? {
      PaymentTail(Invoke(s2.tables, s2.history, UpdateInventory(c.items, []), now), c, id, payMethod, now);
    }
  }

  /** Payment and the status update after the inventory step succeeded. */
  lemma PaymentTail(s3: Invoked, c: ShoppingCart, id: int, payMethod: string, now: int)
    requires Valid(s3.tables) && id in s3.tables.orders && s3.tables.orders[id].status != "paid" && s3.result.Ok?
    ensures AfterInventory(s3, c, id, payMethod, now) ==
              Placed(s3.tables.(orders := s3.tables.orders[id := s3.tables.orders[id].(status := "paid")]),
                     s3.history + [ProcessPayment(id, c.totalPrice, payMethod, Some(Payment.PaymentId(id, c.totalPrice))),
                                   UpdateOrderStatus(id, "paid", Some(s3.tables.orders[id].status))],
                     PlaceResult(true, "Order placed successfully", Some(id)))
  {
    PaymentStage(s3.tables, s3.history, id, c.totalPrice, payMethod, now);
    var s4 := Invoke(s3.tables, s3.history, ProcessPayment(id, c.totalPrice, payMethod, None), now);
    StatusStage(s4.tables, s4.history, id, "paid", now);
  }

  lemma ValidateStage(t: Tables, h: seq<Command>, items: seq<CartLine>, customerId: int, now: int)
    ensures RunValidate(items, customerId).Ok? ==>
              Invoke(t, h, ValidateOrder(items, customerId, false), now) ==
                Invoked(t, h + [ValidateOrder(items, customerId, true)], Ok(Done))
    ensures RunValidate(items, customerId).Err? ==>
              Invoke(t, h, ValidateOrder(items, customerId, false), now).result.Err?
  {
  }

  lemma CreateStage(t: Tables, h: seq<Command>, customerId: int, items: seq<CartLine>, amount: real, now: int)
    ensures Invoke(t, h, CreateOrder(customerId, items, amount, None), now) ==
              Invoked(OrderCreate(t, customerId, now, "pending", amount, items),
                      h + [CreateOrder(customerId, items, amount, Some(t.nextOrderId))], Ok(Created(t.nextOrderId)))
  {
  }

  lemma InventoryStage(t: Tables, h: seq<Command>, items: seq<CartLine>, now: int)
    requires Valid(t)
    ensures var r := Run(t, UpdateInventory(items, []), now);
            Valid(r.tables) && r.tables == t.(products := r.tables.products) &&
            (r.result.Ok? ==> Invoke(t, h, UpdateInventory(items, []), now) == Invoked(r.tables, h + [r.command], Ok(Done)))
  {
    InventoryOnlyProducts(t, items, [], now);
  }

  lemma PaymentStage(t: Tables, h: seq<Command>, id: int, amount: real, payMethod: string, now: int)
    ensures Invoke(t, h, ProcessPayment(id, amount, payMethod, None), now) ==
              Invoked(t, h + [ProcessPayment(id, amount, payMethod, Some(Payment.PaymentId(id, amount)))], Ok(Done))
  {
    PaymentSpec(t, id, amount, payMethod, None, now);
  }

  lemma StatusStage(t: Tables, h: seq<Command>, id: int, status: string, now: int)
    requires Valid(t) && id in t.orders && t.orders[id].status != status
    ensures Valid(t.(orders := t.orders[id := t.orders[id].(status := status)]))
    ensures Invoke(t, h, UpdateOrderStatus(id, status, None), now) ==
              Invoked(t.(orders := t.orders[id := t.orders[id].(status := status)]),
                      h + [UpdateOrderStatus(id, status, Some(t.orders[id].status))], Ok(Done))
  {
    StatusSpec(t, id, status, None, now);
  }

  /** The inventory command touches only the products. */
  lemma InventoryOnlyProducts(t: Tables, lines: seq<CartLine>, recorded: StockDict, now: int)
    requires Valid(t)
    ensures var s := Run(t, UpdateInventory(lines, recorded), now);
            Valid(s.tables) && s.tables == t.(products := s.tables.products)
  {
    DecrementValid(t, recorded, lines);
  }

  /** Placement fails with validation's message when validation fails,
      having rolled back a history no `undo` of which raises. */
  lemma PlaceValidationFails(t: Tables, h: seq<Command>, c: ShoppingCart, customerId: int, payMethod: string, now: int)
    requires Valid(t)
    requires RunValidate(c.items, customerId).Err?
    requires Rollback(t, h).error.None?
    ensures Place(t, h, Some(c), customerId, payMethod, now) ==
              PlaceFailed(Rollback(t, h).tables, [], RunValidate(c.items, customerId).msg)
  {
    ValidateSpec(t, c.items, customerId, false, now);
  }

  /** The five commands a successful placement of order `id` leaves in the
      history, in their run state. */
  predicate PlacementHistory(h: seq<Command>, id: int)
  {
    |h| == 5 && h[0].ValidateOrder? && h[1].CreateOrder? && h[1].order == Some(id) && h[2].UpdateInventory? &&
    h[3].ProcessPayment? && h[3].paymentId == Some(Payment.PaymentId(h[3].orderId, h[3].amount)) &&
    h[4] == UpdateOrderStatus(id, "paid", Some("pending"))
  }

  /** Undoing the five commands of a successful placement, newest first:
      the status goes back to "pending", the payment is refunded, the stock
      is restored and the order is deleted; no `undo` raises, provided the
      order is no longer pending and every recorded product still present
      has a stock other than the recorded one (each `undo` write must change
      its row). */
  lemma RollbackPlacement(t: Tables, h: seq<Command>, id: int)
    requires Valid(t) && id in t.orders && id != 0 && PlacementHistory(h, id)
    requires t.orders[id].status != "pending"
    requires DistinctKeys(h[2].originalStock) && StockDiffers(t.products, h[2].originalStock)
    ensures Rollback(t, h).error.None? && id !in Rollback(t, h).tables.orders
  {
    UndoStatusBack(t, id);
    RollbackNewest(t, h);
    var t1 := Undo(t, h[4]).tables;
    var h4 := h[..4];
    assert h4[3] == h[3];
    PaymentSpec(t1, h[3].orderId, h[3].amount, h[3].paymentMethod, None, 0);
    RollbackNewest(t1, h4);
    var h3 := h[..3];
    assert h4[..3] == h3 && h3[2] == h[2];
    RestoreStockValid(t1, h[2].originalStock);
    RestoreStockAt(t1, h[2].originalStock);
    RollbackNewest(t1, h3);
    var t2 := Undo(t1, h[2]).tables;
    assert h3[..2] == h[..2];
    RollbackFirstTwo(t2, h[..2]);
  }

  /** A rollback whose newest `undo` raises nothing goes on with the rest
      of the history from the tables that `undo` left. */
  lemma RollbackNewest(t: Tables, h: seq<Command>)
    requires h != [] && Undo(t, h[|h| - 1]).error.None?
    ensures var r := Rollback(Undo(t, h[|h| - 1]).tables, h[..|h| - 1]);
            Rollback(t, h).tables == r.tables && Rollback(t, h).error == r.error
  {
  }

  /** Undoing the status update of a placement puts "pending" back on an
      order that is no longer pending, keeps the orders' keys and touches no
      other table. */
  lemma UndoStatusBack(t: Tables, id: int)
    requires Valid(t) && id in t.orders && t.orders[id].status != "pending"
    ensures var u := Undo(t, UpdateOrderStatus(id, "paid", Some("pending")));
            u.error.None? && Valid(u.tables) && u.tables.orders.Keys == t.orders.Keys &&
            u.tables == t.(orders := u.tables.orders)
  {
    OrderUpdateSpec(t, id, "pending", t.orders[id].amount);
  }

  /** Undoing a placement's validation and creation deletes the order and
      raises nothing. */
  lemma RollbackFirstTwo(t: Tables, h: seq<Command>)
    requires Valid(t) && |h| == 2 && h[0].ValidateOrder? && h[1].CreateOrder? && h[1].order.Some?
    requires h[1].order.value != 0 && h[1].order.value in t.orders
    ensures Rollback(t, h).error.None? && h[1].order.value !in Rollback(t, h).tables.orders
  {
    OrderDeleteSpec(t, h[1].order.value);
    var t3 := Undo(t, h[1]).tables;
    assert Rollback(t3, h[..1]) == Rolled(t3, [Undo(t3, h[0]).command], None) by {
      assert h[..1][..0] == [];
    }
  }

  /** With the history the service shares between calls, a placement that
      fails rolls back the commands of an earlier placement that succeeded:
      placing an empty cart right after order `id` was placed and paid
      deletes that order. `PlacedOrderIsPaid` gives the state a successful
      placement leaves. */
  lemma SharedHistoryRollsBackEarlierOrder(t: Tables, h: seq<Command>, id: int, c: ShoppingCart,
                                           customerId: int, payMethod: string, now: int)
    requires Valid(t) && id in t.orders && id != 0 && t.orders[id].status == "paid"
    requires PlacementHistory(h, id)
    requires DistinctKeys(h[2].originalStock) && StockDiffers(t.products, h[2].originalStock)
    requires c.items == []
    ensures var p := Place(t, h, Some(c), customerId, payMethod, now);
            p.result == PlaceResult(false, "Order placement failed: " + EmptyCartMessage, None) &&
            id !in p.tables.orders && p.history == []
  {
    RollbackPlacement(t, h, id);
    PlaceValidationFails(t, h, c, customerId, payMethod, now);
  }

  /** Placement with an invoker of its own, as `PlaceOrderFixed` does it:
      when the inventory step fails, the rollback deletes only the order
      this call created, and the orders are as they were. */
  lemma InventoryFailureFresh(t: Tables, c: ShoppingCart, customerId: int, payMethod: string, now: int)
    requires Valid(t)
    ensures var id := t.nextOrderId;
            var tc := OrderCreate(t, customerId, now, "pending", c.totalPrice, c.items);
            var s2 := Invoked(tc, [ValidateOrder(c.items, customerId, true), CreateOrder(customerId, c.items, c.totalPrice, Some(id))],
                              Ok(Created(id)));
            Run(tc, UpdateInventory(c.items, []), now).result.Err? ==>
              var p := AfterCreate(s2, c, payMethod, now);
              !p.result.success && p.history == [] && p.tables.orders == t.orders && Valid(p.tables)
  {
    var id := t.nextOrderId;
    var tc := OrderCreate(t, customerId, now, "pending", c.totalPrice, c.items);
    var r := Run(tc, UpdateInventory(c.items, []), now);
    if r.result.Err? {
      CreatedPending(t, customerId, now, c.totalPrice, c.items);
      InventoryOnlyProducts(tc, c.items, [], now);
      DeleteCreated(t, r.tables, customerId, now, c.totalPrice, c.items);
      RollbackCreated(r.tables, c.items, customerId, c.totalPrice, id);
    }
  }

  /** Deleting the order just created, from tables whose orders are those
      the creation left, gives back the orders as they were. */
  lemma DeleteCreated(t: Tables, ti: Tables, customerId: int, now: int, amount: real, lines: seq<CartLine>)
    requires Valid(t) && Valid(ti)
    requires ti.orders == OrderCreate(t, customerId, now, "pending", amount, lines).orders
    ensures var d := OrderDelete(ti, t.nextOrderId);
            d.Ok? && Valid(d.value) && d.value.orders == t.orders
  {
    var id := t.nextOrderId;
    OrderCreateSpec(t, customerId, now, "pending", amount, lines);
    OrderDeleteSpec(ti, id);
    var u := OrderDelete(ti, id).value;
    assert u.orders.Keys == t.orders.Keys;
  }

  /** Rolling back the validation and the creation of order `id`: the order
      is deleted, both commands return to their initial state, no `undo`
      raises. */
  lemma RollbackCreated(ti: Tables, lines: seq<CartLine>, customerId: int, amount: real, id: int)
    requires id != 0 && OrderDelete(ti, id).Ok?
    ensures Rollback(ti, [ValidateOrder(lines, customerId, true), CreateOrder(customerId, lines, amount, Some(id))]) ==
              Rolled(OrderDelete(ti, id).value, [ValidateOrder(lines, customerId, false), CreateOrder(customerId, lines, amount, None)], None)
  {
    var h2 := [ValidateOrder(lines, customerId, true), CreateOrder(customerId, lines, amount, Some(id))];
    var u := OrderDelete(ti, id).value;
    assert Undo(ti, h2[1]) == Undone(u, CreateOrder(customerId, lines, amount, None), None);
    assert h2[..1][..0] == [];
    assert Rollback(u, h2[..1]) == Rolled(u, [ValidateOrder(lines, customerId, false)], None);
  }

  /** The corrected placement, with a fresh history for every call: a
      placement that fails leaves the orders exactly as they were and the
      history empty, and one that succeeds adds its own order and changes
      no other. */
  lemma FreshHistoryKeepsOtherOrders(t: Tables, cart: Option<ShoppingCart>, customerId: int, payMethod: string, now: int)
    requires Valid(t)
    ensures var p := Place(t, [], cart, customerId, payMethod, now);
            Valid(p.tables) &&
            (!p.result.success ==> p.tables.orders == t.orders && p.history == []) &&
            (p.result.success ==>
               p.tables.orders == t.orders[t.nextOrderId := OrderRow(customerId, now, "paid", cart.value.totalPrice)])
  {
    match cart {
      case None =>
      case Some(c) =>
        ValidateStage(t, [], c.items, customerId, now);
        ValidateSpec(t, c.items, customerId, false, now);
        if RunValidate(c.items, customerId).Ok? {
          var s1 := Invoke(t, [], ValidateOrder(c.items, customerId, false), now);
          assert s1.history + [CreateOrder(customerId, c.items, c.totalPrice, Some(t.nextOrderId))] ==
                 [ValidateOrder(c.items, customerId, true), CreateOrder(customerId, c.items, c.totalPrice, Some(t.nextOrderId))];
          CreateStage(t, s1.history, customerId, c.items, c.totalPrice, now);
          var id := t.nextOrderId;
          OrderCreateSpec(t, customerId, now, "pending", c.totalPrice, c.items);
          var tc := OrderCreate(t, customerId, now, "pending", c.totalPrice, c.items);
          var s2 := Invoked(tc, [ValidateOrder(c.items, customerId, true), CreateOrder(customerId, c.items, c.totalPrice, Some(id))],
                            Ok(Created(id)));
          assert Place(t, [], cart, customerId, payMethod, now) == AfterCreate(s2, c, payMethod, now);
          InventoryFailureFresh(t, c, customerId, payMethod, now);
          InventoryTail(s2, c, id, payMethod, now);
          CreateTail(s1, c, customerId, payMethod, now);
        }
    }
  }

  /** The corrected counterpart of `SharedHistoryRollsBackEarlierOrder`:
      with a fresh history per call, the later failing placement leaves the
      earlier order in place, still "paid". */
  lemma FreshHistoryKeepsEarlierOrder(t: Tables, c1: ShoppingCart, c2: Option<ShoppingCart>, customer1: int,
                                      customer2: int, payMethod: string, now1: int, now2: int)
    requires Valid(t)
    requires Place(t, [], Some(c1), customer1, payMethod, now1).result.success
    ensures var p1 := Place(t, [], Some(c1), customer1, payMethod, now1);
            var p2 := Place(p1.tables, [], c2, customer2, payMethod, now2);
            var id := t.nextOrderId;
            !p2.result.success ==> id in p1.tables.orders && id in p2.tables.orders &&
                                   p2.tables.orders[id] == p1.tables.orders[id] &&
                                   p2.tables.orders[id].status == "paid"
  {
    var p1 := Place(t, [], Some(c1), customer1, payMethod, now1);
    PlacedOrderIsPaid(t, [], c1, customer1, payMethod, now1);
    FreshHistoryKeepsOtherOrders(p1.tables, c2, customer2, payMethod, now2);
  }

  /** The message of a cancellation whose status update finds the order
      already cancelled. */
  function AlreadyCancelled(orderId: int): string
  {
    "Order cancellation failed: " + OrderUpdateFailed(orderId)
  }

  /** Cancellation: a missing order, then another customer's order, is
      refused with the tables and history untouched. Otherwise an order not
      yet cancelled gets the status "cancelled", the update joins the
      history and nothing else changes; an order already cancelled makes
      the update fail as if the order were missing, and the shared history
      is rolled back. */
  lemma CancelSpec(t: Tables, h: seq<Command>, orderId: int, customerId: int, now: int)
    requires Valid(t)
    ensures var r := Cancel(t, h, orderId, customerId, now);
            (orderId !in t.orders ==> r == Cancelled(t, h, CancelResult(false, OrderNotFound(orderId)))) &&
            (orderId in t.orders && customerId != 0 && t.orders[orderId].customerId != customerId ==>
               r == Cancelled(t, h, CancelResult(false, "You do not have permission to cancel this order")))
    ensures var r := Cancel(t, h, orderId, customerId, now);
            orderId in t.orders && (customerId == 0 || t.orders[orderId].customerId == customerId) &&
            t.orders[orderId].status != "cancelled" ==>
              r == Cancelled(t.(orders := t.orders[orderId := t.orders[orderId].(status := "cancelled")]),
                             h + [UpdateOrderStatus(orderId, "cancelled", Some(t.orders[orderId].status))],
                             CancelResult(true, "Order cancelled successfully")) &&
              Valid(r.tables)
    ensures var r := Cancel(t, h, orderId, customerId, now);
            var b := Rollback(t, h);
            orderId in t.orders && (customerId == 0 || t.orders[orderId].customerId == customerId) &&
            t.orders[orderId].status == "cancelled" ==>
              (b.error.None? ==> r == Cancelled(b.tables, [], CancelResult(false, AlreadyCancelled(orderId)))) &&
              (b.error.Some? ==>
                 r == Cancelled(b.tables, b.history, CancelResult(false, "Order cancellation failed: " + b.error.value)))
  {
    if orderId in t.orders && (customerId == 0 || t.orders[orderId].customerId == customerId) {
      if t.orders[orderId].status != "cancelled" {
        StatusStage(t, h, orderId, "cancelled", now);
      } else {
        CancelCancelled(t, h, orderId, customerId, now);
      }
    }
  }

  /** The status update of an order already cancelled fails, and the
      invoker rolls the history back from the unchanged tables. */
  lemma CancelCancelled(t: Tables, h: seq<Command>, orderId: int, customerId: int, now: int)
    requires Valid(t) && orderId in t.orders && t.orders[orderId].status == "cancelled"
    requires customerId == 0 || t.orders[orderId].customerId == customerId
    ensures var r := Cancel(t, h, orderId, customerId, now);
            var b := Rollback(t, h);
            (b.error.None? ==> r == Cancelled(b.tables, [], CancelResult(false, AlreadyCancelled(orderId)))) &&
            (b.error.Some? ==>
               r == Cancelled(b.tables, b.history, CancelResult(false, "Order cancellation failed: " + b.error.value)))
  {
    StatusSpec(t, orderId, "cancelled", None, now);
    InvokeSpec(t, h, UpdateOrderStatus(orderId, "cancelled", None), now);
  }

  /** With the shared history, cancelling an order twice undoes the first
      cancellation: the second status update fails, and the rollback of
      the history, newest first, puts the order's former status back before
      it goes on with the older commands. */
  lemma CancelTwice(t: Tables, h: seq<Command>, orderId: int, customerId: int, now1: int, now2: int)
    requires Valid(t) && orderId in t.orders && (customerId == 0 || t.orders[orderId].customerId == customerId)
    requires t.orders[orderId].status != "cancelled" && t.orders[orderId].status != ""
    ensures var r1 := Cancel(t, h, orderId, customerId, now1);
            var r2 := Cancel(r1.tables, r1.history, orderId, customerId, now2);
            var b := Rollback(t, h);
            r1.result.success && r1.tables.orders[orderId].status == "cancelled" &&
            (b.error.None? ==> r2 == Cancelled(b.tables, [], CancelResult(false, AlreadyCancelled(orderId))))
  {
    CancelSpec(t, h, orderId, customerId, now1);
    var r1 := Cancel(t, h, orderId, customerId, now1);
    var c := UpdateOrderStatus(orderId, "cancelled", Some(t.orders[orderId].status));
    CancelSpec(r1.tables, r1.history, orderId, customerId, now2);
    StatusSpec(t, orderId, "cancelled", None, now1);
    RollbackLast(r1.tables, h, c);
  }

  /** With a history of its own, the second cancellation fails with the same
      message and the order stays cancelled. */
  lemma CancelTwiceFresh(t: Tables, orderId: int, customerId: int, now1: int, now2: int)
    requires Valid(t) && orderId in t.orders && (customerId == 0 || t.orders[orderId].customerId == customerId)
    requires t.orders[orderId].status != "cancelled"
    ensures var r1 := Cancel(t, [], orderId, customerId, now1);
            var r2 := Cancel(r1.tables, [], orderId, customerId, now2);
            r1.result.success && r1.tables.orders[orderId].status == "cancelled" &&
            r2 == Cancelled(r1.tables, [], CancelResult(false, AlreadyCancelled(orderId)))
  {
    CancelSpec(t, [], orderId, customerId, now1);
    var r1 := Cancel(t, [], orderId, customerId, now1);
    CancelSpec(r1.tables, [], orderId, customerId, now2);
  }

  /** What `get_order(order_id, customer_id=None)` returns. */
  function OrderDetail(t: Tables, orderId: int, customerId: int): Option<OrderDict>
  {
    match OrderView(t, orderId)
    case None => None
    case Some(o) => if customerId != 0 && o.customerId != customerId then None else Some(OrderDictOf(o))
  }

  /** An order is shown exactly when it exists and, for a truthy customer
      id, belongs to that customer; another customer's order looks missing. */
  lemma OrderDetailSpec(t: Tables, orderId: int, customerId: int)
    ensures OrderDetail(t, orderId, customerId).Some? <==>
              orderId in t.orders && (customerId == 0 || t.orders[orderId].customerId == customerId)
    ensures OrderDetail(t, orderId, customerId).Some? ==>
              var d := OrderDetail(t, orderId, customerId).value;
              d.orderId == orderId && d.status == t.orders[orderId].status &&
              d.totalAmount == t.orders[orderId].amount && d.date == t.orders[orderId].date
  {
  }

  /** What `get_customer_orders(customer_id)` returns: one dictionary per
      order of the listing, in its order. */
  function CustomerOrderDicts(t: Tables, customerId: int): seq<OrderDict>
  {
    var os := CustomerOrders(t, customerId);
    seq(|os|, i requires 0 <= i < |os| => OrderDictOf(os[i]))
  }

  /** The listing holds the dictionaries of exactly the customer's orders,
      newest first. */
  lemma CustomerOrderDictsSpec(t: Tables, customerId: int, id: int)
    requires Valid(t)
    ensures var r := CustomerOrderDicts(t, customerId);
            (forall i, j :: 0 <= i < j < |r| ==> r[i].date >= r[j].date) &&
            ((exists i :: 0 <= i < |r| && r[i].orderId == id) <==>
               id in t.orders && t.orders[id].customerId == customerId)
  {
    CustomerOrdersSpec(t, customerId, id);
    var os := CustomerOrders(t, customerId);
    var r := CustomerOrderDicts(t, customerId);
    if exists i :: 0 <= i < |r| && r[i].orderId == id {
      var i :| 0 <= i < |r| && r[i].orderId == id;
      assert os[i].id == id;
    }
    if id in t.orders && t.orders[id].customerId == customerId {
      var i :| 0 <= i < |os| && os[i].id == id;
      assert r[i].orderId == id;
    }
  }

  class OrderServiceImpl {
    const orders: DBOrderRepo
    const products: DBProductRepo
    /** Created once, with the service: every call shares its history. */
    const invoker: Invoker

    constructor (orders: DBOrderRepo, products: DBProductRepo)
      requires orders.db == products.db
      ensures this.orders == orders && this.products == products
      ensures fresh(invoker) && invoker.orders == orders && invoker.products == products && invoker.history == []
    {
      this.orders := orders;
      this.products := products;
      invoker := new Invoker(orders, products);
    }

    /** The placement steps of `place_order`, through the invoker given. */
    method PlaceWith(inv: Invoker, cart: Option<ShoppingCart>, customerId: int, payMethod: string, now: int)
      returns (r: PlaceResult)
      requires inv.orders == orders && inv.products == products && orders.db == products.db
      requires Valid(orders.db.tables)
      modifies inv, orders.db
      ensures Valid(orders.db.tables)
      ensures Placed(orders.db.tables, inv.history, r) ==
                Place(old(orders.db.tables), old(inv.history), cart, customerId, payMethod, now)
    {
      if cart.None? {
        return PlaceResult(false, "Order placement failed: " + NoCartMessage, None);
      }
      var c := cart.value;
      ghost var s0 := orders.db.tables;
      ghost var h0 := inv.history;
      var v := inv.ExecuteCommand(ValidateOrder(c.items, customerId, false), now);
      ghost var s1 := Invoked(orders.db.tables, inv.history, v);
      assert Place(s0, h0, cart, customerId, payMethod, now) == AfterValidate(s1, c, customerId, payMethod, now);
      if v.Err? {
        return PlaceResult(false, "Order placement failed: " + v.msg, None);
      }
      var created := inv.ExecuteCommand(CreateOrder(customerId, c.items, c.totalPrice, None), now);
      ghost var s2 := Invoked(orders.db.tables, inv.history, created);
      assert AfterValidate(s1, c, customerId, payMethod, now) == AfterCreate(s2, c, payMethod, now);
      if created.Err? {
        return PlaceResult(false, "Order placement failed: " + created.msg, None);
      }
      var id := OrderIdOf(created.value);
      var u := inv.ExecuteCommand(UpdateInventory(c.items, []), now);
      ghost var s3 := Invoked(orders.db.tables, inv.history, u);
      assert AfterCreate(s2, c, payMethod, now) == AfterInventory(s3, c, id, payMethod, now);
      if u.Err? {
        return PlaceResult(false, "Order placement failed: " + u.msg, None);
      }
      var paid := inv.ExecuteCommand(ProcessPayment(id, c.totalPrice, payMethod, None), now);
      ghost var s4 := Invoked(orders.db.tables, inv.history, paid);
      assert AfterInventory(s3, c, id, payMethod, now) == AfterPayment(s4, id, now);
      if paid.Err? {
        return PlaceResult(false, "Order placement failed: " + paid.msg, None);
      }
      var status := inv.ExecuteCommand(UpdateOrderStatus(id, "paid", None), now);
      ghost var s5 := Invoked(orders.db.tables, inv.history, status);
      assert AfterPayment(s4, id, now) == AfterStatus(s5, id);
      if status.Err? {
        return PlaceResult(false, "Order placement failed: " + status.msg, None);
      }
      r := PlaceResult(true, "Order placed successfully", Some(id));
    }

    /** `place_order` as written: through the shared invoker. */
    method PlaceOrder(cart: Option<ShoppingCart>, customerId: int, payMethod: string, now: int)
      returns (r: PlaceResult)
      requires invoker.orders == orders && invoker.products == products && orders.db == products.db
      requires Valid(orders.db.tables)
      modifies invoker, orders.db
      ensures Valid(orders.db.tables)
      ensures Placed(orders.db.tables, invoker.history, r) ==
                Place(old(orders.db.tables), old(invoker.history), cart, customerId, payMethod, now)
    {
      r := PlaceWith(invoker, cart, customerId, payMethod, now);
    }

    /** Placement with an invoker of its own, so that a failure rolls back
        this call's commands and no others. */
    method PlaceOrderFixed(cart: Option<ShoppingCart>, customerId: int, payMethod: string, now: int)
      returns (r: PlaceResult)
      requires orders.db == products.db && Valid(orders.db.tables)
      modifies orders.db
      ensures Valid(orders.db.tables)
      ensures var p := Place(old(orders.db.tables), [], cart, customerId, payMethod, now);
              orders.db.tables == p.tables && r == p.result
    {
      var inv := new Invoker(orders, products);
      r := PlaceWith(inv, cart, customerId, payMethod, now);
    }

    /** The body of `cancel_order` on a given invoker. */
    method CancelWith(inv: Invoker, orderId: int, customerId: int, now: int) returns (r: CancelResult)
      requires inv.orders == orders && inv.products == products && orders.db == products.db
      requires Valid(orders.db.tables)
      modifies inv, orders.db
      ensures Valid(orders.db.tables)
      ensures Cancelled(orders.db.tables, inv.history, r) ==
                Cancel(old(orders.db.tables), old(inv.history), orderId, customerId, now)
    {
      var o := orders.GetById(orderId);
      if o.None? {
        return CancelResult(false, OrderNotFound(orderId));
      }
      if customerId != 0 && o.value.customerId != customerId {
        return CancelResult(false, "You do not have permission to cancel this order");
      }
      var s := inv.ExecuteCommand(UpdateOrderStatus(orderId, "cancelled", None), now);
      if s.Err? {
        return CancelResult(false, "Order cancellation failed: " + s.msg);
      }
      r := CancelResult(true, "Order cancelled successfully");
    }

    /** `cancel_order(order_id, customer_id=None)`, on the shared invoker. */
    method CancelOrder(orderId: int, customerId: int, now: int) returns (r: CancelResult)
      requires invoker.orders == orders && invoker.products == products && orders.db == products.db
      requires Valid(orders.db.tables)
      modifies invoker, orders.db
      ensures Valid(orders.db.tables)
      ensures Cancelled(orders.db.tables, invoker.history, r) ==
                Cancel(old(orders.db.tables), old(invoker.history), orderId, customerId, now)
    {
      r := CancelWith(invoker, orderId, customerId, now);
    }

    /** Cancellation with an invoker of its own, so that a failure rolls back
        nothing of earlier calls. */
    method CancelOrderFixed(orderId: int, customerId: int, now: int) returns (r: CancelResult)
      requires orders.db == products.db && Valid(orders.db.tables)
      modifies orders.db
      ensures Valid(orders.db.tables)
      ensures var c := Cancel(old(orders.db.tables), [], orderId, customerId, now);
              orders.db.tables == c.tables && r == c.result
    {
      var inv := new Invoker(orders, products);
      r := CancelWith(inv, orderId, customerId, now);
    }

    /** `get_order(order_id, customer_id=None)`. */
    method GetOrder(orderId: int, customerId: int) returns (r: Option<OrderDict>)
      ensures r == OrderDetail(orders.db.tables, orderId, customerId)
    {
      var o := orders.GetById(orderId);
      if o.None? {
        return None;
      }
      if customerId != 0 && o.value.customerId != customerId {
        return None;
      }
      r := Some(OrderDictOf(o.value));
    }

    /** `get_customer_orders(customer_id)`: the comprehension over the
        listing. */
    method GetCustomerOrders(customerId: int) returns (r: seq<OrderDict>)
      ensures r == CustomerOrderDicts(orders.db.tables, customerId)
    {
      var os := orders.GetOrdersByCustomer(customerId);
      r := [];
      for i := 0 to |os|
        invariant r == seq(i, k requires 0 <= k < i => OrderDictOf(os[k]))
      {
        r := r + [OrderDictOf(os[i])];
      }
    }
  }
}
