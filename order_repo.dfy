/** The orders repository
    (emporia-api/repositories/database/db_order_repo.py) over the `orders`
    and `order_items` tables. As in the cart repository, each statement is a
    function on the tables and the methods commit by writing the tables
    back. The order date is a number (see `Tables.OrderRow`). */
module OrderRepo {
  import opened Common
  import opened Tables
  import opened CartRepo

  /** An item of an order as `get_by_id` rebuilds it: the recorded product
      id, quantity and price, with the product's current name and
      description. */
  datatype OrderLine = OrderLine(productId: int, name: string, description: string, price: real, quantity: int)

  /** The `Order` object `get_by_id` returns. */
  datatype Order = Order(id: int, customerId: int, date: int, status: string, amount: real, items: seq<OrderLine>)

  function OrderNotFound(id: int): string
  {
    "Order with ID " + IntToString(id) + " not found"
  }

  /** What `update_order` raises when no row counts as updated. */
  function OrderUpdateFailed(id: int): string
  {
    "Order update failed: " + OrderNotFound(id)
  }

  /** The row `create_order` inserts for one cart line, priced at the
      product's price as the cart holds it. */
  function ItemRow(orderId: int, line: CartLine): OrderItemRow
  {
    OrderItemRow(orderId, line.productId, line.quantity, line.product.price)
  }

  /** The rows the insert loop adds, one per cart line, in line order. */
  function ItemRows(orderId: int, lines: seq<CartLine>): (r: seq<OrderItemRow>)
    ensures |r| == |lines|
    ensures forall i :: 0 <= i < |lines| ==> r[i] == ItemRow(orderId, lines[i])
  {
    if lines == [] then []
    else ItemRows(orderId, lines[..|lines| - 1]) + [ItemRow(orderId, lines[|lines| - 1])]
  }

  /** The tables after `create_order`: a row under the next id and the item
      rows after the existing ones, committed together. */
  function OrderCreate(t: Tables, customerId: int, date: int, status: string, amount: real,
                       lines: seq<CartLine>): Tables
  {
    var id := t.nextOrderId;
    t.(orders := t.orders[id := OrderRow(customerId, date, status, amount)],
       nextOrderId := id + 1,
       orderItems := t.orderItems + ItemRows(id, lines))
  }

  /** `order_items JOIN products` for one order, in row order; an item whose
      product is gone has no partner and is dropped. */
  function OrderJoin(items: seq<OrderItemRow>, products: map<int, Product>, orderId: int): seq<OrderLine>
  {
    if items == [] then []
    else
      var rest := OrderJoin(items[..|items| - 1], products, orderId);
      var r := items[|items| - 1];
      if r.orderId == orderId && r.productId in products then
        rest + [OrderLine(r.productId, products[r.productId].name, products[r.productId].description,
                          r.price, r.quantity)]
      else rest
  }

  /** What `get_by_id` returns. */
  function OrderView(t: Tables, id: int): Option<Order>
  {
    if id in t.orders then
      var o := t.orders[id];
      Some(Order(id, o.customerId, o.date, o.status, o.amount, OrderJoin(t.orderItems, t.products, id)))
    else None
  }

  lemma {:induction false} OrderJoinAppend(a: seq<OrderItemRow>, b: seq<OrderItemRow>,
                                          products: map<int, Product>, orderId: int)
    ensures OrderJoin(a + b, products, orderId) == OrderJoin(a, products, orderId) + OrderJoin(b, products, orderId)
    decreases |b|
  {
    if b != [] {
      var b' := b[..|b| - 1];
      assert (a + b)[..|a + b| - 1] == a + b';
      assert (a + b)[|a + b| - 1] == b[|b| - 1];
      OrderJoinAppend(a, b', products, orderId);
    } else {
      assert a + b == a;
    }
  }

  /** Rows of other orders contribute nothing. */
  lemma {:induction false} OrderJoinOthers(items: seq<OrderItemRow>, products: map<int, Product>, orderId: int)
    requires forall i :: 0 <= i < |items| ==> items[i].orderId != orderId
    ensures OrderJoin(items, products, orderId) == []
    decreases |items|
  {
    if items != [] {
      OrderJoinOthers(items[..|items| - 1], products, orderId);
    }
  }

  /** Read back, the item rows of a new order give each cart line's product,
      quantity and cart-time price, in line order, while its product
      exists. */
  lemma {:induction false} OrderJoinOfItemRows(orderId: int, lines: seq<CartLine>, products: map<int, Product>)
    requires forall i :: 0 <= i < |lines| ==> lines[i].productId in products
    ensures var r := OrderJoin(ItemRows(orderId, lines), products, orderId);
            |r| == |lines| &&
            forall i :: 0 <= i < |lines| ==>
              r[i] == OrderLine(lines[i].productId, products[lines[i].productId].name,
                                products[lines[i].productId].description,
                                lines[i].product.price, lines[i].quantity)
    decreases |lines|
  {
    if lines != [] {
      var init := lines[..|lines| - 1];
      OrderJoinOfItemRows(orderId, init, products);
      assert ItemRows(orderId, lines)[..|lines| - 1] == ItemRows(orderId, init);
    }
  }

  /** `create_order` hands out a fresh id, leaves every other order as it
      was, and records one item per cart line with the line's quantity and
      price; nothing outside `orders` and `order_items` changes. */
  lemma OrderCreateSpec(t: Tables, customerId: int, date: int, status: string, amount: real,
                        lines: seq<CartLine>)
    requires Valid(t)
    ensures var u := OrderCreate(t, customerId, date, status, amount, lines);
            var id := t.nextOrderId;
            Valid(u) && id !in t.orders && u.orders.Keys == t.orders.Keys + {id} &&
            u.orders[id] == OrderRow(customerId, date, status, amount) &&
            (forall k :: k in t.orders ==> u.orders[k] == t.orders[k] && OrderView(u, k) == OrderView(t, k)) &&
            |u.orderItems| == |t.orderItems| + |lines| &&
            u == t.(orders := u.orders, nextOrderId := id + 1, orderItems := u.orderItems)
    ensures (forall i :: 0 <= i < |lines| ==> lines[i].productId in t.products) ==>
              var o := OrderView(OrderCreate(t, customerId, date, status, amount, lines), t.nextOrderId);
              o.Some? && o.value.status == status && o.value.customerId == customerId &&
              |o.value.items| == |lines| &&
              forall i :: 0 <= i < |lines| ==>
                o.value.items[i].productId == lines[i].productId &&
                o.value.items[i].quantity == lines[i].quantity &&
                o.value.items[i].price == lines[i].product.price
  {
    OrderCreateValid(t, customerId, date, status, amount, lines);
    OrderCreateKeepsViews(t, customerId, date, status, amount, lines);
    if forall i :: 0 <= i < |lines| ==> lines[i].productId in t.products {
      OrderCreateView(t, customerId, date, status, amount, lines);
    }
  }

  lemma OrderCreateValid(t: Tables, customerId: int, date: int, status: string, amount: real,
                         lines: seq<CartLine>)
    requires Valid(t)
    ensures Valid(OrderCreate(t, customerId, date, status, amount, lines))
  {
    var u := OrderCreate(t, customerId, date, status, amount, lines);
    var added := ItemRows(t.nextOrderId, lines);
    forall i | 0 <= i < |u.orderItems|
      ensures u.orderItems[i].orderId < u.nextOrderId
    {
      if i >= |t.orderItems| {
        assert u.orderItems[i] == added[i - |t.orderItems|];
      }
    }
  }

  lemma OrderCreateKeepsViews(t: Tables, customerId: int, date: int, status: string, amount: real,
                              lines: seq<CartLine>)
    requires Valid(t)
    ensures var u := OrderCreate(t, customerId, date, status, amount, lines);
            forall k :: k in t.orders ==> OrderView(u, k) == OrderView(t, k)
  {
    var u := OrderCreate(t, customerId, date, status, amount, lines);
    var id := t.nextOrderId;
    var added := ItemRows(id, lines);
    forall k | k in t.orders
      ensures OrderView(u, k) == OrderView(t, k)
    {
      assert k != id;
      OrderJoinAppend(t.orderItems, added, t.products, k);
      OrderJoinOthers(added, t.products, k);
      assert OrderJoin(u.orderItems, u.products, k) == OrderJoin(t.orderItems, t.products, k);
    }
  }

  lemma OrderCreateView(t: Tables, customerId: int, date: int, status: string, amount: real,
                        lines: seq<CartLine>)
    requires Valid(t) && forall i :: 0 <= i < |lines| ==> lines[i].productId in t.products
    ensures var o := OrderView(OrderCreate(t, customerId, date, status, amount, lines), t.nextOrderId);
            o.Some? && o.value.status == status && o.value.customerId == customerId &&
            |o.value.items| == |lines| &&
            forall i :: 0 <= i < |lines| ==>
              o.value.items[i].productId == lines[i].productId &&
              o.value.items[i].quantity == lines[i].quantity &&
              o.value.items[i].price == lines[i].product.price
  {
    var u := OrderCreate(t, customerId, date, status, amount, lines);
    var id := t.nextOrderId;
    var added := ItemRows(id, lines);
    OrderJoinAppend(t.orderItems, added, t.products, id);
    OrderJoinOthers(t.orderItems, t.products, id);
    OrderJoinOfItemRows(id, lines, t.products);
    assert OrderView(u, id).value.items == OrderJoin(added, t.products, id);
  }

  /** The row `id` already holds this status and amount. */
  predicate OrderUnchanged(t: Tables, id: int, status: string, amount: real)
    requires id in t.orders
  {
    t.orders[id].status == status && t.orders[id].amount == amount
  }

  /** `UPDATE orders SET status, total_amount`: `rowcount` counts changed
      rows, so a missing id and a row that already holds these values both
      count zero, and the update is rolled back. */
  function OrderUpdate(t: Tables, id: int, status: string, amount: real): Result<Tables>
  {
    if id in t.orders && !OrderUnchanged(t, id, status, amount) then
      Ok(t.(orders := t.orders[id := t.orders[id].(status := status, amount := amount)]))
    else Err(OrderUpdateFailed(id))
  }

  /** An update succeeds exactly for an existing order whose status or
      amount changes, and changes only those two columns. */
  lemma OrderUpdateSpec(t: Tables, id: int, status: string, amount: real)
    requires Valid(t)
    ensures OrderUpdate(t, id, status, amount).Ok? <==>
              id in t.orders && (t.orders[id].status != status || t.orders[id].amount != amount)
    ensures OrderUpdate(t, id, status, amount).Err? ==>
              OrderUpdate(t, id, status, amount) == Err(OrderUpdateFailed(id))
    ensures OrderUpdate(t, id, status, amount).Ok? ==>
              var u := OrderUpdate(t, id, status, amount).value;
              Valid(u) && u.orders.Keys == t.orders.Keys &&
              u.orders[id].status == status && u.orders[id].amount == amount &&
              u.orders[id].customerId == t.orders[id].customerId && u.orders[id].date == t.orders[id].date &&
              (forall k :: k in t.orders && k != id ==> u.orders[k] == t.orders[k]) &&
              u == t.(orders := u.orders)
  {
  }

  /** `DELETE FROM order_items WHERE order_id = id`. */
  function WithoutOrderItems(items: seq<OrderItemRow>, orderId: int): seq<OrderItemRow>
  {
    if items == [] then []
    else
      var rest := WithoutOrderItems(items[..|items| - 1], orderId);
      if items[|items| - 1].orderId == orderId then rest else rest + [items[|items| - 1]]
  }

  /** The deletion keeps exactly the rows of other orders. */
  lemma {:induction false} WithoutOrderItemsSpec(items: seq<OrderItemRow>, orderId: int)
    ensures forall r :: r in WithoutOrderItems(items, orderId) <==> r in items && r.orderId != orderId
    decreases |items|
  {
    if items != [] {
      var init := items[..|items| - 1];
      WithoutOrderItemsSpec(init, orderId);
      assert items == init + [items[|items| - 1]];
    }
  }

  /** With no row of that order, the deletion changes nothing. */
  lemma {:induction false} WithoutOrderItemsNone(items: seq<OrderItemRow>, orderId: int)
    requires forall i :: 0 <= i < |items| ==> items[i].orderId != orderId
    ensures WithoutOrderItems(items, orderId) == items
    decreases |items|
  {
    if items != [] {
      var init := items[..|items| - 1];
      WithoutOrderItemsNone(init, orderId);
      assert items == init + [items[|items| - 1]];
    }
  }

  lemma {:induction false} WithoutOrderItemsAll(items: seq<OrderItemRow>, orderId: int)
    requires forall i :: 0 <= i < |items| ==> items[i].orderId == orderId
    ensures WithoutOrderItems(items, orderId) == []
    decreases |items|
  {
    if items != [] {
      WithoutOrderItemsAll(items[..|items| - 1], orderId);
    }
  }

  lemma {:induction false} WithoutOrderItemsAppend(a: seq<OrderItemRow>, b: seq<OrderItemRow>, orderId: int)
    ensures WithoutOrderItems(a + b, orderId) == WithoutOrderItems(a, orderId) + WithoutOrderItems(b, orderId)
    decreases |b|
  {
    if b != [] {
      var b' := b[..|b| - 1];
      assert (a + b)[..|a + b| - 1] == a + b';
      assert (a + b)[|a + b| - 1] == b[|b| - 1];
      WithoutOrderItemsAppend(a, b', orderId);
    } else {
      assert a + b == a;
    }
  }

  /** `delete_order`: the items go first, then the order; with no order row
      the whole transaction is rolled back, items included. */
  function OrderDelete(t: Tables, id: int): Result<Tables>
  {
    var u := t.(orderItems := WithoutOrderItems(t.orderItems, id));
    if id in u.orders then Ok(u.(orders := u.orders - {id}))
    else Err("Order deletion failed: " + OrderNotFound(id))
  }

  /** A deletion succeeds exactly for an existing order; it removes that
      order and every item row of it, and keeps all other rows. */
  lemma OrderDeleteSpec(t: Tables, id: int)
    requires Valid(t)
    ensures OrderDelete(t, id).Ok? <==> id in t.orders
    ensures OrderDelete(t, id).Ok? ==>
              var u := OrderDelete(t, id).value;
              Valid(u) && u.orders.Keys == t.orders.Keys - {id} &&
              (forall k :: k in u.orders ==> u.orders[k] == t.orders[k]) &&
              (forall r :: r in u.orderItems <==> r in t.orderItems && r.orderId != id) &&
              u == t.(orders := u.orders, orderItems := u.orderItems)
  {
    WithoutOrderItemsSpec(t.orderItems, id);
    var kept := WithoutOrderItems(t.orderItems, id);
    forall i | 0 <= i < |kept|
      ensures kept[i].orderId < t.nextOrderId
    {
      assert kept[i] in kept;
    }
  }

  /** Deleting a freshly created order undoes the creation, apart from the
      id counter, which MySQL does not turn back. */
  lemma CreateThenDelete(t: Tables, customerId: int, date: int, status: string, amount: real,
                         lines: seq<CartLine>)
    requires Valid(t)
    ensures OrderDelete(OrderCreate(t, customerId, date, status, amount, lines), t.nextOrderId)
            == Ok(t.(nextOrderId := t.nextOrderId + 1))
  {
    var id := t.nextOrderId;
    var c := OrderCreate(t, customerId, date, status, amount, lines);
    CreatedItemsDeleted(t, lines);
    assert c.orders - {id} == t.orders;
  }

  /** The item rows of a freshly created order are exactly those a delete
      of it removes. */
  lemma CreatedItemsDeleted(t: Tables, lines: seq<CartLine>)
    requires Valid(t)
    ensures WithoutOrderItems(t.orderItems + ItemRows(t.nextOrderId, lines), t.nextOrderId) == t.orderItems
  {
    var id := t.nextOrderId;
    WithoutOrderItemsAppend(t.orderItems, ItemRows(id, lines), id);
    WithoutOrderItemsNone(t.orderItems, id);
    WithoutOrderItemsAll(ItemRows(id, lines), id);
  }

  /** Newest first: `ORDER BY order_date DESC`. */
  predicate NewestFirst(s: seq<(int, OrderRow)>)
  {
    forall i, j :: 0 <= i < j < |s| ==> s[i].1.date >= s[j].1.date
  }

  /** Places a row in front of the first row that is not newer, so rows with
      the same date stay in the order they came in. */
  function InsertByDate(x: (int, OrderRow), s: seq<(int, OrderRow)>): seq<(int, OrderRow)>
  {
    if s == [] then [x]
    else if s[0].1.date <= x.1.date then [x] + s
    else [s[0]] + InsertByDate(x, s[1..])
  }

  /** The result of `ORDER BY order_date DESC` over rows taken in id order. */
  function OrderByDateDesc(rows: seq<(int, OrderRow)>): seq<(int, OrderRow)>
  {
    if rows == [] then [] else InsertByDate(rows[0], OrderByDateDesc(rows[1..]))
  }

  lemma NewestFirstCons(x: (int, OrderRow), s: seq<(int, OrderRow)>)
    requires NewestFirst(s)
    requires forall k :: 0 <= k < |s| ==> x.1.date >= s[k].1.date
    ensures NewestFirst([x] + s)
  {
    var r := [x] + s;
    forall i, j | 0 <= i < j < |r| ensures r[i].1.date >= r[j].1.date
    {
      if i > 0 {
        assert r[i] == s[i - 1] && r[j] == s[j - 1];
      } else {
        assert r[j] == s[j - 1];
      }
    }
  }

  lemma {:induction false} InsertByDateMembers(x: (int, OrderRow), s: seq<(int, OrderRow)>)
    ensures multiset(InsertByDate(x, s)) == multiset(s) + multiset{x}
  {
    if s != [] && s[0].1.date > x.1.date {
      InsertByDateMembers(x, s[1..]);
      assert s == [s[0]] + s[1..];
    }
  }

  lemma HeadNewerThanInserted(x: (int, OrderRow), s: seq<(int, OrderRow)>)
    requires NewestFirst(s) && s != [] && s[0].1.date > x.1.date
    ensures forall k :: 0 <= k < |InsertByDate(x, s[1..])| ==>
              s[0].1.date >= InsertByDate(x, s[1..])[k].1.date
  {
    var tail := s[1..];
    var r := InsertByDate(x, tail);
    InsertByDateMembers(x, tail);
    forall k | 0 <= k < |r| ensures s[0].1.date >= r[k].1.date
    {
      assert r[k] in multiset(r);
      if r[k] != x {
        assert r[k] in multiset(tail);
        var m :| 0 <= m < |tail| && tail[m] == r[k];
        assert s[1 + m] == r[k];
      }
    }
  }

  lemma {:induction false} InsertByDateSpec(x: (int, OrderRow), s: seq<(int, OrderRow)>)
    requires NewestFirst(s)
    ensures NewestFirst(InsertByDate(x, s))
    ensures multiset(InsertByDate(x, s)) == multiset(s) + multiset{x}
  {
    InsertByDateMembers(x, s);
    if s == [] {
    } else if s[0].1.date <= x.1.date {
      NewestFirstCons(x, s);
    } else {
      InsertByDateSpec(x, s[1..]);
      HeadNewerThanInserted(x, s);
      NewestFirstCons(s[0], InsertByDate(x, s[1..]));
    }
  }

  /** The ordering is newest first and holds the same rows. */
  lemma {:induction false} OrderByDateDescSpec(rows: seq<(int, OrderRow)>)
    ensures NewestFirst(OrderByDateDesc(rows))
    ensures multiset(OrderByDateDesc(rows)) == multiset(rows)
  {
    if rows != [] {
      OrderByDateDescSpec(rows[1..]);
      InsertByDateSpec(rows[0], OrderByDateDesc(rows[1..]));
      assert rows == [rows[0]] + rows[1..];
    }
  }

  /** `SELECT ... FROM orders WHERE customer_id = c` over ids `[lo, hi)`, in
      id order. */
  function CustomerRange(orders: map<int, OrderRow>, customerId: int, lo: int, hi: int): seq<(int, OrderRow)>
    decreases hi - lo
  {
    if hi <= lo then []
    else CustomerRange(orders, customerId, lo, hi - 1)
         + (if hi - 1 in orders && orders[hi - 1].customerId == customerId
            then [(hi - 1, orders[hi - 1])] else [])
  }

  lemma {:induction false} CustomerRangeMembers(orders: map<int, OrderRow>, customerId: int, lo: int, hi: int,
                                               id: int, o: OrderRow)
    ensures (id, o) in CustomerRange(orders, customerId, lo, hi) <==>
              lo <= id < hi && id in orders && orders[id] == o && o.customerId == customerId
    decreases hi - lo
  {
    if lo < hi {
      CustomerRangeMembers(orders, customerId, lo, hi - 1, id, o);
    }
  }

  /** The ids `get_orders_by_customer` selects, newest first, with their rows. */
  function CustomerRows(t: Tables, customerId: int): seq<(int, OrderRow)>
  {
    OrderByDateDesc(CustomerRange(t.orders, customerId, 1, t.nextOrderId))
  }

  /** The loop that calls `get_by_id` for each selected id and keeps the
      orders it finds. */
  function ViewsOf(t: Tables, rows: seq<(int, OrderRow)>): seq<Order>
  {
    if rows == [] then []
    else
      var rest := ViewsOf(t, rows[..|rows| - 1]);
      match OrderView(t, rows[|rows| - 1].0)
      case Some(o) => rest + [o]
      case None => rest
  }

  /** What `get_orders_by_customer` returns. */
  function CustomerOrders(t: Tables, customerId: int): seq<Order>
  {
    ViewsOf(t, CustomerRows(t, customerId))
  }

  /** When every selected id has its row, the loop keeps one order per
      row, each with that row's fields. */
  lemma {:induction false} ViewsOfRows(t: Tables, rows: seq<(int, OrderRow)>)
    requires forall i :: 0 <= i < |rows| ==> rows[i].0 in t.orders && t.orders[rows[i].0] == rows[i].1
    ensures |ViewsOf(t, rows)| == |rows|
    ensures forall i :: 0 <= i < |rows| ==>
              ViewsOf(t, rows)[i] == OrderView(t, rows[i].0).value &&
              ViewsOf(t, rows)[i].date == rows[i].1.date &&
              ViewsOf(t, rows)[i].customerId == rows[i].1.customerId
    decreases |rows|
  {
    if rows != [] {
      ViewsOfRows(t, rows[..|rows| - 1]);
    }
  }

  /** The listing holds exactly the customer's orders, newest first. */
  lemma CustomerOrdersSpec(t: Tables, customerId: int, id: int)
    requires Valid(t)
    ensures var r := CustomerOrders(t, customerId);
            (forall i :: 0 <= i < |r| ==> r[i].customerId == customerId) &&
            (forall i, j :: 0 <= i < j < |r| ==> r[i].date >= r[j].date) &&
            ((exists i :: 0 <= i < |r| && r[i].id == id) <==>
               id in t.orders && t.orders[id].customerId == customerId)
  {
    var range := CustomerRange(t.orders, customerId, 1, t.nextOrderId);
    var rows := CustomerRows(t, customerId);
    OrderByDateDescSpec(range);
    forall i | 0 <= i < |rows|
      ensures rows[i].0 in t.orders && t.orders[rows[i].0] == rows[i].1 && rows[i].1.customerId == customerId
    {
      assert rows[i] in multiset(rows);
      CustomerRangeMembers(t.orders, customerId, 1, t.nextOrderId, rows[i].0, rows[i].1);
    }
    ViewsOfRows(t, rows);
    var r := CustomerOrders(t, customerId);
    if id in t.orders && t.orders[id].customerId == customerId {
      CustomerRangeMembers(t.orders, customerId, 1, t.nextOrderId, id, t.orders[id]);
      assert (id, t.orders[id]) in multiset(rows);
      var i :| 0 <= i < |rows| && rows[i] == (id, t.orders[id]);
      assert r[i].id == id;
    }
  }

  class DBOrderRepo {
    const db: Database

    constructor (db: Database)
      ensures this.db == db
    {
      this.db := db;
    }

    /** `create_order`: the order row, then the loop inserting one item row
        per cart line, then the commit. Returns the new id. */
    method CreateOrder(customerId: int, date: int, status: string, amount: real, lines: seq<CartLine>)
      returns (id: int)
      requires Valid(db.tables)
      modifies db
      ensures Valid(db.tables)
      ensures id == old(db.tables.nextOrderId) && id !in old(db.tables.orders)
      ensures db.tables == OrderCreate(old(db.tables), customerId, date, status, amount, lines)
    {
      var t := db.tables;
      id := t.nextOrderId;
      var u := t.(orders := t.orders[id := OrderRow(customerId, date, status, amount)], nextOrderId := id + 1);
      var i := 0;
      while i < |lines|
        invariant 0 <= i <= |lines|
        invariant u == t.(orders := u.orders, nextOrderId := id + 1,
                          orderItems := t.orderItems + ItemRows(id, lines[..i]))
        invariant u.orders == t.orders[id := OrderRow(customerId, date, status, amount)]
      {
        u := u.(orderItems := u.orderItems + [ItemRow(id, lines[i])]);
        assert lines[..i + 1][..i] == lines[..i];
        i := i + 1;
      }
      assert lines[..|lines|] == lines;
      OrderCreateSpec(t, customerId, date, status, amount, lines);
      db.tables := u;
    }

    /** `get_by_id`: `None` for a missing order, otherwise the loop over the
        joined item rows. */
    method GetById(id: int) returns (r: Option<Order>)
      ensures r == OrderView(db.tables, id)
    {
      var t := db.tables;
      if id !in t.orders {
        return None;
      }
      var items: seq<OrderLine> := [];
      var i := 0;
      while i < |t.orderItems|
        invariant 0 <= i <= |t.orderItems|
        invariant items == OrderJoin(t.orderItems[..i], t.products, id)
      {
        var row := t.orderItems[i];
        if row.orderId == id && row.productId in t.products {
          var p := t.products[row.productId];
          items := items + [OrderLine(row.productId, p.name, p.description, row.price, row.quantity)];
        }
        assert t.orderItems[..i + 1][..i] == t.orderItems[..i];
        i := i + 1;
      }
      assert t.orderItems[..|t.orderItems|] == t.orderItems;
      var o := t.orders[id];
      r := Some(Order(id, o.customerId, o.date, o.status, o.amount, items));
    }

    /** `get_orders_by_customer`: the ids newest first, then `get_by_id` for
        each one. */
    method GetOrdersByCustomer(customerId: int) returns (r: seq<Order>)
      ensures r == CustomerOrders(db.tables, customerId)
    {
      var rows := CustomerRows(db.tables, customerId);
      r := [];
      var i := 0;
      while i < |rows|
        invariant 0 <= i <= |rows|
        invariant r == ViewsOf(db.tables, rows[..i])
      {
        var o := GetById(rows[i].0);
        if o.Some? {
          r := r + [o.value];
        }
        assert rows[..i + 1][..i] == rows[..i];
        i := i + 1;
      }
      assert rows[..|rows|] == rows;
    }

    /** `update_order(order)`: writes the order's status and amount. */
    method UpdateOrder(o: Order) returns (r: Result<Order>)
      requires Valid(db.tables)
      modifies db
      ensures Valid(db.tables)
      ensures OrderUpdate(old(db.tables), o.id, o.status, o.amount).Ok? ==>
                r == Ok(o) && db.tables == OrderUpdate(old(db.tables), o.id, o.status, o.amount).value
      ensures OrderUpdate(old(db.tables), o.id, o.status, o.amount).Err? ==>
                r == Err(OrderUpdate(old(db.tables), o.id, o.status, o.amount).msg) &&
                db.tables == old(db.tables)
    {
      OrderUpdateSpec(db.tables, o.id, o.status, o.amount);
      match OrderUpdate(db.tables, o.id, o.status, o.amount)
      case Ok(u) =>
        db.tables := u;
        r := Ok(o);
      case Err(m) =>
        r := Err(m);
    }

    /** `delete_order(order_id)`. */
    method DeleteOrder(id: int) returns (r: Result<bool>)
      requires Valid(db.tables)
      modifies db
      ensures Valid(db.tables)
      ensures OrderDelete(old(db.tables), id).Ok? ==>
                r == Ok(true) && db.tables == OrderDelete(old(db.tables), id).value
      ensures OrderDelete(old(db.tables), id).Err? ==>
                r == Err(OrderDelete(old(db.tables), id).msg) && db.tables == old(db.tables)
    {
      OrderDeleteSpec(db.tables, id);
      match OrderDelete(db.tables, id)
      case Ok(u) =>
        db.tables := u;
        r := Ok(true);
      case Err(m) =>
        r := Err(m);
    }
  }
}
