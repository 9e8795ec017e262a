/** The five order commands (emporia-api/command/order_commands.py). A
    command is a value that carries what it records while it runs: the
    validity flag, the created order's id, the original stock of each
    product, the payment id and the previous status. `Run` and `Undo` say
    what `execute` and `undo` do to the tables and to that record; the
    methods `Execute` and `UndoCommand` do it through the repositories.
    The commands' repositories are the ones the caller passes in, all on one
    connection; `datetime.now()` is the parameter `now`. */
module OrderCommands {
  import opened Common
  import opened Tables
  import opened ProductRepo
  import opened CartRepo
  import opened OrderRepo
  import Payment

  /** What `execute` returns: `True`, or the created order (its id). */
  datatype Value = Done | Created(orderId: int)

  datatype Command =
    | ValidateOrder(lines: seq<CartLine>, customerId: int, isValid: bool)
    | CreateOrder(customerId: int, lines: seq<CartLine>, amount: real, order: Option<int>)
    | UpdateInventory(lines: seq<CartLine>, originalStock: StockDict)
    | ProcessPayment(orderId: int, amount: real, paymentMethod: string, paymentId: Option<string>)
    | UpdateOrderStatus(orderId: int, newStatus: string, previousStatus: Option<string>)

  /** The tables after `execute`, the command with what it recorded, and the
      returned value or the raised message. */
  datatype Step = Step(tables: Tables, command: Command, result: Result<Value>)

  /** The tables after `undo`, the command afterwards, and the message if
      `undo` raised. */
  datatype Undone = Undone(tables: Tables, command: Command, error: Option<string>)

  /** `str(x)` of an optional string. */
  function OptionText(s: Option<string>): string
  {
    match s
    case None => "None"
    case Some(v) => v
  }

  function InsufficientFor(name: string): string
  {
    "Insufficient stock for product: " + name
  }

  /** A line whose product, as the cart holds it, has less stock than the
      line's quantity. */
  predicate Short(l: CartLine)
  {
    l.product.stock < l.quantity
  }

  /** The first short line, where validation stops. */
  function FirstShort(lines: seq<CartLine>): (r: Option<nat>)
    ensures r.Some? ==> r.value < |lines| && Short(lines[r.value]) &&
                        forall k :: 0 <= k < r.value ==> !Short(lines[k])
    ensures r.None? ==> forall k :: 0 <= k < |lines| ==> !Short(lines[k])
  {
    if lines == [] then None
    else if Short(lines[0]) then Some(0)
    else match FirstShort(lines[1..])
      case None => None
      case Some(k) => Some(k + 1)
  }

  /** The first short line is the one all earlier lines are not. */
  lemma {:induction false} FirstShortIs(lines: seq<CartLine>, k: nat)
    requires k < |lines| && Short(lines[k]) && forall j :: 0 <= j < k ==> !Short(lines[j])
    ensures FirstShort(lines) == Some(k)
  {
    if k > 0 {
      assert !Short(lines[0]);
      FirstShortIs(lines[1..], k - 1);
    }
  }

  /** Validation's message for a cart with no lines. */
  const EmptyCartMessage := "Shopping cart is empty"

  /** `ValidateOrderCommand.execute`: an empty cart, then the first short
      line, then a falsy customer (absent or 0). */
  function RunValidate(lines: seq<CartLine>, customerId: int): Result<Value>
  {
    if |lines| == 0 then Err(EmptyCartMessage)
    else match FirstShort(lines)
      case Some(k) => Err(InsufficientFor(lines[k].product.name))
      case None => if customerId == 0 then Err("Invalid customer") else Ok(Done)
  }

  /** `original_stock`, a Python dict from product id to stock: its entries
      in insertion order, each key once. */
  type StockDict = seq<(int, int)>

  function KeysOf(d: StockDict): set<int>
  {
    if d == [] then {} else KeysOf(d[..|d| - 1]) + {d[|d| - 1].0}
  }

  /** No key occurs twice. */
  predicate DistinctKeys(d: StockDict)
  {
    d == [] || (DistinctKeys(d[..|d| - 1]) && d[|d| - 1].0 !in KeysOf(d[..|d| - 1]))
  }

  /** `d.get(k)`: the entry for `k`, the last one should a key occur twice. */
  function Get(d: StockDict, k: int): Option<int>
  {
    if d == [] then None
    else if d[|d| - 1].0 == k then Some(d[|d| - 1].1)
    else Get(d[..|d| - 1], k)
  }

  /** `d[k] = v`: an existing key keeps its place and takes the new value, a
      new key goes last. */
  function Put(d: StockDict, k: int, v: int): StockDict
  {
    if d == [] then [(k, v)]
    else if d[|d| - 1].0 == k then d[..|d| - 1] + [(k, v)]
    else Put(d[..|d| - 1], k, v) + [d[|d| - 1]]
  }

  /** A key has an entry exactly when it is one of the dict's keys. */
  lemma {:induction false} GetKeys(d: StockDict, k: int)
    ensures Get(d, k).Some? <==> k in KeysOf(d)
    decreases |d|
  {
    if d != [] {
      GetKeys(d[..|d| - 1], k);
    }
  }

  /** After `d[k] = v`, `k` maps to `v` and every other key to what it
      mapped to before; the keys are the old ones and `k`, still each once,
      and the dict grows by at most one entry. */
  lemma {:induction false} PutSpec(d: StockDict, k: int, v: int)
    ensures Get(Put(d, k, v), k) == Some(v)
    ensures forall j :: j != k ==> Get(Put(d, k, v), j) == Get(d, j)
    ensures KeysOf(Put(d, k, v)) == KeysOf(d) + {k}
    ensures DistinctKeys(d) ==> DistinctKeys(Put(d, k, v))
    ensures |Put(d, k, v)| == if k in KeysOf(d) then |d| else |d| + 1
    decreases |d|
  {
    if d != [] {
      var init := d[..|d| - 1];
      var r := Put(d, k, v);
      if d[|d| - 1].0 == k {
        assert r[..|r| - 1] == init;
        GetKeys(init, k);
      } else {
        PutSpec(init, k, v);
        assert r[..|r| - 1] == Put(init, k, v);
      }
    }
  }

  /** The tables and the recorded stock part-way through the inventory
      loop, and the message once a line has raised. */
  datatype InventoryRun = InventoryRun(tables: Tables, recorded: StockDict, error: Option<string>)

  /** One pass of the inventory loop: record the line's stock, then refuse a
      negative new stock, then write the cart's copy of the product back with
      the new stock through the product repository. */
  function DecrementOne(t: Tables, recorded: StockDict, l: CartLine): InventoryRun
  {
    var rec := Put(recorded, l.productId, l.product.stock);
    var n := l.product.stock - l.quantity;
    if n < 0 then InventoryRun(t, rec, Some(InsufficientFor(l.product.name)))
    else match ProductUpdate(t, l.productId, l.product.(stock := n))
      case Ok(u) => InventoryRun(u, rec, None)
      case Err(m) => InventoryRun(t, rec, Some(m))
  }

  /** The loop over the lines, stopping at the first line that raises; each
      product update is committed on its own, so the earlier ones stay. */
  function Decrement(t: Tables, recorded: StockDict, lines: seq<CartLine>): InventoryRun
  {
    if lines == [] then InventoryRun(t, recorded, None)
    else
      var s := Decrement(t, recorded, lines[..|lines| - 1]);
      if s.error.Some? then s else DecrementOne(s.tables, s.recorded, lines[|lines| - 1])
  }

  /** One product's stock put back: its row, as read, written back with the
      recorded stock through the product repository, or nothing when the
      product is gone. Like any update, it fails when the row already has
      that stock. */
  function RestoreOne(t: Tables, pid: int, stock: int): Result<Tables>
  {
    if pid in t.products then ProductUpdate(t, pid, t.products[pid].(stock := stock)) else Ok(t)
  }

  /** The tables part-way through the restoring loop, and the message once
      an update has raised. */
  datatype Restored = Restored(tables: Tables, error: Option<string>)

  /** `UpdateInventoryCommand.undo`: the recorded entries in order, each
      product that still exists getting its recorded stock back, until an
      update raises; the updates before it stay committed. */
  function RestoreStock(t: Tables, recorded: StockDict): Restored
  {
    if recorded == [] then Restored(t, None)
    else
      var r := RestoreStock(t, recorded[..|recorded| - 1]);
      var e := recorded[|recorded| - 1];
      if r.error.Some? then r
      else match RestoreOne(r.tables, e.0, e.1)
        case Ok(u) => Restored(u, None)
        case Err(m) => Restored(r.tables, Some(m))
  }

  /** What `execute` does. */
  function Run(t: Tables, c: Command, now: int): Step
  {
    match c
    case ValidateOrder(lines, customerId, _) =>
      var r := RunValidate(lines, customerId);
      Step(t, if r.Ok? then ValidateOrder(lines, customerId, true) else c, r)
    case CreateOrder(customerId, lines, amount, _) =>
      Step(OrderCreate(t, customerId, now, "pending", amount, lines),
           CreateOrder(customerId, lines, amount, Some(t.nextOrderId)), Ok(Created(t.nextOrderId)))
    case UpdateInventory(lines, recorded) =>
      var s := Decrement(t, recorded, lines);
      Step(s.tables, UpdateInventory(lines, s.recorded),
           match s.error case None => Ok(Done) case Some(m) => Err(m))
    case ProcessPayment(orderId, amount, payMethod, _) =>
      var p := Payment.ProcessPayment(amount, payMethod, orderId);
      if p.success then Step(t, ProcessPayment(orderId, amount, payMethod, p.paymentId), Ok(Done))
      else Step(t, c, Err("Payment failed: " + OptionText(p.errorMessage)))
    case UpdateOrderStatus(orderId, status, _) =>
      if orderId !in t.orders then Step(t, c, Err(OrderNotFound(orderId)))
      else
        var row := t.orders[orderId];
        match OrderUpdate(t, orderId, status, row.amount)
        case Ok(u) => Step(u, UpdateOrderStatus(orderId, status, Some(row.status)), Ok(Done))
        case Err(m) => Step(t, UpdateOrderStatus(orderId, status, Some(row.status)), Err(m))
  }

  /** What `undo` does. The order deletion, the stock updates and the
      status update can raise. */
  function Undo(t: Tables, c: Command): Undone
  {
    match c
    case ValidateOrder(lines, customerId, _) =>
      Undone(t, ValidateOrder(lines, customerId, false), None)
    case CreateOrder(customerId, lines, amount, order) =>
      if order.Some? && order.value != 0 then
        match OrderDelete(t, order.value)
        case Ok(u) => Undone(u, CreateOrder(customerId, lines, amount, None), None)
        case Err(m) => Undone(t, c, Some(m))
      else Undone(t, c, None)
    case UpdateInventory(_, recorded) =>
      var r := RestoreStock(t, recorded);
      Undone(r.tables, c, r.error)
    case ProcessPayment(orderId, amount, payMethod, paymentId) =>
      if paymentId.Some? && paymentId.value != "" then
        Undone(t, ProcessPayment(orderId, amount, payMethod, None), None)
      else Undone(t, c, None)
    case UpdateOrderStatus(orderId, status, previous) =>
      if previous.Some? && previous.value != "" && orderId in t.orders then
        var amount := t.orders[orderId].amount;
        match OrderUpdate(t, orderId, previous.value, amount)
        case Ok(u) => Undone(u, c, None)
        case Err(m) => Undone(t, c, Some(m))
      else Undone(t, c, None)
  }

  /** Validation changes no table; it succeeds exactly for a non-empty cart
      whose every line has enough stock and a truthy customer, and it
      reports the first failing check in that order. Undoing it clears the
      flag. */
  lemma ValidateSpec(t: Tables, lines: seq<CartLine>, customerId: int, flag: bool, now: int)
    ensures var s := Run(t, ValidateOrder(lines, customerId, flag), now);
            s.tables == t &&
            (s.result.Ok? <==>
               |lines| > 0 && (forall i :: 0 <= i < |lines| ==> lines[i].product.stock >= lines[i].quantity) &&
               customerId != 0) &&
            (s.result.Ok? ==> s.command == ValidateOrder(lines, customerId, true)) &&
            (|lines| == 0 ==> s.result == Err(EmptyCartMessage)) &&
            (forall k :: 0 <= k < |lines| && Short(lines[k]) && (forall j :: 0 <= j < k ==> !Short(lines[j])) ==>
               s.result == Err(InsufficientFor(lines[k].product.name))) &&
            (|lines| > 0 && (forall i :: 0 <= i < |lines| ==> !Short(lines[i])) && customerId == 0 ==>
               s.result == Err("Invalid customer")) &&
            !Undo(s.tables, s.command).command.isValid
  {
    forall k | 0 <= k < |lines| && Short(lines[k]) && (forall j :: 0 <= j < k ==> !Short(lines[j]))
      ensures FirstShort(lines) == Some(k)
    {
      FirstShortIs(lines, k);
    }
  }

  /** Creating an order adds a "pending" order for the customer with the
      given amount and the cart's lines; undoing it deletes that order and
      its items again and forgets it. */
  lemma CreateOrderSpec(t: Tables, customerId: int, lines: seq<CartLine>, amount: real,
                        order: Option<int>, now: int)
    requires Valid(t)
    ensures var s := Run(t, CreateOrder(customerId, lines, amount, order), now);
            var id := t.nextOrderId;
            s.result == Ok(Created(id)) && id !in t.orders && Valid(s.tables) &&
            s.tables.orders == t.orders[id := OrderRow(customerId, now, "pending", amount)] &&
            Undo(s.tables, s.command) ==
              Undone(t.(nextOrderId := id + 1), CreateOrder(customerId, lines, amount, None), None)
  {
    OrderCreateSpec(t, customerId, now, "pending", amount, lines);
    CreateThenDelete(t, customerId, now, "pending", amount, lines);
  }

  /** Undo deletes nothing when no order with an id was created. */
  lemma CreateOrderUndoNeedsOrder(t: Tables, customerId: int, lines: seq<CartLine>, amount: real, order: Option<int>)
    requires order.None? || order.value == 0
    ensures Undo(t, CreateOrder(customerId, lines, amount, order)) ==
              Undone(t, CreateOrder(customerId, lines, amount, order), None)
  {
  }

  /** The lines name distinct products. */
  predicate DistinctProducts(lines: seq<CartLine>)
  {
    forall i, j :: 0 <= i < j < |lines| ==> lines[i].productId != lines[j].productId
  }

  /** The line's product exists under the same seller, its category exists,
      and the cart's stock covers the quantity. */
  predicate Decrementable(t: Tables, l: CartLine)
  {
    l.productId in t.products && t.products[l.productId].sellerId == l.product.sellerId &&
    l.product.categoryId in t.categories && !Short(l)
  }

  /** The product row after the line's update: the cart's copy with the
      cart's stock less the quantity. */
  function Decremented(l: CartLine): Product
  {
    l.product.(stock := l.product.stock - l.quantity)
  }

  /** Writing the line's product back changes its row. */
  predicate Changes(products: map<int, Product>, l: CartLine)
  {
    l.productId in products && products[l.productId] != Decremented(l)
  }

  /** Every line is decrementable and its write changes the row as the
      lines before it left it, so every update succeeds. */
  predicate Updatable(t: Tables, lines: seq<CartLine>)
  {
    lines == [] ||
    (Updatable(t, lines[..|lines| - 1]) && Decrementable(t, lines[|lines| - 1]) &&
     Changes(Expected(t.products, lines[..|lines| - 1]), lines[|lines| - 1]))
  }

  /** With distinct products, each write meets the row as it was; the write
      changes it when it differs from the cart's copy with the new stock. */
  lemma {:induction false} DistinctUpdatable(t: Tables, lines: seq<CartLine>)
    requires DistinctProducts(lines)
    requires forall i :: 0 <= i < |lines| ==> Decrementable(t, lines[i]) && Changes(t.products, lines[i])
    ensures Updatable(t, lines)
    decreases |lines|
  {
    if lines != [] {
      var init := lines[..|lines| - 1];
      var l := lines[|lines| - 1];
      assert forall i :: 0 <= i < |init| ==> init[i] == lines[i];
      DistinctUpdatable(t, init);
      ExpectedOthers(t.products, init, l.productId);
    }
  }

  /** The products after writing every line back, a later line winning. */
  function Expected(products: map<int, Product>, lines: seq<CartLine>): map<int, Product>
  {
    if lines == [] then products
    else Expected(products, lines[..|lines| - 1])[lines[|lines| - 1].productId := Decremented(lines[|lines| - 1])]
  }

  /** `original_stock` after the loop, a later line winning. */
  function Recorded(recorded: StockDict, lines: seq<CartLine>): StockDict
  {
    if lines == [] then recorded
    else Put(Recorded(recorded, lines[..|lines| - 1]), lines[|lines| - 1].productId, lines[|lines| - 1].product.stock)
  }

  /** Writing updatable lines back keeps every row's seller and a valid
      category, and adds no row. */
  lemma {:induction false} ExpectedShape(t: Tables, lines: seq<CartLine>)
    requires Valid(t) && Updatable(t, lines)
    ensures Expected(t.products, lines).Keys == t.products.Keys
    ensures forall k :: k in t.products ==>
              Expected(t.products, lines)[k].sellerId == t.products[k].sellerId &&
              Expected(t.products, lines)[k].categoryId in t.categories
    decreases |lines|
  {
    if lines != [] {
      ExpectedShape(t, lines[..|lines| - 1]);
    }
  }

  lemma {:induction false} ExpectedAt(products: map<int, Product>, lines: seq<CartLine>, i: nat)
    requires DistinctProducts(lines) && i < |lines|
    ensures lines[i].productId in Expected(products, lines)
    ensures Expected(products, lines)[lines[i].productId] == Decremented(lines[i])
    decreases |lines|
  {
    if i < |lines| - 1 {
      ExpectedAt(products, lines[..|lines| - 1], i);
    }
  }

  lemma {:induction false} ExpectedOthers(products: map<int, Product>, lines: seq<CartLine>, k: int)
    requires k in products && forall i :: 0 <= i < |lines| ==> lines[i].productId != k
    ensures k in Expected(products, lines) && Expected(products, lines)[k] == products[k]
    decreases |lines|
  {
    if lines != [] {
      ExpectedOthers(products, lines[..|lines| - 1], k);
    }
  }

  lemma {:induction false} RecordedAt(recorded: StockDict, lines: seq<CartLine>, i: nat)
    requires DistinctProducts(lines) && i < |lines|
    ensures Get(Recorded(recorded, lines), lines[i].productId) == Some(lines[i].product.stock)
    decreases |lines|
  {
    var init := lines[..|lines| - 1];
    var l := lines[|lines| - 1];
    PutSpec(Recorded(recorded, init), l.productId, l.product.stock);
    if i < |lines| - 1 {
      RecordedAt(recorded, init, i);
    }
  }

  lemma {:induction false} RecordedKeys(recorded: StockDict, lines: seq<CartLine>, k: int)
    ensures Get(Recorded(recorded, lines), k).Some? <==>
              Get(recorded, k).Some? || exists i :: 0 <= i < |lines| && lines[i].productId == k
    decreases |lines|
  {
    if lines != [] {
      var init := lines[..|lines| - 1];
      var l := lines[|lines| - 1];
      PutSpec(Recorded(recorded, init), l.productId, l.product.stock);
      RecordedKeys(recorded, init, k);
      if exists i :: 0 <= i < |init| && init[i].productId == k {
        var i :| 0 <= i < |init| && init[i].productId == k;
        assert lines[i] == init[i];
      }
      if exists i :: 0 <= i < |lines| && lines[i].productId == k {
        var i :| 0 <= i < |lines| && lines[i].productId == k;
        if i < |init| {
          assert init[i] == lines[i];
        }
      }
    }
  }

  /** With updatable lines the loop runs to the end: every line's product
      is written back from the cart's copy less the quantity, its stock as
      the cart held it is recorded, and no other table changes. */
  lemma {:induction false} InventorySpec(t: Tables, recorded: StockDict, lines: seq<CartLine>)
    requires Valid(t) && Updatable(t, lines)
    ensures Decrement(t, recorded, lines) ==
              InventoryRun(t.(products := Expected(t.products, lines)), Recorded(recorded, lines), None)
    decreases |lines|
  {
    if lines != [] {
      var init := lines[..|lines| - 1];
      var l := lines[|lines| - 1];
      InventorySpec(t, recorded, init);
      ExpectedShape(t, init);
      var s := Decrement(t, recorded, init);
      assert Decrementable(t, l) && Changes(Expected(t.products, init), l);
      ProductUpdateSpec(t, l.productId, t.products[l.productId]);
      assert ProductUpdate(s.tables, l.productId, Decremented(l)) ==
               Ok(s.tables.(products := s.tables.products[l.productId := Decremented(l)]));
    }
  }

  /** The loop's step: the prefix one line longer runs that line unless the
      shorter prefix already raised. */
  lemma DecrementPrefixStep(t: Tables, recorded: StockDict, lines: seq<CartLine>, i: nat)
    requires i < |lines|
    ensures Decrement(t, recorded, lines[..i + 1]) ==
              (var s := Decrement(t, recorded, lines[..i]);
               if s.error.Some? then s else DecrementOne(s.tables, s.recorded, lines[i]))
  {
    assert lines[..i + 1][..i] == lines[..i];
  }

  /** Once a prefix has raised, the whole run is that prefix's run. */
  lemma DecrementStopsAt(t: Tables, recorded: StockDict, lines: seq<CartLine>, i: nat)
    requires i < |lines| && Decrement(t, recorded, lines[..i + 1]).error.Some?
    ensures Decrement(t, recorded, lines) == Decrement(t, recorded, lines[..i + 1])
  {
    DecrementStops(t, recorded, lines[..i + 1], lines[i + 1..]);
    assert lines[..i + 1] + lines[i + 1..] == lines;
  }

  /** An error sticks: lines after the one that raised are never reached. */
  lemma {:induction false} DecrementStops(t: Tables, recorded: StockDict, a: seq<CartLine>, b: seq<CartLine>)
    requires Decrement(t, recorded, a).error.Some?
    ensures Decrement(t, recorded, a + b) == Decrement(t, recorded, a)
    decreases |b|
  {
    if b != [] {
      var b' := b[..|b| - 1];
      assert (a + b)[..|a + b| - 1] == a + b';
      DecrementStops(t, recorded, a, b');
    } else {
      assert a + b == a;
    }
  }

  /** A short line raises with its product's name after the lines before it
      were written: those products stay decremented (and their stock
      recorded), and only this command's own `undo` would restore them. */
  lemma InventoryStopsAtShortLine(t: Tables, recorded: StockDict, lines: seq<CartLine>, k: nat)
    requires Valid(t) && k < |lines| && Short(lines[k])
    requires Updatable(t, lines[..k])
    ensures var s := Decrement(t, recorded, lines);
            s.error == Some(InsufficientFor(lines[k].product.name)) &&
            s.tables == t.(products := Expected(t.products, lines[..k])) &&
            s.recorded == Recorded(recorded, lines[..k + 1])
  {
    DecrementAtShort(t, recorded, lines, k);
    DecrementStopsAt(t, recorded, lines, k);
  }

  /** The loop up to and including the short line `k`. */
  lemma DecrementAtShort(t: Tables, recorded: StockDict, lines: seq<CartLine>, k: nat)
    requires Valid(t) && k < |lines| && Short(lines[k])
    requires Updatable(t, lines[..k])
    ensures Decrement(t, recorded, lines[..k + 1]) ==
              InventoryRun(t.(products := Expected(t.products, lines[..k])), Recorded(recorded, lines[..k + 1]),
                           Some(InsufficientFor(lines[k].product.name)))
  {
    var pre := lines[..k];
    var one := lines[..k + 1];
    assert one[..k] == pre && one[k] == lines[k];
    InventorySpec(t, recorded, pre);
  }

  /** Undoing a complete inventory update restores the tables, provided the
      cart's copies of the products were current and no quantity was zero
      (a zero quantity writes the row back unchanged, which fails). */
  lemma {:induction false} InventoryRoundTrip(t: Tables, lines: seq<CartLine>, now: int)
    requires Valid(t) && DistinctProducts(lines)
    requires forall i :: 0 <= i < |lines| ==> Decrementable(t, lines[i]) && lines[i].quantity != 0
    requires forall i :: 0 <= i < |lines| ==>
               lines[i].productId in t.products && t.products[lines[i].productId] == lines[i].product
    ensures var s := Run(t, UpdateInventory(lines, []), now);
            s.result == Ok(Done) && Undo(s.tables, s.command) == Undone(t, s.command, None)
  {
    forall i | 0 <= i < |lines|
      ensures Changes(t.products, lines[i])
    {
      assert Decremented(lines[i]).stock != lines[i].product.stock;
    }
    DistinctUpdatable(t, lines);
    InventorySpec(t, [], lines);
    RestoreAfterRun(t, lines);
  }

  /** Restoring what a complete run recorded puts back the rows it wrote,
      when the cart's copies were current and no quantity was zero. */
  lemma {:induction false} RestoreAfterRun(t: Tables, lines: seq<CartLine>)
    requires Valid(t) && DistinctProducts(lines) && Updatable(t, lines)
    requires forall i :: 0 <= i < |lines| ==> lines[i].quantity != 0
    requires forall i :: 0 <= i < |lines| ==>
               lines[i].productId in t.products && t.products[lines[i].productId] == lines[i].product
    ensures RestoreStock(t.(products := Expected(t.products, lines)), Recorded([], lines)) == Restored(t, None)
  {
    InventorySpec(t, [], lines);
    DecrementValid(t, [], lines);
    var after := t.(products := Expected(t.products, lines));
    var rec := Recorded([], lines);
    RecordedDistinct([], lines);
    ExpectedStockDiffers(t, lines);
    RestoreStockAt(after, rec);
    RestoreStockValid(after, rec);
    RestoredExpected(t, lines);
    var back := RestoreStock(after, rec).tables;
    ExpectedShape(t, lines);
    assert back.products.Keys == t.products.Keys;
    forall k | k in t.products
      ensures back.products[k] == t.products[k]
    {
    }
    assert back.products == t.products;
  }

  /** After a complete run, every written product's stock differs from the
      recorded one by its nonzero quantity. */
  lemma {:induction false} ExpectedStockDiffers(t: Tables, lines: seq<CartLine>)
    requires DistinctProducts(lines) && forall i :: 0 <= i < |lines| ==> lines[i].quantity != 0
    ensures StockDiffers(Expected(t.products, lines), Recorded([], lines))
  {
    var rec := Recorded([], lines);
    forall k | k in Expected(t.products, lines) && Get(rec, k).Some?
      ensures Expected(t.products, lines)[k].stock != Get(rec, k).value
    {
      RecordedKeys([], lines, k);
      var i :| 0 <= i < |lines| && lines[i].productId == k;
      ExpectedAt(t.products, lines, i);
      RecordedAt([], lines, i);
    }
  }

  /** Putting the recorded stock back into the written rows gives the rows
      as they were, when the cart's copies were current. */
  lemma {:induction false} RestoredExpected(t: Tables, lines: seq<CartLine>)
    requires DistinctProducts(lines)
    requires forall i :: 0 <= i < |lines| ==>
               lines[i].productId in t.products && t.products[lines[i].productId] == lines[i].product
    ensures forall k :: k in t.products ==>
              k in Expected(t.products, lines) &&
              t.products[k] ==
                match Get(Recorded([], lines), k)
                case Some(v) => Expected(t.products, lines)[k].(stock := v)
                case None => Expected(t.products, lines)[k]
  {
    var rec := Recorded([], lines);
    forall k | k in t.products
      ensures k in Expected(t.products, lines) &&
              t.products[k] ==
                match Get(rec, k)
                case Some(v) => Expected(t.products, lines)[k].(stock := v)
                case None => Expected(t.products, lines)[k]
    {
      RecordedKeys([], lines, k);
      if Get(rec, k).Some? {
        var i :| 0 <= i < |lines| && lines[i].productId == k;
        ExpectedAt(t.products, lines, i);
        RecordedAt([], lines, i);
      } else {
        ExpectedOthers(t.products, lines, k);
      }
    }
  }

  /** The payment always goes through and records the stub's id; undoing it
      refunds and forgets that id. */
  lemma PaymentSpec(t: Tables, orderId: int, amount: real, payMethod: string, paymentId: Option<string>, now: int)
    ensures var s := Run(t, ProcessPayment(orderId, amount, payMethod, paymentId), now);
            s == Step(t, ProcessPayment(orderId, amount, payMethod, Some(Payment.PaymentId(orderId, amount))), Ok(Done)) &&
            Undo(s.tables, s.command) == Undone(t, ProcessPayment(orderId, amount, payMethod, None), None)
  {
    assert Payment.PaymentId(orderId, amount)[..8] == "PAYMENT-";
  }

  /** A status update fails for a missing order, and fails as if the order
      were missing when it already has that status (the amount is written
      back as read, so the row would not change); otherwise it sets the
      status, keeps the rest of the order, and records the previous status,
      and undoing it puts the tables back unless that status was empty
      (falsy), in which case undo does nothing. */
  lemma StatusSpec(t: Tables, orderId: int, status: string, previous: Option<string>, now: int)
    requires Valid(t)
    ensures var s := Run(t, UpdateOrderStatus(orderId, status, previous), now);
            (s.result.Ok? <==> orderId in t.orders && t.orders[orderId].status != status) &&
            (orderId !in t.orders ==> s.result == Err(OrderNotFound(orderId)) && s.tables == t) &&
            (orderId in t.orders && t.orders[orderId].status == status ==>
               s == Step(t, UpdateOrderStatus(orderId, status, Some(status)),
                         Err(OrderUpdateFailed(orderId)))) &&
            (s.result.Ok? ==>
               s.tables == t.(orders := t.orders[orderId := t.orders[orderId].(status := status)]) &&
               s.command == UpdateOrderStatus(orderId, status, Some(t.orders[orderId].status)) &&
               (t.orders[orderId].status != "" ==> Undo(s.tables, s.command) == Undone(t, s.command, None)) &&
               (t.orders[orderId].status == "" ==> Undo(s.tables, s.command) == Undone(s.tables, s.command, None)))
  {
    if orderId in t.orders {
      var row := t.orders[orderId];
      OrderUpdateSpec(t, orderId, status, row.amount);
      if row.status != status {
        var u := t.(orders := t.orders[orderId := row.(status := status)]);
        assert u.orders[orderId := u.orders[orderId].(status := row.status)] == t.orders;
      }
    }
  }

  lemma {:induction false} DecrementValid(t: Tables, recorded: StockDict, lines: seq<CartLine>)
    requires Valid(t)
    ensures var s := Decrement(t, recorded, lines);
            Valid(s.tables) && s.tables == t.(products := s.tables.products) &&
            s.tables.products.Keys == t.products.Keys
    decreases |lines|
  {
    if lines != [] {
      var init := lines[..|lines| - 1];
      DecrementValid(t, recorded, init);
      var s := Decrement(t, recorded, init);
      if s.error.None? {
        DecrementOneValid(s.tables, s.recorded, lines[|lines| - 1]);
      }
    }
  }

  /** One line's run keeps the tables valid and touches only the products'
      rows, never their keys. */
  lemma DecrementOneValid(t: Tables, recorded: StockDict, l: CartLine)
    requires Valid(t)
    ensures var s := DecrementOne(t, recorded, l);
            Valid(s.tables) && s.tables == t.(products := s.tables.products) &&
            s.tables.products.Keys == t.products.Keys
  {
    ProductUpdateSpec(t, l.productId, l.product.(stock := l.product.stock - l.quantity));
  }

  /** Restoring keeps the tables valid and touches only the products'
      rows, never their keys. */
  lemma {:induction false} RestoreStockValid(t: Tables, recorded: StockDict)
    requires Valid(t)
    ensures var r := RestoreStock(t, recorded);
            Valid(r.tables) && r.tables == t.(products := r.tables.products) &&
            r.tables.products.Keys == t.products.Keys
    decreases |recorded|
  {
    if recorded != [] {
      var init := recorded[..|recorded| - 1];
      var e := recorded[|recorded| - 1];
      RestoreStockValid(t, init);
      var r := RestoreStock(t, init);
      if r.error.None? && e.0 in r.tables.products {
        ProductUpdateSpec(r.tables, e.0, r.tables.products[e.0].(stock := e.1));
      }
    }
  }

  /** Every recorded product that still exists has a stock other than the
      recorded one, so every write of the restoring loop changes its row. */
  predicate StockDiffers(products: map<int, Product>, recorded: StockDict)
  {
    forall k :: k in products && Get(recorded, k).Some? ==> products[k].stock != Get(recorded, k).value
  }

  /** With each key recorded once, restoring raises exactly when some
      existing product already has its recorded stock; when it does not
      raise, each existing product has its recorded stock, if it has one,
      and is otherwise as it was. */
  lemma {:induction false} RestoreStockAt(t: Tables, recorded: StockDict)
    requires Valid(t) && DistinctKeys(recorded)
    ensures RestoreStock(t, recorded).tables.products.Keys == t.products.Keys
    ensures RestoreStock(t, recorded).error.None? <==> StockDiffers(t.products, recorded)
    ensures RestoreStock(t, recorded).error.None? ==>
              forall k :: k in t.products ==>
                RestoreStock(t, recorded).tables.products[k] ==
                  match Get(recorded, k)
                  case Some(v) => t.products[k].(stock := v)
                  case None => t.products[k]
    decreases |recorded|
  {
    if recorded != [] {
      var init := recorded[..|recorded| - 1];
      var e := recorded[|recorded| - 1];
      RestoreStockAt(t, init);
      RestoreStockValid(t, init);
      RestoreStockValid(t, recorded);
      GetKeys(init, e.0);
      var r := RestoreStock(t, init);
      assert forall k :: k != e.0 ==> Get(recorded, k) == Get(init, k);
      assert Get(recorded, e.0) == Some(e.1);
      if r.error.None? {
        if e.0 in t.products {
          ProductUpdateSpec(r.tables, e.0, r.tables.products[e.0].(stock := e.1));
          if t.products[e.0].stock == e.1 {
            assert !StockDiffers(t.products, recorded);
          }
        }
        assert StockDiffers(t.products, recorded) <==>
                 (StockDiffers(t.products, init) && (e.0 in t.products ==> t.products[e.0].stock != e.1));
      } else {
        var k :| k in t.products && Get(init, k).Some? && t.products[k].stock == Get(init, k).value;
        assert Get(recorded, k) == Get(init, k);
      }
    }
  }

  /** Keys recorded once stay so as lines are recorded. */
  lemma {:induction false} RecordedDistinct(recorded: StockDict, lines: seq<CartLine>)
    requires DistinctKeys(recorded)
    ensures DistinctKeys(Recorded(recorded, lines))
    decreases |lines|
  {
    if lines != [] {
      var l := lines[|lines| - 1];
      RecordedDistinct(recorded, lines[..|lines| - 1]);
      PutSpec(Recorded(recorded, lines[..|lines| - 1]), l.productId, l.product.stock);
    }
  }

  /** Once a prefix of the entries has raised, the whole restore is that
      prefix's. */
  lemma {:induction false} RestoreStops(t: Tables, a: StockDict, b: StockDict)
    requires RestoreStock(t, a).error.Some?
    ensures RestoreStock(t, a + b) == RestoreStock(t, a)
    decreases |b|
  {
    if b != [] {
      assert (a + b)[..|a + b| - 1] == a + b[..|b| - 1];
      RestoreStops(t, a, b[..|b| - 1]);
    } else {
      assert a + b == a;
    }
  }

  /** One entry of the restore loop, after a prefix that raised nothing:
      the entry's update extends the prefix, and an update that raises
      decides the whole restore. */
  lemma RestoreStep(t: Tables, recorded: StockDict, i: nat, u: Tables)
    requires i < |recorded| && Restored(u, None) == RestoreStock(t, recorded[..i])
    ensures RestoreOne(u, recorded[i].0, recorded[i].1).Ok? ==>
              RestoreStock(t, recorded[..i + 1]) ==
                Restored(RestoreOne(u, recorded[i].0, recorded[i].1).value, None)
    ensures RestoreOne(u, recorded[i].0, recorded[i].1).Err? ==>
              RestoreStock(t, recorded) ==
                Restored(u, Some(RestoreOne(u, recorded[i].0, recorded[i].1).msg))
  {
    assert recorded[..i + 1][..i] == recorded[..i];
    if RestoreOne(u, recorded[i].0, recorded[i].1).Err? {
      RestoreStops(t, recorded[..i + 1], recorded[i + 1..]);
      assert recorded[..i + 1] + recorded[i + 1..] == recorded;
    }
  }

  /** Running or undoing a command keeps the tables valid. */
  lemma RunValid(t: Tables, c: Command, now: int)
    requires Valid(t)
    ensures Valid(Run(t, c, now).tables)
    ensures Valid(Undo(t, c).tables)
  {
    match c
    case ValidateOrder(_, _, _) =>
    case CreateOrder(customerId, lines, amount, order) =>
      OrderCreateSpec(t, customerId, now, "pending", amount, lines);
      if order.Some? && order.value != 0 {
        OrderDeleteSpec(t, order.value);
      }
    case UpdateInventory(lines, recorded) =>
      DecrementValid(t, recorded, lines);
      RestoreStockValid(t, recorded);
    case ProcessPayment(_, _, _, _) =>
    case UpdateOrderStatus(orderId, status, previous) =>
      OrderUpdateSpec(t, orderId, status, if orderId in t.orders then t.orders[orderId].amount else 0.0);
      if previous.Some? && orderId in t.orders {
        OrderUpdateSpec(t, orderId, previous.value, t.orders[orderId].amount);
      }
  }

  /** `ValidateOrderCommand.execute`: the emptiness check, then the loop over
      the lines, then the customer check. */
  method ExecuteValidate(lines: seq<CartLine>, customerId: int) returns (r: Result<Value>)
    ensures r == RunValidate(lines, customerId)
  {
    if |lines| == 0 {
      return Err(EmptyCartMessage);
    }
    var i := 0;
    while i < |lines|
      invariant 0 <= i <= |lines|
      invariant forall k :: 0 <= k < i ==> !Short(lines[k])
    {
      if lines[i].product.stock < lines[i].quantity {
        FirstShortIs(lines, i);
        return Err(InsufficientFor(lines[i].product.name));
      }
      i := i + 1;
    }
    if customerId == 0 {
      return Err("Invalid customer");
    }
    r := Ok(Done);
  }

  /** `UpdateInventoryCommand.execute`: the loop recording each line's
      stock, checking it and writing the product back. */
  method ExecuteInventory(products: DBProductRepo, lines: seq<CartLine>, recorded: StockDict)
    returns (rec: StockDict, error: Option<string>)
    requires Valid(products.db.tables)
    modifies products.db
    ensures Valid(products.db.tables)
    ensures InventoryRun(products.db.tables, rec, error) == Decrement(old(products.db.tables), recorded, lines)
  {
    ghost var t := products.db.tables;
    rec := recorded;
    var i := 0;
    while i < |lines|
      invariant 0 <= i <= |lines|
      invariant Valid(products.db.tables)
      invariant InventoryRun(products.db.tables, rec, None) == Decrement(t, recorded, lines[..i])
    {
      var l := lines[i];
      DecrementPrefixStep(t, recorded, lines, i);
      rec := Put(rec, l.productId, l.product.stock);
      var n := l.product.stock - l.quantity;
      if n < 0 {
        error := Some(InsufficientFor(l.product.name));
        DecrementStopsAt(t, recorded, lines, i);
        return;
      }
      var u := products.Update(l.productId, l.product.(stock := n));
      match u {
        case Err(m) =>
          error := Some(m);
          DecrementStopsAt(t, recorded, lines, i);
          return;
        case Ok(_) =>
      }
      i := i + 1;
    }
    assert lines[..|lines|] == lines;
    error := None;
  }

  /** One round of `UpdateInventoryCommand.undo`'s loop: read the product
      and write it back with the recorded stock. */
  method RestoreProduct(products: DBProductRepo, pid: int, stock: int) returns (error: Option<string>)
    requires Valid(products.db.tables)
    modifies products.db
    ensures Valid(products.db.tables)
    ensures RestoreOne(old(products.db.tables), pid, stock).Ok? ==>
              error == None && products.db.tables == RestoreOne(old(products.db.tables), pid, stock).value
    ensures RestoreOne(old(products.db.tables), pid, stock).Err? ==>
              error == Some(RestoreOne(old(products.db.tables), pid, stock).msg) &&
              products.db.tables == old(products.db.tables)
  {
    error := None;
    var p := products.GetById(pid);
    if p.Some? {
      ProductUpdateSpec(products.db.tables, pid, p.value.(stock := stock));
      var u := products.Update(pid, p.value.(stock := stock));
      if u.Err? {
        error := Some(u.msg);
      }
    }
  }

  /** `UpdateInventoryCommand.undo`: the loop over the recorded entries,
      left by the first update that raises. */
  method UndoInventory(products: DBProductRepo, recorded: StockDict) returns (error: Option<string>)
    requires Valid(products.db.tables)
    modifies products.db
    ensures Valid(products.db.tables)
    ensures Restored(products.db.tables, error) == RestoreStock(old(products.db.tables), recorded)
  {
    ghost var t := products.db.tables;
    var i := 0;
    while i < |recorded|
      invariant 0 <= i <= |recorded|
      invariant Valid(products.db.tables)
      invariant Restored(products.db.tables, None) == RestoreStock(t, recorded[..i])
    {
      RestoreStep(t, recorded, i, products.db.tables);
      error := RestoreProduct(products, recorded[i].0, recorded[i].1);
      if error.Some? {
        return;
      }
      i := i + 1;
    }
    assert recorded[..|recorded|] == recorded;
    error := None;
  }

  /** `execute` through the repositories. */
  method Execute(orders: DBOrderRepo, products: DBProductRepo, c: Command, now: int)
    returns (c': Command, r: Result<Value>)
    requires orders.db == products.db && Valid(orders.db.tables)
    modifies orders.db
    ensures Valid(orders.db.tables)
    ensures Step(orders.db.tables, c', r) == Run(old(orders.db.tables), c, now)
  {
    match c
    case ValidateOrder(lines, customerId, _) =>
      r := ExecuteValidate(lines, customerId);
      c' := if r.Ok? then ValidateOrder(lines, customerId, true) else c;
    case CreateOrder(customerId, lines, amount, _) =>
      var id := orders.CreateOrder(customerId, now, "pending", amount, lines);
      c' := CreateOrder(customerId, lines, amount, Some(id));
      r := Ok(Created(id));
    case UpdateInventory(lines, recorded) =>
      var rec, error := ExecuteInventory(products, lines, recorded);
      c' := UpdateInventory(lines, rec);
      match error {
        case None => r := Ok(Done);
        case Some(m) => r := Err(m);
      }
    case ProcessPayment(orderId, amount, payMethod, _) =>
      var p := Payment.ProcessPayment(amount, payMethod, orderId);
      if p.success {
        c' := ProcessPayment(orderId, amount, payMethod, p.paymentId);
        r := Ok(Done);
      } else {
        c' := c;
        r := Err("Payment failed: " + OptionText(p.errorMessage));
      }
    case UpdateOrderStatus(orderId, status, _) =>
      var o := orders.GetById(orderId);
      match o {
        case None =>
          c' := c;
          r := Err(OrderNotFound(orderId));
        case Some(order) =>
          c' := UpdateOrderStatus(orderId, status, Some(order.status));
          var u := orders.UpdateOrder(order.(status := status));
          match u {
            case Ok(_) => r := Ok(Done);
            case Err(m) => r := Err(m);
          }
      }
  }

  /** `undo` through the repositories. */
  method UndoCommand(orders: DBOrderRepo, products: DBProductRepo, c: Command)
    returns (c': Command, error: Option<string>)
    requires orders.db == products.db && Valid(orders.db.tables)
    modifies orders.db
    ensures Valid(orders.db.tables)
    ensures Undone(orders.db.tables, c', error) == Undo(old(orders.db.tables), c)
  {
    match c
    case ValidateOrder(lines, customerId, _) =>
      c', error := ValidateOrder(lines, customerId, false), None;
    case CreateOrder(customerId, lines, amount, order) =>
      c', error := c, None;
      if order.Some? && order.value != 0 {
        var d := orders.DeleteOrder(order.value);
        match d {
          case Ok(_) => c' := CreateOrder(customerId, lines, amount, None);
          case Err(m) => error := Some(m);
        }
      }
    case UpdateInventory(_, recorded) =>
      error := UndoInventory(products, recorded);
      c' := c;
    case ProcessPayment(orderId, amount, payMethod, paymentId) =>
      c', error := c, None;
      if paymentId.Some? && paymentId.value != "" {
        var refunded := Payment.RefundPayment(paymentId.value);
        c' := ProcessPayment(orderId, amount, payMethod, None);
      }
    case UpdateOrderStatus(orderId, status, previous) =>
      c', error := c, None;
      if previous.Some? && previous.value != "" {
        var o := orders.GetById(orderId);
        match o {
          case None =>
          case Some(order) =>
            var u := orders.UpdateOrder(order.(status := previous.value));
            match u {
              case Ok(_) =>
              case Err(m) => error := Some(m);
            }
        }
      }
  }
}
