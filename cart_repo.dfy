/** The shopping-cart repository
    (emporia-api/repositories/database/db_cart_repo.py) over the
    `shopping_carts` and `cart_items` tables. Each statement the repository
    runs is a function on the tables; the methods run them in the source's
    order, commit by writing the tables back, and roll back by not writing. */
module CartRepo {
  import opened Common
  import opened Tables

  /** A line of a cart as the join with `products` returns it. */
  datatype CartLine = CartLine(productId: int, product: Product, quantity: int)

  /** The `ShoppingCart` the repository hands back. */
  datatype ShoppingCart = ShoppingCart(
    customerId: int, cartId: int, items: seq<CartLine>, totalPrice: real, totalItems: int)

  /** No two lines of `cart_items` name the same product in the same cart. */
  predicate LinesUnique(items: seq<CartItemRow>)
  {
    forall i, j :: 0 <= i < j < |items| ==>
      items[i].cartId != items[j].cartId || items[i].productId != items[j].productId
  }

  predicate IsLine(r: CartItemRow, cartId: int, productId: int)
  {
    r.cartId == cartId && r.productId == productId
  }

  /** `SELECT ... FROM cart_items WHERE cart_id = c AND product_id = p` with
      `fetchone`: the index of the first matching row. */
  function FindLine(items: seq<CartItemRow>, cartId: int, productId: int): (r: Option<nat>)
    ensures r.Some? ==> r.value < |items| && IsLine(items[r.value], cartId, productId)
    ensures r.Some? ==> forall k :: 0 <= k < r.value ==> !IsLine(items[k], cartId, productId)
    ensures r.None? ==> forall k :: 0 <= k < |items| ==> !IsLine(items[k], cartId, productId)
  {
    if items == [] then None
    else if IsLine(items[0], cartId, productId) then Some(0)
    else match FindLine(items[1..], cartId, productId)
      case None => None
      case Some(k) => Some(k + 1)
  }

  /** The join `cart_items JOIN products` for one cart, in row order; a line
      whose product is gone has no partner and is dropped. */
  function JoinLines(items: seq<CartItemRow>, products: map<int, Product>, cartId: int): seq<CartLine>
  {
    if items == [] then []
    else
      var rest := JoinLines(items[..|items| - 1], products, cartId);
      var r := items[|items| - 1];
      if r.cartId == cartId && r.productId in products then
        rest + [CartLine(r.productId, products[r.productId], r.quantity)]
      else rest
  }

  lemma {:induction false} JoinLinesMembers(items: seq<CartItemRow>, products: map<int, Product>,
                                           cartId: int, l: CartLine)
    ensures l in JoinLines(items, products, cartId) <==>
              CartItemRow(cartId, l.productId, l.quantity) in items &&
              l.productId in products && l.product == products[l.productId]
    decreases |items|
  {
    if items != [] {
      var init := items[..|items| - 1];
      JoinLinesMembers(init, products, cartId, l);
      assert items == init + [items[|items| - 1]];
    }
  }

  /** `total_price`: the running sum of price × quantity the loop keeps. */
  function Total(lines: seq<CartLine>): real
  {
    if lines == [] then 0.0
    else
      var l := lines[|lines| - 1];
      Total(lines[..|lines| - 1]) + l.product.price * l.quantity as real
  }

  /** The same sum taken from the front, as a reference. */
  function Sum(lines: seq<CartLine>): real
  {
    if lines == [] then 0.0
    else lines[0].product.price * lines[0].quantity as real + Sum(lines[1..])
  }

  lemma {:induction false} TotalAppend(a: seq<CartLine>, b: seq<CartLine>)
    ensures Total(a + b) == Total(a) + Total(b)
    decreases |b|
  {
    if b == [] {
      assert a + b == a;
    } else {
      var b' := b[..|b| - 1];
      TotalAppend(a, b');
      assert (a + b)[..|a + b| - 1] == a + b';
    }
  }

  /** The loop's total is the sum over the lines in any grouping. */
  lemma {:induction false} TotalIsSum(lines: seq<CartLine>)
    ensures Total(lines) == Sum(lines)
    decreases |lines|
  {
    if lines != [] {
      TotalIsSum(lines[1..]);
      TotalAppend([lines[0]], lines[1..]);
      assert [lines[0]] + lines[1..] == lines;
      assert [lines[0]][..0] == [];
    }
  }

  /** With non-negative prices and quantities the total is non-negative. */
  lemma {:induction false} TotalNonNegative(lines: seq<CartLine>)
    requires forall k :: 0 <= k < |lines| ==> lines[k].product.price >= 0.0 && lines[k].quantity >= 0
    ensures Total(lines) >= 0.0
    decreases |lines|
  {
    if lines != [] {
      TotalNonNegative(lines[..|lines| - 1]);
      var l := lines[|lines| - 1];
      assert l.product.price * l.quantity as real >= 0.0;
    }
  }

  /** The cart `get_cart` builds for a cart that belongs to `customerId`. */
  function CartOf(t: Tables, cartId: int, customerId: int): ShoppingCart
  {
    var lines := JoinLines(t.cartItems, t.products, cartId);
    ShoppingCart(customerId, cartId, lines, Total(lines), |lines|)
  }

  /** `get_cart(cart_id, customer_id)`: nothing for a missing cart or a cart
      of another customer. */
  function CartView(t: Tables, cartId: int, customerId: int): (r: Option<ShoppingCart>)
    ensures r.Some? <==> cartId in t.carts && t.carts[cartId] == customerId
  {
    if cartId in t.carts && t.carts[cartId] == customerId then Some(CartOf(t, cartId, customerId))
    else None
  }

  /** `total_items` counts lines, not units: one line of three units is one
      item. */
  lemma TotalItemsCountsLines(t: Tables, cartId: int, customerId: int, p: Product)
    requires cartId in t.carts && t.carts[cartId] == customerId
    requires t.cartItems == [CartItemRow(cartId, 7, 3)] && t.products == map[7 := p]
    ensures CartView(t, cartId, customerId).value.totalItems == 1
    ensures CartView(t, cartId, customerId).value.totalPrice == 3.0 * p.price
  {
    assert t.cartItems[..0] == [];
    assert JoinLines(t.cartItems, t.products, cartId) == [CartLine(7, p, 3)];
    assert [CartLine(7, p, 3)][..0] == [];
    assert Total([CartLine(7, p, 3)]) == Total([]) + p.price * 3.0;
  }

  /** `SELECT id FROM shopping_carts WHERE customer_id = c` with `fetchone`:
      the customer's cart with the smallest id in `[lo, hi)`. */
  function FirstCart(carts: map<int, int>, customerId: int, lo: int, hi: int): (r: Option<int>)
    ensures r.Some? ==> lo <= r.value < hi && r.value in carts && carts[r.value] == customerId
    ensures r.Some? ==> forall k :: lo <= k < r.value && k in carts ==> carts[k] != customerId
    ensures r.None? ==> forall k :: lo <= k < hi && k in carts ==> carts[k] != customerId
    decreases hi - lo
  {
    if hi <= lo then None
    else if lo in carts && carts[lo] == customerId then Some(lo)
    else FirstCart(carts, customerId, lo + 1, hi)
  }

  function CartOfCustomer(t: Tables, customerId: int): Option<int>
  {
    FirstCart(t.carts, customerId, 1, t.nextCartId)
  }

  /** What `create_cart` does to the tables and which cart it answers with:
      the customer's existing cart, or a new one with the next id. */
  function WithCart(t: Tables, customerId: int): (int, Tables)
  {
    match CartOfCustomer(t, customerId)
    case Some(id) => (id, t)
    case None => (t.nextCartId, t.(carts := t.carts[t.nextCartId := customerId], nextCartId := t.nextCartId + 1))
  }

  /** `create_cart` is idempotent: the second call finds the cart the first
      one returned and changes nothing; and it keeps the tables valid. */
  lemma CreateCartIdempotent(t: Tables, customerId: int)
    requires Valid(t)
    ensures var (id, u) := WithCart(t, customerId);
            Valid(u) && id in u.carts && u.carts[id] == customerId &&
            WithCart(u, customerId) == (id, u)
  {
    var (id, u) := WithCart(t, customerId);
    if CartOfCustomer(t, customerId).None? {
      assert 1 <= id < u.nextCartId && id in u.carts && u.carts[id] == customerId;
      assert forall k :: 1 <= k < id && k in u.carts ==> u.carts[k] != customerId;
    }
  }

  /** `UPDATE cart_items SET quantity = q WHERE cart_id = c AND
      product_id = p`. */
  function SetQuantity(items: seq<CartItemRow>, cartId: int, productId: int, q: int): (r: seq<CartItemRow>)
    ensures |r| == |items|
    ensures forall k :: 0 <= k < |items| ==>
              r[k] == if IsLine(items[k], cartId, productId) then items[k].(quantity := q) else items[k]
  {
    seq(|items|, k requires 0 <= k < |items| =>
          if IsLine(items[k], cartId, productId) then items[k].(quantity := q) else items[k])
  }

  /** `DELETE FROM cart_items WHERE cart_id = c AND product_id = p`. */
  function WithoutLine(items: seq<CartItemRow>, cartId: int, productId: int): seq<CartItemRow>
  {
    if items == [] then []
    else (if IsLine(items[0], cartId, productId) then [] else [items[0]]) + WithoutLine(items[1..], cartId, productId)
  }

  /** `DELETE FROM cart_items WHERE cart_id = c`. */
  function WithoutCart(items: seq<CartItemRow>, cartId: int): seq<CartItemRow>
  {
    if items == [] then []
    else (if items[0].cartId == cartId then [] else [items[0]]) + WithoutCart(items[1..], cartId)
  }

  /** Removing a line deletes exactly the matching rows and keeps the rest
      in order. */
  lemma {:induction false} WithoutLineSpec(items: seq<CartItemRow>, cartId: int, productId: int)
    ensures forall r :: r in WithoutLine(items, cartId, productId) <==> r in items && !IsLine(r, cartId, productId)
    ensures LinesUnique(items) ==> LinesUnique(WithoutLine(items, cartId, productId))
    decreases |items|
  {
    if items != [] {
      WithoutLineSpec(items[1..], cartId, productId);
      var rest := WithoutLine(items[1..], cartId, productId);
      if LinesUnique(items) {
        assert LinesUnique(items[1..]) by {
          forall i, j | 0 <= i < j < |items[1..]|
            ensures items[1..][i].cartId != items[1..][j].cartId || items[1..][i].productId != items[1..][j].productId
          {
            assert items[1..][i] == items[i + 1] && items[1..][j] == items[j + 1];
          }
        }
        forall k | 0 <= k < |rest| ensures !IsLine(rest[k], items[0].cartId, items[0].productId) {
          assert rest[k] in rest;
          var j :| 0 <= j < |items[1..]| && items[1..][j] == rest[k];
          assert items[j + 1] == rest[k];
        }
      }
    }
  }

  /** Clearing a cart deletes every row of that cart and no other. */
  lemma {:induction false} WithoutCartSpec(items: seq<CartItemRow>, cartId: int)
    ensures forall r :: r in WithoutCart(items, cartId) <==> r in items && r.cartId != cartId
    ensures LinesUnique(items) ==> LinesUnique(WithoutCart(items, cartId))
    decreases |items|
  {
    if items != [] {
      WithoutCartSpec(items[1..], cartId);
      var rest := WithoutCart(items[1..], cartId);
      if LinesUnique(items) {
        assert LinesUnique(items[1..]) by {
          forall i, j | 0 <= i < j < |items[1..]|
            ensures items[1..][i].cartId != items[1..][j].cartId || items[1..][i].productId != items[1..][j].productId
          {
            assert items[1..][i] == items[i + 1] && items[1..][j] == items[j + 1];
          }
        }
        forall k | 0 <= k < |rest| ensures !IsLine(rest[k], items[0].cartId, items[0].productId) {
          assert rest[k] in rest;
          var j :| 0 <= j < |items[1..]| && items[1..][j] == rest[k];
          assert items[j + 1] == rest[k];
        }
      }
    }
  }

  /** Setting a quantity keeps the set of (cart, product) pairs, so lines
      stay unique. */
  lemma SetQuantityUnique(items: seq<CartItemRow>, cartId: int, productId: int, q: int)
    requires LinesUnique(items)
    ensures LinesUnique(SetQuantity(items, cartId, productId, q))
  {
    var r := SetQuantity(items, cartId, productId, q);
    forall i, j | 0 <= i < j < |r| ensures r[i].cartId != r[j].cartId || r[i].productId != r[j].productId {
      assert r[i].cartId == items[i].cartId && r[i].productId == items[i].productId;
      assert r[j].cartId == items[j].cartId && r[j].productId == items[j].productId;
    }
  }

  function ItemNotFound(productId: int): string
  {
    "Item with product ID " + IntToString(productId) + " not found in cart"
  }

  function InsufficientStock(productId: int): string
  {
    "Insufficient stock for product ID " + IntToString(productId)
  }

  function CartNotFound(cartId: int): string
  {
    "Cart with ID " + IntToString(cartId) + " not found"
  }

  /** The statements of `update_item` up to the commit: the line must exist
      and the product's stock must cover the new quantity. A product deleted
      after it was put in the cart leaves `product_data` as `None`, which the
      stock check then indexes. */
  function UpdateItemTables(t: Tables, cartId: int, productId: int, q: int): (r: Result<Tables>)
    ensures r.Ok? <==>
              FindLine(t.cartItems, cartId, productId).Some? && productId in t.products &&
              t.products[productId].stock >= q
    ensures r.Ok? ==> r.value == t.(cartItems := SetQuantity(t.cartItems, cartId, productId, q))
  {
    if FindLine(t.cartItems, cartId, productId).None? then Err(ItemNotFound(productId))
    else if productId !in t.products then Err("'NoneType' object is not subscriptable")
    else if t.products[productId].stock < q then Err(InsufficientStock(productId))
    else Ok(t.(cartItems := SetQuantity(t.cartItems, cartId, productId, q)))
  }

  /** The statements of `add_item` for a product not yet in the cart: the
      product must exist with enough stock; then one row is appended. */
  function InsertItemTables(t: Tables, cartId: int, productId: int, q: int): (r: Result<Tables>)
    ensures r.Ok? <==> productId in t.products && t.products[productId].stock >= q
    ensures r.Ok? ==> r.value == t.(cartItems := t.cartItems + [CartItemRow(cartId, productId, q)])
  {
    if productId !in t.products then Err("Product with ID " + IntToString(productId) + " not found")
    else if t.products[productId].stock < q then Err(InsufficientStock(productId))
    else Ok(t.(cartItems := t.cartItems + [CartItemRow(cartId, productId, q)]))
  }

  /** Appending a line for a pair the cart does not hold keeps lines
      unique. */
  lemma InsertKeepsUnique(items: seq<CartItemRow>, cartId: int, productId: int, q: int)
    requires LinesUnique(items) && FindLine(items, cartId, productId).None?
    ensures LinesUnique(items + [CartItemRow(cartId, productId, q)])
  {
  }

  /** Only the cart tables change, so the tables stay valid. */
  lemma CartItemsValid(t: Tables, items: seq<CartItemRow>)
    requires Valid(t)
    ensures Valid(t.(cartItems := items))
  {
  }

  function EmptyCart(customerId: int, cartId: int): ShoppingCart
  {
    ShoppingCart(customerId, cartId, [], 0.0, 0)
  }

  /** The statements of `add_item` up to the commit: an existing line takes
      the old quantity plus the added one under `update_item`'s checks; a new
      line is inserted. */
  function AddItemTables(t: Tables, cartId: int, productId: int, q: int): Result<Tables>
  {
    match FindLine(t.cartItems, cartId, productId)
    case Some(i) => UpdateItemTables(t, cartId, productId, t.cartItems[i].quantity + q)
    case None => InsertItemTables(t, cartId, productId, q)
  }

  /** The message of a failed `add_item`: through `update_item` it is
      wrapped twice. */
  function AddFailure(existing: bool, m: string): string
  {
    AddWrapped(if existing then UpdateFailure(m) else m)
  }

  /** The wrapper `add_item` puts around a message. */
  function AddWrapped(m: string): string
  {
    "Failed to add item to cart: " + m
  }

  /** The wrapper `update_item` puts around a message. */
  function UpdateFailure(m: string): string
  {
    "Failed to update cart item: " + m
  }

  /** Adding to a line already in the cart sets its quantity to the sum and
      checks stock against the sum; adding a new product appends exactly one
      row. Both keep lines unique. */
  lemma AddItemSpec(t: Tables, cartId: int, productId: int, q: int)
    requires LinesUnique(t.cartItems)
    ensures var line := FindLine(t.cartItems, cartId, productId);
            line.Some? ==>
              var sum := t.cartItems[line.value].quantity + q;
              (AddItemTables(t, cartId, productId, q).Ok? <==> productId in t.products && t.products[productId].stock >= sum) &&
              (AddItemTables(t, cartId, productId, q).Ok? ==>
                 AddItemTables(t, cartId, productId, q).value.cartItems == SetQuantity(t.cartItems, cartId, productId, sum))
    ensures FindLine(t.cartItems, cartId, productId).None? && AddItemTables(t, cartId, productId, q).Ok? ==>
              AddItemTables(t, cartId, productId, q).value.cartItems == t.cartItems + [CartItemRow(cartId, productId, q)]
    ensures AddItemTables(t, cartId, productId, q).Ok? ==> LinesUnique(AddItemTables(t, cartId, productId, q).value.cartItems)
  {
    match FindLine(t.cartItems, cartId, productId)
    case Some(i) =>
      SetQuantityUnique(t.cartItems, cartId, productId, t.cartItems[i].quantity + q);
    case None =>
      InsertKeepsUnique(t.cartItems, cartId, productId, q);
  }

  class DBCartRepo {
    const db: Database

    constructor (db: Database)
      ensures this.db == db
    {
      this.db := db;
    }

    /** `get_cart(cart_id, customer_id)`: the join, then the loop that
        collects the lines and sums price × quantity. */
    method GetCart(cartId: int, customerId: int) returns (r: Option<ShoppingCart>)
      ensures r == CartView(db.tables, cartId, customerId)
    {
      var t := db.tables;
      if !(cartId in t.carts && t.carts[cartId] == customerId) {
        return None;
      }
      var rows := JoinLines(t.cartItems, t.products, cartId);
      var items: seq<CartLine> := [];
      var total := 0.0;
      var i := 0;
      while i < |rows|
        invariant 0 <= i <= |rows|
        invariant items == rows[..i]
        invariant total == Total(rows[..i])
      {
        var line := rows[i];
        items := items + [line];
        total := total + line.product.price * line.quantity as real;
        assert rows[..i + 1][..i] == rows[..i];
        i := i + 1;
      }
      assert rows[..|rows|] == rows;
      r := Some(ShoppingCart(customerId, cartId, items, total, |items|));
    }

    /** `create_cart(customer_id)`. */
    method CreateCart(customerId: int) returns (r: ShoppingCart)
      requires Valid(db.tables)
      modifies db
      ensures Valid(db.tables)
      ensures db.tables == WithCart(old(db.tables), customerId).1
      ensures CartOfCustomer(old(db.tables), customerId).Some? ==>
                r == CartOf(old(db.tables), CartOfCustomer(old(db.tables), customerId).value, customerId)
      ensures CartOfCustomer(old(db.tables), customerId).None? ==>
                r == EmptyCart(customerId, old(db.tables.nextCartId))
    {
      CreateCartIdempotent(db.tables, customerId);
      var existing := CartOfCustomer(db.tables, customerId);
      if existing.Some? {
        var c := GetCart(existing.value, customerId);
        return c.value;
      }
      var t := db.tables;
      var id := t.nextCartId;
      db.tables := t.(carts := t.carts[id := customerId], nextCartId := id + 1);
      r := EmptyCart(customerId, id);
    }

    /** `_get_customer_id_for_cart` followed by `get_cart` of that
        customer, as every write ends. */
    method CartAfterWrite(cartId: int) returns (r: Result<ShoppingCart>)
      ensures cartId !in db.tables.carts ==> r == Err(CartNotFound(cartId))
      ensures cartId in db.tables.carts ==> r == Ok(CartOf(db.tables, cartId, db.tables.carts[cartId]))
    {
      if cartId !in db.tables.carts {
        return Err(CartNotFound(cartId));
      }
      var c := GetCart(cartId, db.tables.carts[cartId]);
      r := Ok(c.value);
    }

    /** `update_item(cart_id, product_id, quantity)`. The write is
        committed before the cart's customer is looked up, so a missing cart
        fails after the change is made. */
    method UpdateItem(cartId: int, productId: int, q: int) returns (r: Result<ShoppingCart>)
      requires Valid(db.tables)
      modifies db
      ensures Valid(db.tables)
      ensures LinesUnique(old(db.tables.cartItems)) ==> LinesUnique(db.tables.cartItems)
      ensures var u := UpdateItemTables(old(db.tables), cartId, productId, q);
              if u.Err? then r == Err(UpdateFailure(u.msg)) && db.tables == old(db.tables)
              else
                db.tables == u.value &&
                if cartId in u.value.carts then r == Ok(CartOf(u.value, cartId, u.value.carts[cartId]))
                else r == Err(UpdateFailure(CartNotFound(cartId)))
    {
      var u := UpdateItemTables(db.tables, cartId, productId, q);
      if u.Err? {
        return Err(UpdateFailure(u.msg));
      }
      if LinesUnique(db.tables.cartItems) {
        SetQuantityUnique(db.tables.cartItems, cartId, productId, q);
      }
      CartItemsValid(db.tables, u.value.cartItems);
      db.tables := u.value;
      r := CartAfterWrite(cartId);
      if r.Err? {
        r := Err(UpdateFailure(r.msg));
      }
    }

    /** `add_item(cart_id, product_id, quantity)`: a product already in the
        cart goes through `update_item` with the old quantity plus the new
        one, so its stock check is against that sum. */
    method AddItem(cartId: int, productId: int, q: int) returns (r: Result<ShoppingCart>)
      requires Valid(db.tables)
      modifies db
      ensures Valid(db.tables)
      ensures LinesUnique(old(db.tables.cartItems)) ==> LinesUnique(db.tables.cartItems)
      ensures var u := AddItemTables(old(db.tables), cartId, productId, q);
              var existing := FindLine(old(db.tables.cartItems), cartId, productId).Some?;
              if u.Err? then r == Err(AddFailure(existing, u.msg)) && db.tables == old(db.tables)
              else
                db.tables == u.value &&
                if cartId in u.value.carts then r == Ok(CartOf(u.value, cartId, u.value.carts[cartId]))
                else r == Err(AddFailure(existing, CartNotFound(cartId)))
    {
      var line := FindLine(db.tables.cartItems, cartId, productId);
      if line.Some? {
        r := AddToLine(cartId, productId, q, line.value);
      } else {
        r := AddNewLine(cartId, productId, q);
      }
    }

    /** `add_item` for a product the cart already holds at line `i`. */
    method AddToLine(cartId: int, productId: int, q: int, i: nat) returns (r: Result<ShoppingCart>)
      requires Valid(db.tables) && FindLine(db.tables.cartItems, cartId, productId) == Some(i)
      modifies db
      ensures Valid(db.tables)
      ensures LinesUnique(old(db.tables.cartItems)) ==> LinesUnique(db.tables.cartItems)
      ensures var u := AddItemTables(old(db.tables), cartId, productId, q);
              if u.Err? then r == Err(AddFailure(true, u.msg)) && db.tables == old(db.tables)
              else
                db.tables == u.value &&
                if cartId in u.value.carts then r == Ok(CartOf(u.value, cartId, u.value.carts[cartId]))
                else r == Err(AddFailure(true, CartNotFound(cartId)))
    {
      ghost var u := UpdateItemTables(db.tables, cartId, productId, db.tables.cartItems[i].quantity + q);
      assert u == AddItemTables(db.tables, cartId, productId, q);
      r := UpdateItem(cartId, productId, db.tables.cartItems[i].quantity + q);
      if r.Err? {
        ghost var m := if u.Err? then u.msg else CartNotFound(cartId);
        assert r.msg == UpdateFailure(m);
        r := Err(AddWrapped(r.msg));
      }
    }

    /** `add_item` for a product the cart does not hold yet. */
    method AddNewLine(cartId: int, productId: int, q: int) returns (r: Result<ShoppingCart>)
      requires Valid(db.tables) && FindLine(db.tables.cartItems, cartId, productId).None?
      modifies db
      ensures Valid(db.tables)
      ensures LinesUnique(old(db.tables.cartItems)) ==> LinesUnique(db.tables.cartItems)
      ensures var u := AddItemTables(old(db.tables), cartId, productId, q);
              if u.Err? then r == Err(AddFailure(false, u.msg)) && db.tables == old(db.tables)
              else
                db.tables == u.value &&
                if cartId in u.value.carts then r == Ok(CartOf(u.value, cartId, u.value.carts[cartId]))
                else r == Err(AddFailure(false, CartNotFound(cartId)))
    {
      var u := InsertItemTables(db.tables, cartId, productId, q);
      assert u == AddItemTables(db.tables, cartId, productId, q);
      if u.Err? {
        return Err(AddWrapped(u.msg));
      }
      if LinesUnique(db.tables.cartItems) {
        InsertKeepsUnique(db.tables.cartItems, cartId, productId, q);
      }
      CartItemsValid(db.tables, u.value.cartItems);
      db.tables := u.value;
      r := CartAfterWrite(cartId);
      if r.Err? {
        r := Err(AddWrapped(r.msg));
      }
    }

    /** `remove_item(cart_id, product_id)`. */
    method RemoveItem(cartId: int, productId: int) returns (r: Result<ShoppingCart>)
      requires Valid(db.tables)
      modifies db
      ensures Valid(db.tables)
      ensures LinesUnique(old(db.tables.cartItems)) ==> LinesUnique(db.tables.cartItems)
      ensures FindLine(old(db.tables.cartItems), cartId, productId).None? ==>
                r == Err("Failed to remove item from cart: " + ItemNotFound(productId)) &&
                db.tables == old(db.tables)
      ensures FindLine(old(db.tables.cartItems), cartId, productId).Some? ==>
                db.tables == old(db.tables).(cartItems := WithoutLine(old(db.tables.cartItems), cartId, productId)) &&
                if cartId in db.tables.carts then r == Ok(CartOf(db.tables, cartId, db.tables.carts[cartId]))
                else r == Err("Failed to remove item from cart: " + CartNotFound(cartId))
    {
      if FindLine(db.tables.cartItems, cartId, productId).None? {
        return Err("Failed to remove item from cart: " + ItemNotFound(productId));
      }
      WithoutLineSpec(db.tables.cartItems, cartId, productId);
      var items := WithoutLine(db.tables.cartItems, cartId, productId);
      CartItemsValid(db.tables, items);
      db.tables := db.tables.(cartItems := items);
      r := CartAfterWrite(cartId);
      if r.Err? {
        r := Err("Failed to remove item from cart: " + r.msg);
      }
    }

    /** `clear_cart(cart_id)`: the answer is an empty cart, not a fresh
        read. */
    method ClearCart(cartId: int) returns (r: Result<ShoppingCart>)
      requires Valid(db.tables)
      modifies db
      ensures Valid(db.tables)
      ensures LinesUnique(old(db.tables.cartItems)) ==> LinesUnique(db.tables.cartItems)
      ensures db.tables == old(db.tables).(cartItems := WithoutCart(old(db.tables.cartItems), cartId))
      ensures cartId in db.tables.carts ==> r == Ok(EmptyCart(db.tables.carts[cartId], cartId))
      ensures cartId !in db.tables.carts ==> r == Err("Failed to clear cart: " + CartNotFound(cartId))
    {
      WithoutCartSpec(db.tables.cartItems, cartId);
      var items := WithoutCart(db.tables.cartItems, cartId);
      CartItemsValid(db.tables, items);
      db.tables := db.tables.(cartItems := items);
      if cartId !in db.tables.carts {
        return Err("Failed to clear cart: " + CartNotFound(cartId));
      }
      r := Ok(EmptyCart(db.tables.carts[cartId], cartId));
    }
  }
}
