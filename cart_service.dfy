/** The cart service (emporia-api/services/cart_services.py): ownership and
    argument checks in front of the cart repository, and the "Failed to ..."
    wrapping of every failure. A customer id of 0 stands for Python's
    `None`; both are falsy. */
module CartService {
  import opened Common
  import opened Tables
  import opened ProductRepo
  import opened CartRepo

  function NotCustomers(cartId: int): string
  {
    "Cart with ID " + IntToString(cartId) + " not found for customer"
  }

  /** True when the cart exists and belongs to the customer, which is what
      the service asks `get_cart` before every change. */
  predicate Owns(t: Tables, cartId: int, customerId: int)
  {
    cartId in t.carts && t.carts[cartId] == customerId
  }

  class CartServiceImpl {
    const carts: DBCartRepo
    const products: DBProductRepo

    /** Both repositories work on the same connection. */
    constructor (carts: DBCartRepo, products: DBProductRepo)
      requires carts.db == products.db
      ensures this.carts == carts && this.products == products
    {
      this.carts := carts;
      this.products := products;
    }

    /** `get_cart(cart_id, customer_id)`: a falsy cart id (absent or 0)
        means the customer's cart, created when there is none. */
    method GetCart(cartId: Option<int>, customerId: int) returns (r: Option<ShoppingCart>)
      requires Valid(carts.db.tables)
      modifies carts.db
      ensures Valid(carts.db.tables)
      ensures cartId.None? || cartId.value == 0 ==>
                carts.db.tables == WithCart(old(carts.db.tables), customerId).1 && r.Some? &&
                r.value.cartId == WithCart(old(carts.db.tables), customerId).0 &&
                r.value.customerId == customerId
      ensures (cartId.None? || cartId.value == 0) && CartOfCustomer(old(carts.db.tables), customerId).Some? ==>
                r == Some(CartOf(old(carts.db.tables), CartOfCustomer(old(carts.db.tables), customerId).value, customerId))
      ensures (cartId.None? || cartId.value == 0) && CartOfCustomer(old(carts.db.tables), customerId).None? ==>
                r == Some(EmptyCart(customerId, old(carts.db.tables.nextCartId)))
      ensures cartId.Some? && cartId.value != 0 ==>
                r == CartView(old(carts.db.tables), cartId.value, customerId) &&
                carts.db.tables == old(carts.db.tables)
    {
      if cartId.None? || cartId.value == 0 {
        var c := GetOrCreateCart(customerId);
        return Some(c);
      }
      r := carts.GetCart(cartId.value, customerId);
    }

    /** `get_or_create_cart(customer_id)`. */
    method GetOrCreateCart(customerId: int) returns (r: ShoppingCart)
      requires Valid(carts.db.tables)
      modifies carts.db
      ensures Valid(carts.db.tables)
      ensures carts.db.tables == WithCart(old(carts.db.tables), customerId).1
      ensures r.cartId == WithCart(old(carts.db.tables), customerId).0 && r.customerId == customerId
      ensures r.cartId in carts.db.tables.carts && carts.db.tables.carts[r.cartId] == customerId
      ensures CartOfCustomer(old(carts.db.tables), customerId).Some? ==>
                r == CartOf(old(carts.db.tables), CartOfCustomer(old(carts.db.tables), customerId).value, customerId)
      ensures CartOfCustomer(old(carts.db.tables), customerId).None? ==>
                r == EmptyCart(customerId, old(carts.db.tables.nextCartId))
    {
      CreateCartIdempotent(carts.db.tables, customerId);
      r := carts.CreateCart(customerId);
    }

    /** `add_item`: the cart must be the customer's, then the product must
        exist, then the quantity must be positive; the first failing check
        decides the message and nothing is written. */
    method AddItem(cartId: int, productId: int, q: int, customerId: int) returns (r: Result<ShoppingCart>)
      requires Valid(carts.db.tables) && carts.db == products.db
      modifies carts.db
      ensures Valid(carts.db.tables)
      ensures LinesUnique(old(carts.db.tables.cartItems)) ==> LinesUnique(carts.db.tables.cartItems)
      ensures var t := old(carts.db.tables);
              if !Owns(t, cartId, customerId) then
                r == Err("Failed to add item to cart: " + NotCustomers(cartId)) && carts.db.tables == t
              else if productId !in t.products then
                r == Err("Failed to add item to cart: " + ProductNotFound(productId)) && carts.db.tables == t
              else if q <= 0 then
                r == Err("Failed to add item to cart: Quantity must be greater than zero") && carts.db.tables == t
              else
                var u := AddItemTables(t, cartId, productId, q);
                if u.Err? then
                  r == Err("Failed to add item to cart: "
                           + AddFailure(FindLine(t.cartItems, cartId, productId).Some?, u.msg)) &&
                  carts.db.tables == t
                else r == Ok(CartOf(u.value, cartId, customerId)) && carts.db.tables == u.value
    {
      var cart := carts.GetCart(cartId, customerId);
      if cart.None? {
        return Err("Failed to add item to cart: " + NotCustomers(cartId));
      }
      var product := products.GetById(productId);
      if product.None? {
        return Err("Failed to add item to cart: " + ProductNotFound(productId));
      }
      if q <= 0 {
        return Err("Failed to add item to cart: Quantity must be greater than zero");
      }
      r := carts.AddItem(cartId, productId, q);
      if r.Err? {
        r := Err("Failed to add item to cart: " + r.msg);
      }
    }

    /** `update_item`: a quantity of zero or less removes the line. */
    method UpdateItem(cartId: int, productId: int, q: int, customerId: int) returns (r: Result<ShoppingCart>)
      requires Valid(carts.db.tables)
      modifies carts.db
      ensures Valid(carts.db.tables)
      ensures LinesUnique(old(carts.db.tables.cartItems)) ==> LinesUnique(carts.db.tables.cartItems)
      ensures var t := old(carts.db.tables);
              if !Owns(t, cartId, customerId) then
                r == Err("Failed to update cart item: " + NotCustomers(cartId)) && carts.db.tables == t
              else if q <= 0 then
                if FindLine(t.cartItems, cartId, productId).None? then
                  r == Err("Failed to update cart item: " + ("Failed to remove item from cart: " + ItemNotFound(productId))) &&
                  carts.db.tables == t
                else
                  var u := t.(cartItems := WithoutLine(t.cartItems, cartId, productId));
                  r == Ok(CartOf(u, cartId, customerId)) && carts.db.tables == u
              else
                var u := UpdateItemTables(t, cartId, productId, q);
                if u.Err? then
                  r == Err("Failed to update cart item: " + ("Failed to update cart item: " + u.msg)) &&
                  carts.db.tables == t
                else r == Ok(CartOf(u.value, cartId, customerId)) && carts.db.tables == u.value
    {
      var cart := carts.GetCart(cartId, customerId);
      if cart.None? {
        return Err("Failed to update cart item: " + NotCustomers(cartId));
      }
      if q <= 0 {
        r := carts.RemoveItem(cartId, productId);
      } else {
        r := carts.UpdateItem(cartId, productId, q);
      }
      if r.Err? {
        r := Err("Failed to update cart item: " + r.msg);
      }
    }

    /** `remove_item`: only the owner's cart. */
    method RemoveItem(cartId: int, productId: int, customerId: int) returns (r: Result<ShoppingCart>)
      requires Valid(carts.db.tables)
      modifies carts.db
      ensures Valid(carts.db.tables)
      ensures LinesUnique(old(carts.db.tables.cartItems)) ==> LinesUnique(carts.db.tables.cartItems)
      ensures var t := old(carts.db.tables);
              if !Owns(t, cartId, customerId) then
                r == Err("Failed to remove item from cart: " + NotCustomers(cartId)) && carts.db.tables == t
              else if FindLine(t.cartItems, cartId, productId).None? then
                r == Err("Failed to remove item from cart: " + ("Failed to remove item from cart: " + ItemNotFound(productId))) &&
                carts.db.tables == t
              else
                var u := t.(cartItems := WithoutLine(t.cartItems, cartId, productId));
                r == Ok(CartOf(u, cartId, customerId)) && carts.db.tables == u
    {
      var cart := carts.GetCart(cartId, customerId);
      if cart.None? {
        return Err("Failed to remove item from cart: " + NotCustomers(cartId));
      }
      r := carts.RemoveItem(cartId, productId);
      if r.Err? {
        r := Err("Failed to remove item from cart: " + r.msg);
      }
    }

    /** `clear_cart(cart_id, customer_id=None)`: ownership is checked only
        for a truthy customer id; without one any cart can be cleared. */
    method ClearCart(cartId: int, customerId: int) returns (r: Result<ShoppingCart>)
      requires Valid(carts.db.tables)
      modifies carts.db
      ensures Valid(carts.db.tables)
      ensures LinesUnique(old(carts.db.tables.cartItems)) ==> LinesUnique(carts.db.tables.cartItems)
      ensures var t := old(carts.db.tables);
              if customerId != 0 && !Owns(t, cartId, customerId) then
                r == Err("Failed to clear cart: " + NotCustomers(cartId)) && carts.db.tables == t
              else
                carts.db.tables == t.(cartItems := WithoutCart(t.cartItems, cartId)) &&
                if cartId in t.carts then r == Ok(EmptyCart(t.carts[cartId], cartId))
                else r == Err("Failed to clear cart: " + ("Failed to clear cart: " + CartNotFound(cartId)))
    {
      if customerId != 0 {
        var cart := carts.GetCart(cartId, customerId);
        if cart.None? {
          return Err("Failed to clear cart: " + NotCustomers(cartId));
        }
      }
      r := carts.ClearCart(cartId);
      if r.Err? {
        r := Err("Failed to clear cart: " + r.msg);
      }
    }
  }
}
