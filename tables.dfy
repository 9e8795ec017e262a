/** The MySQL tables behind the API repositories, as one value. Tables whose
    rows have an `AUTO_INCREMENT` id are maps from that id, with the next id
    the counter would hand out; the two tables of line items, which are only
    ever searched by column, are lists of rows in insertion order.
    A rolled-back transaction is a value that is not written back. */
module Tables {
  import opened Common

  /** A row of `products` (the id is the key). */
  datatype Product = Product(
    sellerId: int, categoryId: int, name: string, description: string,
    image: string, price: real, stock: int)

  /** A row of `categories`. */
  datatype Category = Category(name: string, description: string)

  /** A row of `orders`; `date` is the order time as a number, so that
      `ORDER BY order_date` compares numbers. */
  datatype OrderRow = OrderRow(customerId: int, date: int, status: string, amount: real)

  /** A row of `order_items`: the price is the product's price when the order
      was placed. */
  datatype OrderItemRow = OrderItemRow(orderId: int, productId: int, quantity: int, price: real)

  /** A row of `cart_items`. */
  datatype CartItemRow = CartItemRow(cartId: int, productId: int, quantity: int)

  datatype Tables = Tables(
    sellers: set<int>,
    categories: map<int, Category>, nextCategoryId: int,
    products: map<int, Product>, nextProductId: int,
    carts: map<int, int>, nextCartId: int,
    cartItems: seq<CartItemRow>,
    orders: map<int, OrderRow>, nextOrderId: int,
    orderItems: seq<OrderItemRow>)

  /** Ids below their counter, counters from 1, no order item pointing at an
      id the order counter has not handed out yet, and the two foreign keys of
      `products` (seller and category) satisfied. `carts` maps a cart id to
      its customer id. */
  predicate Valid(t: Tables)
  {
    && 1 <= t.nextCategoryId && 1 <= t.nextProductId && 1 <= t.nextCartId && 1 <= t.nextOrderId
    && (forall k :: k in t.categories ==> 1 <= k < t.nextCategoryId)
    && (forall k :: k in t.products ==> 1 <= k < t.nextProductId)
    && (forall k :: k in t.carts ==> 1 <= k < t.nextCartId)
    && (forall k :: k in t.orders ==> 1 <= k < t.nextOrderId)
    && (forall i :: 0 <= i < |t.orderItems| ==> t.orderItems[i].orderId < t.nextOrderId)
    && (forall k :: k in t.products ==>
          t.products[k].sellerId in t.sellers && t.products[k].categoryId in t.categories)
  }

  /** The connection the repositories share. */
  class Database {
    var tables: Tables

    constructor (t: Tables)
      requires Valid(t)
      ensures tables == t
    {
      tables := t;
    }
  }
}
