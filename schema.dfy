/**
 * The five tables of the storefront's database, one record type per table.
 * A row's id is the key of the map that holds the table (see Storefront),
 * so it is not repeated inside the record.
 *
 * Prices are integer cents rather than SQL REAL, so that totals are exact.
 * Stock and quantities are unbounded integers: nothing in the handlers keeps
 * stock from going below zero.
 */
module Schema {

  datatype Option<+T> = None | Some(value: T)

  /** A row id, as handed out by SQLite's AUTOINCREMENT. */
  type Id = nat

  /** A row of `products` (image_url and created_at are not modelled). */
  datatype Product = Product(
    name: string,
    brand: string,
    category: string,
    size: string,
    color: string,
    price: nat,
    stock: int,
    description: string)

  /** A row of `cart`: one user's intent to buy some quantity of one product. */
  datatype CartRow = CartRow(userId: Id, productId: Id, quantity: int)

  /** A row of `orders`. */
  datatype Order = Order(userId: Id, totalAmount: int, status: string, shippingAddress: string)

  /** A row of `order_items`; `price` is the unit price captured at checkout. */
  datatype OrderItem = OrderItem(orderId: Id, productId: Id, quantity: int, price: nat)

  /** A row of `users`; the password hash is an opaque string. */
  datatype User = User(username: string, email: string, passwordHash: string, isAdmin: bool)

  /** The status every new order is created with (the column's default). */
  const PENDING: string := "pending"
}
