/**
 * The storefront's database as an in-memory store, and the request
 * handlers that write to it. Each table is a map from row id to record;
 * each `next...Id` field is the id the table's AUTOINCREMENT hands out next.
 * The session's user id is passed to every handler as an explicit
 * parameter (None when nobody is logged in).
 *
 * Every handler issues its writes on one connection and commits them once,
 * so each method below is one atomic step.
 */
module Storefront {
  import opened Schema
  import opened Queries

  /**
   * What a handler reports (its flash message, JSON reply or redirect);
   * ServerError is an uncaught exception, which the framework answers with
   * an error page.
   */
  datatype Outcome =
    | LoginRequired
    | ProductNotFound
    | CartUpdated
    | NotEnoughStock
    | ItemAdded
    | InvalidQuantity
    | QuantitySet
    | ItemRemoved
    | CartEmpty
    | OrderPlaced(orderId: Id)
    | PasswordMismatch
    | AccountExists
    | Registered(userId: Id)
    | ServerError

  /** The products table after inserting `catalog` in order into an empty one: ids 1, 2, .... */
  function Catalog(catalog: seq<Product>): (r: map<Id, Product>)
    ensures forall id: Id :: 1 <= id <= |catalog| ==> id in r && r[id] == catalog[id - 1]
    ensures forall id :: id in r ==> 1 <= id <= |catalog|
  {
    if catalog == [] then map[]
    else Catalog(catalog[..|catalog| - 1])[|catalog| := catalog[|catalog| - 1]]
  }

  /**
   * The order item that checkout writes for one cart line: the line's
   * product and quantity, with its unit price captured, so that the item's
   * amount is the line's subtotal.
   */
  function ItemOf(orderId: Id, line: CartLine): (r: OrderItem)
    ensures r.orderId == orderId && r.productId == line.productId
    ensures r.quantity == line.quantity && r.price == line.price
    ensures line.subtotal == line.quantity * line.price ==> r.quantity * r.price == line.subtotal
  {
    OrderItem(orderId, line.productId, line.quantity, line.price)
  }

  /**
   * `items` is `items0` with one item for `orderId` added per line of
   * `lines`, in order, at the ids start, start + 1, ...
   */
  ghost predicate ItemsAppended(
    items0: map<Id, OrderItem>, items: map<Id, OrderItem>, orderId: Id, start: Id, lines: seq<CartLine>)
  {
    && (forall id :: id in items <==> id in items0 || start <= id < start + |lines|)
    && (forall id :: id in items0 ==> items[id] == items0[id])
    && (forall k :: 0 <= k < |lines| ==> items[start + k] == ItemOf(orderId, lines[k]))
  }

  /** Each product's stock is lowered by the units `lines` buy of it; nothing else about it changes. */
  ghost predicate StockLowered(products0: map<Id, Product>, products: map<Id, Product>, lines: seq<CartLine>) {
    && products.Keys == products0.Keys
    && forall p :: p in products ==>
         products[p] == products0[p].(stock := products0[p].stock - Purchased(lines, p))
  }

  /**
   * The loop of checkout: for each cart line in turn, insert its order item
   * at the next free id and lower its product's stock by its quantity (a
   * product id that matches no product row updates nothing).
   */
  method WriteOrderLines(
    orderId: Id, lines: seq<CartLine>, items: map<Id, OrderItem>, products: map<Id, Product>, start: Id)
    returns (items': map<Id, OrderItem>, products': map<Id, Product>)
    requires forall id :: id in items ==> id < start
    ensures ItemsAppended(items, items', orderId, start, lines)
    ensures StockLowered(products, products', lines)
  {
    items', products' := items, products;
    var next := start;
    var i := 0;
    while i < |lines|
      invariant 0 <= i <= |lines|
      invariant next == start + i
      invariant ItemsAppended(items, items', orderId, start, lines[..i])
      invariant StockLowered(products, products', lines[..i])
    {
      items' := items'[next := ItemOf(orderId, lines[i])];
      next := next + 1;
      var productId := lines[i].productId;
      if productId in products' {
        products' := products'[productId := products'[productId].(stock := products'[productId].stock - lines[i].quantity)];
      }
      assert lines[..i + 1][..i] == lines[..i];
      i := i + 1;
    }
    assert lines[..|lines|] == lines;
  }

  /**
   * The confirmation page shows `lines` as the order: the order's total is
   * what its lines add up to, and its lines are the cart lines in order,
   * with their products, quantities and prices.
   */
  ghost predicate ShowsLines(shown: Confirmation, lines: seq<CartLine>) {
    && shown.Confirmed?
    && shown.order.totalAmount == LinesTotal(shown.lines)
    && |shown.lines| == |lines|
    && forall k :: 0 <= k < |lines| ==>
         shown.lines[k].productId == lines[k].productId
         && shown.lines[k].quantity == lines[k].quantity && shown.lines[k].price == lines[k].price
  }

  /** After checkout's writes every order item still belongs to an order, and the item ids stay below the next one. */
  lemma AppendedItemsBelong(
    orders: map<Id, Order>, items0: map<Id, OrderItem>, items: map<Id, OrderItem>,
    order: Order, orderId: Id, start: Id, lines: seq<CartLine>)
    requires forall id :: id in items0 ==> id < start && items0[id].orderId in orders
    requires ItemsAppended(items0, items, orderId, start, lines)
    ensures forall id :: id in items ==> id < start + |lines| && items[id].orderId in orders[orderId := order]
  {
    forall id | id in items
      ensures id < start + |lines| && items[id].orderId in orders[orderId := order]
    {
      if id !in items0 {
        var k := id - start;
        assert items[start + k] == ItemOf(orderId, lines[k]);
      }
    }
  }

  /**
   * Checkout's writes are what the confirmation page then shows: an order
   * of the user's, carrying the cart's total, whose items were written at
   * the fresh ids start, start + 1, ..., one per cart line.
   */
  lemma PlacedOrderShown(
    orders: map<Id, Order>, items0: map<Id, OrderItem>, items: map<Id, OrderItem>, catalog: map<Id, Product>,
    user: Id, orderId: Id, start: Id, n: nat, lines: seq<CartLine>)
    requires n == start + |lines|
    requires orderId in orders && orders[orderId].userId == user && orders[orderId].totalAmount == Total(lines)
    requires forall id :: id in items0 ==> id < start && items0[id].orderId != orderId
    requires ItemsAppended(items0, items, orderId, start, lines)
    requires forall k :: 0 <= k < |lines| ==>
      lines[k].productId in catalog && lines[k].subtotal == lines[k].quantity * lines[k].price
    ensures ShowsLines(ConfirmOrder(orders, items, catalog, n, Some(user), orderId), lines)
  {
    var r := OrderLines(items, catalog, orderId, n);
    assert WrittenAt(items, catalog, orderId, start, lines) by {
      forall id | id in items && id < start
        ensures items[id].orderId != orderId
      {
        assert id in items0;
      }
    }
    PlacedOrderLines(items, catalog, orderId, start, lines, n);
    assert |r| == |lines|;
    LinesTotalMatchesCart(r, lines);
    var shown := ConfirmOrder(orders, items, catalog, n, Some(user), orderId);
    assert shown.Confirmed? && shown.order == orders[orderId] && shown.lines == r;
  }

  class Store {
    var products: map<Id, Product>
    var cart: map<Id, CartRow>
    var orders: map<Id, Order>
    var orderItems: map<Id, OrderItem>
    var users: map<Id, User>

    var nextProductId: Id
    var nextCartId: Id
    var nextOrderId: Id
    var nextOrderItemId: Id
    var nextUserId: Id

    /** Ids in use are below the next id, and every order item belongs to an order. */
    ghost predicate Valid()
      reads this
    {
      ValidCart() && ValidOrders() && ValidProducts() && ValidUsers()
    }

    ghost predicate ValidCart()
      reads this`cart, this`nextCartId
    {
      forall id :: id in cart ==> id < nextCartId
    }

    ghost predicate ValidOrders()
      reads this`orders, this`nextOrderId, this`orderItems, this`nextOrderItemId
    {
      && (forall id :: id in orders ==> id < nextOrderId)
      && (forall id :: id in orderItems ==> id < nextOrderItemId && orderItems[id].orderId in orders)
    }

    ghost predicate ValidProducts()
      reads this`products, this`nextProductId
    {
      forall id :: id in products ==> id < nextProductId
    }

    ghost predicate ValidUsers()
      reads this`users, this`nextUserId
    {
      forall id :: id in users ==> id < nextUserId
    }

    ghost predicate UniqueCartRows()
      reads this
    {
      UniqueRows(cart)
    }

    ghost predicate PositiveCartQuantities()
      reads this
    {
      PositiveQuantities(cart)
    }

    ghost predicate UniqueUsers()
      reads this
    {
      UniqueAccounts(users)
    }

    /** Only the cart table may have changed. */
    twostate predicate OnlyCartChanged()
      reads this
    {
      && products == old(products) && orders == old(orders) && orderItems == old(orderItems)
      && users == old(users)
      && nextProductId == old(nextProductId) && nextOrderId == old(nextOrderId)
      && nextOrderItemId == old(nextOrderItemId) && nextUserId == old(nextUserId)
    }

    /** No table has changed. */
    twostate predicate NothingChanged()
      reads this
    {
      OnlyCartChanged() && cart == old(cart) && nextCartId == old(nextCartId)
    }

    /**
     * get_products over the whole products table: exactly the products that
     * pass the filter, each with its id, newest first.
     */
    function CatalogListing(category: Option<string>, search: Option<string>): (r: seq<Listing>)
      reads this`products, this`nextProductId
      requires ValidProducts()
      ensures forall i :: 0 <= i < |r| ==>
        r[i].id in products && r[i].product == products[r[i].id] && Listed(r[i].product, category, search)
      ensures forall id :: id in products && Listed(products[id], category, search) ==> Listing(id, products[id]) in r
      ensures forall i, j :: 0 <= i < j < |r| ==> r[i].id > r[j].id
    {
      assert forall id :: id in products && Listed(products[id], category, search) ==>
        Listing(id, products[id]) in ProductsListed(products, nextProductId, category, search)
      by {
        forall id | id in products && Listed(products[id], category, search)
          ensures Listing(id, products[id]) in ProductsListed(products, nextProductId, category, search)
        {
          ProductsListedComplete(products, nextProductId, category, search, id);
        }
      }
      ProductsListed(products, nextProductId, category, search)
    }

    /**
     * The rows the current user sees in the cart page and at checkout: only
     * their own rows, each for a product in the catalog, in row-id order.
     */
    function CartOf(user: Id): (r: seq<CartLine>)
      reads this`cart, this`products, this`nextCartId
      ensures forall i :: 0 <= i < |r| ==> r[i].rowId in cart && r[i].userId == user && r[i].productId in products
    {
      CartLines(cart, products, user, nextCartId)
    }

    /**
     * The order_confirmation page as the store stands: shown only to the
     * order's owner, with the order's own items.
     */
    function OrderConfirmation(user: Option<Id>, orderId: Id): (r: Confirmation)
      reads this`orders, this`orderItems, this`products, this`nextOrderItemId
      ensures user.None? <==> r == Unauthenticated
      ensures r.Confirmed? <==> user.Some? && orderId in orders && orders[orderId].userId == user.value
      ensures r.Confirmed? ==> r.order == orders[orderId]
      ensures r.Confirmed? ==> forall i :: 0 <= i < |r.lines| ==>
        r.lines[i].itemId in orderItems && orderItems[r.lines[i].itemId].orderId == orderId
    {
      ConfirmOrder(orders, orderItems, products, nextOrderItemId, user, orderId)
    }

    /** A store whose catalog holds `catalog`, at ids 1, 2, ..., and is otherwise empty. */
    constructor (catalog: seq<Product>)
      ensures Valid() && UniqueCartRows() && PositiveCartQuantities() && UniqueUsers()
      ensures forall id: Id :: 1 <= id <= |catalog| ==> id in products && products[id] == catalog[id - 1]
      ensures forall id :: id in products ==> 1 <= id <= |catalog|
      ensures cart == map[] && orders == map[] && orderItems == map[] && users == map[]
      ensures nextProductId == |catalog| + 1
      ensures nextCartId == 1 && nextOrderId == 1 && nextOrderItemId == 1 && nextUserId == 1
    {
      products := Catalog(catalog);
      cart, orders, orderItems, users := map[], map[], map[], map[];
      nextProductId := |catalog| + 1;
      nextCartId, nextOrderId, nextOrderItemId, nextUserId := 1, 1, 1, 1;
    }

    /**
     * add_to_cart. A row the user already has for the product goes up by one
     * unit only while that stays within the product's stock; a first add
     * inserts one unit without looking at the stock at all.
     */
    method AddToCart(user: Option<Id>, productId: Id) returns (outcome: Outcome)
      requires Valid()
      modifies this
      ensures Valid() && OnlyCartChanged()
      ensures user.None? ==> outcome == LoginRequired && NothingChanged()
      ensures user.Some? && productId !in products ==> outcome == ProductNotFound && NothingChanged()
      ensures user.Some? && productId in products ==>
        var found := FindCartRow(old(cart), user.value, productId, old(nextCartId));
        if found.Some? then
          var quantity := old(cart)[found.value].quantity + 1;
          && nextCartId == old(nextCartId)
          && (if quantity <= products[productId].stock
              then outcome == CartUpdated && cart == SetProductQuantity(old(cart), user.value, productId, quantity)
              else outcome == NotEnoughStock && cart == old(cart))
        else
          && outcome == ItemAdded
          && cart == old(cart)[old(nextCartId) := CartRow(user.value, productId, 1)]
          && nextCartId == old(nextCartId) + 1
      ensures outcome == CartUpdated && old(UniqueCartRows()) ==>
        var found := FindCartRow(old(cart), user.value, productId, old(nextCartId));
        found.Some? && cart == old(cart)[found.value := old(cart)[found.value].(quantity := old(cart)[found.value].quantity + 1)]
      ensures old(UniqueCartRows()) ==> UniqueCartRows()
      ensures old(PositiveCartQuantities()) ==> PositiveCartQuantities()
    {
      if user.None? {
        return LoginRequired;
      }
      var u := user.value;
      var product := ProductById(products, productId);
      if product.None? {
        return ProductNotFound;
      }
      var existing := FindCartRow(cart, u, productId, nextCartId);
      match existing {
        case Some(id) =>
          var quantity := cart[id].quantity + 1;
          if quantity <= product.value.stock {
            ghost var cart0 := cart;
            cart := SetProductQuantity(cart, u, productId, quantity);
            outcome := CartUpdated;
            assert UniqueRows(cart0) ==> UniqueRows(cart) && cart == cart0[id := cart0[id].(quantity := quantity)] by {
              SetProductQuantityKeepsRows(cart0, u, productId, quantity);
              if UniqueRows(cart0) {
                SetProductQuantityOnUniqueRow(cart0, u, productId, quantity, id);
              }
            }
            assert PositiveQuantities(cart0) ==> PositiveQuantities(cart) by {
              SetProductQuantityKeepsRows(cart0, u, productId, quantity);
            }
          } else {
            outcome := NotEnoughStock;
          }
        case None =>
          ghost var cart0, n0 := cart, nextCartId;
          cart := cart[nextCartId := CartRow(u, productId, 1)];
          nextCartId := nextCartId + 1;
          outcome := ItemAdded;
          assert UniqueRows(cart0) ==> UniqueRows(cart) by {
            if UniqueRows(cart0) {
              InsertedRowKeepsUnique(cart0, u, productId, n0, 1);
            }
          }
      }
    }

    /**
     * update_cart. A quantity below one is refused; otherwise the quantity is
     * set, with no stock check, on the row with that id if it is the user's.
     */
    method UpdateCart(user: Option<Id>, cartId: int, quantity: int) returns (outcome: Outcome)
      requires Valid()
      modifies this
      ensures Valid() && OnlyCartChanged() && nextCartId == old(nextCartId)
      ensures user.None? ==> outcome == LoginRequired && cart == old(cart)
      ensures user.Some? && quantity < 1 ==> outcome == InvalidQuantity && cart == old(cart)
      ensures user.Some? && quantity >= 1 ==>
        && outcome == QuantitySet
        && cart.Keys == old(cart).Keys
        && forall id :: id in cart ==>
             cart[id] == if id == cartId && old(cart)[id].userId == user.value
                         then old(cart)[id].(quantity := quantity) else old(cart)[id]
      ensures old(UniqueCartRows()) ==> UniqueCartRows()
      ensures old(PositiveCartQuantities()) ==> PositiveCartQuantities()
    {
      if user.None? {
        return LoginRequired;
      }
      if quantity < 1 {
        return InvalidQuantity;
      }
      var u := user.value;
      cart := map id | id in cart ::
        if id == cartId && cart[id].userId == u then cart[id].(quantity := quantity) else cart[id];
      outcome := QuantitySet;
    }

    /**
     * remove_from_cart: deletes the row with that id if it is the user's,
     * which lowers the user's cart total by that row's subtotal.
     */
    method RemoveFromCart(user: Option<Id>, cartId: Id) returns (outcome: Outcome)
      requires Valid()
      modifies this
      ensures Valid() && OnlyCartChanged() && nextCartId == old(nextCartId)
      ensures user.None? ==> outcome == LoginRequired && cart == old(cart)
      ensures user.Some? ==>
        && outcome == ItemRemoved
        && cart == if cartId in old(cart) && old(cart)[cartId].userId == user.value
                   then old(cart) - {cartId} else old(cart)
      ensures user.Some? && InCartOf(old(cart), products, user.value, cartId) ==>
        Total(CartOf(user.value))
        == Total(old(CartOf(user.value))) - Subtotal(old(cart)[cartId], products[old(cart)[cartId].productId])
      ensures old(UniqueCartRows()) ==> UniqueCartRows()
      ensures old(PositiveCartQuantities()) ==> PositiveCartQuantities()
    {
      if user.None? {
        return LoginRequired;
      }
      var u := user.value;
      if cartId in cart && cart[cartId].userId == u {
        if InCartOf(cart, products, u, cartId) {
          TotalAfterRemove(cart, products, u, nextCartId, cartId);
        }
        cart := cart - {cartId};
      }
      outcome := ItemRemoved;
    }

    /**
     * The writes of a successful checkout of `user`'s cart lines `lines`
     * into the order `orderId`, other than emptying the cart.
     */
    twostate predicate OrderWritten(user: Id, shippingAddress: string, lines: seq<CartLine>, orderId: Id)
      reads this`orders, this`nextOrderId, this`orderItems, this`nextOrderItemId, this`products
    {
      // one new order, carrying the cart's total
      && orderId == old(nextOrderId)
      && orders == old(orders)[orderId := Order(user, Total(lines), PENDING, shippingAddress)]
      && nextOrderId == old(nextOrderId) + 1
      // one new order item per cart line, at fresh ids, in the lines' order
      && nextOrderItemId == old(nextOrderItemId) + |lines|
      && ItemsAppended(old(orderItems), orderItems, orderId, old(nextOrderItemId), lines)
      // each product's stock goes down by the units bought
      && StockLowered(old(products), products, lines)
    }

    /** The effect of a successful checkout: the order is written and exactly the user's cart rows are deleted. */
    twostate predicate CheckedOut(user: Id, shippingAddress: string, lines: seq<CartLine>, orderId: Id)
      reads this
    {
      OrderWritten(user, shippingAddress, lines, orderId) && cart == DeleteRowsOf(old(cart), user)
    }

    /**
     * checkout (the POST that places the order). An empty cart is refused
     * with no write. Otherwise one order, its items, the stock decrements and
     * the emptying of the user's cart are committed together.
     *
     * The handler reads the new order's id from `conn.lastrowid`, an
     * attribute that sqlite3's Connection does not have (only Cursor does),
     * so as written it fails before the commit. The model follows the
     * intended behaviour: the order id is the id just allocated to the order.
     */
    method Checkout(user: Option<Id>, shippingAddress: string) returns (outcome: Outcome)
      requires Valid()
      modifies this
      ensures Valid()
      ensures users == old(users) && nextUserId == old(nextUserId)
      ensures nextProductId == old(nextProductId) && nextCartId == old(nextCartId)
      ensures user.None? ==> outcome == LoginRequired && NothingChanged()
      ensures user.Some? && old(CartOf(user.value)) == [] ==> outcome == CartEmpty && NothingChanged()
      ensures user.Some? && old(CartOf(user.value)) != [] ==>
        outcome == OrderPlaced(old(nextOrderId))
        && CheckedOut(user.value, shippingAddress, old(CartOf(user.value)), outcome.orderId)
      ensures outcome.OrderPlaced? ==> ShowsLines(OrderConfirmation(user, outcome.orderId), old(CartOf(user.value)))
      ensures outcome.OrderPlaced? ==> CartOf(user.value) == []
      ensures outcome.OrderPlaced? && old(UniqueCartRows()) ==>
        forall id :: id in old(cart) && InCartOf(old(cart), old(products), user.value, id) ==>
          products[old(cart)[id].productId].stock
          == old(products)[old(cart)[id].productId].stock - old(cart)[id].quantity
      ensures old(UniqueCartRows()) ==> UniqueCartRows()
      ensures old(PositiveCartQuantities()) ==> PositiveCartQuantities()
    {
      if user.None? {
        return LoginRequired;
      }
      var u := user.value;
      var lines := CartLines(cart, products, u, nextCartId);
      if lines == [] {
        return CartEmpty;
      }
      ghost var cart0, products0 := cart, products;
      forall k | 0 <= k < |lines|
        ensures lines[k].productId in products && lines[k].subtotal == lines[k].quantity * lines[k].price
      {
        assert JoinedLine(cart, products, u, lines[k]);
      }
      // The cart delete comes last in the handler; inside the one transaction,
      // and with `lines` already read, the order of the writes is not observable.
      cart := DeleteRowsOf(cart, u);
      outcome := PlaceOrder(u, shippingAddress, lines);
      DeletedCartIsEmpty(cart0, products, u, nextCartId);
      if UniqueRows(cart0) {
        forall id | id in cart0 && InCartOf(cart0, products0, u, id)
          ensures products[cart0[id].productId].stock == products0[cart0[id].productId].stock - cart0[id].quantity
        {
          PurchasedIsRowQuantity(cart0, products0, u, nextCartId, id);
        }
      }
    }

    /**
     * checkout as written: the inserts before `conn.lastrowid` are never
     * committed, since reading that attribute of a sqlite3 Connection raises
     * AttributeError; so for a non-empty cart it fails and writes nothing.
     */
    method CheckoutAsWritten(user: Option<Id>, shippingAddress: string) returns (outcome: Outcome)
      ensures user.None? ==> outcome == LoginRequired
      ensures user.Some? && CartOf(user.value) == [] ==> outcome == CartEmpty
      ensures user.Some? && CartOf(user.value) != [] ==> outcome == ServerError
      ensures !outcome.OrderPlaced?
    {
      if user.None? {
        return LoginRequired;
      }
      var lines := CartLines(cart, products, user.value, nextCartId);
      if lines == [] {
        return CartEmpty;
      }
      outcome := ServerError;
    }

    /**
     * The writes of a checkout other than emptying the cart: the order, one
     * item per cart line, and the stock decrements.
     */
    method PlaceOrder(user: Id, shippingAddress: string, lines: seq<CartLine>) returns (outcome: Outcome)
      requires Valid()
      requires forall k :: 0 <= k < |lines| ==>
        lines[k].productId in products && lines[k].subtotal == lines[k].quantity * lines[k].price
      modifies this
      ensures Valid()
      ensures cart == old(cart) && users == old(users)
      ensures nextUserId == old(nextUserId) && nextProductId == old(nextProductId) && nextCartId == old(nextCartId)
      ensures outcome == OrderPlaced(old(nextOrderId))
      ensures OrderWritten(user, shippingAddress, lines, outcome.orderId)
      ensures ShowsLines(OrderConfirmation(Some(user), outcome.orderId), lines)
    {
      var total := Total(lines);
      var orderId := nextOrderId;
      var order := Order(user, total, PENDING, shippingAddress);
      var start := nextOrderItemId;

      // The pending writes of the transaction, committed together below.
      var items, catalog := WriteOrderLines(orderId, lines, orderItems, products, start);
      var placed := orders[orderId := order];
      AppendedItemsBelong(orders, orderItems, items, order, orderId, start, lines);

      ghost var items0 := orderItems;
      orders, nextOrderId := placed, orderId + 1;
      orderItems, products, nextOrderItemId := items, catalog, nextOrderItemId + |lines|;
      outcome := OrderPlaced(orderId);
      PlacedOrderShown(orders, items0, orderItems, products, user, orderId, start, nextOrderItemId, lines);
    }

    /**
     * register. Mismatched passwords, or a username or email already in use,
     * are refused with no write; otherwise one non-admin user is added.
     * `passwordHash` stands for generate_password_hash(password).
     */
    method Register(username: string, email: string, password: string, confirmPassword: string, passwordHash: string)
      returns (outcome: Outcome)
      requires Valid()
      modifies this
      ensures Valid()
      ensures products == old(products) && cart == old(cart) && orders == old(orders) && orderItems == old(orderItems)
      ensures nextProductId == old(nextProductId) && nextCartId == old(nextCartId)
      ensures nextOrderId == old(nextOrderId) && nextOrderItemId == old(nextOrderItemId)
      ensures password != confirmPassword ==>
        outcome == PasswordMismatch && users == old(users) && nextUserId == old(nextUserId)
      ensures password == confirmPassword && Taken(old(users), username, email) ==>
        outcome == AccountExists && users == old(users) && nextUserId == old(nextUserId)
      ensures password == confirmPassword && !Taken(old(users), username, email) ==>
        && outcome == Registered(old(nextUserId))
        && users == old(users)[old(nextUserId) := User(username, email, passwordHash, false)]
        && nextUserId == old(nextUserId) + 1
      ensures old(UniqueUsers()) ==> UniqueUsers()
    {
      if password != confirmPassword {
        return PasswordMismatch;
      }
      if Taken(users, username, email) {
        return AccountExists;
      }
      var id := nextUserId;
      users := users[id := User(username, email, passwordHash, false)];
      nextUserId := nextUserId + 1;
      outcome := Registered(id);
    }
  }
}
