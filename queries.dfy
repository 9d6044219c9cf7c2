/**
 * The handlers' SQL statements as functions over the tables (the SELECTs,
 * add_to_cart's UPDATE and checkout's DELETE), and what is proved about them.
 *
 * A table is a map from row id to record. A SELECT without ORDER BY is read
 * as a scan of the ids 0 .. n-1 in ascending order, where n is the next
 * AUTOINCREMENT id (an assumption about SQLite's row order). Such a scan
 * is a recursive function on n.
 */
module Queries {
  import opened Schema

  // ---------------------------------------------------------------------
  // get_product_by_id: SELECT * FROM products WHERE id = ?
  // ---------------------------------------------------------------------

  function ProductById(products: map<Id, Product>, id: Id): (r: Option<Product>)
    ensures r.Some? <==> id in products
    ensures r.Some? ==> r.value == products[id]
  {
    if id in products then Some(products[id]) else None
  }

  // ---------------------------------------------------------------------
  // get_products: the catalog filter
  // ---------------------------------------------------------------------

  /** SQLite's LIKE folds ASCII letters only. */
  function FoldChar(c: char): char {
    if 'A' <= c <= 'Z' then (c as int - 'A' as int + 'a' as int) as char else c
  }

  function FoldCase(s: string): string {
    seq(|s|, i requires 0 <= i < |s| => FoldChar(s[i]))
  }

  predicate OccursAt(text: string, pattern: string, i: int) {
    0 <= i && i + |pattern| <= |text| && text[i..i + |pattern|] == pattern
  }

  predicate Contains(text: string, pattern: string) {
    exists i | 0 <= i <= |text| - |pattern| :: OccursAt(text, pattern, i)
  }

  /**
   * `text LIKE '%search%'`, with the search text taken literally: an empty
   * search matches every text, every text matches itself whatever its case,
   * and only a text at least as long as the search can match it.
   */
  function Like(text: string, search: string): (r: bool)
    ensures search == "" ==> r
    ensures FoldCase(text) == FoldCase(search) ==> r
    ensures r ==> |search| <= |text|
  {
    assert search == "" ==> OccursAt(FoldCase(text), FoldCase(search), 0);
    assert FoldCase(text) == FoldCase(search) ==> OccursAt(FoldCase(text), FoldCase(search), 0);
    Contains(FoldCase(text), FoldCase(search))
  }

  /** Python's truthiness of an optional filter: neither None nor "". */
  predicate Given(filter: Option<string>) {
    filter.Some? && filter.value != ""
  }

  /**
   * The WHERE clause of get_products. Only products in stock pass; with no
   * category and an absent or empty search text (the index page, or a
   * search for ""), every product in stock passes.
   */
  function Listed(p: Product, category: Option<string>, search: Option<string>): (r: bool)
    ensures r ==> p.stock > 0
    ensures r && Given(category) ==> p.category == category.value
    ensures !Given(category) && (search.None? || search == Some("")) ==> (r <==> p.stock > 0)
  {
    && p.stock > 0
    && (Given(category) ==> p.category == category.value)
    && (Given(search) ==>
          Like(p.name, search.value) || Like(p.brand, search.value) || Like(p.description, search.value))
  }

  /** A text that holds the search text literally matches it (substring present implies found). */
  lemma LiteralOccurrenceMatches(text: string, search: string, i: nat)
    requires OccursAt(text, search, i)
    ensures Like(text, search)
  {
    assert FoldCase(text)[i..i + |search|] == FoldCase(search);
    assert OccursAt(FoldCase(text), FoldCase(search), i);
  }

  /** A row of get_products' result: a product together with its id. */
  datatype Listing = Listing(id: Id, product: Product)

  /**
   * get_products over the products with id < n, newest first (a later
   * id stands for a later created_at, an assumption about the timestamps).
   */
  function ProductsListed(products: map<Id, Product>, n: nat, category: Option<string>, search: Option<string>)
    : (r: seq<Listing>)
    ensures forall i :: 0 <= i < |r| ==>
      r[i].id < n && r[i].id in products && r[i].product == products[r[i].id]
      && Listed(r[i].product, category, search)
    ensures forall i, j :: 0 <= i < j < |r| ==> r[i].id > r[j].id
    decreases n
  {
    if n == 0 then []
    else
      var older := ProductsListed(products, n - 1, category, search);
      if n - 1 in products && Listed(products[n - 1], category, search)
      then [Listing(n - 1, products[n - 1])] + older
      else older
  }

  /**
   * Every product that passes the filter is listed (that only those are
   * is ProductsListed's own postcondition).
   */
  lemma {:induction false} ProductsListedComplete(
    products: map<Id, Product>, n: nat, category: Option<string>, search: Option<string>, id: Id)
    requires id < n && id in products && Listed(products[id], category, search)
    ensures Listing(id, products[id]) in ProductsListed(products, n, category, search)
  {
    if id < n - 1 {
      ProductsListedComplete(products, n - 1, category, search, id);
    }
  }

  // ---------------------------------------------------------------------
  // The cart table
  // ---------------------------------------------------------------------

  /** The cart row `id` belongs to `user` and is for `productId`. */
  predicate RowFor(cart: map<Id, CartRow>, user: Id, productId: Id, id: Id) {
    id in cart && cart[id].userId == user && cart[id].productId == productId
  }

  /** At most one cart row per (user, product). */
  ghost predicate UniqueRows(cart: map<Id, CartRow>) {
    forall i, j :: i in cart && j in cart && i != j ==>
      cart[i].userId != cart[j].userId || cart[i].productId != cart[j].productId
  }

  /** Every cart row asks for at least one unit. */
  ghost predicate PositiveQuantities(cart: map<Id, CartRow>) {
    forall id :: id in cart ==> cart[id].quantity >= 1
  }

  /**
   * add_to_cart's lookup, `SELECT * FROM cart WHERE user_id = ? AND
   * product_id = ?` and `fetchone()`: the first matching row with id < n.
   */
  function FindCartRow(cart: map<Id, CartRow>, user: Id, productId: Id, n: nat): (r: Option<Id>)
    ensures r.Some? ==> r.value < n && RowFor(cart, user, productId, r.value)
    ensures forall id: Id :: id < (if r.Some? then r.value else n) ==> !RowFor(cart, user, productId, id)
    decreases n
  {
    if n == 0 then None
    else match FindCartRow(cart, user, productId, n - 1)
      case Some(id) => Some(id)
      case None => if RowFor(cart, user, productId, n - 1) then Some(n - 1) else None
  }

  /**
   * `UPDATE cart SET quantity = ? WHERE user_id = ? AND product_id = ?`:
   * every row of that user for that product gets the new quantity, and
   * no row is added, removed or otherwise changed.
   */
  function SetProductQuantity(cart: map<Id, CartRow>, user: Id, productId: Id, quantity: int)
    : (r: map<Id, CartRow>)
    ensures r.Keys == cart.Keys
    ensures forall id :: id in r ==> r[id].userId == cart[id].userId && r[id].productId == cart[id].productId
    ensures forall id :: id in r ==> r[id].quantity == if RowFor(cart, user, productId, id) then quantity else cart[id].quantity
  {
    map id | id in cart ::
      if cart[id].userId == user && cart[id].productId == productId
      then cart[id].(quantity := quantity) else cart[id]
  }

  /** With unique rows the UPDATE of add_to_cart touches the found row alone. */
  lemma SetProductQuantityOnUniqueRow(cart: map<Id, CartRow>, user: Id, productId: Id, quantity: int, id: Id)
    requires UniqueRows(cart) && RowFor(cart, user, productId, id)
    ensures SetProductQuantity(cart, user, productId, quantity) == cart[id := cart[id].(quantity := quantity)]
  {
    var updated := SetProductQuantity(cart, user, productId, quantity);
    forall other | other in cart && other != id
      ensures updated[other] == cart[other]
    {
      assert !RowFor(cart, user, productId, other);
    }
  }

  /** The UPDATE of add_to_cart changes only quantities, so it keeps rows unique. */
  lemma SetProductQuantityKeepsRows(cart: map<Id, CartRow>, user: Id, productId: Id, quantity: int)
    ensures var r := SetProductQuantity(cart, user, productId, quantity);
      && r.Keys == cart.Keys
      && (UniqueRows(cart) ==> UniqueRows(r))
      && (PositiveQuantities(cart) && quantity >= 1 ==> PositiveQuantities(r))
  {
    var r := SetProductQuantity(cart, user, productId, quantity);
    assert forall id :: id in r ==> r[id].userId == cart[id].userId && r[id].productId == cart[id].productId;
  }

  /** A new row for a (user, product) pair the lookup did not find keeps rows unique. */
  lemma InsertedRowKeepsUnique(cart: map<Id, CartRow>, user: Id, productId: Id, n: nat, quantity: int)
    requires forall id :: id in cart ==> id < n
    requires FindCartRow(cart, user, productId, n) == None
    requires UniqueRows(cart)
    ensures UniqueRows(cart[n := CartRow(user, productId, quantity)])
  {
    var r := cart[n := CartRow(user, productId, quantity)];
    forall i, j | i in r && j in r && i != j
      ensures r[i].userId != r[j].userId || r[i].productId != r[j].productId
    {
      if i == n {
        assert !RowFor(cart, user, productId, j);
      } else if j == n {
        assert !RowFor(cart, user, productId, i);
      }
    }
  }

  /**
   * `DELETE FROM cart WHERE user_id = ?`: exactly the user's rows go, and
   * the rows of every other user stay as they were.
   */
  function DeleteRowsOf(cart: map<Id, CartRow>, user: Id): (r: map<Id, CartRow>)
    ensures forall id :: id in r <==> id in cart && cart[id].userId != user
    ensures forall id :: id in r ==> r[id] == cart[id]
  {
    map id | id in cart && cart[id].userId != user :: cart[id]
  }

  // ---------------------------------------------------------------------
  // get_cart_items: the cart joined with the products
  // ---------------------------------------------------------------------

  /** A row of get_cart_items' result, with `subtotal = quantity * price`. */
  datatype CartLine = CartLine(
    rowId: Id, userId: Id, productId: Id, quantity: int,
    name: string, brand: string, price: nat, subtotal: int)

  /**
   * The join of one cart row with its product: the row's own columns, the
   * product's current name, brand and price, and a subtotal that is the
   * line's quantity times its price.
   */
  function LineOf(rowId: Id, row: CartRow, p: Product): (r: CartLine)
    ensures r.rowId == rowId && r.userId == row.userId && r.productId == row.productId && r.quantity == row.quantity
    ensures r.name == p.name && r.brand == p.brand && r.price == p.price
    ensures r.subtotal == r.quantity * r.price
  {
    CartLine(rowId, row.userId, row.productId, row.quantity, p.name, p.brand, p.price, Subtotal(row, p))
  }

  /** `c.quantity * p.price`. */
  function Subtotal(row: CartRow, p: Product): int {
    row.quantity * p.price
  }

  /** The cart row `id` is `user`'s and its product still exists (the inner join keeps it). */
  predicate InCartOf(cart: map<Id, CartRow>, products: map<Id, Product>, user: Id, id: Id) {
    id in cart && cart[id].userId == user && cart[id].productId in products
  }

  /** Each line is one of `user`'s rows joined with its product's current record. */
  ghost predicate JoinedLine(cart: map<Id, CartRow>, products: map<Id, Product>, user: Id, line: CartLine) {
    InCartOf(cart, products, user, line.rowId)
    && line == LineOf(line.rowId, cart[line.rowId], products[cart[line.rowId].productId])
  }

  /** get_cart_items(user) over the cart rows with id < n, in id order. */
  function CartLines(cart: map<Id, CartRow>, products: map<Id, Product>, user: Id, n: nat): (r: seq<CartLine>)
    ensures forall i :: 0 <= i < |r| ==> r[i].rowId < n && JoinedLine(cart, products, user, r[i])
    ensures forall i, j :: 0 <= i < j < |r| ==> r[i].rowId < r[j].rowId
    decreases n
  {
    if n == 0 then []
    else
      var earlier := CartLines(cart, products, user, n - 1);
      if InCartOf(cart, products, user, n - 1)
      then earlier + [LineOf(n - 1, cart[n - 1], products[cart[n - 1].productId])]
      else earlier
  }

  /**
   * Every row of the user whose product exists has its line (that no other
   * row has one is CartLines' own postcondition).
   */
  lemma {:induction false} CartLinesComplete(
    cart: map<Id, CartRow>, products: map<Id, Product>, user: Id, n: nat, id: Id)
    requires id < n && InCartOf(cart, products, user, id)
    ensures LineOf(id, cart[id], products[cart[id].productId]) in CartLines(cart, products, user, n)
  {
    if id < n - 1 {
      CartLinesComplete(cart, products, user, n - 1, id);
    }
  }

  /** No line of `lines` has a negative subtotal. */
  ghost predicate NonNegativeSubtotals(lines: seq<CartLine>) {
    forall k :: 0 <= k < |lines| ==> lines[k].subtotal >= 0
  }

  /** `sum(item['subtotal'] for item in items)`. */
  function Total(lines: seq<CartLine>): int {
    if lines == [] then 0 else Total(lines[..|lines| - 1]) + lines[|lines| - 1].subtotal
  }

  /** Lines whose subtotals are not negative never total below 0. */
  lemma {:induction false} TotalNonNegative(lines: seq<CartLine>)
    requires NonNegativeSubtotals(lines)
    ensures Total(lines) >= 0
  {
    if lines != [] {
      TotalNonNegative(lines[..|lines| - 1]);
    }
  }

  /** How many units of `productId` the lines ask for. */
  function Purchased(lines: seq<CartLine>, productId: Id): int {
    if lines == [] then 0
    else
      var last := lines[|lines| - 1];
      Purchased(lines[..|lines| - 1], productId) + (if last.productId == productId then last.quantity else 0)
  }

  /** A product none of whose rows are the user's is not bought at all. */
  lemma {:induction false} PurchasedAbsent(
    cart: map<Id, CartRow>, products: map<Id, Product>, user: Id, n: nat, productId: Id)
    requires forall id: Id :: id < n && InCartOf(cart, products, user, id) ==> cart[id].productId != productId
    ensures Purchased(CartLines(cart, products, user, n), productId) == 0
  {
    if n > 0 {
      PurchasedAbsent(cart, products, user, n - 1, productId);
      var earlier := CartLines(cart, products, user, n - 1);
      if InCartOf(cart, products, user, n - 1) {
        var line := LineOf(n - 1, cart[n - 1], products[cart[n - 1].productId]);
        assert (earlier + [line])[..|earlier|] == earlier;
      }
    }
  }

  /** With unique rows, the user buys exactly the quantity of their row for a product. */
  lemma {:induction false} PurchasedIsRowQuantity(
    cart: map<Id, CartRow>, products: map<Id, Product>, user: Id, n: nat, id: Id)
    requires UniqueRows(cart)
    requires id < n && InCartOf(cart, products, user, id)
    ensures Purchased(CartLines(cart, products, user, n), cart[id].productId) == cart[id].quantity
  {
    var productId := cart[id].productId;
    var earlier := CartLines(cart, products, user, n - 1);
    if id == n - 1 {
      PurchasedAbsent(cart, products, user, n - 1, productId);
    } else {
      PurchasedIsRowQuantity(cart, products, user, n - 1, id);
    }
    if InCartOf(cart, products, user, n - 1) {
      var line := LineOf(n - 1, cart[n - 1], products[cart[n - 1].productId]);
      assert (earlier + [line])[..|earlier|] == earlier;
    }
  }

  /** Removing one of the user's lines lowers the cart total by its subtotal. */
  lemma {:induction false} TotalAfterRemove(
    cart: map<Id, CartRow>, products: map<Id, Product>, user: Id, n: nat, id: Id)
    requires id < n && InCartOf(cart, products, user, id)
    ensures Total(CartLines(cart - {id}, products, user, n))
         == Total(CartLines(cart, products, user, n)) - Subtotal(cart[id], products[cart[id].productId])
  {
    if id == n - 1 {
      RemoveLastRowTotal(cart, products, user, n);
    } else {
      TotalAfterRemove(cart, products, user, n - 1, id);
      RemoveEarlierRowStep(cart, products, user, n, id);
    }
  }

  /** Row n - 1 adds the same to the total whether or not an earlier row `id` was removed. */
  lemma RemoveEarlierRowStep(cart: map<Id, CartRow>, products: map<Id, Product>, user: Id, n: nat, id: Id)
    requires id < n - 1 && InCartOf(cart, products, user, id)
    requires Total(CartLines(cart - {id}, products, user, n - 1))
          == Total(CartLines(cart, products, user, n - 1)) - Subtotal(cart[id], products[cart[id].productId])
    ensures Total(CartLines(cart - {id}, products, user, n))
         == Total(CartLines(cart, products, user, n)) - Subtotal(cart[id], products[cart[id].productId])
  {
    var removed := cart - {id};
    TotalStep(cart, products, user, n);
    TotalStep(removed, products, user, n);
    assert InCartOf(removed, products, user, n - 1) == InCartOf(cart, products, user, n - 1);
    if InCartOf(cart, products, user, n - 1) {
      assert removed[n - 1] == cart[n - 1];
    }
  }

  lemma RemoveLastRowTotal(cart: map<Id, CartRow>, products: map<Id, Product>, user: Id, n: nat)
    requires n > 0 && InCartOf(cart, products, user, n - 1)
    ensures Total(CartLines(cart - {n - 1}, products, user, n))
         == Total(CartLines(cart, products, user, n)) - Subtotal(cart[n - 1], products[cart[n - 1].productId])
  {
    var removed := cart - {n - 1};
    CartLinesUnchanged(cart, removed, products, user, n - 1);
    TotalStep(cart, products, user, n);
    TotalStep(removed, products, user, n);
  }

  /** One step of the scan adds the subtotal of row n - 1, if it is the user's. */
  lemma TotalStep(cart: map<Id, CartRow>, products: map<Id, Product>, user: Id, n: nat)
    requires n > 0
    ensures Total(CartLines(cart, products, user, n))
         == Total(CartLines(cart, products, user, n - 1))
            + (if InCartOf(cart, products, user, n - 1)
               then Subtotal(cart[n - 1], products[cart[n - 1].productId]) else 0)
  {
    if InCartOf(cart, products, user, n - 1) {
      TotalAppend(CartLines(cart, products, user, n - 1), LineOf(n - 1, cart[n - 1], products[cart[n - 1].productId]));
    }
  }

  lemma TotalAppend(lines: seq<CartLine>, line: CartLine)
    ensures Total(lines + [line]) == Total(lines) + line.subtotal
  {
    assert (lines + [line])[..|lines|] == lines;
  }

  /**
   * Adding a fresh row of one unit raises the cart total by the product's
   * price. A standalone fact: it is stated over the very cart and next id
   * that Store.AddToCart's contract gives for a first add.
   */
  lemma AddedRowTotal(cart: map<Id, CartRow>, products: map<Id, Product>, user: Id, n: nat, productId: Id)
    requires forall id :: id in cart ==> id < n
    requires productId in products
    ensures Total(CartLines(cart[n := CartRow(user, productId, 1)], products, user, n + 1))
         == Total(CartLines(cart, products, user, n)) + products[productId].price
  {
    var added := cart[n := CartRow(user, productId, 1)];
    CartLinesUnchanged(cart, added, products, user, n);
    TotalStep(added, products, user, n + 1);
  }

  /** The lines below n depend only on the rows below n. */
  lemma {:induction false} CartLinesUnchanged(
    cart: map<Id, CartRow>, cart': map<Id, CartRow>, products: map<Id, Product>, user: Id, n: nat)
    requires forall id :: id < n ==> (id in cart <==> id in cart')
    requires forall id :: id < n && id in cart ==> cart'[id] == cart[id]
    ensures CartLines(cart', products, user, n) == CartLines(cart, products, user, n)
  {
    if n > 0 {
      CartLinesUnchanged(cart, cart', products, user, n - 1);
    }
  }

  /** After `DELETE FROM cart WHERE user_id = ?` the user's cart page is empty. */
  lemma DeletedCartIsEmpty(cart: map<Id, CartRow>, products: map<Id, Product>, user: Id, n: nat)
    ensures CartLines(DeleteRowsOf(cart, user), products, user, n) == []
  {
  }

  /** The same delete leaves every other user's cart page as it was. */
  lemma {:induction false} DeleteKeepsOtherCarts(
    cart: map<Id, CartRow>, products: map<Id, Product>, user: Id, other: Id, n: nat)
    requires other != user
    ensures CartLines(DeleteRowsOf(cart, user), products, other, n) == CartLines(cart, products, other, n)
  {
    if n > 0 {
      DeleteKeepsOtherCarts(cart, products, user, other, n - 1);
    }
  }

  /**
   * A cart whose rows all ask for at least one unit (the store's
   * PositiveCartQuantities invariant) has no negative subtotal, so its
   * total is never below 0.
   */
  lemma CartTotalNonNegative(cart: map<Id, CartRow>, products: map<Id, Product>, user: Id, n: nat)
    requires PositiveQuantities(cart)
    ensures NonNegativeSubtotals(CartLines(cart, products, user, n))
    ensures Total(CartLines(cart, products, user, n)) >= 0
  {
    var lines := CartLines(cart, products, user, n);
    forall k | 0 <= k < |lines|
      ensures lines[k].subtotal >= 0
    {
      assert JoinedLine(cart, products, user, lines[k]);
      assert lines[k].quantity >= 1;
    }
    TotalNonNegative(lines);
  }

  // ---------------------------------------------------------------------
  // order_confirmation: the order and its items joined with the products
  // ---------------------------------------------------------------------

  /** A row of the order items query. */
  datatype OrderLine = OrderLine(
    itemId: Id, orderId: Id, productId: Id, quantity: int, price: nat, name: string, brand: string)

  function OrderLineOf(itemId: Id, item: OrderItem, p: Product): OrderLine {
    OrderLine(itemId, item.orderId, item.productId, item.quantity, item.price, p.name, p.brand)
  }

  /** The item `id` belongs to the order and its product still exists. */
  predicate InOrder(items: map<Id, OrderItem>, products: map<Id, Product>, orderId: Id, id: Id) {
    id in items && items[id].orderId == orderId && items[id].productId in products
  }

  /** The items of `orderId` with id < n, joined with their products, in id order. */
  function OrderLines(items: map<Id, OrderItem>, products: map<Id, Product>, orderId: Id, n: nat)
    : (r: seq<OrderLine>)
    ensures forall i :: 0 <= i < |r| ==>
      r[i].itemId < n && InOrder(items, products, orderId, r[i].itemId)
      && r[i] == OrderLineOf(r[i].itemId, items[r[i].itemId], products[items[r[i].itemId].productId])
    ensures forall i, j :: 0 <= i < j < |r| ==> r[i].itemId < r[j].itemId
    decreases n
  {
    if n == 0 then []
    else
      var earlier := OrderLines(items, products, orderId, n - 1);
      if InOrder(items, products, orderId, n - 1)
      then earlier + [OrderLineOf(n - 1, items[n - 1], products[items[n - 1].productId])]
      else earlier
  }

  /**
   * Every item of the order whose product exists has its line (that no
   * other item has one is OrderLines' own postcondition).
   */
  lemma {:induction false} OrderLinesComplete(
    items: map<Id, OrderItem>, products: map<Id, Product>, orderId: Id, n: nat)
    ensures forall id: Id :: id < n && InOrder(items, products, orderId, id) ==>
      OrderLineOf(id, items[id], products[items[id].productId]) in OrderLines(items, products, orderId, n)
  {
    if n > 0 {
      OrderLinesComplete(items, products, orderId, n - 1);
    }
  }

  /** The amount an order's lines add up to, at their captured prices. */
  function LinesTotal(lines: seq<OrderLine>): int {
    if lines == [] then 0
    else LinesTotal(lines[..|lines| - 1]) + lines[|lines| - 1].quantity * lines[|lines| - 1].price
  }

  datatype Confirmation = Unauthenticated | OrderNotFound | Confirmed(order: Order, lines: seq<OrderLine>)

  /**
   * order_confirmation: an order is shown to its owner only; anyone else,
   * like a missing order, gets "Order not found".
   */
  function ConfirmOrder(
    orders: map<Id, Order>, items: map<Id, OrderItem>, products: map<Id, Product>, n: nat,
    user: Option<Id>, orderId: Id): (r: Confirmation)
    ensures user.None? <==> r == Unauthenticated
    ensures r.Confirmed? <==> user.Some? && orderId in orders && orders[orderId].userId == user.value
    ensures r.Confirmed? ==>
      r.order == orders[orderId] && (forall i :: 0 <= i < |r.lines| ==> r.lines[i].orderId == orderId)
  {
    if user.None? then Unauthenticated
    else if orderId in orders && orders[orderId].userId == user.value
    then Confirmed(orders[orderId], OrderLines(items, products, orderId, n))
    else OrderNotFound
  }

  /**
   * A shown order carries all of its items whose product exists, each
   * joined with its product, in item-id order, and no other line.
   */
  lemma ConfirmedOrderComplete(
    orders: map<Id, Order>, items: map<Id, OrderItem>, products: map<Id, Product>, n: nat,
    user: Option<Id>, orderId: Id)
    requires ConfirmOrder(orders, items, products, n, user, orderId).Confirmed?
    ensures var lines := ConfirmOrder(orders, items, products, n, user, orderId).lines;
      && (forall i :: 0 <= i < |lines| ==>
            lines[i].itemId < n && InOrder(items, products, orderId, lines[i].itemId)
            && lines[i] == OrderLineOf(lines[i].itemId, items[lines[i].itemId], products[items[lines[i].itemId].productId]))
      && (forall i, j :: 0 <= i < j < |lines| ==> lines[i].itemId < lines[j].itemId)
      && (forall id: Id :: id < n && InOrder(items, products, orderId, id) ==>
            OrderLineOf(id, items[id], products[items[id].productId]) in lines)
  {
    OrderLinesComplete(items, products, orderId, n);
  }

  /**
   * No item below `start` is of the order, and the items at start,
   * start + 1, ... are the order's, one per line of `lines`, with the
   * line's product (which exists), quantity and price.
   */
  ghost predicate WrittenAt(
    items: map<Id, OrderItem>, products: map<Id, Product>, orderId: Id, start: nat, lines: seq<CartLine>)
  {
    && (forall id :: id in items && id < start ==> items[id].orderId != orderId)
    && (forall k :: 0 <= k < |lines| ==>
          start + k in items && lines[k].productId in products
          && items[start + k] == OrderItem(orderId, lines[k].productId, lines[k].quantity, lines[k].price))
  }

  /**
   * The order lines of an order whose items were written at ids start,
   * start + 1, ..., one per cart line, are those cart lines in the same
   * order, with the same products, quantities and captured prices.
   */
  lemma {:induction false} PlacedOrderLines(
    items: map<Id, OrderItem>, products: map<Id, Product>, orderId: Id, start: nat, lines: seq<CartLine>, n: nat)
    requires WrittenAt(items, products, orderId, start, lines)
    requires n <= start + |lines|
    ensures var r := OrderLines(items, products, orderId, n);
      |r| == (if n <= start then 0 else n - start)
      && forall k :: 0 <= k < |r| ==>
        r[k].itemId == start + k && r[k].productId == lines[k].productId
        && r[k].quantity == lines[k].quantity && r[k].price == lines[k].price
  {
    if n > 0 {
      PlacedOrderLines(items, products, orderId, start, lines, n - 1);
      if n - 1 >= start {
        var k := n - 1 - start;
        assert 0 <= k < |lines| && lines[k].productId in products;
        assert items[n - 1] == OrderItem(orderId, lines[k].productId, lines[k].quantity, lines[k].price);
      }
    }
  }

  /** Lines that agree on quantity and price add up to the same total. */
  lemma {:induction false} LinesTotalMatchesCart(orderLines: seq<OrderLine>, cartLines: seq<CartLine>)
    requires |orderLines| == |cartLines|
    requires forall k :: 0 <= k < |cartLines| ==>
      orderLines[k].quantity == cartLines[k].quantity && orderLines[k].price == cartLines[k].price
      && cartLines[k].subtotal == cartLines[k].quantity * cartLines[k].price
    ensures LinesTotal(orderLines) == Total(cartLines)
  {
    if cartLines != [] {
      LinesTotalMatchesCart(orderLines[..|orderLines| - 1], cartLines[..|cartLines| - 1]);
    }
  }

  /**
   * The price snapshot: editing catalog prices (or stock) leaves an order's
   * lines as they were when the order was placed (and so also the total
   * LinesTotal gives them).
   */
  lemma {:induction false} SnapshotSurvivesPriceEdits(
    items: map<Id, OrderItem>, products: map<Id, Product>, edited: map<Id, Product>, orderId: Id, n: nat)
    requires edited.Keys == products.Keys
    requires forall p :: p in products ==> edited[p].name == products[p].name && edited[p].brand == products[p].brand
    ensures OrderLines(items, edited, orderId, n) == OrderLines(items, products, orderId, n)
  {
    if n > 0 {
      SnapshotSurvivesPriceEdits(items, products, edited, orderId, n - 1);
    }
  }

  // ---------------------------------------------------------------------
  // The users table
  // ---------------------------------------------------------------------

  /**
   * `SELECT id FROM users WHERE username = ? OR email = ?` finds a row: it
   * finds none exactly when every account has another username and another
   * email.
   */
  function Taken(users: map<Id, User>, username: string, email: string): (r: bool)
    ensures !r <==> forall id :: id in users ==> users[id].username != username && users[id].email != email
  {
    exists id | id in users :: users[id].username == username || users[id].email == email
  }

  /** No two accounts share a username or an email. */
  ghost predicate UniqueAccounts(users: map<Id, User>) {
    forall i, j :: i in users && j in users && i != j ==>
      users[i].username != users[j].username && users[i].email != users[j].email
  }
}
