/**
 * Sequences of handler calls on small stores, whose outcomes follow from
 * the handlers' contracts alone: they pin the contracts down on concrete
 * cases (the checkout example, the unchecked first add, the order id).
 */
module Scenarios {
  import opened Schema
  import opened Queries
  import opened Storefront

  /**
   * A first add of a product that is out of stock is still accepted, and
   * checking it out drives the stock below zero.
   */
  method FirstAddIgnoresStock() returns (added: Outcome, placed: Outcome, stock: int)
    ensures added == ItemAdded && placed.OrderPlaced? && stock == -1
  {
    var shoe := Product("Runner", "Acme", "shoes", "42", "black", 5000, 0, "");
    var store := new Store([shoe]);
    added := store.AddToCart(Some(1), 1);
    ghost var cart, products := store.cart, store.products;
    assert CartLines(cart, products, 1, 1) == [];
    assert InCartOf(cart, products, 1, 1);
    placed := store.Checkout(Some(1), "1 Main St");
    stock := store.products[1].stock;
  }

  /** The two products of the checkout example: 10.00 and 5.00, ten and five in stock. */
  function ExampleCatalog(): seq<Product> {
    [Product("Court", "Acme", "shoes", "42", "white", 1000, 10, ""),
     Product("Trail", "Acme", "shoes", "43", "green", 500, 5, "")]
  }

  /**
   * A second add of a product the user already has raises the quantity of
   * their row instead of inserting another.
   */
  method AddFirstTwice(user: Id) returns (store: Store)
    ensures fresh(store) && store.Valid() && store.UniqueCartRows()
    ensures store.products == Catalog(ExampleCatalog()) && store.nextCartId == 2 && store.nextOrderId == 1
    ensures store.cart.Keys == {1} && store.cart[1] == CartRow(user, 1, 2)
  {
    store := new Store(ExampleCatalog());
    var first := store.AddToCart(Some(user), 1);
    var again := store.AddToCart(Some(user), 1);
    assert again == CartUpdated;
  }

  /** The cart of the checkout example: two units of the first product, one of the second. */
  method FillExampleCart(user: Id) returns (store: Store)
    ensures fresh(store) && store.Valid() && store.UniqueCartRows()
    ensures store.products == Catalog(ExampleCatalog()) && store.nextCartId == 3 && store.nextOrderId == 1
    ensures store.cart.Keys == {1, 2}
    ensures store.cart[1] == CartRow(user, 1, 2) && store.cart[2] == CartRow(user, 2, 1)
  {
    store := AddFirstTwice(user);
    var other := store.AddToCart(Some(user), 2);
  }

  /** The example cart page lists two lines, which add up to 25.00. */
  lemma ExampleCartTotal(cart: map<Id, CartRow>, products: map<Id, Product>, user: Id)
    requires products == Catalog(ExampleCatalog())
    requires cart.Keys == {1, 2} && cart[1] == CartRow(user, 1, 2) && cart[2] == CartRow(user, 2, 1)
    ensures |CartLines(cart, products, user, 3)| == 2
    ensures Total(CartLines(cart, products, user, 3)) == 2500
  {
    var lineA := LineOf(1, cart[1], products[1]);
    var lineB := LineOf(2, cart[2], products[2]);
    assert CartLines(cart, products, user, 1) == [];
    assert CartLines(cart, products, user, 2) == [lineA];
    assert CartLines(cart, products, user, 3) == [lineA, lineB];
    assert products[1].price == 1000 && products[2].price == 500;
    TotalAppend([], lineA);
    TotalAppend([lineA], lineB);
    assert [] + [lineA] == [lineA] && [lineA] + [lineB] == [lineA, lineB];
  }

  /**
   * Two units of the 10.00 product and one of the 5.00 product: the
   * order's total is 25.00 and each stock goes down by the units bought.
   */
  method CheckoutExample() returns (placed: Outcome, total: int, stockA: int, stockB: int)
    ensures placed == OrderPlaced(1) && total == 2500 && stockA == 8 && stockB == 4
  {
    var store := FillExampleCart(7);
    ExampleCartTotal(store.cart, store.products, 7);
    placed := store.Checkout(Some(7), "1 Main St");
    total := store.orders[1].totalAmount;
    stockA := store.products[1].stock;
    stockB := store.products[2].stock;
  }

  /**
   * Once a row asks for every unit in stock, a further add is refused and
   * the row keeps its quantity.
   */
  method StockLimitsSecondAdd() returns (first: Outcome, second: Outcome, quantity: int)
    ensures first == ItemAdded && second == NotEnoughStock && quantity == 1
  {
    var store := new Store([Product("Solo", "Acme", "hats", "M", "red", 2000, 1, "")]);
    first := store.AddToCart(Some(3), 1);
    second := store.AddToCart(Some(3), 1);
    quantity := store.cart[1].quantity;
  }

  /**
   * The confirmation page of a placed order is shown to the user who placed
   * it, with the cart's total; another user is told it does not exist, and
   * nobody logged in is sent to the login page.
   */
  method OnlyOwnerSeesOrder() returns (mine: Confirmation, theirs: Confirmation, anonymous: Confirmation)
    ensures mine.Confirmed? && mine.order.totalAmount == 2500 && |mine.lines| == 2
    ensures theirs == OrderNotFound && anonymous == Unauthenticated
  {
    var store := FillExampleCart(7);
    ExampleCartTotal(store.cart, store.products, 7);
    var placed := store.Checkout(Some(7), "1 Main St");
    mine := store.OrderConfirmation(Some(7), 1);
    theirs := store.OrderConfirmation(Some(8), 1);
    anonymous := store.OrderConfirmation(None, 1);
  }

  /**
   * On the example cart, checkout as written fails without placing the
   * order, where the intended checkout places order 1.
   */
  method LastRowIdDiscrepancy() returns (asWritten: Outcome, intended: Outcome)
    ensures asWritten == ServerError && intended == OrderPlaced(1)
  {
    var store := FillExampleCart(7);
    ExampleCartTotal(store.cart, store.products, 7);
    asWritten := store.CheckoutAsWritten(Some(7), "1 Main St");
    intended := store.Checkout(Some(7), "1 Main St");
  }
}
