# Footwear storefront: cart and checkout model

This project models the cart and checkout logic of a small Flask footwear
store. The store keeps five SQLite tables: products, cart, orders,
order_items and users.

The model holds that database in a class, `Storefront.Store`:
- Each table is a map from row id to record.
- Each table has a `next...Id` counter that stands for its AUTOINCREMENT.

Each cart, checkout and registration handler becomes a method of
`Store`. The logged-in user is passed to each method as an `Option<Id>`,
where `None` means nobody is logged in. Every handler commits its writes
once, so each method is one atomic step.

The read queries are functions in the `Queries` module:
- the catalog filter;
- the lookup of a product by id;
- the cart/product join with its subtotals;
- the owner-scoped order confirmation.

The checkout loop is `Storefront.WriteOrderLines`. It does what the handler's
loop does, on plain maps, and its loop invariants are the proof. The `Scenarios` module calls the handlers in sequence on small
stores; each outcome there is proved from the handlers' contracts alone.

Modelling choices:
- **Prices** are integer cents (`nat`), not SQL REAL, so that totals are exact.
- **Stock and quantities** are unbounded integers. Nothing in the handlers
  keeps stock at or above zero, and the model states no such invariant.
- **Row order.** A SELECT without ORDER BY is read as a scan of ascending row
  ids. This is an assumption about SQLite's row order.
- **Product order.** `ORDER BY created_at DESC` is modelled as descending
  product id, assuming a later row has a later timestamp. `CURRENT_TIMESTAMP`
  has one-second resolution, so rows inserted in the same second tie; all six
  seed products go in through one `executemany` (app.py:89-97). SQLite leaves
  the order of such ties unspecified. Descending id is the model's own
  tie-break, not an order SQLite guarantees.
- **LIKE** is modelled as SQLite's default LIKE: ASCII-case-insensitive
  substring search. The search text is taken literally.

Where the code departs from the rules a storefront is expected to keep (a
stock ceiling on every add, stock never below zero, a ceiling on quantity
updates), the model follows the code:
- **First add.** A first add to the cart inserts a row with quantity 1 and
  never looks at the stock (app.py:260-264). Only a repeat add is held to the
  stock ceiling.
- **Negative stock.** Checkout lowers stock unconditionally, so stock can go
  below zero even with a single user. `Scenarios.FirstAddIgnoresStock` drives
  a product with no stock to -1.
- **Quantity update.** `update_cart` has no stock ceiling.
- **Checkout as written fails.** Checkout reads the new order's id from
  `conn.lastrowid` (app.py:336). A sqlite3 Connection has no such attribute,
  so as written the handler raises before its commit. `Store.Checkout` models
  the intended behaviour: the order id is the id just allocated to the order.
  `Store.CheckoutAsWritten` models the code as written (see Findings).

## Model

| member | source | states |
|---|---|---|
| Queries.ProductById | app.py:133-137 | The product lookup finds a product exactly when the id is in the table, and returns that row. |
| Queries.Like | app.py:124-125 | `text LIKE '%search%'` as an ASCII-case-insensitive substring test: an empty search text matches every text, a text matches any search text equal to it up to ASCII case, and a match needs a text at least as long as the search text. |
| Queries.LiteralOccurrenceMatches | app.py:124-125 | A text that contains the search text at some position matches it under LIKE. |
| Queries.Listed | app.py:116-126 | The WHERE clause of get_products: stock > 0, then `category = ?` when the category is truthy (`Given`: neither None nor ""), then a LIKE match on name, brand or description when the search text is truthy. A listed product is in stock and has the given category; with no category and no or an empty search text, exactly the products in stock pass. |
| Queries.ProductsListed | app.py:114-131 | Every listed product is in the table with its id, is in stock (stock > 0), matches the category when one is given, and contains the search text in its name, brand or description when one is given. The listing is newest first, with strictly descending ids. |
| Queries.ProductsListedComplete | app.py:114-131 | Every product that passes the filter is listed, so the listing holds exactly the matching products. |
| Queries.FindCartRow | app.py:248-249 | The lookup of add_to_cart returns a row of this user for this product when one exists, and that row is the first such row. It returns nothing only when no such row exists. |
| Queries.SetProductQuantity | app.py:255-256 | The UPDATE of add_to_cart keeps the same row ids, changes no row's user or product, sets the new quantity on every row of that user for that product, and leaves every other row's quantity as it was. |
| Queries.SetProductQuantityOnUniqueRow | app.py:255-256 | When rows are unique per (user, product), the UPDATE of add_to_cart changes only the found row's quantity. |
| Queries.SetProductQuantityKeepsRows | app.py:255-256 | The UPDATE keeps the same row ids. It keeps rows unique per (user, product), and it keeps quantities positive when the new quantity is at least 1. |
| Queries.InsertedRowKeepsUnique | app.py:260-263 | Inserting a row for a (user, product) pair the lookup did not find keeps rows unique. |
| Queries.DeleteRowsOf | app.py:346 | Checkout's `DELETE FROM cart WHERE user_id = ?` keeps exactly the rows of other users, each unchanged. |
| Queries.DeletedCartIsEmpty | app.py:346 | After that delete the user's cart page has no lines. |
| Queries.DeleteKeepsOtherCarts | app.py:346 | After that delete every other user's cart page is as it was. |
| Queries.LineOf | app.py:142 | One row of get_cart_items: the cart row's own columns, the product's current name, brand and price, and a subtotal equal to the line's quantity times its price. |
| Queries.CartLines | app.py:139-148 | Each cart line is one of the user's rows whose product exists, joined with that product's current name, brand and price, with subtotal = quantity × price. The lines come in row-id order. |
| Queries.CartLinesComplete | app.py:139-148 | Every row of the user whose product exists has its line: the join drops only rows of other users and rows of deleted products. |
| Queries.CartLinesUnchanged | app.py:139-148 | The lines of the rows with id below n depend only on those rows: two carts that agree on the ids below n give the same lines for them. |
| Queries.TotalNonNegative | app.py:324 | `Total` is `sum(item['subtotal'] for item in items)`, the total of the cart page (app.py:277) and of checkout. Lines none of whose subtotals is negative never total below 0. |
| Queries.CartTotalNonNegative | app.py:277 | When every cart row asks for at least one unit (the invariant the cart handlers preserve), no cart line has a negative subtotal and the cart total is never below 0. |
| Queries.TotalAppend | app.py:277 | Adding a line to the cart adds its subtotal to the total. |
| Queries.TotalStep | app.py:277 | Each row of the scan adds its subtotal to the cart total when it is the user's and its product exists. |
| Queries.AddedRowTotal | app.py:260-263 | Inserting a new row of one unit raises the user's cart total by the product's price. |
| Queries.RemoveLastRowTotal | app.py:306 | Deleting the user's newest row lowers the cart total by that row's subtotal. |
| Queries.TotalAfterRemove | app.py:306 | Deleting any one of the user's rows lowers the cart total by that row's subtotal. |
| Queries.PurchasedAbsent | app.py:339-343 | A product that none of the user's rows ask for is not bought at checkout. |
| Queries.PurchasedIsRowQuantity | app.py:339-343 | When rows are unique, checkout buys exactly the row's quantity of each product in the cart. |
| Queries.OrderLines | app.py:370-375 | Each confirmation line is an item of that order whose product exists, joined with the product's name and brand, and it keeps the item's captured price. The lines come in item-id order. |
| Queries.OrderLinesComplete | app.py:370-375 | Every item of the order whose product exists has its line: the join drops only items of other orders and items of deleted products. |
| Queries.ConfirmOrder | app.py:356-379 | Nobody logged in gets the login redirect. An order is shown only to the user who owns it. A missing order and another user's order are both "not found". A shown order carries only its own items. |
| Queries.ConfirmedOrderComplete | app.py:363-379 | A shown order carries all of its items whose product exists, each joined with its product, in item-id order, and no other line. |
| Queries.PlacedOrderLines | app.py:339-341 | Items written at consecutive fresh ids, one per cart line, appear on the confirmation page in cart order, with the same products, quantities and prices. |
| Queries.LinesTotalMatchesCart | app.py:324 | Order lines that agree with the cart lines on quantity and price add up to the cart total. |
| Queries.SnapshotSurvivesPriceEdits | app.py:339-341 | Changing product prices or stock later leaves an order's lines unchanged, because the price was copied into the order item; so their total is unchanged too. |
| Queries.Taken | app.py:192-193 | The lookup of register finds no account exactly when every account has another username and another email. |
| Storefront.Catalog | app.py:90-96 | Inserting a catalog into an empty products table puts its k-th product at id k, and no other ids are used. |
| Storefront.ItemOf | app.py:340-341 | The order item written for a cart line carries the order id and the line's product, quantity and current price, so its amount equals the line's subtotal. |
| Storefront.WriteOrderLines | app.py:339-343 | The checkout loop adds one order item per cart line, at consecutive fresh ids and in cart order, with the line's product, quantity and price. It keeps the old items, and lowers each product's stock by exactly the units the lines buy. |
| Storefront.AppendedItemsBelong | app.py:330-343 | After checkout's inserts, every order item belongs to an existing order and its id is below the next id. |
| Storefront.PlacedOrderShown | app.py:356-379 | After checkout's writes, the new order's confirmation page shows the cart lines with the cart's total. |
| Storefront.Store.constructor | app.py:90-96 | A store whose products are the given catalog at ids 1, 2, ..., with every other table empty. |
| Storefront.Store.CatalogListing | app.py:114-131 | get_products over the whole products table: exactly the products that pass the filter, each with its id and its current record, newest (highest id) first. |
| Storefront.Store.CartOf | app.py:319 | The cart lines of the logged-in user, as the cart page (app.py:276) and checkout read them: only that user's rows, each for a product in the catalog. |
| Storefront.Store.OrderConfirmation | app.py:356-379 | The confirmation page as the store stands: nobody logged in gets the login redirect, only the owner sees the order, and a shown order's lines are items of that order. |
| Storefront.Store.AddToCart | app.py:234-268 | With nobody logged in, or with an unknown product, nothing changes. For a product the user already has in the cart, the found row goes up by one unit only if that stays within the current stock; otherwise the outcome is "not enough stock" and nothing changes. For a product not yet in the cart, exactly one row (user, product, 1) is inserted, with no stock check. Only the cart changes, and uniqueness of rows and positive quantities are preserved. |
| Storefront.Store.UpdateCart | app.py:280-297 | With nobody logged in, or a quantity below 1, nothing changes. Otherwise the quantity is set, with no stock ceiling, on the row with that id only if it is the caller's; every other row is unchanged. Uniqueness of rows and positive quantities are preserved. |
| Storefront.Store.RemoveFromCart | app.py:299-311 | Only the row with that id, and only if it is the caller's, is deleted. The cart total drops by its subtotal, and nothing else changes. |
| Storefront.Store.Checkout | app.py:313-354 | With nobody logged in, or an empty cart, nothing changes. Otherwise, in one step: one order for the user carrying the cart total; one item per cart line with product, quantity and price; each product's stock lowered by the units bought (by the row's quantity when rows are unique); exactly the caller's cart rows deleted, which leaves the caller's cart page empty. The confirmation page then shows the order with its items and total. |
| Storefront.Store.CheckoutAsWritten | app.py:333-336 | The handler as written: with a non-empty cart it fails with an error before committing, and so never places an order. |
| Storefront.Store.PlaceOrder | app.py:330-343 | The committed writes of checkout other than the cart delete: the new order, its items and the stock decrements, with the cart and user tables untouched. |
| Storefront.Store.Register | app.py:177-208 | Mismatched passwords, or a username or email already in use, are refused and nothing changes. Otherwise exactly one non-admin user is added at the next id. Unique usernames and emails are preserved. |
| Scenarios.FirstAddIgnoresStock | app.py:260-264 | An out-of-stock product can still be added and checked out, which leaves its stock at -1. |
| Scenarios.AddFirstTwice | app.py:248-257 | A second add of the same product raises the existing row to 2 and inserts no second row. |
| Scenarios.FillExampleCart | app.py:234-268 | Three adds give one row per product, with quantities 2 and 1. |
| Scenarios.ExampleCartTotal | app.py:270-278 | That cart page lists two lines totalling 25.00 (2 × 10.00 + 1 × 5.00). |
| Scenarios.CheckoutExample | app.py:313-354 | Checking out that cart places order 1 with total 25.00 and lowers the two stocks from 10 and 5 to 8 and 4. |
| Scenarios.StockLimitsSecondAdd | app.py:253-259 | With one unit in stock, a second add is refused and the row keeps quantity 1. |
| Scenarios.OnlyOwnerSeesOrder | app.py:356-379 | The placed order is shown to its owner with total 25.00 and two lines; another user gets "not found", and nobody logged in gets the login redirect. |
| Scenarios.LastRowIdDiscrepancy | app.py:336 | On the example cart, checkout as written fails, while the intended checkout places order 1. |

## Left out

- Login, logout and the session cookie: the logged-in user is a parameter of every method.
- Password hashing (`generate_password_hash`, `check_password_hash`): the hash is an opaque string passed to `Register`.
- The admin dashboard, the admin product list and `admin_add_product`: these are counting and form parsing behind the is_admin gate.
- `init_db` table creation and its seed rows. Only the insertion order of a catalog is modelled (`Store.constructor`).
- Routing, templates, flash messages, redirects and JSON replies. Each handler's message becomes an `Outcome` value.
- The GET form of checkout, which only renders the cart and its total; that total is `Total(CartOf(user))`.
- The `index`, `category_products`, `search` and `product_detail` views, which only call the modelled catalog queries.
- Floating-point prices and totals: prices are integer cents.
- `image_url` and `created_at` columns. Ordering by `created_at` is modelled as ordering by id.
- LIKE's `%` and `_` wildcards inside the search text, and case folding beyond ASCII.
- The unused `uuid.uuid4()` assignment in checkout (app.py:332).
- Concurrent requests, including two checkouts over-selling the same stock: each method is one atomic step.
- update_cart with a missing or non-numeric `quantity` in the JSON body: the Python comparison raises TypeError. The model takes the quantity as an integer.
- Integers beyond SQLite's 64-bit INTEGER (the ids in the add_to_cart, remove_from_cart and order_confirmation URLs, and update_cart's `cart_id` and `quantity`): sqlite3 raises OverflowError when binding them, so the handler fails with no write. The model takes unbounded integers and answers as for any other value.
- Missing form fields (`shipping_address` at checkout, and register's four fields): Flask aborts with a 400 before any write. The model takes every field as present.
- Storefront.Store.Checkout: the stock clause per cart row is stated only when rows are unique per (user, product). Without uniqueness, the general clause (stock lowered by all units bought) still holds.

## Findings

| source | as written | input that shows it | evidently intended | confidence | as-written member | corrected member |
|---|---|---|---|---|---|---|
| app.py:336 | The new order's id is read from `conn.lastrowid`, an attribute a sqlite3 Connection does not have, so the handler raises AttributeError before its commit and no order is ever placed. | A logged-in POST to checkout with a non-empty cart, such as the example cart of `Scenarios.LastRowIdDiscrepancy`. | The order id is the id the INSERT into orders just allocated (the cursor's `lastrowid`). The order, its items, the stock decrements and the cart delete are then committed together. | not executed; relies on sqlite3's documented Connection attributes | Storefront.Store.CheckoutAsWritten | Storefront.Store.Checkout |
