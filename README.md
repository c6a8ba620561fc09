# NeoTech store: cart, checkout, payment and recommendations in Dafny

This project models the core of the NeoTech storefront (`STORENEW/server.js`), an
Express application over SQLite that takes payments through Paystack. It covers:

- **the session cart**, a map from product id to quantity, grown one unit at a time by
  `POST /cart/add` and priced by `GET /cart` against the `products` table;
- **checkout**, which turns the cart into an `orders` row and `order_items` rows (each
  item's unit price copied from the catalogue at that moment), asks the gateway to
  initialize a payment for the order total, and records the transaction reference and
  empties the cart only when the gateway accepts;
- **the payment callback**, which marks an order `PAID` when the gateway's verify reply
  reports success, and **the admin override** that writes any status string;
- **the related-products query** `recsByCategory` (eligible products of one category,
  ranked by units sold, then by creation time, at most six);
- **registration, login** and the `requireAuth` / `requireAdmin` guards.

Layout, one module per component:

| file | module | contents |
|---|---|---|
| `wrappers.dfy` | `Wrappers` | `Option` for SQL NULL, absent JSON fields and unset session keys |
| `http.dfy` | `Http` | `Outcome` (redirect, status + text, rendered page) and redirect targets |
| `tables.dfy` | `Tables` | rows of `products`, `users`, `orders`, `order_items`; per-order totals |
| `cart.dfy` | `Cart` | cart pricing (`ViewCart`), checkout line items, the reference sum |
| `recs.dfy` | `Recs` | `RecsByCategory`, its ranking and insertion sort |
| `payment.dfy` | `Payment` | gateway requests/replies, acceptance conditions, the reference format |
| `auth.dfy` | `Auth` | guards, the lookup by email, the login decision |
| `store.dfy` | `Store` | classes `Session` and `Database`; handlers `Checkout`, `PaystackCallback`, `SetOrderStatus`, `Register`, `Login` |
| `scenarios.dfy` | `Scenarios` | whole user journeys driven through the handlers' contracts |

State lives in two classes, as it does in the program: `Session` (`req.session`: the
principal and the cart) and `Database` (the tables and the AUTOINCREMENT counters of
`users` and `orders`). `Database.Valid()` holds the keys (unique product ids, unique
emails), the references of items to orders, and the invariant that **every order's
`total_cents` is the sum of `quantity * unit_price_cents` over its items**; every
handler preserves it. Tables that the handlers scan (`products`, `users`) are sequences
of rows in rowid order, so `SELECT ... WHERE id IN (...)` has a definite row order;
`orders`, only ever addressed by id, is a map.

Inputs the program gets from outside are parameters: the gateway's JSON replies
(`InitReply`, `VerifyReply`, with a `Failed` case for a network or parse error),
`Date.now()` and the random draw behind the reference, the result of `bcrypt.compare`
(a function parameter `matches`) and the output of `bcrypt.hash` (a string), and whether
the `INSERT INTO orders` statement succeeded.

Behaviour of the code that a reader might not expect, and that the model keeps:

- The callback sets `PAID` on the order named in the query string whatever its current
  status, and checks neither that the verified reference is the one stored on that order
  nor the amount paid (`PaystackCallback` states exactly this). No PENDING-to-PAID
  transition rule is enforced: a PAID order, or one an admin set to any status, is set
  to PAID again.
- A non-empty cart none of whose ids still name a product is not rejected: checkout
  writes an order of total 0 with no items and asks the gateway to initialize 0.
- Cart pricing and checkout ignore the `active` flag: an inactive product still resolves.
- `requireAdmin` answers 403 `Admin only`; it never redirects.

## Model

| member | source | states |
|---|---|---|
| `Store.Session.AddToCart` | STORENEW/server.js:172-181 | the product's quantity becomes its old value plus one (one if absent, and a session with no cart reads as empty); every other entry and the principal stay as they were; the JSON reply carries the new cart |
| `Store.Session.GetCart` | STORENEW/server.js:172 | the session's cart when one is set, and the empty cart when none is |
| `Cart.Resolve` | STORENEW/server.js:184-187 | the looked-up rows are exactly the table's products whose id is a key of the cart |
| `Cart.ViewCart` | STORENEW/server.js:182-191 | an empty cart renders no items and total 0 |
| `Cart.CartLines` | STORENEW/server.js:188 | one line per looked-up row, in row order, carrying that product, its cart quantity and quantity × its current price |
| `Cart.LinesTotalLast` | STORENEW/server.js:189 | the total is reached by adding the line totals one after another from the first line, as the `reduce` accumulates: the total of all lines is the total of all but the last plus the last line's total |
| `Cart.ViewCartTotal` | STORENEW/server.js:188-189 | the cart total equals the sum of quantity × price over the cart ids that resolve to a product, summed in any order; ids without a product add nothing |
| `Cart.ViewCartItems` | STORENEW/server.js:188 | each line is a catalogue product in the cart with the cart's quantity and line total quantity × current price, and every cart product in the catalogue has a line |
| `Cart.CheckoutLines` | STORENEW/server.js:201 | one line item per looked-up row, in row order, with that row's id, its cart quantity and its current price as the unit price |
| `Cart.ItemsTotalLast` | STORENEW/server.js:202 | the total is accumulated from the first item on, as the `reduce` does: the total of all items is the total of all but the last plus quantity × unit price of the last |
| `Store.CheckoutTotalIsCartTotal` | STORENEW/server.js:201-202 | for every cart (an empty one gives 0 on both sides), the total a checkout charges equals the total the cart view shows for the same cart |
| `Store.SnapshotPrices` | STORENEW/server.js:201-207 | each inserted item belongs to the new order, has the cart's quantity and copies the catalogue price of its product at checkout |
| `Store.ItemRowsTotal` | STORENEW/server.js:202-207 | the inserted items of an order add up to the total stored on it |
| `Store.NewOrderKeepsTotals` | STORENEW/server.js:203-207 | adding an order with its items keeps every order's total equal to the sum of its items |
| `Store.Database.InsertOrder` | STORENEW/server.js:203-208 | writes one PENDING order with a fresh id, no reference and the lines' total, then its items in order; nothing else changes; the totals invariant holds after |
| `Store.Database.SetReference` | STORENEW/server.js:216 | only the reference of that order changes |
| `Store.Checkout` | STORENEW/server.js:195-226 | no principal: redirect to /login; empty cart: redirect to /cart; failed order insert: 500; in all three nothing is written; otherwise the order and items are written, the gateway is asked for exactly the order total with reference and order id, and only an accepted reply stores the reference, empties the cart and redirects to the authorization URL; a refused or failed reply gives 500 and leaves the order PENDING with no reference and the cart as it was |
| `Store.PlaceOrder` | STORENEW/server.js:203-223 | the order-writing half of checkout with its accept/refuse/fail branches |
| `Store.PaystackCallback` | STORENEW/server.js:228-240 | missing or empty reference or order: 400 and nothing changes; a failed verify call: 500 and nothing changes; a reply with status and data.status 'success' or gateway_response 'Successful': the named order becomes PAID and the reply redirects to its success page; any other reply: redirect to /cart with orders unchanged; items and totals never change |
| `Store.WithStatus` | STORENEW/server.js:283 | an update by id changes only that order's status, and nothing when the id names no order |
| `Store.SetOrderStatus` | STORENEW/server.js:280-284 | a non-admin gets 403 and nothing changes; an admin sets any status string on the named order and is redirected to the order list |
| `Store.Register` | STORENEW/server.js:148-157 | a missing email or password gives 400; an email already present gives the "Email already used" page with no new row and no session change; otherwise one non-admin user is appended with the next id and becomes the session principal |
| `Store.Login` | STORENEW/server.js:159-168 | the session principal changes only on a successful login, and only to the account's principal |
| `Auth.Authenticate` | STORENEW/server.js:161-166 | a principal comes back exactly when an account has the email and the password matches its hash; every failure is the same 401 "Invalid credentials" page with no principal |
| `Auth.LoginFailuresAlike` | STORENEW/server.js:162-164 | an unknown email and a wrong password produce identical results |
| `Auth.LoginSignsInAccount` | STORENEW/server.js:161-165 | with unique emails, a matching password signs in as exactly the account with that email |
| `Auth.FindByEmail` | STORENEW/server.js:161 | the lookup finds a row with that email exactly when one exists |
| `Auth.RequireAuth` | STORENEW/server.js:102 | the handler runs exactly when there is a principal; otherwise redirect to /login |
| `Auth.RequireAdmin` | STORENEW/server.js:103 | the handler runs exactly when the principal is an admin (so also authenticated); otherwise 403 "Admin only" |
| `Payment.InitAccepted` | STORENEW/server.js:215 | an accepted initialize reply is a decoded body with `data` and an authorization URL that is non-empty; an empty URL is refused like a missing one, since it is falsy in JavaScript |
| `Payment.VerifySucceeded` | STORENEW/server.js:234 | a successful verify reply is a decoded body with a true `status` and a `data` object, and either `data.status == 'success'` or `gateway_response == 'Successful'` alone is enough |
| `Payment.Decimal` | STORENEW/server.js:209 | the decimal form of a number is non-empty, made of digits, one digit long exactly below 10 |
| `Payment.DecimalInjective` | STORENEW/server.js:209 | distinct numbers have distinct decimal forms |
| `Payment.Reference` | STORENEW/server.js:209 | a reference starts with "neotech-" |
| `Payment.ReferenceInjective` | STORENEW/server.js:209 | two references are equal only for the same millisecond and the same random draw |
| `Recs.RecsByCategory` | STORENEW/server.js:106-114 | at most six rows; a null category or a query error gives none |
| `Recs.Sold` | STORENEW/server.js:107-109 | the units sold of a product are 0 when no order item names it, and at least the quantity of every item that does |
| `Recs.Eligible` | STORENEW/server.js:110 | a product with a NULL category never qualifies; a qualifying product is active and is not the excluded one |
| `Recs.Candidates` | STORENEW/server.js:107-111 | the rows are exactly the active products of the category other than the excluded id, each with its units sold; with unique product ids no two rows are about the same product |
| `Recs.Outranks` | STORENEW/server.js:112 | a row ranks above another only with at least as many units sold, and always does with more |
| `Recs.OutranksOrder` | STORENEW/server.js:112 | the ranking is irreflexive, asymmetric and transitive, and two rows neither of which ranks above the other tie on both units sold and `created_at` |
| `Recs.Sort` | STORENEW/server.js:112 | the ranking is a permutation of its input in sold-descending, then created_at-descending order |
| `Recs.RecsEligible` | STORENEW/server.js:107-110 | every row is an active product of the category, not the excluded id, reported with its units sold (0 if never ordered) |
| `Recs.RecsDistinct` | STORENEW/server.js:111-113 | with unique product ids no product is recommended twice: sorting and the six-row cut keep the one row per product of `GROUP BY p.id` |
| `Recs.RecsOrdered` | STORENEW/server.js:112 | the rows are in sold-descending, then created_at-descending order |
| `Recs.RecsTop` | STORENEW/server.js:112-113 | an eligible product left out ranks no higher than any product returned |
| `Recs.RecsComplete` | STORENEW/server.js:113 | fewer than six rows come back only when every eligible product is among them |
| `Scenarios.AddTwiceThenView` | STORENEW/server.js:175-190 | adding one product twice shows quantity 2 and line total twice its price |
| `Scenarios.BuyOne` | STORENEW/server.js:195-238 | after an accepted initialize call the order holds the reference and the cart is empty; the order ends PAID exactly when verify reports success, and stays PENDING otherwise |
| `Scenarios.RefusedInit` | STORENEW/server.js:214-222 | a refused initialize call leaves the order PENDING with no reference and the cart untouched |

## Left out

- Express routing, EJS rendering, static files, helmet/CSP, rate limiting and CSRF tokens: framework plumbing with no store logic.
- The SQLite driver and the session store: tables are sequences and maps. Statement ordering and callbacks are not modelled as concurrency, and one session is passed to each handler.
- Database errors: only the failure of `INSERT INTO orders` (a flag) and of the recommendation query (a flag) are modelled. A failed product lookup in `/cart` or `/checkout`, which leaves `rows` undefined and throws, is not modelled. Neither is a failed `order_items` or reference write, whose errors the code ignores; those writes always succeed here.
- The `fetch` calls to Paystack: their decoded replies are parameters, and a network failure, a bad JSON body or a timeout is the single `Failed` case.
- `bcrypt.hash` and `bcrypt.compare`: a parameter string and a function parameter.
- `Date.now()` and `Math.random()`: the instant and the draw are parameters of `Checkout`.
- Request values are typed: the cart's product id, the callback's `order` and the admin route's `:id` are numbers, and a missing or empty form field is the empty string. JavaScript's string keys of the cart object and SQLite's loose comparison of text with integer ids (a non-numeric id matches no row) are not modelled. Neither is an absent admin `status` field, which would write NULL.
- The response time of a failed login is not modelled: an unknown email answers before `bcrypt.compare` runs, so it is faster than a wrong password, though the response and session are the same.
- Integers are unbounded: JavaScript's double-precision arithmetic on totals above 2^53 is not modelled.
- `created_at` and `updated_at` of orders are not modelled. A product's `created_at` is a number ordered like its timestamp text.
- Recs.RecsByCategory: rows that tie on both units sold and `created_at` keep table order. SQL leaves that order unspecified, and no contract states the tie order.
- Admin product and category create/delete, the catalogue pages (`/`, `/product/:id` with its view-event insert, `/category/:id`), `/account`, `/success`, `/logout` and the GET form pages: single database reads and writes with no logic.
- `STORENEW/seed.js`, `seed.js` and the root `server.js`: fixture loading and an earlier thin variant of the login flow.
