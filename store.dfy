/**
 * The store's mutable state and the request handlers that change it: the
 * session (principal and cart), the database tables, cart add, checkout,
 * the payment callback, the admin status override, registration and login.
 */
module Store {
  import opened Wrappers
  import opened Tables
  import opened Http
  import opened Cart
  import opened Payment
  import Auth

  /** One browser session (`req.session`). */
  class Session {
    var user: Option<Principal>
    var cart: Option<CartMap>     // unset until the first add

    constructor ()
      ensures user.None? && cart.None?
    {
      user := None;
      cart := None;
    }

    /** `getCart`: a session without a cart reads as the empty cart. */
    function GetCart(): (c: CartMap)
      reads this
      ensures cart.Some? ==> c == cart.value
      ensures cart.None? ==> c == map[]
    {
      cart.GetOr(map[])
    }

    /** `POST /cart/add`: one more of `productId`, every other entry as it was.
        Returns the cart sent back as JSON. */
    method AddToCart(productId: int) returns (sent: CartMap)
      modifies this
      ensures cart == Some(sent) && user == old(user)
      ensures sent.Keys == old(GetCart()).Keys + {productId}
      ensures sent[productId] == (if productId in old(GetCart()) then old(GetCart())[productId] else 0) + 1
      ensures forall q :: q in sent && q != productId ==> sent[q] == old(GetCart())[q]
    {
      var c := GetCart();
      c := c[productId := (if productId in c then c[productId] else 0) + 1];
      cart := Some(c);
      sent := c;
    }
  }

  /** The database file: the tables the handlers read and write, and the
      AUTOINCREMENT counters of `users` and `orders`. */
  class Database {
    var products: seq<Product>
    var users: seq<User>
    var orders: map<int, Order>
    var items: seq<OrderItem>
    var lastUserId: int
    var lastOrderId: nat

    /** Keys and references hold, and every order's total is the sum of the
        line totals of its items. */
    ghost predicate Valid()
      reads this
    {
      && UniqueIds(products)
      && Auth.UniqueEmails(users)
      && (forall i :: 0 <= i < |users| ==> users[i].id <= lastUserId)
      && (forall id :: id in orders ==> 0 < id <= lastOrderId)
      && (forall i :: 0 <= i < |items| ==> items[i].orderId in orders)
      && (forall id :: id in orders ==> orders[id].totalCents == OrderTotal(items, id))
    }

    /** A database seeded with a catalogue and accounts and no orders yet. */
    constructor (products: seq<Product>, users: seq<User>, lastUserId: int)
      requires UniqueIds(products) && Auth.UniqueEmails(users)
      requires forall i :: 0 <= i < |users| ==> users[i].id <= lastUserId
      ensures Valid()
      ensures this.products == products && this.users == users && this.lastUserId == lastUserId
      ensures orders == map[] && items == [] && lastOrderId == 0
    {
      this.products := products;
      this.users := users;
      this.lastUserId := lastUserId;
      orders := map[];
      items := [];
      lastOrderId := 0;
    }

    /** `INSERT INTO orders (user_id, status, total_cents) VALUES (?, 'PENDING', ?)`
        followed by one `INSERT INTO order_items` per line, in order. */
    method InsertOrder(userId: int, lines: seq<LineItem>) returns (id: int)
      requires Valid()
      modifies this
      ensures Valid()
      ensures id == old(lastOrderId) + 1 && id !in old(orders) && lastOrderId == id
      ensures orders == old(orders)[id := Order(userId, Pending, ItemsTotal(lines), None)]
      ensures items == old(items) + ItemRows(id, lines)
      ensures products == old(products) && users == old(users) && lastUserId == old(lastUserId)
    {
      id := lastOrderId + 1;
      var order := Order(userId, Pending, ItemsTotal(lines), None);
      lastOrderId := id;
      orders := orders[id := order];
      var i := 0;
      while i < |lines|
        invariant 0 <= i <= |lines|
        invariant items == old(items) + ItemRows(id, lines[..i])
        invariant orders == old(orders)[id := order]
        invariant products == old(products) && users == old(users)
        invariant lastUserId == old(lastUserId) && lastOrderId == id
      {
        assert ItemRows(id, lines[..i + 1]) == ItemRows(id, lines[..i]) + [ItemRows(id, lines)[i]];
        items := items + [OrderItem(id, lines[i].productId, lines[i].quantity, lines[i].unitPriceCents)];
        i := i + 1;
      }
      assert lines[..i] == lines;
      NewOrderKeepsTotals(old(orders), old(items), id, lines, order);
    }

    /** `UPDATE orders SET paystack_reference = ? WHERE id = ?` */
    method SetReference(id: int, reference: string)
      requires Valid() && id in orders
      modifies this
      ensures Valid()
      ensures orders == old(orders)[id := old(orders)[id].(reference := Some(reference))]
      ensures products == old(products) && users == old(users) && items == old(items)
      ensures lastUserId == old(lastUserId) && lastOrderId == old(lastOrderId)
    {
      orders := orders[id := orders[id].(reference := Some(reference))];
    }
  }

  /** A query-string value that is present and not empty. */
  predicate Present(v: Option<string>) {
    v.Some? && v.value != ""
  }

  /** The `order_items` rows a checkout inserts for order `orderId`. */
  function ItemRows(orderId: int, lines: seq<LineItem>): (rows: seq<OrderItem>)
    ensures |rows| == |lines|
    ensures forall k :: 0 <= k < |lines| ==>
      rows[k] == OrderItem(orderId, lines[k].productId, lines[k].quantity, lines[k].unitPriceCents)
  {
    seq(|lines|, k requires 0 <= k < |lines| =>
      OrderItem(orderId, lines[k].productId, lines[k].quantity, lines[k].unitPriceCents))
  }

  /** The rows inserted for an order add up to the total computed for it. */
  lemma {:induction false} ItemRowsTotal(orderId: int, lines: seq<LineItem>)
    ensures OrderTotal(ItemRows(orderId, lines), orderId) == ItemsTotal(lines)
    decreases |lines|
  {
    if lines != [] {
      var rows := ItemRows(orderId, lines);
      assert rows == rows[..1] + ItemRows(orderId, lines[1..]);
      ItemRowsTotal(orderId, lines[1..]);
      OrderTotalAppend(rows[..1], ItemRows(orderId, lines[1..]), orderId);
      assert rows[..1][..0] == [];
    }
  }

  /** Each inserted row copies the product's current price and the cart's
      quantity: the unit price is a snapshot taken at checkout. */
  lemma SnapshotPrices(ps: seq<Product>, cart: CartMap, orderId: int)
    requires UniqueIds(ps)
    ensures var rows := ItemRows(orderId, CheckoutLines(Resolve(ps, cart), cart));
      forall i :: 0 <= i < |rows| ==>
        && rows[i].orderId == orderId
        && rows[i].productId in cart && rows[i].productId in Catalogue(ps)
        && rows[i].quantity == cart[rows[i].productId]
        && rows[i].unitPriceCents == Catalogue(ps)[rows[i].productId].priceCents
  {
    var resolved := Resolve(ps, cart);
    var rows := ItemRows(orderId, CheckoutLines(resolved, cart));
    forall i | 0 <= i < |rows|
      ensures rows[i].productId in Catalogue(ps) && Catalogue(ps)[rows[i].productId] == resolved[i]
    {
      assert resolved[i] in ps;
      var j :| 0 <= j < |ps| && ps[j] == resolved[i];
      CatalogueAt(ps, j);
    }
  }

  /** In a table with unique ids, looking a row's id up finds that row. */
  lemma {:induction false} CatalogueAt(ps: seq<Product>, j: nat)
    requires UniqueIds(ps) && j < |ps|
    ensures ps[j].id in Catalogue(ps) && Catalogue(ps)[ps[j].id] == ps[j]
    decreases j
  {
    if j > 0 {
      HeadIdNotInRest(ps);
      assert ps[1..][j - 1] == ps[j];
      CatalogueAt(ps[1..], j - 1);
    }
  }

  /** A checkout's order total is the cart view's total for the same cart. */
  lemma CheckoutTotalIsCartTotal(ps: seq<Product>, cart: CartMap)
    ensures ItemsTotal(CheckoutLines(Resolve(ps, cart), cart)) == ViewCart(ps, cart).total
  {
    CheckoutTotalIsLinesTotal(Resolve(ps, cart), cart);
  }

  /** `UPDATE orders SET status = ? WHERE id = ?`: no row changes when the id
      is unknown, and only the status of the named row otherwise. */
  function WithStatus(orders: map<int, Order>, id: int, status: string): (r: map<int, Order>)
    ensures r.Keys == orders.Keys
    ensures forall k :: k in r ==>
      r[k] == if k == id then orders[k].(status := status) else orders[k]
  {
    if id in orders then orders[id := orders[id].(status := status)] else orders
  }

  /** The totals invariant survives the arrival of a new order with its items. */
  lemma NewOrderKeepsTotals(oldOrders: map<int, Order>, oldItems: seq<OrderItem>, id: int, lines: seq<LineItem>, order: Order)
    requires id !in oldOrders
    requires forall i :: 0 <= i < |oldItems| ==> oldItems[i].orderId in oldOrders
    requires forall o :: o in oldOrders ==> oldOrders[o].totalCents == OrderTotal(oldItems, o)
    requires order.totalCents == ItemsTotal(lines)
    ensures var orders, items := oldOrders[id := order], oldItems + ItemRows(id, lines);
      && (forall i :: 0 <= i < |items| ==> items[i].orderId in orders)
      && (forall o :: o in orders ==> orders[o].totalCents == OrderTotal(items, o))
  {
    var rows := ItemRows(id, lines);
    var orders, items := oldOrders[id := order], oldItems + rows;
    forall o | o in orders ensures orders[o].totalCents == OrderTotal(items, o) {
      OrderTotalAppend(oldItems, rows, o);
      if o == id {
        OrderTotalOfOthers(oldItems, id);
        ItemRowsTotal(id, lines);
      } else {
        OrderTotalOfOthers(rows, o);
      }
    }
  }

  /** `POST /checkout`. `inserted` says whether the order row was written;
      `now` and `rand` are `Date.now()` and the random draw; `reply` is the
      gateway's answer to the initialize call. Returns the response and the
      initialize request sent, if any. */
  method Checkout(db: Database, s: Session, inserted: bool, now: nat, rand: nat, reply: InitReply)
    returns (out: Outcome, sent: Option<InitRequest>)
    requires db.Valid() && rand < 10000
    modifies db, s
    ensures db.Valid() && s.user == old(s.user)
    ensures db.products == old(db.products) && db.users == old(db.users) && db.lastUserId == old(db.lastUserId)
    ensures old(s.user).None? ==>
      out == Redirect(LoginPage) && sent.None? && unchanged(db) && unchanged(s)
    ensures old(s.user).Some? && |old(s.GetCart())| == 0 ==>
      out == Redirect(CartPage) && sent.None? && unchanged(db) && unchanged(s)
    ensures old(s.user).Some? && |old(s.GetCart())| > 0 && !inserted ==>
      out == Text(500, "Order error") && sent.None? && unchanged(db) && unchanged(s)
    ensures old(s.user).Some? && |old(s.GetCart())| > 0 && inserted ==>
      var id := old(db.lastOrderId) + 1;
      var user := old(s.user).value;
      var lines := CheckoutLines(Resolve(old(db.products), old(s.GetCart())), old(s.GetCart()));
      var total := ItemsTotal(lines);
      var reference := Reference(now, rand);
      && id !in old(db.orders)
      && db.lastOrderId == id
      && db.items == old(db.items) + ItemRows(id, lines)
      && sent == Some(InitRequest(user.email, total, reference, id))
      && (InitAccepted(reply) ==>
            && db.orders == old(db.orders)[id := Order(user.id, Pending, total, Some(reference))]
            && s.cart == Some(map[])
            && out == Redirect(External(reply.data.value.authorizationUrl.value)))
      && (!InitAccepted(reply) ==>
            && db.orders == old(db.orders)[id := Order(user.id, Pending, total, None)]
            && s.cart == old(s.cart)
            && out == if reply.InitFailed? then Text(500, "Paystack error: " + reply.message)
                      else Text(500, "Paystack init failed"))
  {
    sent := None;
    var gate := Auth.RequireAuth(s.user);
    if gate.Some? {
      return gate.value, None;
    }
    var cart := s.GetCart();
    if |cart| == 0 {
      return Redirect(CartPage), None;
    }
    var lines := CheckoutLines(Resolve(db.products, cart), cart);
    var total := ItemsTotal(lines);
    if !inserted {
      return Text(500, "Order error"), None;
    }
    var init;
    out, init := PlaceOrder(db, s, s.user.value, lines, Reference(now, rand), reply);
    sent := Some(init);
  }

  /** The part of `POST /checkout` after the product lookup: the order and its
      items are written, the gateway is asked to initialize a payment of the
      order's total, and only an accepted reply records the reference and
      empties the cart. */
  method PlaceOrder(db: Database, s: Session, user: Principal, lines: seq<LineItem>, reference: string, reply: InitReply)
    returns (out: Outcome, sent: InitRequest)
    requires db.Valid()
    modifies db, s
    ensures db.Valid() && s.user == old(s.user)
    ensures db.products == old(db.products) && db.users == old(db.users) && db.lastUserId == old(db.lastUserId)
    ensures var id := old(db.lastOrderId) + 1;
      var total := ItemsTotal(lines);
      && id !in old(db.orders)
      && db.lastOrderId == id
      && db.items == old(db.items) + ItemRows(id, lines)
      && sent == InitRequest(user.email, total, reference, id)
      && (InitAccepted(reply) ==>
            && db.orders == old(db.orders)[id := Order(user.id, Pending, total, Some(reference))]
            && s.cart == Some(map[])
            && out == Redirect(External(reply.data.value.authorizationUrl.value)))
      && (!InitAccepted(reply) ==>
            && db.orders == old(db.orders)[id := Order(user.id, Pending, total, None)]
            && s.cart == old(s.cart)
            && out == if reply.InitFailed? then Text(500, "Paystack error: " + reply.message)
                      else Text(500, "Paystack init failed"))
  {
    var id := db.InsertOrder(user.id, lines);
    sent := InitRequest(user.email, ItemsTotal(lines), reference, id);
    if reply.InitFailed? {
      out := Text(500, "Paystack error: " + reply.message);
    } else if InitAccepted(reply) {
      db.SetReference(id, reference);
      s.cart := Some(map[]);
      out := Redirect(External(reply.data.value.authorizationUrl.value));
    } else {
      out := Text(500, "Paystack init failed");
    }
  }

  /** `GET /paystack/callback?reference&order`. `reply` is the gateway's answer
      to the verify call for `reference`. The order named in the query becomes
      PAID, whatever its status and stored reference were, exactly when the
      reply reports success. */
  method PaystackCallback(db: Database, reference: Option<string>, order: Option<nat>, reply: VerifyReply)
    returns (out: Outcome)
    requires db.Valid()
    modifies db
    ensures db.Valid()
    ensures db.products == old(db.products) && db.users == old(db.users) && db.items == old(db.items)
    ensures db.lastUserId == old(db.lastUserId) && db.lastOrderId == old(db.lastOrderId)
    ensures !Present(reference) || order.None? ==>
      out == Text(400, "Missing params") && db.orders == old(db.orders)
    ensures Present(reference) && order.Some? && reply.VerifyFailed? ==>
      out == Text(500, "Verify error: " + reply.message) && db.orders == old(db.orders)
    ensures Present(reference) && order.Some? && VerifySucceeded(reply) ==>
      out == Redirect(SuccessPage(order.value)) && db.orders == WithStatus(old(db.orders), order.value, Paid)
    ensures Present(reference) && order.Some? && reply.VerifyBody? && !VerifySucceeded(reply) ==>
      out == Redirect(CartPage) && db.orders == old(db.orders)
  {
    if !Present(reference) || order.None? {
      return Text(400, "Missing params");
    }
    if reply.VerifyFailed? {
      return Text(500, "Verify error: " + reply.message);
    }
    if VerifySucceeded(reply) {
      db.orders := WithStatus(db.orders, order.value, Paid);
      out := Redirect(SuccessPage(order.value));
    } else {
      out := Redirect(CartPage);
    }
  }

  /** `POST /admin/orders/:id/status`: an admin may write any status string. */
  method SetOrderStatus(db: Database, s: Session, id: int, status: string) returns (out: Outcome)
    requires db.Valid()
    modifies db
    ensures db.Valid()
    ensures db.products == old(db.products) && db.users == old(db.users) && db.items == old(db.items)
    ensures db.lastUserId == old(db.lastUserId) && db.lastOrderId == old(db.lastOrderId)
    ensures Auth.RequireAdmin(s.user).Some? ==>
      out == Text(403, "Admin only") && db.orders == old(db.orders)
    ensures Auth.RequireAdmin(s.user).None? ==>
      out == Redirect(AdminOrders) && db.orders == WithStatus(old(db.orders), id, status)
  {
    var gate := Auth.RequireAdmin(s.user);
    if gate.Some? {
      return gate.value;
    }
    db.orders := WithStatus(db.orders, id, status);
    out := Redirect(AdminOrders);
  }

  /** `POST /register`. `hashed` is the bcrypt hash of `password`; an empty
      string stands for a missing form field. */
  method Register(db: Database, s: Session, name: string, email: string, password: string, hashed: string)
    returns (out: Outcome)
    requires db.Valid()
    modifies db, s
    ensures db.Valid()
    ensures db.products == old(db.products) && db.orders == old(db.orders) && db.items == old(db.items)
    ensures db.lastOrderId == old(db.lastOrderId) && s.cart == old(s.cart)
    ensures email == "" || password == "" ==>
      out == Text(400, "Missing fields") && unchanged(db) && unchanged(s)
    ensures email != "" && password != "" && Auth.FindByEmail(old(db.users), email).Some? ==>
      out == Render(400, "register", Some("Email already used")) && unchanged(db) && unchanged(s)
    ensures email != "" && password != "" && Auth.FindByEmail(old(db.users), email).None? ==>
      var id := old(db.lastUserId) + 1;
      && db.users == old(db.users) + [User(id, name, email, hashed, false)]
      && db.lastUserId == id
      && s.user == Some(Principal(id, email, name, false))
      && out == Redirect(Home)
  {
    if email == "" || password == "" {
      return Text(400, "Missing fields");
    }
    if Auth.FindByEmail(db.users, email).Some? {
      return Render(400, "register", Some("Email already used"));
    }
    var id := db.lastUserId + 1;
    db.users := db.users + [User(id, name, email, hashed, false)];
    db.lastUserId := id;
    s.user := Some(Principal(id, email, name, false));
    out := Redirect(Home);
  }

  /** `POST /login`: the session principal is set only when the password
      matches; a failed attempt leaves the session as it was. */
  method Login(db: Database, s: Session, email: string, password: string, matches: (string, string) -> bool)
    returns (out: Outcome)
    modifies s
    ensures s.cart == old(s.cart)
    ensures var r := Auth.Authenticate(db.users, email, password, matches);
      out == r.outcome && s.user == (if r.principal.Some? then r.principal else old(s.user))
  {
    var r := Auth.Authenticate(db.users, email, password, matches);
    out := r.outcome;
    if r.principal.Some? {
      s.user := r.principal;
    }
  }
}
