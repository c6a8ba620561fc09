/**
 * Client code that drives the handlers through whole user journeys and
 * proves what the caller observes, from the handlers' contracts alone.
 */
module Scenarios {
  import opened Wrappers
  import opened Tables
  import opened Http
  import opened Cart
  import opened Payment
  import opened Store

  /** Adding the same product twice shows one line of quantity 2 priced at
      twice the product's price. */
  method AddTwiceThenView(p: Product) returns (v: CartView)
    ensures v == CartView([CartLine(p, 2, 2 * p.priceCents)], 2 * p.priceCents)
  {
    var s := new Session();
    var _ := s.AddToCart(p.id);
    var _ := s.AddToCart(p.id);
    assert s.GetCart() == map[p.id := 2];
    var cart := s.GetCart();
    assert |cart| == 1;
    assert Resolve([p], cart) == [p];
    assert CartLines([p], cart) == [CartLine(p, 2, 2 * p.priceCents)];
    assert LinesTotal([CartLine(p, 2, 2 * p.priceCents)]) == 2 * p.priceCents;
    v := ViewCart([p], cart);
  }

  /** A cart holding one unit of the only product prices at its price. */
  lemma OneProductCart(p: Product, cart: CartMap)
    requires cart == map[p.id := 1]
    ensures |cart| > 0
    ensures CheckoutLines(Resolve([p], cart), cart) == [LineItem(p.id, 1, p.priceCents)]
    ensures ItemsTotal([LineItem(p.id, 1, p.priceCents)]) == p.priceCents
  {
    assert p.id in cart;
    assert Resolve([p], cart) == [p];
  }

  /** A new account buys one product: the gateway accepts the initialize call,
      then verifies the payment. `paid` says whether the verify reply reports
      success; the order ends PAID exactly then, and stays PENDING otherwise,
      with the reference stored either way and the cart emptied. */
  method BuyOne(p: Product, now: nat, rand: nat, paid: bool) returns (order: Order, cartAfter: CartMap)
    requires rand < 10000
    ensures order == Order(1, if paid then Paid else Pending, p.priceCents, Some(Reference(now, rand)))
    ensures cartAfter == map[]
  {
    var db, s := SignedUpWithOne(p);
    var init := InitBody(true, Some(InitData(Some("https://checkout.example/abc"))));
    assert InitAccepted(init);
    var out, sent := Checkout(db, s, true, now, rand, init);
    assert db.orders[1] == Order(1, Pending, p.priceCents, Some(Reference(now, rand)));
    var verdict := if paid then VerifyBody(true, Some(VerifyData(Some("success"), None)))
                   else VerifyBody(true, Some(VerifyData(Some("failed"), Some("Declined"))));
    assert VerifySucceeded(verdict) == paid;
    var back := PaystackCallback(db, Some(Reference(now, rand)), Some(1), verdict);
    order := db.orders[1];
    cartAfter := s.GetCart();
  }

  /** A fresh store selling `p`, where a new account has signed up and put
      one `p` in the cart. */
  method SignedUpWithOne(p: Product) returns (db: Database, s: Session)
    ensures fresh(db) && fresh(s) && db.Valid()
    ensures db.products == [p] && db.orders == map[] && db.lastOrderId == 0 && db.items == []
    ensures s.user == Some(Principal(1, "ada@example.com", "Ada", false))
    ensures s.GetCart() == map[p.id := 1]
    ensures CheckoutLines(Resolve(db.products, s.GetCart()), s.GetCart()) == [LineItem(p.id, 1, p.priceCents)]
    ensures ItemsTotal(CheckoutLines(Resolve(db.products, s.GetCart()), s.GetCart())) == p.priceCents
  {
    db, s := SignedUp(p);
    var cart := s.AddToCart(p.id);
    assert cart == map[p.id := 1];
    OneProductCart(p, cart);
  }

  /** A fresh store selling `p`, where a new account has just signed up. */
  method SignedUp(p: Product) returns (db: Database, s: Session)
    ensures fresh(db) && fresh(s) && db.Valid()
    ensures db.products == [p] && db.orders == map[] && db.lastOrderId == 0 && db.items == []
    ensures s.user == Some(Principal(1, "ada@example.com", "Ada", false)) && s.cart.None?
  {
    db := new Database([p], [], 0);
    s := new Session();
    var _ := Register(db, s, "Ada", "ada@example.com", "secret", "hash");
  }

  /** The gateway refuses the initialize call: the order is left PENDING with
      no reference and the cart keeps its contents. */
  method RefusedInit(p: Product, now: nat, rand: nat) returns (order: Order, cartAfter: CartMap, out: Outcome)
    requires rand < 10000
    ensures order == Order(1, Pending, p.priceCents, None)
    ensures cartAfter == map[p.id := 1]
    ensures out == Text(500, "Paystack init failed")
  {
    var db, s := SignedUpWithOne(p);
    var sent;
    out, sent := Checkout(db, s, true, now, rand, InitBody(false, None));
    order := db.orders[1];
    cartAfter := s.GetCart();
  }
}
