/**
 * Pricing of the session cart against the `products` table: the `/cart`
 * view (lines and total) and the line items a checkout turns into an order.
 */
module Cart {
  import opened Wrappers
  import opened Tables

  /** The session cart: product id to quantity. */
  type CartMap = map<int, nat>

  /** The rows that `SELECT * FROM products WHERE id IN (<cart ids>)` returns,
      in table order: every product whose id is a key of the cart, and no other. */
  function Resolve(ps: seq<Product>, cart: CartMap): (rows: seq<Product>)
    ensures forall i :: 0 <= i < |rows| ==> rows[i].id in cart
    ensures forall p :: p in rows <==> p in ps && p.id in cart
  {
    if ps == [] then []
    else (if ps[0].id in cart then [ps[0]] else []) + Resolve(ps[1..], cart)
  }

  /** One line of the cart view: the product, its quantity and quantity * price. */
  datatype CartLine = CartLine(product: Product, quantity: nat, lineTotal: int)

  /** `rows.map(p => ({product: p, quantity: cart[p.id], lineTotal: cart[p.id] * p.price_cents}))` */
  function CartLines(rows: seq<Product>, cart: CartMap): (lines: seq<CartLine>)
    requires forall i :: 0 <= i < |rows| ==> rows[i].id in cart
    ensures |lines| == |rows|
    ensures forall i :: 0 <= i < |rows| ==>
      lines[i].product == rows[i] && lines[i].quantity == cart[rows[i].id] &&
      lines[i].lineTotal == lines[i].quantity * rows[i].priceCents
  {
    if rows == [] then []
    else [CartLine(rows[0], cart[rows[0].id], cart[rows[0].id] * rows[0].priceCents)] + CartLines(rows[1..], cart)
  }

  /** `items.reduce((s, i) => s + i.lineTotal, 0)` */
  function LinesTotal(lines: seq<CartLine>): int {
    if lines == [] then 0 else lines[0].lineTotal + LinesTotal(lines[1..])
  }

  /** The total is what `reduce` accumulates from the first line on: the total
      of all but the last line, plus the last line. */
  lemma {:induction false} LinesTotalLast(lines: seq<CartLine>)
    requires |lines| > 0
    ensures LinesTotal(lines) == LinesTotal(lines[..|lines| - 1]) + lines[|lines| - 1].lineTotal
    decreases |lines|
  {
    if |lines| > 1 {
      LinesTotalLast(lines[1..]);
      assert lines[..|lines| - 1][1..] == lines[1..][..|lines| - 2];
    }
  }

  /** What `GET /cart` renders. */
  datatype CartView = CartView(items: seq<CartLine>, total: int)

  /** `GET /cart`: an empty cart renders no items and total 0 without a query;
      otherwise the resolved rows are priced. */
  function ViewCart(ps: seq<Product>, cart: CartMap): (v: CartView)
    ensures |cart| == 0 ==> v.items == [] && v.total == 0
  {
    if |cart| == 0 then CartView([], 0)
    else
      var lines := CartLines(Resolve(ps, cart), cart);
      CartView(lines, LinesTotal(lines))
  }

  /** One line item built at checkout: `{product_id, quantity, unit_price_cents}`. */
  datatype LineItem = LineItem(productId: int, quantity: nat, unitPriceCents: int)

  /** `rows.map(p => ({product_id: p.id, quantity: cart[p.id], unit_price_cents: p.price_cents}))` */
  function CheckoutLines(rows: seq<Product>, cart: CartMap): (lines: seq<LineItem>)
    requires forall i :: 0 <= i < |rows| ==> rows[i].id in cart
    ensures |lines| == |rows|
    ensures forall i :: 0 <= i < |rows| ==>
      lines[i] == LineItem(rows[i].id, cart[rows[i].id], rows[i].priceCents)
  {
    if rows == [] then []
    else [LineItem(rows[0].id, cart[rows[0].id], rows[0].priceCents)] + CheckoutLines(rows[1..], cart)
  }

  /** `items.reduce((s, i) => s + i.quantity * i.unit_price_cents, 0)` */
  function ItemsTotal(lines: seq<LineItem>): int {
    if lines == [] then 0 else lines[0].quantity * lines[0].unitPriceCents + ItemsTotal(lines[1..])
  }

  /** The total is what `reduce` accumulates from the first item on: the total
      of all but the last item, plus quantity * unit price of the last. */
  lemma {:induction false} ItemsTotalLast(lines: seq<LineItem>)
    requires |lines| > 0
    ensures ItemsTotal(lines) ==
      ItemsTotal(lines[..|lines| - 1]) + lines[|lines| - 1].quantity * lines[|lines| - 1].unitPriceCents
    decreases |lines|
  {
    if |lines| > 1 {
      ItemsTotalLast(lines[1..]);
      assert lines[..|lines| - 1][1..] == lines[1..][..|lines| - 2];
    }
  }

  // ---------------------------------------------------------------------------
  // The reference definition of a cart's value: a sum over an enumeration of
  // the cart ids that name a product, in whatever order they are listed.

  /** No id is listed twice. */
  predicate NoDuplicates(ks: seq<int>) {
    forall i, j :: 0 <= i < j < |ks| ==> ks[i] != ks[j]
  }

  /** The sum of `cart[k] * cat[k].priceCents` over the ids `k` listed in `ks`. */
  function KeysSum(ks: seq<int>, cart: CartMap, cat: map<int, Product>): int
    requires forall i :: 0 <= i < |ks| ==> ks[i] in cart && ks[i] in cat
  {
    if ks == [] then 0
    else cart[ks[0]] * cat[ks[0]].priceCents + KeysSum(ks[1..], cart, cat)
  }

  /** Any listed id can be summed first. */
  lemma {:induction false} KeysSumRemoveAt(ks: seq<int>, cart: CartMap, cat: map<int, Product>, j: nat)
    requires forall i :: 0 <= i < |ks| ==> ks[i] in cart && ks[i] in cat
    requires j < |ks|
    ensures KeysSum(ks, cart, cat) == cart[ks[j]] * cat[ks[j]].priceCents + KeysSum(ks[..j] + ks[j + 1..], cart, cat)
    decreases j
  {
    if j == 0 {
      assert ks[..0] + ks[1..] == ks[1..];
    } else {
      var tail := ks[1..];
      KeysSumRemoveAt(tail, cart, cat, j - 1);
      assert ks[..j] + ks[j + 1..] == [ks[0]] + (tail[..j - 1] + tail[j..]);
      assert (ks[..j] + ks[j + 1..])[1..] == tail[..j - 1] + tail[j..];
    }
  }

  /** The sum reads the catalogue only at the ids it lists. */
  lemma {:induction false} KeysSumFrame(ks: seq<int>, cart: CartMap, cat1: map<int, Product>, cat2: map<int, Product>)
    requires forall i :: 0 <= i < |ks| ==> ks[i] in cart && ks[i] in cat1 && ks[i] in cat2
    requires forall i :: 0 <= i < |ks| ==> cat1[ks[i]].priceCents == cat2[ks[i]].priceCents
    ensures KeysSum(ks, cart, cat1) == KeysSum(ks, cart, cat2)
    decreases |ks|
  {
    if ks != [] {
      KeysSumFrame(ks[1..], cart, cat1, cat2);
    }
  }

  /** Taking one listed id out of a duplicate-free list leaves exactly the others. */
  lemma RemoveAtMembers(ks: seq<int>, j: nat)
    requires NoDuplicates(ks) && j < |ks|
    ensures NoDuplicates(ks[..j] + ks[j + 1..])
    ensures forall k :: k in ks[..j] + ks[j + 1..] <==> k in ks && k != ks[j]
  {
    var r := ks[..j] + ks[j + 1..];
    assert forall i :: 0 <= i < |r| ==> r[i] == if i < j then ks[i] else ks[i + 1];
    forall k | k in ks && k != ks[j] ensures k in r {
      var i :| 0 <= i < |ks| && ks[i] == k;
      assert r[if i < j then i else i - 1] == k;
    }
  }

  /** A table with unique ids does not list its first row's id again. */
  lemma HeadIdNotInRest(ps: seq<Product>)
    requires ps != [] && UniqueIds(ps)
    ensures UniqueIds(ps[1..])
    ensures ps[0].id !in Catalogue(ps[1..])
  {
    var rest := ps[1..];
    assert forall i :: 0 <= i < |rest| ==> rest[i] == ps[i + 1];
    CatalogueKeys(rest);
  }

  /** Induction step of `ResolvedTotal` for a first row whose id is in the cart. */
  lemma ResolvedStepIn(ps: seq<Product>, cart: CartMap, ks: seq<int>, j: nat)
    requires ps != [] && UniqueIds(ps) && ps[0].id in cart
    requires j < |ks| && ks[j] == ps[0].id
    requires forall i :: 0 <= i < |ks| ==> ks[i] in cart && ks[i] in Catalogue(ps)
    requires var ks' := ks[..j] + ks[j + 1..];
      && (forall i :: 0 <= i < |ks'| ==> ks'[i] in cart && ks'[i] in Catalogue(ps[1..]))
      && LinesTotal(CartLines(Resolve(ps[1..], cart), cart)) == KeysSum(ks', cart, Catalogue(ps[1..]))
    ensures LinesTotal(CartLines(Resolve(ps, cart), cart)) == KeysSum(ks, cart, Catalogue(ps))
  {
    var p, rest := ps[0], ps[1..];
    var ks' := ks[..j] + ks[j + 1..];
    HeadIdNotInRest(ps);
    var cat, cat' := Catalogue(ps), Catalogue(rest);
    assert cat == cat'[p.id := p];
    KeysSumFrame(ks', cart, cat', cat);
    KeysSumRemoveAt(ks, cart, cat, j);
    ResolveHeadIn(ps, cart);
  }

  /** A first row whose id is in the cart is the first resolved row. */
  lemma ResolveHeadIn(ps: seq<Product>, cart: CartMap)
    requires ps != [] && ps[0].id in cart
    ensures LinesTotal(CartLines(Resolve(ps, cart), cart))
         == cart[ps[0].id] * ps[0].priceCents + LinesTotal(CartLines(Resolve(ps[1..], cart), cart))
  {
    var rows := Resolve(ps[1..], cart);
    assert Resolve(ps, cart) == [ps[0]] + rows;
    assert ([ps[0]] + rows)[1..] == rows;
  }

  /** Induction step of `ResolvedTotal` for a first row whose id is not in the cart. */
  lemma ResolvedStepOut(ps: seq<Product>, cart: CartMap, ks: seq<int>)
    requires ps != [] && UniqueIds(ps) && ps[0].id !in cart
    requires forall i :: 0 <= i < |ks| ==> ks[i] in cart && ks[i] in Catalogue(ps[1..])
    requires LinesTotal(CartLines(Resolve(ps[1..], cart), cart)) == KeysSum(ks, cart, Catalogue(ps[1..]))
    ensures forall i :: 0 <= i < |ks| ==> ks[i] in Catalogue(ps)
    ensures LinesTotal(CartLines(Resolve(ps, cart), cart)) == KeysSum(ks, cart, Catalogue(ps))
  {
    HeadIdNotInRest(ps);
    var cat, cat' := Catalogue(ps), Catalogue(ps[1..]);
    assert cat == cat'[ps[0].id := ps[0]];
    KeysSumFrame(ks, cart, cat', cat);
    assert Resolve(ps, cart) == Resolve(ps[1..], cart);
  }

  /** Pricing the resolved rows one by one adds up to the reference sum over
      any duplicate-free enumeration of the cart ids that name a product. */
  lemma {:induction false} ResolvedTotal(ps: seq<Product>, cart: CartMap, ks: seq<int>)
    requires UniqueIds(ps) && NoDuplicates(ks)
    requires forall k :: k in ks <==> k in cart && k in Catalogue(ps)
    ensures forall i :: 0 <= i < |ks| ==> ks[i] in cart && ks[i] in Catalogue(ps)
    ensures LinesTotal(CartLines(Resolve(ps, cart), cart)) == KeysSum(ks, cart, Catalogue(ps))
    decreases |ps|
  {
    forall i | 0 <= i < |ks| ensures ks[i] in cart && ks[i] in Catalogue(ps) {
      assert ks[i] in ks;
    }
    if ps != [] {
      var p, rest := ps[0], ps[1..];
      HeadIdNotInRest(ps);
      assert Catalogue(ps) == Catalogue(rest)[p.id := p];
      if p.id in cart {
        var j :| 0 <= j < |ks| && ks[j] == p.id;
        RemoveAtMembers(ks, j);
        ResolvedTotal(rest, cart, ks[..j] + ks[j + 1..]);
        ResolvedStepIn(ps, cart, ks, j);
      } else {
        ResolvedTotal(rest, cart, ks);
        ResolvedStepOut(ps, cart, ks);
      }
    }
  }

  /** The cart view's total is the sum of quantity * price over the cart ids
      that resolve to a product, listed in any order; ids with no product
      contribute nothing, and an empty cart totals 0. */
  lemma ViewCartTotal(ps: seq<Product>, cart: CartMap, ks: seq<int>)
    requires UniqueIds(ps) && NoDuplicates(ks)
    requires forall k :: k in ks <==> k in cart && k in Catalogue(ps)
    ensures forall i :: 0 <= i < |ks| ==> ks[i] in cart && ks[i] in Catalogue(ps)
    ensures ViewCart(ps, cart).total == KeysSum(ks, cart, Catalogue(ps))
  {
    ResolvedTotal(ps, cart, ks);
  }

  /** Every line of the view is a product of the table whose id is in the
      cart, with the cart's quantity, priced at quantity * current price; and
      every product of the table whose id is in the cart has a line. */
  lemma ViewCartItems(ps: seq<Product>, cart: CartMap)
    ensures var v := ViewCart(ps, cart);
      && (forall i :: 0 <= i < |v.items| ==>
            && v.items[i].product in ps
            && v.items[i].product.id in cart
            && v.items[i].quantity == cart[v.items[i].product.id]
            && v.items[i].lineTotal == v.items[i].quantity * v.items[i].product.priceCents)
      && (forall p :: p in ps && p.id in cart ==> exists i :: 0 <= i < |v.items| && v.items[i].product == p)
  {
    if |cart| != 0 {
      var rows := Resolve(ps, cart);
      var v := ViewCart(ps, cart);
      forall p | p in ps && p.id in cart
        ensures exists i :: 0 <= i < |v.items| && v.items[i].product == p
      {
        var i :| 0 <= i < |rows| && rows[i] == p;
        assert v.items[i].product == p;
      }
    } else {
      assert cart == map[];
    }
  }

  /** The order total a checkout computes equals the cart view's total:
      both price the same rows with the same quantities. */
  lemma {:induction false} CheckoutTotalIsLinesTotal(rows: seq<Product>, cart: CartMap)
    requires forall i :: 0 <= i < |rows| ==> rows[i].id in cart
    ensures ItemsTotal(CheckoutLines(rows, cart)) == LinesTotal(CartLines(rows, cart))
    decreases |rows|
  {
    if rows != [] {
      CheckoutTotalIsLinesTotal(rows[1..], cart);
    }
  }
}
