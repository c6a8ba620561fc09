/**
 * The rows of the store's relational tables (`products`, `users`, `orders`,
 * `order_items`) and the facts about them that every handler relies on.
 * A table the handlers scan is a sequence of rows in rowid order; `orders`,
 * which is only ever addressed by id, is a map from id to row.
 */
module Tables {
  import opened Wrappers

  /** A `products` row. `createdAt` stands for the `created_at` timestamp text,
      whose 'YYYY-MM-DD HH:MM:SS' format sorts like the instant it names. */
  datatype Product = Product(
    id: int,
    categoryId: Option<int>,
    name: string,
    priceCents: int,
    active: bool,
    createdAt: int)

  /** A `users` row; `passwordHash` is the stored bcrypt hash. */
  datatype User = User(id: int, name: string, email: string, passwordHash: string, isAdmin: bool)

  /** The session principal `{id, email, name, is_admin}`. */
  datatype Principal = Principal(id: int, email: string, name: string, isAdmin: bool)

  /** An `orders` row (without its timestamps). */
  datatype Order = Order(userId: int, status: string, totalCents: int, reference: Option<string>)

  /** An `order_items` row; the unit price is a copy taken at checkout. */
  datatype OrderItem = OrderItem(orderId: int, productId: int, quantity: nat, unitPriceCents: int)

  const Pending: string := "PENDING"
  const Paid: string := "PAID"

  /** `id` is the primary key of `products`. */
  predicate UniqueIds(ps: seq<Product>) {
    forall i, j :: 0 <= i < j < |ps| ==> ps[i].id != ps[j].id
  }

  /** The table as a lookup from id to row (the first row wins, which only
      matters for a table that breaks its primary key). */
  function Catalogue(ps: seq<Product>): (cat: map<int, Product>)
    ensures forall id :: id in cat ==> cat[id].id == id
  {
    if ps == [] then map[] else Catalogue(ps[1..])[ps[0].id := ps[0]]
  }

  /** The lookup knows exactly the ids the table lists. */
  lemma {:induction false} CatalogueKeys(ps: seq<Product>)
    ensures forall id :: id in Catalogue(ps) <==> exists i :: 0 <= i < |ps| && ps[i].id == id
    decreases |ps|
  {
    if ps != [] {
      CatalogueKeys(ps[1..]);
      assert forall i :: 0 <= i < |ps[1..]| ==> ps[1..][i] == ps[i + 1];
    }
  }

  /** What one item contributes to the total of order `orderId`. */
  function ItemValue(it: OrderItem, orderId: int): int {
    if it.orderId == orderId then it.quantity * it.unitPriceCents else 0
  }

  /** Sum of `quantity * unit_price_cents` over the items of order `orderId`. */
  function OrderTotal(items: seq<OrderItem>, orderId: int): int {
    if items == [] then 0
    else OrderTotal(items[..|items| - 1], orderId) + ItemValue(items[|items| - 1], orderId)
  }

  /** Appending items adds their contribution to each order's total. */
  lemma {:induction false} OrderTotalAppend(a: seq<OrderItem>, b: seq<OrderItem>, orderId: int)
    ensures OrderTotal(a + b, orderId) == OrderTotal(a, orderId) + OrderTotal(b, orderId)
    decreases |b|
  {
    if b == [] {
      assert a + b == a;
    } else {
      var b' := b[..|b| - 1];
      assert (a + b)[..|a + b| - 1] == a + b';
      assert (a + b)[|a + b| - 1] == b[|b| - 1];
      OrderTotalAppend(a, b', orderId);
    }
  }

  /** Items that belong to other orders contribute nothing. */
  lemma {:induction false} OrderTotalOfOthers(items: seq<OrderItem>, orderId: int)
    requires forall i :: 0 <= i < |items| ==> items[i].orderId != orderId
    ensures OrderTotal(items, orderId) == 0
    decreases |items|
  {
    if items != [] {
      OrderTotalOfOthers(items[..|items| - 1], orderId);
    }
  }
}
