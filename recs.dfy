/**
 * The "related products" query `recsByCategory`: active products of one
 * category other than the product being shown, with the units of each sold
 * so far, best sellers first, then newest first, at most six.
 */
module Recs {
  import opened Wrappers
  import opened Tables

  /** A result row: the product's columns and the computed `sold` column. */
  datatype Ranked = Ranked(product: Product, sold: nat)

  /** The number of rows the query returns at most (`LIMIT 6`). */
  const Limit: nat := 6

  /** `IFNULL(SUM(oi.quantity), 0)` over the order items of product `pid`:
      the left join leaves a product nobody ordered at 0. */
  function Sold(items: seq<OrderItem>, pid: int): (n: nat)
    ensures (forall i :: 0 <= i < |items| ==> items[i].productId != pid) ==> n == 0
    ensures forall i :: 0 <= i < |items| && items[i].productId == pid ==> items[i].quantity <= n
  {
    if items == [] then 0
    else (if items[0].productId == pid then items[0].quantity else 0) + Sold(items[1..], pid)
  }

  /** `p.active = 1 AND p.category_id = ? AND p.id <> ?` for a non-null category. */
  function Eligible(p: Product, categoryId: int, excludeId: int): (ok: bool)
    ensures p.categoryId.None? ==> !ok
    ensures ok ==> p.active && p.id != excludeId
  {
    p.active && p.categoryId == Some(categoryId) && p.id != excludeId
  }

  /** No two rows are about the same product id. */
  predicate DistinctProducts(rs: seq<Ranked>) {
    forall i, j :: 0 <= i < j < |rs| ==> rs[i].product.id != rs[j].product.id
  }

  /** The grouped rows before ordering: one per eligible product, in table order.
      `GROUP BY p.id` over a table keyed by id gives each product one row. */
  function Candidates(ps: seq<Product>, items: seq<OrderItem>, categoryId: int, excludeId: int): (rs: seq<Ranked>)
    ensures forall x :: x in rs <==>
      x.product in ps && Eligible(x.product, categoryId, excludeId) && x.sold == Sold(items, x.product.id)
    ensures UniqueIds(ps) ==> DistinctProducts(rs)
  {
    if ps == [] then []
    else
      var head := if Eligible(ps[0], categoryId, excludeId) then [Ranked(ps[0], Sold(items, ps[0].id))] else [];
      var rest := Candidates(ps[1..], items, categoryId, excludeId);
      assert UniqueIds(ps) ==> UniqueIds(ps[1..]);
      assert UniqueIds(ps) ==> forall q :: q in ps[1..] ==> q.id != ps[0].id;
      head + rest
  }

  /** `ORDER BY sold DESC, p.created_at DESC`: `a` comes strictly before `b`. */
  function Outranks(a: Ranked, b: Ranked): (ok: bool)
    ensures ok ==> a.sold >= b.sold
    ensures a.sold > b.sold ==> ok
  {
    a.sold > b.sold || (a.sold == b.sold && a.product.createdAt > b.product.createdAt)
  }

  /** The ranking is a strict order whose incomparable rows tie on both keys. */
  lemma OutranksOrder(a: Ranked, b: Ranked, c: Ranked)
    ensures !Outranks(a, a)
    ensures Outranks(a, b) ==> !Outranks(b, a)
    ensures Outranks(a, b) && Outranks(b, c) ==> Outranks(a, c)
    ensures !Outranks(a, b) && !Outranks(b, a) ==> a.sold == b.sold && a.product.createdAt == b.product.createdAt
  {
  }

  /** No row is outranked by a row listed after it. */
  predicate Ordered(rs: seq<Ranked>) {
    forall i, j :: 0 <= i < j < |rs| ==> !Outranks(rs[j], rs[i])
  }

  /** Inserts `x` after the rows that outrank it and before the rest, so rows
      that tie keep their table order. */
  function Insert(x: Ranked, rs: seq<Ranked>): (r: seq<Ranked>)
    ensures multiset(r) == multiset(rs) + multiset{x}
  {
    if rs == [] || !Outranks(rs[0], x) then [x] + rs
    else
      assert rs == [rs[0]] + rs[1..];
      [rs[0]] + Insert(x, rs[1..])
  }

  /** Inserting into an ordered list keeps it ordered. */
  lemma {:induction false} InsertOrdered(x: Ranked, rs: seq<Ranked>)
    requires Ordered(rs)
    ensures Ordered(Insert(x, rs))
    decreases |rs|
  {
    if rs != [] && Outranks(rs[0], x) {
      var tail := Insert(x, rs[1..]);
      InsertOrdered(x, rs[1..]);
      forall y | y in tail ensures !Outranks(y, rs[0]) {
        assert y in multiset(tail);
        if y != x {
          assert y in rs[1..];
        }
      }
    }
  }

  /** Inserting a row about a product not yet listed keeps the products distinct. */
  lemma {:induction false} InsertDistinct(x: Ranked, rs: seq<Ranked>)
    requires DistinctProducts(rs)
    requires forall y :: y in rs ==> y.product.id != x.product.id
    ensures DistinctProducts(Insert(x, rs))
    decreases |rs|
  {
    if rs != [] && Outranks(rs[0], x) {
      var tail := Insert(x, rs[1..]);
      InsertDistinct(x, rs[1..]);
      forall y | y in tail ensures y.product.id != rs[0].product.id {
        assert y in multiset(tail);
        if y != x {
          assert y in rs[1..];
        }
      }
    }
  }

  /** Insertion sort on the ranking: a permutation of its input, in order. */
  function Sort(rs: seq<Ranked>): (r: seq<Ranked>)
    ensures multiset(r) == multiset(rs)
    ensures Ordered(r)
  {
    if rs == [] then []
    else
      assert rs == [rs[0]] + rs[1..];
      var rest := Sort(rs[1..]);
      InsertOrdered(rs[0], rest);
      Insert(rs[0], rest)
  }

  /** Sorting keeps the products distinct. */
  lemma {:induction false} SortDistinct(rs: seq<Ranked>)
    requires DistinctProducts(rs)
    ensures DistinctProducts(Sort(rs))
    decreases |rs|
  {
    if rs != [] {
      var rest := Sort(rs[1..]);
      SortDistinct(rs[1..]);
      forall y | y in rest ensures y.product.id != rs[0].product.id {
        assert y in multiset(rest);
        assert y in rs[1..];
      }
      InsertDistinct(rs[0], rest);
    }
  }

  /** `recsByCategory(db, categoryId, excludeId, cb)`. `failed` says whether the
      query reported an error, in which case `rows || []` yields no rows; a null
      category compares as SQL `= NULL`, which no row satisfies. */
  function RecsByCategory(ps: seq<Product>, items: seq<OrderItem>, categoryId: Option<int>, excludeId: int, failed: bool): (r: seq<Ranked>)
    ensures |r| <= Limit
    ensures failed || categoryId.None? ==> r == []
  {
    if failed || categoryId.None? then []
    else
      var sorted := Sort(Candidates(ps, items, categoryId.value, excludeId));
      if |sorted| <= Limit then sorted else sorted[..Limit]
  }

  /** Every recommended row is an eligible product of the table, reported
      with the units sold of it. */
  lemma RecsEligible(ps: seq<Product>, items: seq<OrderItem>, categoryId: Option<int>, excludeId: int, failed: bool)
    ensures var r := RecsByCategory(ps, items, categoryId, excludeId, failed);
      forall i :: 0 <= i < |r| ==>
        categoryId.Some? && r[i].product in ps && Eligible(r[i].product, categoryId.value, excludeId) &&
        r[i].sold == Sold(items, r[i].product.id)
  {
    if !failed && categoryId.Some? {
      var sorted := Sort(Candidates(ps, items, categoryId.value, excludeId));
      var r := RecsByCategory(ps, items, categoryId, excludeId, failed);
      forall i | 0 <= i < |r|
        ensures r[i] in Candidates(ps, items, categoryId.value, excludeId)
      {
        assert r[i] == sorted[i];
        assert sorted[i] in multiset(sorted);
      }
    }
  }

  /** No product is recommended twice. */
  lemma RecsDistinct(ps: seq<Product>, items: seq<OrderItem>, categoryId: Option<int>, excludeId: int, failed: bool)
    requires UniqueIds(ps)
    ensures DistinctProducts(RecsByCategory(ps, items, categoryId, excludeId, failed))
  {
    if !failed && categoryId.Some? {
      SortDistinct(Candidates(ps, items, categoryId.value, excludeId));
    }
  }

  /** The result is in `sold DESC, created_at DESC` order. */
  lemma RecsOrdered(ps: seq<Product>, items: seq<OrderItem>, categoryId: Option<int>, excludeId: int, failed: bool)
    ensures Ordered(RecsByCategory(ps, items, categoryId, excludeId, failed))
  {
  }

  /** In an ordered list, a row that sits past the first `k` rows outranks
      none of them. */
  lemma PastPrefixOutranksNone(sorted: seq<Ranked>, k: nat, x: Ranked)
    requires Ordered(sorted) && k <= |sorted|
    requires x in sorted && x !in sorted[..k]
    ensures forall i :: 0 <= i < k ==> !Outranks(x, sorted[i])
  {
    var j :| 0 <= j < |sorted| && sorted[j] == x;
    assert forall i :: 0 <= i < k ==> sorted[..k][i] == sorted[i];
  }

  /** The rows `RecsByCategory` returns are the first of the sorted candidates. */
  lemma RecsIsPrefix(ps: seq<Product>, items: seq<OrderItem>, categoryId: int, excludeId: int)
    ensures var sorted := Sort(Candidates(ps, items, categoryId, excludeId));
      var r := RecsByCategory(ps, items, Some(categoryId), excludeId, false);
      |r| <= |sorted| && r == sorted[..|r|] && (|r| < Limit ==> r == sorted)
  {
    var sorted := Sort(Candidates(ps, items, categoryId, excludeId));
    assert RecsByCategory(ps, items, Some(categoryId), excludeId, false) ==
      if |sorted| <= Limit then sorted else sorted[..Limit];
  }

  /** An eligible product left out of the result is outranked by none of the
      products in it: the result is the top of the ranking. */
  lemma RecsTop(ps: seq<Product>, items: seq<OrderItem>, categoryId: int, excludeId: int, p: Product)
    requires p in ps && Eligible(p, categoryId, excludeId)
    ensures var r := RecsByCategory(ps, items, Some(categoryId), excludeId, false);
      (forall i :: 0 <= i < |r| ==> r[i].product != p) ==>
      forall i :: 0 <= i < |r| ==> !Outranks(Ranked(p, Sold(items, p.id)), r[i])
  {
    var r := RecsByCategory(ps, items, Some(categoryId), excludeId, false);
    var sorted := Sort(Candidates(ps, items, categoryId, excludeId));
    var x := Ranked(p, Sold(items, p.id));
    assert x in multiset(sorted);
    RecsIsPrefix(ps, items, categoryId, excludeId);
    if forall i :: 0 <= i < |r| ==> r[i].product != p {
      assert x !in sorted[..|r|];
      PastPrefixOutranksNone(sorted, |r|, x);
    }
  }

  /** Fewer than six rows come back only when every eligible product is among
      them. */
  lemma RecsComplete(ps: seq<Product>, items: seq<OrderItem>, categoryId: int, excludeId: int, p: Product)
    requires p in ps && Eligible(p, categoryId, excludeId)
    ensures var r := RecsByCategory(ps, items, Some(categoryId), excludeId, false);
      |r| < Limit ==> exists i :: 0 <= i < |r| && r[i] == Ranked(p, Sold(items, p.id))
  {
    var sorted := Sort(Candidates(ps, items, categoryId, excludeId));
    var x := Ranked(p, Sold(items, p.id));
    assert x in multiset(sorted);
    RecsIsPrefix(ps, items, categoryId, excludeId);
  }
}
