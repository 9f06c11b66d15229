/** Sales reports: aggregates over the ledger tables, grouped by name, and their agreement with each other. */
module Reports {
  import opened Outcomes
  import opened Sums
  import opened Schema
  import opened Ledger

  /** The organisation and the inclusive range of days a report covers. */
  datatype Scope = Scope(org: int, first: Day, last: Day)

  predicate Covers(scope: Scope, sale: Sale) {
    sale.org == scope.org && scope.first <= sale.day <= scope.last
  }

  function RevenueOf(scope: Scope): Sale -> int {
    (s: Sale) => if Covers(scope, s) then s.total else 0
  }

  function CountOf(scope: Scope): Sale -> int {
    (s: Sale) => if Covers(scope, s) then 1 else 0
  }

  /** SELECT COALESCE(SUM(total_amount), 0) FROM transactions WHERE ... */
  function Revenue(t: Tables, scope: Scope): int {
    Sum(t.sales, RevenueOf(scope))
  }

  /** The detail row joins a sale the report covers. */
  predicate InScope(t: Tables, scope: Scope, d: Detail) {
    0 <= d.sale < |t.sales| && Covers(scope, t.sales[d.sale])
  }

  function SalesValue(t: Tables, scope: Scope): Detail -> int {
    (d: Detail) => if InScope(t, scope, d) then d.subtotal else 0
  }

  function SalesQuantity(t: Tables, scope: Scope): Detail -> int {
    (d: Detail) => if InScope(t, scope, d) then d.quantity else 0
  }

  function SalesRows(t: Tables, scope: Scope): Detail -> int {
    (d: Detail) => if InScope(t, scope, d) then 1 else 0
  }

  // ---------- grouping keys ----------

  /** LEFT JOIN products, LEFT JOIN categories, GROUP BY c.name: a product without category falls in the NULL group. */
  function CategoryName(t: Tables): Detail -> Option<string> {
    (d: Detail) =>
      if d.product in t.products && t.products[d.product].category.Some?
         && t.products[d.product].category.value in t.categories
      then Some(t.categories[t.products[d.product].category.value].name)
      else None
  }

  /** GROUP BY p.name, c.name: same-named products of same-named categories are merged. */
  function ProductName(t: Tables): Detail -> (string, Option<string>) {
    (d: Detail) => (if d.product in t.products then t.products[d.product].name else "", CategoryName(t)(d))
  }

  // ---------- grouped reports ----------

  datatype Group<K> = Group(key: K, quantity: int, totalSales: int, itemCount: int)

  function GroupAt<K(==)>(t: Tables, scope: Scope, key: Detail -> K, k: K): Group<K> {
    Group(k,
      KeyTotal(t.details, key, SalesQuantity(t, scope))(k),
      KeyTotal(t.details, key, SalesValue(t, scope))(k),
      KeyTotal(t.details, key, SalesRows(t, scope))(k))
  }

  predicate HasRows<K(==)>(t: Tables, scope: Scope, key: Detail -> K, k: K) {
    exists d <- t.details :: InScope(t, scope, d) && key(d) == k
  }

  /** No key twice, totals never increasing. */
  ghost predicate Descending<K(!new)>(rows: seq<Group<K>>) {
    forall i, j | 0 <= i < j < |rows| :: rows[i].key != rows[j].key && rows[i].totalSales >= rows[j].totalSales
  }

  /** A result of GROUP BY key ORDER BY SUM(subtotal) DESC: one row per group that has detail rows, in any tie order. */
  ghost predicate IsGroupedReport<K(!new)>(t: Tables, scope: Scope, key: Detail -> K, rows: seq<Group<K>>) {
    && Descending(rows)
    && (forall k :: HasRows(t, scope, key, k) <==> exists g <- rows :: g.key == k)
    && (forall g <- rows :: g == GroupAt(t, scope, key, g.key))
  }

  function GroupSales<K>(): Group<K> -> int { (g: Group<K>) => g.totalSales }
  function GroupCount<K>(): Group<K> -> int { (g: Group<K>) => g.itemCount }

  method ScopedKeys<K(==, !new)>(t: Tables, scope: Scope, key: Detail -> K) returns (keys: set<K>)
    ensures forall k :: k in keys <==> HasRows(t, scope, key, k)
  {
    keys := {};
    for i := 0 to |t.details|
      invariant forall k :: k in keys <==> exists d <- t.details[..i] :: InScope(t, scope, d) && key(d) == k
    {
      var d := t.details[i];
      assert t.details[..i + 1] == t.details[..i] + [d];
      if InScope(t, scope, d) {
        keys := keys + {key(d)};
      }
    }
    assert t.details[..|t.details|] == t.details;
  }

  lemma {:induction false} LargestGroup<K(!new)>(at: K -> Group<K>, keys: set<K>)
    requires keys != {}
    ensures exists k :: k in keys && forall x <- keys :: at(x).totalSales <= at(k).totalSales
    decreases |keys|
  {
    var k :| k in keys;
    var rest := keys - {k};
    if rest != {} {
      LargestGroup(at, rest);
      var m :| m in rest && forall x <- rest :: at(x).totalSales <= at(m).totalSales;
      var best := if at(m).totalSales <= at(k).totalSales then k else m;
      assert forall x <- keys :: at(x).totalSales <= at(best).totalSales by {
        assert forall x <- keys :: x == k || x in rest;
      }
    } else {
      assert keys == {k};
    }
  }

  /** The report loop: appends the query's rows, largest total first. */
  method LargestFirst<K(==, !new)>(keys: set<K>, at: K -> Group<K>) returns (rows: seq<Group<K>>)
    requires forall k :: at(k).key == k
    ensures Descending(rows)
    ensures forall g <- rows :: g.key in keys && g == at(g.key)
    ensures forall k <- keys :: at(k) in rows
  {
    rows := [];
    var rest := keys;
    while rest != {}
      invariant rest <= keys
      invariant Descending(rows)
      invariant forall g <- rows :: g.key in keys - rest && g == at(g.key)
      invariant forall k <- keys - rest :: at(k) in rows
      invariant forall g <- rows, k <- rest :: at(k).totalSales <= g.totalSales
      decreases |rest|
    {
      LargestGroup(at, rest);
      var k :| k in rest && forall x <- rest :: at(x).totalSales <= at(k).totalSales;
      assert forall i | 0 <= i < |rows| :: rows[i] in rows;
      rows := rows + [at(k)];
      rest := rest - {k};
    }
  }

  method GroupedReport<K(==, !new)>(t: Tables, scope: Scope, key: Detail -> K) returns (rows: seq<Group<K>>)
    ensures IsGroupedReport(t, scope, key, rows)
  {
    var keys := ScopedKeys(t, scope, key);
    var at := (k: K) => GroupAt(t, scope, key, k);
    rows := LargestFirst(keys, at);
    forall k ensures HasRows(t, scope, key, k) <==> exists g <- rows :: g.key == k {
      if k in keys {
        assert at(k) in rows;
      }
    }
  }

  // ---------- agreement ----------

  /** The rows' totals add up to the value of all detail rows in scope, for any grouping key. */
  lemma GroupsAddUp<K(!new)>(t: Tables, scope: Scope, key: Detail -> K, rows: seq<Group<K>>)
    requires IsGroupedReport(t, scope, key, rows)
    ensures Sum(rows, GroupSales()) == Sum(t.details, SalesValue(t, scope))
    ensures Sum(rows, GroupCount()) == Sum(t.details, SalesRows(t, scope))
  {
    var keys := seq(|rows|, i requires 0 <= i < |rows| => rows[i].key);
    assert Distinct(keys);
    forall d <- t.details | InScope(t, scope, d) ensures key(d) in keys {
      assert HasRows(t, scope, key, key(d));
      var g :| g in rows && g.key == key(d);
      var i :| 0 <= i < |rows| && rows[i] == g;
      assert keys[i] == key(d);
    }
    SumByKey(t.details, key, SalesValue(t, scope), keys);
    SumByKey(t.details, key, SalesRows(t, scope), keys);
    forall i | 0 <= i < |rows| ensures
      && GroupSales()(rows[i]) == KeyTotal(t.details, key, SalesValue(t, scope))(keys[i])
      && GroupCount()(rows[i]) == KeyTotal(t.details, key, SalesRows(t, scope))(keys[i]) {
      assert rows[i] in rows;
    }
    SumZip(rows, GroupSales(), keys, KeyTotal(t.details, key, SalesValue(t, scope)));
    SumZip(rows, GroupCount(), keys, KeyTotal(t.details, key, SalesRows(t, scope)));
  }

  /** The ledger's totals and its detail rows tell the same revenue. */
  lemma RevenueIsDetails(t: Tables, scope: Scope)
    requires Inv(t)
    ensures Revenue(t, scope) == Sum(t.details, SalesValue(t, scope))
  {
    var f := SalesValue(t, scope);
    var ids := Indices(|t.sales|);
    forall d <- t.details ensures DetailSale(d) in ids {
      assert ids[d.sale] == d.sale;
    }
    SumByKey(t.details, DetailSale, f, ids);
    forall s | 0 <= s < |t.sales| ensures KeyTotal(t.details, DetailSale, f)(ids[s]) == RevenueOf(scope)(t.sales[s]) {
      if Covers(scope, t.sales[s]) {
        SumZip(t.details, OnKey(DetailSale, f, s), t.details, OnKey(DetailSale, DetailSubtotal, s));
        assert SaleBalanced(t.sales[s].total, t.details, t.payments, s);
      } else {
        SumZero(t.details, OnKey(DetailSale, f, s));
      }
    }
    SumZip(ids, KeyTotal(t.details, DetailSale, f), t.sales, RevenueOf(scope));
  }

  /** In every reachable state the summary, the category report and the product report show the same revenue. */
  lemma ReportsAgree(t: Tables, scope: Scope, byCategory: seq<Group<Option<string>>>,
                     byProduct: seq<Group<(string, Option<string>)>>)
    requires Inv(t)
    requires IsGroupedReport(t, scope, CategoryName(t), byCategory)
    requires IsGroupedReport(t, scope, ProductName(t), byProduct)
    ensures Sum(byCategory, GroupSales()) == Revenue(t, scope) == Sum(byProduct, GroupSales())
    ensures Sum(byCategory, GroupCount()) == Sum(byProduct, GroupCount())
  {
    RevenueIsDetails(t, scope);
    GroupsAddUp(t, scope, CategoryName(t), byCategory);
    GroupsAddUp(t, scope, ProductName(t), byProduct);
  }

  /** Revenue adds up over adjacent ranges of days: for any cut, the days up to it and the days after it. */
  lemma RevenueSplits(t: Tables, org: int, first: Day, cut: Day, next: Day, last: Day)
    requires first <= cut < next <= last
    requires forall s <- t.sales :: s.day <= cut || next <= s.day
    ensures Revenue(t, Scope(org, first, last))
      == Revenue(t, Scope(org, first, cut)) + Revenue(t, Scope(org, next, last))
  {
    SumPlus(t.sales, RevenueOf(Scope(org, first, cut)), RevenueOf(Scope(org, next, last)),
            RevenueOf(Scope(org, first, last)));
  }

  // ---------- the two report endpoints ----------

  datatype CategorySales = CategorySales(name: string, totalSales: int, itemCount: int)
  datatype ProductSales = ProductSales(name: string, category: string, quantity: int, totalSales: int)

  const CategoryTotal: CategorySales -> int := (r: CategorySales) => r.totalSales
  const ProductTotal: ProductSales -> int := (r: ProductSales) => r.totalSales

  function Coalesce(s: Option<string>, default: string): string {
    if s.Some? then s.value else default
  }

  function CategoryRow(g: Group<Option<string>>): CategorySales {
    CategorySales(Coalesce(g.key, "Uncategorized"), g.totalSales, g.itemCount)
  }

  function ProductRow(g: Group<(string, Option<string>)>): ProductSales {
    ProductSales(g.key.0, Coalesce(g.key.1, ""), g.quantity, g.totalSales)
  }

  /**
    The rows are those of the grouped query, in its order, with NULL printed as "Uncategorized"; in every reachable
    state they add up to the revenue of the summary.
   */
  method GetSalesByCategoryForOrg(t: Tables, scope: Scope)
    returns (res: seq<CategorySales>, ghost rows: seq<Group<Option<string>>>)
    ensures IsGroupedReport(t, scope, CategoryName(t), rows)
    ensures |res| == |rows| && forall i | 0 <= i < |res| :: res[i] == CategoryRow(rows[i])
    ensures Inv(t) ==> Sum(res, CategoryTotal) == Revenue(t, scope)
  {
    var groups := GroupedReport(t, scope, CategoryName(t));
    rows, res := groups, [];
    for i := 0 to |groups|
      invariant |res| == i && forall j | 0 <= j < i :: res[j] == CategoryRow(groups[j])
    {
      res := res + [CategoryRow(groups[i])];
    }
    SumZip(res, CategoryTotal, groups, GroupSales());
    GroupsAddUp(t, scope, CategoryName(t), groups);
    if Inv(t) {
      RevenueIsDetails(t, scope);
    }
  }

  method GetSalesByProductForOrg(t: Tables, scope: Scope)
    returns (res: seq<ProductSales>, ghost rows: seq<Group<(string, Option<string>)>>)
    ensures IsGroupedReport(t, scope, ProductName(t), rows)
    ensures |res| == |rows| && forall i | 0 <= i < |res| :: res[i] == ProductRow(rows[i])
    ensures Inv(t) ==> Sum(res, ProductTotal) == Revenue(t, scope)
  {
    var groups := GroupedReport(t, scope, ProductName(t));
    rows, res := groups, [];
    for i := 0 to |groups|
      invariant |res| == i && forall j | 0 <= j < i :: res[j] == ProductRow(groups[j])
    {
      res := res + [ProductRow(groups[i])];
    }
    SumZip(res, ProductTotal, groups, GroupSales());
    GroupsAddUp(t, scope, ProductName(t), groups);
    if Inv(t) {
      RevenueIsDetails(t, scope);
    }
  }

  // ---------- summary ----------

  datatype TopProduct = TopProduct(name: string, quantity: int)
  datatype Summary = Summary(totalRevenue: int, totalTransactions: int, topProduct: Option<TopProduct>)

  /** INNER JOIN products, GROUP BY p.name: a detail whose product is gone does not take part. */
  function PlainName(t: Tables): Detail -> Option<string> {
    (d: Detail) => if d.product in t.products then Some(t.products[d.product].name) else None
  }

  function QuantityOf(t: Tables, scope: Scope, name: string): int {
    KeyTotal(t.details, PlainName(t), SalesQuantity(t, scope))(Some(name))
  }

  /**
    The summary's top product has the largest quantity of all names sold; it is absent when nothing was sold or its
    name is empty.
   */
  method GetSalesSummaryForOrg(t: Tables, scope: Scope) returns (summary: Summary)
    ensures summary.totalRevenue == Revenue(t, scope) && summary.totalTransactions == Sum(t.sales, CountOf(scope))
    ensures summary.topProduct.Some? ==>
      && summary.topProduct.value.name != ""
      && HasRows(t, scope, PlainName(t), Some(summary.topProduct.value.name))
      && summary.topProduct.value.quantity == QuantityOf(t, scope, summary.topProduct.value.name)
      && forall name :: HasRows(t, scope, PlainName(t), Some(name)) ==>
           QuantityOf(t, scope, name) <= summary.topProduct.value.quantity
    ensures summary.topProduct == None ==>
      || (forall name :: !HasRows(t, scope, PlainName(t), Some(name)))
      || (HasRows(t, scope, PlainName(t), Some("")) && forall name :: HasRows(t, scope, PlainName(t), Some(name)) ==>
            QuantityOf(t, scope, name) <= QuantityOf(t, scope, ""))
  {
    var best: Option<string> := None;
    for i := 0 to |t.details|
      invariant best.Some? ==> HasRows(t, scope, PlainName(t), best)
      invariant forall d <- t.details[..i] | InScope(t, scope, d) && PlainName(t)(d).Some? ::
        best.Some? && QuantityOf(t, scope, PlainName(t)(d).value) <= QuantityOf(t, scope, best.value)
    {
      var d := t.details[i];
      assert t.details[..i + 1] == t.details[..i] + [d];
      if InScope(t, scope, d) && d.product in t.products {
        var name := t.products[d.product].name;
        assert PlainName(t)(d) == Some(name);
        if best == None || QuantityOf(t, scope, name) > QuantityOf(t, scope, best.value) {
          best := Some(name);
        }
      }
    }
    assert t.details[..|t.details|] == t.details;
    var top := None;
    if best.Some? && best.value != "" {
      top := Some(TopProduct(best.value, QuantityOf(t, scope, best.value)));
    }
    summary := Summary(Revenue(t, scope), Sum(t.sales, CountOf(scope)), top);
  }
}
