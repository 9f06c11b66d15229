/** Sales and returns undo each other: in money over any split of the goods, and in stock for a full return. */
module RoundTrip {
  import opened Machine
  import opened Outcomes
  import opened Sums
  import opened Schema
  import opened Stock
  import opened Database
  import opened Returns
  import opened Ledger
  import opened Conservation
  import opened Lifecycle
  import Checkout

  const RefundSale: Refund -> int := (r: Refund) => r.sale
  const RefundTotal: Refund -> int := (r: Refund) => r.total

  // ---------- money ----------

  function QuantityIn(sale: int): Detail -> int {
    (d: Detail) => if d.sale == sale then d.quantity else 0
  }

  predicate BelongsTo(refunds: seq<Refund>, sale: int, x: RefundItem) {
    0 <= x.refund < |refunds| && refunds[x.refund].sale == sale
  }

  function QuantityBack(refunds: seq<Refund>, sale: int): RefundItem -> int {
    (x: RefundItem) => if BelongsTo(refunds, sale, x) then x.quantity else 0
  }

  function MoneyBack(refunds: seq<Refund>, sale: int): RefundItem -> int {
    (x: RefundItem) => if BelongsTo(refunds, sale, x) then x.subtotal else 0
  }

  /** The quantity of a product sold in a sale. */
  function SoldInSale(t: Tables, sale: int, product: int): int {
    Sum(t.details, OnKey(DetailProduct, QuantityIn(sale), product))
  }

  /** The quantity of a product returned from a sale, over all its returns. */
  function ReturnedFromSale(t: Tables, sale: int, product: int): int {
    Sum(t.refundItems, OnKey(ItemProduct, QuantityBack(t.refunds, sale), product))
  }

  /** All money refunded for a sale. */
  function RefundedForSale(t: Tables, sale: int): int {
    Sum(t.refunds, OnKey(RefundSale, RefundTotal, sale))
  }

  /** The unit price a product has in a sale, 0 for a product that is not in it. */
  function PriceIn(t: Tables, sale: int): int -> int {
    (product: int) => if product in UnitPrices(t, sale) then UnitPrices(t, sale)[product] else 0
  }

  function SoldValue(t: Tables, sale: int): int -> int {
    (product: int) => PriceIn(t, sale)(product) * SoldInSale(t, sale, product)
  }

  function ReturnedValue(t: Tables, sale: int): int -> int {
    (product: int) => PriceIn(t, sale)(product) * ReturnedFromSale(t, sale, product)
  }

  /** A sale's total is its sold quantities valued at its unit prices. */
  lemma TotalByProduct(t: Tables, sale: int, keys: seq<int>)
    requires Inv(t) && 0 <= sale < |t.sales|
    requires Distinct(keys) && forall d <- t.details | d.sale == sale :: d.product in keys
    ensures t.sales[sale].total == Sum(keys, SoldValue(t, sale))
  {
    var w := PriceIn(t, sale);
    forall i | 0 <= i < |t.details| ensures OnKey(DetailSale, DetailSubtotal, sale)(t.details[i])
      == Weighted(DetailProduct, QuantityIn(sale), w)(t.details[i]) {
      var d := t.details[i];
      assert d in t.details;
      UnitPriceOf(t, d);
    }
    SumZip(t.details, OnKey(DetailSale, DetailSubtotal, sale), t.details, Weighted(DetailProduct, QuantityIn(sale), w));
    WeightedByKey(t.details, DetailProduct, QuantityIn(sale), w, keys);
    SumZip(keys, WeightedTotal(t.details, DetailProduct, QuantityIn(sale), w), keys, SoldValue(t, sale));
    assert SaleBalanced(t.sales[sale].total, t.details, t.payments, sale);
  }

  /** The refunds of a sale add up to the refunded item rows of that sale. */
  lemma RefundsAreItems(t: Tables, sale: int)
    requires Inv(t)
    ensures RefundedForSale(t, sale) == Sum(t.refundItems, MoneyBack(t.refunds, sale))
  {
    var f := MoneyBack(t.refunds, sale);
    var ids := Indices(|t.refunds|);
    forall x <- t.refundItems ensures ItemRefund(x) in ids {
      assert ids[x.refund] == x.refund;
    }
    SumByKey(t.refundItems, ItemRefund, f, ids);
    forall r | 0 <= r < |t.refunds|
      ensures KeyTotal(t.refundItems, ItemRefund, f)(ids[r]) == OnKey(RefundSale, RefundTotal, sale)(t.refunds[r]) {
      if t.refunds[r].sale == sale {
        SumZip(t.refundItems, OnKey(ItemRefund, f, r), t.refundItems, OnKey(ItemRefund, ItemRefunded, r));
      } else {
        SumZero(t.refundItems, OnKey(ItemRefund, f, r));
      }
    }
    SumZip(ids, KeyTotal(t.refundItems, ItemRefund, f), t.refunds, OnKey(RefundSale, RefundTotal, sale));
  }

  /**
    All refunds of a sale are its returned quantities valued at its unit prices, however they were split into
    returns.
   */
  lemma RefundsByProduct(t: Tables, sale: int, keys: seq<int>)
    requires Inv(t) && 0 <= sale < |t.sales|
    requires Distinct(keys) && forall d <- t.details | d.sale == sale :: d.product in keys
    ensures RefundedForSale(t, sale) == Sum(keys, ReturnedValue(t, sale))
  {
    var w := PriceIn(t, sale);
    var q := QuantityBack(t.refunds, sale);
    RefundsAreItems(t, sale);
    forall i | 0 <= i < |t.refundItems|
      ensures MoneyBack(t.refunds, sale)(t.refundItems[i]) == Weighted(ItemProduct, q, w)(t.refundItems[i])
      ensures ItemProduct(t.refundItems[i]) in keys || q(t.refundItems[i]) == 0 {
      ItemValue(t, sale, t.refundItems[i]);
      if BelongsTo(t.refunds, sale, t.refundItems[i]) {
        var d :| d in t.details && d.sale == sale && d.product == t.refundItems[i].product;
      }
    }
    SumZip(t.refundItems, MoneyBack(t.refunds, sale), t.refundItems, Weighted(ItemProduct, q, w));
    WeightedByKey(t.refundItems, ItemProduct, q, w, keys);
    SumZip(keys, WeightedTotal(t.refundItems, ItemProduct, q, w), keys, ReturnedValue(t, sale));
  }

  lemma ItemValue(t: Tables, sale: int, x: RefundItem)
    requires Inv(t) && x in t.refundItems
    ensures BelongsTo(t.refunds, sale, x) ==>
      SoldIn(t.details, sale, x.product) && x.subtotal == PriceIn(t, sale)(x.product) * x.quantity
  {
    if BelongsTo(t.refunds, sale, x) {
      assert SoldIn(t.details, sale, x.product);
      var d :| d in t.details && d.sale == sale && d.product == x.product;
      UnitPriceOf(t, d);
    }
  }

  /**
    In any reachable state, returning no more than was sold of each product refunds at most the sale's total, and
    the whole total exactly when everything that was sold at a price has come back.
   */
  lemma RefundWithinTotal(t: Tables, sale: int)
    requires Inv(t) && 0 <= sale < |t.sales|
    requires forall p :: ReturnedFromSale(t, sale, p) <= SoldInSale(t, sale, p)
    ensures RefundedForSale(t, sale) <= t.sales[sale].total
    ensures RefundedForSale(t, sale) == t.sales[sale].total <==>
      forall p | PriceIn(t, sale)(p) > 0 :: ReturnedFromSale(t, sale, p) == SoldInSale(t, sale, p)
  {
    var keys := ListedProducts(t);
    TotalByProduct(t, sale, keys);
    RefundsByProduct(t, sale, keys);
    forall p ensures ReturnedValue(t, sale)(p) <= SoldValue(t, sale)(p)
      && (ReturnedValue(t, sale)(p) == SoldValue(t, sale)(p)
          <==> (PriceIn(t, sale)(p) > 0 ==> ReturnedFromSale(t, sale, p) == SoldInSale(t, sale, p))) {
      WorthLess(PriceIn(t, sale)(p), SoldInSale(t, sale, p), ReturnedFromSale(t, sale, p));
    }
    SumGap(keys, ReturnedValue(t, sale), SoldValue(t, sale));
    PricedProductsListed(t, sale, keys);
  }

  lemma ListedProducts(t: Tables) returns (keys: seq<int>)
    ensures Distinct(keys) && forall d <- t.details :: d.product in keys
  {
    keys := KeysOf(t.details, DetailProduct);
    KeysOfComplete(t.details, DetailProduct);
    forall d <- t.details ensures d.product in keys {
      assert DetailProduct(d) in keys;
    }
  }

  lemma PricedProductsListed(t: Tables, sale: int, keys: seq<int>)
    requires forall d <- t.details :: d.product in keys
    ensures forall p | PriceIn(t, sale)(p) > 0 :: p in keys
  {
    forall p | PriceIn(t, sale)(p) > 0 ensures p in keys {
      PricedIffSold(t, sale, p);
    }
  }

  lemma WorthLess(w: int, sold: int, back: int)
    requires 0 <= w && back <= sold
    ensures w * back <= w * sold
    ensures w * back == w * sold <==> (w > 0 ==> back == sold)
  {
    MulMonotone(w, back, sold);
    if w > 0 && back < sold {
      MulMonotone(w, back + 1, sold);
    }
  }

  /** Whatever the split into returns: quantities that add up to what was sold refund exactly the sale's total. */
  lemma FullyReturnedIsFullyRefunded(t: Tables, sale: int)
    requires Inv(t) && 0 <= sale < |t.sales|
    requires forall p :: ReturnedFromSale(t, sale, p) == SoldInSale(t, sale, p)
    ensures RefundedForSale(t, sale) == t.sales[sale].total
  {
    RefundWithinTotal(t, sale);
  }

  lemma SoldInPrefix(t: Tables, t': Tables, sale: int, product: int)
    requires After(t, t') && 0 <= sale < |t.sales|
    ensures SoldInSale(t', sale, product) == SoldInSale(t, sale, product)
  {
    var rows := t'.details[|t.details|..];
    assert t'.details == t.details + rows;
    SumAppend(t.details, rows, OnKey(DetailProduct, QuantityIn(sale), product));
    forall i | 0 <= i < |rows| ensures rows[i].sale != sale {
      assert rows[i] == t'.details[|t.details| + i];
    }
    SumZero(rows, OnKey(DetailProduct, QuantityIn(sale), product));
  }

  /** Later calls leave a sale, and what it sold, as they were. */
  lemma SaleStays(t: Tables, calls: seq<Call>, sale: int, product: int)
    requires Inv(t) && 0 <= sale < |t.sales|
    ensures var t' := Run(t, calls);
      t.sales <= t'.sales && SoldInSale(t', sale, product) == SoldInSale(t, sale, product)
  {
    RunExtends(t, calls);
    SoldInPrefix(t, Run(t, calls), sale, product);
  }

  lemma NewRowsDemand(details: seq<Detail>, rows: seq<Detail>, lines: seq<Line>, sale: int, product: int)
    requires |rows| == |lines| && forall d <- details :: d.sale != sale
    requires forall i | 0 <= i < |rows| ::
      rows[i].sale == sale && rows[i].product == lines[i].product && rows[i].quantity == lines[i].quantity
    ensures Sum(details + rows, OnKey(DetailProduct, QuantityIn(sale), product)) == Demand(lines, product)
  {
    var f := OnKey(DetailProduct, QuantityIn(sale), product);
    SumAppend(details, rows, f);
    SumZero(details, f);
    SumZip(rows, f, lines, OnKey(LineProduct, LineQuantity, product));
  }

  /** What a new sale sold is what its cart asked for. */
  lemma SoldInNewSale(t: Tables, req: Checkout.Request, clock: Checkout.Clock, product: int)
    requires DetailsLinked(t.products, t.sales, t.details) && StocksInRange(t.stocks) && Checkout.Commits(t, req, clock)
    ensures SoldInSale(Checkout.Effect(t, req, clock), |t.sales|, product) == Demand(req.items, product)
  {
    var rows, _ := SaleRows(t, req, clock);
    NewRowsDemand(t.details, rows, req.items, |t.sales|, product);
  }

  /**
    The refund round trip: after a checkout and any later calls, price changes and other sales included, committed
    returns that add up to the cart's quantities, in any number of returns, refund exactly what the cart cost.
   */
  lemma RefundRoundTrip(t: Tables, req: Checkout.Request, clock: Checkout.Clock, calls: seq<Call>)
    requires Inv(t) && Checkout.Commits(t, req, clock)
    requires var sold := Checkout.Effect(t, req, clock);
      StocksInRange(sold.stocks)
      && forall p :: ReturnedFromSale(Run(sold, calls), |t.sales|, p) == Demand(req.items, p)
    ensures var sold := Checkout.Effect(t, req, clock);
      RefundedForSale(Run(sold, calls), |t.sales|) == Checkout.CartTotal(t, req)
  {
    var sold := Checkout.Effect(t, req, clock);
    var t' := Run(sold, calls);
    SellKeepsInv(t, req, clock);
    RunKeepsInv(sold, calls);
    RunExtends(sold, calls);
    forall p ensures ReturnedFromSale(t', |t.sales|, p) == SoldInSale(t', |t.sales|, p) {
      SaleStays(sold, calls, |t.sales|, p);
      SoldInNewSale(t, req, clock, p);
    }
    FullyReturnedIsFullyRefunded(t', |t.sales|);
  }

  lemma RefundCounted(refunds: seq<Refund>, refundItems: seq<RefundItem>, refund: Refund, rows: seq<RefundItem>,
                      lines: seq<Line>, s: int, product: int)
    requires forall x <- refundItems :: x.refund < |refunds|
    requires |rows| == |lines| && forall i | 0 <= i < |rows| ::
      rows[i].refund == |refunds| && rows[i].product == lines[i].product && rows[i].quantity == lines[i].quantity
    ensures Sum(refundItems + rows, OnKey(ItemProduct, QuantityBack(refunds + [refund], s), product))
         == Sum(refundItems, OnKey(ItemProduct, QuantityBack(refunds, s), product))
            + if s == refund.sale then Demand(lines, product) else 0
  {
    var before := OnKey(ItemProduct, QuantityBack(refunds, s), product);
    var after := OnKey(ItemProduct, QuantityBack(refunds + [refund], s), product);
    SumAppend(refundItems, rows, after);
    SumZip(refundItems, after, refundItems, before);
    if s == refund.sale {
      SumZip(rows, after, lines, OnKey(LineProduct, LineQuantity, product));
    } else {
      SumZero(rows, after);
    }
  }

  /** A committed return counts exactly its lines as returned from its sale, and nothing from any other sale. */
  lemma ReturnedAdds(t: Tables, org: int, branch: int, sale: int, reason: string, lines: seq<Line>, s: int,
                     product: int)
    requires Inv(t) && Returns.Commits(t, org, branch, sale, lines)
    ensures ReturnedFromSale(Returns.Effect(t, org, branch, sale, reason, lines), s, product)
         == ReturnedFromSale(t, s, product) + if s == sale then Demand(lines, product) else 0
  {
    var t' := Returns.Effect(t, org, branch, sale, reason, lines);
    var units := UnitPrices(t, sale);
    Returns.RowsFit(t, units, branch, lines);
    var rows := RefundItemRows(|t.refunds|, Returns.Offered(units, lines));
    NewRefundItems(t, units, lines, rows);
    RefundCounted(t.refunds, t.refundItems, t'.refunds[|t.refunds|], rows, lines, s, product);
  }

  // ---------- stock ----------

  /** The rows of a sale are exactly these, wherever they stand in the table. */
  ghost predicate SaleHasRows(details: seq<Detail>, sale: int, rows: seq<Detail>) {
    forall d :: d in details && d.sale == sale <==> d in rows
  }

  /** One row per line, at the price the product had in t. */
  ghost predicate RowsOfLines(t: Tables, sale: int, lines: seq<Line>, rows: seq<Detail>) {
    |rows| == |lines| && forall i | 0 <= i < |rows| :: RowOf(t, sale, lines[i], rows[i])
  }

  /** A new sale keeps the rows it was stored with, whatever is appended later. */
  lemma SaleRowsStay(t: Tables, req: Checkout.Request, clock: Checkout.Clock, t': Tables) returns (rows: seq<Detail>)
    requires Inv(t) && Checkout.Commits(t, req, clock) && After(Checkout.Effect(t, req, clock), t')
    ensures RowsOfLines(t, |t.sales|, req.items, rows) && SaleHasRows(t'.details, |t.sales|, rows)
  {
    var paid;
    rows, paid := SaleRows(t, req, clock);
    var sold := Checkout.Effect(t, req, clock);
    NewRowsStay(t.details, rows, t'.details, |t.sales|);
  }

  lemma NewRowsStay(before: seq<Detail>, rows: seq<Detail>, after: seq<Detail>, sale: int)
    requires (forall d <- before :: d.sale != sale) && (forall d <- rows :: d.sale == sale)
    requires before + rows <= after && forall i | |before + rows| <= i < |after| :: after[i].sale > sale
    ensures SaleHasRows(after, sale, rows)
  {
    var later := after[|before + rows|..];
    assert after == before + rows + later;
    forall d <- later ensures d.sale > sale {
      var i :| 0 <= i < |later| && later[i] == d;
      assert after[|before + rows| + i] == d;
    }
  }

  /** A product has a row exactly when the lines ask for it. */
  lemma RowIffDemanded(t: Tables, sale: int, lines: seq<Line>, rows: seq<Detail>, product: int)
    requires Positive(lines) && RowsOfLines(t, sale, lines, rows)
    ensures (exists d <- rows :: d.product == product) <==> Demand(lines, product) > 0
  {
    DemandZero(lines, product);
    DemandNonNegative(lines, product);
    if exists d <- rows :: d.product == product {
      var i :| 0 <= i < |rows| && rows[i].product == product;
      assert lines[i] in lines;
    }
    if Demand(lines, product) > 0 {
      var i :| 0 <= i < |lines| && lines[i].product == product;
      assert rows[i] in rows;
    }
  }

  /** The lookup of a sale finds exactly the products its lines asked for, at the prices they were sold at. */
  lemma PricesOfRows(t: Tables, sale: int, lines: seq<Line>, rows: seq<Detail>, t': Tables, product: int)
    requires Positive(lines) && RowsOfLines(t, sale, lines, rows) && SaleHasRows(t'.details, sale, rows)
    requires UnitPricesAgree(t'.details) && t'.products.Keys == t.products.Keys
    ensures product in UnitPrices(t', sale) <==> Demand(lines, product) > 0
    ensures Demand(lines, product) > 0 ==>
      product in t.products && UnitPrices(t', sale)[product] == t.products[product].price
  {
    RowIffDemanded(t, sale, lines, rows, product);
    PricedIffSold(t', sale, product);
    if Demand(lines, product) > 0 {
      var i :| 0 <= i < |rows| && rows[i].product == product;
      assert rows[i] in rows;
      UnitPriceOf(t', rows[i]);
    }
  }

  /** After any calls, price changes included, a sale's unit prices are the prices its products were sold at. */
  lemma SoldAtPrice(t: Tables, req: Checkout.Request, clock: Checkout.Clock, calls: seq<Call>, product: int)
    requires Inv(t) && Checkout.Commits(t, req, clock) && StocksInRange(Checkout.Effect(t, req, clock).stocks)
    ensures var t' := Run(Checkout.Effect(t, req, clock), calls);
      && (product in UnitPrices(t', |t.sales|) <==> Demand(req.items, product) > 0)
      && (Demand(req.items, product) > 0 ==>
            product in t.products && UnitPrices(t', |t.sales|)[product] == t.products[product].price)
  {
    var sold := Checkout.Effect(t, req, clock);
    SellKeepsInv(t, req, clock);
    RunKeepsInv(sold, calls);
    RunExtends(sold, calls);
    var rows := SaleRowsStay(t, req, clock, Run(sold, calls));
    PricesOfRows(t, |t.sales|, req.items, rows, Run(sold, calls), product);
  }

  /** Lists of lines with the same per-product sums have the same value at the same prices. */
  lemma SameDemandSameValue(a: seq<Line>, b: seq<Line>, w: int -> int)
    requires forall p :: Demand(a, p) == Demand(b, p)
    ensures Sum(a, Weighted(LineProduct, LineQuantity, w)) == Sum(b, Weighted(LineProduct, LineQuantity, w))
  {
    var keys := KeysOf(a + b, LineProduct);
    KeysOfComplete(a + b, LineProduct);
    forall l <- a + b ensures l.product in keys {
      assert LineProduct(l) == l.product;
    }
    assert (forall l <- a :: l in a + b) && (forall l <- b :: l in a + b);
    WeightedLines(a, w, keys);
    WeightedLines(b, w, keys);
    forall i | 0 <= i < |keys| ensures DemandValue(a, w)(keys[i]) == DemandValue(b, w)(keys[i]) {
    }
    SumZip(keys, DemandValue(a, w), keys, DemandValue(b, w));
  }

  function DemandValue(lines: seq<Line>, w: int -> int): int -> int {
    (p: int) => w(p) * Demand(lines, p)
  }

  lemma WeightedLines(lines: seq<Line>, w: int -> int, keys: seq<int>)
    requires Distinct(keys) && forall l <- lines :: l.product in keys
    ensures Sum(lines, Weighted(LineProduct, LineQuantity, w)) == Sum(keys, DemandValue(lines, w))
  {
    WeightedByKey(lines, LineProduct, LineQuantity, w, keys);
    SumZip(keys, WeightedTotal(lines, LineProduct, LineQuantity, w), keys, DemandValue(lines, w));
  }

  /** In t' every product of the cart is found at the price it had in t. */
  ghost predicate PricedAsSold(t: Tables, req: Checkout.Request, units: map<int, Amount>) {
    forall p :: (p in units <==> Demand(req.items, p) > 0)
      && (p in units ==> p in t.products && units[p] == t.products[p].price)
  }

  /** A full return refunds the cart's cost, at the prices of the sale. */
  lemma FullReturnValue(t: Tables, req: Checkout.Request, units: map<int, Amount>, back: seq<Line>)
    requires Positive(req.items) && (forall l <- req.items :: OwnsProduct(t, req.org, l.product))
    requires PricedAsSold(t, req, units)
    requires forall p :: Demand(back, p) == Demand(req.items, p)
    ensures Sum(back, LineRefund(units)) == Checkout.CartTotal(t, req)
  {
    var w := (p: int) => if p in units then units[p] else 0;
    SameDemandSameValue(back, req.items, w);
    SumZip(back, LineRefund(units), back, Weighted(LineProduct, LineQuantity, w));
    CartValue(t, req, units, w);
  }

  lemma CartValue(t: Tables, req: Checkout.Request, units: map<int, Amount>, w: int -> int)
    requires Positive(req.items) && (forall l <- req.items :: OwnsProduct(t, req.org, l.product))
    requires PricedAsSold(t, req, units) && forall p :: w(p) == if p in units then units[p] else 0
    ensures Sum(req.items, Weighted(LineProduct, LineQuantity, w)) == Checkout.CartTotal(t, req)
  {
    var prices := Prices(t, req.org, ProductIds(req.items));
    PricesAre(t, req.org, ProductIds(req.items));
    forall i | 0 <= i < |req.items|
      ensures Checkout.LineValue(prices)(req.items[i]) == Weighted(LineProduct, LineQuantity, w)(req.items[i]) {
      var l := req.items[i];
      assert l in req.items && ProductIds(req.items)[i] == l.product;
      DemandNonNegative(req.items, l.product);
    }
    SumZip(req.items, Checkout.LineValue(prices), req.items, Weighted(LineProduct, LineQuantity, w));
  }

  /** In state t' a full return of the sale made in t commits, refunds the cart's cost, and leaves the stock of t. */
  ghost predicate FullReturnOf(t: Tables, req: Checkout.Request, t': Tables, reason: string, back: seq<Line>)
    requires StocksInRange(t'.stocks)
  {
    && Returns.Verdict(t', req.org, req.branch, |t.sales|, back) == None
    && var restored := Returns.Apply(t', req.org, req.branch, |t.sales|, reason, back);
    && restored.stocks == t.stocks
    && |restored.refunds| == |t'.refunds| + 1
    && restored.refunds[|t'.refunds|].total == Checkout.CartTotal(t, req)
  }

  /** After any later calls a sale is still there, of its organisation, and priced as it was sold. */
  lemma SaleRemembered(t: Tables, req: Checkout.Request, clock: Checkout.Clock, calls: seq<Call>)
    requires Inv(t) && Checkout.Commits(t, req, clock) && StocksInRange(Checkout.Effect(t, req, clock).stocks)
    ensures var t' := Run(Checkout.Effect(t, req, clock), calls);
      && t'.branches == t.branches && t'.products.Keys == t.products.Keys && SaleOfOrg(t', req.org, |t.sales|)
      && PricedAsSold(t, req, UnitPrices(t', |t.sales|))
  {
    RunExtends(Checkout.Effect(t, req, clock), calls);
    var units := UnitPrices(Run(Checkout.Effect(t, req, clock), calls), |t.sales|);
    forall p ensures (p in units <==> Demand(req.items, p) > 0)
      && (p in units ==> p in t.products && units[p] == t.products[p].price) {
      SoldAtPrice(t, req, clock, calls, p);
    }
  }

  /**
    A covered checkout followed by a full return into the same branch, after any calls that left the stock as the
    checkout left it: the return passes the overflow guard and the columns, refunds the cart's cost, and restores
    every stock row.
   */
  lemma FullReturnRestores(t: Tables, req: Checkout.Request, clock: Checkout.Clock, calls: seq<Call>,
                           reason: string, back: seq<Line>)
    requires Inv(t) && Checkout.Commits(t, req, clock) && Covered(t.stocks, req.branch, req.items)
    requires var sold := Checkout.Effect(t, req, clock);
      StocksInRange(sold.stocks) && Run(sold, calls).stocks == sold.stocks
    requires Positive(back) && forall p :: Demand(back, p) == Demand(req.items, p)
    ensures FullReturnOf(t, req, Run(Checkout.Effect(t, req, clock), calls), reason, back)
  {
    var sold := Checkout.Effect(t, req, clock);
    SaleRemembered(t, req, clock, calls);
    FullReturnWorks(t, req, Run(sold, calls), reason, back);
  }

  lemma FullReturnWorks(t: Tables, req: Checkout.Request, t': Tables, reason: string, back: seq<Line>)
    requires StocksInRange(t.stocks) && Checkout.Sellable(t, req) && Covered(t.stocks, req.branch, req.items)
    requires StocksInRange(t'.stocks) && t'.stocks == DeductAll(t.stocks, req.branch, req.items)
    requires t'.branches == t.branches && t'.products.Keys == t.products.Keys && SaleOfOrg(t', req.org, |t.sales|)
    requires PricedAsSold(t, req, UnitPrices(t', |t.sales|))
    requires Positive(back) && forall p :: Demand(back, p) == Demand(req.items, p)
    ensures FullReturnOf(t, req, t', reason, back)
  {
    FullReturnValue(t, req, UnitPrices(t', |t.sales|), back);
    FullReturnAcceptable(t, req, t', UnitPrices(t', |t.sales|), back);
    Returns.NoFaultIffCommits(t', req.org, req.branch, |t.sales|, back);
    CreditUndoesDeduct(t.stocks, req.branch, req.items, back);
  }

  lemma FullReturnAcceptable(t: Tables, req: Checkout.Request, t': Tables, units: map<int, Amount>, back: seq<Line>)
    requires StocksInRange(t.stocks) && Checkout.Sellable(t, req) && Covered(t.stocks, req.branch, req.items)
    requires t'.stocks == DeductAll(t.stocks, req.branch, req.items)
    requires t'.branches == t.branches && t'.products.Keys == t.products.Keys
    requires PricedAsSold(t, req, units)
    requires Positive(back) && forall p :: Demand(back, p) == Demand(req.items, p)
    requires Sum(back, LineRefund(units)) == Checkout.CartTotal(t, req)
    ensures back != [] && Acceptable(t', units, req.branch, back)
  {
    forall l <- back ensures
      && l.product in units && l.product in t'.products
      && StockAt(t'.stocks, Key(req.branch, l.product)) + Demand(back, l.product) <= MAX_INT32 {
      DemandNonNegative(back, l.product);
      DeductAllAt(t.stocks, req.branch, req.items, Key(req.branch, l.product));
    }
    var p := req.items[0].product;
    assert req.items[0] in req.items;
    DemandZero(req.items, p);
    DemandZero(back, p);
  }

  /**
    Stock goes to the branch of the caller. A committed full return restores the stock if and only if the caller is
    at the sale's branch and the cart was covered; an uncovered one leaves more stock than there was.
   */
  lemma RestoredIffCovered(t: Tables, req: Checkout.Request, clock: Checkout.Clock, t': Tables, branch: int,
                           reason: string, back: seq<Line>)
    requires Inv(t) && Checkout.Commits(t, req, clock)
    requires StocksInRange(t'.stocks) && t'.stocks == Checkout.Effect(t, req, clock).stocks
    requires Positive(back) && forall p :: Demand(back, p) == Demand(req.items, p)
    requires Returns.Commits(t', req.org, branch, |t.sales|, back)
    ensures Returns.Effect(t', req.org, branch, |t.sales|, reason, back).stocks == t.stocks
       <==> branch == req.branch && Covered(t.stocks, req.branch, req.items)
  {
    if branch == req.branch {
      CreditUndoesDeduct(t.stocks, req.branch, req.items, back);
    } else {
      CreditElsewhere(t.stocks, req.branch, branch, req.items, back);
    }
  }

  /** A full return right after a covered checkout commits and refunds the cart's cost. */
  lemma FullReturnNow(t: Tables, req: Checkout.Request, clock: Checkout.Clock, reason: string, back: seq<Line>)
    requires Inv(t) && Checkout.Commits(t, req, clock) && Covered(t.stocks, req.branch, req.items)
    requires StocksInRange(Checkout.Effect(t, req, clock).stocks)
    requires Positive(back) && forall p :: Demand(back, p) == Demand(req.items, p)
    ensures var sold := Checkout.Effect(t, req, clock);
      && Returns.Commits(sold, req.org, req.branch, |t.sales|, back)
      && Sum(back, LineRefund(UnitPrices(sold, |t.sales|))) == Checkout.CartTotal(t, req)
  {
    var sold := Checkout.Effect(t, req, clock);
    assert Run(sold, []) == sold;
    FullReturnRestores(t, req, clock, [], reason, back);
    Returns.NoFaultIffCommits(sold, req.org, req.branch, |t.sales|, back);
  }
}
