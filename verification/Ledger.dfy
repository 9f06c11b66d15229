/** Serial runs of ledger calls, and what holds in every state they reach. */
module Ledger {
  import opened Machine
  import opened Outcomes
  import opened Sums
  import opened Schema
  import opened Stock
  import opened Database
  import opened Returns
  import Checkout
  import PurchaseOrders
  import Catalog

  datatype Call =
    | Sell(request: Checkout.Request, clock: Checkout.Clock)
    | TakeBack(org: int, branch: int, sale: int, reason: string, items: seq<Line>)
    | CreateOrder(org: int, branch: int, supplier: int, lines: seq<PurchaseOrders.OrderLine>)
    | ReceiveOrder(org: int, branch: int, order: int)
    | EditProduct(org: int, product: int, edit: Catalog.Edit)
    | SetThreshold(org: int, product: int, threshold: Threshold)

  function ApplyThreshold(t: Tables, org: int, product: int, threshold: Threshold): Tables {
    if OwnsProduct(t, org, product) then t.(thresholds := t.thresholds[product := threshold]) else t
  }

  /** The committed tables after one call. */
  function Apply(t: Tables, call: Call): (t': Tables)
    requires StocksInRange(t.stocks)
    ensures StocksInRange(t'.stocks)
  {
    StaysInRange(t, call);
    match call
    case Sell(request, clock) => Checkout.Apply(t, request, clock)
    case TakeBack(org, branch, sale, reason, items) => Returns.Apply(t, org, branch, sale, reason, items)
    case CreateOrder(org, branch, supplier, lines) => PurchaseOrders.ApplyCreate(t, org, branch, supplier, lines)
    case ReceiveOrder(org, branch, order) => PurchaseOrders.ApplyReceive(t, org, branch, order)
    case EditProduct(org, product, edit) => Catalog.Apply(t, org, product, edit)
    case SetThreshold(org, product, threshold) => ApplyThreshold(t, org, product, threshold)
  }

  /**
    Stock stays within 0..2^31-1 whatever is called: the guarded update cannot go below, the upsert is rejected
    above.
   */
  lemma StaysInRange(t: Tables, call: Call)
    requires StocksInRange(t.stocks)
    ensures call.Sell? ==> StocksInRange(Checkout.Apply(t, call.request, call.clock).stocks)
    ensures call.TakeBack? ==>
      StocksInRange(Returns.Apply(t, call.org, call.branch, call.sale, call.reason, call.items).stocks)
    ensures call.ReceiveOrder? ==>
      StocksInRange(PurchaseOrders.ApplyReceive(t, call.org, call.branch, call.order).stocks)
  {
    match call
    case Sell(request, clock) =>
      Checkout.NoFaultIffCommits(t, request, clock);
      if Checkout.Verdict(t, request, clock) == None {
        DeductAllInRange(t.stocks, request.branch, request.items);
      }
    case TakeBack(org, branch, sale, reason, items) =>
      Returns.NoFaultIffCommits(t, org, branch, sale, items);
      if Returns.Verdict(t, org, branch, sale, items) == None {
        CreditAllInRange(t.stocks, branch, items);
      }
    case ReceiveOrder(org, branch, order) =>
      if PurchaseOrders.ReceiveVerdict(t, org, branch, order) == None {
        var lines := PurchaseOrders.OrderLines(t.orderItems, order);
        PurchaseOrders.OrderLinesPositive(t.orderItems, order);
        PurchaseOrders.NoLineFaultIffFits(t, branch, lines);
        CreditAllInRange(t.stocks, branch, lines);
      }
    case _ =>
  }

  lemma CreditAllInRange(s: Stocks, branch: int, lines: seq<Line>)
    requires Positive(lines) && StocksInRange(s)
    requires forall l <- lines :: StockAt(s, Key(branch, l.product)) + Demand(lines, l.product) <= MAX_INT32
    ensures StocksInRange(CreditAll(s, branch, lines))
  {
    forall k <- CreditAll(s, branch, lines) ensures 0 <= CreditAll(s, branch, lines)[k] <= MAX_INT32 {
      CreditAllAt(s, branch, lines, k);
      DemandNonNegative(lines, k.product);
      DemandZero(lines, k.product);
    }
  }

  function Run(t: Tables, calls: seq<Call>): (t': Tables)
    requires StocksInRange(t.stocks)
    ensures StocksInRange(t'.stocks)
  {
    if calls == [] then t else Apply(Run(t, calls[..|calls| - 1]), calls[|calls| - 1])
  }

  // ---------- the invariant ----------

  const DetailSale: Detail -> int := (d: Detail) => d.sale
  const DetailSubtotal: Detail -> int := (d: Detail) => d.subtotal
  const PaymentSale: Payment -> int := (p: Payment) => p.sale
  const PaymentAmount: Payment -> int := (p: Payment) => p.amount
  const ItemRefund: RefundItem -> int := (x: RefundItem) => x.refund
  const ItemRefunded: RefundItem -> int := (x: RefundItem) => x.subtotal
  const ItemOrder: OrderItem -> int := (x: OrderItem) => x.order
  const ItemCost: OrderItem -> int := (x: OrderItem) => x.subtotal

  predicate SoldIn(details: seq<Detail>, sale: int, product: int) {
    exists d <- details :: d.sale == sale && d.product == product
  }

  /** Details belong to a sale, and their products to the organisation of that sale. */
  ghost predicate DetailsLinked(products: map<int, Product>, sales: seq<Sale>, details: seq<Detail>) {
    forall d <- details :: 0 <= d.sale < |sales| && Owns(products, sales[d.sale].org, d.product)
  }

  ghost predicate PaymentsLinked(sales: seq<Sale>, payments: seq<Payment>) {
    forall p <- payments :: 0 <= p.sale < |sales|
  }

  /** A refund belongs to a sale of the same organisation. */
  ghost predicate RefundsLinked(sales: seq<Sale>, refunds: seq<Refund>) {
    forall r <- refunds :: 0 <= r.sale < |sales| && sales[r.sale].org == r.org
  }

  /** A refunded product was sold in the sale that the refund is for. */
  ghost predicate RefundItemsLinked(details: seq<Detail>, refunds: seq<Refund>, refundItems: seq<RefundItem>) {
    forall x <- refundItems :: 0 <= x.refund < |refunds| && SoldIn(details, refunds[x.refund].sale, x.product)
  }

  /** Ordered products belong to the organisation of their order. */
  ghost predicate OrderItemsLinked(products: map<int, Product>, orders: seq<Order>, orderItems: seq<OrderItem>) {
    forall x <- orderItems :: 0 <= x.order < |orders| && Owns(products, orders[x.order].org, x.product)
  }

  /** Rows point at existing parents, and every product belongs to the organisation of its parent record. */
  ghost predicate Linked(t: Tables) {
    && DetailsLinked(t.products, t.sales, t.details)
    && PaymentsLinked(t.sales, t.payments)
    && RefundsLinked(t.sales, t.refunds)
    && RefundItemsLinked(t.details, t.refunds, t.refundItems)
    && OrderItemsLinked(t.products, t.orders, t.orderItems)
    && StocksLinked(t.products, t.branches, t.stocks)
  }

  /**
    A sale's total is the sum of its detail rows; it has at least one, and its payments are none or add up to the
    total.
   */
  ghost predicate SaleBalanced(total: int, details: seq<Detail>, payments: seq<Payment>, sale: int) {
    && Sum(details, OnKey(DetailSale, DetailSubtotal, sale)) == total
    && (exists d <- details :: d.sale == sale)
    && ((forall p <- payments :: p.sale != sale) || Sum(payments, OnKey(PaymentSale, PaymentAmount, sale)) == total)
  }

  ghost predicate SalesBalanced(sales: seq<Sale>, details: seq<Detail>, payments: seq<Payment>) {
    forall s | 0 <= s < |sales| :: SaleBalanced(sales[s].total, details, payments, s)
  }

  /** Exactly one receipt for every sale, issued on the sale's day. */
  ghost predicate ReceiptPerSale(sales: seq<Sale>, receipts: seq<Receipt>) {
    && |receipts| == |sales|
    && forall i | 0 <= i < |sales| :: receipts[i].sale == i && receipts[i].day == sales[i].day
  }

  /** A refund is the sum of its items. */
  ghost predicate RefundsBalanced(refunds: seq<Refund>, refundItems: seq<RefundItem>) {
    forall r | 0 <= r < |refunds| :: Sum(refundItems, OnKey(ItemRefund, ItemRefunded, r)) == refunds[r].total
  }

  /** Each refunded item is valued at the unit price of the sale it returns to. */
  ghost predicate RefundedAtUnitPrice(details: seq<Detail>, refunds: seq<Refund>, refundItems: seq<RefundItem>) {
    forall x <- refundItems | 0 <= x.refund < |refunds| ::
      forall d <- details | d.sale == refunds[x.refund].sale && d.product == x.product ::
        x.subtotal == UnitPrice(d) * x.quantity
  }

  /** An order's total is the exact cost of its items; nothing that wrapped is ever stored. */
  ghost predicate OrdersBalanced(orders: seq<Order>, orderItems: seq<OrderItem>) {
    && (forall o | 0 <= o < |orders| :: Sum(orderItems, OnKey(ItemOrder, ItemCost, o)) == orders[o].total)
    && (forall x <- orderItems :: x.subtotal == x.quantity * x.unitPrice)
  }

  ghost predicate Inv(t: Tables) {
    && StocksInRange(t.stocks)
    && Linked(t)
    && SalesBalanced(t.sales, t.details, t.payments)
    && ReceiptPerSale(t.sales, t.receipts)
    && UnitPricesAgree(t.details)
    && RefundsBalanced(t.refunds, t.refundItems)
    && RefundedAtUnitPrice(t.details, t.refunds, t.refundItems)
    && OrdersBalanced(t.orders, t.orderItems)
  }

  /** A ledger in which nothing has been sold, returned or ordered yet. */
  ghost predicate Opening(t: Tables) {
    && StocksInRange(t.stocks) && StocksLinked(t.products, t.branches, t.stocks)
    && t.sales == [] && t.details == [] && t.payments == [] && t.receipts == []
    && t.refunds == [] && t.refundItems == [] && t.orders == [] && t.orderItems == []
  }

  // ---------- each call keeps it ----------

  lemma SellKeepsInv(t: Tables, req: Checkout.Request, clock: Checkout.Clock)
    requires Inv(t) && Checkout.Commits(t, req, clock)
    ensures Inv(Checkout.Effect(t, req, clock))
  {
    Checkout.AvailableInColumns(t.stocks, req.branch, req.items);
    CartPriced(t, req.org, req.items);
    RecordedKeepsInv(t, req, Prices(t, req.org, ProductIds(req.items)), Checkout.NextNumber(t, clock), clock.database);
  }

  /** Every line's product is known and owned. */
  predicate Bought(products: map<int, Product>, org: int, prices: map<int, Amount>, lines: seq<Line>) {
    forall l <- lines :: l.product in prices && Owns(products, org, l.product)
  }

  lemma CartPriced(t: Tables, org: int, lines: seq<Line>)
    requires forall l <- lines :: OwnsProduct(t, org, l.product)
    ensures Bought(t.products, org, Prices(t, org, ProductIds(lines)), lines)
    ensures forall l <- lines :: Prices(t, org, ProductIds(lines))[l.product] == t.products[l.product].price
  {
    PricesAre(t, org, ProductIds(lines));
    forall i | 0 <= i < |lines| ensures lines[i].product in Prices(t, org, ProductIds(lines)) {
      assert ProductIds(lines)[i] == lines[i].product && lines[i] in lines;
    }
  }

  /** Recording a checkout keeps the invariant at whatever prices it read, also when they have changed since. */
  lemma RecordedKeepsInv(t: Tables, req: Checkout.Request, prices: map<int, Amount>, number: string, day: Day)
    requires Inv(t) && req.items != [] && Checkout.InColumns(req.items)
    requires Checkout.Payable(t.paymentTypes, prices, req) && Bought(t.products, req.org, prices, req.items)
    ensures Inv(Checkout.Recorded(t, req, prices, number, day))
  {
    var rows, paid := RecordedRows(t, req, prices, number, day);
    DeductAllInRange(t.stocks, req.branch, req.items);
    SaleAdded(t, Checkout.Recorded(t, req, prices, number, day), prices, rows, paid);
  }

  /** Adding a balanced sale with its rows and receipt keeps the invariant, whatever became of the stock. */
  lemma SaleAdded(t: Tables, t': Tables, prices: map<int, Amount>, rows: seq<Detail>, paid: seq<Payment>)
    requires Inv(t) && |t'.sales| == |t.sales| + 1 && |t'.receipts| == |t.receipts| + 1
    requires var sale, receipt := t'.sales[|t.sales|], t'.receipts[|t.receipts|];
      && t' == t.(stocks := t'.stocks, sales := t.sales + [sale], details := t.details + rows,
                  payments := t.payments + paid, receipts := t.receipts + [receipt])
      && receipt.sale == |t.sales| && receipt.day == sale.day
      && (forall d <- rows :: d.sale == |t.sales| && Owns(t.products, sale.org, d.product) && PricedRow(prices, d))
      && (forall p <- paid :: p.sale == |t.sales|)
      && rows != [] && Sum(rows, DetailSubtotal) == sale.total
      && (paid == [] || Sum(paid, PaymentAmount) == sale.total)
    requires StocksInRange(t'.stocks) && t'.stocks.Keys == t.stocks.Keys
    ensures Inv(t')
  {
    DetailsExtended(t, prices, rows, t'.sales[|t.sales|]);
    BalanceExtended(t.sales, t.details, t.payments, t'.sales[|t.sales|], rows, paid);
  }

  /**
    The rows that recording a checkout appends: one per line, in order; the skip branch of the insert is never
    taken.
   */
  lemma RecordedRows(t: Tables, req: Checkout.Request, prices: map<int, Amount>, number: string, day: Day)
    returns (rows: seq<Detail>, paid: seq<Payment>)
    requires Checkout.InColumns(req.items) && Checkout.Payable(t.paymentTypes, prices, req)
    requires Bought(t.products, req.org, prices, req.items)
    ensures var t' := Checkout.Recorded(t, req, prices, number, day);
      t'.details == t.details + rows && t'.payments == t.payments + paid
    ensures |rows| == |req.items| && forall i | 0 <= i < |rows| :: RowAt(prices, |t.sales|, req.items[i], rows[i])
    ensures forall d <- rows :: d.sale == |t.sales| && Owns(t.products, req.org, d.product) && PricedRow(prices, d)
    ensures forall p <- paid :: p.sale == |t.sales|
    ensures Sum(rows, DetailSubtotal) == Sum(req.items, Checkout.LineValue(prices))
    ensures paid == [] || Sum(paid, PaymentAmount) == Sum(req.items, Checkout.LineValue(prices))
  {
    Checkout.RowsFit(t.paymentTypes, prices, req);
    rows := DetailRows(|t.sales|, Checkout.Offered(prices, req.items));
    paid := Checkout.PaymentRows(t.paymentTypes, |t.sales|, req.payments);
    NewDetails(prices, |t.sales|, req.items, rows);
    NewPayments(t.paymentTypes, |t.sales|, req.payments, paid);
    RowsOwned(t.products, req.org, prices, |t.sales|, req.items, rows);
  }

  /** The rows of a new sale are priced alike, product by product, and owned by the sale's organisation. */
  lemma RowsOwned(products: map<int, Product>, org: int, prices: map<int, Amount>, sale: int,
                  lines: seq<Line>, rows: seq<Detail>)
    requires |rows| == |lines| && Bought(products, org, prices, lines)
    requires forall i | 0 <= i < |rows| :: RowAt(prices, sale, lines[i], rows[i])
    ensures forall d <- rows :: d.sale == sale && Owns(products, org, d.product) && PricedRow(prices, d)
  {
    forall i | 0 <= i < |rows|
      ensures rows[i].sale == sale && Owns(products, org, rows[i].product) && PricedRow(prices, rows[i]) {
      assert lines[i] in lines;
    }
  }

  /** The rows a checkout appends for its sale, at the current prices. */
  lemma SaleRows(t: Tables, req: Checkout.Request, clock: Checkout.Clock)
    returns (rows: seq<Detail>, paid: seq<Payment>)
    requires StocksInRange(t.stocks) && Checkout.Commits(t, req, clock)
    ensures var t' := Checkout.Effect(t, req, clock);
      t'.details == t.details + rows && t'.payments == t.payments + paid
    ensures |rows| == |req.items| && forall i | 0 <= i < |rows| :: RowOf(t, |t.sales|, req.items[i], rows[i])
    ensures forall d <- rows :: d.sale == |t.sales| && Owns(t.products, req.org, d.product)
    ensures forall p <- paid :: p.sale == |t.sales|
    ensures Sum(rows, DetailSubtotal) == Checkout.CartTotal(t, req)
    ensures paid == [] || Sum(paid, PaymentAmount) == Checkout.CartTotal(t, req)
  {
    var prices := Prices(t, req.org, ProductIds(req.items));
    Checkout.AvailableInColumns(t.stocks, req.branch, req.items);
    CartPriced(t, req.org, req.items);
    rows, paid := RecordedRows(t, req, prices, Checkout.NextNumber(t, clock), clock.database);
    forall i | 0 <= i < |rows| ensures RowOf(t, |t.sales|, req.items[i], rows[i]) {
      assert req.items[i] in req.items && RowAt(prices, |t.sales|, req.items[i], rows[i]);
    }
  }

  ghost predicate PricedRow(prices: map<int, Amount>, d: Detail) {
    && d.product in prices
    && UnitPrice(d) == prices[d.product]
    && d.subtotal == UnitPrice(d) * d.quantity
  }

  lemma DetailsExtended(t: Tables, prices: map<int, Amount>, rows: seq<Detail>, sale: Sale)
    requires DetailsLinked(t.products, t.sales, t.details) && UnitPricesAgree(t.details)
    requires RefundsLinked(t.sales, t.refunds) && RefundItemsLinked(t.details, t.refunds, t.refundItems)
    requires RefundedAtUnitPrice(t.details, t.refunds, t.refundItems)
    requires forall d <- rows :: d.sale == |t.sales| && Owns(t.products, sale.org, d.product) && PricedRow(prices, d)
    ensures DetailsLinked(t.products, t.sales + [sale], t.details + rows)
    ensures UnitPricesAgree(t.details + rows)
    ensures RefundItemsLinked(t.details + rows, t.refunds, t.refundItems)
    ensures RefundedAtUnitPrice(t.details + rows, t.refunds, t.refundItems)
  {
    var all := t.details + rows;
    forall d <- all, e <- all | d.sale == e.sale && d.product == e.product ensures UnitPrice(d) == UnitPrice(e) {
      assert (d in t.details && e in t.details) || (d in rows && e in rows);
    }
    forall x <- t.refundItems ensures SoldIn(all, t.refunds[x.refund].sale, x.product) {
      var d :| d in t.details && d.sale == t.refunds[x.refund].sale && d.product == x.product;
      assert d in all;
    }
    forall x <- t.refundItems, d <- all | d.sale == t.refunds[x.refund].sale && d.product == x.product
      ensures x.subtotal == UnitPrice(d) * x.quantity {
      assert t.refunds[x.refund] in t.refunds;
      assert d in t.details;
    }
  }

  /** The row stored for a line: its own quantity, at the product's price. */
  ghost predicate RowOf(t: Tables, sale: int, l: Line, d: Detail) {
    && d.sale == sale && d.product == l.product && d.quantity == l.quantity
    && l.product in t.products
    && d.subtotal == t.products[l.product].price * l.quantity
    && UnitPrice(d) == t.products[l.product].price
  }

  /** The row stored for a line at given prices. */
  ghost predicate RowAt(prices: map<int, Amount>, sale: int, l: Line, d: Detail) {
    && d.sale == sale && d.product == l.product && d.quantity == l.quantity
    && l.product in prices
    && d.subtotal == prices[l.product] * l.quantity
    && UnitPrice(d) == prices[l.product]
  }

  lemma NewDetails(prices: map<int, Amount>, sale: int, lines: seq<Line>, rows: seq<Detail>)
    requires Checkout.InColumns(lines) && forall l <- lines :: l.product in prices
    requires forall o <- Checkout.Offered(prices, lines) :: FitsColumns(o)
    requires rows == DetailRows(sale, Checkout.Offered(prices, lines))
    ensures |rows| == |lines|
    ensures forall i | 0 <= i < |rows| :: RowAt(prices, sale, lines[i], rows[i])
    ensures Sum(rows, DetailSubtotal) == Sum(lines, Checkout.LineValue(prices))
  {
    forall i | 0 <= i < |rows|
      ensures RowAt(prices, sale, lines[i], rows[i])
      ensures DetailSubtotal(rows[i]) == Checkout.LineValue(prices)(lines[i]) {
      assert lines[i] in lines && Checkout.Offered(prices, lines)[i] == Checkout.OfferOf(prices, lines[i]);
      NewDetail(prices, sale, lines[i], rows[i]);
    }
    SumZip(rows, DetailSubtotal, lines, Checkout.LineValue(prices));
  }

  lemma NewDetail(prices: map<int, Amount>, sale: int, l: Line, row: Detail)
    requires 1 <= l.quantity <= MAX_INT32 && l.product in prices
    requires FitsColumns(Checkout.OfferOf(prices, l)) && row == MakeDetail(sale, Checkout.OfferOf(prices, l))
    ensures RowAt(prices, sale, l, row) && row.subtotal == Checkout.LineValue(prices)(l)
  {
    Checkout.LineFits(prices, l);
    ExactQuotient(prices[l.product], l.quantity);
  }

  lemma NewPayments(types: map<string, int>, sale: int, payments: seq<Checkout.Tender>, paid: seq<Payment>)
    requires forall p <- payments :: 1 <= p.amount <= MAX_INT32 && p.kind in types
    requires paid == Checkout.PaymentRows(types, sale, payments)
    ensures |paid| == |payments| && forall p <- paid :: p.sale == sale
    ensures Sum(paid, PaymentAmount) == Sum(payments, Checkout.Tendered)
  {
    SumZip(paid, PaymentAmount, payments, Checkout.Tendered);
  }

  lemma BalanceExtended(sales: seq<Sale>, details: seq<Detail>, payments: seq<Payment>,
                        sale: Sale, rows: seq<Detail>, paid: seq<Payment>)
    requires SalesBalanced(sales, details, payments)
    requires (forall d <- details :: d.sale != |sales|) && (forall p <- payments :: p.sale != |sales|)
    requires (forall d <- rows :: d.sale == |sales|) && (forall p <- paid :: p.sale == |sales|)
    requires rows != [] && Sum(rows, DetailSubtotal) == sale.total
    requires paid == [] || Sum(paid, PaymentAmount) == sale.total
    ensures SalesBalanced(sales + [sale], details + rows, payments + paid)
  {
    forall s | 0 <= s < |sales| ensures SaleBalanced(sales[s].total, details + rows, payments + paid, s) {
      assert SaleBalanced(sales[s].total, details, payments, s);
      EarlierSaleUntouched(sales[s].total, details, payments, rows, paid, s);
    }
    NewSaleBalanced(details, payments, rows, paid, |sales|, sale.total);
  }

  lemma EarlierSaleUntouched(total: int, details: seq<Detail>, payments: seq<Payment>,
                             rows: seq<Detail>, paid: seq<Payment>, s: int)
    requires (forall d <- rows :: d.sale != s) && (forall p <- paid :: p.sale != s)
    requires SaleBalanced(total, details, payments, s)
    ensures SaleBalanced(total, details + rows, payments + paid, s)
  {
    OtherGroup(details, rows, DetailSale, DetailSubtotal, s);
    OtherGroup(payments, paid, PaymentSale, PaymentAmount, s);
    var d :| d in details && d.sale == s;
    assert d in details + rows;
  }

  lemma NewSaleBalanced(details: seq<Detail>, payments: seq<Payment>, rows: seq<Detail>, paid: seq<Payment>,
                        s: int, total: int)
    requires (forall d <- details :: d.sale != s) && (forall p <- payments :: p.sale != s)
    requires (forall d <- rows :: d.sale == s) && (forall p <- paid :: p.sale == s)
    requires rows != [] && Sum(rows, DetailSubtotal) == total
    requires paid == [] || Sum(paid, PaymentAmount) == total
    ensures SaleBalanced(total, details + rows, payments + paid, s)
  {
    NewGroup(details, rows, DetailSale, DetailSubtotal, s);
    NewGroup(payments, paid, PaymentSale, PaymentAmount, s);
    assert rows[0] in details + rows;
    assert payments + [] == payments;
  }

  lemma TakeBackKeepsInv(t: Tables, org: int, branch: int, sale: int, reason: string, items: seq<Line>)
    requires Inv(t) && Returns.Commits(t, org, branch, sale, items)
    ensures Inv(Returns.Effect(t, org, branch, sale, reason, items))
  {
    var t' := Returns.Effect(t, org, branch, sale, reason, items);
    var units := UnitPrices(t, sale);
    Returns.RowsFit(t, units, branch, items);
    var rows := RefundItemRows(|t.refunds|, Returns.Offered(units, items));
    CreditAllInRange(t.stocks, branch, items);
    CreditKeepsLinks(t, branch, items);
    NewRefundItems(t, units, items, rows);
    NewItemsPriced(t, sale, rows);
    RefundsExtended(t, t'.refunds[|t.refunds|], rows);
    SumZip(rows, ItemRefunded, items, LineRefund(units));
    RefundSumsExtended(t.refunds, t.refundItems, t'.refunds[|t.refunds|], rows);
  }

  lemma CreditKeepsLinks(t: Tables, branch: int, lines: seq<Line>)
    requires StocksLinked(t.products, t.branches, t.stocks)
    requires forall l <- lines :: l.product in t.products && HasBranch(t, branch)
    ensures StocksLinked(t.products, t.branches, CreditAll(t.stocks, branch, lines))
  {
    CreditAllAt(t.stocks, branch, lines, Key(branch, 0));
  }

  lemma NewItemsPriced(t: Tables, sale: int, rows: seq<RefundItem>)
    requires DetailsLinked(t.products, t.sales, t.details) && UnitPricesAgree(t.details)
    requires forall x <- rows ::
      x.product in UnitPrices(t, sale) && x.subtotal == UnitPrices(t, sale)[x.product] * x.quantity
    ensures forall x <- rows :: SoldIn(t.details, sale, x.product)
    ensures forall x <- rows, d <- t.details | d.sale == sale && d.product == x.product ::
      x.subtotal == UnitPrice(d) * x.quantity
  {
    forall x <- rows ensures SoldIn(t.details, sale, x.product) {
      PricedIffSold(t, sale, x.product);
    }
    forall x <- rows, d <- t.details | d.sale == sale && d.product == x.product
      ensures x.subtotal == UnitPrice(d) * x.quantity {
      UnitPriceOf(t, d);
    }
  }

  lemma RefundsExtended(t: Tables, refund: Refund, rows: seq<RefundItem>)
    requires RefundItemsLinked(t.details, t.refunds, t.refundItems)
    requires RefundedAtUnitPrice(t.details, t.refunds, t.refundItems)
    requires forall x <- rows :: x.refund == |t.refunds| && SoldIn(t.details, refund.sale, x.product)
    requires forall x <- rows, d <- t.details | d.sale == refund.sale && d.product == x.product ::
      x.subtotal == UnitPrice(d) * x.quantity
    ensures RefundItemsLinked(t.details, t.refunds + [refund], t.refundItems + rows)
    ensures RefundedAtUnitPrice(t.details, t.refunds + [refund], t.refundItems + rows)
  {
  }

  lemma RefundSumsExtended(refunds: seq<Refund>, refundItems: seq<RefundItem>, refund: Refund, rows: seq<RefundItem>)
    requires RefundsBalanced(refunds, refundItems)
    requires forall x <- refundItems :: x.refund < |refunds|
    requires (forall x <- rows :: x.refund == |refunds|) && Sum(rows, ItemRefunded) == refund.total
    ensures RefundsBalanced(refunds + [refund], refundItems + rows)
  {
    forall r | 0 <= r <= |refunds|
      ensures Sum(refundItems + rows, OnKey(ItemRefund, ItemRefunded, r)) == (refunds + [refund])[r].total {
      if r < |refunds| {
        OtherGroup(refundItems, rows, ItemRefund, ItemRefunded, r);
      } else {
        NewGroup(refundItems, rows, ItemRefund, ItemRefunded, r);
      }
    }
  }

  lemma NewRefundItems(t: Tables, units: map<int, Amount>, items: seq<Line>, rows: seq<RefundItem>)
    requires forall l <- items ::
      l.product in units && l.quantity <= MAX_INT32 && 0 <= LineRefund(units)(l) <= MAX_INT32
    requires forall o <- Returns.Offered(units, items) :: FitsColumns(o)
    requires rows == RefundItemRows(|t.refunds|, Returns.Offered(units, items))
    ensures |rows| == |items|
    ensures forall i | 0 <= i < |rows| ::
      && rows[i].refund == |t.refunds| && rows[i].product == items[i].product && rows[i].quantity == items[i].quantity
      && rows[i].subtotal == LineRefund(units)(items[i])
    ensures forall x <- rows ::
      x.refund == |t.refunds| && x.product in units && x.subtotal == units[x.product] * x.quantity
  {
    forall i | 0 <= i < |rows| ensures
      && rows[i].refund == |t.refunds| && rows[i].product == items[i].product && rows[i].quantity == items[i].quantity
      && rows[i].subtotal == LineRefund(units)(items[i]) && items[i].product in units {
      assert items[i] in items;
      assert Returns.Offered(units, items)[i] == Returns.OfferOf(units, items[i]);
    }
  }

  lemma CreateOrderKeepsInv(t: Tables, org: int, branch: int, supplier: int, lines: seq<PurchaseOrders.OrderLine>)
    requires Inv(t) && PurchaseOrders.Creates(t, org, branch, supplier, lines)
    ensures Inv(PurchaseOrders.CreateEffect(t, org, branch, supplier, lines))
  {
    var prices := PurchaseOrders.RequestedPrices(t, org, lines);
    var normal := PurchaseOrders.NormalizeAll(prices, lines);
    forall l <- normal ensures Owns(t.products, org, l.product) {
      var i :| 0 <= i < |normal| && normal[i] == l;
      assert lines[i] in lines;
    }
    OrderedKeepsInv(t, org, branch, supplier, prices, normal);
  }

  /** Recording an order keeps the invariant at whatever prices its lines were normalised. */
  lemma OrderedKeepsInv(t: Tables, org: int, branch: int, supplier: int, prices: map<int, Amount>,
                        normal: seq<PurchaseOrders.OrderLine>)
    requires Inv(t) && PurchaseOrders.Affordable(normal) && forall l <- normal :: Owns(t.products, org, l.product)
    ensures Inv(PurchaseOrders.Ordered(t, org, branch, supplier, prices, normal))
  {
    var t' := PurchaseOrders.Ordered(t, org, branch, supplier, prices, normal);
    PurchaseOrders.OffersFit(prices, normal);
    var rows := OrderItemRows(|t.orders|, PurchaseOrders.Offered(prices, normal));
    NewOrderItems(t, org, prices, normal, rows);
    OrdersExtended(t, t'.orders[|t.orders|], rows);
  }

  lemma NewOrderItems(t: Tables, org: int, prices: map<int, Amount>, normal: seq<PurchaseOrders.OrderLine>,
                      rows: seq<OrderItem>)
    requires PurchaseOrders.Affordable(normal) && forall l <- normal :: Owns(t.products, org, l.product)
    requires forall o <- PurchaseOrders.Offered(prices, normal) :: FitsColumns(o)
    requires rows == OrderItemRows(|t.orders|, PurchaseOrders.Offered(prices, normal))
    ensures |rows| == |normal|
    ensures forall x <- rows ::
      x.order == |t.orders| && Owns(t.products, org, x.product) && x.subtotal == x.quantity * x.unitPrice
    ensures Sum(rows, ItemCost) == Sum(normal, PurchaseOrders.LineCost)
  {
    PurchaseOrders.OffersFit(prices, normal);
    var offers := PurchaseOrders.Offered(prices, normal);
    forall i | 0 <= i < |rows| ensures rows[i].order == |t.orders| && Owns(t.products, org, rows[i].product)
      && rows[i].subtotal == rows[i].quantity * rows[i].unitPrice
      && ItemCost(rows[i]) == PurchaseOrders.LineCost(normal[i]) {
      assert offers[i] in offers && normal[i] in normal;
      NewOrderItem(t.orders, prices, normal[i], rows[i]);
    }
    SumZip(rows, ItemCost, normal, PurchaseOrders.LineCost);
  }

  lemma NewOrderItem(orders: seq<Order>, prices: map<int, Amount>, l: PurchaseOrders.OrderLine, row: OrderItem)
    requires FitsColumns(PurchaseOrders.OfferOf(prices, l))
    requires row == MakeOrderItem(|orders|, PurchaseOrders.OfferOf(prices, l))
    requires PurchaseOrders.OfferOf(prices, l).subtotal == PurchaseOrders.LineCost(l)
    ensures row.order == |orders| && row.product == l.product
    ensures row.subtotal == row.quantity * row.unitPrice == PurchaseOrders.LineCost(l)
  {
  }

  lemma OrdersExtended(t: Tables, order: Order, rows: seq<OrderItem>)
    requires OrderItemsLinked(t.products, t.orders, t.orderItems) && OrdersBalanced(t.orders, t.orderItems)
    requires forall x <- rows ::
      x.order == |t.orders| && Owns(t.products, order.org, x.product) && x.subtotal == x.quantity * x.unitPrice
    requires Sum(rows, ItemCost) == order.total
    ensures OrderItemsLinked(t.products, t.orders + [order], t.orderItems + rows)
    ensures OrdersBalanced(t.orders + [order], t.orderItems + rows)
  {
    forall o | 0 <= o <= |t.orders|
      ensures Sum(t.orderItems + rows, OnKey(ItemOrder, ItemCost, o)) == (t.orders + [order])[o].total {
      if o < |t.orders| {
        OtherGroup(t.orderItems, rows, ItemOrder, ItemCost, o);
      } else {
        NewGroup(t.orderItems, rows, ItemOrder, ItemCost, o);
      }
    }
  }

  lemma ReceiveKeepsInv(t: Tables, org: int, branch: int, order: int)
    requires Inv(t)
    ensures Inv(PurchaseOrders.ApplyReceive(t, org, branch, order))
  {
    if PurchaseOrders.ReceiveVerdict(t, org, branch, order) == None {
      var lines := PurchaseOrders.OrderLines(t.orderItems, order);
      StaysInRange(t, ReceiveOrder(org, branch, order));
      PurchaseOrders.OrderLinesPositive(t.orderItems, order);
      PurchaseOrders.NoLineFaultIffFits(t, branch, lines);
      CreditKeepsLinks(t, branch, lines);
    }
  }

  /** Edits keep everything: a product never changes its organisation, and no row of the ledger is touched. */
  lemma EditKeepsInv(t: Tables, t': Tables)
    requires Inv(t)
    requires t' == t.(products := t'.products, thresholds := t'.thresholds)
    requires t'.products.Keys == t.products.Keys && forall p <- t.products :: t'.products[p].org == t.products[p].org
    ensures Inv(t')
  {
  }

  lemma CheckoutKeepsInv(t: Tables, req: Checkout.Request, clock: Checkout.Clock)
    requires Inv(t)
    ensures Inv(Checkout.Apply(t, req, clock))
  {
    if Checkout.Verdict(t, req, clock) == None {
      Checkout.NoFaultIffCommits(t, req, clock);
      SellKeepsInv(t, req, clock);
    }
  }

  lemma ReturnKeepsInv(t: Tables, org: int, branch: int, sale: int, reason: string, items: seq<Line>)
    requires Inv(t)
    ensures Inv(Returns.Apply(t, org, branch, sale, reason, items))
  {
    if Returns.Verdict(t, org, branch, sale, items) == None {
      Returns.NoFaultIffCommits(t, org, branch, sale, items);
      TakeBackKeepsInv(t, org, branch, sale, reason, items);
    }
  }

  lemma CreateKeepsInv(t: Tables, org: int, branch: int, supplier: int, lines: seq<PurchaseOrders.OrderLine>)
    requires Inv(t)
    ensures Inv(PurchaseOrders.ApplyCreate(t, org, branch, supplier, lines))
  {
    if PurchaseOrders.CreateOutcome(t, org, branch, supplier, lines).Success? {
      PurchaseOrders.CreatedIffCreates(t, org, branch, supplier, lines);
      CreateOrderKeepsInv(t, org, branch, supplier, lines);
    }
  }

  lemma CatalogKeepsInv(t: Tables, org: int, product: int, edit: Catalog.Edit)
    requires Inv(t)
    ensures Inv(Catalog.Apply(t, org, product, edit))
  {
    Catalog.EditedIff(t, org, product, edit);
    EditKeepsInv(t, Catalog.Apply(t, org, product, edit));
  }

  lemma ThresholdKeepsInv(t: Tables, org: int, product: int, threshold: Threshold)
    requires Inv(t)
    ensures Inv(ApplyThreshold(t, org, product, threshold))
  {
    EditKeepsInv(t, ApplyThreshold(t, org, product, threshold));
  }

  lemma StockCallKeepsInv(t: Tables, call: Call)
    requires Inv(t) && (call.Sell? || call.TakeBack?)
    ensures Inv(Apply(t, call))
  {
    if call.Sell? {
      CheckoutKeepsInv(t, call.request, call.clock);
    } else {
      ReturnKeepsInv(t, call.org, call.branch, call.sale, call.reason, call.items);
    }
  }

  lemma OrderCallKeepsInv(t: Tables, call: Call)
    requires Inv(t) && (call.CreateOrder? || call.ReceiveOrder?)
    ensures Inv(Apply(t, call))
  {
    if call.CreateOrder? {
      CreateKeepsInv(t, call.org, call.branch, call.supplier, call.lines);
    } else {
      ReceiveKeepsInv(t, call.org, call.branch, call.order);
    }
  }

  lemma EditCallKeepsInv(t: Tables, call: Call)
    requires Inv(t) && (call.EditProduct? || call.SetThreshold?)
    ensures Inv(Apply(t, call))
  {
    if call.EditProduct? {
      CatalogKeepsInv(t, call.org, call.product, call.edit);
    } else {
      ThresholdKeepsInv(t, call.org, call.product, call.threshold);
    }
  }

  /** Every call keeps the invariant. */
  lemma ApplyKeepsInv(t: Tables, call: Call)
    requires Inv(t)
    ensures Inv(Apply(t, call))
  {
    if call.Sell? || call.TakeBack? {
      StockCallKeepsInv(t, call);
    } else if call.CreateOrder? || call.ReceiveOrder? {
      OrderCallKeepsInv(t, call);
    } else {
      EditCallKeepsInv(t, call);
    }
  }

  /** The ledger invariant holds in every state that serial calls reach from an opening one. */
  lemma Reachable(t: Tables, calls: seq<Call>)
    requires Opening(t)
    ensures Inv(Run(t, calls))
  {
    RunKeepsInv(t, calls);
  }

  /** Serial calls keep the ledger invariant. */
  lemma {:induction false} RunKeepsInv(t: Tables, calls: seq<Call>)
    requires Inv(t)
    ensures Inv(Run(t, calls))
  {
    if calls != [] {
      RunKeepsInv(t, calls[..|calls| - 1]);
      ApplyKeepsInv(Run(t, calls[..|calls| - 1]), calls[|calls| - 1]);
    }
  }
}
