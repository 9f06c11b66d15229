/** What serial runs do to existing rows: nothing is rewritten except a pending order, once. */
module Lifecycle {
  import opened Outcomes
  import opened Schema
  import opened Stock
  import opened Receipts
  import opened Ledger
  import Returns
  import Checkout
  import PurchaseOrders
  import Catalog

  /** An order row may only move from pending to received. */
  predicate OrderMay(before: Order, after: Order) {
    after == before || (before.status == Pending && after == before.(status := Received))
  }

  /** Sales, refunds and their rows are only ever appended to. */
  ghost predicate Extends(t: Tables, t': Tables) {
    && t.sales <= t'.sales && t.details <= t'.details && t.payments <= t'.payments && t.receipts <= t'.receipts
    && t.refunds <= t'.refunds && t.refundItems <= t'.refundItems
    && t.orderItems <= t'.orderItems
    && OrdersMay(t.orders, t'.orders)
    && t'.branches == t.branches && t'.products.Keys == t.products.Keys
  }

  predicate OrdersMay(before: seq<Order>, after: seq<Order>) {
    |before| <= |after| && forall o | 0 <= o < |before| :: OrderMay(before[o], after[o])
  }

  /** Rows that were not there before belong to records that were not there before. */
  ghost predicate NewRowsAreOfNewRecords(t: Tables, t': Tables)
    requires Extends(t, t')
  {
    && (forall i | |t.details| <= i < |t'.details| :: t'.details[i].sale >= |t.sales|)
    && (forall i | |t.refundItems| <= i < |t'.refundItems| :: t'.refundItems[i].refund >= |t.refunds|)
    && (forall i | |t.orderItems| <= i < |t'.orderItems| :: t'.orderItems[i].order >= |t.orders|)
  }

  /** What calls may have done in between. */
  ghost predicate After(t: Tables, t': Tables) {
    Extends(t, t') && NewRowsAreOfNewRecords(t, t')
  }

  /** Unchanged, or one sale more, of the organisation. */
  predicate SalesStep(before: seq<Sale>, after: seq<Sale>, org: int) {
    after == before || (|after| == |before| + 1 && before <= after && after[|before|].org == org)
  }

  predicate RefundsStep(before: seq<Refund>, after: seq<Refund>, org: int) {
    after == before || (|after| == |before| + 1 && before <= after && after[|before|].org == org)
  }

  /** Unchanged, one pending order of the organisation more, or one of its pending orders received. */
  predicate OrdersStep(before: seq<Order>, after: seq<Order>, org: int) {
    || after == before
    || (|after| == |before| + 1 && before <= after && after[|before|].org == org && after[|before|].status == Pending)
    || exists o | 0 <= o < |before| ::
         before[o].org == org && before[o].status == Pending && after == before[o := before[o].(status := Received)]
  }

  /** Rows appended, all of them to one record. */
  predicate DetailsStep(before: seq<Detail>, after: seq<Detail>, sale: int) {
    before <= after && forall i | |before| <= i < |after| :: after[i].sale == sale
  }

  predicate RefundItemsStep(before: seq<RefundItem>, after: seq<RefundItem>, refund: int) {
    before <= after && forall i | |before| <= i < |after| :: after[i].refund == refund
  }

  predicate OrderItemsStep(before: seq<OrderItem>, after: seq<OrderItem>, order: int) {
    before <= after && forall i | |before| <= i < |after| :: after[i].order == order
  }

  /** The same products, of the same organisations, and only one organisation's edited. */
  predicate ProductsStep(before: map<int, Product>, after: map<int, Product>, org: int) {
    && after.Keys == before.Keys
    && forall p <- before :: after[p] == before[p] || after[p].org == before[p].org == org
  }

  predicate PaymentsStep(before: seq<Payment>, after: seq<Payment>, sale: int) {
    before <= after && forall i | |before| <= i < |after| :: after[i].sale == sale
  }

  /** A checkout: one sale more, of the organisation, with its details, its payments and its receipt. */
  predicate AddsSale(t: Tables, t': Tables, org: int) {
    && t' == t.(stocks := t'.stocks, sales := t'.sales, details := t'.details, payments := t'.payments,
                receipts := t'.receipts)
    && |t'.sales| == |t.sales| + 1 && t.sales <= t'.sales && t'.sales[|t.sales|].org == org
    && DetailsStep(t.details, t'.details, |t.sales|)
    && PaymentsStep(t.payments, t'.payments, |t.sales|)
    && |t'.receipts| == |t.receipts| + 1 && t.receipts <= t'.receipts && t'.receipts[|t.receipts|].sale == |t.sales|
  }

  /** A return: one refund more, of the organisation, with its items. */
  predicate AddsRefund(t: Tables, t': Tables, org: int) {
    && t' == t.(stocks := t'.stocks, refunds := t'.refunds, refundItems := t'.refundItems)
    && |t'.refunds| == |t.refunds| + 1 && t.refunds <= t'.refunds && t'.refunds[|t.refunds|].org == org
    && RefundItemsStep(t.refundItems, t'.refundItems, |t.refunds|)
  }

  /** A created order: one pending order more, of the organisation, with its items. */
  predicate AddsOrder(t: Tables, t': Tables, org: int) {
    && t' == t.(orders := t'.orders, orderItems := t'.orderItems)
    && |t'.orders| == |t.orders| + 1 && t.orders <= t'.orders
    && t'.orders[|t.orders|].org == org && t'.orders[|t.orders|].status == Pending
    && OrderItemsStep(t.orderItems, t'.orderItems, |t.orders|)
  }

  /** A receive: one of the organisation's pending orders becomes received. */
  predicate ReceivesOrder(t: Tables, t': Tables, org: int) {
    && t' == t.(stocks := t'.stocks, orders := t'.orders)
    && exists o | 0 <= o < |t.orders| :: t.orders[o].org == org && t.orders[o].status == Pending
         && t'.orders == t.orders[o := t.orders[o].(status := Received)]
  }

  /** An edit, or a call that fails: no record, and only the organisation's products. */
  predicate EditsOnly(t: Tables, t': Tables, org: int) {
    && t' == t.(products := t'.products, thresholds := t'.thresholds)
    && ProductsStep(t.products, t'.products, org)
  }

  /** What one call of an organisation does: exactly one of these, and nothing else to any table. */
  predicate OneStep(t: Tables, t': Tables, org: int) {
    || AddsSale(t, t', org)
    || AddsRefund(t, t', org)
    || AddsOrder(t, t', org)
    || ReceivesOrder(t, t', org)
    || EditsOnly(t, t', org)
  }

  /** The same, table by table. */
  predicate TableSteps(t: Tables, t': Tables, org: int) {
    && SalesStep(t.sales, t'.sales, org)
    && RefundsStep(t.refunds, t'.refunds, org)
    && OrdersStep(t.orders, t'.orders, org)
    && DetailsStep(t.details, t'.details, |t.sales|)
    && RefundItemsStep(t.refundItems, t'.refundItems, |t.refunds|)
    && OrderItemsStep(t.orderItems, t'.orderItems, |t.orders|)
    && t.payments <= t'.payments && t.receipts <= t'.receipts
    && t'.branches == t.branches && ProductsStep(t.products, t'.products, org)
  }

  lemma SaleByTable(t: Tables, t': Tables, org: int)
    requires AddsSale(t, t', org)
    ensures TableSteps(t, t', org)
  {
  }

  lemma RefundByTable(t: Tables, t': Tables, org: int)
    requires AddsRefund(t, t', org)
    ensures TableSteps(t, t', org)
  {
  }

  lemma OrderByTable(t: Tables, t': Tables, org: int)
    requires AddsOrder(t, t', org)
    ensures TableSteps(t, t', org)
  {
  }

  lemma ReceiveByTable(t: Tables, t': Tables, org: int)
    requires ReceivesOrder(t, t', org)
    ensures TableSteps(t, t', org)
  {
  }

  lemma EditByTable(t: Tables, t': Tables, org: int)
    requires EditsOnly(t, t', org)
    ensures TableSteps(t, t', org)
  {
  }

  lemma StepByTable(t: Tables, t': Tables, org: int)
    requires OneStep(t, t', org)
    ensures TableSteps(t, t', org)
  {
    if AddsSale(t, t', org) {
      SaleByTable(t, t', org);
    } else if AddsRefund(t, t', org) {
      RefundByTable(t, t', org);
    } else if AddsOrder(t, t', org) {
      OrderByTable(t, t', org);
    } else if ReceivesOrder(t, t', org) {
      ReceiveByTable(t, t', org);
    } else {
      EditByTable(t, t', org);
    }
  }

  lemma SellStep(t: Tables, req: Checkout.Request, clock: Checkout.Clock)
    requires StocksInRange(t.stocks) && Checkout.Commits(t, req, clock)
    ensures AddsSale(t, Checkout.Effect(t, req, clock), req.org)
  {
    var rows, paid := SaleRows(t, req, clock);
  }

  lemma TakeBackStep(t: Tables, org: int, branch: int, sale: int, reason: string, items: seq<Line>)
    requires StocksInRange(t.stocks) && Returns.Commits(t, org, branch, sale, items)
    ensures AddsRefund(t, Returns.Effect(t, org, branch, sale, reason, items), org)
  {
  }

  lemma CreateOrderStep(t: Tables, org: int, branch: int, supplier: int, lines: seq<PurchaseOrders.OrderLine>)
    requires PurchaseOrders.Creates(t, org, branch, supplier, lines)
    ensures AddsOrder(t, PurchaseOrders.CreateEffect(t, org, branch, supplier, lines), org)
  {
  }

  lemma ReceiveStep(t: Tables, org: int, branch: int, order: int)
    ensures OneStep(t, PurchaseOrders.ApplyReceive(t, org, branch, order), org)
  {
    if PurchaseOrders.ReceiveVerdict(t, org, branch, order) == None {
      assert ReceivesOrder(t, PurchaseOrders.ApplyReceive(t, org, branch, order), org);
    } else {
      EditStep(t, t, org);
    }
  }

  lemma EditStep(t: Tables, t': Tables, org: int)
    requires t' == t.(products := t'.products, thresholds := t'.thresholds)
    requires ProductsStep(t.products, t'.products, org)
    ensures EditsOnly(t, t', org)
  {
  }

  lemma EditCallSteps(t: Tables, call: Call)
    requires StocksInRange(t.stocks) && (call.EditProduct? || call.SetThreshold?)
    ensures OneStep(t, Apply(t, call), CallerOrg(call))
  {
    if call.EditProduct? {
      CatalogSteps(t, call.org, call.product, call.edit);
    } else {
      ThresholdSteps(t, call.org, call.product, call.threshold);
    }
  }

  lemma CatalogSteps(t: Tables, org: int, product: int, edit: Catalog.Edit)
    ensures OneStep(t, Catalog.Apply(t, org, product, edit), org)
  {
    Catalog.EditedIff(t, org, product, edit);
    EditStep(t, Catalog.Apply(t, org, product, edit), org);
  }

  lemma ThresholdSteps(t: Tables, org: int, product: int, threshold: Threshold)
    ensures OneStep(t, ApplyThreshold(t, org, product, threshold), org)
  {
    EditStep(t, ApplyThreshold(t, org, product, threshold), org);
  }

  lemma OrderCallSteps(t: Tables, call: Call)
    requires StocksInRange(t.stocks) && (call.CreateOrder? || call.ReceiveOrder?)
    ensures OneStep(t, Apply(t, call), CallerOrg(call))
  {
    if call.CreateOrder? {
      CreateSteps(t, call.org, call.branch, call.supplier, call.lines);
    } else {
      ReceiveStep(t, call.org, call.branch, call.order);
    }
  }

  lemma StockCallSteps(t: Tables, call: Call)
    requires StocksInRange(t.stocks) && (call.Sell? || call.TakeBack?)
    ensures OneStep(t, Apply(t, call), CallerOrg(call))
  {
    if call.Sell? {
      SaleSteps(t, call.request, call.clock);
    } else {
      ReturnSteps(t, call.org, call.branch, call.sale, call.reason, call.items);
    }
  }

  lemma CallSteps(t: Tables, call: Call)
    requires StocksInRange(t.stocks)
    ensures OneStep(t, Apply(t, call), CallerOrg(call))
  {
    if call.Sell? || call.TakeBack? {
      StockCallSteps(t, call);
    } else if call.CreateOrder? || call.ReceiveOrder? {
      OrderCallSteps(t, call);
    } else {
      EditCallSteps(t, call);
    }
  }

  lemma SaleSteps(t: Tables, req: Checkout.Request, clock: Checkout.Clock)
    requires StocksInRange(t.stocks)
    ensures OneStep(t, Checkout.Apply(t, req, clock), req.org)
  {
    if Checkout.Verdict(t, req, clock) == None {
      Checkout.NoFaultIffCommits(t, req, clock);
      SellStep(t, req, clock);
    } else {
      EditStep(t, t, req.org);
    }
  }

  lemma ReturnSteps(t: Tables, org: int, branch: int, sale: int, reason: string, items: seq<Line>)
    requires StocksInRange(t.stocks)
    ensures OneStep(t, Returns.Apply(t, org, branch, sale, reason, items), org)
  {
    if Returns.Verdict(t, org, branch, sale, items) == None {
      Returns.NoFaultIffCommits(t, org, branch, sale, items);
      TakeBackStep(t, org, branch, sale, reason, items);
    } else {
      EditStep(t, t, org);
    }
  }

  lemma CreateSteps(t: Tables, org: int, branch: int, supplier: int, lines: seq<PurchaseOrders.OrderLine>)
    ensures OneStep(t, PurchaseOrders.ApplyCreate(t, org, branch, supplier, lines), org)
  {
    if PurchaseOrders.CreateOutcome(t, org, branch, supplier, lines).Success? {
      PurchaseOrders.CreatedIffCreates(t, org, branch, supplier, lines);
      CreateOrderStep(t, org, branch, supplier, lines);
    } else {
      EditStep(t, t, org);
    }
  }

  /** A step after an extension extends. */
  lemma StepExtends(t: Tables, t1: Tables, t2: Tables, org: int)
    requires After(t, t1) && TableSteps(t1, t2, org)
    ensures After(t, t2)
  {
    OrdersExtend(t.orders, t1.orders, t2.orders, org);
  }

  lemma OrdersExtend(before: seq<Order>, mid: seq<Order>, after: seq<Order>, org: int)
    requires OrdersMay(before, mid) && OrdersStep(mid, after, org)
    ensures OrdersMay(before, after) && |mid| <= |after|
  {
  }

  /** Whatever is called, records and rows are appended, and no stored one is rewritten but a pending order. */
  lemma {:induction false} RunExtends(t: Tables, calls: seq<Call>)
    requires StocksInRange(t.stocks)
    ensures After(t, Run(t, calls))
  {
    if calls != [] {
      var before, last := calls[..|calls| - 1], calls[|calls| - 1];
      RunExtends(t, before);
      CallExtends(t, Run(t, before), last);
    }
  }

  lemma CallExtends(t: Tables, t1: Tables, call: Call)
    requires After(t, t1) && StocksInRange(t1.stocks)
    ensures After(t, Apply(t1, call))
  {
    CallSteps(t1, call);
    StepByTable(t1, Apply(t1, call), CallerOrg(call));
    StepExtends(t, t1, Apply(t1, call), CallerOrg(call));
  }

  // ---------- an order is received once ----------

  function IsReceived(t: Tables, order: int): nat {
    if 0 <= order < |t.orders| && t.orders[order].status == Received then 1 else 0
  }

  /** The call is a receive of the order that commits, and so credits stock. */
  predicate CreditsOrder(t: Tables, call: Call, order: int) {
    call.ReceiveOrder? && call.order == order && PurchaseOrders.ReceiveVerdict(t, call.org, call.branch, order) == None
  }

  function TimesCredited(t: Tables, calls: seq<Call>, order: int): nat
    requires StocksInRange(t.stocks)
  {
    if calls == [] then 0
    else
      var before := calls[..|calls| - 1];
      TimesCredited(t, before, order) + if CreditsOrder(Run(t, before), calls[|calls| - 1], order) then 1 else 0
  }

  /** Only a receive marks an order, and only a created order is new, and pending. */
  lemma OrdersAfter(t: Tables, call: Call)
    requires StocksInRange(t.stocks) && !call.ReceiveOrder?
    ensures var orders := Apply(t, call).orders;
      orders == t.orders || (|orders| == |t.orders| + 1 && t.orders <= orders && orders[|t.orders|].status == Pending)
  {
    if call.CreateOrder? && PurchaseOrders.CreateOutcome(t, call.org, call.branch, call.supplier, call.lines).Success? {
      PurchaseOrders.CreatedIffCreates(t, call.org, call.branch, call.supplier, call.lines);
    }
  }

  lemma CallReceives(t: Tables, call: Call, order: int)
    requires StocksInRange(t.stocks)
    ensures IsReceived(Apply(t, call), order) == IsReceived(t, order) + if CreditsOrder(t, call, order) then 1 else 0
  {
    if !call.ReceiveOrder? {
      OrdersAfter(t, call);
    }
  }

  /** In any serial run an order credits stock once if it ends received and started otherwise, and never again. */
  lemma {:induction false} CreditedOnce(t: Tables, calls: seq<Call>, order: int)
    requires StocksInRange(t.stocks)
    ensures TimesCredited(t, calls, order) == IsReceived(Run(t, calls), order) - IsReceived(t, order)
    ensures TimesCredited(t, calls, order) <= 1
  {
    if calls != [] {
      var before := calls[..|calls| - 1];
      CreditedOnce(t, before, order);
      CallReceives(Run(t, before), calls[|calls| - 1], order);
    }
  }

  /** Once received, an order stays so, and every later receive of it, by anyone and anywhere, changes nothing. */
  lemma ReceiveAgainChangesNothing(t: Tables, calls: seq<Call>, org: int, branch: int, order: int)
    requires StocksInRange(t.stocks) && 0 <= order < |t.orders| && t.orders[order].status == Received
    ensures var t' := Run(t, calls);
      && PurchaseOrders.ReceiveVerdict(t', org, branch, order)
         == Some(if t.orders[order].org == org then PurchaseOrders.AlreadyReceived else PurchaseOrders.OrderNotFound)
      && Apply(t', ReceiveOrder(org, branch, order)) == t'
  {
    RunExtends(t, calls);
  }

  /**
    The one receive that commits adds the order's per-product sums to the caller's branch, creates the missing
    rows, and leaves every other stock row alone.
   */
  lemma ReceiveCredits(t: Tables, org: int, branch: int, order: int, k: Key)
    requires Inv(t) && PurchaseOrders.ReceiveVerdict(t, org, branch, order) == None
    ensures var t' := PurchaseOrders.ApplyReceive(t, org, branch, order);
      var lines := PurchaseOrders.OrderLines(t.orderItems, order);
      && StockAt(t'.stocks, k) == StockAt(t.stocks, k) + (if k.branch == branch then Demand(lines, k.product) else 0)
      && (k in t'.stocks <==> k in t.stocks || (k.branch == branch && Demand(lines, k.product) > 0))
      && t'.orders[order].status == Received
  {
    var lines := PurchaseOrders.OrderLines(t.orderItems, order);
    PurchaseOrders.OrderLinesPositive(t.orderItems, order);
    CreditAllAt(t.stocks, branch, lines, k);
    DemandZero(lines, k.product);
    DemandNonNegative(lines, k.product);
  }

  // ---------- tenants ----------

  function CallerOrg(call: Call): int {
    match call
    case Sell(request, _) => request.org
    case TakeBack(org, _, _, _, _) => org
    case CreateOrder(org, _, _, _) => org
    case ReceiveOrder(org, _, _) => org
    case EditProduct(org, _, _) => org
    case SetThreshold(org, _, _) => org
  }

  /** A call adds no sale, refund or order to another organisation and does not touch the ones it has. */
  lemma OtherTenantsUntouched(t: Tables, call: Call, org: int)
    requires StocksInRange(t.stocks) && CallerOrg(call) != org
    ensures var t' := Apply(t, call);
      && (forall i | 0 <= i < |t'.sales| && t'.sales[i].org == org :: i < |t.sales| && t'.sales[i] == t.sales[i])
      && (forall i | 0 <= i < |t'.refunds| && t'.refunds[i].org == org ::
        i < |t.refunds| && t'.refunds[i] == t.refunds[i])
      && (forall i | 0 <= i < |t'.orders| && t'.orders[i].org == org :: i < |t.orders| && t'.orders[i] == t.orders[i])
      && (forall p <- t'.products | t'.products[p].org == org :: p in t.products && t'.products[p] == t.products[p])
  {
    CallSteps(t, call);
    StepByTable(t, Apply(t, call), CallerOrg(call));
    OthersUntouched(t, Apply(t, call), CallerOrg(call), org);
  }

  lemma OthersUntouched(t: Tables, t': Tables, caller: int, org: int)
    requires TableSteps(t, t', caller) && caller != org
    ensures (forall i | 0 <= i < |t'.sales| && t'.sales[i].org == org :: i < |t.sales| && t'.sales[i] == t.sales[i])
    ensures (forall i | 0 <= i < |t'.refunds| && t'.refunds[i].org == org ::
      i < |t.refunds| && t'.refunds[i] == t.refunds[i])
    ensures (forall i | 0 <= i < |t'.orders| && t'.orders[i].org == org ::
      i < |t.orders| && t'.orders[i] == t.orders[i])
    ensures (forall p <- t'.products | t'.products[p].org == org :: p in t.products && t'.products[p] == t.products[p])
  {
  }

  /** The rows a call may change are of products of the caller's organisation. */
  ghost predicate ForeignStockKept(t: Tables, s: Stocks, org: int) {
    forall k: Key | k.product in t.products && t.products[k.product].org != org ::
      (k in s <==> k in t.stocks) && StockAt(s, k) == StockAt(t.stocks, k)
  }

  lemma SaleKeepsForeignStock(t: Tables, req: Checkout.Request, clock: Checkout.Clock)
    requires StocksInRange(t.stocks)
    ensures ForeignStockKept(t, Checkout.Apply(t, req, clock).stocks, req.org)
  {
    Checkout.NoFaultIffCommits(t, req, clock);
    if Checkout.Commits(t, req, clock) {
      ForeignDeduct(t, req.org, req.branch, req.items);
    }
  }

  lemma ForeignDeduct(t: Tables, org: int, branch: int, lines: seq<Line>)
    requires StocksInRange(t.stocks) && Positive(lines) && forall l <- lines :: OwnsProduct(t, org, l.product)
    ensures ForeignStockKept(t, DeductAll(t.stocks, branch, lines), org)
  {
    forall k: Key | k.product in t.products && t.products[k.product].org != org
      ensures k in DeductAll(t.stocks, branch, lines) <==> k in t.stocks
      ensures StockAt(DeductAll(t.stocks, branch, lines), k) == StockAt(t.stocks, k) {
      DemandZero(lines, k.product);
      DeductAllAt(t.stocks, branch, lines, k);
    }
  }

  lemma ForeignCredit(t: Tables, org: int, branch: int, lines: seq<Line>)
    requires Positive(lines) && forall l <- lines :: OwnsProduct(t, org, l.product)
    ensures ForeignStockKept(t, CreditAll(t.stocks, branch, lines), org)
  {
    forall k: Key | k.product in t.products && t.products[k.product].org != org
      ensures k in CreditAll(t.stocks, branch, lines) <==> k in t.stocks
      ensures StockAt(CreditAll(t.stocks, branch, lines), k) == StockAt(t.stocks, k) {
      DemandZero(lines, k.product);
      CreditAllAt(t.stocks, branch, lines, k);
    }
  }

  /** Returned products were sold in the sale, so they are of its organisation. */
  lemma ReturnKeepsForeignStock(t: Tables, org: int, branch: int, sale: int, reason: string, items: seq<Line>)
    requires StocksInRange(t.stocks) && DetailsLinked(t.products, t.sales, t.details)
    ensures ForeignStockKept(t, Returns.Apply(t, org, branch, sale, reason, items).stocks, org)
  {
    if Returns.Verdict(t, org, branch, sale, items) == None {
      Returns.NoFaultIffCommits(t, org, branch, sale, items);
      forall l <- items ensures OwnsProduct(t, org, l.product) {
        Returns.PricedIffSold(t, sale, l.product);
      }
      ForeignCredit(t, org, branch, items);
    }
  }

  /** Received products were ordered in the order, so they are of its organisation. */
  lemma ReceiveKeepsForeignStock(t: Tables, org: int, branch: int, order: int)
    requires OrderItemsLinked(t.products, t.orders, t.orderItems)
    ensures ForeignStockKept(t, PurchaseOrders.ApplyReceive(t, org, branch, order).stocks, org)
  {
    if PurchaseOrders.ReceiveVerdict(t, org, branch, order) == None {
      var lines := PurchaseOrders.OrderLines(t.orderItems, order);
      PurchaseOrders.OrderLinesPositive(t.orderItems, order);
      OrderLinesOwned(t, t.orderItems, org, order);
      ForeignCredit(t, org, branch, lines);
    }
  }

  lemma {:induction false} OrderLinesOwned(t: Tables, items: seq<OrderItem>, org: int, order: int)
    requires forall x <- items | x.order == order :: OwnsProduct(t, org, x.product)
    ensures forall l <- PurchaseOrders.OrderLines(items, order) :: OwnsProduct(t, org, l.product)
  {
    if items != [] {
      assert items == items[..|items| - 1] + [items[|items| - 1]];
      OrderLinesOwned(t, items[..|items| - 1], org, order);
    }
  }

  /**
    In every reachable state a call leaves the stock rows of other organisations' products as they were, in every
    branch.
   */
  lemma OtherTenantsStockKept(t: Tables, call: Call)
    requires Inv(t)
    ensures ForeignStockKept(t, Apply(t, call).stocks, CallerOrg(call))
  {
    if call.Sell? {
      SaleKeepsForeignStock(t, call.request, call.clock);
    } else if call.TakeBack? {
      ReturnKeepsForeignStock(t, call.org, call.branch, call.sale, call.reason, call.items);
    } else if call.ReceiveOrder? {
      ReceiveKeepsForeignStock(t, call.org, call.branch, call.order);
    }
  }

  // ---------- receipts ----------

  ghost predicate OneClock(calls: seq<Call>) {
    forall c <- calls | c.Sell? :: c.clock.database == c.clock.service
  }

  /**
    With one clock every run keeps the numbering 1..k of each day, so a checkout is never refused for its receipt
    number, and no two receipts share one.
   */
  lemma {:induction false} ReceiptsStayNumbered(t: Tables, calls: seq<Call>)
    requires StocksInRange(t.stocks) && NumberedByDay(t.receipts) && OneClock(calls)
    ensures NumberedByDay(Run(t, calls).receipts)
  {
    if calls != [] {
      var before, last := calls[..|calls| - 1], calls[|calls| - 1];
      assert last in calls;
      ReceiptsStayNumbered(t, before);
      if last.Sell? {
        SaleStaysNumbered(Run(t, before), last);
      } else {
        ReceiptsAfter(Run(t, before), last);
      }
    }
  }

  lemma SaleStaysNumbered(t: Tables, call: Call)
    requires StocksInRange(t.stocks) && NumberedByDay(t.receipts)
    requires call.Sell? && call.clock.database == call.clock.service
    ensures NumberedByDay(Apply(t, call).receipts)
  {
    Checkout.NoFaultIffCommits(t, call.request, call.clock);
    if Checkout.Commits(t, call.request, call.clock) {
      var receipts := Checkout.Effect(t, call.request, call.clock).receipts;
      NextNumberNumbered(t.receipts, receipts[|t.receipts|]);
    }
  }

  lemma ReceiptsAfter(t: Tables, call: Call)
    requires StocksInRange(t.stocks) && !call.Sell?
    ensures Apply(t, call).receipts == t.receipts && Apply(t, call).sales == t.sales
  {
  }

  /** In serial runs with one clock no checkout is refused for its receipt number. */
  lemma NeverRefusedForItsNumber(t: Tables, calls: seq<Call>, req: Checkout.Request, day: Day)
    requires StocksInRange(t.stocks) && NumberedByDay(t.receipts) && OneClock(calls)
    ensures Checkout.Verdict(Run(t, calls), req, Checkout.Clock(day, day)) != Some(Checkout.ReceiptNumberTaken)
  {
    ReceiptsStayNumbered(t, calls);
    NextNumberFree(Run(t, calls).receipts, day);
    Checkout.NumberRefusedIff(Run(t, calls), req, Checkout.Clock(day, day));
  }

  // ---------- receipts with two clocks ----------

  function PrintedBy(t: Tables, call: Call): seq<Day> {
    if call.Sell? && Checkout.Verdict(t, call.request, call.clock) == None then [call.clock.service] else []
  }

  /** The days printed on the receipts after a run: the service's day of every committed checkout. */
  function PrintedDays(t: Tables, calls: seq<Call>, printed: seq<Day>): seq<Day>
    requires StocksInRange(t.stocks)
  {
    if calls == [] then printed
    else
      var before := calls[..|calls| - 1];
      PrintedDays(t, before, printed) + PrintedBy(Run(t, before), calls[|calls| - 1])
  }

  lemma CallNumbered(t: Tables, call: Call, printed: seq<Day>)
    requires StocksInRange(t.stocks) && Numbered(t.receipts, printed)
    ensures Numbered(Apply(t, call).receipts, printed + PrintedBy(t, call))
  {
    assert printed + [] == printed;
    if call.Sell? {
      Checkout.NoFaultIffCommits(t, call.request, call.clock);
      if Checkout.Commits(t, call.request, call.clock) {
        var receipts := Checkout.Effect(t, call.request, call.clock).receipts;
        NextNumbered(t.receipts, printed, receipts[|t.receipts|], call.clock.service);
      }
    } else {
      ReceiptsAfter(t, call);
    }
  }

  lemma {:induction false} RunNumbered(t: Tables, calls: seq<Call>, printed: seq<Day>)
    requires StocksInRange(t.stocks) && Numbered(t.receipts, printed)
    ensures Numbered(Run(t, calls).receipts, PrintedDays(t, calls, printed))
  {
    if calls != [] {
      var before := calls[..|calls| - 1];
      RunNumbered(t, before, printed);
      CallNumbered(Run(t, before), calls[|calls| - 1], PrintedDays(t, before, printed));
    }
  }

  /**
    Whatever the two clocks do: after any run, a checkout is refused for its receipt number if and only if nothing
    else is wrong with it and some receipt already printed the service's day at the database's next rank.
   */
  lemma RefusedForItsNumberIff(t: Tables, calls: seq<Call>, printed: seq<Day>, req: Checkout.Request,
                              clock: Checkout.Clock)
    requires StocksInRange(t.stocks) && Numbered(t.receipts, printed)
    ensures var t', days := Run(t, calls), PrintedDays(t, calls, printed);
      && |days| == |t'.receipts|
      && (Checkout.Verdict(t', req, clock) == Some(Checkout.ReceiptNumberTaken) <==>
            && Checkout.Sellable(t', req)
            && exists i | 0 <= i < |days| ::
                 days[i] == clock.service && Rank(t'.receipts, i) == CountOn(t'.receipts, clock.database) + 1)
  {
    var t' := Run(t, calls);
    RunNumbered(t, calls, printed);
    TakenIff(t'.receipts, PrintedDays(t, calls, printed), clock.database, clock.service);
    Checkout.NumberRefusedIff(t', req, clock);
  }

  /** A taken number stays taken: until one of the clocks moves on, no checkout commits and none gets a receipt. */
  lemma {:induction false} StuckUntilAClockMoves(t: Tables, calls: seq<Call>, clock: Checkout.Clock)
    requires StocksInRange(t.stocks) && NumberTaken(t.receipts, Checkout.NextNumber(t, clock))
    requires forall c <- calls | c.Sell? :: c.clock == clock
    ensures Run(t, calls).receipts == t.receipts && Run(t, calls).sales == t.sales
    ensures forall req :: !Checkout.Commits(Run(t, calls), req, clock)
  {
    if calls != [] {
      var before, last := calls[..|calls| - 1], calls[|calls| - 1];
      assert last in calls;
      StuckUntilAClockMoves(t, before, clock);
      if last.Sell? {
        Checkout.NoFaultIffCommits(Run(t, before), last.request, clock);
      } else {
        ReceiptsAfter(Run(t, before), last);
      }
    }
  }
}
