/** Conservation of stock over whole runs: what is on the shelves, sold, returned and received adds up. */
module Conservation {
  import opened Outcomes
  import opened Sums
  import opened Schema
  import opened Stock
  import opened Database
  import opened Ledger
  import Returns
  import Checkout
  import PurchaseOrders

  const DetailProduct: Detail -> int := (d: Detail) => d.product
  const DetailQuantity: Detail -> int := (d: Detail) => d.quantity
  const ItemProduct: RefundItem -> int := (x: RefundItem) => x.product
  const ItemQuantity: RefundItem -> int := (x: RefundItem) => x.quantity

  /** A product's stock summed over the branches. */
  function OnShelves(s: Stocks, branches: nat, product: int): int {
    if branches == 0 then 0 else OnShelves(s, branches - 1, product) + StockAt(s, Key(branches - 1, product))
  }

  function Sold(t: Tables, product: int): int {
    Sum(t.details, OnKey(DetailProduct, DetailQuantity, product))
  }

  function Returned(t: Tables, product: int): int {
    Sum(t.refundItems, OnKey(ItemProduct, ItemQuantity, product))
  }

  function ReceivedOf(orders: seq<Order>, product: int): OrderItem -> int {
    (x: OrderItem) =>
      if 0 <= x.order < |orders| && orders[x.order].status == Received && x.product == product then x.quantity else 0
  }

  function ReceivedTotal(t: Tables, product: int): int {
    Sum(t.orderItems, ReceivedOf(t.orders, product))
  }

  /** Stock on the shelves plus everything that left them, less everything that came in. */
  function Balance(t: Tables, product: int): int {
    OnShelves(t.stocks, |t.branches|, product) + Sold(t, product) - Returned(t, product) - ReceivedTotal(t, product)
  }

  /** A committed checkout recorded more of the product as sold than the branch held when it started. */
  ghost predicate Oversells(t: Tables, call: Call, product: int) {
    && call.Sell?
    && Checkout.Commits(t, call.request, call.clock)
    && Demand(call.request.items, product) > StockAt(t.stocks, Key(call.request.branch, product))
  }

  ghost predicate NeverOversells(t: Tables, calls: seq<Call>, product: int)
    requires StocksInRange(t.stocks)
  {
    calls == []
    || (NeverOversells(t, calls[..|calls| - 1], product)
        && !Oversells(Run(t, calls[..|calls| - 1]), calls[|calls| - 1], product))
  }

  lemma {:induction false} OtherBranches(s: Stocks, s': Stocks, branches: nat, branch: int, product: int)
    requires forall b | b != branch :: StockAt(s', Key(b, product)) == StockAt(s, Key(b, product))
    ensures OnShelves(s', branches, product) == OnShelves(s, branches, product)
      + if 0 <= branch < branches then StockAt(s', Key(branch, product)) - StockAt(s, Key(branch, product)) else 0
  {
    if branches > 0 {
      OtherBranches(s, s', branches - 1, branch, product);
    }
  }

  lemma DeductedShelves(s: Stocks, branches: nat, branch: int, lines: seq<Line>, product: int)
    requires Positive(lines) && NonNegative(s) && 0 <= branch < branches
    ensures var s' := DeductAll(s, branch, lines);
      && OnShelves(s', branches, product) >= OnShelves(s, branches, product) - Demand(lines, product)
      && (OnShelves(s', branches, product) == OnShelves(s, branches, product) - Demand(lines, product)
          <==> Demand(lines, product) <= StockAt(s, Key(branch, product)))
  {
    var s' := DeductAll(s, branch, lines);
    forall b | b != branch ensures StockAt(s', Key(b, product)) == StockAt(s, Key(b, product)) {
      DeductAllAt(s, branch, lines, Key(b, product));
    }
    OtherBranches(s, s', branches, branch, product);
    DeductAllAt(s, branch, lines, Key(branch, product));
  }

  lemma CreditedShelves(s: Stocks, branches: nat, branch: int, lines: seq<Line>, product: int)
    requires 0 <= branch < branches || lines == []
    ensures OnShelves(CreditAll(s, branch, lines), branches, product)
      == OnShelves(s, branches, product) + Demand(lines, product)
  {
    var s' := CreditAll(s, branch, lines);
    forall b | b != branch ensures StockAt(s', Key(b, product)) == StockAt(s, Key(b, product)) {
      CreditAllAt(s, branch, lines, Key(b, product));
    }
    OtherBranches(s, s', branches, branch, product);
    CreditAllAt(s, branch, lines, Key(branch, product));
  }

  /** Marking one pending order received moves exactly its lines into the received total. */
  lemma {:induction false} OrderMarked(items: seq<OrderItem>, orders: seq<Order>, order: int, product: int)
    requires 0 <= order < |orders| && orders[order].status == Pending
    ensures Sum(items, ReceivedOf(orders[order := orders[order].(status := Received)], product))
         == Sum(items, ReceivedOf(orders, product)) + Demand(PurchaseOrders.OrderLines(items, order), product)
  {
    if items != [] {
      var n := |items| - 1;
      OrderMarked(items[..n], orders, order, product);
      var lines := PurchaseOrders.OrderLines(items[..n], order);
      if items[n].order == order {
        var l := Line(items[n].product, items[n].quantity);
        assert (lines + [l])[..|lines|] == lines && (lines + [l])[..|lines| + 1] == lines + [l];
        DemandStep(lines + [l], product, |lines|);
      } else {
        assert lines + [] == lines;
      }
    }
  }

  lemma SellSold(t: Tables, req: Checkout.Request, clock: Checkout.Clock, product: int)
    requires StocksInRange(t.stocks) && Checkout.Commits(t, req, clock)
    ensures Sold(Checkout.Effect(t, req, clock), product) == Sold(t, product) + Demand(req.items, product)
  {
    var rows, _ := SaleRows(t, req, clock);
    SumAppend(t.details, rows, OnKey(DetailProduct, DetailQuantity, product));
    RowsDemand(rows, req.items, product);
  }

  lemma RowsDemand(rows: seq<Detail>, lines: seq<Line>, product: int)
    requires |rows| == |lines|
    requires forall i | 0 <= i < |rows| :: rows[i].product == lines[i].product && rows[i].quantity == lines[i].quantity
    ensures Sum(rows, OnKey(DetailProduct, DetailQuantity, product)) == Demand(lines, product)
  {
    SumZip(rows, OnKey(DetailProduct, DetailQuantity, product), lines, OnKey(LineProduct, LineQuantity, product));
  }

  lemma SellBalance(t: Tables, req: Checkout.Request, clock: Checkout.Clock, product: int)
    requires StocksInRange(t.stocks) && Checkout.Commits(t, req, clock)
    ensures var t' := Checkout.Effect(t, req, clock);
      && Balance(t', product) >= Balance(t, product)
      && (Balance(t', product) == Balance(t, product)
          <==> Demand(req.items, product) <= StockAt(t.stocks, Key(req.branch, product)))
  {
    SellSold(t, req, clock, product);
    DeductedShelves(t.stocks, |t.branches|, req.branch, req.items, product);
  }

  lemma TakeBackBalance(t: Tables, org: int, branch: int, sale: int, reason: string, items: seq<Line>, product: int)
    requires Inv(t) && Returns.Commits(t, org, branch, sale, items)
    ensures Balance(Returns.Effect(t, org, branch, sale, reason, items), product) == Balance(t, product)
  {
    var units := Returns.UnitPrices(t, sale);
    Returns.RowsFit(t, units, branch, items);
    var rows := RefundItemRows(|t.refunds|, Returns.Offered(units, items));
    NewRefundItems(t, units, items, rows);
    assert items[0] in items;
    CreditedShelves(t.stocks, |t.branches|, branch, items, product);
    SumAppend(t.refundItems, rows, OnKey(ItemProduct, ItemQuantity, product));
    SumZip(rows, OnKey(ItemProduct, ItemQuantity, product), items, OnKey(LineProduct, LineQuantity, product));
  }

  lemma CreateOrderBalance(t: Tables, org: int, branch: int, supplier: int,
                           lines: seq<PurchaseOrders.OrderLine>, product: int)
    requires Inv(t) && PurchaseOrders.Creates(t, org, branch, supplier, lines)
    ensures Balance(PurchaseOrders.CreateEffect(t, org, branch, supplier, lines), product) == Balance(t, product)
  {
    var t' := PurchaseOrders.CreateEffect(t, org, branch, supplier, lines);
    var prices := PurchaseOrders.RequestedPrices(t, org, lines);
    var normal := PurchaseOrders.NormalizeAll(prices, lines);
    PurchaseOrders.OffersFit(prices, normal);
    var rows := OrderItemRows(|t.orders|, PurchaseOrders.Offered(prices, normal));
    SumAppend(t.orderItems, rows, ReceivedOf(t'.orders, product));
    SumZero(rows, ReceivedOf(t'.orders, product));
    SumZip(t.orderItems, ReceivedOf(t'.orders, product), t.orderItems, ReceivedOf(t.orders, product));
  }

  lemma ReceiveBalance(t: Tables, org: int, branch: int, order: int, product: int)
    requires Inv(t)
    ensures Balance(PurchaseOrders.ApplyReceive(t, org, branch, order), product) == Balance(t, product)
  {
    if PurchaseOrders.ReceiveVerdict(t, org, branch, order) == None {
      var lines := PurchaseOrders.OrderLines(t.orderItems, order);
      PurchaseOrders.OrderLinesPositive(t.orderItems, order);
      PurchaseOrders.NoLineFaultIffFits(t, branch, lines);
      assert lines != [] ==> lines[0] in lines;
      CreditedShelves(t.stocks, |t.branches|, branch, lines, product);
      OrderMarked(t.orderItems, t.orders, order, product);
    }
  }

  lemma SaleBalance(t: Tables, req: Checkout.Request, clock: Checkout.Clock, product: int)
    requires StocksInRange(t.stocks)
    ensures var t' := Checkout.Apply(t, req, clock);
      && Balance(t', product) >= Balance(t, product)
      && (Balance(t', product) == Balance(t, product) <==> !Oversells(t, Sell(req, clock), product))
  {
    Checkout.NoFaultIffCommits(t, req, clock);
    if Checkout.Commits(t, req, clock) {
      SellBalance(t, req, clock, product);
    }
  }

  lemma ReturnBalance(t: Tables, org: int, branch: int, sale: int, reason: string, items: seq<Line>, product: int)
    requires Inv(t)
    ensures Balance(Returns.Apply(t, org, branch, sale, reason, items), product) == Balance(t, product)
  {
    if Returns.Verdict(t, org, branch, sale, items) == None {
      Returns.NoFaultIffCommits(t, org, branch, sale, items);
      TakeBackBalance(t, org, branch, sale, reason, items, product);
    }
  }

  lemma CreateBalance(t: Tables, org: int, branch: int, supplier: int, lines: seq<PurchaseOrders.OrderLine>,
                      product: int)
    requires Inv(t)
    ensures Balance(PurchaseOrders.ApplyCreate(t, org, branch, supplier, lines), product) == Balance(t, product)
  {
    if PurchaseOrders.CreateOutcome(t, org, branch, supplier, lines).Success? {
      PurchaseOrders.CreatedIffCreates(t, org, branch, supplier, lines);
      CreateOrderBalance(t, org, branch, supplier, lines, product);
    }
  }

  lemma InflowCallBalance(t: Tables, call: Call, product: int)
    requires Inv(t) && (call.TakeBack? || call.ReceiveOrder?)
    ensures Balance(Apply(t, call), product) == Balance(t, product)
  {
    if call.TakeBack? {
      ReturnBalance(t, call.org, call.branch, call.sale, call.reason, call.items, product);
    } else {
      ReceiveBalance(t, call.org, call.branch, call.order, product);
    }
  }

  lemma StillCallBalance(t: Tables, call: Call, product: int)
    requires Inv(t) && (call.CreateOrder? || call.EditProduct? || call.SetThreshold?)
    ensures Balance(Apply(t, call), product) == Balance(t, product)
  {
    if call.CreateOrder? {
      CreateBalance(t, call.org, call.branch, call.supplier, call.lines, product);
    }
  }

  /** One call of any kind keeps the balance, except a checkout that oversells, which raises it. */
  lemma CallBalance(t: Tables, call: Call, product: int)
    requires Inv(t)
    ensures Balance(Apply(t, call), product) >= Balance(t, product)
    ensures Balance(Apply(t, call), product) == Balance(t, product) <==> !Oversells(t, call, product)
  {
    if call.Sell? {
      SaleBalance(t, call.request, call.clock, product);
    } else if call.TakeBack? || call.ReceiveOrder? {
      InflowCallBalance(t, call, product);
    } else {
      StillCallBalance(t, call, product);
    }
  }

  /**
    Over every run: stock never falls short of initial stock plus receipts plus returns minus sales, and it is
    exactly that if and only if no committed checkout asked for more of the product than its branch held.
   */
  lemma {:induction false} Conserved(t: Tables, calls: seq<Call>, product: int)
    requires Inv(t)
    ensures Balance(Run(t, calls), product) >= Balance(t, product)
    ensures Balance(Run(t, calls), product) == Balance(t, product) <==> NeverOversells(t, calls, product)
  {
    if calls != [] {
      var before := calls[..|calls| - 1];
      Conserved(t, before, product);
      RunKeepsInv(t, before);
      CallBalance(Run(t, before), calls[|calls| - 1], product);
    }
  }

  /** Carts of distinct products never oversell, so with them conservation is exact. */
  lemma {:induction false} DistinctCartsConserve(t: Tables, calls: seq<Call>, product: int)
    requires Inv(t)
    requires forall c <- calls | c.Sell? :: DistinctProducts(c.request.items)
    ensures Balance(Run(t, calls), product) == Balance(t, product)
  {
    Conserved(t, calls, product);
    DistinctCartsFit(t, calls, product);
  }

  lemma {:induction false} DistinctCartsFit(t: Tables, calls: seq<Call>, product: int)
    requires Inv(t)
    requires forall c <- calls | c.Sell? :: DistinctProducts(c.request.items)
    ensures NeverOversells(t, calls, product)
  {
    if calls != [] {
      var before, last := calls[..|calls| - 1], calls[|calls| - 1];
      DistinctCartsFit(t, before, product);
      var t' := Run(t, before);
      if last.Sell? && Checkout.Commits(t', last.request, last.clock) {
        assert last in calls;
        DistinctLinesCovered(t'.stocks, last.request.branch, last.request.items);
      }
    }
  }
}
