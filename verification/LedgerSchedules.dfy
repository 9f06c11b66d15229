/**
  The ledger under overlapping transactions. A transaction reads what the services read without a lock when it
  starts: prices, the unit prices of a sale, an order's status and lines; a receipt number is drawn later. Its stock
  rows are locked until it commits, so their effect is that at the commit, as `Interleaving` shows, and whatever it
  inserts becomes visible there. In between, other transactions commit and prices change.
 */
module LedgerSchedules {
  import opened Machine
  import opened Outcomes
  import opened Sums
  import opened Schema
  import opened Stock
  import opened Receipts
  import opened Database
  import opened Returns
  import opened Ledger
  import opened Lifecycle
  import Checkout
  import PurchaseOrders
  import Catalog
  import RoundTrip

  /** A transaction under way, with what it has read. */
  datatype Pending =
    | Selling(request: Checkout.Request, day: Day, prices: map<int, Amount>, number: Option<string>)
    | Returning(org: int, branch: int, sale: int, reason: string, items: seq<Line>, units: map<int, Amount>)
    | Ordering(org: int, branch: int, supplier: int, prices: map<int, Amount>, normal: seq<PurchaseOrders.OrderLine>)
    | Receiving(org: int, branch: int, order: int, lines: seq<Line>)

  datatype State = State(tables: Tables, clients: map<int, Pending>)

  datatype Action =
    | StartSale(client: int, request: Checkout.Request, day: Day)
    | DrawNumber(client: int, service: Day)
    | StartReturn(client: int, org: int, branch: int, sale: int, reason: string, items: seq<Line>)
    | StartOrder(client: int, org: int, branch: int, supplier: int, lines: seq<PurchaseOrders.OrderLine>)
    | StartReceive(client: int, org: int, branch: int, order: int)
    | Commit(client: int)
    | Rollback(client: int)
    | EditProduct(org: int, product: int, edit: Catalog.Edit)
    | SetThreshold(org: int, product: int, threshold: Threshold)

  // ---------- the transition system ----------

  /** The checks made before or while reading. */
  predicate CanStart(t: Tables, a: Action) {
    match a
    case StartSale(_, request, _) =>
      && Checkout.ShapeFault(request) == None
      && Checkout.CustomerKnown(t, request.org, request.customer)
      && forall l <- request.items :: OwnsProduct(t, request.org, l.product)
    case StartReturn(_, org, _, sale, _, items) =>
      Returns.ShapeFault(items) == None && SaleOfOrg(t, org, sale)
    case StartOrder(_, org, _, supplier, lines) =>
      && PurchaseOrders.ShapeFault(lines) == None && PurchaseOrders.SupplierOfOrg(t, org, supplier)
      && forall l <- lines :: OwnsProduct(t, org, l.product)
    case StartReceive(_, org, _, order) =>
      PurchaseOrders.OrderOfOrg(t, org, order) && t.orders[order].status == Pending
    case _ => false
  }

  /** What a transaction that starts now has read. */
  function Started(t: Tables, a: Action): Pending
    requires CanStart(t, a)
  {
    match a
    case StartSale(_, request, day) =>
      Selling(request, day, Prices(t, request.org, ProductIds(request.items)), None)
    case StartReturn(_, org, branch, sale, reason, items) =>
      Returning(org, branch, sale, reason, items, UnitPrices(t, sale))
    case StartOrder(_, org, branch, supplier, lines) =>
      var prices := PurchaseOrders.RequestedPrices(t, org, lines);
      Ordering(org, branch, supplier, prices, PurchaseOrders.NormalizeAll(prices, lines))
    case StartReceive(_, org, branch, order) =>
      Receiving(org, branch, order, PurchaseOrders.OrderLines(t.orderItems, order))
  }

  /** The checks, guards and column bounds between reading and commit, against the tables at the commit. */
  ghost predicate CanCommit(t: Tables, p: Pending) {
    match p
    case Selling(request, _, prices, number) =>
      && EachLineAvailable(t.stocks, request.branch, request.items)
      && Checkout.InColumns(request.items)
      && Checkout.Payable(t.paymentTypes, prices, request)
      && HasBranch(t, request.branch)
      && number.Some? && !NumberTaken(t.receipts, number.value)
    case Returning(_, branch, _, _, items, units) =>
      Positive(items) && StocksInRange(t.stocks) && Acceptable(t, units, branch, items)
    case Ordering(_, branch, _, _, normal) =>
      PurchaseOrders.Affordable(normal) && HasBranch(t, branch)
    case Receiving(_, branch, _, lines) =>
      PurchaseOrders.Fits(t, branch, lines)
  }

  function Committed(t: Tables, p: Pending): Tables
    requires CanCommit(t, p)
  {
    match p
    case Selling(request, day, prices, number) => Checkout.Recorded(t, request, prices, number.value, day)
    case Returning(org, branch, sale, reason, items, units) => Returned(t, org, branch, sale, reason, items, units)
    case Ordering(org, branch, supplier, prices, normal) =>
      PurchaseOrders.Ordered(t, org, branch, supplier, prices, normal)
    case Receiving(org, branch, order, lines) => Received(t, org, branch, order, lines)
  }

  /** The tables once a return is recorded at the unit prices it has read. */
  function Returned(t: Tables, org: int, branch: int, sale: int, reason: string, items: seq<Line>,
                    units: map<int, Amount>): Tables
    requires Positive(items) && StocksInRange(t.stocks) && Acceptable(t, units, branch, items)
  {
    Returns.RowsFit(t, units, branch, items);
    t.(stocks := CreditAll(t.stocks, branch, items),
       refunds := t.refunds + [Refund(org, sale, Sum(items, LineRefund(units)), reason)],
       refundItems := t.refundItems + RefundItemRows(|t.refunds|, Returns.Offered(units, items)))
  }

  /** The tables once an order's lines are credited and it is marked, whether or not it is marked already. */
  function Received(t: Tables, org: int, branch: int, order: int, lines: seq<Line>): Tables {
    t.(stocks := CreditAll(t.stocks, branch, lines),
       orders := if PurchaseOrders.OrderOfOrg(t, org, order)
         then t.orders[order := t.orders[order].(status := Status.Received)] else t.orders)
  }

  ghost predicate Enabled(s: State, a: Action) {
    match a
    case DrawNumber(c, _) => c in s.clients && s.clients[c].Selling?
    case Commit(c) => c in s.clients && CanCommit(s.tables, s.clients[c])
    case Rollback(c) => c in s.clients
    case EditProduct(_, _, _) => true
    case SetThreshold(_, _, _) => true
    case _ => a.client !in s.clients && CanStart(s.tables, a)
  }

  function Execute(s: State, a: Action): State
    requires Enabled(s, a)
  {
    match a
    case DrawNumber(c, service) =>
      var number := ReceiptNumber(service, CountOn(s.tables.receipts, s.clients[c].day) + 1);
      s.(clients := s.clients[c := s.clients[c].(number := Some(number))])
    case Commit(c) => State(Committed(s.tables, s.clients[c]), s.clients - {c})
    case Rollback(c) => s.(clients := s.clients - {c})
    case EditProduct(org, product, edit) => s.(tables := Catalog.Apply(s.tables, org, product, edit))
    case SetThreshold(org, product, threshold) => s.(tables := ApplyThreshold(s.tables, org, product, threshold))
    case _ => s.(clients := s.clients[a.client := Started(s.tables, a)])
  }

  ghost predicate Runs(states: seq<State>, schedule: seq<Action>) {
    |states| == |schedule| + 1 && forall i | 0 <= i < |schedule| :: LeadsOn(states, schedule, i)
  }

  ghost predicate LeadsOn(states: seq<State>, schedule: seq<Action>, i: nat)
    requires i < |schedule| && |states| == |schedule| + 1
  {
    Enabled(states[i], schedule[i]) && states[i + 1] == Execute(states[i], schedule[i])
  }

  // ---------- what a transaction has read still means something ----------

  /**
    A sale's products are still owned, though their prices may have changed. The unit prices that a return has read
    are still those of the sale, and the lines that a receive has read still those of the order.
   */
  ghost predicate StillValid(t: Tables, p: Pending) {
    match p
    case Selling(request, _, prices, _) =>
      request.items != [] && Bought(t.products, request.org, prices, request.items)
    case Returning(org, _, sale, _, items, units) =>
      items != [] && SaleOfOrg(t, org, sale) && units == UnitPrices(t, sale)
    case Ordering(org, _, _, _, normal) =>
      forall l <- normal :: Owns(t.products, org, l.product)
    case Receiving(org, _, order, lines) =>
      PurchaseOrders.OrderOfOrg(t, org, order) && lines == PurchaseOrders.OrderLines(t.orderItems, order)
  }

  lemma StartedIsValid(t: Tables, a: Action)
    requires CanStart(t, a)
    ensures StillValid(t, Started(t, a))
  {
    match a
    case StartSale(_, request, _) => CartPriced(t, request.org, request.items);
    case StartReturn(_, _, _, _, _, _) =>
    case StartOrder(_, org, _, _, lines) =>
      var normal := PurchaseOrders.NormalizeAll(PurchaseOrders.RequestedPrices(t, org, lines), lines);
      forall l <- normal ensures Owns(t.products, org, l.product) {
        var i :| 0 <= i < |normal| && normal[i] == l;
        assert lines[i] in lines;
      }
    case StartReceive(_, _, _, _) =>
  }

  /** Unit prices of a stored sale depend on its rows only, which later commits leave alone. */
  lemma UnitPricesStay(t: Tables, t': Tables, sale: int)
    requires After(t, t') && 0 <= sale < |t.sales|
    ensures UnitPrices(t', sale) == UnitPrices(t, sale)
  {
    var later := t'.details[|t.details|..];
    assert t'.details == t.details + later;
    forall i | 0 <= i < |later| ensures later[i].sale != sale {
      assert later[i] == t'.details[|t.details| + i];
    }
    RowsAppended(t, t', t.details, later, sale);
  }

  lemma {:induction false} RowsAppended(t: Tables, t': Tables, details: seq<Detail>, later: seq<Detail>, sale: int)
    requires t'.products.Keys == t.products.Keys && forall d <- later :: d.sale != sale
    ensures SoldRows(t', details + later, sale) == SoldRows(t, details, sale)
  {
    var all := details + later;
    if later != [] {
      assert all[..|all| - 1] == details + later[..|later| - 1];
      RowsAppended(t, t', details, later[..|later| - 1], sale);
      assert all[|all| - 1] == later[|later| - 1];
    } else if details != [] {
      assert all == details;
      RowsAppended(t, t', details[..|details| - 1], [], sale);
      assert details[..|details| - 1] + [] == details[..|details| - 1];
    }
  }

  lemma OrderLinesStay(t: Tables, t': Tables, order: int)
    requires After(t, t') && 0 <= order < |t.orders|
    ensures PurchaseOrders.OrderLines(t'.orderItems, order) == PurchaseOrders.OrderLines(t.orderItems, order)
  {
    var later := t'.orderItems[|t.orderItems|..];
    assert t'.orderItems == t.orderItems + later;
    forall i | 0 <= i < |later| ensures later[i].order != order {
      assert later[i] == t'.orderItems[|t.orderItems| + i];
    }
    ItemsAppended(t.orderItems, later, order);
  }

  lemma {:induction false} ItemsAppended(items: seq<OrderItem>, later: seq<OrderItem>, order: int)
    requires forall x <- later :: x.order != order
    ensures PurchaseOrders.OrderLines(items + later, order) == PurchaseOrders.OrderLines(items, order)
  {
    var all := items + later;
    if later != [] {
      assert all[..|all| - 1] == items + later[..|later| - 1];
      ItemsAppended(items, later[..|later| - 1], order);
      assert all[|all| - 1] == later[|later| - 1];
    } else {
      assert all == items;
    }
  }

  /** What others commit, and price changes, leave a transaction valid. */
  lemma ValidStays(t: Tables, t': Tables, org: int, p: Pending)
    requires StillValid(t, p) && After(t, t') && ProductsStep(t.products, t'.products, org)
    ensures StillValid(t', p)
  {
    match p
    case Selling(_, _, _, _) =>
    case Returning(_, _, sale, _, _, _) => UnitPricesStay(t, t', sale);
    case Ordering(_, _, _, _, _) =>
    case Receiving(_, _, order, _) => OrderLinesStay(t, t', order);
  }

  // ---------- a commit ----------

  function OrgOf(p: Pending): int {
    match p
    case Selling(request, _, _, _) => request.org
    case Returning(org, _, _, _, _, _) => org
    case Ordering(org, _, _, _, _) => org
    case Receiving(org, _, _, _) => org
  }

  /** A return that commits late commits exactly what the serial call would commit then. */
  lemma ReturnedIsEffect(t: Tables, org: int, branch: int, sale: int, reason: string, items: seq<Line>)
    requires items != [] && Positive(items) && StocksInRange(t.stocks) && SaleOfOrg(t, org, sale)
    requires Acceptable(t, UnitPrices(t, sale), branch, items)
    ensures Returns.Commits(t, org, branch, sale, items)
    ensures Returned(t, org, branch, sale, reason, items, UnitPrices(t, sale))
         == Returns.Effect(t, org, branch, sale, reason, items)
  {
  }

  lemma SaleCommits(t: Tables, p: Pending)
    requires Ledger.Inv(t) && StillValid(t, p) && CanCommit(t, p) && p.Selling?
    ensures Ledger.Inv(Committed(t, p))
  {
    RecordedKeepsInv(t, p.request, p.prices, p.number.value, p.day);
  }

  lemma SaleAdds(t: Tables, p: Pending)
    requires StillValid(t, p) && CanCommit(t, p) && p.Selling?
    ensures AddsSale(t, Committed(t, p), OrgOf(p))
  {
    var rows, paid := RecordedRows(t, p.request, p.prices, p.number.value, p.day);
  }

  lemma ReturnCommits(t: Tables, p: Pending)
    requires Ledger.Inv(t) && StillValid(t, p) && CanCommit(t, p) && p.Returning?
    ensures Ledger.Inv(Committed(t, p)) && AddsRefund(t, Committed(t, p), OrgOf(p))
  {
    ReturnedIsEffect(t, p.org, p.branch, p.sale, p.reason, p.items);
    TakeBackKeepsInv(t, p.org, p.branch, p.sale, p.reason, p.items);
    TakeBackStep(t, p.org, p.branch, p.sale, p.reason, p.items);
  }

  lemma OrderCommits(t: Tables, p: Pending)
    requires Ledger.Inv(t) && StillValid(t, p) && CanCommit(t, p) && p.Ordering?
    ensures Ledger.Inv(Committed(t, p)) && AddsOrder(t, Committed(t, p), OrgOf(p))
  {
    OrderedKeepsInv(t, p.org, p.branch, p.supplier, p.prices, p.normal);
  }

  /** A receive that commits late keeps the invariant too, although it may credit the order a second time. */
  lemma ReceiveCommits(t: Tables, p: Pending)
    requires Ledger.Inv(t) && StillValid(t, p) && CanCommit(t, p) && p.Receiving?
    ensures Ledger.Inv(Committed(t, p)) && TableSteps(t, Committed(t, p), OrgOf(p))
  {
    PurchaseOrders.OrderLinesPositive(t.orderItems, p.order);
    CreditAllInRange(t.stocks, p.branch, p.lines);
    CreditKeepsLinks(t, p.branch, p.lines);
    MarkedOnly(t, Committed(t, p), p.order);
  }

  /** Crediting stock and marking an order touch nothing else that the invariant is about. */
  lemma MarkedOnly(t: Tables, t': Tables, order: int)
    requires Ledger.Inv(t) && 0 <= order < |t.orders|
    requires t' == t.(stocks := t'.stocks, orders := t.orders[order := t.orders[order].(status := Status.Received)])
    requires StocksInRange(t'.stocks) && StocksLinked(t.products, t.branches, t'.stocks)
    ensures Ledger.Inv(t') && TableSteps(t, t', t.orders[order].org)
  {
    assert t.orders[order].status == Status.Received ==> t'.orders == t.orders;
  }

  lemma CommitKeeps(t: Tables, p: Pending)
    requires Ledger.Inv(t) && StillValid(t, p) && CanCommit(t, p)
    ensures Ledger.Inv(Committed(t, p)) && TableSteps(t, Committed(t, p), OrgOf(p))
  {
    match p
    case Selling(_, _, _, _) =>
      SaleCommits(t, p);
      SaleAdds(t, p);
      SaleByTable(t, Committed(t, p), OrgOf(p));
    case Returning(_, _, _, _, _, _) =>
      ReturnCommits(t, p);
      RefundByTable(t, Committed(t, p), OrgOf(p));
    case Ordering(_, _, _, _, _) =>
      OrderCommits(t, p);
      OrderByTable(t, Committed(t, p), OrgOf(p));
    case Receiving(_, _, _, _) => ReceiveCommits(t, p);
  }

  // ---------- every schedule ----------

  ghost predicate Inv(s: State) {
    Ledger.Inv(s.tables) && forall c <- s.clients :: StillValid(s.tables, s.clients[c])
  }

  /** New tables that extend the old ones keep the invariant, for clients that were there before. */
  lemma TablesMove(s: State, t': Tables, clients: map<int, Pending>, org: int)
    requires Inv(s) && Ledger.Inv(t') && TableSteps(s.tables, t', org)
    requires forall c <- clients :: c in s.clients && clients[c] == s.clients[c]
    ensures Inv(State(t', clients))
  {
    StepExtends(s.tables, s.tables, t', org);
    forall c <- clients ensures StillValid(t', clients[c]) {
      ValidStays(s.tables, t', org, clients[c]);
    }
  }

  lemma EditKeepsSchedules(s: State, org: int, product: int, edit: Catalog.Edit)
    requires Inv(s)
    ensures Inv(s.(tables := Catalog.Apply(s.tables, org, product, edit)))
  {
    var t' := Catalog.Apply(s.tables, org, product, edit);
    CatalogKeepsInv(s.tables, org, product, edit);
    CatalogSteps(s.tables, org, product, edit);
    StepByTable(s.tables, t', org);
    TablesMove(s, t', s.clients, org);
  }

  lemma ThresholdKeepsSchedules(s: State, org: int, product: int, threshold: Threshold)
    requires Inv(s)
    ensures Inv(s.(tables := ApplyThreshold(s.tables, org, product, threshold)))
  {
    var t' := ApplyThreshold(s.tables, org, product, threshold);
    ThresholdKeepsInv(s.tables, org, product, threshold);
    ThresholdSteps(s.tables, org, product, threshold);
    StepByTable(s.tables, t', org);
    TablesMove(s, t', s.clients, org);
  }

  lemma CommitKeepsSchedules(s: State, c: int)
    requires Inv(s) && c in s.clients && CanCommit(s.tables, s.clients[c])
    ensures Inv(State(Committed(s.tables, s.clients[c]), s.clients - {c}))
  {
    CommitKeeps(s.tables, s.clients[c]);
    TablesMove(s, Committed(s.tables, s.clients[c]), s.clients - {c}, OrgOf(s.clients[c]));
  }

  lemma ActionKeepsInv(s: State, a: Action)
    requires Inv(s) && Enabled(s, a)
    ensures Inv(Execute(s, a))
  {
    match a
    case DrawNumber(_, _) =>
    case Commit(c) => CommitKeepsSchedules(s, c);
    case Rollback(_) =>
    case EditProduct(org, product, edit) => EditKeepsSchedules(s, org, product, edit);
    case SetThreshold(org, product, threshold) => ThresholdKeepsSchedules(s, org, product, threshold);
    case _ => StartedIsValid(s.tables, a);
  }

  /**
    The whole ledger invariant, in every state of every schedule that starts from an opening ledger: totals equal
    their rows, payments settle them, refunds are at the unit price of the sale, orders cost exactly what they say,
    and tenants stay apart, although prices are read without a lock and may change before the rows are stored.
   */
  lemma {:induction false} SchedulesKeepTheLedger(states: seq<State>, schedule: seq<Action>, i: nat)
    requires Runs(states, schedule) && i <= |schedule|
    requires Opening(states[0].tables) && states[0].clients == map[]
    ensures Inv(states[i])
  {
    if i > 0 {
      SchedulesKeepTheLedger(states, schedule, i - 1);
      assert LeadsOn(states, schedule, i - 1);
      ActionKeepsInv(states[i - 1], schedule[i - 1]);
    }
  }

  /** So the refund law holds under concurrency too: goods that all came back were refunded exactly what they cost. */
  lemma SchedulesRefundExactly(states: seq<State>, schedule: seq<Action>, i: nat, sale: int)
    requires Runs(states, schedule) && i <= |schedule|
    requires Opening(states[0].tables) && states[0].clients == map[]
    requires HasSale(states[i].tables, sale)
    requires forall p ::
      RoundTrip.ReturnedFromSale(states[i].tables, sale, p) == RoundTrip.SoldInSale(states[i].tables, sale, p)
    ensures RoundTrip.RefundedForSale(states[i].tables, sale) == states[i].tables.sales[sale].total
  {
    SchedulesKeepTheLedger(states, schedule, i);
    RoundTrip.FullyReturnedIsFullyRefunded(states[i].tables, sale);
  }
}
