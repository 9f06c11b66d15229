/** The checkout service: one transaction that moves branch stock and records a sale. */
module Checkout {
  import opened Machine
  import opened Outcomes
  import opened Sums
  import opened Schema
  import opened Stock
  import opened Receipts
  import opened Database

  const MAX_ITEMS := 100

  datatype Tender = Tender(kind: string, amount: Int64)

  datatype Request = Request(items: seq<Line>, customer: Option<int>, org: int, branch: int, payments: seq<Tender>)

  /** The day the database stamps on rows and the day the service prints on receipts. */
  datatype Clock = Clock(database: Day, service: Day)

  datatype Error =
    | Empty
    | TooMany
    | InvalidQuantity(product: int)
    | CustomerNotFound
    | ProductNotFound(product: int)
    | NoStockInBranch(product: int)
    | InsufficientStock(product: int, available: int, requested: int)
    | AmountOverflow
    | InvalidPaymentAmount(amount: int)
    | InvalidPaymentType(kind: string)
    | PaymentMismatch(got: int, expected: int)
    | UnknownBranch
    | ReceiptNumberTaken

  // ---------- specification ----------

  function QuantityFault(): Line -> Option<Error> {
    (l: Line) => if l.quantity <= 0 then Some(InvalidQuantity(l.product)) else None
  }

  function ProductFault(t: Tables, org: int): Line -> Option<Error> {
    (l: Line) => if OwnsProduct(t, org, l.product) then None else Some(ProductNotFound(l.product))
  }

  function StockFault(s: Stocks, branch: int): Line -> Option<Error> {
    (l: Line) =>
      var k := Key(branch, l.product);
      if k !in s then Some(NoStockInBranch(l.product))
      else if s[k] < l.quantity then Some(InsufficientStock(l.product, s[k], l.quantity))
      else None
  }

  /** The request names a customer only when the id is positive. */
  function NamedCustomer(customer: Option<int>): Option<int> {
    if customer.Some? && customer.value > 0 then customer else None
  }

  predicate CustomerKnown(t: Tables, org: int, customer: Option<int>) {
    var c := NamedCustomer(customer);
    c.Some? ==> c.value in t.customers && t.customers[c.value] == org
  }

  /** What a line costs, in exact arithmetic. */
  function LineValue(prices: map<int, Amount>): Line -> int {
    (l: Line) => if l.product in prices then prices[l.product] * l.quantity else 0
  }

  function CartTotal(t: Tables, req: Request): int {
    Sum(req.items, LineValue(Prices(t, req.org, ProductIds(req.items))))
  }

  const Tendered: Tender -> int := (p: Tender) => p.amount

  function TenderFault(types: map<string, int>, before: int, p: Tender): Option<Error> {
    if p.amount <= 0 then Some(InvalidPaymentAmount(p.amount))
    else if p.kind !in types then Some(InvalidPaymentType(p.kind))
    else if before + p.amount > MAX_INT32 then Some(AmountOverflow)
    else None
  }

  function TendersFault(types: map<string, int>, payments: seq<Tender>): Option<Error> {
    if payments == [] then None
    else
      var n := |payments| - 1;
      OrElse(TendersFault(types, payments[..n]), TenderFault(types, Sum(payments[..n], Tendered), payments[n]))
  }

  function PaymentFault(types: map<string, int>, payments: seq<Tender>, total: int): Option<Error> {
    if payments == [] then None
    else OrElse(TendersFault(types, payments),
                if Sum(payments, Tendered) == total then None
                else Some(PaymentMismatch(Sum(payments, Tendered), total)))
  }

  function OrElse(a: Option<Error>, b: Option<Error>): Option<Error> {
    if a.Some? then a else b
  }

  function ShapeFault(req: Request): Option<Error> {
    if req.items == [] then Some(Empty)
    else if |req.items| > MAX_ITEMS then Some(TooMany)
    else FirstFault(req.items, QuantityFault())
  }

  function NextNumber(t: Tables, clock: Clock): string {
    ReceiptNumber(clock.service, CountOn(t.receipts, clock.database) + 1)
  }

  function ReserveFault(t: Tables, types: map<string, int>, req: Request): Option<Error> {
    OrElse(FirstFault(req.items, ProductFault(t, req.org)),
    OrElse(FirstFault(req.items, StockFault(t.stocks, req.branch)),
    OrElse(if CartTotal(t, req) <= MAX_INT32 then None else Some(AmountOverflow),
           PaymentFault(types, req.payments, CartTotal(t, req)))))
  }

  /** Which error a checkout returns, if any: the first check that fails, in the order the service makes them. */
  function Verdict(t: Tables, req: Request, clock: Clock): Option<Error> {
    OrElse(ShapeFault(req),
    OrElse(if CustomerKnown(t, req.org, req.customer) then None else Some(CustomerNotFound),
    OrElse(ReserveFault(t, t.paymentTypes, req),
    OrElse(if HasBranch(t, req.branch) then None else Some(UnknownBranch),
           if NumberTaken(t.receipts, NextNumber(t, clock)) then Some(ReceiptNumberTaken) else None))))
  }

  predicate Settles(types: map<string, int>, payments: seq<Tender>, total: int) {
    && (forall p <- payments :: p.amount > 0 && p.kind in types)
    && Sum(payments, Tendered) == total
  }

  /** Everything a checkout needs but a free receipt number. */
  ghost predicate Sellable(t: Tables, req: Request) {
    && 1 <= |req.items| <= MAX_ITEMS
    && Positive(req.items)
    && CustomerKnown(t, req.org, req.customer)
    && Reservable(t, t.paymentTypes, req)
    && HasBranch(t, req.branch)
  }

  /** When a checkout commits, with no reference to the order of its checks. */
  ghost predicate Commits(t: Tables, req: Request, clock: Clock) {
    Sellable(t, req) && !NumberTaken(t.receipts, NextNumber(t, clock))
  }

  lemma {:induction false} TendersFaultFree(types: map<string, int>, payments: seq<Tender>)
    ensures TendersFault(types, payments) == None
       <==> (forall p <- payments :: p.amount > 0 && p.kind in types) && Sum(payments, Tendered) <= MAX_INT32
  {
    if payments != [] {
      var n := |payments| - 1;
      TendersFaultFree(types, payments[..n]);
      assert payments == payments[..n] + [payments[n]];
      if forall p <- payments[..n] :: p.amount > 0 {
        SumNonNegative(payments[..n], Tendered);
      }
    }
  }

  lemma ShapeIff(req: Request)
    ensures ShapeFault(req) == None <==> 1 <= |req.items| <= MAX_ITEMS && Positive(req.items)
  {
    NoFirstFault(req.items, QuantityFault());
    assert (forall l <- req.items :: QuantityFault()(l) == None) <==> Positive(req.items);
  }

  ghost predicate Reservable(t: Tables, types: map<string, int>, req: Request) {
    && (forall l <- req.items :: OwnsProduct(t, req.org, l.product))
    && EachLineAvailable(t.stocks, req.branch, req.items)
    && CartTotal(t, req) <= MAX_INT32
    && (req.payments == [] || Settles(types, req.payments, CartTotal(t, req)))
  }

  lemma ProductsIff(t: Tables, org: int, items: seq<Line>)
    ensures FirstFault(items, ProductFault(t, org)) == None <==> forall l <- items :: OwnsProduct(t, org, l.product)
  {
    NoFirstFault(items, ProductFault(t, org));
    assert forall l <- items :: ProductFault(t, org)(l) == None <==> OwnsProduct(t, org, l.product);
  }

  lemma StocksIff(s: Stocks, branch: int, items: seq<Line>)
    ensures FirstFault(items, StockFault(s, branch)) == None <==> EachLineAvailable(s, branch, items)
  {
    NoFirstFault(items, StockFault(s, branch));
    assert (forall l <- items :: StockFault(s, branch)(l) == None) <==> EachLineAvailable(s, branch, items);
  }

  lemma ReserveIff(t: Tables, types: map<string, int>, req: Request)
    ensures ReserveFault(t, types, req) == None <==> Reservable(t, types, req)
  {
    ProductsIff(t, req.org, req.items);
    StocksIff(t.stocks, req.branch, req.items);
    TendersFaultFree(types, req.payments);
  }

  /** The chain of checks lets a checkout through exactly when `Commits` holds. */
  lemma NoFaultIffCommits(t: Tables, req: Request, clock: Clock)
    ensures Verdict(t, req, clock) == None <==> Commits(t, req, clock)
  {
    ShapeIff(req);
    ReserveIff(t, t.paymentTypes, req);
  }

  lemma {:induction false} TenderErrors(types: map<string, int>, payments: seq<Tender>)
    ensures var fault := TendersFault(types, payments);
      fault.Some? ==>
        fault.value.InvalidPaymentAmount? || fault.value.InvalidPaymentType? || fault.value.AmountOverflow?
  {
    if payments != [] {
      TenderErrors(types, payments[..|payments| - 1]);
    }
  }

  /**
    A payment mismatch is reported exactly when everything up to the payments is in order, every payment is valid
    on its own, and their sum is not the cart's total: the case in which all stock updates have run.
   */
  lemma MismatchIff(t: Tables, req: Request, clock: Clock, got: int, expected: int)
    ensures Verdict(t, req, clock) == Some(PaymentMismatch(got, expected)) <==>
      && 1 <= |req.items| <= MAX_ITEMS && Positive(req.items) && CustomerKnown(t, req.org, req.customer)
      && Reservable(t, t.paymentTypes, req.(payments := []))
      && req.payments != [] && (forall p <- req.payments :: p.amount > 0 && p.kind in t.paymentTypes)
      && got == Sum(req.payments, Tendered) <= MAX_INT32
      && expected == CartTotal(t, req) != got
  {
    ShapeIff(req);
    ReserveIff(t, t.paymentTypes, req.(payments := []));
    FaultOfElement(req.items, QuantityFault());
    FaultOfElement(req.items, ProductFault(t, req.org));
    FaultOfElement(req.items, StockFault(t.stocks, req.branch));
    TendersFaultFree(t.paymentTypes, req.payments);
    TenderErrors(t.paymentTypes, req.payments);
  }

  function Known(prices: map<int, Amount>): Line -> bool {
    (l: Line) => l.product in prices
  }

  /** A checkout is refused for its receipt number exactly when nothing else is wrong and the number is taken. */
  lemma NumberRefusedIff(t: Tables, req: Request, clock: Clock)
    ensures Verdict(t, req, clock) == Some(ReceiptNumberTaken)
       <==> Sellable(t, req) && NumberTaken(t.receipts, NextNumber(t, clock))
  {
    ShapeIff(req);
    ReserveIff(t, t.paymentTypes, req);
    FaultOfElement(req.items, QuantityFault());
    FaultOfElement(req.items, ProductFault(t, req.org));
    FaultOfElement(req.items, StockFault(t.stocks, req.branch));
    TenderErrors(t.paymentTypes, req.payments);
  }

  /** A branch with a stock row exists, so the sale's insert never fails on its branch. */
  lemma BranchIsKnown(t: Tables, req: Request, clock: Clock)
    requires References(t)
    ensures Verdict(t, req, clock) != Some(UnknownBranch)
  {
    ShapeIff(req);
    ReserveIff(t, t.paymentTypes, req);
    FaultOfElement(req.items, QuantityFault());
    FaultOfElement(req.items, ProductFault(t, req.org));
    FaultOfElement(req.items, StockFault(t.stocks, req.branch));
    TenderErrors(t.paymentTypes, req.payments);
    if Reservable(t, t.paymentTypes, req) && req.items != [] {
      assert Key(req.branch, req.items[0].product) in t.stocks;
    }
  }

  function Offered(prices: map<int, Amount>, lines: seq<Line>): seq<Offer> {
    seq(|lines|, i requires 0 <= i < |lines| => OfferOf(prices, lines[i]))
  }

  function OfferOf(prices: map<int, Amount>, l: Line): Offer {
    Offer(l.product, l.quantity, 0, Wrap64(LineValue(prices)(l)))
  }

  function PaymentRows(types: map<string, int>, sale: int, payments: seq<Tender>): seq<Payment>
    requires forall p <- payments :: 1 <= p.amount <= MAX_INT32 && p.kind in types
  {
    seq(|payments|, i requires 0 <= i < |payments| => Payment(sale, types[payments[i].kind], payments[i].amount))
  }

  /** Quantities of one up to what a column holds, as the availability check leaves them. */
  predicate InColumns(lines: seq<Line>) {
    forall l <- lines :: 1 <= l.quantity <= MAX_INT32
  }

  /** At these prices the total fits its column, and the payments, if any, settle it. */
  predicate Payable(types: map<string, int>, prices: map<int, Amount>, req: Request) {
    && Sum(req.items, LineValue(prices)) <= MAX_INT32
    && (req.payments == [] || Settles(types, req.payments, Sum(req.items, LineValue(prices))))
  }

  /** The tables once a checkout is recorded at the prices it has read and under the number it has drawn. */
  function Recorded(t: Tables, req: Request, prices: map<int, Amount>, number: string, day: Day): Tables
    requires InColumns(req.items) && Payable(t.paymentTypes, prices, req)
  {
    var id, total := |t.sales|, Sum(req.items, LineValue(prices));
    RowsFit(t.paymentTypes, prices, req);
    t.(stocks := DeductAll(t.stocks, req.branch, req.items),
       sales := t.sales + [Sale(req.org, req.branch, total, NamedCustomer(req.customer), day)],
       details := t.details + DetailRows(id, Offered(prices, req.items)),
       payments := t.payments + PaymentRows(t.paymentTypes, id, req.payments),
       receipts := t.receipts + [Receipt(id, number, day)])
  }

  /** The tables after a committed checkout. */
  function Effect(t: Tables, req: Request, clock: Clock): Tables
    requires Commits(t, req, clock) && StocksInRange(t.stocks)
  {
    AvailableInColumns(t.stocks, req.branch, req.items);
    Recorded(t, req, Prices(t, req.org, ProductIds(req.items)), NextNumber(t, clock), clock.database)
  }

  lemma AvailableInColumns(s: Stocks, branch: int, lines: seq<Line>)
    requires StocksInRange(s) && Positive(lines) && EachLineAvailable(s, branch, lines)
    ensures InColumns(lines)
  {
  }

  lemma LineFits(prices: map<int, Amount>, l: Line)
    requires 1 <= l.quantity <= MAX_INT32
    ensures 0 <= LineValue(prices)(l) <= MAX_INT32 * MAX_INT32 && Wrap64(LineValue(prices)(l)) == LineValue(prices)(l)
  {
    if l.product in prices {
      ProductOfColumnsFits(prices[l.product], l.quantity);
    }
  }

  /** The columns accept every row of a checkout that passed its checks, at whatever prices it read. */
  lemma RowsFit(types: map<string, int>, prices: map<int, Amount>, req: Request)
    requires InColumns(req.items) && Payable(types, prices, req)
    ensures 0 <= Sum(req.items, LineValue(prices))
    ensures forall o <- Offered(prices, req.items) :: FitsColumns(o)
    ensures forall p <- req.payments :: 1 <= p.amount <= MAX_INT32 && p.kind in types
  {
    forall l <- req.items ensures 0 <= LineValue(prices)(l) {
      LineFits(prices, l);
    }
    SumNonNegative(req.items, LineValue(prices));
    forall i | 0 <= i < |req.items| ensures FitsColumns(Offered(prices, req.items)[i]) {
      LineFits(prices, req.items[i]);
    }
    if req.payments != [] {
      assert forall p <- req.payments :: Tendered(p) == p.amount;
      SumNonNegative(req.payments, Tendered);
    }
  }

  function Outcome(t: Tables, req: Request, clock: Clock): Result<int, Error> {
    match Verdict(t, req, clock)
    case Some(e) => Failure(e)
    case None => Success(|t.sales|)
  }

  /** The tables after a call: changed by `Effect` or, on any error, exactly the tables before it. */
  function Apply(t: Tables, req: Request, clock: Clock): (t': Tables)
    requires StocksInRange(t.stocks)
    ensures t' == t.(stocks := t'.stocks, sales := t'.sales, details := t'.details, payments := t'.payments,
                     receipts := t'.receipts)
  {
    if Verdict(t, req, clock) == None then
      NoFaultIffCommits(t, req, clock);
      Effect(t, req, clock)
    else t
  }

  // ---------- the service ----------

  method CheckShape(req: Request) returns (fault: Option<Error>)
    ensures fault == ShapeFault(req)
  {
    if |req.items| == 0 {
      return Some(Empty);
    }
    if |req.items| > MAX_ITEMS {
      return Some(TooMany);
    }
    for i := 0 to |req.items|
      invariant forall j | 0 <= j < i :: QuantityFault()(req.items[j]) == None
    {
      if req.items[i].quantity <= 0 {
        FirstFaultAt(req.items, QuantityFault(), i);
        return Some(InvalidQuantity(req.items[i].product));
      }
    }
    NoFirstFault(req.items, QuantityFault());
    return None;
  }

  method CheckProducts(ghost t: Tables, org: int, items: seq<Line>, productMap: map<int, Amount>)
    returns (fault: Option<Error>)
    requires productMap == Prices(t, org, ProductIds(items))
    ensures fault == FirstFault(items, ProductFault(t, org))
  {
    PricesAre(t, org, ProductIds(items));
    for i := 0 to |items|
      invariant forall j | 0 <= j < i :: ProductFault(t, org)(items[j]) == None
    {
      assert ProductIds(items)[i] == items[i].product;
      if items[i].product !in productMap {
        FirstFaultAt(items, ProductFault(t, org), i);
        return Some(ProductNotFound(items[i].product));
      }
    }
    NoFirstFault(items, ProductFault(t, org));
    return None;
  }

  method CheckStocks(ghost s: Stocks, branch: int, items: seq<Line>, bsMap: map<int, Amount>)
    returns (fault: Option<Error>)
    requires StocksInRange(s) && bsMap == BranchStocks(s, branch, ProductIds(items))
    ensures fault == FirstFault(items, StockFault(s, branch))
  {
    BranchStocksAre(s, branch, ProductIds(items));
    for i := 0 to |items|
      invariant forall j | 0 <= j < i :: StockFault(s, branch)(items[j]) == None
    {
      assert ProductIds(items)[i] == items[i].product;
      if items[i].product !in bsMap {
        FirstFaultAt(items, StockFault(s, branch), i);
        return Some(NoStockInBranch(items[i].product));
      }
      var available := bsMap[items[i].product];
      if available < items[i].quantity {
        FirstFaultAt(items, StockFault(s, branch), i);
        return Some(InsufficientStock(items[i].product, available, items[i].quantity));
      }
    }
    NoFirstFault(items, StockFault(s, branch));
    return None;
  }

  /** The totalling loop: 64-bit arithmetic, a guard against the 32-bit column, one guarded UPDATE per line. */
  method TakeStock(db: Db, org: int, branch: int, items: seq<Line>, productMap: map<int, Amount>)
    returns (overflow: bool, totalAmount: Int64)
    requires db.Valid() && db.open && Positive(items)
    requires EachLineAvailable(db.working.stocks, branch, items)
    requires productMap == Prices(db.working, org, ProductIds(items))
    requires forall l <- items :: l.product in productMap
    modifies db`working
    ensures db.Valid()
    ensures overflow <==> Sum(items, LineValue(productMap)) > MAX_INT32
    ensures !overflow ==> totalAmount == Sum(items, LineValue(productMap))
    ensures !overflow ==> db.working == old(db.working).(stocks := DeductAll(old(db.working.stocks), branch, items))
  {
    AvailableInColumns(db.working.stocks, branch, items);
    ghost var before := db.working;
    overflow, totalAmount := false, 0;
    for i := 0 to |items|
      invariant db.Valid() && db.open
      invariant !overflow && totalAmount == Sum(items[..i], LineValue(productMap)) && 0 <= totalAmount <= MAX_INT32
      invariant db.working == before.(stocks := DeductAll(before.stocks, branch, items[..i]))
    {
      var item := items[i];
      CartStep(before.stocks, branch, items, productMap, i);
      var subtotal := Wrap64(productMap[item.product] * item.quantity);
      if totalAmount > Wrap64(MAX_INT32 - subtotal) {
        overflow := true;
        return;
      }
      totalAmount := Wrap64(totalAmount + subtotal);
      db.UpdateBranchStock(branch, item.product, item.quantity);
    }
    assert items[..|items|] == items;
  }

  /** One more line of a cart: its value does not wrap, and total and stock move by it. */
  lemma CartStep(s: Stocks, branch: int, items: seq<Line>, prices: map<int, Amount>, i: nat)
    requires InColumns(items) && i < |items|
    ensures var value, l := LineValue(prices), items[i];
      && 1 <= l.quantity <= MAX_INT32
      && 0 <= value(l) <= MAX_INT32 * MAX_INT32 && Wrap64(value(l)) == value(l)
      && Sum(items[..i + 1], value) == Sum(items[..i], value) + value(l) <= Sum(items, value)
    ensures DeductAll(s, branch, items[..i + 1])
         == Deduct(DeductAll(s, branch, items[..i]), Key(branch, items[i].product), items[i].quantity)
  {
    var value := LineValue(prices);
    forall l <- items ensures 0 <= value(l) <= MAX_INT32 * MAX_INT32 && Wrap64(value(l)) == value(l) {
      LineFits(prices, l);
    }
    assert items[i] in items && items[..i + 1][..i] == items[..i];
    PrefixAtMost(items, value, i + 1);
  }

  method CheckPayments(types: map<string, int>, payments: seq<Tender>, totalAmount: int) returns (fault: Option<Error>)
    ensures fault == PaymentFault(types, payments, totalAmount)
  {
    if |payments| > 0 {
      var paymentTotal: Int64 := 0;
      for i := 0 to |payments|
        invariant TendersFault(types, payments[..i]) == None
        invariant paymentTotal == Sum(payments[..i], Tendered) && 0 <= paymentTotal <= MAX_INT32
      {
        var p := payments[i];
        assert payments[..i + 1][..i] == payments[..i];
        SumStep(payments, Tendered, i);
        var bad := None;
        if p.amount <= 0 {
          bad := Some(InvalidPaymentAmount(p.amount));
        } else if p.kind !in types {
          bad := Some(InvalidPaymentType(p.kind));
        } else if paymentTotal > Wrap64(MAX_INT32 - p.amount) {
          bad := Some(AmountOverflow);
        }
        if bad.Some? {
          FirstBadTender(types, payments, i);
          return bad;
        }
        paymentTotal := Wrap64(paymentTotal + p.amount);
      }
      assert payments[..|payments|] == payments;
      if paymentTotal != totalAmount {
        return Some(PaymentMismatch(paymentTotal, totalAmount));
      }
    }
    return None;
  }

  lemma {:induction false} FirstBadTender(types: map<string, int>, payments: seq<Tender>, i: nat)
    requires i < |payments|
    requires TendersFault(types, payments[..i]) == None
    requires TenderFault(types, Sum(payments[..i], Tendered), payments[i]).Some?
    ensures TendersFault(types, payments) == TenderFault(types, Sum(payments[..i], Tendered), payments[i])
  {
    var n := |payments| - 1;
    if i < n {
      assert payments[..n][..i] == payments[..i];
      FirstBadTender(types, payments[..n], i);
    }
  }

  /** Builds the detail rows, skipping a line whose product is not in the map. */
  method BuildDetails(items: seq<Line>, productMap: map<int, Amount>) returns (rows: seq<Offer>)
    ensures rows == Offered(productMap, Where(items, Known(productMap)))
  {
    rows := [];
    for i := 0 to |items|
      invariant rows == Offered(productMap, Where(items[..i], Known(productMap)))
    {
      var item := items[i];
      assert items[..i + 1][..i] == items[..i];
      if item.product in productMap {
        var subtotal := Wrap64(productMap[item.product] * item.quantity);
        rows := rows + [Offer(item.product, item.quantity, 0, subtotal)];
      }
    }
    assert items[..|items|] == items;
  }

  method RecordPayments(db: Db, sale: int, payments: seq<Tender>)
    requires db.Valid() && db.open
    requires HasSale(db.working, sale) && db.working.paymentTypes == db.committed.paymentTypes
    requires forall p <- payments :: 1 <= p.amount <= MAX_INT32 && p.kind in db.committed.paymentTypes
    modifies db`working
    ensures db.Valid()
    ensures db.working == old(db.working).(payments :=
      old(db.working).payments + PaymentRows(db.committed.paymentTypes, sale, payments))
  {
    ghost var before := db.working;
    ghost var rows := PaymentRows(db.committed.paymentTypes, sale, payments);
    for i := 0 to |payments|
      invariant db.Valid() && db.open
      invariant db.working == before.(payments := before.payments + rows[..i])
    {
      var ok := db.InsertPayment(sale, db.committed.paymentTypes[payments[i].kind], payments[i].amount);
      assert before.payments + rows[..i + 1] == before.payments + rows[..i] + [rows[i]];
    }
    assert rows[..|payments|] == rows;
  }

  /** Everything the transaction checks before it records the sale, with the stock updates already issued. */
  method Reserve(db: Db, req: Request) returns (fault: Option<Error>, totalAmount: Int64, productMap: map<int, Amount>)
    requires db.Valid() && db.open && Positive(req.items)
    modifies db`working
    ensures db.Valid()
    ensures fault == ReserveFault(old(db.working), db.committed.paymentTypes, req)
    ensures fault == None ==>
      && totalAmount == CartTotal(old(db.working), req)
      && productMap == Prices(old(db.working), req.org, ProductIds(req.items))
      && (forall l <- req.items :: l.product in productMap)
      && db.working == old(db.working).(stocks := DeductAll(old(db.working.stocks), req.branch, req.items))
  {
    ghost var t := db.working;
    var ids := ProductIds(req.items);
    totalAmount := 0;
    var products := db.LockProductsForOrg(req.org, ids);
    productMap := IndexById(products);
    LastByIdOf(products, Prices(t, req.org, ids));
    fault := CheckProducts(t, req.org, req.items, productMap);
    if fault.Some? {
      return;
    }
    ProductsKnown(t, req.org, req.items);
    var branchStocks := db.LockBranchStocks(req.branch, ids);
    var bsMap := IndexById(branchStocks);
    LastByIdOf(branchStocks, BranchStocks(t.stocks, req.branch, ids));
    fault := CheckStocks(t.stocks, req.branch, req.items, bsMap);
    if fault.Some? {
      return;
    }
    StocksIff(t.stocks, req.branch, req.items);
    var overflow;
    overflow, totalAmount := TakeStock(db, req.org, req.branch, req.items, productMap);
    if overflow {
      fault := Some(AmountOverflow);
      return;
    }
    fault := CheckPayments(db.committed.paymentTypes, req.payments, totalAmount);
  }

  /** Inserts the sale row with its details and payments. */
  method RecordSale(db: Db, ghost t: Tables, req: Request, clock: Clock, totalAmount: Int64,
                    productMap: map<int, Amount>)
    returns (ok: bool, id: int)
    requires db.Valid() && db.open && db.working == t.(stocks := db.working.stocks)
    requires db.committed.paymentTypes == t.paymentTypes
    requires req.org in t.organizations && CustomerKnown(t, req.org, req.customer)
    requires totalAmount == CartTotal(t, req) && productMap == Prices(t, req.org, ProductIds(req.items))
    requires forall l <- req.items :: l.product in productMap
    requires 0 <= totalAmount <= MAX_INT32
    requires forall o <- Offered(productMap, req.items) :: FitsColumns(o)
    requires forall p <- req.payments :: 1 <= p.amount <= MAX_INT32 && p.kind in t.paymentTypes
    modifies db`working
    ensures db.Valid()
    ensures ok == HasBranch(t, req.branch) && id == |t.sales|
    ensures ok ==> db.working == old(db.working).(
      sales := t.sales + [Sale(req.org, req.branch, CartTotal(t, req), NamedCustomer(req.customer), clock.database)],
      details := t.details + DetailRows(id, Offered(productMap, req.items)),
      payments := t.payments + PaymentRows(t.paymentTypes, id, req.payments))
  {
    ok, id := db.InsertSale(req.org, req.branch, totalAmount, NamedCustomer(req.customer), clock.database);
    if ok {
      PricesAre(t, req.org, ProductIds(req.items));
      RecordRows(db, req, id, productMap);
    }
  }

  /** Inserts the details and the payments of a sale. */
  method RecordRows(db: Db, req: Request, id: int, productMap: map<int, Amount>)
    requires db.Valid() && db.open && HasSale(db.working, id) && db.working.paymentTypes == db.committed.paymentTypes
    requires forall l <- req.items :: l.product in productMap && l.product in db.working.products
    requires forall o <- Offered(productMap, req.items) :: FitsColumns(o)
    requires forall p <- req.payments :: 1 <= p.amount <= MAX_INT32 && p.kind in db.working.paymentTypes
    modifies db`working
    ensures db.Valid()
    ensures db.working == old(db.working).(
      details := old(db.working).details + DetailRows(id, Offered(productMap, req.items)),
      payments := old(db.working).payments + PaymentRows(old(db.working).paymentTypes, id, req.payments))
  {
    var rows := BuildDetails(req.items, productMap);
    WhereAll(req.items, Known(productMap));
    var inserted := db.InsertDetails(id, rows);
    RecordPayments(db, id, req.payments);
  }

  /** Records the sale and its receipt, and commits; the stock rows have been updated already. */
  method Record(db: Db, ghost t: Tables, req: Request, clock: Clock, totalAmount: Int64, productMap: map<int, Amount>)
    returns (r: Result<int, Error>)
    requires db.Valid() && db.open && db.committed == t && CheckedSoFar(t, req)
    requires totalAmount == CartTotal(t, req) && productMap == Prices(t, req.org, ProductIds(req.items))
    requires forall l <- req.items :: l.product in productMap
    requires db.working == t.(stocks := DeductAll(t.stocks, req.branch, req.items))
    modifies db
    ensures db.Valid()
    ensures r == Outcome(t, req, clock) && db.committed == Apply(t, req, clock)
  {
    ReadyToRecord(t, req);
    LateVerdict(t, req, clock);
    var ok, id := RecordSale(db, t, req, clock, totalAmount, productMap);
    if !ok {
      return Failure(UnknownBranch);
    }
    r := IssueReceipt(db, t, req, clock, id);
  }

  /** Draws the receipt number, inserts the receipt and commits. */
  method IssueReceipt(db: Db, ghost t: Tables, req: Request, clock: Clock, id: int) returns (r: Result<int, Error>)
    requires db.Valid() && db.open && db.committed == t && CheckedSoFar(t, req)
    requires HasBranch(t, req.branch) && id == |t.sales|
    requires var prices := Prices(t, req.org, ProductIds(req.items));
      && InColumns(req.items) && Payable(t.paymentTypes, prices, req)
      && db.working == Recorded(t, req, prices, NextNumber(t, clock), clock.database).(receipts := t.receipts)
    modifies db
    ensures db.Valid()
    ensures r == Outcome(t, req, clock) && db.committed == Apply(t, req, clock)
  {
    LateVerdict(t, req, clock);
    var number := ReceiptNumber(clock.service, CountOn(db.working.receipts, clock.database) + 1);
    var ok := db.InsertReceipt(id, number, clock.database);
    if !ok {
      return Failure(ReceiptNumberTaken);
    }
    db.Commit();
    return Success(id);
  }

  /** After the reservation every column and foreign key but the branch's is known to accept the sale's rows. */
  lemma ReadyToRecord(t: Tables, req: Request)
    requires StocksInRange(t.stocks) && References(t) && CheckedSoFar(t, req)
    ensures InColumns(req.items) && Payable(t.paymentTypes, Prices(t, req.org, ProductIds(req.items)), req)
    ensures req.org in t.organizations && 0 <= CartTotal(t, req) <= MAX_INT32
    ensures forall o <- Offered(Prices(t, req.org, ProductIds(req.items)), req.items) :: FitsColumns(o)
    ensures forall p <- req.payments :: 1 <= p.amount <= MAX_INT32 && p.kind in t.paymentTypes
  {
    ShapeIff(req);
    ReserveIff(t, t.paymentTypes, req);
    AvailableInColumns(t.stocks, req.branch, req.items);
    RowsFit(t.paymentTypes, Prices(t, req.org, ProductIds(req.items)), req);
    assert OwnsProduct(t, req.org, req.items[0].product);
  }

  predicate CheckedSoFar(t: Tables, req: Request) {
    && ShapeFault(req) == None
    && CustomerKnown(t, req.org, req.customer)
    && ReserveFault(t, t.paymentTypes, req) == None
  }

  /** After the reservation only a dangling branch or a taken receipt number can still fail the call. */
  lemma LateVerdict(t: Tables, req: Request, clock: Clock)
    requires StocksInRange(t.stocks) && CheckedSoFar(t, req)
    ensures !HasBranch(t, req.branch) ==> Outcome(t, req, clock) == Failure(UnknownBranch) && Apply(t, req, clock) == t
    ensures HasBranch(t, req.branch) && NumberTaken(t.receipts, NextNumber(t, clock)) ==>
      Outcome(t, req, clock) == Failure(ReceiptNumberTaken) && Apply(t, req, clock) == t
    ensures HasBranch(t, req.branch) && !NumberTaken(t.receipts, NextNumber(t, clock)) ==>
      && Outcome(t, req, clock) == Success(|t.sales|)
      && Commits(t, req, clock)
      && Apply(t, req, clock) == Effect(t, req, clock)
  {
    NoFaultIffCommits(t, req, clock);
  }

  lemma ProductsKnown(t: Tables, org: int, items: seq<Line>)
    requires FirstFault(items, ProductFault(t, org)) == None
    ensures forall l <- items :: l.product in Prices(t, org, ProductIds(items))
  {
    ProductsIff(t, org, items);
    PricesAre(t, org, ProductIds(items));
    forall i | 0 <= i < |items| ensures items[i].product in Prices(t, org, ProductIds(items)) {
      assert items[i] in items;
      assert ProductIds(items)[i] == items[i].product;
    }
  }

  /**
    A checkout returns the error of the first failing check or commits its whole effect; on every error, also a
    payment mismatch found after all stock updates have run, the committed tables are those of before the call.
   */
  method Checkout(db: Db, req: Request, clock: Clock) returns (r: Result<int, Error>)
    requires db.Valid() && !db.open
    modifies db
    ensures db.Valid() && !db.open
    ensures db.committed == Apply(old(db.committed), req, clock)
    ensures r == Outcome(old(db.committed), req, clock)
  {
    var fault := CheckShape(req);
    if fault.Some? {
      return Failure(fault.value);
    }
    var customer := NamedCustomer(req.customer);
    if customer.Some?
       && !(customer.value in db.committed.customers && db.committed.customers[customer.value] == req.org) {
      return Failure(CustomerNotFound);
    }
    db.Begin();
    ShapeIff(req);
    var totalAmount, productMap;
    fault, totalAmount, productMap := Reserve(db, req);
    if fault.Some? {
      r := Failure(fault.value);
    } else {
      r := Record(db, old(db.committed), req, clock, totalAmount, productMap);
    }
    db.Rollback();
  }
}
