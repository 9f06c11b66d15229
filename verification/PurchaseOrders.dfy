/** The purchase order service: creating an order with normalised prices, and receiving it into a branch. */
module PurchaseOrders {
  import opened Machine
  import opened Outcomes
  import opened Sums
  import opened Schema
  import opened Stock
  import opened Database

  datatype OrderLine = OrderLine(product: int, quantity: Int64, unitPrice: Int64)

  datatype Error =
    | Empty
    | InvalidQuantity(product: int)
    | SupplierNotFound
    | ProductNotFound(product: int)
    | AmountOverflow
    | OrderRejected
    | ItemsRejected
    | OrderNotFound
    | AlreadyReceived
    | StockRejected(product: int)

  // ---------- creating an order: specification ----------

  function QuantityFault(): OrderLine -> Option<Error> {
    (l: OrderLine) => if l.quantity <= 0 then Some(InvalidQuantity(l.product)) else None
  }

  function OrderedIds(lines: seq<OrderLine>): seq<int> {
    seq(|lines|, i requires 0 <= i < |lines| => lines[i].product)
  }

  /** A missing or negative unit price becomes the product's own price. */
  function Normalize(prices: map<int, Amount>, l: OrderLine): OrderLine {
    if l.unitPrice <= 0 && l.product in prices then l.(unitPrice := prices[l.product]) else l
  }

  function NormalizeAll(prices: map<int, Amount>, lines: seq<OrderLine>): seq<OrderLine> {
    seq(|lines|, i requires 0 <= i < |lines| => Normalize(prices, lines[i]))
  }

  /** What a line costs, in exact arithmetic. */
  const LineCost: OrderLine -> int := (l: OrderLine) => l.quantity * l.unitPrice

  /** The totalling loop over normalised lines, with every product, difference and sum wrapping at 64 bits. */
  function Totalled(prices: map<int, Amount>, lines: seq<OrderLine>): Result<Int64, Error> {
    if lines == [] then Success(0)
    else
      var n := |lines| - 1;
      match Totalled(prices, lines[..n])
      case Failure(e) => Failure(e)
      case Success(total) => AddLine(prices, total, lines[n])
  }

  function AddLine(prices: map<int, Amount>, total: Int64, l: OrderLine): Result<Int64, Error> {
    var cost := Wrap64(l.quantity * l.unitPrice);
    if l.product !in prices then Failure(ProductNotFound(l.product))
    else if total > Wrap64(MAX_INT32 - cost) then Failure(AmountOverflow)
    else Success(Wrap64(total + cost))
  }

  /** The row offered for a line: a product that wrapped to a negative number falls back on the product's price. */
  function OfferOf(prices: map<int, Amount>, l: OrderLine): Offer {
    var subtotal := Wrap64(l.unitPrice * l.quantity);
    Offer(l.product, l.quantity, l.unitPrice,
          if subtotal < 0 && l.product in prices then Wrap64(prices[l.product] * l.quantity) else subtotal)
  }

  function Known(prices: map<int, Amount>): OrderLine -> bool {
    (l: OrderLine) => l.product in prices
  }

  function Offered(prices: map<int, Amount>, lines: seq<OrderLine>): seq<Offer> {
    seq(|lines|, i requires 0 <= i < |lines| => OfferOf(prices, lines[i]))
  }

  predicate SupplierOfOrg(t: Tables, org: int, supplier: int) {
    supplier in t.suppliers && t.suppliers[supplier] == org
  }

  function ShapeFault(lines: seq<OrderLine>): Option<Error> {
    if lines == [] then Some(Empty) else FirstFault(lines, QuantityFault())
  }

  function RequestedPrices(t: Tables, org: int, lines: seq<OrderLine>): map<int, Amount> {
    Prices(t, org, OrderedIds(lines))
  }

  function CreateOutcome(t: Tables, org: int, branch: int, supplier: int, lines: seq<OrderLine>): Result<int, Error> {
    var prices := RequestedPrices(t, org, lines);
    var normal := NormalizeAll(prices, lines);
    var shape := ShapeFault(lines);
    if shape.Some? then Failure(shape.value)
    else if !SupplierOfOrg(t, org, supplier) then Failure(SupplierNotFound)
    else match Totalled(prices, normal)
      case Failure(e) => Failure(e)
      case Success(total) =>
        if !(-MAX_INT32 - 1 <= total <= MAX_INT32 && HasBranch(t, branch)) then Failure(OrderRejected)
        else if exists o <- Offered(prices, normal) :: !FitsColumns(o) then Failure(ItemsRejected)
        else Success(|t.orders|)
  }

  predicate LineInColumns(l: OrderLine) {
    1 <= l.quantity <= MAX_INT32 && 0 <= l.unitPrice <= MAX_INT32
  }

  /** When an order is created, in exact arithmetic. */
  ghost predicate Creates(t: Tables, org: int, branch: int, supplier: int, lines: seq<OrderLine>) {
    var prices := RequestedPrices(t, org, lines);
    var normal := NormalizeAll(prices, lines);
    && lines != []
    && SupplierOfOrg(t, org, supplier)
    && HasBranch(t, branch)
    && (forall l <- lines :: OwnsProduct(t, org, l.product))
    && (forall l <- normal :: LineInColumns(l))
    && Sum(normal, LineCost) <= MAX_INT32
  }

  lemma CostOfColumns(l: OrderLine)
    requires LineInColumns(l)
    ensures 0 <= LineCost(l) <= MAX_INT32 * MAX_INT32 && Wrap64(l.quantity * l.unitPrice) == LineCost(l)
    ensures l.unitPrice * l.quantity == LineCost(l)
  {
    ProductOfColumnsFits(l.quantity, l.unitPrice);
  }

  lemma CostsNonNegative(lines: seq<OrderLine>)
    requires forall l <- lines :: LineInColumns(l)
    ensures 0 <= Sum(lines, LineCost) && forall l <- lines :: 0 <= LineCost(l) <= Sum(lines, LineCost)
  {
    forall l <- lines ensures 0 <= LineCost(l) {
      CostOfColumns(l);
    }
    SumNonNegative(lines, LineCost);
  }

  /** On lines that fit their columns nothing wraps, so the guard trips exactly when the exact sum is too large. */
  lemma {:induction false} TotalledExact(prices: map<int, Amount>, lines: seq<OrderLine>)
    requires forall l <- lines :: LineInColumns(l) && l.product in prices
    ensures Totalled(prices, lines)
         == if Sum(lines, LineCost) <= MAX_INT32 then Success(Sum(lines, LineCost)) else Failure(AmountOverflow)
  {
    if lines != [] {
      var n := |lines| - 1;
      TotalledExact(prices, lines[..n]);
      CostsNonNegative(lines[..n]);
      CostOfColumns(lines[n]);
    }
  }

  lemma {:induction false} TotalledKnown(prices: map<int, Amount>, lines: seq<OrderLine>)
    requires Totalled(prices, lines).Success?
    ensures forall l <- lines :: l.product in prices
  {
    if lines != [] {
      var n := |lines| - 1;
      TotalledKnown(prices, lines[..n]);
      assert lines == lines[..n] + [lines[n]];
    }
  }

  lemma OffersFit(prices: map<int, Amount>, lines: seq<OrderLine>)
    requires forall l <- lines :: LineInColumns(l)
    requires Sum(lines, LineCost) <= MAX_INT32
    ensures forall i | 0 <= i < |lines| :: OfferOf(prices, lines[i]).subtotal == LineCost(lines[i])
    ensures forall o <- Offered(prices, lines) :: FitsColumns(o)
  {
    CostsNonNegative(lines);
    forall i | 0 <= i < |lines|
      ensures OfferOf(prices, lines[i]).subtotal == LineCost(lines[i]) && FitsColumns(Offered(prices, lines)[i]) {
      CostOfColumns(lines[i]);
    }
  }

  lemma CreatedThenCreates(t: Tables, org: int, branch: int, supplier: int, lines: seq<OrderLine>)
    requires CreateOutcome(t, org, branch, supplier, lines).Success?
    ensures Creates(t, org, branch, supplier, lines)
  {
    var prices := RequestedPrices(t, org, lines);
    var normal := NormalizeAll(prices, lines);
    KnownProducts(t, org, lines);
    TotalledKnown(prices, normal);
    forall i | 0 <= i < |lines| ensures LineInColumns(normal[i]) && OwnsProduct(t, org, lines[i].product) {
      assert FitsColumns(Offered(prices, normal)[i]);
      assert normal[i] in normal && lines[i] in lines;
    }
    TotalledExact(prices, normal);
  }

  lemma CreatesThenCreated(t: Tables, org: int, branch: int, supplier: int, lines: seq<OrderLine>)
    requires Creates(t, org, branch, supplier, lines)
    ensures CreateOutcome(t, org, branch, supplier, lines).Success?
  {
    var prices := RequestedPrices(t, org, lines);
    var normal := NormalizeAll(prices, lines);
    KnownProducts(t, org, lines);
    forall i | 0 <= i < |lines| ensures QuantityFault()(lines[i]) == None && normal[i].product in prices {
      assert normal[i] in normal && lines[i] in lines;
    }
    NoFirstFault(lines, QuantityFault());
    TotalledExact(prices, normal);
    OffersFit(prices, normal);
    CostsNonNegative(normal);
  }

  /**
    An order is created exactly when exact arithmetic says so: any quantity or price large enough to wrap is
    rejected by an item column, however the guard judged the wrapped total.
   */
  lemma CreatedIffCreates(t: Tables, org: int, branch: int, supplier: int, lines: seq<OrderLine>)
    ensures CreateOutcome(t, org, branch, supplier, lines).Success? <==> Creates(t, org, branch, supplier, lines)
  {
    if CreateOutcome(t, org, branch, supplier, lines).Success? {
      CreatedThenCreates(t, org, branch, supplier, lines);
    } else if Creates(t, org, branch, supplier, lines) {
      CreatesThenCreated(t, org, branch, supplier, lines);
    }
  }

  lemma KnownProducts(t: Tables, org: int, lines: seq<OrderLine>)
    ensures forall l <- lines :: l.product in RequestedPrices(t, org, lines) <==> OwnsProduct(t, org, l.product)
  {
    PricesAre(t, org, OrderedIds(lines));
    forall i | 0 <= i < |lines|
      ensures lines[i].product in RequestedPrices(t, org, lines) <==> OwnsProduct(t, org, lines[i].product) {
      assert OrderedIds(lines)[i] == lines[i].product;
    }
  }

  /** Lines that fit their columns and whose exact total fits its own. */
  ghost predicate Affordable(lines: seq<OrderLine>) {
    (forall l <- lines :: LineInColumns(l)) && Sum(lines, LineCost) <= MAX_INT32
  }

  /**
    The guard and the item columns together let through exactly the affordable lines, at whatever prices they were
    normalised: a product or total that wraps belongs to a line that a column rejects.
   */
  lemma AffordableIff(prices: map<int, Amount>, lines: seq<OrderLine>)
    requires forall l <- lines :: l.product in prices
    ensures Totalled(prices, lines).Success? && (forall o <- Offered(prices, lines) :: FitsColumns(o))
       <==> Affordable(lines)
  {
    if forall o <- Offered(prices, lines) :: FitsColumns(o) {
      forall i | 0 <= i < |lines| ensures LineInColumns(lines[i]) {
        assert FitsColumns(Offered(prices, lines)[i]);
      }
    }
    if forall l <- lines :: LineInColumns(l) {
      TotalledExact(prices, lines);
    }
    if Affordable(lines) {
      OffersFit(prices, lines);
    }
  }

  /** The tables once an order is recorded with its normalised lines. */
  function Ordered(t: Tables, org: int, branch: int, supplier: int, prices: map<int, Amount>,
                   normal: seq<OrderLine>): Tables
    requires Affordable(normal)
  {
    OffersFit(prices, normal);
    CostsNonNegative(normal);
    t.(orders := t.orders + [Order(org, branch, supplier, Pending, Sum(normal, LineCost))],
       orderItems := t.orderItems + OrderItemRows(|t.orders|, Offered(prices, normal)))
  }

  function CreateEffect(t: Tables, org: int, branch: int, supplier: int, lines: seq<OrderLine>): Tables
    requires Creates(t, org, branch, supplier, lines)
  {
    var prices := RequestedPrices(t, org, lines);
    Ordered(t, org, branch, supplier, prices, NormalizeAll(prices, lines))
  }

  function ApplyCreate(t: Tables, org: int, branch: int, supplier: int, lines: seq<OrderLine>): (t': Tables)
    ensures t' == t.(orders := t'.orders, orderItems := t'.orderItems)
  {
    if CreateOutcome(t, org, branch, supplier, lines).Success? then
      CreatedIffCreates(t, org, branch, supplier, lines);
      CreateEffect(t, org, branch, supplier, lines)
    else t
  }

  // ---------- creating an order: the service ----------

  method CheckShape(items: array<OrderLine>) returns (fault: Option<Error>)
    ensures fault == ShapeFault(items[..])
  {
    if items.Length == 0 {
      return Some(Empty);
    }
    for i := 0 to items.Length
      invariant forall j | 0 <= j < i :: QuantityFault()(items[j]) == None
    {
      if items[i].quantity <= 0 {
        FirstFaultAt(items[..], QuantityFault(), i);
        return Some(InvalidQuantity(items[i].product));
      }
    }
    NoFirstFault(items[..], QuantityFault());
    return None;
  }

  /** One more line extends the total, or its failure is the loop's. */
  lemma TotalledStep(prices: map<int, Amount>, lines: seq<OrderLine>, i: nat, total: Int64)
    requires i < |lines| && Totalled(prices, lines[..i]) == Success(total)
    ensures Totalled(prices, lines[..i + 1]) == AddLine(prices, total, lines[i])
    ensures AddLine(prices, total, lines[i]).Failure? ==> Totalled(prices, lines) == AddLine(prices, total, lines[i])
  {
    assert lines[..i + 1][..i] == lines[..i];
    if AddLine(prices, total, lines[i]).Failure? {
      FirstBadLine(prices, lines, i);
    }
  }

  /** Writes the normalised price of each line in place and accumulates the guarded total. */
  method NormalizeAndTotal(items: array<OrderLine>, prices: map<int, Amount>) returns (r: Result<Int64, Error>)
    modifies items
    ensures r == Totalled(prices, NormalizeAll(prices, old(items[..])))
    ensures r.Success? ==> items[..] == NormalizeAll(prices, old(items[..]))
    ensures forall i | 0 <= i < items.Length ::
      items[i] == old(items[i]) || items[i] == Normalize(prices, old(items[i]))
  {
    ghost var before := items[..];
    ghost var normal := NormalizeAll(prices, before);
    var total: Int64 := 0;
    for i := 0 to items.Length
      invariant Totalled(prices, normal[..i]) == Success(total)
      invariant forall j | 0 <= j < items.Length :: items[j] == if j < i then normal[j] else before[j]
    {
      TotalledStep(prices, normal, i, total);
      if items[i].product !in prices {
        return Failure(ProductNotFound(items[i].product));
      }
      if items[i].unitPrice <= 0 {
        items[i] := items[i].(unitPrice := prices[items[i].product]);
      }
      assert items[i] == normal[i];
      var next := Accumulate(prices, total, items[i]);
      if next.Failure? {
        return next;
      }
      total := next.value;
    }
    assert normal[..|normal|] == normal;
    return Success(total);
  }

  /**
    The overflow guard and the addition, each recomputing the wrapped product; exact for a line that fits its
    columns.
   */
  method Accumulate(prices: map<int, Amount>, total: Int64, l: OrderLine) returns (r: Result<Int64, Error>)
    requires l.product in prices
    ensures r == AddLine(prices, total, l)
    ensures LineInColumns(l) && 0 <= total <= MAX_INT32 ==>
      r == if total + LineCost(l) <= MAX_INT32 then Success(total + LineCost(l)) else Failure(AmountOverflow)
  {
    if LineInColumns(l) {
      CostOfColumns(l);
    }
    if total > Wrap64(MAX_INT32 - Wrap64(l.quantity * l.unitPrice)) {
      return Failure(AmountOverflow);
    }
    return Success(Wrap64(total + Wrap64(l.quantity * l.unitPrice)));
  }

  lemma {:induction false} FirstBadLine(prices: map<int, Amount>, lines: seq<OrderLine>, i: nat)
    requires i < |lines| && Totalled(prices, lines[..i]).Success?
    requires AddLine(prices, Totalled(prices, lines[..i]).value, lines[i]).Failure?
    ensures Totalled(prices, lines) == AddLine(prices, Totalled(prices, lines[..i]).value, lines[i])
  {
    var n := |lines| - 1;
    if i < n {
      assert lines[..n][..i] == lines[..i];
      FirstBadLine(prices, lines[..n], i);
    }
  }

  method BuildOrderItems(items: seq<OrderLine>, prices: map<int, Amount>) returns (rows: seq<Offer>)
    ensures rows == Offered(prices, Where(items, Known(prices)))
  {
    rows := [];
    for i := 0 to |items|
      invariant rows == Offered(prices, Where(items[..i], Known(prices)))
    {
      var item := items[i];
      assert items[..i + 1][..i] == items[..i];
      if item.product in prices {
        var subtotal := Wrap64(item.unitPrice * item.quantity);
        if subtotal < 0 {
          subtotal := Wrap64(prices[item.product] * item.quantity);
        }
        rows := rows + [Offer(item.product, item.quantity, item.unitPrice, subtotal)];
      }
    }
    assert items[..|items|] == items;
  }

  /**
    An order is created with its exact effect or nothing committed changes; the caller's lines are normalised in
    place.
   */
  method CreatePOForOrg(db: Db, org: int, branch: int, supplier: int, items: array<OrderLine>)
    returns (r: Result<int, Error>)
    requires db.Valid() && !db.open
    modifies db, items
    ensures db.Valid() && !db.open
    ensures r == CreateOutcome(old(db.committed), org, branch, supplier, old(items[..]))
    ensures db.committed == ApplyCreate(old(db.committed), org, branch, supplier, old(items[..]))
    ensures r.Success? ==>
      items[..] == NormalizeAll(RequestedPrices(old(db.committed), org, old(items[..])), old(items[..]))
    ensures forall i | 0 <= i < items.Length ::
      (items[i] == old(items[i])
       || items[i] == Normalize(RequestedPrices(old(db.committed), org, old(items[..])), old(items[i])))
  {
    ghost var t, lines := db.committed, items[..];
    var fault := CheckShape(items);
    if fault.Some? {
      return Failure(fault.value);
    }
    if !(supplier in db.committed.suppliers && db.committed.suppliers[supplier] == org) {
      return Failure(SupplierNotFound);
    }
    db.Begin();
    var products := db.LockProductsForOrg(org, OrderedIds(items[..]));
    var productMap := IndexById(products);
    LastByIdOf(products, RequestedPrices(t, org, lines));
    var total := NormalizeAndTotal(items, productMap);
    if total.Failure? {
      r := Failure(total.error);
    } else {
      r := PlaceOrder(db, org, branch, supplier, lines, items[..], productMap, total.value);
    }
    db.Rollback();
  }

  /** Records a totalled order and commits it. */
  method PlaceOrder(db: Db, org: int, branch: int, supplier: int, ghost lines: seq<OrderLine>, normal: seq<OrderLine>,
                    prices: map<int, Amount>, total: Int64) returns (r: Result<int, Error>)
    requires db.Valid() && db.open && db.working == db.committed && SupplierOfOrg(db.working, org, supplier)
    requires ShapeFault(lines) == None && prices == RequestedPrices(db.working, org, lines)
    requires normal == NormalizeAll(prices, lines) && Totalled(prices, normal) == Success(total)
    modifies db
    ensures db.Valid()
    ensures r == CreateOutcome(old(db.committed), org, branch, supplier, lines)
    ensures db.committed == ApplyCreate(old(db.committed), org, branch, supplier, lines)
  {
    TotalledKnown(prices, normal);
    PricesAre(db.working, org, OrderedIds(lines));
    CreatedIffCreates(db.committed, org, branch, supplier, lines);
    r := RecordOrder(db, org, branch, supplier, normal, prices, total);
    if r.Success? {
      TotalledExact(prices, normal);
      db.Commit();
    }
  }

  /** Inserts the order and its items. */
  method RecordOrder(db: Db, org: int, branch: int, supplier: int, items: seq<OrderLine>, productMap: map<int, Amount>,
                     total: Int64) returns (r: Result<int, Error>)
    requires db.Valid() && db.open && SupplierOfOrg(db.working, org, supplier)
    requires forall l <- items :: l.product in productMap && l.product in db.working.products
    modifies db`working
    ensures db.Valid()
    ensures r == if !(-MAX_INT32 - 1 <= total <= MAX_INT32 && HasBranch(old(db.working), branch))
      then Failure(OrderRejected)
                 else if exists o <- Offered(productMap, items) :: !FitsColumns(o) then Failure(ItemsRejected)
                 else Success(|old(db.working).orders|)
    ensures r.Success? ==> db.working == old(db.working).(
      orders := old(db.working).orders + [Order(org, branch, supplier, Pending, total)],
      orderItems := old(db.working).orderItems + OrderItemRows(|old(db.working).orders|, Offered(productMap, items)))
  {
    var ok, id := db.InsertOrder(org, branch, supplier, total);
    if !ok {
      return Failure(OrderRejected);
    }
    var rows := BuildOrderItems(items, productMap);
    WhereAll(items, Known(productMap));
    ok := db.InsertOrderItems(id, rows);
    if !ok {
      return Failure(ItemsRejected);
    }
    return Success(id);
  }

  // ---------- receiving an order: specification ----------

  /** The product lines of an order, in the order of its rows. */
  function OrderLines(items: seq<OrderItem>, order: int): seq<Line> {
    if items == [] then []
    else
      var n := |items| - 1;
      OrderLines(items[..n], order)
        + if items[n].order == order then [Line(items[n].product, items[n].quantity)] else []
  }

  lemma {:induction false} OrderLinesPositive(items: seq<OrderItem>, order: int)
    ensures Positive(OrderLines(items, order))
  {
    if items != [] {
      OrderLinesPositive(items[..|items| - 1], order);
    }
  }

  predicate OrderOfOrg(t: Tables, org: int, order: int) {
    0 <= order < |t.orders| && t.orders[order].org == org
  }

  function LinesFault(t: Tables, branch: int, lines: seq<Line>): Option<Error> {
    if lines == [] then None
    else
      var n := |lines| - 1;
      var first := LinesFault(t, branch, lines[..n]);
      var l, k := lines[n], Key(branch, lines[n].product);
      if first.Some? then first
      else if CanUpsert(t, k, StockAt(t.stocks, k) + Demand(lines[..n], l.product), l.quantity) then None
      else Some(StockRejected(l.product))
  }

  function ReceiveVerdict(t: Tables, org: int, branch: int, order: int): Option<Error> {
    if !OrderOfOrg(t, org, order) then Some(OrderNotFound)
    else if t.orders[order].status == Received then Some(AlreadyReceived)
    else LinesFault(t, branch, OrderLines(t.orderItems, order))
  }

  /** The tables after a receive; a second receive of the same order is one of the calls that change nothing. */
  function ApplyReceive(t: Tables, org: int, branch: int, order: int): (t': Tables)
    ensures t' == t.(stocks := t'.stocks, orders := t'.orders)
  {
    if ReceiveVerdict(t, org, branch, order) == None then
      t.(stocks := CreditAll(t.stocks, branch, OrderLines(t.orderItems, order)),
         orders := t.orders[order := t.orders[order].(status := Received)])
    else t
  }

  /** Every product's resulting stock fits its column, and the foreign keys resolve. */
  ghost predicate Fits(t: Tables, branch: int, lines: seq<Line>) {
    forall l <- lines ::
      && l.product in t.products
      && HasBranch(t, branch)
      && StockAt(t.stocks, Key(branch, l.product)) + Demand(lines, l.product) <= MAX_INT32
  }

  /** The upserts go through exactly when the per-product sums fit. */
  lemma {:induction false} NoLineFaultIffFits(t: Tables, branch: int, lines: seq<Line>)
    requires Positive(lines) && StocksInRange(t.stocks)
    ensures LinesFault(t, branch, lines) == None <==> Fits(t, branch, lines)
  {
    if lines != [] {
      var n := |lines| - 1;
      NoLineFaultIffFits(t, branch, lines[..n]);
      FitsStep(t, branch, lines, n);
    }
  }

  lemma FitsStep(t: Tables, branch: int, lines: seq<Line>, n: nat)
    requires Positive(lines) && StocksInRange(t.stocks) && n == |lines| - 1
    ensures var l, k := lines[n], Key(branch, lines[n].product);
      Fits(t, branch, lines) <==>
        Fits(t, branch, lines[..n]) && CanUpsert(t, k, StockAt(t.stocks, k) + Demand(lines[..n], l.product), l.quantity)
  {
    var before, l := lines[..n], lines[n];
    assert lines == before + [l] && lines[..n + 1] == lines;
    forall p ensures Demand(lines, p) == Demand(before, p) + if l.product == p then l.quantity else 0 {
      DemandStep(lines, p, n);
    }
    DemandNonNegative(before, l.product);
    assert l in lines;
    if Fits(t, branch, lines) {
      forall x <- before ensures StockAt(t.stocks, Key(branch, x.product)) + Demand(before, x.product) <= MAX_INT32 {
        assert x in lines;
      }
    }
  }

  // ---------- receiving an order: the service ----------

  method FindItems(items: seq<OrderItem>, order: int) returns (lines: seq<Line>)
    ensures lines == OrderLines(items, order)
  {
    lines := [];
    for i := 0 to |items|
      invariant lines == OrderLines(items[..i], order)
    {
      assert items[..i + 1][..i] == items[..i];
      if items[i].order == order {
        lines := lines + [Line(items[i].product, items[i].quantity)];
      }
    }
    assert items[..|items|] == items;
  }

  method CreditLines(db: Db, branch: int, lines: seq<Line>) returns (fault: Option<Error>)
    requires db.Valid() && db.open
    modifies db`working
    ensures db.Valid()
    ensures fault == LinesFault(old(db.working), branch, lines)
    ensures fault == None ==> db.working == old(db.working).(stocks := CreditAll(old(db.working.stocks), branch, lines))
  {
    ghost var t := db.working;
    for i := 0 to |lines|
      invariant db.Valid() && db.open
      invariant LinesFault(t, branch, lines[..i]) == None
      invariant db.working == t.(stocks := CreditAll(t.stocks, branch, lines[..i]))
    {
      CreditStep(t.stocks, branch, lines, i);
      assert lines[..i + 1][..i] == lines[..i];
      var ok := db.UpsertBranchStock(branch, lines[i].product, lines[i].quantity);
      if !ok {
        LaterLinesKeepFault(t, branch, lines, i + 1);
        return Some(StockRejected(lines[i].product));
      }
    }
    assert lines[..|lines|] == lines;
    fault := None;
  }

  lemma {:induction false} LaterLinesKeepFault(t: Tables, branch: int, lines: seq<Line>, i: nat)
    requires i <= |lines| && LinesFault(t, branch, lines[..i]).Some?
    ensures LinesFault(t, branch, lines) == LinesFault(t, branch, lines[..i])
  {
    if i < |lines| {
      var n := |lines| - 1;
      assert lines[..n][..i] == lines[..i];
      LaterLinesKeepFault(t, branch, lines[..n], i);
    } else {
      assert lines[..i] == lines;
    }
  }

  /** Receiving credits the caller's branch; the status is read before the transaction opens. */
  method ReceivePOForOrg(db: Db, org: int, branch: int, order: int) returns (fault: Option<Error>)
    requires db.Valid() && !db.open
    modifies db
    ensures db.Valid() && !db.open
    ensures fault == ReceiveVerdict(old(db.committed), org, branch, order)
    ensures db.committed == ApplyReceive(old(db.committed), org, branch, order)
  {
    if !OrderOfOrg(db.committed, org, order) {
      return Some(OrderNotFound);
    }
    if db.committed.orders[order].status == Received {
      return Some(AlreadyReceived);
    }
    var lines := FindItems(db.committed.orderItems, order);
    db.Begin();
    fault := CreditLines(db, branch, lines);
    if fault == None {
      db.MarkReceivedForOrg(org, order);
      db.Commit();
    }
    db.Rollback();
  }
}
