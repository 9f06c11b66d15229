/** The returns service: refunds lines of a sale at the unit price they were sold for and restores stock. */
module Returns {
  import opened Machine
  import opened Outcomes
  import opened Sums
  import opened Schema
  import opened Stock
  import opened Database

  datatype Error =
    | Empty
    | InvalidQuantity(product: int)
    | SaleNotFound
    | NotInSale(product: int)
    | RefundOverflow
    | StockRejected(product: int)

  // ---------- unit prices of a sale ----------

  /** td.subtotal / td.quantity, an integer division of non-negative columns. */
  function UnitPrice(d: Detail): (price: Amount)
    ensures price * d.quantity <= d.subtotal < (price + 1) * d.quantity
  {
    d.subtotal / d.quantity
  }

  /** The rows of a sale, joined with their products, each with its unit price. */
  function SoldRows(t: Tables, details: seq<Detail>, sale: int): seq<Row> {
    if details == [] then []
    else
      var n := |details| - 1;
      var d := details[n];
      SoldRows(t, details[..n], sale)
        + if d.sale == sale && d.product in t.products then [Row(d.product, UnitPrice(d))] else []
  }

  function UnitPrices(t: Tables, sale: int): map<int, Amount> {
    LastById(SoldRows(t, t.details, sale))
  }

  /** Rows of one product in one sale carry one unit price, which divides their subtotals exactly. */
  ghost predicate UnitPricesAgree(details: seq<Detail>) {
    && (forall d <- details :: d.subtotal == UnitPrice(d) * d.quantity)
    && (forall d <- details, e <- details | d.sale == e.sale && d.product == e.product :: UnitPrice(d) == UnitPrice(e))
  }

  lemma {:induction false} SoldRowsAre(t: Tables, details: seq<Detail>, sale: int, r: Row)
    ensures r in SoldRows(t, details, sale)
       <==> exists d <- details :: d.sale == sale && d.product in t.products && r == Row(d.product, UnitPrice(d))
  {
    if details != [] {
      var n := |details| - 1;
      SoldRowsAre(t, details[..n], sale, r);
      assert details == details[..n] + [details[n]];
    }
  }

  /** When unit prices agree, the lookup map is the same for every row order and every repetition of a product. */
  lemma LookupOrderFree(t: Tables, sale: int, rows: seq<Row>)
    requires UnitPricesAgree(t.details)
    requires forall r :: r in rows <==> r in SoldRows(t, t.details, sale)
    ensures LastById(rows) == UnitPrices(t, sale)
    ensures RowsOf(rows, UnitPrices(t, sale))
  {
    var sold := SoldRows(t, t.details, sale);
    var m := LastById(sold);
    LastByIdKeys(sold);
    forall id, v ensures Row(id, v) in rows <==> id in m && m[id] == v {
      SoldRowsAre(t, t.details, sale, Row(id, v));
      if Row(id, v) in sold {
        assert id in m;
        SoldRowsAre(t, t.details, sale, Row(id, m[id]));
      }
    }
    LastByIdOf(rows, m);
  }

  lemma UnitPriceOf(t: Tables, d: Detail)
    requires UnitPricesAgree(t.details) && d in t.details && d.product in t.products
    ensures d.product in UnitPrices(t, d.sale) && UnitPrices(t, d.sale)[d.product] == UnitPrice(d)
  {
    LookupOrderFree(t, d.sale, SoldRows(t, t.details, d.sale));
    SoldRowsAre(t, t.details, d.sale, Row(d.product, UnitPrice(d)));
  }

  /** A product has a unit price in a sale exactly when the sale has a row of it. */
  lemma PricedIffSold(t: Tables, sale: int, product: int)
    ensures product in UnitPrices(t, sale)
       <==> product in t.products && exists d <- t.details :: d.sale == sale && d.product == product
  {
    var rows := SoldRows(t, t.details, sale);
    LastByIdKeys(rows);
    if product in UnitPrices(t, sale) {
      SoldRowsAre(t, t.details, sale, Row(product, UnitPrices(t, sale)[product]));
    }
    if product in t.products && exists d <- t.details :: d.sale == sale && d.product == product {
      var d :| d in t.details && d.sale == sale && d.product == product;
      SoldRowsAre(t, t.details, sale, Row(product, UnitPrice(d)));
    }
  }

  // ---------- specification ----------

  function QuantityFault(): Line -> Option<Error> {
    (l: Line) => if l.quantity <= 0 then Some(InvalidQuantity(l.product)) else None
  }

  predicate SaleOfOrg(t: Tables, org: int, sale: int) {
    0 <= sale < |t.sales| && t.sales[sale].org == org
  }

  /** What a returned line refunds, in exact arithmetic. */
  function LineRefund(units: map<int, Amount>): Line -> int {
    (l: Line) => if l.product in units then units[l.product] * l.quantity else 0
  }

  predicate GuardTrips(total: int, price: Amount, quantity: Int64) {
    total > Wrap64(MAX_INT32 - Wrap64(price * quantity))
  }

  /** The fault of one pass of the refund loop, after the lines `before`; arithmetic wraps as in the program. */
  function LineFault(t: Tables, units: map<int, Amount>, branch: int, before: seq<Line>, l: Line): Option<Error> {
    if l.product !in units then Some(NotInSale(l.product))
    else if GuardTrips(Sum(before, LineRefund(units)), units[l.product], l.quantity) then Some(RefundOverflow)
    else
      var k := Key(branch, l.product);
      if CanUpsert(t, k, StockAt(t.stocks, k) + Demand(before, l.product), l.quantity) then None
      else Some(StockRejected(l.product))
  }

  function LinesFault(t: Tables, units: map<int, Amount>, branch: int, lines: seq<Line>): Option<Error> {
    if lines == [] then None
    else
      var n := |lines| - 1;
      var first := LinesFault(t, units, branch, lines[..n]);
      if first.Some? then first else LineFault(t, units, branch, lines[..n], lines[n])
  }

  function ShapeFault(lines: seq<Line>): Option<Error> {
    if lines == [] then Some(Empty) else FirstFault(lines, QuantityFault())
  }

  function Verdict(t: Tables, org: int, branch: int, sale: int, lines: seq<Line>): Option<Error> {
    var shape := ShapeFault(lines);
    if shape.Some? then shape
    else if !SaleOfOrg(t, org, sale) then Some(SaleNotFound)
    else LinesFault(t, UnitPrices(t, sale), branch, lines)
  }

  /** The refund loop accepts the lines: exact refund and resulting stocks fit their columns. */
  ghost predicate Acceptable(t: Tables, units: map<int, Amount>, branch: int, lines: seq<Line>) {
    && (forall l <- lines ::
          && l.product in units
          && l.product in t.products
          && HasBranch(t, branch)
          && StockAt(t.stocks, Key(branch, l.product)) + Demand(lines, l.product) <= MAX_INT32)
    && Sum(lines, LineRefund(units)) <= MAX_INT32
  }

  /** When a return commits, in exact arithmetic. */
  ghost predicate Commits(t: Tables, org: int, branch: int, sale: int, lines: seq<Line>) {
    && lines != []
    && Positive(lines)
    && SaleOfOrg(t, org, sale)
    && Acceptable(t, UnitPrices(t, sale), branch, lines)
  }

  /** An acceptable return refunds an exact, non-negative total, and no quantity or row exceeds its column. */
  lemma AcceptableExact(t: Tables, units: map<int, Amount>, branch: int, lines: seq<Line>)
    requires Positive(lines) && StocksInRange(t.stocks) && Acceptable(t, units, branch, lines)
    ensures 0 <= Sum(lines, LineRefund(units)) <= MAX_INT32
    ensures forall l <- lines :: l.quantity <= MAX_INT32 && 0 <= LineRefund(units)(l) <= MAX_INT32
  {
    forall l <- lines ensures l.quantity <= MAX_INT32 && 0 <= LineRefund(units)(l) {
      DemandNonNegative(lines, l.product);
      ProductOfColumnsFits(units[l.product], l.quantity);
    }
    SumNonNegative(lines, LineRefund(units));
  }

  /** The guard trips on a quantity that fits its column exactly when the exact sum is too large. */
  lemma GuardExact(total: int, price: Amount, quantity: Int64)
    requires 0 <= total <= MAX_INT32 && 0 < quantity <= MAX_INT32
    ensures GuardTrips(total, price, quantity) <==> total + price * quantity > MAX_INT32
  {
    ProductOfColumnsFits(price, quantity);
  }

  /**
    After acceptable lines, one more is let through exactly when it is known, fits, and keeps the exact sum in
    bounds.
   */
  lemma NoLineFaultIff(t: Tables, units: map<int, Amount>, branch: int, before: seq<Line>, l: Line)
    requires l.quantity > 0 && 0 <= Sum(before, LineRefund(units)) <= MAX_INT32
    requires StockAt(t.stocks, Key(branch, l.product)) + Demand(before, l.product) >= 0
    ensures LineFault(t, units, branch, before, l) == None <==> LineFits(t, units, branch, before, l)
  {
    if l.product in units && l.quantity <= MAX_INT32 {
      GuardExact(Sum(before, LineRefund(units)), units[l.product], l.quantity);
    }
  }

  predicate LineFits(t: Tables, units: map<int, Amount>, branch: int, before: seq<Line>, l: Line) {
    && l.product in units
    && var k := Key(branch, l.product);
    && CanUpsert(t, k, StockAt(t.stocks, k) + Demand(before, l.product), l.quantity)
    && Sum(before, LineRefund(units)) + units[l.product] * l.quantity <= MAX_INT32
  }

  lemma AcceptableStep(t: Tables, units: map<int, Amount>, branch: int, lines: seq<Line>, n: nat)
    requires Positive(lines) && StocksInRange(t.stocks) && n == |lines| - 1
    ensures Acceptable(t, units, branch, lines)
       <==> Acceptable(t, units, branch, lines[..n]) && LineFits(t, units, branch, lines[..n], lines[n])
  {
    var before, l := lines[..n], lines[n];
    assert lines == before + [l] && lines[..n + 1] == lines && l in lines;
    forall p ensures Demand(lines, p) == Demand(before, p) + if l.product == p then l.quantity else 0 {
      DemandStep(lines, p, n);
    }
    SumStep(lines, LineRefund(units), n);
    DemandNonNegative(before, l.product);
    if Acceptable(t, units, branch, lines) {
      PrefixAcceptable(t, units, branch, lines, n);
    }
  }

  lemma PrefixAcceptable(t: Tables, units: map<int, Amount>, branch: int, lines: seq<Line>, n: nat)
    requires Positive(lines) && StocksInRange(t.stocks) && n <= |lines| && Acceptable(t, units, branch, lines)
    ensures Acceptable(t, units, branch, lines[..n])
  {
    AcceptableExact(t, units, branch, lines);
    PrefixAtMost(lines, LineRefund(units), n);
    forall x <- lines[..n] ensures x in lines && Demand(lines[..n], x.product) <= Demand(lines, x.product) {
      DemandPrefix(lines, x.product, n);
    }
  }

  /** The guard and the columns together let through exactly what exact arithmetic would, whatever wraps in between. */
  lemma {:induction false} NoLineFaultIffAcceptable(t: Tables, units: map<int, Amount>, branch: int, lines: seq<Line>)
    requires Positive(lines) && StocksInRange(t.stocks)
    ensures LinesFault(t, units, branch, lines) == None <==> Acceptable(t, units, branch, lines)
  {
    if lines != [] {
      var n := |lines| - 1;
      assert lines == lines[..n] + [lines[n]];
      NoLineFaultIffAcceptable(t, units, branch, lines[..n]);
      AcceptableStep(t, units, branch, lines, n);
      if Acceptable(t, units, branch, lines[..n]) {
        AcceptableExact(t, units, branch, lines[..n]);
        DemandNonNegative(lines[..n], lines[n].product);
        NoLineFaultIff(t, units, branch, lines[..n], lines[n]);
      }
    }
  }

  lemma NoFaultIffCommits(t: Tables, org: int, branch: int, sale: int, lines: seq<Line>)
    requires StocksInRange(t.stocks)
    ensures Verdict(t, org, branch, sale, lines) == None <==> Commits(t, org, branch, sale, lines)
  {
    NoFirstFault(lines, QuantityFault());
    assert (forall l <- lines :: QuantityFault()(l) == None) <==> Positive(lines);
    if Positive(lines) {
      NoLineFaultIffAcceptable(t, UnitPrices(t, sale), branch, lines);
    }
  }

  function Known(units: map<int, Amount>): Line -> bool {
    (l: Line) => l.product in units
  }

  function Offered(units: map<int, Amount>, lines: seq<Line>): seq<Offer> {
    seq(|lines|, i requires 0 <= i < |lines| => OfferOf(units, lines[i]))
  }

  function OfferOf(units: map<int, Amount>, l: Line): Offer {
    Offer(l.product, l.quantity, 0, Wrap64(LineRefund(units)(l)))
  }

  /** The columns accept every row of an acceptable return. */
  lemma RowsFit(t: Tables, units: map<int, Amount>, branch: int, lines: seq<Line>)
    requires Positive(lines) && StocksInRange(t.stocks) && Acceptable(t, units, branch, lines)
    ensures 0 <= Sum(lines, LineRefund(units)) <= MAX_INT32
    ensures forall l <- lines :: l.quantity <= MAX_INT32 && 0 <= LineRefund(units)(l) <= MAX_INT32
    ensures forall o <- Offered(units, lines) :: FitsColumns(o)
  {
    AcceptableExact(t, units, branch, lines);
  }

  function Effect(t: Tables, org: int, branch: int, sale: int, reason: string, lines: seq<Line>): Tables
    requires Commits(t, org, branch, sale, lines) && StocksInRange(t.stocks)
  {
    var units := UnitPrices(t, sale);
    RowsFit(t, units, branch, lines);
    t.(stocks := CreditAll(t.stocks, branch, lines),
       refunds := t.refunds + [Refund(org, sale, Sum(lines, LineRefund(units)), reason)],
       refundItems := t.refundItems + RefundItemRows(|t.refunds|, Offered(units, lines)))
  }

  function Apply(t: Tables, org: int, branch: int, sale: int, reason: string, lines: seq<Line>): (t': Tables)
    requires StocksInRange(t.stocks)
    ensures t' == t.(stocks := t'.stocks, refunds := t'.refunds, refundItems := t'.refundItems)
  {
    if Verdict(t, org, branch, sale, lines) == None then
      NoFaultIffCommits(t, org, branch, sale, lines);
      Effect(t, org, branch, sale, reason, lines)
    else t
  }

  function Outcome(t: Tables, org: int, branch: int, sale: int, lines: seq<Line>): Result<int, Error> {
    match Verdict(t, org, branch, sale, lines)
    case Some(e) => Failure(e)
    case None => Success(|t.refunds|)
  }

  // ---------- the service ----------

  method CheckShape(lines: seq<Line>) returns (fault: Option<Error>)
    ensures fault == ShapeFault(lines)
  {
    if |lines| == 0 {
      return Some(Empty);
    }
    for i := 0 to |lines|
      invariant forall j | 0 <= j < i :: QuantityFault()(lines[j]) == None
    {
      if lines[i].quantity <= 0 {
        FirstFaultAt(lines, QuantityFault(), i);
        return Some(InvalidQuantity(lines[i].product));
      }
    }
    NoFirstFault(lines, QuantityFault());
    return None;
  }

  /** The query has no ORDER BY: only which rows it returns is promised. */
  method FindTransactionDetailsForOrg(db: Db, org: int, sale: int) returns (rows: seq<Row>)
    requires db.open
    ensures SaleOfOrg(db.working, org, sale) ==>
      forall r :: r in rows <==> r in SoldRows(db.working, db.working.details, sale)
  {
    rows := [];
    if SaleOfOrg(db.working, org, sale) {
      var details := db.working.details;
      for i := 0 to |details|
        invariant rows == SoldRows(db.working, details[..i], sale)
      {
        assert details[..i + 1][..i] == details[..i];
        if details[i].sale == sale && details[i].product in db.working.products {
          rows := rows + [Row(details[i].product, details[i].subtotal / details[i].quantity)];
        }
      }
      assert details[..|details|] == details;
    }
  }

  lemma {:induction false} FirstBadLine(t: Tables, units: map<int, Amount>, branch: int, lines: seq<Line>, i: nat)
    requires i < |lines|
    requires LinesFault(t, units, branch, lines[..i]) == None
    requires LineFault(t, units, branch, lines[..i], lines[i]).Some?
    ensures LinesFault(t, units, branch, lines) == LineFault(t, units, branch, lines[..i], lines[i])
  {
    var n := |lines| - 1;
    if i < n {
      assert lines[..n][..i] == lines[..i];
      FirstBadLine(t, units, branch, lines[..n], i);
    }
  }

  /** One pass of the refund loop: guard, accumulate in 64-bit arithmetic, upsert. */
  method RestoreLine(db: Db, ghost t: Tables, branch: int, ghost before: seq<Line>, item: Line,
                     productMap: map<int, Amount>, soFar: Int64) returns (fault: Option<Error>, totalRefund: Int64)
    requires db.Valid() && db.open && item.quantity > 0
    requires soFar == Sum(before, LineRefund(productMap)) && 0 <= soFar <= MAX_INT32
    requires db.working == t.(stocks := db.working.stocks)
    requires var k := Key(branch, item.product);
      StockAt(db.working.stocks, k) == StockAt(t.stocks, k) + Demand(before, item.product)
    modifies db`working
    ensures db.Valid()
    ensures fault == LineFault(t, productMap, branch, before, item)
    ensures fault == None ==>
      && totalRefund == soFar + LineRefund(productMap)(item) && 0 <= totalRefund <= MAX_INT32
      && var k := Key(branch, item.product);
        db.working == t.(stocks := Credit(old(db.working.stocks), k, item.quantity))
  {
    totalRefund := soFar;
    if item.product !in productMap {
      return Some(NotInSale(item.product)), totalRefund;
    }
    var overflow;
    overflow, totalRefund := AddSubtotal(soFar, productMap[item.product], item.quantity);
    if overflow {
      return Some(RefundOverflow), totalRefund;
    }
    var ok := db.UpsertBranchStock(branch, item.product, item.quantity);
    fault := if ok then None else Some(StockRejected(item.product));
  }

  /** The guarded accumulation is exact whenever the quantity fits its column; otherwise the upsert will reject it. */
  method AddSubtotal(soFar: Int64, price: Amount, quantity: Int64) returns (overflow: bool, total: Int64)
    requires 0 <= soFar <= MAX_INT32 && quantity > 0
    ensures overflow == GuardTrips(soFar, price, quantity)
    ensures !overflow && quantity <= MAX_INT32 ==> total == soFar + price * quantity && 0 <= total <= MAX_INT32
  {
    var subtotal := Wrap64(price * quantity);
    overflow, total := soFar > Wrap64(MAX_INT32 - subtotal), soFar;
    if !overflow {
      total := Wrap64(soFar + subtotal);
    }
    if quantity <= MAX_INT32 {
      ProductOfColumnsFits(price, quantity);
    }
  }

  /** The refund loop. */
  method RestoreStock(db: Db, branch: int, lines: seq<Line>, productMap: map<int, Amount>)
    returns (fault: Option<Error>, totalRefund: Int64)
    requires db.Valid() && db.open && Positive(lines)
    modifies db`working
    ensures db.Valid()
    ensures fault == LinesFault(old(db.working), productMap, branch, lines)
    ensures fault == None ==>
      && totalRefund == Sum(lines, LineRefund(productMap))
      && db.working == old(db.working).(stocks := CreditAll(old(db.working.stocks), branch, lines))
  {
    ghost var t := db.working;
    totalRefund := 0;
    for i := 0 to |lines|
      invariant db.Valid() && db.open
      invariant LinesFault(t, productMap, branch, lines[..i]) == None
      invariant totalRefund == Sum(lines[..i], LineRefund(productMap)) && 0 <= totalRefund <= MAX_INT32
      invariant db.working == t.(stocks := CreditAll(t.stocks, branch, lines[..i]))
    {
      CreditStep(t.stocks, branch, lines, i);
      LinesStep(t, productMap, branch, lines, i);
      fault, totalRefund := RestoreLine(db, t, branch, lines[..i], lines[i], productMap, totalRefund);
      if fault.Some? {
        return;
      }
    }
    assert lines[..|lines|] == lines;
    fault := None;
  }

  /** One more line's fault is the loop's, and otherwise its refund is added. */
  lemma LinesStep(t: Tables, units: map<int, Amount>, branch: int, lines: seq<Line>, i: nat)
    requires i < |lines| && LinesFault(t, units, branch, lines[..i]) == None
    ensures LinesFault(t, units, branch, lines[..i + 1]) == LineFault(t, units, branch, lines[..i], lines[i])
    ensures var fault := LineFault(t, units, branch, lines[..i], lines[i]);
      fault.Some? ==> LinesFault(t, units, branch, lines) == fault
    ensures Sum(lines[..i + 1], LineRefund(units)) == Sum(lines[..i], LineRefund(units)) + LineRefund(units)(lines[i])
  {
    assert lines[..i + 1][..i] == lines[..i];
    if LineFault(t, units, branch, lines[..i], lines[i]).Some? {
      FirstBadLine(t, units, branch, lines, i);
    }
  }

  method BuildRefundItems(lines: seq<Line>, productMap: map<int, Amount>) returns (rows: seq<Offer>)
    ensures rows == Offered(productMap, Where(lines, Known(productMap)))
  {
    rows := [];
    for i := 0 to |lines|
      invariant rows == Offered(productMap, Where(lines[..i], Known(productMap)))
    {
      var item := lines[i];
      assert lines[..i + 1][..i] == lines[..i];
      if item.product in productMap {
        var subtotal := Wrap64(productMap[item.product] * item.quantity);
        rows := rows + [Offer(item.product, item.quantity, 0, subtotal)];
      }
    }
    assert lines[..|lines|] == lines;
  }

  /**
    A return commits exactly the effect computed in exact arithmetic or fails with its first error, and every error
    changes nothing committed. Which unit price it uses is determined when the stored details agree on it, as they
    do in every reachable state; otherwise it depends on the order in which the rows come back.
   */
  method ProcessReturnForOrg(db: Db, org: int, branch: int, sale: int, reason: string, items: seq<Line>)
    returns (r: Result<int, Error>)
    requires db.Valid() && !db.open
    modifies db
    ensures db.Valid() && !db.open
    ensures r.Failure? ==> db.committed == old(db.committed)
    ensures r.Success? ==> db.committed.stocks == CreditAll(old(db.committed.stocks), branch, items)
    ensures UnitPricesAgree(old(db.committed.details)) ==>
      && db.committed == Apply(old(db.committed), org, branch, sale, reason, items)
      && r == Outcome(old(db.committed), org, branch, sale, items)
  {
    ghost var t := db.committed;
    var fault := CheckShape(items);
    if fault.Some? {
      return Failure(fault.value);
    }
    NoFaultIffCommits(t, org, branch, sale, items);
    assert Positive(items) by {
      NoFirstFault(items, QuantityFault());
      assert forall l <- items :: QuantityFault()(l) == None;
    }
    if !SaleOfOrg(db.committed, org, sale) {
      return Failure(SaleNotFound);
    }
    db.Begin();
    var products := FindTransactionDetailsForOrg(db, org, sale);
    var productMap := IndexById(products);
    if UnitPricesAgree(t.details) {
      LookupOrderFree(t, sale, products);
    }
    var totalRefund;
    fault, totalRefund := RestoreStock(db, branch, items, productMap);
    if fault.Some? {
      r := Failure(fault.value);
    } else {
      NoLineFaultIffAcceptable(t, productMap, branch, items);
      RowsFit(t, productMap, branch, items);
      var id := RecordRefund(db, t, org, sale, reason, items, productMap, totalRefund);
      db.Commit();
      r := Success(id);
    }
    db.Rollback();
  }

  method RecordRefund(db: Db, ghost t: Tables, org: int, sale: int, reason: string, items: seq<Line>,
                      productMap: map<int, Amount>, totalRefund: Int64) returns (id: int)
    requires db.Valid() && db.open && db.working == t.(stocks := db.working.stocks)
    requires 0 <= totalRefund <= MAX_INT32 && HasSale(t, sale) && org in t.organizations
    requires forall l <- items :: l.product in productMap && l.product in t.products
    requires forall o <- Offered(productMap, items) :: FitsColumns(o)
    modifies db`working
    ensures db.Valid() && id == |t.refunds|
    ensures db.working == old(db.working).(
      refunds := t.refunds + [Refund(org, sale, totalRefund, reason)],
      refundItems := t.refundItems + RefundItemRows(|t.refunds|, Offered(productMap, items)))
  {
    var ok;
    ok, id := db.InsertRefund(org, sale, totalRefund, reason);
    var rows := BuildRefundItems(items, productMap);
    WhereAll(items, Known(productMap));
    ok := db.InsertRefundItems(id, rows);
  }
}
