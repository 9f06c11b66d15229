/** The database handle and its statements. A transaction works on a private copy until it commits. */
module Database {
  import opened Machine
  import opened Outcomes
  import opened Schema
  import opened Stock
  import opened Receipts

  /** VARCHAR(255). */
  const MAX_NAME := 255

  /** One result row of an id/value query. */
  datatype Row = Row(id: int, value: Amount)

  /** The values of one row offered to a detail table, before the columns have checked them. */
  datatype Offer = Offer(product: int, quantity: Int64, unitPrice: Int64, subtotal: Int64)

  predicate FitsColumns(o: Offer) {
    1 <= o.quantity <= MAX_INT32 && 0 <= o.unitPrice <= MAX_INT32 && 0 <= o.subtotal <= MAX_INT32
  }

  function MakeDetail(sale: int, o: Offer): Detail
    requires FitsColumns(o)
  {
    Detail(sale, o.product, o.quantity, o.subtotal)
  }

  function MakeRefundItem(refund: int, o: Offer): RefundItem
    requires FitsColumns(o)
  {
    RefundItem(refund, o.product, o.quantity, o.subtotal)
  }

  function MakeOrderItem(order: int, o: Offer): OrderItem
    requires FitsColumns(o)
  {
    OrderItem(order, o.product, o.quantity, o.unitPrice, o.subtotal)
  }

  function DetailRows(sale: int, offers: seq<Offer>): seq<Detail>
    requires forall o <- offers :: FitsColumns(o)
  {
    seq(|offers|, i requires 0 <= i < |offers| => MakeDetail(sale, offers[i]))
  }

  function RefundItemRows(refund: int, offers: seq<Offer>): seq<RefundItem>
    requires forall o <- offers :: FitsColumns(o)
  {
    seq(|offers|, i requires 0 <= i < |offers| => MakeRefundItem(refund, offers[i]))
  }

  function OrderItemRows(order: int, offers: seq<Offer>): seq<OrderItem>
    requires forall o <- offers :: FitsColumns(o)
  {
    seq(|offers|, i requires 0 <= i < |offers| => MakeOrderItem(order, offers[i]))
  }

  /** The database accepts the upsert: foreign keys resolve, and the offered and the resulting stock fit the column. */
  predicate CanUpsert(t: Tables, k: Key, stock: int, quantity: Int64) {
    && k.product in t.products
    && HasBranch(t, k.branch)
    && 0 <= quantity <= MAX_INT32
    && stock + quantity <= MAX_INT32
  }

  // What columns, foreign keys and UNIQUE constraints accept, insert by insert.

  predicate SaleAccepted(t: Tables, org: int, branch: int, total: Int64, customer: Option<int>) {
    && 0 <= total <= MAX_INT32
    && org in t.organizations && HasBranch(t, branch)
    && (customer.Some? ==> customer.value in t.customers)
  }

  predicate ReceiptAccepted(t: Tables, sale: int, number: string) {
    !NumberTaken(t.receipts, number) && HasSale(t, sale) && forall r <- t.receipts :: r.sale != sale
  }

  predicate OrderAccepted(t: Tables, org: int, branch: int, supplier: int, total: Int64) {
    && -MAX_INT32 - 1 <= total <= MAX_INT32
    && org in t.organizations && HasBranch(t, branch) && supplier in t.suppliers
  }

  /** Every offered row fits its columns and names a stored product. */
  predicate OffersAccepted(t: Tables, offers: seq<Offer>) {
    forall o <- offers :: FitsColumns(o) && o.product in t.products
  }

  predicate DetailsAccepted(t: Tables, sale: int, offers: seq<Offer>) {
    HasSale(t, sale) && OffersAccepted(t, offers)
  }

  predicate RefundItemsAccepted(t: Tables, refund: int, offers: seq<Offer>) {
    0 <= refund < |t.refunds| && OffersAccepted(t, offers)
  }

  predicate OrderItemsAccepted(t: Tables, order: int, offers: seq<Offer>) {
    0 <= order < |t.orders| && OffersAccepted(t, offers)
  }

  predicate ProductColumnsAccept(t: Tables, name: string, price: Int64, category: Option<int>) {
    |name| <= MAX_NAME && 0 <= price <= MAX_INT32 && (category.Some? ==> category.value in t.categories)
  }

  /** The products among `ids` that the organisation owns, with their prices. */
  function Prices(t: Tables, org: int, ids: seq<int>): map<int, Amount> {
    if ids == [] then map[]
    else
      var n := |ids| - 1;
      var m := Prices(t, org, ids[..n]);
      if OwnsProduct(t, org, ids[n]) then m[ids[n] := t.products[ids[n]].price] else m
  }

  lemma {:induction false} PricesAre(t: Tables, org: int, ids: seq<int>)
    ensures forall id :: id in Prices(t, org, ids) <==> id in ids && OwnsProduct(t, org, id)
    ensures forall id <- Prices(t, org, ids) ::
      OwnsProduct(t, org, id) && Prices(t, org, ids)[id] == t.products[id].price
  {
    if ids != [] {
      var n := |ids| - 1;
      PricesAre(t, org, ids[..n]);
      assert ids == ids[..n] + [ids[n]];
    }
  }

  /** The stock rows of one branch among the listed products. */
  function BranchStocks(s: Stocks, branch: int, ids: seq<int>): map<int, Amount>
    requires StocksInRange(s)
  {
    if ids == [] then map[]
    else
      var n := |ids| - 1;
      var m := BranchStocks(s, branch, ids[..n]);
      if Key(branch, ids[n]) in s then m[ids[n] := s[Key(branch, ids[n])]] else m
  }

  lemma {:induction false} BranchStocksAre(s: Stocks, branch: int, ids: seq<int>)
    requires StocksInRange(s)
    ensures forall id :: id in BranchStocks(s, branch, ids) <==> id in ids && Key(branch, id) in s
    ensures forall id <- BranchStocks(s, branch, ids) :: BranchStocks(s, branch, ids)[id] == s[Key(branch, id)]
  {
    if ids != [] {
      var n := |ids| - 1;
      BranchStocksAre(s, branch, ids[..n]);
      assert ids == ids[..n] + [ids[n]];
    }
  }

  function ProductIds(lines: seq<Line>): seq<int> {
    seq(|lines|, i requires 0 <= i < |lines| => lines[i].product)
  }

  /** Each id once, as in a query over rows with distinct ids. */
  ghost predicate OncePerId(rows: seq<Row>) {
    forall i, j | 0 <= i < j < |rows| :: rows[i].id != rows[j].id
  }

  ghost predicate RowsOf(rows: seq<Row>, m: map<int, Amount>) {
    forall id, v :: Row(id, v) in rows <==> id in m && m[id] == v
  }

  lemma RowAdded(rows: seq<Row>, m: map<int, Amount>, id: int, value: Amount)
    requires RowsOf(rows, m) && OncePerId(rows) && id !in m
    ensures RowsOf(rows + [Row(id, value)], m[id := value]) && OncePerId(rows + [Row(id, value)])
  {
    forall i | 0 <= i < |rows| ensures rows[i].id != id {
      assert Row(rows[i].id, rows[i].value) in rows;
    }
  }

  /** A map filled row by row keeps the last row of each id. */
  function LastById(rows: seq<Row>): map<int, Amount> {
    if rows == [] then map[]
    else
      var n := |rows| - 1;
      LastById(rows[..n])[rows[n].id := rows[n].value]
  }

  method IndexById(rows: seq<Row>) returns (m: map<int, Amount>)
    ensures m == LastById(rows)
  {
    m := map[];
    for i := 0 to |rows|
      invariant m == LastById(rows[..i])
    {
      m := m[rows[i].id := rows[i].value];
      assert rows[..i + 1][..i] == rows[..i];
    }
    assert rows[..|rows|] == rows;
  }

  lemma {:induction false} LastByIdKeys(rows: seq<Row>)
    ensures forall id :: id in LastById(rows) <==> exists r <- rows :: r.id == id
    ensures forall id <- LastById(rows) :: Row(id, LastById(rows)[id]) in rows
  {
    if rows != [] {
      var n := |rows| - 1;
      LastByIdKeys(rows[..n]);
      assert rows == rows[..n] + [rows[n]];
    }
  }

  /** When rows of one id agree, every row order and every repetition gives the same map. */
  lemma LastByIdOf(rows: seq<Row>, m: map<int, Amount>)
    requires RowsOf(rows, m)
    ensures LastById(rows) == m
  {
    LastByIdKeys(rows);
    forall id ensures id in LastById(rows) <==> id in m {
      if id in m {
        assert Row(id, m[id]) in rows;
      }
    }
    forall id <- m ensures LastById(rows)[id] == m[id] {
      assert Row(id, LastById(rows)[id]) in rows;
    }
  }

  /** What the constraints of the schema guarantee of any state. */
  ghost predicate Sound(t: Tables) {
    StocksInRange(t.stocks) && References(t)
  }

  class Db {
    var committed: Tables
    var working: Tables
    var open: bool

    ghost predicate Valid()
      reads this
    {
      Sound(committed) && (open ==> Sound(working))
    }

    constructor (initial: Tables)
      requires Sound(initial)
      ensures Valid() && !open && committed == initial
    {
      committed, working, open := initial, initial, false;
    }

    method Begin()
      requires Valid() && !open
      modifies `working, `open
      ensures Valid() && open && working == committed
    {
      working, open := committed, true;
    }

    method Commit()
      requires Valid() && open
      modifies `committed, `open
      ensures Valid() && !open && committed == old(working)
    {
      committed, open := working, false;
    }

    /** Deferred by every service: discards the work of an open transaction and does nothing after a commit. */
    method Rollback()
      requires Valid()
      modifies `working, `open
      ensures Valid() && !open
    {
      working, open := committed, false;
    }

    // ---------- queries ----------

    /** SELECT id, price FROM products WHERE organization_id = org AND id IN (ids). Takes no lock, despite its name. */
    method LockProductsForOrg(org: int, ids: seq<int>) returns (rows: seq<Row>)
      ensures RowsOf(rows, Prices(working, org, ids)) && OncePerId(rows)
    {
      rows := [];
      for i := 0 to |ids|
        invariant RowsOf(rows, Prices(working, org, ids[..i])) && OncePerId(rows)
      {
        PricesAre(working, org, ids[..i]);
        assert ids[..i + 1][..i] == ids[..i];
        if ids[i] !in ids[..i] && OwnsProduct(working, org, ids[i]) {
          RowAdded(rows, Prices(working, org, ids[..i]), ids[i], working.products[ids[i]].price);
          rows := rows + [Row(ids[i], working.products[ids[i]].price)];
        }
      }
      assert ids[..|ids|] == ids;
    }

    /** SELECT product_id, stock FROM product_stocks WHERE branch_id = branch AND product_id IN (ids) FOR UPDATE. */
    method LockBranchStocks(branch: int, ids: seq<int>) returns (rows: seq<Row>)
      requires Valid() && open
      ensures RowsOf(rows, BranchStocks(working.stocks, branch, ids)) && OncePerId(rows)
    {
      rows := [];
      for i := 0 to |ids|
        invariant RowsOf(rows, BranchStocks(working.stocks, branch, ids[..i])) && OncePerId(rows)
      {
        BranchStocksAre(working.stocks, branch, ids[..i]);
        assert ids[..i + 1][..i] == ids[..i];
        if ids[i] !in ids[..i] && Key(branch, ids[i]) in working.stocks {
          RowAdded(rows, BranchStocks(working.stocks, branch, ids[..i]), ids[i], working.stocks[Key(branch, ids[i])]);
          rows := rows + [Row(ids[i], working.stocks[Key(branch, ids[i])])];
        }
      }
      assert ids[..|ids|] == ids;
    }

    // ---------- stock statements ----------

    /** The guarded UPDATE of a checkout: reports success whether or not a row was affected. */
    method UpdateBranchStock(branch: int, product: int, quantity: Quantity)
      requires Valid() && open
      modifies `working
      ensures Valid()
      ensures working == old(working).(stocks := Deduct(old(working.stocks), Key(branch, product), quantity))
    {
      var k := Key(branch, product);
      if k in working.stocks && working.stocks[k] >= quantity {
        working := working.(stocks := working.stocks[k := working.stocks[k] - quantity]);
      }
    }

    /** INSERT ... ON CONFLICT (product_id, branch_id) DO UPDATE SET stock = stock + EXCLUDED.stock. */
    method UpsertBranchStock(branch: int, product: int, quantity: Int64) returns (ok: bool)
      requires Valid() && open
      modifies `working
      ensures Valid()
      ensures var k := Key(branch, product); var stock := old(StockAt(working.stocks, k));
        && ok == CanUpsert(old(working), k, stock, quantity)
        && working == if ok then old(working).(stocks := Credit(old(working.stocks), k, quantity)) else old(working)
    {
      var k := Key(branch, product);
      var stock := StockAt(working.stocks, k);
      ok := CanUpsert(working, k, stock, quantity);
      if ok {
        working := working.(stocks := working.stocks[k := stock + quantity]);
      }
    }

    // ---------- statements outside a transaction ----------

    /** UPDATE products SET name, price, category_id WHERE organization_id = org AND id = product. */
    method UpdateProductForOrg(org: int, product: int, name: string, price: Int64, category: Option<int>)
      returns (ok: bool)
      requires Valid() && !open
      modifies `committed
      ensures Valid()
      ensures ok == ProductColumnsAccept(old(committed), name, price, category)
      ensures committed == if ok && OwnsProduct(old(committed), org, product)
        then old(committed).(products := old(committed).products[product := Product(org, name, price, category)])
        else old(committed)
    {
      ok := ProductColumnsAccept(committed, name, price, category);
      if ok && OwnsProduct(committed, org, product) {
        committed := committed.(products := committed.products[product := Product(org, name, price, category)]);
      }
    }

    /** INSERT INTO inventory_alerts SELECT ... FROM products WHERE owned ON CONFLICT DO UPDATE. */
    method UpsertThreshold(org: int, product: int, threshold: Threshold) returns (affected: nat)
      requires Valid() && !open
      modifies `committed
      ensures Valid()
      ensures affected == if OwnsProduct(old(committed), org, product) then 1 else 0
      ensures committed == if OwnsProduct(old(committed), org, product)
        then old(committed).(thresholds := old(committed).thresholds[product := threshold])
        else old(committed)
    {
      affected := 0;
      if OwnsProduct(committed, org, product) {
        committed, affected := committed.(thresholds := committed.thresholds[product := threshold]), 1;
      }
    }

    // ---------- inserts ----------

    method InsertSale(org: int, branch: int, total: Int64, customer: Option<int>, day: Day) returns (ok: bool, id: int)
      requires Valid() && open
      modifies `working
      ensures Valid()
      ensures id == old(|working.sales|)
      ensures ok <==> SaleAccepted(old(working), org, branch, total, customer)
      ensures working == if ok
        then old(working).(sales := old(working).sales + [Sale(org, branch, total, customer, day)])
        else old(working)
    {
      id := |working.sales|;
      ok := SaleAccepted(working, org, branch, total, customer);
      if ok {
        working := working.(sales := working.sales + [Sale(org, branch, total, customer, day)]);
      }
    }

    /** A multi-row INSERT: one offered row that a column rejects rejects them all. */
    method InsertDetails(sale: int, offers: seq<Offer>) returns (ok: bool)
      requires Valid() && open
      modifies `working
      ensures Valid()
      ensures ok <==> DetailsAccepted(old(working), sale, offers)
      ensures working == if ok
        then old(working).(details := old(working).details + DetailRows(sale, offers))
        else old(working)
    {
      ok := DetailsAccepted(working, sale, offers);
      if ok {
        working := working.(details := working.details + DetailRows(sale, offers));
      }
    }

    method InsertPayment(sale: int, kind: int, amount: Int64) returns (ok: bool)
      requires Valid() && open
      modifies `working
      ensures Valid()
      ensures ok <==>
        1 <= amount <= MAX_INT32 && HasSale(old(working), sale) && kind in old(working).paymentTypes.Values
      ensures working == if ok
        then old(working).(payments := old(working).payments + [Payment(sale, kind, amount)])
        else old(working)
    {
      ok := 1 <= amount <= MAX_INT32 && HasSale(working, sale) && kind in working.paymentTypes.Values;
      if ok {
        working := working.(payments := working.payments + [Payment(sale, kind, amount)]);
      }
    }

    /** The number is unique over the whole table, and so is the sale. */
    method InsertReceipt(sale: int, number: string, day: Day) returns (ok: bool)
      requires Valid() && open
      modifies `working
      ensures Valid()
      ensures ok <==> ReceiptAccepted(old(working), sale, number)
      ensures working == if ok
        then old(working).(receipts := old(working).receipts + [Receipt(sale, number, day)])
        else old(working)
    {
      ok := ReceiptAccepted(working, sale, number);
      if ok {
        working := working.(receipts := working.receipts + [Receipt(sale, number, day)]);
      }
    }

    method InsertRefund(org: int, sale: int, total: Int64, reason: string) returns (ok: bool, id: int)
      requires Valid() && open
      modifies `working
      ensures Valid()
      ensures id == old(|working.refunds|)
      ensures ok <==> 0 <= total <= MAX_INT32 && org in old(working).organizations && HasSale(old(working), sale)
      ensures working == if ok
        then old(working).(refunds := old(working).refunds + [Refund(org, sale, total, reason)])
        else old(working)
    {
      id := |working.refunds|;
      ok := 0 <= total <= MAX_INT32 && org in working.organizations && HasSale(working, sale);
      if ok {
        working := working.(refunds := working.refunds + [Refund(org, sale, total, reason)]);
      }
    }

    method InsertRefundItems(refund: int, offers: seq<Offer>) returns (ok: bool)
      requires Valid() && open
      modifies `working
      ensures Valid()
      ensures ok <==> RefundItemsAccepted(old(working), refund, offers)
      ensures working == if ok
        then old(working).(refundItems := old(working).refundItems + RefundItemRows(refund, offers))
        else old(working)
    {
      ok := RefundItemsAccepted(working, refund, offers);
      if ok {
        working := working.(refundItems := working.refundItems + RefundItemRows(refund, offers));
      }
    }

    method InsertOrder(org: int, branch: int, supplier: int, total: Int64) returns (ok: bool, id: int)
      requires Valid() && open
      modifies `working
      ensures Valid()
      ensures id == old(|working.orders|)
      ensures ok <==> OrderAccepted(old(working), org, branch, supplier, total)
      ensures working == if ok
        then old(working).(orders := old(working).orders + [Order(org, branch, supplier, Pending, total)])
        else old(working)
    {
      id := |working.orders|;
      ok := OrderAccepted(working, org, branch, supplier, total);
      if ok {
        working := working.(orders := working.orders + [Order(org, branch, supplier, Pending, total)]);
      }
    }

    method InsertOrderItems(order: int, offers: seq<Offer>) returns (ok: bool)
      requires Valid() && open
      modifies `working
      ensures Valid()
      ensures ok <==> OrderItemsAccepted(old(working), order, offers)
      ensures working == if ok
        then old(working).(orderItems := old(working).orderItems + OrderItemRows(order, offers))
        else old(working)
    {
      ok := OrderItemsAccepted(working, order, offers);
      if ok {
        working := working.(orderItems := working.orderItems + OrderItemRows(order, offers));
      }
    }

    /** UPDATE purchase_orders SET status = 'received' WHERE organization_id = org AND id = order. */
    method MarkReceivedForOrg(org: int, order: int)
      requires Valid() && open
      modifies `working
      ensures Valid()
      ensures working == if 0 <= order < |old(working).orders| && old(working).orders[order].org == org
        then old(working).(orders := old(working).orders[order := old(working).orders[order].(status := Received)])
        else old(working)
    {
      if 0 <= order < |working.orders| && working.orders[order].org == org {
        working := working.(orders := working.orders[order := working.orders[order].(status := Received)]);
      }
    }
  }
}
