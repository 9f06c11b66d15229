/**
  The tables of the ledger. A row's surrogate id is its position in its table; products, customers, suppliers
  and thresholds are looked up by id. Column types and CHECK constraints are the types of the fields, except for
  `stocks`, whose bounds are the predicate `StocksInRange`: keeping them is the work of the stock statements.
 */
module Schema {
  import opened Machine
  import opened Outcomes
  import opened Sums

  /** A calendar day, written as the number yyyymmdd. */
  type Day = d: nat | d <= 9999_12_31

  datatype Product = Product(org: int, name: string, price: Amount, category: Option<int>)
  datatype Category = Category(org: int, name: string)
  datatype Branch = Branch(org: int, name: string)

  /** UNIQUE (product_id, branch_id). */
  datatype Key = Key(branch: int, product: int)
  type Stocks = map<Key, int>

  datatype Sale = Sale(org: int, branch: int, total: Amount, customer: Option<int>, day: Day)
  datatype Detail = Detail(sale: int, product: int, quantity: Quantity, subtotal: Amount)
  datatype Payment = Payment(sale: int, kind: int, amount: Quantity)
  datatype Receipt = Receipt(sale: int, number: string, day: Day)
  datatype Refund = Refund(org: int, sale: int, total: Amount, reason: string)
  datatype RefundItem = RefundItem(refund: int, product: int, quantity: Quantity, subtotal: Amount)
  datatype Status = Pending | Received
  datatype Order = Order(org: int, branch: int, supplier: int, status: Status, total: Int32)
  datatype OrderItem = OrderItem(order: int, product: int, quantity: Quantity, unitPrice: Amount, subtotal: Amount)
  datatype Threshold = Threshold(minStock: Int32, maxStock: Int32, enabled: bool)

  datatype Tables = Tables(
    organizations: set<int>,
    products: map<int, Product>,
    categories: map<int, Category>,
    branches: seq<Branch>,
    customers: map<int, int>,
    suppliers: map<int, int>,
    paymentTypes: map<string, int>,
    stocks: Stocks,
    sales: seq<Sale>,
    details: seq<Detail>,
    payments: seq<Payment>,
    receipts: seq<Receipt>,
    refunds: seq<Refund>,
    refundItems: seq<RefundItem>,
    orders: seq<Order>,
    orderItems: seq<OrderItem>,
    thresholds: map<int, Threshold>)

  /** A requested product line of a checkout or a return. */
  datatype Line = Line(product: int, quantity: Int64)

  const LineProduct: Line -> int := (l: Line) => l.product
  const LineQuantity: Line -> int := (l: Line) => l.quantity

  /** The quantity that a list of lines asks for of one product, repeated lines added up. */
  function Demand(lines: seq<Line>, product: int): int {
    Sum(lines, OnKey(LineProduct, LineQuantity, product))
  }

  predicate Positive(lines: seq<Line>) {
    forall l <- lines :: l.quantity > 0
  }

  function StockAt(s: Stocks, k: Key): int {
    if k in s then s[k] else 0
  }

  /** stock INTEGER NOT NULL CHECK (stock >= 0). */
  ghost predicate StocksInRange(s: Stocks) {
    forall k <- s :: 0 <= s[k] <= MAX_INT32
  }

  ghost predicate NonNegative(s: Stocks) {
    forall k <- s :: 0 <= s[k]
  }

  /** Stock rows are of existing products in existing branches. */
  ghost predicate StocksLinked(products: map<int, Product>, branches: seq<Branch>, stocks: Stocks) {
    forall k <- stocks :: 0 <= k.branch < |branches| && k.product in products
  }

  /** The foreign keys the services rely on; like the column bounds, the database lets no statement break them. */
  ghost predicate References(t: Tables) {
    && (forall p <- t.products :: t.products[p].org in t.organizations)
    && (forall s <- t.suppliers :: t.suppliers[s] in t.organizations)
    && (forall s <- t.sales :: s.org in t.organizations)
    && (forall r <- t.receipts :: 0 <= r.sale < |t.sales|)
    && StocksLinked(t.products, t.branches, t.stocks)
  }

  predicate HasSale(t: Tables, sale: int) {
    0 <= sale < |t.sales|
  }

  predicate HasBranch(t: Tables, branch: int) {
    0 <= branch < |t.branches|
  }

  predicate Owns(products: map<int, Product>, org: int, product: int) {
    product in products && products[product].org == org
  }

  predicate OwnsProduct(t: Tables, org: int, product: int) {
    Owns(t.products, org, product)
  }

  lemma DemandNonNegative(lines: seq<Line>, product: int)
    requires Positive(lines)
    ensures 0 <= Demand(lines, product)
    ensures forall l <- lines | l.product == product :: l.quantity <= Demand(lines, product)
  {
    SumNonNegative(lines, OnKey(LineProduct, LineQuantity, product));
    forall l <- lines | l.product == product ensures l.quantity <= Demand(lines, product) {
      assert OnKey(LineProduct, LineQuantity, product)(l) == l.quantity;
    }
  }

  lemma DemandPrefix(lines: seq<Line>, product: int, i: nat)
    requires Positive(lines) && i <= |lines|
    ensures 0 <= Demand(lines[..i], product) <= Demand(lines, product)
  {
    PrefixAtMost(lines, OnKey(LineProduct, LineQuantity, product), i);
  }

  lemma DemandStep(lines: seq<Line>, product: int, i: nat)
    requires i < |lines|
    ensures Demand(lines[..i + 1], product)
         == Demand(lines[..i], product) + if lines[i].product == product then lines[i].quantity else 0
  {
    SumStep(lines, OnKey(LineProduct, LineQuantity, product), i);
  }

  /** A product with no line has no demand, and with positive lines only those have none. */
  lemma DemandZero(lines: seq<Line>, product: int)
    requires Positive(lines)
    ensures Demand(lines, product) == 0 <==> forall l <- lines :: l.product != product
  {
    ZeroSum(lines, OnKey(LineProduct, LineQuantity, product));
    forall l <- lines ensures OnKey(LineProduct, LineQuantity, product)(l) == 0 <==> l.product != product {
      assert l.quantity > 0;
    }
  }
}
