/** Low-stock alerts, which follow the ledger's stock rows and the thresholds set per product. */
module Inventory {
  import opened Schema
  import opened Stock
  import opened Database
  import opened Ledger
  import Returns
  import Checkout
  import PurchaseOrders

  datatype Alert = Alert(product: int, branch: int, stock: int, minStock: int, maxStock: int, enabled: bool)

  /** The WHERE clause: an enabled threshold reached, or no threshold at all and no stock left. */
  predicate Low(t: Tables, k: Key)
    requires k in t.stocks
  {
    if k.product in t.thresholds
    then t.thresholds[k.product].enabled && t.stocks[k] <= t.thresholds[k.product].minStock
    else t.stocks[k] <= 0
  }

  predicate BranchOfOrg(t: Tables, org: int, branch: int) {
    HasBranch(t, branch) && t.branches[branch].org == org
  }

  predicate IsAlerted(t: Tables, org: int, k: Key) {
    k in t.stocks && k.product in t.products && BranchOfOrg(t, org, k.branch) && Low(t, k)
  }

  function AlertFor(t: Tables, k: Key): Alert
    requires k in t.stocks
  {
    if k.product in t.thresholds then
      var h := t.thresholds[k.product];
      Alert(k.product, k.branch, t.stocks[k], h.minStock, h.maxStock, h.enabled)
    else Alert(k.product, k.branch, t.stocks[k], 0, 0, true)
  }

  /** Lists exactly the alerted rows, each once, with the lowest stock first. */
  method FindAlertsForOrg(t: Tables, org: int) returns (alerts: seq<Alert>)
    ensures forall a <- alerts ::
      IsAlerted(t, org, Key(a.branch, a.product)) && a == AlertFor(t, Key(a.branch, a.product))
    ensures forall k | IsAlerted(t, org, k) :: AlertFor(t, k) in alerts
    ensures forall i, j | 0 <= i < j < |alerts| :: alerts[i] != alerts[j] && alerts[i].stock <= alerts[j].stock
  {
    var rest := set k <- t.stocks | IsAlerted(t, org, k);
    ghost var all := rest;
    alerts := [];
    while rest != {}
      invariant rest <= all
      invariant forall a <- alerts ::
        Key(a.branch, a.product) in all - rest && a == AlertFor(t, Key(a.branch, a.product))
      invariant forall k <- all - rest :: AlertFor(t, k) in alerts
      invariant forall i, j | 0 <= i < j < |alerts| :: alerts[i] != alerts[j] && alerts[i].stock <= alerts[j].stock
      invariant forall a <- alerts, k <- rest :: a.stock <= t.stocks[k]
      decreases |rest|
    {
      LowestStock(t, rest);
      var k :| k in rest && forall x <- rest :: t.stocks[k] <= t.stocks[x];
      assert forall i | 0 <= i < |alerts| :: alerts[i] in alerts;
      alerts := alerts + [AlertFor(t, k)];
      rest := rest - {k};
    }
  }

  lemma {:induction false} LowestStock(t: Tables, keys: set<Key>)
    requires keys != {} && keys <= t.stocks.Keys
    ensures exists k :: k in keys && forall x <- keys :: t.stocks[k] <= t.stocks[x]
    decreases |keys|
  {
    var k :| k in keys;
    var rest := keys - {k};
    if rest != {} {
      LowestStock(t, rest);
      var m :| m in rest && forall x <- rest :: t.stocks[m] <= t.stocks[x];
      var best := if t.stocks[k] <= t.stocks[m] then k else m;
      assert forall x <- keys :: t.stocks[best] <= t.stocks[x] by {
        assert forall x <- keys :: x == k || x in rest;
      }
    } else {
      assert keys == {k};
    }
  }

  /** Writes the threshold of an owned product; a product of another organisation is reported as missing. */
  method SetThresholdForOrg(db: Db, org: int, product: int, threshold: Threshold) returns (ok: bool)
    requires db.Valid() && !db.open
    modifies db
    ensures db.Valid() && !db.open
    ensures ok == OwnsProduct(old(db.committed), org, product)
    ensures db.committed == ApplyThreshold(old(db.committed), org, product, threshold)
  {
    var affected := db.UpsertThreshold(org, product, threshold);
    ok := affected != 0;
  }

  // ---------- alerts follow the ledger ----------

  /** A checkout never clears an alert. */
  lemma CheckoutClearsNoAlert(t: Tables, req: Checkout.Request, clock: Checkout.Clock, org: int, k: Key)
    requires StocksInRange(t.stocks) && IsAlerted(t, org, k)
    ensures IsAlerted(Checkout.Apply(t, req, clock), org, k)
  {
    Checkout.NoFaultIffCommits(t, req, clock);
    if Checkout.Commits(t, req, clock) {
      DeductAllAt(t.stocks, req.branch, req.items, k);
    }
  }

  /** A return never raises an alert on a row that exists. */
  lemma ReturnRaisesNoAlert(t: Tables, callerOrg: int, branch: int, sale: int, reason: string, items: seq<Line>,
                            org: int, k: Key)
    requires StocksInRange(t.stocks) && k in t.stocks && !IsAlerted(t, org, k)
    ensures !IsAlerted(Returns.Apply(t, callerOrg, branch, sale, reason, items), org, k)
  {
    Returns.NoFaultIffCommits(t, callerOrg, branch, sale, items);
    if Returns.Commits(t, callerOrg, branch, sale, items) {
      CreditAllAt(t.stocks, branch, items, k);
      DemandNonNegative(items, k.product);
    }
  }

  /** Neither does a receive. */
  lemma ReceiveRaisesNoAlert(t: Tables, callerOrg: int, branch: int, order: int, org: int, k: Key)
    requires k in t.stocks && !IsAlerted(t, org, k)
    ensures !IsAlerted(PurchaseOrders.ApplyReceive(t, callerOrg, branch, order), org, k)
  {
    var lines := PurchaseOrders.OrderLines(t.orderItems, order);
    PurchaseOrders.OrderLinesPositive(t.orderItems, order);
    CreditAllAt(t.stocks, branch, lines, k);
    DemandNonNegative(lines, k.product);
  }

  /** On a row it creates, a return can raise one: the product's threshold may lie above what came back. */
  lemma CreatedRowIsAlertedIff(t: Tables, callerOrg: int, branch: int, sale: int, reason: string, items: seq<Line>,
                               org: int, k: Key)
    requires StocksInRange(t.stocks) && Returns.Commits(t, callerOrg, branch, sale, items)
    requires k !in t.stocks && k.branch == branch && Demand(items, k.product) > 0
    ensures var t' := Returns.Effect(t, callerOrg, branch, sale, reason, items);
      IsAlerted(t', org, k) <==>
        && BranchOfOrg(t, org, branch)
        && k.product in t.thresholds && t.thresholds[k.product].enabled
        && Demand(items, k.product) <= t.thresholds[k.product].minStock
  {
    CreditAllAt(t.stocks, branch, items, k);
    DemandZero(items, k.product);
    assert exists l <- items :: l.product == k.product;
  }

  // ---------- the dashboard ----------

  /** COUNT(DISTINCT ps.product_id) over rows at or below an enabled threshold. */
  function LowStockProducts(t: Tables, org: int): set<int> {
    set k <- t.stocks |
      BranchOfOrg(t, org, k.branch) && k.product in t.thresholds && t.thresholds[k.product].enabled
      && t.stocks[k] <= t.thresholds[k.product].minStock :: k.product
  }

  function LowStockCount(t: Tables, org: int): nat {
    |LowStockProducts(t, org)|
  }

  /** The dashboard counts the distinct products among the listed alerts that have a threshold row. */
  lemma DashboardCountsAlerts(t: Tables, org: int, alerts: seq<Alert>)
    requires StocksLinked(t.products, t.branches, t.stocks)
    requires forall a <- alerts ::
      IsAlerted(t, org, Key(a.branch, a.product)) && a == AlertFor(t, Key(a.branch, a.product))
    requires forall k | IsAlerted(t, org, k) :: AlertFor(t, k) in alerts
    ensures LowStockCount(t, org) == |set a <- alerts | a.product in t.thresholds :: a.product|
  {
    var listed := set a <- alerts | a.product in t.thresholds :: a.product;
    forall p ensures p in LowStockProducts(t, org) <==> p in listed {
      if p in LowStockProducts(t, org) {
        var k :| k in t.stocks && k.product == p && BranchOfOrg(t, org, k.branch) && k.product in t.thresholds
          && t.thresholds[k.product].enabled && t.stocks[k] <= t.thresholds[k.product].minStock;
        assert AlertFor(t, k) in alerts;
      }
      if p in listed {
        var a :| a in alerts && a.product in t.thresholds && a.product == p;
        assert Key(a.branch, a.product) in t.stocks;
      }
    }
    assert LowStockProducts(t, org) == listed;
  }
}
