/** The interleaved layer meets the serial one: both change stock by the same works, and both conserve it. */
module Refinement {
  import opened Outcomes
  import opened Sums
  import opened Schema
  import opened Stock
  import opened Ledger
  import opened Conservation
  import Interleaving
  import Returns
  import Checkout
  import PurchaseOrders

  /** The stock work a call amounts to in a given state; none for a call that fails or does not move stock. */
  function WorkOf(t: Tables, call: Call): seq<Interleaving.Work> {
    match call
    case Sell(req, clock) =>
      if Checkout.Verdict(t, req, clock) == None then [Interleaving.Cart(req.branch, req.items)] else []
    case TakeBack(org, branch, sale, _, items) =>
      if Returns.Verdict(t, org, branch, sale, items) == None then [Interleaving.Inflow(branch, items, None)] else []
    case ReceiveOrder(org, branch, order) =>
      if PurchaseOrders.ReceiveVerdict(t, org, branch, order) == None
      then [Interleaving.Inflow(branch, PurchaseOrders.OrderLines(t.orderItems, order), Some(order))]
      else []
    case _ => []
  }

  function WorksOf(t: Tables, calls: seq<Call>): seq<Interleaving.Work>
    requires StocksInRange(t.stocks)
  {
    if calls == [] then []
    else
      var before := calls[..|calls| - 1];
      WorksOf(t, before) + WorkOf(Run(t, before), calls[|calls| - 1])
  }

  lemma CallIsWork(t: Tables, call: Call)
    requires StocksInRange(t.stocks)
    ensures Apply(t, call).stocks == Interleaving.Replay(t.stocks, WorkOf(t, call))
    ensures forall w <- WorkOf(t, call) | w.Cart? :: EachLineAvailable(t.stocks, w.branch, w.lines)
  {
    ReplayOne(t.stocks);
    match call
    case Sell(req, clock) => Checkout.NoFaultIffCommits(t, req, clock);
    case TakeBack(org, branch, sale, _, items) => Returns.NoFaultIffCommits(t, org, branch, sale, items);
    case CreateOrder(org, branch, supplier, lines) => PurchaseOrders.CreatedIffCreates(t, org, branch, supplier, lines);
    case ReceiveOrder(_, _, _) =>
    case EditProduct(_, _, _) =>
    case SetThreshold(_, _, _) =>
  }

  lemma ReplayOne(s: Stocks)
    ensures Interleaving.Replay(s, []) == s
    ensures forall w :: Interleaving.Replay(s, [w]) == Interleaving.Alone(s, w)
  {
    forall w: Interleaving.Work ensures Interleaving.Replay(s, [w]) == Interleaving.Alone(s, w) {
      assert [w][..0] == [];
    }
  }

  /** One more call appends its work. */
  lemma CallReplays(s: Stocks, t: Tables, call: Call, works: seq<Interleaving.Work>)
    requires StocksInRange(t.stocks)
    requires t.stocks == Interleaving.Replay(s, works) && Interleaving.ChecksPass(s, works)
    ensures Apply(t, call).stocks == Interleaving.Replay(s, works + WorkOf(t, call))
    ensures Interleaving.ChecksPass(s, works + WorkOf(t, call))
  {
    var more := WorkOf(t, call);
    CallIsWork(t, call);
    ReplayAppend(s, works, more);
    ChecksAppend(s, works, more);
  }

  /** The stock a serial run of calls leaves is the replay of its works, the form interleaved schedules reduce to. */
  lemma {:induction false} RunIsReplay(t: Tables, calls: seq<Call>)
    requires StocksInRange(t.stocks)
    ensures Run(t, calls).stocks == Interleaving.Replay(t.stocks, WorksOf(t, calls))
    ensures Interleaving.ChecksPass(t.stocks, WorksOf(t, calls))
  {
    if calls != [] {
      var before := calls[..|calls| - 1];
      RunIsReplay(t, before);
      CallReplays(t.stocks, Run(t, before), calls[|calls| - 1], WorksOf(t, before));
    }
  }

  lemma {:induction false} ReplayAppend(s: Stocks, a: seq<Interleaving.Work>, b: seq<Interleaving.Work>)
    ensures Interleaving.Replay(s, a + b) == Interleaving.Replay(Interleaving.Replay(s, a), b)
  {
    if b == [] {
      assert a + b == a;
    } else {
      assert (a + b)[..|a + b| - 1] == a + b[..|b| - 1];
      ReplayAppend(s, a, b[..|b| - 1]);
    }
  }

  lemma ChecksAppend(s: Stocks, a: seq<Interleaving.Work>, b: seq<Interleaving.Work>)
    requires Interleaving.ChecksPass(s, a) && |b| <= 1
    requires forall w <- b | w.Cart? :: EachLineAvailable(Interleaving.Replay(s, a), w.branch, w.lines)
    ensures Interleaving.ChecksPass(s, a + b)
  {
    forall i | 0 <= i < |a + b| && (a + b)[i].Cart?
      ensures EachLineAvailable(Interleaving.Replay(s, (a + b)[..i]), (a + b)[i].branch, (a + b)[i].lines) {
      if i < |a| {
        assert (a + b)[..i] == a[..i];
      } else {
        assert (a + b)[..i] == a && (a + b)[i] in b;
      }
    }
  }

  // ---------- conservation over schedules ----------

  predicate Within(branches: nat, branch: int) {
    0 <= branch < branches
  }

  /** What a cart asks for of a product, in the branches counted. */
  function Asked(branches: nat, product: int): Interleaving.Work -> int {
    (w: Interleaving.Work) => if w.Cart? && Within(branches, w.branch) then Demand(w.lines, product) else 0
  }

  /** What a return or receive brings of it. */
  function Brought(branches: nat, product: int): Interleaving.Work -> int {
    (w: Interleaving.Work) => if w.Inflow? && Within(branches, w.branch) then Demand(w.lines, product) else 0
  }

  /** The cart finds enough of the product in its branch. */
  predicate Finds(s: Stocks, branches: nat, product: int, w: Interleaving.Work) {
    w.Cart? && Within(branches, w.branch) ==> Demand(w.lines, product) <= StockAt(s, Key(w.branch, product))
  }

  lemma WorkShelves(s: Stocks, branches: nat, product: int, w: Interleaving.Work)
    requires NonNegative(s) && Positive(w.lines)
    ensures NonNegative(Interleaving.Alone(s, w))
    ensures var after := OnShelves(Interleaving.Alone(s, w), branches, product);
      var exact := OnShelves(s, branches, product) + Brought(branches, product)(w) - Asked(branches, product)(w);
      after >= exact && (after == exact <==> Finds(s, branches, product, w))
  {
    if w.Cart? {
      CartShelves(s, branches, product, w.branch, w.lines);
    } else {
      InflowShelves(s, branches, product, w.branch, w.lines);
    }
  }

  lemma CartShelves(s: Stocks, branches: nat, product: int, branch: int, lines: seq<Line>)
    requires NonNegative(s) && Positive(lines)
    ensures NonNegative(DeductAll(s, branch, lines))
    ensures !Within(branches, branch) ==>
      OnShelves(DeductAll(s, branch, lines), branches, product) == OnShelves(s, branches, product)
    ensures Within(branches, branch) ==>
      var after := OnShelves(DeductAll(s, branch, lines), branches, product);
      && after >= OnShelves(s, branches, product) - Demand(lines, product)
      && (after == OnShelves(s, branches, product) - Demand(lines, product)
          <==> Demand(lines, product) <= StockAt(s, Key(branch, product)))
  {
    var s' := DeductAll(s, branch, lines);
    DeductAllAt(s, branch, lines, Key(branch, product));
    forall k <- s' ensures s'[k] >= 0 {
      DeductAllAt(s, branch, lines, k);
    }
    if Within(branches, branch) {
      DeductedShelves(s, branches, branch, lines, product);
    } else {
      forall b | b != branch ensures StockAt(s', Key(b, product)) == StockAt(s, Key(b, product)) {
        DeductAllAt(s, branch, lines, Key(b, product));
      }
      OtherBranches(s, s', branches, branch, product);
    }
  }

  lemma InflowShelves(s: Stocks, branches: nat, product: int, branch: int, lines: seq<Line>)
    requires NonNegative(s) && Positive(lines)
    ensures NonNegative(CreditAll(s, branch, lines))
    ensures OnShelves(CreditAll(s, branch, lines), branches, product)
         == OnShelves(s, branches, product) + if Within(branches, branch) then Demand(lines, product) else 0
  {
    var s' := CreditAll(s, branch, lines);
    forall k <- s' ensures s'[k] >= 0 {
      CreditAllAt(s, branch, lines, k);
      DemandNonNegative(lines, k.product);
    }
    forall b | b != branch ensures StockAt(s', Key(b, product)) == StockAt(s, Key(b, product)) {
      CreditAllAt(s, branch, lines, Key(b, product));
    }
    OtherBranches(s, s', branches, branch, product);
    CreditAllAt(s, branch, lines, Key(branch, product));
  }

  predicate FindsAt(s: Stocks, branches: nat, product: int, log: seq<Interleaving.Work>, i: nat)
    requires i < |log|
  {
    Finds(Interleaving.Replay(s, log[..i]), branches, product, log[i])
  }

  /** Every cart of the log, at its turn, finds enough of the product. */
  ghost predicate AlwaysFinds(s: Stocks, branches: nat, product: int, log: seq<Interleaving.Work>) {
    forall i | 0 <= i < |log| :: FindsAt(s, branches, product, log, i)
  }

  lemma FindsStep(s: Stocks, branches: nat, product: int, log: seq<Interleaving.Work>, n: nat)
    requires n == |log| - 1
    ensures AlwaysFinds(s, branches, product, log)
       <==> AlwaysFinds(s, branches, product, log[..n]) && FindsAt(s, branches, product, log, n)
  {
    forall i | 0 <= i < n ensures FindsAt(s, branches, product, log[..n], i) == FindsAt(s, branches, product, log, i) {
      assert log[..n][..i] == log[..i];
    }
  }

  lemma {:induction false} ReplayNonNegative(s: Stocks, log: seq<Interleaving.Work>)
    requires NonNegative(s) && forall w <- log :: Positive(w.lines)
    ensures NonNegative(Interleaving.Replay(s, log))
  {
    if log != [] {
      var n := |log| - 1;
      assert log == log[..n] + [log[n]];
      ReplayNonNegative(s, log[..n]);
      WorkShelves(Interleaving.Replay(s, log[..n]), 0, 0, log[n]);
    }
  }

  lemma {:induction false} ReplayShelves(s: Stocks, branches: nat, product: int, log: seq<Interleaving.Work>)
    requires NonNegative(s) && forall w <- log :: Positive(w.lines)
    ensures var after := OnShelves(Interleaving.Replay(s, log), branches, product);
      var exact := OnShelves(s, branches, product)
                   + Sum(log, Brought(branches, product)) - Sum(log, Asked(branches, product));
      after >= exact && (after == exact <==> AlwaysFinds(s, branches, product, log))
  {
    if log != [] {
      var n := |log| - 1;
      assert log == log[..n] + [log[n]];
      ReplayShelves(s, branches, product, log[..n]);
      ReplayNonNegative(s, log[..n]);
      FindsStep(s, branches, product, log, n);
      WorkShelves(Interleaving.Replay(s, log[..n]), branches, product, log[n]);
    }
  }

  /**
    Conservation under concurrency: after any schedule, a product's stock summed over the branches is at least the
    initial stock plus what committed returns and receives brought less what committed carts asked for, and it is
    exactly that if and only if every committed cart found its whole sum in stock at its turn.
   */
  lemma SchedulesConserve(stocks: Stocks, schedule: seq<Interleaving.Action>, branches: nat, product: int)
    requires StocksInRange(stocks) && Interleaving.Exec(Interleaving.Initial(stocks), schedule).Some?
    ensures var s := Interleaving.Exec(Interleaving.Initial(stocks), schedule).value;
      var exact := OnShelves(stocks, branches, product)
                   + Sum(s.log, Brought(branches, product)) - Sum(s.log, Asked(branches, product));
      && OnShelves(s.committed, branches, product) >= exact
      && (OnShelves(s.committed, branches, product) == exact <==> AlwaysFinds(stocks, branches, product, s.log))
  {
    Interleaving.SchedulesAreSerial(stocks, schedule);
    ReplayShelves(stocks, branches, product, Interleaving.Exec(Interleaving.Initial(stocks), schedule).value.log);
  }

  /** With carts of distinct products it is exact in every schedule. */
  lemma DistinctSchedulesConserve(stocks: Stocks, schedule: seq<Interleaving.Action>, branches: nat, product: int)
    requires StocksInRange(stocks) && Interleaving.Exec(Interleaving.Initial(stocks), schedule).Some?
    requires var s := Interleaving.Exec(Interleaving.Initial(stocks), schedule).value;
      forall w <- s.log | w.Cart? :: DistinctProducts(w.lines)
    ensures var s := Interleaving.Exec(Interleaving.Initial(stocks), schedule).value;
      OnShelves(s.committed, branches, product)
      == OnShelves(stocks, branches, product) + Sum(s.log, Brought(branches, product))
        - Sum(s.log, Asked(branches, product))
  {
    var log := Interleaving.Exec(Interleaving.Initial(stocks), schedule).value.log;
    Interleaving.SchedulesAreSerial(stocks, schedule);
    SchedulesConserve(stocks, schedule, branches, product);
    forall i | 0 <= i < |log| ensures Finds(Interleaving.Replay(stocks, log[..i]), branches, product, log[i]) {
      DistinctCartFinds(stocks, branches, product, log, i);
    }
  }

  lemma DistinctCartFinds(stocks: Stocks, branches: nat, product: int, log: seq<Interleaving.Work>, i: nat)
    requires NonNegative(stocks) && Interleaving.ChecksPass(stocks, log) && i < |log|
    requires (forall w <- log :: Positive(w.lines)) && (log[i].Cart? ==> DistinctProducts(log[i].lines))
    ensures Finds(Interleaving.Replay(stocks, log[..i]), branches, product, log[i])
  {
    assert forall w <- log[..i] :: w in log;
    ReplayNonNegative(stocks, log[..i]);
    if log[i].Cart? {
      assert log[i] in log;
      DistinctLinesCovered(Interleaving.Replay(stocks, log[..i]), log[i].branch, log[i].lines);
    }
  }
}
