/** A shop with one product, in which what the code does not guarantee goes wrong through its own calls. */
module Witnesses {
  import opened Machine
  import opened Outcomes
  import opened Sums
  import opened Schema
  import opened Stock
  import opened Receipts
  import opened Database
  import opened Returns
  import opened Ledger
  import opened RoundTrip
  import opened ReturnCaps
  import Conservation
  import Checkout

  const Tea := Product(1, "tea", 10, None)
  const Main := Branch(1, "main")
  const Noon := Checkout.Clock(2026_05_22, 2026_05_22)
  const OneTea := TeaFor([Line(7, 1)])

  function TeaFor(items: seq<Line>): Checkout.Request {
    Checkout.Request(items, None, 1, 0, [])
  }

  /** A new shop that has `stock` units of product 7, priced 10. */
  function SmallShop(stock: Amount): Tables {
    Tables({1}, map[7 := Tea], map[], [Main], map[], map[], map[], map[Key(0, 7) := stock],
           [], [], [], [], [], [], [], [], map[])
  }

  predicate SellsTea(t: Tables, stock: Amount) {
    t.products == map[7 := Tea] && t.branches == [Main] && t.stocks == map[Key(0, 7) := stock]
  }

  /** Any cart of the product goes through whose lines are each in stock. */
  lemma TeaSellable(t: Tables, stock: Amount, items: seq<Line>)
    requires SellsTea(t, stock) && 1 <= |items| <= Checkout.MAX_ITEMS && 10 * Demand(items, 7) <= MAX_INT32
    requires forall l <- items :: l.product == 7 && 0 < l.quantity <= stock
    ensures Checkout.Sellable(t, TeaFor(items))
    ensures Checkout.CartTotal(t, TeaFor(items)) == 10 * Demand(items, 7)
  {
    var prices := Prices(t, 1, ProductIds(items));
    PricesAre(t, 1, ProductIds(items));
    assert ProductIds(items)[0] == 7;
    SumScale(items, 10, OnKey(LineProduct, LineQuantity, 7), Checkout.LineValue(prices));
  }

  lemma OneIsOne()
    ensures Demand(OneTea.items, 7) == 1
  {
    assert [Line(7, 1)][..0] == [];
  }

  /** An opening ledger in which a covered checkout commits. */
  lemma TeaSells()
    ensures var t := SmallShop(1);
      && Opening(t) && Checkout.Commits(t, OneTea, Noon)
      && Covered(t.stocks, 0, OneTea.items) && Checkout.CartTotal(t, OneTea) == 10
  {
    OneIsOne();
    TeaSellable(SmallShop(1), 1, OneTea.items);
    DistinctLinesCovered(SmallShop(1).stocks, 0, OneTea.items);
  }

  // ---------- a cart that repeats its product ----------

  const Twice := [Line(7, 3), Line(7, 3)]

  lemma TwiceSells()
    ensures Opening(SmallShop(5)) && Checkout.Commits(SmallShop(5), TeaFor(Twice), Noon)
  {
    RepeatedLinesLoseADecrement();
    TeaSellable(SmallShop(5), 5, Twice);
  }

  lemma SixSold()
    requires Checkout.Commits(SmallShop(5), TeaFor(Twice), Noon)
    ensures Conservation.Sold(Checkout.Effect(SmallShop(5), TeaFor(Twice), Noon), 7) == 6
  {
    RepeatedLinesLoseADecrement();
    Conservation.SellSold(SmallShop(5), TeaFor(Twice), Noon, 7);
  }

  /** Two lines of 3 against a stock of 5: the checkout commits, records 6 units sold and takes 3. */
  lemma OversoldCart()
    ensures Opening(SmallShop(5)) && Conservation.Oversells(SmallShop(5), Sell(TeaFor(Twice), Noon), 7)
    ensures var t' := Checkout.Effect(SmallShop(5), TeaFor(Twice), Noon);
      t'.stocks == map[Key(0, 7) := 2] && Conservation.Sold(t', 7) == 6
  {
    TwiceSells();
    RepeatedLinesLoseADecrement();
    SixSold();
  }

  // ---------- two clocks ----------

  /** The first sale after midnight on the service's clock but not on the database's. */
  lemma EarlySale(yesterday: Day, today: Day)
    ensures var t, early := SmallShop(2), Checkout.Clock(yesterday, today);
      && Opening(t) && Checkout.Commits(t, OneTea, early)
      && var t1 := Checkout.Effect(t, OneTea, early);
      && SellsTea(t1, 1)
      && t1.receipts == [Receipt(0, ReceiptNumber(today, CountOn([], yesterday) + 1), yesterday)]
  {
    OneIsOne();
    TeaSellable(SmallShop(2), 2, OneTea.items);
    OneLess(2);
  }

  lemma LateSaleRefused(t: Tables, yesterday: Day, today: Day)
    requires yesterday != today && SellsTea(t, 1)
    requires t.receipts == [Receipt(0, ReceiptNumber(today, CountOn([], yesterday) + 1), yesterday)]
    ensures Checkout.Verdict(t, OneTea, Checkout.Clock(today, today)) == Some(Checkout.ReceiptNumberTaken)
  {
    OneIsOne();
    TeaSellable(t, 1, OneTea.items);
    TwoClocksCanCollide(yesterday, today);
    Checkout.NumberRefusedIff(t, OneTea, Checkout.Clock(today, today));
  }

  /** Once the database's clock has caught up, the next sale is refused for its number. */
  lemma RefusedAfterMidnight(yesterday: Day, today: Day)
    requires yesterday != today
    ensures var t, early, late := SmallShop(2), Checkout.Clock(yesterday, today), Checkout.Clock(today, today);
      && Opening(t) && Checkout.Commits(t, OneTea, early)
      && Checkout.Verdict(Checkout.Effect(t, OneTea, early), OneTea, late) == Some(Checkout.ReceiptNumberTaken)
  {
    EarlySale(yesterday, today);
    LateSaleRefused(Checkout.Effect(SmallShop(2), OneTea, Checkout.Clock(yesterday, today)), yesterday, today);
  }

  lemma OneLess(stock: Amount)
    requires stock > 0
    ensures DeductAll(map[Key(0, 7) := stock], 0, [Line(7, 1)]) == map[Key(0, 7) := stock - 1]
  {
    assert [Line(7, 1)][..0] == [];
  }

  // ---------- a return that goes through twice ----------

  /** The shop after the sale, in the terms its return depends on. */
  ghost predicate TeaSold(t: Tables) {
    && Inv(t) && Returns.Commits(t, 1, 0, 0, OneTea.items)
    && Sum(OneTea.items, LineRefund(UnitPrices(t, 0))) == 10
    && StockAt(t.stocks, Key(0, 7)) == 0 && t.refunds == []
    && |t.sales| == 1 && t.sales[0].total == 10
  }

  lemma TeaRefunds()
    ensures Checkout.Commits(SmallShop(1), OneTea, Noon) && StocksInRange(SmallShop(1).stocks)
    ensures var t := Checkout.Effect(SmallShop(1), OneTea, Noon);
      Returns.Commits(t, 1, 0, 0, OneTea.items) && Sum(OneTea.items, LineRefund(UnitPrices(t, 0))) == 10
  {
    TeaSells();
    FullReturnNow(SmallShop(1), OneTea, Noon, "broken", OneTea.items);
  }

  lemma TeaLeavesShelf()
    requires Checkout.Commits(SmallShop(1), OneTea, Noon)
    ensures var t := Checkout.Effect(SmallShop(1), OneTea, Noon);
      StockAt(t.stocks, Key(0, 7)) == 0 && t.refunds == [] && |t.sales| == 1 && t.sales[0].total == 10
  {
    TeaSells();
    OneLess(1);
  }

  lemma TeaComesBack()
    ensures Checkout.Commits(SmallShop(1), OneTea, Noon) && StocksInRange(SmallShop(1).stocks)
    ensures TeaSold(Checkout.Effect(SmallShop(1), OneTea, Noon))
  {
    TeaRefunds();
    TeaLeavesShelf();
    TeaSells();
    SellKeepsInv(SmallShop(1), OneTea, Noon);
  }

  lemma TeaBackTwice(t: Tables)
    requires TeaSold(t)
    ensures var back := TakeBack(1, 0, 0, "broken", OneTea.items); var t' := Run(t, [back, back]);
      t'.sales == t.sales && RefundedForSale(t', 0) == 20
  {
    OneIsOne();
    assert forall l <- OneTea.items :: l == Line(7, 1);
    ReturnedTwice(t, 1, 0, 0, "broken", OneTea.items);
  }

  /** The one unit sold for 10 can be returned twice, refunding 20. */
  lemma OverRefund()
    ensures Opening(SmallShop(1)) && Checkout.Commits(SmallShop(1), OneTea, Noon)
    ensures var sold, back := Checkout.Effect(SmallShop(1), OneTea, Noon), TakeBack(1, 0, 0, "broken", OneTea.items);
      && StocksInRange(sold.stocks)
      && var t' := Run(sold, [back, back]);
      && |t'.sales| == 1 && t'.sales[0].total == 10 && RefundedForSale(t', 0) == 20
  {
    TeaSells();
    TeaComesBack();
    TeaBackTwice(Checkout.Effect(SmallShop(1), OneTea, Noon));
  }
}
