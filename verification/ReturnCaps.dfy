/** Returns are not capped by the code: when they stay within what was sold, and what happens when they do not. */
module ReturnCaps {
  import opened Machine
  import opened Outcomes
  import opened Sums
  import opened Schema
  import opened Stock
  import opened Returns
  import opened Ledger
  import opened Lifecycle
  import opened RoundTrip
  import Checkout

  // ---------- what one call adds ----------

  /** The lines that a call returns from a sale: those of a committed return of it. */
  function LinesBack(t: Tables, call: Call, sale: int): seq<Line> {
    if call.TakeBack? && call.sale == sale && Returns.Verdict(t, call.org, call.branch, sale, call.items) == None
    then call.items
    else []
  }

  /** What those lines refund. */
  function RefundOf(t: Tables, call: Call, sale: int): int {
    Sum(LinesBack(t, call, sale), LineRefund(UnitPrices(t, sale)))
  }

  lemma RefundsAfter(t: Tables, call: Call)
    requires StocksInRange(t.stocks) && !call.TakeBack?
    ensures Ledger.Apply(t, call).refunds == t.refunds && Ledger.Apply(t, call).refundItems == t.refundItems
  {
  }

  /** A call adds its returned lines to the goods that came back from the sale. */
  lemma GoodsAfter(t: Tables, call: Call, sale: int, product: int)
    requires Inv(t)
    ensures ReturnedFromSale(Ledger.Apply(t, call), sale, product)
         == ReturnedFromSale(t, sale, product) + Demand(LinesBack(t, call, sale), product)
    ensures Demand(LinesBack(t, call, sale), product) >= 0
  {
    if call.TakeBack? {
      Returns.NoFaultIffCommits(t, call.org, call.branch, call.sale, call.items);
      if Returns.Commits(t, call.org, call.branch, call.sale, call.items) {
        ReturnedAdds(t, call.org, call.branch, call.sale, call.reason, call.items, sale, product);
        DemandNonNegative(call.items, product);
      }
    } else {
      RefundsAfter(t, call);
    }
  }

  /** And their value to the money refunded for it. */
  lemma MoneyAfter(t: Tables, call: Call, sale: int)
    requires StocksInRange(t.stocks)
    ensures RefundedForSale(Ledger.Apply(t, call), sale) == RefundedForSale(t, sale) + RefundOf(t, call, sale)
    ensures RefundOf(t, call, sale) >= 0
  {
    if call.TakeBack? {
      Returns.NoFaultIffCommits(t, call.org, call.branch, call.sale, call.items);
      if Returns.Commits(t, call.org, call.branch, call.sale, call.items) {
        RefundAdds(t, call.org, call.branch, call.sale, call.reason, call.items, sale);
        Returns.RowsFit(t, UnitPrices(t, call.sale), call.branch, call.items);
      }
    } else {
      RefundsAfter(t, call);
    }
  }

  lemma RefundAdds(t: Tables, org: int, branch: int, sale: int, reason: string, lines: seq<Line>, s: int)
    requires StocksInRange(t.stocks) && Returns.Commits(t, org, branch, sale, lines)
    ensures RefundedForSale(Returns.Effect(t, org, branch, sale, reason, lines), s)
         == RefundedForSale(t, s) + if s == sale then Sum(lines, LineRefund(UnitPrices(t, sale))) else 0
  {
    var t' := Returns.Effect(t, org, branch, sale, reason, lines);
    assert t'.refunds[..|t.refunds|] == t.refunds;
  }

  lemma SaleAfter(t: Tables, call: Call, sale: int, product: int)
    requires Inv(t) && HasSale(t, sale)
    ensures var t' := Ledger.Apply(t, call);
      && HasSale(t', sale) && t'.sales[sale] == t.sales[sale]
      && SoldInSale(t', sale, product) == SoldInSale(t, sale, product)
  {
    CallSteps(t, call);
    StepByTable(t, Ledger.Apply(t, call), CallerOrg(call));
    StepExtends(t, t, Ledger.Apply(t, call), CallerOrg(call));
    SoldInPrefix(t, Ledger.Apply(t, call), sale, product);
  }

  // ---------- goods ----------

  /** No more of any product has come back from the sale than it sold. */
  ghost predicate GoodsCapped(t: Tables, sale: int) {
    forall p :: ReturnedFromSale(t, sale, p) <= SoldInSale(t, sale, p)
  }

  /** The guard a return would need: what has come back, plus what it brings back, is within what was sold. */
  predicate WithinSold(t: Tables, call: Call, sale: int) {
    forall l <- LinesBack(t, call, sale) ::
      ReturnedFromSale(t, sale, l.product) + Demand(LinesBack(t, call, sale), l.product)
      <= SoldInSale(t, sale, l.product)
  }

  predicate AlwaysWithinSold(t: Tables, calls: seq<Call>, sale: int)
    requires StocksInRange(t.stocks)
  {
    calls == []
    || (AlwaysWithinSold(t, calls[..|calls| - 1], sale)
        && WithinSold(Run(t, calls[..|calls| - 1]), calls[|calls| - 1], sale))
  }

  lemma CallCapsGoods(t: Tables, call: Call, sale: int)
    requires Inv(t) && HasSale(t, sale)
    ensures GoodsCapped(Ledger.Apply(t, call), sale) <==> GoodsCapped(t, sale) && WithinSold(t, call, sale)
  {
    var t', back := Ledger.Apply(t, call), LinesBack(t, call, sale);
    forall p ensures SoldInSale(t', sale, p) == SoldInSale(t, sale, p) && Demand(back, p) >= 0
      && ReturnedFromSale(t', sale, p) == ReturnedFromSale(t, sale, p) + Demand(back, p) {
      SaleAfter(t, call, sale, p);
      GoodsAfter(t, call, sale, p);
    }
    CapStep(t, t', sale, back);
  }

  lemma CapStep(t: Tables, t': Tables, sale: int, back: seq<Line>)
    requires forall p :: SoldInSale(t', sale, p) == SoldInSale(t, sale, p)
    requires forall p :: Demand(back, p) >= 0
    requires forall p :: ReturnedFromSale(t', sale, p) == ReturnedFromSale(t, sale, p) + Demand(back, p)
    ensures GoodsCapped(t', sale) <==>
      && GoodsCapped(t, sale)
      && forall l <- back ::
           ReturnedFromSale(t, sale, l.product) + Demand(back, l.product) <= SoldInSale(t, sale, l.product)
  {
    forall p | forall l <- back :: l.product != p ensures Demand(back, p) == 0 {
      SumZero(back, OnKey(LineProduct, LineQuantity, p));
    }
  }

  /**
    In any run that starts within the cap, no more comes back from a sale than it sold if and only if every
    committed return of it passed, at its turn, a check the code does not make.
   */
  lemma {:induction false} GoodsCappedIff(t: Tables, calls: seq<Call>, sale: int)
    requires Inv(t) && HasSale(t, sale) && GoodsCapped(t, sale)
    ensures HasSale(Run(t, calls), sale)
    ensures GoodsCapped(Run(t, calls), sale) <==> AlwaysWithinSold(t, calls, sale)
  {
    if calls != [] {
      var before, last := calls[..|calls| - 1], calls[|calls| - 1];
      GoodsCappedIff(t, before, sale);
      RunKeepsInv(t, before);
      SaleAfter(Run(t, before), last, sale, 0);
      CallCapsGoods(Run(t, before), last, sale);
    }
  }

  /** Such a run refunds at most the sale's total. */
  lemma CappedGoodsCapMoney(t: Tables, calls: seq<Call>, sale: int)
    requires Inv(t) && HasSale(t, sale) && GoodsCapped(t, sale) && AlwaysWithinSold(t, calls, sale)
    ensures RefundedForSale(Run(t, calls), sale) <= t.sales[sale].total
  {
    GoodsCappedIff(t, calls, sale);
    RunKeepsInv(t, calls);
    SaleStays(t, calls, sale, 0);
    RefundWithinTotal(Run(t, calls), sale);
  }

  // ---------- money ----------

  predicate WithinTotal(t: Tables, call: Call, sale: int)
    requires HasSale(t, sale)
  {
    LinesBack(t, call, sale) == [] || RefundedForSale(t, sale) + RefundOf(t, call, sale) <= t.sales[sale].total
  }

  predicate AlwaysWithinTotal(t: Tables, calls: seq<Call>, sale: int)
    requires StocksInRange(t.stocks)
  {
    calls == []
    || (var before := calls[..|calls| - 1];
        && AlwaysWithinTotal(t, before, sale)
        && HasSale(Run(t, before), sale)
        && WithinTotal(Run(t, before), calls[|calls| - 1], sale))
  }

  /**
    In any run that starts within it, refunds stay within the sale's total if and only if each return's did at its
    turn.
   */
  lemma {:induction false} MoneyCappedIff(t: Tables, calls: seq<Call>, sale: int)
    requires Inv(t) && HasSale(t, sale) && RefundedForSale(t, sale) <= t.sales[sale].total
    ensures HasSale(Run(t, calls), sale) && Run(t, calls).sales[sale] == t.sales[sale]
    ensures RefundedForSale(Run(t, calls), sale) <= t.sales[sale].total <==> AlwaysWithinTotal(t, calls, sale)
  {
    if calls != [] {
      var before, last := calls[..|calls| - 1], calls[|calls| - 1];
      MoneyCappedIff(t, before, sale);
      RunKeepsInv(t, before);
      SaleAfter(Run(t, before), last, sale, 0);
      MoneyAfter(Run(t, before), last, sale);
    }
  }

  // ---------- a return that goes through twice ----------

  /**
    A committed return does not count against later ones: the same lines commit again while the stock column has
    room.
   */
  lemma ReturnsAreNotCapped(t: Tables, org: int, branch: int, sale: int, reason: string, lines: seq<Line>)
    requires Inv(t) && Returns.Commits(t, org, branch, sale, lines)
    ensures var t' := Returns.Effect(t, org, branch, sale, reason, lines);
      Returns.Commits(t', org, branch, sale, lines) <==>
        forall l <- lines :: StockAt(t.stocks, Key(branch, l.product)) + 2 * Demand(lines, l.product) <= MAX_INT32
  {
    var t' := Returns.Effect(t, org, branch, sale, reason, lines);
    SoldRowsStay(t, t', t.details, sale);
    forall l <- lines ensures StockAt(t'.stocks, Key(branch, l.product))
      == StockAt(t.stocks, Key(branch, l.product)) + Demand(lines, l.product) {
      CreditAllAt(t.stocks, branch, lines, Key(branch, l.product));
    }
  }

  lemma {:induction false} SoldRowsStay(t: Tables, t': Tables, details: seq<Detail>, sale: int)
    requires t'.products.Keys == t.products.Keys
    ensures SoldRows(t', details, sale) == SoldRows(t, details, sale)
  {
    if details != [] {
      SoldRowsStay(t, t', details[..|details| - 1], sale);
    }
  }

  /** With room in the stock column a return commits twice, and refunds its lines twice. */
  lemma RefundsTwice(t: Tables, org: int, branch: int, sale: int, reason: string, lines: seq<Line>)
    requires Inv(t) && Returns.Commits(t, org, branch, sale, lines)
    requires forall l <- lines :: StockAt(t.stocks, Key(branch, l.product)) + 2 * Demand(lines, l.product) <= MAX_INT32
    ensures var t1 := Returns.Effect(t, org, branch, sale, reason, lines);
      && StocksInRange(t1.stocks) && Returns.Commits(t1, org, branch, sale, lines)
      && RefundedForSale(Returns.Effect(t1, org, branch, sale, reason, lines), sale)
         == RefundedForSale(t, sale) + 2 * Sum(lines, LineRefund(UnitPrices(t, sale)))
  {
    var t1 := Returns.Effect(t, org, branch, sale, reason, lines);
    ReturnsAreNotCapped(t, org, branch, sale, reason, lines);
    SoldRowsStay(t, t1, t.details, sale);
    TakeBackKeepsInv(t, org, branch, sale, reason, lines);
    RefundAdds(t, org, branch, sale, reason, lines, sale);
    RefundAdds(t1, org, branch, sale, reason, lines, sale);
  }

  lemma ReturnRuns(t: Tables, org: int, branch: int, sale: int, reason: string, lines: seq<Line>)
    requires StocksInRange(t.stocks) && Returns.Commits(t, org, branch, sale, lines)
    ensures Ledger.Apply(t, TakeBack(org, branch, sale, reason, lines))
      == Returns.Effect(t, org, branch, sale, reason, lines)
  {
    Returns.NoFaultIffCommits(t, org, branch, sale, lines);
  }

  lemma RunTwo(t: Tables, call: Call)
    requires StocksInRange(t.stocks)
    ensures Run(t, [call, call]) == Ledger.Apply(Ledger.Apply(t, call), call)
  {
    assert [call, call][..1] == [call] && [call][..0] == [];
    assert Run(t, [call]) == Ledger.Apply(t, call);
  }

  lemma ReturnedTwice(t: Tables, org: int, branch: int, sale: int, reason: string, lines: seq<Line>)
    requires Inv(t) && Returns.Commits(t, org, branch, sale, lines)
    requires forall l <- lines :: StockAt(t.stocks, Key(branch, l.product)) + 2 * Demand(lines, l.product) <= MAX_INT32
    ensures var back := TakeBack(org, branch, sale, reason, lines);
      var t' := Run(t, [back, back]);
      && t'.sales == t.sales
      && RefundedForSale(t', sale) == RefundedForSale(t, sale) + 2 * Sum(lines, LineRefund(UnitPrices(t, sale)))
  {
    RefundsTwice(t, org, branch, sale, reason, lines);
    ReturnRuns(t, org, branch, sale, reason, lines);
    ReturnRuns(Returns.Effect(t, org, branch, sale, reason, lines), org, branch, sale, reason, lines);
    RunTwo(t, TakeBack(org, branch, sale, reason, lines));
  }
}
