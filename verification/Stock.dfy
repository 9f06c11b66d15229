/**
  What the two stock statements, the guarded UPDATE of a checkout and the upsert of a return or a receive, do to
  the rows.
 */
module Stock {
  import opened Machine
  import opened Sums
  import opened Schema

  /** UPDATE ... SET stock = stock - q WHERE key AND stock >= q: silently affects no row when the guard fails. */
  function Deduct(s: Stocks, k: Key, q: int): Stocks {
    if k in s && s[k] >= q then s[k := s[k] - q] else s
  }

  /** The guarded updates of one checkout, one line after the other. */
  function DeductAll(s: Stocks, branch: int, lines: seq<Line>): Stocks {
    if lines == [] then s
    else
      var n := |lines| - 1;
      Deduct(DeductAll(s, branch, lines[..n]), Key(branch, lines[n].product), lines[n].quantity)
  }

  /** The upsert: adds to the row, creating it when it is missing. */
  function Credit(s: Stocks, k: Key, q: int): Stocks {
    s[k := StockAt(s, k) + q]
  }

  /** The upserts of one return or receive, one line after the other. */
  function CreditAll(s: Stocks, branch: int, lines: seq<Line>): Stocks {
    if lines == [] then s
    else
      var n := |lines| - 1;
      Credit(CreditAll(s, branch, lines[..n]), Key(branch, lines[n].product), lines[n].quantity)
  }

  function Credited(branch: int, lines: seq<Line>): set<Key> {
    set l <- lines :: Key(branch, l.product)
  }

  /** Every product of the cart is in stock for the sum of its lines, which the service does not check. */
  ghost predicate Covered(s: Stocks, branch: int, lines: seq<Line>) {
    forall p :: Demand(lines, p) <= StockAt(s, Key(branch, p))
  }

  /** The check the service does make: each line on its own. */
  predicate EachLineAvailable(s: Stocks, branch: int, lines: seq<Line>) {
    forall l <- lines :: Key(branch, l.product) in s && l.quantity <= s[Key(branch, l.product)]
  }

  ghost predicate DistinctProducts(lines: seq<Line>) {
    forall i, j | 0 <= i < j < |lines| :: lines[i].product != lines[j].product
  }

  /**
    Guarded decrements never take more than was asked for nor drive a row below zero, and take exactly the
    requested sum if and only if the row held at least that sum to begin with.
   */
  lemma {:induction false} DeductAllAt(s: Stocks, branch: int, lines: seq<Line>, k: Key)
    requires Positive(lines)
    ensures DeductAll(s, branch, lines).Keys == s.Keys
    ensures k.branch != branch ==> StockAt(DeductAll(s, branch, lines), k) == StockAt(s, k)
    ensures StockAt(s, k) >= 0 ==> StockAt(DeductAll(s, branch, lines), k) >= 0
    ensures k.branch == branch ==>
      && StockAt(s, k) - Demand(lines, k.product) <= StockAt(DeductAll(s, branch, lines), k) <= StockAt(s, k)
      && (StockAt(s, k) >= 0 ==>
            (StockAt(DeductAll(s, branch, lines), k) == StockAt(s, k) - Demand(lines, k.product)
             <==> Demand(lines, k.product) <= StockAt(s, k)))
  {
    if lines != [] {
      var n := |lines| - 1;
      DeductAllAt(s, branch, lines[..n], k);
      assert lines[..n + 1] == lines;
      DemandStep(lines, k.product, n);
      DemandNonNegative(lines[..n], k.product);
    }
  }

  lemma DeductAllInRange(s: Stocks, branch: int, lines: seq<Line>)
    requires Positive(lines) && StocksInRange(s)
    ensures StocksInRange(DeductAll(s, branch, lines))
    ensures DeductAll(s, branch, lines).Keys == s.Keys
  {
    DeductAllAt(s, branch, lines, Key(branch, 0));
    forall k <- DeductAll(s, branch, lines) ensures 0 <= DeductAll(s, branch, lines)[k] <= MAX_INT32 {
      DeductAllAt(s, branch, lines, k);
    }
  }

  /** On a covered cart the line order is irrelevant: any cart with the same per-product sums leaves the same rows. */
  lemma DeductAllOrderFree(s: Stocks, branch: int, a: seq<Line>, b: seq<Line>)
    requires Positive(a) && Positive(b) && StocksInRange(s) && Covered(s, branch, a)
    requires forall p :: Demand(a, p) == Demand(b, p)
    ensures DeductAll(s, branch, a) == DeductAll(s, branch, b)
  {
    DeductAllAt(s, branch, a, Key(branch, 0));
    DeductAllAt(s, branch, b, Key(branch, 0));
    forall k <- s ensures DeductAll(s, branch, a)[k] == DeductAll(s, branch, b)[k] {
      DeductAllAt(s, branch, a, k);
      DeductAllAt(s, branch, b, k);
    }
  }

  lemma DemandPermuted(a: seq<Line>, b: seq<Line>, product: int)
    requires multiset(a) == multiset(b)
    ensures Demand(a, product) == Demand(b, product)
  {
    SumPermutation(a, b, OnKey(LineProduct, LineQuantity, product));
  }

  /** With distinct products the service's line-by-line check does establish coverage. */
  lemma DistinctLinesCovered(s: Stocks, branch: int, lines: seq<Line>)
    requires Positive(lines) && NonNegative(s)
    requires DistinctProducts(lines) && EachLineAvailable(s, branch, lines)
    ensures Covered(s, branch, lines)
  {
    forall p ensures Demand(lines, p) <= StockAt(s, Key(branch, p)) {
      DistinctDemand(lines, p);
      DemandZero(lines, p);
    }
  }

  lemma {:induction false} DistinctDemand(lines: seq<Line>, product: int)
    requires Positive(lines) && DistinctProducts(lines)
    ensures Demand(lines, product) == 0 || exists l <- lines ::
      l.product == product && l.quantity == Demand(lines, product)
  {
    if lines != [] {
      var n := |lines| - 1;
      assert lines[..n + 1] == lines;
      DistinctDemand(lines[..n], product);
      DemandStep(lines, product, n);
      if lines[n].product == product {
        DemandZero(lines[..n], product);
        assert lines[n] in lines;
      }
    }
  }

  /**
    The service's check does not cover repeated lines: two lines of 3 against a stock of 5 pass it, and lose a
    decrement.
   */
  lemma RepeatedLinesLoseADecrement()
    ensures var s := map[Key(0, 7) := 5]; var cart := [Line(7, 3), Line(7, 3)];
      && EachLineAvailable(s, 0, cart) && !Covered(s, 0, cart) && Demand(cart, 7) == 6
      && DeductAll(s, 0, cart) == map[Key(0, 7) := 2]
  {
    var s := map[Key(0, 7) := 5];
    var cart := [Line(7, 3), Line(7, 3)];
    assert cart[..1] == [Line(7, 3)] && [Line(7, 3)][..0] == [];
    assert DeductAll(s, 0, cart[..1]) == map[Key(0, 7) := 2];
    assert Demand(cart, 7) == 6;
  }

  /** Upserts add the per-product sums of their lines, create exactly the missing rows, and touch nothing else. */
  lemma {:induction false} CreditAllAt(s: Stocks, branch: int, lines: seq<Line>, k: Key)
    ensures StockAt(CreditAll(s, branch, lines), k)
         == StockAt(s, k) + if k.branch == branch then Demand(lines, k.product) else 0
    ensures CreditAll(s, branch, lines).Keys == s.Keys + Credited(branch, lines)
  {
    if lines != [] {
      var n := |lines| - 1;
      CreditAllAt(s, branch, lines[..n], k);
      assert lines[..n + 1] == lines;
      DemandStep(lines, k.product, n);
      CreditedStep(branch, lines, n);
    }
  }

  /** What one pass of a crediting loop finds and leaves. */
  lemma CreditStep(s: Stocks, branch: int, lines: seq<Line>, i: nat)
    requires i < |lines|
    ensures var k := Key(branch, lines[i].product); var s' := CreditAll(s, branch, lines[..i]);
      && StockAt(s', k) == StockAt(s, k) + Demand(lines[..i], lines[i].product)
      && CreditAll(s, branch, lines[..i + 1]) == Credit(s', k, lines[i].quantity)
  {
    CreditAllAt(s, branch, lines[..i], Key(branch, lines[i].product));
    assert lines[..i + 1][..i] == lines[..i];
  }

  lemma CreditedStep(branch: int, lines: seq<Line>, i: nat)
    requires i < |lines|
    ensures Credited(branch, lines[..i + 1]) == Credited(branch, lines[..i]) + {Key(branch, lines[i].product)}
  {
    assert lines[..i + 1] == lines[..i] + [lines[i]];
    assert lines[i] in lines[..i + 1];
  }

  /** A covered deduction followed by a credit of the same sums restores every row; an uncovered one does not. */
  lemma CreditUndoesDeduct(s: Stocks, branch: int, cart: seq<Line>, back: seq<Line>)
    requires Positive(cart) && Positive(back) && StocksInRange(s)
    requires EachLineAvailable(s, branch, cart)
    requires forall p :: Demand(back, p) == Demand(cart, p)
    ensures CreditAll(DeductAll(s, branch, cart), branch, back) == s <==> Covered(s, branch, cart)
  {
    var d := DeductAll(s, branch, cart);
    var c := CreditAll(d, branch, back);
    DeductAllAt(s, branch, cart, Key(branch, 0));
    forall l <- back ensures Key(branch, l.product) in s {
      DemandZero(back, l.product);
      DemandZero(cart, l.product);
    }
    CreditAllAt(d, branch, back, Key(branch, 0));
    assert c.Keys == s.Keys;
    forall k <- s ensures c[k] == s[k] <==> (k.branch != branch || Demand(cart, k.product) <= s[k]) {
      DeductAllAt(s, branch, cart, k);
      CreditAllAt(d, branch, back, k);
    }
    if c == s {
      forall p ensures Demand(cart, p) <= StockAt(s, Key(branch, p)) {
        if Key(branch, p) !in s {
          DemandZero(cart, p);
        }
      }
    } else {
      var k :| k in s && c[k] != s[k];
      assert Demand(cart, k.product) > StockAt(s, Key(branch, k.product));
    }
  }

  /** Crediting another branch restores nothing. */
  lemma CreditElsewhere(s: Stocks, branch: int, other: int, cart: seq<Line>, back: seq<Line>)
    requires Positive(cart) && cart != [] && branch != other
    requires forall p :: Demand(back, p) == Demand(cart, p)
    ensures CreditAll(DeductAll(s, branch, cart), other, back) != s
  {
    var p := cart[0].product;
    assert cart[0] in cart;
    DemandZero(cart, p);
    DemandNonNegative(cart, p);
    DeductAllAt(s, branch, cart, Key(other, p));
    CreditAllAt(DeductAll(s, branch, cart), other, back, Key(other, p));
  }
}
