/** The integers of the program and of its database columns. */
module Machine {

  const MAX_INT32 := 0x7FFF_FFFF
  const TWO_63 := 0x8000_0000_0000_0000
  const TWO_64 := 0x1_0000_0000_0000_0000

  /** Go's `int` on a 64-bit platform. */
  type Int64 = x: int | -TWO_63 <= x < TWO_63

  /** A column declared INTEGER NOT NULL CHECK (c >= 0). */
  type Amount = x: int | 0 <= x <= MAX_INT32

  /** A column declared INTEGER NOT NULL CHECK (c > 0). */
  type Quantity = x: int | 1 <= x <= MAX_INT32 witness 1

  /** A plain INTEGER column. */
  type Int32 = x: int | -MAX_INT32 - 1 <= x <= MAX_INT32

  /** Two's complement wrap-around, which Go applies to `+`, `-` and `*`. */
  function Wrap64(x: int): (r: Int64)
    ensures -TWO_63 <= x < TWO_63 ==> r == x
    ensures (x - r) % TWO_64 == 0
  {
    var r := (x + TWO_63) % TWO_64 - TWO_63;
    assert x - r == TWO_64 * ((x + TWO_63) / TWO_64);
    r
  }

  /** Two values that fit 32-bit columns never overflow when multiplied as 64-bit integers. */
  lemma ProductOfColumnsFits(a: int, b: int)
    requires 0 <= a <= MAX_INT32 && 0 <= b <= MAX_INT32
    ensures 0 <= a * b <= MAX_INT32 * MAX_INT32
    ensures Wrap64(a * b) == a * b
  {
    assert a * b <= a * MAX_INT32 <= MAX_INT32 * MAX_INT32 by {
      MulMonotone(a, b, MAX_INT32);
      MulMonotone(MAX_INT32, a, MAX_INT32);
    }
    MulMonotone(a, 0, b);
  }

  lemma MulMonotone(a: int, b: int, c: int)
    requires 0 <= a && b <= c
    ensures a * b <= a * c
  {
  }

  /** A product divided by one of its factors is the other. */
  lemma ExactQuotient(price: int, quantity: int)
    requires 0 <= price && 0 < quantity
    ensures (price * quantity) / quantity == price
  {
    var p := price * quantity;
    var q, r := p / quantity, p % quantity;
    assert p == quantity * q + r && 0 <= r < quantity;
    assert quantity * (price - q) == r by {
      assert quantity * (price - q) == quantity * price - quantity * q;
    }
    if q < price {
      MulMonotone(quantity, 1, price - q);
    } else if q > price {
      MulMonotone(quantity, price - q, -1);
    }
  }
}
