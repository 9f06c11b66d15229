/** Receipt numbers: "INV-" yyyymmdd "-" and the day's count plus one, printed with at least four digits. */
module Receipts {
  import opened Sums
  import opened Schema

  function Digit(d: nat): char
    requires d < 10
  {
    '0' + d as char
  }

  function Digits(n: nat): (s: string) {
    if n < 10 then [Digit(n)] else Digits(n / 10) + [Digit(n % 10)]
  }

  /** Zero padding to a minimum width, as in %04d: longer numbers are printed in full. */
  function Pad(width: nat, n: nat): string {
    var s := Digits(n);
    if |s| >= width then s else seq(width - |s|, _ => '0') + s
  }

  function ReceiptNumber(day: Day, count: nat): string {
    "INV-" + Pad(8, day) + "-" + Pad(4, count)
  }

  /** Reads a decimal numeral back. */
  function Value(s: string): int {
    if s == [] then 0 else 10 * Value(s[..|s| - 1]) + (s[|s| - 1] as int - '0' as int)
  }

  lemma {:induction false} ValueOfDigits(n: nat)
    ensures Digits(n) != [] && Value(Digits(n)) == n
  {
    if n < 10 {
      assert [Digit(n)][..0] == [];
    } else {
      ValueOfDigits(n / 10);
      assert (Digits(n / 10) + [Digit(n % 10)])[..|Digits(n / 10)|] == Digits(n / 10);
    }
  }

  lemma {:induction false} LeadingZeros(k: nat, s: string)
    ensures Value(seq(k, _ => '0') + s) == Value(s)
  {
    var z := seq(k, _ => '0');
    if s == [] {
      if k > 0 {
        assert (z + s)[..k - 1] == seq(k - 1, _ => '0') + [];
        LeadingZeros(k - 1, []);
      }
    } else {
      assert (z + s)[..|z + s| - 1] == z + s[..|s| - 1];
      LeadingZeros(k, s[..|s| - 1]);
    }
  }

  lemma ValueOfPad(width: nat, n: nat)
    ensures Value(Pad(width, n)) == n
  {
    ValueOfDigits(n);
    if |Digits(n)| < width {
      LeadingZeros(width - |Digits(n)|, Digits(n));
    }
  }

  function PowerOfTen(w: nat): nat {
    if w == 0 then 1 else 10 * PowerOfTen(w - 1)
  }

  lemma {:induction false} DigitsFit(n: nat, w: nat)
    requires w > 0 && n < PowerOfTen(w)
    ensures |Digits(n)| <= w
  {
    if n >= 10 {
      assert w > 1 by {
        assert PowerOfTen(1) == 10 * PowerOfTen(0);
      }
      DigitsFit(n / 10, w - 1);
    }
  }

  lemma DayHasEightDigits(day: Day)
    ensures |Pad(8, day)| == 8
  {
    assert PowerOfTen(8) == 1_0000_0000 by {
      assert PowerOfTen(4) == 10000;
      assert PowerOfTen(8) == 10 * (10 * (10 * (10 * PowerOfTen(4))));
    }
    DigitsFit(day, 8);
  }

  /** The printed number determines the day and the count, also when the count has outgrown its four digits. */
  lemma ReceiptNumberInjective(d1: Day, n1: nat, d2: Day, n2: nat)
    ensures ReceiptNumber(d1, n1) == ReceiptNumber(d2, n2) <==> d1 == d2 && n1 == n2
  {
    if ReceiptNumber(d1, n1) == ReceiptNumber(d2, n2) {
      ReadBack(d1, n1);
      ReadBack(d2, n2);
    }
  }

  /** Both numbers can be read back from the text. */
  lemma ReadBack(day: Day, n: nat)
    ensures var s := ReceiptNumber(day, n); |s| >= 13 && Value(s[4..12]) == day && Value(s[13..]) == n
  {
    DayHasEightDigits(day);
    var d, k := Pad(8, day), Pad(4, n);
    var s := ReceiptNumber(day, n);
    assert s == "INV-" + d + "-" + k;
    assert s[4..12] == d && s[13..] == k;
    ValueOfPad(8, day);
    ValueOfPad(4, n);
  }

  function IssuedOn(day: Day): Receipt -> int {
    (r: Receipt) => if r.day == day then 1 else 0
  }

  /** SELECT COUNT(*) FROM receipts WHERE DATE(created_at) = day. */
  function CountOn(receipts: seq<Receipt>, day: Day): (n: nat)
    ensures n <= |receipts|
  {
    CountBounds(receipts, day);
    Sum(receipts, IssuedOn(day))
  }

  lemma {:induction false} CountBounds(receipts: seq<Receipt>, day: Day)
    ensures 0 <= Sum(receipts, IssuedOn(day)) <= |receipts|
  {
    if receipts != [] {
      CountBounds(receipts[..|receipts| - 1], day);
    }
  }

  /** The rank of a receipt among those the database stamped with its day. */
  function Rank(receipts: seq<Receipt>, i: nat): nat
    requires i < |receipts|
  {
    CountOn(receipts[..i], receipts[i].day) + 1
  }

  /** Receipt i prints the service's day `printed[i]` and its rank on the database's day. */
  ghost predicate Numbered(receipts: seq<Receipt>, printed: seq<Day>) {
    |printed| == |receipts|
    && forall i | 0 <= i < |receipts| :: receipts[i].number == ReceiptNumber(printed[i], Rank(receipts, i))
  }

  /** Every receipt prints the day it is stamped with: a day with k receipts has 1..k. */
  ghost predicate NumberedByDay(receipts: seq<Receipt>) {
    forall i | 0 <= i < |receipts| :: receipts[i].number == ReceiptNumber(receipts[i].day, Rank(receipts, i))
  }

  predicate NumberTaken(receipts: seq<Receipt>, number: string) {
    exists r <- receipts :: r.number == number
  }

  /** Two receipts of one day have different ranks. */
  lemma RanksIncrease(receipts: seq<Receipt>, i: nat, j: nat, day: Day)
    requires i < j <= |receipts| && receipts[i].day == day
    ensures CountOn(receipts[..i], day) < CountOn(receipts[..j], day)
  {
    SumStep(receipts, IssuedOn(day), i);
    assert receipts[..j][..i + 1] == receipts[..i + 1];
    CountBounds(receipts[..j], day);
    PrefixAtMost(receipts[..j], IssuedOn(day), i + 1);
  }

  lemma NumbersDistinct(receipts: seq<Receipt>, i: nat, j: nat)
    requires NumberedByDay(receipts) && i < j < |receipts|
    ensures receipts[i].number != receipts[j].number
  {
    var a, b := receipts[i], receipts[j];
    ReceiptNumberInjective(a.day, Rank(receipts, i), b.day, Rank(receipts, j));
    if a.day == b.day {
      RanksIncrease(receipts, i, j, a.day);
    }
  }

  predicate Issued(receipts: seq<Receipt>, day: Day, n: nat) {
    exists r <- receipts :: r.day == day && r.number == ReceiptNumber(day, n)
  }

  lemma IssuedStep(receipts: seq<Receipt>, day: Day, n: nat)
    requires receipts != []
    ensures var k := |receipts| - 1;
      Issued(receipts, day, n)
      <==> Issued(receipts[..k], day, n) || (receipts[k].day == day && receipts[k].number == ReceiptNumber(day, n))
  {
    assert receipts == receipts[..|receipts| - 1] + [receipts[|receipts| - 1]];
  }

  lemma NumberedPrefix(receipts: seq<Receipt>, k: nat)
    requires k <= |receipts| && NumberedByDay(receipts)
    ensures NumberedByDay(receipts[..k])
  {
    forall i | 0 <= i < k ensures Rank(receipts[..k], i) == Rank(receipts, i) {
      assert receipts[..k][..i] == receipts[..i];
    }
  }

  /** The k receipts of a day carry exactly the numbers 1..k. */
  lemma {:induction false} NumbersOfTheDay(receipts: seq<Receipt>, day: Day, n: nat)
    requires NumberedByDay(receipts)
    ensures Issued(receipts, day, n) <==> 1 <= n <= CountOn(receipts, day)
  {
    if receipts != [] {
      var k := |receipts| - 1;
      var last, rank := receipts[k], Rank(receipts, k);
      NumberedPrefix(receipts, k);
      NumbersOfTheDay(receipts[..k], day, n);
      ReceiptNumberInjective(day, n, last.day, rank);
      IssuedStep(receipts, day, n);
      assert last.number == ReceiptNumber(last.day, rank);
      assert CountOn(receipts, day) == CountOn(receipts[..k], day) + if last.day == day then 1 else 0;
    }
  }

  /** The next number of the day keeps the numbering. */
  lemma NextNumberNumbered(receipts: seq<Receipt>, next: Receipt)
    requires NumberedByDay(receipts) && next.number == ReceiptNumber(next.day, CountOn(receipts, next.day) + 1)
    ensures NumberedByDay(receipts + [next])
  {
    RanksStay(receipts, next);
  }

  /** One more receipt leaves the ranks of the others alone and is itself one past the count. */
  lemma RanksStay(receipts: seq<Receipt>, next: Receipt)
    ensures forall i | 0 <= i < |receipts| :: Rank(receipts + [next], i) == Rank(receipts, i)
    ensures Rank(receipts + [next], |receipts|) == CountOn(receipts, next.day) + 1
  {
    var all := receipts + [next];
    forall i | 0 <= i < |receipts| ensures Rank(all, i) == Rank(receipts, i) {
      assert all[..i] == receipts[..i];
    }
    assert all[..|receipts|] == receipts;
  }

  /** With any two clocks: the printed day and the database's rank stay the number of every receipt. */
  lemma NextNumbered(receipts: seq<Receipt>, printed: seq<Day>, next: Receipt, service: Day)
    requires Numbered(receipts, printed) && next.number == ReceiptNumber(service, CountOn(receipts, next.day) + 1)
    ensures Numbered(receipts + [next], printed + [service])
  {
    RanksStay(receipts, next);
  }

  /**
    With any two clocks: the next number is taken if and only if an earlier receipt printed the service's day at the
    rank that the database's day has reached.
   */
  lemma TakenIff(receipts: seq<Receipt>, printed: seq<Day>, database: Day, service: Day)
    requires Numbered(receipts, printed)
    ensures NumberTaken(receipts, ReceiptNumber(service, CountOn(receipts, database) + 1))
       <==> exists i | 0 <= i < |receipts| ::
         printed[i] == service && Rank(receipts, i) == CountOn(receipts, database) + 1
  {
    var rank := CountOn(receipts, database) + 1;
    forall i | 0 <= i < |receipts|
      ensures receipts[i].number == ReceiptNumber(service, rank)
        <==> printed[i] == service && Rank(receipts, i) == rank {
      ReceiptNumberInjective(printed[i], Rank(receipts, i), service, rank);
    }
    if NumberTaken(receipts, ReceiptNumber(service, rank)) {
      var r :| r in receipts && r.number == ReceiptNumber(service, rank);
      var i :| 0 <= i < |receipts| && receipts[i] == r;
    }
  }

  /** With one clock the number about to be printed is never taken, so the UNIQUE constraint never rejects it. */
  lemma NextNumberFree(receipts: seq<Receipt>, day: Day)
    requires NumberedByDay(receipts)
    ensures !NumberTaken(receipts, ReceiptNumber(day, CountOn(receipts, day) + 1))
  {
    var next := Receipt(|receipts|, ReceiptNumber(day, CountOn(receipts, day) + 1), day);
    NextNumberNumbered(receipts, next);
    forall i | 0 <= i < |receipts| ensures receipts[i].number != next.number {
      NumbersDistinct(receipts + [next], i, |receipts|);
    }
  }

  /** With two clocks it can be: the database still counts yesterday's day while the service prints today's. */
  lemma TwoClocksCanCollide(yesterday: Day, today: Day)
    requires yesterday != today
    ensures var first := Receipt(0, ReceiptNumber(today, CountOn([], yesterday) + 1), yesterday);
      NumberTaken([first], ReceiptNumber(today, CountOn([first], today) + 1))
  {
    var first := Receipt(0, ReceiptNumber(today, CountOn([], yesterday) + 1), yesterday);
    SumZero([first], IssuedOn(today));
    assert first in [first];
  }
}
