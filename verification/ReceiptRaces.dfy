/**
  Overlapping checkouts and their receipt numbers, under READ COMMITTED: a checkout counts the committed receipts of
  the database's day, then inserts the next number under the service's day. An insert waits while another client
  holds the same number uncommitted, and is refused when a committed row has it.
 */
module ReceiptRaces {
  import opened Outcomes
  import opened Sums
  import opened Schema
  import opened Receipts

  datatype Phase = Counted | Inserted

  /** What a receipt prints. */
  datatype Print = Print(day: Day, rank: nat)

  /** A checkout past its count: the two days, the count, and how many receipts of any day were committed by then. */
  datatype Client = Client(phase: Phase, database: Day, service: Day, count: nat, since: nat)

  /** `prints` says of each committed receipt what it prints. */
  datatype State = State(committed: seq<Receipt>, prints: seq<Print>, clients: map<int, Client>)

  datatype Action =
    | Count(client: int, database: Day, service: Day)
    | Insert(client: int)
    | Commit(client: int)
    | Rollback(client: int)

  function Printed(client: Client): Print {
    Print(client.service, client.count + 1)
  }

  function Number(client: Client): string {
    ReceiptNumber(client.service, client.count + 1)
  }

  predicate Enabled(s: State, a: Action) {
    match a
    case Count(c, _, _) => c !in s.clients
    case Insert(c) =>
      && c in s.clients && s.clients[c].phase == Counted
      && forall d <- s.clients | s.clients[d].phase == Inserted :: Number(s.clients[d]) != Number(s.clients[c])
    case Commit(c) => c in s.clients && s.clients[c].phase == Inserted
    case Rollback(c) => c in s.clients
  }

  predicate Refused(s: State, c: int)
    requires c in s.clients
  {
    NumberTaken(s.committed, Number(s.clients[c]))
  }

  /** A refused insert ends its checkout, which rolls back. */
  function Execute(s: State, a: Action): State
    requires Enabled(s, a)
  {
    match a
    case Count(c, database, service) =>
      var client := Client(Counted, database, service, CountOn(s.committed, database), |s.committed|);
      s.(clients := s.clients[c := client])
    case Insert(c) =>
      if Refused(s, c) then s.(clients := s.clients - {c})
      else s.(clients := s.clients[c := s.clients[c].(phase := Inserted)])
    case Commit(c) =>
      State(s.committed + [Receipt(|s.committed|, Number(s.clients[c]), s.clients[c].database)],
            s.prints + [Printed(s.clients[c])],
            s.clients - {c})
    case Rollback(c) => s.(clients := s.clients - {c})
  }

  function Exec(s: State, schedule: seq<Action>): Option<State> {
    if schedule == [] then Some(s)
    else
      match Exec(s, schedule[..|schedule| - 1])
      case None => None
      case Some(m) =>
        if Enabled(m, schedule[|schedule| - 1]) then Some(Execute(m, schedule[|schedule| - 1])) else None
  }

  /** No checkout under way. */
  function Quiet(committed: seq<Receipt>, prints: seq<Print>): State {
    State(committed, prints, map[])
  }

  // ---------- any clocks ----------

  /** Every receipt prints what it is recorded to print. */
  ghost predicate PrintsMatch(committed: seq<Receipt>, prints: seq<Print>) {
    && |prints| == |committed|
    && forall i | 0 <= i < |committed| :: committed[i].number == ReceiptNumber(prints[i].day, prints[i].rank)
  }

  function PrintsOf(receipts: seq<Receipt>, printed: seq<Day>): seq<Print>
    requires |printed| == |receipts|
  {
    seq(|receipts|, i requires 0 <= i < |receipts| => Print(printed[i], Rank(receipts, i)))
  }

  /** What serial checkouts print, under any two clocks, is the service's day and the rank on the database's. */
  lemma SerialPrints(receipts: seq<Receipt>, printed: seq<Day>)
    requires Numbered(receipts, printed)
    ensures PrintsMatch(receipts, PrintsOf(receipts, printed))
  {
  }

  lemma {:induction false} SchedulePrints(start: State, schedule: seq<Action>)
    requires PrintsMatch(start.committed, start.prints) && Exec(start, schedule).Some?
    ensures PrintsMatch(Exec(start, schedule).value.committed, Exec(start, schedule).value.prints)
  {
    if schedule != [] {
      SchedulePrints(start, schedule[..|schedule| - 1]);
    }
  }

  lemma TakenIffPrinted(committed: seq<Receipt>, prints: seq<Print>, day: Day, rank: nat)
    requires PrintsMatch(committed, prints)
    ensures NumberTaken(committed, ReceiptNumber(day, rank)) <==> Print(day, rank) in prints
  {
    forall i | 0 <= i < |committed|
      ensures committed[i].number == ReceiptNumber(day, rank) <==> prints[i] == Print(day, rank) {
      ReceiptNumberInjective(prints[i].day, prints[i].rank, day, rank);
    }
    if NumberTaken(committed, ReceiptNumber(day, rank)) {
      var i :| 0 <= i < |committed| && committed[i].number == ReceiptNumber(day, rank);
      assert prints[i] in prints;
    }
    if Print(day, rank) in prints {
      var i :| 0 <= i < |prints| && prints[i] == Print(day, rank);
      assert committed[i] in committed;
    }
  }

  /**
    Whatever the clocks of the checkouts: in every schedule an insert is refused if and only if a committed receipt
    prints the service's day at the rank that follows the count.
   */
  lemma RefusedIffPrinted(committed: seq<Receipt>, prints: seq<Print>, schedule: seq<Action>, c: int)
    requires PrintsMatch(committed, prints) && Exec(Quiet(committed, prints), schedule).Some?
    requires Enabled(Exec(Quiet(committed, prints), schedule).value, Insert(c))
    ensures var s := Exec(Quiet(committed, prints), schedule).value;
      Refused(s, c) <==> Print(s.clients[c].service, s.clients[c].count + 1) in s.prints
  {
    SchedulePrints(Quiet(committed, prints), schedule);
    var s := Exec(Quiet(committed, prints), schedule).value;
    TakenIffPrinted(s.committed, s.prints, s.clients[c].service, s.clients[c].count + 1);
  }

  // ---------- one clock ----------

  ghost predicate OneClock(schedule: seq<Action>) {
    forall a <- schedule | a.Count? :: a.database == a.service
  }

  /** A count is that of the receipts committed by then; an inserted number is still the day's next. */
  ghost predicate ClientOk(committed: seq<Receipt>, client: Client) {
    && client.database == client.service
    && client.since <= |committed|
    && client.count == CountOn(committed[..client.since], client.database)
    && (client.phase == Inserted ==> client.count == CountOn(committed, client.database))
  }

  ghost predicate Inv(s: State) {
    && NumberedByDay(s.committed)
    && (forall c <- s.clients :: ClientOk(s.committed, s.clients[c]))
    && (forall c <- s.clients, d <- s.clients | c != d && s.clients[c].phase == s.clients[d].phase == Inserted ::
          s.clients[c].database != s.clients[d].database)
  }

  /** Once the day's count has moved past a client's, its number is taken, and not before. */
  lemma TakenIffPassed(committed: seq<Receipt>, client: Client)
    requires NumberedByDay(committed) && ClientOk(committed, client)
    ensures client.count <= CountOn(committed, client.database)
    ensures NumberTaken(committed, Number(client)) <==> client.count < CountOn(committed, client.database)
  {
    var n := client.count + 1;
    CountGrows(committed, client.since, client.database);
    NumbersOfTheDay(committed, client.database, n);
    if NumberTaken(committed, Number(client)) {
      var i :| 0 <= i < |committed| && committed[i].number == Number(client);
      ReceiptNumberInjective(committed[i].day, Rank(committed, i), client.database, n);
      assert committed[i] in committed;
    }
  }

  /** A day's count grows by the receipts of that day that follow, and only by those. */
  lemma CountGrows(receipts: seq<Receipt>, k: nat, day: Day)
    requires k <= |receipts|
    ensures CountOn(receipts, day) >= CountOn(receipts[..k], day)
    ensures CountOn(receipts, day) == CountOn(receipts[..k], day) <==> forall r <- receipts[k..] :: r.day != day
  {
    assert receipts == receipts[..k] + receipts[k..];
    SumAppend(receipts[..k], receipts[k..], IssuedOn(day));
    CountBounds(receipts[k..], day);
    ZeroSum(receipts[k..], IssuedOn(day));
  }

  /** An insert that goes through is the only one of its day: any other would hold the same number. */
  lemma InsertedAlone(s: State, c: int, d: int)
    requires Inv(s) && Enabled(s, Insert(c)) && !Refused(s, c)
    requires d in s.clients && s.clients[d].phase == Inserted
    ensures s.clients[d].database != s.clients[c].database
  {
    TakenIffPassed(s.committed, s.clients[c]);
    assert ClientOk(s.committed, s.clients[d]);
  }

  lemma InsertKeepsInv(s: State, c: int)
    requires Inv(s) && Enabled(s, Insert(c))
    ensures Inv(Execute(s, Insert(c)))
  {
    if !Refused(s, c) {
      TakenIffPassed(s.committed, s.clients[c]);
      forall d <- s.clients | s.clients[d].phase == Inserted ensures s.clients[d].database != s.clients[c].database {
        InsertedAlone(s, c, d);
      }
    }
  }

  lemma CommitKeepsInv(s: State, c: int)
    requires Inv(s) && Enabled(s, Commit(c))
    ensures Inv(Execute(s, Commit(c)))
  {
    var s' := Execute(s, Commit(c));
    NextNumberNumbered(s.committed, s'.committed[|s.committed|]);
    forall d <- s'.clients ensures ClientOk(s'.committed, s'.clients[d]) {
      assert s'.committed[..s.clients[d].since] == s.committed[..s.clients[d].since];
      assert s'.committed[..|s.committed|] == s.committed;
    }
  }

  lemma CountKeepsInv(s: State, c: int, day: Day)
    requires Inv(s) && Enabled(s, Count(c, day, day))
    ensures Inv(Execute(s, Count(c, day, day)))
  {
    assert s.committed[..|s.committed|] == s.committed;
  }

  lemma {:induction false} ScheduleKeepsInv(start: State, schedule: seq<Action>)
    requires Inv(start) && Exec(start, schedule).Some? && OneClock(schedule)
    ensures Inv(Exec(start, schedule).value)
  {
    if schedule != [] {
      var n := |schedule| - 1;
      ScheduleKeepsInv(start, schedule[..n]);
      var s := Exec(start, schedule[..n]).value;
      match schedule[n]
      case Count(c, database, service) =>
        assert schedule[n] in schedule;
        CountKeepsInv(s, c, database);
      case Insert(c) => InsertKeepsInv(s, c);
      case Commit(c) => CommitKeepsInv(s, c);
      case Rollback(c) =>
    }
  }

  /** With one clock, in every schedule, the committed receipts of a day with k of them carry exactly 1..k. */
  lemma SchedulesStayNumbered(committed: seq<Receipt>, prints: seq<Print>, schedule: seq<Action>)
    requires NumberedByDay(committed) && Exec(Quiet(committed, prints), schedule).Some? && OneClock(schedule)
    ensures NumberedByDay(Exec(Quiet(committed, prints), schedule).value.committed)
  {
    ScheduleKeepsInv(Quiet(committed, prints), schedule);
  }

  /** With one clock an insert is refused if and only if a receipt of its day was committed after its count. */
  lemma RefusedIffOvertaken(committed: seq<Receipt>, prints: seq<Print>, schedule: seq<Action>, c: int)
    requires NumberedByDay(committed) && Exec(Quiet(committed, prints), schedule).Some? && OneClock(schedule)
    requires Enabled(Exec(Quiet(committed, prints), schedule).value, Insert(c))
    ensures var s := Exec(Quiet(committed, prints), schedule).value;
      && s.clients[c].since <= |s.committed|
      && (Refused(s, c) <==> exists r <- s.committed[s.clients[c].since..] :: r.day == s.clients[c].database)
  {
    ScheduleKeepsInv(Quiet(committed, prints), schedule);
    var s := Exec(Quiet(committed, prints), schedule).value;
    TakenIffPassed(s.committed, s.clients[c]);
    CountGrows(s.committed, s.clients[c].since, s.clients[c].database);
  }

  /** Two checkouts that count before either commits: the second is refused. */
  lemma OverlappingCheckoutIsRefused(day: Day)
    ensures var s := Exec(Quiet([], []), [Count(1, day, day), Count(2, day, day), Insert(1), Commit(1)]);
      s.Some? && Enabled(s.value, Insert(2)) && Refused(s.value, 2)
  {
    var s0 := Quiet([], []);
    var s1 := Execute(s0, Count(1, day, day));
    var s2 := Execute(s1, Count(2, day, day));
    var s3 := Execute(s2, Insert(1));
    var s4 := Execute(s3, Commit(1));
    var all := [Count(1, day, day), Count(2, day, day), Insert(1), Commit(1)];
    assert all[..3][..2] == all[..2] && all[..2][..1] == all[..1] && all[..1][..0] == [];
    assert Exec(s0, all[..1]) == Some(s1);
    assert Exec(s0, all[..2]) == Some(s2);
    assert Exec(s0, all[..3]) == Some(s3);
    assert s4.committed[0] in s4.committed;
  }
}
