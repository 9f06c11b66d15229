/**
  Any number of clients running checkouts, returns and receives, interleaved one SQL statement (for the locking
  SELECT, one row) at a time under READ COMMITTED. A row is locked by FOR UPDATE, UPDATE or upsert and stays locked
  until its client commits or rolls back; a client sees committed rows and its own uncommitted writes.
 */
module Interleaving {
  import opened Machine
  import opened Outcomes
  import opened Schema
  import opened Stock

  /** What a client does to stock: a checkout's cart, or the lines of a return or of the receive of an order. */
  datatype Work =
    | Cart(branch: int, lines: seq<Line>)
    | Inflow(branch: int, lines: seq<Line>, order: Option<int>)

  datatype Phase =
    /** SELECT ... FOR UPDATE in progress: `visible` is the statement's snapshot, `seen` the rows locked and read. */
    | Scanning(visible: set<Key>, seen: map<int, int>)
    /** The availability check has passed; the guarded UPDATE of line `next` comes next. */
    | Updating(next: nat)
    /** The upsert of line `next` comes next. */
    | Crediting(next: nat)

  /** A client inside its transaction, with the rows it has written. */
  datatype Client = Client(work: Work, phase: Phase, own: Stocks)

  datatype State = State(
    committed: Stocks,
    locks: map<Key, int>,
    clients: map<int, Client>,
    received: set<int>,
    log: seq<Work>)

  datatype Action =
    | Start(client: int, work: Work)
    | ScanRow(client: int, product: int)
    | EndScan(client: int)
    | Update(client: int)
    | Upsert(client: int)
    | Commit(client: int)
    | Rollback(client: int)

  // ---------- the transition system ----------

  function RowOf(work: Work, i: nat): Key
    requires i < |work.lines|
  {
    Key(work.branch, work.lines[i].product)
  }

  /** No other client holds the row. */
  predicate Available(s: State, c: int, k: Key) {
    k in s.locks ==> s.locks[k] == c
  }

  function View(s: State, c: int): Stocks
    requires c in s.clients
  {
    s.committed + s.clients[c].own
  }

  predicate Scans(s: State, c: int) {
    c in s.clients && s.clients[c].phase.Scanning? && s.clients[c].work.Cart?
  }

  /** The rows the locking SELECT has to lock: the cart's rows that its snapshot sees. */
  function RowsToScan(client: Client): set<int>
    requires client.phase.Scanning?
  {
    set l <- client.work.lines | Key(client.work.branch, l.product) in client.phase.visible :: l.product
  }

  predicate ScanDone(client: Client)
    requires client.phase.Scanning?
  {
    RowsToScan(client) <= client.phase.seen.Keys
  }

  predicate LinesAvailable(client: Client)
    requires client.phase.Scanning?
  {
    forall l <- client.work.lines :: l.product in client.phase.seen && l.quantity <= client.phase.seen[l.product]
  }

  predicate Writes(s: State, c: int, cart: bool) {
    && c in s.clients
    && (if cart then s.clients[c].phase.Updating? else s.clients[c].phase.Crediting?)
    && s.clients[c].phase.next < |s.clients[c].work.lines|
  }

  predicate Finished(client: Client) {
    && (client.phase.Updating? || client.phase.Crediting?)
    && client.phase.next == |client.work.lines|
  }

  function Release(locks: map<Key, int>, c: int): map<Key, int> {
    locks - (set k <- locks | locks[k] == c)
  }

  predicate Enabled(s: State, a: Action) {
    match a
    case Start(c, work) =>
      && c !in s.clients && work.lines != [] && Positive(work.lines)
      // A receive reads the order's status before its transaction, without a lock.
      && (work.Inflow? && work.order.Some? ==> work.order.value !in s.received)
    case ScanRow(c, p) =>
      && Scans(s, c) && p in RowsToScan(s.clients[c]) && p !in s.clients[c].phase.seen
      && Key(s.clients[c].work.branch, p) in s.committed
      && Available(s, c, Key(s.clients[c].work.branch, p))
    case EndScan(c) =>
      Scans(s, c) && ScanDone(s.clients[c]) && LinesAvailable(s.clients[c])
    case Update(c) =>
      Writes(s, c, true) && Available(s, c, RowOf(s.clients[c].work, s.clients[c].phase.next))
    case Upsert(c) =>
      && Writes(s, c, false)
      && var k := RowOf(s.clients[c].work, s.clients[c].phase.next);
      && Available(s, c, k)
      && StockAt(View(s, c), k) + s.clients[c].work.lines[s.clients[c].phase.next].quantity <= MAX_INT32
    case Commit(c) => c in s.clients && Finished(s.clients[c])
    case Rollback(c) => c in s.clients
  }

  /** The guarded UPDATE affects its row. */
  predicate GuardHolds(s: State, c: int)
    requires Writes(s, c, true)
  {
    var client := s.clients[c];
    var k := RowOf(client.work, client.phase.next);
    k in View(s, c) && View(s, c)[k] >= client.work.lines[client.phase.next].quantity
  }

  function Execute(s: State, a: Action): State
    requires Enabled(s, a)
  {
    match a
    case Start(c, work) =>
      var phase := if work.Cart? then Scanning(s.committed.Keys, map[]) else Crediting(0);
      s.(clients := s.clients[c := Client(work, phase, map[])])
    case ScanRow(c, p) =>
      var client, k := s.clients[c], Key(s.clients[c].work.branch, p);
      s.(locks := s.locks[k := c],
         clients := s.clients[c :=
           client.(phase := Scanning(client.phase.visible, client.phase.seen[p := s.committed[k]]))])
    case EndScan(c) =>
      s.(clients := s.clients[c := s.clients[c].(phase := Updating(0))])
    case Update(c) =>
      var client := s.clients[c];
      var i := client.phase.next;
      var k := RowOf(client.work, i);
      if GuardHolds(s, c) then
        s.(locks := s.locks[k := c],
           clients := s.clients[c := client.(phase := Updating(i + 1),
                                             own := client.own[k := View(s, c)[k] - client.work.lines[i].quantity])])
      else s.(clients := s.clients[c := client.(phase := Updating(i + 1))])
    case Upsert(c) =>
      var client := s.clients[c];
      var i := client.phase.next;
      var k := RowOf(client.work, i);
      s.(locks := s.locks[k := c],
         clients := s.clients[c :=
           client.(phase := Crediting(i + 1),
                   own := client.own[k := StockAt(View(s, c), k) + client.work.lines[i].quantity])])
    case Commit(c) =>
      var work := s.clients[c].work;
      State(s.committed + s.clients[c].own, Release(s.locks, c), s.clients - {c},
            if work.Inflow? && work.order.Some? then s.received + {work.order.value} else s.received,
            s.log + [work])
    case Rollback(c) => s.(locks := Release(s.locks, c), clients := s.clients - {c})
  }

  function Initial(stocks: Stocks): State {
    State(stocks, map[], map[], {}, [])
  }

  /** The state after a schedule, if every action of it was enabled in turn. */
  function Exec(s: State, schedule: seq<Action>): Option<State> {
    if schedule == [] then Some(s)
    else
      match Exec(s, schedule[..|schedule| - 1])
      case None => None
      case Some(m) => if Enabled(m, schedule[|schedule| - 1]) then Some(Execute(m, schedule[|schedule| - 1])) else None
  }

  // ---------- the serial meaning of the log ----------

  /** What one work does to the stock rows when it runs alone, as in the serial ledger. */
  function Alone(s: Stocks, work: Work): Stocks {
    match work
    case Cart(branch, lines) => DeductAll(s, branch, lines)
    case Inflow(branch, lines, _) => CreditAll(s, branch, lines)
  }

  function Replay(s: Stocks, log: seq<Work>): Stocks {
    if log == [] then s else Alone(Replay(s, log[..|log| - 1]), log[|log| - 1])
  }

  /** Every cart of the log, replayed alone, passes the availability check on the rows it then finds. */
  ghost predicate ChecksPass(s: Stocks, log: seq<Work>) {
    forall i | 0 <= i < |log| && log[i].Cart? ::
      EachLineAvailable(Replay(s, log[..i]), log[i].branch, log[i].lines)
  }

  // ---------- the invariant ----------

  ghost predicate Holds(locks: map<Key, int>, c: int, k: Key) {
    k in locks && locks[k] == c
  }

  /** What a client relies on: the rows it has read or written are locked by it and carry the values it works from. */
  ghost predicate ClientOk(committed: Stocks, locks: map<Key, int>, c: int, client: Client) {
    && Positive(client.work.lines)
    && (forall k <- client.own :: Holds(locks, c, k) && 0 <= client.own[k] <= MAX_INT32)
    && match client.phase
       case Scanning(visible, seen) =>
         && client.work.Cart? && client.own == map[]
         && forall p <- seen :: var k := Key(client.work.branch, p);
              Holds(locks, c, k) && k in committed && seen[p] == committed[k]
       case Updating(next) =>
         && client.work.Cart? && next <= |client.work.lines|
         && (forall l <- client.work.lines :: Holds(locks, c, Key(client.work.branch, l.product)))
         && EachLineAvailable(committed, client.work.branch, client.work.lines)
         && committed + client.own == DeductAll(committed, client.work.branch, client.work.lines[..next])
       case Crediting(next) =>
         && client.work.Inflow? && next <= |client.work.lines|
         && (forall i | 0 <= i < next :: Holds(locks, c, RowOf(client.work, i)))
         && committed + client.own == CreditAll(committed, client.work.branch, client.work.lines[..next])
  }

  ghost predicate Inv(initial: Stocks, s: State) {
    && StocksInRange(s.committed)
    && (forall k <- s.locks :: s.locks[k] in s.clients)
    && (forall c <- s.clients :: ClientOk(s.committed, s.locks, c, s.clients[c]))
    && s.committed == Replay(initial, s.log)
    && ChecksPass(initial, s.log)
    && (forall w <- s.log :: Positive(w.lines))
  }

  // ---------- framing ----------

  /** Changing rows a cart does not touch commutes with its deductions. */
  lemma {:induction false} DeductFrame(s: Stocks, w: Stocks, branch: int, lines: seq<Line>)
    requires forall l <- lines :: Key(branch, l.product) !in w
    ensures DeductAll(s + w, branch, lines) == DeductAll(s, branch, lines) + w
  {
    if lines != [] {
      var n := |lines| - 1;
      assert lines[n] in lines;
      DeductFrame(s, w, branch, lines[..n]);
    }
  }

  lemma CreditOverlay(s: Stocks, w: Stocks, k: Key, q: int)
    requires k !in w
    ensures Credit(s + w, k, q) == Credit(s, k, q) + w
  {
  }

  lemma {:induction false} CreditFrame(s: Stocks, w: Stocks, branch: int, lines: seq<Line>)
    requires forall l <- lines :: Key(branch, l.product) !in w
    ensures CreditAll(s + w, branch, lines) == CreditAll(s, branch, lines) + w
  {
    if lines != [] {
      var n := |lines| - 1;
      assert lines[n] in lines;
      CreditFrame(s, w, branch, lines[..n]);
      CreditOverlay(CreditAll(s, branch, lines[..n]), w, Key(branch, lines[n].product), lines[n].quantity);
    }
  }

  lemma OverlayCommutes(s: Stocks, w: Stocks, own: Stocks)
    requires w.Keys !! own.Keys
    ensures (s + w) + own == (s + own) + w
  {
  }

  /** Writes to rows a client does not hold, and locks it does not own, do not disturb it. */
  lemma ClientUndisturbed(committed: Stocks, w: Stocks, locks: map<Key, int>, locks': map<Key, int>, c: int,
                          client: Client)
    requires ClientOk(committed, locks, c, client)
    requires forall k | Holds(locks, c, k) :: Holds(locks', c, k) && k !in w
    ensures ClientOk(committed + w, locks', c, client)
  {
    OverlayCommutes(committed, w, client.own);
    match client.phase
    case Scanning(_, _) =>
    case Updating(next) =>
      assert forall l <- client.work.lines[..next] :: l in client.work.lines;
      DeductFrame(committed, w, client.work.branch, client.work.lines[..next]);
    case Crediting(next) =>
      forall l <- client.work.lines[..next] ensures Key(client.work.branch, l.product) !in w {
        var i :| 0 <= i < next && client.work.lines[i] == l;
        assert Holds(locks, c, RowOf(client.work, i));
      }
      CreditFrame(committed, w, client.work.branch, client.work.lines[..next]);
  }

  lemma OthersUndisturbed(initial: Stocks, s: State, w: Stocks, locks': map<Key, int>, c: int)
    requires Inv(initial, s)
    requires forall k <- w :: Holds(s.locks, c, k)
    requires forall d, k | d != c && Holds(s.locks, d, k) :: Holds(locks', d, k)
    ensures forall d <- s.clients | d != c :: ClientOk(s.committed + w, locks', d, s.clients[d])
  {
    forall d <- s.clients | d != c ensures ClientOk(s.committed + w, locks', d, s.clients[d]) {
      ClientUndisturbed(s.committed, w, s.locks, locks', d, s.clients[d]);
    }
  }

  // ---------- every action keeps the invariant ----------

  lemma ScanKeepsClient(s: State, c: int, p: int)
    requires Enabled(s, ScanRow(c, p)) && ClientOk(s.committed, s.locks, c, s.clients[c])
    ensures var s' := Execute(s, ScanRow(c, p)); ClientOk(s'.committed, s'.locks, c, s'.clients[c])
  {
  }

  lemma EndScanKeepsClient(s: State, c: int)
    requires Enabled(s, EndScan(c)) && ClientOk(s.committed, s.locks, c, s.clients[c])
    ensures var s' := Execute(s, EndScan(c)); ClientOk(s'.committed, s'.locks, c, s'.clients[c])
  {
    var client := s.clients[c];
    forall l <- client.work.lines ensures Key(client.work.branch, l.product) in s.committed
      && l.quantity <= s.committed[Key(client.work.branch, l.product)]
      && Holds(s.locks, c, Key(client.work.branch, l.product)) {
      assert l.product in client.phase.seen;
    }
    assert s.committed + map[] == s.committed;
  }

  /** The guarded UPDATE advances the client's view by one deduction, whether or not it affects the row. */
  lemma UpdateAdvances(s: State, c: int)
    requires Enabled(s, Update(c)) && StocksInRange(View(s, c)) && Positive(s.clients[c].work.lines)
    ensures var client, s' := s.clients[c], Execute(s, Update(c));
      var k := RowOf(client.work, client.phase.next);
      && View(s', c) == Deduct(View(s, c), k, client.work.lines[client.phase.next].quantity)
      && s'.clients[c] == client.(phase := Updating(client.phase.next + 1), own := s'.clients[c].own)
      && s'.committed == s.committed
      && (forall x <- s'.clients[c].own :: (x in client.own || x == k)
            && (x == k ==> 0 <= s'.clients[c].own[x] <= MAX_INT32)
            && (x != k ==> s'.clients[c].own[x] == client.own[x]))
  {
    var client, s' := s.clients[c], Execute(s, Update(c));
    assert client.work.lines[client.phase.next] in client.work.lines;
    assert View(s', c) == Deduct(View(s, c), RowOf(client.work, client.phase.next),
      client.work.lines[client.phase.next].quantity);
    forall x <- client.own ensures client.own[x] == View(s, c)[x] {
    }
  }

  lemma UpdateKeepsClient(s: State, c: int)
    requires Enabled(s, Update(c)) && ClientOk(s.committed, s.locks, c, s.clients[c]) && StocksInRange(s.committed)
    ensures var s' := Execute(s, Update(c)); ClientOk(s'.committed, s'.locks, c, s'.clients[c])
  {
    var client := s.clients[c];
    var i, lines := client.phase.next, client.work.lines;
    assert lines[..i + 1][..i] == lines[..i];
    assert lines[i] in lines;
    UpdateAdvances(s, c);
    var s' := Execute(s, Update(c));
    assert forall k :: Holds(s.locks, c, k) ==> Holds(s'.locks, c, k);
    assert Holds(s'.locks, c, RowOf(client.work, i));
  }

  /** An upsert advances the client's view by one credit. */
  lemma UpsertAdvances(s: State, c: int)
    requires Enabled(s, Upsert(c)) && StocksInRange(View(s, c)) && Positive(s.clients[c].work.lines)
    ensures var client, s' := s.clients[c], Execute(s, Upsert(c));
      var k := RowOf(client.work, client.phase.next);
      && View(s', c) == Credit(View(s, c), k, client.work.lines[client.phase.next].quantity)
      && s'.clients[c] == client.(phase := Crediting(client.phase.next + 1), own := s'.clients[c].own)
      && s'.committed == s.committed && s'.locks == s.locks[k := c]
      && (forall x <- s'.clients[c].own :: x == k || (x in client.own && s'.clients[c].own[x] == client.own[x]))
      && 0 <= s'.clients[c].own[k] <= MAX_INT32
  {
    var client, s' := s.clients[c], Execute(s, Upsert(c));
    var k, q := RowOf(client.work, client.phase.next), client.work.lines[client.phase.next].quantity;
    assert client.work.lines[client.phase.next] in client.work.lines;
    assert View(s', c) == Credit(View(s, c), k, q);
  }

  lemma UpsertKeepsClient(s: State, c: int)
    requires Enabled(s, Upsert(c)) && ClientOk(s.committed, s.locks, c, s.clients[c]) && StocksInRange(s.committed)
    ensures var s' := Execute(s, Upsert(c)); ClientOk(s'.committed, s'.locks, c, s'.clients[c])
  {
    var client, s' := s.clients[c], Execute(s, Upsert(c));
    var lines, i := client.work.lines, client.phase.next;
    assert lines[..i + 1][..i] == lines[..i];
    UpsertAdvances(s, c);
    forall k <- s'.clients[c].own ensures Holds(s'.locks, c, k) && 0 <= s'.clients[c].own[k] <= MAX_INT32 {
      assert k == RowOf(client.work, i) || k in client.own;
    }
    forall m | 0 <= m <= i ensures Holds(s'.locks, c, RowOf(client.work, m)) {
      assert m < i ==> Holds(s.locks, c, RowOf(client.work, m));
    }
  }

  lemma {:induction false} ReplayNext(initial: Stocks, log: seq<Work>, work: Work)
    ensures Replay(initial, log + [work]) == Alone(Replay(initial, log), work)
  {
    assert (log + [work])[..|log|] == log;
  }

  lemma ChecksNext(initial: Stocks, log: seq<Work>, work: Work)
    requires ChecksPass(initial, log)
    requires work.Cart? ==> EachLineAvailable(Replay(initial, log), work.branch, work.lines)
    ensures ChecksPass(initial, log + [work])
  {
    forall i | 0 <= i <= |log| ensures (log + [work])[..i] == log[..i] {
    }
    assert log[..|log|] == log;
  }

  lemma CommitKeepsInv(initial: Stocks, s: State, c: int)
    requires Inv(initial, s) && Enabled(s, Commit(c))
    ensures Inv(initial, Execute(s, Commit(c)))
  {
    var client := s.clients[c];
    OthersUndisturbed(initial, s, client.own, Execute(s, Commit(c)).locks, c);
    assert client.work.lines[..|client.work.lines|] == client.work.lines;
    ReplayNext(initial, s.log, client.work);
    ChecksNext(initial, s.log, client.work);
  }

  /** An action that commits nothing: the client it belongs to is shown fine, the others keep what they hold. */
  lemma LocalKeepsInv(initial: Stocks, s: State, s': State, c: int)
    requires Inv(initial, s)
    requires s'.committed == s.committed && s'.log == s.log
    requires forall d | d != c :: d in s'.clients <==> d in s.clients
    requires forall d <- s.clients | d != c :: s'.clients[d] == s.clients[d]
    requires c in s'.clients ==> ClientOk(s'.committed, s'.locks, c, s'.clients[c])
    requires forall k <- s'.locks :: s'.locks[k] in s'.clients
    requires forall d, k | d != c && Holds(s.locks, d, k) :: Holds(s'.locks, d, k)
    ensures Inv(initial, s')
  {
    OthersUndisturbed(initial, s, map[], s'.locks, c);
    assert s.committed + map[] == s.committed;
    forall d <- s'.clients ensures ClientOk(s'.committed, s'.locks, d, s'.clients[d]) {
      assert d != c ==> d in s.clients;
    }
  }

  lemma StartKeepsInv(initial: Stocks, s: State, c: int, work: Work)
    requires Inv(initial, s) && Enabled(s, Start(c, work))
    ensures Inv(initial, Execute(s, Start(c, work)))
  {
    assert s.committed + map[] == s.committed;
    LocalKeepsInv(initial, s, Execute(s, Start(c, work)), c);
  }

  lemma ScanKeepsInv(initial: Stocks, s: State, c: int, p: int)
    requires Inv(initial, s) && Enabled(s, ScanRow(c, p))
    ensures Inv(initial, Execute(s, ScanRow(c, p)))
  {
    ScanKeepsClient(s, c, p);
    LocalKeepsInv(initial, s, Execute(s, ScanRow(c, p)), c);
  }

  lemma EndScanKeepsInv(initial: Stocks, s: State, c: int)
    requires Inv(initial, s) && Enabled(s, EndScan(c))
    ensures Inv(initial, Execute(s, EndScan(c)))
  {
    EndScanKeepsClient(s, c);
    LocalKeepsInv(initial, s, Execute(s, EndScan(c)), c);
  }

  lemma UpdateKeepsInv(initial: Stocks, s: State, c: int)
    requires Inv(initial, s) && Enabled(s, Update(c))
    ensures Inv(initial, Execute(s, Update(c)))
  {
    UpdateKeepsClient(s, c);
    LocalKeepsInv(initial, s, Execute(s, Update(c)), c);
  }

  lemma UpsertKeepsInv(initial: Stocks, s: State, c: int)
    requires Inv(initial, s) && Enabled(s, Upsert(c))
    ensures Inv(initial, Execute(s, Upsert(c)))
  {
    UpsertKeepsClient(s, c);
    LocalKeepsInv(initial, s, Execute(s, Upsert(c)), c);
  }

  lemma ActionKeepsInv(initial: Stocks, s: State, a: Action)
    requires Inv(initial, s) && Enabled(s, a)
    ensures Inv(initial, Execute(s, a))
  {
    match a
    case Start(c, work) => StartKeepsInv(initial, s, c, work);
    case ScanRow(c, p) => ScanKeepsInv(initial, s, c, p);
    case EndScan(c) => EndScanKeepsInv(initial, s, c);
    case Update(c) => UpdateKeepsInv(initial, s, c);
    case Upsert(c) => UpsertKeepsInv(initial, s, c);
    case Commit(c) => CommitKeepsInv(initial, s, c);
    case Rollback(c) => LocalKeepsInv(initial, s, Execute(s, a), c);
  }

  lemma {:induction false} ScheduleKeepsInv(stocks: Stocks, schedule: seq<Action>)
    requires StocksInRange(stocks) && Exec(Initial(stocks), schedule).Some?
    ensures Inv(stocks, Exec(Initial(stocks), schedule).value)
  {
    if schedule != [] {
      var n := |schedule| - 1;
      ScheduleKeepsInv(stocks, schedule[..n]);
      ActionKeepsInv(stocks, Exec(Initial(stocks), schedule[..n]).value, schedule[n]);
    }
  }

  // ---------- main results ----------

  /**
    Serialisability of the stock table: after any schedule, the committed rows are those of running the committed
    works one after the other in commit order, each cart passing its availability check at its turn, and no row is
    ever outside its column.
   */
  lemma SchedulesAreSerial(stocks: Stocks, schedule: seq<Action>)
    requires StocksInRange(stocks) && Exec(Initial(stocks), schedule).Some?
    ensures var s := Exec(Initial(stocks), schedule).value;
      && s.committed == Replay(stocks, s.log) && ChecksPass(stocks, s.log) && StocksInRange(s.committed)
      && (forall w <- s.log :: Positive(w.lines))
  {
    ScheduleKeepsInv(stocks, schedule);
  }

  /** The cart's remaining demand at line i is within what is left of the row. */
  lemma CoveredGuard(committed: Stocks, branch: int, lines: seq<Line>, i: nat)
    requires Positive(lines) && StocksInRange(committed) && i < |lines|
    requires Covered(committed, branch, lines)
    ensures lines[i].quantity <= StockAt(DeductAll(committed, branch, lines[..i]), Key(branch, lines[i].product))
  {
    var p := lines[i].product;
    DemandStep(lines, p, i);
    DemandPrefix(lines, p, i + 1);
    assert forall l <- lines[..i] :: l in lines;
    DemandNonNegative(lines[..i], p);
    DeductAllAt(committed, branch, lines[..i], Key(branch, p));
  }

  /**
    In every reachable state, the guarded UPDATE of a cart of distinct products that passed its check neither waits
    nor misses: its row is locked by the client itself and holds enough stock. Ignoring the affected-row count
    therefore loses no decrement.
   */
  lemma GuardNeverMisses(stocks: Stocks, schedule: seq<Action>, c: int)
    requires StocksInRange(stocks) && Exec(Initial(stocks), schedule).Some?
    requires var s := Exec(Initial(stocks), schedule).value;
      Writes(s, c, true) && DistinctProducts(s.clients[c].work.lines)
    ensures var s := Exec(Initial(stocks), schedule).value;
      && Holds(s.locks, c, RowOf(s.clients[c].work, s.clients[c].phase.next))
      && Enabled(s, Update(c))
      && GuardHolds(s, c)
  {
    ScheduleKeepsInv(stocks, schedule);
    var s := Exec(Initial(stocks), schedule).value;
    var client := s.clients[c];
    DistinctLinesCovered(s.committed, client.work.branch, client.work.lines);
    GuardOfCovered(stocks, s, c);
  }

  lemma GuardOfCovered(stocks: Stocks, s: State, c: int)
    requires Inv(stocks, s) && Writes(s, c, true)
    requires Covered(s.committed, s.clients[c].work.branch, s.clients[c].work.lines)
    ensures Holds(s.locks, c, RowOf(s.clients[c].work, s.clients[c].phase.next))
    ensures Enabled(s, Update(c)) && GuardHolds(s, c)
  {
    var client := s.clients[c];
    assert ClientOk(s.committed, s.locks, c, client);
    var i := client.phase.next;
    assert client.work.lines[i] in client.work.lines;
    CoveredGuard(s.committed, client.work.branch, client.work.lines, i);
    DemandNonNegative(client.work.lines, client.work.lines[i].product);
  }

  /**
    For any cart, distinct or not: when its updates have all run, every requested unit has been taken if and only if
    the rows it locked covered the sum of its lines. The locks keep that condition from changing under it.
   */
  lemma AllTakenIffCovered(stocks: Stocks, schedule: seq<Action>, c: int)
    requires StocksInRange(stocks) && Exec(Initial(stocks), schedule).Some?
    requires var s := Exec(Initial(stocks), schedule).value;
      c in s.clients && s.clients[c].phase.Updating? && Finished(s.clients[c])
    ensures var s := Exec(Initial(stocks), schedule).value; var work := s.clients[c].work;
      (forall p :: StockAt(View(s, c), Key(work.branch, p))
        == StockAt(s.committed, Key(work.branch, p)) - Demand(work.lines, p))
      <==> Covered(s.committed, work.branch, work.lines)
  {
    ScheduleKeepsInv(stocks, schedule);
    var s := Exec(Initial(stocks), schedule).value;
    var work := s.clients[c].work;
    assert ClientOk(s.committed, s.locks, c, s.clients[c]);
    assert work.lines[..|work.lines|] == work.lines;
    forall p ensures StockAt(View(s, c), Key(work.branch, p))
      == StockAt(s.committed, Key(work.branch, p)) - Demand(work.lines, p)
      <==> Demand(work.lines, p) <= StockAt(s.committed, Key(work.branch, p)) {
      DeductAllAt(s.committed, work.branch, work.lines, Key(work.branch, p));
    }
  }

  // ---------- concurrent receives ----------

  function ReceivesOf(log: seq<Work>, order: int): nat {
    if log == [] then 0
    else
      var w := log[|log| - 1];
      ReceivesOf(log[..|log| - 1], order) + if w.Inflow? && w.order == Some(order) then 1 else 0
  }

  predicate Receives(client: Client, order: int) {
    client.work.Inflow? && client.work.order == Some(order)
  }

  predicate CommitsReceive(s: State, a: Action, order: int) {
    a.Commit? && a.client in s.clients && Receives(s.clients[a.client], order)
  }

  predicate LeadsOn(states: seq<State>, schedule: seq<Action>, i: nat)
    requires i < |schedule| && |states| == |schedule| + 1
  {
    Enabled(states[i], schedule[i]) && states[i + 1] == Execute(states[i], schedule[i])
  }

  /** The states a schedule goes through, from its start to its end. */
  ghost predicate IsTrace(states: seq<State>, schedule: seq<Action>) {
    |states| == |schedule| + 1 && forall i | 0 <= i < |schedule| :: LeadsOn(states, schedule, i)
  }

  function Trace(start: State, schedule: seq<Action>): seq<State> {
    if schedule == [] then [start]
    else
      var n := |schedule| - 1;
      Trace(start, schedule[..n]) + match Exec(start, schedule) case Some(s) => [s] case None => []
  }

  lemma {:induction false} TraceIs(start: State, schedule: seq<Action>)
    requires Exec(start, schedule).Some?
    ensures IsTrace(Trace(start, schedule), schedule)
    ensures Trace(start, schedule)[0] == start
    ensures Trace(start, schedule)[|schedule|] == Exec(start, schedule).value
  {
    if schedule != [] {
      var n := |schedule| - 1;
      TraceIs(start, schedule[..n]);
      TraceNext(Trace(start, schedule[..n]), schedule, Exec(start, schedule).value);
    }
  }

  lemma TraceNext(states: seq<State>, schedule: seq<Action>, next: State)
    requires schedule != [] && IsTrace(states, schedule[..|schedule| - 1])
    requires Enabled(states[|schedule| - 1], schedule[|schedule| - 1])
    requires next == Execute(states[|schedule| - 1], schedule[|schedule| - 1])
    ensures IsTrace(states + [next], schedule)
  {
    var n := |schedule| - 1;
    forall i | 0 <= i <= n ensures LeadsOn(states + [next], schedule, i) {
      assert i < n ==> LeadsOn(states, schedule[..n], i);
    }
  }

  /** One action counts a commit of a receive, and marks the order by it. */
  lemma CreditStep(s: State, a: Action, order: int)
    requires Enabled(s, a)
    ensures var s' := Execute(s, a);
      && ReceivesOf(s'.log, order) == ReceivesOf(s.log, order) + (if CommitsReceive(s, a, order) then 1 else 0)
      && (order in s'.received <==> order in s.received || CommitsReceive(s, a, order))
  {
    if a.Commit? {
      assert Execute(s, a).log[..|s.log|] == s.log;
    }
  }

  /** It starts no receive of an order that is received. */
  lemma ReceivingStep(s: State, a: Action, order: int, c: int)
    requires Enabled(s, a) && order in Execute(s, a).received && Receiving(Execute(s, a), c, order)
    ensures Receiving(s, c, order) && (a.Commit? ==> c != a.client)
  {
  }

  predicate Receiving(s: State, c: int, order: int) {
    c in s.clients && Receives(s.clients[c], order)
  }

  /** The same between two states of a schedule. */
  lemma CreditStepAt(states: seq<State>, schedule: seq<Action>, order: int, i: nat)
    requires IsTrace(states, schedule) && i < |schedule|
    ensures ReceivesOf(states[i + 1].log, order)
         == ReceivesOf(states[i].log, order) + (if CommitsReceive(states[i], schedule[i], order) then 1 else 0)
    ensures order in states[i + 1].received <==>
      order in states[i].received || CommitsReceive(states[i], schedule[i], order)
  {
    assert LeadsOn(states, schedule, i);
    CreditStep(states[i], schedule[i], order);
  }

  lemma ReceivingStepAt(states: seq<State>, schedule: seq<Action>, order: int, i: nat, c: int)
    requires IsTrace(states, schedule) && i < |schedule|
    requires order in states[i + 1].received && Receiving(states[i + 1], c, order)
    ensures Receiving(states[i], c, order) && (schedule[i].Commit? ==> c != schedule[i].client)
  {
    assert LeadsOn(states, schedule, i);
    ReceivingStep(states[i], schedule[i], order, c);
  }

  /** Received means credited, at every point of a schedule. */
  lemma {:induction false} ReceivedIffCredited(states: seq<State>, schedule: seq<Action>, order: int, i: nat)
    requires IsTrace(states, schedule) && i <= |schedule|
    requires ReceivesOf(states[0].log, order) > 0 <==> order in states[0].received
    ensures ReceivesOf(states[i].log, order) > 0 <==> order in states[i].received
  {
    if i > 0 {
      ReceivedIffCredited(states, schedule, order, i - 1);
      CreditStepAt(states, schedule, order, i - 1);
    }
  }

  lemma {:induction false} CreditsGrow(states: seq<State>, schedule: seq<Action>, order: int, i: nat, j: nat)
    requires IsTrace(states, schedule) && i <= j <= |schedule|
    ensures ReceivesOf(states[i].log, order) <= ReceivesOf(states[j].log, order)
    ensures order in states[i].received ==> order in states[j].received
    decreases j
  {
    if i < j {
      CreditsGrow(states, schedule, order, i, j - 1);
      CreditStepAt(states, schedule, order, j - 1);
    }
  }

  /** An order that became received did so in some commit. */
  lemma {:induction false} FirstCredit(states: seq<State>, schedule: seq<Action>, order: int, j: nat) returns (i: nat)
    requires IsTrace(states, schedule) && 0 < j <= |schedule|
    requires order !in states[0].received && order in states[j].received
    ensures i < j && CommitsReceive(states[i], schedule[i], order) && order in states[i + 1].received
  {
    i := j - 1;
    CreditStepAt(states, schedule, order, i);
    if order in states[i].received {
      i := FirstCredit(states, schedule, order, i);
    }
  }

  /** A client receiving an order that was received at i has been receiving it since before i. */
  lemma {:induction false} UnderWaySince(states: seq<State>, schedule: seq<Action>, order: int, i: nat, j: nat, c: int)
    requires IsTrace(states, schedule) && i <= j <= |schedule|
    requires order in states[i].received && Receiving(states[j], c, order)
    ensures Receiving(states[i], c, order)
    decreases j
  {
    if i < j {
      CreditsGrow(states, schedule, order, i, j);
      ReceivingStepAt(states, schedule, order, j - 1, c);
      UnderWaySince(states, schedule, order, i, j - 1, c);
    }
  }

  /** Actions i and j both commit a receive of the order, and the client of j is already receiving it at i. */
  predicate Overlapping(states: seq<State>, schedule: seq<Action>, order: int, i: nat, j: nat)
    requires i < j < |schedule| && |states| == |schedule| + 1
  {
    && CommitsReceive(states[i], schedule[i], order) && CommitsReceive(states[j], schedule[j], order)
    && schedule[j].client != schedule[i].client
    && Receiving(states[i], schedule[j].client, order)
  }

  /** Two credits come from two commits, the later one by a client that was already receiving at the earlier. */
  lemma {:induction false} TwoCredits(states: seq<State>, schedule: seq<Action>, order: int, n: nat)
    returns (i: nat, j: nat)
    requires IsTrace(states, schedule) && 0 < n <= |schedule|
    requires ReceivesOf(states[0].log, order) == 0 && order !in states[0].received
    requires ReceivesOf(states[n].log, order) > 1
    ensures i < j < |schedule| && Overlapping(states, schedule, order, i, j)
  {
    j := n - 1;
    CreditStepAt(states, schedule, order, j);
    if ReceivesOf(states[j].log, order) > 1 {
      i, j := TwoCredits(states, schedule, order, j);
    } else {
      ReceivedIffCredited(states, schedule, order, j);
      i := FirstCredit(states, schedule, order, j);
      UnderWaySince(states, schedule, order, i + 1, j, schedule[j].client);
      ReceivingStepAt(states, schedule, order, i, schedule[j].client);
    }
  }

  lemma OverlapCreditsTwice(states: seq<State>, schedule: seq<Action>, order: int, i: nat, j: nat)
    requires IsTrace(states, schedule) && i < j < |schedule| && Overlapping(states, schedule, order, i, j)
    ensures ReceivesOf(states[|schedule|].log, order) > 1
  {
    CreditStepAt(states, schedule, order, i);
    CreditsGrow(states, schedule, order, i + 1, j);
    CreditStepAt(states, schedule, order, j);
    CreditsGrow(states, schedule, order, j + 1, |schedule|);
  }

  /**
    An order's stock is credited more than once if and only if two receives of it overlap and both commit: the one
    that commits later had read its status, and begun, before the other committed. Whatever rolls back does no harm.
   */
  lemma CreditedTwiceIffOverlapping(stocks: Stocks, schedule: seq<Action>, order: int)
    requires Exec(Initial(stocks), schedule).Some?
    ensures var states := Trace(Initial(stocks), schedule);
      && IsTrace(states, schedule)
      && (ReceivesOf(Exec(Initial(stocks), schedule).value.log, order) > 1
          <==> exists i, j | 0 <= i < j < |schedule| :: Overlapping(states, schedule, order, i, j))
  {
    TraceIs(Initial(stocks), schedule);
    OverlapIff(Trace(Initial(stocks), schedule), schedule, order);
  }

  lemma OverlapIff(states: seq<State>, schedule: seq<Action>, order: int)
    requires IsTrace(states, schedule) && states[0].log == [] && states[0].received == {}
    ensures ReceivesOf(states[|schedule|].log, order) > 1
       <==> exists i, j | 0 <= i < j < |schedule| :: Overlapping(states, schedule, order, i, j)
  {
    if ReceivesOf(states[|schedule|].log, order) > 1 {
      var i, j := TwoCredits(states, schedule, order, |schedule|);
    }
    if exists i, j | 0 <= i < j < |schedule| :: Overlapping(states, schedule, order, i, j) {
      var i: nat, j: nat :| i < j < |schedule| && Overlapping(states, schedule, order, i, j);
      OverlapCreditsTwice(states, schedule, order, i, j);
    }
  }

  /** A trace is what its schedule executes to. */
  lemma {:induction false} TraceRuns(states: seq<State>, schedule: seq<Action>)
    requires IsTrace(states, schedule)
    ensures Exec(states[0], schedule) == Some(states[|schedule|])
  {
    if schedule != [] {
      var n := |schedule| - 1;
      var reached, before := states[..n + 1], schedule[..n];
      forall i | 0 <= i < n ensures LeadsOn(reached, before, i) {
        assert LeadsOn(states, schedule, i);
      }
      TraceRuns(reached, before);
      assert LeadsOn(states, schedule, n);
    }
  }

  const Delivery := Inflow(0, [Line(7, 5)], Some(3))

  const Overlap := [Start(1, Delivery), Start(2, Delivery), Upsert(1), Commit(1), Upsert(2), Commit(2)]

  function Shelf(stock: int): Stocks {
    map[Key(0, 7) := stock]
  }

  function Courier(next: nat, own: Stocks): Client {
    Client(Delivery, Crediting(next), own)
  }

  /** The states that schedule goes through. */
  const OverlapStates := [
    Initial(Shelf(0)),
    State(Shelf(0), map[], map[1 := Courier(0, map[])], {}, []),
    State(Shelf(0), map[], map[1 := Courier(0, map[]), 2 := Courier(0, map[])], {}, []),
    State(Shelf(0), map[Key(0, 7) := 1], map[1 := Courier(1, Shelf(5)), 2 := Courier(0, map[])], {}, []),
    State(Shelf(5), map[], map[2 := Courier(0, map[])], {3}, [Delivery]),
    State(Shelf(5), map[Key(0, 7) := 2], map[2 := Courier(1, Shelf(10))], {3}, [Delivery]),
    State(Shelf(10), map[], map[], {3}, [Delivery, Delivery])]

  lemma BothStart()
    ensures LeadsOn(OverlapStates, Overlap, 0) && LeadsOn(OverlapStates, Overlap, 1)
  {
  }

  lemma FirstDelivery()
    ensures LeadsOn(OverlapStates, Overlap, 2) && LeadsOn(OverlapStates, Overlap, 3)
  {
    var s := OverlapStates[3];
    assert Execute(s, Commit(1)).committed == Shelf(5) && Execute(s, Commit(1)).locks == map[];
    assert Execute(s, Commit(1)).clients == map[2 := Courier(0, map[])];
  }

  lemma SecondDelivery()
    ensures LeadsOn(OverlapStates, Overlap, 4) && LeadsOn(OverlapStates, Overlap, 5)
  {
    var s := OverlapStates[5];
    assert Execute(OverlapStates[4], Upsert(2)).clients == s.clients;
    assert Execute(s, Commit(2)).committed == Shelf(10) && Execute(s, Commit(2)).locks == map[];
  }

  /** Such a schedule exists: both read the pending status before either commits, and 5 units arrive as 10. */
  lemma OverlappingReceivesCreditTwice()
    ensures var r := Exec(Initial(Shelf(0)), Overlap);
      r.Some? && r.value.committed == Shelf(10) && ReceivesOf(r.value.log, 3) > 1
  {
    var states, schedule := OverlapStates, Overlap;
    BothStart();
    FirstDelivery();
    SecondDelivery();
    assert IsTrace(states, schedule);
    TraceRuns(states, schedule);
    OverlapCreditsTwice(states, schedule, 3, 3, 5);
  }
}
