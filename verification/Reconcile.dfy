/** Reconciliation of one customer-period (src/meter/pipeline/reconcile.py, and the discrepancy a
    close records, src/meter/pipeline/close.py:101-105). */
module Reconcile {
  import opened Wrappers
  import opened Pipeline
  import opened Rollups
  import opened Segments
  import Calendar

  function Abs(x: int): int {
    if x < 0 then -x else x
  }

  datatype Reconciliation = Reconciliation(account: Account, counter: int, events: int, rollups: int, unattributed: int, outstanding: int) {
    function CounterDelta(): int {
      counter - events
    }

    function RollupDelta(): int {
      events - rollups
    }

    function Unexplained(): int {
      CounterDelta() - outstanding
    }

    predicate Converged() {
      outstanding == 0 && CounterDelta() == 0 && RollupDelta() == 0
    }

    /** What a close that gave up waiting writes on the period. */
    function Discrepancy(): int {
      if Converged() then 0 else Abs(CounterDelta()) + Abs(RollupDelta())
    }
  }

  /** The report on a state: counter, rows and rollups of one account, the whole stream's backlog. */
  ghost function Reconciled(dir: Directory, s: State, table: Table, a: Account): Reconciliation {
    Reconciliation(a, s.Counter(a), |RowsOf(s.rows, a)|, RollupTotal(table, a), |Unattributed(dir, s.rows, a)|, s.Outstanding())
  }

  // ----- What the deltas mean -----

  lemma {:induction false} CounterDeltaExact(dir: Directory, s: State, table: Table, a: Account)
    requires Inv(s)
    ensures Reconciled(dir, s, table, a).CounterDelta() == |Uncommitted(s.log, s.rows, a)| + s.Orphans(a)
    ensures s.delivered <= |s.log| && Uncommitted(s.log, s.rows, a) <= OutstandingIds(s) && |OutstandingIds(s)| == s.Outstanding()
  {
    hide RowsOf, Uncommitted, RollupTotal, Unattributed, UniqueKeys, RowsFromLog, Settled, OutstandingIds;
    assert Balanced(s, a);
    UncommittedOutstanding(s, [a]);
    assert UncommittedOf(s, [a]) == Uncommitted(s.log, s.rows, a) + UncommittedOf(s, []) by {
      assert [a][1..] == [];
    }
    OutstandingCounts(s);
  }

  /** `unexplained` sets one customer's counter against the whole stream. It is zero exactly when
      the half-applied captures of this account balance the outstanding entries that are not its
      own uncommitted ones: those of other customers, the malformed, and the committed but unacked. */
  lemma {:induction false} UnexplainedExact(dir: Directory, s: State, table: Table, a: Account)
    requires Inv(s)
    ensures s.delivered <= |s.log|
    ensures Reconciled(dir, s, table, a).Unexplained() == s.Orphans(a) - |OutstandingIds(s) - Uncommitted(s.log, s.rows, a)|
    ensures s.Orphans(a) == 0 ==>
      (Reconciled(dir, s, table, a).Unexplained() == 0 <==> OutstandingIds(s) == Uncommitted(s.log, s.rows, a))
  {
    hide Inv, Uncommitted, OutstandingIds, Reconciled;
    CounterDeltaExact(dir, s, table, a);
    DifferenceSize(OutstandingIds(s), Uncommitted(s.log, s.rows, a));
    ReconciledOutstanding(dir, s, table, a);
  }

  lemma {:induction false} ReconciledOutstanding(dir: Directory, s: State, table: Table, a: Account)
    ensures Reconciled(dir, s, table, a).outstanding == s.Outstanding()
  {
  }

  lemma {:induction false} DifferenceSize<T>(all: set<T>, some: set<T>)
    requires some <= all
    ensures |all - some| == |all| - |some|
    ensures |all - some| == 0 <==> all == some
  {
    assert all == some + (all - some);
  }

  /** Nothing lost, nothing half applied, and still unexplained: another customer's backlog is
      enough. */
  lemma {:induction false} HealthyYetUnexplained(dir: Directory, table: Table)
    ensures exists run: seq<Action>, a: Account ::
      && Legal(EMPTY, run)
      && (forall b: Account :: After(EMPTY, run).Orphans(b) == 0)
      && Reconciled(dir, After(EMPTY, run), table, a).Unexplained() != 0
  {
    hide Reconciled, Inv, Balanced, RowsOf;
    var mine, e := Account(1, 0), Event(1, Account(2, 0), 1, 0, true, true);
    var run := [Capture(e, true, true)];
    EmptyInv();
    var s := Apply(EMPTY, run[0]);
    StepKeepsInv(EMPTY, run[0]);
    assert After(EMPTY, run) == s by {
      assert Legal(s, run[1..]) && After(s, run[1..]) == s;
    }
    UnexplainedExact(dir, s, table, mine);
    assert 0 in OutstandingIds(s) - Uncommitted(s.log, s.rows, mine);
  }

  /** After a period pass, a report converges exactly when the stream is empty, no capture of the
      account is half applied and every billable row has a plan and a known key. */
  lemma {:induction false} ConvergedExactly(dir: Directory, s: State, table: Table, a: Account)
    requires Inv(s) && Consistent(s.rows) && ExactFor(dir, s.rows, table, a)
    ensures Reconciled(dir, s, table, a).Converged()
            <==> s.Outstanding() == 0 && s.Orphans(a) == 0 && Unattributed(dir, s.rows, a) == {}
    ensures Reconciled(dir, s, table, a).RollupDelta() == Reconciled(dir, s, table, a).unattributed
  {
    hide Inv, Uncommitted, OutstandingIds, Consistent, ExactFor, Unattributed, RowsOf, RollupTotal;
    CounterDeltaExact(dir, s, table, a);
    RollupDeltaExact(dir, s.rows, table, a);
    if s.Outstanding() == 0 {
      assert OutstandingIds(s) == {} && Uncommitted(s.log, s.rows, a) == {};
    }
  }

  /** The recorded discrepancy is exactly what the counter has and the rollups have not, unless
      Postgres is ahead of Redis. */
  lemma {:induction false} DiscrepancyExact(dir: Directory, s: State, table: Table, a: Account)
    requires Inv(s) && Consistent(s.rows) && ExactFor(dir, s.rows, table, a)
    ensures var r := Reconciled(dir, s, table, a);
            && (r.Discrepancy() == s.Counter(a) - RollupTotal(table, a) <==> r.CounterDelta() >= 0)
            && (s.Orphans(a) >= 0 ==> r.CounterDelta() >= 0)
            && (r.CounterDelta() < 0 ==> r.Discrepancy() == (|RowsOf(s.rows, a)| - s.Counter(a)) + (|RowsOf(s.rows, a)| - RollupTotal(table, a)) > 0)
  {
    hide Inv, Uncommitted, OutstandingIds, Consistent, ExactFor, Unattributed, RowsOf, RollupTotal;
    CounterDeltaExact(dir, s, table, a);
    RollupDeltaExact(dir, s.rows, table, a);
  }

  // ----- What the rollups of an account hold -----

  /** The billable rows of an account that count in some rollup, of those some pass has seen. */
  function Attributed(dir: Directory, rows: Rows, seen: set<Key>, a: Account): set<Key> {
    set k | k in seen && k in rows && rows[k].billable && rows[k].account == a && GroupOf(dir, rows[k]).Some?
  }

  function SeenRows(b: Books): Rows {
    map k | k in b.seen && k in b.pipe.rows :: b.pipe.rows[k]
  }

  /** Whatever passes have run, the rollups are exact for the rows they have seen. */
  lemma {:induction false} SeenIsExact(dir: Directory, b: Books, a: Account)
    requires Exact(dir, b)
    ensures Consistent(SeenRows(b)) && ExactFor(dir, SeenRows(b), b.table, a)
  {
    hide Inv, LogMatches, PeriodMatches, GroupOf, Rollup, InAccount;
    BooksConsistent(b.pipe);
    forall g: Grain ensures Rollup(b.table, g) == |BillableIn(dir, SeenRows(b), g)| {
      assert BillableIn(dir, SeenRows(b), g) == Counted(dir, b.pipe.rows, b.seen, g);
    }
  }

  lemma {:induction false} TotalIsSeen(dir: Directory, b: Books, a: Account)
    requires Exact(dir, b)
    ensures RollupTotal(b.table, a) == |Attributed(dir, b.pipe.rows, b.seen, a)|
  {
    hide Exact, Consistent, ExactFor, GroupOf, RollupTotal;
    SeenIsExact(dir, b, a);
    RollupDeltaExact(dir, SeenRows(b), b.table, a);
    var counted, uncounted := Attributed(dir, b.pipe.rows, b.seen, a), Unattributed(dir, SeenRows(b), a);
    assert RowsOf(SeenRows(b), a) == counted + uncounted;
    assert counted !! uncounted;
  }

  /** From one state to a later one, an account's rollups grow by the rows that passes in between
      have taken. */
  lemma {:induction false} TotalGrows(dir: Directory, at: Books, b: Books, a: Account)
    requires Exact(dir, at) && Exact(dir, b) && at.seen <= b.seen && RowsKept(at.pipe.rows, b.pipe.rows)
    ensures RollupTotal(b.table, a) == RollupTotal(at.table, a) + |Attributed(dir, b.pipe.rows, b.seen - at.seen, a)|
  {
    hide RollupTotal, GroupOf, Inv, Counted, Rollup, LogMatches;
    TotalIsSeen(dir, at, a);
    TotalIsSeen(dir, b, a);
    var before, late := Attributed(dir, at.pipe.rows, at.seen, a), Attributed(dir, b.pipe.rows, b.seen - at.seen, a);
    assert Attributed(dir, b.pipe.rows, b.seen, a) == before + late;
    assert before !! late;
  }

  // ----- From the rollups to the segments of the invoice -----

  function SegmentGrains(table: Table, a: Account, id: nat): set<Grain> {
    set g | g in table && InAccount(g, a) && g.assignment == id
  }

  /** `segment_usage` for one assignment. */
  ghost function SegmentTotal(table: Table, a: Account, id: nat): nat {
    SumOver(table, SegmentGrains(table, a, id))
  }

  ghost function SumSegments(table: Table, a: Account, spans: seq<Clipped>): nat {
    if spans == [] then 0 else SegmentTotal(table, a, spans[0].id) + SumSegments(table, a, spans[1..])
  }

  function IdsOf(spans: seq<Clipped>): set<nat> {
    set c | c in spans :: c.id
  }

  function GrainsIn(table: Table, a: Account, ids: set<nat>): set<Grain> {
    set g | g in table && InAccount(g, a) && g.assignment in ids
  }

  lemma {:induction false} SegmentsSum(table: Table, a: Account, spans: seq<Clipped>)
    requires forall i, j :: 0 <= i < j < |spans| ==> spans[i].id != spans[j].id
    ensures SumSegments(table, a, spans) == SumOver(table, GrainsIn(table, a, IdsOf(spans)))
  {
    hide InAccount;
    if spans == [] {
      assert GrainsIn(table, a, IdsOf(spans)) == {};
    } else {
      var one, rest := SegmentGrains(table, a, spans[0].id), GrainsIn(table, a, IdsOf(spans[1..]));
      SegmentsSum(table, a, spans[1..]);
      assert forall c <- spans[1..] :: c.id != spans[0].id;
      assert GrainsIn(table, a, IdsOf(spans)) == one + rest by {
        assert forall c :: c in spans <==> c == spans[0] || c in spans[1..];
      }
      SumOverSplit(table, one, rest);
    }
  }

  lemma {:induction false} SumOverZero(table: Table, grains: set<Grain>)
    requires forall g <- grains :: Rollup(table, g) == 0
    ensures SumOver(table, grains) == 0
    decreases |grains|
  {
    hide Rollup;
    if grains != {} {
      var g :| g in grains;
      SumOverPick(table, grains, g);
      SumOverZero(table, grains - {g});
    }
  }

  lemma {:induction false} MonthStartInjective(a: int, b: int)
    requires Calendar.MonthStart(a) == Calendar.MonthStart(b)
    ensures a == b
  {
    if a < b {
      Calendar.FirstDayMonotone(a, b);
    } else if b < a {
      Calendar.FirstDayMonotone(b, a);
    }
  }

  lemma {:induction false} PlanAtCovers(rows: seq<Assignment>, instant: int)
    ensures PlanAt(rows, instant).Some? ==> PlanAt(rows, instant).value in rows && Covers(PlanAt(rows, instant).value, instant)
  {
    if rows != [] {
      PlanAtCovers(rows[1..], instant);
    }
  }

  /** A row that counts in a grain of the month was served under one of the month's segments. */
  lemma {:induction false} AttributedToSegment(dir: Directory, e: Event, customer: nat, month: int, g: Grain)
    requires PeriodMatches(e) && GroupOf(dir, e) == Some(g) && InAccount(g, Account(customer, Calendar.MonthStart(month)))
    ensures g.assignment in IdsOf(AssignmentsInPeriod(dir.plans(customer), Calendar.MonthStart(month), Calendar.MonthEnd(month)))
  {
    hide Calendar.MonthStart, Calendar.LocalDate, Calendar.PeriodStartOf, PlanAt;
    var rows := dir.plans(customer);
    var row := PlanAt(rows, e.occurredAt).value;
    PlanAtCovers(rows, e.occurredAt);
    InMonth(dir, e, customer, month, g);
    assert Overlaps(row, Calendar.MonthStart(month), Calendar.MonthEnd(month));
    OverlapIsClipped(rows, row, Calendar.MonthStart(month), Calendar.MonthEnd(month));
  }

  lemma {:induction false} InMonth(dir: Directory, e: Event, customer: nat, month: int, g: Grain)
    requires PeriodMatches(e) && GroupOf(dir, e) == Some(g) && InAccount(g, Account(customer, Calendar.MonthStart(month)))
    ensures Calendar.MonthStart(month) <= e.occurredAt < Calendar.MonthEnd(month)
  {
    hide Calendar.MonthStart, Calendar.LocalDate, Calendar.MonthOf;
    GroupInAccount(dir, e);
    SameAccount(g, e.account, Account(customer, Calendar.MonthStart(month)));
    MonthStartInjective(month, Calendar.PeriodMonth(e.occurredAt));
    Calendar.InstantInOnePeriod(e.occurredAt, month);
  }

  /** The segments of a month share out its rollups completely. */
  lemma {:induction false} SegmentsCoverRollups(dir: Directory, rows: Rows, table: Table, customer: nat, month: int,
      spans: seq<Clipped>)
    requires Consistent(rows) && ExactFor(dir, rows, table, Account(customer, Calendar.MonthStart(month)))
    requires spans == AssignmentsInPeriod(dir.plans(customer), Calendar.MonthStart(month), Calendar.MonthEnd(month))
    requires forall i, j :: 0 <= i < j < |spans| ==> spans[i].id != spans[j].id
    ensures SumSegments(table, Account(customer, Calendar.MonthStart(month)), spans) == RollupTotal(table, Account(customer, Calendar.MonthStart(month)))
  {
    hide InAccount, GroupOf, Rollup, Calendar.MonthStart, AssignmentsInPeriod, PeriodMatches;
    var a := Account(customer, Calendar.MonthStart(month));
    var inside := GrainsIn(table, a, IdsOf(spans));
    var outside := GrainsOf(table, a) - inside;
    SegmentsSum(table, a, spans);
    forall g | g in outside ensures Rollup(table, g) == 0 {
      if BillableIn(dir, rows, g) != {} {
        var k :| k in BillableIn(dir, rows, g);
        AttributedToSegment(dir, rows[k], customer, month, g);
      }
    }
    SumOverZero(table, outside);
    SumOverSplit(table, inside, outside);
    assert inside + outside == GrainsOf(table, a);
  }
}
