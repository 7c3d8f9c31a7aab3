/** Month close (src/meter/pipeline/close.py): drain, aggregate, reconcile, and only then issue. */
module Close {
  import opened Wrappers
  import opened Plans
  import opened Rating
  import opened Proration
  import opened Segments
  import opened InvoiceBands
  import opened InvoiceLines
  import opened InvoiceRuns
  import opened Pipeline
  import opened Rollups
  import opened Reconcile
  import Calendar
  import Drain
  import InvoiceLedger
  import InvoiceStore

  // ----- The requests an invoice bills as its own month's usage -----

  function UsageQuantity(lines: seq<Line>): int {
    if lines == [] then 0 else (if lines[0].kind == CurrentUsage then lines[0].quantity else 0) + UsageQuantity(lines[1..])
  }

  lemma {:induction false} UsageQuantityConcat(a: seq<Line>, b: seq<Line>)
    ensures UsageQuantity(a + b) == UsageQuantity(a) + UsageQuantity(b)
  {
    if a == [] {
      assert a + b == b;
    } else {
      assert (a + b)[1..] == a[1..] + b;
      UsageQuantityConcat(a[1..], b);
    }
  }

  lemma {:induction false} ChargeLinesUsage(lines: seq<ChargeLine>, indices: seq<Option<nat>>, segment: PeriodSegment,
      next: nat, month: int)
    requires |lines| == |indices|
    ensures UsageQuantity(ChargeLines(lines, indices, segment, next))
         == Tally(ChargeLines(lines, indices, segment, next), month, month, segment.id, Quantity)
  {
    if lines != [] {
      ChargeLinesUsage(lines[1..], indices[1..], segment, next + 1, month);
    }
  }

  function SumQuantities(segments: seq<PeriodSegment>): int {
    if segments == [] then 0 else segments[0].quantity + SumQuantities(segments[1..])
  }

  lemma {:induction false} CurrentUsageQuantity(segments: seq<PeriodSegment>, next: nat)
    requires Ratable(segments)
    ensures UsageQuantity(CurrentLines(segments, next)) == SumQuantities(segments)
  {
    hide Prorated, RateLines, Indices, Tally, Rated, ChargeLines, ValidBands;
    if segments != [] {
      var s := segments[0];
      var pl, first := s.Domain().List(), SegmentLines(s, next);
      IndicesLength(RateLines(pl, s.quantity), pl.bands, 0);
      ChargeLinesUsage(RateLines(pl, s.quantity), Indices(RateLines(pl, s.quantity), pl.bands, 0), s, next, 0);
      SegmentTally(s, next, 0, 0, s.id, Quantity);
      RatedMeaning(pl, s.quantity, None);
      CurrentUsageQuantity(segments[1..], next + |first|);
      UsageQuantityConcat(first, CurrentLines(segments[1..], next + |first|));
    }
  }

  ghost predicate AllPrior(lines: seq<Line>) {
    forall line <- lines :: line.kind == PriorUsage
  }

  lemma {:induction false} MonthLatePrior(segments: seq<PeriodSegment>, invoices: seq<Invoice>, p: int, next: nat)
    requires Ratable(segments) && AllAccepted(invoices)
    ensures AllPrior(MonthLate(segments, invoices, p, next))
  {
    hide Prorated, Already, DeltaLines, Accepted;
    if segments != [] {
      var s := segments[0];
      ProratedValid(s.priceList, s.days, s.daysInMonth);
      var already := Already(invoices, p, s.id);
      DeltaLinesShape(s.Domain().List(), s, already, p, 0, next);
      MonthLatePrior(segments[1..], invoices, p, next + |LateLines(s.Domain().List(), s, already, p, next)|);
    }
  }

  lemma {:induction false} PriorLinesPrior(plan: Plan, usage: Usage, invoices: seq<Invoice>, earlier: seq<Period>,
      next: nat)
    requires plan.Valid() && AllAccepted(invoices)
    ensures AllPrior(PriorLines(plan, usage, invoices, earlier, next))
  {
    hide SegmentsOf, MonthLate, Accepted;
    if earlier != [] {
      if earlier[0].status != Invoiced {
        PriorLinesPrior(plan, usage, invoices, earlier[1..], next);
      } else {
        var p := earlier[0].month;
        PlanFits(plan, usage, p);
        MonthLatePrior(SegmentsOf(plan, usage, p), invoices, p, next);
        PriorLinesPrior(plan, usage, invoices, earlier[1..], next + |MonthLate(SegmentsOf(plan, usage, p), invoices, p, next)|);
      }
    }
  }

  lemma {:induction false} PriorIsNotCurrent(lines: seq<Line>)
    requires AllPrior(lines)
    ensures UsageQuantity(lines) == 0
  {
    if lines != [] {
      PriorIsNotCurrent(lines[1..]);
    }
  }

  /** An invoice's own usage lines bill exactly the quantities of its month's segments. */
  lemma {:induction false} DraftUsage(plan: Plan, usage: Usage, s: Store, month: int)
    requires plan.Valid() && AllAccepted(s.invoices) && Built(plan, usage, s, month).Some?
    ensures UsageQuantity(Built(plan, usage, s, month).value.lines) == SumQuantities(SegmentsOf(plan, usage, month))
  {
    hide Accepted, PriorLines, CurrentLines, SegmentsOf, PeriodBill, PriorRequests, UsageQuantity, AllPrior, Total;
    var segments, earlier := SegmentsOf(plan, usage, month), Before(s.periods, month);
    PlanFits(plan, usage, month);
    var current := CurrentLines(segments, 1);
    var prior := PriorLines(plan, usage, s.invoices, earlier, |current| + 1);
    CurrentUsageQuantity(segments, 1);
    PriorLinesPrior(plan, usage, s.invoices, earlier, |current| + 1);
    PriorIsNotCurrent(prior);
    UsageQuantityConcat(current, prior);
  }

  lemma {:induction false} QuantitiesAreSegments(spans: seq<Clipped>, month: int, lists: nat -> PriceList,
      quantities: map<nat, nat>, table: Table, a: Account)
    requires forall c <- spans :: QuantityOf(quantities, c.id) == SegmentTotal(table, a, c.id)
    ensures SumQuantities(Resolved(spans, month, lists, quantities)) == SumSegments(table, a, spans)
  {
    hide SegmentTotal, QuantityOf;
    if spans != [] {
      QuantitiesAreSegments(spans[1..], month, lists, quantities, table, a);
      assert spans[0] in spans;
      assert Resolved(spans, month, lists, quantities)[1..] == Resolved(spans[1..], month, lists, quantities);
    }
  }

  // ----- What runs beside a close -----

  /** The tasks beside the close, in its own process or in others: they capture, drain, through this
      worker's drain or another, clear, and aggregate any cells or any account. */
  datatype Beside =
    | Other(action: Action)
    | OwnBatch(now: int, idle: set<nat>)
    | AggregateCells(cells: set<(nat, int)>)
    | AggregateAccount(account: Account)

  lemma {:induction false} OtherKeepsExact(dir: Directory, b: Books, a: Action, consumer: nat)
    requires Exact(dir, b) && Enabled(b.pipe, a) && Drain.ByOthers(a, consumer)
    ensures Exact(dir, b.(pipe := Apply(b.pipe, a))) && RowsKept(b.pipe.rows, Apply(b.pipe, a).rows)
    ensures b.pipe.Held(consumer).NoBatch? ==> Apply(b.pipe, a).Held(consumer).NoBatch?
  {
    hide Inv, PeriodMatches, Counted, Rollup;
    StepMonotone(b.pipe, a);
    if a.Clean? {
      ClearKeepsExact(dir, b, a.cells);
    } else {
      DrainKeepsExact(dir, b, a);
    }
  }

  lemma {:induction false} AccountPassExact(dir: Directory, b: Books, a: Account)
    requires Exact(dir, b)
    ensures Consistent(b.pipe.rows) && ExactFor(dir, b.pipe.rows, Aggregated(dir, b, PeriodRows(b.pipe.rows, a)).table, a)
    ensures Exact(dir, Aggregated(dir, b, PeriodRows(b.pipe.rows, a)))
  {
    hide Inv, Counted, Rollup, Aggregate, PeriodMatches, InAccount, GroupOf, PeriodRows, CellRows, Whole;
    SelectionsAreWhole(dir, b, {}, a);
    AggregateKeepsExact(dir, b, PeriodRows(b.pipe.rows, a));
    forall g: Grain | InAccount(g, a)
      ensures Rollup(Aggregated(dir, b, PeriodRows(b.pipe.rows, a)).table, g) == |BillableIn(dir, b.pipe.rows, g)|
    {
      PeriodPassCounts(dir, b.table, b.pipe.rows, b.seen, a, g);
    }
  }

  predicate AllAttributable(dir: Directory, log: seq<Event>, a: Account) {
    forall e <- log :: e.wellFormed && e.billable && e.account == a ==> GroupOf(dir, e).Some?
  }

  lemma {:induction false} ReportedCounter(dir: Directory, s: State, table: Table, a: Account)
    ensures Reconciled(dir, s, table, a).counter == s.Counter(a)
  {
  }

  /** What the clock says at the i-th poll. */
  function TimeAt(clock: nat -> int, i: nat): int {
    clock(i)
  }

  /** The clock moves on from one poll to the next. */
  ghost predicate Advances(clock: nat -> int) {
    forall i: nat :: TimeAt(clock, i) < TimeAt(clock, i + 1)
  }

  lemma {:induction false} NextTick(clock: nat -> int, i: nat)
    requires Advances(clock)
    ensures TimeAt(clock, i) < TimeAt(clock, i + 1)
  {
  }

  lemma {:induction false} QuietConverges(dir: Directory, s: State, table: Table, a: Account)
    requires Inv(s) && Consistent(s.rows) && ExactFor(dir, s.rows, table, a)
    requires s.Outstanding() == 0 && s.Orphans(a) == 0 && AllAttributable(dir, s.log, a)
    ensures Reconciled(dir, s, table, a).Converged()
  {
    hide Balanced, UniqueKeys, Settled, BatchSound, Consistent, ExactFor, Reconciled, GroupOf;
    ConvergedExactly(dir, s, table, a);
    forall k | k in s.rows && s.rows[k].billable && s.rows[k].account == a ensures GroupOf(dir, s.rows[k]).Some? {
      var i :| 0 <= i < |s.log| && s.log[i].wellFormed && s.log[i].RowKey() == k && s.rows[k] == s.log[i];
      assert s.log[i] in s.log;
    }
  }

  class Closer {
    const dir: Directory
    const customer: nat
    const drainer: Drain.Drain
    const ledger: InvoiceStore.Ledger
    var table: Table
    ghost var seen: set<Key>

    /** The shared tables as they are now. */
    ghost function Held(): Books
      reads this, drainer, drainer.backend
    {
      Books(drainer.backend.s, table, seen)
    }

    ghost predicate Valid()
      reads this, drainer, drainer.backend, ledger
    {
      && drainer.Ready() && ledger.Valid()
      && ledger.plan.timeline == dir.plans(customer)
      && Exact(dir, Held())
    }

    constructor (dir: Directory, customer: nat, drainer: Drain.Drain, ledger: InvoiceStore.Ledger)
      requires drainer.Ready() && ledger.Valid() && ledger.plan.timeline == dir.plans(customer)
      requires LogMatches(drainer.backend.s.log)
      ensures Valid() && this.dir == dir && this.customer == customer && this.drainer == drainer && this.ledger == ledger
    {
      hide Inv, InvoiceLedger.Inv, LogMatches;
      this.dir, this.customer, this.drainer, this.ledger := dir, customer, drainer, ledger;
      table, seen := map[], {};
      new;
      drainer.backend.Sound();
      NoRollupsExact(dir, drainer.backend.s);
    }

    function AccountOf(month: int): Account {
      Account(customer, Calendar.MonthStart(month))
    }

    ghost function Report(month: int): Reconciliation
      reads this, drainer, drainer.backend
    {
      Reconciled(dir, drainer.backend.s, table, AccountOf(month))
    }

    method AggregatePeriod(month: int)
      requires Valid()
      modifies this
      ensures Valid() && old(seen) <= seen
      ensures Consistent(drainer.backend.s.rows) && ExactFor(dir, drainer.backend.s.rows, table, AccountOf(month))
    {
      hide Exact, Consistent, ExactFor, Aggregate, PeriodRows, InvoiceLedger.Inv;
      var rows := drainer.backend.s.rows;
      AccountPassExact(dir, Held(), AccountOf(month));
      table, seen := Aggregate(dir, table, rows, PeriodRows(rows, AccountOf(month))), seen + PeriodRows(rows, AccountOf(month));
    }

    /** Sums rollup cells, as `sum(billable_requests)` does. */
    method SumCells(grains: set<Grain>) returns (total: nat)
      ensures total == SumOver(table, grains)
    {
      hide Rollup;
      total := 0;
      var rest := grains;
      while rest != {}
        invariant total + SumOver(table, rest) == SumOver(table, grains)
        decreases |rest|
      {
        var g :| g in rest;
        SumOverPick(table, rest, g);
        total, rest := total + Rollup(table, g), rest - {g};
      }
    }

    method ReconcileMonth(month: int) returns (report: Reconciliation)
      ensures report == Report(month)
    {
      var s, a := drainer.backend.s, AccountOf(month);
      var rolled := SumCells(GrainsOf(table, a));
      report := Reconciliation(a, s.Counter(a), |RowsOf(s.rows, a)|, rolled, |Unattributed(dir, s.rows, a)|, s.Outstanding());
    }

    /** A batch of the drain loop, which shares this worker's drain. */
    method Batch(now: int, idle: set<nat>)
      requires Valid()
      modifies drainer, drainer.backend
      ensures Valid() && RowsKept(old(drainer.backend.s).rows, drainer.backend.s.rows)
    {
      hide Exact, Inv, InvoiceLedger.Inv, LogMatches, Drain.Alone, RowsKept, Drain.Drained, Settled;
      ghost var before := Held();
      ExactParts(dir, before);
      var _, ids := drainer.RunOnce(now, idle);
      Drain.DrainedKeeps(before.pipe, drainer.backend.s, ids, drainer.consumer);
      drainer.backend.Sound();
      ExactOnward(dir, before, drainer.backend.s);
    }

    /** One step of what runs beside. */
    method Step(step: Beside)
      requires Valid()
      requires step.Other? ==> Enabled(drainer.backend.s, step.action) && Drain.ByOthers(step.action, drainer.consumer)
      modifies this`table, this`seen, drainer, drainer.backend
      ensures Valid() && old(seen) <= seen && RowsKept(old(drainer.backend.s).rows, drainer.backend.s.rows)
    {
      hide Exact, InvoiceLedger.Inv, Aggregate, PeriodRows, CellRows, Enabled, Apply, Drain.ByOthers, Whole;
      match step {
        case Other(action) =>
          OtherKeepsExact(dir, Held(), action, drainer.consumer);
          drainer.backend.Do(action);
        case OwnBatch(now, idle) =>
          Batch(now, idle);
        case AggregateCells(cells) =>
          var selected := CellRows(drainer.backend.s.rows, cells);
          SelectionsAreWhole(dir, Held(), cells, Account(0, 0));
          AggregateKeepsExact(dir, Held(), selected);
          table, seen := Aggregate(dir, table, drainer.backend.s.rows, selected), seen + selected;
        case AggregateAccount(account) =>
          var selected := PeriodRows(drainer.backend.s.rows, account);
          SelectionsAreWhole(dir, Held(), {}, account);
          AggregateKeepsExact(dir, Held(), selected);
          table, seen := Aggregate(dir, table, drainer.backend.s.rows, selected), seen + selected;
      }
    }

    /** The rest of the system runs while the close sleeps or writes. */
    method Others(steps: seq<Beside>)
      requires Valid()
      modifies this`table, this`seen, drainer, drainer.backend
      ensures Valid() && old(seen) <= seen && RowsKept(old(drainer.backend.s).rows, drainer.backend.s.rows)
      ensures steps == [] ==> Held() == old(Held())
    {
      hide Exact, InvoiceLedger.Inv, Enabled, Drain.ByOthers;
      for i := 0 to |steps|
        invariant i == 0 ==> Held() == old(Held())
        invariant Valid() && old(seen) <= seen && RowsKept(old(drainer.backend.s).rows, drainer.backend.s.rows)
      {
        if steps[i].Other? ==> Enabled(drainer.backend.s, steps[i].action) && Drain.ByOthers(steps[i].action, drainer.consumer) {
          Step(steps[i]);
        }
      }
    }

    /** Nothing stands in the way of converging at once: nothing is pending, the drain's batches are
        enough for what is undelivered, no capture of the account is half applied, and each of its
        billable requests has a plan and a known key. */
    ghost predicate Quiet(month: int, maxBatches: nat)
      reads this, drainer, drainer.backend
    {
      var s, a := drainer.backend.s, AccountOf(month);
      && s.pending == map[] && maxBatches > |s.log| - s.delivered && s.Orphans(a) == 0
      && AllAttributable(dir, s.log, a)
    }

    /** One poll: drain, aggregate, reconcile. */
    method Poll(month: int, maxBatches: nat, now: nat -> int, idle: nat -> set<nat>) returns (report: Reconciliation)
      requires Valid()
      modifies this, drainer, drainer.backend
      ensures Valid() && report == Report(month)
      ensures Consistent(drainer.backend.s.rows) && ExactFor(dir, drainer.backend.s.rows, table, AccountOf(month))
      ensures drainer.backend.s.log == old(drainer.backend.s).log && drainer.backend.s.counters == old(drainer.backend.s).counters
      ensures drainer.backend.s.orphans == old(drainer.backend.s).orphans
      ensures old(drainer.backend.s).pending == map[] && maxBatches > |old(drainer.backend.s).log| - old(drainer.backend.s).delivered ==>
        drainer.backend.s.Outstanding() == 0 && Drain.AllStored(drainer.backend.s)
      ensures old(Quiet(month, maxBatches)) ==>
        report.Converged() && report.counter == old(drainer.backend.s).Counter(AccountOf(month))
    {
      hide Exact, Inv, InvoiceLedger.Inv, Consistent, ExactFor, Reconciled, LogMatches, Drain.Alone, RowsKept,
           Drain.AllStored, AllAttributable;
      ghost var before := Held();
      ExactParts(dir, before);
      var _, _, _ := drainer.DrainUntilEmpty(maxBatches, now, idle);
      drainer.backend.Sound();
      ExactOnward(dir, before, drainer.backend.s);
      AggregatePeriod(month);
      report := ReconcileMonth(month);
      ReportedCounter(dir, drainer.backend.s, table, AccountOf(month));
      if old(Quiet(month, maxBatches)) {
        QuietConverges(dir, drainer.backend.s, table, AccountOf(month));
      }
    }

    /** Drain, aggregate, reconcile, until it converges or the grace window is over. The report is
        the one of the state it leaves behind, with the account's rollups exact. */
    method Converge(month: int, maxBatches: nat, now: nat -> int, idle: nat -> set<nat>, clock: nat -> int,
        deadline: int, arrivals: nat -> seq<Beside>)
      returns (report: Reconciliation, polls: nat)
      requires Valid() && Advances(clock)
      modifies this, drainer, drainer.backend
      ensures Valid() && report == Report(month)
      ensures Consistent(drainer.backend.s.rows) && ExactFor(dir, drainer.backend.s.rows, table, AccountOf(month))
      ensures report.Converged() || TimeAt(clock, polls) >= deadline
      ensures forall i: nat :: i < polls ==> TimeAt(clock, i) < deadline
      ensures old(Quiet(month, maxBatches)) ==>
        report.Converged() && polls == 0 && report.counter == old(drainer.backend.s).Counter(AccountOf(month))
    {
      hide *;
      ghost var counted := drainer.backend.s.Counter(AccountOf(month));
      polls := 0;
      while true
        invariant Valid()
        invariant polls == 0 ==>
          Quiet(month, maxBatches) == old(Quiet(month, maxBatches)) && drainer.backend.s.Counter(AccountOf(month)) == counted
        invariant polls > 0 ==> !old(Quiet(month, maxBatches))
        invariant forall i: nat :: i < polls ==> TimeAt(clock, i) < deadline
        decreases deadline - TimeAt(clock, polls)
      {
        report := Poll(month, maxBatches, now, idle);
        if report.Converged() || TimeAt(clock, polls) >= deadline {
          return;
        }
        Others(arrivals(polls));
        NextTick(clock, polls);
        polls := polls + 1;
      }
    }

    /** Billable usage per assignment of one month. */
    method SegmentUsage(month: int) returns (usage: map<nat, nat>)
      ensures forall id: nat :: QuantityOf(usage, id) == SegmentTotal(table, AccountOf(month), id)
    {
      hide InAccount, Rollup;
      var a := AccountOf(month);
      usage := map[];
      var rest := set g | g in table && InAccount(g, a) :: g.assignment;
      while rest != {}
        invariant forall id :: id in rest ==> id !in usage
        invariant forall id: nat :: id !in rest ==> QuantityOf(usage, id) == SegmentTotal(table, a, id)
        decreases |rest|
      {
        var id :| id in rest;
        var total := SumCells(SegmentGrains(table, a, id));
        usage, rest := usage[id := total], rest - {id};
      }
    }

    method ReadUsage() returns (all: map<int, map<nat, nat>>)
      ensures forall p <- ledger.periods :: p.month in all
      ensures forall p <- ledger.periods, id: nat :: QuantityOf(all[p.month], id) == SegmentTotal(table, AccountOf(p.month), id)
    {
      hide SegmentTotal, QuantityOf;
      all := map[];
      for i := 0 to |ledger.periods|
        invariant forall j :: 0 <= j < i ==> ledger.periods[j].month in all
        invariant forall m: int, id: nat :: m in all ==> QuantityOf(all[m], id) == SegmentTotal(table, AccountOf(m), id)
      {
        var usage := SegmentUsage(ledger.periods[i].month);
        all := all[ledger.periods[i].month := usage];
      }
    }

    /** Generates from what the rollups say now. A new invoice's own usage is the month's rollups. */
    method IssueMonth(month: int) returns (r: Result<Outcome, InvoiceError>)
      requires Valid()
      modifies ledger
      ensures Valid()
      ensures forall i <- old(ledger.invoices) :: i.issued ==> i in ledger.invoices
      ensures r.Success? && !r.value.existed ==>
        && Invoice(month, true, r.value.draft.lines, r.value.draft.total) in ledger.invoices
        && UsageQuantity(r.value.draft.lines) == RollupTotal(table, AccountOf(month))
    {
      hide Exact, InvoiceLedger.Inv, Built, Generated, UsageQuantity, RollupTotal, QuantityOf, SegmentTotal,
           AllAccepted, Plan.Valid;
      var all := ReadUsage();
      var usage := m => if m in all then all[m] else map[];
      ghost var s := ledger.Contents();
      ledger.Sound(s);
      r := ledger.Generate(month, usage);
      if r.Success? && !r.value.existed {
        InvoiceLedger.GeneratedDraft(ledger.plan, usage, s, month);
        assert Period(month, StatusOf(s.periods, month).value) in s.periods;
        BilledAreRollups(dir, Held(), customer, ledger.plan, usage, s, month);
      }
    }

    /** Reconcile, then issue, with the rest of the system running between the two as well. `at` is
        the state of the report. A new invoice bills as its own usage the month's rollups as they are
        when it is issued: those of the report and the rows aggregated since. With the recorded
        discrepancy that is the reported counter and those rows, unless Postgres was ahead. */
    method CloseCustomer(month: int, maxBatches: nat, now: nat -> int, idle: nat -> set<nat>, clock: nat -> int,
        deadline: int, arrivals: nat -> seq<Beside>, between: seq<Beside>)
      returns (report: Reconciliation, discrepancy: int, r: Result<Outcome, InvoiceError>, ghost at: Books)
      requires Valid() && Advances(clock)
      modifies this, drainer, drainer.backend, ledger
      ensures Valid() && Exact(dir, at) && at.seen <= seen && RowsKept(at.pipe.rows, drainer.backend.s.rows)
      ensures report == Reconciled(dir, at.pipe, at.table, AccountOf(month)) && discrepancy == report.Discrepancy()
      ensures forall i <- old(ledger.invoices) :: i.issued ==> i in ledger.invoices
      ensures var a := AccountOf(month);
              && (report.Converged() ==> discrepancy == 0)
              && (report.Converged() <==>
                    at.pipe.Outstanding() == 0 && at.pipe.Orphans(a) == 0 && Unattributed(dir, at.pipe.rows, a) == {})
      ensures var a, since := AccountOf(month), Attributed(dir, drainer.backend.s.rows, seen - at.seen, AccountOf(month));
              r.Success? && !r.value.existed ==>
                && Invoice(month, true, r.value.draft.lines, r.value.draft.total) in ledger.invoices
                && UsageQuantity(r.value.draft.lines) == RollupTotal(table, a) == RollupTotal(at.table, a) + |since|
                && (UsageQuantity(r.value.draft.lines) + discrepancy == report.counter + |since| <==> report.CounterDelta() >= 0)
                && (report.CounterDelta() >= 0 ==>
                      (UsageQuantity(r.value.draft.lines) + discrepancy == report.counter <==> since == {}))
      ensures old(Quiet(month, maxBatches)) ==> report.Converged()
      ensures old(Quiet(month, maxBatches)) && between == [] && r.Success? && !r.value.existed ==>
        UsageQuantity(r.value.draft.lines) == old(drainer.backend.s).Counter(AccountOf(month))
    {
      hide Exact, InvoiceLedger.Inv, InvoiceLedger.Next, Consistent, ExactFor, UsageQuantity, RollupTotal,
           Unattributed, Attributed, RowsOf, RowsKept, GroupOf, AllAttributable;
      ledger.EnsurePeriod(month);
      ledger.StartReconciling(month);
      var polls;
      report, polls := Converge(month, maxBatches, now, idle, clock, deadline, arrivals);
      at := Held();
      discrepancy := report.Discrepancy();
      ExactParts(dir, at);
      ConvergedExactly(dir, at.pipe, at.table, AccountOf(month));
      DiscrepancyExact(dir, at.pipe, at.table, AccountOf(month));
      Others(between);
      ledger.MarkClosed(month);
      r := IssueMonth(month);
      TotalGrows(dir, at, Held(), AccountOf(month));
      if between == [] {
        assert seen - at.seen == {};
        NoneAttributed(dir, drainer.backend.s.rows, AccountOf(month));
      }
    }
  }

  lemma {:induction false} NoneAttributed(dir: Directory, rows: Rows, a: Account)
    ensures Attributed(dir, rows, {}, a) == {}
  {
  }

  lemma {:induction false} BilledAreRollups(dir: Directory, b: Books, customer: nat, plan: Plan, usage: Usage,
      s: Store, month: int)
    requires plan.Valid() && plan.timeline == dir.plans(customer) && AllAccepted(s.invoices) && Built(plan, usage, s, month).Some?
    requires Exact(dir, b)
    requires forall id: nat :: QuantityOf(usage(month), id) == SegmentTotal(b.table, Account(customer, Calendar.MonthStart(month)), id)
    ensures UsageQuantity(Built(plan, usage, s, month).value.lines) == RollupTotal(b.table, Account(customer, Calendar.MonthStart(month)))
  {
    hide Built, AllAccepted, Exact, Consistent, ExactFor, SegmentTotal, QuantityOf, RollupTotal, UsageQuantity,
         Calendar.MonthStart;
    var a, spans := Account(customer, Calendar.MonthStart(month)), SpansOf(plan, month);
    DraftUsage(plan, usage, s, month);
    QuantitiesAreSegments(spans, month, plan.lists, usage(month), b.table, a);
    ClippedIdsDistinct(plan.timeline, Calendar.MonthStart(month), Calendar.MonthEnd(month));
    SeenIsExact(dir, b, a);
    SegmentsCoverRollups(dir, SeenRows(b), b.table, customer, month, spans);
  }

  lemma {:induction false} NoRollupsExact(dir: Directory, s: State)
    requires Inv(s) && LogMatches(s.log)
    ensures Exact(dir, Books(s, map[], {}))
  {
    hide Inv;
    forall g: Grain ensures Counted(dir, s.rows, {}, g) == {} {
    }
  }

  // ----- A straggler between the report and the invoice -----

  /** What a fresh period pass makes of a state, and the report on it. */
  lemma {:induction false} FreshReport(dir: Directory, s: State, a: Account)
    requires Inv(s) && LogMatches(s.log) && s.Orphans(a) == 0
    ensures var table := Aggregate(dir, map[], s.rows, PeriodRows(s.rows, a));
            && RollupTotal(table, a) == |Attributed(dir, s.rows, PeriodRows(s.rows, a), a)|
            && Reconciled(dir, s, table, a).CounterDelta() >= 0
            && RollupTotal(table, a) + Reconciled(dir, s, table, a).Discrepancy() == s.Counter(a)
  {
    hide Inv, LogMatches, Exact, ExactFor, Consistent, Aggregate, PeriodRows, Attributed, RollupTotal, RowsOf,
         Unattributed;
    var b, selected := Books(s, map[], {}), PeriodRows(s.rows, a);
    NoRollupsExact(dir, s);
    AccountPassExact(dir, b, a);
    assert {} + selected == selected;
    TotalIsSeen(dir, Aggregated(dir, b, selected), a);
    DiscrepancyExact(dir, s, Aggregated(dir, b, selected).table, a);
  }

  lemma {:induction false} NothingYet(dir: Directory, a: Account)
    ensures var early := Reconciled(dir, EMPTY, Aggregate(dir, map[], EMPTY.rows, PeriodRows(EMPTY.rows, a)), a);
            early.Converged() && early.Discrepancy() == 0 && early.counter == 0
  {
    hide Aggregate, PeriodRows, RollupTotal;
    EmptyInv();
    FreshReport(dir, EMPTY, a);
    assert Attributed(dir, EMPTY.rows, PeriodRows(EMPTY.rows, a), a) == {} && RowsOf(EMPTY.rows, a) == {};
  }

  lemma {:induction false} JustCaptured(dir: Directory, e: Event, run: seq<Action>)
    requires run == [Capture(e, true, true)] && Enabled(EMPTY, run[0]) && PeriodMatches(e)
    ensures Legal(EMPTY, run)
    ensures var at := After(EMPTY, run);
            var late := Reconciled(dir, at, Aggregate(dir, map[], at.rows, PeriodRows(at.rows, e.account)), e.account);
            late.CounterDelta() >= 0 && late.Discrepancy() == late.counter == 1
  {
    hide Aggregate, PeriodRows, RollupTotal, PeriodMatches, Inv;
    var at, a := Apply(EMPTY, run[0]), e.account;
    assert run[1..] == [] && After(EMPTY, run) == at;
    EmptyInv();
    StepKeepsInv(EMPTY, run[0]);
    FreshReport(dir, at, a);
    assert Attributed(dir, at.rows, PeriodRows(at.rows, a), a) == {};
  }

  lemma {:induction false} AllTaken(dir: Directory, s: State, e: Event)
    requires Inv(s) && s.log == [e] && s.rows == map[e.RowKey() := e] && PeriodMatches(e) && e.billable && GroupOf(dir, e).Some?
    ensures RollupTotal(Aggregate(dir, map[], s.rows, PeriodRows(s.rows, e.account)), e.account) == 1
  {
    hide Inv, Aggregate, GroupOf, RollupTotal, PeriodMatches, Exact;
    NoRollupsExact(dir, s);
    var b, selected := Books(s, map[], {}), PeriodRows(s.rows, e.account);
    AccountPassExact(dir, b, e.account);
    TotalIsSeen(dir, Aggregated(dir, b, selected), e.account);
    assert Attributed(dir, s.rows, {} + selected, e.account) == {e.RowKey()};
  }

  /** One request, drained and aggregated after the report and before the invoice. Reported before it
      was captured, the close has converged on a counter of zero; reported after, it has recorded it as
      a discrepancy. Either way the invoice bills it, and usage plus discrepancy is not the counter. */
  lemma {:induction false} StragglerIsBilled() returns (dir: Directory, run: seq<Action>, a: Account)
    ensures |run| > 0 && Legal(EMPTY, run) && Legal(EMPTY, run[..1])
    ensures var at, later := After(EMPTY, run[..1]), After(EMPTY, run);
            var early := Reconciled(dir, EMPTY, Aggregate(dir, map[], EMPTY.rows, PeriodRows(EMPTY.rows, a)), a);
            var late := Reconciled(dir, at, Aggregate(dir, map[], at.rows, PeriodRows(at.rows, a)), a);
            var usage := RollupTotal(Aggregate(dir, map[], later.rows, PeriodRows(later.rows, a)), a);
            && early.Converged() && usage + early.Discrepancy() != early.counter
            && late.CounterDelta() >= 0 && usage + late.Discrepancy() != late.counter
  {
    hide Inv, Legal, After, Aggregate, Calendar.LocalDate, Calendar.PeriodStartOf, Reconciled, Apply, RollupTotal,
         PeriodRows, Attributed, LogMatches;
    a := Account(1, Calendar.PeriodStartOf(0));
    var e := Event(1, a, 1, 0, true, true);
    dir := Directory(_ => [Assignment(1, 0, 0, None)], {1});
    run := Drain.ServeOne(e, 7);
    Drain.ServedAlone(EMPTY, e, 7);
    NothingYet(dir, a);
    JustCaptured(dir, e, run[..1]);
    EmptyInv();
    RunKeepsInv(EMPTY, run);
    AllTaken(dir, After(EMPTY, run), e);
  }
}
