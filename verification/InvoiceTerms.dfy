/** What the lines of a draft refer to (src/meter/pipeline/invoicing.py:136-309): each cites the
    assignment and the price list version it is billed under, and the late requests the draft reports
    are those of its lines. */
module InvoiceTerms {
  import opened Wrappers
  import opened Plans
  import opened Rating
  import opened Proration
  import opened Segments
  import opened InvoiceBands
  import opened InvoiceLines
  import opened InvoiceRuns
  import Calendar

  // ----- Citations -----

  /** The month whose usage the line bills. */
  function MonthBilled(line: Line, month: int): int {
    if line.usagePeriod.Some? then line.usagePeriod.value else month
  }

  /** The line names a plan assignment of the customer in force in that month, and its version. */
  ghost predicate Cites(plan: Plan, line: Line, p: int) {
    exists row <- plan.timeline :: row.id == line.assignment && row.version == line.version && InForce(row, p)
  }

  lemma {:induction false} SegmentCites(plan: Plan, usage: Usage, p: int, segment: PeriodSegment, line: Line)
    requires segment in SegmentsOf(plan, usage, p) && line.assignment == segment.id && line.version == segment.version
    ensures Cites(plan, line, p)
  {
    hide Calendar.MonthStart, Calendar.WholeDaysBetween, Calendar.DaysInMonth, AssignmentsInPeriod;
    var segments := SegmentsOf(plan, usage, p);
    var i :| 0 <= i < |segments| && segments[i] == segment;
    ResolvedVersions(SpansOf(plan, p), p, plan.lists, usage(p), i);
    ClippedOverlap(plan.timeline, Calendar.MonthStart(p), Calendar.MonthEnd(p), SpansOf(plan, p)[i]);
  }

  lemma {:induction false} ResolvedVersions(spans: seq<Clipped>, month: int, lists: nat -> PriceList,
      quantities: map<nat, nat>, i: nat)
    requires i < |spans|
    ensures Resolved(spans, month, lists, quantities)[i].version == spans[i].version
  {
    if i > 0 {
      ResolvedVersions(spans[1..], month, lists, quantities, i - 1);
    }
  }

  lemma {:induction false} SegmentLinesName(segment: PeriodSegment, next: nat)
    requires segment.Domain().Valid()
    ensures forall line <- SegmentLines(segment, next) ::
      line.kind != PriorUsage && line.assignment == segment.id && line.version == segment.version && line.usagePeriod.None?
  {
    hide Prorated, RateLines, Indices, ChargeLines;
    var pl := segment.Domain().List();
    var lines := RateLines(pl, segment.quantity);
    IndicesLength(lines, pl.bands, 0);
    ChargeLinesShape(lines, Indices(lines, pl.bands, 0), segment, next);
  }

  lemma {:induction false} CurrentLinesName(segments: seq<PeriodSegment>, next: nat)
    requires Ratable(segments)
    ensures forall line <- CurrentLines(segments, next) ::
      line.kind != PriorUsage && line.usagePeriod.None?
      && exists s <- segments :: line.assignment == s.id && line.version == s.version
  {
    hide Prorated, SegmentLines;
    if segments != [] {
      SegmentLinesName(segments[0], next);
      CurrentLinesName(segments[1..], next + |SegmentLines(segments[0], next)|);
      assert segments[0] in segments && forall s <- segments[1..] :: s in segments;
    }
  }

  lemma {:induction false} MonthLateName(segments: seq<PeriodSegment>, invoices: seq<Invoice>, p: int, next: nat)
    requires Ratable(segments) && AllAccepted(invoices)
    ensures forall line <- MonthLate(segments, invoices, p, next) ::
      line.kind == PriorUsage && line.usagePeriod == Some(p)
      && exists s <- segments :: line.assignment == s.id && line.version == s.version
  {
    hide Prorated, Already, Accepted, DeltaLines;
    if segments != [] {
      var s := segments[0];
      ProratedValid(s.priceList, s.days, s.daysInMonth);
      var already := Already(invoices, p, s.id);
      DeltaLinesShape(s.Domain().List(), s, already, p, 0, next);
      MonthLateName(segments[1..], invoices, p, next + |LateLines(s.Domain().List(), s, already, p, next)|);
      assert s in segments && forall r <- segments[1..] :: r in segments;
    }
  }

  lemma {:induction false} PriorLinesCite(plan: Plan, usage: Usage, invoices: seq<Invoice>, earlier: seq<Period>,
      next: nat)
    requires plan.Valid() && AllAccepted(invoices)
    ensures forall line <- PriorLines(plan, usage, invoices, earlier, next) ::
      line.kind == PriorUsage && line.usagePeriod.Some? && Period(line.usagePeriod.value, Invoiced) in earlier
      && Cites(plan, line, line.usagePeriod.value)
  {
    hide SegmentsOf, MonthLate, Accepted, Cites;
    if earlier != [] {
      if earlier[0].status != Invoiced {
        PriorLinesCite(plan, usage, invoices, earlier[1..], next);
      } else {
        var p := earlier[0].month;
        PlanFits(plan, usage, p);
        var segments := SegmentsOf(plan, usage, p);
        var first := MonthLate(segments, invoices, p, next);
        MonthLateName(segments, invoices, p, next);
        forall line | line in first ensures Cites(plan, line, p) {
          var s :| s in segments && line.assignment == s.id && line.version == s.version;
          SegmentCites(plan, usage, p, s, line);
        }
        PriorLinesCite(plan, usage, invoices, earlier[1..], next + |first|);
      }
    }
  }

  /** Every line of a draft cites the assignment and the version in force in the month it bills: the
      invoice's own for fee and usage lines, an earlier invoiced one for late usage. */
  lemma {:induction false} DraftCites(plan: Plan, usage: Usage, s: Store, month: int)
    requires plan.Valid() && AllAccepted(s.invoices) && Built(plan, usage, s, month).Some?
    ensures forall line <- Built(plan, usage, s, month).value.lines ::
      && Cites(plan, line, MonthBilled(line, month))
      && (line.kind == PriorUsage <==> line.usagePeriod.Some?)
      && (line.kind == PriorUsage ==> Period(MonthBilled(line, month), Invoiced) in s.periods && MonthBilled(line, month) < month)
  {
    hide SegmentsOf, Accepted, PriorLines, CurrentLines, PeriodBill, PriorRequests, Total, Cites;
    PlanFits(plan, usage, month);
    var segments := SegmentsOf(plan, usage, month);
    var current := CurrentLines(segments, 1);
    CurrentLinesName(segments, 1);
    PriorLinesCite(plan, usage, s.invoices, Before(s.periods, month), |current| + 1);
    forall line | line in current ensures Cites(plan, line, month) {
      var r :| r in segments && line.assignment == r.id && line.version == r.version;
      SegmentCites(plan, usage, month, r, line);
    }
  }

  // ----- The late requests a draft reports -----

  /** The requests of the late lines. */
  function LateQuantity(lines: seq<Line>): int {
    if lines == [] then 0 else (if lines[0].kind == PriorUsage then lines[0].quantity else 0) + LateQuantity(lines[1..])
  }

  lemma {:induction false} LateQuantityConcat(a: seq<Line>, b: seq<Line>)
    ensures LateQuantity(a + b) == LateQuantity(a) + LateQuantity(b)
  {
    if a == [] {
      assert a + b == b;
    } else {
      assert (a + b)[1..] == a[1..] + b;
      LateQuantityConcat(a[1..], b);
    }
  }

  lemma {:induction false} NoneLate(lines: seq<Line>)
    requires forall line <- lines :: line.kind != PriorUsage
    ensures LateQuantity(lines) == 0
  {
    if lines != [] {
      NoneLate(lines[1..]);
    }
  }

  lemma {:induction false} AllLate(lines: seq<Line>, month: int, p: int, id: nat)
    requires forall line <- lines :: line.kind == PriorUsage && line.assignment == id && line.usagePeriod == Some(p)
    ensures LateQuantity(lines) == Tally(lines, month, p, id, Quantity)
  {
    if lines != [] {
      AllLate(lines[1..], month, p, id);
    }
  }

  lemma {:induction false} LateLinesQuantity(pl: PriceList, segment: PeriodSegment, already: nat, p: int, next: nat)
    requires pl.Valid() && segment.quantity >= 0
    ensures LateQuantity(LateLines(pl, segment, already, p, next)) == Max(0, segment.quantity - already)
  {
    hide DeltaLines, Rated, Tally, LateQuantity;
    LateTally(pl, segment, already, p, next, p, p, segment.id, Quantity);
    DeltaLinesShape(pl, segment, already, p, 0, next);
    AllLate(LateLines(pl, segment, already, p, next), p, p, segment.id);
    RatedMeaning(pl, segment.quantity, None);
    RatedMeaning(pl, already, None);
  }

  lemma {:induction false} MonthLateQuantity(segments: seq<PeriodSegment>, invoices: seq<Invoice>, p: int, next: nat)
    requires Ratable(segments) && AllAccepted(invoices)
    ensures LateQuantity(MonthLate(segments, invoices, p, next)) == LateRequests(segments, invoices, p)
  {
    hide Prorated, Already, Accepted, LateLines;
    if segments != [] {
      var s := segments[0];
      ProratedValid(s.priceList, s.days, s.daysInMonth);
      var already := Already(invoices, p, s.id);
      var first := LateLines(s.Domain().List(), s, already, p, next);
      LateLinesQuantity(s.Domain().List(), s, already, p, next);
      MonthLateQuantity(segments[1..], invoices, p, next + |first|);
      LateQuantityConcat(first, MonthLate(segments[1..], invoices, p, next + |first|));
    }
  }

  lemma {:induction false} PriorLinesQuantity(plan: Plan, usage: Usage, invoices: seq<Invoice>, earlier: seq<Period>,
      next: nat)
    requires plan.Valid() && AllAccepted(invoices)
    ensures LateQuantity(PriorLines(plan, usage, invoices, earlier, next)) == PriorRequests(plan, usage, invoices, earlier)
  {
    hide SegmentsOf, MonthLate, LateRequests, Accepted;
    if earlier != [] {
      if earlier[0].status != Invoiced {
        PriorLinesQuantity(plan, usage, invoices, earlier[1..], next);
      } else {
        var p := earlier[0].month;
        PlanFits(plan, usage, p);
        var first := MonthLate(SegmentsOf(plan, usage, p), invoices, p, next);
        MonthLateQuantity(SegmentsOf(plan, usage, p), invoices, p, next);
        PriorLinesQuantity(plan, usage, invoices, earlier[1..], next + |first|);
        LateQuantityConcat(first, PriorLines(plan, usage, invoices, earlier[1..], next + |first|));
      }
    }
  }

  /** The late requests a draft reports are the requests its late lines bill. */
  lemma {:induction false} DraftReportsItsLateRequests(plan: Plan, usage: Usage, s: Store, month: int)
    requires plan.Valid() && AllAccepted(s.invoices) && Built(plan, usage, s, month).Some?
    ensures Built(plan, usage, s, month).value.priorRequests == LateQuantity(Built(plan, usage, s, month).value.lines)
  {
    hide SegmentsOf, Accepted, PriorLines, CurrentLines, PeriodBill, PriorRequests, Total, LateQuantity;
    PlanFits(plan, usage, month);
    var segments, earlier := SegmentsOf(plan, usage, month), Before(s.periods, month);
    var current := CurrentLines(segments, 1);
    CurrentLinesName(segments, 1);
    NoneLate(current);
    PriorLinesQuantity(plan, usage, s.invoices, earlier, |current| + 1);
    LateQuantityConcat(current, PriorLines(plan, usage, s.invoices, earlier, |current| + 1));
  }

  // ----- The two totals of a draft -----

  /** The amount of the late lines. */
  function LateAmount(lines: seq<Line>): int {
    if lines == [] then 0 else (if lines[0].kind == PriorUsage then lines[0].amount else 0) + LateAmount(lines[1..])
  }

  lemma {:induction false} LateAmountConcat(a: seq<Line>, b: seq<Line>)
    ensures LateAmount(a + b) == LateAmount(a) + LateAmount(b)
  {
    if a == [] {
      assert a + b == b;
    } else {
      assert (a + b)[1..] == a[1..] + b;
      LateAmountConcat(a[1..], b);
    }
  }

  lemma {:induction false} AmountsByKind(lines: seq<Line>)
    ensures (forall line <- lines :: line.kind != PriorUsage) ==> LateAmount(lines) == 0
    ensures (forall line <- lines :: line.kind == PriorUsage) ==> LateAmount(lines) == Total(lines)
  {
    if lines != [] {
      AmountsByKind(lines[1..]);
    }
  }

  /** A draft's prior total is what its late lines charge, and its period total what the others do. */
  lemma {:induction false} DraftSplitsItsTotal(plan: Plan, usage: Usage, s: Store, month: int)
    requires plan.Valid() && AllAccepted(s.invoices) && Built(plan, usage, s, month).Some?
    ensures var d := Built(plan, usage, s, month).value;
            d.priorTotal == LateAmount(d.lines) && d.periodTotal == Total(d.lines) - LateAmount(d.lines)
  {
    hide SegmentsOf, Accepted, PriorLines, CurrentLines, PeriodBill, PriorRequests, Total, LateAmount, Cites, Formed;
    PlanFits(plan, usage, month);
    var segments, earlier := SegmentsOf(plan, usage, month), Before(s.periods, month);
    var current := CurrentLines(segments, 1);
    var prior := PriorLines(plan, usage, s.invoices, earlier, |current| + 1);
    CurrentLinesName(segments, 1);
    PriorLinesCite(plan, usage, s.invoices, earlier, |current| + 1);
    AmountsByKind(current);
    AmountsByKind(prior);
    LateAmountConcat(current, prior);
    BuildIsAccepted(plan, usage, s, month);
  }
}
