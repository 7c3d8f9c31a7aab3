/** The invoice tables of one customer and the code that writes them
    (src/meter/pipeline/invoicing.py:190-379, src/meter/pipeline/close.py:85-162). */
module InvoiceStore {
  import opened Wrappers
  import opened Proration
  import opened Segments
  import opened InvoiceLines
  import opened InvoiceRuns
  import opened InvoiceLedger

  lemma {:induction false} MonthLateStep(lines: seq<Line>, segments: seq<PeriodSegment>, invoices: seq<Invoice>,
      p: int, k: nat, next: nat)
    requires Ratable(segments) && AllAccepted(invoices) && k < |segments|
    ensures segments[k].Domain().Valid() && segments[k].Domain().List().Valid()
    ensures var late := LateLines(segments[k].Domain().List(), segments[k], Already(invoices, p, segments[k].id), p, next + |lines|);
            lines + MonthLate(segments[k..], invoices, p, next + |lines|)
            == (lines + late) + MonthLate(segments[k + 1..], invoices, p, next + |lines + late|)
    ensures LateRequests(segments[k..], invoices, p)
         == Max(0, segments[k].quantity - Already(invoices, p, segments[k].id)) + LateRequests(segments[k + 1..], invoices, p)
  {
    hide Prorated, Already, LateLines, Accepted;
    assert segments[k..][0] == segments[k] && segments[k..][1..] == segments[k + 1..];
    ProratedValid(segments[k].priceList, segments[k].days, segments[k].daysInMonth);
    var late := LateLines(segments[k].Domain().List(), segments[k], Already(invoices, p, segments[k].id), p, next + |lines|);
    assert next + |lines + late| == next + |lines| + |late|;
  }

  lemma {:induction false} PriorLinesStep(plan: Plan, usage: Usage, lines: seq<Line>, invoices: seq<Invoice>,
      earlier: seq<Period>, k: nat, next: nat)
    requires plan.Valid() && AllAccepted(invoices) && k < |earlier|
    ensures Ratable(SegmentsOf(plan, usage, earlier[k].month))
    ensures var late := if earlier[k].status == Invoiced then MonthLate(SegmentsOf(plan, usage, earlier[k].month), invoices, earlier[k].month, next + |lines|) else [];
            lines + PriorLines(plan, usage, invoices, earlier[k..], next + |lines|)
            == (lines + late) + PriorLines(plan, usage, invoices, earlier[k + 1..], next + |lines + late|)
    ensures PriorRequests(plan, usage, invoices, earlier[k..])
         == (if earlier[k].status == Invoiced then LateRequests(SegmentsOf(plan, usage, earlier[k].month), invoices, earlier[k].month) else 0)
            + PriorRequests(plan, usage, invoices, earlier[k + 1..])
  {
    hide SegmentsOf, MonthLate, Accepted, Ratable, DistinctIds, FitsMonth, LateRequests;
    assert earlier[k..][0] == earlier[k] && earlier[k..][1..] == earlier[k + 1..];
    PlanFits(plan, usage, earlier[k].month);
    if earlier[k].status == Invoiced {
      var late := MonthLate(SegmentsOf(plan, usage, earlier[k].month), invoices, earlier[k].month, next + |lines|);
      assert next + |lines + late| == next + |lines| + |late|;
    } else {
      assert lines + [] == lines;
    }
  }

  lemma {:induction false} OpenIsTheStatus(periods: seq<Period>, month: int)
    requires Ordered(periods)
    ensures StatusOf(periods, month) == Some(Open) <==> Period(month, Open) in periods
    ensures forall q <- periods :: q.month == month ==> StatusOf(periods, month) == Some(q.status)
  {
    forall q | q in periods && q.month == month ensures StatusOf(periods, month) == Some(q.status) {
      OneRowPerMonth(periods, q, Period(month, StatusOf(periods, month).value));
    }
  }

  class Ledger {
    const plan: Plan
    var periods: seq<Period>
    var invoices: seq<Invoice>

    ghost function Contents(): Store
      reads this
    {
      Store(periods, invoices)
    }

    ghost predicate Valid()
      reads this
    {
      Inv(plan, Contents())
    }

    constructor (plan: Plan)
      requires plan.Valid()
      ensures Valid() && Contents() == NO_INVOICES && this.plan == plan
    {
      this.plan, periods, invoices := plan, [], [];
      NoInvoicesInv(plan);
    }

    method EnsurePeriod(month: int)
      requires Valid()
      modifies this`periods
      ensures Valid() && Contents() == Next(plan, old(Contents()), InvoiceLedger.EnsurePeriod(month))
      ensures forall q :: q in periods <==>
        q in old(periods) || (q == Period(month, Open) && forall o <- old(periods) :: o.month != month)
    {
      StepKeepsInv(plan, Contents(), InvoiceLedger.EnsurePeriod(month));
      periods := Ensure(periods, month);
    }

    method StartReconciling(month: int)
      requires Valid()
      modifies this`periods
      ensures Valid() && Contents() == Next(plan, old(Contents()), InvoiceLedger.StartReconciling(month))
      ensures forall q :: q in periods <==>
        (q in old(periods) && q != Period(month, Open)) || (q == Period(month, Reconciling) && Period(month, Open) in old(periods))
    {
      OpenIsTheStatus(periods, month);
      StepKeepsInv(plan, Contents(), InvoiceLedger.StartReconciling(month));
      if StatusOf(periods, month) == Some(Open) {
        periods := Mark(periods, month, Reconciling);
      }
    }

    method MarkClosed(month: int)
      requires Valid()
      modifies this`periods
      ensures Valid() && Contents() == Next(plan, old(Contents()), InvoiceLedger.MarkClosed(month))
      ensures forall q :: q in periods <==>
        (q in old(periods) && q.month != month) || (q == Period(month, Closed) && exists o <- old(periods) :: o.month == month)
    {
      StepKeepsInv(plan, Contents(), InvoiceLedger.MarkClosed(month));
      periods := Mark(periods, month, Closed);
    }

    /** The late usage of one invoiced month. */
    method PriorMonthLines(segments: seq<PeriodSegment>, p: int, next: nat) returns (lines: seq<Line>, requests: nat)
      requires Ratable(segments) && AllAccepted(invoices)
      ensures lines == MonthLate(segments, invoices, p, next) && requests == LateRequests(segments, invoices, p)
    {
      hide Prorated, Already, LateLines, Accepted, MonthLate, LateRequests;
      lines, requests := [], 0;
      assert segments[0..] == segments;
      for k := 0 to |segments|
        invariant lines + MonthLate(segments[k..], invoices, p, next + |lines|) == MonthLate(segments, invoices, p, next)
        invariant requests + LateRequests(segments[k..], invoices, p) == LateRequests(segments, invoices, p)
      {
        var segment, already := segments[k], Already(invoices, p, segments[k].id);
        MonthLateStep(lines, segments, invoices, p, k, next);
        var late := PriorSegmentLines(segment, already, p, next + |lines|);
        if segment.quantity > already {
          requests := requests + segment.quantity - already;
        }
        lines := lines + late;
      }
      NoneLate(segments[|segments|..], p, next + |lines|);
      assert lines + [] == lines;
    }

    lemma {:induction false} NoneLate(segments: seq<PeriodSegment>, p: int, next: nat)
      requires segments == [] && AllAccepted(invoices)
      ensures MonthLate(segments, invoices, p, next) == [] && LateRequests(segments, invoices, p) == 0
    {
    }

    lemma {:induction false} NonePrior(usage: Usage, earlier: seq<Period>, next: nat)
      requires earlier == [] && AllAccepted(invoices) && plan.Valid()
      ensures PriorLines(plan, usage, invoices, earlier, next) == [] && PriorRequests(plan, usage, invoices, earlier) == 0
    {
    }

    /** Late usage of every earlier month that is marked invoiced, oldest first. */
    method PriorPeriodLines(month: int, usage: Usage, next: nat) returns (lines: seq<Line>, total: int, requests: nat)
      requires plan.Valid() && AllAccepted(invoices)
      ensures lines == PriorLines(plan, usage, invoices, Before(periods, month), next)
      ensures total == Total(lines) && requests == PriorRequests(plan, usage, invoices, Before(periods, month))
    {
      hide Accepted, MonthLate, LateRequests, PriorLines, PriorRequests, Before, Total;
      var earlier := Before(periods, month);
      lines, total, requests := [], 0, 0;
      assert earlier[0..] == earlier && Total([]) == 0 by { TotalOfNothing(); }
      for k := 0 to |earlier|
        invariant lines + PriorLines(plan, usage, invoices, earlier[k..], next + |lines|) == PriorLines(plan, usage, invoices, earlier, next)
        invariant requests + PriorRequests(plan, usage, invoices, earlier[k..]) == PriorRequests(plan, usage, invoices, earlier)
        invariant total == Total(lines)
      {
        PriorLinesStep(plan, usage, lines, invoices, earlier, k, next);
        if earlier[k].status == Invoiced {
          var p := earlier[k].month;
          var segments := Resolve(SpansOf(plan, p), p, plan.lists, usage(p));
          var late, count := PriorMonthLines(segments, p, next + |lines|);
          TotalConcat(lines, late);
          lines, total, requests := lines + late, total + Total(late), requests + count;
        } else {
          assert lines + [] == lines;
        }
      }
      NonePrior(usage, earlier[|earlier|..], next + |lines|);
      assert lines + [] == lines;
    }

    lemma {:induction false} TotalOfNothing()
      ensures Total([]) == 0
    {
    }

    /** Computes the invoice without writing anything. */
    method Build(month: int, usage: Usage) returns (r: Result<Draft, InvoiceError>)
      requires plan.Valid() && AllAccepted(invoices)
      ensures r == match Built(plan, usage, Contents(), month) case None => Failure(CannotBuild(NothingToInvoice)) case Some(d) => Success(d)
    {
      hide Accepted, PriorLines, CurrentLines, PriorRequests, PeriodBill, Before, Total, Ratable, DistinctIds,
           FitsMonth;
      if StatusOf(periods, month).None? {
        return Failure(CannotBuild(NothingToInvoice));
      }
      var segments := Resolve(SpansOf(plan, month), month, plan.lists, usage(month));
      PlanFits(plan, usage, month);
      var current := CurrentPeriodLines(segments, 1);
      if current.Failure? {
        return Failure(CannotBuild(current.error));
      }
      var (lines, periodTotal) := current.value;
      var prior, priorTotal, requests := PriorPeriodLines(month, usage, |lines| + 1);
      return Success(Draft(lines + prior, periodTotal + priorTotal, periodTotal, priorTotal, requests));
    }

    /** The one transition to issued. The trigger's demands are its precondition. */
    method Issue(month: int, lines: seq<Line>, total: int)
      requires IssueAccepted(lines, total) && Formed(lines, 1)
      requires FindInvoice(invoices, month).None?
      modifies this`invoices
      ensures invoices == old(invoices) + [Invoice(month, true, lines, total)]
    {
      invoices := invoices + [Invoice(month, true, lines, total)];
    }

    /** Produces and issues the invoice of one month, or finds it unchanged, or refuses. */
    method Generate(month: int, usage: Usage) returns (r: Result<Outcome, InvoiceError>)
      requires Valid()
      modifies this`periods, this`invoices
      ensures Valid() && (Contents(), r) == Generated(plan, usage, old(Contents()), month)
      ensures forall i <- old(invoices) :: i.issued ==> i in invoices
      ensures r.Failure? ==> Contents() == old(Contents())
      ensures r.Success? ==> HasIssued(invoices, month) && StatusOf(periods, month) == Some(Invoiced)
    {
      hide Inv, Built, AllAccepted, IssueAccepted, Formed, Mark, Without, FindInvoice, HasIssued, Plan.Valid, StatusOf;
      ghost var before := Contents();
      Sound(before);
      StepKeepsInv(plan, before, InvoiceLedger.Generate(month, usage));
      GenerateEffects(plan, usage, before, month);
      var built := Build(month, usage);
      if built.Failure? {
        return Failure(built.error);
      }
      var draft := built.value;
      var existing := FindInvoice(invoices, month);
      if existing.Some? && existing.value.issued {
        if existing.value.total != draft.total {
          return Failure(InvoiceImmutable(existing.value.total, draft.total));
        }
        periods := Mark(periods, month, Invoiced);
        return Success(Outcome(draft, true));
      }
      invoices := Without(invoices, month);
      BuildIsAccepted(plan, usage, before, month);
      Issue(month, draft.lines, draft.total);
      periods := Mark(periods, month, Invoiced);
      return Success(Outcome(draft, false));
    }

    lemma {:induction false} Sound(s: Store)
      requires Inv(plan, s)
      ensures plan.Valid() && AllAccepted(s.invoices)
    {
    }
  }
}
