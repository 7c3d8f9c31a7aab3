/** What a customer's invoices add up to over any history of runs: the issued invoices never
    change, and together they bill every segment as if it had been rated once. */
module InvoiceLedger {
  import opened Wrappers
  import opened Plans
  import opened Rating
  import opened Proration
  import opened Segments
  import opened InvoiceBands
  import opened InvoiceLines
  import opened InvoiceRuns
  import Calendar

  // ----- The invariant -----

  /** All usage billed for one segment is what its billed quantity costs when rated once. */
  ghost predicate Conserves(plan: Plan, invoices: seq<Invoice>, p: int, id: nat, m: Measure)
    requires plan.Valid() && AllAccepted(invoices)
  {
    Billed(invoices, p, id, m)
    == if ListOf(plan, p, id).Some? then Rated(ListOf(plan, p, id).value, Already(invoices, p, id), m) else 0
  }

  ghost predicate Inv(plan: Plan, s: Store) {
    && plan.Valid() && Ordered(s.periods) && OnePerMonth(s.invoices) && AllAccepted(s.invoices)
    && (forall q <- s.periods :: q.status == Invoiced ==> HasIssued(s.invoices, q.month))
    && (forall p, id :: !HasIssued(s.invoices, p) ==> Already(s.invoices, p, id) == 0)
    && forall p, id, m :: Conserves(plan, s.invoices, p, id, m)
  }

  const NO_INVOICES := Store([], [])

  lemma {:induction false} NoInvoicesInv(plan: Plan)
    requires plan.Valid()
    ensures Inv(plan, NO_INVOICES)
  {
    forall p, id, m ensures Conserves(plan, [], p, id, m) {
      if ListOf(plan, p, id).Some? {
        NothingRated(ListOf(plan, p, id).value, m);
      }
    }
  }

  lemma {:induction false} NothingRated(pl: PriceList, m: Measure)
    requires pl.Valid()
    ensures Rated(pl, 0, m) == 0
  {
    RatedZero(pl, 0, m);
  }

  // ----- One issue -----

  /** What an issue adds to one segment of one period. */
  ghost function Added(plan: Plan, usage: Usage, s: Store, month: int, p: int, id: nat, m: Measure): int
    requires plan.Valid() && AllAccepted(s.invoices)
  {
    if Reaches(s, month, p) && ListOf(plan, p, id).Some?
    then CatchUp(ListOf(plan, p, id).value, QuantityOf(usage(p), id), Already(s.invoices, p, id), m) else 0
  }

  lemma {:induction false} DraftTally(plan: Plan, usage: Usage, s: Store, month: int, p: int, id: nat, m: Measure)
    requires plan.Valid() && AllAccepted(s.invoices) && Ordered(s.periods) && Built(plan, usage, s, month).Some?
    requires Already(s.invoices, month, id) == 0
    ensures Tally(Built(plan, usage, s, month).value.lines, month, p, id, m) == Added(plan, usage, s, month, p, id, m)
  {
    hide SegmentsOf, Prorated, Accepted, PriorLines, CurrentLines, PeriodBill, Total, ListOf, Rated, Conserves,
         Already, Tally, PriorRequests, Ratable, DistinctIds, Ordered;
    var segments := SegmentsOf(plan, usage, month);
    PlanFits(plan, usage, month);
    var current := CurrentLines(segments, 1);
    var earlier := Before(s.periods, month);
    var prior := PriorLines(plan, usage, s.invoices, earlier, |current| + 1);
    BeforeOrdered(s.periods, month);
    TallyConcat(current, prior, month, p, id, m);
    CurrentTally(segments, 1, month, p, id, m);
    ListOfSegment(plan, usage, month, id);
    PriorTally(plan, usage, s.invoices, earlier, |current| + 1, month, p, id, m);
    if p == month && ListOf(plan, p, id).Some? {
      NothingRated(ListOf(plan, p, id).value, m);
    }
  }

  lemma {:induction false} IssueAdds(plan: Plan, usage: Usage, s: Store, month: int, p: int, id: nat, m: Measure)
    requires Inv(plan, s) && Issues(plan, usage, s, month)
    ensures Billed(Generated(plan, usage, s, month).0.invoices, p, id, m)
         == Billed(s.invoices, p, id, m) + Added(plan, usage, s, month, p, id, m)
  {
    hide Built, Accepted, Conserves, Already, Added, Tally;
    var d := Built(plan, usage, s, month).value;
    FindFindsIssued(s.invoices, month);
    DraftTally(plan, usage, s, month, p, id, m);
    BilledWithout(s.invoices, month, p, id, m);
    BilledAppend(Without(s.invoices, month), Invoice(month, true, d.lines, d.total), p, id, m);
  }

  /** The usage billed after an issue: the larger of what was billed and what the rollups say. */
  lemma {:induction false} IssueBills(plan: Plan, usage: Usage, s: Store, month: int, p: int, id: nat)
    requires Inv(plan, s) && Issues(plan, usage, s, month) && AllAccepted(Generated(plan, usage, s, month).0.invoices)
    ensures Already(Generated(plan, usage, s, month).0.invoices, p, id)
         == if Reaches(s, month, p) && ListOf(plan, p, id).Some? then Max(Already(s.invoices, p, id), QuantityOf(usage(p), id))
            else Already(s.invoices, p, id)
  {
    hide Built, Accepted, Conserves, Generated, Rated, ListOf;
    IssueAdds(plan, usage, s, month, p, id, Quantity);
    if ListOf(plan, p, id).Some? {
      RatedMeaning(ListOf(plan, p, id).value, QuantityOf(usage(p), id), None);
      RatedMeaning(ListOf(plan, p, id).value, Already(s.invoices, p, id), None);
    }
  }

  lemma {:induction false} IssueAccepts(plan: Plan, usage: Usage, s: Store, month: int)
    requires Inv(plan, s) && Issues(plan, usage, s, month)
    ensures AllAccepted(Generated(plan, usage, s, month).0.invoices)
    ensures OnePerMonth(Generated(plan, usage, s, month).0.invoices)
    ensures forall i <- s.invoices :: i.issued ==> i in Generated(plan, usage, s, month).0.invoices
    ensures forall p :: HasIssued(Generated(plan, usage, s, month).0.invoices, p) <==> HasIssued(s.invoices, p) || p == month
  {
    hide Built, Conserves, Already, Formed, IssueAccepted;
    var d, after := Built(plan, usage, s, month).value, Generated(plan, usage, s, month).0.invoices;
    BuildIsAccepted(plan, usage, s, month);
    FindFindsIssued(s.invoices, month);
    WithoutOnePerMonth(s.invoices, month);
    AppendOnePerMonth(Without(s.invoices, month), Invoice(month, true, d.lines, d.total));
    assert after == Without(s.invoices, month) + [Invoice(month, true, d.lines, d.total)];
    assert Invoice(month, true, d.lines, d.total) in after;
  }

  lemma {:induction false} IssueConserves(plan: Plan, usage: Usage, s: Store, month: int, p: int, id: nat, m: Measure)
    requires Inv(plan, s) && Issues(plan, usage, s, month) && AllAccepted(Generated(plan, usage, s, month).0.invoices)
    ensures Conserves(plan, Generated(plan, usage, s, month).0.invoices, p, id, m)
  {
    hide Built, Accepted, Generated, Rated, ListOf, Already, Reaches;
    assert Conserves(plan, s.invoices, p, id, m);
    IssueAdds(plan, usage, s, month, p, id, m);
    IssueBills(plan, usage, s, month, p, id);
  }

  lemma {:induction false} IssueKeepsInv(plan: Plan, usage: Usage, s: Store, month: int)
    requires Inv(plan, s) && Issues(plan, usage, s, month)
    ensures Inv(plan, Generated(plan, usage, s, month).0)
  {
    hide Built, Accepted, Rated, ListOf, Already, Conserves;
    var s' := Generated(plan, usage, s, month).0;
    IssueAccepts(plan, usage, s, month);
    FindFindsIssued(s.invoices, month);
    MarkOrdered(s.periods, month, Invoiced);
    forall p, id | !HasIssued(s'.invoices, p) ensures Already(s'.invoices, p, id) == 0 {
      IssueBills(plan, usage, s, month, p, id);
      assert Already(s.invoices, p, id) == 0;
    }
    forall p, id, m ensures Conserves(plan, s'.invoices, p, id, m) {
      IssueConserves(plan, usage, s, month, p, id, m);
    }
  }

  // ----- Histories -----

  /** Everything that ever happens to the tables. A crash between the transactions of a close
      is a history in which the later ones do not follow. */
  datatype Step =
    | EnsurePeriod(month: int)
    | StartReconciling(month: int)
    | MarkClosed(month: int)
    | LeaveDraft(month: int, lines: seq<Line>)
    | Generate(month: int, usage: Usage)

  ghost function Next(plan: Plan, s: Store, step: Step): Store
    requires plan.Valid() && AllAccepted(s.invoices)
  {
    match step
    case EnsurePeriod(month) => s.(periods := Ensure(s.periods, month))
    case StartReconciling(month) => if StatusOf(s.periods, month) == Some(Open) then s.(periods := Mark(s.periods, month, Reconciling)) else s
    case MarkClosed(month) => s.(periods := Mark(s.periods, month, Closed))
    case LeaveDraft(month, lines) => if FindInvoice(s.invoices, month).None? then s.(invoices := s.invoices + [Invoice(month, false, lines, 0)]) else s
    case Generate(month, usage) => Generated(plan, usage, s, month).0
  }

  lemma {:induction false} DraftCountsNothing(plan: Plan, s: Store, i: Invoice, p: int, id: nat, m: Measure)
    requires Inv(plan, s) && !i.issued && AllAccepted(s.invoices + [i])
    ensures Already(s.invoices + [i], p, id) == Already(s.invoices, p, id)
    ensures Conserves(plan, s.invoices + [i], p, id, m)
  {
    hide Rated, ListOf, Billed, Accepted;
    BilledAppend(s.invoices, i, p, id, m);
    BilledAppend(s.invoices, i, p, id, Quantity);
    assert Conserves(plan, s.invoices, p, id, m);
  }

  lemma {:induction false} DraftKeepsInv(plan: Plan, s: Store, i: Invoice)
    requires Inv(plan, s) && !i.issued && forall j <- s.invoices :: j.month != i.month
    ensures Inv(plan, s.(invoices := s.invoices + [i]))
  {
    hide Rated, ListOf, Billed, Formed, IssueAccepted, Conserves, Already;
    var after := s.invoices + [i];
    AppendOnePerMonth(s.invoices, i);
    assert forall j <- after :: j in s.invoices || j == i;
    assert forall j <- s.invoices :: j in after;
    forall p ensures HasIssued(after, p) <==> HasIssued(s.invoices, p) {
    }
    forall p, id ensures Already(after, p, id) == Already(s.invoices, p, id) {
      DraftCountsNothing(plan, s, i, p, id, Quantity);
    }
    forall p, id, m ensures Conserves(plan, after, p, id, m) {
      DraftCountsNothing(plan, s, i, p, id, m);
    }
  }

  lemma {:induction false} StatusKeepsInv(plan: Plan, s: Store, periods: seq<Period>)
    requires Inv(plan, s) && Ordered(periods)
    requires forall q <- periods :: q.status == Invoiced ==> HasIssued(s.invoices, q.month)
    ensures Inv(plan, s.(periods := periods))
  {
    hide Conserves, Already;
  }

  lemma {:induction false} StepKeepsInv(plan: Plan, s: Store, step: Step)
    requires Inv(plan, s)
    ensures Inv(plan, Next(plan, s, step))
  {
    hide Conserves, Already, Built, Accepted, Ordered;
    match step
    case EnsurePeriod(month) =>
      EnsureOrdered(s.periods, month);
      StatusKeepsInv(plan, s, Ensure(s.periods, month));
    case StartReconciling(month) =>
      MarkOrdered(s.periods, month, Reconciling);
      StatusKeepsInv(plan, s, Mark(s.periods, month, Reconciling));
    case MarkClosed(month) =>
      MarkOrdered(s.periods, month, Closed);
      StatusKeepsInv(plan, s, Mark(s.periods, month, Closed));
    case LeaveDraft(month, lines) =>
      if FindInvoice(s.invoices, month).None? {
        DraftKeepsInv(plan, s, Invoice(month, false, lines, 0));
      }
    case Generate(month, usage) =>
      FindFindsIssued(s.invoices, month);
      if Issues(plan, usage, s, month) {
        IssueKeepsInv(plan, usage, s, month);
      } else if Built(plan, usage, s, month).Some? {
        MarkOrdered(s.periods, month, Invoiced);
        StatusKeepsInv(plan, s, Mark(s.periods, month, Invoiced));
      }
  }

  ghost function History(plan: Plan, s: Store, run: seq<Step>): (r: Store)
    requires Inv(plan, s)
    ensures Inv(plan, r)
    decreases |run|
  {
    if |run| == 0 then s
    else
      StepKeepsInv(plan, s, run[0]);
      History(plan, Next(plan, s, run[0]), run[1..])
  }

  // ----- Main results -----

  /** Conservation: over any history, what all issued invoices bill for one segment of one
      period costs exactly what its billed quantity costs when rated once on its own prorated
      list, with each band holding what that rating puts in it. */
  lemma {:induction false} BilledAsRatedOnce(plan: Plan, run: seq<Step>, p: int, id: nat, band: Option<nat>)
    requires plan.Valid()
    ensures Inv(plan, NO_INVOICES)
    ensures var invoices := History(plan, NO_INVOICES, run).invoices; var pl, q := ListOf(plan, p, id), Already(invoices, p, id);
            && (pl.Some? ==>
                  && Ladder(pl.value.bands)
                  && Billed(invoices, p, id, Quantity) == q
                  && Billed(invoices, p, id, Amount) == Bill(pl.value, q) - pl.value.monthlyFee
                  && Billed(invoices, p, id, InBand(band)) == RatedIn(pl.value, q, band))
            && (pl.None? ==> Billed(invoices, p, id, Quantity) == Billed(invoices, p, id, Amount) == 0)
            && (forall row <- plan.timeline :: row.id == id && InForce(row, p) ==> pl == Some(ListFor(plan, p, row)))
            && (pl.Some? ==> exists row <- plan.timeline :: row.id == id && InForce(row, p))
  {
    hide Rated, ListOf, Bill, RatedIn, ListFor, InForce;
    ListOfRow(plan, p, id);
    NoInvoicesInv(plan);
    var s := History(plan, NO_INVOICES, run);
    var pl, q := ListOf(plan, p, id), Already(s.invoices, p, id);
    assert Conserves(plan, s.invoices, p, id, Quantity);
    assert Conserves(plan, s.invoices, p, id, Amount) && Conserves(plan, s.invoices, p, id, InBand(band));
    if pl.Some? {
      RatedMeaning(pl.value, q, band);
    }
  }

  /** The rollup totals of (p, id) seen by the runs that billed period p. */
  ghost function UsagesBilled(plan: Plan, s: Store, run: seq<Step>, p: int, id: nat): seq<nat>
    requires Inv(plan, s)
    decreases |run|
  {
    if |run| == 0 then []
    else
      StepKeepsInv(plan, s, run[0]);
      var rest := UsagesBilled(plan, Next(plan, s, run[0]), run[1..], p, id);
      if run[0].Generate? && Issues(plan, run[0].usage, s, run[0].month) && Reaches(s, run[0].month, p)
      then [QuantityOf(run[0].usage(p), id)] + rest else rest
  }

  function Largest(xs: seq<nat>): nat {
    if xs == [] then 0 else Max(xs[0], Largest(xs[1..]))
  }

  lemma {:induction false} StepBills(plan: Plan, s: Store, step: Step, p: int, id: nat)
    requires Inv(plan, s) && ListOf(plan, p, id).Some?
    ensures Inv(plan, Next(plan, s, step))
    ensures Already(Next(plan, s, step).invoices, p, id)
         == if step.Generate? && Issues(plan, step.usage, s, step.month) && Reaches(s, step.month, p)
            then Max(Already(s.invoices, p, id), QuantityOf(step.usage(p), id)) else Already(s.invoices, p, id)
  {
    hide Conserves, Built, Accepted, ListOf;
    StepKeepsInv(plan, s, step);
    if step.LeaveDraft? {
      BilledAppend(s.invoices, Invoice(step.month, false, step.lines, 0), p, id, Quantity);
    } else if step.Generate? {
      FindFindsIssued(s.invoices, step.month);
      if Issues(plan, step.usage, s, step.month) {
        IssueBills(plan, step.usage, s, step.month, p, id);
      }
    }
  }

  /** No request is billed twice and none that a run saw is forgotten: the billed quantity is
      the largest rollup total any run saw when it billed the period. */
  lemma {:induction false} BilledIsThePeak(plan: Plan, s: Store, run: seq<Step>, p: int, id: nat)
    requires Inv(plan, s) && ListOf(plan, p, id).Some?
    ensures Already(History(plan, s, run).invoices, p, id) == Max(Already(s.invoices, p, id), Largest(UsagesBilled(plan, s, run, p, id)))
    decreases |run|
  {
    hide Conserves, Ordered, Accepted, Next, Already, ListOf, Issues, Reaches;
    if |run| > 0 {
      StepBills(plan, s, run[0], p, id);
      BilledIsThePeak(plan, Next(plan, s, run[0]), run[1..], p, id);
    }
  }

  /** No history changes or removes an issued invoice, and no month ever has two. */
  lemma {:induction false} IssuedForever(plan: Plan, s: Store, run: seq<Step>)
    requires Inv(plan, s)
    ensures OnePerMonth(History(plan, s, run).invoices)
    ensures forall i, j :: 0 <= i < j < |History(plan, s, run).invoices| ==>
      History(plan, s, run).invoices[i].month != History(plan, s, run).invoices[j].month
    ensures forall i <- s.invoices :: i.issued ==> i in History(plan, s, run).invoices
    ensures forall i <- History(plan, s, run).invoices :: i.issued ==> IssueAccepted(i.lines, i.total) && Formed(i.lines, 1)
    decreases |run|
  {
    hide Conserves, Already, Built, Ordered, IssueAccepted, Formed, OnePerMonth;
    OnePerMonthMeans(History(plan, s, run).invoices);
    if |run| > 0 {
      StepKeepsInv(plan, s, run[0]);
      var next := Next(plan, s, run[0]);
      IssuedForever(plan, next, run[1..]);
      if run[0].Generate? && Issues(plan, run[0].usage, s, run[0].month) {
        IssueAccepts(plan, run[0].usage, s, run[0].month);
      } else if run[0].Generate? {
        FindFindsIssued(s.invoices, run[0].month);
      }
    }
  }

  // ----- Running again -----

  lemma {:induction false} BeforeMark(periods: seq<Period>, month: int, status: Status)
    ensures Before(Mark(periods, month, status), month) == Before(periods, month)
    ensures StatusOf(Mark(periods, month, status), month) == if StatusOf(periods, month).Some? then Some(status) else None
  {
    if periods != [] {
      BeforeMark(periods[1..], month, status);
      assert Mark(periods, month, status)[1..] == Mark(periods[1..], month, status);
    }
  }

  lemma {:induction false} NothingLateInMonth(segments: seq<PeriodSegment>, invoices: seq<Invoice>, p: int, next: nat)
    requires Ratable(segments) && AllAccepted(invoices)
    requires forall i :: 0 <= i < |segments| ==> segments[i].quantity <= Already(invoices, p, segments[i].id)
    ensures MonthLate(segments, invoices, p, next) == []
  {
    hide Prorated, Already, DeltaLines, Accepted;
    if segments != [] {
      NothingLateInMonth(segments[1..], invoices, p, next);
    }
  }

  lemma {:induction false} SegmentQuantities(plan: Plan, usage: Usage, p: int, i: nat)
    requires plan.Valid() && i < |SegmentsOf(plan, usage, p)|
    ensures SegmentsOf(plan, usage, p)[i].quantity == QuantityOf(usage(p), SegmentsOf(plan, usage, p)[i].id)
  {
    ResolvedQuantity(SpansOf(plan, p), p, plan.lists, usage(p), i);
  }

  lemma {:induction false} ResolvedQuantity(spans: seq<Clipped>, month: int, lists: nat -> PriceList,
      quantities: map<nat, nat>, i: nat)
    requires i < |spans|
    ensures Resolved(spans, month, lists, quantities)[i].quantity == QuantityOf(quantities, spans[i].id)
  {
    if i > 0 {
      ResolvedQuantity(spans[1..], month, lists, quantities, i - 1);
    }
  }

  lemma {:induction false} NothingLate(plan: Plan, usage: Usage, invoices: seq<Invoice>, earlier: seq<Period>,
      next: nat)
    requires plan.Valid() && AllAccepted(invoices)
    requires forall q <- earlier, id: nat | q.status == Invoiced && ListOf(plan, q.month, id).Some? :: QuantityOf(usage(q.month), id) <= Already(invoices, q.month, id)
    ensures PriorLines(plan, usage, invoices, earlier, next) == []
  {
    hide SegmentsOf, Already, Accepted, ListOf, MonthLate;
    if earlier != [] {
      assert forall q <- earlier[1..] :: q in earlier;
      NothingLate(plan, usage, invoices, earlier[1..], next);
      if earlier[0].status == Invoiced {
        assert earlier[0] in earlier;
        var p := earlier[0].month;
        var segments := SegmentsOf(plan, usage, p);
        PlanFits(plan, usage, p);
        forall i | 0 <= i < |segments| ensures segments[i].quantity <= Already(invoices, p, segments[i].id) {
          SegmentQuantities(plan, usage, p, i);
          ListOfSegment(plan, usage, p, segments[i].id);
          assert Find(segments, segments[i].id).Some?;
        }
        NothingLateInMonth(segments, invoices, p, next);
      }
    }
  }

  lemma {:induction false} BuiltAfterMark(plan: Plan, usage: Usage, s: Store, month: int, status: Status)
    requires plan.Valid() && AllAccepted(s.invoices)
    ensures Built(plan, usage, s.(periods := Mark(s.periods, month, status)), month) == Built(plan, usage, s, month)
  {
    BeforeMark(s.periods, month, status);
    BuiltFrom(plan, usage, s, s.(periods := Mark(s.periods, month, status)), month);
  }

  lemma {:induction false} BuiltFrom(plan: Plan, usage: Usage, one: Store, two: Store, month: int)
    requires plan.Valid() && AllAccepted(one.invoices) && one.invoices == two.invoices
    requires Before(one.periods, month) == Before(two.periods, month)
    requires StatusOf(one.periods, month).Some? <==> StatusOf(two.periods, month).Some?
    ensures Built(plan, usage, one, month) == Built(plan, usage, two, month)
  {
    hide AllAccepted, PriorLines, CurrentLines, SegmentsOf, PeriodBill, PriorRequests, Before, StatusOf, Total,
         Ratable, DistinctIds, FitsMonth, Plan.Valid;
  }

  lemma {:induction false} BuiltNothingLate(plan: Plan, usage: Usage, s: Store, month: int)
    requires plan.Valid() && AllAccepted(s.invoices) && Built(plan, usage, s, month).Some?
    requires forall q <- Before(s.periods, month), id: nat | q.status == Invoiced && ListOf(plan, q.month, id).Some? ::
               QuantityOf(usage(q.month), id) <= Already(s.invoices, q.month, id)
    ensures Built(plan, usage, s, month).value.priorTotal == 0
    ensures Built(plan, usage, s, month).value.total == Built(plan, usage, s, month).value.periodTotal
  {
    hide Accepted, PriorLines, CurrentLines, SegmentsOf, PeriodBill, PriorRequests, ListOf, Already;
    PlanFits(plan, usage, month);
    NothingLate(plan, usage, s.invoices, Before(s.periods, month), |CurrentLines(SegmentsOf(plan, usage, month), 1)| + 1);
  }

  lemma {:induction false} SamePeriodTotal(plan: Plan, usage: Usage, s: Store, invoices: seq<Invoice>, month: int)
    requires plan.Valid() && AllAccepted(s.invoices) && AllAccepted(invoices) && Built(plan, usage, s, month).Some?
    ensures Built(plan, usage, s.(invoices := invoices), month).Some?
    ensures Built(plan, usage, s.(invoices := invoices), month).value.periodTotal == Built(plan, usage, s, month).value.periodTotal
    ensures Built(plan, usage, s, month).value.total == Built(plan, usage, s, month).value.periodTotal + Built(plan, usage, s, month).value.priorTotal
  {
    hide Accepted, PriorLines, CurrentLines, SegmentsOf, PeriodBill, PriorRequests;
  }

  lemma {:induction false} GeneratedAgain(plan: Plan, usage: Usage, s: Store, month: int, existing: Invoice)
    requires plan.Valid() && AllAccepted(s.invoices) && OnePerMonth(s.invoices)
    requires Built(plan, usage, s, month).Some? && existing in s.invoices && existing.issued && existing.month == month
    ensures var total := Built(plan, usage, s, month).value.total;
            Generated(plan, usage, s, month)
            == if existing.total != total then (s, Failure(InvoiceImmutable(existing.total, total)))
               else (s.(periods := Mark(s.periods, month, Invoiced)), Success(Outcome(Built(plan, usage, s, month).value, true)))
  {
    hide Built, Accepted;
    IssuedIsFound(s.invoices, month, existing);
  }

  lemma {:induction false} GeneratedNew(plan: Plan, usage: Usage, s: Store, month: int)
    requires Inv(plan, s) && Issues(plan, usage, s, month)
    ensures var d, issued := Built(plan, usage, s, month).value, Generated(plan, usage, s, month).0;
            && Generated(plan, usage, s, month).1 == Success(Outcome(d, false))
            && issued.periods == Mark(s.periods, month, Invoiced)
            && Invoice(month, true, d.lines, d.total) in issued.invoices
  {
    hide Built, Accepted, Conserves, Already;
    FindFindsIssued(s.invoices, month);
    var d := Built(plan, usage, s, month).value;
    assert Generated(plan, usage, s, month).0.invoices == Without(s.invoices, month) + [Invoice(month, true, d.lines, d.total)];
  }

  /** Regenerating at once, with no new usage, agrees with the issued invoice exactly when that
      invoice rolled no paisa forward: its own prior lines count as billed the second time. Either
      way nothing is written to an invoice. */
  lemma {:induction false} RegenerateExactly(plan: Plan, usage: Usage, s: Store, month: int)
    requires Inv(plan, s)
    ensures Inv(plan, Generated(plan, usage, s, month).0)
    ensures Issues(plan, usage, s, month) ==>
              var d, issued := Built(plan, usage, s, month).value, Generated(plan, usage, s, month).0;
              var again := Generated(plan, usage, issued, month);
              && again.0.invoices == issued.invoices
              && (again.1.Success? <==> d.priorTotal == 0)
              && (again.1.Failure? ==> again.1.error == InvoiceImmutable(d.total, d.periodTotal))
  {
    hide Conserves, Already, Accepted, ListOf, Built, Generated, OnePerMonth, Ordered;
    StepKeepsInv(plan, s, Generate(month, usage));
    if Issues(plan, usage, s, month) {
      RegeneratedAtOnce(plan, usage, s, month);
    }
  }

  lemma {:induction false} RegeneratedAtOnce(plan: Plan, usage: Usage, s: Store, month: int)
    requires Inv(plan, s) && Issues(plan, usage, s, month)
    ensures Inv(plan, Generated(plan, usage, s, month).0)
    ensures var d, issued := Built(plan, usage, s, month).value, Generated(plan, usage, s, month).0;
            var again := Generated(plan, usage, issued, month);
            && again.0.invoices == issued.invoices
            && (again.1.Success? <==> d.priorTotal == 0)
            && (again.1.Failure? ==> again.1.error == InvoiceImmutable(d.total, d.periodTotal))
  {
    hide Conserves, Already, Accepted, ListOf, Built, Generated, OnePerMonth, Ordered;
    var d, issued := Built(plan, usage, s, month).value, Generated(plan, usage, s, month).0;
    IssueKeepsInv(plan, usage, s, month);
    GeneratedNew(plan, usage, s, month);
    var same := s.(invoices := issued.invoices);
    SamePeriodTotal(plan, usage, s, issued.invoices, month);
    BuiltAfterMark(plan, usage, same, month, Invoiced);
    assert issued == same.(periods := Mark(same.periods, month, Invoiced));
    GeneratedAgain(plan, usage, issued, month, Invoice(month, true, d.lines, d.total));
    forall q, id: nat | q in Before(s.periods, month) && q.status == Invoiced && ListOf(plan, q.month, id).Some?
      ensures QuantityOf(usage(q.month), id) <= Already(issued.invoices, q.month, id)
    {
      IssueBills(plan, usage, s, month, q.month, id);
    }
    BuiltNothingLate(plan, usage, same, month);
  }

  lemma {:induction false} IssuedIsFound(invoices: seq<Invoice>, month: int, i: Invoice)
    requires OnePerMonth(invoices) && i in invoices && i.month == month
    ensures FindInvoice(invoices, month) == Some(i)
  {
    if invoices[0] != i {
      IssuedIsFound(invoices[1..], month, i);
    }
  }

  /** Closing an invoiced month again restores its status exactly when its rebuilt total is the
      issued one. Otherwise it stays closed. */
  lemma {:induction false} RecloseExactly(plan: Plan, usage: Usage, s: Store, month: int, existing: Invoice)
    requires Inv(plan, s) && existing in s.invoices && existing.issued && existing.month == month
    requires Built(plan, usage, s, month).Some?
    ensures var after := Generated(plan, usage, Next(plan, s, MarkClosed(month)), month).0;
            && after.invoices == s.invoices
            && StatusOf(after.periods, month) == Some(if existing.total == Built(plan, usage, s, month).value.total then Invoiced else Closed)
  {
    hide Conserves, Already, Accepted, Built, Generated, OnePerMonth, Ordered;
    var closed := Next(plan, s, MarkClosed(month));
    BuiltHasPeriod(plan, usage, s, month);
    BuiltAfterMark(plan, usage, s, month, Closed);
    GeneratedAgain(plan, usage, closed, month, existing);
    BeforeMark(s.periods, month, Closed);
    BeforeMark(closed.periods, month, Invoiced);
  }

  lemma {:induction false} BuiltHasPeriod(plan: Plan, usage: Usage, s: Store, month: int)
    requires plan.Valid() && AllAccepted(s.invoices) && Built(plan, usage, s, month).Some?
    ensures StatusOf(s.periods, month).Some?
  {
  }

  /** Every way a run can end: refused with nothing written, or issued and marked invoiced. */
  lemma {:induction false} GenerateEffects(plan: Plan, usage: Usage, s: Store, month: int)
    requires Inv(plan, s)
    ensures var (after, r) := Generated(plan, usage, s, month);
            && (forall i <- s.invoices :: i.issued ==> i in after.invoices)
            && (r.Failure? ==> after == s)
            && (r.Success? ==> HasIssued(after.invoices, month) && StatusOf(after.periods, month) == Some(Invoiced))
  {
    hide Conserves, Already, Accepted, Built, Ordered, Generated, OnePerMonth, Mark, StatusOf;
    if Built(plan, usage, s, month).None? {
      GeneratedNothing(plan, usage, s, month);
    } else {
      BuiltHasPeriod(plan, usage, s, month);
      BeforeMark(s.periods, month, Invoiced);
      if HasIssued(s.invoices, month) {
        var existing :| existing in s.invoices && existing.month == month && existing.issued;
        GeneratedAgain(plan, usage, s, month, existing);
      } else {
        IssueAccepts(plan, usage, s, month);
        GeneratedNew(plan, usage, s, month);
      }
    }
  }

  lemma {:induction false} GeneratedDraft(plan: Plan, usage: Usage, s: Store, month: int)
    requires plan.Valid() && AllAccepted(s.invoices) && Generated(plan, usage, s, month).1.Success?
    ensures Built(plan, usage, s, month).Some? && StatusOf(s.periods, month).Some?
    ensures var (after, r) := Generated(plan, usage, s, month);
            && r.value.draft == Built(plan, usage, s, month).value
            && (!r.value.existed ==> Invoice(month, true, r.value.draft.lines, r.value.draft.total) in after.invoices)
  {
    hide Built, Accepted;
    var d := Built(plan, usage, s, month);
    if d.Some? {
      BuiltHasPeriod(plan, usage, s, month);
      var invoice := Invoice(month, true, d.value.lines, d.value.total);
      assert invoice in Without(s.invoices, month) + [invoice];
    }
  }

  lemma {:induction false} GeneratedNothing(plan: Plan, usage: Usage, s: Store, month: int)
    requires plan.Valid() && AllAccepted(s.invoices) && Built(plan, usage, s, month).None?
    ensures Generated(plan, usage, s, month) == (s, Failure(CannotBuild(NothingToInvoice)))
  {
    hide Built, Accepted;
  }

  /** No regeneration of month p succeeds during the run. */
  ghost predicate NeverRestored(plan: Plan, s: Store, run: seq<Step>, p: int)
    requires Inv(plan, s)
    decreases |run|
  {
    if |run| == 0 then true
    else
      StepKeepsInv(plan, s, run[0]);
      && (run[0].Generate? && run[0].month == p ==> Generated(plan, run[0].usage, s, p).1.Failure?)
      && NeverRestored(plan, Next(plan, s, run[0]), run[1..], p)
  }

  /** An issued month that is not marked invoiced is out of reach of every later invoice: its late
      usage is not billed, however long the history, until some regeneration of it succeeds. */
  lemma {:induction false} ClosedMonthIsStranded(plan: Plan, s: Store, run: seq<Step>, p: int, id: nat)
    requires Inv(plan, s) && ListOf(plan, p, id).Some?
    requires HasIssued(s.invoices, p) && Period(p, Invoiced) !in s.periods && NeverRestored(plan, s, run, p)
    ensures Already(History(plan, s, run).invoices, p, id) == Already(s.invoices, p, id)
    decreases |run|
  {
    hide Conserves, Already, Accepted, ListOf, Built, Ordered;
    if |run| > 0 {
      var next := Next(plan, s, run[0]);
      StepKeepsInv(plan, s, run[0]);
      StepBills(plan, s, run[0], p, id);
      if run[0].Generate? {
        FindFindsIssued(s.invoices, run[0].month);
        if Issues(plan, run[0].usage, s, run[0].month) {
          IssueAccepts(plan, run[0].usage, s, run[0].month);
        }
      }
      assert HasIssued(next.invoices, p) by {
        var i :| i in s.invoices && i.month == p && i.issued;
        assert i in next.invoices;
      }
      ClosedMonthIsStranded(plan, next, run[1..], p, id);
    }
  }

  // ----- A month of late usage that no invoice ever bills -----

  /** One paisa a request, no fee, nothing included. */
  const PAISA_PER_REQUEST := PriceList("flat", 1, 0, 0, [Band(None, 1)])

  lemma {:induction false} FlatListKept(days: int, daysInMonth: int)
    requires ValidDays(days, daysInMonth)
    ensures PAISA_PER_REQUEST.Valid() && Prorated(PAISA_PER_REQUEST, days, daysInMonth) == PAISA_PER_REQUEST
  {
    BandsKeptExactly(PAISA_PER_REQUEST, days, daysInMonth);
  }

  lemma {:induction false} FlatListBill(quantity: nat)
    ensures Ladder(PAISA_PER_REQUEST.bands) && Bill(PAISA_PER_REQUEST, quantity) == quantity
  {
    SpanInFirstBand(PAISA_PER_REQUEST.bands, 0, quantity);
  }

  lemma {:induction false} FlatBill(segment: Segment)
    requires segment.Valid() && segment.priceList == PAISA_PER_REQUEST
    ensures segment.List() == PAISA_PER_REQUEST && SegmentBill(segment) == segment.quantity
  {
    hide Prorated, Bill;
    FlatListKept(segment.days, segment.daysInMonth);
    FlatListBill(segment.quantity);
  }

  /** One plan, in force from the epoch on. */
  function FlatPlan(): Plan {
    Plan([Assignment(1, 0, Calendar.MonthStart(Calendar.EPOCH_MONTH), None)], _ => PAISA_PER_REQUEST)
  }

  lemma {:induction false} FlatSpans(month: int)
    requires month >= Calendar.EPOCH_MONTH
    ensures FlatPlan().Valid() && Calendar.MonthStart(month) < Calendar.MonthEnd(month)
    ensures SpansOf(FlatPlan(), month) == [Clipped(1, 0, Calendar.MonthStart(month), Calendar.MonthEnd(month))]
  {
    hide Calendar.FirstDay;
    var plan := FlatPlan();
    var rows := plan.timeline;
    assert rows[1..] == [];
    assert Timeline(rows[1..]);
    if month > Calendar.EPOCH_MONTH {
      Calendar.FirstDayMonotone(Calendar.EPOCH_MONTH, month);
    }
    Calendar.FirstDayMonotone(month, month + 1);
    assert AssignmentsInPeriod(rows[1..], Calendar.MonthStart(month), Calendar.MonthEnd(month)) == [];
  }

  lemma {:induction false} FlatMonth(usage: Usage, month: int)
    requires month >= Calendar.EPOCH_MONTH
    ensures FlatPlan().Valid()
    ensures var segments := SegmentsOf(FlatPlan(), usage, month);
            && |segments| == 1 && segments[0].id == 1 && ListOf(FlatPlan(), month, 1) == Some(PAISA_PER_REQUEST)
            && AllValid(Domains(segments)) && PeriodBill(Domains(segments)) == QuantityOf(usage(month), 1)
  {
    hide Calendar.MonthStart, Calendar.MonthEnd, Calendar.DaysInMonth, Calendar.WholeDaysBetween, SpansOf, ListOf,
         SegmentBill, QuantityOf, FitsMonth;
    FlatSpans(month);
    var plan := FlatPlan();
    var segments := SegmentsOf(plan, usage, month);
    PlanFits(plan, usage, month);
    SegmentQuantities(plan, usage, month, 0);
    ListOfSegment(plan, usage, month, 1);
    FlatBill(segments[0].Domain());
    OneSegmentBill(segments);
  }

  lemma {:induction false} OneSegmentBill(segments: seq<PeriodSegment>)
    requires |segments| == 1 && segments[0].Domain().Valid()
    ensures AllValid(Domains(segments)) && PeriodBill(Domains(segments)) == SegmentBill(segments[0].Domain())
  {
    hide SegmentBill;
    assert Domains(segments)[1..] == [];
  }

  lemma {:induction false} FlatBuilt(usage: Usage, s: Store, month: int)
    requires month >= Calendar.EPOCH_MONTH && FlatPlan().Valid() && AllAccepted(s.invoices)
    requires StatusOf(s.periods, month).Some?
    ensures Built(FlatPlan(), usage, s, month).Some?
    ensures Before(s.periods, month) == [] ==> Built(FlatPlan(), usage, s, month).value.total == QuantityOf(usage(month), 1)
  {
    hide Accepted, CurrentLines, SegmentsOf, PeriodBill, FlatPlan;
    FlatMonth(usage, month);
    PlanFits(FlatPlan(), usage, month);
  }

  lemma {:induction false} HistoryStep(plan: Plan, s: Store, step: Step, rest: seq<Step>)
    requires Inv(plan, s)
    ensures Inv(plan, Next(plan, s, step))
    ensures History(plan, s, [step] + rest) == History(plan, Next(plan, s, step), rest)
  {
    hide Inv, Next;
    StepKeepsInv(plan, s, step);
    assert ([step] + rest)[1..] == rest && ([step] + rest)[0] == step;
  }

  lemma {:induction false} FirstInvoice(idle: Usage, p: int) returns (issued: Store, invoice: Invoice)
    requires p >= Calendar.EPOCH_MONTH && QuantityOf(idle(p), 1) == 0
    ensures FlatPlan().Valid() && Inv(FlatPlan(), NO_INVOICES) && Inv(FlatPlan(), issued)
    ensures History(FlatPlan(), NO_INVOICES, [EnsurePeriod(p), Generate(p, idle)]) == issued
    ensures issued.periods == [Period(p, Invoiced)]
    ensures invoice in issued.invoices && invoice.issued && invoice.month == p && invoice.total == 0
    ensures forall q :: HasIssued(issued.invoices, q) ==> q == p
    ensures ListOf(FlatPlan(), p, 1).Some? && Already(issued.invoices, p, 1) == 0
  {
    hide FlatPlan, Conserves, Already, Accepted, ListOf, Built, Ordered, Generated, QuantityOf, OnePerMonth;
    var plan := FlatPlan();
    FlatMonth(idle, p);
    NoInvoicesInv(plan);
    HistoryStep(plan, NO_INVOICES, EnsurePeriod(p), [Generate(p, idle)]);
    var ready := Next(plan, NO_INVOICES, EnsurePeriod(p));
    assert ready == Store([Period(p, Open)], []);
    assert [EnsurePeriod(p)] + [Generate(p, idle)] == [EnsurePeriod(p), Generate(p, idle)];
    HistoryStep(plan, ready, Generate(p, idle), []);
    assert [Generate(p, idle)] + [] == [Generate(p, idle)];
    OnlyMonth(p, Open);
    FlatBuilt(idle, ready, p);
    issued := Next(plan, ready, Generate(p, idle));
    GeneratedNew(plan, idle, ready, p);
    IssueBills(plan, idle, ready, p, p, 1);
    IssueAccepts(plan, idle, ready, p);
    invoice := Invoice(p, true, Built(plan, idle, ready, p).value.lines, 0);
  }

  lemma {:induction false} OnlyMonth(p: int, status: Status)
    ensures Before([Period(p, status)], p) == [] && Mark([Period(p, status)], p, Invoiced) == [Period(p, Invoiced)]
  {
    assert [Period(p, status)][1..] == [];
  }

  lemma {:induction false} ClosedAgain(usage: Usage, p: int, issued: Store, invoice: Invoice) returns (closed: Store)
    requires p >= Calendar.EPOCH_MONTH && QuantityOf(usage(p), 1) == 1 && FlatPlan().Valid() && Inv(FlatPlan(), issued)
    requires issued.periods == [Period(p, Invoiced)]
    requires invoice in issued.invoices && invoice.issued && invoice.month == p && invoice.total == 0
    ensures Inv(FlatPlan(), closed) && History(FlatPlan(), issued, [MarkClosed(p), Generate(p, usage)]) == closed
    ensures closed.invoices == issued.invoices && Period(p, Invoiced) !in closed.periods
  {
    hide FlatPlan, Conserves, Already, Accepted, ListOf, Built, Ordered, Generated, QuantityOf, OnePerMonth;
    var plan := FlatPlan();
    OnlyMonth(p, Invoiced);
    FlatBuilt(usage, issued, p);
    HistoryStep(plan, issued, MarkClosed(p), [Generate(p, usage)]);
    assert [MarkClosed(p)] + [Generate(p, usage)] == [MarkClosed(p), Generate(p, usage)];
    HistoryStep(plan, Next(plan, issued, MarkClosed(p)), Generate(p, usage), []);
    assert [Generate(p, usage)] + [] == [Generate(p, usage)];
    closed := Next(plan, Next(plan, issued, MarkClosed(p)), Generate(p, usage));
    RecloseExactly(plan, usage, issued, p, invoice);
    ClosedNotInvoiced(plan, closed, p);
  }

  lemma {:induction false} HistoryJoin(plan: Plan, s: Store, one: seq<Step>, two: seq<Step>)
    requires Inv(plan, s)
    ensures History(plan, s, one + two) == History(plan, History(plan, s, one), two)
    decreases |one|
  {
    hide Conserves, Ordered, Accepted, Already, OnePerMonth, Next;
    if |one| == 0 {
      assert one + two == two;
    } else {
      StepKeepsInv(plan, s, one[0]);
      assert (one + two)[1..] == one[1..] + two;
      HistoryJoin(plan, Next(plan, s, one[0]), one[1..], two);
    }
  }

  lemma {:induction false} StrandedHistory() returns (plan: Plan, run: seq<Step>, usage: Usage, p: int)
    ensures plan.Valid() && Inv(plan, NO_INVOICES)
    ensures |run| > 0 && run[|run| - 1] == Generate(p + 1, usage)
    ensures var invoices := History(plan, NO_INVOICES, run).invoices;
            && HasIssued(invoices, p) && HasIssued(invoices, p + 1) && ListOf(plan, p, 1).Some?
            && Already(invoices, p, 1) == 0 && QuantityOf(usage(p), 1) == 1
  {
    hide FlatPlan, Inv, Already, ListOf, QuantityOf, History, Next;
    plan, usage, p := FlatPlan(), _ => map[1 := 1], Calendar.EPOCH_MONTH;
    var idle: Usage := _ => map[];
    UsageOfOne(usage, idle, p);
    var one, two, three := [EnsurePeriod(p), Generate(p, idle)], [MarkClosed(p), Generate(p, usage)], [EnsurePeriod(p + 1), Generate(p + 1, usage)];
    run := one + two + three;
    var issued, invoice := FirstInvoice(idle, p);
    var closed := ClosedAgain(usage, p, issued, invoice);
    HistoryJoin(plan, NO_INVOICES, one + two, three);
    HistoryJoin(plan, NO_INVOICES, one, two);
    LaterInvoice(plan, usage, closed, p);
    ClosedMonthIsStranded(plan, closed, three, p, 1);
  }

  /** One late request after the invoice was issued, and the month closed again: the regeneration
      is refused, the month stays closed, and the next month's invoice does not bill it. */
  lemma {:induction false} LateUsageCanBeStranded()
    ensures exists plan: Plan, run: seq<Step>, usage: Usage, p: int ::
      && plan.Valid() && Inv(plan, NO_INVOICES) && |run| > 0 && run[|run| - 1] == Generate(p + 1, usage)
      && var invoices := History(plan, NO_INVOICES, run).invoices;
         && HasIssued(invoices, p) && HasIssued(invoices, p + 1) && ListOf(plan, p, 1).Some?
         && Already(invoices, p, 1) == 0 && QuantityOf(usage(p), 1) == 1
  {
    hide Inv, Already, ListOf, QuantityOf, History, HasIssued, Plan.Valid;
    var plan, run, usage, p := StrandedHistory();
  }

  lemma {:induction false} UsageOfOne(usage: Usage, idle: Usage, p: int)
    requires usage(p) == map[1 := 1] && idle(p) == map[]
    ensures QuantityOf(usage(p), 1) == 1 && QuantityOf(idle(p), 1) == 0
  {
  }

  lemma {:induction false} ClosedNotInvoiced(plan: Plan, s: Store, p: int)
    requires Inv(plan, s) && StatusOf(s.periods, p) == Some(Closed)
    ensures Period(p, Invoiced) !in s.periods
  {
    if Period(p, Invoiced) in s.periods {
      OneRowPerMonth(s.periods, Period(p, Invoiced), Period(p, Closed));
    }
  }

  lemma {:induction false} HistoryOfTwo(plan: Plan, s: Store, one: Step, two: Step, p: int)
    requires Inv(plan, s)
    ensures Inv(plan, Next(plan, s, one)) && Inv(plan, Next(plan, Next(plan, s, one), two))
    ensures History(plan, s, [one, two]) == Next(plan, Next(plan, s, one), two)
    ensures !(one.Generate? && one.month == p) && !(two.Generate? && two.month == p) ==> NeverRestored(plan, s, [one, two], p)
  {
    hide Conserves, Ordered, Accepted, Already, OnePerMonth, Next, NeverRestored;
    var run := [one, two];
    assert run == [one] + [two] && run[1..] == [two] && [two] == [two] + [] && [two][1..] == [];
    HistoryStep(plan, s, one, [two]);
    HistoryStep(plan, Next(plan, s, one), two, []);
    NeverRestoredStep(plan, s, run, p);
    NeverRestoredStep(plan, Next(plan, s, one), [two], p);
    NeverRestoredStep(plan, Next(plan, Next(plan, s, one), two), [], p);
  }

  lemma {:induction false} LaterInvoice(plan: Plan, usage: Usage, s: Store, p: int)
    requires plan == FlatPlan() && p >= Calendar.EPOCH_MONTH && Inv(plan, s)
    requires HasIssued(s.invoices, p) && !HasIssued(s.invoices, p + 1)
    ensures var run := [EnsurePeriod(p + 1), Generate(p + 1, usage)];
            && NeverRestored(plan, s, run, p)
            && HasIssued(History(plan, s, run).invoices, p) && HasIssued(History(plan, s, run).invoices, p + 1)
  {
    hide FlatPlan, Conserves, Already, Accepted, Built, Ordered, Generated, OnePerMonth, NeverRestored, History,
         HasIssued, Ensure, StatusOf;
    HistoryOfTwo(plan, s, EnsurePeriod(p + 1), Generate(p + 1, usage), p);
    var ready := Next(plan, s, EnsurePeriod(p + 1));
    EnsureHas(s.periods, p + 1);
    FlatBuilt(usage, ready, p + 1);
    IssueAccepts(plan, usage, ready, p + 1);
  }

  lemma {:induction false} EnsureHas(periods: seq<Period>, month: int)
    ensures StatusOf(Ensure(periods, month), month).Some?
  {
    if StatusOf(periods, month).Some? {
      assert Period(month, StatusOf(periods, month).value) in Ensure(periods, month);
    } else {
      assert Period(month, Open) in Ensure(periods, month);
    }
  }

  lemma {:induction false} MonthDue(usage: Usage, s: Store, month: int) returns (due: Store)
    requires month >= Calendar.EPOCH_MONTH && FlatPlan().Valid() && Inv(FlatPlan(), s) && !HasIssued(s.invoices, month)
    ensures due == s.(periods := Ensure(s.periods, month)) && Inv(FlatPlan(), due) && Issues(FlatPlan(), usage, due, month)
  {
    hide FlatPlan, Conserves, Already, Accepted, Built, Ordered, HasIssued, Ensure, OnePerMonth;
    StepKeepsInv(FlatPlan(), s, EnsurePeriod(month));
    due := Next(FlatPlan(), s, EnsurePeriod(month));
    EnsureHas(s.periods, month);
    FlatBuilt(usage, due, month);
  }

  lemma {:induction false} NeverRestoredStep(plan: Plan, s: Store, run: seq<Step>, p: int)
    requires Inv(plan, s)
    ensures |run| == 0 ==> NeverRestored(plan, s, run, p)
    ensures |run| > 0 ==> Inv(plan, Next(plan, s, run[0]))
    ensures |run| > 0 && !(run[0].Generate? && run[0].month == p) ==>
      (NeverRestored(plan, s, run, p) <==> NeverRestored(plan, Next(plan, s, run[0]), run[1..], p))
  {
    hide Conserves, Already, Accepted, Built, Ordered, Generated, OnePerMonth;
    if |run| > 0 {
      StepKeepsInv(plan, s, run[0]);
    }
  }

  // ----- A regeneration that is refused -----

  /** Late usage that costs something is in what an invoice rolls forward. */
  lemma {:induction false} PriorTotalAtLeast(plan: Plan, usage: Usage, s: Store, month: int, p: int, id: nat)
    requires Inv(plan, s) && Built(plan, usage, s, month).Some?
    requires p < month && Period(p, Invoiced) in s.periods && ListOf(plan, p, id).Some?
    ensures Built(plan, usage, s, month).value.priorTotal
         >= CatchUp(ListOf(plan, p, id).value, QuantityOf(usage(p), id), Already(s.invoices, p, id), Amount) >= 0
  {
    hide Conserves, Already, Accepted, ListOf, CatchUp, SegmentsOf, PriorLines, CurrentLines, PeriodBill, PriorRequests,
         Ordered, Formed, Total, Tally, QuantityOf;
    PlanFits(plan, usage, month);
    var earlier, next := Before(s.periods, month), |CurrentLines(SegmentsOf(plan, usage, month), 1)| + 1;
    BeforeOrdered(s.periods, month);
    PriorTally(plan, usage, s.invoices, earlier, next, month, p, id, Amount);
    PriorLinesFormed(plan, usage, s.invoices, earlier, next);
    FormedShare(PriorLines(plan, usage, s.invoices, earlier, next), next, month, p, id);
  }

  lemma {:induction false} LateRequestCosts(usage: Usage, s: Store, month: int, p: int)
    requires p >= Calendar.EPOCH_MONTH && FlatPlan().Valid() && Inv(FlatPlan(), s) && Built(FlatPlan(), usage, s, month).Some?
    requires p < month && Period(p, Invoiced) in s.periods
    requires Already(s.invoices, p, 1) == 0 && QuantityOf(usage(p), 1) == 1
    ensures Built(FlatPlan(), usage, s, month).value.priorTotal > 0
  {
    hide FlatPlan, Inv, Already, ListOf, Built, Bill, QuantityOf, AllAccepted, Plan.Valid, Rated;
    FlatMonth(usage, p);
    PriorTotalAtLeast(FlatPlan(), usage, s, month, p, 1);
    RatedMeaning(PAISA_PER_REQUEST, 1, None);
    RatedMeaning(PAISA_PER_REQUEST, 0, None);
    FlatListBill(1);
    FlatListBill(0);
  }

  lemma {:induction false} RefusedWhenLate(plan: Plan, usage: Usage, s: Store, month: int)
    requires Inv(plan, s) && Issues(plan, usage, s, month) && Built(plan, usage, s, month).value.priorTotal > 0
    ensures Inv(plan, Generated(plan, usage, s, month).0)
    ensures var d, issued := Built(plan, usage, s, month).value, Generated(plan, usage, s, month).0;
            && Invoice(month, true, d.lines, d.total) in issued.invoices && d.periodTotal < d.total
            && Generated(plan, usage, issued, month) == (issued, Failure(InvoiceImmutable(d.total, d.periodTotal)))
  {
    hide Conserves, Already, Accepted, Built, Generated, Ordered, OnePerMonth, IssueAccepted, Formed;
    BuildIsAccepted(plan, usage, s, month);
    GeneratedNew(plan, usage, s, month);
    RegeneratedAtOnce(plan, usage, s, month);
    GenerateEffects(plan, usage, Generated(plan, usage, s, month).0, month);
  }

  lemma {:induction false} LastStep(plan: Plan, s: Store, step: Step)
    requires Inv(plan, s)
    ensures Inv(plan, Next(plan, s, step)) && History(plan, s, [step]) == Next(plan, s, step)
  {
    hide Inv, Next;
    HistoryStep(plan, s, step, []);
    assert [step] + [] == [step];
  }

  /** January is invoiced and gains one late request, which February's invoice rolls forward. Run again
      at once, with nothing new, February is refused: rebuilt, it no longer has the late line. */
  lemma {:induction false} RegenerationRefused() returns (plan: Plan, run: seq<Step>, usage: Usage, month: int)
    ensures plan.Valid() && Inv(plan, NO_INVOICES)
    ensures var s := History(plan, NO_INVOICES, run);
            && Issues(plan, usage, s, month) && Inv(plan, Generated(plan, usage, s, month).0)
            && var d, issued := Built(plan, usage, s, month).value, Generated(plan, usage, s, month).0;
               && Invoice(month, true, d.lines, d.total) in issued.invoices && d.periodTotal < d.total
               && Generated(plan, usage, issued, month) == (issued, Failure(InvoiceImmutable(d.total, d.periodTotal)))
  {
    hide FlatPlan, Inv, Already, ListOf, QuantityOf, AllAccepted, HasIssued, Plan.Valid, History, Built, Generated;
    var p := Calendar.EPOCH_MONTH;
    plan, usage, month := FlatPlan(), _ => map[1 := 1], p + 1;
    var idle: Usage := _ => map[];
    UsageOfOne(usage, idle, p);
    var issued, _ := FirstInvoice(idle, p);
    var due := MonthDue(usage, issued, month);
    var first := [EnsurePeriod(p), Generate(p, idle)];
    run := first + [EnsurePeriod(month)];
    HistoryJoin(plan, NO_INVOICES, first, [EnsurePeriod(month)]);
    LastStep(plan, issued, EnsurePeriod(month));
    LateRequestCosts(usage, due, month, p);
    RefusedWhenLate(plan, usage, due, month);
  }
}
