/** Invoice runs over one customer's periods (src/meter/pipeline/invoicing.py:190-379, with the
    tables of src/meter/storage/repositories/invoices.py and periods.py). The plan timeline is
    fixed; usage changes freely between runs. */
module InvoiceRuns {
  import opened Wrappers
  import opened Plans
  import opened Proration
  import opened Segments
  import opened InvoiceLines
  import Calendar

  datatype Status = Open | Reconciling | Closed | Invoiced

  /** A `billing_periods` row; the month is its id. */
  datatype Period = Period(month: int, status: Status)

  datatype Invoice = Invoice(month: int, issued: bool, lines: seq<Line>, total: int)

  /** Rows are kept in month order, the order `periods_before` asks for. */
  datatype Store = Store(periods: seq<Period>, invoices: seq<Invoice>)

  datatype Plan = Plan(timeline: seq<Assignment>, lists: nat -> PriceList) {
    ghost predicate Valid() {
      Timeline(timeline) && forall r <- timeline :: lists(r.version).Valid()
    }
  }

  /** Billable requests per assignment of a month, as the rollups hold them at one moment. */
  type Usage = int -> map<nat, nat>

  // ----- The segments of a month -----

  function SpansOf(plan: Plan, month: int): seq<Clipped> {
    AssignmentsInPeriod(plan.timeline, Calendar.MonthStart(month), Calendar.MonthEnd(month))
  }

  function SegmentsOf(plan: Plan, usage: Usage, month: int): seq<PeriodSegment> {
    Resolved(SpansOf(plan, month), month, plan.lists, usage(month))
  }

  lemma {:induction false} ClippedIdsDistinct(rows: seq<Assignment>, periodStart: int, periodEnd: int)
    requires Timeline(rows)
    ensures var spans := AssignmentsInPeriod(rows, periodStart, periodEnd);
            && (forall i, j :: 0 <= i < j < |spans| ==> spans[i].id != spans[j].id)
            && forall c <- spans :: exists r <- rows :: r.id == c.id
  {
    if rows != [] {
      ClippedIdsDistinct(rows[1..], periodStart, periodEnd);
      assert rows[0] in rows && forall r <- rows[1..] :: r in rows;
    }
  }

  /** A month's segments can always be rated, whatever the usage. */
  lemma {:induction false} PlanFits(plan: Plan, usage: Usage, month: int)
    requires plan.Valid()
    ensures Ratable(SegmentsOf(plan, usage, month)) && DistinctIds(SegmentsOf(plan, usage, month))
    ensures FitsMonth(Domains(SegmentsOf(plan, usage, month)))
  {
    hide Calendar.MonthStart, Calendar.DaysInMonth, Calendar.WholeDaysBetween;
    var segments := SegmentsOf(plan, usage, month);
    ResolvedFits(plan.timeline, month, plan.lists, usage(month));
    ClippedIdsDistinct(plan.timeline, Calendar.MonthStart(month), Calendar.MonthEnd(month));
    forall i | 0 <= i < |segments| ensures segments[i].Domain().Valid() {
      assert Domains(segments)[i] == segments[i].Domain();
    }
    if segments != [] {
      assert Domains(segments)[0] in Domains(segments);
    }
  }

  lemma {:induction false} FindAnyUsage(spans: seq<Clipped>, month: int, lists: nat -> PriceList, one: map<nat, nat>,
      two: map<nat, nat>, id: nat)
    ensures var a, b := Find(Resolved(spans, month, lists, one), id), Find(Resolved(spans, month, lists, two), id);
            && (a.Some? <==> b.Some?)
            && (a.Some? ==> a.value.quantity == QuantityOf(one, id) && b.value == a.value.(quantity := QuantityOf(two, id)))
  {
    if spans != [] {
      FindAnyUsage(spans[1..], month, lists, one, two, id);
      var a, b := Resolved(spans, month, lists, one), Resolved(spans, month, lists, two);
      assert a[1..] == Resolved(spans[1..], month, lists, one) && b[1..] == Resolved(spans[1..], month, lists, two);
    }
  }

  /** The prorated list of one segment of one month. It does not depend on usage. */
  ghost function ListOf(plan: Plan, p: int, id: nat): (r: Option<PriceList>)
    requires plan.Valid()
    ensures r.Some? ==> r.value.Valid()
  {
    var idle: Usage := _ => map[];
    PlanFits(plan, idle, p);
    var s := Find(SegmentsOf(plan, idle, p), id);
    if s.None? then None
    else
      ProratedValid(s.value.priceList, s.value.days, s.value.daysInMonth);
      Some(s.value.Domain().List())
  }

  lemma {:induction false} ListOfSegment(plan: Plan, usage: Usage, p: int, id: nat)
    requires plan.Valid()
    ensures var s := Find(SegmentsOf(plan, usage, p), id);
            && (s.Some? <==> ListOf(plan, p, id).Some?)
            && (s.Some? ==> s.value.Domain().Valid() && s.value.Domain().List() == ListOf(plan, p, id).value
                            && s.value.quantity == QuantityOf(usage(p), id))
  {
    hide SpansOf, Prorated;
    var idle: Usage := _ => map[];
    PlanFits(plan, idle, p);
    PlanFits(plan, usage, p);
    FindAnyUsage(SpansOf(plan, p), p, plan.lists, usage(p), map[], id);
  }

  lemma {:induction false} FindResolved(spans: seq<Clipped>, month: int, lists: nat -> PriceList,
      quantities: map<nat, nat>, c: Clipped)
    requires c in spans && forall i, j :: 0 <= i < j < |spans| ==> spans[i].id != spans[j].id
    ensures Find(Resolved(spans, month, lists, quantities), c.id) == Some(ResolvedOne(c, month, lists, quantities))
  {
    var r := Resolved(spans, month, lists, quantities);
    assert r[1..] == Resolved(spans[1..], month, lists, quantities);
    if spans[0] != c {
      FindResolved(spans[1..], month, lists, quantities, c);
    }
  }

  lemma {:induction false} RowIsValid(rows: seq<Assignment>, row: Assignment)
    requires Timeline(rows) && row in rows
    ensures row.to.Some? ==> row.from < row.to.value
  {
    if rows[0] != row {
      RowIsValid(rows[1..], row);
    }
  }

  /** A timeline row's list for a month: its version's, over the days of the month the row owns. */
  ghost function ListFor(plan: Plan, p: int, row: Assignment): PriceList
    requires plan.Valid() && row in plan.timeline && InForce(row, p)
  {
    RowIsValid(plan.timeline, row);
    ClipOwns(row, p);
    Prorated(plan.lists(row.version), |OwnedIn(row, p)|, Calendar.DaysInMonth(p))
  }

  /** What a segment is rated on is its timeline row's own list, and only rows in force have one. */
  lemma {:induction false} ListOfRow(plan: Plan, p: int, id: nat)
    requires plan.Valid()
    ensures forall row <- plan.timeline :: row.id == id && InForce(row, p) ==> ListOf(plan, p, id) == Some(ListFor(plan, p, row))
    ensures ListOf(plan, p, id).Some? ==> exists row <- plan.timeline :: row.id == id && InForce(row, p)
  {
    hide Calendar.FirstDay, Calendar.DaysInMonth, Calendar.LocalDate, Prorated, Find, Resolved, OwnedIn,
         AssignmentsInPeriod, Calendar.WholeDaysBetween;
    var idle: Usage := _ => map[];
    var start, end := Calendar.MonthStart(p), Calendar.MonthEnd(p);
    var spans := SpansOf(plan, p);
    PlanFits(plan, idle, p);
    ClippedIdsDistinct(plan.timeline, start, end);
    forall row | row in plan.timeline && row.id == id && InForce(row, p) ensures ListOf(plan, p, id) == Some(ListFor(plan, p, row)) {
      RowIsValid(plan.timeline, row);
      ClipOwns(row, p);
      OverlapIsClipped(plan.timeline, row, start, end);
      FindResolved(spans, p, plan.lists, map[], Clip(row, start, end));
    }
    if ListOf(plan, p, id).Some? {
      SegmentHasRow(plan, idle, p, id);
    }
  }

  lemma {:induction false} SegmentHasRow(plan: Plan, usage: Usage, p: int, id: nat)
    requires plan.Valid() && Find(SegmentsOf(plan, usage, p), id).Some?
    ensures exists row <- plan.timeline :: row.id == id && InForce(row, p)
  {
    hide Calendar.FirstDay, Calendar.DaysInMonth, Calendar.LocalDate;
    var start, end := Calendar.MonthStart(p), Calendar.MonthEnd(p);
    var segment := Find(SegmentsOf(plan, usage, p), id).value;
    var i :| 0 <= i < |SegmentsOf(plan, usage, p)| && SegmentsOf(plan, usage, p)[i] == segment;
    var c := SpansOf(plan, p)[i];
    ClippedOverlap(plan.timeline, start, end, c);
  }

  lemma {:induction false} ClippedOverlap(rows: seq<Assignment>, periodStart: int, periodEnd: int, c: Clipped)
    requires c in AssignmentsInPeriod(rows, periodStart, periodEnd)
    ensures exists row <- rows :: row.id == c.id && row.version == c.version && Overlaps(row, periodStart, periodEnd)
  {
    if !(Overlaps(rows[0], periodStart, periodEnd) && c == Clip(rows[0], periodStart, periodEnd)) {
      ClippedOverlap(rows[1..], periodStart, periodEnd, c);
    }
  }

  // ----- Periods -----

  ghost predicate Ordered(periods: seq<Period>) {
    periods == [] || ((forall q <- periods[1..] :: periods[0].month < q.month) && Ordered(periods[1..]))
  }

  function StatusOf(periods: seq<Period>, month: int): (r: Option<Status>)
    ensures r.Some? ==> Period(month, r.value) in periods
    ensures r.None? <==> forall q <- periods :: q.month != month
  {
    if periods == [] then None else if periods[0].month == month then Some(periods[0].status) else StatusOf(periods[1..], month)
  }

  /** `periods_before`. */
  function Before(periods: seq<Period>, month: int): (r: seq<Period>)
    ensures forall q :: q in r <==> q in periods && q.month < month
  {
    if periods == [] then []
    else if periods[0].month < month then [periods[0]] + Before(periods[1..], month)
    else Before(periods[1..], month)
  }

  /** `mark_status`. */
  function Mark(periods: seq<Period>, month: int, status: Status): (r: seq<Period>)
    ensures |r| == |periods|
    ensures forall q :: q in r <==> (q in periods && q.month != month) || (q == Period(month, status) && exists o <- periods :: o.month == month)
  {
    if periods == [] then []
    else [if periods[0].month == month then Period(month, status) else periods[0]] + Mark(periods[1..], month, status)
  }

  /** `ensure_period`. */
  function Ensure(periods: seq<Period>, month: int): (r: seq<Period>)
    ensures forall q :: q in r <==> q in periods || (q == Period(month, Open) && StatusOf(periods, month).None?)
  {
    if StatusOf(periods, month).Some? then periods
    else if periods == [] || month < periods[0].month then [Period(month, Open)] + periods
    else [periods[0]] + Ensure(periods[1..], month)
  }

  lemma {:induction false} BeforeOrdered(periods: seq<Period>, month: int)
    requires Ordered(periods)
    ensures Ordered(Before(periods, month))
  {
    if periods != [] {
      BeforeOrdered(periods[1..], month);
    }
  }

  lemma {:induction false} MarkOrdered(periods: seq<Period>, month: int, status: Status)
    requires Ordered(periods)
    ensures Ordered(Mark(periods, month, status))
  {
    if periods != [] {
      MarkOrdered(periods[1..], month, status);
    }
  }

  lemma {:induction false} EnsureOrdered(periods: seq<Period>, month: int)
    requires Ordered(periods)
    ensures Ordered(Ensure(periods, month))
  {
    if StatusOf(periods, month).None? && periods != [] && month > periods[0].month {
      EnsureOrdered(periods[1..], month);
    }
  }

  lemma {:induction false} OneRowPerMonth(periods: seq<Period>, a: Period, b: Period)
    requires Ordered(periods) && a in periods && b in periods && a.month == b.month
    ensures a == b
  {
    if a != periods[0] && b != periods[0] {
      OneRowPerMonth(periods[1..], a, b);
    }
  }

  // ----- Invoices -----

  function FindInvoice(invoices: seq<Invoice>, month: int): (r: Option<Invoice>)
    ensures r.Some? ==> r.value in invoices && r.value.month == month
    ensures r.None? <==> forall i <- invoices :: i.month != month
  {
    if invoices == [] then None else if invoices[0].month == month then Some(invoices[0]) else FindInvoice(invoices[1..], month)
  }

  function Without(invoices: seq<Invoice>, month: int): (r: seq<Invoice>)
    ensures forall i :: i in r <==> i in invoices && i.month != month
  {
    if invoices == [] then []
    else if invoices[0].month == month then Without(invoices[1..], month)
    else [invoices[0]] + Without(invoices[1..], month)
  }

  /** The unique constraint on (customer, period). */
  ghost predicate OnePerMonth(invoices: seq<Invoice>) {
    invoices == [] || ((forall i <- invoices[1..] :: i.month != invoices[0].month) && OnePerMonth(invoices[1..]))
  }

  lemma {:induction false} OnePerMonthMeans(invoices: seq<Invoice>)
    ensures OnePerMonth(invoices) <==> forall i, j :: 0 <= i < j < |invoices| ==> invoices[i].month != invoices[j].month
  {
    if invoices != [] {
      var rest := invoices[1..];
      OnePerMonthMeans(rest);
      assert forall i :: 1 <= i < |invoices| ==> invoices[i] == rest[i - 1];
      if forall i, j :: 0 <= i < j < |invoices| ==> invoices[i].month != invoices[j].month {
        assert forall i, j :: 0 <= i < j < |rest| ==> rest[i] == invoices[i + 1] && rest[j] == invoices[j + 1];
      }
    }
  }

  ghost predicate HasIssued(invoices: seq<Invoice>, month: int) {
    exists i <- invoices :: i.month == month && i.issued
  }

  lemma {:induction false} FindFindsIssued(invoices: seq<Invoice>, month: int)
    requires OnePerMonth(invoices)
    ensures HasIssued(invoices, month) <==> FindInvoice(invoices, month).Some? && FindInvoice(invoices, month).value.issued
  {
    if invoices != [] {
      FindFindsIssued(invoices[1..], month);
      assert forall i <- invoices[1..] :: i in invoices;
    }
  }

  lemma {:induction false} WithoutOnePerMonth(invoices: seq<Invoice>, month: int)
    requires OnePerMonth(invoices)
    ensures OnePerMonth(Without(invoices, month))
  {
    if invoices != [] {
      WithoutOnePerMonth(invoices[1..], month);
    }
  }

  lemma {:induction false} AppendOnePerMonth(invoices: seq<Invoice>, i: Invoice)
    requires OnePerMonth(invoices) && forall j <- invoices :: j.month != i.month
    ensures OnePerMonth(invoices + [i])
  {
    if invoices != [] {
      assert (invoices + [i])[1..] == invoices[1..] + [i];
      AppendOnePerMonth(invoices[1..], i);
    }
  }

  /** Usage billed for one segment of period `p` by all issued invoices (BILLED_BY_SEGMENT_SQL). */
  function Billed(invoices: seq<Invoice>, p: int, id: nat, m: Measure): int {
    if invoices == [] then 0
    else (if invoices[0].issued then Tally(invoices[0].lines, invoices[0].month, p, id, m) else 0) + Billed(invoices[1..], p, id, m)
  }

  lemma {:induction false} BilledWithout(invoices: seq<Invoice>, month: int, p: int, id: nat, m: Measure)
    requires forall i <- invoices :: i.month == month ==> !i.issued
    ensures Billed(Without(invoices, month), p, id, m) == Billed(invoices, p, id, m)
  {
    if invoices != [] {
      BilledWithout(invoices[1..], month, p, id, m);
      assert invoices[0] in invoices;
      if invoices[0].month != month {
        assert Without(invoices, month)[1..] == Without(invoices[1..], month);
      }
    }
  }

  lemma {:induction false} BilledAppend(invoices: seq<Invoice>, i: Invoice, p: int, id: nat, m: Measure)
    ensures Billed(invoices + [i], p, id, m) == Billed(invoices, p, id, m) + if i.issued then Tally(i.lines, i.month, p, id, m) else 0
  {
    hide Tally;
    if invoices == [] {
      assert [i][1..] == [] && invoices + [i] == [i];
    } else {
      assert (invoices + [i])[1..] == invoices[1..] + [i];
      BilledAppend(invoices[1..], i, p, id, m);
    }
  }

  /** Every issued invoice passed the row checks and the issue trigger. */
  ghost predicate Accepted(i: Invoice) {
    i.issued ==> IssueAccepted(i.lines, i.total) && Formed(i.lines, 1) && i.total >= 0
  }

  /** The issue trigger: some lines, and they sum to the total. */
  predicate IssueAccepted(lines: seq<Line>, total: int) {
    lines != [] && Total(lines) == total
  }

  lemma {:induction false} BilledNatural(invoices: seq<Invoice>, p: int, id: nat)
    requires forall i <- invoices :: Accepted(i)
    ensures Billed(invoices, p, id, Quantity) >= 0
  {
    if invoices != [] {
      assert invoices[0] in invoices;
      if invoices[0].issued {
        FormedTotal(invoices[0].lines, 1);
      }
      BilledNatural(invoices[1..], p, id);
    }
  }

  function Already(invoices: seq<Invoice>, p: int, id: nat): nat
    requires forall i <- invoices :: Accepted(i)
  {
    BilledNatural(invoices, p, id);
    Billed(invoices, p, id, Quantity)
  }

  // ----- Roll-forward over the earlier periods -----

  ghost predicate AllAccepted(invoices: seq<Invoice>) {
    forall i <- invoices :: Accepted(i)
  }

  ghost function MonthLate(segments: seq<PeriodSegment>, invoices: seq<Invoice>, p: int, next: nat): seq<Line>
    requires Ratable(segments) && AllAccepted(invoices)
  {
    if segments == [] then []
    else
      ProratedValid(segments[0].priceList, segments[0].days, segments[0].daysInMonth);
      var first := LateLines(segments[0].Domain().List(), segments[0], Already(invoices, p, segments[0].id), p, next);
      first + MonthLate(segments[1..], invoices, p, next + |first|)
  }

  ghost function LateRequests(segments: seq<PeriodSegment>, invoices: seq<Invoice>, p: int): nat
    requires AllAccepted(invoices)
  {
    if segments == [] then 0
    else Max(0, segments[0].quantity - Already(invoices, p, segments[0].id)) + LateRequests(segments[1..], invoices, p)
  }

  ghost function PriorLines(plan: Plan, usage: Usage, invoices: seq<Invoice>, earlier: seq<Period>,
      next: nat): seq<Line>
    requires plan.Valid() && AllAccepted(invoices)
  {
    if earlier == [] then []
    else if earlier[0].status != Invoiced then PriorLines(plan, usage, invoices, earlier[1..], next)
    else
      var p := earlier[0].month;
      PlanFits(plan, usage, p);
      var first := MonthLate(SegmentsOf(plan, usage, p), invoices, p, next);
      first + PriorLines(plan, usage, invoices, earlier[1..], next + |first|)
  }

  ghost function PriorRequests(plan: Plan, usage: Usage, invoices: seq<Invoice>, earlier: seq<Period>): nat
    requires AllAccepted(invoices)
  {
    if earlier == [] then 0
    else (if earlier[0].status == Invoiced then LateRequests(SegmentsOf(plan, usage, earlier[0].month), invoices, earlier[0].month) else 0)
         + PriorRequests(plan, usage, invoices, earlier[1..])
  }

  /** What a late billing of (p, id) at `now` requests adds. */
  ghost function CatchUp(pl: PriceList, now: nat, already: nat, m: Measure): int
    requires pl.Valid()
  {
    if now > already then Rated(pl, now, m) - Rated(pl, already, m) else 0
  }

  lemma {:induction false} MonthLateTally(segments: seq<PeriodSegment>, invoices: seq<Invoice>, p: int, next: nat,
      month: int, q: int, id: nat, m: Measure)
    requires Ratable(segments) && DistinctIds(segments) && AllAccepted(invoices)
    ensures var s := Find(segments, id);
            && (s.Some? ==> s.value.Domain().Valid() && s.value.Domain().List().Valid())
            && Tally(MonthLate(segments, invoices, p, next), month, q, id, m)
               == if q == p && s.Some? then CatchUp(s.value.Domain().List(), s.value.quantity, Already(invoices, p, id), m) else 0
  {
    hide Prorated, Rated, LateLines, Already, Accepted;
    if segments != [] {
      var s, rest := segments[0], segments[1..];
      ProratedValid(s.priceList, s.days, s.daysInMonth);
      var first := LateLines(s.Domain().List(), s, Already(invoices, p, s.id), p, next);
      LateTally(s.Domain().List(), s, Already(invoices, p, s.id), p, next, month, q, id, m);
      TallyConcat(first, MonthLate(rest, invoices, p, next + |first|), month, q, id, m);
      MonthLateTally(rest, invoices, p, next + |first|, month, q, id, m);
      if s.id == id {
        forall r | r in rest ensures r.id != id {
          var j :| 0 <= j < |rest| && rest[j] == r;
          assert segments[j + 1] == r;
        }
      }
    }
  }

  lemma {:induction false} PriorTally(plan: Plan, usage: Usage, invoices: seq<Invoice>, earlier: seq<Period>,
      next: nat, month: int, q: int, id: nat, m: Measure)
    requires plan.Valid() && AllAccepted(invoices) && Ordered(earlier)
    ensures Tally(PriorLines(plan, usage, invoices, earlier, next), month, q, id, m)
         == if Period(q, Invoiced) in earlier && ListOf(plan, q, id).Some?
            then CatchUp(ListOf(plan, q, id).value, QuantityOf(usage(q), id), Already(invoices, q, id), m) else 0
  {
    hide SegmentsOf, MonthLate, CatchUp, Already, Accepted, ListOf;
    if earlier != [] {
      var p, rest := earlier[0].month, earlier[1..];
      assert forall r <- rest :: r.month > p;
      if earlier[0].status != Invoiced {
        PriorTally(plan, usage, invoices, rest, next, month, q, id, m);
      } else {
        PlanFits(plan, usage, p);
        var first := MonthLate(SegmentsOf(plan, usage, p), invoices, p, next);
        MonthLateTally(SegmentsOf(plan, usage, p), invoices, p, next, month, q, id, m);
        ListOfSegment(plan, usage, p, id);
        PriorTally(plan, usage, invoices, rest, next + |first|, month, q, id, m);
        TallyConcat(first, PriorLines(plan, usage, invoices, rest, next + |first|), month, q, id, m);
      }
    }
  }

  lemma {:induction false} MonthLateFormed(segments: seq<PeriodSegment>, invoices: seq<Invoice>, p: int, next: nat)
    requires Ratable(segments) && AllAccepted(invoices)
    ensures Formed(MonthLate(segments, invoices, p, next), next)
  {
    hide Prorated, Already, Accepted, LateLines, Formed;
    if segments != [] {
      var s := segments[0];
      ProratedValid(s.priceList, s.days, s.daysInMonth);
      var first := LateLines(s.Domain().List(), s, Already(invoices, p, s.id), p, next);
      LateLinesFormed(s.Domain().List(), s, Already(invoices, p, s.id), p, next);
      MonthLateFormed(segments[1..], invoices, p, next + |first|);
      FormedConcat(first, MonthLate(segments[1..], invoices, p, next + |first|), next);
    } else {
      NothingFormed(next);
    }
  }

  lemma {:induction false} LateLinesFormed(pl: PriceList, segment: PeriodSegment, already: nat, p: int, next: nat)
    requires pl.Valid() && segment.quantity >= 0
    ensures Formed(LateLines(pl, segment, already, p, next), next)
  {
    hide Prorated, DeltaLines;
    DeltaLinesFormed(pl, segment, already, p, 0, next);
  }

  lemma {:induction false} NothingFormed(next: nat)
    ensures Formed([], next)
  {
  }

  lemma {:induction false} PriorLinesFormed(plan: Plan, usage: Usage, invoices: seq<Invoice>, earlier: seq<Period>,
      next: nat)
    requires plan.Valid() && AllAccepted(invoices)
    ensures Formed(PriorLines(plan, usage, invoices, earlier, next), next)
  {
    hide SegmentsOf, MonthLate, Accepted, Formed;
    if earlier == [] {
      NothingFormed(next);
    } else if earlier[0].status != Invoiced {
      PriorLinesFormed(plan, usage, invoices, earlier[1..], next);
    } else {
      var p := earlier[0].month;
      PlanFits(plan, usage, p);
      var first := MonthLate(SegmentsOf(plan, usage, p), invoices, p, next);
      MonthLateFormed(SegmentsOf(plan, usage, p), invoices, p, next);
      PriorLinesFormed(plan, usage, invoices, earlier[1..], next + |first|);
      FormedConcat(first, PriorLines(plan, usage, invoices, earlier[1..], next + |first|), next);
    }
  }

  // ----- Building and issuing -----

  datatype Draft = Draft(lines: seq<Line>, total: int, periodTotal: int, priorTotal: int, priorRequests: int)

  datatype InvoiceError = CannotBuild(error: BuildError) | InvoiceImmutable(issued: int, rebuilt: int)

  datatype Outcome = Outcome(draft: Draft, existed: bool)

  /** What `build` computes: nothing without a period row or a plan. */
  ghost function Built(plan: Plan, usage: Usage, s: Store, month: int): Option<Draft>
    requires plan.Valid() && AllAccepted(s.invoices)
  {
    var segments := SegmentsOf(plan, usage, month);
    if StatusOf(s.periods, month).None? || segments == [] then None
    else
      PlanFits(plan, usage, month);
      var current := CurrentLines(segments, 1);
      var prior := PriorLines(plan, usage, s.invoices, Before(s.periods, month), |current| + 1);
      Some(Draft(current + prior, PeriodBill(Domains(segments)) + Total(prior), PeriodBill(Domains(segments)), Total(prior),
                 PriorRequests(plan, usage, s.invoices, Before(s.periods, month))))
  }

  ghost function Generated(plan: Plan, usage: Usage, s: Store, month: int): (Store, Result<Outcome, InvoiceError>)
    requires plan.Valid() && AllAccepted(s.invoices)
  {
    var built, existing := Built(plan, usage, s, month), FindInvoice(s.invoices, month);
    if built.None? then (s, Failure(CannotBuild(NothingToInvoice)))
    else if existing.Some? && existing.value.issued then
      if existing.value.total != built.value.total then (s, Failure(InvoiceImmutable(existing.value.total, built.value.total)))
      else (s.(periods := Mark(s.periods, month, Invoiced)), Success(Outcome(built.value, true)))
    else
      var invoice := Invoice(month, true, built.value.lines, built.value.total);
      (Store(Mark(s.periods, month, Invoiced), Without(s.invoices, month) + [invoice]), Success(Outcome(built.value, false)))
  }

  /** The run issues a new invoice. */
  ghost predicate Issues(plan: Plan, usage: Usage, s: Store, month: int)
    requires plan.Valid() && AllAccepted(s.invoices)
  {
    Built(plan, usage, s, month).Some? && !HasIssued(s.invoices, month)
  }

  /** The periods a run for `month` bills: its own, and the earlier ones still marked invoiced. */
  ghost predicate Reaches(s: Store, month: int, p: int) {
    p == month || (p < month && Period(p, Invoiced) in s.periods)
  }

  /** Whatever `build` returns, the row checks and the issue trigger accept it: lines numbered
      from 1, every amount its quantity times its price, and lines that sum to the total. */
  lemma {:induction false} BuildIsAccepted(plan: Plan, usage: Usage, s: Store, month: int)
    requires plan.Valid() && AllAccepted(s.invoices)
    ensures Built(plan, usage, s, month).Some? ==>
              var d := Built(plan, usage, s, month).value;
              && IssueAccepted(d.lines, d.total) && Formed(d.lines, 1) && d.total >= 0
              && (forall i :: 0 <= i < |d.lines| ==> d.lines[i].number == i + 1)
              && d.total == d.periodTotal + d.priorTotal
              && d.lines != [] && Total(d.lines) == d.total
              && forall line <- d.lines :: line.quantity >= 0 && line.unitPrice >= 0 && line.amount == line.quantity * line.unitPrice
  {
    hide SegmentsOf, Prorated, Accepted, PriorLines, CurrentLines, Formed, PeriodBill, Total;
    if Built(plan, usage, s, month).Some? {
      DraftIsAccepted(plan, usage, s, month);
      FormedLines(Built(plan, usage, s, month).value.lines, 1);
    }
  }

  lemma {:induction false} DraftIsAccepted(plan: Plan, usage: Usage, s: Store, month: int)
    requires plan.Valid() && AllAccepted(s.invoices) && Built(plan, usage, s, month).Some?
    ensures var d := Built(plan, usage, s, month).value;
            && IssueAccepted(d.lines, d.total) && Formed(d.lines, 1) && d.total >= 0
            && (forall i :: 0 <= i < |d.lines| ==> d.lines[i].number == i + 1)
            && d.total == d.periodTotal + d.priorTotal
  {
    hide SegmentsOf, Prorated, Accepted, PriorLines, CurrentLines, Formed, PeriodBill, Total;
    var segments := SegmentsOf(plan, usage, month);
    PlanFits(plan, usage, month);
    var current := CurrentLines(segments, 1);
    var prior := PriorLines(plan, usage, s.invoices, Before(s.periods, month), |current| + 1);
    CurrentLinesFormed(segments, 1);
    PriorLinesFormed(plan, usage, s.invoices, Before(s.periods, month), |current| + 1);
    FormedConcat(current, prior, 1);
    TotalConcat(current, prior);
    FormedTotal(current + prior, 1);
  }
}
