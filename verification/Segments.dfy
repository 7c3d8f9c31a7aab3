/** From plan assignments to proration segments (src/meter/segments.py, and the clipping query
    of src/meter/storage/repositories/periods.py). */
module Segments {
  import opened Wrappers
  import opened Plans
  import opened Proration
  import Calendar

  /** A `plan_assignments` row: half-open [from, to), None while it is still current. */
  datatype Assignment = Assignment(id: nat, version: nat, from: int, to: Option<int>)

  /** A row of the clipping query. */
  datatype Clipped = Clipped(id: nat, version: nat, start: int, end: int)

  datatype PeriodSegment = PeriodSegment(id: nat, version: nat, priceList: PriceList, days: int, daysInMonth: int, quantity: int) {
    function Domain(): Segment {
      Segment(priceList, days, daysInMonth, quantity)
    }
  }

  /** One customer's rows in order of their lower bound. The exclusion constraint refuses
      overlaps, the CHECK refuses empty ranges, ids are primary keys. */
  ghost predicate Timeline(rows: seq<Assignment>) {
    rows == []
    || (&& (rows[0].to.Some? ==> rows[0].from < rows[0].to.value)
        && (forall r <- rows[1..] :: rows[0].to.Some? && rows[0].to.value <= r.from && rows[0].id != r.id)
        && Timeline(rows[1..]))
  }

  predicate Overlaps(row: Assignment, periodStart: int, periodEnd: int) {
    row.from < periodEnd && (row.to.None? || row.to.value > periodStart)
  }

  function Clip(row: Assignment, periodStart: int, periodEnd: int): Clipped {
    Clipped(row.id, row.version, Max(row.from, periodStart),
            Min(if row.to.None? then periodEnd else row.to.value, periodEnd))
  }

  function AssignmentsInPeriod(rows: seq<Assignment>, periodStart: int, periodEnd: int): seq<Clipped> {
    if rows == [] then []
    else
      var rest := AssignmentsInPeriod(rows[1..], periodStart, periodEnd);
      if Overlaps(rows[0], periodStart, periodEnd) then [Clip(rows[0], periodStart, periodEnd)] + rest else rest
  }

  lemma {:induction false} OverlapIsClipped(rows: seq<Assignment>, row: Assignment, periodStart: int, periodEnd: int)
    requires row in rows && Overlaps(row, periodStart, periodEnd)
    ensures Clip(row, periodStart, periodEnd) in AssignmentsInPeriod(rows, periodStart, periodEnd)
  {
    if rows[0] != row {
      OverlapIsClipped(rows[1..], row, periodStart, periodEnd);
    }
  }

  /** Spans laid out in order between `low` and `high`, none empty, none overlapping. */
  ghost predicate Laid(spans: seq<Clipped>, low: int, high: int) {
    if spans == [] then low <= high
    else low <= spans[0].start < spans[0].end && Laid(spans[1..], spans[0].end, high)
  }

  /** Laid with no gap anywhere between `low` and `high`. */
  ghost predicate Gapless(spans: seq<Clipped>, low: int, high: int) {
    if spans == [] then low == high
    else low == spans[0].start < spans[0].end && Gapless(spans[1..], spans[0].end, high)
  }

  ghost predicate CoveredAt(spans: seq<Clipped>, t: int) {
    exists c <- spans :: c.start <= t < c.end
  }

  /** No gap means that some span covers every instant. */
  lemma {:induction false} GaplessExactly(spans: seq<Clipped>, low: int, high: int)
    requires Laid(spans, low, high)
    ensures Gapless(spans, low, high) <==> forall t :: low <= t < high ==> CoveredAt(spans, t)
  {
    if spans == [] {
      assert !CoveredAt(spans, low);
    } else {
      var first, rest := spans[0], spans[1..];
      LaidBounds(spans, low, high);
      LaidBounds(rest, first.end, high);
      GaplessExactly(rest, first.end, high);
      forall t ensures CoveredAt(spans, t) <==> first.start <= t < first.end || CoveredAt(rest, t) {
        assert forall c :: c in spans <==> c == first || c in rest;
      }
      if low < first.start {
        assert !CoveredAt(spans, low);
      }
      if !Gapless(rest, first.end, high) {
        var t :| first.end <= t < high && !CoveredAt(rest, t);
        assert !CoveredAt(spans, t);
      }
    }
  }

  lemma {:induction false} LaidBounds(spans: seq<Clipped>, low: int, high: int)
    requires Laid(spans, low, high)
    ensures low <= high && forall c <- spans :: low <= c.start < c.end <= high
  {
    if spans != [] {
      LaidBounds(spans[1..], spans[0].end, high);
    }
  }

  lemma {:induction false} ClippedLaid(rows: seq<Assignment>, periodStart: int, periodEnd: int, low: int)
    requires Timeline(rows) && periodStart <= low <= periodEnd && periodStart < periodEnd
    requires forall r <- rows :: low == periodStart || r.from >= low
    ensures Laid(AssignmentsInPeriod(rows, periodStart, periodEnd), low, periodEnd)
    ensures forall c <- AssignmentsInPeriod(rows, periodStart, periodEnd) :: exists r <- rows :: c == Clip(r, periodStart, periodEnd)
  {
    if rows != [] {
      var row, tail := rows[0], rows[1..];
      assert row in rows && forall r <- tail :: r in rows;
      if Overlaps(row, periodStart, periodEnd) {
        var end := Clip(row, periodStart, periodEnd).end;
        if row.to.None? || row.to.value >= periodEnd {
          NothingAfter(tail, periodStart, periodEnd);
        } else {
          ClippedLaid(tail, periodStart, periodEnd, end);
        }
      } else {
        ClippedLaid(tail, periodStart, periodEnd, low);
      }
    }
  }

  lemma {:induction false} NothingAfter(rows: seq<Assignment>, periodStart: int, periodEnd: int)
    requires forall r <- rows :: r.from >= periodEnd
    ensures AssignmentsInPeriod(rows, periodStart, periodEnd) == []
  {
    if rows != [] {
      assert rows[0] in rows;
      NothingAfter(rows[1..], periodStart, periodEnd);
    }
  }

  function SpanDays(spans: seq<Clipped>): (days: int)
    ensures days >= 0
  {
    if spans == [] then 0 else Calendar.WholeDaysBetween(spans[0].start, spans[0].end) + SpanDays(spans[1..])
  }

  lemma {:induction false} LaidDays(spans: seq<Clipped>, low: int, high: int)
    requires Laid(spans, low, high)
    ensures low <= high
    ensures SpanDays(spans) <= Calendar.LocalDate(high) - Calendar.LocalDate(low)
    ensures Gapless(spans, low, high) ==> SpanDays(spans) == Calendar.LocalDate(high) - Calendar.LocalDate(low)
    ensures forall c <- spans :: 0 <= Calendar.WholeDaysBetween(c.start, c.end) <= SpanDays(spans)
  {
    if spans == [] {
      Calendar.LocalDateMonotone(low, high);
    } else {
      LaidDays(spans[1..], spans[0].end, high);
      Calendar.LocalDateMonotone(low, spans[0].start);
    }
  }

  /** However a customer's plans are laid out, their whole days in a billing month never exceed
      the month, and fill it exactly when there is no gap. */
  lemma {:induction false} TimelineDays(rows: seq<Assignment>, month: int)
    requires Timeline(rows)
    ensures var spans := AssignmentsInPeriod(rows, Calendar.MonthStart(month), Calendar.MonthEnd(month));
            && SpanDays(spans) <= Calendar.DaysInMonth(month)
            && (Gapless(spans, Calendar.MonthStart(month), Calendar.MonthEnd(month)) ==> SpanDays(spans) == Calendar.DaysInMonth(month))
            && (forall c <- spans :: 0 <= Calendar.WholeDaysBetween(c.start, c.end) <= Calendar.DaysInMonth(month))
  {
    var start, end := Calendar.MonthStart(month), Calendar.MonthEnd(month);
    Calendar.MonthLength(month);
    Calendar.LocalDateBounds(start, Calendar.FirstDay(month));
    Calendar.LocalDateBounds(start, Calendar.FirstDay(month) + 1);
    Calendar.LocalDateBounds(end, Calendar.FirstDay(month + 1));
    Calendar.LocalDateBounds(end, Calendar.FirstDay(month + 1) + 1);
    ClippedLaid(rows, start, end, start);
    LaidDays(AssignmentsInPeriod(rows, start, end), start, end);
  }

  /** The row is in force in some part of the month. */
  predicate InForce(row: Assignment, month: int) {
    row.from < Calendar.MonthEnd(month) && (row.to.Some? ==> Calendar.MonthStart(month) < row.to.value)
  }

  /** The dates of the month that the row owns: from the one it starts on to the one before it ends. */
  function OwnedIn(row: Assignment, month: int): (dates: set<int>)
    ensures forall d :: d in dates <==>
      && Calendar.FirstDay(month) <= d < Calendar.FirstDay(month + 1)
      && Calendar.LocalDate(row.from) <= d && (row.to.Some? ==> d < Calendar.LocalDate(row.to.value))
  {
    Calendar.Dates(Max(Calendar.FirstDay(month), Calendar.LocalDate(row.from)),
                   if row.to.None? then Calendar.FirstDay(month + 1) else Min(Calendar.FirstDay(month + 1), Calendar.LocalDate(row.to.value)))
  }

  lemma {:induction false} FirstDate(month: int)
    ensures Calendar.LocalDate(Calendar.MonthStart(month)) == Calendar.FirstDay(month)
    ensures Calendar.MonthStart(month) < Calendar.MonthEnd(month)
  {
    Calendar.MonthLength(month);
    Calendar.LocalDateBounds(Calendar.MonthStart(month), Calendar.FirstDay(month));
    Calendar.LocalDateBounds(Calendar.MonthStart(month), Calendar.FirstDay(month) + 1);
  }

  /** The whole days of a row's clip are the dates of the month it owns. */
  lemma {:induction false} ClipOwns(row: Assignment, month: int)
    requires InForce(row, month) && (row.to.Some? ==> row.from < row.to.value)
    ensures var c := Clip(row, Calendar.MonthStart(month), Calendar.MonthEnd(month));
            Calendar.WholeDaysBetween(c.start, c.end) == |OwnedIn(row, month)| <= Calendar.DaysInMonth(month)
  {
    hide Calendar.MonthStart, Calendar.FirstDay, Calendar.DaysInMonth, Calendar.LocalDate, Calendar.Dates;
    var start, end := Calendar.MonthStart(month), Calendar.MonthEnd(month);
    FirstDate(month);
    FirstDate(month + 1);
    Calendar.MonthLength(month);
    LaterDate(row.from, start);
    if row.to.Some? {
      LaterDate(row.to.value, end);
    }
    var c := Clip(row, start, end);
    Calendar.LocalDateMonotone(c.start, c.end);
  }

  lemma {:induction false} LaterDate(a: int, b: int)
    ensures Calendar.LocalDate(Max(a, b)) == Max(Calendar.LocalDate(a), Calendar.LocalDate(b))
    ensures Calendar.LocalDate(Min(a, b)) == Min(Calendar.LocalDate(a), Calendar.LocalDate(b))
  {
    if a <= b {
      Calendar.LocalDateMonotone(a, b);
    } else {
      Calendar.LocalDateMonotone(b, a);
    }
  }

  function QuantityOf(quantities: map<nat, nat>, id: nat): nat {
    if id in quantities then quantities[id] else 0
  }

  /** The loop of `resolve`: one segment per row of the clipping query, with its rollup usage
      attached. `lists` looks a version up; `quantities` is billable usage per assignment. */
  method Resolve(spans: seq<Clipped>, month: int, lists: nat -> PriceList, quantities: map<nat, nat>)
    returns (resolved: seq<PeriodSegment>)
    ensures resolved == Resolved(spans, month, lists, quantities)
    ensures |resolved| == |spans|
    ensures forall i :: 0 <= i < |spans| ==>
      && resolved[i].id == spans[i].id && resolved[i].version == spans[i].version
      && resolved[i].priceList == lists(spans[i].version)
      && resolved[i].quantity == (if spans[i].id in quantities then quantities[spans[i].id] else 0)
      && resolved[i].days == Calendar.WholeDaysBetween(spans[i].start, spans[i].end)
      && resolved[i].daysInMonth == Calendar.DaysInMonth(month)
  {
    resolved := [];
    for i := 0 to |spans|
      invariant |resolved| == i
      invariant forall k :: 0 <= k < i ==> resolved[k] == ResolvedOne(spans[k], month, lists, quantities)
    {
      var c := spans[i];
      var days := Calendar.WholeDaysBetween(c.start, c.end);
      resolved := resolved + [PeriodSegment(c.id, c.version, lists(c.version), days, Calendar.DaysInMonth(month), QuantityOf(quantities, c.id))];
    }
    ResolvedAt(resolved, spans, month, lists, quantities);
  }

  function ResolvedOne(c: Clipped, month: int, lists: nat -> PriceList, quantities: map<nat, nat>): PeriodSegment {
    PeriodSegment(c.id, c.version, lists(c.version), Calendar.WholeDaysBetween(c.start, c.end), Calendar.DaysInMonth(month), QuantityOf(quantities, c.id))
  }

  lemma {:induction false} ResolvedAt(r: seq<PeriodSegment>, spans: seq<Clipped>, month: int, lists: nat -> PriceList,
      quantities: map<nat, nat>)
    requires |r| == |spans| && forall k :: 0 <= k < |r| ==> r[k] == ResolvedOne(spans[k], month, lists, quantities)
    ensures r == Resolved(spans, month, lists, quantities)
  {
    if spans != [] {
      ResolvedAt(r[1..], spans[1..], month, lists, quantities);
      assert r == [r[0]] + r[1..];
    }
  }

  function Resolved(spans: seq<Clipped>, month: int, lists: nat -> PriceList,
      quantities: map<nat, nat>): (r: seq<PeriodSegment>)
    ensures |r| == |spans|
    ensures forall i :: 0 <= i < |spans| ==> r[i].id == spans[i].id && r[i].days == Calendar.WholeDaysBetween(spans[i].start, spans[i].end)
  {
    if spans == [] then [] else [ResolvedOne(spans[0], month, lists, quantities)] + Resolved(spans[1..], month, lists, quantities)
  }

  function Domains(segments: seq<PeriodSegment>): (r: seq<Segment>)
    ensures |r| == |segments| && forall i :: 0 <= i < |segments| ==> r[i] == segments[i].Domain()
  {
    seq(|segments|, i requires 0 <= i < |segments| => segments[i].Domain())
  }

  lemma {:induction false} ResolvedDays(spans: seq<Clipped>, month: int, lists: nat -> PriceList,
      quantities: map<nat, nat>)
    requires forall c <- spans :: lists(c.version).Valid()
    requires forall c <- spans :: Calendar.WholeDaysBetween(c.start, c.end) <= Calendar.DaysInMonth(month)
    ensures var r := Resolved(spans, month, lists, quantities);
            && TotalDays(Domains(r)) == SpanDays(spans)
            && forall i :: 0 <= i < |r| ==> r[i].Domain().Valid() && r[i].daysInMonth == Calendar.DaysInMonth(month)
  {
    hide Calendar.DaysInMonth, PriceList.Valid;
    if spans != [] {
      ResolvedDays(spans[1..], month, lists, quantities);
      assert spans[0] in spans;
      var r := Resolved(spans, month, lists, quantities);
      assert r[1..] == Resolved(spans[1..], month, lists, quantities);
      assert Domains(r)[1..] == Domains(r[1..]);
      assert r == [r[0]] + r[1..];
    }
  }

  /** What `resolve` returns, `rate_period` never rejects: the segments agree on the month and
      fit in it. Only a customer with no plan in the period has nothing to rate. */
  lemma {:induction false} ResolvedFits(rows: seq<Assignment>, month: int, lists: nat -> PriceList,
      quantities: map<nat, nat>)
    requires Timeline(rows)
    requires forall r <- rows :: lists(r.version).Valid()
    ensures var spans := AssignmentsInPeriod(rows, Calendar.MonthStart(month), Calendar.MonthEnd(month));
            var segments := Domains(Resolved(spans, month, lists, quantities));
            && AllValid(segments) && (forall s <- segments :: s.daysInMonth == Calendar.DaysInMonth(month))
            && TotalDays(segments) <= Calendar.DaysInMonth(month)
  {
    var start, end := Calendar.MonthStart(month), Calendar.MonthEnd(month);
    var spans := AssignmentsInPeriod(rows, start, end);
    TimelineDays(rows, month);
    Calendar.MonthLength(month);
    ClippedLaid(rows, start, end, start);
    ResolvedDays(spans, month, lists, quantities);
  }
}
