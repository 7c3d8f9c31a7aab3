/** Invoice lines (src/meter/pipeline/invoicing.py:136-288): the charge of a period line by line,
    and late usage of an invoiced period rolled forward band by band. */
module InvoiceLines {
  import opened Wrappers
  import opened Plans
  import opened Rating
  import opened Proration
  import opened Segments
  import opened InvoiceBands

  datatype LineKind = MonthlyFee | CurrentUsage | PriorUsage

  /** `usagePeriod` is None on a line of the invoice's own period. */
  datatype Line = Line(number: nat, kind: LineKind, quantity: int, unitPrice: int, amount: int,
                       version: nat, assignment: nat, band: Option<nat>, usagePeriod: Option<int>)

  // ----- What lines bill -----

  /** The ways usage lines are added up: requests, paisa, requests in one band. */
  datatype Measure = Quantity | Amount | InBand(band: Option<nat>)

  function Measured(m: Measure, band: Option<nat>, quantity: int, amount: int): int {
    match m
    case Quantity => quantity
    case Amount => amount
    case InBand(b) => if b == band then quantity else 0
  }

  /** Usage billed by the line for one segment of period `p`: COALESCE(usage_period, the invoice's own). */
  predicate Counts(line: Line, month: int, p: int, id: nat) {
    && line.kind != MonthlyFee
    && line.assignment == id
    && p == if line.usagePeriod.Some? then line.usagePeriod.value else month
  }

  /** What an invoice of `month` bills for one segment of period `p`. */
  function Tally(lines: seq<Line>, month: int, p: int, id: nat, m: Measure): int {
    if lines == [] then 0
    else (if Counts(lines[0], month, p, id) then Measured(m, lines[0].band, lines[0].quantity, lines[0].amount) else 0)
         + Tally(lines[1..], month, p, id, m)
  }

  lemma {:induction false} TallyConcat(a: seq<Line>, b: seq<Line>, month: int, p: int, id: nat, m: Measure)
    ensures Tally(a + b, month, p, id, m) == Tally(a, month, p, id, m) + Tally(b, month, p, id, m)
  {
    if a == [] {
      assert a + b == b;
    } else {
      assert (a + b)[1..] == a[1..] + b;
      TallyConcat(a[1..], b, month, p, id, m);
    }
  }

  function Total(lines: seq<Line>): int {
    if lines == [] then 0 else lines[0].amount + Total(lines[1..])
  }

  lemma {:induction false} TotalConcat(a: seq<Line>, b: seq<Line>)
    ensures Total(a + b) == Total(a) + Total(b)
  {
    if a == [] {
      assert a + b == b;
    } else {
      assert (a + b)[1..] == a[1..] + b;
      TotalConcat(a[1..], b);
    }
  }

  // ----- Rating a quantity once -----

  function BandsFrom(pl: PriceList, quantity: nat, i: nat, m: Measure): int
    requires pl.Valid() && i <= |pl.bands|
    decreases |pl.bands| - i
  {
    if i == |pl.bands| then 0
    else
      var take := RatedIn(pl, quantity, Some(i));
      Measured(m, Some(i), take, take * pl.bands[i].unitPrice) + BandsFrom(pl, quantity, i + 1, m)
  }

  /** The usage `quantity` requests cost when rated once on `pl`: the allowance, then band by band. */
  function Rated(pl: PriceList, quantity: nat, m: Measure): int
    requires pl.Valid()
  {
    Measured(m, None, RatedIn(pl, quantity, None), 0) + BandsFrom(pl, quantity, 0, m)
  }

  lemma {:induction false} NoTakeBelow(bands: seq<Band>, i: nat, j: nat, n: nat)
    requires ValidBands(bands) && i <= j < |bands| && n <= Lower(bands, i)
    ensures Take(bands, j, n) == 0
  {
    assert Lower(bands, i) <= Lower(bands, j);
  }

  lemma {:induction false} BandsFromQuantity(pl: PriceList, quantity: nat, i: nat)
    requires pl.Valid() && i < |pl.bands|
    ensures BandsFrom(pl, quantity, i, Quantity) == Max(0, Chargeable(pl, quantity) - Lower(pl.bands, i))
    decreases |pl.bands| - i
  {
    if i + 1 < |pl.bands| {
      BandsFromQuantity(pl, quantity, i + 1);
      assert Lower(pl.bands, i) < Lower(pl.bands, i + 1);
    }
  }

  lemma {:induction false} BandsFromAmount(pl: PriceList, quantity: nat, i: nat)
    requires pl.Valid() && i <= |pl.bands|
    ensures BandsFrom(pl, quantity, i, Amount) == SumAmounts(BandLines(pl.bands, i, Chargeable(pl, quantity)))
    decreases |pl.bands| - i
  {
    hide ValidBands;
    if i < |pl.bands| {
      BandsFromAmount(pl, quantity, i + 1);
      var n := Chargeable(pl, quantity);
      if n <= Lower(pl.bands, i) {
        NoTakeBelow(pl.bands, i, i, n);
        NothingMore(pl, i + 1, n);
      }
    }
  }

  lemma {:induction false} NothingMore(pl: PriceList, i: nat, n: nat)
    requires pl.Valid() && 1 <= i <= |pl.bands| && n <= Lower(pl.bands, i - 1)
    ensures BandLines(pl.bands, i, n) == []
  {
    if i < |pl.bands| {
      assert Lower(pl.bands, i - 1) <= Lower(pl.bands, i);
    }
  }

  lemma {:induction false} BandsFromBand(pl: PriceList, quantity: nat, i: nat, band: Option<nat>)
    requires pl.Valid() && i <= |pl.bands|
    ensures BandsFrom(pl, quantity, i, InBand(band))
         == if band.Some? && i <= band.value < |pl.bands| then RatedIn(pl, quantity, band) else 0
    decreases |pl.bands| - i
  {
    hide ValidBands, RatedIn;
    if i < |pl.bands| {
      BandsFromBand(pl, quantity, i + 1, band);
    }
  }

  /** Rating once bills every request once, costs the unit-by-unit bill less the fee, and puts in
      each band what that band takes. */
  lemma {:induction false} RatedMeaning(pl: PriceList, quantity: nat, band: Option<nat>)
    requires pl.Valid()
    ensures Rated(pl, quantity, Quantity) == quantity
    ensures Ladder(pl.bands) && Rated(pl, quantity, Amount) == Bill(pl, quantity) - pl.monthlyFee
    ensures Rated(pl, quantity, InBand(band)) == RatedIn(pl, quantity, band)
  {
    var n := Chargeable(pl, quantity);
    ValidBandsLadder(pl.bands);
    BandsFromQuantity(pl, quantity, 0);
    BandsFromAmount(pl, quantity, 0);
    BandsFromBand(pl, quantity, 0, band);
    assert pl.bands[0..] == pl.bands;
    UsageLinesByBand(pl.bands, 0, n);
    UsageLinesCost(pl.bands, 0, n);
  }

  lemma {:induction false} RatedZero(pl: PriceList, i: nat, m: Measure)
    requires pl.Valid() && i <= |pl.bands|
    ensures BandsFrom(pl, 0, i, m) == 0
    ensures Rated(pl, 0, m) == BandsFrom(pl, 0, 0, m)
    decreases |pl.bands| - i
  {
    if i < |pl.bands| {
      RatedZero(pl, i + 1, m);
      TakeZero(pl.bands, i);
    }
  }

  lemma {:induction false} TakeZero(bands: seq<Band>, i: nat)
    requires ValidBands(bands) && i < |bands|
    ensures Take(bands, i, 0) == 0
  {
    assert i > 0 ==> bands[i - 1].Valid() && bands[i - 1].upTo.Some?;
  }

  // ----- The period's own lines -----

  function KindFor(kind: Kind): LineKind {
    if kind == Fee then MonthlyFee else CurrentUsage
  }

  function CurrentLine(line: ChargeLine, band: Option<nat>, segment: PeriodSegment, number: nat): Line {
    Line(number, KindFor(line.kind), line.quantity, line.unitPrice, line.amount, segment.version, segment.id, band, None)
  }

  function ChargeLines(lines: seq<ChargeLine>, indices: seq<Option<nat>>, segment: PeriodSegment,
      next: nat): (r: seq<Line>)
    requires |lines| == |indices|
    ensures |r| == |lines|
  {
    if lines == [] then []
    else [CurrentLine(lines[0], indices[0], segment, next)] + ChargeLines(lines[1..], indices[1..], segment, next + 1)
  }

  lemma {:induction false} IndicesLength(lines: seq<ChargeLine>, bands: seq<Band>, cursor: nat)
    ensures |Indices(lines, bands, cursor)| == |lines|
  {
    if lines != [] {
      IndicesLength(lines[1..], bands, if lines[0].kind != Usage then cursor else Seek(bands, cursor, lines[0].unitPrice) + 1);
    }
  }

  function SegmentLines(segment: PeriodSegment, next: nat): seq<Line>
    requires segment.Domain().Valid()
  {
    var pl := segment.Domain().List();
    var lines := RateLines(pl, segment.quantity);
    IndicesLength(lines, pl.bands, 0);
    ChargeLines(lines, Indices(lines, pl.bands, 0), segment, next)
  }

  /** Every segment has terms it can be rated on, and its own assignment. */
  ghost predicate Ratable(segments: seq<PeriodSegment>) {
    forall i :: 0 <= i < |segments| ==> segments[i].Domain().Valid()
  }

  ghost predicate DistinctIds(segments: seq<PeriodSegment>) {
    forall i, j :: 0 <= i < j < |segments| ==> segments[i].id != segments[j].id
  }

  ghost function CurrentLines(segments: seq<PeriodSegment>, next: nat): seq<Line>
    requires Ratable(segments)
  {
    if segments == [] then []
    else
      var first := SegmentLines(segments[0], next);
      first + CurrentLines(segments[1..], next + |first|)
  }

  datatype BuildError = NothingToInvoice | NotRatable(error: ProrationError)

  lemma {:induction false} ChargeLinesStep(lines: seq<ChargeLine>, indices: seq<Option<nat>>, segment: PeriodSegment,
      k: nat, next: nat)
    requires |lines| == |indices| && k < |lines|
    ensures ChargeLines(lines[k..], indices[k..], segment, next)
         == [CurrentLine(lines[k], indices[k], segment, next)] + ChargeLines(lines[k + 1..], indices[k + 1..], segment, next + 1)
  {
    assert lines[k..][1..] == lines[k + 1..] && indices[k..][1..] == indices[k + 1..];
  }

  lemma {:induction false} ChargeLinesAfter(done: seq<Line>, lines: seq<ChargeLine>, indices: seq<Option<nat>>,
      segment: PeriodSegment, k: nat, next: nat)
    requires |lines| == |indices| && k < |lines|
    ensures done + ChargeLines(lines[k..], indices[k..], segment, next)
         == (done + [CurrentLine(lines[k], indices[k], segment, next)]) + ChargeLines(lines[k + 1..], indices[k + 1..], segment, next + 1)
  {
    hide ChargeLines, CurrentLine;
    ChargeLinesStep(lines, indices, segment, k, next);
  }

  /** The rated lines of a segment as rows, numbered on. */
  method NumberedLines(rated: seq<ChargeLine>, indices: seq<Option<nat>>, segment: PeriodSegment, start: nat)
    returns (lines: seq<Line>)
    requires |rated| == |indices|
    ensures lines == ChargeLines(rated, indices, segment, start)
  {
    hide ChargeLines, CurrentLine;
    lines := [];
    assert rated[0..] == rated && indices[0..] == indices;
    for k := 0 to |rated|
      invariant |lines| == k
      invariant lines + ChargeLines(rated[k..], indices[k..], segment, start + k) == ChargeLines(rated, indices, segment, start)
    {
      ChargeLinesAfter(lines, rated, indices, segment, k, start + k);
      lines := lines + [CurrentLine(rated[k], indices[k], segment, start + k)];
    }
  }

  /** One segment's share of `_current_period_lines`. */
  method AppendSegment(charge: Charge, segment: PeriodSegment, start: nat) returns (lines: seq<Line>)
    requires segment.Domain().Valid()
    requires charge == RateCharge(segment.Domain().List(), segment.quantity)
    ensures lines == SegmentLines(segment, start)
  {
    hide ChargeLines, Indices, RateLines, Prorated, ValidBands;
    var prorated := Prorate(segment.priceList, segment.days, segment.daysInMonth);
    var indices := BandIndices(charge.lines, prorated.value.bands);
    IndicesLength(charge.lines, prorated.value.bands, 0);
    lines := NumberedLines(charge.lines, indices, segment, start);
  }

  /** What `rate_period` demands of segments: one month, and no more days than it has. */
  ghost predicate FitsMonth(segments: seq<Segment>) {
    segments != [] ==> TotalDays(segments) <= segments[0].daysInMonth && forall s <- segments :: s.daysInMonth == segments[0].daysInMonth
  }

  lemma {:induction false} CurrentLinesStep(lines: seq<Line>, segments: seq<PeriodSegment>, k: nat, rows: seq<Line>,
      next: nat)
    requires Ratable(segments) && k < |segments| && rows == SegmentLines(segments[k], next)
    ensures lines + CurrentLines(segments[k..], next) == (lines + rows) + CurrentLines(segments[k + 1..], next + |rows|)
  {
    assert segments[k..][0] == segments[k] && segments[k..][1..] == segments[k + 1..];
  }

  method CurrentPeriodLines(segments: seq<PeriodSegment>, next: nat) returns (r: Result<(seq<Line>, int), BuildError>)
    requires Ratable(segments)
    ensures r == Failure(NothingToInvoice) <==> segments == []
    ensures r.Success? <==> segments != [] && FitsMonth(Domains(segments))
    ensures r.Success? ==> r.value == (CurrentLines(segments, next), PeriodBill(Domains(segments)))
  {
    hide SegmentLines, Prorated, RateCharge, PeriodBill, TotalDays, CurrentLines;
    if segments == [] {
      return Failure(NothingToInvoice);
    }
    var domains := Domains(segments);
    var charge := RatePeriod(domains);
    if charge.Failure? {
      return Failure(NotRatable(charge.error));
    }
    var rated, lines := charge.value.segments, [];
    assert segments[0..] == segments;
    for k := 0 to |segments|
      invariant lines + CurrentLines(segments[k..], next + |lines|) == CurrentLines(segments, next)
    {
      assert RatedAs(rated[k], domains[k]);
      var rows := AppendSegment(rated[k].charge, segments[k], next + |lines|);
      CurrentLinesStep(lines, segments, k, rows, next + |lines|);
      lines := lines + rows;
    }
    NoSegmentsNoLines(segments[|segments|..], next + |lines|);
    assert lines + [] == lines;
    return Success((lines, charge.value.total));
  }

  lemma {:induction false} NoSegmentsNoLines(segments: seq<PeriodSegment>, next: nat)
    requires segments == []
    ensures CurrentLines(segments, next) == []
  {
  }

  lemma {:induction false} TallyNothing(lines: seq<Line>, month: int, p: int, id: nat, m: Measure)
    requires forall line <- lines :: !Counts(line, month, p, id)
    ensures Tally(lines, month, p, id, m) == 0
  {
    if lines != [] {
      TallyNothing(lines[1..], month, p, id, m);
    }
  }

  lemma {:induction false} ChargeLinesShape(lines: seq<ChargeLine>, indices: seq<Option<nat>>, segment: PeriodSegment,
      next: nat)
    requires |lines| == |indices|
    ensures forall line <- ChargeLines(lines, indices, segment, next) ::
      line.kind != PriorUsage && line.assignment == segment.id && line.version == segment.version && line.usagePeriod.None?
  {
    if lines != [] {
      ChargeLinesShape(lines[1..], indices[1..], segment, next + 1);
    }
  }

  lemma {:induction false} BandsFromZero(pl: PriceList, quantity: nat, i: nat, m: Measure)
    requires pl.Valid() && i <= |pl.bands|
    requires forall j: nat :: j >= i ==> RatedIn(pl, quantity, Some(j)) == 0
    ensures BandsFrom(pl, quantity, i, m) == 0
    decreases |pl.bands| - i
  {
    if i < |pl.bands| {
      BandsFromZero(pl, quantity, i + 1, m);
    }
  }

  lemma {:induction false} TallyUsage(segment: PeriodSegment, k: nat, next: nat, month: int, m: Measure)
    requires segment.Domain().Valid()
    requires FlatCount(segment.Domain().List()) <= k <= |RateLines(segment.Domain().List(), segment.quantity)|
    ensures var pl := segment.Domain().List(); var lines := RateLines(pl, segment.quantity); var indices := Indices(lines, pl.bands, 0);
            && pl.Valid() && |indices| == |lines| && k - FlatCount(pl) <= |pl.bands|
            && Tally(ChargeLines(lines[k..], indices[k..], segment, next), month, month, segment.id, m)
               == BandsFrom(pl, segment.quantity, k - FlatCount(pl), m)
    decreases |RateLines(segment.Domain().List(), segment.quantity)| - k
  {
    hide Prorated, RateLines, Indices, RatedIn, FlatCount, ValidBands;
    ProratedValid(segment.priceList, segment.days, segment.daysInMonth);
    var pl, quantity := segment.Domain().List(), segment.quantity;
    var lines := RateLines(pl, quantity);
    var indices := Indices(lines, pl.bands, 0);
    IndicesLength(lines, pl.bands, 0);
    ChargeWithinBands(pl, quantity);
    if k < |lines| {
      ChargeLineAt(pl, quantity, k);
      ChargeLinesStep(lines, indices, segment, k, next);
      TallyUsage(segment, k + 1, next + 1, month, m);
    } else {
      forall j: nat | j >= k - FlatCount(pl) ensures RatedIn(pl, quantity, Some(j)) == 0 {
        ChargeReaches(pl, quantity, j);
      }
      BandsFromZero(pl, quantity, k - FlatCount(pl), m);
    }
  }

  lemma {:induction false} ChargeWithinBands(pl: PriceList, quantity: nat)
    requires pl.Valid()
    ensures FlatCount(pl) <= |RateLines(pl, quantity)| <= FlatCount(pl) + |pl.bands|
  {
    hide RateLines, Indices;
    ChargeReaches(pl, quantity, 0);
    if |RateLines(pl, quantity)| > FlatCount(pl) {
      ChargeLineAt(pl, quantity, |RateLines(pl, quantity)| - 1);
    }
  }

  /** A segment's own lines bill its usage rated once, and nothing of any other. */
  lemma {:induction false} SegmentTally(segment: PeriodSegment, next: nat, month: int, p: int, id: nat, m: Measure)
    requires segment.Domain().Valid()
    ensures segment.Domain().List().Valid()
    ensures Tally(SegmentLines(segment, next), month, p, id, m)
         == if p == month && id == segment.id then Rated(segment.Domain().List(), segment.quantity, m) else 0
  {
    hide Prorated, RateLines, Indices, BandsFrom, ValidBands, Tally, ChargeLines;
    ProratedValid(segment.priceList, segment.days, segment.daysInMonth);
    var pl, quantity := segment.Domain().List(), segment.quantity;
    var lines := RateLines(pl, quantity);
    var indices := Indices(lines, pl.bands, 0);
    IndicesLength(lines, pl.bands, 0);
    ChargeWithinBands(pl, quantity);
    if p == month && id == segment.id {
      FlatTally(segment, next, month, m);
      TallyUsage(segment, FlatCount(pl), next + FlatCount(pl), month, m);
    } else {
      ChargeLinesShape(lines, indices, segment, next);
      TallyNothing(SegmentLines(segment, next), month, p, id, m);
    }
  }

  /** The fee line bills no usage; the included line bills the allowance. */
  lemma {:induction false} FlatTally(segment: PeriodSegment, next: nat, month: int, m: Measure)
    requires segment.Domain().Valid() && segment.Domain().List().Valid()
    requires |RateLines(segment.Domain().List(), segment.quantity)| >= FlatCount(segment.Domain().List())
    ensures var pl := segment.Domain().List(); var lines := RateLines(pl, segment.quantity); var indices := Indices(lines, pl.bands, 0); var k := FlatCount(pl);
            && |indices| == |lines|
            && Tally(SegmentLines(segment, next), month, month, segment.id, m)
               == Measured(m, None, RatedIn(pl, segment.quantity, None), 0)
                  + Tally(ChargeLines(lines[k..], indices[k..], segment, next + k), month, month, segment.id, m)
  {
    hide Prorated, RateLines, Indices, ValidBands, ChargeLines;
    var pl, quantity := segment.Domain().List(), segment.quantity;
    var lines := RateLines(pl, quantity);
    var indices := Indices(lines, pl.bands, 0);
    ChargeLineAt(pl, quantity, 0);
    assert lines[0..] == lines && indices[0..] == indices;
    ChargeLinesStep(lines, indices, segment, 0, next);
    if pl.included > 0 {
      ChargeLineAt(pl, quantity, 1);
      ChargeLinesStep(lines, indices, segment, 1, next + 1);
    }
  }

  function Find(segments: seq<PeriodSegment>, id: nat): (r: Option<PeriodSegment>)
    ensures r.Some? ==> r.value in segments && r.value.id == id
    ensures r.None? <==> forall s <- segments :: s.id != id
  {
    if segments == [] then None else if segments[0].id == id then Some(segments[0]) else Find(segments[1..], id)
  }

  /** The period's own lines bill each of its segments' usage rated once. */
  lemma {:induction false} CurrentTally(segments: seq<PeriodSegment>, next: nat, month: int, p: int, id: nat,
      m: Measure)
    requires Ratable(segments) && DistinctIds(segments)
    ensures var s := Find(segments, id);
            && (s.Some? ==> s.value.Domain().Valid() && s.value.Domain().List().Valid())
            && Tally(CurrentLines(segments, next), month, p, id, m)
               == if p == month && s.Some? then Rated(s.value.Domain().List(), s.value.quantity, m) else 0
  {
    hide Prorated, SegmentLines, Rated, ValidBands;
    if segments != [] {
      var first, rest := SegmentLines(segments[0], next), segments[1..];
      SegmentTally(segments[0], next, month, p, id, m);
      TallyConcat(first, CurrentLines(rest, next + |first|), month, p, id, m);
      CurrentTally(rest, next + |first|, month, p, id, m);
      if segments[0].id == id {
        forall s | s in rest ensures s.id != id {
          var j :| 0 <= j < |rest| && rest[j] == s;
          assert segments[j + 1] == s;
        }
      }
    }
  }

  // ----- Late usage -----

  function Late(pl: PriceList, now: nat, already: nat, band: Option<nat>): int
    requires pl.Valid()
  {
    RatedIn(pl, now, band) - RatedIn(pl, already, band)
  }

  /** The line one band adds, if the late requests reach it at all. */
  function DeltaLine(pl: PriceList, segment: PeriodSegment, already: nat, p: int, band: Option<nat>,
      number: nat): seq<Line>
    requires pl.Valid() && segment.quantity >= 0
  {
    var delta, price := Late(pl, segment.quantity, already, band), PriceIn(pl, band);
    if delta <= 0 then [] else [Line(number, PriorUsage, delta, price, delta * price, segment.version, segment.id, band, Some(p))]
  }

  /** Bands in index order from i on, the included allowance last. */
  function DeltaLines(pl: PriceList, segment: PeriodSegment, already: nat, p: int, i: nat, next: nat): seq<Line>
    requires pl.Valid() && segment.quantity >= 0 && i <= |pl.bands|
    decreases |pl.bands| - i
  {
    if i == |pl.bands| then DeltaLine(pl, segment, already, p, None, next)
    else
      var first := DeltaLine(pl, segment, already, p, Some(i), next);
      first + DeltaLines(pl, segment, already, p, i + 1, next + |first|)
  }

  function LateLines(pl: PriceList, segment: PeriodSegment, already: nat, p: int, next: nat): seq<Line>
    requires pl.Valid() && segment.quantity >= 0
  {
    if segment.quantity <= already then [] else DeltaLines(pl, segment, already, p, 0, next)
  }

  /** The body of the loop over `now_bands`. */
  method BandDelta(now: ByBand, billed: ByBand, ghost pl: PriceList, segment: PeriodSegment, ghost already: nat,
      p: int, band: Option<nat>, number: nat)
    returns (line: seq<Line>)
    requires pl.Valid() && segment.quantity >= 0
    requires HoldsBands(now, pl, segment.quantity)
    requires HoldsBands(billed, pl, already)
    ensures line == DeltaLine(pl, segment, already, p, band, number)
  {
    hide Prorated, RatedIn, PriceIn, ValidBands;
    line := [];
    if band in now {
      assert Entry(now, pl, segment.quantity, band);
      var (quantity, price) := now[band];
      var billedQuantity := 0;
      if band in billed {
        assert Entry(billed, pl, already, band);
        billedQuantity := billed[band].0;
      }
      var delta := quantity - billedQuantity;
      if delta > 0 {
        line := [Line(number, PriorUsage, delta, price, delta * price, segment.version, segment.id, band, Some(p))];
      }
    }
  }

  /** The lines so far and those of the bands from i on are the segment's late lines. */
  ghost predicate DeltaAhead(lines: seq<Line>, pl: PriceList, segment: PeriodSegment, already: nat, p: int, i: nat,
      next: nat)
    requires pl.Valid() && segment.quantity >= 0 && i <= |pl.bands|
  {
    lines + DeltaLines(pl, segment, already, p, i, next + |lines|) == DeltaLines(pl, segment, already, p, 0, next)
  }

  lemma {:induction false} DeltaLinesStep(lines: seq<Line>, pl: PriceList, segment: PeriodSegment, already: nat,
      p: int, i: nat, next: nat)
    requires pl.Valid() && segment.quantity >= 0 && i < |pl.bands| && DeltaAhead(lines, pl, segment, already, p, i, next)
    ensures DeltaAhead(lines + DeltaLine(pl, segment, already, p, Some(i), next + |lines|), pl, segment, already, p, i + 1, next)
  {
    hide ValidBands, DeltaLine;
    var line := DeltaLine(pl, segment, already, p, Some(i), next + |lines|);
    assert next + |lines + line| == next + |lines| + |line|;
  }

  lemma {:induction false} DeltaLinesEnds(lines: seq<Line>, pl: PriceList, segment: PeriodSegment, already: nat,
      p: int, next: nat)
    requires pl.Valid() && segment.quantity >= 0
    ensures DeltaAhead([], pl, segment, already, p, 0, next)
    ensures DeltaAhead(lines, pl, segment, already, p, |pl.bands|, next) ==>
      lines + DeltaLine(pl, segment, already, p, None, next + |lines|) == DeltaLines(pl, segment, already, p, 0, next)
  {
    hide ValidBands, DeltaLine;
  }

  /** One segment of one invoiced period: both quantities are rated and subtracted band by band. */
  method PriorSegmentLines(segment: PeriodSegment, already: nat, p: int, next: nat) returns (lines: seq<Line>)
    requires segment.Domain().Valid()
    ensures segment.Domain().List().Valid() && lines == LateLines(segment.Domain().List(), segment, already, p, next)
  {
    hide Prorated, HoldsBands, DeltaLine, DeltaLines, DeltaAhead, ValidBands;
    ProratedValid(segment.priceList, segment.days, segment.daysInMonth);
    if segment.quantity <= already {
      return [];
    }
    var prorated := Prorate(segment.priceList, segment.days, segment.daysInMonth);
    var pl := prorated.value;
    var now := ChargeableByBand(pl, segment.quantity);
    var billed := ChargeableByBand(pl, already);
    lines := [];
    DeltaLinesEnds(lines, pl, segment, already, p, next);
    for i := 0 to |pl.bands|
      invariant DeltaAhead(lines, pl, segment, already, p, i, next)
    {
      var line := BandDelta(now, billed, pl, segment, already, p, Some(i), next + |lines|);
      DeltaLinesStep(lines, pl, segment, already, p, i, next);
      lines := lines + line;
    }
    var line := BandDelta(now, billed, pl, segment, already, p, None, next + |lines|);
    DeltaLinesEnds(lines, pl, segment, already, p, next);
    lines := lines + line;
  }

  lemma {:induction false} RatedInMonotone(pl: PriceList, a: nat, b: nat, band: Option<nat>)
    requires pl.Valid() && a <= b
    ensures RatedIn(pl, a, band) <= RatedIn(pl, b, band)
  {
    if band.Some? && band.value < |pl.bands| {
      TakeMonotone(pl.bands, band.value, Chargeable(pl, a), Chargeable(pl, b));
    }
  }

  lemma {:induction false} MeasuredDelta(m: Measure, band: Option<nat>, x: int, y: int, price: int)
    ensures Measured(m, band, x - y, (x - y) * price) == Measured(m, band, x, x * price) - Measured(m, band, y, y * price)
  {
  }

  lemma {:induction false} DeltaLineTally(pl: PriceList, segment: PeriodSegment, already: nat, p: int,
      band: Option<nat>, number: nat, month: int, m: Measure)
    requires pl.Valid() && segment.quantity >= 0 && already <= segment.quantity
    ensures var now, before, price := RatedIn(pl, segment.quantity, band), RatedIn(pl, already, band), PriceIn(pl, band);
            Tally(DeltaLine(pl, segment, already, p, band, number), month, p, segment.id, m)
            == Measured(m, band, now, now * price) - Measured(m, band, before, before * price)
  {
    hide ValidBands, RatedIn, PriceIn, Measured;
    RatedInMonotone(pl, already, segment.quantity, band);
    MeasuredDelta(m, band, RatedIn(pl, segment.quantity, band), RatedIn(pl, already, band), PriceIn(pl, band));
    var lines := DeltaLine(pl, segment, already, p, band, number);
    if lines != [] {
      assert lines[1..] == [];
    } else {
      MeasuredNothing(m, band);
    }
  }

  lemma {:induction false} MeasuredNothing(m: Measure, band: Option<nat>)
    ensures Measured(m, band, 0, 0) == 0
  {
  }

  lemma {:induction false} DeltaTally(pl: PriceList, segment: PeriodSegment, already: nat, p: int, i: nat, next: nat,
      month: int, m: Measure)
    requires pl.Valid() && segment.quantity >= 0 && already <= segment.quantity
    requires i <= |pl.bands|
    ensures Tally(DeltaLines(pl, segment, already, p, i, next), month, p, segment.id, m)
            == Measured(m, None, RatedIn(pl, segment.quantity, None), 0) - Measured(m, None, RatedIn(pl, already, None), 0)
               + BandsFrom(pl, segment.quantity, i, m) - BandsFrom(pl, already, i, m)
    decreases |pl.bands| - i
  {
    hide ValidBands, RatedIn, DeltaLine, Measured, Tally;
    if i == |pl.bands| {
      DeltaLineTally(pl, segment, already, p, None, next, month, m);
    } else {
      var first := DeltaLine(pl, segment, already, p, Some(i), next);
      DeltaLineTally(pl, segment, already, p, Some(i), next, month, m);
      TallyConcat(first, DeltaLines(pl, segment, already, p, i + 1, next + |first|), month, p, segment.id, m);
      DeltaTally(pl, segment, already, p, i + 1, next + |first|, month, m);
    }
  }

  lemma {:induction false} DeltaLinesShape(pl: PriceList, segment: PeriodSegment, already: nat, p: int, i: nat,
      next: nat)
    requires pl.Valid() && segment.quantity >= 0 && i <= |pl.bands|
    ensures forall line <- DeltaLines(pl, segment, already, p, i, next) ::
      line.kind == PriorUsage && line.assignment == segment.id && line.version == segment.version && line.usagePeriod == Some(p)
    decreases |pl.bands| - i
  {
    hide ValidBands, Late;
    if i < |pl.bands| {
      DeltaLinesShape(pl, segment, already, p, i + 1, next + |DeltaLine(pl, segment, already, p, Some(i), next)|);
    }
  }

  /** Late usage is billed at the bands the late requests occupy: what was billed before plus
      the new lines is the whole quantity rated once, paisa for paisa and band for band. */
  lemma {:induction false} LateTally(pl: PriceList, segment: PeriodSegment, already: nat, p: int, next: nat,
      month: int, q: int, id: nat, m: Measure)
    requires pl.Valid() && segment.quantity >= 0
    ensures Tally(LateLines(pl, segment, already, p, next), month, q, id, m)
            == if q == p && id == segment.id && segment.quantity > already
               then Rated(pl, segment.quantity, m) - Rated(pl, already, m) else 0
  {
    hide ValidBands, RatedIn, DeltaLines, Measured, Tally, BandsFrom;
    if segment.quantity <= already {
      TallyNothing([], month, q, id, m);
    } else if q == p && id == segment.id {
      DeltaTally(pl, segment, already, p, 0, next, month, m);
    } else {
      DeltaLinesShape(pl, segment, already, p, 0, next);
      TallyNothing(LateLines(pl, segment, already, p, next), month, q, id, m);
    }
  }

  // ----- What the database demands of an invoice -----

  /** The row checks on `invoice_lines`, with the lines numbered from `next` on. */
  predicate Formed(lines: seq<Line>, next: nat) {
    lines == []
    || (&& lines[0].number == next
        && lines[0].quantity >= 0 && lines[0].unitPrice >= 0
        && lines[0].amount == lines[0].quantity * lines[0].unitPrice
        && (lines[0].kind == PriorUsage <==> lines[0].usagePeriod.Some?)
        && Formed(lines[1..], next + 1))
  }

  lemma {:induction false} FormedConcat(a: seq<Line>, b: seq<Line>, next: nat)
    requires Formed(a, next) && Formed(b, next + |a|)
    ensures Formed(a + b, next)
  {
    if a == [] {
      assert a + b == b;
    } else {
      assert (a + b)[1..] == a[1..] + b;
      FormedConcat(a[1..], b, next + 1);
    }
  }

  lemma {:induction false} ChargeLinesFormed(lines: seq<ChargeLine>, indices: seq<Option<nat>>,
      segment: PeriodSegment, next: nat)
    requires |lines| == |indices|
    requires forall l <- lines :: l.quantity >= 0 && l.unitPrice >= 0 && l.amount == l.quantity * l.unitPrice
    ensures Formed(ChargeLines(lines, indices, segment, next), next)
    ensures Total(ChargeLines(lines, indices, segment, next)) == SumAmounts(lines)
  {
    if lines != [] {
      ChargeLinesFormed(lines[1..], indices[1..], segment, next + 1);
    }
  }

  lemma {:induction false} RateLinesPriced(pl: PriceList, quantity: nat)
    requires pl.Valid()
    ensures forall l <- RateLines(pl, quantity) :: l.quantity >= 0 && l.unitPrice >= 0 && l.amount == l.quantity * l.unitPrice
  {
    hide ValidBands, UsageLines;
    ValidBandsLadder(pl.bands);
    UsageLinesTile(pl.bands, 0, Chargeable(pl, quantity));
  }

  lemma {:induction false} CurrentLinesFormed(segments: seq<PeriodSegment>, next: nat)
    requires Ratable(segments)
    ensures Formed(CurrentLines(segments, next), next)
    ensures Total(CurrentLines(segments, next)) == PeriodBill(Domains(segments))
    ensures segments != [] ==> CurrentLines(segments, next) != []
  {
    hide Prorated, RateLines, Bill, Indices, ValidBands;
    if segments != [] {
      var s := segments[0];
      var pl, first := s.Domain().List(), SegmentLines(s, next);
      ProratedValid(s.priceList, s.days, s.daysInMonth);
      ChargeWithinBands(pl, s.quantity);
      RateLinesPriced(pl, s.quantity);
      IndicesLength(RateLines(pl, s.quantity), pl.bands, 0);
      ChargeLinesFormed(RateLines(pl, s.quantity), Indices(RateLines(pl, s.quantity), pl.bands, 0), s, next);
      RateTotal(pl, s.quantity);
      CurrentLinesFormed(segments[1..], next + |first|);
      FormedConcat(first, CurrentLines(segments[1..], next + |first|), next);
      TotalConcat(first, CurrentLines(segments[1..], next + |first|));
      assert Domains(segments)[1..] == Domains(segments[1..]);
    }
  }

  lemma {:induction false} DeltaLineFormed(pl: PriceList, segment: PeriodSegment, already: nat, p: int,
      band: Option<nat>, next: nat)
    requires pl.Valid() && segment.quantity >= 0
    ensures Formed(DeltaLine(pl, segment, already, p, band, next), next)
  {
    hide Late;
    assert band.Some? && band.value < |pl.bands| ==> pl.bands[band.value].Valid();
  }

  lemma {:induction false} DeltaLinesFormed(pl: PriceList, segment: PeriodSegment, already: nat, p: int, i: nat,
      next: nat)
    requires pl.Valid() && segment.quantity >= 0 && i <= |pl.bands|
    ensures Formed(DeltaLines(pl, segment, already, p, i, next), next)
    decreases |pl.bands| - i
  {
    hide Formed, DeltaLine, ValidBands;
    DeltaLineFormed(pl, segment, already, p, if i < |pl.bands| then Some(i) else None, next);
    if i < |pl.bands| {
      var first := DeltaLine(pl, segment, already, p, Some(i), next);
      DeltaLinesFormed(pl, segment, already, p, i + 1, next + |first|);
      FormedConcat(first, DeltaLines(pl, segment, already, p, i + 1, next + |first|), next);
    }
  }

  lemma {:induction false} FormedTotal(lines: seq<Line>, next: nat)
    requires Formed(lines, next)
    ensures Total(lines) >= 0
    ensures forall i :: 0 <= i < |lines| ==> lines[i].number == next + i
    ensures forall month, p, id :: Tally(lines, month, p, id, Quantity) >= 0
  {
    if lines != [] {
      FormedTotal(lines[1..], next + 1);
    }
  }

  lemma {:induction false} FormedLines(lines: seq<Line>, next: nat)
    requires Formed(lines, next)
    ensures forall line <- lines :: line.quantity >= 0 && line.unitPrice >= 0 && line.amount == line.quantity * line.unitPrice
  {
    if lines != [] {
      FormedLines(lines[1..], next + 1);
    }
  }

  /** What lines bill for one segment is part of what they bill. */
  lemma {:induction false} FormedShare(lines: seq<Line>, next: nat, month: int, p: int, id: nat)
    requires Formed(lines, next)
    ensures 0 <= Tally(lines, month, p, id, Amount) <= Total(lines)
  {
    if lines != [] {
      FormedShare(lines[1..], next + 1, month, p, id);
    }
  }
}
