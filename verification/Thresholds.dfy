/** Spending limits (src/meter/pipeline/thresholds.py): a rupee limit becomes a request count,
    so that the hot path compares two integers and never rates anything. */
module Thresholds {
  import opened Wrappers
  import opened Plans
  import opened Rating
  import opened Proration
  import opened Segments
  import Calendar

  datatype ThresholdError = NoPlanForLimit | LimitNeverReached

  datatype Threshold = Threshold(limit: int, requests: int, feeComponent: int) {
    predicate Unsatisfiable() {
      feeComponent > limit
    }

    /** What the hot path reads; the sentinel rides along in the same integer. */
    function RedisValue(): int {
      if Unsatisfiable() then UNSATISFIABLE else requests
    }
  }

  const UNSATISFIABLE := -1

  /** The hot path's whole test on a published value (src/meter/api/metering.py:306-316). */
  predicate Refuses(value: int, served: int) {
    value < 0 || served >= value
  }

  // ----- The period's bill as the current segment grows -----

  function With(segments: seq<Segment>, current: nat, quantity: int): seq<Segment>
    requires current < |segments|
  {
    segments[current := segments[current].(quantity := quantity)]
  }

  ghost function Elsewhere(segments: seq<Segment>, current: int): (total: int)
    requires AllValid(segments)
    ensures total >= 0
  {
    if segments == [] then 0
    else (if current == 0 then 0 else segments[0].quantity) + Elsewhere(segments[1..], current - 1)
  }

  ghost function OtherBills(segments: seq<Segment>, current: int): int
    requires AllValid(segments)
  {
    if segments == [] then 0
    else (if current == 0 then 0 else SegmentBill(segments[0])) + OtherBills(segments[1..], current - 1)
  }

  ghost function OtherFees(segments: seq<Segment>, current: int): int
    requires AllValid(segments)
  {
    if segments == [] then 0
    else (if current == 0 then 0 else segments[0].List().monthlyFee) + OtherFees(segments[1..], current - 1)
  }

  /** The fees of all segments, each list prorated. */
  ghost function AllFees(segments: seq<Segment>): int
    requires AllValid(segments)
  {
    if segments == [] then 0 else segments[0].List().monthlyFee + AllFees(segments[1..])
  }

  lemma {:induction false} FeesSplit(segments: seq<Segment>, current: int)
    requires AllValid(segments)
    ensures AllFees(segments) == OtherFees(segments, current) + if 0 <= current < |segments| then segments[current].List().monthlyFee else 0
  {
    hide Prorated;
    if segments != [] {
      FeesSplit(segments[1..], current - 1);
    }
  }

  lemma {:induction false} OtherBillsCoverFees(segments: seq<Segment>, current: int)
    requires AllValid(segments)
    ensures OtherBills(segments, current) >= OtherFees(segments, current)
  {
    if segments != [] {
      OtherBillsCoverFees(segments[1..], current - 1);
    }
  }

  lemma {:induction false} PeriodBillWith(segments: seq<Segment>, current: nat, quantity: nat)
    requires AllValid(segments) && current < |segments|
    ensures AllValid(With(segments, current, quantity)) && segments[current].(quantity := quantity).Valid()
    ensures PeriodBill(With(segments, current, quantity))
         == OtherBills(segments, current) + SegmentBill(segments[current].(quantity := quantity))
  {
    hide SegmentBill, Prorated;
    var with := With(segments, current, quantity);
    var changed := segments[current].(quantity := quantity);
    if current == 0 {
      assert with[1..] == segments[1..];
      NoneSkipped(segments[1..], -1);
    } else {
      assert with[1..] == With(segments[1..], current - 1, quantity);
      PeriodBillWith(segments[1..], current - 1, quantity);
      assert with == [segments[0]] + with[1..];
    }
  }

  lemma {:induction false} NoneSkipped(segments: seq<Segment>, current: int)
    requires AllValid(segments) && current < 0
    ensures OtherBills(segments, current) == PeriodBill(segments)
  {
    if segments != [] {
      NoneSkipped(segments[1..], current - 1);
    }
  }

  /** `value` refuses a counter exactly when serving one more request in the current segment
      would push the period's bill over the limit. */
  ghost predicate RefusesExactly(segments: seq<Segment>, current: nat, limit: int, value: int)
    requires AllValid(segments) && current < |segments|
  {
    var elsewhere := Elsewhere(segments, current);
    forall served: int :: served >= elsewhere ==>
      (Refuses(value, served) <==> BillAt(segments, current, served - elsewhere + 1) > limit)
  }

  ghost function BillAt(segments: seq<Segment>, current: nat, quantity: nat): int
    requires AllValid(segments) && current < |segments|
  {
    PeriodBillWith(segments, current, quantity);
    PeriodBill(With(segments, current, quantity))
  }

  /** The loop over the segments that are not in force. */
  method TallyElsewhere(segments: seq<Segment>, current: nat) returns (fees: int, usage: int, elsewhere: int)
    requires AllValid(segments)
    ensures fees == OtherFees(segments, current)
    ensures fees + usage == OtherBills(segments, current)
    ensures elsewhere == Elsewhere(segments, current)
  {
    hide Prorated, Bill;
    fees, usage, elsewhere := 0, 0, 0;
    assert segments[0..] == segments;
    for i := 0 to |segments|
      invariant fees + OtherFees(segments[i..], current - i) == OtherFees(segments, current)
      invariant fees + usage + OtherBills(segments[i..], current - i) == OtherBills(segments, current)
      invariant elsewhere + Elsewhere(segments[i..], current - i) == Elsewhere(segments, current)
    {
      var segment := segments[i];
      assert segments[i..][0] == segment && segments[i..][1..] == segments[i + 1..];
      if i != current {
        var prorated := Prorate(segment.priceList, segment.days, segment.daysInMonth);
        var charge := Rate(segment.quantity, prorated.value);
        RateTotal(prorated.value, segment.quantity);
        fees := fees + prorated.value.monthlyFee;
        usage := usage + (charge.value.total - prorated.value.monthlyFee);
        elsewhere := elsewhere + segment.quantity;
      }
    }
  }

  /** The threshold of the segment in force, for any number of segments with fixed usage
      elsewhere. It cannot be computed only if no quantity here reaches the limit. */
  method Compute(segments: seq<Segment>, at: int, periodStart: int, periodEnd: int, limit: int)
    returns (r: Result<Threshold, ThresholdError>, ghost current: nat)
    requires AllValid(segments)
    ensures segments != [] ==> current < |segments| && current == Pick(SegmentDays(segments), Elapsed(at, periodStart, periodEnd), 0, 0, 0)
    ensures r == Failure(NoPlanForLimit) <==> segments == []
    ensures r == Failure(LimitNeverReached) <==> segments != [] && forall q: nat :: BillAt(segments, current, q) <= limit
    ensures r == Failure(LimitNeverReached) ==> segments[current].Valid() && segments[current].priceList.FinalPrice() == 0
    ensures r.Success? ==> RefusesExactly(segments, current, limit, r.value.RedisValue())
    ensures r.Success? ==> r.value.requests >= Elsewhere(segments, current)
    ensures r.Success? ==> r.value.limit == limit && r.value.feeComponent == AllFees(segments)
    ensures r.Success? ==> if AllFees(segments) > limit then r.value.RedisValue() == -1 else r.value.RedisValue() >= 0
  {
    hide Prorated, Bill, BillAt, OtherBills, OtherFees, Elsewhere, AllFees, RefusesExactly, Threshold.RedisValue,
         Pick, Elapsed;
    if segments == [] {
      return Failure(NoPlanForLimit), 0;
    }
    var index := CurrentSegmentIndex(SegmentDays(segments), at, periodStart, periodEnd);
    current := index;
    var here := segments[index];
    var proratedHere := Prorate(here.priceList, here.days, here.daysInMonth);
    ProratedValid(here.priceList, here.days, here.daysInMonth);
    var otherFees, otherUsage, elsewhere := TallyElsewhere(segments, index);
    var budget := limit - otherFees - otherUsage;
    var allowedHere := 0;
    OtherBillsCoverFees(segments, current);
    BillAtIs(segments, current, 0);
    if budget >= 0 {
      var affordable := MaxQuantityWithin(budget, proratedHere.value);
      if affordable.Failure? {
        NeverReached(segments, current, limit);
        return Failure(LimitNeverReached), index;
      }
      allowedHere := affordable.value;
    }
    var t := Threshold(limit, elsewhere + allowedHere, otherFees + proratedHere.value.monthlyFee);
    ThresholdExact(segments, current, t, allowedHere);
    FeesSplit(segments, index);
    Sentinel(t);
    return Success(t), index;
  }

  lemma {:induction false} Sentinel(t: Threshold)
    ensures t.RedisValue() == if t.feeComponent > t.limit then -1 else t.requests
  {
  }

  /** The bill splits into the other segments and the current one's ladder. */
  lemma {:induction false} BillAtIs(segments: seq<Segment>, current: nat, quantity: nat)
    requires AllValid(segments) && current < |segments|
    ensures segments[current].Valid() && Ladder(segments[current].List().bands)
    ensures BillAt(segments, current, quantity) == OtherBills(segments, current) + Bill(segments[current].List(), quantity)
  {
    hide Prorated, Kept, ScaledBands, Bill;
    var here := segments[current];
    PeriodBillWith(segments, current, quantity);
    ProratedValid(here.priceList, here.days, here.daysInMonth);
    ValidBandsLadder(here.List().bands);
  }

  lemma {:induction false} NeverReached(segments: seq<Segment>, current: nat, limit: int)
    requires AllValid(segments) && current < |segments| && segments[current].Valid()
    requires Ladder(segments[current].List().bands)
    requires forall q: nat :: Bill(segments[current].List(), q) <= limit - OtherBills(segments, current)
    ensures forall q: nat :: BillAt(segments, current, q) <= limit
  {
    hide Prorated, Bill, BillAt, OtherBills;
    forall q: nat ensures BillAt(segments, current, q) <= limit {
      BillAtIs(segments, current, q);
    }
  }

  lemma {:induction false} ThresholdExact(segments: seq<Segment>, current: nat, t: Threshold, allowed: nat)
    requires AllValid(segments) && current < |segments| && segments[current].Valid()
    requires Ladder(segments[current].List().bands)
    requires t.requests == Elsewhere(segments, current) + allowed
    requires t.feeComponent == OtherFees(segments, current) + segments[current].List().monthlyFee
    requires t.limit - OtherBills(segments, current) < segments[current].List().monthlyFee ==> allowed == 0
    requires t.limit - OtherBills(segments, current) >= segments[current].List().monthlyFee ==>
      Bill(segments[current].List(), allowed) <= t.limit - OtherBills(segments, current) < Bill(segments[current].List(), allowed + 1)
    ensures RefusesExactly(segments, current, t.limit, t.RedisValue())
    ensures BillAt(segments, current, allowed + 1) > t.limit
  {
    hide Prorated, BillAt, OtherBills, OtherFees, Elsewhere;
    var list, budget := segments[current].List(), t.limit - OtherBills(segments, current);
    var elsewhere := Elsewhere(segments, current);
    OtherBillsCoverFees(segments, current);
    BillAtIs(segments, current, allowed + 1);
    forall served: int | served >= elsewhere
      ensures Refuses(t.RedisValue(), served) <==> BillAt(segments, current, served - elsewhere + 1) > t.limit
    {
      var x := served - elsewhere;
      BillAtIs(segments, current, x + 1);
      assert Bill(list, x + 1) >= list.monthlyFee;
      if budget >= list.monthlyFee {
        CrossingPointUnique(list, budget, allowed, x + 1);
      }
    }
  }

  // ----- How far concurrency can overshoot -----

  function Dearest(bands: seq<Band>): (price: int)
    requires Ladder(bands)
    ensures price >= 0
    ensures (exists b <- bands :: b.unitPrice == price) && forall b <- bands :: b.unitPrice <= price
  {
    if |bands| == 1 then bands[0].unitPrice else Max(bands[0].unitPrice, Dearest(bands[1..]))
  }

  lemma {:induction false} DearestUnit(bands: seq<Band>, k: int)
    requires Ladder(bands)
    ensures UnitPrice(bands, k) <= Dearest(bands)
  {
    if |bands| > 1 && k > bands[0].upTo.value {
      DearestUnit(bands[1..], k);
    }
  }

  lemma {:induction false} BillGrowth(list: PriceList, quantity: nat, more: nat)
    requires Ladder(list.bands)
    ensures Bill(list, quantity + more) <= Bill(list, quantity) + more * Dearest(list.bands)
  {
    hide Bill, Dearest, UnitPrice;
    if more > 0 {
      BillGrowth(list, quantity, more - 1);
      BillStep(list, quantity + more - 1);
      DearestUnit(list.bands, quantity + more - list.included);
      OneMore(more, Dearest(list.bands));
    }
  }

  lemma {:induction false} OneMore(n: int, price: int)
    ensures n * price == (n - 1) * price + price
  {
  }

  /** A counter that started below an exact threshold and never passed it by more than
      `extra` leaves a bill at most `extra` dearest requests over the limit. */
  lemma {:induction false} OvershootBound(segments: seq<Segment>, current: nat, limit: int, value: int, started: int,
      served: int, extra: nat)
    requires AllValid(segments) && current < |segments| && segments[current].Valid()
    requires RefusesExactly(segments, current, limit, value)
    requires Elsewhere(segments, current) <= started < value
    requires started <= served <= value + extra
    ensures Ladder(segments[current].List().bands)
    ensures BillAt(segments, current, served - Elsewhere(segments, current))
         <= limit + extra * Dearest(segments[current].List().bands)
  {
    hide Prorated, Bill, BillAt, OtherBills, Elsewhere, Dearest;
    var elsewhere := Elsewhere(segments, current);
    var full := value - elsewhere;
    assert !Refuses(value, value - 1);
    assert BillAt(segments, current, value - 1 - elsewhere + 1) <= limit;
    BillAtIs(segments, current, full);
    BillAtIs(segments, current, served - elsewhere);
    var list := segments[current].List();
    BillGrowth(list, full, extra);
    BillMonotone(list, served - elsewhere, full + extra);
  }

  // ----- Which segment is in force -----

  /** The scan over segment lengths: zero-day segments are skipped, and past the end the last
      segment with days applies. */
  function Pick(days: seq<int>, elapsed: int, index: nat, cumulative: int, chosen: nat): nat {
    if days == [] then chosen
    else if days[0] == 0 then Pick(days[1..], elapsed, index + 1, cumulative, chosen)
    else if elapsed < cumulative + days[0] then index
    else Pick(days[1..], elapsed, index + 1, cumulative + days[0], index)
  }

  function SegmentDays(segments: seq<Segment>): (days: seq<int>)
    ensures |days| == |segments|
  {
    seq(|segments|, i requires 0 <= i < |segments| => segments[i].days)
  }

  function DaysOf(spans: seq<Clipped>): (days: seq<int>)
    ensures |days| == |spans|
  {
    if spans == [] then [] else [Calendar.WholeDaysBetween(spans[0].start, spans[0].end)] + DaysOf(spans[1..])
  }

  function Elapsed(at: int, periodStart: int, periodEnd: int): int {
    Calendar.WholeDaysBetween(periodStart, Min(Max(at, periodStart), periodEnd))
  }

  method CurrentSegmentIndex(days: seq<int>, at: int, periodStart: int, periodEnd: int) returns (chosen: nat)
    requires days != []
    ensures chosen == Pick(days, Elapsed(at, periodStart, periodEnd), 0, 0, 0)
    ensures chosen < |days|
  {
    var moment := Min(Max(at, periodStart), periodEnd);
    var elapsed := Calendar.WholeDaysBetween(periodStart, moment);
    var cumulative := 0;
    chosen := 0;
    assert days[0..] == days;
    for i := 0 to |days|
      invariant chosen < |days|
      invariant Pick(days[i..], elapsed, i, cumulative, chosen) == Pick(days, elapsed, 0, 0, 0)
    {
      assert days[i..][1..] == days[i + 1..];
      if days[i] != 0 {
        chosen := i;
        cumulative := cumulative + days[i];
        if elapsed < cumulative {
          return;
        }
      }
    }
  }

  /** Entry `at` has days, `elapsed` is not before them, and it is not past them unless no later one has any. */
  predicate Holds(days: seq<int>, elapsed: int, at: int) {
    && 0 <= at < |days| && days[at] > 0 && Sum(days[..at]) <= elapsed
    && (elapsed < Sum(days[..at + 1]) || forall k :: at < k < |days| ==> days[k] == 0)
  }

  lemma {:induction false} HoldsLater(days: seq<int>, elapsed: int, at: int)
    requires days != [] && Holds(days[1..], elapsed - days[0], at)
    ensures Holds(days, elapsed, at + 1)
  {
    assert days[..at + 1] == [days[0]] + days[1..][..at] && days[..at + 2] == [days[0]] + days[1..][..at + 1];
    assert forall k :: 0 < k < |days| ==> days[k] == days[1..][k - 1];
  }

  lemma {:induction false} HoldsFirst(days: seq<int>, elapsed: int)
    requires days != [] && days[0] > 0 && elapsed >= 0 && (elapsed < days[0] || forall d <- days[1..] :: d == 0)
    ensures Holds(days, elapsed, 0)
  {
    assert days[..1] == [days[0]] && days[..0] == [];
    assert forall k :: 0 < k < |days| ==> days[k] in days[1..];
  }

  lemma {:induction false} PickIs(days: seq<int>, elapsed: int, index: nat, cumulative: int, chosen: nat)
    requires (forall d <- days :: d >= 0) && cumulative <= elapsed
    ensures var at := Pick(days, elapsed, index, cumulative, chosen) - index;
            if forall d <- days :: d == 0 then at + index == chosen else Holds(days, elapsed - cumulative, at)
  {
    hide Holds;
    if days != [] {
      var rest := days[1..];
      assert days[0] in days && forall d :: d in days <==> d == days[0] || d in rest;
      if days[0] == 0 {
        PickIs(rest, elapsed, index + 1, cumulative, chosen);
      } else if elapsed >= cumulative + days[0] {
        PickIs(rest, elapsed, index + 1, cumulative + days[0], index);
      }
      var at := Pick(days, elapsed, index, cumulative, chosen) - index;
      if days[0] != 0 && (elapsed < cumulative + days[0] || forall d <- rest :: d == 0) {
        HoldsFirst(days, elapsed - cumulative);
      } else if exists d <- rest :: d != 0 {
        assert Holds(rest, elapsed - cumulative - days[0], at - 1);
        HoldsLater(days, elapsed - cumulative, at - 1);
      }
    }
  }

  /** A segment without days is never picked while another has some. Before the period the pick is the first
      that has any; from its end on, the one that holds the last elapsed day. */
  lemma {:induction false} PickExactly(days: seq<int>, at: int, periodStart: int, periodEnd: int)
    requires (forall d <- days :: d >= 0) && (exists d <- days :: d > 0) && periodStart <= periodEnd
    ensures Holds(days, if at < periodStart then 0 else Calendar.WholeDaysBetween(periodStart, if at < periodEnd then at else periodEnd),
                  Pick(days, Elapsed(at, periodStart, periodEnd), 0, 0, 0))
  {
    hide Holds;
    PickIs(days, Elapsed(at, periodStart, periodEnd), 0, 0, 0);
  }

  /** Local dates between `low` and segment `owner` that no earlier segment covers. */
  ghost function GapDays(spans: seq<Clipped>, low: int, owner: nat): int
    requires owner < |spans|
    decreases owner
  {
    Calendar.LocalDate(spans[0].start) - Calendar.LocalDate(low)
    + if owner == 0 then 0 else GapDays(spans[1..], spans[0].end, owner - 1)
  }

  ghost predicate Owns(span: Clipped, date: int) {
    Calendar.LocalDate(span.start) <= date < Calendar.LocalDate(span.end)
  }

  ghost predicate LastWithDays(spans: seq<Clipped>, owner: nat) {
    forall k :: owner < k < |spans| ==> Calendar.WholeDaysBetween(spans[k].start, spans[k].end) == 0
  }

  lemma {:induction false} PickOwner(spans: seq<Clipped>, low: int, high: int, date: int, owner: nat,
                                     gap: nat, index: nat, cumulative: int, chosen: nat)
    requires Laid(spans, low, high) && owner < |spans| && Owns(spans[owner], date)
    ensures GapDays(spans, low, owner) >= 0
    ensures Pick(DaysOf(spans), cumulative + gap + date - Calendar.LocalDate(low), index, cumulative, chosen) == index + owner
       <==> date + gap + GapDays(spans, low, owner) < Calendar.LocalDate(spans[owner].end) || LastWithDays(spans, owner)
  {
    hide Calendar.WholeDaysBetween, Calendar.LocalDate, LastWithDays, NoDays;
    var first, tail := spans[0], spans[1..];
    SpanLength(first);
    var days := Calendar.WholeDaysBetween(first.start, first.end);
    var elapsed := cumulative + gap + date - Calendar.LocalDate(low);
    Calendar.LocalDateMonotone(low, first.start);
    Calendar.LocalDateMonotone(first.start, first.end);
    LastWithDaysTail(spans, owner);
    if owner > 0 {
      LaidAfter(tail, first.end, high, owner - 1);
      PickOwner(tail, first.end, high, date, owner - 1, gap + Calendar.LocalDate(first.start) - Calendar.LocalDate(low),
                index + 1, cumulative + days, if days == 0 then chosen else index);
    } else {
      PickLater(tail, elapsed, index + 1, cumulative + days, index);
    }
  }

  lemma {:induction false} SpanLength(span: Clipped)
    requires span.start < span.end
    ensures Calendar.WholeDaysBetween(span.start, span.end) == Calendar.LocalDate(span.end) - Calendar.LocalDate(span.start) >= 0
  {
  }

  lemma {:induction false} LastWithDaysTail(spans: seq<Clipped>, owner: nat)
    requires owner < |spans|
    ensures LastWithDays(spans, owner) <==> if owner > 0 then LastWithDays(spans[1..], owner - 1) else NoDays(spans[1..])
  {
    assert forall k :: 1 <= k < |spans| ==> spans[k] == spans[1..][k - 1];
    assert forall k :: 0 <= k < |spans[1..]| ==> spans[1..][k] == spans[k + 1];
  }

  ghost predicate NoDays(spans: seq<Clipped>) {
    forall k :: 0 <= k < |spans| ==> Calendar.WholeDaysBetween(spans[k].start, spans[k].end) == 0
  }

  lemma {:induction false} PickLater(spans: seq<Clipped>, elapsed: int, index: nat, cumulative: int, chosen: nat)
    requires chosen < index
    ensures Pick(DaysOf(spans), elapsed, index, cumulative, chosen) == chosen <==> NoDays(spans)
    ensures Pick(DaysOf(spans), elapsed, index, cumulative, chosen) == chosen || Pick(DaysOf(spans), elapsed, index, cumulative, chosen) >= index
  {
    if spans != [] {
      var days := Calendar.WholeDaysBetween(spans[0].start, spans[0].end);
      assert forall k :: 1 <= k < |spans| ==> spans[k] == spans[1..][k - 1];
      assert forall k :: 0 <= k < |spans[1..]| ==> spans[1..][k] == spans[k + 1];
      PickLater(spans[1..], elapsed, index + 1, if days == 0 then cumulative else cumulative + days, if days == 0 then chosen else index);
    }
  }

  lemma {:induction false} LaidAfter(spans: seq<Clipped>, low: int, high: int, k: nat)
    requires Laid(spans, low, high) && k < |spans|
    ensures low <= spans[k].start && Calendar.LocalDate(low) <= Calendar.LocalDate(spans[k].start)
  {
    Calendar.LocalDateMonotone(low, spans[0].start);
    if k > 0 {
      LaidAfter(spans[1..], spans[0].end, high, k - 1);
      Calendar.LocalDateMonotone(spans[0].start, spans[0].end);
    }
  }

  /** The index names the segment that owns the local date of `at` exactly when the gap days
      before that segment do not carry the date past its end, or no later segment has days. */
  lemma {:induction false} CurrentSegmentExact(spans: seq<Clipped>, at: int, periodStart: int, periodEnd: int,
      owner: nat)
    requires Laid(spans, periodStart, periodEnd) && owner < |spans|
    requires periodStart <= at < periodEnd && Owns(spans[owner], Calendar.LocalDate(at))
    ensures GapDays(spans, periodStart, owner) >= 0
    ensures Pick(DaysOf(spans), Elapsed(at, periodStart, periodEnd), 0, 0, 0) == owner
       <==> Calendar.LocalDate(at) + GapDays(spans, periodStart, owner) < Calendar.LocalDate(spans[owner].end) || LastWithDays(spans, owner)
  {
    Calendar.LocalDateMonotone(periodStart, at);
    PickOwner(spans, periodStart, periodEnd, Calendar.LocalDate(at), owner, 0, 0, 0, 0);
    assert Elapsed(at, periodStart, periodEnd) == 0 + 0 + Calendar.LocalDate(at) - Calendar.LocalDate(periodStart);
  }

  lemma {:induction false} GaplessHasNoGapDays(spans: seq<Clipped>, low: int, high: int, owner: nat)
    requires Gapless(spans, low, high) && owner < |spans|
    ensures GapDays(spans, low, owner) == 0 && Laid(spans, low, high)
  {
    if owner > 0 {
      GaplessHasNoGapDays(spans[1..], spans[0].end, high, owner - 1);
    } else {
      GaplessLaid(spans, low, high);
    }
  }

  lemma {:induction false} GaplessLaid(spans: seq<Clipped>, low: int, high: int)
    requires Gapless(spans, low, high)
    ensures Laid(spans, low, high)
  {
    if spans != [] {
      GaplessLaid(spans[1..], spans[0].end, high);
    }
  }

  /** With no gap in the period the index is always right. */
  lemma {:induction false} CurrentSegmentGapless(spans: seq<Clipped>, at: int, periodStart: int, periodEnd: int,
      owner: nat)
    requires Gapless(spans, periodStart, periodEnd) && owner < |spans|
    requires periodStart <= at < periodEnd && Owns(spans[owner], Calendar.LocalDate(at))
    ensures Pick(DaysOf(spans), Elapsed(at, periodStart, periodEnd), 0, 0, 0) == owner
  {
    GaplessHasNoGapDays(spans, periodStart, periodEnd, owner);
    CurrentSegmentExact(spans, at, periodStart, periodEnd, owner);
  }

  /** A plan that starts on day 10 and is changed on day 15: on day 12 the customer is on the
      first plan, but the index already names the second. */
  lemma {:induction false} EarlyGapShiftsTheIndex()
    ensures var start := Calendar.DateStart(0);
            var spans := [Clipped(1, 1, Calendar.DateStart(10), Calendar.DateStart(15)), Clipped(2, 2, Calendar.DateStart(15), Calendar.DateStart(30))];
            var at := Calendar.DateStart(12);
            && Laid(spans, start, Calendar.DateStart(30)) && Owns(spans[0], Calendar.LocalDate(at))
            && Pick(DaysOf(spans), Elapsed(at, start, Calendar.DateStart(30)), 0, 0, 0) == 1
  {
    var spans := [Clipped(1, 1, Calendar.DateStart(10), Calendar.DateStart(15)), Clipped(2, 2, Calendar.DateStart(15), Calendar.DateStart(30))];
    assert spans[1..] == [spans[1]];
    assert DaysOf(spans[1..]) == [15];
    assert DaysOf(spans) == [5, 15];
    assert DaysOf(spans)[1..] == [15];
  }
}
