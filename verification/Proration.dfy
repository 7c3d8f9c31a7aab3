/** Whole-day proration (src/meter/domain/proration.py): fees round down, allowances and band
    bounds round up, prices do not scale. A band left with no width is dropped. */
module Proration {
  import opened Wrappers
  import opened Plans
  import opened Rating

  const DAYS_IN_MONTH_MIN := 28
  const DAYS_IN_MONTH_MAX := 31

  datatype ProrationError =
    | NotACalendarMonth | NegativeDays | TooManyDays
    | NoSegments | MonthsDisagree | SegmentsTooLong

  function DaysError(days: int, daysInMonth: int): Option<ProrationError> {
    if !(DAYS_IN_MONTH_MIN <= daysInMonth <= DAYS_IN_MONTH_MAX) then Some(NotACalendarMonth)
    else if days < 0 then Some(NegativeDays)
    else if days > daysInMonth then Some(TooManyDays)
    else None
  }

  predicate ValidDays(days: int, daysInMonth: int) {
    DaysError(days, daysInMonth).None?
  }

  // ----- Rounding -----

  lemma {:induction false} MulMonotone(a: int, b: int, c: int)
    requires a <= b && c >= 0
    ensures a * c <= b * c
  {
    assert (b - a) * c >= 0;
  }

  lemma {:induction false} FloorDivision(n: int, m: int)
    requires n >= 0 && m > 0
    ensures n / m >= 0 && n / m * m <= n < n / m * m + m
  {
  }

  /** Multiples of m less than m apart, seen from the upper side. */
  lemma {:induction false} CancelFactor(a: int, b: int, m: int)
    requires m > 0 && a * m < b * m + m
    ensures a <= b
  {
    assert (b + 1) * m == b * m + m;
    if a >= b + 1 {
      MulMonotone(b + 1, a, m);
    }
  }

  function ProrateFee(fee: int, days: int, daysInMonth: int): (share: int)
    requires fee >= 0 && ValidDays(days, daysInMonth)
    ensures 0 <= share <= fee
    ensures share * daysInMonth <= fee * days < share * daysInMonth + daysInMonth
  {
    MulMonotone(0, fee, days);
    MulMonotone(days, daysInMonth, fee);
    FloorDivision(fee * days, daysInMonth);
    CancelFactor(fee * days / daysInMonth, fee, daysInMonth);
    fee * days / daysInMonth
  }

  function ProrateAllowance(quantity: int, days: int, daysInMonth: int): (share: int)
    requires quantity >= 0 && ValidDays(days, daysInMonth)
    ensures 0 <= share <= quantity
    ensures share * daysInMonth - daysInMonth < quantity * days <= share * daysInMonth
  {
    MulMonotone(0, quantity, days);
    MulMonotone(days, daysInMonth, quantity);
    FloorDivision(quantity * days + daysInMonth - 1, daysInMonth);
    CancelFactor((quantity * days + daysInMonth - 1) / daysInMonth, quantity, daysInMonth);
    (quantity * days + daysInMonth - 1) / daysInMonth
  }

  function Sum(xs: seq<int>): int {
    if xs == [] then 0 else xs[0] + Sum(xs[1..])
  }

  function FeeShares(fee: int, days: seq<int>, daysInMonth: int): (shares: seq<int>)
    requires fee >= 0 && forall d <- days :: ValidDays(d, daysInMonth)
    ensures |shares| == |days|
  {
    if days == [] then [] else [ProrateFee(fee, days[0], daysInMonth)] + FeeShares(fee, days[1..], daysInMonth)
  }

  function AllowanceShares(quantity: int, days: seq<int>, daysInMonth: int): (shares: seq<int>)
    requires quantity >= 0 && forall d <- days :: ValidDays(d, daysInMonth)
    ensures |shares| == |days|
  {
    if days == [] then [] else [ProrateAllowance(quantity, days[0], daysInMonth)] + AllowanceShares(quantity, days[1..], daysInMonth)
  }

  lemma {:induction false} SharesAdd(amount: int, day: int, days: int, share: int, shares: int, n: int, m: int)
    ensures amount * (day + days) - (share + shares) * m == (amount * day - share * m) + (amount * days - shares * m)
    ensures n * (m - 1) == (n - 1) * (m - 1) + (m - 1)
  {
    assert amount * (day + days) == amount * day + amount * days;
    assert (share + shares) * m == share * m + shares * m;
  }

  lemma {:induction false} FeeSharesBound(fee: int, days: seq<int>, daysInMonth: int)
    requires fee >= 0 && forall d <- days :: ValidDays(d, daysInMonth)
    ensures 0 <= fee * Sum(days) - Sum(FeeShares(fee, days, daysInMonth)) * daysInMonth <= |days| * (daysInMonth - 1)
  {
    if days != [] {
      hide ProrateFee;
      FeeSharesBound(fee, days[1..], daysInMonth);
      var first, rest := ProrateFee(fee, days[0], daysInMonth), Sum(FeeShares(fee, days[1..], daysInMonth));
      assert Sum(FeeShares(fee, days, daysInMonth)) == first + rest;
      SharesAdd(fee, days[0], Sum(days[1..]), first, rest, |days|, daysInMonth);
    }
  }

  lemma {:induction false} AllowanceSharesBound(quantity: int, days: seq<int>, daysInMonth: int)
    requires quantity >= 0 && forall d <- days :: ValidDays(d, daysInMonth)
    ensures 0 <= Sum(AllowanceShares(quantity, days, daysInMonth)) * daysInMonth - quantity * Sum(days) <= |days| * (daysInMonth - 1)
  {
    if days != [] {
      hide ProrateAllowance;
      AllowanceSharesBound(quantity, days[1..], daysInMonth);
      var first, rest := ProrateAllowance(quantity, days[0], daysInMonth), Sum(AllowanceShares(quantity, days[1..], daysInMonth));
      assert Sum(AllowanceShares(quantity, days, daysInMonth)) == first + rest;
      SharesAdd(quantity, days[0], Sum(days[1..]), first, rest, |days|, daysInMonth);
    }
  }

  /** However a month is cut into N segments that cover it, the fees fall short of the monthly
      fee by 0 to N-1 paisa and the allowances (and each band bound) exceed theirs by 0 to N-1. */
  lemma {:induction false} CoveringSharesBound(amount: int, days: seq<int>, daysInMonth: int)
    requires amount >= 0 && days != [] && forall d <- days :: ValidDays(d, daysInMonth)
    requires Sum(days) == daysInMonth
    ensures amount - (|days| - 1) <= Sum(FeeShares(amount, days, daysInMonth)) <= amount
    ensures amount <= Sum(AllowanceShares(amount, days, daysInMonth)) <= amount + (|days| - 1)
  {
    FeeSharesBound(amount, days, daysInMonth);
    AllowanceSharesBound(amount, days, daysInMonth);
    var n, fees, allowances := |days|, Sum(FeeShares(amount, days, daysInMonth)), Sum(AllowanceShares(amount, days, daysInMonth));
    assert ValidDays(days[0], daysInMonth);
    LessThanSegments(amount, fees, n, daysInMonth);
    LessThanSegments(allowances, amount, n, daysInMonth);
  }

  lemma {:induction false} LessThanSegments(a: int, b: int, n: nat, m: int)
    requires n >= 1 && m > 0 && 0 <= a * m - b * m <= n * (m - 1)
    ensures 0 <= a - b <= n - 1
  {
    assert n * (m - 1) == n * m - n;
    assert (a - b) * m == a * m - b * m;
    if a - b >= n {
      MulMonotone(n, a - b, m);
    }
    if a - b < 0 {
      MulMonotone(a - b, -1, m);
    }
  }

  // ----- The prorated ladder -----

  /** The ladder with every bound scaled and every rung kept. */
  function ScaledBands(bands: seq<Band>, days: int, daysInMonth: int): (scaled: seq<Band>)
    requires ValidDays(days, daysInMonth) && forall b <- bands :: b.Valid()
    ensures |scaled| == |bands|
  {
    if bands == [] then []
    else
      assert bands[0].Valid();
      var up := if bands[0].upTo.None? then None else Some(ProrateAllowance(bands[0].upTo.value, days, daysInMonth));
      [Band(up, bands[0].unitPrice)] + ScaledBands(bands[1..], days, daysInMonth)
  }

  /** The rungs that still have width above `previous`. */
  function Kept(scaled: seq<Band>, previous: int): seq<Band> {
    if scaled == [] then []
    else if scaled[0].upTo.None? then [scaled[0]] + Kept(scaled[1..], previous)
    else if scaled[0].upTo.value <= previous then Kept(scaled[1..], previous)
    else [scaled[0]] + Kept(scaled[1..], scaled[0].upTo.value)
  }

  method ProratedBands(bands: seq<Band>, days: int, daysInMonth: int) returns (kept: seq<Band>)
    requires ValidDays(days, daysInMonth) && forall b <- bands :: b.Valid()
    ensures kept == Kept(ScaledBands(bands, days, daysInMonth), 0)
  {
    kept := [];
    var previous := 0;
    assert bands[0..] == bands;
    for i := 0 to |bands|
      invariant kept + Kept(ScaledBands(bands[i..], days, daysInMonth), previous) == Kept(ScaledBands(bands, days, daysInMonth), 0)
    {
      var band := bands[i];
      ghost var rest := ScaledBands(bands[i + 1..], days, daysInMonth);
      assert bands[i..][0] == band && bands[i..][1..] == bands[i + 1..];
      if band.upTo.None? {
        assert (kept + [band]) + Kept(rest, previous) == kept + ([band] + Kept(rest, previous));
        kept := kept + [band];
      } else {
        var bound := ProrateAllowance(band.upTo.value, days, daysInMonth);
        if bound > previous {
          var rung := Band(Some(bound), band.unitPrice);
          assert (kept + [rung]) + Kept(rest, bound) == kept + ([rung] + Kept(rest, bound));
          kept := kept + [rung];
          previous := bound;
        }
      }
    }
    assert kept + [] == kept;
  }

  /** `pl` over `days` of a `daysInMonth`-day month: a rating input, never a stored version. */
  function Prorated(pl: PriceList, days: int, daysInMonth: int): PriceList
    requires pl.Valid() && ValidDays(days, daysInMonth)
  {
    pl.(monthlyFee := ProrateFee(pl.monthlyFee, days, daysInMonth),
        included := ProrateAllowance(pl.included, days, daysInMonth),
        bands := Kept(ScaledBands(pl.bands, days, daysInMonth), 0))
  }

  /** What a prorated list owes its list: the fee is its share of the days rounded down, the allowance
      its share rounded up, and the name, version and final price are the same. */
  predicate Shares(pl: PriceList, share: PriceList, days: int, daysInMonth: int) {
    && share.name == pl.name && share.version == pl.version
    && share.monthlyFee * daysInMonth <= pl.monthlyFee * days < share.monthlyFee * daysInMonth + daysInMonth
    && share.included * daysInMonth - daysInMonth < pl.included * days <= share.included * daysInMonth
    && pl.bands != [] && share.bands != [] && share.FinalPrice() == pl.FinalPrice()
  }

  lemma {:induction false} ProratedShares(pl: PriceList, days: int, daysInMonth: int)
    requires pl.Valid() && ValidDays(days, daysInMonth)
    ensures Shares(pl, Prorated(pl, days, daysInMonth), days, daysInMonth)
  {
    hide ProrateFee, ProrateAllowance, Kept, ScaledBands;
    ProratedValid(pl, days, daysInMonth);
  }

  function SumFees(lists: seq<PriceList>): int {
    if lists == [] then 0 else lists[0].monthlyFee + SumFees(lists[1..])
  }

  function SumIncluded(lists: seq<PriceList>): int {
    if lists == [] then 0 else lists[0].included + SumIncluded(lists[1..])
  }

  lemma {:induction false} ListsBound(pl: PriceList, lists: seq<PriceList>, days: seq<int>, daysInMonth: int)
    requires pl.Valid() && |lists| == |days| && forall d <- days :: ValidDays(d, daysInMonth)
    requires forall i :: 0 <= i < |lists| ==> Shares(pl, lists[i], days[i], daysInMonth)
    ensures 0 <= pl.monthlyFee * Sum(days) - SumFees(lists) * daysInMonth <= |days| * (daysInMonth - 1)
    ensures 0 <= SumIncluded(lists) * daysInMonth - pl.included * Sum(days) <= |days| * (daysInMonth - 1)
  {
    if days != [] {
      hide Sum, SumFees, SumIncluded;
      ListsBound(pl, lists[1..], days[1..], daysInMonth);
      SumsOfOneMore(lists, days);
      var n := |days|;
      SharesAdd(pl.monthlyFee, days[0], Sum(days[1..]), lists[0].monthlyFee, SumFees(lists[1..]), n, daysInMonth);
      SharesAdd(pl.included, days[0], Sum(days[1..]), lists[0].included, SumIncluded(lists[1..]), n, daysInMonth);
      assert Shares(pl, lists[0], days[0], daysInMonth);
    }
  }

  lemma {:induction false} SumsOfOneMore(lists: seq<PriceList>, days: seq<int>)
    requires |lists| == |days| > 0
    ensures Sum(days) == days[0] + Sum(days[1..])
    ensures SumFees(lists) == lists[0].monthlyFee + SumFees(lists[1..])
    ensures SumIncluded(lists) == lists[0].included + SumIncluded(lists[1..])
  {
  }

  /** However a month is cut into N segments that cover it, the prorated lists' own fees fall short of
      the monthly fee by 0 to N-1 paisa in all, and their allowances pass it by 0 to N-1. */
  lemma {:induction false} CoveringListsBound(pl: PriceList, lists: seq<PriceList>, days: seq<int>, daysInMonth: int)
    requires pl.Valid() && |lists| == |days| > 0 && forall d <- days :: ValidDays(d, daysInMonth)
    requires forall i :: 0 <= i < |lists| ==> lists[i] == Prorated(pl, days[i], daysInMonth)
    requires Sum(days) == daysInMonth
    ensures pl.monthlyFee - (|days| - 1) <= SumFees(lists) <= pl.monthlyFee
    ensures pl.included <= SumIncluded(lists) <= pl.included + (|days| - 1)
  {
    hide Prorated, Sum, SumFees, SumIncluded, Shares;
    assert ValidDays(days[0], daysInMonth);
    forall i | 0 <= i < |lists| ensures Shares(pl, lists[i], days[i], daysInMonth) {
      ProratedShares(pl, days[i], daysInMonth);
    }
    ListsBound(pl, lists, days, daysInMonth);
    LessThanSegments(pl.monthlyFee, SumFees(lists), |days|, daysInMonth);
    LessThanSegments(SumIncluded(lists), pl.included, |days|, daysInMonth);
  }

  /** The price of unit k on a ladder whose bounds are scaled and rounded up, said of the unscaled one. */
  function ScaledPrice(bands: seq<Band>, k: int, days: int, daysInMonth: int): int
    requires Ladder(bands)
  {
    if |bands| == 1 || (k - 1) * daysInMonth < bands[0].upTo.value * days then bands[0].unitPrice
    else ScaledPrice(bands[1..], k, days, daysInMonth)
  }

  lemma {:induction false} ScaledUnit(bands: seq<Band>, k: int, days: int, daysInMonth: int)
    requires ValidDays(days, daysInMonth) && Ladder(bands) && forall b <- bands :: b.Valid()
    ensures Ladder(ScaledBands(bands, days, daysInMonth))
    ensures UnitPrice(ScaledBands(bands, days, daysInMonth), k) == ScaledPrice(bands, k, days, daysInMonth)
  {
    hide ProrateAllowance;
    ScaledLadder(bands, days, daysInMonth);
    if |bands| > 1 {
      ScaledUnit(bands[1..], k, days, daysInMonth);
      assert bands[0].Valid();
      ShareCovers(bands[0].upTo.value, k, days, daysInMonth);
    }
  }

  lemma {:induction false} ShareCovers(bound: int, k: int, days: int, daysInMonth: int)
    requires bound >= 0 && ValidDays(days, daysInMonth)
    ensures k <= ProrateAllowance(bound, days, daysInMonth) <==> (k - 1) * daysInMonth < bound * days
  {
    hide ProrateAllowance;
    var share := ProrateAllowance(bound, days, daysInMonth);
    if k <= share {
      MulMonotone(k - 1, share - 1, daysInMonth);
      assert (share - 1) * daysInMonth == share * daysInMonth - daysInMonth;
    } else {
      MulMonotone(share, k - 1, daysInMonth);
    }
  }

  lemma {:induction false} KeptUnit(scaled: seq<Band>, previous: int, k: int)
    requires Ladder(scaled) && k > previous
    ensures Ladder(Kept(scaled, previous)) && UnitPrice(Kept(scaled, previous), k) == UnitPrice(scaled, k)
  {
    if |scaled| == 1 {
      assert Kept(scaled, previous) == [scaled[0]];
    } else {
      KeptLadder(scaled[1..], scaled[0].upTo.value);
      if scaled[0].upTo.value <= previous {
        KeptUnit(scaled[1..], previous, k);
      } else if k > scaled[0].upTo.value {
        KeptUnit(scaled[1..], scaled[0].upTo.value, k);
      }
    }
  }

  lemma {:induction false} KeptLadder(scaled: seq<Band>, previous: int)
    requires Ladder(scaled)
    ensures Ladder(Kept(scaled, previous))
  {
    if |scaled| == 1 {
      assert Kept(scaled, previous) == [scaled[0]];
    } else if scaled[0].upTo.value <= previous {
      KeptLadder(scaled[1..], previous);
    } else {
      KeptLadder(scaled[1..], scaled[0].upTo.value);
    }
  }

  /** Every unit of a prorated ladder costs what the list itself says: the price of the first rung
      whose share of the days reaches the unit before it is used up. */
  lemma {:induction false} ProratedUnitPrice(pl: PriceList, days: int, daysInMonth: int, k: int)
    requires pl.Valid() && ValidDays(days, daysInMonth) && k > 0
    ensures Ladder(pl.bands) && Ladder(Prorated(pl, days, daysInMonth).bands)
    ensures UnitPrice(Prorated(pl, days, daysInMonth).bands, k) == ScaledPrice(pl.bands, k, days, daysInMonth)
  {
    hide Kept, ScaledBands, UnitPrice, ScaledPrice;
    ValidBandsLadder(pl.bands);
    ScaledUnit(pl.bands, k, days, daysInMonth);
    KeptUnit(ScaledBands(pl.bands, days, daysInMonth), 0, k);
  }

  method Prorate(pl: PriceList, days: int, daysInMonth: int) returns (r: Result<PriceList, ProrationError>)
    requires pl.Valid()
    ensures r.Failure? <==> !ValidDays(days, daysInMonth)
    ensures r.Success? ==> r.value == Prorated(pl, days, daysInMonth) && r.value.Valid()
    ensures r.Success? ==> Shares(pl, r.value, days, daysInMonth)
    ensures r.Failure? ==> Some(r.error) == DaysError(days, daysInMonth)
    ensures r.Success? <==> 28 <= daysInMonth <= 31 && 0 <= days <= daysInMonth
    ensures r.Failure? ==>
      r.error == if daysInMonth < 28 || daysInMonth > 31 then NotACalendarMonth else if days < 0 then NegativeDays else TooManyDays
  {
    var error := DaysError(days, daysInMonth);
    if error.Some? {
      return Failure(error.value);
    }
    ProratedValid(pl, days, daysInMonth);
    ProratedShares(pl, days, daysInMonth);
    var bands := ProratedBands(pl.bands, days, daysInMonth);
    return Success(pl.(monthlyFee := ProrateFee(pl.monthlyFee, days, daysInMonth),
                       included := ProrateAllowance(pl.included, days, daysInMonth),
                       bands := bands));
  }

  lemma {:induction false} ScaledLadder(bands: seq<Band>, days: int, daysInMonth: int)
    requires ValidDays(days, daysInMonth) && Ladder(bands) && forall b <- bands :: b.Valid()
    ensures Ladder(ScaledBands(bands, days, daysInMonth))
  {
    if |bands| > 1 {
      ScaledLadder(bands[1..], days, daysInMonth);
    }
  }

  lemma {:induction false} ConsValidBands(band: Band, rest: seq<Band>)
    requires ValidBands(rest) && band.Valid() && band.upTo.Some?
    requires forall i :: 0 <= i < |rest| ==> rest[i].upTo.Some? ==> band.upTo.value < rest[i].upTo.value
    ensures ValidBands([band] + rest)
  {
    var all := [band] + rest;
    assert forall i :: 1 <= i < |all| ==> all[i] == rest[i - 1];
  }

  lemma {:induction false} KeptValid(scaled: seq<Band>, previous: int)
    requires previous >= 0 && Ladder(scaled)
    ensures ValidBands(Kept(scaled, previous))
    ensures forall i :: 0 <= i < |Kept(scaled, previous)| ==> Kept(scaled, previous)[i].upTo.Some? ==> Kept(scaled, previous)[i].upTo.value > previous
    ensures Kept(scaled, previous)[|Kept(scaled, previous)| - 1] == scaled[|scaled| - 1]
  {
    if |scaled| == 1 {
      assert Kept(scaled, previous) == [scaled[0]];
    } else if scaled[0].upTo.value <= previous {
      KeptValid(scaled[1..], previous);
    } else {
      KeptValid(scaled[1..], scaled[0].upTo.value);
      ConsValidBands(scaled[0], Kept(scaled[1..], scaled[0].upTo.value));
    }
  }

  lemma {:induction false} ScaledLast(bands: seq<Band>, days: int, daysInMonth: int)
    requires ValidDays(days, daysInMonth) && |bands| > 0 && forall b <- bands :: b.Valid()
    ensures ScaledBands(bands, days, daysInMonth)[|bands| - 1].unitPrice == bands[|bands| - 1].unitPrice
  {
    if |bands| > 1 {
      ScaledLast(bands[1..], days, daysInMonth);
    }
  }

  /** Proration always yields a price list the constructor accepts, with the same final price. */
  lemma {:induction false} ProratedValid(pl: PriceList, days: int, daysInMonth: int)
    requires pl.Valid() && ValidDays(days, daysInMonth)
    ensures Prorated(pl, days, daysInMonth).Valid()
    ensures Prorated(pl, days, daysInMonth).FinalPrice() == pl.FinalPrice()
  {
    ValidBandsLadder(pl.bands);
    ScaledLadder(pl.bands, days, daysInMonth);
    KeptValid(ScaledBands(pl.bands, days, daysInMonth), 0);
    ScaledLast(pl.bands, days, daysInMonth);
  }

  lemma {:induction false} KeptSameLines(scaled: seq<Band>, previous: int, consumed: int, remaining: int)
    requires remaining > 0 ==> consumed >= previous
    ensures UsageLines(Kept(scaled, previous), consumed, remaining) == UsageLines(scaled, consumed, remaining)
  {
    if scaled != [] && remaining > 0 {
      var capacity := if scaled[0].upTo.None? then remaining else scaled[0].upTo.value - consumed;
      var take := Min(remaining, capacity);
      var previous' := if scaled[0].upTo.None? then previous else Max(previous, scaled[0].upTo.value);
      if take <= 0 {
        KeptSameLines(scaled[1..], previous', consumed, remaining);
      } else {
        KeptSameLines(scaled[1..], previous', consumed + take, remaining - take);
      }
    }
  }

  /** Dropping a rung with no width changes no charge: at every quantity the prorated list
      bills the very lines of the scaled ladder with all its rungs. */
  lemma {:induction false} DroppedRungsChangeNothing(pl: PriceList, days: int, daysInMonth: int, quantity: nat)
    requires pl.Valid() && ValidDays(days, daysInMonth)
    ensures var p := Prorated(pl, days, daysInMonth);
            && Ladder(ScaledBands(pl.bands, days, daysInMonth)) && Ladder(p.bands)
            && RateLines(p, quantity) == FlatLines(p, quantity) + UsageLines(ScaledBands(pl.bands, days, daysInMonth), 0, Chargeable(p, quantity))
            && Bill(p, quantity) == p.monthlyFee + Span(ScaledBands(pl.bands, days, daysInMonth), 0, Chargeable(p, quantity))
  {
    var p, scaled := Prorated(pl, days, daysInMonth), ScaledBands(pl.bands, days, daysInMonth);
    ProratedValid(pl, days, daysInMonth);
    ValidBandsLadder(p.bands);
    ValidBandsLadder(pl.bands);
    ScaledLadder(pl.bands, days, daysInMonth);
    KeptSameLines(scaled, 0, 0, Chargeable(p, quantity));
    UsageLinesCost(p.bands, 0, Chargeable(p, quantity));
    UsageLinesCost(scaled, 0, Chargeable(p, quantity));
  }

  /** Each bounded rung lies above the one before it, the first above `previous`. */
  predicate Rising(bands: seq<Band>, previous: int) {
    bands == []
    || (bands[0].Valid() && (bands[0].upTo.Some? ==> bands[0].upTo.value > previous)
        && Rising(bands[1..], if bands[0].upTo.Some? then bands[0].upTo.value else previous))
  }

  lemma {:induction false} ValidBandsRise(bands: seq<Band>, previous: int)
    requires ValidBands(bands) && (bands[0].upTo.Some? ==> bands[0].upTo.value > previous)
    ensures Rising(bands, previous)
  {
    if |bands| > 1 {
      var tail := bands[1..];
      assert forall i :: 0 <= i < |tail| ==> tail[i] == bands[i + 1];
      assert tail[0].upTo.Some? ==> bands[0].upTo.value < tail[0].upTo.value;
      ValidBandsRise(tail, bands[0].upTo.value);
    }
  }

  lemma {:induction false} RisingValid(bands: seq<Band>, previous: int)
    requires Rising(bands, previous)
    ensures forall b <- bands :: b.Valid()
  {
    if bands != [] {
      RisingValid(bands[1..], if bands[0].upTo.Some? then bands[0].upTo.value else previous);
    }
  }

  lemma {:induction false} FullShare(amount: int, daysInMonth: int)
    requires amount >= 0 && ValidDays(daysInMonth, daysInMonth)
    ensures ProrateFee(amount, daysInMonth, daysInMonth) == amount == ProrateAllowance(amount, daysInMonth, daysInMonth)
  {
    var down, up := ProrateFee(amount, daysInMonth, daysInMonth), ProrateAllowance(amount, daysInMonth, daysInMonth);
    LessThanSegments(amount, down, 1, daysInMonth);
    LessThanSegments(up, amount, 1, daysInMonth);
  }

  /** A bound survives the rounding exactly when its share falls short of it by less than one. */
  lemma {:induction false} ShareIsWhole(bound: int, days: int, daysInMonth: int)
    requires bound >= 0 && ValidDays(days, daysInMonth)
    ensures ProrateAllowance(bound, days, daysInMonth) == bound <==> bound * (daysInMonth - days) < daysInMonth
  {
    hide ProrateAllowance;
    var share := ProrateAllowance(bound, days, daysInMonth);
    assert bound * (daysInMonth - days) == bound * daysInMonth - bound * days;
    if bound * (daysInMonth - days) < daysInMonth {
      CancelFactor(bound, share, daysInMonth);
    }
  }

  lemma {:induction false} KeptNoLonger(scaled: seq<Band>, previous: int)
    ensures |Kept(scaled, previous)| <= |scaled|
  {
    if scaled != [] {
      KeptNoLonger(scaled[1..], previous);
      KeptNoLonger(scaled[1..], if scaled[0].upTo.Some? then scaled[0].upTo.value else previous);
    }
  }

  predicate WholeShares(bands: seq<Band>, days: int, daysInMonth: int) {
    forall b <- bands :: b.upTo.Some? ==> b.upTo.value * (daysInMonth - days) < daysInMonth
  }

  lemma {:induction false} WholeSharesSplit(bands: seq<Band>, days: int, daysInMonth: int)
    requires bands != []
    ensures WholeShares(bands, days, daysInMonth)
       <==> (bands[0].upTo.Some? ==> bands[0].upTo.value * (daysInMonth - days) < daysInMonth) && WholeShares(bands[1..], days, daysInMonth)
  {
    assert forall b :: b in bands <==> b == bands[0] || b in bands[1..];
  }

  lemma {:induction false} RungsKept(bands: seq<Band>, days: int, daysInMonth: int, previous: int)
    requires ValidDays(days, daysInMonth) && Rising(bands, previous)
    ensures forall b <- bands :: b.Valid()
    ensures Kept(ScaledBands(bands, days, daysInMonth), previous) == bands <==> WholeShares(bands, days, daysInMonth)
  {
    hide ProrateAllowance, WholeShares;
    RisingValid(bands, previous);
    if bands == [] {
      assert WholeShares(bands, days, daysInMonth) by { NoShares(days, daysInMonth); }
    } else {
      var up, rest := bands[0].upTo, bands[1..];
      var scaled := ScaledBands(rest, days, daysInMonth);
      WholeSharesSplit(bands, days, daysInMonth);
      RungsKept(rest, days, daysInMonth, if up.Some? then up.value else previous);
      assert bands == [bands[0]] + rest;
      if up.Some? {
        ShareIsWhole(up.value, days, daysInMonth);
        KeptNoLonger(scaled, previous);
      }
    }
  }

  lemma {:induction false} NoShares(days: int, daysInMonth: int)
    ensures WholeShares([], days, daysInMonth)
  {
  }

  /** Proration leaves the ladder as it is exactly when it moves no bound by a whole request: each
      bound times the days left out is less than the month. A full month is one such case. */
  lemma {:induction false} BandsKeptExactly(pl: PriceList, days: int, daysInMonth: int)
    requires pl.Valid() && ValidDays(days, daysInMonth)
    ensures Prorated(pl, days, daysInMonth).bands == pl.bands
       <==> forall b <- pl.bands :: b.upTo.Some? ==> b.upTo.value * (daysInMonth - days) < daysInMonth
  {
    hide Kept, ScaledBands;
    ValidBandsRise(pl.bands, 0);
    RungsKept(pl.bands, days, daysInMonth, 0);
  }

  /** A full month is the identity, so rounding cannot drift on it. */
  lemma {:induction false} FullMonthIsIdentity(pl: PriceList, daysInMonth: int)
    requires pl.Valid() && ValidDays(daysInMonth, daysInMonth)
    ensures Prorated(pl, daysInMonth, daysInMonth) == pl
  {
    FullShare(pl.monthlyFee, daysInMonth);
    FullShare(pl.included, daysInMonth);
    BandsKeptExactly(pl, daysInMonth, daysInMonth);
  }

  /** Half a month halves the bound of the first rung. */
  lemma {:induction false} HalfMonthMovesTheBands()
    ensures var pl := PriceList("p", 1, 0, 0, [Band(Some(30), 2), Band(None, 1)]);
            pl.Valid() && ValidDays(15, 30) && Prorated(pl, 15, 30).bands == [Band(Some(15), 2), Band(None, 1)] != pl.bands
  {
    var pl := PriceList("p", 1, 0, 0, [Band(Some(30), 2), Band(None, 1)]);
    assert ProrateAllowance(30, 15, 30) == 15;
    assert pl.bands[1..] == [Band(None, 1)] && [Band(None, 1)][1..] == [];
    assert ScaledBands(pl.bands, 15, 30) == [Band(Some(15), 2), Band(None, 1)];
    assert [Band(Some(15), 2), Band(None, 1)][1..] == [Band(None, 1)];
  }

  lemma {:induction false} ZeroDayBands(bands: seq<Band>, daysInMonth: int)
    requires ValidDays(0, daysInMonth) && Ladder(bands) && forall b <- bands :: b.Valid()
    ensures Kept(ScaledBands(bands, 0, daysInMonth), 0) == [bands[|bands| - 1]]
  {
    if |bands| > 1 {
      assert bands[0].Valid();
      NothingOfZeroDays(bands[0].upTo.value, daysInMonth);
      ZeroDayBands(bands[1..], daysInMonth);
    }
  }

  lemma {:induction false} NothingOfZeroDays(amount: int, daysInMonth: int)
    requires amount >= 0 && ValidDays(0, daysInMonth)
    ensures ProrateFee(amount, 0, daysInMonth) == 0 == ProrateAllowance(amount, 0, daysInMonth)
  {
    var up := ProrateAllowance(amount, 0, daysInMonth);
    CancelFactor(up, 0, daysInMonth);
  }

  /** A segment of zero days has no fee and no allowance, but usage attributed to it is not lost:
      the unbounded rung survives, and every request is billed at its price. */
  lemma {:induction false} ZeroDaysBillAtFinalPrice(pl: PriceList, daysInMonth: int, quantity: nat)
    requires pl.Valid() && ValidDays(0, daysInMonth)
    ensures Ladder(Prorated(pl, 0, daysInMonth).bands)
    ensures Bill(Prorated(pl, 0, daysInMonth), quantity) == quantity * pl.FinalPrice()
  {
    ValidBandsLadder(pl.bands);
    ZeroDayBands(pl.bands, daysInMonth);
    NothingOfZeroDays(pl.monthlyFee, daysInMonth);
    NothingOfZeroDays(pl.included, daysInMonth);
    ProratedValid(pl, 0, daysInMonth);
    ValidBandsLadder(Prorated(pl, 0, daysInMonth).bands);
    SpanInFirstBand(Prorated(pl, 0, daysInMonth).bands, 0, quantity);
  }

  // ----- Rating a period -----

  datatype Segment = Segment(priceList: PriceList, days: int, daysInMonth: int, quantity: int) {
    predicate Valid() {
      priceList.Valid() && ValidDays(days, daysInMonth) && quantity >= 0
    }

    function List(): PriceList
      requires Valid()
    {
      Prorated(priceList, days, daysInMonth)
    }
  }

  datatype SegmentCharge = SegmentCharge(days: int, daysInMonth: int, fee: int, allowance: int, charge: Charge)

  datatype PeriodCharge = PeriodCharge(daysInMonth: int, segments: seq<SegmentCharge>, total: int)

  function TotalDays(segments: seq<Segment>): int {
    if segments == [] then 0 else segments[0].days + TotalDays(segments[1..])
  }

  function SegmentBill(segment: Segment): int
    requires segment.Valid()
  {
    ProratedValid(segment.priceList, segment.days, segment.daysInMonth);
    ValidBandsLadder(segment.List().bands);
    Bill(segment.List(), segment.quantity)
  }

  ghost predicate AllValid(segments: seq<Segment>) {
    forall i :: 0 <= i < |segments| ==> segments[i].Valid()
  }

  ghost function PeriodBill(segments: seq<Segment>): int
    requires AllValid(segments)
  {
    if segments == [] then 0 else SegmentBill(segments[0]) + PeriodBill(segments[1..])
  }

  predicate RatedAs(rated: SegmentCharge, segment: Segment)
    requires segment.Valid()
  {
    && rated.days == segment.days && rated.daysInMonth == segment.daysInMonth
    && rated.fee == segment.List().monthlyFee && rated.allowance == segment.List().included
    && rated.charge == RateCharge(segment.List(), segment.quantity)
  }

  /** What a charge says of its segment: its days, its share of the fee rounded down and of the allowance
      rounded up, and the bill of its usage. */
  predicate ChargedShare(rated: SegmentCharge, segment: Segment)
    requires segment.Valid()
  {
    var m := segment.daysInMonth;
    && rated.days == segment.days && rated.daysInMonth == m
    && rated.fee * m <= segment.priceList.monthlyFee * segment.days < rated.fee * m + m
    && rated.allowance * m - m < segment.priceList.included * segment.days <= rated.allowance * m
    && rated.charge.quantity == segment.quantity && rated.charge.total == SegmentBill(segment)
  }

  lemma {:induction false} RatedCharges(rated: seq<SegmentCharge>, segments: seq<Segment>)
    requires AllValid(segments) && |rated| == |segments| && forall i :: 0 <= i < |segments| ==> RatedAs(rated[i], segments[i])
    ensures forall i :: 0 <= i < |segments| ==> ChargedShare(rated[i], segments[i])
  {
    forall i | 0 <= i < |segments| ensures ChargedShare(rated[i], segments[i]) {
      RatedCharge(rated[i], segments[i]);
    }
  }

  lemma {:induction false} RatedCharge(rated: SegmentCharge, segment: Segment)
    requires segment.Valid() && RatedAs(rated, segment)
    ensures ChargedShare(rated, segment)
  {
    hide Prorated, Bill, RateLines;
    ProratedShares(segment.priceList, segment.days, segment.daysInMonth);
    ProratedValid(segment.priceList, segment.days, segment.daysInMonth);
    RateTotal(segment.List(), segment.quantity);
  }

  function SumTotals(rated: seq<SegmentCharge>): int {
    if rated == [] then 0 else rated[0].charge.total + SumTotals(rated[1..])
  }

  lemma {:induction false} RatedTotals(rated: seq<SegmentCharge>, segments: seq<Segment>)
    requires |rated| == |segments| && AllValid(segments)
    requires forall i :: 0 <= i < |rated| ==> RatedAs(rated[i], segments[i])
    ensures SumTotals(rated) == PeriodBill(segments)
  {
    if rated != [] {
      var s := segments[0];
      ProratedValid(s.priceList, s.days, s.daysInMonth);
      RateTotal(s.List(), s.quantity);
      RatedTotals(rated[1..], segments[1..]);
    }
  }

  /** Each segment is rated on its own prorated list, the ladder restarting at every boundary;
      the period's total is the sum of the segments' unit-by-unit bills. */
  method RatePeriod(segments: seq<Segment>) returns (r: Result<PeriodCharge, ProrationError>)
    requires AllValid(segments)
    ensures r.Success? <==> segments != [] && (forall s <- segments :: s.daysInMonth == segments[0].daysInMonth)
                            && TotalDays(segments) <= segments[0].daysInMonth
    ensures r == Failure(NoSegments) <==> segments == []
    ensures r == Failure(SegmentsTooLong) ==> TotalDays(segments) > segments[0].daysInMonth
    ensures r == Failure(MonthsDisagree) <==> segments != [] && exists s <- segments :: s.daysInMonth != segments[0].daysInMonth
    ensures r.Success? ==> |r.value.segments| == |segments| && r.value.daysInMonth == segments[0].daysInMonth
    ensures r.Success? ==> forall i :: 0 <= i < |segments| ==> RatedAs(r.value.segments[i], segments[i])
    ensures r.Success? ==> forall i :: 0 <= i < |segments| ==> ChargedShare(r.value.segments[i], segments[i])
    ensures r.Success? ==> r.value.total == PeriodBill(segments)
  {
    hide Shares, Prorated, PriceList.Valid, Bill, ChargedShare;
    if segments == [] {
      return Failure(NoSegments);
    }
    var daysInMonth := segments[0].daysInMonth;
    if exists s <- segments :: s.daysInMonth != daysInMonth {
      return Failure(MonthsDisagree);
    }
    if TotalDays(segments) > daysInMonth {
      return Failure(SegmentsTooLong);
    }
    var rated: seq<SegmentCharge> := [];
    for i := 0 to |segments|
      invariant |rated| == i
      invariant forall k :: 0 <= k < i ==> RatedAs(rated[k], segments[k])
    {
      var segment := segments[i];
      var prorated := Prorate(segment.priceList, segment.days, segment.daysInMonth);
      var charge := Rate(segment.quantity, prorated.value);
      rated := rated + [SegmentCharge(segment.days, segment.daysInMonth, prorated.value.monthlyFee, prorated.value.included, charge.value)];
    }
    RatedTotals(rated, segments);
    RatedCharges(rated, segments);
    return Success(PeriodCharge(daysInMonth, rated, SumTotals(rated)));
  }
}
