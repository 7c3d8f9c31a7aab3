/** The marginal band ladder (src/meter/domain/rating.py).

    The reference meaning of a charge is unit by unit: chargeable unit k costs the price of
    the first band whose bound covers k. `Rate` walks bands instead of units and
    `MaxQuantityWithin` walks them backwards from a budget; both are proved against it. */
module Rating {
  import opened Wrappers
  import opened Plans

  datatype Kind = Fee | Included | Usage

  datatype ChargeLine = ChargeLine(kind: Kind, quantity: int, unitPrice: int, amount: int)

  datatype Charge = Charge(name: string, version: int, quantity: int, lines: seq<ChargeLine>, total: int)

  datatype RatingError = NegativeQuantity | UnboundedFreeBand

  // ----- Reference definition: the price of each unit -----

  /** A ladder that ends unbounded. Bounds may repeat, decrease or be zero: proration passes
      through such ladders, and the charge does not depend on the order of the bounds. */
  predicate Ladder(bands: seq<Band>) {
    && |bands| > 0
    && bands[0].unitPrice >= 0
    && if |bands| == 1 then bands[0].upTo.None? else bands[0].upTo.Some? && Ladder(bands[1..])
  }

  function UnitPrice(bands: seq<Band>, k: int): (price: int)
    requires Ladder(bands)
    ensures price >= 0
  {
    if bands[0].upTo.None? || k <= bands[0].upTo.value then bands[0].unitPrice else UnitPrice(bands[1..], k)
  }

  /** The price of the `count` units that follow unit `from`. */
  function Span(bands: seq<Band>, from: int, count: nat): (cost: int)
    requires Ladder(bands)
    ensures cost >= 0
  {
    if count == 0 then 0 else Span(bands, from, count - 1) + UnitPrice(bands, from + count)
  }

  function Chargeable(pl: PriceList, quantity: int): nat {
    if quantity <= pl.included then 0 else quantity - pl.included
  }

  /** The bill for `quantity` requests: the fee plus each chargeable unit's own price. */
  function Bill(pl: PriceList, quantity: int): int
    requires Ladder(pl.bands)
  {
    pl.monthlyFee + Span(pl.bands, 0, Chargeable(pl, quantity))
  }

  lemma {:induction false} ValidBandsLadder(bands: seq<Band>)
    requires ValidBands(bands)
    ensures Ladder(bands)
  {
    if |bands| > 1 {
      var tail := bands[1..];
      assert forall i :: 0 <= i < |tail| ==> tail[i] == bands[i + 1];
      ValidBandsLadder(tail);
    }
  }

  lemma {:induction false} SpanSplit(bands: seq<Band>, from: int, a: nat, b: nat)
    requires Ladder(bands)
    ensures Span(bands, from, a + b) == Span(bands, from, a) + Span(bands, from + a, b)
  {
    if b > 0 {
      SpanSplit(bands, from, a, b - 1);
    }
  }

  lemma {:induction false} SpanInFirstBand(bands: seq<Band>, from: int, count: nat)
    requires Ladder(bands)
    requires bands[0].upTo.Some? ==> from + count <= bands[0].upTo.value
    ensures Span(bands, from, count) == count * bands[0].unitPrice
  {
    if count > 0 {
      SpanInFirstBand(bands, from, count - 1);
    }
  }

  lemma {:induction false} SpanPastFirstBand(bands: seq<Band>, from: int, count: nat)
    requires Ladder(bands)
    requires bands[0].upTo.Some? && from >= bands[0].upTo.value
    ensures Span(bands, from, count) == Span(bands[1..], from, count)
  {
    if count > 0 {
      SpanPastFirstBand(bands, from, count - 1);
    }
  }

  lemma {:induction false} SpanMonotone(bands: seq<Band>, from: int, a: nat, b: nat)
    requires Ladder(bands) && a <= b
    ensures Span(bands, from, a) <= Span(bands, from, b)
  {
    SpanSplit(bands, from, a, b - a);
  }

  /** Marginal, never retroactive: one more request adds exactly its own band's price. */
  lemma {:induction false} BillStep(pl: PriceList, quantity: nat)
    requires Ladder(pl.bands)
    ensures Bill(pl, quantity + 1) - Bill(pl, quantity)
         == if quantity < pl.included then 0 else UnitPrice(pl.bands, quantity + 1 - pl.included)
  {
  }

  lemma {:induction false} BillMonotone(pl: PriceList, a: int, b: int)
    requires Ladder(pl.bands) && a <= b
    ensures Bill(pl, a) <= Bill(pl, b)
  {
    SpanMonotone(pl.bands, 0, Chargeable(pl, a), Chargeable(pl, b));
  }

  // ----- Rating -----

  function SumAmounts(lines: seq<ChargeLine>): int {
    if lines == [] then 0 else lines[0].amount + SumAmounts(lines[1..])
  }

  lemma {:induction false} SumAmountsConcat(a: seq<ChargeLine>, b: seq<ChargeLine>)
    ensures SumAmounts(a + b) == SumAmounts(a) + SumAmounts(b)
  {
    if a == [] {
      assert a + b == b;
    } else {
      assert (a + b)[1..] == a[1..] + b;
      SumAmountsConcat(a[1..], b);
    }
  }

  function UsageLine(quantity: int, unitPrice: int): ChargeLine {
    ChargeLine(Usage, quantity, unitPrice, quantity * unitPrice)
  }

  /** The usage lines of the band walk, when `consumed` units are behind it and `remaining`
      are still to be priced. */
  function UsageLines(bands: seq<Band>, consumed: int, remaining: int): seq<ChargeLine> {
    if bands == [] || remaining <= 0 then []
    else
      var capacity := if bands[0].upTo.None? then remaining else bands[0].upTo.value - consumed;
      var take := Min(remaining, capacity);
      if take <= 0 then UsageLines(bands[1..], consumed, remaining)
      else [UsageLine(take, bands[0].unitPrice)] + UsageLines(bands[1..], consumed + take, remaining - take)
  }

  function FlatLines(pl: PriceList, quantity: int): seq<ChargeLine> {
    [ChargeLine(Fee, 1, pl.monthlyFee, pl.monthlyFee)]
    + if pl.included > 0 then [ChargeLine(Included, Min(quantity, pl.included), 0, 0)] else []
  }

  function RateLines(pl: PriceList, quantity: int): seq<ChargeLine> {
    FlatLines(pl, quantity) + UsageLines(pl.bands, 0, Chargeable(pl, quantity))
  }

  function RateCharge(pl: PriceList, quantity: int): Charge {
    var lines := RateLines(pl, quantity);
    Charge(pl.name, pl.version, quantity, lines, SumAmounts(lines))
  }

  lemma {:induction false} UsageLinesStep(head: seq<ChargeLine>, bands: seq<Band>, i: nat, consumed: int,
      remaining: int, take: int)
    requires i < |bands| && remaining > 0
    requires take == Min(remaining, if bands[i].upTo.None? then remaining else bands[i].upTo.value - consumed)
    ensures head + UsageLines(bands[i..], consumed, remaining)
         == if take <= 0 then head + UsageLines(bands[i + 1..], consumed, remaining)
            else (head + [UsageLine(take, bands[i].unitPrice)]) + UsageLines(bands[i + 1..], consumed + take, remaining - take)
  {
    assert bands[i..][1..] == bands[i + 1..];
    if take > 0 {
      var rest := UsageLines(bands[i + 1..], consumed + take, remaining - take);
      assert UsageLines(bands[i..], consumed, remaining) == [UsageLine(take, bands[i].unitPrice)] + rest;
    }
  }

  lemma {:induction false} UsageLinesDone(bands: seq<Band>, consumed: int, remaining: int)
    requires bands == [] || remaining <= 0
    ensures UsageLines(bands, consumed, remaining) == []
  {
  }

  lemma {:induction false} UsageLinesAreUsage(bands: seq<Band>, consumed: int, remaining: int)
    ensures forall line <- UsageLines(bands, consumed, remaining) :: line.kind == Usage
  {
    if bands != [] && remaining > 0 {
      var take := Min(remaining, if bands[0].upTo.None? then remaining else bands[0].upTo.value - consumed);
      UsageLinesAreUsage(bands[1..], consumed, remaining);
      UsageLinesAreUsage(bands[1..], consumed + take, remaining - take);
    }
  }

  method Rate(quantity: int, pl: PriceList) returns (r: Result<Charge, RatingError>)
    requires pl.Valid()
    ensures r == if quantity < 0 then Failure(NegativeQuantity) else Success(RateCharge(pl, quantity))
    ensures r.Success? ==>
      && r.value.name == pl.name && r.value.version == pl.version && r.value.quantity == quantity
      && |r.value.lines| > 0 && r.value.lines[0] == ChargeLine(Fee, 1, pl.monthlyFee, pl.monthlyFee)
      && (pl.included > 0 ==> |r.value.lines| > 1 && r.value.lines[1] == ChargeLine(Included, Min(quantity, pl.included), 0, 0))
      && forall k :: 1 <= k < |r.value.lines| ==> r.value.lines[k].kind != Fee && (r.value.lines[k].kind == Included ==> k == 1 && pl.included > 0)
  {
    hide UsageLines, ValidBands;
    if quantity < 0 {
      return Failure(NegativeQuantity);
    }
    var lines := [ChargeLine(Fee, 1, pl.monthlyFee, pl.monthlyFee)];
    var includedUsed := Min(quantity, pl.included);
    if pl.included > 0 {
      lines := lines + [ChargeLine(Included, includedUsed, 0, 0)];
    }
    assert lines == FlatLines(pl, quantity);
    var remaining := quantity - includedUsed;
    var consumed := 0;
    var i := 0;
    assert pl.bands[0..] == pl.bands;
    while i < |pl.bands| && remaining > 0
      invariant 0 <= i <= |pl.bands|
      invariant lines + UsageLines(pl.bands[i..], consumed, remaining) == RateLines(pl, quantity)
    {
      var band := pl.bands[i];
      var capacity := if band.upTo.None? then remaining else band.upTo.value - consumed;
      var take := Min(remaining, capacity);
      UsageLinesStep(lines, pl.bands, i, consumed, remaining, take);
      if take > 0 {
        lines := lines + [UsageLine(take, band.unitPrice)];
        consumed := consumed + take;
        remaining := remaining - take;
      }
      i := i + 1;
    }
    assert UsageLines(pl.bands[i..], consumed, remaining) == [] by {
      UsageLinesDone(pl.bands[i..], consumed, remaining);
    }
    assert lines + [] == lines;
    UsageLinesAreUsage(pl.bands, 0, Chargeable(pl, quantity));
    return Success(Charge(pl.name, pl.version, quantity, lines, SumAmounts(lines)));
  }

  // ----- What the lines mean -----

  function Repeat(price: int, count: nat): (r: seq<int>)
    ensures |r| == count && forall i :: 0 <= i < count ==> r[i] == price
  {
    seq(count, _ => price)
  }

  /** Each usage line written out as one price per unit it bills. */
  function PerUnit(lines: seq<ChargeLine>): seq<int> {
    if lines == [] then [] else Repeat(lines[0].unitPrice, if lines[0].quantity < 0 then 0 else lines[0].quantity) + PerUnit(lines[1..])
  }

  predicate WellPriced(line: ChargeLine) {
    line.quantity > 0 && line.unitPrice >= 0 && line.amount == line.quantity * line.unitPrice
  }

  /** No unit is charged twice, none is skipped, and each one carries its own band's price:
      written out per unit, the usage lines are exactly units consumed+1 .. consumed+remaining
      in order. No line is empty. */
  lemma {:induction false} UsageLinesTile(bands: seq<Band>, consumed: int, remaining: nat)
    requires Ladder(bands)
    ensures |PerUnit(UsageLines(bands, consumed, remaining))| == remaining
    ensures forall i :: 0 <= i < remaining ==> PerUnit(UsageLines(bands, consumed, remaining))[i] == UnitPrice(bands, consumed + 1 + i)
    ensures forall line <- UsageLines(bands, consumed, remaining) :: line.kind == Usage && WellPriced(line)
  {
    if remaining > 0 {
      var capacity := if bands[0].upTo.None? then remaining else bands[0].upTo.value - consumed;
      var take := Min(remaining, capacity);
      if take <= 0 {
        UsageLinesTile(bands[1..], consumed, remaining);
      } else if take < remaining {
        UsageLinesTile(bands[1..], consumed + take, remaining - take);
      }
    }
  }

  lemma {:induction false} UsageLinesCost(bands: seq<Band>, consumed: int, remaining: nat)
    requires Ladder(bands)
    ensures SumAmounts(UsageLines(bands, consumed, remaining)) == Span(bands, consumed, remaining)
  {
    if remaining > 0 {
      var capacity := if bands[0].upTo.None? then remaining else bands[0].upTo.value - consumed;
      var take := Min(remaining, capacity);
      if take <= 0 {
        SpanPastFirstBand(bands, consumed, remaining);
        UsageLinesCost(bands[1..], consumed, remaining);
      } else {
        SpanInFirstBand(bands, consumed, take);
        SpanSplit(bands, consumed, take, remaining - take);
        if take < remaining {
          SpanPastFirstBand(bands, consumed + take, remaining - take);
          UsageLinesCost(bands[1..], consumed + take, remaining - take);
        }
      }
    }
  }

  /** The itemised charge adds up to the unit-by-unit bill. */
  lemma {:induction false} RateTotal(pl: PriceList, quantity: nat)
    requires pl.Valid()
    ensures Ladder(pl.bands) && RateCharge(pl, quantity).total == Bill(pl, quantity)
  {
    ValidBandsLadder(pl.bands);
    SumAmountsConcat(FlatLines(pl, quantity), UsageLines(pl.bands, 0, Chargeable(pl, quantity)));
    UsageLinesCost(pl.bands, 0, Chargeable(pl, quantity));
  }

  // ----- The inversion -----

  /** The band walk stands at band `i` with `consumed` chargeable units behind it. */
  predicate At(pl: PriceList, i: int, consumed: int) {
    && pl.Valid()
    && 0 <= i < |pl.bands|
    && 0 <= consumed
    && (pl.bands[i].upTo.Some? ==> consumed < pl.bands[i].upTo.value)
    && (i > 0 ==> pl.bands[i - 1].upTo.value <= consumed)
  }

  lemma {:induction false} TailValid(bands: seq<Band>)
    requires ValidBands(bands) && |bands| > 1
    ensures ValidBands(bands[1..])
  {
    assert forall i :: 0 <= i < |bands[1..]| ==> bands[1..][i] == bands[i + 1];
  }

  /** Bands that are behind price nothing more. */
  lemma {:induction false} SpanAhead(bands: seq<Band>, i: nat, consumed: int, count: nat)
    requires ValidBands(bands) && i < |bands| && (i > 0 ==> bands[i - 1].upTo.value <= consumed)
    ensures Ladder(bands) && Ladder(bands[i..]) && Span(bands, consumed, count) == Span(bands[i..], consumed, count)
    decreases i
  {
    ValidBandsLadder(bands);
    if i == 0 {
      assert bands[0..] == bands;
    } else {
      assert bands[0].upTo.value <= bands[i - 1].upTo.value;
      TailValid(bands);
      SpanPastFirstBand(bands, consumed, count);
      SpanAhead(bands[1..], i - 1, consumed, count);
      assert bands[1..][i - 1..] == bands[i..];
    }
  }

  /** Buying `count` more units inside the band the walk has reached. */
  lemma {:induction false} BuyInBand(pl: PriceList, i: int, consumed: int, count: nat)
    requires At(pl, i, consumed)
    requires pl.bands[i].upTo.Some? ==> consumed + count <= pl.bands[i].upTo.value
    ensures Ladder(pl.bands)
    ensures Bill(pl, pl.included + consumed + count) == Bill(pl, pl.included + consumed) + count * pl.bands[i].unitPrice
  {
    hide ValidBands;
    SpanAhead(pl.bands, i, consumed, count);
    SpanSplit(pl.bands, 0, consumed, count);
    SpanInFirstBand(pl.bands[i..], consumed, count);
  }

  lemma {:induction false} DivideBudget(budget: nat, price: int, capacity: int)
    requires price > 0
    ensures budget / price >= 0
    ensures budget / price * price <= budget < budget / price * price + price
    ensures budget / price >= capacity ==> capacity * price <= budget
  {
    if budget / price >= capacity {
      assert (budget / price - capacity) * price >= 0;
    }
  }

  /** The last band the budget reaches: what is left of it buys so many units, and not one more. */
  lemma {:induction false} SpendInBand(pl: PriceList, i: int, consumed: int, left: nat)
    requires At(pl, i, consumed)
    ensures Ladder(pl.bands)
    ensures pl.bands[i].unitPrice > 0 ==>
      var affordable, spent := left / pl.bands[i].unitPrice, Bill(pl, pl.included + consumed);
      && affordable >= 0
      && ((pl.bands[i].upTo.Some? ==> affordable < pl.bands[i].upTo.value - consumed) ==>
            Bill(pl, pl.included + consumed + affordable) <= spent + left < Bill(pl, pl.included + consumed + affordable + 1))
  {
    hide ValidBands, Bill;
    BuyInBand(pl, i, consumed, 0);
    var price := pl.bands[i].unitPrice;
    if price > 0 {
      var affordable := left / price;
      DivideBudget(left, price, 0);
      if pl.bands[i].upTo.Some? ==> affordable < pl.bands[i].upTo.value - consumed {
        BuyInBand(pl, i, consumed, affordable);
        BuyInBand(pl, i, consumed, affordable + 1);
        assert (affordable + 1) * price == affordable * price + price;
      }
    }
  }

  /** The largest quantity a budget affords. It fails exactly when no quantity exceeds the
      budget, which needs a free final band. A fee above the budget gives 0; otherwise the
      answer is affordable and one request more is not. */
  method MaxQuantityWithin(budget: int, pl: PriceList) returns (r: Result<int, RatingError>)
    requires pl.Valid()
    ensures Ladder(pl.bands)
    ensures r.Failure? <==> forall q: nat :: Bill(pl, q) <= budget
    ensures r.Failure? ==> pl.FinalPrice() == 0
    ensures r.Success? && pl.monthlyFee > budget ==> r.value == 0
    ensures r.Success? && pl.monthlyFee <= budget
         ==> r.value >= pl.included && Bill(pl, r.value) <= budget < Bill(pl, r.value + 1)
  {
    ValidBandsLadder(pl.bands);
    var remainingBudget := budget - pl.monthlyFee;
    if remainingBudget < 0 {
      assert Bill(pl, 0) > budget;
      return Success(0);
    }
    var quantity := pl.included;
    var consumed := 0;
    var i := 0;
    assert pl.bands[0..] == pl.bands;
    while true
      invariant At(pl, i, consumed)
      invariant quantity == pl.included + consumed
      invariant remainingBudget == budget - Bill(pl, quantity)
      invariant remainingBudget >= 0
      decreases |pl.bands| - i
    {
      var band := pl.bands[i];
      var capacity := if band.upTo.None? then None else Some(band.upTo.value - consumed);
      if band.unitPrice == 0 {
        if capacity.None? {
          FreeForever(pl, i, consumed, budget);
          return Failure(UnboundedFreeBand);
        }
        BuyInBand(pl, i, consumed, capacity.value);
      } else {
        var affordable := remainingBudget / band.unitPrice;
        if capacity.None? || affordable < capacity.value {
          SpendInBand(pl, i, consumed, remainingBudget);
          return Success(quantity + affordable);
        }
        BuyInBand(pl, i, consumed, capacity.value);
        DivideBudget(remainingBudget, band.unitPrice, capacity.value);
        remainingBudget := remainingBudget - capacity.value * band.unitPrice;
      }
      quantity := quantity + capacity.value;
      consumed := consumed + capacity.value;
      i := i + 1;
    }
  }

  lemma {:induction false} FreeForever(pl: PriceList, i: int, consumed: int, budget: int)
    requires At(pl, i, consumed) && pl.bands[i].upTo.None? && pl.bands[i].unitPrice == 0 && Ladder(pl.bands)
    requires Bill(pl, pl.included + consumed) <= budget
    ensures forall q: nat :: Bill(pl, q) <= budget
  {
    forall q: nat
      ensures Bill(pl, q) <= budget
    {
      if q <= pl.included + consumed {
        BillMonotone(pl, q, pl.included + consumed);
      } else {
        BuyInBand(pl, i, consumed, q - pl.included - consumed);
      }
    }
  }

  /** The answer of the inversion is unique: it is the crossing point and nothing else is. */
  lemma {:induction false} CrossingPointUnique(pl: PriceList, budget: int, v: nat, q: nat)
    requires Ladder(pl.bands)
    ensures Bill(pl, v) <= budget < Bill(pl, v + 1) ==> (Bill(pl, q) <= budget <==> q <= v)
  {
    if q <= v {
      BillMonotone(pl, q, v);
    } else {
      BillMonotone(pl, v + 1, q);
    }
  }
}
