/** Band bookkeeping (src/meter/pipeline/invoicing.py:85-128): which rung of the prorated ladder
    each line of a charge came from, and how many units each rung took. */
module InvoiceBands {
  import opened Wrappers
  import opened Plans
  import opened Rating

  // ----- The ladder seen band by band -----

  /** Chargeable units below band i. */
  function Lower(bands: seq<Band>, i: nat): int
    requires ValidBands(bands) && i <= |bands| - 1
  {
    if i == 0 then 0 else bands[i - 1].upTo.value
  }

  /** How many of the first n chargeable units band i bills. */
  function Take(bands: seq<Band>, i: nat, n: nat): (take: nat)
    requires ValidBands(bands) && i < |bands|
    ensures take > 0 <==> n > Lower(bands, i)
  {
    var low := Lower(bands, i);
    if n <= low then 0 else if bands[i].upTo.None? then n - low else Min(n, bands[i].upTo.value) - low
  }

  /** The usage lines by band: the bands below n units, each with its own take. */
  function BandLines(bands: seq<Band>, i: nat, n: nat): seq<ChargeLine>
    requires ValidBands(bands) && i <= |bands|
    decreases |bands| - i
  {
    if i == |bands| || n <= Lower(bands, i) then []
    else [UsageLine(Take(bands, i, n), bands[i].unitPrice)] + BandLines(bands, i + 1, n)
  }

  /** Every rung of a list the constructor accepts prices some unit: those above the rung before it, up
      to its own bound. */
  lemma {:induction false} RungPrices(bands: seq<Band>, i: nat, k: int)
    requires ValidBands(bands) && i < |bands| && Lower(bands, i) < k && (bands[i].upTo.Some? ==> k <= bands[i].upTo.value)
    ensures Ladder(bands) && UnitPrice(bands, k) == bands[i].unitPrice
    ensures bands[i].upTo.Some? ==> Lower(bands, i) < bands[i].upTo.value
  {
    ValidBandsLadder(bands);
    UnitBeyond(bands, i, k);
  }

  lemma {:induction false} UnitBeyond(bands: seq<Band>, i: nat, k: int)
    requires ValidBands(bands) && i < |bands| && Ladder(bands) && k > Lower(bands, i)
    ensures bands[i..] != [] && Ladder(bands[i..]) && UnitPrice(bands, k) == UnitPrice(bands[i..], k)
  {
    if i == 0 {
      assert bands[0..] == bands;
    } else {
      UnitBeyond(bands, i - 1, k);
      assert bands[i - 1..][1..] == bands[i..];
    }
  }

  lemma {:induction false} UsageLinesByBand(bands: seq<Band>, i: nat, n: nat)
    requires ValidBands(bands) && i < |bands|
    ensures UsageLines(bands[i..], Lower(bands, i), n - Lower(bands, i)) == BandLines(bands, i, n)
    decreases |bands| - i
  {
    var low := Lower(bands, i);
    if n > low {
      assert bands[i..][0] == bands[i] && bands[i..][1..] == bands[i + 1..];
      var take := Take(bands, i, n);
      if i + 1 == |bands| {
        UsageLinesDone(bands[i + 1..], low + take, n - low - take);
      } else if n <= bands[i].upTo.value {
        UsageLinesDone(bands[i + 1..], low + take, n - low - take);
      } else {
        UsageLinesByBand(bands, i + 1, n);
      }
    }
  }

  lemma {:induction false} RateLinesByBand(pl: PriceList, quantity: nat)
    requires pl.Valid()
    ensures RateLines(pl, quantity) == FlatLines(pl, quantity) + BandLines(pl.bands, 0, Chargeable(pl, quantity))
  {
    assert pl.bands[0..] == pl.bands;
    UsageLinesByBand(pl.bands, 0, Chargeable(pl, quantity));
  }

  lemma {:induction false} TakeMonotone(bands: seq<Band>, i: nat, a: nat, b: nat)
    requires ValidBands(bands) && i < |bands| && a <= b
    ensures Take(bands, i, a) <= Take(bands, i, b)
  {
  }

  // ----- Band bookkeeping -----

  function UsageBefore(lines: seq<ChargeLine>, k: nat): nat
    requires k <= |lines|
  {
    if k == 0 then 0 else UsageBefore(lines, k - 1) + if lines[k - 1].kind == Usage then 1 else 0
  }

  /** Every usage line carries the price of the band it is counted to. */
  predicate PricedInOrder(lines: seq<ChargeLine>, bands: seq<Band>) {
    forall k :: 0 <= k < |lines| && lines[k].kind == Usage ==>
      UsageBefore(lines, k) < |bands| && lines[k].unitPrice == bands[UsageBefore(lines, k)].unitPrice
  }

  /** The first rung at or after the cursor with the line's price. */
  function Seek(bands: seq<Band>, cursor: nat, price: int): nat
    decreases |bands| - cursor
  {
    if cursor >= |bands| || bands[cursor].unitPrice == price then cursor else Seek(bands, cursor + 1, price)
  }

  function Indices(lines: seq<ChargeLine>, bands: seq<Band>, cursor: nat): seq<Option<nat>> {
    if lines == [] then []
    else if lines[0].kind != Usage then [None] + Indices(lines[1..], bands, cursor)
    else
      var at := Seek(bands, cursor, lines[0].unitPrice);
      [if at < |bands| then Some(at) else None] + Indices(lines[1..], bands, at + 1)
  }

  lemma {:induction false} IndicesStep(lines: seq<ChargeLine>, bands: seq<Band>, k: nat, cursor: nat)
    requires k < |lines|
    ensures Indices(lines[k..], bands, cursor)
         == if lines[k].kind != Usage then [None] + Indices(lines[k + 1..], bands, cursor)
            else [if Seek(bands, cursor, lines[k].unitPrice) < |bands| then Some(Seek(bands, cursor, lines[k].unitPrice)) else None]
                 + Indices(lines[k + 1..], bands, Seek(bands, cursor, lines[k].unitPrice) + 1)
  {
    assert lines[k..][0] == lines[k] && lines[k..][1..] == lines[k + 1..];
  }

  method BandIndices(lines: seq<ChargeLine>, bands: seq<Band>) returns (indices: seq<Option<nat>>)
    ensures indices == Indices(lines, bands, 0)
  {
    hide Indices;
    indices := [];
    var cursor := 0;
    assert lines[0..] == lines;
    for k := 0 to |lines|
      invariant indices + Indices(lines[k..], bands, cursor) == Indices(lines, bands, 0)
    {
      ghost var start := cursor;
      IndicesStep(lines, bands, k, start);
      if lines[k].kind != Usage {
        indices := indices + [None];
      } else {
        while cursor < |bands| && bands[cursor].unitPrice != lines[k].unitPrice
          invariant Seek(bands, cursor, lines[k].unitPrice) == Seek(bands, start, lines[k].unitPrice)
        {
          cursor := cursor + 1;
        }
        indices := indices + [if cursor < |bands| then Some(cursor) else None];
        cursor := cursor + 1;
      }
    }
    IndicesDone(lines, bands, cursor);
  }

  lemma {:induction false} IndicesDone(lines: seq<ChargeLine>, bands: seq<Band>, cursor: nat)
    ensures Indices(lines[|lines|..], bands, cursor) == []
  {
  }

  /** Over lines priced in order the cursor never skips a rung: the k-th usage line is band k. */
  lemma {:induction false} WalkIsByBand(lines: seq<ChargeLine>, bands: seq<Band>, k: nat, j: nat)
    requires k <= j < |lines| && PricedInOrder(lines, bands)
    ensures var found := Indices(lines[k..], bands, UsageBefore(lines, k));
            |found| == |lines| - k && found[j - k] == if lines[j].kind != Usage then None else Some(UsageBefore(lines, j))
    decreases |lines| - k
  {
    hide Indices;
    IndicesStep(lines, bands, k, UsageBefore(lines, k));
    if k == j {
      if k + 1 < |lines| {
        WalkIsByBand(lines, bands, k + 1, k + 1);
      } else {
        IndicesDone(lines, bands, UsageBefore(lines, k + 1));
      }
    } else {
      WalkIsByBand(lines, bands, k + 1, j);
    }
  }

  lemma {:induction false} UsageBeforeAppend(a: seq<ChargeLine>, b: seq<ChargeLine>, k: nat)
    requires k <= |a|
    ensures UsageBefore(a + b, k) == UsageBefore(a, k)
  {
    if k > 0 {
      UsageBeforeAppend(a, b, k - 1);
    }
  }

  lemma {:induction false} UsageBeforeAfterFlat(flat: seq<ChargeLine>, usage: seq<ChargeLine>, j: nat)
    requires forall line <- flat :: line.kind != Usage
    requires forall line <- usage :: line.kind == Usage
    requires j <= |usage|
    ensures UsageBefore(flat + usage, |flat| + j) == j
  {
    if j > 0 {
      UsageBeforeAfterFlat(flat, usage, j - 1);
      assert (flat + usage)[|flat| + j - 1] == usage[j - 1];
      assert usage[j - 1] in usage;
    } else {
      UsageBeforeAppend(flat, usage, |flat|);
      NoUsageBefore(flat, |flat|);
    }
  }

  lemma {:induction false} NoUsageBefore(lines: seq<ChargeLine>, k: nat)
    requires k <= |lines| && forall line <- lines :: line.kind != Usage
    ensures UsageBefore(lines, k) == 0
  {
    if k > 0 {
      assert lines[k - 1] in lines;
      NoUsageBefore(lines, k - 1);
    }
  }

  lemma {:induction false} BandLinesAt(bands: seq<Band>, i: nat, n: nat, j: nat)
    requires ValidBands(bands) && i <= |bands| && j < |BandLines(bands, i, n)|
    ensures i + j < |bands|
    ensures BandLines(bands, i, n)[j] == UsageLine(Take(bands, i + j, n), bands[i + j].unitPrice)
    decreases j
  {
    if j > 0 {
      BandLinesAt(bands, i + 1, n, j - 1);
    }
  }

  lemma {:induction false} FlatThenUsage(pl: PriceList, quantity: nat)
    requires pl.Valid()
    ensures forall line <- FlatLines(pl, quantity) :: line.kind != Usage
    ensures forall line <- BandLines(pl.bands, 0, Chargeable(pl, quantity)) :: line.kind == Usage
  {
    var usage := BandLines(pl.bands, 0, Chargeable(pl, quantity));
    forall line | line in usage ensures line.kind == Usage {
      var j :| 0 <= j < |usage| && usage[j] == line;
      BandLinesAt(pl.bands, 0, Chargeable(pl, quantity), j);
    }
  }

  /** A charge satisfies what the cursor walk needs. */
  lemma {:induction false} ChargePricedInOrder(pl: PriceList, quantity: nat)
    requires pl.Valid()
    ensures PricedInOrder(RateLines(pl, quantity), pl.bands)
    ensures forall k :: 0 <= k < |RateLines(pl, quantity)| ==>
      UsageBefore(RateLines(pl, quantity), k) == if k < |FlatLines(pl, quantity)| then 0 else k - |FlatLines(pl, quantity)|
  {
    var flat, usage := FlatLines(pl, quantity), BandLines(pl.bands, 0, Chargeable(pl, quantity));
    RateLinesByBand(pl, quantity);
    FlatThenUsage(pl, quantity);
    forall k | 0 <= k < |flat + usage|
      ensures UsageBefore(flat + usage, k) == if k < |flat| then 0 else k - |flat|
      ensures k >= |flat| ==> k - |flat| < |pl.bands| && (flat + usage)[k].unitPrice == pl.bands[k - |flat|].unitPrice
      ensures k < |flat| ==> (flat + usage)[k].kind != Usage
    {
      if k < |flat| {
        UsageBeforeAppend(flat, usage, k);
        NoUsageBefore(flat, k);
        assert flat[k] in flat;
      } else {
        UsageBeforeAfterFlat(flat, usage, k - |flat|);
        BandLinesAt(pl.bands, 0, Chargeable(pl, quantity), k - |flat|);
      }
    }
  }

  // ----- Units by band -----

  type ByBand = map<Option<nat>, (int, int)>

  /** What rating `quantity` bills in a band; None is the included allowance. */
  function RatedIn(pl: PriceList, quantity: nat, band: Option<nat>): nat
    requires pl.Valid()
  {
    if band.None? then Min(quantity, pl.included)
    else if band.value < |pl.bands| then Take(pl.bands, band.value, Chargeable(pl, quantity))
    else 0
  }

  function PriceIn(pl: PriceList, band: Option<nat>): int {
    if band.Some? && band.value < |pl.bands| then pl.bands[band.value].unitPrice else 0
  }

  /** The dictionary maps each band with units in it to those units and their price. */
  ghost predicate HoldsBands(found: ByBand, pl: PriceList, quantity: nat)
    requires pl.Valid()
  {
    && (forall band <- found :: Entry(found, pl, quantity, band))
    && (forall band :: RatedIn(pl, quantity, band) > 0 ==> band in found)
  }

  function FlatCount(pl: PriceList): nat {
    if pl.included > 0 then 2 else 1
  }

  /** The cursor matches prices only, yet over a charge it never skips a rung, even when several
      rungs share a price: usage line j is indexed as band j and bills that band's take. */
  lemma {:induction false} ChargeLineAt(pl: PriceList, quantity: nat, k: nat)
    requires pl.Valid() && k < |RateLines(pl, quantity)|
    ensures var lines := RateLines(pl, quantity); var indices, j := Indices(lines, pl.bands, 0), k - FlatCount(pl);
            && |indices| == |lines|
            && (k == 0 ==> lines[k].kind == Fee && indices[k].None?)
            && (0 < k < FlatCount(pl) ==> lines[k] == ChargeLine(Included, RatedIn(pl, quantity, None), 0, 0) && indices[k].None?)
            && (j >= 0 ==> j < |pl.bands| && indices[k] == Some(j) && lines[k] == UsageLine(RatedIn(pl, quantity, Some(j)), pl.bands[j].unitPrice))
  {
    hide UsageLines, Take, BandLines, ValidBands, Indices, PricedInOrder;
    var lines := RateLines(pl, quantity);
    ChargePricedInOrder(pl, quantity);
    assert lines[0..] == lines;
    WalkIsByBand(lines, pl.bands, 0, k);
    RateLinesByBand(pl, quantity);
    FlatThenUsage(pl, quantity);
    if k >= FlatCount(pl) {
      BandLinesAt(pl.bands, 0, Chargeable(pl, quantity), k - FlatCount(pl));
    }
  }

  lemma {:induction false} ChargeReaches(pl: PriceList, quantity: nat, j: nat)
    requires pl.Valid()
    ensures |RateLines(pl, quantity)| >= FlatCount(pl)
    ensures RatedIn(pl, quantity, Some(j)) > 0 ==> FlatCount(pl) + j < |RateLines(pl, quantity)|
  {
    hide UsageLines, Take;
    RateLinesByBand(pl, quantity);
    if RatedIn(pl, quantity, Some(j)) > 0 {
      BandLinesReach(pl.bands, 0, Chargeable(pl, quantity), j);
    }
  }

  method ChargeableByBand(pl: PriceList, quantity: nat) returns (found: ByBand)
    requires pl.Valid()
    ensures HoldsBands(found, pl, quantity)
  {
    hide RateLines, Indices, Take, RatedIn, PriceIn, ValidBands;
    var charge := Rate(quantity, pl);
    var lines := charge.value.lines;
    var indices := BandIndices(lines, pl.bands);
    ChargeReaches(pl, quantity, 0);
    ChargeLineAt(pl, quantity, 0);
    found := map[];
    for k := 0 to |lines|
      invariant forall band <- found :: Entry(found, pl, quantity, band)
      invariant forall band <- found :: band.Some? ==> band.value + FlatCount(pl) < k
      invariant None in found <==> pl.included > 0 && k >= 2
      invariant forall j: nat :: j + FlatCount(pl) < k ==> Some(j) in found
    {
      ChargeLineAt(pl, quantity, k);
      if lines[k].kind != Fee {
        EntryPrice(pl, indices[k]);
        var sofar := if indices[k] in found then found[indices[k]] else (0, lines[k].unitPrice);
        found := found[indices[k] := (sofar.0 + lines[k].quantity, lines[k].unitPrice)];
      }
    }
    forall band | RatedIn(pl, quantity, band) > 0 ensures band in found {
      if band.Some? {
        ChargeReaches(pl, quantity, band.value);
      } else {
        NoneRated(pl, quantity);
      }
    }
  }

  ghost predicate Entry(found: ByBand, pl: PriceList, quantity: nat, band: Option<nat>)
    requires pl.Valid() && band in found
  {
    found[band] == (RatedIn(pl, quantity, band), PriceIn(pl, band)) && (band.Some? ==> band.value < |pl.bands|)
  }

  lemma {:induction false} EntryPrice(pl: PriceList, band: Option<nat>)
    ensures PriceIn(pl, band) == if band.Some? && band.value < |pl.bands| then pl.bands[band.value].unitPrice else 0
  {
  }

  lemma {:induction false} NoneRated(pl: PriceList, quantity: nat)
    requires pl.Valid() && RatedIn(pl, quantity, None) > 0
    ensures pl.included > 0
  {
  }

  lemma {:induction false} BandLinesReach(bands: seq<Band>, i: nat, n: nat, j: nat)
    requires ValidBands(bands) && i <= j < |bands| && Take(bands, j, n) > 0
    ensures j - i < |BandLines(bands, i, n)|
    decreases j - i
  {
    if i < j {
      assert Lower(bands, i) <= Lower(bands, j);
      BandLinesReach(bands, i + 1, n, j);
    }
  }
}
