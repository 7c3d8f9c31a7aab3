/** Price list value objects (src/meter/domain/plans.py) and the database's publish-time
    check of the same rules (migrations/versions/0002_schema.py). Money is whole paisa. */
module Plans {
  import opened Wrappers

  /** One marginal band. `upTo` counts chargeable units cumulatively; None is unbounded. */
  datatype Band = Band(upTo: Option<int>, unitPrice: int) {
    predicate Valid() {
      unitPrice >= 0 && (upTo.Some? ==> upTo.value > 0)
    }
  }

  /** What the PriceList constructor demands of its bands. */
  predicate ValidBands(bands: seq<Band>) {
    && |bands| > 0
    && (forall i :: 0 <= i < |bands| ==> bands[i].Valid())
    && bands[|bands| - 1].upTo.None?
    && (forall i :: 0 <= i < |bands| - 1 ==> bands[i].upTo.Some?)
    && (forall i, j :: 0 <= i < j < |bands| - 1 ==> bands[i].upTo.value < bands[j].upTo.value)
  }

  datatype PriceList = PriceList(name: string, version: int, monthlyFee: int, included: int, bands: seq<Band>) {
    predicate Valid() {
      monthlyFee >= 0 && included >= 0 && version >= 0 && ValidBands(bands)
    }

    function FinalPrice(): int
      requires bands != []
    {
      bands[|bands| - 1].unitPrice
    }
  }

  // ----- The publish trigger -----

  /** A `price_bands` row as the trigger's cursor sees it. */
  datatype BandRow = BandRow(bandIndex: int, band: Band)

  datatype PublishError = BandAfterUnbounded | IndexGap | BoundsNotIncreasing | NoBands | FinalBounded

  function BandsOf(rows: seq<BandRow>): (bands: seq<Band>)
    ensures |bands| == |rows| && forall i :: 0 <= i < |rows| ==> bands[i] == rows[i].band
  {
    seq(|rows|, i requires 0 <= i < |rows| => rows[i].band)
  }

  lemma {:induction false} UnboundedIsLast(rows: seq<BandRow>, k: nat)
    requires k < |rows| - 1 && rows[k].band.upTo.None?
    ensures !ValidBands(BandsOf(rows))
  {
    assert BandsOf(rows)[k].upTo.None?;
  }

  lemma {:induction false} BoundsIncrease(rows: seq<BandRow>, k: nat)
    requires 0 < k < |rows| && rows[k - 1].band.upTo.Some? && rows[k].band.upTo.Some?
    requires rows[k].band.upTo.value <= rows[k - 1].band.upTo.value
    ensures !ValidBands(BandsOf(rows))
  {
    var bands := BandsOf(rows);
    assert bands[k - 1].upTo.Some? && bands[k].upTo.Some?;
  }

  lemma {:induction false} LadderWhen(rows: seq<BandRow>)
    requires forall i :: 0 <= i < |rows| ==> rows[i].band.Valid()
    requires forall i :: 0 <= i < |rows| - 1 ==> rows[i].band.upTo.Some?
    requires forall i, j :: 0 <= i < j < |rows| && rows[j].band.upTo.Some? ==> rows[i].band.upTo.value < rows[j].band.upTo.value
    ensures ValidBands(BandsOf(rows)) <==> rows != [] && rows[|rows| - 1].band.upTo.None?
  {
  }

  /** The trigger's cursor loop. Over rows that pass the table's own CHECK constraints it
      accepts exactly the gap-free ladders the PriceList constructor accepts, and its
      "bounds must increase" complaint is never about the unbounded final band. */
  method ValidateOnPublish(rows: seq<BandRow>) returns (r: Result<(), PublishError>)
    requires forall i :: 0 <= i < |rows| ==> rows[i].band.Valid()
    ensures r.Success? <==> ValidBands(BandsOf(rows)) && forall i :: 0 <= i < |rows| ==> rows[i].bandIndex == i
    ensures r == Failure(NoBands) <==> rows == []
    ensures r == Failure(FinalBounded) ==> forall i :: 0 <= i < |rows| ==> rows[i].band.upTo.Some?
  {
    hide ValidBands, BandsOf;
    var seen := 0;
    var previousUp: Option<int> := None;
    var unbounded := false;
    while seen < |rows|
      invariant 0 <= seen <= |rows|
      invariant forall i :: 0 <= i < seen ==> rows[i].bandIndex == i
      invariant forall i :: 0 <= i < seen - 1 ==> rows[i].band.upTo.Some?
      invariant unbounded <==> seen > 0 && rows[seen - 1].band.upTo.None?
      invariant seen == 0 ==> previousUp.None?
      invariant seen > 0 && !unbounded ==> previousUp == rows[seen - 1].band.upTo
      invariant seen > 1 && unbounded ==> previousUp == rows[seen - 2].band.upTo
      invariant forall i, j :: 0 <= i < j < seen && rows[j].band.upTo.Some?
                  ==> rows[i].band.upTo.value < rows[j].band.upTo.value
    {
      if unbounded {
        UnboundedIsLast(rows, seen - 1);
        return Failure(BandAfterUnbounded);
      }
      if rows[seen].bandIndex != seen {
        return Failure(IndexGap);
      }
      if rows[seen].band.upTo.None? {
        unbounded := true;
      } else {
        if previousUp.Some? && rows[seen].band.upTo.value <= previousUp.value {
          BoundsIncrease(rows, seen);
          return Failure(BoundsNotIncreasing);
        }
        previousUp := rows[seen].band.upTo;
      }
      seen := seen + 1;
    }
    LadderWhen(rows);
    if seen == 0 {
      return Failure(NoBands);
    }
    if !unbounded {
      return Failure(FinalBounded);
    }
    return Success(());
  }
}
