/** Invoice runs of one customer that overlap (src/meter/pipeline/invoicing.py:328-379). Each is one
    transaction, but nothing locks the customer and READ COMMITTED lets all build before any has
    committed. For different months no unique key and no trigger stops the later ones. */
module InvoiceOverlap {
  import opened Wrappers
  import opened Segments
  import opened InvoiceLines
  import opened InvoiceRuns
  import opened InvoiceLedger
  import Calendar

  /** What a run that built its draft on `read` writes into the tables as they are by then. */
  ghost function Written(plan: Plan, usage: Usage, read: Store, now: Store, month: int): Store
    requires plan.Valid() && AllAccepted(read.invoices) && Built(plan, usage, read, month).Some?
  {
    var d := Built(plan, usage, read, month).value;
    Store(Mark(now.periods, month, Invoiced), Without(now.invoices, month) + [Invoice(month, true, d.lines, d.total)])
  }

  datatype Run = Run(month: int, usage: Usage)

  /** Runs for different months, none of them issued yet: whatever they find, each will issue. */
  ghost predicate Concurrent(plan: Plan, s: Store, runs: seq<Run>)
    requires plan.Valid() && AllAccepted(s.invoices)
  {
    && (forall i :: 0 <= i < |runs| ==> Issues(plan, runs[i].usage, s, runs[i].month))
    && forall i, j :: 0 <= i < j < |runs| ==> runs[i].month != runs[j].month
  }

  /** All runs build on `s`, before any has committed; then they commit, in this order. */
  ghost function Overlapped(plan: Plan, s: Store, runs: seq<Run>): Store
    requires Inv(plan, s) && Concurrent(plan, s, runs)
    decreases |runs|
  {
    if |runs| == 0 then s
    else Written(plan, runs[|runs| - 1].usage, s, Overlapped(plan, s, runs[..|runs| - 1]), runs[|runs| - 1].month)
  }

  lemma {:induction false} FirstIsAlone(plan: Plan, s: Store, month: int, usage: Usage)
    requires Inv(plan, s) && Issues(plan, usage, s, month)
    ensures Concurrent(plan, s, [Run(month, usage)])
    ensures Overlapped(plan, s, [Run(month, usage)]) == Generated(plan, usage, s, month).0
  {
    hide Built, Conserves, Already, Accepted, Ordered;
    FindFindsIssued(s.invoices, month);
    var runs := [Run(month, usage)];
    assert |runs[..|runs| - 1]| == 0;
  }

  ghost predicate Runs(runs: seq<Run>, month: int) {
    exists i :: 0 <= i < |runs| && runs[i].month == month
  }

  lemma {:induction false} RunsOneMore(runs: seq<Run>, month: int)
    requires |runs| > 0
    ensures Runs(runs, month) <==> Runs(runs[..|runs| - 1], month) || runs[|runs| - 1].month == month
  {
    var front := runs[..|runs| - 1];
    if Runs(runs, month) && runs[|runs| - 1].month != month {
      var i :| 0 <= i < |runs| && runs[i].month == month;
      assert front[i].month == month;
    }
  }

  /** One more invoice is accepted into tables that hold none for its month. */
  lemma {:induction false} WrittenAccepted(plan: Plan, usage: Usage, s: Store, now: Store, month: int)
    requires plan.Valid() && AllAccepted(s.invoices) && Built(plan, usage, s, month).Some?
    requires AllAccepted(now.invoices) && OnePerMonth(now.invoices) && !HasIssued(now.invoices, month)
    ensures var after := Written(plan, usage, s, now, month).invoices;
            && AllAccepted(after) && OnePerMonth(after)
            && forall q :: HasIssued(after, q) <==> HasIssued(now.invoices, q) || q == month
  {
    hide Built, Formed, IssueAccepted;
    var d := Built(plan, usage, s, month).value;
    var rest, last := Without(now.invoices, month), Invoice(month, true, d.lines, d.total);
    BuildIsAccepted(plan, usage, s, month);
    WithoutOnePerMonth(now.invoices, month);
    AppendOnePerMonth(rest, last);
    assert forall i :: i in rest + [last] <==> i in rest || i == last;
  }

  /** Nothing refuses any of the invoices: all the months end issued, once each, in tables their rules
      allow. */
  lemma {:induction false} OverlapIsAccepted(plan: Plan, s: Store, runs: seq<Run>)
    requires Inv(plan, s) && Concurrent(plan, s, runs)
    ensures var after := Overlapped(plan, s, runs).invoices;
            && AllAccepted(after) && OnePerMonth(after)
            && forall q :: HasIssued(after, q) <==> HasIssued(s.invoices, q) || Runs(runs, q)
    decreases |runs|
  {
    hide Built, Conserves, Already, Accepted, Ordered, OnePerMonth, Written, HasIssued, Runs;
    if |runs| == 0 {
      assert forall q :: !Runs(runs, q) by { NoRuns(runs); }
    } else {
      var front, last := runs[..|runs| - 1], runs[|runs| - 1];
      OverlapIsAccepted(plan, s, front);
      NotYet(runs);
      WrittenAccepted(plan, last.usage, s, Overlapped(plan, s, front), last.month);
      forall q ensures Runs(runs, q) <==> Runs(front, q) || q == last.month {
        RunsOneMore(runs, q);
      }
    }
  }

  lemma {:induction false} NoRuns(runs: seq<Run>)
    requires |runs| == 0
    ensures forall q :: !Runs(runs, q)
  {
  }

  lemma {:induction false} NotYet(runs: seq<Run>)
    requires |runs| > 0 && forall i, j :: 0 <= i < j < |runs| ==> runs[i].month != runs[j].month
    ensures !Runs(runs[..|runs| - 1], runs[|runs| - 1].month)
  {
  }

  // ----- What they bill -----

  ghost function SumAdded(plan: Plan, s: Store, runs: seq<Run>, p: int, id: nat, m: Measure): int
    requires plan.Valid() && AllAccepted(s.invoices)
    decreases |runs|
  {
    if |runs| == 0 then 0
    else SumAdded(plan, s, runs[..|runs| - 1], p, id, m)
         + Added(plan, runs[|runs| - 1].usage, s, runs[|runs| - 1].month, p, id, m)
  }

  /** Each bills what it would have billed alone. */
  lemma {:induction false} OverlapAdds(plan: Plan, s: Store, runs: seq<Run>, p: int, id: nat, m: Measure)
    requires Inv(plan, s) && Concurrent(plan, s, runs)
    ensures Billed(Overlapped(plan, s, runs).invoices, p, id, m) == Billed(s.invoices, p, id, m) + SumAdded(plan, s, runs, p, id, m)
    decreases |runs|
  {
    hide Built, Accepted, Conserves, Already, Added, Tally, Ordered, Billed, OnePerMonth, Runs, HasIssued;
    if |runs| > 0 {
      var front, last := runs[..|runs| - 1], runs[|runs| - 1];
      OverlapAdds(plan, s, front, p, id, m);
      OverlapIsAccepted(plan, s, front);
      NotYet(runs);
      WrittenAdds(plan, last.usage, s, Overlapped(plan, s, front), last.month, p, id, m);
    }
  }

  lemma {:induction false} WrittenAdds(plan: Plan, usage: Usage, s: Store, now: Store, month: int, p: int, id: nat,
      m: Measure)
    requires Inv(plan, s) && Issues(plan, usage, s, month) && !HasIssued(now.invoices, month)
    ensures Billed(Written(plan, usage, s, now, month).invoices, p, id, m)
         == Billed(now.invoices, p, id, m) + Added(plan, usage, s, month, p, id, m)
  {
    hide Built, Accepted, Conserves, Already, Added, Tally, Ordered;
    var d := Built(plan, usage, s, month).value;
    DraftTally(plan, usage, s, month, p, id, m);
    BilledWithout(now.invoices, month, p, id, m);
    BilledAppend(Without(now.invoices, month), Invoice(month, true, d.lines, d.total), p, id, m);
  }

  /** What the run finds of the segment beyond what the invoices it could see have billed. */
  ghost function Excess(plan: Plan, s: Store, run: Run, p: int, id: nat): nat
    requires plan.Valid() && AllAccepted(s.invoices)
  {
    if Reaches(s, run.month, p) && ListOf(plan, p, id).Some? then Max(0, QuantityOf(run.usage(p), id) - Already(s.invoices, p, id)) else 0
  }

  lemma {:induction false} AddedQuantity(plan: Plan, s: Store, run: Run, p: int, id: nat)
    requires Inv(plan, s)
    ensures Added(plan, run.usage, s, run.month, p, id, Quantity) == Excess(plan, s, run, p, id)
  {
    hide Conserves, Accepted, Rated, ListOf, Already;
    if ListOf(plan, p, id).Some? {
      RatedMeaning(ListOf(plan, p, id).value, QuantityOf(run.usage(p), id), None);
      RatedMeaning(ListOf(plan, p, id).value, Already(s.invoices, p, id), None);
    }
  }

  ghost function SumExcess(plan: Plan, s: Store, runs: seq<Run>, p: int, id: nat): nat
    requires plan.Valid() && AllAccepted(s.invoices)
    decreases |runs|
  {
    if |runs| == 0 then 0
    else SumExcess(plan, s, runs[..|runs| - 1], p, id) + Excess(plan, s, runs[|runs| - 1], p, id)
  }

  /** How many of the runs find late usage of the segment. */
  ghost function Exceeding(plan: Plan, s: Store, runs: seq<Run>, p: int, id: nat): nat
    requires plan.Valid() && AllAccepted(s.invoices)
    decreases |runs|
  {
    if |runs| == 0 then 0
    else Exceeding(plan, s, runs[..|runs| - 1], p, id) + if Excess(plan, s, runs[|runs| - 1], p, id) > 0 then 1 else 0
  }

  /** The most requests of the segment that were billed before or that a run reaching it saw. */
  ghost function Peak(plan: Plan, s: Store, runs: seq<Run>, p: int, id: nat): nat
    requires plan.Valid() && AllAccepted(s.invoices)
    decreases |runs|
  {
    if |runs| == 0 then Already(s.invoices, p, id)
    else
      var last := runs[|runs| - 1];
      Max(Peak(plan, s, runs[..|runs| - 1], p, id),
          if Reaches(s, last.month, p) && ListOf(plan, p, id).Some? then QuantityOf(last.usage(p), id) else 0)
  }

  lemma {:induction false} ExcessesAdded(plan: Plan, s: Store, runs: seq<Run>, p: int, id: nat)
    requires Inv(plan, s)
    ensures SumAdded(plan, s, runs, p, id, Quantity) == SumExcess(plan, s, runs, p, id)
    decreases |runs|
  {
    hide Conserves, Accepted, Added, Already, ListOf, Ordered, OnePerMonth, QuantityOf, Reaches;
    if |runs| > 0 {
      ExcessesAdded(plan, s, runs[..|runs| - 1], p, id);
      AddedQuantity(plan, s, runs[|runs| - 1], p, id);
    }
  }

  lemma {:induction false} ExcessAbovePeak(plan: Plan, s: Store, runs: seq<Run>, p: int, id: nat)
    requires plan.Valid() && AllAccepted(s.invoices)
    ensures var sum, above := SumExcess(plan, s, runs, p, id), Peak(plan, s, runs, p, id) - Already(s.invoices, p, id);
            && sum >= above >= 0
            && (above > 0 <==> Exceeding(plan, s, runs, p, id) > 0)
            && (sum > above <==> Exceeding(plan, s, runs, p, id) > 1)
    decreases |runs|
  {
    hide Accepted, Already, ListOf, QuantityOf, Reaches, Plan.Valid;
    if |runs| > 0 {
      ExcessAbovePeak(plan, s, runs[..|runs| - 1], p, id);
    }
  }

  /** Overlapping runs bill requests of a segment more than once exactly where at least two of them find
      late usage: each bills its own excess over what was billed before, so together they pass the most
      any of them saw. Two runs pass it by the smaller of their excesses. */
  lemma {:induction false} OverlapBillsTwiceExactly(plan: Plan, s: Store, runs: seq<Run>, p: int, id: nat)
    requires Inv(plan, s) && Concurrent(plan, s, runs)
    ensures AllAccepted(Overlapped(plan, s, runs).invoices)
    ensures var billed, peak := Already(Overlapped(plan, s, runs).invoices, p, id), Peak(plan, s, runs, p, id);
            && billed == Already(s.invoices, p, id) + SumExcess(plan, s, runs, p, id) >= peak
            && (billed > peak <==> Exceeding(plan, s, runs, p, id) > 1)
            && (|runs| == 2 ==> billed == peak + Min(Excess(plan, s, runs[0], p, id), Excess(plan, s, runs[1], p, id)))
  {
    hide Conserves, Ordered, OnePerMonth, Overlapped, Concurrent, SumAdded, SumExcess, Exceeding, Peak, Excess, Runs,
         Accepted;
    OverlapIsAccepted(plan, s, runs);
    OverlapAdds(plan, s, runs, p, id, Quantity);
    ExcessesAdded(plan, s, runs, p, id);
    ExcessAbovePeak(plan, s, runs, p, id);
    if |runs| == 2 {
      PairExcess(plan, s, runs, p, id);
    }
  }

  lemma {:induction false} PairExcess(plan: Plan, s: Store, runs: seq<Run>, p: int, id: nat)
    requires plan.Valid() && AllAccepted(s.invoices) && |runs| == 2
    ensures var one, two := Excess(plan, s, runs[0], p, id), Excess(plan, s, runs[1], p, id);
            && SumExcess(plan, s, runs, p, id) == one + two
            && Peak(plan, s, runs, p, id) == Already(s.invoices, p, id) + Max(one, two)
  {
    hide Accepted, Already, ListOf, QuantityOf, Reaches, Plan.Valid;
    var front := runs[..|runs| - 1];
    assert |front| == 1 && front[0] == runs[0] && |front[..0]| == 0;
    assert SumExcess(plan, s, front[..|front| - 1], p, id) == 0;
    assert SumExcess(plan, s, front, p, id) == Excess(plan, s, runs[0], p, id);
    assert Peak(plan, s, front[..|front| - 1], p, id) == Already(s.invoices, p, id);
    assert Peak(plan, s, front, p, id) == Already(s.invoices, p, id) + Excess(plan, s, runs[0], p, id);
  }

  lemma {:induction false} TwoMonthsDue(usage: Usage, p: int, issued: Store) returns (s: Store)
    requires p >= Calendar.EPOCH_MONTH && FlatPlan().Valid() && Inv(FlatPlan(), issued) && Period(p, Invoiced) in issued.periods
    requires !HasIssued(issued.invoices, p + 1) && !HasIssued(issued.invoices, p + 2)
    ensures Inv(FlatPlan(), s) && s.invoices == issued.invoices && Period(p, Invoiced) in s.periods
    ensures Issues(FlatPlan(), usage, s, p + 1) && Issues(FlatPlan(), usage, s, p + 2)
  {
    hide FlatPlan, Inv, HasIssued, Issues, AllAccepted, Plan.Valid;
    var middle := MonthDue(usage, issued, p + 1);
    s := MonthDue(usage, middle, p + 2);
    StillDue(usage, middle, s, p + 1);
  }

  lemma {:induction false} StillDue(usage: Usage, s: Store, later: Store, month: int)
    requires month >= Calendar.EPOCH_MONTH && FlatPlan().Valid() && Inv(FlatPlan(), s) && Inv(FlatPlan(), later)
    requires Issues(FlatPlan(), usage, s, month) && later.invoices == s.invoices && forall q <- s.periods :: q in later.periods
    ensures Issues(FlatPlan(), usage, later, month)
  {
    hide FlatPlan, Conserves, Already, Accepted, Built, Ordered, HasIssued, OnePerMonth;
    BuiltHasPeriod(FlatPlan(), usage, s, month);
    FlatBuilt(usage, later, month);
  }

  lemma {:induction false} BothBillIt(plan: Plan, usage: Usage, s: Store, runs: seq<Run>, p: int)
    requires Inv(plan, s) && Concurrent(plan, s, runs)
    requires |runs| == 2 && runs[0] == Run(p + 1, usage) && runs[1] == Run(p + 2, usage)
    requires Period(p, Invoiced) in s.periods && ListOf(plan, p, 1).Some?
    requires Already(s.invoices, p, 1) == 0 && QuantityOf(usage(p), 1) == 1
    ensures AllAccepted(Overlapped(plan, s, runs).invoices) && Already(Overlapped(plan, s, runs).invoices, p, 1) == 2
  {
    hide Conserves, Ordered, OnePerMonth, Accepted, Already, ListOf, QuantityOf, Concurrent, Overlapped, Plan.Valid,
         Peak, SumExcess, Exceeding;
    OverlapBillsTwiceExactly(plan, s, runs, p, 1);
    assert Excess(plan, s, runs[0], p, 1) == 1 && Excess(plan, s, runs[1], p, 1) == 1;
    PairExcess(plan, s, runs, p, 1);
  }

  lemma {:induction false} PairConcurrent(plan: Plan, s: Store, one: Run, two: Run)
    requires Inv(plan, s) && one.month != two.month
    requires Issues(plan, one.usage, s, one.month) && Issues(plan, two.usage, s, two.month)
    ensures Concurrent(plan, s, [one, two])
  {
    hide Issues, Accepted, Plan.Valid, Conserves, Ordered, OnePerMonth, Already;
  }

  lemma {:induction false} TwoMonthsBillIt(idle: Usage, usage: Usage, p: int) returns (s: Store, runs: seq<Run>)
    requires p >= Calendar.EPOCH_MONTH && QuantityOf(idle(p), 1) == 0 && QuantityOf(usage(p), 1) == 1
    ensures FlatPlan().Valid() && Inv(FlatPlan(), s) && Concurrent(FlatPlan(), s, runs)
    ensures |runs| == 2 && runs[0].usage == runs[1].usage == usage
    ensures AllAccepted(Overlapped(FlatPlan(), s, runs).invoices) && Already(Overlapped(FlatPlan(), s, runs).invoices, p, 1) == 2
  {
    hide FlatPlan, Inv, Already, ListOf, QuantityOf, Issues, Overlapped, Concurrent, AllAccepted, HasIssued, Plan.Valid;
    var issued, _ := FirstInvoice(idle, p);
    s := TwoMonthsDue(usage, p, issued);
    var one, two := Run(p + 1, usage), Run(p + 2, usage);
    runs := [one, two];
    PairConcurrent(FlatPlan(), s, one, two);
    BothBillIt(FlatPlan(), usage, s, runs, p);
  }

  /** January is invoiced and then gains one late request. February and March, run together, both
      bill it. */
  lemma {:induction false} LateRequestBilledTwice() returns (plan: Plan, s: Store, runs: seq<Run>, p: int)
    ensures Inv(plan, s) && Concurrent(plan, s, runs) && |runs| == 2
    ensures AllAccepted(Overlapped(plan, s, runs).invoices)
    ensures QuantityOf(runs[0].usage(p), 1) == QuantityOf(runs[1].usage(p), 1) == 1
    ensures Already(Overlapped(plan, s, runs).invoices, p, 1) == 2
  {
    hide FlatPlan, Inv, Already, QuantityOf, Overlapped, Concurrent, AllAccepted, Plan.Valid;
    p := Calendar.EPOCH_MONTH;
    var usage: Usage, idle: Usage := _ => map[1 := 1], _ => map[];
    UsageOfOne(usage, idle, p);
    plan := FlatPlan();
    s, runs := TwoMonthsBillIt(idle, usage, p);
  }
}
