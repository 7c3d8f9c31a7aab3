# A model of the usage-metering service

The service serves an API, counts every billable request, prices the counts on versioned price lists and invoices them
monthly. This project models what decides whether a customer is billed correctly, and proves it for all inputs, and for all
interleavings and histories of the steps it models; "Left out" says which steps the service divides further.

Money is whole paisa in unbounded integers, instants are UTC seconds, local dates are day numbers, months are
`12 * year + month - 1`. Redis commands and committed SQL statements are single atomic steps. Code that the service
writes as loops and updates is written here as methods, loops and classes, each proved against a specification; the
results are lemmas about those specifications.

## How it fits together

- **Capture and drain.** `Pipeline` is a step machine: the stream, the consumer group, the row table, the counters, and
  consumers that may crash between any two steps. `Drain` is the worker, a class over that machine. `Rollups` adds the
  aggregation passes, `DirtyCells` a pass whose read, aggregation and clear are three steps of a running system.
- **Requests.** `Metering` is one request: the gate before the handler and the capture before the answer. `Requests` is
  many at once, with the concurrency bound, which `Thresholds` turns into rupees. `AuthCache` is the two-age key cache.
- **Pricing.** `Plans`, `Rating`, `Proration`, `Calendar` and `Segments` build a bill. Its reference meaning is unit by
  unit: chargeable unit k costs the price of the band that covers k. `Thresholds` inverts the bill.
- **Invoices.** `InvoiceBands`, `InvoiceLines`, `InvoiceRuns`, `InvoiceLedger` and `InvoiceStore` carry late usage forward
  band by band and prove what all issued invoices add up to; `InvoiceTerms` is what a draft's
  lines refer to, `InvoiceOverlap` several runs at once. `Reconcile` and `Close`
  tie an invoice to the Redis counter, with the worker's other tasks running beside the close.
- **Migration.** `SqlSplitter` is the statement splitter of the schema script; `Plans` holds its publish trigger.

## Where the code differs from what is said about it

The model follows the code.

- `tests/property/test_proration.py:292-294` says of prorated lists in general that they keep their bands. The test below it
  draws full months only, and there they do (`Proration.FullMonthIsIdentity`). For part of a month the code scales the
  bounds (`Proration.HalfMonthMovesTheBands`; kept exactly when, in `Proration.BandsKeptExactly`).
- `src/meter/segments.py:104-116` says usage on a zero-day segment would be lost; it is billed at the final band's price
  (`Proration.ZeroDaysBillAtFinalPrice`).
- `src/meter/pipeline/reconcile.py:17-22` calls the counter delta minus the backlog the number that must be zero. The
  backlog is the whole stream's, so it is not zero while any other customer has one (`Reconcile.HealthyYetUnexplained`;
  exactly when, in `Reconcile.UnexplainedExact`). Convergence is not affected.
- `src/meter/pipeline/drain.py:420-424` says a pending batch is never trimmed. Its two reads and the XTRIM are separate
  commands, and one interleaving breaks it (`Pipeline.SampledLastDeliveredUnsafe`; exactly when, over the two reads, in
  `Pipeline.TrimSafeExactly`; the reads in the other order never do, `Pipeline.ReadInOrderSafe`).
- `src/meter/pipeline/aggregate.py:67-74` relies on the dirty set. A drain between aggregation and clear can leave a rollup
  short until the period is aggregated whole (`DirtyCells.ClearCanLoseARow`; exactly when, in `DirtyCells.SplitPassExactly`
  and `DirtyCells.ClearSafeExactly`).
- `src/meter/pipeline/thresholds.py:182-205` counts segment days, so a gap before the current plan can make it use the next
  plan's ladder (`Thresholds.EarlyGapShiftsTheIndex`; exactly when, in `Thresholds.CurrentSegmentExact`).
- `src/meter/pipeline/close.py:1-32` reconciles, then issues. The rollups are read again after the report, and
  the worker's drain and aggregation go on in between, so an invoice may bill requests the report did not count, or bill
  what it recorded as missing (`Close.StragglerIsBilled`; by exactly how many, in `Close.Closer.CloseCustomer`).
- `src/meter/pipeline/invoicing.py:190-200` carries late usage forward once. Runs of one customer that overlap, for
  different months, each bill what is late (`InvoiceOverlap.LateRequestBilledTwice`; exactly when and how much, in
  `InvoiceOverlap.OverlapBillsTwiceExactly`).
- `src/meter/pipeline/invoicing.py:324-326` calls an unchanged regeneration idempotent. It is refused whenever the invoice
  rolled paisa forward (`InvoiceLedger.RegenerationRefused`; exactly when, in `InvoiceLedger.RegenerateExactly`).
- `src/meter/pipeline/close.py:87` calls a close safe to re-run at any point. Re-run on an invoiced month whose total has
  changed, it leaves the month `closed`, and no later invoice picks up its late usage
  (`InvoiceLedger.RecloseExactly`, `InvoiceLedger.ClosedMonthIsStranded`, `InvoiceLedger.LateUsageCanBeStranded`).

## Model

| member | source | states |
|---|---|---|
| Pipeline.StepKeepsInv | src/meter/pipeline/drain.py:238-296 | Every action (capture, also half applied; delivery; redelivery; reclaim; dead-letter; commit; mark; ack; trim; crash) keeps the invariant: whatever is delivered and no longer pending is stored or dead-lettered, nothing pending is trimmed, each row is the row of an entry, and the counting law holds for every account |
| Pipeline.ExactlyOnce | src/meter/pipeline/drain.py:238-290 | In every run each well-formed entry is still owed by the stream or has exactly its own row, each malformed one is owed or dead-lettered, and every row comes from an entry |
| Pipeline.Conservation | src/meter/pipeline/drain.py:375-408 | In every run, over any accounts and discounting half-applied captures, counters minus rows are exactly the captured entries not yet committed; never more than outstanding, and equal exactly when every outstanding entry is one of them |
| Pipeline.BacklogExactly | src/meter/pipeline/drain.py:375-408 | Over all accounts and with no malformed entry outstanding, counters minus rows equal the backlog if and only if no pending entry has its row already |
| Pipeline.DrainedMeansStored | src/meter/pipeline/drain.py:375-408 | Outstanding zero implies every well-formed entry has its row |
| Pipeline.StepMonotone | src/meter/storage/repositories/rollups.py:80-128 | No step changes or removes a stored row, a stream entry ever added, or a dead letter |
| Pipeline.SameRowExactly | migrations/versions/0002_schema.py:404-416 | Two events are one row if and only if they carry one key in one billing period |
| Pipeline.AnythingCanFail | src/meter/pipeline/drain.py:143-190 | The runs quantified over include the bad ones: either half of any fresh capture can be lost, a malformed entry can appear, any consumer can crash and lose only its batch in hand, another can claim whatever is pending |
| Pipeline.TrimReaches | src/meter/pipeline/drain.py:410-445 | After a trim the stream starts at the last delivered entry when nothing is pending, and at the oldest pending one otherwise |
| Pipeline.TrimSafeExactly | src/meter/pipeline/drain.py:426-445 | XPENDING finds nothing, anything runs, last-delivered-id is read, anything runs, XTRIM: no such later run trims a pending entry if and only if nothing delivered between the two reads and below the second is pending at the second; so never when at most one entry was delivered between them |
| Pipeline.PendingOrigin | src/meter/pipeline/drain.py:143-190 | Over any run, what is pending was pending before or was delivered after |
| Pipeline.SampledPendingSafe | src/meter/pipeline/drain.py:431-445 | A trim point read from the pending list trims nothing pending, whatever runs before the XTRIM |
| Pipeline.ReadInOrderSafe | src/meter/pipeline/drain.py:426-445 | Were last-delivered-id read before XPENDING, no interleaving of the three commands would trim a pending entry |
| Pipeline.SampledLastDeliveredUnsafe | src/meter/pipeline/drain.py:434-445 | A trim point read from last-delivered-id after the pending list was found empty is not: a delivery in between is trimmed while pending |
| Drain.Backend.Do | src/meter/pipeline/drain.py:192-203 | Each Redis or Postgres call is one step of the machine and extends the run that led to the state |
| Drain.Backend.InsertRows | src/meter/pipeline/drain.py:292-296 | One statement stores the batch exactly as inserting its entries one by one would, and counts the new rows |
| Drain.Drain.constructor | src/meter/pipeline/drain.py:99-119 | A worker starts out recovering, with no reclaim done and no partition known |
| Drain.Drain.Read | src/meter/pipeline/drain.py:143-236 | After a restart the first batch of its own pending entries; else, once per idle interval, the first batch of abandoned ones; else the first batch of new ones. What is read becomes this consumer's and nothing else moves; recovery ends only when nothing of its own is left; an empty read means nothing is undelivered |
| Drain.Drain.Process | src/meter/pipeline/drain.py:247-290 | Dead-letters, commits, marks and only then acks the batch; the counts returned are what happened to the tables, and the partitions known grow by the months of its records |
| Drain.Drain.RunOnce | src/meter/pipeline/drain.py:238-290 | Every entry read is stored or dead-lettered when it returns and no longer pending, and what is outstanding falls by exactly the number read, which is also the number acked |
| Drain.Drain.DrainUntilEmpty | src/meter/pipeline/drain.py:359-373 | Reports as read exactly what it took off the backlog, at least its batch cap unless it ended on an empty read. With nothing pending and more batches than entries undelivered it leaves nothing outstanding and every well-formed entry stored; so does ending on an empty read, from a restart and with no entry left to another consumer |
| Drain.Drain.TrimDrained | src/meter/pipeline/drain.py:410-445 | With nothing pending, deletes every entry below the last one delivered; otherwise every entry below the oldest pending one, which stays; the number it returns is exactly the number deleted, and none of them is still owed |
| Drain.Parse | src/meter/pipeline/drain.py:247-265 | Splits a batch into the records to store and the entries to dead-letter, in order |
| Drain.ParseExactly | src/meter/pipeline/drain.py:247-265 | Every entry of a batch is a record or dead, never both: the dead ones are exactly the malformed, the records exactly the well-formed |
| Drain.FinishedSettles | src/meter/pipeline/drain.py:238-290 | The four steps after a read settle every entry of the batch |
| Drain.FirstOfIsFirst | src/meter/pipeline/drain.py:192-236 | A batch of pending entries is in order without repetition, and whatever it leaves out comes after all of it |
| Drain.OnlyMalformedDie | src/meter/pipeline/drain.py:247-265 | In every run only malformed entries are dead-lettered |
| Rollups.InsertUsageEvents | src/meter/storage/repositories/rollups.py:102-128 | Duplicates inside the batch collapse to the first, stored rows win, and the count is of new rows |
| Rollups.OneStatementIsEnough | src/meter/storage/repositories/rollups.py:80-128 | Collapsing first and inserting once equals inserting entry by entry |
| Rollups.PlanAtUnique | src/meter/storage/repositories/rollups.py:147-154 | With non-overlapping assignments the join finds the one plan covering the instant, or none |
| Rollups.GroupIsThePlan | src/meter/storage/repositories/rollups.py:135-170 | An event counts under the id and version of the plan in force at its instant, its customer, its key and its local date; under nothing if and only if no plan covers the instant or the key is unknown |
| Rollups.CellRowsExact | src/meter/storage/repositories/rollups.py:173-194 | The incremental predicate on period start, customer and UTC day bounds selects exactly the rows of the dirty cells |
| Rollups.PassExact | src/meter/storage/repositories/rollups.py:135-170 | A pass over a selection that takes all of a grain's rows or none leaves every rollup equal to its count of the rows seen so far |
| Rollups.PassWritesItsGroups | src/meter/storage/repositories/rollups.py:135-170 | A pass writes a rollup row for each group it finds an event of, even where none is billable, and leaves every other row as it is |
| Rollups.PassKeepsBooks | src/meter/pipeline/aggregate.py:67-94 | A dirty or a whole-period pass keeps the books: every row is aggregated, or its cell is dirty, or its entry is pending |
| Rollups.DrainKeepsBooks | src/meter/pipeline/drain.py:314-328 | So does every step of the drain, with captures going on |
| Rollups.RollupsCatchUp | src/meter/pipeline/aggregate.py:67-94 | After any run, once nothing is pending or dirty, every rollup equals its billable row count |
| Rollups.PeriodPassExact | src/meter/pipeline/aggregate.py:137-161 | A whole-period pass alone makes every cell of the account exact, after any run and any loss of the dirty set |
| Rollups.PeriodPassCounts | src/meter/storage/repositories/rollups.py:197-214 | The same on rollups left by any earlier passes |
| Rollups.PeriodPassTouchesOne | src/meter/storage/repositories/rollups.py:197-214 | It leaves every rollup of any other account or period as it is |
| Rollups.OrderDoesNotMatter | src/meter/pipeline/aggregate.py:67-94 | Over the same rows two whole passes commute, and a pass made twice is a pass made once |
| Rollups.TakenStaysExact | src/meter/pipeline/aggregate.py:67-94 | A grain whose rows passes have all taken keeps its billable row count through any drain steps and passes, until it gains a row |
| Rollups.RollupDeltaIsUnattributed | src/meter/storage/repositories/rollups.py:222-250 | After any run and a period pass, billable rows minus rollups are exactly the rows that no plan or no known key covers |
| Rollups.RollupDeltaExact | src/meter/storage/repositories/rollups.py:222-250 | The same for any rollups that are exact for the account |
| DirtyCells.ClearSafeExactly | src/meter/pipeline/aggregate.py:74-93 | After a clear some way of going on ends with nothing pending, nothing dirty and a rollup short if and only if a cleared cell has a billable, attributable row no pass has taken and no pending entry of its cell still to be marked |
| DirtyCells.SplitPassExactly | src/meter/pipeline/aggregate.py:67-94 | The same for a pass in any run, with any steps between reading the dirty set and aggregating and between aggregating and clearing |
| DirtyCells.StepKeepsSound | src/meter/pipeline/aggregate.py:67-94 | Every drain step and pass keeps it: each billable, attributable row is in its rollup, or its cell is dirty, or an entry of its cell is pending and still to be marked |
| DirtyCells.ClearCanLoseARow | src/meter/pipeline/aggregate.py:74-93 | A drain between the aggregation and the clear can leave nothing pending, nothing dirty and a rollup short of a row |
| Reconcile.CounterDeltaExact | src/meter/pipeline/reconcile.py:63-66 | The counter delta is the account's uncommitted entries plus its half-applied captures, and those entries are among the outstanding |
| Reconcile.UnexplainedExact | src/meter/pipeline/reconcile.py:73-81 | The unexplained part is the half-applied captures less the outstanding entries that are not the account's own uncommitted ones; without half-applied captures it is zero if and only if there are none of those |
| Reconcile.HealthyYetUnexplained | src/meter/pipeline/reconcile.py:16-22 | Nothing lost and nothing half applied, yet unexplained is not zero: another customer's backlog is enough |
| Reconcile.ConvergedExactly | src/meter/pipeline/reconcile.py:83-89 | After a period pass a report converges if and only if the stream is empty, no capture is half applied and every billable row is attributable; its rollup delta is its count of unattributed rows |
| Reconcile.DiscrepancyExact | src/meter/pipeline/close.py:101-105 | The recorded discrepancy is counter minus rollups if and only if Postgres is not ahead of Redis; when it is ahead, the rows the counter lacks plus the rows the rollups lack |
| Reconcile.TotalGrows | src/meter/storage/repositories/rollups.py:230-236 | Between any two states an account's rollups grow by exactly the billable, attributable rows that passes have taken in between |
| Reconcile.SegmentsCoverRollups | src/meter/storage/repositories/rollups.py:318-342 | The segments of a month share out its rollups completely |
| Close.DraftUsage | src/meter/pipeline/invoicing.py:136-173 | An invoice's own usage lines, the included ones with them, add up to its segments' quantities |
| Close.Closer.AggregatePeriod | src/meter/pipeline/aggregate.py:137-161 | The period pass, on rollups that other passes and drains have left behind, makes the account exact |
| Close.Closer.ReconcileMonth | src/meter/pipeline/reconcile.py:113-154 | The report holds the counter, rows, rollups, unattributed rows and backlog of the present state |
| Close.Closer.Poll | src/meter/pipeline/close.py:175-180 | Moves no counter and no captured entry. With nothing pending and more batches than entries undelivered it ends with nothing outstanding and every well-formed entry stored under its own key; if also no capture of the account is half applied and each of its requests is attributable, the report converges on the counter held before |
| Close.Closer.Converge | src/meter/pipeline/close.py:165-185 | Drains, aggregates and reconciles until the report converges or the deadline has passed, never longer, while others capture, drain and aggregate; the report is of the state left behind. From a quiet start it converges on the first poll, on the counter held at the call |
| Close.Closer.Others | src/meter/pipeline/worker.py:125-141 | Whatever the other tasks do, on this drain or another, rows stay, and the rollups stay exact for what passes have taken |
| Close.Closer.SegmentUsage | src/meter/storage/repositories/rollups.py:318-342 | Per assignment, the sum of the month's rollups |
| Close.Closer.IssueMonth | src/meter/pipeline/invoicing.py:312-379 | A newly issued invoice bills as its own usage exactly the month's rollups as they are at the issue, whatever passes have made them |
| Close.Closer.CloseCustomer | src/meter/pipeline/close.py:77-162 | With anything running between the report and the issue: a new invoice's usage is the rollups reported plus the billable rows aggregated since; usage and recorded discrepancy exceed the reported counter by exactly those rows if and only if Postgres was not ahead, so equal it if and only if there are none; a converged report has no discrepancy; no issued invoice changes. From a quiet start and with nothing in between, a new invoice bills exactly the counter held at the call |
| Close.StragglerIsBilled | src/meter/pipeline/close.py:96-138 | A concrete run: one request, committed and aggregated after the report, is billed both after a converged report that did not count it and on top of a discrepancy that did |
| Plans.ValidateOnPublish | migrations/versions/0002_schema.py:925-976 | The trigger's loop accepts exactly the gap-free, correctly indexed ladders the PriceList constructor accepts, and names the empty and the bounded ladder as such |
| Rating.Rate | src/meter/domain/rating.py:65-128 | Fails only on a negative quantity; otherwise returns the list's name and version, the fee line, the allowance line if there is an allowance, then the band walk's usage lines, and their sum |
| Rating.UsageLinesTile | src/meter/domain/rating.py:97-120 | Written out per unit, the usage lines are units consumed+1 to consumed+remaining, once each, in order, at each unit's own band price; no line is empty |
| Rating.UsageLinesCost | src/meter/domain/rating.py:97-120 | The usage lines cost what their units cost one by one |
| Rating.RateTotal | src/meter/domain/rating.py:65-128 | A charge's total is the fee plus the price of each chargeable unit |
| Rating.BillStep | src/meter/domain/rating.py:65-128 | One more request adds exactly its own band's price, nothing inside the allowance |
| Rating.BillMonotone | src/meter/domain/rating.py:65-128 | The bill never falls as the quantity grows |
| Rating.MaxQuantityWithin | src/meter/domain/rating.py:131-173 | Fails if and only if no quantity exceeds the budget; a fee above the budget gives zero; otherwise the result is affordable and one more is not |
| Rating.CrossingPointUnique | src/meter/domain/rating.py:131-173 | That result is the only one: a quantity is affordable if and only if it is at most the result |
| Proration.ProrateFee | src/meter/domain/proration.py:80-86 | The floor of the fee's share of the month, between 0 and the fee |
| Proration.ProrateAllowance | src/meter/domain/proration.py:89-96 | The ceiling of the allowance's share of the month, between 0 and the allowance |
| Proration.CoveringSharesBound | src/meter/domain/proration.py:80-110 | However N segments cover a month, fees fall short by 0 to N-1 paisa and allowances and band bounds exceed by 0 to N-1 |
| Proration.ProratedBands | src/meter/domain/proration.py:113-136 | The loop keeps the scaled rungs that still have width |
| Proration.Prorate | src/meter/domain/proration.py:139-155 | Fails exactly on a month length outside 28 to 31 or days outside the month, and says which; otherwise the fee is the floor and the allowance the ceiling of its share, name, version and final price are kept, and the PriceList constructor accepts the result |
| Proration.ProratedUnitPrice | src/meter/domain/proration.py:99-136 | Unit k of a prorated ladder costs what the first band of the original whose share of the bound lies above k-1 charges, however many rungs lose their width |
| Proration.CoveringListsBound | src/meter/domain/proration.py:139-155 | Over the N prorated lists of a covered month, the fees sum to the whole fee or up to N-1 paisa less, the allowances to the whole allowance or up to N-1 more |
| Proration.ProratedShares | src/meter/domain/proration.py:139-155 | The shares of a prorated list, on its own fields: fee rounded down, allowance rounded up |
| Proration.ProratedValid | src/meter/domain/proration.py:139-155 | A prorated list is valid and keeps its final price |
| Proration.DroppedRungsChangeNothing | src/meter/domain/proration.py:113-136 | At every quantity a prorated list bills the very lines of the scaled ladder with all its rungs |
| Proration.FullMonthIsIdentity | src/meter/domain/proration.py:139-155 | A full month returns the list unchanged |
| Proration.BandsKeptExactly | src/meter/domain/proration.py:113-155 | Proration leaves the bands as they are if and only if every bound times the days left out is less than the days of the month |
| Proration.HalfMonthMovesTheBands | src/meter/domain/proration.py:113-155 | A concrete ladder whose bound of 30 becomes 15 at 15 of 30 days |
| Proration.ZeroDaysBillAtFinalPrice | src/meter/segments.py:104-116 | A zero-day segment bills all its usage at the final band's price and nothing else |
| Proration.RatePeriod | src/meter/domain/proration.py:268-319 | Succeeds if and only if there are segments, of one month, that fit in it; each is charged the floored fee and the ceiled allowance of its own list, rated on that list, and the total is the sum of the unit-by-unit bills |
| Calendar.InstantInOnePeriod | src/meter/billing_calendar.py:70-78 | An instant lies in exactly the billing period its period start names |
| Calendar.DayInOnePeriod | src/meter/pipeline/aggregate.py:47-64 | A local date is one 24-hour span of instants, all in one period |
| Calendar.MonthFrom | src/meter/billing_calendar.py:35-50 | The month found for a date starts on or before it and ends after it |
| Calendar.WholeDaysBetween | src/meter/billing_calendar.py:81-90 | The difference of the two local dates, or zero when the end is on no later date than the start |
| Calendar.WholeDaysAreOwned | src/meter/billing_calendar.py:81-90 | That is the number of local dates from the start's up to, not including, the end's; a span cut in two owns the same dates in its parts |
| Calendar.KarachiBoundaries | src/meter/billing_calendar.py:29-50 | A month starts five hours before its UTC date does; July 2026 at 2026-06-30 19:00 UTC, and the second before is the day before |
| Calendar.GregorianCycle | src/meter/billing_calendar.py:46-68 | The calendar repeats after 400 years of 146097 days |
| Calendar.YearStart | src/meter/billing_calendar.py:46-68 | The day number of any first of January in closed form, counted from 1970 |
| Calendar.TwelveLengths | src/meter/billing_calendar.py:66-68 | The twelve lengths of a year, February by the Gregorian leap rule |
| Segments.ClippedLaid | src/meter/storage/repositories/periods.py:232-274 | Clipped assignments are non-empty, in order, without overlap and inside the period, each a clip of its own row |
| Segments.ClipOwns | src/meter/storage/repositories/periods.py:232-274 | The whole days of a clipped assignment are the number of local dates of the month that its row owns |
| Segments.TimelineDays | src/meter/billing_calendar.py:81-90 | Whole local days of a month's assignments total at most its days, and exactly its days when there is no gap |
| Segments.GaplessExactly | src/meter/storage/repositories/periods.py:242-244 | Without a gap means that every instant of the period lies in one of the spans |
| Segments.Resolve | src/meter/segments.py:67-127 | One segment per clipped assignment, with the price list of its own version unchanged, its whole days, the days of the month, and the usage recorded under its id |
| Segments.ResolvedFits | src/meter/domain/proration.py:286-298 | What resolve returns rate_period never rejects |
| Thresholds.TallyElsewhere | src/meter/pipeline/thresholds.py:133-145 | Fees, usage charges and usage of the other segments add up to their unit-by-unit bills |
| Thresholds.Compute | src/meter/pipeline/thresholds.py:104-179 | Fails only without a segment, or when no quantity reaches the limit; otherwise the published value, sentinel included, refuses a counter exactly when one more request here would push the period over the limit; the sentinel is published exactly when the fees of all segments alone exceed it |
| Thresholds.ThresholdExact | src/meter/pipeline/thresholds.py:147-154 | The budget left by the other segments, inverted on the current ladder, yields that exact value |
| Thresholds.CurrentSegmentIndex | src/meter/pipeline/thresholds.py:182-205 | The loop picks by counting segment days past the elapsed ones |
| Thresholds.PickExactly | src/meter/pipeline/thresholds.py:182-205 | It never picks a segment without days while another has some; before the period it picks the first with days, and from its end on the one that holds the last elapsed day or the last with days |
| Thresholds.CurrentSegmentExact | src/meter/pipeline/thresholds.py:182-205 | The pick is the segment owning the local date if and only if the gap days before it do not carry the date past its end, or no later segment has days |
| Thresholds.CurrentSegmentGapless | src/meter/pipeline/thresholds.py:182-205 | Without gaps the pick is always right |
| Thresholds.EarlyGapShiftsTheIndex | src/meter/pipeline/thresholds.py:194-205 | With an early gap it can name the next plan |
| Thresholds.OvershootBound | src/meter/api/metering.py:289-316 | A counter at most extra past an exact threshold leaves a bill at most extra dearest requests over the limit |
| Metering.BillableExactly | src/meter/api/metering.py:96-115 | Success and client errors are billable, except 401, 402 and 403; each outcome name, status by status; the middleware's own refusals never are |
| Metering.BillablePathsExactly | src/meter/api/metering.py:62-66 | Every path is billable but /v1/usage, /v1/invoices and what lies under them |
| Metering.Gate | src/meter/api/metering.py:221-341 | A request passes if and only if its key is live, counters are authoritative, the stream has room and, on a billable path, the counter is below the threshold; 401, 402 and 503 otherwise, each exactly when and for which reason |
| Metering.ComparisonIsTheBill | src/meter/api/metering.py:306-316 | On an exact threshold the two-integer comparison refuses exactly when one more request would exceed the rupee limit |
| Metering.Exchange.constructor | src/meter/api/metering.py:343-345 | A fresh exchange has sent nothing and captured nothing |
| Metering.Exchange.OnMessage | src/meter/api/metering.py:346-392 | A billable answer leaves only after its entry and increment are acknowledged; otherwise the client is refused and the handler's response discarded; anything else passes and moves no counter |
| Requests.CaptureIsNeverBlocked | src/meter/api/metering.py:343-345 | An admitted request's key is still its own when it captures |
| Requests.NoRequestIsStuck | src/meter/api/metering.py:221-402 | At every stage of a request something can happen to it, it can die at any time, and a free slot takes any new one |
| Requests.StepKeepsApi | src/meter/api/metering.py:221-402 | Arrivals, checks, gate reads, captures, answers, crashes and the drain's steps keep every request sound |
| Requests.EveryAnswerHasItsReason | src/meter/api/metering.py:221-402 | 503 at the check exactly when the stream is deeper than its maximum; 402 exactly when a billable request finds its counter at the threshold or the limit unsatisfiable; a captured answer exactly when its capture was acknowledged; the counter and the stream move as the attempt says, and no other step moves them |
| Requests.AnsweredMeansCaptured | src/meter/api/metering.py:346-392 | In every run each billable answer that left has its own entry, the only one with its key, and the counter has risen at least once for each |
| Requests.CounterBound | src/meter/api/metering.py:289-316 | With at most C requests in progress, a counter that starts below its threshold T never passes T + C - 1 |
| Requests.BillBound | src/meter/api/metering.py:289-316 | The bill then never exceeds the limit by more than C - 1 of the dearest requests |
| Requests.StreamBound | src/meter/api/metering.py:281-287 | The stream never outgrows its maximum, or its starting depth, by more than the requests in progress |
| InvoiceBands.BandIndices | src/meter/pipeline/invoicing.py:88-110 | The cursor walk over a charge's lines |
| InvoiceBands.WalkIsByBand | src/meter/pipeline/invoicing.py:88-110 | Over lines priced in band order the walk skips no rung: the k-th usage line is band k |
| InvoiceBands.ChargeLineAt | src/meter/pipeline/invoicing.py:88-110 | On any charge, line by line: fee, allowance, then band j indexed j with that band's take, even when rungs share a price |
| InvoiceBands.ChargeableByBand | src/meter/pipeline/invoicing.py:113-128 | Exactly the bands with units in them, each with those units and its price |
| InvoiceBands.RungPrices | src/meter/domain/rating.py:97-120 | A unit above the bound of the band before and within its own costs that band's price |
| InvoiceLines.RatedMeaning | src/meter/pipeline/invoicing.py:190-200 | Rating a quantity once bills each request once, costs the unit-by-unit bill less the fee, and puts each band's take in that band |
| InvoiceLines.CurrentPeriodLines | src/meter/pipeline/invoicing.py:136-173 | Fails only without segments or when they do not fit a month; otherwise the segments' lines in order and the period's unit-by-unit bill |
| InvoiceLines.SegmentTally | src/meter/pipeline/invoicing.py:136-173 | A segment's lines bill its usage rated once, and nothing of any other segment or period |
| InvoiceLines.CurrentTally | src/meter/pipeline/invoicing.py:136-173 | So do all the lines of the period, segment by segment |
| InvoiceLines.CurrentLinesFormed | src/meter/pipeline/invoicing.py:155-172 | Lines are numbered on, each amount is quantity times price, and together they are the period's bill |
| InvoiceLines.BandDelta | src/meter/pipeline/invoicing.py:254-282 | One band's late units at that band's price, or no line |
| InvoiceLines.PriorSegmentLines | src/meter/pipeline/invoicing.py:231-282 | Nothing when no more is used than billed; otherwise a line per band reached by the late requests, allowance last |
| InvoiceLines.LateTally | src/meter/pipeline/invoicing.py:190-200 | Late lines bill exactly the difference between rating the whole quantity and rating what was billed, paisa for paisa and band for band |
| InvoiceRuns.PlanFits | src/meter/segments.py:67-127 | A month's segments are always ratable, distinct and fit the month, whatever the usage |
| InvoiceRuns.ListOfRow | src/meter/segments.py:113-127 | A segment is billed on the price list of the assignment in force under its id, prorated over the local dates of the month that assignment owns; it exists if and only if there is one |
| InvoiceRuns.PriorTally | src/meter/pipeline/invoicing.py:190-288 | Over the earlier periods, each invoiced one is caught up and no other is touched |
| InvoiceRuns.BuildIsAccepted | migrations/versions/0002_schema.py:817-843 | Every invoice build returns has lines numbered from 1, amounts that are products and a total that is their sum, so the issue trigger and the row checks never reject it |
| InvoiceTerms.DraftCites | src/meter/pipeline/invoicing.py:136-282 | Every line of a draft cites an assignment in force in the month it bills and that assignment's version; late lines, and no others, name an earlier invoiced month |
| InvoiceTerms.DraftReportsItsLateRequests | src/meter/pipeline/invoicing.py:190-309 | The late requests a draft reports are the sum of its late lines' quantities |
| InvoiceTerms.DraftSplitsItsTotal | src/meter/pipeline/invoicing.py:291-309 | Its rolled-forward total is what its late lines charge, its period total what all the others do |
| InvoiceLedger.IssueBills | src/meter/storage/repositories/invoices.py:229-264 | After an issue the billed quantity of a reached segment is the larger of what was billed and what the rollups say; of any other it is unchanged |
| InvoiceLedger.StepKeepsInv | src/meter/pipeline/close.py:85-136 | Every change of the tables, an issue and a draft left by an interrupted run included, keeps the ledger invariant |
| InvoiceLedger.BilledAsRatedOnce | src/meter/pipeline/invoicing.py:190-288 | Over any history, all issued invoices together bill a segment exactly as rating its billed quantity once, in requests, paisa and every band, on the price list of the assignment in force under its id, prorated over the days of the month it owns; without such an assignment they bill nothing |
| InvoiceLedger.BilledIsThePeak | src/meter/pipeline/invoicing.py:208-229 | That quantity is the largest rollup total any billing run saw |
| InvoiceLedger.IssuedForever | migrations/versions/0002_schema.py:752-815 | No history changes or removes an issued invoice, and no two invoices are of one month |
| InvoiceLedger.RegenerateExactly | src/meter/pipeline/invoicing.py:340-363 | Regenerating at once succeeds if and only if the invoice rolled no paisa forward; otherwise it is refused with the period's own total |
| InvoiceLedger.RegenerationRefused | src/meter/pipeline/invoicing.py:340-363 | A concrete history after which an invoice is issued and its immediate, unchanged regeneration is refused with a smaller total |
| InvoiceLedger.PriorTotalAtLeast | src/meter/pipeline/invoicing.py:190-288 | An invoice rolls forward at least what the late usage of any one segment of an earlier invoiced month costs |
| InvoiceLedger.RecloseExactly | src/meter/pipeline/close.py:118-150 | Closing an invoiced month again restores its status if and only if its rebuilt total is the issued one; otherwise it stays closed |
| InvoiceLedger.ClosedMonthIsStranded | src/meter/pipeline/invoicing.py:205-215 | An issued month not marked invoiced is billed nothing more, however long the history, until a regeneration of it succeeds |
| InvoiceLedger.LateUsageCanBeStranded | src/meter/pipeline/close.py:118-150 | A concrete history in which a late request is never billed |
| InvoiceLedger.GenerateEffects | src/meter/pipeline/invoicing.py:312-379 | Every run is refused with nothing written, or ends with the month issued and marked invoiced |
| InvoiceOverlap.OverlapAdds | src/meter/pipeline/invoicing.py:328-379 | Any number of runs for different months that built on the same tables each bill what they would have billed alone, on every measure |
| InvoiceOverlap.OverlapIsAccepted | migrations/versions/0002_schema.py:752-843 | No row check, issue trigger or unique key refuses any of them: all their months end issued, once each |
| InvoiceOverlap.OverlapBillsTwiceExactly | src/meter/pipeline/invoicing.py:208-229 | They bill of a segment what was billed before and every run's excess over it; that is more than was billed before or any of them saw if and only if at least two find an excess; two runs pass it by the smaller of theirs |
| InvoiceOverlap.LateRequestBilledTwice | src/meter/pipeline/invoicing.py:328-379 | A concrete store and two runs that bill one late request twice |
| InvoiceOverlap.FirstIsAlone | src/meter/pipeline/invoicing.py:328-379 | A single run, overlapping none, leaves the tables exactly as generate does |
| InvoiceStore.Ledger.PriorPeriodLines | src/meter/pipeline/invoicing.py:190-288 | The loops over earlier periods and their segments, with the paisa and requests they add |
| InvoiceStore.Ledger.Build | src/meter/pipeline/invoicing.py:291-309 | The draft, or nothing without a period row or a plan |
| InvoiceStore.Ledger.Issue | src/meter/storage/repositories/invoices.py:148-158 | Adds one issued invoice; what the trigger demands is what its caller must have shown |
| InvoiceStore.Ledger.Generate | src/meter/pipeline/invoicing.py:312-379 | Issues, finds unchanged or refuses; keeps every issued invoice and the ledger invariant |
| InvoiceStore.Ledger.EnsurePeriod | src/meter/storage/repositories/periods.py:87-108 | Adds the open period row if the month has none; every other row stays as it is |
| InvoiceStore.Ledger.StartReconciling | src/meter/pipeline/close.py:92-94 | Moves an open period to reconciling; every other row, and this month under any other status, stays as it is |
| InvoiceStore.Ledger.MarkClosed | src/meter/pipeline/close.py:118-136 | Marks the period closed whatever its status was; every other row stays as it is |
| AuthCache.EntryRoundTrip | src/meter/api/auth.py:74-121 | A row holds customer, key, digest and deadline in that order, decodes to its own caller for its own digest only, and is fresh exactly up to its deadline |
| AuthCache.RowAsWritten | src/meter/api/auth.py:74-87 | A row in full, as Redis holds it, and the negative row |
| AuthCache.Deadline | src/meter/api/auth.py:84-87 | The deadline is floored: never later than the fresh TTL, less than a second earlier |
| AuthCache.Cache.Resolve | src/meter/api/auth.py:124-187 | A fresh row decides; else Postgres decides: no record, a revoked one or another digest's is rejected and remembered as unknown for the fresh TTL, any other accepted and remembered for the stale ceiling, fresh for less than the TTL from the start of the call; if Postgres fails only a positive row admits; nothing else is written |
| AuthCache.StepsDecide | src/meter/api/auth.py:124-187 | The same for the steps of a resolution that races with others |
| AuthCache.BeginReads | src/meter/api/auth.py:124-146 | A call starts from the row the cache holds unexpired at that moment, and from none otherwise |
| AuthCache.AnyCallGoesOn | src/meter/api/auth.py:124-187 | Nothing holds a call up, and outages of either store, evictions and changes of the directory come at any moment |
| AuthCache.StepKeepsAuth | src/meter/api/auth.py:124-187 | Races between resolutions, revocations, evictions and outages keep every row negative or written for a live answer |
| AuthCache.EveryAcceptanceIsJustified | src/meter/api/auth.py:124-187 | In every run an acceptance rests on a live lookup begun less than the fresh TTL ago, on Postgres answering this call, or on its failure and a positive row younger than the stale ceiling when read; never on a negative row, and never on an answer that was revoked or of another digest |
| AuthCache.AnswersComeFromTheDirectory | src/meter/api/auth.py:160-187 | A live lookup is of the record the directory held of that digest at that moment, unrevoked |
| AuthCache.RevocationWindow | src/meter/api/auth.py:74-87 | Once the directory has no record of a digest, or a revoked one, and until that changes, a cached row admits the key only within the fresh TTL, and Postgres only a call already looking |
| SqlSplitter.Statements | migrations/versions/0002_schema.py:69-131 | The loop yields the stripped, executable pieces of the split, in order, and ends |
| SqlSplitter.SplitExactly | migrations/versions/0002_schema.py:69-122 | A list of pieces is the split if and only if joined by semicolons it is the script, no piece holds a top-level semicolon, and all but the last are lexically closed |
| SqlSplitter.SplitJoin | migrations/versions/0002_schema.py:69-122 | Splitting a join of closed statements returns them |
| SqlSplitter.Rebuilds | migrations/versions/0002_schema.py:69-122 | The pieces joined by semicolons are the script |
| SqlSplitter.QuotesHideSemicolons | migrations/versions/0002_schema.py:81-117 | Strings whose quotes are all doubled, comments and dollar quotes are closed whatever else they hold |
| SqlSplitter.TagsExactly | migrations/versions/0002_schema.py:66 | A dollar tag is two dollars around nothing or around an identifier, and nothing else is |
| SqlSplitter.DroppedExactly | migrations/versions/0002_schema.py:125-131 | No piece with anything but blanks and comments is dropped, and where lines end in newlines every other piece is |
| SqlSplitter.ExecutableByLine | migrations/versions/0002_schema.py:125-131 | A line is executable unless it is blank or starts with two dashes; a piece is if one of its lines is |
| SqlSplitter.StripIs | migrations/versions/0002_schema.py:125-131 | Stripping removes blanks at both ends, all of them, and nothing else |

## Left out

- Drain.Drain.TrimDrained: takes the pending list, the group state and the XTRIM as one step; the interleaved case is stated apart, in Pipeline.
- Drain.Drain.DrainUntilEmpty: other workers run only between calls of it, not between its batches; what they do in between is a run of the machine, to which the results on all runs apply.
- Rollups.PassKeepsBooks: takes a dirty pass as one step; the interleaved case is stated apart, in DirtyCells.
- Close.Closer.Converge: the other tasks run between polls and between the report and the issue, not during one drain, aggregation and report.
- Two tasks of one process that share its consumer name are two consumers of the machine, each with its own batch in hand.
- Close.Closer.ReconcileMonth: reads counter, backlog and tables in one state; the service reads them one after the other.
- Metering.Exchange.OnMessage: assumes a handler starts one response, as ASGI asks; a second start would capture again under the same key.
- SqlSplitter.DroppedExactly: blanks and line breaks are the ASCII ones; Python also breaks lines at some others.
- AuthCache.EntryRoundTrip: a deadline is a run of decimal digits, the only form that is written; Python's float reads more.
- InvoiceLedger.BilledAsRatedOnce: takes `generate` as one step, so runs of one customer do not overlap (the overlap is stated apart, in InvoiceOverlap); and a customer's plan timeline is fixed during a history, so a closed month's segments do not change.
- InvoiceLedger.BilledIsThePeak: the same assumptions; overlapping runs can bill more.
- Stamping rollups with the invoice id: nothing billed depends on it.
- The sweep that closes every customer of a month, and the choice of the month that is due.
- Stream, table and counter contents are values inside the classes that own them; aliasing between workers is the shared `Backend` object.
- Asia/Karachi is the constant offset +05:00, as docs/adr/0009-billing-boundaries-in-asia-karachi.md:27-29 settles.
- Entry fields, timestamps as text, uuids and the parsing of stream fields: an entry is well formed or it is not.
- Entries that someone deleted by hand while pending, and the poison-cell isolation of the aggregation pass.
- UNATTRIBUTED_SQL counts rows of either kind; the model's unattributed rows are the billable ones, which are all the hot path writes.
- Digests stand for themselves: hashing, key generation and constant-time comparison.
- The counter rebuild after Redis is lost, and usage in flight when the Redis process dies.
- The threshold sweep's choice of rows to recompute, and limits changed while requests are in progress.
- Non-billable outcome counters, latency, logging, line descriptions and every text meant for people.
- Answer headers, refusal bodies, HTTP routes, the admin surface, the CLI, health probes, partitions, retention, indexes and column declarations.
