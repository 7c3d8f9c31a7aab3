/** The drain's insert and the rollup upsert (src/meter/storage/repositories/rollups.py), and the
    aggregation passes over them (src/meter/pipeline/aggregate.py). */
module Rollups {
  import opened Wrappers
  import opened Pipeline
  import opened Segments
  import Calendar

  // ----- Inserting a drained batch -----

  /** `setdefault` over a batch: the first row of each key. */
  function Unique(batch: seq<Event>): Rows {
    if batch == [] then map[]
    else
      var rest, last := Unique(batch[..|batch| - 1]), batch[|batch| - 1];
      if last.RowKey() in rest then rest else rest[last.RowKey() := last]
  }

  /** One statement: duplicates inside the batch are collapsed first, rows already stored win,
      and `inserted` is the number of rows that are genuinely new. */
  method InsertUsageEvents(rows: Rows, batch: seq<Event>) returns (stored: Rows, inserted: nat)
    ensures stored == Unique(batch) + rows
    ensures inserted == |stored| - |rows|
  {
    hide Unique;
    var unique: Rows := map[];
    UniqueOfNone(batch);
    for i := 0 to |batch|
      invariant unique == Unique(batch[..i])
    {
      assert batch[..i + 1] == batch[..i] + [batch[i]];
      UniqueAppend(batch[..i], batch[i]);
      if batch[i].RowKey() !in unique {
        unique := unique[batch[i].RowKey() := batch[i]];
      }
    }
    assert batch[..|batch|] == batch;
    stored := unique + rows;
    inserted := |unique.Keys - rows.Keys|;
    NewKeys(unique, rows);
  }

  lemma {:induction false} UniqueOfNone(batch: seq<Event>)
    ensures Unique(batch[..0]) == map[]
  {
  }

  lemma {:induction false} UniqueAppend(batch: seq<Event>, e: Event)
    ensures Unique(batch + [e]) == if e.RowKey() in Unique(batch) then Unique(batch) else Unique(batch)[e.RowKey() := e]
  {
    assert (batch + [e])[..|batch|] == batch;
  }

  lemma {:induction false} NewKeys(unique: Rows, rows: Rows)
    ensures |unique.Keys - rows.Keys| == |unique + rows| - |rows|
  {
    var added, stored := unique.Keys - rows.Keys, unique + rows;
    assert stored.Keys == added + rows.Keys;
    assert |added + rows.Keys| == |added| + |rows.Keys|;
    assert |stored.Keys| == |stored| && |rows.Keys| == |rows|;
  }

  /** The well-formed entries among the ids, as `events.parse` returns them. */
  function Records(log: seq<Event>, ids: seq<nat>): seq<Event> {
    if ids == [] then []
    else Records(log, ids[..|ids| - 1])
         + if ids[|ids| - 1] < |log| && log[ids[|ids| - 1]].wellFormed then [log[ids[|ids| - 1]]] else []
  }

  lemma {:induction false} InsertBatchSplit(rows: Rows, log: seq<Event>, a: seq<nat>, b: seq<nat>)
    ensures InsertBatch(rows, log, a + b) == InsertBatch(InsertBatch(rows, log, a), log, b)
    decreases a
  {
    if a == [] {
      assert a + b == b;
    } else {
      assert (a + b)[1..] == a[1..] + b;
      var next := if a[0] < |log| && log[a[0]].wellFormed then Insert(rows, log[a[0]]) else rows;
      InsertBatchSplit(next, log, a[1..], b);
    }
  }

  lemma {:induction false} InsertBatchOne(rows: Rows, log: seq<Event>, id: nat)
    ensures InsertBatch(rows, log, [id]) == if id < |log| && log[id].wellFormed then Insert(rows, log[id]) else rows
  {
    assert [id][1..] == [];
    var next := if id < |log| && log[id].wellFormed then Insert(rows, log[id]) else rows;
    assert InsertBatch(next, log, []) == next;
  }

  lemma {:induction false} MergeOne(unique: Rows, rows: Rows, e: Event)
    ensures (if e.RowKey() in unique then unique else unique[e.RowKey() := e]) + rows == Insert(unique + rows, e)
  {
  }

  lemma {:induction false} RecordsOfOneMore(log: seq<Event>, ids: seq<nat>, id: nat)
    ensures Records(log, ids + [id]) == if id < |log| && log[id].wellFormed then Records(log, ids) + [log[id]] else Records(log, ids)
  {
    assert (ids + [id])[..|ids|] == ids;
  }

  lemma {:induction false} OneMoreEntry(rows: Rows, log: seq<Event>, ids: seq<nat>, id: nat)
    requires Unique(Records(log, ids)) + rows == InsertBatch(rows, log, ids)
    ensures Unique(Records(log, ids + [id])) + rows == InsertBatch(rows, log, ids + [id])
  {
    hide Unique, Records, InsertBatch, Insert;
    InsertBatchSplit(rows, log, ids, [id]);
    InsertBatchOne(InsertBatch(rows, log, ids), log, id);
    RecordsOfOneMore(log, ids, id);
    if id < |log| && log[id].wellFormed {
      UniqueAppend(Records(log, ids), log[id]);
      MergeOne(Unique(Records(log, ids)), rows, log[id]);
    }
  }

  /** Deduplicating first and inserting once stores what inserting entry by entry would. */
  lemma {:induction false} OneStatementIsEnough(rows: Rows, log: seq<Event>, ids: seq<nat>)
    ensures Unique(Records(log, ids)) + rows == InsertBatch(rows, log, ids)
    decreases |ids|
  {
    if ids == [] {
      assert map[] + rows == rows;
    } else {
      hide Unique, Records, InsertBatch;
      var front := ids[..|ids| - 1];
      OneStatementIsEnough(rows, log, front);
      OneMoreEntry(rows, log, front, ids[|ids| - 1]);
      assert front + [ids[|ids| - 1]] == ids;
    }
  }

  // ----- Attribution -----

  datatype Grain = Grain(customer: nat, date: int, assignment: nat, version: nat, apiKey: nat)

  /** The plan timelines and the known API keys, fixed while passes run. */
  datatype Directory = Directory(plans: nat -> seq<Assignment>, keys: set<nat>)

  predicate Covers(row: Assignment, instant: int) {
    row.from <= instant && (row.to.None? || instant < row.to.value)
  }

  function PlanAt(rows: seq<Assignment>, instant: int): Option<Assignment> {
    if rows == [] then None else if Covers(rows[0], instant) then Some(rows[0]) else PlanAt(rows[1..], instant)
  }

  /** The rollup row an event counts in. None: on no plan at that instant, or an unknown key. */
  function GroupOf(dir: Directory, e: Event): Option<Grain> {
    var plan := PlanAt(dir.plans(e.account.customer), e.occurredAt);
    if plan.None? || e.apiKey !in dir.keys then None
    else Some(Grain(e.account.customer, Calendar.LocalDate(e.occurredAt), plan.value.id, plan.value.version, e.apiKey))
  }

  /** The exclusion constraint means the join cannot fan out: no second plan covers the instant. */
  lemma {:induction false} PlanAtUnique(rows: seq<Assignment>, instant: int, row: Assignment)
    requires Timeline(rows)
    ensures row in rows && Covers(row, instant) <==> PlanAt(rows, instant) == Some(row)
  {
    if rows != [] {
      PlanAtUnique(rows[1..], instant, row);
      assert row in rows <==> row == rows[0] || row in rows[1..];
      if Covers(rows[0], instant) {
        assert forall r <- rows[1..] :: !Covers(r, instant);
      }
    }
  }

  /** An event counts under the plan row in force at its instant, that row's version, its own customer,
      key and local day; it counts nowhere exactly when no row is in force or the key is unknown. */
  lemma {:induction false} GroupIsThePlan(dir: Directory, e: Event, row: Assignment)
    requires Timeline(dir.plans(e.account.customer))
    ensures row in dir.plans(e.account.customer) && row.from <= e.occurredAt && (row.to.Some? ==> e.occurredAt < row.to.value) && e.apiKey in dir.keys
       ==> GroupOf(dir, e).Some? && GroupOf(dir, e).value.assignment == row.id && GroupOf(dir, e).value.version == row.version
    ensures GroupOf(dir, e).None? <==>
      e.apiKey !in dir.keys || forall r <- dir.plans(e.account.customer) :: !(r.from <= e.occurredAt && (r.to.Some? ==> e.occurredAt < r.to.value))
    ensures GroupOf(dir, e).Some? ==>
      && GroupOf(dir, e).value.customer == e.account.customer && GroupOf(dir, e).value.apiKey == e.apiKey
      && Calendar.DateStart(GroupOf(dir, e).value.date) <= e.occurredAt < Calendar.DateStart(GroupOf(dir, e).value.date + 1)
  {
    var rows := dir.plans(e.account.customer);
    Calendar.DayInOnePeriod(Calendar.LocalDate(e.occurredAt), e.occurredAt);
    forall r ensures r in rows && Covers(r, e.occurredAt) <==> PlanAt(rows, e.occurredAt) == Some(r) {
      PlanAtUnique(rows, e.occurredAt, r);
    }
  }

  // ----- The upsert -----

  type Table = map<Grain, nat>

  function Rollup(table: Table, g: Grain): nat {
    if g in table then table[g] else 0
  }

  /** The billable rows among `selected` that count in a grain. */
  function Counted(dir: Directory, rows: Rows, selected: set<Key>, g: Grain): set<Key> {
    set k | k in selected && k in rows && rows[k].billable && GroupOf(dir, rows[k]) == Some(g)
  }

  function Touched(dir: Directory, rows: Rows, selected: set<Key>): set<Grain> {
    set k | k in selected && k in rows && GroupOf(dir, rows[k]).Some? :: GroupOf(dir, rows[k]).value
  }

  /** GROUP BY over the selected rows. */
  function Recount(dir: Directory, rows: Rows, selected: set<Key>): Table {
    map g | g in Touched(dir, rows, selected) :: |Counted(dir, rows, selected, g)|
  }

  /** The upsert: each count is assigned, never added, to its rollup row. */
  function Aggregate(dir: Directory, table: Table, rows: Rows, selected: set<Key>): Table {
    table + Recount(dir, rows, selected)
  }

  /** The incremental pass's predicate: period start, customer and the local day's UTC bounds. */
  predicate InCell(e: Event, cell: (nat, int)) {
    && e.account.period == Calendar.MonthStart(Calendar.MonthOf(cell.1))
    && e.account.customer == cell.0
    && Calendar.DateStart(cell.1) <= e.occurredAt < Calendar.DateStart(cell.1) + Calendar.DAY
  }

  function CellRows(rows: Rows, cells: set<(nat, int)>): set<Key> {
    set k | k in rows && exists cell <- cells :: InCell(rows[k], cell)
  }

  function PeriodRows(rows: Rows, a: Account): set<Key> {
    set k | k in rows && rows[k].account == a
  }

  /** The event names the period its instant falls in, as the hot path always resolves it. */
  predicate PeriodMatches(e: Event) {
    e.account.period == Calendar.PeriodStartOf(e.occurredAt)
  }

  ghost predicate LogMatches(log: seq<Event>) {
    forall i :: 0 <= i < |log| && log[i].wellFormed ==> PeriodMatches(log[i])
  }

  ghost predicate Consistent(rows: Rows) {
    forall k <- rows :: PeriodMatches(rows[k])
  }

  lemma {:induction false} CellRowsExact(rows: Rows, cells: set<(nat, int)>, k: Key)
    requires Consistent(rows) && k in rows
    ensures k in CellRows(rows, cells) <==> rows[k].Cell() in cells
  {
    hide Calendar.DateStart, Calendar.MonthStart, Calendar.LocalDate, Calendar.PeriodStartOf, Calendar.MonthOf;
    var e := rows[k];
    forall cell: (nat, int)
      ensures InCell(e, cell) <==> e.Cell() == cell
    {
      Calendar.DayInOnePeriod(cell.1, e.occurredAt);
    }
  }

  /** A selection that takes all of a grain's rows or none of them. */
  ghost predicate Whole(dir: Directory, rows: Rows, selected: set<Key>) {
    forall k, k' | k in selected && k in rows && k' in rows && GroupOf(dir, rows[k]).Some? ::
      GroupOf(dir, rows[k']) == GroupOf(dir, rows[k]) ==> k' in selected
  }

  lemma {:induction false} CellsAreWhole(dir: Directory, rows: Rows, cells: set<(nat, int)>)
    requires Consistent(rows)
    ensures Whole(dir, rows, CellRows(rows, cells))
  {
    hide CellRows, PlanAt, Calendar.LocalDate;
    forall k, k' | k in CellRows(rows, cells) && k in rows && k' in rows
      && GroupOf(dir, rows[k]).Some? && GroupOf(dir, rows[k']) == GroupOf(dir, rows[k])
      ensures k' in CellRows(rows, cells)
    {
      CellRowsExact(rows, cells, k);
      CellRowsExact(rows, cells, k');
    }
  }

  lemma {:induction false} SameDateSamePeriod(a: Event, b: Event)
    requires PeriodMatches(a) && PeriodMatches(b) && Calendar.LocalDate(a.occurredAt) == Calendar.LocalDate(b.occurredAt)
    ensures a.account.period == b.account.period
  {
  }

  lemma {:induction false} PeriodsAreWhole(dir: Directory, rows: Rows, a: Account)
    requires Consistent(rows)
    ensures Whole(dir, rows, PeriodRows(rows, a))
  {
    hide PlanAt, Calendar.LocalDate, PeriodMatches;
    forall k, k' | k in PeriodRows(rows, a) && k in rows && k' in rows
      && GroupOf(dir, rows[k]).Some? && GroupOf(dir, rows[k']) == GroupOf(dir, rows[k])
      ensures k' in PeriodRows(rows, a)
    {
      SameDateSamePeriod(rows[k], rows[k']);
    }
  }

  /** A whole selection brings the rollups exactly up to date for the rows it takes: grains
      outside it keep the rows they had. */
  lemma {:induction false} PassExact(dir: Directory, table: Table, rows: Rows, seen: set<Key>, selected: set<Key>,
      g: Grain)
    requires Whole(dir, rows, selected)
    requires Rollup(table, g) == |Counted(dir, rows, seen, g)|
    ensures Rollup(Aggregate(dir, table, rows, selected), g) == |Counted(dir, rows, seen + selected, g)|
  {
    hide GroupOf;
    if g in Touched(dir, rows, selected) {
      var k :| k in selected && k in rows && GroupOf(dir, rows[k]).Some? && GroupOf(dir, rows[k]).value == g;
      assert Counted(dir, rows, seen + selected, g) == Counted(dir, rows, selected, g);
    } else {
      assert Counted(dir, rows, seen + selected, g) == Counted(dir, rows, seen, g) by {
        forall k | k in selected && k in rows && rows[k].billable
          ensures GroupOf(dir, rows[k]) != Some(g)
        {
        }
      }
    }
  }

  // ----- Draining and aggregating together -----

  /** `seen` is bookkeeping: the rows some pass has aggregated. */
  datatype Books = Books(pipe: State, table: Table, seen: set<Key>)

  datatype Step = Drain(action: Action) | DirtyPass | PeriodPass(account: Account)

  predicate CanStep(b: Books, step: Step) {
    match step
    case Drain(action) => Enabled(b.pipe, action) && !action.Clean? && (action.Capture? ==> PeriodMatches(action.event))
    case DirtyPass => true
    case PeriodPass(_) => true
  }

  /** A dirty pass reads the set, aggregates, commits and clears, with no drain in between. */
  function Next(dir: Directory, b: Books, step: Step): Books
    requires CanStep(b, step)
  {
    match step
    case Drain(action) => b.(pipe := Apply(b.pipe, action))
    case DirtyPass =>
      var cells, rows := b.pipe.dirty, b.pipe.rows;
      Books(Apply(b.pipe, Clean(cells)), Aggregate(dir, b.table, rows, CellRows(rows, cells)), b.seen + CellRows(rows, cells))
    case PeriodPass(a) =>
      var selected := PeriodRows(b.pipe.rows, a);
      Books(b.pipe, Aggregate(dir, b.table, b.pipe.rows, selected), b.seen + selected)
  }

  ghost predicate StillComing(s: State, k: Key) {
    (k in s.rows && s.rows[k].Cell() in s.dirty) || exists id <- s.pending :: id < |s.log| && s.log[id].wellFormed && s.log[id].RowKey() == k
  }

  /** The rollups hold what the passes so far have seen, of rows that are still there. */
  ghost predicate Exact(dir: Directory, b: Books) {
    && Inv(b.pipe) && LogMatches(b.pipe.log)
    && b.seen <= b.pipe.rows.Keys
    && forall g: Grain :: Rollup(b.table, g) == |Counted(dir, b.pipe.rows, b.seen, g)|
  }

  ghost predicate BooksInv(dir: Directory, b: Books) {
    var s := b.pipe;
    && Exact(dir, b)
    && (forall k <- s.rows :: k in b.seen || StillComing(s, k))
    && forall c <- s.batches :: HoldsAt(s, c, Marked) ==>
         forall id <- s.batches[c].ids :: id < |s.log| && s.log[id].wellFormed ==>
           s.log[id].RowKey() in b.seen || (s.log[id].RowKey() in s.rows && s.rows[s.log[id].RowKey()].Cell() in s.dirty)
  }

  lemma {:induction false} ExactParts(dir: Directory, b: Books)
    requires Exact(dir, b)
    ensures Inv(b.pipe) && LogMatches(b.pipe.log)
  {
  }

  lemma {:induction false} BooksConsistent(s: State)
    requires Inv(s) && LogMatches(s.log)
    ensures Consistent(s.rows)
  {
    hide PeriodMatches, Balanced, UniqueKeys, Settled, BatchSound;
    forall k | k in s.rows ensures PeriodMatches(s.rows[k]) {
      var i :| 0 <= i < |s.log| && s.log[i].wellFormed && s.log[i].RowKey() == k && s.rows[k] == s.log[i];
    }
  }

  lemma {:induction false} CountedAfterInsert(dir: Directory, rows: Rows, rows': Rows, seen: set<Key>, g: Grain)
    requires seen <= rows.Keys && RowsKept(rows, rows')
    ensures Counted(dir, rows', seen, g) == Counted(dir, rows, seen, g)
  {
  }

  /** Rows that others add leave the rollups exact for what passes have seen. */
  lemma {:induction false} ExactOnward(dir: Directory, b: Books, s: State)
    requires Exact(dir, b) && Inv(s) && LogMatches(s.log) && RowsKept(b.pipe.rows, s.rows)
    ensures Exact(dir, b.(pipe := s))
  {
    hide Inv, Counted, Rollup, LogMatches;
    forall g: Grain ensures Rollup(b.table, g) == |Counted(dir, s.rows, b.seen, g)| {
      CountedAfterInsert(dir, b.pipe.rows, s.rows, b.seen, g);
    }
  }

  /** The clear at the end of a pass. */
  function Cleared(b: Books, cells: set<(nat, int)>): Books {
    b.(pipe := Apply(b.pipe, Clean(cells)))
  }

  lemma {:induction false} DrainKeepsExact(dir: Directory, b: Books, action: Action)
    requires Exact(dir, b) && CanStep(b, Drain(action))
    ensures Exact(dir, Next(dir, b, Drain(action)))
  {
    hide Inv, Counted, Rollup, PeriodMatches, Calendar.LocalDate;
    StepKeepsInv(b.pipe, action);
    StepMonotone(b.pipe, action);
    ExactOnward(dir, b, Apply(b.pipe, action));
  }

  lemma {:induction false} ClearKeepsExact(dir: Directory, b: Books, cells: set<(nat, int)>)
    requires Exact(dir, b)
    ensures Exact(dir, Cleared(b, cells))
  {
    hide Inv, Counted, Rollup, PeriodMatches, Calendar.LocalDate;
    StepKeepsInv(b.pipe, Clean(cells));
  }

  /** The pass's statement on its own: the rows of the cells it read are aggregated. */
  function Aggregated(dir: Directory, b: Books, selected: set<Key>): Books {
    b.(table := Aggregate(dir, b.table, b.pipe.rows, selected), seen := b.seen + selected)
  }

  lemma {:induction false} AggregateKeepsExact(dir: Directory, b: Books, selected: set<Key>)
    requires Exact(dir, b) && Whole(dir, b.pipe.rows, selected) && selected <= b.pipe.rows.Keys
    ensures Exact(dir, Aggregated(dir, b, selected))
  {
    hide Inv, Counted, Rollup, PeriodMatches, Aggregate, Whole;
    var b' := Aggregated(dir, b, selected);
    forall g: Grain ensures Rollup(b'.table, g) == |Counted(dir, b.pipe.rows, b'.seen, g)| {
      PassExact(dir, b.table, b.pipe.rows, b.seen, selected, g);
    }
  }

  lemma {:induction false} SelectionsAreWhole(dir: Directory, b: Books, cells: set<(nat, int)>, a: Account)
    requires Exact(dir, b)
    ensures Consistent(b.pipe.rows)
    ensures Whole(dir, b.pipe.rows, CellRows(b.pipe.rows, cells)) && CellRows(b.pipe.rows, cells) <= b.pipe.rows.Keys
    ensures Whole(dir, b.pipe.rows, PeriodRows(b.pipe.rows, a)) && PeriodRows(b.pipe.rows, a) <= b.pipe.rows.Keys
  {
    hide Inv, Counted, Rollup, PeriodMatches, Whole, InCell;
    BooksConsistent(b.pipe);
    CellsAreWhole(dir, b.pipe.rows, cells);
    PeriodsAreWhole(dir, b.pipe.rows, a);
  }

  lemma {:induction false} StepKeepsExact(dir: Directory, b: Books, step: Step)
    requires Exact(dir, b) && CanStep(b, step)
    ensures Exact(dir, Next(dir, b, step))
  {
    hide Exact, Aggregate, CellRows, PeriodRows, Whole;
    match step
    case Drain(action) => DrainKeepsExact(dir, b, action);
    case DirtyPass =>
      var cells := b.pipe.dirty;
      SelectionsAreWhole(dir, b, cells, Account(0, 0));
      AggregateKeepsExact(dir, b, CellRows(b.pipe.rows, cells));
      ClearKeepsExact(dir, Aggregated(dir, b, CellRows(b.pipe.rows, cells)), cells);
    case PeriodPass(a) =>
      SelectionsAreWhole(dir, b, {}, a);
      AggregateKeepsExact(dir, b, PeriodRows(b.pipe.rows, a));
  }

  lemma {:induction false} PassKeepsBooks(dir: Directory, b: Books, step: Step)
    requires BooksInv(dir, b) && !step.Drain?
    ensures BooksInv(dir, Next(dir, b, step))
  {
    hide Exact, Aggregate, CellRows, PeriodRows, Whole, InCell;
    var rows, b' := b.pipe.rows, Next(dir, b, step);
    StepKeepsExact(dir, b, step);
    if step.DirtyPass? {
      var cells := b.pipe.dirty;
      SelectionsAreWhole(dir, b, cells, Account(0, 0));
      forall k | k in rows ensures k in CellRows(rows, cells) <==> rows[k].Cell() in cells {
        CellRowsExact(rows, cells, k);
      }
    }
    forall k | k in rows ensures k in b'.seen || StillComing(b'.pipe, k) {
      assert k in b.seen || StillComing(b.pipe, k);
    }
  }

  /** Rows a commit adds come from entries that are still pending. */
  lemma {:induction false} NewRowsArePending(s: State, c: nat, k: Key)
    requires Inv(s) && Enabled(s, Commit(c)) && k in Apply(s, Commit(c)).rows && k !in s.rows
    ensures StillComing(Apply(s, Commit(c)), k)
  {
    hide Balanced, UniqueKeys;
    var s' := Apply(s, Commit(c));
    var ids := s.Held(c).ids;
    assert BatchSound(s, s.Held(c));
    InsertBatchOrigin(s.rows, s.log, ids, k);
    assert forall id <- ids :: id in s.pending || Settled(s, id);
    var id :| id in ids && id < |s.log| && s.log[id].wellFormed && s.log[id].RowKey() == k;
  }

  lemma {:induction false} RowOfEntry(s: State, id: nat)
    requires Inv(s) && id < |s.log| && s.log[id].wellFormed && s.log[id].RowKey() in s.rows
    ensures s.rows[s.log[id].RowKey()] == s.log[id]
  {
    hide Balanced, Settled, BatchSound;
    var i :| 0 <= i < |s.log| && s.log[i].wellFormed && s.log[i].RowKey() == s.log[id].RowKey() && s.rows[s.log[id].RowKey()] == s.log[i];
  }

  lemma {:induction false} StillComingKept(s: State, action: Action, k: Key)
    requires Inv(s) && Enabled(s, action) && !action.Clean? && !action.Ack? && StillComing(s, k)
    ensures StillComing(Apply(s, action), k)
  {
    hide Inv, Calendar.LocalDate;
    StepMonotone(s, action);
    var s' := Apply(s, action);
    if !(k in s.rows && s.rows[k].Cell() in s.dirty) {
      var id :| id in s.pending && id < |s.log| && s.log[id].wellFormed && s.log[id].RowKey() == k;
      assert id in s'.pending && s'.log[id] == s.log[id];
    }
  }

  lemma {:induction false} StepKeepsComing(dir: Directory, b: Books, action: Action, k: Key)
    requires BooksInv(dir, b) && CanStep(b, Drain(action))
    requires k in Apply(b.pipe, action).rows
    ensures k in b.seen || StillComing(Apply(b.pipe, action), k)
  {
    hide Inv, Counted, Rollup, PeriodMatches, Calendar.LocalDate;
    var s, s' := b.pipe, Apply(b.pipe, action);
    if k !in s.rows {
      NewRowsArePending(s, action.consumer, k);
    } else if k !in b.seen {
      assert StillComing(s, k);
      if action.Ack? {
        if !(s.rows[k].Cell() in s.dirty) {
          var id :| id in s.pending && id < |s.log| && s.log[id].wellFormed && s.log[id].RowKey() == k;
          AckedIsAccounted(dir, b, action.consumer, id);
          assert id in s'.pending;
        }
      } else {
        StillComingKept(s, action, k);
      }
    }
  }

  /** An entry that is acked has been marked, so its row is aggregated or its cell is dirty. */
  lemma {:induction false} AckedIsAccounted(dir: Directory, b: Books, c: nat, id: nat)
    requires BooksInv(dir, b) && Enabled(b.pipe, Ack(c)) && id < |b.pipe.log|
    requires b.pipe.log[id].RowKey() in b.pipe.rows && b.pipe.log[id].RowKey() !in b.seen
    requires b.pipe.rows[b.pipe.log[id].RowKey()].Cell() !in b.pipe.dirty
    ensures id in b.pipe.Held(c).ids ==> !b.pipe.log[id].wellFormed
  {
    hide Inv, Counted, Rollup, PeriodMatches, Calendar.LocalDate, StillComing;
    assert HoldsAt(b.pipe, c, Marked) && c in b.pipe.batches;
  }

  lemma {:induction false} MarkedKept(dir: Directory, b: Books, action: Action, c: nat, id: nat)
    requires BooksInv(dir, b) && CanStep(b, Drain(action)) && HoldsAt(Apply(b.pipe, action), c, Marked)
    requires id in Apply(b.pipe, action).Held(c).ids && id < |b.pipe.log| && b.pipe.log[id].wellFormed
    ensures var s, k := Apply(b.pipe, action), b.pipe.log[id].RowKey();
            k in b.seen || (k in s.rows && s.rows[k].Cell() in s.dirty)
  {
    hide Inv, Counted, Rollup, PeriodMatches, Calendar.LocalDate, StillComing;
    var s, k := b.pipe, b.pipe.log[id].RowKey();
    StepMonotone(s, action);
    if action.Mark? && action.consumer == c {
      assert HoldsAt(s, c, Committed) && c in s.batches;
      CommittedHaveRows(s, c, id);
      RowOfEntry(s, id);
      assert s.log[id].Cell() in CellsOf(s.log, s.Held(c).ids);
    } else {
      assert HoldsAt(s, c, Marked) && c in s.batches;
    }
  }

  lemma {:induction false} HeldIdsDelivered(s: State, c: nat, id: nat)
    requires Inv(s) && s.Held(c).Batch? && id in s.Held(c).ids
    ensures id < s.delivered
  {
    hide Balanced, Settled, UniqueKeys, RowsFromLog;
    assert BatchSound(s, s.Held(c));
  }

  lemma {:induction false} CommittedHaveRows(s: State, c: nat, id: nat)
    requires Inv(s) && HoldsAt(s, c, Committed) && id in s.Held(c).ids && id < |s.log| && s.log[id].wellFormed
    ensures s.log[id].RowKey() in s.rows
  {
    hide Balanced, Settled, UniqueKeys, RowsFromLog;
    assert BatchSound(s, s.Held(c));
  }

  lemma {:induction false} DrainKeepsBooks(dir: Directory, b: Books, action: Action)
    requires BooksInv(dir, b) && CanStep(b, Drain(action))
    ensures BooksInv(dir, Next(dir, b, Drain(action)))
  {
    hide Inv, Counted, Rollup, PeriodMatches, Calendar.LocalDate, StillComing;
    var s, s' := b.pipe, Apply(b.pipe, action);
    DrainKeepsExact(dir, b, action);
    StepMonotone(s, action);
    forall k | k in s'.rows ensures k in b.seen || StillComing(s', k) {
      StepKeepsComing(dir, b, action, k);
    }
    forall c, id | c in s'.batches && HoldsAt(s', c, Marked) && id in s'.batches[c].ids && id < |s'.log| && s'.log[id].wellFormed
      ensures s'.log[id].RowKey() in b.seen || (s'.log[id].RowKey() in s'.rows && s'.rows[s'.log[id].RowKey()].Cell() in s'.dirty)
    {
      HeldIdsDelivered(s', c, id);
      Bounds(s);
      assert s'.log[id] == s.log[id];
      MarkedKept(dir, b, action, c, id);
    }
  }

  predicate CanRun(dir: Directory, b: Books, run: seq<Step>)
    decreases run
  {
    run == [] || (CanStep(b, run[0]) && CanRun(dir, Next(dir, b, run[0]), run[1..]))
  }

  function BooksAfter(dir: Directory, b: Books, run: seq<Step>): Books
    requires CanRun(dir, b, run)
    decreases run
  {
    if run == [] then b else BooksAfter(dir, Next(dir, b, run[0]), run[1..])
  }

  const NO_BOOKS := Books(EMPTY, map[], {})

  lemma {:induction false} RunKeepsExact(dir: Directory, b: Books, run: seq<Step>)
    requires Exact(dir, b) && CanRun(dir, b, run)
    ensures Exact(dir, BooksAfter(dir, b, run))
    decreases run
  {
    hide Exact, Next, CanStep;
    if run != [] {
      StepKeepsExact(dir, b, run[0]);
      RunKeepsExact(dir, Next(dir, b, run[0]), run[1..]);
    }
  }

  lemma {:induction false} RunKeepsBooks(dir: Directory, b: Books, run: seq<Step>)
    requires BooksInv(dir, b) && CanRun(dir, b, run)
    ensures BooksInv(dir, BooksAfter(dir, b, run))
    decreases run
  {
    hide BooksInv;
    if run != [] {
      if run[0].Drain? {
        DrainKeepsBooks(dir, b, run[0].action);
      } else {
        PassKeepsBooks(dir, b, run[0]);
      }
      RunKeepsBooks(dir, Next(dir, b, run[0]), run[1..]);
    }
  }

  lemma {:induction false} NoBooksInv(dir: Directory)
    ensures BooksInv(dir, NO_BOOKS)
  {
    EmptyInv();
    forall g: Grain ensures Counted(dir, EMPTY.rows, {}, g) == {} {
    }
  }

  // ----- Main results -----

  /** All the billable rows of a grain. */
  function BillableIn(dir: Directory, rows: Rows, g: Grain): set<Key> {
    Counted(dir, rows, rows.Keys, g)
  }

  /** Whatever the order of drain steps and passes, once nothing is pending or dirty every
      rollup cell holds its billable row count. */
  lemma {:induction false} RollupsCatchUp(dir: Directory, run: seq<Step>, g: Grain)
    requires CanRun(dir, NO_BOOKS, run)
    ensures var b := BooksAfter(dir, NO_BOOKS, run);
            b.pipe.pending == map[] && b.pipe.dirty == {} ==> Rollup(b.table, g) == |BillableIn(dir, b.pipe.rows, g)|
  {
    hide Counted, Rollup, Inv, PeriodMatches;
    NoBooksInv(dir);
    RunKeepsBooks(dir, NO_BOOKS, run);
    var b := BooksAfter(dir, NO_BOOKS, run);
    if b.pipe.pending == map[] && b.pipe.dirty == {} {
      forall k | k in b.pipe.rows ensures k in b.seen {
        assert !StillComing(b.pipe, k);
      }
      assert b.seen == b.pipe.rows.Keys;
    }
  }

  predicate InAccount(g: Grain, a: Account) {
    a == Account(g.customer, Calendar.MonthStart(Calendar.MonthOf(g.date)))
  }

  lemma {:induction false} GroupInAccount(dir: Directory, e: Event)
    requires PeriodMatches(e) && GroupOf(dir, e).Some?
    ensures InAccount(GroupOf(dir, e).value, e.account)
  {
  }

  /** A whole-period pass needs no dirty set: after any run, it alone makes every cell of the
      account exact. */
  lemma {:induction false} PeriodPassExact(dir: Directory, run: seq<Step>, a: Account, g: Grain)
    requires CanRun(dir, NO_BOOKS, run) && InAccount(g, a)
    ensures var b := Next(dir, BooksAfter(dir, NO_BOOKS, run), PeriodPass(a));
            Rollup(b.table, g) == |BillableIn(dir, b.pipe.rows, g)|
  {
    NoBooksInv(dir);
    RunKeepsBooks(dir, NO_BOOKS, run);
    PeriodPassStep(dir, BooksAfter(dir, NO_BOOKS, run), a, g);
  }

  lemma {:induction false} PeriodPassStep(dir: Directory, b: Books, a: Account, g: Grain)
    requires BooksInv(dir, b) && InAccount(g, a)
    ensures Rollup(Next(dir, b, PeriodPass(a)).table, g) == |BillableIn(dir, b.pipe.rows, g)|
  {
    hide Rollup, Aggregate, GroupOf, Inv, StillComing, PeriodMatches, InAccount;
    BooksConsistent(b.pipe);
    PeriodPassCounts(dir, b.table, b.pipe.rows, b.seen, a, g);
  }

  /** A pass writes a row for each group it finds an event of, even where none of them is billable, and
      leaves the others as they are. */
  lemma {:induction false} PassWritesItsGroups(dir: Directory, table: Table, rows: Rows, selected: set<Key>, g: Grain)
    ensures g in Aggregate(dir, table, rows, selected) <==>
      g in table || exists k <- selected :: k in rows && GroupOf(dir, rows[k]) == Some(g)
    ensures (forall k <- selected :: k in rows ==> GroupOf(dir, rows[k]) != Some(g)) && g in table ==>
      Aggregate(dir, table, rows, selected)[g] == table[g]
  {
    hide GroupOf, Counted;
    if k :| k in selected && k in rows && GroupOf(dir, rows[k]) == Some(g) {
      assert GroupOf(dir, rows[k]).value == g;
    }
  }

  /** A pass over an account's rows leaves every rollup of any other account or period as it is. */
  lemma {:induction false} PeriodPassTouchesOne(dir: Directory, table: Table, rows: Rows, a: Account, g: Grain)
    requires Consistent(rows) && !InAccount(g, a)
    ensures Rollup(Aggregate(dir, table, rows, PeriodRows(rows, a)), g) == Rollup(table, g)
  {
    hide GroupOf, PeriodMatches, InAccount;
    forall k | k in PeriodRows(rows, a) ensures GroupOf(dir, rows[k]) != Some(g) {
      if GroupOf(dir, rows[k]) == Some(g) {
        GroupInAccount(dir, rows[k]);
      }
    }
  }

  /** One pass over an account's rows, on rollups that hold what some earlier passes saw. */
  lemma {:induction false} PeriodPassCounts(dir: Directory, table: Table, rows: Rows, seen: set<Key>, a: Account,
      g: Grain)
    requires Consistent(rows) && Rollup(table, g) == |Counted(dir, rows, seen, g)|
    ensures Rollup(Aggregate(dir, table, rows, PeriodRows(rows, a)), g) == |Counted(dir, rows, seen + PeriodRows(rows, a), g)|
    ensures InAccount(g, a) ==> Rollup(Aggregate(dir, table, rows, PeriodRows(rows, a)), g) == |BillableIn(dir, rows, g)|
  {
    hide Rollup, Aggregate, GroupOf, PeriodMatches, InAccount;
    var selected := PeriodRows(rows, a);
    PeriodsAreWhole(dir, rows, a);
    PassExact(dir, table, rows, seen, selected, g);
    if InAccount(g, a) {
      forall k | k in rows && GroupOf(dir, rows[k]) == Some(g) ensures k in selected {
        GroupInAccount(dir, rows[k]);
        SameAccount(g, a, rows[k].account);
      }
      assert Counted(dir, rows, seen + selected, g) == BillableIn(dir, rows, g);
    }
  }

  lemma {:induction false} SameAccount(g: Grain, a: Account, a': Account)
    requires InAccount(g, a) && InAccount(g, a')
    ensures a == a'
  {
  }

  lemma {:induction false} TouchedIsWhole(dir: Directory, rows: Rows, selected: set<Key>, g: Grain)
    requires Whole(dir, rows, selected) && g in Touched(dir, rows, selected)
    ensures Counted(dir, rows, selected, g) == BillableIn(dir, rows, g)
  {
    hide GroupOf;
    var k :| k in selected && k in rows && GroupOf(dir, rows[k]).Some? && GroupOf(dir, rows[k]).value == g;
  }

  predicate Agree(one: Table, two: Table) {
    forall g <- one :: g in two ==> one[g] == two[g]
  }

  lemma {:induction false} UpsertsCommute(table: Table, one: Table, two: Table)
    requires Agree(one, two)
    ensures table + one + two == table + two + one
    ensures one == two ==> table + one + two == table + one
  {
  }

  /** Over the same rows passes commute and repeat freely: the rollups do not depend on the order
      of two passes, and a pass made twice is a pass made once. */
  lemma {:induction false} OrderDoesNotMatter(dir: Directory, table: Table, rows: Rows, one: set<Key>, two: set<Key>)
    requires Whole(dir, rows, one) && Whole(dir, rows, two)
    ensures Aggregate(dir, Aggregate(dir, table, rows, one), rows, two) == Aggregate(dir, Aggregate(dir, table, rows, two), rows, one)
    ensures Aggregate(dir, Aggregate(dir, table, rows, one), rows, one) == Aggregate(dir, table, rows, one)
  {
    hide GroupOf, Whole, Touched, Counted, BillableIn;
    RecountsAgree(dir, rows, one, two);
    UpsertsCommute(table, Recount(dir, rows, one), Recount(dir, rows, two));
    UpsertsCommute(table, Recount(dir, rows, one), Recount(dir, rows, one));
  }

  lemma {:induction false} RecountsAgree(dir: Directory, rows: Rows, one: set<Key>, two: set<Key>)
    requires Whole(dir, rows, one) && Whole(dir, rows, two)
    ensures Agree(Recount(dir, rows, one), Recount(dir, rows, two))
  {
    hide GroupOf, Whole, Touched, Counted, BillableIn;
    forall g | g in Touched(dir, rows, one) && g in Touched(dir, rows, two)
      ensures |Counted(dir, rows, one, g)| == |Counted(dir, rows, two, g)|
    {
      TouchedIsWhole(dir, rows, one, g);
      TouchedIsWhole(dir, rows, two, g);
    }
  }

  lemma {:induction false} SeenGrows(dir: Directory, b: Books, run: seq<Step>)
    requires CanRun(dir, b, run)
    ensures b.seen <= BooksAfter(dir, b, run).seen
    decreases run
  {
    hide Apply, Enabled, Aggregate, CellRows, PeriodRows;
    if run != [] {
      SeenGrows(dir, Next(dir, b, run[0]), run[1..]);
    }
  }

  /** Once passes have taken all the rows of a grain, no drain step and no later pass, over whatever
      cells or period, unsettles it: until it gains a row, its rollup is its billable row count. */
  lemma {:induction false} TakenStaysExact(dir: Directory, b: Books, run: seq<Step>, g: Grain)
    requires BooksInv(dir, b) && CanRun(dir, b, run) && BillableIn(dir, b.pipe.rows, g) <= b.seen
    requires BillableIn(dir, BooksAfter(dir, b, run).pipe.rows, g) == BillableIn(dir, b.pipe.rows, g)
    ensures Rollup(BooksAfter(dir, b, run).table, g) == |BillableIn(dir, BooksAfter(dir, b, run).pipe.rows, g)|
  {
    hide Rollup, Inv, StillComing, GroupOf, PeriodMatches;
    RunKeepsBooks(dir, b, run);
    SeenGrows(dir, b, run);
    var after := BooksAfter(dir, b, run);
    assert Counted(dir, after.pipe.rows, after.seen, g) == BillableIn(dir, after.pipe.rows, g);
  }

  // ----- Totals -----

  ghost function SumOver(table: Table, grains: set<Grain>): nat {
    if grains == {} then 0
    else
      var g :| g in grains;
      Rollup(table, g) + SumOver(table, grains - {g})
  }

  lemma {:induction false} SumOverPick(table: Table, grains: set<Grain>, g: Grain)
    requires g in grains
    ensures SumOver(table, grains) == Rollup(table, g) + SumOver(table, grains - {g})
    decreases |grains|
  {
    var h :| h in grains && SumOver(table, grains) == Rollup(table, h) + SumOver(table, grains - {h});
    if h != g {
      SumOverPick(table, grains - {h}, g);
      SumOverPick(table, grains - {g}, h);
      assert grains - {h} - {g} == grains - {g} - {h};
    }
  }

  lemma {:induction false} SumOverSplit(table: Table, a: set<Grain>, b: set<Grain>)
    requires a !! b
    ensures SumOver(table, a + b) == SumOver(table, a) + SumOver(table, b)
    decreases |a|
  {
    if a == {} {
      assert a + b == b;
    } else {
      var g :| g in a;
      SumOverPick(table, a, g);
      SumOverPick(table, a + b, g);
      assert (a + b) - {g} == (a - {g}) + b;
      SumOverSplit(table, a - {g}, b);
    }
  }

  /** ROLLUPS_BILLABLE_SQL: the rollups of one customer-period. */
  ghost function RollupTotal(table: Table, a: Account): nat {
    SumOver(table, GrainsOf(table, a))
  }

  function GrainsOf(table: Table, a: Account): set<Grain> {
    set g | g in table && InAccount(g, a)
  }

  /** The billable rows that count in any of the grains. */
  function BillableInAny(dir: Directory, rows: Rows, grains: set<Grain>): set<Key> {
    set k | k in rows && rows[k].billable && GroupOf(dir, rows[k]).Some? && GroupOf(dir, rows[k]).value in grains
  }

  lemma {:induction false} SumOverCounts(dir: Directory, table: Table, rows: Rows, grains: set<Grain>)
    requires forall g <- grains :: Rollup(table, g) == |BillableIn(dir, rows, g)|
    ensures SumOver(table, grains) == |BillableInAny(dir, rows, grains)|
    decreases |grains|
  {
    hide GroupOf, Rollup;
    if grains == {} {
      assert BillableInAny(dir, rows, grains) == {};
    } else {
      hide BillableIn, BillableInAny;
      var g :| g in grains;
      SumOverPick(table, grains, g);
      SumOverCounts(dir, table, rows, grains - {g});
      BillableInOneMore(dir, rows, grains, g);
    }
  }

  lemma {:induction false} BillableInOneMore(dir: Directory, rows: Rows, grains: set<Grain>, g: Grain)
    requires g in grains
    ensures |BillableInAny(dir, rows, grains)| == |BillableIn(dir, rows, g)| + |BillableInAny(dir, rows, grains - {g})|
  {
    hide GroupOf;
    var one, others := BillableIn(dir, rows, g), BillableInAny(dir, rows, grains - {g});
    assert BillableInAny(dir, rows, grains) == one + others;
    assert one !! others;
  }

  /** Billable requests that reached `usage_events` but can reach no rollup. */
  function Unattributed(dir: Directory, rows: Rows, a: Account): set<Key> {
    set k | k in rows && rows[k].billable && rows[k].account == a && GroupOf(dir, rows[k]).None?
  }

  /** Every rollup cell of the account holds its billable row count, as after a period pass. */
  ghost predicate ExactFor(dir: Directory, rows: Rows, table: Table, a: Account) {
    forall g: Grain | InAccount(g, a) :: Rollup(table, g) == |BillableIn(dir, rows, g)|
  }

  /** Rows minus rollups, once the account is exact. */
  lemma {:induction false} RollupDeltaExact(dir: Directory, rows: Rows, table: Table, a: Account)
    requires Consistent(rows) && ExactFor(dir, rows, table, a)
    ensures |RowsOf(rows, a)| - RollupTotal(table, a) == |Unattributed(dir, rows, a)|
  {
    hide Rollup, GroupOf, PeriodMatches, InAccount;
    var grains := GrainsOf(table, a);
    SumOverCounts(dir, table, rows, grains);
    forall k | k in rows && rows[k].billable && GroupOf(dir, rows[k]).Some?
      ensures rows[k].account == a <==> GroupOf(dir, rows[k]).value in grains
    {
      var g := GroupOf(dir, rows[k]).value;
      GroupInAccount(dir, rows[k]);
      if rows[k].account == a {
        CountedIsPositive(dir, rows, table, a, k);
      } else if g in grains {
        SameAccount(g, a, rows[k].account);
      }
    }
    assert RowsOf(rows, a) == BillableInAny(dir, rows, grains) + Unattributed(dir, rows, a);
    assert BillableInAny(dir, rows, grains) !! Unattributed(dir, rows, a);
  }

  lemma {:induction false} CountedIsPositive(dir: Directory, rows: Rows, table: Table, a: Account, k: Key)
    requires ExactFor(dir, rows, table, a) && k in rows && rows[k].billable && GroupOf(dir, rows[k]).Some?
    requires InAccount(GroupOf(dir, rows[k]).value, a)
    ensures GroupOf(dir, rows[k]).value in GrainsOf(table, a)
  {
    hide GroupOf, InAccount;
    var g := GroupOf(dir, rows[k]).value;
    assert k in BillableIn(dir, rows, g);
  }

  /** After a whole-period pass, rows minus rollups are exactly the billable rows that no plan
      or no known key covers. */
  lemma {:induction false} RollupDeltaIsUnattributed(dir: Directory, run: seq<Step>, a: Account)
    requires CanRun(dir, NO_BOOKS, run)
    ensures var b := Next(dir, BooksAfter(dir, NO_BOOKS, run), PeriodPass(a));
            |RowsOf(b.pipe.rows, a)| - RollupTotal(b.table, a) == |Unattributed(dir, b.pipe.rows, a)|
  {
    NoBooksInv(dir);
    RunKeepsBooks(dir, NO_BOOKS, run);
    DeltaStep(dir, BooksAfter(dir, NO_BOOKS, run), a);
  }

  lemma {:induction false} DeltaStep(dir: Directory, b: Books, a: Account)
    requires BooksInv(dir, b)
    ensures |RowsOf(b.pipe.rows, a)| - RollupTotal(Next(dir, b, PeriodPass(a)).table, a) == |Unattributed(dir, b.pipe.rows, a)|
  {
    hide Rollup, GroupOf, Inv, StillComing, PeriodMatches, InAccount;
    BooksConsistent(b.pipe);
    forall g | InAccount(g, a) ensures Rollup(Next(dir, b, PeriodPass(a)).table, g) == |BillableIn(dir, b.pipe.rows, g)| {
      PeriodPassStep(dir, b, a, g);
    }
    RollupDeltaExact(dir, b.pipe.rows, Next(dir, b, PeriodPass(a)).table, a);
  }
}
