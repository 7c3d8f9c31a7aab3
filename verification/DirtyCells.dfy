/** A dirty pass whose clear is not alone (src/meter/pipeline/aggregate.py:62-93): the cells are read,
    their rows aggregated and committed, and only then is the set cleared, while drains go on. */
module DirtyCells {
  import opened Wrappers
  import opened Pipeline
  import opened Rollups
  import opened Segments
  import opened Drain
  import Calendar

  // ----- What keeps a row from being forgotten -----

  /** The row counts in a rollup: it is billable, on a plan and of a known key. */
  predicate Counts(dir: Directory, rows: Rows, k: Key) {
    k in rows && rows[k].billable && GroupOf(dir, rows[k]).Some?
  }

  /** Some consumer has marked the entry's cell already and has only to ack. */
  ghost predicate InMarked(s: State, id: nat) {
    exists c <- s.batches :: HoldsAt(s, c, Marked) && id in s.batches[c].ids
  }

  /** An entry of the cell is pending and has yet to be marked, by whoever drains it. */
  ghost predicate WillRemark(s: State, cell: (nat, int)) {
    exists id <- s.pending :: id < |s.log| && s.log[id].wellFormed && s.log[id].Cell() == cell && !InMarked(s, id)
  }

  /** The rollups are exact for what passes have seen, and every row that counts and is not in them
      will be: its cell is dirty, or will be again. */
  ghost predicate Sound(dir: Directory, b: Books) {
    && Exact(dir, b)
    && forall k <- b.pipe.rows | Counts(dir, b.pipe.rows, k) && k !in b.seen ::
         b.pipe.rows[k].Cell() in b.pipe.dirty || WillRemark(b.pipe, b.pipe.rows[k].Cell())
  }

  /** Quiet, and a rollup is short of a row. */
  ghost predicate Short(dir: Directory, b: Books) {
    b.pipe.pending == map[] && b.pipe.dirty == {} && exists g: Grain :: Rollup(b.table, g) < |BillableIn(dir, b.pipe.rows, g)|
  }

  /** Some continuation ends quiet with a rollup short. */
  ghost predicate LosesARow(dir: Directory, b: Books) {
    exists run: seq<Step> :: CanRun(dir, b, run) && Short(dir, BooksAfter(dir, b, run))
  }

  /** A row of the cleared cells that counts, that no pass has taken, and whose cell nothing pending
      will mark again. */
  ghost predicate Uncovered(dir: Directory, b: Books, cells: set<(nat, int)>) {
    exists k <- b.pipe.rows ::
      && b.pipe.rows[k].Cell() in cells && Counts(dir, b.pipe.rows, k) && k !in b.seen
      && !WillRemark(b.pipe, b.pipe.rows[k].Cell())
  }

  // ----- Every step keeps it -----

  lemma {:induction false} BooksAreSound(dir: Directory, b: Books)
    requires BooksInv(dir, b)
    ensures Sound(dir, b)
  {
    hide Inv, Counted, Rollup, PeriodMatches, Calendar.LocalDate;
    var s := b.pipe;
    forall k | k in s.rows && Counts(dir, s.rows, k) && k !in b.seen && s.rows[k].Cell() !in s.dirty
      ensures WillRemark(s, s.rows[k].Cell())
    {
      assert StillComing(s, k);
      var id :| id in s.pending && id < |s.log| && s.log[id].wellFormed && s.log[id].RowKey() == k;
      RowOfEntry(s, id);
    }
  }

  /** A row a commit has just added comes from an entry that is still to be marked. */
  lemma {:induction false} NewRowWillRemark(s: State, c: nat, k: Key)
    requires Inv(s) && Enabled(s, Commit(c)) && k in Apply(s, Commit(c)).rows && k !in s.rows
    ensures WillRemark(Apply(s, Commit(c)), Apply(s, Commit(c)).rows[k].Cell())
  {
    hide Balanced, UniqueKeys, RowsFromLog, Calendar.LocalDate, InsertBatch;
    var s' := Apply(s, Commit(c));
    var ids := s.Held(c).ids;
    StepKeepsInv(s, Commit(c));
    InsertBatchOrigin(s.rows, s.log, ids, k);
    assert forall id <- ids :: id in s.pending || Settled(s, id) by { assert BatchSound(s, s.Held(c)); }
    var id :| id in ids && id < |s.log| && s.log[id].wellFormed && s.log[id].RowKey() == k;
    RowOfEntry(s', id);
    MarkedHaveRows(s, id);
    assert !InMarked(s', id);
  }

  lemma {:induction false} MarkedHaveRows(s: State, id: nat)
    requires Inv(s) && id < |s.log| && s.log[id].wellFormed
    ensures InMarked(s, id) ==> s.log[id].RowKey() in s.rows
  {
    hide Balanced, UniqueKeys, RowsFromLog, Settled;
    assert forall c <- s.batches :: BatchSound(s, s.batches[c]);
  }

  lemma {:induction false} PendingUntilAcked(s: State, action: Action, id: nat)
    requires Enabled(s, action) && id in s.pending && !(action.Ack? && id in s.Held(action.consumer).ids)
    ensures id in Apply(s, action).pending
  {
    hide Calendar.LocalDate, InsertBatch, Malformed, CellsOf;
  }

  lemma {:induction false} MarkedByMark(s: State, action: Action, id: nat)
    requires Enabled(s, action) && InMarked(Apply(s, action), id)
    ensures InMarked(s, id) || (action.Mark? && id in s.Held(action.consumer).ids)
  {
    hide Calendar.LocalDate, InsertBatch, Malformed, CellsOf;
    var s' := Apply(s, action);
    var c :| c in s'.batches && HoldsAt(s', c, Marked) && id in s'.batches[c].ids;
    assert HoldsAt(s, c, Marked) || (action.Mark? && c == action.consumer);
  }

  lemma {:induction false} MarkDirties(s: State, c: nat, id: nat)
    requires Enabled(s, Mark(c)) && id in s.Held(c).ids && id < |s.log| && s.log[id].wellFormed
    ensures s.log[id].Cell() in Apply(s, Mark(c)).dirty
  {
    hide Calendar.LocalDate;
  }

  /** An entry that will be marked stays so, or has just been. */
  lemma {:induction false} RemarkKept(s: State, action: Action, cell: (nat, int))
    requires Inv(s) && Enabled(s, action) && !action.Clean? && WillRemark(s, cell)
    ensures cell in Apply(s, action).dirty || WillRemark(Apply(s, action), cell)
  {
    hide Inv, Calendar.LocalDate, Apply, InMarked;
    var s' := Apply(s, action);
    StepMonotone(s, action);
    var id :| id in s.pending && id < |s.log| && s.log[id].wellFormed && s.log[id].Cell() == cell && !InMarked(s, id);
    assert s'.log[id] == s.log[id];
    if action.Mark? && id in s.Held(action.consumer).ids {
      MarkDirties(s, action.consumer, id);
    } else {
      AckedWasMarked(s, action, id);
      PendingUntilAcked(s, action, id);
      if InMarked(s', id) {
        MarkedByMark(s, action, id);
      }
    }
  }

  lemma {:induction false} AckedWasMarked(s: State, action: Action, id: nat)
    requires Enabled(s, action) && !InMarked(s, id)
    ensures !(action.Ack? && id in s.Held(action.consumer).ids)
  {
    assert action.Ack? ==> HoldsAt(s, action.consumer, Marked);
  }

  lemma {:induction false} StepKeepsSound(dir: Directory, b: Books, step: Step)
    requires Sound(dir, b) && CanStep(b, step)
    ensures Sound(dir, Next(dir, b, step))
  {
    hide Exact, Aggregate, CellRows, PeriodRows, Whole, Apply, WillRemark, GroupOf, Calendar.LocalDate;
    var s, b' := b.pipe, Next(dir, b, step);
    StepKeepsExact(dir, b, step);
    forall k | k in b'.pipe.rows && Counts(dir, b'.pipe.rows, k) && k !in b'.seen
      ensures b'.pipe.rows[k].Cell() in b'.pipe.dirty || WillRemark(b'.pipe, b'.pipe.rows[k].Cell())
    {
      match step
      case Drain(action) => DrainCovers(dir, b, action, k);
      case DirtyPass =>
        CleanOnlyCleans(s, s.dirty);
        PassCovers(dir, b, k);
        ClearKeepsRemark(s, s.dirty, s.rows[k].Cell());
      case PeriodPass(_) =>
    }
  }

  lemma {:induction false} DrainCovers(dir: Directory, b: Books, action: Action, k: Key)
    requires Sound(dir, b) && CanStep(b, Step.Drain(action)) && Counts(dir, Apply(b.pipe, action).rows, k) && k !in b.seen
    ensures var s' := Apply(b.pipe, action); s'.rows[k].Cell() in s'.dirty || WillRemark(s', s'.rows[k].Cell())
  {
    hide Inv, Counted, Rollup, PeriodMatches, WillRemark, GroupOf, Calendar.LocalDate;
    var s := b.pipe;
    StepMonotone(s, action);
    if k !in s.rows {
      NewRowWillRemark(s, action.consumer, k);
    } else if s.rows[k].Cell() !in s.dirty {
      RemarkKept(s, action, s.rows[k].Cell());
    }
  }

  lemma {:induction false} PassCovers(dir: Directory, b: Books, k: Key)
    requires Sound(dir, b) && Counts(dir, b.pipe.rows, k) && k !in b.seen + CellRows(b.pipe.rows, b.pipe.dirty)
    ensures WillRemark(b.pipe, b.pipe.rows[k].Cell())
  {
    hide Inv, Counted, Rollup, PeriodMatches, GroupOf, Calendar.LocalDate, CellRows;
    BooksConsistent(b.pipe);
    CellRowsExact(b.pipe.rows, b.pipe.dirty, k);
  }

  lemma {:induction false} CleanOnlyCleans(s: State, cells: set<(nat, int)>)
    ensures Apply(s, Clean(cells)) == s.(dirty := s.dirty - cells)
  {
  }

  lemma {:induction false} ClearKeepsRemark(s: State, cells: set<(nat, int)>, cell: (nat, int))
    ensures WillRemark(Apply(s, Clean(cells)), cell) <==> WillRemark(s, cell)
  {
    hide Calendar.LocalDate;
    var s' := Apply(s, Clean(cells));
    forall id: nat ensures InMarked(s', id) <==> InMarked(s, id) {
      assert forall c: nat :: HoldsAt(s', c, Marked) <==> HoldsAt(s, c, Marked);
    }
  }

  lemma {:induction false} RunKeepsSound(dir: Directory, b: Books, run: seq<Step>)
    requires Sound(dir, b) && CanRun(dir, b, run)
    ensures Sound(dir, BooksAfter(dir, b, run))
    decreases run
  {
    hide Sound, Next, CanStep;
    if run != [] {
      StepKeepsSound(dir, b, run[0]);
      RunKeepsSound(dir, Next(dir, b, run[0]), run[1..]);
    }
  }

  /** Quiet and sound means exact. */
  lemma {:induction false} SoundIsNotShort(dir: Directory, b: Books)
    requires Sound(dir, b)
    ensures !Short(dir, b)
  {
    hide Inv, Rollup, PeriodMatches, GroupOf, Calendar.LocalDate;
    if b.pipe.pending == map[] && b.pipe.dirty == {} {
      forall g: Grain ensures Rollup(b.table, g) == |BillableIn(dir, b.pipe.rows, g)| {
        assert Counted(dir, b.pipe.rows, b.seen, g) == BillableIn(dir, b.pipe.rows, g);
      }
    }
  }

  lemma {:induction false} CoveredClearKeepsSound(dir: Directory, b: Books, cells: set<(nat, int)>)
    requires Sound(dir, b) && !Uncovered(dir, b, cells)
    ensures Sound(dir, Cleared(b, cells))
  {
    hide Exact, WillRemark, GroupOf, Calendar.LocalDate;
    ClearKeepsExact(dir, b, cells);
    forall k | k in b.pipe.rows && Counts(dir, b.pipe.rows, k) && k !in b.seen && b.pipe.rows[k].Cell() !in b.pipe.dirty - cells
      ensures WillRemark(Cleared(b, cells).pipe, b.pipe.rows[k].Cell())
    {
      ClearKeepsRemark(b.pipe, cells, b.pipe.rows[k].Cell());
    }
  }

  // ----- The way to lose it -----

  function MarkedConsumers(s: State): set<nat> {
    set c | c in s.batches && HoldsAt(s, c, Marked)
  }

  /** Everyone who has marked acks. */
  lemma {:induction false} AckMarked(dir: Directory, b: Books) returns (run: seq<Step>)
    ensures CanRun(dir, b, run)
    ensures var b' := BooksAfter(dir, b, run);
            && b'.table == b.table && b'.seen == b.seen
            && b'.pipe.rows == b.pipe.rows && b'.pipe.log == b.pipe.log && b'.pipe.dirty == b.pipe.dirty
            && MarkedConsumers(b'.pipe) == {}
            && forall id: nat :: id in b'.pipe.pending <==> id in b.pipe.pending && !InMarked(b.pipe, id)
    decreases |MarkedConsumers(b.pipe)|
  {
    var s := b.pipe;
    if MarkedConsumers(s) == {} {
      run := [];
      assert forall id: nat :: !InMarked(s, id) by {
        assert forall c <- s.batches :: !HoldsAt(s, c, Marked) by { assert forall c <- s.batches :: c !in MarkedConsumers(s); }
      }
    } else {
      var c :| c in MarkedConsumers(s);
      var next := Next(dir, b, Step.Drain(Ack(c)));
      assert MarkedConsumers(next.pipe) == MarkedConsumers(s) - {c};
      var rest := AckMarked(dir, next);
      run := [Step.Drain(Ack(c))] + rest;
      assert run[1..] == rest;
      forall id: nat ensures InMarked(s, id) <==> InMarked(next.pipe, id) || id in s.Held(c).ids {
        AckUnmarks(s, c, id);
      }
    }
  }

  lemma {:induction false} AckUnmarks(s: State, c: nat, id: nat)
    requires Enabled(s, Ack(c)) && c in s.batches
    ensures InMarked(s, id) <==> InMarked(Apply(s, Ack(c)), id) || id in s.Held(c).ids
  {
    var s' := Apply(s, Ack(c));
    assert HoldsAt(s, c, Marked) && s.Held(c) == s.batches[c];
    forall d | d in s.batches && d != c ensures d in s'.batches && s'.batches[d] == s.batches[d] && (HoldsAt(s', d, Marked) <==> HoldsAt(s, d, Marked)) {
    }
    if InMarked(s', id) {
      var d :| d in s'.batches && HoldsAt(s', d, Marked) && id in s'.batches[d].ids;
      assert d != c;
    }
  }

  lemma {:induction false} Enumerate(ids: set<nat>) returns (listed: seq<nat>)
    ensures forall id: nat :: id in listed <==> id in ids
    decreases |ids|
  {
    if ids == {} {
      listed := [];
    } else {
      var id :| id in ids;
      var rest := Enumerate(ids - {id});
      listed := [id] + rest;
    }
  }

  lemma {:induction false} Prepend(dir: Directory, b: Books, step: Step, rest: seq<Step>)
    requires CanStep(b, step) && CanRun(dir, Next(dir, b, step), rest)
    ensures CanRun(dir, b, [step] + rest)
    ensures BooksAfter(dir, b, [step] + rest) == BooksAfter(dir, Next(dir, b, step), rest)
  {
    hide CanStep, Next;
    assert ([step] + rest)[1..] == rest;
  }

  lemma {:induction false} Joined(dir: Directory, b: Books, one: seq<Step>, two: seq<Step>)
    requires CanRun(dir, b, one) && CanRun(dir, BooksAfter(dir, b, one), two)
    ensures CanRun(dir, b, one + two)
    ensures BooksAfter(dir, b, one + two) == BooksAfter(dir, BooksAfter(dir, b, one), two)
    decreases one
  {
    hide CanStep, Next;
    if one == [] {
      assert one + two == two;
    } else {
      Joined(dir, Next(dir, b, one[0]), one[1..], two);
      assert one + two == [one[0]] + (one[1..] + two);
      Prepend(dir, b, one[0], one[1..] + two);
    }
  }

  lemma {:induction false} Claimed(s: State, c: nat, ids: seq<nat>)
    requires Enabled(s, Reclaim(c, ids)) && forall id: nat :: id in ids <==> id in s.pending
    ensures var s' := Apply(s, Reclaim(c, ids));
            && HoldsAt(s', c, Fetched) && s'.Held(c).ids == ids && s'.pending.Keys == s.pending.Keys
            && s'.log == s.log && s'.rows == s.rows && s'.dirty == s.dirty
  {
  }

  /** A consumer restarts and claims everything that is pending. */
  lemma {:induction false} ClaimAll(s: State, c: nat, ids: seq<nat>)
    requires Inv(s) && forall id: nat :: id in ids <==> id in s.pending
    ensures Enabled(s, Crash(c)) && Enabled(Apply(s, Crash(c)), Reclaim(c, ids))
    ensures var s' := Apply(Apply(s, Crash(c)), Reclaim(c, ids));
            && Inv(s') && HoldsAt(s', c, Fetched) && s'.Held(c).ids == ids && s'.pending.Keys == s.pending.Keys
            && s'.log == s.log && s'.rows == s.rows && s'.dirty == s.dirty
  {
    hide Inv;
    var s1 := Apply(s, Crash(c));
    assert s1.Held(c).NoBatch? && s1.pending == s.pending;
    StepKeepsInv(s, Crash(c));
    StepKeepsInv(s1, Reclaim(c, ids));
    Claimed(s1, c, ids);
  }

  /** It finishes them and a dirty pass follows: nothing pending, nothing dirty, and of the rows
      there were only those of the dirty and the pending cells have been taken. */
  lemma {:induction false} FinishAll(dir: Directory, b: Books, c: nat, ids: seq<nat>) returns (run: seq<Step>)
    requires Exact(dir, b) && forall id: nat :: id in ids <==> id in b.pipe.pending
    ensures CanRun(dir, b, run)
    ensures var b' := BooksAfter(dir, b, run);
            && b'.pipe.pending == map[] && b'.pipe.dirty == {}
            && forall k <- b.pipe.rows :: k in b'.pipe.rows && b'.pipe.rows[k] == b.pipe.rows[k]
                 && (k in b'.seen ==> k in b.seen || b.pipe.rows[k].Cell() in b.pipe.dirty + CellsOf(b.pipe.log, ids))
  {
    hide Exact, Inv, InsertBatch, Calendar.LocalDate, Aggregate, CellRows, CellsOf, Malformed, Settled;
    assert Inv(b.pipe) by { ExactParts(dir, b); }
    ClaimAll(b.pipe, c, ids);
    var s2 := Apply(Apply(b.pipe, Crash(c)), Reclaim(c, ids));
    FinishedSettles(s2, c);
    InsertStores(s2.rows, s2.log, ids);
    var six := [Step.Drain(Crash(c)), Step.Drain(Reclaim(c, ids))] + WorkSteps(c);
    SixSteps(dir, b, c, ids);
    var b6 := b.(pipe := Finished(s2, c));
    RunKeepsExact(dir, b, six);
    NothingLeft(b6.pipe.pending, s2.pending, ids);
    LastPass(dir, b6);
    assert CanRun(dir, b6, [DirtyPass]) && BooksAfter(dir, b6, [DirtyPass]) == Next(dir, b6, DirtyPass) by {
      Prepend(dir, b6, DirtyPass, []);
    }
    Joined(dir, b, six, [DirtyPass]);
    run := six + [DirtyPass];
  }

  lemma {:induction false} NothingLeft(left: map<nat, nat>, pending: map<nat, nat>, ids: seq<nat>)
    requires left == pending - (set id | id in ids) && forall id <- pending :: id in ids
    ensures left == map[]
  {
    assert left.Keys == {};
  }

  /** From a fetched batch to its ack. */
  function WorkSteps(c: nat): seq<Step> {
    [Step.Drain(DeadLetter(c)), Step.Drain(Commit(c)), Step.Drain(Mark(c)), Step.Drain(Ack(c))]
  }

  lemma {:induction false} WorkRuns(dir: Directory, b: Books, c: nat)
    requires HoldsAt(b.pipe, c, Fetched)
    ensures CanRun(dir, b, WorkSteps(c)) && BooksAfter(dir, b, WorkSteps(c)) == b.(pipe := Finished(b.pipe, c))
  {
    hide InsertBatch, CellsOf, Malformed, CanRun, BooksAfter, Calendar.LocalDate;
    var run := WorkSteps(c);
    var b1 := Next(dir, b, run[0]);
    var b2 := Next(dir, b1, run[1]);
    var b3 := Next(dir, b2, run[2]);
    FourSteps(dir, b, run, b1, b2, b3, Next(dir, b3, run[3]));
  }

  lemma {:induction false} FourSteps(dir: Directory, b: Books, run: seq<Step>, b1: Books, b2: Books, b3: Books,
      b4: Books)
    requires |run| == 4 && CanStep(b, run[0]) && b1 == Next(dir, b, run[0]) && CanStep(b1, run[1]) && b2 == Next(dir, b1, run[1])
    requires CanStep(b2, run[2]) && b3 == Next(dir, b2, run[2]) && CanStep(b3, run[3]) && b4 == Next(dir, b3, run[3])
    ensures CanRun(dir, b, run) && BooksAfter(dir, b, run) == b4
  {
    hide CanStep, Next;
    assert run[3..][1..] == [] && run[3..][0] == run[3] && run[2..][1..] == run[3..] && run[1..][1..] == run[2..];
    assert CanRun(dir, b3, run[3..]) && BooksAfter(dir, b3, run[3..]) == b4;
    assert CanRun(dir, b2, run[2..]) && BooksAfter(dir, b2, run[2..]) == b4;
    assert CanRun(dir, b1, run[1..]) && BooksAfter(dir, b1, run[1..]) == b4;
  }

  lemma {:induction false} SixSteps(dir: Directory, b: Books, c: nat, ids: seq<nat>)
    requires Inv(b.pipe) && forall id: nat :: id in ids <==> id in b.pipe.pending
    requires Enabled(Apply(b.pipe, Crash(c)), Reclaim(c, ids))
    requires HoldsAt(Apply(Apply(b.pipe, Crash(c)), Reclaim(c, ids)), c, Fetched)
    ensures var run := [Step.Drain(Crash(c)), Step.Drain(Reclaim(c, ids))] + WorkSteps(c);
            && CanRun(dir, b, run)
            && BooksAfter(dir, b, run) == b.(pipe := Finished(Apply(Apply(b.pipe, Crash(c)), Reclaim(c, ids)), c))
  {
    hide Inv, Apply, CanRun, BooksAfter, Finished, WorkSteps;
    var b1 := Next(dir, b, Step.Drain(Crash(c)));
    var b2 := Next(dir, b1, Step.Drain(Reclaim(c, ids)));
    WorkRuns(dir, b2, c);
    Prepend(dir, b1, Step.Drain(Reclaim(c, ids)), WorkSteps(c));
    Prepend(dir, b, Step.Drain(Crash(c)), [Step.Drain(Reclaim(c, ids))] + WorkSteps(c));
    assert [Step.Drain(Crash(c)), Step.Drain(Reclaim(c, ids))] + WorkSteps(c)
        == [Step.Drain(Crash(c))] + ([Step.Drain(Reclaim(c, ids))] + WorkSteps(c));
  }

  lemma {:induction false} LastPass(dir: Directory, b: Books)
    requires Exact(dir, b)
    ensures var b' := Next(dir, b, DirtyPass);
            && b'.pipe == b.pipe.(dirty := {})
            && forall k <- b.pipe.rows :: k in b'.seen <==> k in b.seen || b.pipe.rows[k].Cell() in b.pipe.dirty
  {
    hide Inv, Counted, Rollup, PeriodMatches, Calendar.LocalDate, CellRows, Aggregate;
    BooksConsistent(b.pipe);
    forall k | k in b.pipe.rows ensures k in CellRows(b.pipe.rows, b.pipe.dirty) <==> b.pipe.rows[k].Cell() in b.pipe.dirty {
      CellRowsExact(b.pipe.rows, b.pipe.dirty, k);
    }
  }

  /** The bad run: those that have marked ack, one consumer finishes the rest, and a dirty pass
      finds the row's cell clean. */
  lemma {:induction false} UncoveredIsLost(dir: Directory, b: Books, cells: set<(nat, int)>)
    requires Sound(dir, b) && Uncovered(dir, b, cells)
    ensures LosesARow(dir, Cleared(b, cells))
  {
    hide Inv, Counted, Rollup, PeriodMatches, Calendar.LocalDate, GroupOf, WillRemark, CellsOf, Short, Exact, InMarked;
    var k :| k in b.pipe.rows && b.pipe.rows[k].Cell() in cells && Counts(dir, b.pipe.rows, k) && k !in b.seen
      && !WillRemark(b.pipe, b.pipe.rows[k].Cell());
    var cleared := Cleared(b, cells);
    CleanOnlyCleans(b.pipe, cells);
    ClearKeepsExact(dir, b, cells);
    ClearKeepsRemark(b.pipe, cells, b.pipe.rows[k].Cell());
    var acks := AckMarked(dir, cleared);
    var acked := BooksAfter(dir, cleared, acks);
    RunKeepsExact(dir, cleared, acks);
    var ids := Enumerate(acked.pipe.pending.Keys);
    NotPending(cleared.pipe, acked.pipe.log, ids, cleared.pipe.rows[k].Cell());
    var rest := FinishAll(dir, acked, 0, ids);
    Joined(dir, cleared, acks, rest);
    RunKeepsExact(dir, acked, rest);
    LostIsShort(dir, BooksAfter(dir, acked, rest), k);
    assert CanRun(dir, cleared, acks + rest);
  }

  lemma {:induction false} NotPending(s: State, log: seq<Event>, ids: seq<nat>, cell: (nat, int))
    requires !WillRemark(s, cell) && log == s.log && forall id <- ids :: id in s.pending && !InMarked(s, id)
    ensures cell !in CellsOf(log, ids)
  {
    hide InMarked, Calendar.LocalDate;
  }

  lemma {:induction false} LostIsShort(dir: Directory, b: Books, k: Key)
    requires Exact(dir, b) && b.pipe.pending == map[] && b.pipe.dirty == {} && Counts(dir, b.pipe.rows, k) && k !in b.seen
    ensures Short(dir, b)
  {
    hide Inv, Rollup, PeriodMatches, Calendar.LocalDate, GroupOf;
    var g := GroupOf(dir, b.pipe.rows[k]).value;
    var counted, all := Counted(dir, b.pipe.rows, b.seen, g), BillableIn(dir, b.pipe.rows, g);
    assert k in all && k !in counted;
    SubsetSize(counted, all);
  }

  // ----- The exact condition -----

  /** The clear of a pass can lose a row, some way of going on ending quiet with a rollup short,
      exactly when it clears the cell of a counting row that no pass has taken and that no entry
      still to be marked will make dirty again. `b` may be any state the passes and the drain reach,
      the one between a pass's commit and its clear in particular. */
  lemma {:induction false} ClearSafeExactly(dir: Directory, b: Books, cells: set<(nat, int)>)
    requires Sound(dir, b)
    ensures LosesARow(dir, Cleared(b, cells)) <==> Uncovered(dir, b, cells)
  {
    hide Sound, Short, Uncovered, CanRun, BooksAfter;
    if Uncovered(dir, b, cells) {
      UncoveredIsLost(dir, b, cells);
    } else {
      CoveredClearKeepsSound(dir, b, cells);
      forall run: seq<Step> | CanRun(dir, Cleared(b, cells), run) ensures !Short(dir, BooksAfter(dir, Cleared(b, cells), run)) {
        RunKeepsSound(dir, Cleared(b, cells), run);
        SoundIsNotShort(dir, BooksAfter(dir, Cleared(b, cells), run));
      }
    }
  }

  lemma {:induction false} AggregateKeepsSound(dir: Directory, b: Books, cells: set<(nat, int)>)
    requires Sound(dir, b)
    ensures Sound(dir, Aggregated(dir, b, CellRows(b.pipe.rows, cells)))
  {
    hide Exact, WillRemark, Counts, Calendar.LocalDate, CellRows, Aggregate, Whole;
    SelectionsAreWhole(dir, b, cells, Account(0, 0));
    AggregateKeepsExact(dir, b, CellRows(b.pipe.rows, cells));
  }

  /** Where a pass stands that read the dirty set at `b` and has committed after `reading`. */
  function Selected(dir: Directory, b: Books, reading: seq<Step>): Books
    requires CanRun(dir, b, reading)
  {
    var read := BooksAfter(dir, b, reading);
    Aggregated(dir, read, CellRows(read.pipe.rows, b.pipe.dirty))
  }

  /** A pass as the code makes it, from any reachable state: the cells are read, `reading` runs, their
      rows are aggregated and committed, `writing` runs, and the cells are cleared. */
  lemma {:induction false} SplitPassExactly(dir: Directory, run: seq<Step>, reading: seq<Step>, writing: seq<Step>)
    requires CanRun(dir, NO_BOOKS, run) && CanRun(dir, BooksAfter(dir, NO_BOOKS, run), reading)
    requires CanRun(dir, Selected(dir, BooksAfter(dir, NO_BOOKS, run), reading), writing)
    ensures var cells := BooksAfter(dir, NO_BOOKS, run).pipe.dirty;
            var b := BooksAfter(dir, Selected(dir, BooksAfter(dir, NO_BOOKS, run), reading), writing);
            LosesARow(dir, Cleared(b, cells)) <==> Uncovered(dir, b, cells)
  {
    hide BooksInv, Sound, CanRun, BooksAfter, LosesARow, Uncovered, Aggregated, CellRows;
    NoBooksInv(dir);
    BooksAreSound(dir, NO_BOOKS);
    RunKeepsSound(dir, NO_BOOKS, run);
    var start := BooksAfter(dir, NO_BOOKS, run);
    RunKeepsSound(dir, start, reading);
    AggregateKeepsSound(dir, BooksAfter(dir, start, reading), start.pipe.dirty);
    RunKeepsSound(dir, Selected(dir, start, reading), writing);
    ClearSafeExactly(dir, BooksAfter(dir, Selected(dir, start, reading), writing), start.pipe.dirty);
  }

  /** Two requests of one local day. The second is drained between the aggregation and the clear,
      into a cell that was already dirty: nothing is pending, nothing is dirty, and the rollup
      lacks a row for good, or until the whole period is aggregated. */
  lemma {:induction false} ClearCanLoseARow() returns (dir: Directory, before: seq<Action>, between: seq<Action>,
      g: Grain)
    ensures Legal(EMPTY, before) && Legal(After(EMPTY, before), between)
    ensures var sampled := After(EMPTY, before); var table := Aggregate(dir, map[], sampled.rows, CellRows(sampled.rows, sampled.dirty));
            var after := Apply(After(sampled, between), Clean(sampled.dirty));
            && after.pending == map[] && after.dirty == {} && after.delivered == |after.log|
            && Rollup(table, g) < |BillableIn(dir, after.rows, g)|
  {
    hide Legal, After, Aggregate, CellRows, Calendar.LocalDate, Calendar.PeriodStartOf, BillableIn, Rollup, Apply;
    var a := Account(1, Calendar.PeriodStartOf(0));
    var one, two := Event(1, a, 1, 0, true, true), Event(2, a, 1, 0, true, true);
    dir := Directory(_ => [Assignment(1, 0, 0, None)], {1});
    g := Grain(1, Calendar.LocalDate(0), 1, 0, 1);
    before, between := ServeOne(one, 7), ServeOne(two, 7);
    ServedAlone(EMPTY, one, 7);
    var sampled := After(EMPTY, before);
    assert sampled.rows == map[one.RowKey() := one] && sampled.dirty == {one.Cell()};
    ServedAlone(sampled, two, 7);
    var rows := After(sampled, between).rows;
    CleanOnlyCleans(After(sampled, between), sampled.dirty);
    assert one.Cell() == two.Cell();
    BothCount(dir, rows, one, two, g);
    FewRows(dir, sampled.rows, CellRows(sampled.rows, sampled.dirty), g);
  }

  lemma {:induction false} BothCount(dir: Directory, rows: Rows, one: Event, two: Event, g: Grain)
    requires rows == map[one.RowKey() := one][two.RowKey() := two] && one.RowKey() != two.RowKey()
    requires one.billable && two.billable && GroupOf(dir, one) == Some(g) && GroupOf(dir, two) == Some(g)
    ensures |BillableIn(dir, rows, g)| >= 2
  {
    hide GroupOf;
    assert {one.RowKey(), two.RowKey()} <= BillableIn(dir, rows, g);
    SubsetSize({one.RowKey(), two.RowKey()}, BillableIn(dir, rows, g));
  }

  lemma {:induction false} FewRows(dir: Directory, rows: Rows, selected: set<Key>, g: Grain)
    ensures Rollup(Aggregate(dir, map[], rows, selected), g) <= |rows|
  {
    hide GroupOf;
    SubsetSize(Counted(dir, rows, selected, g), rows.Keys);
  }
}
