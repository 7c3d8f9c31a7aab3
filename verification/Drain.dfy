/** The drain worker (src/meter/pipeline/drain.py): one consumer of the group, driving the shared
    Redis and Postgres one step at a time. Each call it makes is a step of the machine in
    Pipeline, so everything proved of all runs holds of every state it passes through. */
module Drain {
  import opened Wrappers
  import opened Pipeline
  import Rollups
  import Calendar

  lemma {:induction false} AfterAppend(s: State, run: seq<Action>, a: Action)
    requires Legal(s, run) && Enabled(After(s, run), a)
    ensures Legal(s, run + [a]) && After(s, run + [a]) == Apply(After(s, run), a)
    decreases run
  {
    hide Enabled, Apply;
    if run == [] {
      assert [a][1..] == [] && run + [a] == [a];
    } else {
      assert (run + [a])[1..] == run[1..] + [a];
      AfterAppend(Apply(s, run[0]), run[1..], a);
    }
  }

  /** Redis and Postgres as every worker shares them; `trace` is how they came to be so. */
  class Backend {
    var s: State
    ghost var trace: seq<Action>

    ghost predicate Valid()
      reads this
    {
      Legal(EMPTY, trace) && s == After(EMPTY, trace)
    }

    constructor ()
      ensures Valid() && s == EMPTY
    {
      s, trace := EMPTY, [];
    }

    method Do(a: Action)
      requires Valid() && Enabled(s, a)
      modifies this
      ensures Valid() && s == Apply(old(s), a) && trace == old(trace) + [a]
    {
      AfterAppend(EMPTY, trace, a);
      s, trace := Apply(s, a), trace + [a];
    }

    /** One transaction, one statement: the batch's rows are committed or nothing is. */
    method InsertRows(consumer: nat, records: seq<Event>) returns (inserted: nat)
      requires Valid() && Enabled(s, Commit(consumer))
      requires records == Rollups.Records(s.log, s.Held(consumer).ids)
      modifies this
      ensures Valid() && s == Apply(old(s), Commit(consumer)) && trace == old(trace) + [Commit(consumer)]
      ensures inserted == |s.rows| - |old(s).rows|
    {
      var stored, count := Rollups.InsertUsageEvents(s.rows, records);
      Rollups.OneStatementIsEnough(s.rows, s.log, s.Held(consumer).ids);
      AfterAppend(EMPTY, trace, Commit(consumer));
      trace := trace + [Commit(consumer)];
      s := s.(rows := stored, batches := s.batches[consumer := s.Held(consumer).(phase := Committed)]);
      inserted := count;
    }

    lemma {:induction false} Sound()
      requires Valid()
      ensures Inv(s)
    {
      EmptyInv();
      RunKeepsInv(EMPTY, trace);
    }
  }

  /** The first `count` candidates from `from` on, in id order, as XREADGROUP and XAUTOCLAIM
      return them. */
  function FirstOf(candidates: set<nat>, from: nat, upTo: nat, count: nat): (ids: seq<nat>)
    ensures forall id <- ids :: id in candidates && from <= id < upTo
    ensures |ids| <= count
    ensures ids == [] && count > 0 ==> forall id <- candidates :: !(from <= id < upTo)
    decreases upTo - from
  {
    if from >= upTo || count == 0 then []
    else if from in candidates then [from] + FirstOf(candidates, from + 1, upTo, count - 1)
    else FirstOf(candidates, from + 1, upTo, count)
  }

  /** In order of arrival, none twice. */
  ghost predicate Ascending(ids: seq<nat>) {
    forall i, j :: 0 <= i < j < |ids| ==> ids[i] < ids[j]
  }

  lemma {:induction false} AscendingAfter(first: nat, rest: seq<nat>)
    requires Ascending(rest) && forall id <- rest :: first < id
    ensures Ascending([first] + rest)
  {
    assert forall i :: 0 <= i < |rest| ==> rest[i] in rest;
  }

  /** They are in order, none twice, and whatever is left out comes after all of them. */
  lemma {:induction false} FirstOfIsFirst(candidates: set<nat>, from: nat, upTo: nat, count: nat)
    ensures var ids := FirstOf(candidates, from, upTo, count);
            && Ascending(ids)
            && forall id <- candidates :: from <= id < upTo && id !in ids ==> |ids| == count && forall taken <- ids :: taken < id
    decreases upTo - from
  {
    hide Ascending;
    if from >= upTo || count == 0 {
      assert Ascending([]) by { NoneAscend(); }
    } else if from in candidates {
      var rest := FirstOf(candidates, from + 1, upTo, count - 1);
      FirstOfIsFirst(candidates, from + 1, upTo, count - 1);
      AscendingAfter(from, rest);
      assert forall id: nat :: id in [from] + rest <==> id == from || id in rest;
    } else {
      FirstOfIsFirst(candidates, from + 1, upTo, count);
      assert forall id <- candidates :: id != from;
    }
  }

  lemma {:induction false} NoneAscend()
    ensures Ascending([])
  {
  }

  function Owned(pending: map<nat, nat>, consumer: nat): (ids: set<nat>)
    ensures forall id <- ids :: id in pending && pending[id] == consumer
  {
    set id | id in pending && pending[id] == consumer
  }

  function IdleOf(pending: map<nat, nat>, idle: set<nat>): (ids: set<nat>)
    ensures ids == pending.Keys * idle
  {
    set id | id in pending && id in idle
  }

  /** Some candidate has been delivered. */
  ghost predicate Waiting(candidates: set<nat>, s: State) {
    exists id <- candidates :: id < s.delivered
  }

  /** The batch is the first `count` of the candidates in order of arrival, and nothing new was
      delivered for it. */
  ghost predicate TakenFrom(s: State, s': State, consumer: nat, candidates: set<nat>, count: nat) {
    && s'.delivered == s.delivered && s'.Held(consumer).Batch?
    && var ids := s'.Held(consumer).ids;
       && |ids| <= count && (forall id <- ids :: id in candidates) && Ascending(ids)
       && forall id <- candidates :: id < s.delivered && id !in ids ==> |ids| == count && forall taken <- ids :: taken < id
  }

  /** The batch is the first `count` undelivered entries. */
  ghost predicate Delivered(s: State, s': State, consumer: nat, count: nat) {
    && s'.delivered == (if s.delivered + count < |s.log| then s.delivered + count else |s.log|)
    && s'.Held(consumer).Batch? && Ascending(s'.Held(consumer).ids)
    && forall id: nat :: id in s'.Held(consumer).ids <==> s.delivered <= id < s'.delivered
  }

  datatype DrainResult = DrainResult(entriesRead: nat, rowsInserted: int, duplicatesIgnored: int, deadLettered: nat, acked: int)

  const NOTHING := DrainResult(0, 0, 0, 0, 0)

  /** What a read does: entries become this consumer's pending ones, nothing else moves. */
  ghost predicate FetchedBy(s: State, s': State, consumer: nat) {
    && HoldsAt(s', consumer, Fetched) && s'.Held(consumer).ids != []
    && s'.log == s.log && s'.counters == s.counters && s'.orphans == s.orphans && s'.trimmed == s.trimmed
    && s'.rows == s.rows && s'.dead == s.dead && s'.dirty == s.dirty
    && s.delivered <= s'.delivered
    && (forall id: nat :: id in s'.pending <==> id in s.pending || s.delivered <= id < s'.delivered)
    && (forall id <- s'.Held(consumer).ids :: id in s'.pending)
    && (forall id <- s'.pending :: id in s'.Held(consumer).ids || (id in s.pending && s'.pending[id] == s.pending[id]))
  }

  lemma {:induction false} PendingTaken(s: State, a: Action, candidates: set<nat>, count: nat)
    requires Enabled(s, a) && (a.Redeliver? || a.Reclaim?) && a.ids == FirstOf(candidates, 0, s.delivered, count)
    ensures TakenFrom(s, Apply(s, a), a.consumer, candidates, count) && Ascending(Apply(s, a).Held(a.consumer).ids)
  {
    hide FirstOf, Calendar.LocalDate;
    FirstOfIsFirst(candidates, 0, s.delivered, count);
  }

  lemma {:induction false} SpanAscends(from: nat, upTo: nat)
    requires from <= upTo
    ensures Ascending(Span(from, upTo))
    decreases upTo
  {
    if from < upTo {
      var front := Span(from, upTo - 1);
      SpanAscends(from, upTo - 1);
      forall i | 0 <= i < |front| ensures front[i] < upTo - 1 {
        assert front[i] in front;
      }
    }
  }

  lemma {:induction false} NewTaken(s: State, c: nat, count: nat)
    requires Enabled(s, Deliver(c, count))
    ensures Delivered(s, Apply(s, Deliver(c, count)), c, count) && Ascending(Apply(s, Deliver(c, count)).Held(c).ids)
  {
    hide Span, Give;
    SpanAscends(s.delivered, Apply(s, Deliver(c, count)).delivered);
  }

  lemma {:induction false} ReadFetches(s: State, a: Action)
    requires Enabled(s, a) && (a.Deliver? || ((a.Redeliver? || a.Reclaim?) && a.ids != []))
    ensures FetchedBy(s, Apply(s, a), a.consumer)
  {
  }

  /** What one batch does to the shared state. */
  ghost predicate Drained(s: State, s': State, ids: seq<nat>) {
    && s'.log == s.log && s'.counters == s.counters && s'.orphans == s.orphans && s'.trimmed == s.trimmed
    && s'.rows == InsertBatch(s.rows, s.log, ids)
    && s'.dead == s.dead + Malformed(s.log, ids)
    && s'.dirty == s.dirty + CellsOf(s.log, ids)
    && s.delivered <= s'.delivered
    && (forall id <- ids :: id < s'.delivered && id !in s'.pending && (id in s.pending || s.delivered <= id))
    && (forall id: nat :: id in s'.pending ==> id in s.pending && s'.pending[id] == s.pending[id])
    && (forall id: nat :: id in s.pending || s.delivered <= id < s'.delivered ==> id in s'.pending || id in ids)
  }

  /** What the rest of the system may do beside one consumer. */
  predicate ByOthers(a: Action, consumer: nat) {
    match a
    case Capture(e, _, _) => Rollups.PeriodMatches(e)
    case Inject(_) => true
    case Deliver(c, _) => c != consumer
    case Redeliver(c, _) => c != consumer
    case Reclaim(c, _) => c != consumer
    case DeadLetter(c) => c != consumer
    case Commit(c) => c != consumer
    case Mark(c) => c != consumer
    case Ack(c) => c != consumer
    case Trim => true
    case Clean(_) => true
    case Crash(c) => c != consumer
  }

  /** Every entry of the log that can be stored is, as its own row. */
  ghost predicate AllStored(s: State) {
    forall id: nat :: id < |s.log| && s.log[id].wellFormed ==> HasItsRow(s, id)
  }

  class Drain {
    const backend: Backend
    const consumer: nat
    const batchSize: nat
    const reclaimIdle: int
    var recovering: bool
    var lastReclaim: Option<int>
    var partitions: set<int>

    ghost predicate Ready()
      reads this, backend
    {
      backend.Valid() && batchSize > 0 && backend.s.Held(consumer).NoBatch?
    }

    constructor (backend: Backend, consumer: nat, batchSize: nat, reclaimIdle: int)
      ensures this.backend == backend && this.consumer == consumer && this.batchSize == batchSize
      ensures recovering && lastReclaim.None? && partitions == {}
    {
      this.backend, this.consumer, this.batchSize, this.reclaimIdle := backend, consumer, batchSize, reclaimIdle;
      recovering, lastReclaim, partitions := true, None, {};
    }

    predicate ReclaimDue(now: int)
      reads this
    {
      lastReclaim.None? || now - lastReclaim.value >= reclaimIdle
    }

    /** Its own pending entries come first after a restart. */
    ghost predicate OwnFirst()
      reads this, backend
    {
      recovering && Waiting(Owned(backend.s.pending, consumer), backend.s)
    }

    /** Own pending entries first after a restart, then abandoned ones at most once per idle
        interval, then new ones. `idle` is what Redis says has been pending too long. */
    method Read(now: int, idle: set<nat>) returns (got: bool)
      requires Ready()
      modifies this`recovering, this`lastReclaim, backend
      ensures backend.Valid()
      ensures got ==> HoldsAt(backend.s, consumer, Fetched) && FetchedBy(old(backend.s), backend.s, consumer)
      ensures got ==> Ascending(backend.s.Held(consumer).ids)
      ensures !got ==> backend.s == old(backend.s) && backend.s.delivered >= |backend.s.log| && !recovering
      ensures recovering <==> old(OwnFirst())
      ensures old(OwnFirst()) ==> got && TakenFrom(old(backend.s), backend.s, consumer, Owned(old(backend.s).pending, consumer), batchSize)
      ensures lastReclaim == if old(!OwnFirst() && ReclaimDue(now)) then Some(now) else old(lastReclaim)
      ensures old(!OwnFirst() && ReclaimDue(now)) && Waiting(IdleOf(old(backend.s).pending, idle), old(backend.s)) ==>
        got && TakenFrom(old(backend.s), backend.s, consumer, IdleOf(old(backend.s).pending, idle), batchSize)
      ensures old(!OwnFirst()) && !(old(ReclaimDue(now)) && Waiting(IdleOf(old(backend.s).pending, idle), old(backend.s))) && got ==>
        Delivered(old(backend.s), backend.s, consumer, batchSize)
      ensures old(lastReclaim).Some? && now - old(lastReclaim).value < reclaimIdle ==> lastReclaim == old(lastReclaim)
      ensures old(!OwnFirst()) && (old(lastReclaim).None? || now - old(lastReclaim).value >= reclaimIdle) ==> lastReclaim == Some(now)
      ensures old(recovering) && !recovering ==> forall id <- Owned(old(backend.s).pending, consumer) :: id >= old(backend.s).delivered
      ensures !old(recovering) ==> !recovering
    {
      hide Inv, Legal, After, FetchedBy, Calendar.LocalDate, TakenFrom, Delivered, Ascending;
      if recovering {
        var own := FirstOf(Owned(backend.s.pending, consumer), 0, backend.s.delivered, batchSize);
        if own != [] {
          assert own[0] in own;
          ReadFetches(backend.s, Redeliver(consumer, own));
          PendingTaken(backend.s, Redeliver(consumer, own), Owned(backend.s.pending, consumer), batchSize);
          backend.Do(Redeliver(consumer, own));
          return true;
        }
        recovering := false;
      }
      if ReclaimDue(now) {
        lastReclaim := Some(now);
        var reclaimed := FirstOf(IdleOf(backend.s.pending, idle), 0, backend.s.delivered, batchSize);
        if reclaimed != [] {
          assert reclaimed[0] in reclaimed;
          ReadFetches(backend.s, Reclaim(consumer, reclaimed));
          PendingTaken(backend.s, Reclaim(consumer, reclaimed), IdleOf(backend.s.pending, idle), batchSize);
          backend.Do(Reclaim(consumer, reclaimed));
          return true;
        }
      }
      if backend.s.delivered < |backend.s.log| {
        ReadFetches(backend.s, Deliver(consumer, batchSize));
        NewTaken(backend.s, consumer, batchSize);
        backend.Do(Deliver(consumer, batchSize));
        return true;
      }
      return false;
    }

    /** The batch in hand: dead-letter, commit, mark, and only then ack. */
    method Process() returns (result: DrainResult)
      requires backend.Valid() && HoldsAt(backend.s, consumer, Fetched)
      modifies this`partitions, backend
      ensures backend.Valid() && backend.s == Finished(old(backend.s), consumer)
      ensures result.entriesRead == |old(backend.s).Held(consumer).ids|
      ensures result.rowsInserted == |backend.s.rows| - |old(backend.s).rows|
      ensures result.rowsInserted + result.duplicatesIgnored == |Rollups.Records(backend.s.log, old(backend.s).Held(consumer).ids)|
      ensures result.deadLettered == |Malformed(backend.s.log, old(backend.s).Held(consumer).ids)|
      ensures result.acked == |old(backend.s).pending| - |backend.s.pending|
      ensures partitions == old(partitions)
        + set e | e in Rollups.Records(backend.s.log, old(backend.s).Held(consumer).ids) :: Calendar.PeriodMonth(e.occurredAt)
    {
      hide Inv, Legal, After, Calendar.LocalDate, InsertBatch, Malformed, Rollups.Records, CellsOf,
           Calendar.PeriodMonth;
      var entries := backend.s.Held(consumer).ids;
      backend.Sound();
      HeldDelivered(backend.s, consumer);
      var records, dead := Parse(backend.s.log, entries);
      backend.Do(DeadLetter(consumer));
      partitions := partitions + set e | e in records :: Calendar.PeriodMonth(e.occurredAt);
      var inserted := backend.InsertRows(consumer, records);
      backend.Do(Mark(consumer));
      var before := |backend.s.pending|;
      backend.Do(Ack(consumer));
      result := DrainResult(|entries|, inserted, |records| - inserted, |dead|, before - |backend.s.pending|);
    }

    /** One batch: everything read is stored or dead-lettered before it is acked, and the counts
        returned are what happened to the tables. */
    method RunOnce(now: int, idle: set<nat>) returns (result: DrainResult, ghost ids: seq<nat>)
      requires Ready()
      modifies this, backend
      ensures Ready()
      ensures result.entriesRead == |ids| && Drained(old(backend.s), backend.s, ids)
      ensures forall id <- ids :: id < |backend.s.log| && Settled(backend.s, id)
      ensures result.rowsInserted == |backend.s.rows| - |old(backend.s).rows|
      ensures result.rowsInserted + result.duplicatesIgnored == |Rollups.Records(backend.s.log, ids)|
      ensures result.deadLettered == |Malformed(backend.s.log, ids)|
      ensures result.acked == |ids| && backend.s.Outstanding() == old(backend.s).Outstanding() - |ids|
      ensures ids == [] ==> backend.s == old(backend.s) && backend.s.delivered >= |backend.s.log| && !recovering
      ensures old(recovering) && !recovering ==> forall id <- Owned(old(backend.s).pending, consumer) :: id >= old(backend.s).delivered
      ensures !old(recovering) ==> !recovering
    {
      hide Inv, Legal, After, Calendar.LocalDate, Settled, Finished, FetchedBy, Drained, InsertBatch, Malformed,
           Rollups.Records, CellsOf, Ascending;
      backend.Sound();
      var got := Read(now, idle);
      if !got {
        result, ids := NOTHING, [];
        NothingDrained(backend.s);
      } else {
        ids := backend.s.Held(consumer).ids;
        backend.Sound();
        BatchDrained(old(backend.s), backend.s, consumer);
        ghost var fetched := backend.s;
        result := Process();
        backend.Sound();
        OutstandingDrops(old(backend.s), fetched, backend.s, consumer);
      }
    }

    /** Drain until a read comes back empty or the batch cap is hit. From a fresh start, an
        empty read with no entry left to another consumer means nothing is outstanding and
        every well-formed entry ever captured has its row. */
    method DrainUntilEmpty(maxBatches: nat, now: nat -> int, idle: nat -> set<nat>) returns (read: nat, inserted: int,
        emptied: bool)
      requires Ready()
      modifies this, backend
      ensures Ready()
      ensures backend.s.log == old(backend.s).log
      ensures inserted == |backend.s.rows| - |old(backend.s).rows|
      ensures RowsKept(old(backend.s).rows, backend.s.rows)
      ensures backend.s.counters == old(backend.s).counters && backend.s.orphans == old(backend.s).orphans
      ensures old(backend.s).pending == map[] && maxBatches > |old(backend.s).log| - old(backend.s).delivered ==>
        backend.s.Outstanding() == 0 && AllStored(backend.s)
      ensures read == old(backend.s).Outstanding() - backend.s.Outstanding() && (emptied || read >= maxBatches)
      ensures emptied ==> !recovering && backend.s.delivered >= |backend.s.log|
      ensures emptied && old(recovering) && Alone(old(backend.s), consumer)
           ==> backend.s.Outstanding() == 0
               && forall id: nat :: id < |backend.s.log| && backend.s.log[id].wellFormed ==> backend.s.log[id].RowKey() in backend.s.rows
    {
      hide Inv, Legal, After, Settled, InsertBatch, Malformed, Rollups.Records, CellsOf, Drained, Alone, Owned,
           AllStored;
      read, inserted, emptied := 0, 0, false;
      ghost var quiet, backlog := backend.s.pending == map[], |backend.s.log| - backend.s.delivered;
      ghost var alone := Alone(backend.s, consumer);
      var i := 0;
      while i < maxBatches && !emptied
        invariant Ready()
        invariant backend.s.log == old(backend.s).log
        invariant inserted == |backend.s.rows| - |old(backend.s).rows|
        invariant read == old(backend.s).Outstanding() - backend.s.Outstanding() && (emptied || read >= i)
        invariant RowsKept(old(backend.s).rows, backend.s.rows)
        invariant backend.s.counters == old(backend.s).counters && backend.s.orphans == old(backend.s).orphans
        invariant quiet ==> backend.s.pending == map[] && (emptied || i <= backlog - (|backend.s.log| - backend.s.delivered))
        invariant emptied ==> !recovering && backend.s.delivered >= |backend.s.log|
        invariant alone ==> Alone(backend.s, consumer)
        invariant alone && old(recovering) && !recovering ==> backend.s.pending == map[]
        decreases maxBatches - i, !emptied
      {
        ghost var s, wasRecovering := backend.s, recovering;
        backend.Sound();
        var result, ids := RunOnce(now(i), idle(i));
        DrainedKeeps(s, backend.s, ids, consumer);
        if alone && wasRecovering && !recovering {
          NothingOwned(s, consumer);
        }
        if result.entriesRead == 0 {
          emptied := true;
        }
        read, inserted := read + result.entriesRead, inserted + result.rowsInserted;
        i := i + 1;
      }
      backend.Sound();
      Bounds(backend.s);
      if quiet && maxBatches > backlog {
        EmptiedOut(backend.s);
      } else if emptied && old(recovering) && alone {
        EmptiedOut(backend.s);
      }
    }

    /** Returns how many entries were deleted; nothing a consumer still needs is among them. What is
        left starts with the oldest pending entry or, with nothing pending, the last one delivered. */
    method TrimDrained() returns (trimmed: nat)
      requires backend.Valid()
      modifies backend
      ensures backend.Valid() && backend.s == Apply(old(backend.s), Trim)
      ensures backend.s == old(backend.s).(trimmed := backend.s.trimmed)
      ensures trimmed == backend.s.trimmed - old(backend.s).trimmed
      ensures forall id: nat :: InStream(old(backend.s), id) ==> InStream(backend.s, id)
      ensures old(backend.s).pending == map[] && old(backend.s).delivered > old(backend.s).trimmed ==>
        old(backend.s).trimmed + trimmed == old(backend.s).delivered - 1
      ensures old(backend.s).pending == map[] && old(backend.s).delivered == old(backend.s).trimmed ==> trimmed == 0
      ensures old(backend.s).pending != map[] ==>
        && old(backend.s).trimmed + trimmed in old(backend.s).pending
        && forall id <- old(backend.s).pending :: old(backend.s).trimmed + trimmed <= id
    {
      hide Inv, Legal, After;
      var before := backend.s.trimmed;
      backend.Sound();
      Bounds(backend.s);
      TrimReaches(backend.s);
      backend.Do(Trim);
      backend.Sound();
      trimmed := backend.s.trimmed - before;
    }
  }

  /** `parse` over a batch: well-formed entries become records, the rest go to the dead list. */
  method Parse(log: seq<Event>, ids: seq<nat>) returns (records: seq<Event>, dead: seq<nat>)
    requires forall id <- ids :: id < |log|
    ensures records == Rollups.Records(log, ids)
    ensures dead == Malformed(log, ids)
  {
    hide Rollups.Records, Malformed;
    records, dead := [], [];
    ParseStart(log, ids);
    for i := 0 to |ids|
      invariant records == Rollups.Records(log, ids[..i])
      invariant dead + Malformed(log, ids[i..]) == Malformed(log, ids)
    {
      assert ids[i] in ids;
      ParseStep(log, ids, i, dead);
      if log[ids[i]].wellFormed {
        records := records + [log[ids[i]]];
      } else {
        dead := dead + [ids[i]];
      }
    }
    assert ids[..|ids|] == ids && dead + [] == dead;
  }

  lemma {:induction false} MalformedMembers(log: seq<Event>, ids: seq<nat>)
    ensures forall id: nat :: id in Malformed(log, ids) <==> id in ids && id < |log| && !log[id].wellFormed
  {
    if ids != [] {
      MalformedMembers(log, ids[1..]);
      assert forall id: nat :: id in ids <==> id == ids[0] || id in ids[1..];
    }
  }

  lemma {:induction false} RecordsMembers(log: seq<Event>, ids: seq<nat>)
    ensures forall e :: e in Rollups.Records(log, ids) <==> exists id <- ids :: id < |log| && log[id] == e && e.wellFormed
    decreases |ids|
  {
    if ids != [] {
      var front, last := ids[..|ids| - 1], ids[|ids| - 1];
      RecordsMembers(log, front);
      assert forall id: nat :: id in ids <==> id in front || id == last;
    }
  }

  lemma {:induction false} BatchSplits(log: seq<Event>, ids: seq<nat>)
    requires forall id <- ids :: id < |log|
    ensures |Rollups.Records(log, ids)| + |Malformed(log, ids)| == |ids|
    decreases |ids|
  {
    if ids != [] {
      var front, last := ids[..|ids| - 1], ids[|ids| - 1];
      assert last in ids && forall id <- front :: id in ids;
      BatchSplits(log, front);
      MalformedAppend(log, front, last);
      assert front + [last] == ids;
    }
  }

  lemma {:induction false} MalformedAppend(log: seq<Event>, ids: seq<nat>, id: nat)
    ensures Malformed(log, ids + [id]) == Malformed(log, ids) + if id < |log| && !log[id].wellFormed then [id] else []
  {
    if ids == [] {
      assert [id][1..] == [] && ids + [id] == [id];
    } else {
      assert (ids + [id])[1..] == ids[1..] + [id];
      MalformedAppend(log, ids[1..], id);
    }
  }

  /** Every entry of a batch is a record or a dead letter, the well-formed the one and the others the other. */
  lemma {:induction false} ParseExactly(log: seq<Event>, ids: seq<nat>)
    requires forall id <- ids :: id < |log|
    ensures |Rollups.Records(log, ids)| + |Malformed(log, ids)| == |ids|
    ensures forall id: nat :: id in Malformed(log, ids) <==> id in ids && id < |log| && !log[id].wellFormed
    ensures forall e :: e in Rollups.Records(log, ids) <==> exists id <- ids :: id < |log| && log[id] == e && e.wellFormed
  {
    hide Rollups.Records, Malformed;
    BatchSplits(log, ids);
    MalformedMembers(log, ids);
    RecordsMembers(log, ids);
  }

  ghost predicate DeadAreMalformed(s: State) {
    forall id <- s.dead :: id < |s.log| && !s.log[id].wellFormed
  }

  lemma {:induction false} StepKillsMalformed(s: State, a: Action)
    requires Inv(s) && DeadAreMalformed(s) && Enabled(s, a)
    ensures DeadAreMalformed(Apply(s, a))
  {
    hide Inv, Malformed, InsertBatch, CellsOf, Calendar.LocalDate;
    if a.DeadLetter? {
      HeldDelivered(s, a.consumer);
      ParseExactly(s.log, s.Held(a.consumer).ids);
    }
  }

  /** In every run the dead-letter stream holds malformed entries only. */
  lemma {:induction false} OnlyMalformedDie(s: State, run: seq<Action>)
    requires Inv(s) && DeadAreMalformed(s) && Legal(s, run)
    ensures DeadAreMalformed(After(s, run))
    decreases run
  {
    hide Inv, Enabled, Apply, DeadAreMalformed;
    if run != [] {
      StepKeepsInv(s, run[0]);
      StepKillsMalformed(s, run[0]);
      OnlyMalformedDie(Apply(s, run[0]), run[1..]);
    }
  }

  lemma {:induction false} ParseStart(log: seq<Event>, ids: seq<nat>)
    ensures Rollups.Records(log, ids[..0]) == [] && ids[0..] == ids && Malformed(log, ids[|ids|..]) == []
  {
  }

  lemma {:induction false} ParseStep(log: seq<Event>, ids: seq<nat>, i: nat, dead: seq<nat>)
    requires i < |ids| && ids[i] < |log|
    ensures Rollups.Records(log, ids[..i + 1])
         == if log[ids[i]].wellFormed then Rollups.Records(log, ids[..i]) + [log[ids[i]]] else Rollups.Records(log, ids[..i])
    ensures dead + Malformed(log, ids[i..])
         == (if log[ids[i]].wellFormed then dead else dead + [ids[i]]) + Malformed(log, ids[i + 1..])
  {
    assert ids[..i + 1][..i] == ids[..i];
    assert ids[i..][1..] == ids[i + 1..];
  }

  lemma {:induction false} HeldDelivered(s: State, consumer: nat)
    requires Inv(s) && s.Held(consumer).Batch?
    ensures forall id <- s.Held(consumer).ids :: id < s.delivered <= |s.log|
  {
    assert BatchSound(s, s.Held(consumer));
  }

  /** The four steps that follow a read, one after the other. */
  function Finished(s: State, consumer: nat): State
    requires HoldsAt(s, consumer, Fetched)
  {
    var s1 := Apply(s, DeadLetter(consumer));
    var s2 := Apply(s1, Commit(consumer));
    var s3 := Apply(s2, Mark(consumer));
    Apply(s3, Ack(consumer))
  }

  lemma {:induction false} FinishedSettles(s: State, consumer: nat)
    requires Inv(s) && HoldsAt(s, consumer, Fetched)
    ensures var s', ids := Finished(s, consumer), s.Held(consumer).ids;
            && s' == s.(rows := InsertBatch(s.rows, s.log, ids), dead := s.dead + Malformed(s.log, ids),
                        dirty := s.dirty + CellsOf(s.log, ids), pending := s.pending - (set id | id in ids), batches := s'.batches)
            && s'.Held(consumer).NoBatch?
            && forall id <- ids :: id < s.delivered && id < |s.log| && Settled(s', id)
  {
    hide Inv, InsertBatch, Malformed, CellsOf, Calendar.LocalDate;
    var ids := s.Held(consumer).ids;
    HeldDelivered(s, consumer);
    MalformedFound(s.log, ids);
    InsertStores(s.rows, s.log, ids);
  }

  lemma {:induction false} BatchDrained(s: State, fetched: State, consumer: nat)
    requires FetchedBy(s, fetched, consumer) && HoldsAt(fetched, consumer, Fetched) && Inv(fetched)
    ensures var s', ids := Finished(fetched, consumer), fetched.Held(consumer).ids;
            && Drained(s, s', ids) && ids != [] && s'.Held(consumer).NoBatch?
            && s'.log == fetched.log && fetched.rows == s.rows
            && forall id <- ids :: id < |s'.log| && Settled(s', id)
  {
    hide Finished, InsertBatch, Malformed, CellsOf, Settled;
    FinishedSettles(fetched, consumer);
  }

  ghost function Members(ids: seq<nat>): (members: set<nat>)
    ensures forall id :: id in members <==> id in ids
  {
    if ids == [] then {} else Members(ids[..|ids| - 1]) + {ids[|ids| - 1]}
  }

  lemma {:induction false} AscendingSize(ids: seq<nat>)
    requires Ascending(ids)
    ensures |Members(ids)| == |ids|
  {
    if ids != [] {
      var front := ids[..|ids| - 1];
      AscendingSize(front);
      forall i | 0 <= i < |front| ensures front[i] != ids[|ids| - 1] {
        assert ids[i] < ids[|ids| - 1];
      }
    }
  }

  /** A batch takes exactly what it read off what is outstanding. */
  lemma {:induction false} OutstandingDrops(s: State, fetched: State, s': State, consumer: nat)
    requires Inv(s) && Inv(fetched) && FetchedBy(s, fetched, consumer) && s' == Finished(fetched, consumer)
    requires Ascending(fetched.Held(consumer).ids)
    ensures s'.Outstanding() == s.Outstanding() - |fetched.Held(consumer).ids|
    ensures |fetched.pending| - |s'.pending| == |fetched.Held(consumer).ids|
  {
    hide Inv, FetchedBy, Ascending, Finished, OutstandingIds, Members;
    FetchKeepsOutstanding(s, fetched, consumer);
    var ids := fetched.Held(consumer).ids;
    AckedLeaves(fetched, s', consumer);
    AscendingSize(ids);
    SumOfSizes(fetched.pending, s'.pending, Members(ids));
    OutstandingCounts(s);
    OutstandingCounts(fetched);
  }

  lemma {:induction false} SumOfSizes(before: map<nat, nat>, after: map<nat, nat>, taken: set<nat>)
    requires before.Keys == after.Keys + taken && after.Keys !! taken
    ensures |before| == |after| + |taken|
  {
    assert |before| == |before.Keys| && |after| == |after.Keys|;
  }

  lemma {:induction false} FetchKeepsOutstanding(s: State, fetched: State, consumer: nat)
    requires Inv(s) && Inv(fetched) && FetchedBy(s, fetched, consumer)
    ensures OutstandingIds(s) == OutstandingIds(fetched)
    ensures HoldsAt(fetched, consumer, Fetched) && forall id <- fetched.Held(consumer).ids :: id in fetched.pending
  {
    hide Settled, BatchSound, RowsFromLog, UniqueKeys, Balanced;
    Bounds(s);
    Bounds(fetched);
    OutstandingMembers(s);
    OutstandingMembers(fetched);
  }

  lemma {:induction false} AckedLeaves(fetched: State, s': State, consumer: nat)
    requires HoldsAt(fetched, consumer, Fetched) && s' == Finished(fetched, consumer)
    requires forall id <- fetched.Held(consumer).ids :: id in fetched.pending
    ensures var taken := Members(fetched.Held(consumer).ids);
            && s'.delivered == fetched.delivered && s'.log == fetched.log
            && fetched.pending.Keys == s'.pending.Keys + taken && s'.pending.Keys !! taken
  {
    hide InsertBatch, Malformed, CellsOf;
  }

  lemma {:induction false} NothingDrained(s: State)
    ensures Drained(s, s, [])
    ensures Rollups.Records(s.log, []) == [] && Malformed(s.log, []) == []
  {
    assert CellsOf(s.log, []) == {};
  }

  /** Every pending entry belongs to this consumer. */
  ghost predicate Alone(s: State, consumer: nat) {
    forall id <- s.pending :: s.pending[id] == consumer
  }

  lemma {:induction false} DrainedKeeps(s: State, s': State, ids: seq<nat>, consumer: nat)
    requires Drained(s, s', ids)
    ensures s'.log == s.log && RowsKept(s.rows, s'.rows) && s'.counters == s.counters && s'.orphans == s.orphans
    ensures Alone(s, consumer) ==> Alone(s', consumer)
    ensures s.pending == map[] ==> s'.pending == map[] && (ids != [] ==> s'.delivered > s.delivered)
  {
    hide InsertBatch, Malformed, CellsOf;
    InsertStores(s.rows, s.log, ids);
    if s.pending == map[] {
      assert forall id: nat :: id !in s'.pending;
      if ids != [] {
        assert ids[0] in ids;
      }
    }
  }

  lemma {:induction false} NothingOwned(s: State, consumer: nat)
    requires Inv(s) && Alone(s, consumer) && forall id <- Owned(s.pending, consumer) :: id >= s.delivered
    ensures s.pending == map[]
  {
    hide Balanced, Settled, UniqueKeys, RowsFromLog, BatchSound;
    forall id | id in s.pending ensures id in Owned(s.pending, consumer) {
    }
    assert s.pending.Keys == {};
  }

  lemma {:induction false} EmptiedOut(s: State)
    requires Inv(s) && s.pending == map[] && s.delivered >= |s.log|
    ensures s.Outstanding() == 0 && AllStored(s)
    ensures forall id: nat :: id < |s.log| && s.log[id].wellFormed ==> s.log[id].RowKey() in s.rows
  {
    hide Inv;
    Bounds(s);
    forall id: nat | id < |s.log| && s.log[id].wellFormed ensures HasItsRow(s, id) {
      DrainedMeansStored(s, id);
      Rollups.RowOfEntry(s, id);
    }
  }

  lemma {:induction false} InsertStores(rows: Rows, log: seq<Event>, ids: seq<nat>)
    ensures RowsKept(rows, InsertBatch(rows, log, ids))
    ensures forall id <- ids :: id < |log| && log[id].wellFormed ==> log[id].RowKey() in InsertBatch(rows, log, ids)
    decreases ids
  {
    if ids != [] {
      InsertStores(if ids[0] < |log| && log[ids[0]].wellFormed then Insert(rows, log[ids[0]]) else rows, log, ids[1..]);
      assert forall id <- ids :: id == ids[0] || id in ids[1..];
    }
  }

  // ----- A dirty pass that is not alone -----

  /** One captured entry drained on its own. */
  function ServeOne(e: Event, consumer: nat): seq<Action> {
    [Capture(e, true, true), Deliver(consumer, 1), DeadLetter(consumer), Commit(consumer), Mark(consumer), Ack(consumer)]
  }

  lemma {:induction false} ServedAlone(s: State, e: Event, consumer: nat)
    requires s.pending == map[] && s.delivered == |s.log| && s.Held(consumer).NoBatch?
    requires e.wellFormed && e.billable && Fresh(s.log, e) && e.RowKey() !in s.rows
    ensures Legal(s, ServeOne(e, consumer))
    ensures var s' := After(s, ServeOne(e, consumer));
            && s'.pending == map[] && s'.delivered == |s'.log| && s'.Held(consumer).NoBatch?
            && s'.log == s.log + [e] && s'.rows == s.rows[e.RowKey() := e] && s'.dirty == s.dirty + {e.Cell()}
  {
    hide Calendar.LocalDate, Legal, After, Fresh, Enabled, Apply, InsertBatch, CellsOf;
    var id, run := |s.log|, ServeOne(e, consumer);
    OneDelivered(s, e, consumer);
    var s1 := Apply(s, run[0]);
    var s2 := Apply(s1, run[1]);
    OneWorked(s2, consumer, id);
    var s3 := Apply(s2, run[2]);
    var s4 := Apply(s3, run[3]);
    var s5 := Apply(s4, run[4]);
    OneStored(s, s2.log, e);
    RunOfSix(s, run, s1, s2, s3, s4, s5, Apply(s5, run[5]));
  }

  lemma {:induction false} OneDelivered(s: State, e: Event, consumer: nat)
    requires s.pending == map[] && s.delivered == |s.log| && s.Held(consumer).NoBatch?
    requires e.wellFormed && e.billable && Fresh(s.log, e)
    ensures Enabled(s, Capture(e, true, true)) && Enabled(Apply(s, Capture(e, true, true)), Deliver(consumer, 1))
    ensures var s2 := Apply(Apply(s, Capture(e, true, true)), Deliver(consumer, 1));
            && s2.log == s.log + [e] && s2.rows == s.rows && s2.dirty == s.dirty && s2.delivered == |s2.log|
            && s2.Held(consumer) == Batch([|s.log|], Fetched) && s2.pending.Keys == {|s.log|}
  {
    hide Fresh;
    var s1 := Apply(s, Capture(e, true, true));
    assert s1.log == s.log + [e] && s1.Held(consumer).NoBatch?;
    OneFetched(s1, consumer);
  }

  lemma {:induction false} OneFetched(s: State, consumer: nat)
    requires s.pending == map[] && s.delivered + 1 == |s.log| && s.Held(consumer).NoBatch?
    ensures var s' := Apply(s, Deliver(consumer, 1));
            && s'.log == s.log && s'.rows == s.rows && s'.dirty == s.dirty && s'.delivered == |s.log|
            && s'.Held(consumer) == Batch([s.delivered], Fetched) && s'.pending.Keys == {s.delivered}
  {
    hide Span, Give, Calendar.LocalDate, Fresh, Malformed, InsertBatch, CellsOf;
    var id := s.delivered;
    SpanOfOne(id);
    assert Give(map[], [id], consumer).Keys == {id};
  }

  lemma {:induction false} SpanOfOne(id: nat)
    ensures Span(id, id + 1) == [id]
  {
    assert Span(id, id) == [];
  }

  lemma {:induction false} WorkStep(s: State, a: Action, ids: seq<nat>)
    requires Enabled(s, a) && (a.DeadLetter? || a.Commit? || a.Mark?) && s.Held(a.consumer).ids == ids
    ensures var s' := Apply(s, a);
            && s'.Held(a.consumer) == Batch(ids, if a.DeadLetter? then DeadLettered else if a.Commit? then Committed else Marked)
            && s'.log == s.log && s'.pending == s.pending && s'.delivered == s.delivered
            && s'.rows == (if a.Commit? then InsertBatch(s.rows, s.log, ids) else s.rows)
            && s'.dirty == if a.Mark? then s.dirty + CellsOf(s.log, ids) else s.dirty
  {
    hide InsertBatch, CellsOf, Malformed, Calendar.LocalDate;
  }

  lemma {:induction false} AckAll(s: State, c: nat, id: nat)
    requires Enabled(s, Ack(c)) && s.Held(c).ids == [id] && s.pending.Keys == {id}
    ensures var s' := Apply(s, Ack(c));
            && s'.log == s.log && s'.rows == s.rows && s'.dirty == s.dirty && s'.delivered == s.delivered
            && s'.pending == map[] && s'.Held(c).NoBatch?
  {
    assert Apply(s, Ack(c)).pending.Keys == {};
  }

  lemma {:induction false} OneWorked(s: State, consumer: nat, id: nat)
    requires s.Held(consumer) == Batch([id], Fetched) && s.pending.Keys == {id}
    ensures Enabled(s, DeadLetter(consumer))
    ensures var s3 := Apply(s, DeadLetter(consumer)); Enabled(s3, Commit(consumer))
    ensures var s4 := Apply(Apply(s, DeadLetter(consumer)), Commit(consumer)); Enabled(s4, Mark(consumer))
    ensures var s5 := Apply(Apply(Apply(s, DeadLetter(consumer)), Commit(consumer)), Mark(consumer)); Enabled(s5, Ack(consumer))
    ensures var s' := Finished(s, consumer);
            && s' == Apply(Apply(Apply(Apply(s, DeadLetter(consumer)), Commit(consumer)), Mark(consumer)), Ack(consumer))
            && s'.log == s.log && s'.rows == InsertBatch(s.rows, s.log, [id]) && s'.dirty == s.dirty + CellsOf(s.log, [id])
            && s'.pending == map[] && s'.delivered == s.delivered && s'.Held(consumer).NoBatch?
  {
    hide Apply;
    var s3 := Apply(s, DeadLetter(consumer));
    WorkStep(s, DeadLetter(consumer), [id]);
    var s4 := Apply(s3, Commit(consumer));
    WorkStep(s3, Commit(consumer), [id]);
    var s5 := Apply(s4, Mark(consumer));
    WorkStep(s4, Mark(consumer), [id]);
    AckAll(s5, consumer, id);
  }

  lemma {:induction false} OneStored(s: State, log: seq<Event>, e: Event)
    requires log == s.log + [e] && e.wellFormed && e.RowKey() !in s.rows
    ensures InsertBatch(s.rows, log, [|s.log|]) == s.rows[e.RowKey() := e]
    ensures CellsOf(log, [|s.log|]) == {e.Cell()}
  {
    hide Calendar.LocalDate;
    var id := |s.log|;
    assert [id][1..] == [] && log[id] == e;
    assert InsertBatch(s.rows, log, [id]) == InsertBatch(Insert(s.rows, e), log, []);
  }

  lemma {:induction false} RunOfSix(s: State, run: seq<Action>, s1: State, s2: State, s3: State, s4: State, s5: State,
      s6: State)
    requires |run| == 6 && Enabled(s, run[0]) && s1 == Apply(s, run[0]) && Enabled(s1, run[1]) && s2 == Apply(s1, run[1])
    requires Enabled(s2, run[2]) && s3 == Apply(s2, run[2]) && Enabled(s3, run[3]) && s4 == Apply(s3, run[3])
    requires Enabled(s4, run[4]) && s5 == Apply(s4, run[4]) && Enabled(s5, run[5]) && s6 == Apply(s5, run[5])
    ensures Legal(s, run) && After(s, run) == s6
  {
    hide Enabled, Apply;
    assert run[5..][1..] == [] && run[5..][0] == run[5];
    assert run[4..][1..] == run[5..] && run[3..][1..] == run[4..] && run[2..][1..] == run[3..] && run[1..][1..] == run[2..];
    assert Legal(s5, run[5..]) && After(s5, run[5..]) == s6;
    assert Legal(s4, run[4..]) && After(s4, run[4..]) == s6;
    assert Legal(s3, run[3..]) && After(s3, run[3..]) == s6;
    assert Legal(s2, run[2..]) && After(s2, run[2..]) == s6;
    assert Legal(s1, run[1..]) && After(s1, run[1..]) == s6;
  }
}
