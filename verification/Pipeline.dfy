/** Capture and drain as a step machine (src/meter/api/metering.py:186-217,
    src/meter/pipeline/drain.py). Every Redis command and every committed statement is one
    step; any consumer may crash between any two of them. */
module Pipeline {
  import Calendar

  datatype Account = Account(customer: nat, period: int)

  /** A stream entry. `wellFormed` says whether `events.parse` accepts its fields. */
  datatype Event = Event(key: nat, account: Account, apiKey: nat, occurredAt: int, billable: bool, wellFormed: bool) {
    function RowKey(): (nat, int) {
      (key, account.period)
    }

    function Cell(): (nat, int) {
      (account.customer, Calendar.LocalDate(occurredAt))
    }
  }

  /** How far a consumer's process has come with the batch it holds in memory. */
  datatype Phase = Fetched | DeadLettered | Committed | Marked

  datatype Batch = NoBatch | Batch(ids: seq<nat>, phase: Phase)

  type Key = (nat, int)

  type Rows = map<Key, Event>

  /** `log` holds every entry ever added, entry i having id i; XTRIM has deleted those below
      `trimmed`, so the stream is log[trimmed..]. `delivered` is the group's entries-read and
      `pending` its pending list. `orphans` is bookkeeping for the laws: per account, INCRs
      that landed without their XADD minus XADDs that landed without their INCR. */
  datatype State = State(
    log: seq<Event>, trimmed: nat, delivered: nat, pending: map<nat, nat>, batches: map<nat, Batch>,
    dead: seq<nat>, rows: Rows, dirty: set<(nat, int)>, counters: map<Account, nat>, orphans: map<Account, int>)
  {
    function Counter(a: Account): nat {
      if a in counters then counters[a] else 0
    }

    function Orphans(a: Account): int {
      if a in orphans then orphans[a] else 0
    }

    function Held(consumer: nat): Batch {
      if consumer in batches then batches[consumer] else NoBatch
    }

    /** `Drain.outstanding`: delivered but unacked, plus undelivered. */
    function Outstanding(): int {
      |pending| + |log| - delivered
    }
  }

  const EMPTY := State([], 0, 0, map[], map[], [], map[], {}, map[], map[])

  datatype Action =
    | Capture(event: Event, added: bool, counted: bool)
    | Inject(event: Event)
    | Deliver(consumer: nat, count: nat)
    | Redeliver(consumer: nat, ids: seq<nat>)
    | Reclaim(consumer: nat, ids: seq<nat>)
    | DeadLetter(consumer: nat)
    | Commit(consumer: nat)
    | Mark(consumer: nat)
    | Ack(consumer: nat)
    | Trim
    | Clean(cells: set<(nat, int)>)
    | Crash(consumer: nat)

  // ----- One step -----

  /** The key of a captured event is minted with it, so no earlier well-formed entry carries it. */
  predicate Fresh(log: seq<Event>, e: Event) {
    forall i :: 0 <= i < |log| && log[i].wellFormed ==> log[i].RowKey() != e.RowKey()
  }

  predicate HoldsAt(s: State, consumer: nat, phase: Phase) {
    s.Held(consumer).Batch? && s.Held(consumer).phase == phase
  }

  predicate Enabled(s: State, a: Action) {
    match a
    case Capture(e, added, _) => e.wellFormed && e.billable && (added ==> Fresh(s.log, e))
    case Inject(e) => !e.wellFormed
    case Deliver(c, count) => s.Held(c).NoBatch? && count > 0 && s.delivered < |s.log|
    case Redeliver(c, ids) => s.Held(c).NoBatch? && forall id <- ids :: id in s.pending && s.pending[id] == c
    case Reclaim(c, ids) => s.Held(c).NoBatch? && forall id <- ids :: id in s.pending
    case DeadLetter(c) => HoldsAt(s, c, Fetched)
    case Commit(c) => HoldsAt(s, c, DeadLettered)
    case Mark(c) => HoldsAt(s, c, Committed)
    case Ack(c) => HoldsAt(s, c, Marked)
    case Trim => true
    case Clean(_) => true
    case Crash(_) => true
  }

  function Span(from: nat, upTo: nat): (ids: seq<nat>)
    requires from <= upTo
    ensures |ids| == upTo - from
    ensures forall id: nat :: id in ids <==> from <= id < upTo
    decreases upTo
  {
    if from == upTo then [] else Span(from, upTo - 1) + [upTo - 1]
  }

  function Give(pending: map<nat, nat>, ids: seq<nat>, consumer: nat): (p: map<nat, nat>)
    ensures p.Keys == pending.Keys + set id | id in ids
    ensures forall id <- p :: p[id] == if id in ids then consumer else pending[id]
  {
    pending + map id | id in ids :: consumer
  }

  function Malformed(log: seq<Event>, ids: seq<nat>): seq<nat> {
    if ids == [] then []
    else (if ids[0] < |log| && !log[ids[0]].wellFormed then [ids[0]] else []) + Malformed(log, ids[1..])
  }

  /** INSERT ... ON CONFLICT (idempotency_key, billing_period_start) DO NOTHING. */
  function Insert(rows: Rows, e: Event): Rows {
    if e.RowKey() in rows then rows else rows[e.RowKey() := e]
  }

  function InsertBatch(rows: Rows, log: seq<Event>, ids: seq<nat>): Rows
    decreases ids
  {
    if ids == [] then rows
    else InsertBatch(if ids[0] < |log| && log[ids[0]].wellFormed then Insert(rows, log[ids[0]]) else rows, log, ids[1..])
  }

  function CellsOf(log: seq<Event>, ids: seq<nat>): set<(nat, int)> {
    set id | id in ids && id < |log| && log[id].wellFormed :: log[id].Cell()
  }

  /** XPENDING's smallest id, scanning the ids that can be pending. */
  function LeastPending(pending: map<nat, nat>, from: nat, upTo: nat): (least: nat)
    ensures from < upTo ==> from <= least <= upTo
    ensures forall id <- pending :: from <= id < upTo ==> least <= id
    ensures (exists id <- pending :: from <= id < upTo) ==> least in pending
    decreases upTo - from
  {
    if from >= upTo || from in pending then from else LeastPending(pending, from + 1, upTo)
  }

  /** The oldest entry a consumer might still need: the oldest pending one if there is one,
      else the last one delivered. */
  function TrimPoint(s: State): (point: nat)
    ensures s.trimmed <= s.delivered ==> point <= s.delivered
    ensures forall id <- s.pending :: s.trimmed <= id < s.delivered ==> point <= id
  {
    if s.pending == map[] then (if s.delivered == 0 then 0 else s.delivered - 1)
    else LeastPending(s.pending, s.trimmed, s.delivered)
  }

  function Apply(s: State, a: Action): State
    requires Enabled(s, a)
  {
    match a
    case Capture(e, added, counted) =>
      var account := e.account;
      s.(log := if added then s.log + [e] else s.log,
         counters := if counted then s.counters[account := s.Counter(account) + 1] else s.counters,
         orphans := s.orphans[account := s.Orphans(account) + (if counted then 1 else 0) - (if added then 1 else 0)])
    case Inject(e) => s.(log := s.log + [e])
    case Deliver(c, count) =>
      var upTo := if s.delivered + count < |s.log| then s.delivered + count else |s.log|;
      var ids := Span(s.delivered, upTo);
      s.(delivered := upTo, pending := Give(s.pending, ids, c), batches := s.batches[c := Batch(ids, Fetched)])
    case Redeliver(c, ids) => s.(batches := s.batches[c := Batch(ids, Fetched)])
    case Reclaim(c, ids) => s.(pending := Give(s.pending, ids, c), batches := s.batches[c := Batch(ids, Fetched)])
    case DeadLetter(c) =>
      s.(dead := s.dead + Malformed(s.log, s.Held(c).ids), batches := s.batches[c := s.Held(c).(phase := DeadLettered)])
    case Commit(c) =>
      s.(rows := InsertBatch(s.rows, s.log, s.Held(c).ids), batches := s.batches[c := s.Held(c).(phase := Committed)])
    case Mark(c) =>
      s.(dirty := s.dirty + CellsOf(s.log, s.Held(c).ids), batches := s.batches[c := s.Held(c).(phase := Marked)])
    case Ack(c) =>
      s.(pending := s.pending - (set id | id in s.Held(c).ids), batches := s.batches[c := NoBatch])
    case Trim => s.(trimmed := if TrimPoint(s) > s.trimmed then TrimPoint(s) else s.trimmed)
    case Clean(cells) => s.(dirty := s.dirty - cells)
    case Crash(c) => s.(batches := s.batches[c := NoBatch])
  }

  /** What a trim leaves at the head of the stream: the oldest pending entry if there is one, else the
      last one delivered. */
  lemma {:induction false} TrimReaches(s: State)
    requires s.trimmed <= s.delivered && forall id <- s.pending :: s.trimmed <= id < s.delivered
    ensures var s' := Apply(s, Trim);
            && (s.pending == map[] ==> s'.trimmed == if s.delivered > s.trimmed then s.delivered - 1 else s.trimmed)
            && (s.pending != map[] ==> s'.trimmed in s.pending && forall id <- s.pending :: s'.trimmed <= id)
  {
    if s.pending != map[] {
      assert s.pending.Keys != {};
      var id :| id in s.pending;
    }
  }

  /** What can go wrong at any moment: either half of a capture can be lost, a malformed entry can
      appear, any consumer can crash, and another can claim whatever is pending. */
  lemma {:induction false} AnythingCanFail(s: State, e: Event, c: nat, ids: seq<nat>)
    ensures e.wellFormed && e.billable && (forall o <- s.log :: o.wellFormed ==> o.RowKey() != e.RowKey()) ==>
      forall added: bool, counted: bool :: Enabled(s, Capture(e, added, counted))
    ensures !e.wellFormed ==> Enabled(s, Inject(e))
    ensures Enabled(s, Crash(c)) && Apply(s, Crash(c)) == s.(batches := s.batches[c := NoBatch])
    ensures s.Held(c).NoBatch? && (forall id <- ids :: id in s.pending) ==> Enabled(s, Reclaim(c, ids))
    ensures Enabled(s, Trim) && forall cells: set<(nat, int)> :: Enabled(s, Clean(cells))
  {
  }

  /** Two events are one row exactly when they carry one key in one billing period. */
  lemma {:induction false} SameRowExactly(a: Event, b: Event)
    ensures a.RowKey() == b.RowKey() <==> a.key == b.key && a.account.period == b.account.period
  {
  }

  // ----- What every step keeps -----

  ghost predicate UniqueKeys(log: seq<Event>) {
    forall i, j :: 0 <= i < j < |log| && log[i].wellFormed && log[j].wellFormed ==> log[i].RowKey() != log[j].RowKey()
  }

  /** The entry has reached where it belongs: its own row, or the dead-letter stream. */
  ghost predicate Settled(s: State, id: nat)
    requires id < |s.log|
  {
    if s.log[id].wellFormed then s.log[id].RowKey() in s.rows else id in s.dead
  }

  ghost predicate BatchSound(s: State, b: Batch) {
    b.Batch? ==>
      && (forall id <- b.ids :: id < s.delivered)
      && (b.phase != Fetched ==> forall id <- b.ids :: id < |s.log| && !s.log[id].wellFormed ==> id in s.dead)
      && (b.phase in {Committed, Marked} ==>
            forall id <- b.ids :: id < |s.log| && s.log[id].wellFormed ==> s.log[id].RowKey() in s.rows)
  }

  ghost predicate RowsFromLog(log: seq<Event>, rows: Rows) {
    forall k <- rows :: exists i :: 0 <= i < |log| && log[i].wellFormed && log[i].RowKey() == k && rows[k] == log[i]
  }

  ghost predicate Inv(s: State) {
    && s.trimmed <= s.delivered <= |s.log|
    && (forall id <- s.pending :: s.trimmed <= id < s.delivered)
    && (forall id: nat :: id < s.delivered && id !in s.pending ==> Settled(s, id))
    && (forall c <- s.batches :: BatchSound(s, s.batches[c]))
    && RowsFromLog(s.log, s.rows)
    && UniqueKeys(s.log)
    && forall a: Account :: Balanced(s, a)
  }

  // ----- The counting law -----

  function RowsOf(rows: Rows, a: Account): set<(nat, int)> {
    set k | k in rows && rows[k].billable && rows[k].account == a
  }

  /** Captured billable entries of an account that no commit has stored yet. */
  function Uncommitted(log: seq<Event>, rows: Rows, a: Account): set<nat> {
    set i: nat | i < |log| && log[i].wellFormed && log[i].billable && log[i].account == a && log[i].RowKey() !in rows
  }

  ghost predicate Balanced(s: State, a: Account) {
    s.Counter(a) - s.Orphans(a) == |RowsOf(s.rows, a)| + |Uncommitted(s.log, s.rows, a)|
  }

  lemma {:induction false} InsertFromLog(log: seq<Event>, rows: Rows, id: nat)
    requires RowsFromLog(log, rows) && id < |log| && log[id].wellFormed
    ensures RowsFromLog(log, Insert(rows, log[id]))
  {
    var rows' := Insert(rows, log[id]);
    forall k | k in rows'
      ensures exists i :: 0 <= i < |log| && log[i].wellFormed && log[i].RowKey() == k && rows'[k] == log[i]
    {
      if k in rows {
        var i :| 0 <= i < |log| && log[i].wellFormed && log[i].RowKey() == k && rows[k] == log[i];
        assert rows'[k] == log[i];
      } else {
        assert rows'[k] == log[id];
      }
    }
  }

  lemma {:induction false} InsertTakesOne(log: seq<Event>, rows: Rows, id: nat, a: Account)
    requires UniqueKeys(log) && id < |log| && log[id].wellFormed && log[id].RowKey() !in rows
    ensures Uncommitted(log, rows[log[id].RowKey() := log[id]], a) == Uncommitted(log, rows, a) - {id}
    ensures id in Uncommitted(log, rows, a) <==> log[id].billable && log[id].account == a
  {
    var rows' := rows[log[id].RowKey() := log[id]];
    forall i: nat
      ensures i in Uncommitted(log, rows', a) <==> i in Uncommitted(log, rows, a) && i != id
    {
      if i < |log| && log[i].wellFormed && i != id {
        assert log[i].RowKey() != log[id].RowKey();
      }
    }
  }

  lemma {:induction false} InsertGivesOne(rows: Rows, e: Event, a: Account)
    requires e.RowKey() !in rows
    ensures e.RowKey() !in RowsOf(rows, a)
    ensures RowsOf(rows[e.RowKey() := e], a) == RowsOf(rows, a) + if e.billable && e.account == a then {e.RowKey()} else {}
  {
  }

  lemma {:induction false} InsertKeepsBalance(log: seq<Event>, rows: Rows, id: nat, a: Account)
    requires UniqueKeys(log) && id < |log| && log[id].wellFormed
    ensures |RowsOf(Insert(rows, log[id]), a)| + |Uncommitted(log, Insert(rows, log[id]), a)|
         == |RowsOf(rows, a)| + |Uncommitted(log, rows, a)|
  {
    hide RowsOf, Uncommitted, UniqueKeys;
    if log[id].RowKey() !in rows {
      InsertTakesOne(log, rows, id, a);
      InsertGivesOne(rows, log[id], a);
    }
  }

  /** Stored rows stay stored, as they are. */
  ghost predicate RowsKept(rows: Rows, rows': Rows) {
    forall k <- rows :: k in rows' && rows'[k] == rows[k]
  }

  lemma {:induction false} InsertBatchKeeps(log: seq<Event>, rows: Rows, ids: seq<nat>)
    requires UniqueKeys(log) && RowsFromLog(log, rows)
    decreases ids
    ensures var rows' := InsertBatch(rows, log, ids);
            && RowsFromLog(log, rows')
            && RowsKept(rows, rows')
            && (forall id <- ids :: id < |log| && log[id].wellFormed ==> log[id].RowKey() in rows')
            && forall a: Account :: |RowsOf(rows', a)| + |Uncommitted(log, rows', a)| == |RowsOf(rows, a)| + |Uncommitted(log, rows, a)|
  {
    hide RowsFromLog, UniqueKeys, RowsOf, Uncommitted;
    if ids != [] {
      var next := if ids[0] < |log| && log[ids[0]].wellFormed then Insert(rows, log[ids[0]]) else rows;
      if ids[0] < |log| && log[ids[0]].wellFormed {
        InsertFromLog(log, rows, ids[0]);
        forall a: Account
          ensures |RowsOf(next, a)| + |Uncommitted(log, next, a)| == |RowsOf(rows, a)| + |Uncommitted(log, rows, a)|
        {
          InsertKeepsBalance(log, rows, ids[0], a);
        }
      }
      InsertBatchKeeps(log, next, ids[1..]);
      assert forall id <- ids :: id == ids[0] || id in ids[1..];
    }
  }

  lemma {:induction false} AppendKeepsRows(log: seq<Event>, rows: Rows, e: Event)
    requires RowsFromLog(log, rows)
    ensures RowsFromLog(log + [e], rows)
  {
    forall k | k in rows
      ensures exists i :: 0 <= i < |log + [e]| && (log + [e])[i].wellFormed && (log + [e])[i].RowKey() == k && rows[k] == (log + [e])[i]
    {
      var i :| 0 <= i < |log| && log[i].wellFormed && log[i].RowKey() == k && rows[k] == log[i];
      assert (log + [e])[i] == log[i];
    }
  }

  /** Adding an entry leaves it uncommitted, if it counts at all, and moves nothing else. */
  lemma {:induction false} AppendUncommitted(log: seq<Event>, rows: Rows, e: Event, a: Account)
    requires RowsFromLog(log, rows) && (e.wellFormed ==> Fresh(log, e))
    ensures |Uncommitted(log + [e], rows, a)|
         == |Uncommitted(log, rows, a)| + (if e.wellFormed && e.billable && e.account == a then 1 else 0)
  {
    var before, after := Uncommitted(log, rows, a), Uncommitted(log + [e], rows, a);
    if e.wellFormed && e.billable && e.account == a {
      assert e.RowKey() !in rows;
      assert after == before + {|log|};
    } else {
      assert after == before;
    }
  }

  lemma {:induction false} MalformedFound(log: seq<Event>, ids: seq<nat>)
    ensures forall id <- ids :: id < |log| && !log[id].wellFormed ==> id in Malformed(log, ids)
  {
    if ids != [] {
      MalformedFound(log, ids[1..]);
      assert forall id <- ids :: id == ids[0] || id in ids[1..];
    }
  }

  // ----- Preservation, one action at a time -----

  lemma {:induction false} CaptureKeepsInv(s: State, e: Event, added: bool, counted: bool)
    requires Inv(s) && Enabled(s, Capture(e, added, counted))
    ensures Inv(Apply(s, Capture(e, added, counted)))
  {
    hide Uncommitted, RowsOf;
    var s' := Apply(s, Capture(e, added, counted));
    if added {
      AppendKeepsRows(s.log, s.rows, e);
    }
    forall a: Account ensures Balanced(s', a) {
      assert Balanced(s, a);
      if added {
        AppendUncommitted(s.log, s.rows, e, a);
      }
    }
    forall id: nat | id < s'.delivered && id !in s'.pending ensures Settled(s', id) {
      assert Settled(s, id);
    }
  }

  lemma {:induction false} InjectKeepsInv(s: State, e: Event)
    requires Inv(s) && Enabled(s, Inject(e))
    ensures Inv(Apply(s, Inject(e)))
  {
    hide Uncommitted, RowsOf;
    var s' := Apply(s, Inject(e));
    AppendKeepsRows(s.log, s.rows, e);
    forall a: Account ensures Balanced(s', a) {
      assert Balanced(s, a);
      AppendUncommitted(s.log, s.rows, e, a);
    }
    forall id: nat | id < s'.delivered && id !in s'.pending ensures Settled(s', id) {
      assert Settled(s, id);
    }
  }

  lemma {:induction false} DeliverKeepsInv(s: State, c: nat, count: nat)
    requires Inv(s) && Enabled(s, Deliver(c, count))
    ensures Inv(Apply(s, Deliver(c, count)))
  {
    hide Uncommitted, RowsOf, RowsFromLog, UniqueKeys, Settled, BatchSound;
    var s' := Apply(s, Deliver(c, count));
    SameStoreBalanced(s, s');
    var ids := Span(s.delivered, s'.delivered);
    forall id: nat | id < s'.delivered && id !in s'.pending ensures Settled(s', id) {
      SameStoreSettled(s, s', id);
    }
    forall b | b in s'.batches ensures BatchSound(s', s'.batches[b]) {
      SameStoreSound(s, s', s'.batches[b]);
    }
  }

  lemma {:induction false} TakeKeepsInv(s: State, a: Action)
    requires Inv(s) && Enabled(s, a) && (a.Redeliver? || a.Reclaim? || a.Crash? || a.Clean?)
    ensures Inv(Apply(s, a))
  {
    hide Uncommitted, RowsOf, RowsFromLog, UniqueKeys, Settled, BatchSound;
    var s' := Apply(s, a);
    SameStoreBalanced(s, s');
    forall id: nat | id < s'.delivered && id !in s'.pending ensures Settled(s', id) {
      SameStoreSettled(s, s', id);
    }
    forall b | b in s'.batches ensures BatchSound(s', s'.batches[b]) {
      SameStoreSound(s, s', s'.batches[b]);
    }
  }

  /** Neither the log nor any durable table differs. */
  ghost predicate SameStore(s: State, s': State) {
    s.log == s'.log && s.rows == s'.rows && s.dead == s'.dead && s.counters == s'.counters && s.orphans == s'.orphans
  }

  lemma {:induction false} SameStoreBalanced(s: State, s': State)
    requires SameStore(s, s') && forall a: Account :: Balanced(s, a)
    ensures forall a: Account :: Balanced(s', a)
  {
    hide Uncommitted, RowsOf;
    forall a: Account ensures Balanced(s', a) {
      assert Balanced(s, a);
    }
  }

  lemma {:induction false} SameStoreSettled(s: State, s': State, id: nat)
    requires SameStore(s, s') && id < |s.log|
    ensures Settled(s, id) == Settled(s', id)
  {
  }

  lemma {:induction false} SameStoreSound(s: State, s': State, b: Batch)
    requires SameStore(s, s') && s.delivered <= s'.delivered
    ensures BatchSound(s, b) ==> BatchSound(s', b)
    ensures b.Batch? && b.phase == Fetched && (forall id <- b.ids :: id < s'.delivered) ==> BatchSound(s', b)
    ensures b.NoBatch? ==> BatchSound(s', b)
  {
  }

  lemma {:induction false} WorkKeepsInv(s: State, a: Action)
    requires Inv(s) && Enabled(s, a) && (a.DeadLetter? || a.Commit? || a.Mark?)
    ensures Inv(Apply(s, a))
  {
    hide Uncommitted, RowsOf, UniqueKeys, RowsFromLog;
    var s' := Apply(s, a);
    var ids := s.Held(a.consumer).ids;
    MalformedFound(s.log, ids);
    InsertBatchKeeps(s.log, s.rows, ids);
    forall acc: Account ensures Balanced(s', acc) {
      assert Balanced(s, acc);
    }
    forall id: nat | id < s'.delivered && id !in s'.pending ensures Settled(s', id) {
      assert Settled(s, id);
    }
    forall c | c in s'.batches ensures BatchSound(s', s'.batches[c]) {
      assert BatchSound(s, s.Held(c));
    }
  }

  lemma {:induction false} AckKeepsInv(s: State, c: nat)
    requires Inv(s) && Enabled(s, Ack(c))
    ensures Inv(Apply(s, Ack(c)))
  {
    hide Uncommitted, RowsOf, UniqueKeys, RowsFromLog;
    var s' := Apply(s, Ack(c));
    assert BatchSound(s, s.Held(c));
    forall acc: Account ensures Balanced(s', acc) {
      assert Balanced(s, acc);
    }
    forall id: nat | id < s'.delivered && id !in s'.pending ensures Settled(s', id) {
      assert id !in s.pending ==> Settled(s, id);
    }
  }

  lemma {:induction false} TrimKeepsInv(s: State)
    requires Inv(s)
    ensures Inv(Apply(s, Trim))
  {
    hide Uncommitted, RowsOf, UniqueKeys, RowsFromLog;
    var s' := Apply(s, Trim);
    forall acc: Account ensures Balanced(s', acc) {
      assert Balanced(s, acc);
    }
    forall id: nat | id < s'.delivered && id !in s'.pending ensures Settled(s', id) {
      assert Settled(s, id);
    }
  }

  lemma {:induction false} StepKeepsInv(s: State, a: Action)
    requires Inv(s) && Enabled(s, a)
    ensures Inv(Apply(s, a))
  {
    match a
    case Capture(e, added, counted) => CaptureKeepsInv(s, e, added, counted);
    case Inject(e) => InjectKeepsInv(s, e);
    case Ack(c) => AckKeepsInv(s, c);
    case Trim => TrimKeepsInv(s);
    case DeadLetter(_) => WorkKeepsInv(s, a);
    case Commit(_) => WorkKeepsInv(s, a);
    case Mark(_) => WorkKeepsInv(s, a);
    case Deliver(c, count) => DeliverKeepsInv(s, c, count);
    case Redeliver(_, _) => TakeKeepsInv(s, a);
    case Reclaim(_, _) => TakeKeepsInv(s, a);
    case Clean(_) => TakeKeepsInv(s, a);
    case Crash(_) => TakeKeepsInv(s, a);
  }

  // ----- Runs -----

  predicate Legal(s: State, run: seq<Action>)
    decreases run
  {
    run == [] || (Enabled(s, run[0]) && Legal(Apply(s, run[0]), run[1..]))
  }

  function After(s: State, run: seq<Action>): State
    requires Legal(s, run)
    decreases run
  {
    if run == [] then s else After(Apply(s, run[0]), run[1..])
  }

  lemma {:induction false} EmptyInv()
    ensures Inv(EMPTY)
  {
    forall a: Account ensures Balanced(EMPTY, a) {
      assert RowsOf(EMPTY.rows, a) == {} && Uncommitted(EMPTY.log, EMPTY.rows, a) == {};
    }
  }

  lemma {:induction false} RunKeepsInv(s: State, run: seq<Action>)
    requires Inv(s) && Legal(s, run)
    ensures Inv(After(s, run))
    decreases run
  {
    hide Inv, Enabled, Apply;
    if run != [] {
      StepKeepsInv(s, run[0]);
      RunKeepsInv(Apply(s, run[0]), run[1..]);
    }
  }

  lemma {:induction false} StepMonotone(s: State, a: Action)
    requires Inv(s) && Enabled(s, a)
    ensures s.log <= Apply(s, a).log && RowsKept(s.rows, Apply(s, a).rows)
    ensures forall id <- s.dead :: id in Apply(s, a).dead
  {
    hide Uncommitted, RowsOf, UniqueKeys, RowsFromLog;
    if a.Commit? {
      InsertBatchKeeps(s.log, s.rows, s.Held(a.consumer).ids);
    }
  }

  // ----- Main results -----

  /** Still in the stream and still owed to some consumer: undelivered, or pending. */
  ghost predicate InStream(s: State, id: nat) {
    s.trimmed <= id < |s.log| && (id >= s.delivered || id in s.pending)
  }

  ghost predicate HasItsRow(s: State, id: nat)
    requires id < |s.log|
  {
    s.log[id].RowKey() in s.rows && s.rows[s.log[id].RowKey()] == s.log[id]
  }

  /** Exactly once: whatever the interleaving of captures, deliveries, redeliveries, reclaims,
      commits, acks, trims and crashes, each well-formed entry is still owed by the stream or
      has its own row, never another entry's; a malformed one is owed or dead-lettered; and no
      pending entry's payload has been trimmed away. */
  lemma {:induction false} ExactlyOnce(run: seq<Action>)
    requires Legal(EMPTY, run)
    ensures var s := After(EMPTY, run);
            && (forall id: nat :: id < |s.log| && s.log[id].wellFormed ==> InStream(s, id) || HasItsRow(s, id))
            && (forall id: nat :: id < |s.log| && !s.log[id].wellFormed ==> InStream(s, id) || id in s.dead)
            && (forall id <- s.pending :: InStream(s, id))
            && (forall k <- s.rows :: exists id: nat :: id < |s.log| && s.log[id].RowKey() == k && HasItsRow(s, id))
  {
    EmptyInv();
    RunKeepsInv(EMPTY, run);
    var s := After(EMPTY, run);
    forall id: nat | id < |s.log| && s.log[id].wellFormed && s.log[id].RowKey() in s.rows
      ensures HasItsRow(s, id)
    {
      var i :| 0 <= i < |s.log| && s.log[i].wellFormed && s.log[i].RowKey() == s.log[id].RowKey() && s.rows[s.log[id].RowKey()] == s.log[i];
    }
    forall id: nat | id < |s.log| && !InStream(s, id)
      ensures Settled(s, id)
    {
    }
    forall k | k in s.rows
      ensures exists id: nat :: id < |s.log| && s.log[id].RowKey() == k && HasItsRow(s, id)
    {
      var i :| 0 <= i < |s.log| && s.log[i].wellFormed && s.log[i].RowKey() == k && s.rows[k] == s.log[i];
      assert HasItsRow(s, i);
    }
  }

  ghost function IdSet(from: nat, end: nat): (ids: set<nat>)
    requires from <= end
    ensures forall id: nat :: id in ids <==> from <= id < end
    ensures |ids| == end - from
    decreases end
  {
    if from == end then {} else IdSet(from, end - 1) + {end - 1}
  }

  /** Ids counted by `Outstanding`. */
  ghost function OutstandingIds(s: State): set<nat>
    requires s.delivered <= |s.log|
  {
    s.pending.Keys + IdSet(s.delivered, |s.log|)
  }

  lemma {:induction false} OutstandingMembers(s: State)
    requires s.delivered <= |s.log|
    ensures forall id: nat :: id in OutstandingIds(s) <==> id in s.pending || s.delivered <= id < |s.log|
  {
  }

  lemma {:induction false} OutstandingCounts(s: State)
    requires Inv(s)
    ensures |OutstandingIds(s)| == s.Outstanding()
  {
    var undelivered := IdSet(s.delivered, |s.log|);
    assert s.pending.Keys !! undelivered;
    assert |s.pending.Keys + undelivered| == |s.pending.Keys| + |undelivered|;
    assert |s.pending.Keys| == |s.pending|;
  }

  lemma {:induction false} SubsetSize<T>(a: set<T>, b: set<T>)
    requires a <= b
    ensures |a| <= |b| && (|a| == |b| <==> a == b)
  {
    assert b == a + (b - a);
    if a != b {
      var x :| x in b && x !in a;
      assert x in b - a;
    }
  }

  /** Captured but uncommitted entries of any of the accounts. */
  ghost function UncommittedOf(s: State, accounts: seq<Account>): set<nat> {
    if accounts == [] then {} else Uncommitted(s.log, s.rows, accounts[0]) + UncommittedOf(s, accounts[1..])
  }

  /** Counters minus rows, over several accounts, discounting half-applied captures. */
  ghost function Delta(s: State, accounts: seq<Account>): int {
    if accounts == [] then 0
    else s.Counter(accounts[0]) - s.Orphans(accounts[0]) - |RowsOf(s.rows, accounts[0])| + Delta(s, accounts[1..])
  }

  ghost predicate Distinct(accounts: seq<Account>) {
    forall i, j :: 0 <= i < j < |accounts| ==> accounts[i] != accounts[j]
  }

  lemma {:induction false} UncommittedMembers(s: State, accounts: seq<Account>)
    ensures forall id: nat :: id in UncommittedOf(s, accounts) <==>
      && id < |s.log| && s.log[id].wellFormed && s.log[id].billable
      && s.log[id].account in accounts && s.log[id].RowKey() !in s.rows
  {
    if accounts != [] {
      UncommittedMembers(s, accounts[1..]);
      assert forall a :: a in accounts <==> a == accounts[0] || a in accounts[1..];
    }
  }

  lemma {:induction false} UncommittedOutstanding(s: State, accounts: seq<Account>)
    requires Inv(s)
    ensures UncommittedOf(s, accounts) <= OutstandingIds(s)
  {
    hide UncommittedOf, Uncommitted, RowsOf, RowsFromLog, UniqueKeys;
    UncommittedMembers(s, accounts);
    forall id | id in UncommittedOf(s, accounts) ensures id in OutstandingIds(s) {
      assert id < s.delivered && id !in s.pending ==> Settled(s, id);
    }
  }

  lemma {:induction false} DeltaIsUncommitted(s: State, accounts: seq<Account>)
    requires Inv(s) && Distinct(accounts)
    ensures Delta(s, accounts) == |UncommittedOf(s, accounts)|
  {
    hide RowsOf, RowsFromLog, UniqueKeys, Settled;
    if accounts != [] {
      var a, rest := accounts[0], accounts[1..];
      assert Balanced(s, a);
      DeltaIsUncommitted(s, rest);
      var mine, others := Uncommitted(s.log, s.rows, a), UncommittedOf(s, rest);
      UncommittedMembers(s, rest);
      assert forall k :: 0 <= k < |rest| ==> rest[k] == accounts[k + 1];
      assert a !in rest;
      assert mine !! others;
      assert |mine + others| == |mine| + |others|;
    }
  }

  /** Conservation: in every reachable state and over any set of accounts, counters minus rows
      are exactly the captured entries no commit has stored. That is never more than what is
      outstanding, and equals it exactly when every outstanding entry is one of them, so that
      no committed entry is still waiting for its ack. */
  lemma {:induction false} Conservation(run: seq<Action>, accounts: seq<Account>)
    requires Legal(EMPTY, run) && Distinct(accounts)
    ensures After(EMPTY, run).delivered <= |After(EMPTY, run).log|
    ensures var s := After(EMPTY, run);
            && Delta(s, accounts) == |UncommittedOf(s, accounts)| <= s.Outstanding()
            && (Delta(s, accounts) == s.Outstanding() <==> OutstandingIds(s) == UncommittedOf(s, accounts))
  {
    hide Enabled, Apply, Delta, UncommittedOf, OutstandingIds;
    EmptyInv();
    RunKeepsInv(EMPTY, run);
    var s := After(EMPTY, run);
    DeltaIsUncommitted(s, accounts);
    UncommittedOutstanding(s, accounts);
    OutstandingCounts(s);
    SubsetSize(UncommittedOf(s, accounts), OutstandingIds(s));
  }

  lemma {:induction false} InsertBatchOrigin(rows: Rows, log: seq<Event>, ids: seq<nat>, k: Key)
    ensures k in InsertBatch(rows, log, ids) ==> k in rows || exists id <- ids :: id < |log| && log[id].wellFormed && log[id].RowKey() == k
    decreases ids
  {
    if ids != [] {
      assert ids[0] in ids && forall id <- ids[1..] :: id in ids;
      InsertBatchOrigin(if ids[0] < |log| && log[ids[0]].wellFormed then Insert(rows, log[ids[0]]) else rows, log, ids[1..], k);
    }
  }

  /** What the hot path writes is billable, and no commit runs ahead of delivery. */
  ghost predicate InOrder(s: State) {
    && (forall i :: 0 <= i < |s.log| && s.log[i].wellFormed ==> s.log[i].billable)
    && (forall i :: s.delivered <= i < |s.log| && s.log[i].wellFormed ==> s.log[i].RowKey() !in s.rows)
  }

  lemma {:induction false} CommitInOrder(s: State, c: nat, i: nat)
    requires Inv(s) && InOrder(s) && Enabled(s, Commit(c)) && s.delivered <= i < |s.log| && s.log[i].wellFormed
    ensures s.log[i].RowKey() !in Apply(s, Commit(c)).rows
  {
    hide Balanced, Settled, RowsFromLog;
    var ids := s.Held(c).ids;
    InsertBatchOrigin(s.rows, s.log, ids, s.log[i].RowKey());
    assert BatchSound(s, s.Held(c));
    assert forall id <- ids :: id < s.delivered && (s.log[id].wellFormed ==> s.log[id].RowKey() != s.log[i].RowKey());
  }

  lemma {:induction false} StepInOrder(s: State, a: Action)
    requires Inv(s) && InOrder(s) && Enabled(s, a)
    ensures InOrder(Apply(s, a))
  {
    hide Balanced, Settled, UniqueKeys, BatchSound;
    if a.Commit? {
      forall i | s.delivered <= i < |s.log| && s.log[i].wellFormed ensures s.log[i].RowKey() !in Apply(s, a).rows {
        CommitInOrder(s, a.consumer, i);
      }
    }
  }

  lemma {:induction false} RunInOrder(s: State, run: seq<Action>)
    requires Inv(s) && InOrder(s) && Legal(s, run)
    ensures InOrder(After(s, run))
    decreases run
  {
    hide Inv, InOrder, Enabled, Apply;
    if run != [] {
      StepKeepsInv(s, run[0]);
      StepInOrder(s, run[0]);
      RunInOrder(Apply(s, run[0]), run[1..]);
    }
  }

  /** Over all accounts, and with no malformed entry outstanding, counters minus rows equal the
      backlog exactly when no pending entry has been committed already. */
  lemma {:induction false} BacklogExactly(run: seq<Action>, accounts: seq<Account>)
    requires Legal(EMPTY, run) && Distinct(accounts)
    requires After(EMPTY, run).delivered <= |After(EMPTY, run).log|
    requires forall e <- After(EMPTY, run).log :: e.account in accounts
    requires forall id <- OutstandingIds(After(EMPTY, run)) :: id < |After(EMPTY, run).log| && After(EMPTY, run).log[id].wellFormed
    ensures var s := After(EMPTY, run);
            && (forall id <- s.pending :: id < |s.log|)
            && (Delta(s, accounts) == s.Outstanding() <==> forall id <- s.pending :: s.log[id].RowKey() !in s.rows)
  {
    hide Enabled, Apply, Delta, UncommittedOf, OutstandingIds, Inv;
    EmptyInv();
    RunKeepsInv(EMPTY, run);
    RunInOrder(EMPTY, run);
    Conservation(run, accounts);
    var s := After(EMPTY, run);
    Bounds(s);
    UncommittedMembers(s, accounts);
    UncommittedOutstanding(s, accounts);
    OutstandingMembers(s);
    forall id | id in OutstandingIds(s) ensures id in UncommittedOf(s, accounts) <==> s.log[id].RowKey() !in s.rows {
      assert s.log[id] in s.log;
    }
    if forall id <- s.pending :: s.log[id].RowKey() !in s.rows {
      assert OutstandingIds(s) <= UncommittedOf(s, accounts);
    }
  }

  /** Nothing outstanding means nothing is missing: every well-formed entry has its row. */
  lemma {:induction false} DrainedMeansStored(s: State, id: nat)
    requires Inv(s) && s.Outstanding() == 0 && id < |s.log| && s.log[id].wellFormed
    ensures s.log[id].RowKey() in s.rows
  {
    assert s.pending == map[];
    assert Settled(s, id);
  }

  // ----- Trimming when its reads and its XTRIM are separate commands -----

  function TrimTo(s: State, point: nat): State {
    s.(trimmed := if point > s.trimmed then point else s.trimmed)
  }

  /** After any run, a pending entry was pending before it or was delivered during it. */
  lemma {:induction false} PendingOrigin(s: State, run: seq<Action>)
    requires Inv(s) && Legal(s, run)
    ensures s.delivered <= After(s, run).delivered
    ensures forall id <- After(s, run).pending :: id in s.pending || id >= s.delivered
    decreases run
  {
    hide Inv, Apply, Enabled;
    if run != [] {
      StepKeepsInv(s, run[0]);
      StepPending(s, run[0]);
      PendingOrigin(Apply(s, run[0]), run[1..]);
    }
  }

  lemma {:induction false} StepPending(s: State, a: Action)
    requires Inv(s) && Enabled(s, a)
    ensures s.delivered <= Apply(s, a).delivered
    ensures forall id <- Apply(s, a).pending :: id in s.pending || id >= s.delivered
  {
    hide Inv;
    Bounds(s);
  }

  lemma {:induction false} Bounds(s: State)
    requires Inv(s)
    ensures s.trimmed <= s.delivered <= |s.log|
    ensures forall id <- s.pending :: s.trimmed <= id < s.delivered
  {
  }

  /** What reading last-delivered-id gives the XTRIM: everything before it goes. */
  function LastDelivered(s: State): nat {
    if s.delivered == 0 then 0 else s.delivered - 1
  }

  /** An XTRIM at the point, at this moment, takes no payload a consumer still has pending. */
  ghost predicate TrimsNothingPending(s: State, point: nat) {
    forall id <- s.pending :: InStream(s, id) ==> InStream(TrimTo(s, point), id)
  }

  /** Whatever runs before the XTRIM. */
  ghost predicate SafeFrom(s: State, point: nat) {
    forall run: seq<Action> :: Legal(s, run) ==> TrimsNothingPending(After(s, run), point)
  }

  lemma {:induction false} AboveIsSafe(s: State, point: nat)
    requires Inv(s) && point <= s.delivered && forall id <- s.pending :: point <= id
    ensures SafeFrom(s, point)
  {
    hide Inv;
    forall run: seq<Action> | Legal(s, run) ensures TrimsNothingPending(After(s, run), point) {
      PendingOrigin(s, run);
    }
  }

  /** A trim point taken from XPENDING stays safe however much happens before the XTRIM. */
  lemma {:induction false} SampledPendingSafe(s: State)
    requires Inv(s) && s.pending != map[]
    ensures SafeFrom(s, TrimPoint(s))
  {
    AboveIsSafe(s, TrimPoint(s));
  }

  /** The window the code leaves open. XPENDING finds nothing at `s`, `between` runs, the group's
      last delivered id is read, and the XTRIM comes later still. It is safe, whatever comes later,
      exactly when nothing that was delivered in between and lies below the point is still pending;
      so it is safe if at most one entry was delivered in between. */
  lemma {:induction false} TrimSafeExactly(s: State, between: seq<Action>)
    requires Inv(s) && s.pending == map[] && Legal(s, between)
    ensures var read := After(s, between); var point := LastDelivered(read);
            && (SafeFrom(read, point) <==> forall id :: s.delivered <= id < point ==> id !in read.pending)
            && (read.delivered <= s.delivered + 1 ==> SafeFrom(read, point))
  {
    hide Inv;
    var read := After(s, between);
    var point := LastDelivered(read);
    RunKeepsInv(s, between);
    PendingOrigin(s, between);
    Bounds(read);
    if forall id :: s.delivered <= id < point ==> id !in read.pending {
      AboveIsSafe(read, point);
    } else {
      var id :| s.delivered <= id < point && id in read.pending;
      assert Legal(read, []) && After(read, []) == read;
      assert InStream(read, id) && !InStream(TrimTo(read, point), id);
    }
  }

  /** With the two reads the other way round no interleaving is unsafe: a last delivered id read
      before XPENDING finds nothing, or the smallest pending id if it finds something. */
  lemma {:induction false} ReadInOrderSafe(s: State, between: seq<Action>)
    requires Inv(s) && Legal(s, between)
    ensures var read := After(s, between); SafeFrom(read, if read.pending == map[] then LastDelivered(s) else TrimPoint(read))
  {
    hide Inv;
    var read := After(s, between);
    RunKeepsInv(s, between);
    PendingOrigin(s, between);
    if read.pending == map[] {
      AboveIsSafe(read, LastDelivered(s));
    } else {
      SampledPendingSafe(read);
    }
  }

  lemma {:induction false} TwoWaiting() returns (s: State)
    ensures Inv(s) && s.pending == map[] && s.delivered == 0 && s.trimmed == 0 && |s.log| == 2 && s.batches == map[]
  {
    hide Inv;
    var a, b := Event(1, Account(1, 0), 1, 0, true, true), Event(2, Account(1, 0), 1, 0, true, true);
    EmptyInv();
    StepKeepsInv(EMPTY, Capture(a, true, true));
    var s1 := Apply(EMPTY, Capture(a, true, true));
    StepKeepsInv(s1, Capture(b, true, true));
    s := Apply(s1, Capture(b, true, true));
  }

  lemma {:induction false} TwoDelivered(s: State, c: nat)
    requires s.pending == map[] && s.delivered == 0 && s.trimmed == 0 && |s.log| == 2 && s.batches == map[]
    ensures Enabled(s, Deliver(c, 2))
    ensures var later := Apply(s, Deliver(c, 2)); later.delivered == 2 && 0 in later.pending && !InStream(TrimTo(later, 1), 0)
  {
    assert 0 in Span(0, 2);
  }

  /** And it does fail: a delivery of two between the reads, trimmed while it is pending. */
  lemma {:induction false} SampledLastDeliveredUnsafe()
    ensures exists s: State, run: seq<Action> ::
      && Inv(s) && s.pending == map[] && Legal(s, run)
      && var later := After(s, run);
         && later.delivered > 0
         && exists id <- later.pending :: !InStream(TrimTo(later, later.delivered - 1), id)
  {
    hide Inv, Apply, Enabled, InStream;
    var s := TwoWaiting();
    var run := [Deliver(7, 2)];
    TwoDelivered(s, 7);
    var later := Apply(s, run[0]);
    assert Legal(later, run[1..]) && After(s, run) == later;
  }
}
