/** The two-age authentication cache (src/meter/api/auth.py:74-187): an entry is trusted outright
    until the deadline inside it, and served past it, up to the Redis TTL, only while Postgres fails.
    Instants are seconds, as a real number; digests stand for themselves. */
module AuthCache {
  import opened Wrappers

  datatype KeyRecord = KeyRecord(customer: string, keyId: string, hash: string, revoked: bool) {
    /** Identifiers and digests as Postgres holds them: no separator, no leading sentinel. */
    predicate Valid() {
      BAR !in customer && BAR !in keyId && BAR !in hash && hash != "" && !(UNKNOWN <= customer) && customer != ""
    }
  }

  datatype Caller = Caller(customer: string, keyId: string)

  const BAR := '|'
  const UNKNOWN := "-"

  // ----- The cache value -----

  function Digit(d: nat): char
    requires d < 10
  {
    "0123456789"[d]
  }

  function Decimal(n: nat): (text: string)
    ensures text != "" && BAR !in text
  {
    if n < 10 then [Digit(n)] else Decimal(n / 10) + [Digit(n % 10)]
  }

  /** The deadline as written: a run of decimal digits. Anything else is unreadable. */
  function ReadDecimal(text: string): Option<nat> {
    if text == "" then None
    else
      var last := text[|text| - 1];
      if !('0' <= last <= '9') then None
      else if |text| == 1 then Some((last - '0') as nat)
      else match ReadDecimal(text[..|text| - 1]) case None => None case Some(front) => Some(10 * front + (last - '0') as nat)
  }

  lemma {:induction false} DecimalRoundTrip(n: nat)
    ensures ReadDecimal(Decimal(n)) == Some(n)
  {
    hide ReadDecimal, Digit;
    if n < 10 {
      OneDigit(n);
    } else {
      DecimalRoundTrip(n / 10);
      OneMoreDigit(Decimal(n / 10), n / 10, n % 10);
    }
  }

  lemma {:induction false} OneDigit(d: nat)
    requires d < 10
    ensures ReadDecimal([Digit(d)]) == Some(d)
  {
    DigitReads(d);
  }

  lemma {:induction false} OneMoreDigit(text: string, value: nat, d: nat)
    requires text != "" && ReadDecimal(text) == Some(value) && d < 10
    ensures ReadDecimal(text + [Digit(d)]) == Some(10 * value + d)
  {
    DigitReads(d);
    assert (text + [Digit(d)])[..|text|] == text;
  }

  lemma {:induction false} DigitReads(d: nat)
    requires d < 10
    ensures '0' <= Digit(d) <= '9' && (Digit(d) - '0') as nat == d
  {
  }

  /** `partition("|")`. */
  function Cut(text: string): (r: (string, string)) {
    if text == "" then ("", "")
    else if text[0] == BAR then ("", text[1..])
    else var (head, rest) := Cut(text[1..]); ([text[0]] + head, rest)
  }

  /** `rpartition("|")[2]`. */
  function LastField(text: string): string {
    if BAR !in text then text else LastField(text[1..])
  }

  lemma {:induction false} CutAt(field: string, rest: string)
    requires BAR !in field
    ensures Cut(field + [BAR] + rest) == (field, rest)
  {
    var text := field + [BAR] + rest;
    if field == "" {
      assert text[1..] == rest;
    } else {
      assert text[1..] == field[1..] + [BAR] + rest;
      CutAt(field[1..], rest);
      assert [field[0]] + field[1..] == field;
    }
  }

  lemma {:induction false} LastAfter(front: string, field: string)
    requires BAR !in field
    ensures LastField(front + [BAR] + field) == field
  {
    var text := front + [BAR] + field;
    assert text[|front|] == BAR;
    if front == "" {
      assert text[1..] == field;
    } else {
      assert text[1..] == front[1..] + [BAR] + field;
      LastAfter(front[1..], field);
    }
  }

  function Encode(record: KeyRecord, deadline: nat): string {
    record.customer + [BAR] + (record.keyId + [BAR] + (record.hash + [BAR] + Decimal(deadline)))
  }

  function Decode(cached: string, digest: string): Option<Caller> {
    if UNKNOWN <= cached then None
    else
      var (customer, afterCustomer) := Cut(cached);
      var (keyId, afterKey) := Cut(afterCustomer);
      var hash := Cut(afterKey).0;
      if hash == "" || hash != digest then None else Some(Caller(customer, keyId))
  }

  /** A negative entry is fresh for as long as it exists; an unreadable deadline has passed. */
  predicate FreshAt(cached: string, now: real) {
    UNKNOWN <= cached || now < (if ReadDecimal(LastField(cached)).Some? then ReadDecimal(LastField(cached)).value as real else 0.0)
  }

  /** An entry names the caller it was written for, to that key's digest only, and is fresh up to
      the deadline it was written with and no longer. */
  lemma {:induction false} EntryRoundTrip(record: KeyRecord, deadline: nat, digest: string, now: real)
    requires record.Valid()
    ensures var entry := Encode(record, deadline);
            && entry == record.customer + "|" + (record.keyId + "|" + (record.hash + "|" + Decimal(deadline)))
            && Decode(entry, digest) == (if record.hash == digest then Some(Caller(record.customer, record.keyId)) else None)
            && (FreshAt(entry, now) <==> now < deadline as real)
  {
    var text := Decimal(deadline);
    var third := record.hash + [BAR] + text;
    var second := record.keyId + [BAR] + third;
    var entry := Encode(record, deadline);
    CutAt(record.customer, second);
    CutAt(record.keyId, third);
    CutAt(record.hash, text);
    LastAfter(record.customer + [BAR] + (record.keyId + [BAR] + record.hash), text);
    assert entry == record.customer + [BAR] + (record.keyId + [BAR] + record.hash) + [BAR] + text;
    DecimalRoundTrip(deadline);
    assert entry[0] == record.customer[0];
  }

  /** A row as Redis holds it. */
  lemma {:induction false} RowAsWritten()
    ensures Encode(KeyRecord("c", "k", "h", false), 120) == "c|k|h|120"
    ensures UNKNOWN == "-"
  {
    assert Decimal(120) == "120" by { assert Decimal(12) == "12" by { assert Decimal(1) == "1"; } }
  }

  // ----- One resolution -----

  datatype Lookup = Unreachable | Answered(record: Option<KeyRecord>)

  datatype Outcome = Accepted(caller: Caller) | Rejected | DirectoryDown | CacheDown

  datatype Settings = Settings(ttl: nat, ceiling: nat)

  predicate Live(record: Option<KeyRecord>, digest: string) {
    record.Some? && !record.value.revoked && record.value.hash == digest
  }

  /** The deadline is floored, so that rounding only ever shortens it. */
  function Deadline(now: real, ttl: nat): (deadline: nat)
    requires now >= 0.0
    ensures deadline as real <= now + ttl as real < deadline as real + 1.0
  {
    (now + ttl as real).Floor
  }

  /** A cache row; `expires` is its Redis TTL. */
  datatype Entry = Entry(value: string, written: real, expires: real)

  function NewEntry(settings: Settings, digest: string, now: real, record: Option<KeyRecord>, at: real): Entry
    requires now >= 0.0
  {
    if Live(record, digest) then Entry(Encode(record.value, Deadline(now, settings.ttl)), at, at + settings.ceiling as real)
    else Entry(UNKNOWN, at, at + settings.ttl as real)
  }

  function Verdict(digest: string, record: Option<KeyRecord>): Outcome {
    if Live(record, digest) then Accepted(Caller(record.value.customer, record.value.keyId)) else Rejected
  }

  function Trust(cached: string, digest: string): Outcome {
    var caller := Decode(cached, digest);
    if caller.Some? then Accepted(caller.value) else Rejected
  }

  class Cache {
    const settings: Settings
    var entries: map<string, Entry>

    constructor (settings: Settings)
      ensures this.settings == settings && entries == map[]
    {
      this.settings, entries := settings, map[];
    }

    /** Resolves one presented key. `cached` was read before; `now` is read on entry; the lookup
        answers and the row is written later, at `at`. */
    method Resolve(digest: string, cached: Option<string>, now: real, lookup: Lookup, at: real,
        writable: bool) returns (outcome: Outcome)
      requires 0.0 <= now <= at
      requires lookup.Answered? && lookup.record.Some? ==> lookup.record.value.Valid()
      modifies this`entries
      ensures cached.Some? && FreshAt(cached.value, now) ==> outcome == Trust(cached.value, digest)
      ensures cached.None? || !FreshAt(cached.value, now) ==>
        match lookup
        case Unreachable => outcome == if cached.Some? && Decode(cached.value, digest).Some? then Accepted(Decode(cached.value, digest).value) else DirectoryDown
        case Answered(record) => outcome == if writable then Verdict(digest, record) else CacheDown
      ensures entries == if (cached.None? || !FreshAt(cached.value, now)) && lookup.Answered? && writable
                         then old(entries)[digest := NewEntry(settings, digest, now, lookup.record, at)] else old(entries)
      // what the directory's answer is worth: revoked, unknown or another key's, it is refused and remembered briefly
      ensures (cached.None? || !FreshAt(cached.value, now)) && lookup.Answered? && writable ==>
        var record := lookup.record;
        if record.None? || record.value.revoked || record.value.hash != digest
        then outcome == Rejected && digest in entries && entries[digest] == Entry(UNKNOWN, at, at + settings.ttl as real)
        else outcome == Accepted(Caller(record.value.customer, record.value.keyId))
             && digest in entries && entries[digest].expires == at + settings.ceiling as real
             && Decode(entries[digest].value, digest) == Some(Caller(record.value.customer, record.value.keyId))
             && forall t :: FreshAt(entries[digest].value, t) ==> t < now + settings.ttl as real
    {
      hide Decode, FreshAt, Encode, KeyRecord.Valid;
      if cached.Some? && FreshAt(cached.value, now) {
        return Trust(cached.value, digest);
      }
      if lookup.Unreachable? {
        var stale := if cached.Some? then Decode(cached.value, digest) else None;
        return if stale.Some? then Accepted(stale.value) else DirectoryDown;
      }
      var live := Live(lookup.record, digest);
      var value := if live then Encode(lookup.record.value, Deadline(now, settings.ttl)) else UNKNOWN;
      if !writable {
        return CacheDown;
      }
      entries := entries[digest := Entry(value, at, at + (if live then settings.ceiling else settings.ttl) as real)];
      if live {
        forall t ensures FreshAt(value, t) <==> t < Deadline(now, settings.ttl) as real {
          EntryRoundTrip(lookup.record.value, Deadline(now, settings.ttl), digest, t);
        }
        EntryRoundTrip(lookup.record.value, Deadline(now, settings.ttl), digest, now);
        return Trust(value, digest);
      }
      return Rejected;
    }
  }

  // ----- Many resolutions, a changing directory, a moving clock -----

  /** A live answer Postgres gave: when its lookup began and when it was read. Bookkeeping. */
  datatype Answer = Answer(digest: string, record: KeyRecord, begun: real, read: real)

  /** Reading: the cached row is in hand. Asking: Postgres has been asked. Writing: it has answered. */
  datatype Call =
    | Reading(digest: string, cached: Option<Entry>, readAt: real)
    | Asking(digest: string, cached: Option<Entry>, readAt: real, now: real)
    | Writing(digest: string, record: Option<KeyRecord>, now: real)
    | Finished(outcome: Outcome)

  datatype System = System(settings: Settings, time: real, directory: map<string, KeyRecord>, entries: map<string, Entry>,
                           calls: map<nat, Call>, answers: set<Answer>)

  datatype Step =
    | Wait(until: real)
    | ChangeDirectory(directory: map<string, KeyRecord>)
    | Evict(digest: string)
    | Begin(id: nat, digest: string)
    | Start(id: nat)
    | Ask(id: nat, reachable: bool)
    | Write(id: nat, reachable: bool)

  ghost predicate DirectorySound(directory: map<string, KeyRecord>) {
    forall digest <- directory :: directory[digest].Valid() && directory[digest].hash == digest
  }

  ghost predicate CanTake(s: System, step: Step) {
    match step
    case Wait(until) => until >= s.time
    case ChangeDirectory(directory) => DirectorySound(directory)
    case Evict(_) => true
    case Begin(id, _) => id !in s.calls
    case Start(id) => id in s.calls && s.calls[id].Reading?
    case Ask(id, _) => id in s.calls && s.calls[id].Asking?
    case Write(id, _) => id in s.calls && s.calls[id].Writing? && s.calls[id].now >= 0.0
  }

  /** A call's cached row after its first reading of the clock. */
  function AfterStart(call: Call, time: real): Call
    requires call.Reading?
  {
    if call.cached.Some? && FreshAt(call.cached.value.value, time) then Finished(Trust(call.cached.value.value, call.digest))
    else Asking(call.digest, call.cached, call.readAt, time)
  }

  function AfterFailure(call: Call): Call
    requires call.Asking?
  {
    if call.cached.Some? && Decode(call.cached.value.value, call.digest).Some?
    then Finished(Accepted(Decode(call.cached.value.value, call.digest).value)) else Finished(DirectoryDown)
  }

  function Find(directory: map<string, KeyRecord>, digest: string): Option<KeyRecord> {
    if digest in directory then Some(directory[digest]) else None
  }

  ghost function Take(s: System, step: Step): System
    requires CanTake(s, step)
  {
    match step
    case Wait(until) => s.(time := until)
    case ChangeDirectory(directory) => s.(directory := directory)
    case Evict(digest) => s.(entries := s.entries - {digest})
    case Begin(id, digest) =>
      var cached := if digest in s.entries && s.time < s.entries[digest].expires then Some(s.entries[digest]) else None;
      s.(calls := s.calls[id := Reading(digest, cached, s.time)])
    case Start(id) => s.(calls := s.calls[id := AfterStart(s.calls[id], s.time)])
    case Ask(id, reachable) =>
      var call := s.calls[id];
      var record := Find(s.directory, call.digest);
      if !reachable then s.(calls := s.calls[id := AfterFailure(call)])
      else s.(calls := s.calls[id := Writing(call.digest, record, call.now)],
              answers := if Live(record, call.digest) then s.answers + {Answer(call.digest, record.value, call.now, s.time)} else s.answers)
    case Write(id, reachable) =>
      var call := s.calls[id];
      if !reachable then s.(calls := s.calls[id := Finished(CacheDown)])
      else s.(calls := s.calls[id := Finished(Verdict(call.digest, call.record))],
              entries := s.entries[call.digest := NewEntry(s.settings, call.digest, call.now, call.record, s.time)])
  }

  /** A call starts from the row the cache holds unexpired at that moment, and from none otherwise. */
  lemma {:induction false} BeginReads(s: System, id: nat, digest: string)
    requires id !in s.calls
    ensures CanTake(s, Begin(id, digest)) && id in Take(s, Begin(id, digest)).calls
    ensures var call := Take(s, Begin(id, digest)).calls[id];
            && call.Reading? && call.digest == digest && call.readAt == s.time
            && (call.cached.Some? ==> digest in s.entries && call.cached.value == s.entries[digest] && s.time < s.entries[digest].expires)
            && (call.cached.None? ==> digest !in s.entries || s.entries[digest].expires <= s.time)
  {
  }

  /** What each step of a call decides, on the row and the record alone: a fresh row answers by itself;
      only a failure lets a positive row answer past its deadline; a record that is revoked, unknown or
      another key's is refused and remembered briefly, any other is accepted and remembered. */
  lemma {:induction false} StepsDecide(s: System, step: Step)
    requires CanTake(s, step) && (step.Start? || step.Ask? || step.Write?)
    ensures step.id in s.calls && step.id in Take(s, step).calls
    ensures var call, call' := s.calls[step.id], Take(s, step).calls[step.id];
            var digest := call.digest;
            match step
            case Start(_) =>
              call' == if call.cached.Some? && FreshAt(call.cached.value.value, s.time)
                       then Finished(if Decode(call.cached.value.value, digest).Some? then Accepted(Decode(call.cached.value.value, digest).value) else Rejected)
                       else Asking(digest, call.cached, call.readAt, s.time)
            case Ask(_, true) => call' == Writing(digest, if digest in s.directory then Some(s.directory[digest]) else None, call.now)
            case Ask(_, false) =>
              call' == Finished(if call.cached.Some? && Decode(call.cached.value.value, digest).Some?
                                then Accepted(Decode(call.cached.value.value, digest).value) else DirectoryDown)
            case Write(_, false) => call' == Finished(CacheDown) && Take(s, step).entries == s.entries
            case Write(_, true) =>
              var refused := call.record.None? || call.record.value.revoked || call.record.value.hash != digest;
              && call' == Finished(if refused then Rejected else Accepted(Caller(call.record.value.customer, call.record.value.keyId)))
              && digest in Take(s, step).entries
              && Take(s, step).entries[digest].expires == s.time + (if refused then s.settings.ttl else s.settings.ceiling) as real
              && (refused ==> Take(s, step).entries[digest].value == UNKNOWN)
            case _ => true
  {
    hide Decode, FreshAt, Encode, Deadline;
  }

  // ----- The invariant -----

  /** A row is negative, or it was written for a live answer whose lookup had begun before. */
  ghost predicate EntrySound(s: System, digest: string, e: Entry) {
    || e.value == UNKNOWN
    || exists a <- s.answers :: WrittenFor(s.settings, a, digest, e)
  }

  predicate WrittenFor(settings: Settings, a: Answer, digest: string, e: Entry) {
    && a.digest == digest && 0.0 <= a.begun <= a.read <= e.written
    && e.value == Encode(a.record, Deadline(a.begun, settings.ttl))
    && e.expires == e.written + settings.ceiling as real
  }

  ghost predicate CallSound(s: System, call: Call) {
    match call
    case Reading(digest, cached, readAt) => readAt <= s.time && (cached.Some? ==> EntrySound(s, digest, cached.value) && readAt < cached.value.expires)
    case Asking(digest, cached, readAt, now) =>
      0.0 <= now <= s.time && readAt <= now && (cached.Some? ==> EntrySound(s, digest, cached.value) && readAt < cached.value.expires)
    case Writing(digest, record, now) =>
      0.0 <= now <= s.time && (Live(record, digest) ==> exists a <- s.answers :: a.digest == digest && a.record == record.value && a.begun == now)
    case Finished(_) => true
  }

  /** An answer is of a key of its own digest that was not revoked when it was read. */
  predicate AnswerSound(a: Answer) {
    a.record.Valid() && a.record.hash == a.digest && !a.record.revoked && 0.0 <= a.begun <= a.read
  }

  ghost predicate AuthInv(s: System) {
    && s.time >= 0.0 && DirectorySound(s.directory)
    && (forall a <- s.answers :: AnswerSound(a) && a.read <= s.time)
    && (forall digest <- s.entries :: EntrySound(s, digest, s.entries[digest]))
    && forall id <- s.calls :: CallSound(s, s.calls[id])
  }

  // ----- Main result -----

  ghost function CallerOf(a: Answer): Caller {
    Caller(a.record.customer, a.record.keyId)
  }

  /** The three ways to be accepted. */
  ghost predicate Justified(s: System, step: Step, caller: Caller)
    requires CanTake(s, step)
  {
    match step
    // a fresh row: its live lookup began less than the fresh TTL ago
    case Start(id) => exists a <- s.answers :: a.digest == s.calls[id].digest && CallerOf(a) == caller && s.time < a.begun + s.settings.ttl as real
    // Postgres failed: a positive row, read less than the stale ceiling after it was written
    case Ask(id, reachable) =>
      && !reachable && s.calls[id].cached.Some?
      && s.calls[id].readAt < s.calls[id].cached.value.written + s.settings.ceiling as real
      && exists a <- s.answers :: a.digest == s.calls[id].digest && CallerOf(a) == caller && a.read <= s.calls[id].cached.value.written
    // Postgres answered this very call
    case Write(id, _) => exists a <- s.answers :: a.digest == s.calls[id].digest && CallerOf(a) == caller && a.begun == s.calls[id].now
    case _ => false
  }

  ghost predicate Accepts(s: System, step: Step, id: nat, caller: Caller)
    requires CanTake(s, step)
  {
    && id in Take(s, step).calls && Take(s, step).calls[id] == Finished(Accepted(caller))
    && (id !in s.calls || s.calls[id] != Take(s, step).calls[id])
  }

  // ----- Every step keeps it -----

  /** Answers are never forgotten, and time never goes back. */
  ghost predicate Later(s: System, s': System) {
    s.settings == s'.settings && s.time <= s'.time && s.answers <= s'.answers
  }

  lemma {:induction false} EntryKept(s: System, s': System, digest: string, e: Entry)
    requires EntrySound(s, digest, e) && Later(s, s')
    ensures EntrySound(s', digest, e)
  {
    hide WrittenFor;
  }

  lemma {:induction false} CallKept(s: System, s': System, call: Call)
    requires CallSound(s, call) && Later(s, s')
    ensures CallSound(s', call)
  {
    hide EntrySound;
    if (call.Reading? || call.Asking?) && call.cached.Some? {
      EntryKept(s, s', call.digest, call.cached.value);
    }
  }

  lemma {:induction false} StepLater(s: System, step: Step)
    requires CanTake(s, step)
    ensures Later(s, Take(s, step))
  {
  }

  lemma {:induction false} AnswersKept(s: System, step: Step)
    requires AuthInv(s) && CanTake(s, step)
    ensures forall a <- Take(s, step).answers :: AnswerSound(a) && a.read <= Take(s, step).time
  {
    hide EntrySound;
    if step.Ask? {
      assert CallSound(s, s.calls[step.id]);
    }
  }

  lemma {:induction false} EntriesKept(s: System, step: Step, digest: string)
    requires AuthInv(s) && CanTake(s, step) && digest in Take(s, step).entries
    ensures EntrySound(Take(s, step), digest, Take(s, step).entries[digest])
  {
    hide KeyRecord.Valid, Encode, Deadline;
    StepLater(s, step);
    if step.Write? && step.reachable && digest == s.calls[step.id].digest {
      var call := s.calls[step.id];
      assert CallSound(s, call);
      if Live(call.record, digest) {
        var a :| a in s.answers && a.digest == digest && a.record == call.record.value && a.begun == call.now;
        assert WrittenFor(s.settings, a, digest, Take(s, step).entries[digest]);
      }
    } else {
      EntryKept(s, Take(s, step), digest, s.entries[digest]);
    }
  }

  lemma {:induction false} CallsKept(s: System, step: Step, id: nat)
    requires AuthInv(s) && CanTake(s, step) && id in Take(s, step).calls
    ensures CallSound(Take(s, step), Take(s, step).calls[id])
  {
    hide KeyRecord.Valid, EntrySound, Encode, Decode, FreshAt;
    var s' := Take(s, step);
    StepLater(s, step);
    if id in s.calls && s'.calls[id] == s.calls[id] {
      CallKept(s, s', s.calls[id]);
    } else if step.Begin? {
      if s'.calls[id].cached.Some? {
        EntryKept(s, s', step.digest, s'.calls[id].cached.value);
      }
    } else if step.Start? {
      CallKept(s, s', s.calls[id]);
    } else if step.Ask? && step.reachable {
      var call := s.calls[id];
      assert CallSound(s, call);
      var record := Find(s.directory, call.digest);
      if Live(record, call.digest) {
        assert Answer(call.digest, record.value, call.now, s.time) in s'.answers;
      }
    }
  }

  lemma {:induction false} StepKeepsAuth(s: System, step: Step)
    requires AuthInv(s) && CanTake(s, step)
    ensures AuthInv(Take(s, step))
  {
    hide CallSound, EntrySound, KeyRecord.Valid;
    var s' := Take(s, step);
    AnswersKept(s, step);
    forall digest | digest in s'.entries ensures EntrySound(s', digest, s'.entries[digest]) {
      EntriesKept(s, step, digest);
    }
    forall id | id in s'.calls ensures CallSound(s', s'.calls[id]) {
      CallsKept(s, step, id);
    }
  }

  lemma {:induction false} NegativeIsNeverAccepted(digest: string)
    ensures Decode(UNKNOWN, digest) == None && Trust(UNKNOWN, digest) == Rejected
    ensures forall now: real :: FreshAt(UNKNOWN, now)
  {
  }

  lemma {:induction false} StartJustified(s: System, id: nat, caller: Caller)
    requires AuthInv(s) && CanTake(s, Start(id)) && AfterStart(s.calls[id], s.time) == Finished(Accepted(caller))
    ensures Justified(s, Start(id), caller)
  {
    hide Encode, Decode, FreshAt, Deadline, KeyRecord.Valid;
    var call := s.calls[id];
    assert CallSound(s, call);
    NegativeIsNeverAccepted(call.digest);
    var a :| a in s.answers && WrittenFor(s.settings, a, call.digest, call.cached.value);
    EntryRoundTrip(a.record, Deadline(a.begun, s.settings.ttl), call.digest, s.time);
  }

  lemma {:induction false} FailureJustified(s: System, id: nat, caller: Caller)
    requires AuthInv(s) && CanTake(s, Ask(id, false)) && AfterFailure(s.calls[id]) == Finished(Accepted(caller))
    ensures Justified(s, Ask(id, false), caller)
  {
    hide Encode, Decode, FreshAt, Deadline, KeyRecord.Valid;
    var call := s.calls[id];
    assert CallSound(s, call);
    NegativeIsNeverAccepted(call.digest);
    var a :| a in s.answers && WrittenFor(s.settings, a, call.digest, call.cached.value);
    EntryRoundTrip(a.record, Deadline(a.begun, s.settings.ttl), call.digest, s.time);
  }

  /** Whenever a step accepts a key, it is justified: by a live lookup begun less than the fresh TTL
      ago, by Postgres itself just now, or by its failure and a positive row that was no older than
      the stale ceiling when it was read. No negative row is ever behind an acceptance. */
  lemma {:induction false} AcceptedOnlyIf(s: System, step: Step, id: nat, caller: Caller)
    requires AuthInv(s) && CanTake(s, step) && Accepts(s, step, id, caller)
    ensures Justified(s, step, caller)
  {
    hide CallSound, EntrySound, KeyRecord.Valid, Encode, Decode, FreshAt, Justified;
    if step.Start? {
      StartJustified(s, id, caller);
    } else if step.Ask? && !step.reachable {
      FailureJustified(s, id, caller);
    } else if step.Write? {
      WriteJustified(s, id, step.reachable, caller);
    }
  }

  lemma {:induction false} WriteJustified(s: System, id: nat, reachable: bool, caller: Caller)
    requires AuthInv(s) && CanTake(s, Write(id, reachable)) && Verdict(s.calls[id].digest, s.calls[id].record) == Accepted(caller)
    ensures Justified(s, Write(id, reachable), caller)
  {
    assert CallSound(s, s.calls[id]);
  }

  // ----- Runs -----

  ghost function AfterRun(s: System, run: seq<Step>): System
    requires CanRun(s, run)
    decreases |run|
  {
    if |run| == 0 then s else AfterRun(Take(s, run[0]), run[1..])
  }

  ghost predicate CanRun(s: System, run: seq<Step>)
    decreases |run|
  {
    |run| == 0 || (CanTake(s, run[0]) && CanRun(Take(s, run[0]), run[1..]))
  }

  ghost predicate Boot(s: System) {
    s.time >= 0.0 && DirectorySound(s.directory) && s.entries == map[] && s.calls == map[] && s.answers == {}
  }

  lemma {:induction false} RunKeepsAuth(s: System, run: seq<Step>)
    requires AuthInv(s) && CanRun(s, run)
    ensures AuthInv(AfterRun(s, run)) && Later(s, AfterRun(s, run))
    decreases |run|
  {
    hide AuthInv, CanTake;
    if |run| > 0 {
      StepKeepsAuth(s, run[0]);
      StepLater(s, run[0]);
      RunKeepsAuth(Take(s, run[0]), run[1..]);
    }
  }

  /** Nothing holds a call up, and outages, evictions, changes of the directory and time come at any moment. */
  lemma {:induction false} AnyCallGoesOn(s: System, id: nat, reachable: bool, directory: map<string, KeyRecord>,
      digest: string, until: real)
    requires AuthInv(s)
    ensures id in s.calls ==>
      match s.calls[id]
      case Reading(_, _, _) => CanTake(s, Start(id))
      case Asking(_, _, _, _) => CanTake(s, Ask(id, reachable))
      case Writing(_, _, _) => CanTake(s, Write(id, reachable))
      case Finished(_) => true
    ensures CanTake(s, Evict(digest)) && Take(s, Evict(digest)).entries == s.entries - {digest}
    ensures until >= s.time ==> CanTake(s, Wait(until)) && Take(s, Wait(until)) == s.(time := until)
    ensures DirectorySound(directory) ==>
      CanTake(s, ChangeDirectory(directory)) && Take(s, ChangeDirectory(directory)) == s.(directory := directory)
  {
    hide EntrySound, KeyRecord.Valid, Decode, FreshAt;
    assert id in s.calls ==> CallSound(s, s.calls[id]);
  }

  /** In every run from an empty cache, whatever is revoked, evicted or unreachable in between. */
  lemma {:induction false} EveryAcceptanceIsJustified(s: System, run: seq<Step>, step: Step, id: nat, caller: Caller)
    requires Boot(s) && CanRun(s, run) && CanTake(AfterRun(s, run), step) && Accepts(AfterRun(s, run), step, id, caller)
    ensures Justified(AfterRun(s, run), step, caller)
    ensures forall a <- AfterRun(s, run).answers :: a.record.hash == a.digest && !a.record.revoked && a.read <= AfterRun(s, run).time
  {
    hide CanTake, Accepts, Justified;
    assert AuthInv(s);
    RunKeepsAuth(s, run);
    AcceptedOnlyIf(AfterRun(s, run), step, id, caller);
  }

  /** An answer is what the directory held of the digest at the moment it was read. */
  lemma {:induction false} AnswersComeFromTheDirectory(s: System, step: Step, a: Answer)
    requires AuthInv(s) && CanTake(s, step) && a in Take(s, step).answers && a !in s.answers
    ensures a.digest in s.directory && s.directory[a.digest] == a.record && !a.record.revoked && a.record.hash == a.digest
    ensures step.Ask? && s.calls[step.id].digest == a.digest && a.begun == s.calls[step.id].now <= a.read == s.time
  {
    hide EntrySound, KeyRecord.Valid;
    assert CallSound(s, s.calls[step.id]);
  }

  /** The directory holds no record of the digest, or a revoked one. */
  predicate Revoked(directory: map<string, KeyRecord>, digest: string) {
    digest !in directory || directory[digest].revoked
  }

  /** It is revoked, and the run never brings it back. */
  ghost predicate StaysRevoked(s: System, run: seq<Step>, digest: string) {
    && Revoked(s.directory, digest)
    && forall step <- run :: step.ChangeDirectory? ==> Revoked(step.directory, digest)
  }

  lemma {:induction false} NoNewAnswers(s: System, run: seq<Step>, digest: string)
    requires CanRun(s, run) && StaysRevoked(s, run, digest)
    ensures forall a <- AfterRun(s, run).answers :: a.digest == digest ==> a in s.answers
    decreases |run|
  {
    if |run| > 0 {
      assert run[0] in run && forall step <- run[1..] :: step in run;
      NoNewAnswers(Take(s, run[0]), run[1..], digest);
    }
  }

  /** Revocation takes effect everywhere within the fresh TTL. After it, a cached row lets the key in
      only before that deadline, and Postgres only to a call that had already begun its lookup. */
  lemma {:induction false} RevocationWindow(s: System, run: seq<Step>, step: Step, id: nat, caller: Caller)
    requires AuthInv(s) && CanRun(s, run) && CanTake(AfterRun(s, run), step) && Accepts(AfterRun(s, run), step, id, caller)
    requires (step.Start? || step.Write?) && StaysRevoked(s, run, AfterRun(s, run).calls[step.id].digest)
    ensures step.Start? ==> AfterRun(s, run).time < s.time + s.settings.ttl as real
    ensures step.Write? ==> AfterRun(s, run).calls[step.id].now <= s.time
  {
    hide CanRun, Accepts, StaysRevoked, CallSound, EntrySound, KeyRecord.Valid;
    var after := AfterRun(s, run);
    RunKeepsAuth(s, run);
    AcceptedOnlyIf(after, step, id, caller);
    NoNewAnswers(s, run, after.calls[step.id].digest);
  }
}
