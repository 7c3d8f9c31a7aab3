/** Many requests at once (src/meter/api/metering.py:219-402): every interleaving of arrivals, stream
    checks, gate reads, captures, answers and crashes, beside everything the drain does. */
module Requests {
  import opened Wrappers
  import opened Pipeline
  import opened Metering
  import Proration
  import Rating
  import Thresholds

  /** Checked: the stream had room when round trip 1 read it. Admitted: past the gate. Captured: the
      pipeline was acknowledged. Done: this answer has left, or none ever will. */
  datatype Stage = Arrived | Checked | Admitted | Captured(status: int) | Done(answer: Option<int>)

  datatype Request = Request(event: Event, billablePath: bool, stage: Stage)

  type Requests = map<nat, Request>

  /** `thresholds` do not change during a run; an account without one is unlimited. */
  datatype Api = Api(pipe: State, requests: Requests, thresholds: map<Account, int>, maxEntries: nat, slots: nat)

  datatype Step =
    | Arrive(id: nat, event: Event, billablePath: bool)
    | Check(id: nat)
    | ReadLimits(id: nat)
    | TryCapture(id: nat, status: int, attempt: Attempt)
    | AnswerUnbilled(id: nat, status: int)
    | Release(id: nat)
    | Die(id: nat)
    | Elsewhere(action: Action)

  // ----- One step -----

  function InProgress(requests: Requests): set<nat> {
    set id | id in requests && !requests[id].stage.Done?
  }

  function Depth(s: State): int {
    |s.log| - s.trimmed
  }

  /** The two integers one request's gate reads. */
  function LimitsOf(api: Api, a: Account): Limits {
    Limits(if a in api.pipe.counters then Some(api.pipe.counters[a]) else None,
           if a in api.thresholds then Some(api.thresholds[a]) else None)
  }

  predicate Billed(r: Request, status: int) {
    r.billablePath && Classify(status).billable
  }

  /** The keys of requests are minted for them: no entry and no other request has them. */
  ghost predicate NewKey(api: Api, e: Event) {
    Fresh(api.pipe.log, e) && forall id <- api.requests :: api.requests[id].event.RowKey() != e.RowKey()
  }

  ghost predicate CanTake(api: Api, step: Step) {
    match step
    case Arrive(id, e, _) => id !in api.requests && |InProgress(api.requests)| < api.slots && e.wellFormed && e.billable && NewKey(api, e)
    case Check(id) => id in api.requests && api.requests[id].stage.Arrived?
    case ReadLimits(id) => id in api.requests && api.requests[id].stage.Checked?
    case TryCapture(id, status, attempt) =>
      && id in api.requests && api.requests[id].stage.Admitted? && Billed(api.requests[id], status) && attempt.Possible()
      && Enabled(api.pipe, Capture(api.requests[id].event, attempt.added, attempt.counted))
    case AnswerUnbilled(id, status) => id in api.requests && api.requests[id].stage.Admitted? && !Billed(api.requests[id], status)
    case Release(id) => id in api.requests && api.requests[id].stage.Captured?
    case Die(id) => id in InProgress(api.requests)
    case Elsewhere(action) => !action.Capture? && Enabled(api.pipe, action)
  }

  function Moved(requests: Requests, id: nat, stage: Stage): Requests
    requires id in requests
  {
    requests[id := requests[id].(stage := stage)]
  }

  ghost function Take(api: Api, step: Step): Api
    requires CanTake(api, step)
  {
    match step
    case Arrive(id, e, billablePath) => api.(requests := api.requests[id := Request(e, billablePath, Arrived)])
    case Check(id) => api.(requests := Moved(api.requests, id, if Depth(api.pipe) > api.maxEntries then Done(Some(503)) else Checked))
    case ReadLimits(id) =>
      var r := api.requests[id];
      api.(requests := Moved(api.requests, id, if r.billablePath && LimitsOf(api, r.event.account).Exceeded() then Done(Some(402)) else Admitted))
    case TryCapture(id, status, attempt) =>
      api.(pipe := Apply(api.pipe, Capture(api.requests[id].event, attempt.added, attempt.counted)),
           requests := Moved(api.requests, id, if attempt.acked then Captured(status) else Done(Some(503))))
    case AnswerUnbilled(id, status) => api.(requests := Moved(api.requests, id, Done(Some(status))))
    case Release(id) => api.(requests := Moved(api.requests, id, Done(Some(api.requests[id].stage.status))))
    case Die(id) => api.(requests := Moved(api.requests, id, Done(None)))
    case Elsewhere(action) => api.(pipe := Apply(api.pipe, action))
  }

  /** What each step decides for the request it moves, and nothing else does: 503 for a full stream, 402
      for a counter at its threshold or an unreachable limit, 503 for an unacknowledged capture, and
      otherwise on to the next stage or out with the handler's own status. */
  lemma {:induction false} EveryAnswerHasItsReason(api: Api, step: Step)
    requires CanTake(api, step) && (step.Check? || step.ReadLimits? || step.TryCapture? || step.AnswerUnbilled? || step.Release?)
    ensures step.id in api.requests && step.id in Take(api, step).requests
    ensures var r, stage := api.requests[step.id], Take(api, step).requests[step.id].stage;
            var a, pipe, pipe' := r.event.account, api.pipe, Take(api, step).pipe;
            match step
            case Check(_) => pipe' == pipe && stage == if |pipe.log| - pipe.trimmed <= api.maxEntries then Checked else Done(Some(503))
            case ReadLimits(_) =>
              && pipe' == pipe && (stage == Admitted || stage == Done(Some(402)))
              && (stage == Admitted <==> !r.billablePath || a !in api.thresholds || 0 <= pipe.Counter(a) < api.thresholds[a])
            case TryCapture(_, status, attempt) =>
              && stage == (if attempt.acked then Captured(status) else Done(Some(503)))
              && pipe'.log == (if attempt.added then pipe.log + [r.event] else pipe.log)
              && pipe'.Counter(a) == pipe.Counter(a) + if attempt.counted then 1 else 0
            case AnswerUnbilled(_, status) => pipe' == pipe && stage == Done(Some(status))
            case Release(_) => pipe' == pipe && r.stage.Captured? && stage == Done(Some(r.stage.status))
            case _ => true
  {
  }

  // ----- What every step keeps -----

  /** Acknowledged: about to be answered as billable, or answered so. */
  predicate Acknowledged(r: Request) {
    r.stage.Captured? || (r.stage.Done? && r.stage.answer.Some? && Billed(r, r.stage.answer.value))
  }

  predicate NotYetCaptured(r: Request) {
    r.stage.Arrived? || r.stage.Checked? || r.stage.Admitted?
  }

  ghost predicate RequestSound(s: State, r: Request) {
    && r.event.wellFormed && r.event.billable
    && (r.stage.Captured? ==> Billed(r, r.stage.status))
    && (NotYetCaptured(r) ==> Fresh(s.log, r.event))
    && (Acknowledged(r) ==> r.event in s.log)
  }

  ghost predicate ApiInv(api: Api) {
    && Inv(api.pipe)
    && |InProgress(api.requests)| <= api.slots
    && (forall id <- api.requests :: RequestSound(api.pipe, api.requests[id]))
    && forall a, b | a in api.requests && b in api.requests && a != b :: api.requests[a].event.RowKey() != api.requests[b].event.RowKey()
  }

  function AcknowledgedOf(requests: Requests, a: Account): set<nat> {
    set id | id in requests && Acknowledged(requests[id]) && requests[id].event.account == a
  }

  /** Past the gate and able to bill. */
  function PastGate(requests: Requests, a: Account): set<nat> {
    set id | id in requests && requests[id].stage.Admitted? && requests[id].billablePath && requests[id].event.account == a
  }

  /** Past the stream check and able to add an entry. */
  function PastCheck(requests: Requests): set<nat> {
    set id | id in requests && (requests[id].stage.Checked? || requests[id].stage.Admitted?)
  }

  /** The counting laws, against the state the run began in. */
  ghost predicate Within(api: Api, base: State) {
    && (forall a: Account :: base.Counter(a) + |AcknowledgedOf(api.requests, a)| <= api.pipe.Counter(a))
    && forall a: Account | a in api.thresholds ::
         api.pipe.Counter(a) + |PastGate(api.requests, a)| <= Max(base.Counter(a), api.thresholds[a] + api.slots - 1)
  }

  lemma {:induction false} AppendKeepsSound(s: State, e: Event, r: Request)
    requires RequestSound(s, r) && (NotYetCaptured(r) && e.wellFormed ==> r.event.RowKey() != e.RowKey())
    ensures RequestSound(s.(log := s.log + [e]), r)
  {
  }

  /** Other workers never touch the log beyond appending malformed entries, or the counters. */
  lemma {:induction false} ElsewhereKeeps(s: State, action: Action)
    requires Inv(s) && Enabled(s, action) && !action.Capture?
    ensures Inv(Apply(s, action)) && Apply(s, action).counters == s.counters
    ensures Apply(s, action).log == s.log || (action.Inject? && Apply(s, action).log == s.log + [action.event])
  {
    hide Inv;
    StepKeepsInv(s, action);
  }

  // -- The requests of one stage, as one of them moves --

  lemma {:induction false} MovePastGate(requests: Requests, id: nat, stage: Stage, a: Account)
    requires id in requests
    ensures PastGate(Moved(requests, id, stage), a)
         == if stage.Admitted? && requests[id].billablePath && requests[id].event.account == a then PastGate(requests, a) + {id}
            else PastGate(requests, a) - {id}
    ensures id in PastGate(requests, a) <==> requests[id].stage.Admitted? && requests[id].billablePath && requests[id].event.account == a
  {
  }

  lemma {:induction false} MovePastCheck(requests: Requests, id: nat, stage: Stage)
    requires id in requests
    ensures PastCheck(Moved(requests, id, stage))
         == if stage.Checked? || stage.Admitted? then PastCheck(requests) + {id} else PastCheck(requests) - {id}
    ensures id in PastCheck(requests) <==> requests[id].stage.Checked? || requests[id].stage.Admitted?
  {
  }

  /** The one request a step moves, and where to. */
  ghost function MovedBy(step: Step): Option<nat> {
    match step
    case Arrive(_, _, _) => None
    case Elsewhere(_) => None
    case Check(id) => Some(id)
    case ReadLimits(id) => Some(id)
    case TryCapture(id, _, _) => Some(id)
    case AnswerUnbilled(id, _) => Some(id)
    case Release(id) => Some(id)
    case Die(id) => Some(id)
  }

  lemma {:induction false} OneMoves(api: Api, step: Step)
    requires CanTake(api, step)
    ensures var requests' := Take(api, step).requests;
            && (step.Elsewhere? ==> requests' == api.requests)
            && (step.Arrive? ==> step.id !in api.requests && requests' == api.requests[step.id := Request(step.event, step.billablePath, Arrived)])
            && (MovedBy(step).Some? ==>
                  && MovedBy(step).value in api.requests && !api.requests[MovedBy(step).value].stage.Done?
                  && MovedBy(step).value in requests'
                  && requests' == Moved(api.requests, MovedBy(step).value, requests'[MovedBy(step).value].stage))
  {
    hide Apply, Enabled, Classify;
  }

  lemma {:induction false} Arrives(requests: Requests, id: nat, r: Request, a: Account)
    requires id !in requests && r.stage == Arrived
    ensures PastGate(requests[id := r], a) == PastGate(requests, a)
    ensures PastCheck(requests[id := r]) == PastCheck(requests)
    ensures InProgress(requests[id := r]) == InProgress(requests) + {id}
  {
  }

  lemma {:induction false} MoveInProgress(requests: Requests, id: nat, stage: Stage)
    requires id in requests && (requests[id].stage.Done? ==> stage.Done?)
    ensures |InProgress(Moved(requests, id, stage))| <= |InProgress(requests)|
  {
    SubsetSize(InProgress(Moved(requests, id, stage)), InProgress(requests));
  }

  lemma {:induction false} LogStep(api: Api, step: Step)
    requires ApiInv(api) && CanTake(api, step)
    ensures var log, log' := api.pipe.log, Take(api, step).pipe.log;
            || log' == log
            || (step.TryCapture? && step.attempt.added && log' == log + [api.requests[step.id].event])
            || (step.Elsewhere? && step.action.Inject? && !step.action.event.wellFormed && log' == log + [step.action.event])
    ensures step.TryCapture? && step.attempt.added ==> Take(api, step).pipe.log == api.pipe.log + [api.requests[step.id].event]
  {
    hide Inv, RequestSound, Classify;
    if step.Elsewhere? {
      ElsewhereKeeps(api.pipe, step.action);
    }
  }

  lemma {:induction false} OtherSound(api: Api, step: Step, id: nat)
    requires ApiInv(api) && CanTake(api, step) && id in api.requests && MovedBy(step) != Some(id)
    ensures RequestSound(Take(api, step).pipe, api.requests[id])
  {
    hide Inv, Take, Billed;
    LogStep(api, step);
    var r := api.requests[id];
    assert RequestSound(api.pipe, r);
    if step.TryCapture? && step.attempt.added {
      AppendKeepsSound(api.pipe, api.requests[step.id].event, r);
    } else if step.Elsewhere? && step.action.Inject? {
      AppendKeepsSound(api.pipe, step.action.event, r);
    }
  }

  lemma {:induction false} MovedSound(api: Api, step: Step)
    requires ApiInv(api) && CanTake(api, step) && MovedBy(step).Some?
    ensures MovedBy(step).value in Take(api, step).requests
    ensures RequestSound(Take(api, step).pipe, Take(api, step).requests[MovedBy(step).value])
  {
    hide Inv, Classify, Apply, Enabled;
    BillableExactly(503);
    LogStep(api, step);
    assert RequestSound(api.pipe, api.requests[MovedBy(step).value]);
  }

  lemma {:induction false} StepSound(api: Api, step: Step, id: nat)
    requires ApiInv(api) && CanTake(api, step) && id in Take(api, step).requests
    ensures RequestSound(Take(api, step).pipe, Take(api, step).requests[id])
  {
    hide Inv, Classify, Apply, Enabled, Billed;
    if MovedBy(step) == Some(id) {
      MovedSound(api, step);
    } else if id in api.requests {
      OtherSound(api, step, id);
      OneMoves(api, step);
    }
  }

  /** A request is never stopped from capturing: its key is still its own. */
  lemma {:induction false} CaptureIsNeverBlocked(api: Api, id: nat, attempt: Attempt)
    requires ApiInv(api) && id in api.requests && api.requests[id].stage.Admitted?
    ensures Enabled(api.pipe, Capture(api.requests[id].event, attempt.added, attempt.counted))
  {
    assert RequestSound(api.pipe, api.requests[id]);
  }

  /** No request in progress is stuck: at its stage something can happen to it, and it can die at any
      time; and a free slot takes any new request. */
  lemma {:induction false} NoRequestIsStuck(api: Api, id: nat, status: int, attempt: Attempt)
    requires ApiInv(api) && attempt.Possible()
    ensures id in api.requests && !api.requests[id].stage.Done? ==>
      && CanTake(api, Die(id))
      && match api.requests[id].stage
         case Arrived => CanTake(api, Check(id))
         case Checked => CanTake(api, ReadLimits(id))
         case Admitted => CanTake(api, TryCapture(id, status, attempt)) || CanTake(api, AnswerUnbilled(id, status))
         case _ => CanTake(api, Release(id))
    ensures id !in api.requests && |InProgress(api.requests)| < api.slots ==>
      forall e: Event, billablePath: bool :: e.wellFormed && e.billable && NewKey(api, e) ==> CanTake(api, Arrive(id, e, billablePath))
  {
    hide Inv, Fresh, NewKey, Attempt.Possible;
    if id in api.requests && api.requests[id].stage.Admitted? {
      CaptureIsNeverBlocked(api, id, attempt);
    }
  }

  lemma {:induction false} ProgressStep(api: Api, step: Step)
    requires ApiInv(api) && CanTake(api, step)
    ensures |InProgress(Take(api, step).requests)| <= api.slots
  {
    hide Inv, RequestSound, Take, InProgress;
    OneMoves(api, step);
    if step.Arrive? {
      Arrives(api.requests, step.id, Request(step.event, step.billablePath, Arrived), step.event.account);
    } else if MovedBy(step).Some? {
      MoveInProgress(api.requests, MovedBy(step).value, Take(api, step).requests[MovedBy(step).value].stage);
    }
  }

  lemma {:induction false} KeysStayDistinct(api: Api, step: Step, a: nat, b: nat)
    requires ApiInv(api) && CanTake(api, step) && a in Take(api, step).requests && b in Take(api, step).requests && a != b
    ensures Take(api, step).requests[a].event.RowKey() != Take(api, step).requests[b].event.RowKey()
  {
    hide Inv, RequestSound, Take, InProgress;
    OneMoves(api, step);
  }

  lemma {:induction false} StepKeepsApi(api: Api, step: Step)
    requires ApiInv(api) && CanTake(api, step)
    ensures ApiInv(Take(api, step))
  {
    hide Inv, RequestSound, CanTake, Take, InProgress;
    var api' := Take(api, step);
    forall id | id in api'.requests ensures RequestSound(api'.pipe, api'.requests[id]) {
      StepSound(api, step, id);
    }
    forall a, b | a in api'.requests && b in api'.requests && a != b ensures api'.requests[a].event.RowKey() != api'.requests[b].event.RowKey() {
      KeysStayDistinct(api, step, a, b);
    }
    PipeKept(api, step);
    ProgressStep(api, step);
    FixedParts(api, step);
  }

  lemma {:induction false} PipeKept(api: Api, step: Step)
    requires ApiInv(api) && CanTake(api, step)
    ensures Inv(Take(api, step).pipe)
  {
    hide Inv, RequestSound;
    match step
    case TryCapture(id, _, attempt) => StepKeepsInv(api.pipe, Capture(api.requests[id].event, attempt.added, attempt.counted));
    case Elsewhere(action) => StepKeepsInv(api.pipe, action);
    case _ =>
  }

  // ----- The counter -----

  lemma {:induction false} CounterStep(api: Api, step: Step, a: Account)
    requires ApiInv(api) && CanTake(api, step)
    ensures Take(api, step).pipe.Counter(a)
         == api.pipe.Counter(a) + if step.TryCapture? && step.attempt.counted && api.requests[step.id].event.account == a then 1 else 0
  {
    hide Inv, RequestSound;
    if step.Elsewhere? {
      ElsewhereKeeps(api.pipe, step.action);
    }
  }

  /** The requests an account has past the gate grow by one at the gate, which only opens while the
      counter is below the threshold, and shrink by one at the capture. */
  lemma {:induction false} PastGateStep(api: Api, step: Step, a: Account)
    requires ApiInv(api) && CanTake(api, step)
    ensures var before, after := PastGate(api.requests, a), PastGate(Take(api, step).requests, a);
            && (step.TryCapture? && api.requests[step.id].event.account == a ==> |after| == |before| - 1)
            && (|after| > |before| ==> |after| <= api.slots && (a in api.thresholds ==> 0 <= api.pipe.Counter(a) < api.thresholds[a]))
            && |after| <= |before| + 1
  {
    hide ApiInv, Apply, Enabled, Classify, PastGate, Take;
    var before, after := PastGate(api.requests, a), PastGate(Take(api, step).requests, a);
    OneMoves(api, step);
    if step.Arrive? {
      Arrives(api.requests, step.id, Request(step.event, step.billablePath, Arrived), a);
    } else if MovedBy(step).Some? {
      var id := MovedBy(step).value;
      MovePastGate(api.requests, id, Take(api, step).requests[id].stage, a);
      if step.ReadLimits? && after == before + {id} {
        GateOpens(api, id, a);
        PastGateInProgress(api, step, a);
      }
      StageAfter(api, step);
    }
  }

  lemma {:induction false} PastGateInProgress(api: Api, step: Step, a: Account)
    requires ApiInv(api) && CanTake(api, step)
    ensures |PastGate(Take(api, step).requests, a)| <= api.slots
  {
    hide ApiInv, Take, CanTake;
    ProgressStep(api, step);
    SubsetSize(PastGate(Take(api, step).requests, a), InProgress(Take(api, step).requests));
  }

  lemma {:induction false} GateOpens(api: Api, id: nat, a: Account)
    requires CanTake(api, ReadLimits(id)) && id in PastGate(Take(api, ReadLimits(id)).requests, a)
    ensures a in api.thresholds ==> 0 <= api.pipe.Counter(a) < api.thresholds[a]
  {
  }

  /** Only the gate admits, only the check lets through, and a capture or an answer ends it. */
  lemma {:induction false} StageAfter(api: Api, step: Step)
    requires CanTake(api, step) && MovedBy(step).Some?
    ensures MovedBy(step).value in Take(api, step).requests
    ensures var stage := Take(api, step).requests[MovedBy(step).value].stage;
            && (stage.Admitted? ==> step.ReadLimits?)
            && (stage.Checked? ==> step.Check?)
            && (step.Check? && stage.Checked? ==> Depth(api.pipe) <= api.maxEntries)
            && (step.TryCapture? ==> api.requests[step.id].stage.Admitted? && api.requests[step.id].billablePath)
            && (step.ReadLimits? ==> api.requests[step.id].stage.Checked?)
  {
    hide Apply, Enabled, Classify;
  }

  lemma {:induction false} AcknowledgedStep(api: Api, step: Step, a: Account)
    requires ApiInv(api) && CanTake(api, step)
    ensures |AcknowledgedOf(Take(api, step).requests, a)|
         <= |AcknowledgedOf(api.requests, a)| + if step.TryCapture? && step.attempt.counted && api.requests[step.id].event.account == a then 1 else 0
  {
    hide Inv, Apply, Enabled, Classify;
    BillableExactly(503);
    var before, after := AcknowledgedOf(api.requests, a), AcknowledgedOf(Take(api, step).requests, a);
    if step.TryCapture? && step.attempt.counted && api.requests[step.id].event.account == a {
      assert after <= before + {step.id};
      SubsetSize(after, before + {step.id});
    } else {
      AcknowledgedOnlyByCapture(api, step, a);
      SubsetSize(after, before);
    }
  }

  lemma {:induction false} AcknowledgedOnlyByCapture(api: Api, step: Step, a: Account)
    requires ApiInv(api) && CanTake(api, step)
    requires step.TryCapture? && api.requests[step.id].event.account == a ==> !step.attempt.counted
    ensures AcknowledgedOf(Take(api, step).requests, a) <= AcknowledgedOf(api.requests, a)
  {
    hide Inv, Apply, Enabled, Classify, RequestSound;
    BillableExactly(503);
    if step.Release? {
      assert RequestSound(api.pipe, api.requests[step.id]);
    }
  }

  lemma {:induction false} StepWithin(api: Api, step: Step, base: State)
    requires ApiInv(api) && CanTake(api, step) && Within(api, base)
    ensures Within(Take(api, step), base)
  {
    hide ApiInv, CanTake, PastGate, AcknowledgedOf, Apply;
    var api' := Take(api, step);
    forall a: Account
      ensures base.Counter(a) + |AcknowledgedOf(api'.requests, a)| <= api'.pipe.Counter(a)
      ensures a in api'.thresholds ==> api'.pipe.Counter(a) + |PastGate(api'.requests, a)| <= Max(base.Counter(a), api'.thresholds[a] + api'.slots - 1)
    {
      CounterStep(api, step, a);
      PastGateStep(api, step, a);
      AcknowledgedStep(api, step, a);
    }
  }

  // ----- Runs -----

  ghost predicate CanRun(api: Api, run: seq<Step>)
    decreases |run|
  {
    |run| == 0 || (CanTake(api, run[0]) && CanRun(Take(api, run[0]), run[1..]))
  }

  ghost function AfterRun(api: Api, run: seq<Step>): Api
    requires CanRun(api, run)
    decreases |run|
  {
    if |run| == 0 then api else AfterRun(Take(api, run[0]), run[1..])
  }

  lemma {:induction false} RunKeeps(api: Api, run: seq<Step>, base: State)
    requires ApiInv(api) && Within(api, base) && CanRun(api, run)
    ensures ApiInv(AfterRun(api, run)) && Within(AfterRun(api, run), base)
    ensures AfterRun(api, run).thresholds == api.thresholds && AfterRun(api, run).slots == api.slots && AfterRun(api, run).maxEntries == api.maxEntries
    decreases |run|
  {
    hide ApiInv, Within, CanTake;
    if |run| > 0 {
      StepKeepsApi(api, run[0]);
      StepWithin(api, run[0], base);
      FixedParts(api, run[0]);
      RunKeeps(Take(api, run[0]), run[1..], base);
    }
  }

  lemma {:induction false} FixedParts(api: Api, step: Step)
    requires CanTake(api, step)
    ensures var api' := Take(api, step); api'.thresholds == api.thresholds && api'.slots == api.slots && api'.maxEntries == api.maxEntries
  {
  }

  /** A server that has just started on an existing pipeline. */
  ghost predicate Started(api: Api) {
    Inv(api.pipe) && api.requests == map[]
  }

  lemma {:induction false} StartedInv(api: Api)
    requires Started(api)
    ensures ApiInv(api) && Within(api, api.pipe)
  {
    hide Inv;
    assert InProgress(api.requests) == {};
    forall a: Account ensures AcknowledgedOf(api.requests, a) == {} && PastGate(api.requests, a) == {} {
    }
  }

  // ----- Main results -----

  /** Whatever crashes or fails on the way, every billable answer that has left has its own stream
      entry, alone with that key, and the counter has risen at least once for each of them. */
  lemma {:induction false} AnsweredMeansCaptured(api: Api, run: seq<Step>, id: nat, status: int)
    requires Started(api) && CanRun(api, run) && id in AfterRun(api, run).requests
    ensures var after := AfterRun(api, run); var r := after.requests[id];
            && (r.stage == Done(Some(status)) && Billed(r, status) ==> r.event in after.pipe.log)
            && (forall i, j :: 0 <= i < j < |after.pipe.log| && after.pipe.log[i].wellFormed && after.pipe.log[j].wellFormed ==>
                  !(after.pipe.log[i].RowKey() == after.pipe.log[j].RowKey() == r.event.RowKey()))
            && api.pipe.Counter(r.event.account) + |AcknowledgedOf(after.requests, r.event.account)| <= after.pipe.Counter(r.event.account)
  {
    hide Classify;
    StartedInv(api);
    RunKeeps(api, run, api.pipe);
    var after := AfterRun(api, run);
    assert RequestSound(after.pipe, after.requests[id]);
    assert UniqueKeys(after.pipe.log);
  }

  /** The concurrency bound: with C requests in progress at most, an account whose counter starts
      below its threshold never passes it by more than C - 1. */
  lemma {:induction false} CounterBound(api: Api, run: seq<Step>, a: Account)
    requires Started(api) && CanRun(api, run) && a in api.thresholds && api.slots > 0
    requires api.pipe.Counter(a) < api.thresholds[a]
    ensures AfterRun(api, run).pipe.Counter(a) <= api.thresholds[a] + api.slots - 1
  {
    hide ApiInv, CanRun, AfterRun;
    StartedInv(api);
    RunKeeps(api, run, api.pipe);
  }

  /** In rupees: with an exact, satisfiable threshold the period's bill ends at most C - 1 of the
      dearest requests over the limit. */
  lemma {:induction false} BillBound(api: Api, run: seq<Step>, a: Account, segments: seq<Proration.Segment>,
      current: nat, limit: int)
    requires Started(api) && CanRun(api, run) && a in api.thresholds && api.slots > 0
    requires Proration.AllValid(segments) && current < |segments| && segments[current].Valid()
    requires Thresholds.RefusesExactly(segments, current, limit, api.thresholds[a])
    requires Thresholds.Elsewhere(segments, current) <= api.pipe.Counter(a) < api.thresholds[a]
    ensures Rating.Ladder(segments[current].List().bands)
    ensures var served := AfterRun(api, run).pipe.Counter(a);
            && served >= Thresholds.Elsewhere(segments, current)
            && Thresholds.BillAt(segments, current, served - Thresholds.Elsewhere(segments, current))
               <= limit + (api.slots - 1) * Thresholds.Dearest(segments[current].List().bands)
  {
    hide ApiInv, CanRun, AfterRun, Thresholds.BillAt, Thresholds.Elsewhere, Thresholds.Dearest,
         Thresholds.RefusesExactly, Proration.Prorated;
    CounterBound(api, run, a);
    StartedInv(api);
    RunKeeps(api, run, api.pipe);
    Thresholds.OvershootBound(segments, current, limit, api.thresholds[a], api.pipe.Counter(a), AfterRun(api, run).pipe.Counter(a), api.slots - 1);
  }

  // ----- The stream -----

  lemma {:induction false} DepthStep(api: Api, step: Step)
    requires ApiInv(api) && CanTake(api, step) && !(step.Elsewhere? && step.action.Inject?)
    ensures Depth(Take(api, step).pipe) + |PastCheck(Take(api, step).requests)|
         <= Max(Depth(api.pipe) + |PastCheck(api.requests)|, api.maxEntries + api.slots)
  {
    hide ApiInv, Take, PastCheck, Depth, CanTake;
    var before, after := PastCheck(api.requests), PastCheck(Take(api, step).requests);
    OneMoves(api, step);
    PipeDepth(api, step);
    if step.Arrive? {
      Arrives(api.requests, step.id, Request(step.event, step.billablePath, Arrived), step.event.account);
    } else if MovedBy(step).Some? {
      var id := MovedBy(step).value;
      StageAfter(api, step);
      MovePastCheck(api.requests, id, Take(api, step).requests[id].stage);
      if step.Check? && id in after {
        PastCheckInProgress(api, step);
      }
    }
  }

  lemma {:induction false} PastCheckInProgress(api: Api, step: Step)
    requires ApiInv(api) && CanTake(api, step)
    ensures |PastCheck(Take(api, step).requests)| <= api.slots
  {
    hide ApiInv, Take, CanTake;
    ProgressStep(api, step);
    SubsetSize(PastCheck(Take(api, step).requests), InProgress(Take(api, step).requests));
  }

  lemma {:induction false} PipeDepth(api: Api, step: Step)
    requires ApiInv(api) && CanTake(api, step) && !(step.Elsewhere? && step.action.Inject?)
    ensures Depth(Take(api, step).pipe) <= Depth(api.pipe) + if step.TryCapture? then 1 else 0
  {
    hide Inv, RequestSound, Classify;
    if step.Elsewhere? {
      ElsewhereKeeps(api.pipe, step.action);
      TrimmedGrows(api.pipe, step.action);
    }
  }

  lemma {:induction false} TrimmedGrows(s: State, action: Action)
    requires Enabled(s, action)
    ensures Apply(s, action).trimmed >= s.trimmed
  {
  }

  ghost predicate OnlyApiWrites(run: seq<Step>) {
    forall step <- run :: !(step.Elsewhere? && step.action.Inject?)
  }

  lemma {:induction false} DepthRun(api: Api, run: seq<Step>)
    requires ApiInv(api) && CanRun(api, run) && OnlyApiWrites(run)
    ensures Depth(AfterRun(api, run).pipe) + |PastCheck(AfterRun(api, run).requests)|
         <= Max(Depth(api.pipe) + |PastCheck(api.requests)|, api.maxEntries + api.slots)
    decreases |run|
  {
    hide ApiInv, CanTake, PastCheck, Depth;
    if |run| > 0 {
      assert run[0] in run && forall step <- run[1..] :: step in run;
      StepKeepsApi(api, run[0]);
      DepthStep(api, run[0]);
      FixedParts(api, run[0]);
      DepthRun(Take(api, run[0]), run[1..]);
    }
  }

  /** The stream is bounded: while only the API writes to it, it never outgrows its configured
      maximum, or where it stood at the start, by more than the requests in progress. */
  lemma {:induction false} StreamBound(api: Api, run: seq<Step>)
    requires Started(api) && CanRun(api, run) && OnlyApiWrites(run)
    ensures Depth(AfterRun(api, run).pipe) <= Max(Depth(api.pipe), api.maxEntries + api.slots)
  {
    hide CanRun, AfterRun;
    StartedInv(api);
    assert PastCheck(api.requests) == {};
    DepthRun(api, run);
  }
}
