/** One request through the metering middleware (src/meter/api/metering.py): what is billable,
    when a request is let through, and when its answer is. */
module Metering {
  import opened Wrappers
  import opened Pipeline
  import opened Proration
  import Thresholds
  import Drain

  // ----- What counts -----

  datatype OutcomeName = Success | ClientError | Unauthenticated | ServerError | LimitRefused | Redirect

  datatype Outcome = Outcome(name: OutcomeName, billable: bool)

  function Classify(status: int): Outcome {
    if status in {401, 403} then Outcome(Unauthenticated, false)
    else if status == 402 then Outcome(LimitRefused, false)
    else if status >= 500 then Outcome(ServerError, false)
    else if status >= 400 then Outcome(ClientError, true)
    else if status >= 300 then Outcome(Redirect, false)
    else Outcome(OutcomeName.Success, true)
  }

  /** The maintained list: success and client errors are billed, except being turned away. The
      middleware's own refusals never are. */
  lemma {:induction false} BillableExactly(status: int)
    ensures Classify(status).billable <==> status < 300 || (400 <= status < 500 && status !in {401, 402, 403})
    ensures Classify(status).billable <==> Classify(status).name in {OutcomeName.Success, ClientError}
    ensures !Classify(401).billable && !Classify(402).billable && !Classify(503).billable
    ensures Classify(status).name == Unauthenticated <==> status == 401 || status == 403
    ensures Classify(status).name == LimitRefused <==> status == 402
    ensures Classify(status).name == ServerError <==> status >= 500
    ensures Classify(status).name == Redirect <==> 300 <= status < 400
  {
  }

  const UNBILLED_PATHS: set<string> := {"/v1/usage", "/v1/invoices"}

  predicate IsBillablePath(path: string) {
    !exists p <- UNBILLED_PATHS :: path == p || p + "/" <= path
  }

  /** The two account endpoints and what is below them are free; everything else is billed, names that
      merely begin alike included. */
  lemma {:induction false} BillablePathsExactly(path: string)
    ensures !IsBillablePath(path) <==>
      path == "/v1/usage" || path == "/v1/invoices" || "/v1/usage/" <= path || "/v1/invoices/" <= path
    ensures IsBillablePath("/v1/usages") && IsBillablePath("/v1") && !IsBillablePath("/v1/invoices/7")
  {
    assert "/v1/usage" in UNBILLED_PATHS && "/v1/invoices" in UNBILLED_PATHS;
    assert "/v1/usage" + "/" == "/v1/usage/" && "/v1/invoices" + "/" == "/v1/invoices/";
    assert !("/v1/usage/" <= "/v1/usages") by { assert "/v1/usages"[9] != "/v1/usage/"[9]; }
  }

  // ----- The gate -----

  datatype Reason =
    | InvalidKey | RedisUnreachable | KeyDirectoryUnavailable | CountersNotAuthoritative
    | UsageBufferFull | LimitUnsatisfiable | LimitReached

  datatype Admission = Admit | Refuse(status: int, reason: Reason)

  /** What round trip 1 finds beside the cached key. A trip that reaches no Redis is None. */
  datatype FirstTrip = FirstTrip(authoritative: bool, depth: nat)

  /** Round trip 2, the two integers. */
  datatype Limits = Limits(counter: Option<int>, threshold: Option<int>) {
    function Served(): int {
      if counter.Some? then counter.value else 0
    }

    predicate Exceeded() {
      threshold.Some? && Thresholds.Refuses(threshold.value, Served())
    }
  }

  datatype Auth = Known | NotLive | DirectoryDown | CacheDown

  /** Everything that happens before the handler. It fails closed: a request is let through only
      with a live key, authoritative counters, room in the stream and, on a billable path, a
      counter below the threshold. */
  method Gate(metering: bool, presented: bool, first: Option<FirstTrip>, caller: Auth, limits: Option<Limits>,
      path: string, maxEntries: nat)
    returns (r: Admission)
    ensures r.Admit? <==>
      && presented && first.Some? && caller.Known?
      && (metering ==> first.value.authoritative && first.value.depth <= maxEntries && limits.Some?
                       && !(IsBillablePath(path) && limits.value.Exceeded()))
    ensures r.Refuse? && r.status == 402 <==>
      && presented && first.Some? && caller.Known? && metering && first.value.authoritative && first.value.depth <= maxEntries
      && limits.Some? && IsBillablePath(path) && limits.value.Exceeded()
    ensures r.Refuse? && r.status == 402 ==> r.reason == if limits.value.threshold.value < 0 then LimitUnsatisfiable else LimitReached
    ensures r.Refuse? && r.status == 401 <==> !presented || (first.Some? && caller.NotLive?)
    ensures r.Refuse? ==> r.status in {401, 402, 503} && !Classify(r.status).billable
    ensures r == Refuse(503, UsageBufferFull) <==>
      presented && first.Some? && caller.Known? && metering && first.value.authoritative && first.value.depth > maxEntries
    ensures r == Refuse(503, CountersNotAuthoritative) <==> presented && first.Some? && caller.Known? && metering && !first.value.authoritative
    ensures r == Refuse(503, KeyDirectoryUnavailable) <==> presented && first.Some? && caller.DirectoryDown?
    ensures r.Refuse? && r.status == 503 ==>
      r.reason in {RedisUnreachable, UsageBufferFull, CountersNotAuthoritative, KeyDirectoryUnavailable}
    ensures r.Refuse? && r.status == 401 ==> r.reason == InvalidKey
  {
    if !presented {
      return Refuse(401, InvalidKey);
    }
    if first.None? {
      return Refuse(503, RedisUnreachable);
    }
    match caller {
      case CacheDown => return Refuse(503, RedisUnreachable);
      case DirectoryDown => return Refuse(503, KeyDirectoryUnavailable);
      case NotLive => return Refuse(401, InvalidKey);
      case Known =>
    }
    if metering {
      if !first.value.authoritative {
        return Refuse(503, CountersNotAuthoritative);
      }
      if first.value.depth > maxEntries {
        return Refuse(503, UsageBufferFull);
      }
      if limits.None? {
        return Refuse(503, RedisUnreachable);
      }
      var threshold, served := limits.value.threshold, limits.value.Served();
      var unsatisfiable := threshold.Some? && threshold.value < 0;
      var over := threshold.Some? && !unsatisfiable && served >= threshold.value;
      if (unsatisfiable || over) && IsBillablePath(path) {
        return Refuse(402, if unsatisfiable then LimitUnsatisfiable else LimitReached);
      }
    }
    return Admit;
  }

  /** The two-integer comparison decides the rupee question: on a published exact threshold, and a
      counter that covers the usage of the other segments, the limit is exceeded exactly when one
      more request would push the period's bill over it. */
  lemma {:induction false} ComparisonIsTheBill(segments: seq<Segment>, current: nat, limit: int, limits: Limits)
    requires AllValid(segments) && current < |segments|
    requires limits.threshold.Some? && Thresholds.RefusesExactly(segments, current, limit, limits.threshold.value)
    requires limits.Served() >= Thresholds.Elsewhere(segments, current)
    ensures limits.Exceeded()
            <==> Thresholds.BillAt(segments, current, limits.Served() - Thresholds.Elsewhere(segments, current) + 1) > limit
  {
    hide Thresholds.BillAt, Thresholds.Elsewhere;
  }

  // ----- The response -----

  datatype Message = Start(status: int) | Body

  /** How the capture pipeline went: what Redis applied, and whether it said so. */
  datatype Attempt = Attempt(added: bool, counted: bool, acked: bool) {
    predicate Possible() {
      acked ==> added && counted
    }
  }

  const REFUSAL := [Start(503), Body]

  /** The state `send_wrapper` closes over, and what has left for the client. */
  class Exchange {
    const backend: Drain.Backend
    const event: Event
    const metering: bool
    const billablePath: bool
    var captured: bool
    var replaced: bool
    var sent: seq<Message>
    ghost var started: bool

    predicate Bills(m: Message) {
      m.Start? && metering && billablePath && Classify(m.status).billable
    }

    ghost predicate Valid()
      reads this, backend
    {
      && backend.Valid() && event.wellFormed && event.billable
      && (!started ==> !captured && !replaced && sent == [])
      && !(captured && replaced)
      && (replaced ==> sent == REFUSAL)
      && (captured ==> event in backend.s.log)
      && forall m <- sent :: Bills(m) ==> captured
    }

    constructor (backend: Drain.Backend, event: Event, metering: bool, billablePath: bool)
      requires backend.Valid() && event.wellFormed && event.billable
      ensures Valid() && fresh(this) && this.backend == backend && this.event == event
      ensures this.metering == metering && this.billablePath == billablePath && !started
    {
      this.backend, this.event, this.metering, this.billablePath := backend, event, metering, billablePath;
      captured, replaced, sent, started := false, false, [], false;
    }

    /** `send_wrapper`, for a handler that starts one response. A billable answer leaves only after
        its entry and its increment have been acknowledged; without the acknowledgement the client
        is refused and the rest of the handler's response is discarded. */
    method OnMessage(m: Message, attempt: Attempt)
      requires Valid() && attempt.Possible()
      requires m.Start? <==> !started
      requires m.Start? ==> Fresh(backend.s.log, event)
      modifies this`captured, this`replaced, this`sent, this`started, backend
      ensures Valid() && started
      ensures Bills(m) ==>
        && backend.s == Apply(old(backend.s), Capture(event, attempt.added, attempt.counted))
        && (captured <==> attempt.acked) && (replaced <==> !attempt.acked)
        && sent == if attempt.acked then [m] else [Start(503), Body]
      ensures Bills(m) && captured ==>
        && backend.s.log == old(backend.s).log + [event]
        && backend.s.Counter(event.account) == old(backend.s).Counter(event.account) + 1
      ensures !Bills(m) ==>
        && backend.s == old(backend.s) && captured == old(captured) && replaced == old(replaced)
        && sent == if old(replaced) then old(sent) else old(sent) + [m]
    {
      started := true;
      if replaced {
        return;
      }
      if m.Body? || !metering {
        sent := sent + [m];
        return;
      }
      if Classify(m.status).billable && billablePath {
        backend.Do(Capture(event, attempt.added, attempt.counted));
        if !attempt.acked {
          replaced := true;
          sent := sent + REFUSAL;
          return;
        }
        captured := true;
      }
      sent := sent + [m];
    }
  }
}
