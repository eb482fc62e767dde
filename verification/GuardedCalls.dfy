/** The guarded call: policy, confirmation, request checks and the single send, first as the
    procedure of one call, then as steps that any number of calls take in any order. */
module GuardedCalls {
  import opened Text
  import opened Policy
  import opened Confirmation

  datatype Prepared = Prepared(operationId: string, verb: string, url: string)

  /** How far a call has come; `permit` is the confirmation it consumed, if it needed one. A
      delivered request went out to the upstream; `trouble` is what went wrong after that. */
  datatype Phase =
    | Deciding
    | Consuming(id: string)
    | Cleared(permit: Option<string>)
    | Ready(permit: Option<string>)
    | Delivered(permit: Option<string>, trouble: Option<string>)
    | Refused(code: string)

  datatype SendError = UrlBlocked | RequestTooLarge | RateLimited | TimedOut | NetworkDown

  /** How the sending ended: with an error, before or after the request went out; with a
      response that could not be read; or with a response. */
  datatype Exchange = Broken(error: SendError, wentOut: bool) | Unreadable | Received

  function ErrorCode(error: SendError): string {
    match error
    case UrlBlocked => "policy_denied"
    case RequestTooLarge => "invalid_request"
    case RateLimited => "rate_limited"
    case TimedOut => "timeout"
    case NetworkDown => "network_error"
  }

  function CheckOf(request: Prepared): Check {
    Check(request.operationId, request.verb, request.url)
  }

  /** The policy gate. */
  function Decide(e: Evaluator, hasStore: bool, request: Prepared, confirmationId: string): Phase {
    var d := Evaluate(e, request.operationId, request.verb);
    var code := if TrimSpace(d.code) == "" then "policy_denied" else TrimSpace(d.code);
    if d.allow then Cleared(None)
    else if d.needsConfirmation || code == "confirmation_required" then
      if !hasStore || TrimSpace(confirmationId) == "" then Refused("confirmation_required")
      else Consuming(TrimSpace(confirmationId))
    else Refused(code)
  }

  function AfterConsume(id: string, reply: Reply): Phase {
    if reply.Done? then Cleared(Some(id)) else Refused("confirmation_required")
  }

  /** `failure` is the code of the first failing check: schema validation, building the HTTP
      request, upstream authentication. */
  function AfterChecks(phase: Phase, failure: Option<string>): Phase
    requires phase.Cleared?
  {
    if failure.Some? then Refused(failure.value) else Ready(phase.permit)
  }

  function AfterSend(phase: Phase, exchange: Exchange): Phase
    requires phase.Ready?
  {
    match exchange
    case Broken(error, wentOut) =>
      if wentOut then Delivered(phase.permit, Some(ErrorCode(error))) else Refused(ErrorCode(error))
    case Unreadable => Delivered(phase.permit, Some("upstream_error"))
    case Received => Delivered(phase.permit, None)
  }

  /** The code that stands in the audit entry of a finished call. */
  function AuditCode(phase: Phase): string
    requires phase.Refused? || phase.Delivered?
  {
    if phase.Refused? then phase.code else if phase.trouble.Some? then phase.trouble.value else ""
  }

  // ------------------------------------------------------------------ one call

  /** What a call meets on its way, apart from the policy and the store. */
  datatype Inquiry = Inquiry(
    preparation: Option<string>, request: Prepared, confirmationId: string,
    failure: Option<string>, exchange: Exchange)

  /** The phase a call ends in when nobody interferes, and the store after it. */
  function Outcome(e: Evaluator, ttl: int, store: Option<Items>, q: Inquiry, early: int, late: int): (Phase, Option<Items>) {
    if q.preparation.Some? then (Refused(q.preparation.value), store)
    else
      var decided := Decide(e, store.Some?, q.request, q.confirmationId);
      var (cleared, after) :=
        if decided.Consuming? && store.Some? then
          var (items, reply) := Step(ttl, store.value, Consume(decided.id, CheckOf(q.request)), early, late);
          (AfterConsume(decided.id, reply), Some(items))
        else (decided, store);
      var checked := if cleared.Cleared? then AfterChecks(cleared, q.failure) else cleared;
      (if checked.Ready? then AfterSend(checked, q.exchange) else checked, after)
  }

  class ExecuteTool {
    const evaluator: Evaluator
    const store: MemoryStore?
    /** What went to the upstream, and the code of every audited call. */
    var sent: seq<Prepared>
    var audit: seq<string>
    var inflight: int

    constructor (evaluator: Evaluator, store: MemoryStore?)
      ensures this.evaluator == evaluator && this.store == store
      ensures sent == [] && audit == [] && inflight == 0
    {
      this.evaluator := evaluator;
      this.store := store;
      sent, audit, inflight := [], [], 0;
    }

    ghost function StoreItems(): Option<Items>
      reads this, store
    {
      if store == null then None else Some(store.items)
    }

    /** The gates in their order; every way out leaves exactly one audit entry. */
    method Execute(q: Inquiry, early: int, late: int) returns (phase: Phase)
      requires store != null ==> store.Valid()
      modifies this, store
      ensures store != null ==> store.Valid()
      ensures (phase, StoreItems()) ==
              Outcome(evaluator, if store == null then 0 else store.ttl, old(StoreItems()), q, early, late)
      ensures phase.Refused? || phase.Delivered?
      ensures sent == old(sent) + if phase.Delivered? then [q.request] else []
      ensures audit == old(audit) + [AuditCode(phase)]
      ensures inflight == old(inflight)
    {
      hide Step, Evaluate, TrimSpace;
      inflight := inflight + 1;
      if q.preparation.Some? {
        phase := Fail(q.preparation.value);
        return;
      }
      var d := Evaluate(evaluator, q.request.operationId, q.request.verb);
      var permit := None;
      if !d.allow {
        var code := TrimSpace(d.code);
        if code == "" {
          code := "policy_denied";
        }
        if d.needsConfirmation || code == "confirmation_required" {
          if store == null {
            phase := Fail("confirmation_required");
            return;
          }
          var id := TrimSpace(q.confirmationId);
          if id == "" {
            phase := Fail("confirmation_required");
            return;
          }
          var reply := store.ConsumeApproved(id, CheckOf(q.request), early, late);
          if reply.Failed? {
            phase := Fail("confirmation_required");
            return;
          }
          permit := Some(id);
        } else {
          phase := Fail(code);
          return;
        }
      }
      if q.failure.Some? {
        phase := Fail(q.failure.value);
        return;
      }
      if !q.exchange.Broken? || q.exchange.wentOut {
        sent := sent + [q.request];
      }
      if q.exchange.Broken? {
        phase := Fail(ErrorCode(q.exchange.error));
        if q.exchange.wentOut {
          phase := Delivered(permit, Some(phase.code));
        }
        return;
      }
      if q.exchange.Unreadable? {
        phase := Fail("upstream_error");
        phase := Delivered(permit, Some(phase.code));
        return;
      }
      audit := audit + [""];
      inflight := inflight - 1;
      phase := Delivered(permit, None);
    }

    method Fail(code: string) returns (phase: Phase)
      modifies this
      ensures phase == Refused(code)
      ensures sent == old(sent) && audit == old(audit) + [code] && inflight == old(inflight) - 1
    {
      audit := audit + [code];
      inflight := inflight - 1;
      phase := Refused(code);
    }
  }

  // ------------------------------------------------------- many calls at once

  datatype ActiveCall = ActiveCall(request: Prepared, confirmationId: string, phase: Phase)

  /** What happened, in order. */
  datatype Entry =
    | Asked(record: Record)
    | Answered(id: string, approve: bool)
    | Consumed(id: string, who: nat, check: Check, at: int)
    | Sent(who: nat, request: Prepared, permit: Option<string>)

  datatype Setup = Setup(config: Config, ttl: int, hasStore: bool)

  datatype State = State(items: Items, now: int, used: set<string>, calls: map<nat, ActiveCall>, log: seq<Entry>)

  /** One atomic step of anybody. */
  datatype Move =
    | AskMove(request: Request, newId: Option<string>, early: int, late: int)
    | ConfirmMove(id: string, approve: bool, early: int, late: int)
    | BeginMove(who: nat, prepared: Prepared, confirmationId: string)
    | DecideMove(who: nat)
    | ConsumeMove(who: nat, early: int, late: int)
    | ChecksMove(who: nat, failure: Option<string>)
    | SendMove(who: nat, exchange: Exchange)

  predicate Enabled(s: State, move: Move) {
    match move
    case AskMove(_, newId, early, late) => s.now <= early <= late && (newId.Some? ==> newId.value !in s.used)
    case ConfirmMove(_, _, early, late) => s.now <= early <= late
    case BeginMove(who, _, _) => who !in s.calls
    case DecideMove(who) => who in s.calls && s.calls[who].phase.Deciding?
    case ConsumeMove(who, early, late) => s.now <= early <= late && who in s.calls && s.calls[who].phase.Consuming?
    case ChecksMove(who, _) => who in s.calls && s.calls[who].phase.Cleared?
    case SendMove(who, _) => who in s.calls && s.calls[who].phase.Ready?
  }

  function Enter(s: State, who: nat, phase: Phase): State
    requires who in s.calls
  {
    s.(calls := s.calls[who := s.calls[who].(phase := phase)])
  }

  function Do(setup: Setup, s: State, move: Move): State
    requires Enabled(s, move)
  {
    match move
    case AskMove(request, newId, early, late) =>
      var (items, reply) := Step(setup.ttl, s.items, Ask(request, newId), early, late);
      s.(items := items, now := late, used := s.used + (if newId.Some? then {newId.value} else {}),
         log := if reply.Done? then s.log + [Asked(reply.record)] else s.log)
    case ConfirmMove(id, approve, early, late) =>
      var (items, reply) := Step(setup.ttl, s.items, Confirm(id, approve), early, late);
      s.(items := items, now := late,
         log := if reply.Done? then s.log + [Answered(TrimSpace(id), approve)] else s.log)
    case BeginMove(who, prepared, confirmationId) =>
      s.(calls := s.calls[who := ActiveCall(prepared, confirmationId, Deciding)])
    case DecideMove(who) =>
      var c := s.calls[who];
      Enter(s, who, Decide(EvaluatorOf(setup.config), setup.hasStore, c.request, c.confirmationId))
    case ConsumeMove(who, early, late) =>
      var id, check := s.calls[who].phase.id, CheckOf(s.calls[who].request);
      var (items, reply) := Step(setup.ttl, s.items, Consume(id, check), early, late);
      Enter(s, who, AfterConsume(id, reply)).(
        items := items, now := late, log := if reply.Done? then s.log + [Consumed(id, who, check, late)] else s.log)
    case ChecksMove(who, failure) => Enter(s, who, AfterChecks(s.calls[who].phase, failure))
    case SendMove(who, exchange) =>
      var phase := AfterSend(s.calls[who].phase, exchange);
      Enter(s, who, phase).(
        log := if phase.Delivered? then s.log + [Sent(who, s.calls[who].request, phase.permit)] else s.log)
  }

  /** Every state reachable by moves that were possible when they were made. */
  function Reach(setup: Setup, moves: seq<Move>): State {
    if moves == [] then State(map[], ZERO_TIME, {}, map[], [])
    else
      var s := Reach(setup, moves[..|moves| - 1]);
      if Enabled(s, moves[|moves| - 1]) then Do(setup, s, moves[|moves| - 1]) else s
  }

  /** The move if it is possible now. */
  function Try(setup: Setup, s: State, move: Move): State {
    if Enabled(s, move) then Do(setup, s, move) else s
  }

  /** The steps of one call with nobody in between; a call that cannot be prepared takes none. */
  function Alone(setup: Setup, s: State, who: nat, q: Inquiry, early: int, late: int): State {
    if q.preparation.Some? then s
    else
      var s1 := Try(setup, s, BeginMove(who, q.request, q.confirmationId));
      var s2 := Try(setup, s1, DecideMove(who));
      var s3 := Try(setup, s2, ConsumeMove(who, early, late));
      var s4 := Try(setup, s3, ChecksMove(who, q.failure));
      Try(setup, s4, SendMove(who, q.exchange))
  }

  /** The phase of a call, if it took any step. */
  function PhaseOf(s: State, who: nat): Option<Phase> {
    if who in s.calls then Some(s.calls[who].phase) else None
  }

  /** Since `before`, the call logged its one send, with this permit; or nothing was sent. */
  ghost predicate LoggedSince(before: seq<Entry>, log: seq<Entry>, who: nat, request: Prepared, phase: Phase) {
    && |before| <= |log|
    && (phase.Delivered? ==>
          && |before| < |log| && log[|log| - 1] == Sent(who, request, phase.permit)
          && forall n :: |before| <= n < |log| - 1 ==> !log[n].Sent?)
    && (!phase.Delivered? ==> forall n :: |before| <= n < |log| ==> !log[n].Sent?)
  }

  /** The procedure of one call is one of the interleavings: run alone, with or without a
      store, the steps end in the procedure's phase with the procedure's store, and log one
      send exactly if it sends. A call that cannot be prepared is refused and takes no step. */
  lemma ExecuteIsASchedule(setup: Setup, s: State, who: nat, q: Inquiry, early: int, late: int)
    requires who !in s.calls && s.now <= early <= late
    ensures var store := if setup.hasStore then Some(s.items) else None;
            var end, out := Alone(setup, s, who, q, early, late),
                            Outcome(EvaluatorOf(setup.config), setup.ttl, store, q, early, late);
            && PhaseOf(end, who) == (if q.preparation.Some? then None else Some(out.0))
            && out.1 == (if setup.hasStore then Some(end.items) else None)
            && (!setup.hasStore ==> end.items == s.items)
            && LoggedSince(s.log, end.log, who, q.request, out.0)
  {
    hide Step, Evaluate, EvaluatorOf, TrimSpace;
    if q.preparation.None? {
      var s1 := Try(setup, s, BeginMove(who, q.request, q.confirmationId));
      assert s1.calls[who] == ActiveCall(q.request, q.confirmationId, Deciding) && s1.items == s.items && s1.log == s.log;
      var s2 := Try(setup, s1, DecideMove(who));
      var decided := Decide(EvaluatorOf(setup.config), setup.hasStore, q.request, q.confirmationId);
      assert s2.calls[who] == ActiveCall(q.request, q.confirmationId, decided) && s2.items == s.items && s2.log == s.log;
      assert !decided.Ready? && !decided.Delivered? && !decided.Deciding?;
      ConsumeAlone(setup, s2, who, early, late);
      var s3 := Try(setup, s2, ConsumeMove(who, early, late));
      FinishAlone(setup, s3, who, q.failure, q.exchange);
    }
  }

  /** The store's part of a call alone. */
  lemma ConsumeAlone(setup: Setup, s: State, who: nat, early: int, late: int)
    requires who in s.calls && s.now <= early <= late
    ensures var c, end := s.calls[who], Try(setup, s, ConsumeMove(who, early, late));
            && who in end.calls && |s.log| <= |end.log| && s.log == end.log[..|s.log|]
            && (forall n :: |s.log| <= n < |end.log| ==> !end.log[n].Sent?)
            && end.calls[who].request == c.request
            && (if c.phase.Consuming? then
                  var (items, reply) := Step(setup.ttl, s.items, Consume(c.phase.id, CheckOf(c.request)), early, late);
                  end.calls[who].phase == AfterConsume(c.phase.id, reply) && end.items == items
                else end == s)
  {
    hide Step;
  }

  /** The checks and the sending of a call alone. */
  lemma FinishAlone(setup: Setup, s: State, who: nat, failure: Option<string>, exchange: Exchange)
    requires who in s.calls && !s.calls[who].phase.Ready?
    ensures var c, end := s.calls[who], Try(setup, Try(setup, s, ChecksMove(who, failure)), SendMove(who, exchange));
            var checked := if c.phase.Cleared? then AfterChecks(c.phase, failure) else c.phase;
            var last := if checked.Ready? then AfterSend(checked, exchange) else checked;
            && who in end.calls && end.calls[who].phase == last && end.items == s.items
            && end.log == if checked.Ready? && last.Delivered? then s.log + [Sent(who, c.request, last.permit)] else s.log
  {
  }

  // -------------------------------------------- confirmations used up without a send

  /** The confirmation could be consumed for this request now. */
  ghost predicate Ripe(items: Items, id: string, request: Prepared, now: int) {
    && id in items && items[id].approved && !items[id].consumed
    && !IsExpired(now, items[id].expiresAt)
    && Fits(items[id], Check(request.operationId, request.verb, request.url))
  }

  /** The record was still good before, is consumed after, and no request went out. */
  ghost predicate UsedUp(items: Items, out: (Phase, Option<Items>), id: string) {
    && id in items && !items[id].consumed
    && out.1.Some? && id in out.1.value && out.1.value[id].consumed && !out.0.Delivered?
  }

  /** A call that needs a confirmation uses it up without sending anything if and only if the
      confirmation is ripe, and the request then fails a check or is kept back by the client. */
  lemma UsedUpExactly(e: Evaluator, ttl: int, items: Items, q: Inquiry, early: int, late: int)
    requires Keyed(items) && q.preparation.None? && Decide(e, true, q.request, q.confirmationId).Consuming?
    ensures UsedUp(items, Outcome(e, ttl, Some(items), q, early, late), TrimSpace(q.confirmationId)) <==>
            Ripe(items, TrimSpace(q.confirmationId), q.request, late) &&
            (q.failure.Some? || (q.exchange.Broken? && !q.exchange.wentOut))
  {
    hide Evaluate, TrimSpace, Fits, Step;
    var id := TrimSpace(q.confirmationId);
    TrimSpaceFacts(q.confirmationId);
    ConsumeExactly(ttl, items, id, CheckOf(q.request), early, late);
    var (after, reply) := Step(ttl, items, Consume(id, CheckOf(q.request)), early, late);
    var out := Outcome(e, ttl, Some(items), q, early, late);
    assert out.1 == Some(after);
    assert out.0.Delivered? <==> reply.Done? && q.failure.None? && !(q.exchange.Broken? && !q.exchange.wentOut);
    assert reply.Done? <==> Ripe(items, id, q.request, late);
  }

  /** The corrected request is refused with a confirmation that was used up. */
  lemma RetryIsRefused(
    e: Evaluator, ttl: int, items: Items, q: Inquiry, early: int, late: int, again: Inquiry, early2: int, late2: int)
    requires Keyed(items) && q.preparation.None? && again.preparation.None? && again.confirmationId == q.confirmationId
    requires Decide(e, true, q.request, q.confirmationId).Consuming?
    requires Decide(e, true, again.request, again.confirmationId).Consuming?
    requires Ripe(items, TrimSpace(q.confirmationId), q.request, late)
    requires q.failure.Some? || (q.exchange.Broken? && !q.exchange.wentOut)
    ensures Outcome(e, ttl, Outcome(e, ttl, Some(items), q, early, late).1, again, early2, late2).0 ==
            Refused("confirmation_required")
  {
    hide Evaluate, TrimSpace, Fits, Step, Ripe;
    TrimSpaceFacts(q.confirmationId);
    UsedUpExactly(e, ttl, items, q, early, late);
    var after := Outcome(e, ttl, Some(items), q, early, late).1.value;
    SpentIsRefused(ttl, after, TrimSpace(q.confirmationId), CheckOf(again.request), early2, late2);
  }

  /** Consuming succeeds exactly with a ripe record, and nothing else consumes it. */
  lemma ConsumeExactly(ttl: int, items: Items, id: string, check: Check, early: int, late: int)
    requires Keyed(items) && TrimSpace(id) == id
    ensures var (after, reply) := Step(ttl, items, Consume(id, check), early, late);
            && (reply.Done? <==> id in items && items[id].approved && !items[id].consumed &&
                                 !IsExpired(late, items[id].expiresAt) && Fits(items[id], check))
            && (reply.Done? ==> id in after && after[id].consumed)
            && (reply.Failed? && id in after ==> id in items && after[id] == items[id])
  {
    hide TrimSpace, Fits;
  }

  lemma SpentIsRefused(ttl: int, items: Items, id: string, check: Check, early: int, late: int)
    requires TrimSpace(id) == id && id in items && items[id].consumed
    ensures Step(ttl, items, Consume(id, check), early, late).1.Failed?
  {
    hide TrimSpace, Fits;
  }
}
