/** When a guarded call is sent, and the code it is refused with when it is not: read off the
    policy's decision, the store and what the call meets. */
module GuardedOutcomes {
  import opened Text
  import opened Policy
  import opened Confirmation
  import opened GuardedCalls

  /** The policy's decision on the call. */
  function DecisionOn(cfg: Config, q: Inquiry): Decision {
    Evaluate(EvaluatorOf(cfg), q.request.operationId, q.request.verb)
  }

  /** The call gives the identifier of a confirmation that can be consumed for it. */
  ghost predicate HasConfirmation(store: Option<Items>, q: Inquiry, now: int) {
    store.Some? && TrimSpace(q.confirmationId) != "" && Ripe(store.value, TrimSpace(q.confirmationId), q.request, now)
  }

  /** The policy allows the call, or asks for a confirmation and gets it. */
  ghost predicate Admitted(cfg: Config, store: Option<Items>, q: Inquiry, now: int) {
    DecisionOn(cfg, q).allow || (DecisionOn(cfg, q).needsConfirmation && HasConfirmation(store, q, now))
  }

  predicate GoesOut(exchange: Exchange) {
    exchange.Received? || exchange.Unreadable? || exchange.wentOut
  }

  /** What an error of the sending is reported as. */
  function ReportOf(error: SendError): string {
    if error.UrlBlocked? then "policy_denied"
    else if error.RequestTooLarge? then "invalid_request"
    else if error.RateLimited? then "rate_limited"
    else if error.TimedOut? then "timeout"
    else "network_error"
  }

  /** The end of a call that was admitted. */
  function AfterAdmission(q: Inquiry, permit: Option<string>): Phase {
    if q.failure.Some? then Refused(q.failure.value)
    else if q.exchange.Broken? && !q.exchange.wentOut then Refused(ReportOf(q.exchange.error))
    else if q.exchange.Broken? then Delivered(permit, Some(ReportOf(q.exchange.error)))
    else if q.exchange.Unreadable? then Delivered(permit, Some("upstream_error"))
    else Delivered(permit, None)
  }

  /** What the audit says of a call: the code of its refusal or of its trouble, or nothing. */
  lemma AuditTells(code: string, permit: Option<string>)
    ensures AuditCode(Refused(code)) == code
    ensures AuditCode(Delivered(permit, Some(code))) == code && AuditCode(Delivered(permit, None)) == ""
  {
  }

  /** The end of every call that could be prepared, from the decision alone. */
  lemma OutcomeExactly(cfg: Config, ttl: int, store: Option<Items>, q: Inquiry, early: int, late: int)
    requires q.preparation.None? && (store.Some? ==> Keyed(store.value))
    ensures var d, end := DecisionOn(cfg, q), Outcome(EvaluatorOf(cfg), ttl, store, q, early, late).0;
            && (d.allow ==> end == AfterAdmission(q, None))
            && (!d.allow && !d.needsConfirmation ==> end == Refused(d.code))
            && (d.needsConfirmation ==>
                  end == if HasConfirmation(store, q, late) then AfterAdmission(q, Some(TrimSpace(q.confirmationId)))
                         else Refused("confirmation_required"))
  {
    hide Evaluate, EvaluatorOf, TrimSpace, Fits, Step;
    DecisionShape(cfg, q);
    TrimSpaceFacts(q.confirmationId);
    if store.Some? {
      ConsumeExactly(ttl, store.value, TrimSpace(q.confirmationId), CheckOf(q.request), early, late);
    }
  }

  /** The three kinds of decision and their codes. */
  lemma DecisionShape(cfg: Config, q: Inquiry)
    ensures var d := DecisionOn(cfg, q);
            && !(d.allow && d.needsConfirmation)
            && (d.needsConfirmation ==> d.code == "confirmation_required")
            && (!d.allow && !d.needsConfirmation ==>
                  (d.code == "policy_denied" || d.code == "plan_only") && TrimSpace(d.code) == d.code != "" &&
                  d.code != "confirmation_required")
  {
    hide EvaluatorOf, TrimSpace, IsReadonlyMethod, IsWriteMethod;
    WordsAreTrim();
  }

  lemma WordsAreTrim()
    ensures TrimSpace("policy_denied") == "policy_denied" != "" && TrimSpace("plan_only") == "plan_only" != ""
    ensures "policy_denied" != "confirmation_required" && "plan_only" != "confirmation_required"
  {
    assert |"policy_denied"| == 13 && |"plan_only"| == 9 && |"confirmation_required"| == 21;
    assert "policy_denied"[12] == 'd' && "plan_only"[8] == 'y';
    assert TrimLeft("policy_denied") == "policy_denied" && TrimLeft("plan_only") == "plan_only";
    assert TrimRight("policy_denied") == "policy_denied" && TrimRight("plan_only") == "plan_only";
  }

  /** A call is delivered if and only if it was prepared, was admitted, passes its checks and
      goes out. */
  lemma DeliveredExactly(cfg: Config, ttl: int, store: Option<Items>, q: Inquiry, early: int, late: int)
    requires store.Some? ==> Keyed(store.value)
    ensures Outcome(EvaluatorOf(cfg), ttl, store, q, early, late).0.Delivered? <==>
            q.preparation.None? && Admitted(cfg, store, q, late) && q.failure.None? && GoesOut(q.exchange)
    ensures q.preparation.Some? ==>
              Outcome(EvaluatorOf(cfg), ttl, store, q, early, late) == (Refused(q.preparation.value), store)
  {
    hide Evaluate, EvaluatorOf, HasConfirmation;
    if q.preparation.None? {
      DecisionShape(cfg, q);
      OutcomeExactly(cfg, ttl, store, q, early, late);
    }
  }

  /** A call that nobody interferes with logs its send under the same condition, whatever
      happened before. */
  lemma AdmittedCallsAreSent(setup: Setup, s: State, who: nat, q: Inquiry, early: int, late: int)
    requires who !in s.calls && s.now <= early <= late && Keyed(s.items)
    ensures var end := Alone(setup, s, who, q, early, late);
            var store := if setup.hasStore then Some(s.items) else None;
            (exists n :: |s.log| <= n < |end.log| && end.log[n].Sent?) <==>
            q.preparation.None? && Admitted(setup.config, store, q, late) && q.failure.None? && GoesOut(q.exchange)
  {
    hide Evaluate, EvaluatorOf, Outcome, Alone, Admitted;
    var store := if setup.hasStore then Some(s.items) else None;
    ExecuteIsASchedule(setup, s, who, q, early, late);
    DeliveredExactly(setup.config, setup.ttl, store, q, early, late);
    var end := Alone(setup, s, who, q, early, late);
    var out := Outcome(EvaluatorOf(setup.config), setup.ttl, store, q, early, late).0;
    if out.Delivered? {
      assert end.log[|end.log| - 1].Sent?;
    }
  }
}
