/** What each call to the confirmation store answers, and what it changes, said of the record it
    is about. */
module ConfirmationRules {
  import opened Text
  import opened Json
  import opened Confirmation

  /** At its expiry or later; a record with the zero time for an expiry never is. */
  predicate TooLate(r: Record, now: int) {
    r.expiresAt != 0 && r.expiresAt <= now
  }

  /** The records that were not dropped. */
  predicate Stays(items: Items, id: string, early: int) {
    id in items && !TooLate(items[id], early)
  }

  /** A new record: what was asked for, trimmed, unanswered, unused, and good for the time to
      live; every other record that has not expired stays as it is. Identifiers are not empty. */
  lemma AskedRecord(ttl: int, items: Items, req: Request, newId: string, early: int, late: int)
    ensures var (next, reply) := Step(ttl, items, Ask(req, Some(newId)), early, late);
            && reply.Done? && newId in next && next[newId] == reply.record
            && reply.record == Record(
                 newId, TrimSpace(req.operationId), ToUpper(TrimSpace(req.verb)), TrimSpace(req.finalUrl), req.summary,
                 TrimSpace(req.reason), false, false, late, late + ttl)
            && forall id :: id != newId && id != "" ==> (id in next <==> Stays(items, id, early)) && (id in next ==> next[id] == items[id])
  {
    hide TrimSpace, ToUpper;
  }

  /** Without an identifier nothing is asked. */
  lemma NothingAsked(ttl: int, items: Items, req: Request, early: int, late: int)
    ensures var (next, reply) := Step(ttl, items, Ask(req, None), early, late);
            && reply == Failed(NoRandomness)
            && forall id :: id != "" ==> (id in next <==> Stays(items, id, early)) && (id in next ==> next[id] == items[id])
  {
    hide TrimSpace, ToUpper;
  }

  /** What is wrong with the record, in the order in which it is looked at. */
  function Complaint(items: Items, id: string, late: int): Option<Failure> {
    if id !in items then Some(NotFound)
    else if TooLate(items[id], late) then Some(Expired)
    else if items[id].consumed then Some(AlreadyConsumed)
    else None
  }

  /** Beside the record the call is about, what has not expired stays as it is. */
  ghost predicate OthersStay(items: Items, next: Items, id: string, early: int) {
    forall other :: other != id ==>
      (other in next <==> Stays(items, other, early)) && (other in next ==> next[other] == items[other])
  }

  /** An answer is recorded unless there is a complaint; a record found expired is dropped. */
  lemma ConfirmTable(ttl: int, items: Items, id: string, approve: bool, early: int, late: int)
    requires Keyed(items)
    ensures var (next, reply) := Step(ttl, items, Confirm(id, approve), early, late);
            var key, complaint := TrimSpace(id), Complaint(items, TrimSpace(id), late);
            && OthersStay(items, next, key, early)
            && (complaint.Some? ==> reply == Failed(complaint.value))
            && (complaint.None? ==> reply == Done(items[key].(approved := approve)))
            && (key in next <==> complaint != Some(NotFound) && complaint != Some(Expired))
            && (key in next ==> next[key] == if complaint.None? then items[key].(approved := approve) else items[key])
  {
    hide TrimSpace, ToUpper, Fits;
  }

  /** The call agrees with the record on every field that is not blank. */
  predicate Agrees(r: Record, check: Check) {
    && (TrimSpace(r.operationId) == "" || TrimSpace(r.operationId) == TrimSpace(check.operationId))
    && (TrimSpace(r.verb) == "" || TrimSpace(r.verb) == ToUpper(TrimSpace(check.verb)))
    && (TrimSpace(r.finalUrl) == "" || TrimSpace(r.finalUrl) == TrimSpace(check.finalUrl))
  }

  lemma AgreesMeans(r: Record, check: Check)
    ensures Fits(r, check) <==> Agrees(r, check)
  {
    hide TrimSpace, ToUpper;
    UpperTwice(check.verb);
  }

  /** What keeps the record from being consumed. */
  function Objection(items: Items, id: string, check: Check, late: int): Option<Failure> {
    if Complaint(items, id, late).Some? then Complaint(items, id, late)
    else if !items[id].approved then Some(NotApproved)
    else if !Agrees(items[id], check) then Some(Mismatch)
    else None
  }

  /** A record is consumed unless there is an objection; a record found expired is dropped. */
  lemma ConsumeTable(ttl: int, items: Items, id: string, check: Check, early: int, late: int)
    requires Keyed(items)
    ensures var (next, reply) := Step(ttl, items, Consume(id, check), early, late);
            var key, objection := TrimSpace(id), Objection(items, TrimSpace(id), check, late);
            && OthersStay(items, next, key, early)
            && (objection.Some? ==> reply == Failed(objection.value))
            && (objection.None? ==> reply == Done(items[key].(consumed := true)))
            && (key in next <==> objection != Some(NotFound) && objection != Some(Expired))
            && (key in next ==> next[key] == if objection.None? then items[key].(consumed := true) else items[key])
  {
    hide TrimSpace, ToUpper, Fits, Agrees;
    if TrimSpace(id) in items {
      AgreesMeans(items[TrimSpace(id)], check);
    }
  }
}
