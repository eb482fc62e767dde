/** The in-memory store of confirmations: records that expire, are approved or rejected, and
    are consumed once. Clock readings and fresh identifiers are parameters. */
module Confirmation {
  import opened Text
  import opened Json

  /** The zero time: a record with it never expires. */
  const ZERO_TIME: int := 0
  /** Ten minutes, in seconds. */
  const DEFAULT_TTL: int := 600

  datatype Request = Request(operationId: string, verb: string, finalUrl: string, summary: Json, reason: string)

  datatype Check = Check(operationId: string, verb: string, finalUrl: string)

  datatype Record = Record(
    id: string, operationId: string, verb: string, finalUrl: string, summary: Json, reason: string,
    approved: bool, consumed: bool, createdAt: int, expiresAt: int)

  datatype Failure = NotFound | Expired | NotApproved | AlreadyConsumed | Mismatch | NoRandomness

  datatype Reply = Done(record: Record) | Failed(reason: Failure)

  type Items = map<string, Record>

  predicate IsExpired(now: int, expiresAt: int) {
    expiresAt != ZERO_TIME && expiresAt <= now
  }

  predicate Matches(expected: string, actual: string) {
    TrimSpace(expected) == "" || TrimSpace(expected) == TrimSpace(actual)
  }

  predicate Fits(item: Record, check: Check) {
    && Matches(item.operationId, check.operationId)
    && Matches(item.verb, Upper(check.verb))
    && Matches(item.finalUrl, check.finalUrl)
  }

  function NewRecord(ttl: int, req: Request, id: string, now: int): Record {
    Record(id, TrimSpace(req.operationId), Upper(req.verb), TrimSpace(req.finalUrl),
           req.summary, TrimSpace(req.reason), false, false, now, now + ttl)
  }

  // -------------------------------------------------------- the steps, as functions

  /** A request to the store; `newId` is the identifier drawn, if the random source works. */
  datatype Call =
    | Ask(request: Request, newId: Option<string>)
    | Confirm(id: string, approve: bool)
    | Consume(id: string, check: Check)

  /** The record a call is about. */
  function Target(call: Call): Option<string> {
    if call.Ask? then None else Some(TrimSpace(call.id))
  }

  function Look(items: Items, id: string, now: int): Reply {
    if id !in items then Failed(NotFound)
    else if IsExpired(now, items[id].expiresAt) then Failed(Expired)
    else if items[id].consumed then Failed(AlreadyConsumed)
    else Done(items[id])
  }

  /** The reference: a store that never deletes anything. */
  function KeepStep(ttl: int, items: Items, call: Call, now: int): (Items, Reply) {
    match call
    case Ask(request, newId) =>
      if newId.None? then (items, Failed(NoRandomness))
      else
        var record := NewRecord(ttl, request, newId.value, now);
        (items[newId.value := record], Done(record))
    case Confirm(id, approve) =>
      var found := Look(items, TrimSpace(id), now);
      if found.Failed? then (items, found)
      else
        var record := found.record.(approved := approve);
        (items[record.id := record], Done(record))
    case Consume(id, check) =>
      var found := Look(items, TrimSpace(id), now);
      if found.Failed? then (items, found)
      else if !found.record.approved then (items, Failed(NotApproved))
      else if !Fits(found.record, check) then (items, Failed(Mismatch))
      else
        var record := found.record.(consumed := true);
        (items[record.id := record], Done(record))
  }

  function Cleaned(items: Items, skip: string, now: int): Items {
    map id | id in items && (id == skip || !IsExpired(now, items[id].expiresAt)) :: items[id]
  }

  /** The real store: it first drops what has expired, except for the record asked about, and
      drops that one too when it finds it expired. The clock is read twice. */
  function Step(ttl: int, items: Items, call: Call, early: int, late: int): (Items, Reply) {
    var skip := if call.Ask? then "" else TrimSpace(call.id);
    var (next, reply) := KeepStep(ttl, Cleaned(items, skip, early), call, late);
    (if reply == Failed(Expired) then next - {skip} else next, reply)
  }

  // ------------------------------------------------------------------- the class

  predicate Keyed(items: Items) {
    forall id :: id in items ==> items[id].id == id
  }

  class MemoryStore {
    const ttl: int
    var items: Items

    ghost predicate Valid()
      reads this
    {
      Keyed(items)
    }

    constructor (ttl: int)
      ensures this.ttl == if ttl <= 0 then 600 else ttl
      ensures Valid() && items == map[]
    {
      this.ttl := if ttl <= 0 then DEFAULT_TTL else ttl;
      items := map[];
    }

    /** `cleanupLocked`: the loop over the records, in any order. */
    method Cleanup(skip: string, now: int)
      modifies this
      ensures items == Cleaned(old(items), skip, now)
    {
      var todo := items.Keys;
      while todo != {}
        invariant todo <= items.Keys
        invariant items.Keys <= old(items).Keys && forall id :: id in items ==> items[id] == old(items)[id]
        invariant forall id :: id in old(items) && id !in todo ==>
                    (id in items <==> id == skip || !IsExpired(now, old(items)[id].expiresAt))
      {
        var id :| id in todo;
        if id != skip && IsExpired(now, items[id].expiresAt) {
          items := items - {id};
        }
        todo := todo - {id};
      }
    }

    method Request(req: Request, newId: Option<string>, early: int, late: int) returns (reply: Reply)
      requires Valid()
      modifies this
      ensures Valid()
      ensures (items, reply) == Step(ttl, old(items), Ask(req, newId), early, late)
    {
      hide TrimSpace, ToUpper;
      Cleanup("", early);
      if newId.None? {
        return Failed(NoRandomness);
      }
      var record := NewRecord(ttl, req, newId.value, late);
      items := items[newId.value := record];
      reply := Done(record);
    }

    method Confirm(id: string, approve: bool, early: int, late: int) returns (reply: Reply)
      requires Valid()
      modifies this
      ensures Valid()
      ensures (items, reply) == Step(ttl, old(items), Call.Confirm(id, approve), early, late)
    {
      hide TrimSpace, ToUpper;
      var key := TrimSpace(id);
      Cleanup(key, early);
      if key !in items {
        return Failed(NotFound);
      }
      var item := items[key];
      if IsExpired(late, item.expiresAt) {
        items := items - {item.id};
        return Failed(Expired);
      }
      if item.consumed {
        return Failed(AlreadyConsumed);
      }
      item := item.(approved := approve);
      items := items[item.id := item];
      reply := Done(item);
    }

    method ConsumeApproved(id: string, check: Check, early: int, late: int) returns (reply: Reply)
      requires Valid()
      modifies this
      ensures Valid()
      ensures (items, reply) == Step(ttl, old(items), Consume(id, check), early, late)
    {
      hide TrimSpace, ToUpper;
      var key := TrimSpace(id);
      Cleanup(key, early);
      if key !in items {
        return Failed(NotFound);
      }
      var item := items[key];
      if IsExpired(late, item.expiresAt) {
        items := items - {item.id};
        return Failed(Expired);
      }
      if item.consumed {
        return Failed(AlreadyConsumed);
      }
      if !item.approved {
        return Failed(NotApproved);
      }
      if !Matches(item.operationId, check.operationId) ||
         !Matches(item.verb, Upper(check.verb)) ||
         !Matches(item.finalUrl, check.finalUrl) {
        return Failed(Mismatch);
      }
      item := item.(consumed := true);
      items := items[item.id := item];
      reply := Done(item);
    }
  }

  // ------------------------------------------------------------------ whole runs

  /** One call with its two clock readings. */
  datatype Event = Event(call: Call, early: int, late: int)

  /** The clock does not go back from `now` on, and identifiers are fresh. */
  predicate Proper(events: seq<Event>, now: int, used: set<string>)
    decreases events
  {
    events != [] ==>
      && now <= events[0].early <= events[0].late
      && NewIds(events[0].call) !! used
      && Proper(events[1..], events[0].late, used + NewIds(events[0].call))
  }

  function NewIds(call: Call): set<string> {
    if call.Ask? && call.newId.Some? then {call.newId.value} else {}
  }

  function Replies(ttl: int, items: Items, events: seq<Event>): (out: seq<Reply>)
    ensures |out| == |events|
    decreases events
  {
    if events == [] then []
    else
      var (next, reply) := Step(ttl, items, events[0].call, events[0].early, events[0].late);
      [reply] + Replies(ttl, next, events[1..])
  }

  function KeepReplies(ttl: int, items: Items, events: seq<Event>): (out: seq<Reply>)
    ensures |out| == |events|
    decreases events
  {
    if events == [] then []
    else
      var (next, reply) := KeepStep(ttl, items, events[0].call, events[0].late);
      [reply] + KeepReplies(ttl, next, events[1..])
  }

  /** The same reply, except that an expired record may be reported as missing. */
  predicate Agree(actual: Reply, kept: Reply) {
    actual == kept || (actual == Failed(NotFound) && kept == Failed(Expired))
  }

  /** What the real store lacks has expired. */
  ghost predicate Shadows(actual: Items, kept: Items, now: int) {
    && Keyed(kept)
    && (forall id :: id in actual ==> id in kept && actual[id] == kept[id])
    && (forall id :: id in kept && id !in actual ==> IsExpired(now, kept[id].expiresAt))
  }

  lemma CleaningShadows(actual: Items, kept: Items, skip: string, now: int, early: int)
    requires Shadows(actual, kept, now) && now <= early
    ensures Shadows(Cleaned(actual, skip, early), kept, early)
  {
  }

  /** Without cleaning up: what is missing can only turn "expired" into "not found". */
  lemma LookShadows(actual: Items, kept: Items, id: string, now: int)
    requires Shadows(actual, kept, now)
    ensures Agree(Look(actual, id, now), Look(kept, id, now))
    ensures Look(actual, id, now).Done? ==> id in actual && Look(kept, id, now) == Done(kept[id])
    ensures Look(actual, id, now) == Failed(Expired) ==> id in kept && IsExpired(now, kept[id].expiresAt)
    ensures Look(actual, id, now) == Failed(Expired) ==> Look(kept, id, now) == Failed(Expired)
  {
  }

  lemma KeepShadows(ttl: int, actual: Items, kept: Items, call: Call, early: int, late: int)
    requires Shadows(actual, kept, early) && early <= late && NewIds(call) !! kept.Keys
    ensures Shadows(KeepStep(ttl, actual, call, late).0, KeepStep(ttl, kept, call, late).0, late)
    ensures Agree(KeepStep(ttl, actual, call, late).1, KeepStep(ttl, kept, call, late).1)
    ensures KeepStep(ttl, actual, call, late).1 == Failed(Expired) ==>
              && !call.Ask? && KeepStep(ttl, kept, call, late).0 == kept && TrimSpace(call.id) in kept
              && IsExpired(late, kept[TrimSpace(call.id)].expiresAt)
  {
    hide TrimSpace, ToUpper, Fits, Look;
    assert Shadows(actual, kept, late);
    if !call.Ask? {
      var id := TrimSpace(call.id);
      LookShadows(actual, kept, id, late);
    }
  }

  lemma StepShadows(ttl: int, actual: Items, kept: Items, e: Event, now: int)
    requires Shadows(actual, kept, now) && now <= e.early <= e.late
    requires NewIds(e.call) !! kept.Keys
    ensures Shadows(Step(ttl, actual, e.call, e.early, e.late).0, KeepStep(ttl, kept, e.call, e.late).0, e.late)
    ensures Agree(Step(ttl, actual, e.call, e.early, e.late).1, KeepStep(ttl, kept, e.call, e.late).1)
  {
    hide TrimSpace, KeepStep, Cleaned;
    var skip := if e.call.Ask? then "" else TrimSpace(e.call.id);
    CleaningShadows(actual, kept, skip, now, e.early);
    KeepShadows(ttl, Cleaned(actual, skip, e.early), kept, e.call, e.early, e.late);
  }

  lemma {:induction false} RunShadows(ttl: int, actual: Items, kept: Items, events: seq<Event>, now: int, used: set<string>)
    requires Shadows(actual, kept, now) && kept.Keys <= used && Proper(events, now, used)
    ensures forall i :: 0 <= i < |events| ==>
              Agree(Replies(ttl, actual, events)[i], KeepReplies(ttl, kept, events)[i])
    decreases events
  {
    hide Step, KeepStep, Agree, NewIds;
    if events != [] {
      var e := events[0];
      var next := KeepStep(ttl, kept, e.call, e.late).0;
      KeepAdds(ttl, kept, e.call, e.late, used);
      StepShadows(ttl, actual, kept, e, now);
      RunShadows(ttl, Step(ttl, actual, e.call, e.early, e.late).0, next, events[1..], e.late, used + NewIds(e.call));
    }
  }

  lemma KeepAdds(ttl: int, kept: Items, call: Call, now: int, used: set<string>)
    requires Keyed(kept) && kept.Keys <= used
    requires NewIds(call) !! used
    ensures NewIds(call) !! kept.Keys && KeepStep(ttl, kept, call, now).0.Keys <= used + NewIds(call)
  {
    hide TrimSpace, Fits, NewRecord;
  }

  /** Cleaning up is invisible: over every run from an empty store, the self-cleaning store
      answers like one that never deletes, except for an expired record reported as missing. */
  lemma CleaningIsInvisible(ttl: int, events: seq<Event>, now: int)
    requires Proper(events, now, {})
    ensures forall i :: 0 <= i < |events| ==>
              Agree(Replies(ttl, map[], events)[i], KeepReplies(ttl, map[], events)[i])
  {
    RunShadows(ttl, map[], map[], events, now, {});
  }

  // -------------------------------------------------------------- spent for good

  /** The record is gone, consumed or expired. */
  predicate Spent(items: Items, id: string, now: int) {
    id in items ==> items[id].consumed || IsExpired(now, items[id].expiresAt)
  }

  predicate Ends(call: Call, reply: Reply) {
    || reply == Failed(Expired) || reply == Failed(AlreadyConsumed)
    || (call.Consume? && reply.Done?)
  }

  lemma SpentStays(ttl: int, items: Items, id: string, now: int, e: Event)
    requires Keyed(items) && Spent(items, id, now) && now <= e.early <= e.late && id !in NewIds(e.call)
    ensures Keyed(Step(ttl, items, e.call, e.early, e.late).0)
    ensures Spent(Step(ttl, items, e.call, e.early, e.late).0, id, e.late)
    ensures Target(e.call) == Some(id) ==> !Step(ttl, items, e.call, e.early, e.late).1.Done?
  {
    hide TrimSpace, Fits;
  }

  lemma EndingSpends(ttl: int, items: Items, e: Event)
    requires Keyed(items) && e.early <= e.late
    ensures Keyed(Step(ttl, items, e.call, e.early, e.late).0)
    ensures Step(ttl, items, e.call, e.early, e.late).0.Keys <= items.Keys + NewIds(e.call)
    ensures Target(e.call).Some? && Ends(e.call, Step(ttl, items, e.call, e.early, e.late).1) ==>
              && Target(e.call).value in items
              && Spent(Step(ttl, items, e.call, e.early, e.late).0, Target(e.call).value, e.late)
  {
    hide TrimSpace, Fits;
  }

  lemma {:induction false} NoReturn(ttl: int, items: Items, id: string, events: seq<Event>, now: int, used: set<string>)
    requires Keyed(items) && Spent(items, id, now) && id in used && Proper(events, now, used)
    ensures forall j :: 0 <= j < |events| && Target(events[j].call) == Some(id) ==>
              !Replies(ttl, items, events)[j].Done?
    decreases events
  {
    hide Step, Spent, Target, Keyed;
    if events != [] {
      var e := events[0];
      SpentStays(ttl, items, id, now, e);
      NoReturn(ttl, Step(ttl, items, e.call, e.early, e.late).0, id, events[1..], e.late, used + NewIds(e.call));
      assert forall j :: 0 < j < |events| ==> events[j] == events[1..][j - 1];
    }
  }

  /** Once a record was consumed, or once its expiry was reported, no later call about it
      succeeds, in whatever run. */
  lemma {:induction false} SpentForGood(ttl: int, items: Items, events: seq<Event>, now: int, used: set<string>, i: nat, j: nat)
    requires Keyed(items) && items.Keys <= used && Proper(events, now, used)
    requires i < j < |events| && Target(events[i].call).Some? && Target(events[i].call) == Target(events[j].call)
    requires Ends(events[i].call, Replies(ttl, items, events)[i])
    ensures !Replies(ttl, items, events)[j].Done?
    decreases events
  {
    hide Step, Spent, Target, Keyed, Ends;
    var e := events[0];
    var next := Step(ttl, items, e.call, e.early, e.late).0;
    EndingSpends(ttl, items, e);
    if i == 0 {
      NoReturn(ttl, next, Target(e.call).value, events[1..], e.late, used + NewIds(e.call));
      assert events[j] == events[1..][j - 1];
    } else {
      SpentForGood(ttl, next, events[1..], e.late, used + NewIds(e.call), i - 1, j - 1);
    }
  }
}
