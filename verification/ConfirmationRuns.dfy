/** Exactly when a confirmation can be consumed, read off the history of calls. */
module ConfirmationRuns {
  import opened Text
  import opened Confirmation

  /** Event `i` created the record. */
  predicate CreatedAt(events: seq<Event>, i: int, id: string) {
    0 <= i < |events| && events[i].call.Ask? && events[i].call.newId == Some(id)
  }

  predicate AnswersAt(events: seq<Event>, k: int, id: string) {
    0 <= k < |events| && events[k].call.Confirm? && TrimSpace(events[k].call.id) == id
  }

  /** Between `i` and `n` the record was answered, the last time with approval. */
  ghost predicate ApprovedBetween(events: seq<Event>, i: int, n: int, id: string) {
    exists k :: i < k < n && AnswersAt(events, k, id) && events[k].call.approve && LastAnswerBefore(events, k, n, id)
  }

  ghost predicate LastAnswerBefore(events: seq<Event>, k: int, n: int, id: string) {
    forall l :: k < l < n ==> !AnswersAt(events, l, id)
  }

  /** One of the first `n` events consumed the record. */
  ghost predicate ConsumedBefore(replies: seq<Reply>, events: seq<Event>, n: int, id: string) {
    exists k :: 0 <= k < n && ConsumesAt(replies, events, k, id)
  }

  predicate ConsumesAt(replies: seq<Reply>, events: seq<Event>, k: int, id: string) {
    && 0 <= k < |events| == |replies|
    && events[k].call.Consume? && TrimSpace(events[k].call.id) == id && replies[k].Done?
  }

  /** The clock does not go back and no identifier is drawn twice. */
  ghost predicate Orderly(events: seq<Event>) {
    && (forall i, j :: 0 <= i < j < |events| ==> events[i].late <= events[j].late)
    && (forall i, j, id :: CreatedAt(events, i, id) && CreatedAt(events, j, id) ==> i == j)
  }

  lemma {:induction false} ProperMeansOrderly(events: seq<Event>, now: int, used: set<string>)
    requires Proper(events, now, used)
    ensures Orderly(events)
    ensures forall i :: 0 <= i < |events| ==> now <= events[i].late
    ensures forall i, id :: CreatedAt(events, i, id) ==> id !in used
    decreases events
  {
    if events != [] {
      var rest := events[1..];
      ProperMeansOrderly(rest, events[0].late, used + NewIds(events[0].call));
      assert forall i :: 0 < i < |events| ==> events[i] == rest[i - 1];
      forall i, id | CreatedAt(events, i, id) && i > 0 ensures id !in used + NewIds(events[0].call) {
        assert CreatedAt(rest, i - 1, id);
      }
      forall i, j, id | CreatedAt(events, i, id) && CreatedAt(events, j, id) ensures i == j {
        assert i > 0 ==> CreatedAt(rest, i - 1, id);
        assert j > 0 ==> CreatedAt(rest, j - 1, id);
      }
    }
  }

  /** The records of the store that never deletes, after the first `n` events. */
  function Kept(ttl: int, events: seq<Event>, n: nat): Items
    requires n <= |events|
  {
    if n == 0 then map[]
    else KeepStep(ttl, Kept(ttl, events, n - 1), events[n - 1].call, events[n - 1].late).0
  }

  function ReplyAt(ttl: int, events: seq<Event>, n: nat): Reply
    requires n < |events|
  {
    KeepStep(ttl, Kept(ttl, events, n), events[n].call, events[n].late).1
  }

  lemma {:induction false} RepliesAreSteps(ttl: int, items: Items, events: seq<Event>, done: seq<Event>, n: nat)
    requires n < |events| && items == Kept(ttl, done + events, |done|)
    ensures KeepReplies(ttl, items, events)[n] == ReplyAt(ttl, done + events, |done| + n)
    decreases events
  {
    hide KeepStep;
    var all := done + events;
    assert all[|done|] == events[0];
    if n > 0 {
      assert (done + [events[0]]) + events[1..] == all;
      RepliesAreSteps(ttl, KeepStep(ttl, items, events[0].call, events[0].late).0, events[1..], done + [events[0]], n - 1);
    }
  }

  lemma KeptReply(ttl: int, events: seq<Event>, n: nat)
    requires n < |events|
    ensures KeepReplies(ttl, map[], events)[n] == ReplyAt(ttl, events, n)
  {
    assert [] + events == events;
    RepliesAreSteps(ttl, map[], events, [], n);
  }

  // ------------------------------------------------------- the state from the history

  /** The record of `id`, created at `i`, as the history explains it. */
  ghost predicate Explained(ttl: int, events: seq<Event>, n: nat, i: int, id: string)
    requires n <= |events|
  {
    var items := Kept(ttl, events, n);
    && id in items && CreatedAt(events, i, id) && i < n
    && (var r, made := items[id], NewRecord(ttl, events[i].call.request, id, events[i].late);
        && r == made.(approved := r.approved, consumed := r.consumed)
        && (r.consumed <==> ConsumedSoFar(ttl, events, n, id))
        && (!r.consumed && !IsExpired(events[n - 1].late, r.expiresAt) ==>
              (r.approved <==> ApprovedBetween(events, i, n, id))))
  }

  ghost predicate ConsumedSoFar(ttl: int, events: seq<Event>, n: nat, id: string)
    requires n <= |events|
  {
    exists k :: 0 <= k < n && events[k].call.Consume? && TrimSpace(events[k].call.id) == id && ReplyAt(ttl, events, k).Done?
  }

  ghost predicate Known(ttl: int, events: seq<Event>, n: nat)
    requires n <= |events|
  {
    && Keyed(Kept(ttl, events, n))
    && (forall i, id :: 0 <= i < n && CreatedAt(events, i, id) ==> Explained(ttl, events, n, i, id))
    && (forall id :: id in Kept(ttl, events, n) ==> exists i :: 0 <= i < n && CreatedAt(events, i, id))
    && (forall id :: ConsumedSoFar(ttl, events, n, id) ==> id in Kept(ttl, events, n))
  }

  lemma OneMoreConsumption(ttl: int, events: seq<Event>, n: nat, id: string)
    requires n < |events|
    ensures ConsumedSoFar(ttl, events, n + 1, id) <==>
            || ConsumedSoFar(ttl, events, n, id)
            || (events[n].call.Consume? && TrimSpace(events[n].call.id) == id && ReplyAt(ttl, events, n).Done?)
  {
    hide ReplyAt, TrimSpace;
  }

  lemma OneMoreAnswer(events: seq<Event>, i: int, n: nat, id: string)
    requires n < |events| && i < n
    ensures ApprovedBetween(events, i, n + 1, id) <==>
            if AnswersAt(events, n, id) then events[n].call.approve else ApprovedBetween(events, i, n, id)
  {
    hide TrimSpace;
    if AnswersAt(events, n, id) {
      assert LastAnswerBefore(events, n, n + 1, id);
    } else {
      if ApprovedBetween(events, i, n, id) {
        var k :| i < k < n && AnswersAt(events, k, id) && events[k].call.approve && LastAnswerBefore(events, k, n, id);
        assert LastAnswerBefore(events, k, n + 1, id);
      }
      if ApprovedBetween(events, i, n + 1, id) {
        var k :| i < k < n + 1 && AnswersAt(events, k, id) && events[k].call.approve && LastAnswerBefore(events, k, n + 1, id);
        assert LastAnswerBefore(events, k, n, id);
      }
    }
  }

  /** One event and one record it did not create. */
  lemma OlderRecord(ttl: int, events: seq<Event>, n: nat, i: int, id: string)
    requires n < |events| && Orderly(events) && Known(ttl, events, n) && 0 <= i < n && CreatedAt(events, i, id)
    ensures Explained(ttl, events, n + 1, i, id)
  {
    hide TrimSpace, ToUpper, Fits, ApprovedBetween, ConsumedSoFar;
    assert Explained(ttl, events, n, i, id);
    OneMoreConsumption(ttl, events, n, id);
    OneMoreAnswer(events, i, n, id);
    assert !CreatedAt(events, n, id);
  }

  /** The record an event creates. */
  lemma NewestRecord(ttl: int, events: seq<Event>, n: nat, id: string)
    requires n < |events| && Orderly(events) && Known(ttl, events, n) && CreatedAt(events, n, id)
    ensures Explained(ttl, events, n + 1, n, id)
  {
    hide TrimSpace, ToUpper, Fits;
    OneMoreConsumption(ttl, events, n, id);
    assert forall i :: CreatedAt(events, i, id) ==> i == n;
    assert id !in Kept(ttl, events, n);
  }

  lemma {:induction false} HistoryExplains(ttl: int, events: seq<Event>, n: nat)
    requires n <= |events| && Orderly(events)
    ensures Known(ttl, events, n)
    decreases n
  {
    hide TrimSpace, ToUpper, Fits, Explained, ConsumedSoFar, KeepStep, CreatedAt;
    if n == 0 {
      NothingConsumed(ttl, events);
    } else {
      HistoryExplains(ttl, events, n - 1);
      forall i, id | 0 <= i < n && CreatedAt(events, i, id) ensures Explained(ttl, events, n, i, id) {
        if i < n - 1 {
          OlderRecord(ttl, events, n - 1, i, id);
        } else {
          NewestRecord(ttl, events, n - 1, id);
        }
      }
      KeysGrow(ttl, events, n - 1);
      forall id | id in Kept(ttl, events, n) ensures exists i :: 0 <= i < n && CreatedAt(events, i, id) {
        if id in Kept(ttl, events, n - 1) {
          var i :| 0 <= i < n - 1 && CreatedAt(events, i, id);
        } else {
          assert CreatedAt(events, n - 1, id);
        }
      }
      forall id ensures ConsumedSoFar(ttl, events, n, id) ==> id in Kept(ttl, events, n) {
        OneMoreConsumption(ttl, events, n - 1, id);
      }
    }
  }

  lemma NothingConsumed(ttl: int, events: seq<Event>)
    ensures forall id :: !ConsumedSoFar(ttl, events, 0, id)
  {
  }

  lemma KeysGrow(ttl: int, events: seq<Event>, n: nat)
    requires n < |events| && Keyed(Kept(ttl, events, n))
    ensures Keyed(Kept(ttl, events, n + 1))
    ensures forall id :: id in Kept(ttl, events, n + 1) <==> id in Kept(ttl, events, n) || CreatedAt(events, n, id)
    ensures events[n].call.Consume? && ReplyAt(ttl, events, n).Done? ==>
              TrimSpace(events[n].call.id) in Kept(ttl, events, n)
  {
    hide TrimSpace, ToUpper, Fits;
  }

  // ------------------------------------------------------------------ the theorem

  /** The call agrees with what was requested on every field that is not blank, whatever the
      spaces around it and the case of the method. */
  predicate RequestFits(request: Request, check: Check) {
    && (TrimSpace(request.operationId) == "" || TrimSpace(request.operationId) == TrimSpace(check.operationId))
    && (TrimSpace(request.verb) == "" || Upper(request.verb) == Upper(check.verb))
    && (TrimSpace(request.finalUrl) == "" || TrimSpace(request.finalUrl) == TrimSpace(check.finalUrl))
  }

  lemma FitsMeans(ttl: int, request: Request, id: string, now: int, check: Check)
    ensures Fits(NewRecord(ttl, request, id, now), check) <==> RequestFits(request, check)
  {
    hide TrimSpace, ToUpper;
    TrimSpaceFacts(request.operationId);
    TrimSpaceFacts(request.finalUrl);
    UpperTwice(request.verb);
    UpperTwice(check.verb);
  }

  /** The record exists, was last answered with approval, has not expired (a record that would
      expire at the zero time never does), fits the request and was not consumed. */
  ghost predicate Ready(ttl: int, replies: seq<Reply>, events: seq<Event>, n: int, i: int)
    requires 0 <= n < |events| == |replies| && events[n].call.Consume?
  {
    var id := TrimSpace(events[n].call.id);
    && CreatedAt(events, i, id) && i < n
    && ApprovedBetween(events, i, n, id)
    && (events[n].late < events[i].late + ttl || events[i].late + ttl == 0)
    && RequestFits(events[i].call.request, events[n].call.check)
    && !ConsumedBefore(replies, events, n, id)
  }

  lemma KeptConsumeExactly(ttl: int, events: seq<Event>, n: nat)
    requires n < |events| && Orderly(events) && events[n].call.Consume?
    ensures ReplyAt(ttl, events, n).Done? <==>
            exists i :: Ready(ttl, KeepReplies(ttl, map[], events), events, n, i)
  {
    hide TrimSpace, ToUpper, ApprovedBetween, ConsumedSoFar, ConsumedBefore, RequestFits, Fits;
    var id, replies := TrimSpace(events[n].call.id), KeepReplies(ttl, map[], events);
    HistoryExplains(ttl, events, n);
    SameConsumptions(ttl, events, n, id);
    if id in Kept(ttl, events, n) {
      var i :| 0 <= i < n && CreatedAt(events, i, id);
      assert Explained(ttl, events, n, i, id);
      var r := Kept(ttl, events, n)[id];
      FitsMeans(ttl, events[i].call.request, id, events[i].late, events[n].call.check);
      FlagsAside(r, r.approved, r.consumed, NewRecord(ttl, events[i].call.request, id, events[i].late), events[n].call.check);
      assert Ready(ttl, replies, events, n, i) <==> ReplyAt(ttl, events, n).Done?;
      assert forall other :: Ready(ttl, replies, events, n, other) ==> other == i;
    } else {
      assert forall other :: Ready(ttl, replies, events, n, other) ==> CreatedAt(events, other, id) && other < n;
    }
  }

  lemma FlagsAside(r: Record, approved: bool, consumed: bool, made: Record, check: Check)
    requires r == made.(approved := approved, consumed := consumed)
    ensures Fits(r, check) <==> Fits(made, check)
  {
  }

  lemma SameConsumptions(ttl: int, events: seq<Event>, n: nat, id: string)
    requires n <= |events|
    ensures ConsumedSoFar(ttl, events, n, id) <==> ConsumedBefore(KeepReplies(ttl, map[], events), events, n, id)
  {
    hide ReplyAt, TrimSpace, KeepReplies;
    forall k | 0 <= k < n ensures KeepReplies(ttl, map[], events)[k] == ReplyAt(ttl, events, k) {
      KeptReply(ttl, events, k);
    }
    if ConsumedSoFar(ttl, events, n, id) {
      var k :| 0 <= k < n && events[k].call.Consume? && TrimSpace(events[k].call.id) == id && ReplyAt(ttl, events, k).Done?;
      assert ConsumesAt(KeepReplies(ttl, map[], events), events, k, id);
    }
  }

  /** For the real, self-cleaning store and every run from empty: consuming succeeds if and
      only if the record was created, last answered with approval, is unexpired, fits the
      request, and was not consumed before. */
  lemma ConsumeSucceedsExactly(ttl: int, events: seq<Event>, now: int, n: nat)
    requires Proper(events, now, {}) && n < |events| && events[n].call.Consume?
    ensures Replies(ttl, map[], events)[n].Done? <==> exists i :: Ready(ttl, Replies(ttl, map[], events), events, n, i)
  {
    hide KeepReplies, Replies, ReplyAt, TrimSpace, RequestFits, ApprovedBetween;
    ProperMeansOrderly(events, now, {});
    CleaningIsInvisible(ttl, events, now);
    KeptReply(ttl, events, n);
    KeptConsumeExactly(ttl, events, n);
    var kept, actual := KeepReplies(ttl, map[], events), Replies(ttl, map[], events);
    var id := TrimSpace(events[n].call.id);
    assert forall k :: 0 <= k < |events| ==> (kept[k].Done? <==> actual[k].Done?);
    assert forall k :: ConsumesAt(kept, events, k, id) <==> ConsumesAt(actual, events, k, id);
    assert forall i :: Ready(ttl, kept, events, n, i) <==> Ready(ttl, actual, events, n, i);
  }
}
