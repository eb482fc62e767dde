/** Safety of the guarded call over every interleaving: what stands behind each request that
    was sent. */
module GuardedRuns {
  import opened Text
  import opened Policy
  import opened Confirmation
  import opened GuardedCalls

  // -------------------------------------------------------------- reading the log

  /** At `k` the record was answered so, and not answered again before `m`. */
  ghost predicate LastAnswer(log: seq<Entry>, k: int, m: int, id: string, approve: bool) {
    && 0 <= k < m <= |log| && log[k] == Answered(id, approve)
    && forall j :: k < j < m ==> !(log[j].Answered? && log[j].id == id)
  }

  ghost predicate ConsumedBefore(log: seq<Entry>, m: int, id: string) {
    0 <= m <= |log| && exists j :: 0 <= j < m && log[j].Consumed? && log[j].id == id
  }

  ghost predicate ApprovedSince(log: seq<Entry>, a: int, m: int, id: string) {
    exists k :: a < k < m && LastAnswer(log, k, m, id, true)
  }

  /** The record was created at `a`; the later answers and consumptions explain its flags. */
  ghost predicate TracedFrom(log: seq<Entry>, a: int, r: Record) {
    && 0 <= a < |log| && log[a].Asked?
    && r == log[a].record.(approved := r.approved, consumed := r.consumed)
    && (r.approved ==> ApprovedSince(log, a, |log|, r.id))
    && (!r.consumed ==> !ConsumedBefore(log, |log|, r.id))
  }

  ghost predicate Traced(log: seq<Entry>, r: Record) {
    exists a :: TracedFrom(log, a, r)
  }

  /** What makes consumption number `m` right: the record was created at `a`, last answered
      with approval after that, unexpired, fitting, and not consumed before. */
  ghost predicate Justified(log: seq<Entry>, m: int, a: int) {
    && 0 <= a < m < |log| && log[m].Consumed? && log[a].Asked? && log[a].record.id == log[m].id
    && ApprovedSince(log, a, m, log[m].id)
    && !IsExpired(log[m].at, log[a].record.expiresAt)
    && Fits(log[a].record, log[m].check)
    && !ConsumedBefore(log, m, log[m].id)
  }

  /** Entry `m` is this call's own consumption, for exactly this request. */
  ghost predicate OwnConsumption(log: seq<Entry>, m: int, id: string, who: nat, request: Prepared) {
    0 <= m < |log| && log[m].Consumed? && log[m].id == id && log[m].who == who &&
    log[m].check == Check(request.operationId, request.verb, request.url)
  }

  /** The call may be sent: the policy allows it, or asks for a confirmation that this call
      consumed before entry `n`. */
  ghost predicate Permitted(setup: Setup, log: seq<Entry>, n: int, who: nat, request: Prepared, permit: Option<string>) {
    var d := Evaluate(EvaluatorOf(setup.config), request.operationId, request.verb);
    match permit
    case None => d.allow
    case Some(id) => d.needsConfirmation && exists m :: m < n && OwnConsumption(log, m, id, who, request)
  }

  ghost predicate EntryRight(setup: Setup, log: seq<Entry>, n: int)
    requires 0 <= n < |log|
  {
    && (log[n].Consumed? ==> exists a :: Justified(log, n, a))
    && (log[n].Sent? ==>
          && Permitted(setup, log, n, log[n].who, log[n].request, log[n].permit)
          && forall m :: 0 <= m < n && log[m].Sent? ==> log[m].who != log[n].who)
  }

  // ---------------------------------------------------------------- the invariant

  ghost predicate LogRight(setup: Setup, log: seq<Entry>) {
    forall n :: 0 <= n < |log| ==> EntryRight(setup, log, n)
  }

  ghost predicate RecordsRight(s: State) {
    && Keyed(s.items)
    && (forall id :: id in s.items ==> Traced(s.log, s.items[id]))
    && s.items.Keys <= s.used
    && (forall n :: 0 <= n < |s.log| ==> !s.log[n].Sent? ==> IdOf(s.log[n]) in s.used)
  }

  function IdOf(e: Entry): string
    requires !e.Sent?
  {
    if e.Asked? then e.record.id else e.id
  }

  ghost predicate SentBy(log: seq<Entry>, who: nat) {
    exists n :: 0 <= n < |log| && log[n].Sent? && log[n].who == who
  }

  ghost predicate CallRight(setup: Setup, log: seq<Entry>, who: nat, c: ActiveCall) {
    && (!c.phase.Delivered? ==> !SentBy(log, who))
    && (c.phase.Consuming? ==> TrimSpace(c.phase.id) == c.phase.id)
    && (c.phase.Consuming? ==>
          Evaluate(EvaluatorOf(setup.config), c.request.operationId, c.request.verb).needsConfirmation)
    && (c.phase.Cleared? || c.phase.Ready? || c.phase.Delivered? ==>
          Permitted(setup, log, |log|, who, c.request, c.phase.permit))
  }

  ghost predicate CallsRight(setup: Setup, s: State) {
    && (forall who :: who in s.calls ==> CallRight(setup, s.log, who, s.calls[who]))
    && (forall n :: 0 <= n < |s.log| && s.log[n].Sent? ==> s.log[n].who in s.calls)
  }

  ghost predicate Safe(setup: Setup, s: State) {
    LogRight(setup, s.log) && RecordsRight(s) && CallsRight(setup, s)
  }

  // ------------------------------------------------- one more entry in the log

  lemma LongerLog(setup: Setup, log: seq<Entry>, e: Entry)
    requires LogRight(setup, log) && EntryRight(setup, log + [e], |log|)
    ensures LogRight(setup, log + [e])
  {
    hide Evaluate, Fits, EvaluatorOf, IsExpired;
    var longer := log + [e];
    forall n | 0 <= n < |log| ensures EntryRight(setup, longer, n) {
      assert longer[n] == log[n];
      EarlierEntry(setup, log, e, n);
    }
  }

  lemma EarlierEntry(setup: Setup, log: seq<Entry>, e: Entry, n: nat)
    requires n < |log| && EntryRight(setup, log, n)
    ensures EntryRight(setup, log + [e], n)
  {
    hide Evaluate, Fits, EvaluatorOf, IsExpired;
    var longer := log + [e];
    if log[n].Consumed? {
      var a :| Justified(log, n, a);
      var k :| a < k < n && LastAnswer(log, k, n, log[n].id, true);
      assert LastAnswer(longer, k, n, log[n].id, true);
      assert Justified(longer, n, a);
    }
    if log[n].Sent? && log[n].permit.Some? {
      var m :| m < n && OwnConsumption(log, m, log[n].permit.value, log[n].who, log[n].request);
      assert OwnConsumption(longer, m, log[n].permit.value, log[n].who, log[n].request);
    }
  }

  lemma StillTraced(log: seq<Entry>, e: Entry, r: Record)
    requires Traced(log, r)
    requires e.Asked? || e.Sent? || e.id != r.id
    ensures Traced(log + [e], r)
  {
    var longer := log + [e];
    var a :| TracedFrom(log, a, r);
    if r.approved {
      var k :| a < k < |log| && LastAnswer(log, k, |log|, r.id, true);
      assert LastAnswer(longer, k, |longer|, r.id, true);
    }
    assert TracedFrom(longer, a, r);
  }

  lemma StillCallRight(setup: Setup, log: seq<Entry>, e: Entry, who: nat, c: ActiveCall)
    requires CallRight(setup, log, who, c)
    requires e.Sent? ==> e.who != who
    ensures CallRight(setup, log + [e], who, c)
  {
    hide Evaluate, EvaluatorOf;
    var longer := log + [e];
    if (c.phase.Cleared? || c.phase.Ready? || c.phase.Delivered?) && c.phase.permit.Some? {
      var m :| m < |log| && OwnConsumption(log, m, c.phase.permit.value, who, c.request);
      assert OwnConsumption(longer, m, c.phase.permit.value, who, c.request);
    }
  }

  // ------------------------------------------------------------- the store's part

  /** What a step of the store can do to the records. */
  lemma StepEffect(ttl: int, items: Items, call: Call, early: int, late: int)
    requires Keyed(items)
    ensures var (next, reply) := Step(ttl, items, call, early, late);
            && Keyed(next)
            && (reply.Failed? ==> forall id :: id in next ==> id in items && next[id] == items[id])
            && (reply.Done? ==> Changed(items, next, reply.record))
            && (call.Ask? && reply.Done? ==>
                  call.newId.Some? && reply.record == NewRecord(ttl, call.request, call.newId.value, late))
            && (call.Confirm? && reply.Done? ==>
                  && TrimSpace(call.id) in items && !items[TrimSpace(call.id)].consumed
                  && reply.record == items[TrimSpace(call.id)].(approved := call.approve))
            && (call.Consume? && reply.Done? ==>
                  && TrimSpace(call.id) in items && Consumable(items[TrimSpace(call.id)], call.check, late)
                  && reply.record == items[TrimSpace(call.id)].(consumed := true))
  {
    hide TrimSpace, ToUpper, Fits;
  }

  predicate Consumable(r: Record, check: Check, now: int) {
    r.approved && !r.consumed && !IsExpired(now, r.expiresAt) && Fits(r, check)
  }

  /** Nothing but this record was written. */
  ghost predicate Changed(items: Items, next: Items, r: Record) {
    && r.id in next && next[r.id] == r
    && forall id :: id in next && id != r.id ==> id in items && next[id] == items[id]
  }

  // ------------------------------------------------------- every step keeps it

  lemma RecordsAfter(s: State, next: Items, e: Entry, r: Record, used: set<string>)
    requires RecordsRight(s) && Keyed(next) && Changed(s.items, next, r)
    requires !e.Sent? && IdOf(e) == r.id && s.used <= used && r.id in used
    requires Traced(s.log + [e], r)
    ensures forall id :: id in next ==> Traced(s.log + [e], next[id])
    ensures next.Keys <= used
    ensures forall n :: 0 <= n < |s.log + [e]| ==> !(s.log + [e])[n].Sent? ==> IdOf((s.log + [e])[n]) in used
  {
    hide Traced;
    forall id | id in next ensures Traced(s.log + [e], next[id]) {
      if id != r.id {
        StillTraced(s.log, e, s.items[id]);
      }
    }
  }

  lemma CallsAfter(setup: Setup, s: State, e: Entry, who: nat)
    requires CallsRight(setup, s) && (e.Sent? ==> e.who == who)
    ensures forall other :: other in s.calls && other != who ==> CallRight(setup, s.log + [e], other, s.calls[other])
    ensures !e.Sent? && who in s.calls ==> CallRight(setup, s.log + [e], who, s.calls[who])
  {
    hide CallRight;
    forall other | other in s.calls && (other != who || !e.Sent?)
      ensures CallRight(setup, s.log + [e], other, s.calls[other])
    {
      StillCallRight(setup, s.log, e, other, s.calls[other]);
    }
  }

  lemma AskKeeps(setup: Setup, s: State, move: Move)
    requires Safe(setup, s) && move.AskMove? && Enabled(s, move)
    ensures Safe(setup, Do(setup, s, move))
  {
    hide Step, CallRight, Traced, NewRecord, LogRight, TrimSpace, Changed;
    var (next, reply) := Step(setup.ttl, s.items, Ask(move.request, move.newId), move.early, move.late);
    StepEffect(setup.ttl, s.items, Ask(move.request, move.newId), move.early, move.late);
    if reply.Done? {
      var e, used := Asked(reply.record), s.used + {move.newId.value};
      CreatedTraced(setup, s, move.request, move.newId.value, move.late);
      RecordsAfter(s, next, e, reply.record, used);
      LongerLog(setup, s.log, e);
      CallsAfter(setup, s, e, 0);
    }
  }

  lemma CreatedTraced(setup: Setup, s: State, request: Request, id: string, now: int)
    requires RecordsRight(s) && id !in s.used
    ensures var r := NewRecord(setup.ttl, request, id, now);
            r.id == id && Traced(s.log + [Asked(r)], r)
  {
    hide TrimSpace, ToUpper;
    var r := NewRecord(setup.ttl, request, id, now);
    var longer := s.log + [Asked(r)];
    forall j | 0 <= j < |s.log| && s.log[j].Consumed? ensures s.log[j].id != id {
      assert IdOf(s.log[j]) in s.used;
    }
    assert TracedFrom(longer, |s.log|, r);
  }

  lemma ConfirmKeeps(setup: Setup, s: State, move: Move)
    requires Safe(setup, s) && move.ConfirmMove? && Enabled(s, move)
    ensures Safe(setup, Do(setup, s, move))
  {
    hide Step, CallRight, Traced, LogRight, TrimSpace, Changed;
    var (next, reply) := Step(setup.ttl, s.items, Confirm(move.id, move.approve), move.early, move.late);
    StepEffect(setup.ttl, s.items, Confirm(move.id, move.approve), move.early, move.late);
    if reply.Done? {
      var id := TrimSpace(move.id);
      var e := Answered(id, move.approve);
      AnsweredTraced(s.log, s.items[id], move.approve);
      RecordsAfter(s, next, e, reply.record, s.used);
      LongerLog(setup, s.log, e);
      CallsAfter(setup, s, e, 0);
    }
  }

  lemma AnsweredTraced(log: seq<Entry>, r: Record, approve: bool)
    requires Traced(log, r)
    ensures Traced(log + [Answered(r.id, approve)], r.(approved := approve))
  {
    var longer := log + [Answered(r.id, approve)];
    var a :| TracedFrom(log, a, r);
    assert approve ==> LastAnswer(longer, |log|, |longer|, r.id, true);
    assert TracedFrom(longer, a, r.(approved := approve));
  }

  lemma ConsumeKeeps(setup: Setup, s: State, move: Move)
    requires Safe(setup, s) && move.ConsumeMove? && Enabled(s, move)
    ensures Safe(setup, Do(setup, s, move))
  {
    hide Step, Traced, LogRight, TrimSpace, Changed, Consumable, Evaluate, EvaluatorOf, Justified;
    var c := s.calls[move.who];
    var id, check := c.phase.id, CheckOf(c.request);
    var (next, reply) := Step(setup.ttl, s.items, Consume(id, check), move.early, move.late);
    StepEffect(setup.ttl, s.items, Consume(id, check), move.early, move.late);
    assert CallRight(setup, s.log, move.who, c);
    if reply.Done? {
      var e := Consumed(id, move.who, check, move.late);
      ConsumedTraced(s.log, s.items[id], e);
      RecordsAfter(s, next, e, reply.record, s.used);
      LongerLog(setup, s.log, e);
      CallsAfter(setup, s, e, move.who);
      assert OwnConsumption(s.log + [e], |s.log|, id, move.who, c.request);
    }
  }

  lemma ConsumedTraced(log: seq<Entry>, r: Record, e: Entry)
    requires Traced(log, r) && e.Consumed? && e.id == r.id && Consumable(r, e.check, e.at)
    ensures Traced(log + [e], r.(consumed := true))
    ensures exists a :: Justified(log + [e], |log|, a)
  {
    hide TrimSpace, ToUpper;
    var longer := log + [e];
    var a :| TracedFrom(log, a, r);
    var k :| a < k < |log| && LastAnswer(log, k, |log|, r.id, true);
    assert LastAnswer(longer, k, |log|, r.id, true) && LastAnswer(longer, k, |longer|, r.id, true);
    assert TracedFrom(longer, a, r.(consumed := true));
    assert Justified(longer, |log|, a);
  }

  /** A call waits for a confirmation only if the policy asks for one. */
  lemma DecideFacts(setup: Setup, request: Prepared, confirmationId: string)
    ensures var phase := Decide(EvaluatorOf(setup.config), setup.hasStore, request, confirmationId);
            var d := Evaluate(EvaluatorOf(setup.config), request.operationId, request.verb);
            && (phase.Consuming? ==> d.needsConfirmation && TrimSpace(phase.id) == phase.id)
            && (phase.Cleared? ==> d.allow && phase.permit == None)
            && !phase.Ready? && !phase.Delivered?
  {
    hide TrimSpace, EvaluatorOf, IsReadonlyMethod, IsWriteMethod;
    TrimSpaceFacts(confirmationId);
    TrimShortens("policy_denied");
    TrimShortens("plan_only");
    assert |"policy_denied"| == 13 && |"plan_only"| == 9 && |"confirmation_required"| == 21;
  }

  lemma TrimShortens(s: string)
    ensures |TrimSpace(s)| <= |s|
  {
    TrimLeftFacts(s);
    TrimRightFacts(TrimLeft(s));
  }

  lemma SendKeeps(setup: Setup, s: State, move: Move)
    requires Safe(setup, s) && move.SendMove? && Enabled(s, move)
    ensures Safe(setup, Do(setup, s, move))
  {
    hide Traced, LogRight, Permitted, EvaluatorOf, Evaluate;
    var c := s.calls[move.who];
    assert CallRight(setup, s.log, move.who, c);
    if AfterSend(c.phase, move.exchange).Delivered? {
      var e := Sent(move.who, c.request, c.phase.permit);
      var longer := s.log + [e];
      StillPermitted(setup, s.log, e, move.who, c.request, c.phase.permit);
      assert forall m :: 0 <= m < |s.log| && longer[m].Sent? ==> longer[m].who != move.who;
      LongerLog(setup, s.log, e);
      CallsAfter(setup, s, e, move.who);
      forall id | id in s.items ensures Traced(longer, s.items[id]) {
        StillTraced(s.log, e, s.items[id]);
      }
    }
  }

  lemma StillPermitted(setup: Setup, log: seq<Entry>, e: Entry, who: nat, request: Prepared, permit: Option<string>)
    requires Permitted(setup, log, |log|, who, request, permit)
    ensures Permitted(setup, log + [e], |log|, who, request, permit)
    ensures Permitted(setup, log + [e], |log + [e]|, who, request, permit)
  {
    hide EvaluatorOf, Evaluate;
    if permit.Some? {
      var m :| m < |log| && OwnConsumption(log, m, permit.value, who, request);
      assert OwnConsumption(log + [e], m, permit.value, who, request);
    }
  }

  /** Steps that neither touch the store nor write to the log. */
  lemma QuietKeeps(setup: Setup, s: State, move: Move)
    requires Safe(setup, s) && Enabled(s, move)
    requires move.BeginMove? || move.DecideMove? || move.ChecksMove?
    ensures Safe(setup, Do(setup, s, move))
  {
    hide Traced, LogRight, Permitted, EvaluatorOf, Evaluate, Decide;
    if !move.BeginMove? {
      assert CallRight(setup, s.log, move.who, s.calls[move.who]);
    }
    if move.DecideMove? {
      var c := s.calls[move.who];
      DecideFacts(setup, c.request, c.confirmationId);
      assert Evaluate(EvaluatorOf(setup.config), c.request.operationId, c.request.verb).allow ==>
        Permitted(setup, s.log, |s.log|, move.who, c.request, None) by {
        AllowPermits(setup, s.log, move.who, c.request);
      }
    }
  }

  lemma AllowPermits(setup: Setup, log: seq<Entry>, who: nat, request: Prepared)
    ensures Evaluate(EvaluatorOf(setup.config), request.operationId, request.verb).allow ==>
              Permitted(setup, log, |log|, who, request, None)
  {
    hide EvaluatorOf, Evaluate;
  }

  lemma DoKeeps(setup: Setup, s: State, move: Move)
    requires Safe(setup, s) && Enabled(s, move)
    ensures Safe(setup, Do(setup, s, move))
  {
    hide Safe, Do;
    match move
    case AskMove(_, _, _, _) => AskKeeps(setup, s, move);
    case ConfirmMove(_, _, _, _) => ConfirmKeeps(setup, s, move);
    case ConsumeMove(_, _, _) => ConsumeKeeps(setup, s, move);
    case SendMove(_, _) => SendKeeps(setup, s, move);
    case _ => QuietKeeps(setup, s, move);
  }

  lemma {:induction false} AlwaysSafe(setup: Setup, moves: seq<Move>)
    ensures Safe(setup, Reach(setup, moves))
  {
    hide Do, Enabled;
    if moves != [] {
      var before := Reach(setup, moves[..|moves| - 1]);
      AlwaysSafe(setup, moves[..|moves| - 1]);
      if Enabled(before, moves[|moves| - 1]) {
        DoKeeps(setup, before, moves[|moves| - 1]);
      }
    }
  }

  // ---------------------------------------------------------------- the theorems

  /** Entry `n` sent a request that has its own consumed confirmation: consumed by this call,
      for this request, earlier, and rightly. */
  ghost predicate Backed(log: seq<Entry>, n: int)
    requires 0 <= n < |log| && log[n].Sent?
  {
    log[n].permit.Some? &&
    exists m, a :: m < n && OwnConsumption(log, m, log[n].permit.value, log[n].who, log[n].request) && Justified(log, m, a)
  }

  /** In every run: a request that was sent was named by no deny list, passed the allow lists
      and was not in plan-only mode; if the configuration asks for confirmations in a write
      mode, every write that was sent is backed by a confirmation. */
  lemma SentWasGuarded(setup: Setup, moves: seq<Move>, n: int)
    requires var log := Reach(setup, moves).log; 0 <= n < |log| && log[n].Sent?
    ensures var log := Reach(setup, moves).log;
            var cfg, op, verb := setup.config, log[n].request.operationId, log[n].request.verb;
            && !DenyListed(cfg, op, verb) && AllowListed(cfg, op, verb)
            && (WriteMode(cfg) || (ReadonlyMode(cfg) && Upper(verb) in {"GET", "HEAD", "OPTIONS"}))
            && (WriteMode(cfg) && cfg.confirmWrites && Upper(verb) in {"POST", "PUT", "PATCH", "DELETE"} ==> Backed(log, n))
  {
    hide Evaluate, EvaluatorOf, DenyListed, AllowListed, InMode, Upper, Reach, Justified, OwnConsumption;
    ModesDiffer();
    AlwaysSafe(setup, moves);
    var log := Reach(setup, moves).log;
    assert EntryRight(setup, log, n);
    DecisionTable(setup.config, log[n].request.operationId, log[n].request.verb);
    if log[n].permit.Some? {
      var m :| m < n && OwnConsumption(log, m, log[n].permit.value, log[n].who, log[n].request);
      ConsumptionJustified(setup, log, m, log[n].permit.value, log[n].who, log[n].request);
    }
  }

  lemma ConsumptionJustified(setup: Setup, log: seq<Entry>, m: int, id: string, who: nat, request: Prepared)
    requires LogRight(setup, log) && OwnConsumption(log, m, id, who, request)
    ensures exists a :: Justified(log, m, a)
  {
    hide Justified, Permitted;
    assert EntryRight(setup, log, m);
  }

  /** No confirmation is used twice: different sends carry different confirmations. */
  lemma PermitsAreInjective(setup: Setup, moves: seq<Move>, n: int, other: int)
    requires var log := Reach(setup, moves).log;
             0 <= n < other < |log| && log[n].Sent? && log[other].Sent? && log[n].permit.Some?
    ensures var log := Reach(setup, moves).log; log[n].permit != log[other].permit
  {
    hide Evaluate, EvaluatorOf, Reach, Justified;
    AlwaysSafe(setup, moves);
    var log := Reach(setup, moves).log;
    assert EntryRight(setup, log, n) && EntryRight(setup, log, other);
    if log[n].permit == log[other].permit {
      var id := log[n].permit.value;
      var m :| m < n && OwnConsumption(log, m, id, log[n].who, log[n].request);
      var m2 :| m2 < other && OwnConsumption(log, m2, id, log[other].who, log[other].request);
      assert m != m2;
      ConsumedOnce(setup, log, m, m2);
      assert false;
    }
  }

  /** No call sends twice: different sends are of different calls. */
  lemma OneSendPerCall(setup: Setup, moves: seq<Move>, n: int, other: int)
    requires var log := Reach(setup, moves).log;
             0 <= n < other < |log| && log[n].Sent? && log[other].Sent?
    ensures var log := Reach(setup, moves).log; log[n].who != log[other].who
  {
    hide Evaluate, EvaluatorOf, Reach, Justified, Permitted;
    AlwaysSafe(setup, moves);
    var log := Reach(setup, moves).log;
    assert EntryRight(setup, log, other);
  }

  lemma ConsumedOnce(setup: Setup, log: seq<Entry>, m: int, m2: int)
    requires LogRight(setup, log) && 0 <= m < |log| && 0 <= m2 < |log| && m != m2
    requires log[m].Consumed? && log[m2].Consumed?
    ensures log[m].id != log[m2].id
  {
    hide Permitted, ApprovedSince, IsExpired, Fits;
    assert EntryRight(setup, log, m) && EntryRight(setup, log, m2);
  }
}
