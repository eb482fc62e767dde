/** Any number of calls in the two-level limiter, in any order of their steps: tokens are
    conserved, nobody is stuck, and the rates hold over whole runs. */
module LimiterRuns {
  import opened Limiter
  import opened RateBounds
  import opened RateLimit

  /** Where a call is. From `HasBoth` on it holds both slots, until it is `Returning`. */
  datatype Phase = Waiting | HasSlot | HasBoth | Rated | Sending | Leaving | Returning | Ended

  datatype Call = Call(key: string, phase: Phase)

  /** `slots` and `keys` count the tokens in the channels, `emptied` how often a release found
      its channel empty; `attempts` are the turns at a rate, in the order of the lock. */
  datatype State = State(
    calls: map<nat, Call>, slots: nat, keys: map<string, nat>, emptied: nat,
    now: int, window: Window, windows: map<string, Window>,
    attempts: seq<Attempt>, keyAttempts: map<string, seq<Attempt>>,
    grants: nat, keyGrants: multiset<string>)

  datatype Move =
    | Arrive(who: nat, rawKey: string)
    | TakeSlot(who: nat)
    | TakeKey(who: nat)
    | Charge(who: nat, reading: int, now: int)
    | ChargeKey(who: nat, reading: int, now: int)
    | Finish(who: nat)
    | GiveKey(who: nat)
    | GiveSlot(who: nat)
    | Cancel(who: nat)

  predicate At(s: State, who: nat, phase: Phase) {
    who in s.calls && s.calls[who].phase == phase
  }

  /** Sending on a full channel blocks; the clock may be read long before the lock of a rate is
      held; rate limiting and cancellation are always possible at
      their waits. */
  predicate Enabled(limits: Limits, s: State, move: Move) {
    match move
    case Arrive(who, _) => who !in s.calls
    case TakeSlot(who) => At(s, who, Waiting) && s.slots < limits.slots
    case TakeKey(who) => At(s, who, HasSlot) && Tokens(s.keys, s.calls[who].key) < limits.keySlots
    case Charge(who, reading, now) => At(s, who, HasBoth) && reading <= now && s.now <= now
    case ChargeKey(who, reading, now) => At(s, who, Rated) && reading <= now && s.now <= now
    case Finish(who) => At(s, who, Sending)
    case GiveKey(who) => At(s, who, Leaving)
    case GiveSlot(who) => At(s, who, Returning)
    case Cancel(who) => At(s, who, Waiting) || At(s, who, HasSlot) || At(s, who, HasBoth) || At(s, who, Rated)
  }

  function Go(s: State, who: nat, phase: Phase): State
    requires who in s.calls
  {
    s.(calls := s.calls[who := s.calls[who].(phase := phase)])
  }

  function AttemptsOf(s: State, key: string): seq<Attempt> {
    if key in s.keyAttempts then s.keyAttempts[key] else []
  }

  function Do(limits: Limits, s: State, move: Move): State
    requires Enabled(limits, s, move)
  {
    match move
    case Arrive(who, rawKey) => s.(calls := s.calls[who := Call(NormalKey(rawKey), Waiting)])
    case TakeSlot(who) => Go(s, who, HasSlot).(slots := s.slots + 1)
    case TakeKey(who) =>
      var key := s.calls[who].key;
      Go(s, who, HasBoth).(keys := s.keys[key := Tokens(s.keys, key) + 1])
    case Charge(who, reading, now) =>
      var (next, granted) := Tick(limits.rate, s.window, reading);
      Go(s, who, if granted then Rated else HasBoth).(
        now := now, window := next, attempts := s.attempts + [Attempt(reading, now)],
        grants := if granted then s.grants + 1 else s.grants)
    case ChargeKey(who, reading, now) =>
      var key := s.calls[who].key;
      var (next, granted) := Tick(limits.keyRate, KeyWindow(s.windows, key), reading);
      Go(s, who, if granted then Sending else Rated).(
        now := now, windows := s.windows[key := next],
        keyAttempts := s.keyAttempts[key := AttemptsOf(s, key) + [Attempt(reading, now)]],
        keyGrants := if granted then s.keyGrants + multiset{key} else s.keyGrants)
    case Finish(who) => Go(s, who, Leaving)
    case GiveKey(who) =>
      var key := s.calls[who].key;
      Go(s, who, Returning).(
        keys := s.keys[key := Returned(Tokens(s.keys, key))],
        emptied := if Tokens(s.keys, key) > 0 then s.emptied else s.emptied + 1)
    case GiveSlot(who) =>
      Go(s, who, Ended).(
        slots := Returned(s.slots), emptied := if s.slots > 0 then s.emptied else s.emptied + 1)
    case Cancel(who) =>
      Go(s, who, if At(s, who, Waiting) then Ended else if At(s, who, HasSlot) then Returning else Leaving)
  }

  const START := State(map[], 0, map[], 0, 0, CLOSED, map[], [], map[], 0, multiset{})

  function Reach(limits: Limits, moves: seq<Move>): State {
    if moves == [] then START
    else
      var s := Reach(limits, moves[..|moves| - 1]);
      if Enabled(limits, s, moves[|moves| - 1]) then Do(limits, s, moves[|moves| - 1]) else s
  }

  // -------------------------------------------------------------------- holders

  predicate HoldsSlot(p: Phase) {
    p.HasSlot? || HoldsKey(p) || p.Returning?
  }

  predicate HoldsKey(p: Phase) {
    p.HasBoth? || p.Rated? || p.Sending? || p.Leaving?
  }

  ghost function SlotHolders(calls: map<nat, Call>): set<nat> {
    set c | c in calls && HoldsSlot(calls[c].phase)
  }

  ghost function KeyHolders(calls: map<nat, Call>, key: string): set<nat> {
    set c | c in calls && calls[c].key == key && HoldsKey(calls[c].phase)
  }

  /** Calls between their two grants. */
  ghost function HalfCharged(calls: map<nat, Call>): set<nat> {
    set c | c in calls && calls[c].phase.Rated?
  }

  /** The tokens in the channels are those of the holders, within the limits. */
  ghost predicate Conserved(limits: Limits, s: State) {
    && s.slots == |SlotHolders(s.calls)| <= limits.slots
    && (forall k :: KeyConserved(limits, s, k))
    && s.emptied == 0
    && |s.keyGrants| + |HalfCharged(s.calls)| <= s.grants
  }

  ghost predicate KeyConserved(limits: Limits, s: State, key: string) {
    Tokens(s.keys, key) == |KeyHolders(s.calls, key)| <= limits.keySlots
  }

  lemma OneChanges(before: set<nat>, after: set<nat>, who: nat)
    requires before - {who} == after - {who}
    ensures |after| - |before| == (if who in after then 1 else 0) - (if who in before then 1 else 0)
    ensures who in before ==> |before| > 0
  {
    assert before == before - {who} + (if who in before then {who} else {});
    assert after == after - {who} + (if who in after then {who} else {});
  }

  function Weight(holds: bool): nat {
    if holds then 1 else 0
  }

  /** How a change of one call changes the number of holders. */
  lemma HoldersCount(calls: map<nat, Call>, who: nat, c: Call, key: string)
    requires who in calls ==> calls[who].key == c.key
    ensures |SlotHolders(calls[who := c])| - |SlotHolders(calls)| ==
            Weight(HoldsSlot(c.phase)) - Weight(who in calls && HoldsSlot(calls[who].phase))
    ensures |HalfCharged(calls[who := c])| - |HalfCharged(calls)| ==
            Weight(c.phase.Rated?) - Weight(who in calls && calls[who].phase.Rated?)
    ensures |KeyHolders(calls[who := c], key)| - |KeyHolders(calls, key)| ==
            Weight(c.key == key && HoldsKey(c.phase)) -
            Weight(who in calls && calls[who].key == key && HoldsKey(calls[who].phase))
    ensures who in calls && HoldsSlot(calls[who].phase) ==> |SlotHolders(calls)| > 0
    ensures who in calls && calls[who].key == key && HoldsKey(calls[who].phase) ==> |KeyHolders(calls, key)| > 0
  {
    OneChanges(SlotHolders(calls), SlotHolders(calls[who := c]), who);
    OneChanges(HalfCharged(calls), HalfCharged(calls[who := c]), who);
    OneChanges(KeyHolders(calls, key), KeyHolders(calls[who := c], key), who);
  }

  lemma StepConservesSlots(limits: Limits, s: State, move: Move)
    requires s.slots == |SlotHolders(s.calls)| <= limits.slots && Enabled(limits, s, move)
    ensures var next := Do(limits, s, move); next.slots == |SlotHolders(next.calls)| <= limits.slots
    ensures move.GiveSlot? ==> s.slots > 0
  {
    hide SlotHolders, KeyHolders, HalfCharged, Tick, NormalKey, Tokens;
    var next := Do(limits, s, move);
    HoldersCount(s.calls, move.who, next.calls[move.who], "");
  }

  /** How a move changes the tokens of a key. */
  lemma KeyTokens(limits: Limits, s: State, move: Move, key: string)
    requires Enabled(limits, s, move)
    ensures Tokens(Do(limits, s, move).keys, key) ==
            if move.TakeKey? && s.calls[move.who].key == key then Tokens(s.keys, key) + 1
            else if move.GiveKey? && s.calls[move.who].key == key then Returned(Tokens(s.keys, key))
            else Tokens(s.keys, key)
  {
    hide Tick, NormalKey, KeyWindow, AttemptsOf;
  }

  lemma StepConservesKey(limits: Limits, s: State, move: Move, key: string)
    requires KeyConserved(limits, s, key) && Enabled(limits, s, move)
    ensures KeyConserved(limits, Do(limits, s, move), key)
    ensures move.GiveKey? && key == s.calls[move.who].key ==> Tokens(s.keys, key) > 0
  {
    hide SlotHolders, KeyHolders, HalfCharged, Tick, NormalKey, Tokens, KeyWindow, AttemptsOf;
    var next := Do(limits, s, move);
    HoldersCount(s.calls, move.who, next.calls[move.who], key);
    KeyTokens(limits, s, move, key);
  }

  lemma StepConservesGrants(limits: Limits, s: State, move: Move)
    requires |s.keyGrants| + |HalfCharged(s.calls)| <= s.grants && Enabled(limits, s, move)
    ensures var next := Do(limits, s, move); |next.keyGrants| + |HalfCharged(next.calls)| <= next.grants
  {
    hide SlotHolders, KeyHolders, HalfCharged, Tick, NormalKey, Tokens;
    var next := Do(limits, s, move);
    HoldersCount(s.calls, move.who, next.calls[move.who], "");
  }

  lemma StepConserves(limits: Limits, s: State, move: Move)
    requires Conserved(limits, s) && Enabled(limits, s, move)
    ensures Conserved(limits, Do(limits, s, move))
  {
    hide SlotHolders, KeyHolders, HalfCharged, Tick, NormalKey, KeyConserved;
    StepConservesSlots(limits, s, move);
    StepConservesGrants(limits, s, move);
    forall k ensures KeyConserved(limits, Do(limits, s, move), k) {
      StepConservesKey(limits, s, move, k);
    }
    if move.GiveKey? {
      StepConservesKey(limits, s, move, s.calls[move.who].key);
    }
  }

  /** In every reachable state: the global tokens are the calls between taking and giving back
      the global slot, each key's tokens are that key's holders, both within their limits; no
      release ever finds its channel empty; and per-key grants, summed over the keys, never
      exceed the global grants. */
  lemma {:induction false} Conservation(limits: Limits, moves: seq<Move>)
    ensures Conserved(limits, Reach(limits, moves))
  {
    hide Do, Enabled;
    if moves == [] {
      Nobody();
    } else {
      var s := Reach(limits, moves[..|moves| - 1]);
      Conservation(limits, moves[..|moves| - 1]);
      if Enabled(limits, s, moves[|moves| - 1]) {
        StepConserves(limits, s, moves[|moves| - 1]);
      }
    }
  }

  lemma Nobody()
    ensures SlotHolders(map[]) == {} && HalfCharged(map[]) == {} && forall k :: KeyHolders(map[], k) == {}
  {
  }

  /** When every call has ended, however it ended, all slots are free again. */
  lemma AllBack(limits: Limits, moves: seq<Move>)
    requires var calls := Reach(limits, moves).calls; forall c :: c in calls ==> calls[c].phase.Ended?
    ensures var s := Reach(limits, moves); s.slots == 0 && forall k :: Tokens(s.keys, k) == 0
  {
    hide Reach;
    Conservation(limits, moves);
    var s := Reach(limits, moves);
    assert SlotHolders(s.calls) == {};
    forall k ensures Tokens(s.keys, k) == 0 {
      assert KeyConserved(limits, s, k) && KeyHolders(s.calls, k) == {};
    }
  }

  // ----------------------------------------------------------------- no deadlock

  predicate Blocked(limits: Limits, s: State, who: nat) {
    || (At(s, who, Waiting) && s.slots == limits.slots)
    || (At(s, who, HasSlot) && Tokens(s.keys, s.calls[who].key) == limits.keySlots)
  }

  /** It holds both slots, can take the slot of its key, or is giving its global slot back. */
  predicate CanMove(limits: Limits, s: State, who: nat) {
    && who in s.calls
    && (|| HoldsKey(s.calls[who].phase)
        || (At(s, who, HasSlot) && Tokens(s.keys, s.calls[who].key) < limits.keySlots)
        || At(s, who, Returning))
  }

  /** If a call is blocked on a slot, some call can go on. */
  lemma NoDeadlock(limits: Limits, moves: seq<Move>, who: nat)
    requires limits.slots > 0 && limits.keySlots > 0
    requires Blocked(limits, Reach(limits, moves), who)
    ensures exists c :: CanMove(limits, Reach(limits, moves), c)
  {
    hide Reach;
    Conservation(limits, moves);
    var s := Reach(limits, moves);
    if At(s, who, HasSlot) {
      KeyHolderMoves(limits, s, s.calls[who].key);
    } else {
      assert SlotHolders(s.calls) != {};
      var c :| c in SlotHolders(s.calls);
      if At(s, c, HasSlot) && Tokens(s.keys, s.calls[c].key) == limits.keySlots {
        KeyHolderMoves(limits, s, s.calls[c].key);
      } else {
        assert At(s, c, HasSlot) ==> KeyConserved(limits, s, s.calls[c].key);
        assert CanMove(limits, s, c);
      }
    }
  }

  lemma KeyHolderMoves(limits: Limits, s: State, key: string)
    requires Conserved(limits, s) && limits.keySlots > 0 && Tokens(s.keys, key) == limits.keySlots
    ensures exists c :: CanMove(limits, s, c)
  {
    assert KeyConserved(limits, s, key) && KeyHolders(s.calls, key) != {};
    var c :| c in KeyHolders(s.calls, key);
    assert CanMove(limits, s, c);
  }

  /** How far a call is from its end. */
  function Remaining(p: Phase): nat {
    match p
    case Waiting => 7 case HasSlot => 6 case HasBoth => 5 case Rated => 4
    case Sending => 3 case Leaving => 2 case Returning => 1 case Ended => 0
  }

  /** The move brings its call closer to its end, and is no cancellation. */
  predicate Advances(limits: Limits, s: State, move: Move) {
    && !move.Cancel? && !move.Arrive? && Enabled(limits, s, move)
    && Remaining(Do(limits, s, move).calls[move.who].phase) < Remaining(s.calls[move.who].phase)
  }

  /** A call that can move does so without any cancellation, once the clock has gone far enough
      for the limiters. */
  lemma MovesOn(limits: Limits, s: State, who: nat)
    requires CanMove(limits, s, who) && limits.rate > 0 && limits.keyRate > 0
    ensures exists move :: Advances(limits, s, move)
  {
    hide NormalKey, Tick, Later;
    var phase := s.calls[who].phase;
    if phase.HasSlot? {
      assert Advances(limits, s, TakeKey(who));
    } else if phase.HasBoth? {
      var now := Later(s.now, s.window);
      LaterGrants(limits.rate, s.now, s.window);
      assert Advances(limits, s, Charge(who, now, now));
    } else if phase.Rated? {
      var w := KeyWindow(s.windows, s.calls[who].key);
      var now := Later(s.now, w);
      LaterGrants(limits.keyRate, s.now, w);
      assert Advances(limits, s, ChargeKey(who, now, now));
    } else if phase.Sending? {
      assert Advances(limits, s, Finish(who));
    } else if phase.Leaving? {
      assert Advances(limits, s, GiveKey(who));
    } else {
      assert Advances(limits, s, GiveSlot(who));
    }
  }

  /** A reading, not before `now`, at which a new window opens. */
  function Later(now: int, w: Window): int {
    if w.start.Some? && w.start.value + MINUTE > now then w.start.value + MINUTE else now
  }

  lemma LaterGrants(max: nat, now: int, w: Window)
    requires max > 0
    ensures Later(now, w) >= now && Tick(max, w, Later(now, w)).1
  {
  }

  /** In every reachable state where some call has not ended, some call can be brought closer
      to its end without cancelling anything. */
  lemma AlwaysProgress(limits: Limits, moves: seq<Move>, who: nat)
    requires limits.slots > 0 && limits.keySlots > 0 && limits.rate > 0 && limits.keyRate > 0
    requires var s := Reach(limits, moves); who in s.calls && !s.calls[who].phase.Ended?
    ensures exists move :: Advances(limits, Reach(limits, moves), move)
  {
    hide Reach, HoldsKey;
    Conservation(limits, moves);
    var s := Reach(limits, moves);
    if CanMove(limits, s, who) {
      MovesOn(limits, s, who);
    } else if Blocked(limits, s, who) {
      NoDeadlock(limits, moves, who);
      var c :| CanMove(limits, s, c);
      MovesOn(limits, s, c);
    } else {
      NeitherMeansSlot(limits, s, who);
      assert Advances(limits, s, TakeSlot(who));
    }
  }

  lemma NeitherMeansSlot(limits: Limits, s: State, who: nat)
    requires Conserved(limits, s) && who in s.calls && !s.calls[who].phase.Ended?
    requires !CanMove(limits, s, who) && !Blocked(limits, s, who)
    ensures At(s, who, Waiting) && s.slots < limits.slots
  {
    assert At(s, who, HasSlot) ==> KeyConserved(limits, s, s.calls[who].key);
  }

  // -------------------------------------------------------------------- the rates

  /** The window is what the recorded turns lead to, the grants are theirs, and they held the
      lock in this order. */
  ghost predicate RateRight(max: nat, window: Window, attempts: seq<Attempt>, grants: nat, now: int) {
    && window == After(max, CLOSED, Readings(attempts))
    && grants == Count(Granted(max, CLOSED, Readings(attempts)))
    && InLockOrder(attempts) && forall i :: 0 <= i < |attempts| ==> attempts[i].locked <= now
  }

  ghost predicate RatesRight(limits: Limits, s: State) {
    && RateRight(limits.rate, s.window, s.attempts, s.grants, s.now)
    && forall k :: KeyRateRight(limits, s, k)
  }

  ghost predicate KeyRateRight(limits: Limits, s: State, key: string) {
    RateRight(limits.keyRate, KeyWindow(s.windows, key), AttemptsOf(s, key), s.keyGrants[key], s.now)
  }

  lemma {:induction false} CountMore(flags: seq<bool>, flag: bool)
    ensures Count(flags + [flag]) == Count(flags) + if flag then 1 else 0
  {
    var all := flags + [flag];
    if flags == [] {
      assert all[1..] == [];
    } else {
      assert all[1..] == flags[1..] + [flag];
      CountMore(flags[1..], flag);
    }
  }

  /** One more turn at a rate. */
  lemma OneMoreAttempt(max: nat, window: Window, attempts: seq<Attempt>, grants: nat, before: int, t: Attempt)
    requires RateRight(max, window, attempts, grants, before) && before <= t.locked && t.reading <= t.locked
    ensures var (next, granted) := Tick(max, window, t.reading);
            RateRight(max, next, attempts + [t], if granted then grants + 1 else grants, t.locked)
  {
    hide Tick;
    OneMore(max, CLOSED, Readings(attempts), t.reading);
    assert Readings(attempts + [t]) == Readings(attempts) + [t.reading];
    CountMore(Granted(max, CLOSED, Readings(attempts)), Tick(max, window, t.reading).1);
  }

  lemma KeyRateKept(limits: Limits, s: State, move: Move, key: string)
    requires KeyRateRight(limits, s, key) && Enabled(limits, s, move)
    ensures KeyRateRight(limits, Do(limits, s, move), key)
  {
    hide Tick, NormalKey, After, Granted, Count, Readings;
    if move.ChargeKey? && s.calls[move.who].key == key {
      hide RateRight;
      OneMoreAttempt(limits.keyRate, KeyWindow(s.windows, key), AttemptsOf(s, key), s.keyGrants[key], s.now,
                     Attempt(move.reading, move.now));
    }
  }

  lemma StepKeepsRates(limits: Limits, s: State, move: Move)
    requires RatesRight(limits, s) && Enabled(limits, s, move)
    ensures RatesRight(limits, Do(limits, s, move))
  {
    hide Tick, NormalKey, After, Granted, Count, KeyRateRight, Readings;
    forall k ensures KeyRateRight(limits, Do(limits, s, move), k) {
      KeyRateKept(limits, s, move, k);
    }
    if move.Charge? {
      OneMoreAttempt(limits.rate, s.window, s.attempts, s.grants, s.now, Attempt(move.reading, move.now));
    }
  }

  lemma {:induction false} RatesAlwaysRight(limits: Limits, moves: seq<Move>)
    ensures RatesRight(limits, Reach(limits, moves))
  {
    hide Do, Enabled;
    if moves == [] {
      assert forall k :: KeyRateRight(limits, START, k);
    } else {
      var s := Reach(limits, moves[..|moves| - 1]);
      RatesAlwaysRight(limits, moves[..|moves| - 1]);
      if Enabled(limits, s, moves[|moves| - 1]) {
        StepKeepsRates(limits, s, moves[|moves| - 1]);
      }
    }
  }

  /** Over every run of any number of calls, whatever clock readings they come with: no minute
      holds more grants than the global bound, nor more grants of a key than that key's bound,
      for the lag that the run had. */
  lemma RunsKeepTheRates(limits: Limits, moves: seq<Move>, key: string, a: int, lag: nat)
    requires limits.rate > 0 && limits.keyRate > 0
    ensures var s := Reach(limits, moves);
            && s.grants == Count(Granted(limits.rate, CLOSED, Readings(s.attempts)))
            && (Lags(s.attempts, lag) ==>
                  GrantsWithin(limits.rate, CLOSED, s.attempts, a) <= MinuteBound(limits.rate, lag))
            && s.keyGrants[key] == Count(Granted(limits.keyRate, CLOSED, Readings(AttemptsOf(s, key))))
            && (Lags(AttemptsOf(s, key), lag) ==>
                  GrantsWithin(limits.keyRate, CLOSED, AttemptsOf(s, key), a) <= MinuteBound(limits.keyRate, lag))
  {
    hide Reach, Lags, MinuteBound, GrantsWithin;
    RatesAlwaysRight(limits, moves);
    var s := Reach(limits, moves);
    assert KeyRateRight(limits, s, key);
    if Lags(s.attempts, lag) {
      RateBound(limits.rate, s.attempts, a, lag);
    }
    if Lags(AttemptsOf(s, key), lag) {
      RateBound(limits.keyRate, AttemptsOf(s, key), a, lag);
    }
  }
}
