/** The cached snapshot: double-checked expiry around a rebuild under a lock, for one caller
    and for any number of callers in any order of their steps. */
module SnapshotCache {
  import opened Text

  const DEFAULT_TTL: int := 300

  /** The cached state: the number of the successful build that made it, and when it expires. */
  datatype Held = Held(version: nat, expiresAt: int)

  datatype Answer = Served(version: nat) | Refused

  /** `!reload && st != nil && now.Before(st.expiresAt)`. */
  predicate Usable(reload: bool, held: Option<Held>, now: int) {
    !reload && held.Some? && now < held.value.expiresAt
  }

  function Next(held: Option<Held>, end: int, ttl: int): Held {
    Held((if held.Some? then held.value.version else 0) + 1, end + ttl)
  }

  class CachedStore {
    const reload: bool
    const ttl: int
    var held: Option<Held>
    var builds: nat

    constructor (reload: bool, ttl: int)
      ensures this.reload == reload && this.ttl == (if ttl <= 0 then 300 else ttl) && this.ttl > 0
      ensures held == None && builds == 0
    {
      this.reload := reload;
      this.ttl := if ttl <= 0 then DEFAULT_TTL else ttl;
      held, builds := None, 0;
    }

    /** `snapshot` without interference: the two clock readings, and the outcome of a build
        with the reading at its end. */
    method Snapshot(first: int, second: int, end: int, ok: bool) returns (answer: Answer)
      requires first <= second <= end
      modifies this
      ensures var load := !Usable(reload, old(held), first);
              && builds == old(builds) + (if load then 1 else 0)
              && held == (if load && ok then Some(Next(old(held), end, ttl)) else old(held))
              && answer == if held.Some? then Served(held.value.version) else Refused
    {
      var now := first;
      var st := held;
      if !reload && st.Some? && now < st.value.expiresAt {
        return Served(st.value.version);
      }
      now := second;
      st := held;
      if !reload && st.Some? && now < st.value.expiresAt {
        return Served(st.value.version);
      }
      builds := builds + 1;
      if !ok {
        if st.Some? {
          return Served(st.value.version);
        }
        return Refused;
      }
      held := Some(Next(held, end, ttl));
      answer := Served(held.value.version);
    }
  }

  // ----------------------------------------------------------- many callers at once

  datatype Phase =
    | Arrived
    | Peeking(reading: int)
    | Queued
    | Locked
    | Building(since: int)
    | Finished

  datatype Event =
    | Built(start: int, end: int)
    | BuildFailed(start: int, end: int)
    | Answered(who: nat, answer: Answer)

  datatype Setup = Setup(reload: bool, ttl: int)

  datatype State = State(held: Option<Held>, owner: Option<nat>, now: int, calls: map<nat, Phase>, log: seq<Event>)

  datatype Move =
    | Arrive(who: nat)
    | ReadClock(who: nat, now: int)
    | Peek(who: nat)
    | Lock(who: nat)
    | Recheck(who: nat, now: int)
    | EndBuild(who: nat, now: int, ok: bool)

  /** Readers and writers wait while somebody owns the lock. */
  predicate Enabled(s: State, move: Move) {
    match move
    case Arrive(who) => who !in s.calls
    case ReadClock(who, now) => who in s.calls && s.calls[who].Arrived? && s.now <= now
    case Peek(who) => who in s.calls && s.calls[who].Peeking? && s.owner.None?
    case Lock(who) => who in s.calls && s.calls[who].Queued? && s.owner.None?
    case Recheck(who, now) => who in s.calls && s.calls[who].Locked? && s.now <= now
    case EndBuild(who, now, _) => who in s.calls && s.calls[who].Building? && s.now <= now
  }

  function Go(s: State, who: nat, phase: Phase): State {
    s.(calls := s.calls[who := phase])
  }

  /** The call answers with the state as it is. */
  function Reply(s: State, who: nat): State {
    var answer := if s.held.Some? then Served(s.held.value.version) else Refused;
    Go(s, who, Finished).(log := s.log + [Answered(who, answer)])
  }

  function Do(setup: Setup, s: State, move: Move): State
    requires Enabled(s, move)
  {
    match move
    case Arrive(who) => Go(s, who, Arrived)
    case ReadClock(who, now) => Go(s, who, Peeking(now)).(now := now)
    case Peek(who) =>
      if Usable(setup.reload, s.held, s.calls[who].reading) then Reply(s, who) else Go(s, who, Queued)
    case Lock(who) => Go(s, who, Locked).(owner := Some(who))
    case Recheck(who, now) =>
      var later := s.(now := now);
      if Usable(setup.reload, s.held, now) then Reply(later.(owner := None), who)
      else Go(later, who, Building(now))
    case EndBuild(who, now, ok) =>
      var start := s.calls[who].since;
      var event := if ok then Built(start, now) else BuildFailed(start, now);
      var later := s.(now := now, owner := None, log := s.log + [event]);
      Reply(if ok then later.(held := Some(Next(s.held, now, setup.ttl))) else later, who)
  }

  const START := State(None, None, 0, map[], [])

  function Reach(setup: Setup, moves: seq<Move>): State {
    if moves == [] then START
    else
      var s := Reach(setup, moves[..|moves| - 1]);
      if Enabled(s, moves[|moves| - 1]) then Do(setup, s, moves[|moves| - 1]) else s
  }

  /** How many builds have succeeded. */
  function Builds(log: seq<Event>): nat {
    if log == [] then 0 else Builds(log[..|log| - 1]) + (if log[|log| - 1].Built? then 1 else 0)
  }

  /** Entry `n` is as it should be, given what came before. */
  ghost predicate EntryRight(setup: Setup, log: seq<Event>, n: int)
    requires 0 <= n < |log|
  {
    && (log[n].Answered? ==>
          log[n].answer == if Builds(log[..n]) > 0 then Served(Builds(log[..n])) else Refused)
    && (!log[n].Answered? && !setup.reload ==>
          forall i :: 0 <= i < n && log[i].Built? ==> log[n].start >= log[i].end + setup.ttl)
  }

  ghost predicate LogRight(setup: Setup, log: seq<Event>) {
    forall n :: 0 <= n < |log| ==> EntryRight(setup, log, n)
  }

  ghost predicate CacheRight(setup: Setup, s: State) {
    && (s.held.None? <==> Builds(s.log) == 0)
    && (s.held.Some? ==> s.held.value.version == Builds(s.log))
    && (forall i :: 0 <= i < |s.log| && s.log[i].Built? ==>
          s.log[i].end <= s.now && s.held.Some? && s.log[i].end + setup.ttl <= s.held.value.expiresAt)
  }

  /** Only the owner of the lock is past it; a build started after the cached state expired. */
  ghost predicate CallsRight(setup: Setup, s: State) {
    forall who :: who in s.calls ==>
      && (s.calls[who].Locked? || s.calls[who].Building? ==> s.owner == Some(who))
      && (s.calls[who].Building? && !setup.reload && s.held.Some? ==> s.calls[who].since >= s.held.value.expiresAt)
  }

  lemma LongerLog(setup: Setup, log: seq<Event>, e: Event)
    requires LogRight(setup, log) && EntryRight(setup, log + [e], |log|)
    ensures LogRight(setup, log + [e])
  {
    forall n | 0 <= n < |log| ensures EntryRight(setup, log + [e], n) {
      assert EntryRight(setup, log, n) && (log + [e])[..n] == log[..n];
    }
  }

  lemma BuildsMore(log: seq<Event>, e: Event)
    ensures Builds(log + [e]) == Builds(log) + (if e.Built? then 1 else 0)
  {
    assert (log + [e])[..|log|] == log;
  }

  lemma ReplyKeeps(setup: Setup, s: State, who: nat)
    requires LogRight(setup, s.log) && CacheRight(setup, s) && CallsRight(setup, Go(s, who, Finished))
    ensures var next := Reply(s, who);
            LogRight(setup, next.log) && CacheRight(setup, next) && CallsRight(setup, next)
  {
    hide LogRight, Builds;
    var e := Answered(who, if s.held.Some? then Served(s.held.value.version) else Refused);
    assert (s.log + [e])[..|s.log|] == s.log;
    BuildsMore(s.log, e);
    LongerLog(setup, s.log, e);
  }

  lemma StepKeeps(setup: Setup, s: State, move: Move)
    requires LogRight(setup, s.log) && CacheRight(setup, s) && CallsRight(setup, s) && Enabled(s, move)
    ensures var next := Do(setup, s, move);
            LogRight(setup, next.log) && CacheRight(setup, next) && CallsRight(setup, next)
  {
    hide LogRight, Builds, Reply;
    match move
    case Peek(who) =>
      ReplyKeeps(setup, s, who);
    case Recheck(who, now) =>
      ReplyKeeps(setup, s.(now := now, owner := None), who);
    case EndBuild(_, _, _) =>
      BuildKeeps(setup, s, move);
    case _ =>
  }

  lemma BuildKeeps(setup: Setup, s: State, move: Move)
    requires LogRight(setup, s.log) && CacheRight(setup, s) && CallsRight(setup, s) && Enabled(s, move) && move.EndBuild?
    ensures var next := Do(setup, s, move);
            LogRight(setup, next.log) && CacheRight(setup, next) && CallsRight(setup, next)
  {
    hide LogRight, Builds, Reply;
    var start := s.calls[move.who].since;
    var e := if move.ok then Built(start, move.now) else BuildFailed(start, move.now);
    LongerLog(setup, s.log, e);
    BuildsMore(s.log, e);
    var later := s.(now := move.now, owner := None, log := s.log + [e]);
    ReplyKeeps(setup, if move.ok then later.(held := Some(Next(s.held, move.now, setup.ttl))) else later, move.who);
  }

  lemma {:induction false} AlwaysRight(setup: Setup, moves: seq<Move>)
    requires setup.ttl > 0
    ensures var s := Reach(setup, moves);
            LogRight(setup, s.log) && CacheRight(setup, s) && CallsRight(setup, s)
  {
    hide Do, Enabled;
    if moves != [] {
      var s := Reach(setup, moves[..|moves| - 1]);
      AlwaysRight(setup, moves[..|moves| - 1]);
      if Enabled(s, moves[|moves| - 1]) {
        StepKeeps(setup, s, moves[|moves| - 1]);
      }
    }
  }

  // ---------------------------------------------------------------- the theorems

  /** With reload off: a build, successful or not, starts at least `ttl` after the end of every
      successful one before it; so no second clock reading before the expiry leads to a build. */
  lemma BuildsApart(setup: Setup, moves: seq<Move>, i: int, n: int)
    requires setup.ttl > 0 && !setup.reload
    requires var log := Reach(setup, moves).log;
             0 <= i < n < |log| && log[i].Built? && !log[n].Answered?
    ensures var log := Reach(setup, moves).log; log[n].start >= log[i].end + setup.ttl
  {
    hide Reach;
    AlwaysRight(setup, moves);
    assert EntryRight(setup, Reach(setup, moves).log, n);
  }

  function Rank(phase: Phase): nat {
    match phase
    case Arrived => 1
    case Peeking(_) => 2
    case Queued => 3
    case Locked => 4
    case Building(_) => 5
    case Finished => 6
  }

  /** How far a call has come; nought before it arrives. */
  function Progress(s: State, who: nat): nat {
    if who in s.calls then Rank(s.calls[who]) else 0
  }

  /** The state after the first `n` moves. */
  function At(setup: Setup, moves: seq<Move>, n: nat): State
    requires n <= |moves|
  {
    Reach(setup, moves[..n])
  }

  lemma AtNext(setup: Setup, moves: seq<Move>, n: nat)
    requires n < |moves|
    ensures var s := At(setup, moves, n);
            At(setup, moves, n + 1) == if Enabled(s, moves[n]) then Do(setup, s, moves[n]) else s
  {
    hide Enabled, Do;
    assert moves[..n + 1][..n] == moves[..n] && moves[..n + 1][n] == moves[n];
  }

  /** No call ever goes back. */
  lemma {:induction false} CallsGoForward(setup: Setup, moves: seq<Move>, who: nat, n: nat, later: nat)
    requires n <= later <= |moves|
    ensures Progress(At(setup, moves, n), who) <= Progress(At(setup, moves, later), who)
    decreases later
  {
    hide At;
    if n < later {
      CallsGoForward(setup, moves, who, n, later - 1);
      AtNext(setup, moves, later - 1);
    }
  }

  /** Entry `i` is the last successful build. */
  ghost predicate LatestBuild(log: seq<Event>, i: int) {
    0 <= i < |log| && log[i].Built? && forall j :: i < j < |log| ==> !log[j].Built?
  }

  /** The cache may be used now: reload is off, and the last successful build ended less than
      the time to live ago. */
  ghost predicate Fresh(setup: Setup, log: seq<Event>, now: int) {
    !setup.reload && exists i :: LatestBuild(log, i) && now < log[i].end + setup.ttl
  }

  /** The cached state expires the time to live after the last successful build. */
  ghost predicate HeldRight(setup: Setup, s: State) {
    && (s.held.Some? <==> exists i :: LatestBuild(s.log, i))
    && forall i :: LatestBuild(s.log, i) && s.held.Some? ==> s.held.value.expiresAt == s.log[i].end + setup.ttl
  }

  lemma OtherEntry(log: seq<Event>, e: Event)
    requires !e.Built?
    ensures forall i :: LatestBuild(log + [e], i) <==> LatestBuild(log, i)
    ensures forall i :: LatestBuild(log, i) ==> (log + [e])[i] == log[i]
  {
    forall i ensures LatestBuild(log + [e], i) <==> LatestBuild(log, i) {
      assert forall j :: 0 <= j < |log| ==> (log + [e])[j] == log[j];
    }
  }

  lemma BuildEntry(log: seq<Event>, e: Event)
    requires e.Built?
    ensures forall i :: LatestBuild(log + [e], i) <==> i == |log|
  {
    assert LatestBuild(log + [e], |log|);
  }

  lemma ReplyHolds(setup: Setup, s: State, who: nat)
    requires HeldRight(setup, s)
    ensures HeldRight(setup, Reply(s, who))
  {
    hide LatestBuild;
    OtherEntry(s.log, Answered(who, if s.held.Some? then Served(s.held.value.version) else Refused));
  }

  lemma StepHolds(setup: Setup, s: State, move: Move)
    requires HeldRight(setup, s) && Enabled(s, move)
    ensures HeldRight(setup, Do(setup, s, move))
  {
    hide LatestBuild, Reply;
    match move
    case Peek(who) => ReplyHolds(setup, s, who);
    case Recheck(who, now) => ReplyHolds(setup, s.(now := now, owner := None), who);
    case EndBuild(who, now, ok) =>
      var start := s.calls[who].since;
      var e := if ok then Built(start, now) else BuildFailed(start, now);
      var later := s.(now := now, owner := None, log := s.log + [e]);
      if ok {
        BuildEntry(s.log, e);
        assert later.log[|s.log|] == e && LatestBuild(later.log, |s.log|);
        ReplyHolds(setup, later.(held := Some(Next(s.held, now, setup.ttl))), who);
      } else {
        OtherEntry(s.log, e);
        ReplyHolds(setup, later, who);
      }
    case _ =>
  }

  lemma {:induction false} AlwaysHolds(setup: Setup, moves: seq<Move>)
    ensures HeldRight(setup, Reach(setup, moves))
  {
    hide Do, Enabled, HeldRight;
    if moves == [] {
      NothingHeld(setup);
    } else {
      var s := Reach(setup, moves[..|moves| - 1]);
      AlwaysHolds(setup, moves[..|moves| - 1]);
      if Enabled(s, moves[|moves| - 1]) {
        StepHolds(setup, s, moves[|moves| - 1]);
      }
    }
  }

  lemma NothingHeld(setup: Setup)
    ensures HeldRight(setup, START)
  {
  }

  lemma FreshMeans(setup: Setup, moves: seq<Move>, now: int)
    ensures var s := Reach(setup, moves); Usable(setup.reload, s.held, now) <==> Fresh(setup, s.log, now)
  {
    hide LatestBuild, Reach;
    AlwaysHolds(setup, moves);
    var s := Reach(setup, moves);
    if s.held.Some? {
      var i :| LatestBuild(s.log, i);
    }
  }

  predicate PhaseIs(s: State, who: nat, phase: Phase) {
    who in s.calls && s.calls[who] == phase
  }

  /** A call that looks at the state is answered from it at once if and only if its first
      reading finds the last successful build fresh; a call that looks again under the lock
      builds if and only if its second reading does not. */
  lemma ReadersDecide(setup: Setup, moves: seq<Move>, i: nat)
    requires i < |moves| && Enabled(At(setup, moves, i), moves[i])
    ensures var s, next := At(setup, moves, i), At(setup, moves, i + 1);
            && (moves[i].Peek? ==>
                  if Fresh(setup, s.log, s.calls[moves[i].who].reading) then
                    s.held.Some? && next.log == s.log + [Answered(moves[i].who, Served(s.held.value.version))]
                  else next.log == s.log && PhaseIs(next, moves[i].who, Queued))
            && (moves[i].Recheck? ==>
                  (PhaseIs(next, moves[i].who, Building(moves[i].now)) <==> !Fresh(setup, s.log, moves[i].now)) &&
                  (Fresh(setup, s.log, moves[i].now) ==>
                     s.held.Some? && next.log == s.log + [Answered(moves[i].who, Served(s.held.value.version))]))
  {
    hide Fresh;
    AtNext(setup, moves, i);
    if moves[i].Peek? {
      FreshMeans(setup, moves[..i], At(setup, moves, i).calls[moves[i].who].reading);
    }
    if moves[i].Recheck? {
      FreshMeans(setup, moves[..i], moves[i].now);
    }
  }

  /** A call whose first reading finds the last successful build fresh never builds anything:
      at no moment of the run. */
  lemma FreshReadersNeverBuild(setup: Setup, moves: seq<Move>, i: nat, n: nat)
    requires i < |moves| && n <= |moves| && moves[i].Peek? && Enabled(At(setup, moves, i), moves[i])
    requires var s := At(setup, moves, i); Fresh(setup, s.log, s.calls[moves[i].who].reading)
    ensures var s := At(setup, moves, n); moves[i].who in s.calls ==> !s.calls[moves[i].who].Building?
    ensures i < n ==> var s := At(setup, moves, n); moves[i].who in s.calls && s.calls[moves[i].who].Finished?
  {
    hide At, Fresh;
    AtNext(setup, moves, i);
    AnsweredIsFinished(setup, moves, i);
    if i < n {
      CallsGoForward(setup, moves, moves[i].who, i + 1, n);
    } else {
      CallsGoForward(setup, moves, moves[i].who, n, i);
    }
  }

  lemma AnsweredIsFinished(setup: Setup, moves: seq<Move>, i: nat)
    requires i < |moves| && moves[i].Peek? && Enabled(At(setup, moves, i), moves[i])
    requires var s := At(setup, moves, i); Fresh(setup, s.log, s.calls[moves[i].who].reading)
    ensures var next := At(setup, moves, i + 1); moves[i].who in next.calls && next.calls[moves[i].who].Finished?
  {
    hide Fresh;
    AtNext(setup, moves, i);
    FreshMeans(setup, moves[..i], At(setup, moves, i).calls[moves[i].who].reading);
  }

  /** Every answer is the latest successful build at its moment: a failed build changes
      nothing and its caller gets the old state, and errors occur only before the first
      success. */
  lemma AnswersAreLatest(setup: Setup, moves: seq<Move>, n: int)
    requires setup.ttl > 0
    requires var log := Reach(setup, moves).log; 0 <= n < |log| && log[n].Answered?
    ensures var log := Reach(setup, moves).log;
            && (log[n].answer.Served? ==> log[n].answer.version == Builds(log[..n]))
            && (log[n].answer.Refused? <==> forall i :: 0 <= i < n ==> !log[i].Built?)
  {
    hide Reach;
    AlwaysRight(setup, moves);
    var log := Reach(setup, moves).log;
    assert EntryRight(setup, log, n);
    BuildsPositive(log[..n]);
  }

  lemma {:induction false} BuildsPositive(log: seq<Event>)
    ensures Builds(log) > 0 <==> exists i :: 0 <= i < |log| && log[i].Built?
  {
    if log != [] {
      BuildsPositive(log[..|log| - 1]);
      assert forall i :: 0 <= i < |log| - 1 ==> log[..|log| - 1][i] == log[i];
    }
  }

  /** The answers never go back to an older build. */
  lemma AnswersNeverGoBack(setup: Setup, moves: seq<Move>, i: int, n: int)
    requires setup.ttl > 0
    requires var log := Reach(setup, moves).log;
             0 <= i < n < |log| && log[i].Answered? && log[n].Answered? && log[i].answer.Served?
    ensures var log := Reach(setup, moves).log;
            log[n].answer.Served? && log[i].answer.version <= log[n].answer.version
  {
    hide Reach;
    AlwaysRight(setup, moves);
    var log := Reach(setup, moves).log;
    assert EntryRight(setup, log, i) && EntryRight(setup, log, n);
    BuildsGrow(log, i, n);
  }

  lemma {:induction false} BuildsGrow(log: seq<Event>, i: int, n: int)
    requires 0 <= i <= n <= |log|
    ensures Builds(log[..i]) <= Builds(log[..n])
    decreases n - i
  {
    if i < n {
      BuildsGrow(log, i, n - 1);
      assert log[..n] == log[..n - 1] + [log[n - 1]];
      BuildsMore(log[..n - 1], log[n - 1]);
    }
  }
}
