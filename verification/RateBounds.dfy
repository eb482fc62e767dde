/** How many grants a minute can hold, counted at the instants when the lock is held, when the
    clock was read up to `lag` before that: the exact bound, for every limit and every lag. */
module RateBounds {
  import opened Text
  import opened RateLimit

  /** One turn of the waiting loop: when it read the clock and when it held the lock. */
  datatype Attempt = Attempt(reading: int, locked: int)

  function Readings(attempts: seq<Attempt>): seq<int> {
    seq(|attempts|, i requires 0 <= i < |attempts| => attempts[i].reading)
  }

  /** The lock is held in this order, never before the reading. */
  ghost predicate InLockOrder(attempts: seq<Attempt>) {
    && (forall i :: 0 <= i < |attempts| ==> attempts[i].reading <= attempts[i].locked)
    && (forall i, j :: 0 <= i <= j < |attempts| ==> attempts[i].locked <= attempts[j].locked)
  }

  /** No reading is older than `lag` when its turn holds the lock. */
  ghost predicate Lags(attempts: seq<Attempt>, lag: nat) {
    forall i :: 0 <= i < |attempts| ==> attempts[i].locked - attempts[i].reading <= lag
  }

  predicate Within(t: int, a: int) {
    a <= t < a + MINUTE
  }

  /** Grants given in the minute that starts at `a`. */
  function GrantsWithin(max: nat, w: Window, attempts: seq<Attempt>, a: int): nat
    decreases attempts
  {
    if attempts == [] then 0
    else
      (if Tick(max, w, attempts[0].reading).1 && Within(attempts[0].locked, a) then 1 else 0) +
      GrantsWithin(max, Tick(max, w, attempts[0].reading).0, attempts[1..], a)
  }

  function Max(x: int, y: int): int {
    if x < y then y else x
  }

  // ------------------------------------------------- what windows can still grant

  /** What windows that start at `lo` or later can grant in the minute at `a`: a window that
      starts within `lag` before the minute can give it all its grants, one that starts up to
      a minute before that all but the grant that opened it. */
  function Future(max: nat, lo: int, a: int, lag: nat): int
    decreases a + MINUTE - lo
  {
    if lo >= a + MINUTE then 0
    else if lo >= a - lag then max + Future(max, lo + MINUTE, a, lag)
    else if lo > a - MINUTE - lag then
      Max(max - 1 + Future(max, lo + MINUTE, a, lag), Future(max, a - lag, a, lag))
    else Future(max, a - MINUTE - lag + 1, a, lag)
  }

  lemma {:induction false} FutureFalls(max: nat, lo: int, hi: int, a: int, lag: nat)
    requires 0 < max && lo <= hi
    ensures 0 <= Future(max, hi, a, lag) <= Future(max, lo, a, lag)
    decreases a + MINUTE - lo
  {
    if lo >= a + MINUTE {
    } else if lo >= a - lag {
      FutureFalls(max, lo + MINUTE, hi + MINUTE, a, lag);
    } else if lo > a - MINUTE - lag {
      if hi < a - lag {
        FutureFalls(max, lo + MINUTE, hi + MINUTE, a, lag);
        FutureFalls(max, a - lag, a - lag, a, lag);
      } else {
        FutureFalls(max, a - lag, hi, a, lag);
      }
    } else {
      FutureFalls(max, a - MINUTE - lag + 1, Max(hi, a - MINUTE - lag + 1), a, lag);
    }
  }

  /** What the open window can still grant in the minute. */
  function Present(max: nat, w: Window, a: int, lag: nat): int {
    if w.start.Some? && a - MINUTE - lag < w.start.value < a + MINUTE then max - w.count else 0
  }

  function Earliest(w: Window, a: int, lag: nat): int {
    if w.start.Some? then w.start.value + MINUTE else a - MINUTE - lag
  }

  /** Opening a window at `r` never gains on what was allowed before. */
  lemma OpeningFits(max: nat, lo: int, r: int, a: int, lag: nat)
    requires 0 < max && (lo <= r || lo <= a - MINUTE - lag)
    ensures (if a - lag <= r < a + MINUTE then 1 else 0) + Present(max, Window(Some(r), 1), a, lag) +
            Future(max, r + MINUTE, a, lag) <= Future(max, lo, a, lag)
  {
    var from := a - MINUTE - lag;
    if lo <= r {
      FutureFalls(max, lo, r, a, lag);
    } else {
      FutureFalls(max, lo, from, a, lag);
      FutureFalls(max, from, Max(from, r), a, lag);
    }
    FutureFalls(max, r, r, a, lag);
    if r <= from {
      FutureFalls(max, r, r + MINUTE, a, lag);
    }
  }

  /** What a turn is granted in the minute, it takes from the allowance. */
  lemma TickFits(max: nat, w: Window, t: Attempt, a: int, lag: nat)
    requires 0 < max && w.count <= max && t.reading <= t.locked <= t.reading + lag
    requires w.start.Some? ==> w.start.value <= t.locked
    ensures var (next, granted) := Tick(max, w, t.reading);
            && next.count <= max && next.start.Some? && next.start.value <= t.locked
            && (if granted && Within(t.locked, a) then 1 else 0) +
               Present(max, next, a, lag) + Future(max, Earliest(next, a, lag), a, lag)
               <= Present(max, w, a, lag) + Future(max, Earliest(w, a, lag), a, lag)
  {
    hide Future;
    if w.start.None? || t.reading - w.start.value >= MINUTE {
      OpeningFits(max, Earliest(w, a, lag), t.reading, a, lag);
    }
  }

  lemma {:induction false} WithinFuture(max: nat, w: Window, attempts: seq<Attempt>, a: int, lag: nat)
    requires 0 < max && w.count <= max && InLockOrder(attempts) && Lags(attempts, lag)
    requires w.start.Some? && attempts != [] ==> w.start.value <= attempts[0].locked
    ensures GrantsWithin(max, w, attempts, a) <= Present(max, w, a, lag) + Future(max, Earliest(w, a, lag), a, lag)
    decreases attempts
  {
    hide Future, Tick, Present;
    if attempts == [] {
      NothingOwed(max, w, a, lag);
    } else {
      var rest := attempts[1..];
      assert InLockOrder(rest) && Lags(rest, lag) by {
        assert forall i :: 0 <= i < |rest| ==> rest[i] == attempts[i + 1];
      }
      TickFits(max, w, attempts[0], a, lag);
      WithinFuture(max, Tick(max, w, attempts[0].reading).0, rest, a, lag);
    }
  }

  lemma NothingOwed(max: nat, w: Window, a: int, lag: nat)
    requires 0 < max && w.count <= max
    ensures 0 <= Present(max, w, a, lag) + Future(max, Earliest(w, a, lag), a, lag)
  {
    hide Future;
    FutureFalls(max, Earliest(w, a, lag), Earliest(w, a, lag), a, lag);
  }

  // ---------------------------------------------------------------- the closed form

  /** The windows that can start from `lag` before a minute to its end. */
  function WholeWindows(lag: nat): nat {
    (lag + MINUTE - 1) / MINUTE + 1
  }

  /** And those that can start from a minute earlier still. */
  function AllWindows(lag: nat): nat {
    (lag + 2 * MINUTE - 2) / MINUTE + 1
  }

  /** The most grants in a minute. */
  function MinuteBound(max: nat, lag: nat): int {
    if WholeWindows(lag) < AllWindows(lag) then AllWindows(lag) * max - 1 else WholeWindows(lag) * max
  }

  lemma {:induction false} FutureClosed(max: nat, lo: int, a: int, lag: nat)
    requires a - lag <= lo < a + 2 * MINUTE
    ensures Future(max, lo, a, lag) == (if lo >= a + MINUTE then 0 else ((a + MINUTE - 1 - lo) / MINUTE + 1) * max)
    decreases a + 2 * MINUTE - lo
  {
    if lo < a + MINUTE {
      FutureClosed(max, lo + MINUTE, a, lag);
      var n := (a + MINUTE - 1 - lo) / MINUTE;
      assert n * max + max == (n + 1) * max;
    }
  }

  lemma FutureIsBound(max: nat, a: int, lag: nat)
    requires 0 < max
    ensures Future(max, a - MINUTE - lag, a, lag) == MinuteBound(max, lag)
  {
    FutureClosed(max, a - lag, a, lag);
    FutureClosed(max, a - lag + 1, a, lag);
    var whole, all := WholeWindows(lag), AllWindows(lag);
    assert all == (lag + MINUTE - 2) / MINUTE + 2;
    assert (all - 1) * max + max == all * max;
    assert whole <= all <= whole + 1;
    assert all == whole + 1 ==> all * max == whole * max + max;
    assert Future(max, a - MINUTE - lag, a, lag) == Future(max, a - MINUTE - lag + 1, a, lag);
  }

  /** From a fresh limiter, when no reading is older than `lag` at the lock: no half-open
      minute holds more grants than the bound. */
  lemma RateBound(max: nat, attempts: seq<Attempt>, a: int, lag: nat)
    requires 0 < max && InLockOrder(attempts) && Lags(attempts, lag)
    ensures GrantsWithin(max, CLOSED, attempts, a) <= MinuteBound(max, lag)
  {
    WithinFuture(max, CLOSED, attempts, a, lag);
    FutureIsBound(max, a, lag);
  }

  // ------------------------------------------------------------------ tightness

  function Burst(t: Attempt, n: nat): seq<Attempt> {
    seq(n, _ => t)
  }

  /** Turns that are granted all that windows from `lo` on can grant. */
  function Worst(max: nat, lo: int, a: int, lag: nat): seq<Attempt>
    requires 0 < max
    decreases a + MINUTE - lo
  {
    if lo >= a + MINUTE then []
    else if lo >= a - lag then Burst(Attempt(lo, Max(lo, a)), max) + Worst(max, lo + MINUTE, a, lag)
    else if lo > a - MINUTE - lag then
      if max - 1 + Future(max, lo + MINUTE, a, lag) >= Future(max, a - lag, a, lag) then
        [Attempt(lo, lo)] + Burst(Attempt(lo + MINUTE - 1, Max(lo + MINUTE - 1, a)), max - 1) +
        Worst(max, lo + MINUTE, a, lag)
      else Worst(max, a - lag, a, lag)
    else Worst(max, a - MINUTE - lag + 1, a, lag)
  }

  lemma {:induction false} BurstIsGranted(max: nat, w: Window, t: Attempt, n: nat, tail: seq<Attempt>, a: int)
    requires w.start.Some? && t.reading - w.start.value < MINUTE && w.count + n <= max && Within(t.locked, a)
    ensures GrantsWithin(max, w, Burst(t, n) + tail, a) ==
            n + GrantsWithin(max, w.(count := w.count + n), tail, a)
    decreases n
  {
    var all := Burst(t, n) + tail;
    if n == 0 {
      assert all == tail;
    } else {
      assert all[0] == t && all[1..] == Burst(t, n - 1) + tail;
      BurstIsGranted(max, w.(count := w.count + 1), t, n - 1, tail, a);
    }
  }

  predicate Over(w: Window, lo: int) {
    w.start.None? || lo - w.start.value >= MINUTE
  }

  lemma {:induction false} WorstIsGranted(max: nat, w: Window, lo: int, a: int, lag: nat)
    requires 0 < max && Over(w, lo)
    ensures GrantsWithin(max, w, Worst(max, lo, a, lag), a) == Future(max, lo, a, lag)
    decreases a + MINUTE - lo
  {
    if lo >= a + MINUTE {
    } else if lo >= a - lag {
      WholeWindowGranted(max, w, lo, a, lag);
      WorstIsGranted(max, Window(Some(lo), max), lo + MINUTE, a, lag);
    } else if lo > a - MINUTE - lag {
      if max - 1 + Future(max, lo + MINUTE, a, lag) >= Future(max, a - lag, a, lag) {
        CutWindowGranted(max, w, lo, a, lag);
        WorstIsGranted(max, Window(Some(lo), max), lo + MINUTE, a, lag);
      } else {
        WorstIsGranted(max, w, a - lag, a, lag);
      }
    } else {
      WorstIsGranted(max, w, a - MINUTE - lag + 1, a, lag);
    }
  }

  lemma WholeWindowGranted(max: nat, w: Window, lo: int, a: int, lag: nat)
    requires 0 < max && Over(w, lo) && a - lag <= lo < a + MINUTE
    ensures GrantsWithin(max, w, Worst(max, lo, a, lag), a) ==
            max + GrantsWithin(max, Window(Some(lo), max), Worst(max, lo + MINUTE, a, lag), a)
  {
    var t, tail := Attempt(lo, Max(lo, a)), Worst(max, lo + MINUTE, a, lag);
    var all := Worst(max, lo, a, lag);
    assert all == Burst(t, max) + tail;
    hide Worst;
    assert all[0] == t && all[1..] == Burst(t, max - 1) + tail;
    BurstIsGranted(max, Window(Some(lo), 1), t, max - 1, tail, a);
  }

  lemma CutWindowGranted(max: nat, w: Window, lo: int, a: int, lag: nat)
    requires 0 < max && Over(w, lo) && a - MINUTE - lag < lo < a - lag
    requires max - 1 + Future(max, lo + MINUTE, a, lag) >= Future(max, a - lag, a, lag)
    ensures GrantsWithin(max, w, Worst(max, lo, a, lag), a) ==
            max - 1 + GrantsWithin(max, Window(Some(lo), max), Worst(max, lo + MINUTE, a, lag), a)
  {
    var t, tail := Attempt(lo + MINUTE - 1, Max(lo + MINUTE - 1, a)), Worst(max, lo + MINUTE, a, lag);
    var all := Worst(max, lo, a, lag);
    assert all == [Attempt(lo, lo)] + Burst(t, max - 1) + tail;
    hide Worst, Future;
    assert all[0] == Attempt(lo, lo) && all[1..] == Burst(t, max - 1) + tail;
    BurstIsGranted(max, Window(Some(lo), 1), t, max - 1, tail, a);
  }

  /** These turns keep the lock order and the lag. */
  ghost predicate Proper(attempts: seq<Attempt>, lag: nat, from: int) {
    InLockOrder(attempts) && Lags(attempts, lag) && forall i :: 0 <= i < |attempts| ==> from <= attempts[i].locked
  }

  lemma ProperThen(front: seq<Attempt>, back: seq<Attempt>, lag: nat, from: int, mid: int)
    requires Proper(front, lag, from) && Proper(back, lag, mid) && from <= mid
    requires forall i :: 0 <= i < |front| ==> front[i].locked <= mid
    ensures Proper(front + back, lag, from)
  {
    var all := front + back;
    forall i, j | 0 <= i <= j < |all| ensures all[i].locked <= all[j].locked {
      if i < |front| <= j {
        assert all[j] == back[j - |front|];
      }
    }
  }

  lemma BurstProper(t: Attempt, n: nat, lag: nat)
    requires t.reading <= t.locked <= t.reading + lag
    ensures Proper(Burst(t, n), lag, t.locked)
  {
  }

  lemma {:induction false} WorstIsProper(max: nat, lo: int, a: int, lag: nat)
    requires 0 < max
    ensures Proper(Worst(max, lo, a, lag), lag, if lo >= a - lag then Max(lo, a) else lo)
    decreases a + MINUTE - lo
  {
    hide Proper, Future;
    if lo >= a + MINUTE {
      NoneProper(lag, Max(lo, a));
    } else if lo >= a - lag {
      var t := Attempt(lo, Max(lo, a));
      WorstIsProper(max, lo + MINUTE, a, lag);
      BurstProper(t, max, lag);
      ProperThen(Burst(t, max), Worst(max, lo + MINUTE, a, lag), lag, Max(lo, a), Max(lo + MINUTE, a));
    } else if lo > a - MINUTE - lag {
      WorstIsProper(max, a - lag, a, lag);
      ProperFrom(Worst(max, a - lag, a, lag), lag, Max(a - lag, a), lo);
      var t, tail := Attempt(lo + MINUTE - 1, Max(lo + MINUTE - 1, a)), Worst(max, lo + MINUTE, a, lag);
      WorstIsProper(max, lo + MINUTE, a, lag);
      BurstProper(t, max - 1, lag);
      BurstProper(Attempt(lo, lo), 1, lag);
      assert Burst(Attempt(lo, lo), 1) == [Attempt(lo, lo)];
      ProperThen([Attempt(lo, lo)], Burst(t, max - 1), lag, lo, t.locked);
      ProperThen([Attempt(lo, lo)] + Burst(t, max - 1), tail, lag, lo, Max(lo + MINUTE, a));
    } else {
      WorstIsProper(max, a - MINUTE - lag + 1, a, lag);
      ProperFrom(Worst(max, a - MINUTE - lag + 1, a, lag), lag, a - MINUTE - lag + 1, lo);
    }
  }

  lemma NoneProper(lag: nat, from: int)
    ensures Proper([], lag, from)
  {
  }

  lemma ProperFrom(attempts: seq<Attempt>, lag: nat, from: int, earlier: int)
    requires Proper(attempts, lag, from) && earlier <= from
    ensures Proper(attempts, lag, earlier)
  {
  }

  /** The bound is reached, for every limit and every lag. */
  lemma RateBoundIsTight(max: nat, a: int, lag: nat)
    requires 0 < max
    ensures var attempts := Worst(max, a - MINUTE - lag, a, lag);
            && InLockOrder(attempts) && Lags(attempts, lag)
            && GrantsWithin(max, CLOSED, attempts, a) == MinuteBound(max, lag)
  {
    hide Worst, Future;
    WorstIsProper(max, a - MINUTE - lag, a, lag);
    WorstIsGranted(max, CLOSED, a - MINUTE - lag, a, lag);
    FutureIsBound(max, a, lag);
  }

  // --------------------------------------------------------- stale clock readings

  /** The clock is read before the lock is taken. Less than twice the limit in every minute of
      every run: that holds if and only if reading and lock are one instant. */
  lemma PromptExactly(max: nat, lag: nat)
    requires 0 < max
    ensures (forall attempts, a :: InLockOrder(attempts) && Lags(attempts, lag) ==>
               GrantsWithin(max, CLOSED, attempts, a) <= 2 * max - 1)
            <==> lag == 0
  {
    hide InLockOrder, Lags, Worst, GrantsWithin;
    if lag == 0 {
      forall attempts, a | InLockOrder(attempts) && Lags(attempts, lag)
        ensures GrantsWithin(max, CLOSED, attempts, a) <= 2 * max - 1
      {
        RateBound(max, attempts, a, lag);
      }
    } else {
      var a := MINUTE + lag;
      RateBoundIsTight(max, a, lag);
      assert WholeWindows(lag) >= 2;
      assert MinuteBound(max, lag) >= 2 * max by {
        BoundGrows(max, WholeWindows(lag));
        BoundGrows(max, AllWindows(lag));
      }
      assert !(GrantsWithin(max, CLOSED, Worst(max, a - MINUTE - lag, a, lag), a) <= 2 * max - 1);
    }
  }

  lemma BoundGrows(max: nat, n: nat)
    requires 0 < max
    ensures n >= 2 ==> n * max >= 2 * max
    ensures n >= 3 ==> n * max - 1 >= 2 * max
  {
    if n >= 3 {
      assert n * max == (n - 3) * max + 3 * max;
    } else if n == 2 {
      assert n * max == 2 * max;
    }
  }

  const STALE := [Attempt(0, 2 * MINUTE), Attempt(MINUTE, 2 * MINUTE), Attempt(2 * MINUTE, 2 * MINUTE)]

  /** A run that escapes: limit one, three turns that read the clock a minute apart and then
      hold the lock in the same instant. */
  lemma StaleReadingsEscape()
    ensures InLockOrder(STALE) && Lags(STALE, 2 * MINUTE) && GrantsWithin(1, CLOSED, STALE, 2 * MINUTE) == 3
  {
    var later, last := STALE[1..], STALE[2..];
    assert later[1..] == last && later[0] == Attempt(MINUTE, 2 * MINUTE) && last[0] == Attempt(2 * MINUTE, 2 * MINUTE);
    assert GrantsWithin(1, Window(Some(MINUTE), 1), last, 2 * MINUTE) == 1;
    assert GrantsWithin(1, Window(Some(0), 1), later, 2 * MINUTE) == 2;
  }
}
