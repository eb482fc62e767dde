/** The fixed-window limiter: the locked section, the waiting loop, and the windows it opens. */
module RateLimit {
  import opened Text

  /** In nanoseconds, the unit of the clock. */
  const MINUTE: int := 60_000_000_000
  const DEFAULT_LIMIT: nat := 60

  /** The open window, if any, and the grants it has given. */
  datatype Window = Window(start: Option<int>, count: nat)

  const CLOSED := Window(None, 0)

  /** The locked section for a clock reading: the window after it, and whether it grants. */
  function Tick(max: nat, w: Window, now: int): (Window, bool) {
    var open := if w.start.None? || now - w.start.value >= MINUTE then Window(Some(now), 0) else w;
    if open.count < max then (open.(count := open.count + 1), true) else (open, false)
  }

  /** The window after a row of attempts. */
  function After(max: nat, w: Window, readings: seq<int>): Window
    decreases readings
  {
    if readings == [] then w else After(max, Tick(max, w, readings[0]).0, readings[1..])
  }

  /** Which attempts were granted. */
  function Granted(max: nat, w: Window, readings: seq<int>): (flags: seq<bool>)
    ensures |flags| == |readings|
    decreases readings
  {
    if readings == [] then []
    else [Tick(max, w, readings[0]).1] + Granted(max, Tick(max, w, readings[0]).0, readings[1..])
  }

  function Count(flags: seq<bool>): nat {
    if flags == [] then 0 else (if flags[0] then 1 else 0) + Count(flags[1..])
  }

  class MinuteLimiter {
    const max: nat
    var window: Window

    constructor (limit: int)
      ensures max == (if limit <= 0 then 60 else limit) && max > 0
      ensures window == CLOSED
    {
      max := if limit <= 0 then DEFAULT_LIMIT else limit;
      window := CLOSED;
    }

    /** One turn of the loop. After a refusal there is always something to wait for. */
    method Attempt(now: int) returns (granted: bool, waitFor: int)
      modifies this
      ensures (window, granted) == Tick(max, old(window), now)
      ensures !granted ==> waitFor > 0 && window.start == Some(now + waitFor - MINUTE)
    {
      if window.start.None? || now - window.start.value >= MINUTE {
        window := Window(Some(now), 0);
      }
      if window.count < max {
        window := window.(count := window.count + 1);
        return true, 0;
      }
      granted := false;
      waitFor := window.start.value + MINUTE - now;
    }

    /** `Wait`: `readings` are the clock at each turn; the context is cancelled while waiting
        after turn `cancelled`. It takes one grant, in its last turn, or none. */
    method Wait(readings: seq<int>, cancelled: nat) returns (ok: bool, turns: nat)
      requires cancelled < |readings|
      modifies this
      ensures 0 < turns <= cancelled + 1
      ensures window == After(max, old(window), readings[..turns])
      ensures Granted(max, old(window), readings[..turns]) == OnlyLast(turns, ok)
      ensures ok == GetsGrant(max, old(window), readings[..cancelled + 1])
    {
      turns := 0;
      ok := false;
      while true
        invariant turns <= cancelled
        invariant window == After(max, old(window), readings[..turns])
        invariant Granted(max, old(window), readings[..turns]) == OnlyLast(turns, false)
        decreases cancelled - turns
      {
        var granted, waitFor := Attempt(readings[turns]);
        OneMore(max, old(window), readings[..turns], readings[turns]);
        assert readings[..turns] + [readings[turns]] == readings[..turns + 1];
        turns := turns + 1;
        if granted {
          assert readings[..cancelled + 1][..turns] == readings[..turns];
          GrantedAtLast(max, old(window), readings[..cancelled + 1], turns);
          return true, turns;
        }
        if turns == cancelled + 1 {
          return false, turns;
        }
      }
    }
  }

  /** Some turn of the row is granted. */
  predicate GetsGrant(max: nat, w: Window, readings: seq<int>) {
    exists i :: 0 <= i < |readings| && Granted(max, w, readings)[i]
  }

  /** What is granted in the first turns is granted in the whole row. */
  lemma {:induction false} GrantedEarly(max: nat, w: Window, readings: seq<int>, n: nat)
    requires n <= |readings|
    ensures Granted(max, w, readings[..n]) == Granted(max, w, readings)[..n]
    decreases readings
  {
    if n > 0 {
      assert readings[..n][1..] == readings[1..][..n - 1];
      GrantedEarly(max, Tick(max, w, readings[0]).0, readings[1..], n - 1);
    }
  }

  lemma GrantedAtLast(max: nat, w: Window, readings: seq<int>, n: nat)
    requires 0 < n <= |readings| && Granted(max, w, readings[..n]) == OnlyLast(n, true)
    ensures GetsGrant(max, w, readings)
  {
    GrantedEarly(max, w, readings, n);
    assert Granted(max, w, readings)[..n][n - 1];
    assert Granted(max, w, readings)[n - 1];
  }

  /** `n` attempts of which the last may succeed. */
  function OnlyLast(n: nat, ok: bool): seq<bool> {
    seq(n, i => ok && i == n - 1)
  }

  /** Some attempts lead from one window to the other and `n` of them are granted. */
  ghost predicate Leads(max: nat, before: Window, n: nat, after: Window) {
    exists readings :: After(max, before, readings) == after && Count(Granted(max, before, readings)) == n
  }

  lemma WaitLeads(max: nat, before: Window, readings: seq<int>, ok: bool)
    requires Granted(max, before, readings) == OnlyLast(|readings|, ok)
    requires readings != []
    ensures Leads(max, before, if ok then 1 else 0, After(max, before, readings))
  {
    CountLast(|readings|, ok);
  }

  lemma {:induction false} CountLast(n: nat, ok: bool)
    requires n > 0
    ensures Count(OnlyLast(n, ok)) == if ok then 1 else 0
  {
    var flags := OnlyLast(n, ok);
    if n > 1 {
      assert flags[1..] == OnlyLast(n - 1, ok);
      CountLast(n - 1, ok);
    } else {
      assert flags[1..] == [];
    }
  }

  lemma {:induction false} OneMore(max: nat, w: Window, readings: seq<int>, now: int)
    ensures After(max, w, readings + [now]) == Tick(max, After(max, w, readings), now).0
    ensures Granted(max, w, readings + [now]) == Granted(max, w, readings) + [Tick(max, After(max, w, readings), now).1]
    decreases readings
  {
    hide Tick;
    var all := readings + [now];
    if readings == [] {
      assert all[1..] == [];
    } else {
      assert all[0] == readings[0] && all[1..] == readings[1..] + [now];
      OneMore(max, Tick(max, w, readings[0]).0, readings[1..], now);
    }
  }

  // -------------------------------------------------------------------- windows

  /** The starts of the windows that a run opens. */
  function Opened(max: nat, w: Window, readings: seq<int>): seq<int>
    decreases readings
  {
    if readings == [] then []
    else
      var next := Tick(max, w, readings[0]).0;
      (if next.start != w.start then [readings[0]] else []) + Opened(max, next, readings[1..])
  }

  ghost predicate MinutesApart(starts: seq<int>) {
    forall i :: 0 <= i < |starts| - 1 ==> starts[i + 1] - starts[i] >= MINUTE
  }

  /** The starts from a window on. */
  function Starts(w: Window, later: seq<int>): seq<int> {
    if w.start.Some? then [w.start.value] + later else later
  }

  lemma OneMoreStart(s: int, later: seq<int>)
    requires MinutesApart(later) && (later != [] ==> later[0] - s >= MINUTE)
    ensures MinutesApart([s] + later)
  {
    var all := [s] + later;
    assert forall i :: 0 < i < |all| ==> all[i] == later[i - 1];
  }

  /** Windows start at least a minute apart, whatever the clock readings are. */
  lemma {:induction false} WindowsApart(max: nat, w: Window, readings: seq<int>)
    ensures MinutesApart(Starts(w, Opened(max, w, readings)))
    decreases readings
  {
    if readings != [] {
      var next := Tick(max, w, readings[0]).0;
      var later := Opened(max, next, readings[1..]);
      WindowsApart(max, next, readings[1..]);
      hide MinutesApart, Opened;
      OpenedStep(max, w, readings);
      if next.start != w.start && w.start.Some? {
        OneMoreStart(w.start.value, [readings[0]] + later);
      }
    }
  }

  lemma OpenedStep(max: nat, w: Window, readings: seq<int>)
    requires readings != []
    ensures var next := Tick(max, w, readings[0]).0;
            var later := Opened(max, next, readings[1..]);
            Opened(max, w, readings) == if next.start != w.start then [readings[0]] + later else later
  {
  }

  /** A window grants at most `max`: over any run, the grants fit into the windows. */
  lemma {:induction false} GrantsFitWindows(max: nat, w: Window, readings: seq<int>)
    requires w.count <= max
    ensures After(max, w, readings).count <= max
    ensures w.count + Count(Granted(max, w, readings)) <= max * (|Opened(max, w, readings)| + 1)
    decreases readings
  {
    if readings != [] {
      var (next, granted) := Tick(max, w, readings[0]);
      GrantsFitWindows(max, next, readings[1..]);
      var rest := |Opened(max, next, readings[1..])|;
      assert max * (rest + 1 + 1) == max * (rest + 1) + max;
      assert Granted(max, w, readings)[1..] == Granted(max, next, readings[1..]);
      assert next.count >= (if granted then 1 else 0);
    }
  }

  /** The length of a window, to the nanosecond. */
  lemma WindowLength(t: int)
    ensures Granted(1, CLOSED, [t, t + 59_999_999_999, t + 60_000_000_000]) == [true, false, true]
  {
    var w := Window(Some(t), 1);
    assert [t, t + 59_999_999_999, t + 60_000_000_000][1..] == [t + 59_999_999_999, t + 60_000_000_000];
    assert [t + 59_999_999_999, t + 60_000_000_000][1..] == [t + 60_000_000_000];
    assert Granted(1, w, [t + 60_000_000_000]) == [true];
    assert Granted(1, w, [t + 59_999_999_999, t + 60_000_000_000]) == [false, true];
  }
}
