/** The two-level limiter: a global slot, then a slot of the caller's key, then two fixed-window
    rates. First one call by itself, then any number of calls in any order of their steps. */
module Limiter {
  import opened Text
  import opened RateLimit

  const ANONYMOUS := "anonymous"

  function NormalKey(key: string): string {
    if TrimSpace(key) == "" then ANONYMOUS else TrimSpace(key)
  }

  /** Callers without a name share one key; spaces around a name do not count. */
  lemma KeysNormalised(key: string)
    ensures Blank(key) ==> NormalKey(key) == "anonymous"
    ensures !Blank(key) ==> NormalKey(key) == TrimSpace(key)
    ensures NormalKey(NormalKey(key)) == NormalKey(key)
  {
    TrimSpaceFacts(key);
    TrimSpaceFacts("anonymous");
    assert "anonymous"[8] == 's';
    assert TrimLeft("anonymous") == "anonymous" && TrimRight("anonymous") == "anonymous";
  }

  datatype Limits = Limits(slots: nat, keySlots: nat, rate: nat, keyRate: nat)

  /** Unset limits get defaults; the limits of a key default to the global ones. */
  function LimitsOf(slots: int, keySlots: int, rate: int, keyRate: int): (l: Limits)
    ensures l.slots > 0 && l.keySlots > 0 && l.rate > 0 && l.keyRate > 0
    ensures slots <= 0 ==> l.slots == 10
    ensures rate <= 0 ==> l.rate == 60
    ensures slots > 0 ==> l.slots == slots
    ensures rate > 0 ==> l.rate == rate
    ensures l.keySlots == (if keySlots > 0 then keySlots else l.slots) && l.keyRate == (if keyRate > 0 then keyRate else l.rate)
  {
    var s: nat := if slots <= 0 then 10 else slots;
    var r: nat := if rate <= 0 then 60 else rate;
    Limits(s, if keySlots <= 0 then s else keySlots, r, if keyRate <= 0 then r else keyRate)
  }

  /** A channel used as a counting semaphore holds this many tokens; keys not seen yet none. */
  function Tokens(keys: map<string, nat>, key: string): nat {
    if key in keys then keys[key] else 0
  }

  function KeyWindow(windows: map<string, Window>, key: string): Window {
    if key in windows then windows[key] else CLOSED
  }

  /** Taking a token back; the `default` arm leaves an empty channel alone. */
  function Returned(tokens: nat): nat {
    if tokens > 0 then tokens - 1 else tokens
  }

  // --------------------------------------------------------------------- one call

  datatype Result = Answered | Cancelled | RateLimited | TooLarge | Blocked

  /** What a call meets: whether it passes the checks, whether its context is cancelled at one
      of the waits, and the clock readings of the two rate limiters. */
  datatype Fate = Fate(
    fits: bool, allowed: bool,
    cancelSlot: bool, cancelKey: bool,
    readings: seq<int>, keyReadings: seq<int>)

  /** Both rates grant one of the turns. */
  predicate Pays(fate: Fate, limits: Limits, window: Window, keyWindow: Window) {
    GetsGrant(limits.rate, window, fate.readings) && GetsGrant(limits.keyRate, keyWindow, fate.keyReadings)
  }

  class Client {
    const limits: Limits
    var slots: nat
    var keys: map<string, nat>
    const limiter: MinuteLimiter
    var limiters: map<string, MinuteLimiter>
    /** Requests handed to the HTTP library. */
    var sent: nat

    ghost predicate Valid()
      reads this, limiter, limiters.Values
    {
      && slots <= limits.slots
      && (forall k :: k in keys ==> keys[k] <= limits.keySlots)
      && limiter.max == limits.rate && limits.keyRate > 0
      && (forall k :: k in limiters ==> limiters[k] != limiter && limiters[k].max == limits.keyRate)
      && (forall k, l :: k in limiters && l in limiters && k != l ==> limiters[k] != limiters[l])
    }

    ghost function KeyWindow(key: string): Window
      reads this`limiters, limiters.Values
    {
      if key in limiters then limiters[key].window else CLOSED
    }

    constructor (slots: int, keySlots: int, rate: int, keyRate: int)
      ensures limits == LimitsOf(slots, keySlots, rate, keyRate)
      ensures Valid() && fresh(limiter) && this.slots == 0 && keys == map[] && limiters == map[] && sent == 0
      ensures limiter.window == CLOSED
    {
      limits := LimitsOf(slots, keySlots, rate, keyRate);
      this.slots, keys, limiters, sent := 0, map[], map[], 0;
      limiter := new MinuteLimiter(LimitsOf(slots, keySlots, rate, keyRate).rate);
    }

    /** Both slots, or none. A full channel is waited for until the cancellation. */
    method Acquire(key: string, cancelSlot: bool, cancelKey: bool) returns (ok: bool)
      requires slots <= limits.slots && forall k :: k in keys ==> keys[k] <= limits.keySlots
      requires cancelSlot || slots < limits.slots
      requires cancelKey || Tokens(keys, key) < limits.keySlots
      modifies this`slots, this`keys
      ensures ok == (!cancelSlot && !cancelKey)
      ensures slots == old(slots) + (if ok then 1 else 0) <= limits.slots
      ensures forall k :: Tokens(keys, k) == Tokens(old(keys), k) + (if ok && k == key then 1 else 0)
      ensures forall k :: k in keys ==> keys[k] <= limits.keySlots
    {
      if cancelSlot {
        return false;
      }
      slots := slots + 1;
      if key !in keys {
        keys := keys[key := 0];
      }
      if cancelKey {
        ReleaseSlot();
        return false;
      }
      keys := keys[key := keys[key] + 1];
      ok := true;
    }

    method ReleaseSlot()
      modifies this`slots
      ensures slots == Returned(old(slots))
    {
      if slots > 0 {
        slots := slots - 1;
      }
    }

    method ReleaseKey(key: string)
      modifies this`keys
      ensures forall k :: Tokens(keys, k) == if k == key then Returned(Tokens(old(keys), k)) else Tokens(old(keys), k)
      ensures forall k :: k in keys ==> k == key || k in old(keys)
      ensures forall k :: k in keys ==> keys[k] == Tokens(keys, k)
    {
      if key !in keys {
        keys := keys[key := 0];
      }
      if keys[key] > 0 {
        keys := keys[key := keys[key] - 1];
      }
    }

    /** The limiter of a key, created when the key is first seen. */
    method LimiterFor(key: string) returns (found: MinuteLimiter)
      requires Valid()
      modifies this`limiters
      ensures Valid() && key in limiters && limiters[key] == found
      ensures found != limiter
      ensures forall k :: KeyWindow(k) == old(KeyWindow(k))
      ensures forall k :: k in limiters ==>
                (k in old(limiters) && limiters[k] == old(limiters)[k]) || (k == key && fresh(limiters[k]))
    {
      if key in limiters {
        return limiters[key];
      }
      assert forall k :: k in limiters ==> limiters[k] in limiters.Values;
      found := new MinuteLimiter(limits.keyRate);
      assert found !in old(limiters.Values) && found != limiter;
      limiters := limiters[key := found];
    }

    /** Both rates, the global one first. */
    method Charge(key: string, fate: Fate) returns (granted: bool)
      requires Valid() && fate.readings != [] && fate.keyReadings != []
      modifies this`limiters, limiter, limiters.Values
      ensures Valid()
      ensures granted ==>
                && Leads(limits.rate, old(limiter.window), 1, limiter.window)
                && Leads(limits.keyRate, old(KeyWindow(key)), 1, KeyWindow(key))
      ensures granted == Pays(fate, limits, old(limiter.window), old(KeyWindow(key)))
      ensures !granted ==>
                || (Leads(limits.rate, old(limiter.window), 0, limiter.window) && KeyWindow(key) == old(KeyWindow(key)))
                || (Leads(limits.rate, old(limiter.window), 1, limiter.window) &&
                    Leads(limits.keyRate, old(KeyWindow(key)), 0, KeyWindow(key)))
      ensures forall k :: k != key ==> KeyWindow(k) == old(KeyWindow(k))
    {
      hide Leads, GetsGrant;
      assert fate.readings[..|fate.readings|] == fate.readings && fate.keyReadings[..|fate.keyReadings|] == fate.keyReadings;
      assert limiter !in limiters.Values;
      var turns;
      granted, turns := limiter.Wait(fate.readings, |fate.readings| - 1);
      WaitLeads(limits.rate, old(limiter.window), fate.readings[..turns], granted);
      assert forall k :: KeyWindow(k) == old(KeyWindow(k));
      if granted {
        var keyLimiter := LimiterFor(key);
        assert KeyWindow(key) == old(KeyWindow(key)) == keyLimiter.window;
        granted, turns := keyLimiter.Wait(fate.keyReadings, |fate.keyReadings| - 1);
        WaitLeads(limits.keyRate, old(KeyWindow(key)), fate.keyReadings[..turns], granted);
      }
    }

    /** With both slots held: the rates, the sending, and giving both slots back. */
    method Serve(key: string, fate: Fate) returns (result: Result)
      requires Valid() && slots > 0 && Tokens(keys, key) > 0 && fate.readings != [] && fate.keyReadings != []
      modifies this, limiter, limiters.Values
      ensures Valid()
      ensures slots == old(slots) - 1
      ensures forall k :: Tokens(keys, k) == Tokens(old(keys), k) - (if k == key then 1 else 0)
      ensures result == if Pays(fate, limits, old(limiter.window), old(KeyWindow(key))) then Answered else RateLimited
      ensures sent == old(sent) + if result.Answered? then 1 else 0
      ensures result.Answered? ==>
                && Leads(limits.rate, old(limiter.window), 1, limiter.window)
                && Leads(limits.keyRate, old(KeyWindow(key)), 1, KeyWindow(key))
      ensures forall k :: k != key ==> KeyWindow(k) == old(KeyWindow(k))
    {
      hide TrimSpace, Leads, NormalKey, Pays;
      var granted := Charge(key, fate);
      if granted {
        sent := sent + 1;
      }
      ReleaseKey(key);
      ReleaseSlot();
      result := if granted then Answered else RateLimited;
    }

    /** `Do`: whatever happens, both slots are back afterwards; a request goes out only after
        one grant of the global rate and one of the key's, and no other key is charged. */
    method Do(rawKey: string, fate: Fate) returns (result: Result)
      requires Valid()
      requires fate.cancelSlot || slots < limits.slots
      requires fate.cancelKey || Tokens(keys, NormalKey(rawKey)) < limits.keySlots
      requires fate.readings != [] && fate.keyReadings != []
      modifies this, limiter, limiters.Values
      ensures Valid()
      ensures slots == old(slots) && forall k :: Tokens(keys, k) == Tokens(old(keys), k)
      ensures result ==
              if !fate.fits then TooLarge else if !fate.allowed then Blocked
              else if fate.cancelSlot || fate.cancelKey then Cancelled
              else if Pays(fate, limits, old(limiter.window), old(KeyWindow(NormalKey(rawKey)))) then Answered
              else RateLimited
      ensures sent == old(sent) + if result.Answered? then 1 else 0
      ensures result.Answered? ==>
                && Leads(limits.rate, old(limiter.window), 1, limiter.window)
                && Leads(limits.keyRate, old(KeyWindow(NormalKey(rawKey))), 1, KeyWindow(NormalKey(rawKey)))
      ensures result.TooLarge? || result.Blocked? || result.Cancelled? ==>
                limiter.window == old(limiter.window) && forall k :: KeyWindow(k) == old(KeyWindow(k))
      ensures forall k :: k != NormalKey(rawKey) ==> KeyWindow(k) == old(KeyWindow(k))
    {
      hide TrimSpace, Leads, NormalKey, Pays;
      if !fate.fits {
        return TooLarge;
      }
      if !fate.allowed {
        return Blocked;
      }
      var key := NormalKey(rawKey);
      var ok := Acquire(key, fate.cancelSlot, fate.cancelKey);
      if !ok {
        return Cancelled;
      }
      result := Serve(key, fate);
    }
  }
}
