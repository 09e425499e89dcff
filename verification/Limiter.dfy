/** The fixed-window login limiter: an incremented counter whose key Redis expires. Time is in milliseconds; the client
    sets and reads lifetimes in whole seconds. */
module Limiter {
  import opened Outcomes

  /** A Redis counter; `expiresAt` is None for a key without a TTL. */
  datatype Counter = Counter(count: nat, expiresAt: Option<nat>)

  /** How one command went: answered, never executed, or executed without an answer. */
  datatype Command = Answered | Failed | Lost

  datatype Faults = Faults(incr: Command, expire: Command, ttl: Command)

  const NO_FAULTS := Faults(Answered, Answered, Answered)

  // ---- Redis ----

  /** The key as Redis sees it at time `now`. */
  function At(c: Option<Counter>, now: nat): Option<Counter> {
    if c.Some? && c.value.expiresAt.Some? && c.value.expiresAt.value <= now then None else c
  }

  function Incremented(c: Option<Counter>, now: nat): Counter {
    match At(c, now)
    case None => Counter(1, None)
    case Some(k) => k.(count := k.count + 1)
  }

  /** EXPIRE is sent in whole seconds: a window below one second becomes one second, any other is cut. */
  function Lifetime(window: nat): nat {
    if 0 < window < 1000 then 1000 else window / 1000 * 1000
  }

  /** TTL replies with the nearest whole second. */
  function Rounded(remaining: nat): nat {
    (remaining + 500) / 1000 * 1000
  }

  // ---- one attempt ----

  datatype Decision = Decision(counter: Option<Counter>, allowed: bool, retryAfter: nat, error: bool)

  function Decide(c: Option<Counter>, limit: int, window: nat, now: nat, f: Faults): Decision {
    if f.incr == Failed then Decision(c, true, 0, true)
    else
      var k := Incremented(c, now);
      if f.incr == Lost then Decision(Some(k), true, 0, true)
      else
        var e := if k.count == 1 && f.expire != Failed then k.(expiresAt := Some(now + Lifetime(window))) else k;
        if k.count == 1 && f.expire != Answered then Decision(Some(e), true, 0, true)
        else if k.count <= limit then Decision(Some(e), true, 0, false)
        else
          var ttl := if f.ttl != Answered || At(Some(e), now).None? || e.expiresAt.None? then window
                     else Rounded(e.expiresAt.value - now);
          Decision(Some(e), false, ttl, false)
  }

  class RedisLimiter {
    var counters: map<string, Counter>
    const prefix: string

    constructor ()
      ensures counters == map[] && prefix == "ratelimit:"
    {
      counters, prefix := map[], "ratelimit:";
    }

    function CounterOf(key: string): Option<Counter>
      reads this
    {
      if prefix + key in counters then Some(counters[prefix + key]) else None
    }

    method Incr(key: string, now: nat) returns (count: nat)
      modifies this
      ensures counters == old(counters)[prefix + key := Incremented(old(CounterOf(key)), now)]
      ensures count == counters[prefix + key].count
    {
      var k := Incremented(CounterOf(key), now);
      counters := counters[prefix + key := k];
      count := k.count;
    }

    /** Only this key's counter changes, and it changes as one attempt decides. */
    method Allow(key: string, limit: int, window: nat, now: nat, f: Faults) returns (allowed: bool, retryAfter: nat, error: bool)
      modifies this
      ensures var d := Decide(old(CounterOf(key)), limit, window, now, f);
        CounterOf(key) == d.counter && allowed == d.allowed && retryAfter == d.retryAfter && error == d.error
      ensures forall k :: k != prefix + key ==>
        (k in counters <==> k in old(counters)) && (k in counters ==> counters[k] == old(counters)[k])
      ensures error ==> allowed
    {
      if f.incr == Failed {
        return true, 0, true;
      }
      var count := Incr(key, now);
      if f.incr == Lost {
        return true, 0, true;
      }
      if count == 1 {
        if f.expire != Failed {
          counters := counters[prefix + key := counters[prefix + key].(expiresAt := Some(now + Lifetime(window)))];
        }
        if f.expire != Answered {
          return true, 0, true;
        }
      }
      if count <= limit {
        return true, 0, false;
      }
      var k := counters[prefix + key];
      var ttl: int := -1;
      if k.expiresAt.Some? && k.expiresAt.value > now {
        ttl := Rounded(k.expiresAt.value - now);
      }
      if f.ttl != Answered || ttl < 0 {
        ttl := window;
      }
      return false, ttl, false;
    }

    method Reset(key: string)
      modifies this
      ensures CounterOf(key) == None
      ensures forall k :: k != prefix + key ==>
        (k in counters <==> k in old(counters)) && (k in counters ==> counters[k] == old(counters)[k])
    {
      counters := counters - {prefix + key};
    }
  }

  // ---- runs without faults ----

  predicate Monotone(times: seq<nat>) {
    forall i, j :: 0 <= i < j < |times| ==> times[i] <= times[j]
  }

  /** What is decided about the last of these attempts. */
  function Last(times: seq<nat>, limit: int, window: nat): Decision
    requires |times| > 0
  {
    var n := |times| - 1;
    Decide(if n == 0 then None else Last(times[..n], limit, window).counter, limit, window, times[n], NO_FAULTS)
  }

  /** Where the window of the last attempt began: it reaches back to its first attempt and no further than `window`. */
  function WindowStart(times: seq<nat>, window: nat): (s: nat)
    requires |times| > 0
    ensures s < |times|
  {
    if |times| == 1 then 0
    else
      var s := WindowStart(times[..|times| - 1], window);
      if times[|times| - 1] < times[s] + window then s else |times| - 1
  }

  /** How many attempts were admitted at times in [from, to). */
  function Admitted(times: seq<nat>, limit: int, window: nat, from: nat, to: nat): nat {
    if |times| == 0 then 0
    else
      var i := |times| - 1;
      Admitted(times[..i], limit, window, from, to)
      + if Last(times, limit, window).allowed && from <= times[i] < to then 1 else 0
  }

  /** One attempt without faults: it counts in an open window and opens a new one otherwise. */
  lemma AttemptCounts(c: Option<Counter>, limit: int, window: nat, now: nat)
    requires window > 0 && (c.Some? ==> c.value.count > 0 && c.value.expiresAt.Some?)
    ensures var d := Decide(c, limit, window, now, NO_FAULTS);
      if c.Some? && now < c.value.expiresAt.value then
        d.counter == Some(Counter(c.value.count + 1, c.value.expiresAt)) && (d.allowed <==> c.value.count + 1 <= limit)
      else
        d.counter == Some(Counter(1, Some(now + Lifetime(window)))) && (d.allowed <==> 1 <= limit)
  {
    hide Lifetime, Rounded;
  }

  /** A first attempt without faults leaves a counter that lives for exactly its window if that is whole seconds, for less
      than a second less if it is not, and for one second if it is shorter than that. */
  lemma FirstAttemptExpires(c: Option<Counter>, limit: int, window: nat, now: nat)
    requires c.None? || (c.value.expiresAt.Some? && c.value.expiresAt.value <= now)
    ensures var k := Decide(c, limit, window, now, NO_FAULTS).counter;
      && k.Some? && k.value.count == 1 && k.value.expiresAt.Some?
      && (window % 1000 == 0 ==> k.value.expiresAt.value == now + window)
      && (window >= 1000 ==> now + window - 1000 < k.value.expiresAt.value <= now + window)
      && (0 < window < 1000 ==> k.value.expiresAt.value == now + 1000)
  {
    assert window == 1000 * (window / 1000) + window % 1000;
  }

  lemma WholeSeconds(window: nat)
    requires window % 1000 == 0
    ensures Lifetime(window) == window
  {
    assert window == 1000 * (window / 1000) + window % 1000;
  }

  /** Under every combination of faults: only an answered INCR can deny, an error never does, a denial without a readable
      TTL asks to wait a whole window, and only an INCR that was not executed leaves the counter alone. */
  lemma DecisionUnderFaults(c: Option<Counter>, limit: int, window: nat, now: nat, f: Faults)
    ensures var d := Decide(c, limit, window, now, f);
      var gone := c.None? || (c.value.expiresAt.Some? && c.value.expiresAt.value <= now);
      var count := if gone then 1 else c.value.count + 1;
      && (d.error <==> f.incr != Answered || (count == 1 && f.expire != Answered))
      && (d.allowed <==> d.error || count <= limit)
      && (d.allowed ==> d.retryAfter == 0)
      && (f.incr == Failed ==> d.counter == c)
      && (f.incr != Failed ==> d.counter.Some? && d.counter.value.count == count)
      && (f.incr != Failed && count > 1 ==> d.counter.value.expiresAt == c.value.expiresAt)
      && (f.incr == Lost && count == 1 && gone ==> d.counter.value.expiresAt == None)
      && (!d.allowed && (f.ttl != Answered || d.counter.value.expiresAt.None?) ==> d.retryAfter == window)
  {
    hide Lifetime, Rounded;
  }

  lemma PrefixMonotone(times: seq<nat>, n: nat)
    requires Monotone(times) && n <= |times|
    ensures Monotone(times[..n])
  {}

  /** The counter is the position in the window, so each window admits its first `limit` attempts and no others. */
  lemma {:induction false} CounterIsPosition(times: seq<nat>, limit: int, window: nat)
    requires |times| > 0 && window > 0 && Monotone(times)
    ensures var s := WindowStart(times, Lifetime(window)); var n := |times| - 1;
      && Last(times, limit, window).counter == Some(Counter(|times| - s, Some(times[s] + Lifetime(window))))
      && times[n] < times[s] + Lifetime(window)
      && (Last(times, limit, window).allowed <==> n - s < limit)
  {
    assert Lifetime(window) > 0;
    hide Decide, Lifetime;
    var n := |times| - 1;
    if n > 0 {
      PrefixMonotone(times, n);
      hide Monotone;
      CounterIsPosition(times[..n], limit, window);
      AttemptCounts(Last(times[..n], limit, window).counter, limit, window, times[n]);
    } else {
      AttemptCounts(None, limit, window, times[n]);
    }
  }

  /** What has been admitted in an interval of one window's length, by where the current window began. */
  predicate Bounded(times: seq<nat>, limit: int, window: nat, from: nat) {
    var a := Admitted(times, limit, window, from, from + Lifetime(window));
    if limit <= 0 || |times| == 0 then a == 0
    else
      var s := WindowStart(times, Lifetime(window));
      var used := if |times| - s < limit then |times| - s else limit;
      if times[|times| - 1] < from then a == 0
      else if times[s] < from then a <= used - 1
      else if times[s] < from + Lifetime(window) then a <= limit - 1 + used
      else a <= 2 * limit - 1
  }

  lemma {:induction false} StaysBounded(times: seq<nat>, limit: int, window: nat, from: nat)
    requires Monotone(times) && window > 0
    ensures Bounded(times, limit, window, from)
  {
    if |times| > 0 {
      var n := |times| - 1;
      StaysBounded(times[..n], limit, window, from);
      CounterIsPosition(times, limit, window);
      if n > 0 {
        var s := WindowStart(times[..n], Lifetime(window));
        assert times[..n][s] == times[s] && times[s] <= times[n];
      }
    }
  }

  /** Any half-open interval as long as a window lives admits at most 2 * limit - 1 attempts, one fewer than two windows. */
  lemma IntervalBound(times: seq<nat>, limit: nat, window: nat, from: nat)
    requires Monotone(times) && window > 0
    ensures Admitted(times, limit, window, from, from + Lifetime(window)) <= if limit == 0 then 0 else 2 * limit - 1
  {
    StaysBounded(times, limit, window, from);
  }

  /** For windows of whole seconds, such as the quarter of an hour of the login limits: an attempt is admitted exactly if
      it is among the first `limit` of its window, and any half-open interval of a window's length admits at most
      2 * limit - 1. */
  lemma WholeSecondWindows(times: seq<nat>, limit: nat, window: nat, from: nat)
    requires Monotone(times) && window > 0 && window % 1000 == 0
    ensures Admitted(times, limit, window, from, from + window) <= if limit == 0 then 0 else 2 * limit - 1
    ensures |times| > 0 ==> var s, n := WindowStart(times, window), |times| - 1;
      && times[s] <= times[n] < times[s] + window
      && Last(times, limit, window).counter == Some(Counter(n - s + 1, Some(times[s] + window)))
      && (Last(times, limit, window).allowed <==> n - s < limit)
  {
    WholeSeconds(window);
    IntervalBound(times, limit, window, from);
    hide Admitted;
    if |times| > 0 {
      CounterIsPosition(times, limit, window);
    }
  }

  // ---- the bound is reached ----

  function Repeat(n: nat, time: nat): (r: seq<nat>)
    ensures |r| == n && forall i :: 0 <= i < n ==> r[i] == time
  {
    seq(n, _ => time)
  }

  lemma MonotonePrefix(a: seq<nat>, b: seq<nat>)
    requires Monotone(a + b)
    ensures Monotone(a)
  {
    assert forall i :: 0 <= i < |a| ==> (a + b)[i] == a[i];
  }

  /** One more attempt in a window that is still open and not used up is admitted. */
  lemma OneMore(times: seq<nat>, time: nat, limit: nat, window: nat, from: nat)
    requires |times| > 0 && Monotone(times + [time]) && window > 0
    requires var s := WindowStart(times, Lifetime(window)); time < times[s] + Lifetime(window) && |times| - s < limit
    requires from <= time < from + Lifetime(window)
    ensures WindowStart(times + [time], Lifetime(window)) == WindowStart(times, Lifetime(window))
    ensures Admitted(times + [time], limit, window, from, from + Lifetime(window))
      == Admitted(times, limit, window, from, from + Lifetime(window)) + 1
  {
    var all := times + [time];
    assert all[..|all| - 1] == times;
    CounterIsPosition(all, limit, window);
  }

  /** `n` further attempts in a window that is still open. */
  lemma {:induction false} MoreInWindow(times: seq<nat>, n: nat, time: nat, limit: nat, window: nat, from: nat)
    requires |times| > 0 && Monotone(times + Repeat(n, time)) && window > 0
    requires var s := WindowStart(times, Lifetime(window)); time < times[s] + Lifetime(window) && |times| - s + n <= limit
    requires from <= time < from + Lifetime(window)
    ensures WindowStart(times + Repeat(n, time), Lifetime(window)) == WindowStart(times, Lifetime(window))
    ensures Admitted(times + Repeat(n, time), limit, window, from, from + Lifetime(window))
      == Admitted(times, limit, window, from, from + Lifetime(window)) + n
  {
    hide Monotone, Admitted, WindowStart;
    var all := times + Repeat(n, time);
    if n > 0 {
      var most := times + Repeat(n - 1, time);
      assert all == most + [time];
      MonotonePrefix(most, [time]);
      MoreInWindow(times, n - 1, time, limit, window, from);
      OneMore(most, time, limit, window, from);
    } else {
      assert all == times;
    }
  }

  /** One attempt opens a window, the rest of its quota comes at its end, and the next window's quota right after. */
  function Burst(limit: nat, lifetime: nat): seq<nat>
    requires limit > 0 && lifetime > 0
  {
    (([0] + Repeat(limit - 1, lifetime - 1)) + [lifetime]) + Repeat(limit - 1, lifetime)
  }

  /** An attempt after the current window has ended opens a new one and is admitted. */
  lemma NewWindow(times: seq<nat>, time: nat, limit: nat, window: nat, from: nat)
    requires |times| > 0 && Monotone(times + [time]) && limit > 0 && window > 0
    requires time >= times[WindowStart(times, Lifetime(window))] + Lifetime(window) && from <= time < from + Lifetime(window)
    ensures WindowStart(times + [time], Lifetime(window)) == |times|
    ensures Admitted(times + [time], limit, window, from, from + Lifetime(window))
      == Admitted(times, limit, window, from, from + Lifetime(window)) + 1
  {
    var all := times + [time];
    assert all[..|all| - 1] == times;
    CounterIsPosition(all, limit, window);
  }

  lemma FirstAttempt(limit: nat, window: nat, from: nat)
    requires from > 0
    ensures Admitted([0], limit, window, from, from + Lifetime(window)) == 0
  {
    assert Admitted([0][..0], limit, window, from, from + Lifetime(window)) == 0;
  }

  lemma BurstIsMonotone(limit: nat, lifetime: nat)
    requires limit > 0 && lifetime > 0
    ensures Monotone(Burst(limit, lifetime))
  {
    var all := Burst(limit, lifetime);
    assert forall i :: 0 <= i < |all| ==> all[i] == if i == 0 then 0 else if i < limit then lifetime - 1 else lifetime;
  }

  /** The bound of IntervalBound is reached for every limit and every window. */
  lemma IntervalBoundIsTight(limit: nat, window: nat)
    requires limit > 0 && window > 0
    ensures var lifetime := Lifetime(window);
      && Monotone(Burst(limit, lifetime))
      && Admitted(Burst(limit, lifetime), limit, window, lifetime - 1, lifetime - 1 + lifetime) == 2 * limit - 1
  {
    hide Admitted, Monotone;
    var lifetime := Lifetime(window);
    var from := lifetime - 1;
    var first := [0] + Repeat(limit - 1, lifetime - 1);
    var second := first + [lifetime];
    BurstIsMonotone(limit, lifetime);
    MonotonePrefix(second, Repeat(limit - 1, lifetime));
    MonotonePrefix(first, [lifetime]);
    FirstAttempt(limit, window, from);
    MoreInWindow([0], limit - 1, lifetime - 1, limit, window, from);
    NewWindow(first, lifetime, limit, window, from);
    MoreInWindow(second, limit - 1, lifetime, limit, window, from);
  }

  // ---- what a denial promises ----

  /** Attempts made one after another from this counter. */
  function Attempts(c: Option<Counter>, times: seq<nat>, limit: int, window: nat): Option<Counter> {
    if |times| == 0 then c
    else Decide(Attempts(c, times[..|times| - 1], limit, window), limit, window, times[|times| - 1], NO_FAULTS).counter
  }

  predicate Exhausted(c: Option<Counter>, limit: int, end: nat) {
    c.Some? && c.value.count > limit && c.value.expiresAt == Some(end)
  }

  /** Denials never postpone the end of the window: until then every further attempt is denied, whatever came in
      between, and from then on the counter is gone and an attempt is admitted. */
  lemma {:induction false} DenialsNeverPostpone(c: Option<Counter>, limit: nat, window: nat, end: nat, more: seq<nat>, time: nat)
    requires limit > 0 && Exhausted(c, limit, end) && forall i :: 0 <= i < |more| ==> more[i] < end
    ensures var later := Attempts(c, more, limit, window);
      && Exhausted(later, limit, end)
      && (Decide(later, limit, window, time, NO_FAULTS).allowed <==> time >= end)
      && (At(later, time).None? <==> time >= end)
  {
    if |more| > 0 {
      DenialsNeverPostpone(c, limit, window, end, more[..|more| - 1], time);
    }
  }

  /** What a denial's retryAfter is worth: the counter is always gone half a second after it, never more than half a
      second before it, and gone at it exactly when the remaining time was not rounded down. */
  lemma RetryAfterIsRounded(c: Option<Counter>, limit: nat, window: nat, now: nat)
    requires limit > 0 && !Decide(c, limit, window, now, NO_FAULTS).allowed
    requires At(c, now).Some? && At(c, now).value.expiresAt.Some?
    ensures var d := Decide(c, limit, window, now, NO_FAULTS); var end := At(c, now).value.expiresAt.value;
      && end > now && Exhausted(d.counter, limit, end)
      && At(d.counter, now + d.retryAfter + 500).None?
      && (d.retryAfter > 500 ==> At(d.counter, now + d.retryAfter - 501).Some?)
      && (At(d.counter, now + d.retryAfter).None? <==> (end - now) % 1000 == 0 || (end - now) % 1000 >= 500)
  {
    var remaining := At(c, now).value.expiresAt.value - now;
    assert remaining == 1000 * (remaining / 1000) + remaining % 1000;
    assert remaining % 1000 >= 500 ==> Rounded(remaining) == 1000 * (remaining / 1000) + 1000;
    assert remaining % 1000 < 500 ==> Rounded(remaining) == 1000 * (remaining / 1000);
  }

  // ---- a fault that does not heal ----

  predicate Stuck(c: Option<Counter>, count: nat) {
    c.Some? && c.value.expiresAt.None? && c.value.count >= count
  }

  /** One lost INCR reply, or one EXPIRE that fails, on the first attempt of a window leaves a counter without a TTL. */
  lemma FaultLeavesNoTTL(limit: int, window: nat, now: nat, f: Faults)
    ensures Stuck(Decide(None, limit, window, now, f).counter, 1) <==> f.incr == Lost || (f.incr == Answered && f.expire == Failed)
  {}

  /** From such a counter on, only `limit - 1` more attempts are ever admitted, however long one waits. */
  lemma {:induction false} NoTTLNeverRecovers(c: Option<Counter>, times: seq<nat>, limit: int, window: nat, time: nat)
    requires Stuck(c, 1)
    ensures Stuck(Attempts(c, times, limit, window), |times| + 1)
    ensures |times| + 1 >= limit ==> !Decide(Attempts(c, times, limit, window), limit, window, time, NO_FAULTS).allowed
  {
    if |times| > 0 {
      NoTTLNeverRecovers(c, times[..|times| - 1], limit, window, time);
    }
  }
}
