/** The fixed-window rate limiter, and the sliding bound it gives. */
module RateLimit {
  import opened Base

  /** The limiter's four fields as a value; times and durations are clock ticks. */
  datatype Limiter = Limiter(maxTokens: int, window: int, windowStart: int, count: int)

  function Fresh(maxTokens: int, window: int, now: int): Limiter {
    Limiter(maxTokens, window, now, 0)
  }

  /** The limiter after the window containing `now` has been entered. */
  function Rolled(l: Limiter, now: int): Limiter {
    if now - l.windowStart >= l.window then l.(windowStart := now, count := 0) else l
  }

  /** One call: the new state, and whether the call is let through. */
  function Allow(l: Limiter, now: int): (Limiter, bool) {
    var w := Rolled(l, now);
    if w.count >= w.maxTokens then (w, false) else (w.(count := w.count + 1), true)
  }

  class RateLimiter {
    const maxTokens: int
    const window: int
    var windowStart: int
    var count: int

    ghost function State(): Limiter
      reads this
    {
      Limiter(maxTokens, window, windowStart, count)
    }

    constructor (maxTokens: int, window: int, now: int)
      ensures State() == Fresh(maxTokens, window, now)
    {
      this.maxTokens := maxTokens;
      this.window := window;
      this.windowStart := now;
      this.count := 0;
    }

    method TryAcquire(now: int) returns (ok: bool)
      modifies this
      ensures (State(), ok) == Allow(old(State()), now)
    {
      if now - windowStart >= window {
        windowStart := now;
        count := 0;
      }
      if count >= maxTokens {
        return false;
      }
      count := count + 1;
      return true;
    }

    method Reset(now: int)
      modifies this
      ensures State() == Fresh(maxTokens, window, now)
    {
      count := 0;
      windowStart := now;
    }
  }

  // ----- Runs of calls ------------------------------------------------------

  /** The state after a run of calls. */
  function After(l: Limiter, calls: seq<int>): Limiter
    decreases |calls|
  {
    if calls == [] then l else After(Allow(l, calls[0]).0, calls[1..])
  }

  /** How many calls of the run made at a time in [lo, hi) are let through. */
  function Admitted(l: Limiter, calls: seq<int>, lo: int, hi: int): nat
    decreases |calls|
  {
    if calls == [] then 0 else
      (if lo <= calls[0] < hi && Allow(l, calls[0]).1 then 1 else 0)
      + Admitted(Allow(l, calls[0]).0, calls[1..], lo, hi)
  }

  /** A limiter with a sensible configuration, met by a clock that has not run backwards. */
  ghost predicate Ready(l: Limiter, calls: seq<int>) {
    && l.window > 0
    && 0 <= l.count
    && (l.maxTokens >= 0 ==> l.count <= l.maxTokens)
    && Nondecreasing(calls)
    && (forall i | 0 <= i < |calls| :: l.windowStart <= calls[i])
  }

  lemma ReadyStep(l: Limiter, calls: seq<int>)
    requires Ready(l, calls) && calls != []
    ensures Ready(Allow(l, calls[0]).0, calls[1..])
  {
  }

  lemma {:induction false} NoneAdmitted(l: Limiter, calls: seq<int>, lo: int, hi: int)
    requires forall i | 0 <= i < |calls| :: hi <= calls[i]
    ensures Admitted(l, calls, lo, hi) == 0
    decreases |calls|
  {
    if calls != [] {
      NoneAdmitted(Allow(l, calls[0]).0, calls[1..], lo, hi);
    }
  }

  lemma Multiples(k: nat, m: nat)
    requires k > 0
    ensures k * m == (k - 1) * m + m && (k - 1) * m >= 0
    ensures k == 1 ==> k * m == m
  {
  }

  /** While `k` windows from the current one on cover everything up to `hi`, at most `k` full
      budgets less what is already spent can be admitted before `hi`. */
  lemma {:induction false} AdmittedWithin(l: Limiter, calls: seq<int>, lo: int, hi: int, k: nat)
    requires Ready(l, calls) && l.maxTokens > 0
    requires k > 0 && hi <= l.windowStart + k * l.window
    ensures Admitted(l, calls, lo, hi) <= k * l.maxTokens - l.count
    decreases |calls|
  {
    Multiples(k, l.maxTokens);
    if calls != [] {
      var t := calls[0];
      ReadyStep(l, calls);
      var next := Allow(l, t).0;
      if t - l.windowStart < l.window {
        AdmittedWithin(next, calls[1..], lo, hi, k);
      } else if t >= hi {
        NoneAdmitted(l, calls, lo, hi);
      } else {
        Multiples(k, l.window);
        if k == 1 { assert false; }
        AdmittedWithin(next, calls[1..], lo, hi, k - 1);
      }
    }
  }

  lemma SameAfterRolling(l: Limiter, calls: seq<int>, lo: int, hi: int)
    requires calls != []
    ensures Admitted(Rolled(l, calls[0]), calls, lo, hi) == Admitted(l, calls, lo, hi)
  {
    assert Allow(Rolled(l, calls[0]), calls[0]) == Allow(l, calls[0]);
  }

  /** How many windows an interval of that many ticks can touch; at most ceil(length / window) + 1. */
  function Windows(length: nat, window: int): (k: nat)
    requires window > 0
    ensures k <= CeilDiv(length, window) + 1
  {
    if length == 0 then 0 else WindowsOf(length - 1, window); CeilDiv(length - 1, window) + 1
  }

  lemma WindowsOf(length: nat, window: int)
    requires window > 0
    ensures CeilDiv(length, window) <= CeilDiv(length + 1, window)
  {
    CeilDivIsLeast(length, window, CeilDiv(length + 1, window));
  }

  /** The bound for an interval in which the first call lies. */
  lemma RolledBound(l: Limiter, calls: seq<int>, lo: int, length: nat)
    requires Ready(l, calls) && l.maxTokens > 0 && calls != [] && lo <= calls[0]
    ensures Admitted(l, calls, lo, lo + length) <= l.maxTokens * Windows(length, l.window)
  {
    SameAfterRolling(l, calls, lo, lo + length);
    if calls[0] < lo + length {
      var k := Windows(length, l.window);
      Multiples(k, l.window);
      AdmittedWithin(Rolled(l, calls[0]), calls, lo, lo + length, k);
    } else {
      NoneAdmitted(l, calls, lo, lo + length);
    }
  }

  /** The fixed window gives a sliding bound: any half-open interval admits at most one budget for each
      window it can touch. */
  lemma {:induction false} SlidingBound(l: Limiter, calls: seq<int>, lo: int, length: nat)
    requires Ready(l, calls) && l.maxTokens > 0
    ensures Admitted(l, calls, lo, lo + length) <= l.maxTokens * Windows(length, l.window)
    decreases |calls|
  {
    assert l.maxTokens * Windows(length, l.window) >= 0;
    if calls != [] {
      var t := calls[0];
      ReadyStep(l, calls);
      if t < lo {
        SlidingBound(Allow(l, t).0, calls[1..], lo, length);
      } else {
        RolledBound(l, calls, lo, length);
      }
    }
  }

  /** The counter of the current window is the number of calls it has admitted. */
  lemma {:induction false} WindowCount(l: Limiter, calls: seq<int>, hi: int)
    requires Ready(l, calls)
    requires forall i | 0 <= i < |calls| :: calls[i] < hi
    ensures var f := After(l, calls);
      && f.window == l.window && f.maxTokens == l.maxTokens
      && (f.windowStart == l.windowStart || f.windowStart >= l.windowStart + l.window)
      && f.count == (if f.windowStart == l.windowStart then l.count else 0)
                    + Admitted(l, calls, f.windowStart, hi)
    decreases |calls|
  {
    if calls != [] {
      ReadyStep(l, calls);
      WindowCount(Allow(l, calls[0]).0, calls[1..], hi);
    }
  }

  lemma {:induction false} AdmittedWidens(l: Limiter, calls: seq<int>, lo: int, lo': int, hi: int)
    requires lo' <= lo
    ensures Admitted(l, calls, lo, hi) <= Admitted(l, calls, lo', hi)
    decreases |calls|
  {
    if calls != [] {
      AdmittedWidens(Allow(l, calls[0]).0, calls[1..], lo, lo', hi);
    }
  }

  /** No refusal without cause: a call is refused only when at least the whole budget was admitted
      less than one window earlier. */
  lemma {:induction false} RefusedOnlyWhenSpent(maxTokens: int, window: int, start: int, calls: seq<int>, now: int)
    requires window > 0 && Ready(Fresh(maxTokens, window, start), calls + [now])
    requires !Allow(After(Fresh(maxTokens, window, start), calls), now).1
    ensures Admitted(Fresh(maxTokens, window, start), calls, now - window + 1, now + 1) >= maxTokens
  {
    var l := Fresh(maxTokens, window, start);
    assert (calls + [now])[|calls|] == now;
    assert forall i | 0 <= i < |calls| :: calls[i] == (calls + [now])[i];
    assert Ready(l, calls);
    WindowCount(l, calls, now + 1);
    var f := After(l, calls);
    if now - f.windowStart < window {
      AdmittedWidens(l, calls, f.windowStart, now - window + 1, now + 1);
    }
  }

  /** A burst of `n` calls at one instant that the current window still has room for. */
  lemma {:induction false} Burst(l: Limiter, n: nat, t: int, lo: int, hi: int)
    requires 0 <= t - l.windowStart < l.window && 0 <= l.count && l.count + n <= l.maxTokens
    requires lo <= t < hi
    ensures Admitted(l, seq(n, _ => t), lo, hi) == n
    ensures After(l, seq(n, _ => t)) == l.(count := l.count + n)
    decreases n
  {
    var calls := seq(n, _ => t);
    if n > 0 {
      assert calls[1..] == seq(n - 1, _ => t);
      Burst(l.(count := l.count + 1), n - 1, t, lo, hi);
    }
  }

  lemma {:induction false} AdmittedConcat(l: Limiter, a: seq<int>, b: seq<int>, lo: int, hi: int)
    ensures Admitted(l, a + b, lo, hi) == Admitted(l, a, lo, hi) + Admitted(After(l, a), b, lo, hi)
    decreases |a|
  {
    if a == [] {
      assert a + b == b;
    } else {
      assert (a + b)[1..] == a[1..] + b;
      AdmittedConcat(Allow(l, a[0]).0, a[1..], b, lo, hi);
    }
  }

  /** `n` bursts of `m` calls each, one window apart. */
  function Bursts(m: nat, t: int, window: int, n: nat): seq<int>
    decreases n
  {
    if n == 0 then [] else seq(m, _ => t) + Bursts(m, t + window, window, n - 1)
  }

  lemma {:induction false} BurstsAreTimed(m: nat, t: int, window: int, n: nat)
    requires window > 0
    ensures Nondecreasing(Bursts(m, t, window, n)) && forall x | x in Bursts(m, t, window, n) :: t <= x
    decreases n
  {
    if n > 0 {
      BurstsAreTimed(m, t + window, window, n - 1);
      var later := Bursts(m, t + window, window, n - 1);
      assert forall i | 0 <= i < |later| :: later[i] in later;
    }
  }

  /** A burst of a whole budget at the first tick of a new window. */
  lemma RollingBurst(l: Limiter, t: int, lo: int, hi: int)
    requires l.window > 0 && l.maxTokens > 0 && t - l.windowStart >= l.window && lo <= t < hi
    ensures var calls := seq(l.maxTokens, _ => t);
      && Admitted(l, calls, lo, hi) == l.maxTokens
      && After(l, calls) == l.(windowStart := t, count := l.maxTokens)
  {
    var calls := seq(l.maxTokens, _ => t);
    Burst(Rolled(l, t), l.maxTokens, t, lo, hi);
    assert calls[0] == t && Allow(Rolled(l, t), t) == Allow(l, t);
  }

  lemma {:induction false} BurstsAdmitted(l: Limiter, t: int, n: nat, lo: int, hi: int)
    requires l.window > 0 && l.maxTokens > 0 && t - l.windowStart >= l.window && lo <= t
    requires n > 0 ==> t + (n - 1) * l.window < hi
    ensures Admitted(l, Bursts(l.maxTokens, t, l.window, n), lo, hi) == n * l.maxTokens
    decreases n
  {
    if n > 0 {
      var first, rest := seq(l.maxTokens, _ => t), Bursts(l.maxTokens, t + l.window, l.window, n - 1);
      assert (n - 1) * l.window >= 0;
      assert n > 1 ==> (n - 1) * l.window == (n - 2) * l.window + l.window;
      AdmittedConcat(l, first, rest, lo, hi);
      RollingBurst(l, t, lo, hi);
      BurstsAdmitted(After(l, first), t + l.window, n - 1, lo, hi);
      Multiples(n, l.maxTokens);
    }
  }

  /** A whole budget at the last tick of the first window, then one at the first tick of each later one. */
  function Worst(maxTokens: nat, window: int, start: int, length: nat): seq<int>
    requires window > 0 && length > 0
  {
    seq(maxTokens, _ => start + window - 1) + Bursts(maxTokens, start + window, window, CeilDiv(length - 1, window))
  }

  lemma WorstIsReady(maxTokens: nat, window: int, start: int, length: nat)
    requires maxTokens > 0 && window > 0 && length > 0
    ensures Ready(Fresh(maxTokens, window, start), Worst(maxTokens, window, start, length))
  {
    var later := Bursts(maxTokens, start + window, window, CeilDiv(length - 1, window));
    BurstsAreTimed(maxTokens, start + window, window, CeilDiv(length - 1, window));
    assert forall i | 0 <= i < |later| :: later[i] in later;
  }

  /** The bound is the best: every limiter reaches it for every length. */
  lemma SlidingBoundIsTight(maxTokens: nat, window: int, start: int, length: nat)
    requires maxTokens > 0 && window > 0 && length > 0
    ensures var l, calls := Fresh(maxTokens, window, start), Worst(maxTokens, window, start, length);
      var lo := start + window - 1;
      Ready(l, calls) && Admitted(l, calls, lo, lo + length) == maxTokens * Windows(length, window)
  {
    var l, n := Fresh(maxTokens, window, start), CeilDiv(length - 1, window);
    var lo := start + window - 1;
    var first, later := seq(maxTokens, _ => lo), Bursts(maxTokens, start + window, window, n);
    WorstIsReady(maxTokens, window, start, length);
    AdmittedConcat(l, first, later, lo, lo + length);
    Burst(l, maxTokens, lo, lo, lo + length);
    BurstsAdmitted(After(l, first), start + window, n, lo, lo + length);
    assert maxTokens * (n + 1) == n * maxTokens + maxTokens;
  }
}
