/** Abuse records: repeated rate-limit violations ban a user for a while. */
module Abuse {
  import opened Base

  /** Clock ticks are nanoseconds, as on a steady clock. */
  const MINUTE: int := 60_000_000_000
  const MAX_VIOLATIONS: int := 5
  const VIOLATION_WINDOW: int := 10 * MINUTE
  const BAN_DURATION: int := 30 * MINUTE

  datatype Record = Record(violations: int, first: int, last: int, banned: bool)

  type Records = map<UserId, Record>

  /** Records one violation by `u`; the result says whether `u` is banned by it. */
  function Track(m: Records, u: UserId, now: int): (Records, bool) {
    var found := if u in m then m[u] else Record(0, now, now, false);
    var kept := if now - found.first > VIOLATION_WINDOW then Record(0, now, now, false) else found;
    var v := kept.violations + 1;
    var r := kept.(violations := v, last := now, banned := kept.banned || v >= MAX_VIOLATIONS);
    (m[u := r], v >= MAX_VIOLATIONS)
  }

  /** Whether `u` is banned at `now`; a ban found to be over is forgotten. */
  function Check(m: Records, u: UserId, now: int): (Records, bool) {
    if u in m && m[u].banned then
      if now - m[u].last > BAN_DURATION then (m - {u}, false) else (m, true)
    else
      (m, false)
  }

  /** A record that a cleanup may drop at `now`. */
  predicate Stale(r: Record, now: int) {
    if r.banned then now - r.last > BAN_DURATION else now - r.first > VIOLATION_WINDOW
  }

  function Cleanup(m: Records, now: int): Records {
    map u | u in m && !Stale(m[u], now) :: m[u]
  }

  /** A cleanup forgets exactly the bans that are more than thirty minutes old, and the other records whose
      first violation is more than ten minutes ago. */
  lemma CleanupEffect(m: Records, now: int)
    ensures var m' := Cleanup(m, now);
      && (forall u :: u in m' <==>
            u in m && if m[u].banned then now <= m[u].last + 30 * 60_000_000_000
                      else now <= m[u].first + 10 * 60_000_000_000)
      && (forall u | u in m' :: m'[u] == m[u])
  {
  }

  // ----- Cleanup cannot be observed -------------------------------------------

  datatype Event =
    | TrackEvent(user: UserId, at: int)
    | CheckEvent(user: UserId, at: int)
    | CleanupEvent(at: int)

  function NextRecords(m: Records, e: Event): Records {
    match e
    case TrackEvent(u, t) => Track(m, u, t).0
    case CheckEvent(u, t) => Check(m, u, t).0
    case CleanupEvent(t) => Cleanup(m, t)
  }

  /** What the callers of the tracker get to see of a run: every answer, in order. */
  function Answers(m: Records, events: seq<Event>): seq<bool>
    decreases |events|
  {
    if events == [] then [] else
      (match events[0]
       case TrackEvent(u, t) => [Track(m, u, t).1]
       case CheckEvent(u, t) => [Check(m, u, t).1]
       case CleanupEvent(_) => [])
      + Answers(NextRecords(m, events[0]), events[1..])
  }

  function WithoutCleanups(events: seq<Event>): seq<Event> {
    if events == [] then []
    else (if events[0].CleanupEvent? then [] else [events[0]]) + WithoutCleanups(events[1..])
  }

  /** Every event happens at `t` or later, in the order of the run. */
  ghost predicate Timed(events: seq<Event>, t: int) {
    && (forall i | 0 <= i < |events| :: t <= events[i].at)
    && (forall i, j | 0 <= i < j < |events| :: events[i].at <= events[j].at)
  }

  /** Violations are recorded in order and none lies in the future. */
  ghost predicate Dated(m: Records, t: int) {
    forall u | u in m :: m[u].first <= m[u].last <= t
  }

  /** `lean` is `full` without some of the records that are stale at `t`. */
  ghost predicate Thinned(lean: Records, full: Records, t: int) {
    && (forall u | u in lean :: u in full && lean[u] == full[u])
    && (forall u | u in full && u !in lean :: Stale(full[u], t))
  }

  lemma ThinnedStep(lean: Records, full: Records, t: int, e: Event)
    requires Thinned(lean, full, t) && Dated(full, t) && t <= e.at
    requires !e.CleanupEvent?
    ensures Thinned(NextRecords(lean, e), NextRecords(full, e), e.at) && Dated(NextRecords(full, e), e.at)
    ensures match e
            case TrackEvent(u, now) => Track(lean, u, now).1 == Track(full, u, now).1
            case CheckEvent(u, now) => Check(lean, u, now).1 == Check(full, u, now).1
            case CleanupEvent(_) => true
  {
  }

  lemma {:induction false} CleanupBisimilar(lean: Records, full: Records, t: int, events: seq<Event>)
    requires Thinned(lean, full, t) && Dated(full, t) && Timed(events, t)
    ensures Answers(lean, events) == Answers(full, WithoutCleanups(events))
    decreases |events|
  {
    if events != [] {
      var e, rest := events[0], events[1..];
      assert Timed(rest, e.at);
      if e.CleanupEvent? {
        CleanupBisimilar(NextRecords(lean, e), full, e.at, rest);
        assert WithoutCleanups(events) == WithoutCleanups(rest);
        assert Answers(lean, events) == Answers(NextRecords(lean, e), rest);
      } else {
        ThinnedStep(lean, full, t, e);
        CleanupBisimilar(NextRecords(lean, e), NextRecords(full, e), e.at, rest);
        var kept := WithoutCleanups(events);
        assert kept == [e] + WithoutCleanups(rest);
        assert kept[1..] == WithoutCleanups(rest);
      }
    }
  }

  /** Cleaning up at any points of a run changes no answer of the tracker. */
  lemma {:induction false} CleanupUnobservable(m: Records, t: int, events: seq<Event>)
    requires Dated(m, t) && Timed(events, t)
    ensures Answers(m, events) == Answers(m, WithoutCleanups(events))
  {
    CleanupBisimilar(m, m, t, events);
  }
}
