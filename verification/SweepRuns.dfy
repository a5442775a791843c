/** The cleanup of the abuse records, seen from outside: nobody can tell when it runs. */
module SweepRuns {
  import opened Base
  import opened Channels
  import opened Abuse
  import opened Commands
  import opened CommandRuns

  /** What the users get to see of a run of the handler: every reply, in order. */
  function Replies(s: Server, steps: seq<Step>): seq<Reply>
    decreases |steps|
  {
    if steps == [] then []
    else
      (match steps[0]
       case Request(u, word, args, t) => [Handle(s, u, word, args, t).1]
       case Sweep(_) => [])
      + Replies(Next(s, steps[0]), steps[1..])
  }

  function WithoutSweeps(steps: seq<Step>): seq<Step> {
    if steps == [] then []
    else (if steps[0].Sweep? then [] else [steps[0]]) + WithoutSweeps(steps[1..])
  }

  ghost predicate InTime(steps: seq<Step>, t: int) {
    && (forall i | 0 <= i < |steps| :: t <= steps[i].at)
    && (forall i, j | 0 <= i < j < |steps| :: steps[i].at <= steps[j].at)
  }

  /** Two gates that differ at most in records that are stale at `t`. */
  ghost predicate Alike(lean: Gate, full: Gate, t: int) {
    lean.limits == full.limits && Thinned(lean.records, full.records, t) && Dated(full.records, t)
  }

  lemma CheckAlike(lean: Records, full: Records, t: int, u: UserId, now: int)
    requires Thinned(lean, full, t) && Dated(full, t) && t <= now
    ensures Check(lean, u, now).1 == Check(full, u, now).1
    ensures Thinned(Check(lean, u, now).0, Check(full, u, now).0, now) && Dated(Check(full, u, now).0, now)
  {
    ThinnedStep(lean, full, t, CheckEvent(u, now));
  }

  lemma TrackAlike(lean: Records, full: Records, u: UserId, now: int)
    requires Thinned(lean, full, now) && Dated(full, now)
    ensures Thinned(Track(lean, u, now).0, Track(full, u, now).0, now) && Dated(Track(full, u, now).0, now)
  {
    ThinnedStep(lean, full, now, TrackEvent(u, now));
  }

  /** Gates that are alike give the same verdict and stay alike. */
  lemma AdmitAlike(lean: Gate, full: Gate, t: int, u: UserId, empty: bool, join: bool, now: int)
    requires Alike(lean, full, t) && t <= now
    ensures Admit(lean, u, empty, join, now).1 == Admit(full, u, empty, join, now).1
    ensures Alike(Admit(lean, u, empty, join, now).0, Admit(full, u, empty, join, now).0, now)
  {
    CheckAlike(lean.records, full.records, t, u, now);
    TrackAlike(Check(lean.records, u, now).0, Check(full.records, u, now).0, u, now);
    LaterAlike(lean, full, t, now);
  }

  lemma LaterAlike(lean: Gate, full: Gate, t: int, now: int)
    requires Alike(lean, full, t) && t <= now
    ensures Alike(lean, full, now)
  {
  }

  lemma SweepAlike(lean: Gate, full: Gate, t: int, now: int)
    requires Alike(lean, full, t) && t <= now
    ensures Alike(lean.(records := Cleanup(lean.records, now)), full, now)
  {
  }

  lemma {:induction false} SweepsBisimilar(lean: Server, full: Server, t: int, steps: seq<Step>)
    requires lean.world == full.world && Alike(lean.gate, full.gate, t) && InTime(steps, t)
    ensures Replies(lean, steps) == Replies(full, WithoutSweeps(steps))
    decreases |steps|
  {
    if steps != [] {
      var step, rest := steps[0], steps[1..];
      assert InTime(rest, step.at);
      match step {
        case Sweep(now) =>
          SweepAlike(lean.gate, full.gate, t, now);
          SweepsBisimilar(Next(lean, step), full, now, rest);
          assert Replies(lean, steps) == Replies(Next(lean, step), rest);
          assert WithoutSweeps(steps) == WithoutSweeps(rest);
        case Request(u, word, args, now) =>
          AdmitAlike(lean.gate, full.gate, t, u, word == "", CountsAsJoin(word, args), now);
          SweepsBisimilar(Next(lean, step), Next(full, step), now, rest);
          var kept := WithoutSweeps(steps);
          assert kept == [step] + WithoutSweeps(rest) && kept[1..] == WithoutSweeps(rest);
      }
    }
  }

  /** Cleaning up at any points of any run of the handler changes no reply to anybody. */
  lemma SweepsUnobservable(s: Server, t: int, steps: seq<Step>)
    requires Dated(s.gate.records, t) && InTime(steps, t)
    ensures Replies(s, steps) == Replies(s, WithoutSweeps(steps))
  {
    SweepsBisimilar(s, s, t, steps);
  }
}
