/** Whole runs of the command handler: what a ban means, how long it lasts, and how many commands a
    user can get dispatched. Only the gate of the handler matters for this. */
module BanRuns {
  import opened Base
  import opened Channels
  import opened RateLimit
  import opened Abuse
  import opened Commands
  import opened CommandRuns

  ghost predicate Timed(steps: seq<Step>) {
    forall i, j | 0 <= i < j < |steps| :: steps[i].at <= steps[j].at
  }

  ghost predicate AllUntil(steps: seq<Step>, t: int) {
    forall i | 0 <= i < |steps| :: steps[i].at <= t
  }

  function NextGate(g: Gate, step: Step): Gate {
    match step
    case Request(u, word, args, t) => Admit(g, u, word == "", CountsAsJoin(word, args), t).0
    case Sweep(t) => g.(records := Cleanup(g.records, t))
  }

  function RunGate(g: Gate, steps: seq<Step>): Gate {
    if steps == [] then g else NextGate(RunGate(g, steps[..|steps| - 1]), steps[|steps| - 1])
  }

  const EMPTY_GATE := Gate(map[], map[])

  /** Why the gate refuses a step of user `u`; None if it lets it pass, or if it is no such step. */
  function Refusal(g: Gate, step: Step, u: UserId): Option<Reply> {
    if step.Request? && step.user == u
    then Admit(g, u, step.word == "", CountsAsJoin(step.word, step.args), step.at).1
    else None
  }

  predicate RefusedByLimiter(r: Option<Reply>) {
    r == Some(TooManyCommands) || r == Some(TooManyJoins)
  }

  /** The gate of a run of the handler is the run of the gate. */
  lemma {:induction false} RunGateIsGate(s: Server, steps: seq<Step>)
    ensures Run(s, steps).gate == RunGate(s.gate, steps)
    decreases |steps|
  {
    if steps != [] {
      RunGateIsGate(s, steps[..|steps| - 1]);
    }
  }

  /** No channel command answers as if the gate had spoken. */
  lemma ActReplies(w: World, u: UserId, verb: Verb, args: seq<string>)
    ensures Act(w, u, verb, args).1 !in {EmptyCommand, TemporarilyBanned, TooManyCommands, TooManyJoins}
  {
  }

  /** The reply of the handler tells the verdict of the gate, and the other way around. */
  lemma ReplyIsRefusal(s: Server, u: UserId, word: string, args: seq<string>, now: int)
    ensures var reply := Handle(s, u, word, args, now).1;
      Refusal(s.gate, Request(u, word, args, now), u)
        == if reply in {EmptyCommand, TemporarilyBanned, TooManyCommands, TooManyJoins} then Some(reply) else None
  {
    ActReplies(s.world, u, VerbOf(word), args);
  }

  /** When the limiters refused user `u` in the course of a run. */
  function RefusalsFrom(g: Gate, steps: seq<Step>, u: UserId): seq<int> {
    if steps == [] then [] else
      var prefix, step := steps[..|steps| - 1], steps[|steps| - 1];
      RefusalsFrom(g, prefix, u) + if RefusedByLimiter(Refusal(RunGate(g, prefix), step, u)) then [step.at] else []
  }

  function Refusals(steps: seq<Step>, u: UserId): seq<int> {
    RefusalsFrom(EMPTY_GATE, steps, u)
  }

  // ----- Bans are earned ------------------------------------------------------------

  /** The record of a user tells of the last refusals of that user: as many as it counts, the first
      and the last of them at the recorded times, all within the violation window. */
  ghost predicate Evidence(r: Record, refusals: seq<int>) {
    var n := |refusals|;
    && 1 <= r.violations <= 5
    && (r.banned <==> r.violations == 5)
    && r.violations <= n
    && refusals[n - r.violations] == r.first && refusals[n - 1] == r.last
    && (forall i | n - r.violations <= i < n :: r.first <= refusals[i] <= r.last)
    && r.last - r.first <= 10 * 60_000_000_000
  }

  /** The effect of one violation on a record and its evidence. */
  lemma TrackEvidence(m: Records, u: UserId, now: int, refusals: seq<int>)
    requires u in m ==> Evidence(m[u], refusals) && !m[u].banned && m[u].last <= now
    ensures Evidence(Track(m, u, now).0[u], refusals + [now])
  {
  }

  /** What a step does to the record of user `u`. */
  lemma NextRecord(g: Gate, step: Step, u: UserId)
    requires u in NextGate(g, step).records
    ensures if RefusedByLimiter(Refusal(g, step, u)) then
              var checked := Check(g.records, u, step.at);
              !checked.1 && NextGate(g, step).records[u] == Track(checked.0, u, step.at).0[u]
            else
              u in g.records && NextGate(g, step).records[u] == g.records[u]
  {
  }

  /** The refusals of `u` with the one a step may add. */
  function Extended(refusals: seq<int>, g: Gate, step: Step, u: UserId): seq<int> {
    refusals + if RefusedByLimiter(Refusal(g, step, u)) then [step.at] else []
  }

  lemma EvidenceStep(g: Gate, step: Step, u: UserId, refusals: seq<int>)
    requires u in g.records ==> Evidence(g.records[u], refusals)
    requires forall t | t in refusals :: t <= step.at
    ensures u in NextGate(g, step).records ==> Evidence(NextGate(g, step).records[u], Extended(refusals, g, step, u))
  {
    if u in NextGate(g, step).records {
      NextRecord(g, step, u);
      if RefusedByLimiter(Refusal(g, step, u)) {
        assert u in g.records ==> g.records[u].last in refusals;
        TrackEvidence(Check(g.records, u, step.at).0, u, step.at, refusals);
      }
    }
  }

  lemma {:induction false} RecordsAreEvidence(steps: seq<Step>, u: UserId)
    requires Timed(steps)
    ensures var g := RunGate(EMPTY_GATE, steps);
      u in g.records ==> Evidence(g.records[u], Refusals(steps, u))
    ensures forall t | t in Refusals(steps, u) && steps != [] :: t <= steps[|steps| - 1].at
    decreases |steps|
  {
    if steps != [] {
      var n := |steps| - 1;
      var prefix, step := steps[..n], steps[n];
      var g := RunGate(EMPTY_GATE, prefix);
      RecordsAreEvidence(prefix, u);
      assert prefix != [] ==> prefix[n - 1].at <= step.at;
      EvidenceStep(g, step, u, Refusals(prefix, u));
      assert Refusals(steps, u) == Extended(Refusals(prefix, u), g, step, u);
    }
  }

  /** Five refusals, the last one at `last` and all within ten minutes of the first of them. */
  ghost predicate FiveRefusals(refusals: seq<int>, last: int) {
    var n := |refusals|;
    && n >= 5 && refusals[n - 1] == last
    && forall i | n - 5 <= i < n :: refusals[n - 5] <= refusals[i] <= refusals[n - 5] + 10 * 60_000_000_000
  }

  lemma EvidenceIsSound(r: Record, refusals: seq<int>)
    requires Evidence(r, refusals)
    ensures 1 <= r.violations <= 5 && (r.banned <==> r.violations == 5)
    ensures r.banned ==> FiveRefusals(refusals, r.last)
  {
  }

  /** In every run: a record is banned exactly when it counts five violations, and it never counts
      more. A ban is never unearned: it implies five refusals of that user by a limiter, the last one
      at the time of the ban and all within ten minutes of the first of them. */
  lemma BanSoundness(steps: seq<Step>, u: UserId)
    requires Timed(steps) && u in Run(EMPTY_SERVER, steps).gate.records
    ensures var r, h := Run(EMPTY_SERVER, steps).gate.records[u], Refusals(steps, u);
      && 1 <= r.violations <= 5
      && (r.banned <==> r.violations == 5)
      && (r.banned ==> FiveRefusals(h, r.last))
  {
    RunGateIsGate(EMPTY_SERVER, steps);
    RecordsAreEvidence(steps, u);
    EvidenceIsSound(Run(EMPTY_SERVER, steps).gate.records[u], Refusals(steps, u));
  }

  // ----- Five refusals are enough -------------------------------------------------------

  /** No record of `u` that a violation at `t` or later would add to, and no ban that still holds. */
  ghost predicate Lapsed(g: Gate, u: UserId, t: int) {
    u in g.records ==> Stale(g.records[u], t)
  }

  /** The record that goes with the refusals since the record of `u` last lapsed. */
  ghost predicate Counted(g: Gate, u: UserId, refusals: seq<int>) {
    var n := |refusals|;
    && 0 < n <= 5 && refusals[0] <= refusals[n - 1]
    && u in g.records && g.records[u] == Record(n, refusals[0], refusals[n - 1], n == 5)
  }

  lemma LapsedStep(g: Gate, u: UserId, t: int, step: Step)
    requires Lapsed(g, u, t) && t <= step.at
    ensures if RefusedByLimiter(Refusal(g, step, u)) then Counted(NextGate(g, step), u, [step.at])
            else Lapsed(NextGate(g, step), u, t)
  {
  }

  lemma CountedStep(g: Gate, u: UserId, step: Step, refusals: seq<int>)
    requires Counted(g, u, refusals) && refusals[|refusals| - 1] <= step.at <= refusals[0] + 10 * 60_000_000_000
    ensures Counted(NextGate(g, step), u, Extended(refusals, g, step, u))
  {
  }

  lemma {:induction false} NoRefusalsNoRecord(g: Gate, steps: seq<Step>, u: UserId, t: int)
    requires Lapsed(g, u, t) && (forall i | 0 <= i < |steps| :: t <= steps[i].at)
    requires RefusalsFrom(g, steps, u) == []
    ensures Lapsed(RunGate(g, steps), u, t)
    decreases |steps|
  {
    if steps != [] {
      var n := |steps| - 1;
      NoRefusalsNoRecord(g, steps[..n], u, t);
      LapsedStep(RunGate(g, steps[..n]), u, t, steps[n]);
    }
  }

  lemma RefusalsSnoc(g: Gate, steps: seq<Step>, u: UserId)
    requires steps != []
    ensures RefusalsFrom(g, steps, u)
         == Extended(RefusalsFrom(g, steps[..|steps| - 1], u), RunGate(g, steps[..|steps| - 1]), steps[|steps| - 1], u)
  {
  }

  lemma LastRefusal(g: Gate, steps: seq<Step>, u: UserId, last: int)
    requires Timed(steps) && RefusalsFrom(g, steps, u) != []
    requires forall i | 0 <= i < |steps| :: steps[i].at <= last
    ensures RefusalsFrom(g, steps, u)[|RefusalsFrom(g, steps, u)| - 1] <= last
    decreases |steps|
  {
    var n := |steps| - 1;
    RefusalsSnoc(g, steps, u);
    if !RefusedByLimiter(Refusal(RunGate(g, steps[..n]), steps[n], u)) {
      LastRefusal(g, steps[..n], u, last);
    }
  }

  /** As soon as the limiters have refused a user five times within ten minutes, counting from a moment at
      which there was no live record of that user, the user is banned; and not before. */
  lemma {:induction false} FiveRefusalsBan(g: Gate, steps: seq<Step>, u: UserId, t: int)
    requires Timed(steps) && Lapsed(g, u, t) && (forall i | 0 <= i < |steps| :: t <= steps[i].at)
    requires RefusalsFrom(g, steps, u) != [] && AllUntil(steps, RefusalsFrom(g, steps, u)[0] + 10 * 60_000_000_000)
    ensures Counted(RunGate(g, steps), u, RefusalsFrom(g, steps, u))
    decreases |steps|
  {
    var n := |steps| - 1;
    var prefix, step := steps[..n], steps[n];
    var before, earlier := RunGate(g, prefix), RefusalsFrom(g, prefix, u);
    RefusalsSnoc(g, steps, u);
    if earlier == [] {
      NoRefusalsNoRecord(g, prefix, u, t);
      LapsedStep(before, u, t, step);
      assert RefusalsFrom(g, steps, u) == [step.at];
    } else {
      assert RefusalsFrom(g, steps, u)[0] == earlier[0];
      FiveRefusalsBan(g, prefix, u, t);
      LastRefusal(g, prefix, u, step.at);
      CountedStep(before, u, step, earlier);
    }
  }

  // ----- Bans last half an hour --------------------------------------------------------

  ghost predicate BannedSince(g: Gate, u: UserId, since: int) {
    u in g.records && g.records[u].banned && g.records[u].last == since
  }

  lemma BanStep(g: Gate, u: UserId, since: int, step: Step)
    requires BannedSince(g, u, since) && step.at <= since + 30 * 60_000_000_000
    ensures BannedSince(NextGate(g, step), u, since)
    ensures step.Request? && step.user == u && step.word != "" ==>
              Refusal(g, step, u) == Some(TemporarilyBanned) && NextGate(g, step) == g
  {
  }

  lemma {:induction false} BanLasts(s: Server, u: UserId, since: int, steps: seq<Step>)
    requires BannedSince(s.gate, u, since) && AllUntil(steps, since + 30 * 60_000_000_000)
    ensures BannedSince(Run(s, steps).gate, u, since)
    decreases |steps|
  {
    if steps != [] {
      var n := |steps| - 1;
      BanLasts(s, u, since, steps[..n]);
      RunGateIsGate(s, steps);
      RunGateIsGate(s, steps[..n]);
      BanStep(Run(s, steps[..n]).gate, u, since, steps[n]);
    }
  }

  lemma BanRefuses(s: Server, u: UserId, since: int, word: string, args: seq<string>, now: int)
    requires BannedSince(s.gate, u, since) && word != "" && now <= since + 30 * 60_000_000_000
    ensures Handle(s, u, word, args, now) == (s, TemporarilyBanned)
  {
  }

  /** From the fifth violation on, for thirty minutes, every command of the user is refused and changes
      nothing, whatever else happens. */
  lemma {:induction false} BanHolds(s: Server, u: UserId, since: int, steps: seq<Step>)
    requires BannedSince(s.gate, u, since) && AllUntil(steps, since + 30 * 60_000_000_000)
    ensures BannedSince(Run(s, steps).gate, u, since)
    ensures forall i | 0 <= i < |steps| && steps[i].Request? && steps[i].user == u && steps[i].word != "" ::
              Handle(Run(s, steps[..i]), u, steps[i].word, steps[i].args, steps[i].at)
                == (Run(s, steps[..i]), TemporarilyBanned)
  {
    BanLasts(s, u, since, steps);
    forall i | 0 <= i < |steps| && steps[i].Request? && steps[i].user == u && steps[i].word != ""
      ensures Handle(Run(s, steps[..i]), u, steps[i].word, steps[i].args, steps[i].at)
                == (Run(s, steps[..i]), TemporarilyBanned)
    {
      BanLasts(s, u, since, steps[..i]);
      BanRefuses(Run(s, steps[..i]), u, since, steps[i].word, steps[i].args, steps[i].at);
    }
  }

  /** The limiters of a user have their configured budgets, and have not looked past `t`. */
  ghost predicate LimitsDated(l: Limits, t: int) {
    && l.commands.maxTokens == 30 && l.commands.window == 60_000_000_000
    && l.joins.maxTokens == 5 && l.joins.window == 60_000_000_000
    && l.commands.windowStart <= t && l.joins.windowStart <= t
  }

  /** The limiters of `u` are dated, and no later than the ban if `u` is banned. */
  ghost predicate Dated(g: Gate, u: UserId, t: int) {
    && (u in g.limits ==> LimitsDated(g.limits[u], t))
    && (u in g.records ==> u in g.limits && g.records[u].last <= t)
    && (u in g.records && g.records[u].banned ==> LimitsDated(g.limits[u], g.records[u].last))
  }

  lemma AllowDated(l: Limiter, now: int)
    requires l.windowStart <= now
    ensures var l' := Allow(l, now).0;
      l'.maxTokens == l.maxTokens && l'.window == l.window && l'.windowStart <= now
  {
  }

  lemma LimitsStep(g: Gate, u: UserId, t: int, step: Step)
    requires (u in g.limits ==> LimitsDated(g.limits[u], t)) && t <= step.at
    ensures u in NextGate(g, step).limits ==> LimitsDated(NextGate(g, step).limits[u], step.at)
  {
    var l := LimitsOf(g.limits, u, step.at);
    AllowDated(l.commands, step.at);
    AllowDated(l.joins, step.at);
  }

  lemma RecordStep(g: Gate, u: UserId, t: int, step: Step)
    requires Dated(g, u, t) && t <= step.at
    ensures var g' := NextGate(g, step);
      u in g'.records ==>
        && u in g'.limits && g'.records[u].last <= step.at
        && (|| g'.records[u].last == step.at
            || (g'.records[u] == g.records[u] && (g.records[u].banned ==> g'.limits[u] == g.limits[u])))
  {
    if u in NextGate(g, step).records {
      NextRecord(g, step, u);
    }
  }

  lemma DatedStep(g: Gate, u: UserId, t: int, step: Step)
    requires Dated(g, u, t) && t <= step.at
    ensures Dated(NextGate(g, step), u, step.at)
  {
    LimitsStep(g, u, t, step);
    RecordStep(g, u, t, step);
  }

  lemma {:induction false} RunIsDated(steps: seq<Step>, u: UserId, t: int)
    requires Timed(steps) && AllUntil(steps, t)
    ensures Dated(RunGate(EMPTY_GATE, steps), u, t)
    decreases |steps|
  {
    if steps != [] {
      var n := |steps| - 1;
      RunIsDated(steps[..n], u, steps[n].at);
      DatedStep(RunGate(EMPTY_GATE, steps[..n]), u, steps[n].at, steps[n]);
    }
  }

  lemma BanEndsAtGate(g: Gate, u: UserId, join: bool, t: int, now: int)
    requires Dated(g, u, t) && u in g.records && g.records[u].banned
    requires now > g.records[u].last + 30 * 60_000_000_000
    ensures var (g', refusal) := Admit(g, u, false, join, now);
      refusal == None && u !in g'.records
  {
  }

  /** The first command after a ban has run out passes the gate and both limiters, and the record is
      gone. */
  lemma BanEnds(steps: seq<Step>, u: UserId, word: string, args: seq<string>, now: int)
    requires Timed(steps) && word != ""
    requires u in Run(EMPTY_SERVER, steps).gate.records
    requires Run(EMPTY_SERVER, steps).gate.records[u].banned
    requires now > Run(EMPTY_SERVER, steps).gate.records[u].last + 30 * 60_000_000_000
    ensures var (s', reply) := Handle(Run(EMPTY_SERVER, steps), u, word, args, now);
      u !in s'.gate.records && reply !in {TemporarilyBanned, TooManyCommands, TooManyJoins}
  {
    var s := Run(EMPTY_SERVER, steps);
    RunGateIsGate(EMPTY_SERVER, steps);
    assert steps != [];
    var t := steps[|steps| - 1].at;
    RunIsDated(steps, u, t);
    BanEndsAtGate(s.gate, u, CountsAsJoin(word, args), t, now);
    ReplyIsRefusal(s, u, word, args, now);
  }

  // ----- How much gets through -----------------------------------------------------------

  /** Whether a step is a command of `u` that gets past the ban check, to the command limiter. */
  predicate PassesBan(g: Gate, step: Step, u: UserId) {
    step.Request? && step.user == u && step.word != "" && !Check(g.records, u, step.at).1
  }

  /** Whether a step is a command of `u` that is dispatched, be it only to be refused as a join. */
  predicate IsDispatched(g: Gate, step: Step, u: UserId) {
    && step.Request? && step.user == u
    && Refusal(g, step, u) in {None, Some(TooManyJoins)}
  }

  function GateTimes(steps: seq<Step>, u: UserId): seq<int> {
    if steps == [] then [] else
      var prefix, step := steps[..|steps| - 1], steps[|steps| - 1];
      GateTimes(prefix, u) + if PassesBan(RunGate(EMPTY_GATE, prefix), step, u) then [step.at] else []
  }

  /** How many commands of `u` are dispatched in a run at a time in [lo, hi). */
  function Dispatched(steps: seq<Step>, u: UserId, lo: int, hi: int): nat {
    if steps == [] then 0 else
      var prefix, step := steps[..|steps| - 1], steps[|steps| - 1];
      Dispatched(prefix, u, lo, hi)
      + if lo <= step.at < hi && IsDispatched(RunGate(EMPTY_GATE, prefix), step, u) then 1 else 0
  }

  lemma {:induction false} AfterConcat(l: Limiter, a: seq<int>, b: seq<int>)
    ensures After(l, a + b) == After(After(l, a), b)
    decreases |a|
  {
    if a == [] {
      assert a + b == b;
    } else {
      assert (a + b)[1..] == a[1..] + b;
      AfterConcat(Allow(l, a[0]).0, a[1..], b);
    }
  }

  lemma SingleCall(l: Limiter, t: int, lo: int, hi: int)
    ensures After(l, [t]) == Allow(l, t).0
    ensures Admitted(l, [t], lo, hi) == if lo <= t < hi && Allow(l, t).1 then 1 else 0
  {
    assert [t][1..] == [];
  }

  /** The command limiter a user starts out with at the first command that passes the ban check. */
  function FirstLimiter(times: seq<int>): Limiter
    requires times != []
  {
    Fresh(30, 60_000_000_000, times[0])
  }

  lemma GateStep(g: Gate, step: Step, u: UserId)
    ensures u in NextGate(g, step).limits <==> u in g.limits || PassesBan(g, step, u)
    ensures u in NextGate(g, step).limits ==>
      NextGate(g, step).limits[u].commands ==
        if PassesBan(g, step, u) then Allow(LimitsOf(g.limits, u, step.at).commands, step.at).0
        else g.limits[u].commands
    ensures IsDispatched(g, step, u) <==>
      PassesBan(g, step, u) && Allow(LimitsOf(g.limits, u, step.at).commands, step.at).1
  {
  }

  /** The command limiter of a user is the plain limiter run on the times at the gate, and admits
      what is dispatched. */
  lemma {:induction false} LimiterFollowsGate(steps: seq<Step>, u: UserId, lo: int, hi: int)
    ensures var g, times := RunGate(EMPTY_GATE, steps), GateTimes(steps, u);
      && (u in g.limits <==> times != [])
      && (times != [] ==> g.limits[u].commands == After(FirstLimiter(times), times))
      && Dispatched(steps, u, lo, hi) == if times == [] then 0 else Admitted(FirstLimiter(times), times, lo, hi)
    decreases |steps|
  {
    if steps != [] {
      var n := |steps| - 1;
      var prefix, step := steps[..n], steps[n];
      var g := RunGate(EMPTY_GATE, prefix);
      LimiterFollowsGate(prefix, u, lo, hi);
      GateStep(g, step, u);
      var times := GateTimes(prefix, u);
      if PassesBan(g, step, u) {
        assert GateTimes(steps, u) == times + [step.at];
        if times == [] {
          assert times + [step.at] == [step.at];
          SingleCall(FirstLimiter([step.at]), step.at, lo, hi);
        } else {
          assert FirstLimiter(times + [step.at]) == FirstLimiter(times);
          AfterConcat(FirstLimiter(times), times, [step.at]);
          SingleCall(After(FirstLimiter(times), times), step.at, lo, hi);
          AdmittedConcat(FirstLimiter(times), times, [step.at], lo, hi);
        }
      } else {
        assert GateTimes(steps, u) == times;
      }
    }
  }

  lemma {:induction false} GateTimesReady(steps: seq<Step>, u: UserId)
    requires Timed(steps)
    ensures Nondecreasing(GateTimes(steps, u))
    ensures steps != [] ==> forall t | t in GateTimes(steps, u) :: t <= steps[|steps| - 1].at
    decreases |steps|
  {
    if steps != [] {
      var n := |steps| - 1;
      var times := GateTimes(steps[..n], u);
      GateTimesReady(steps[..n], u);
      assert n > 0 ==> steps[n - 1].at <= steps[n].at;
      forall i | 0 <= i < |times| ensures times[i] <= steps[n].at {
        assert times[i] in times;
      }
    }
  }

  /** What is dispatched is what the command limiter of the user admits, which never met a clock running
      backwards. */
  lemma DispatchedIsAdmitted(steps: seq<Step>, u: UserId, lo: int, hi: int)
    requires Timed(steps)
    ensures var times := GateTimes(steps, u);
      if times == [] then Dispatched(steps, u, lo, hi) == 0
      else Ready(FirstLimiter(times), times)
           && Dispatched(steps, u, lo, hi) == Admitted(FirstLimiter(times), times, lo, hi)
  {
    LimiterFollowsGate(steps, u, lo, hi);
    if GateTimes(steps, u) != [] {
      GateTimesReady(steps, u);
    }
  }

  lemma AdmittedAtGate(times: seq<int>, lo: int, length: nat)
    requires times != [] && Ready(FirstLimiter(times), times)
    ensures Admitted(FirstLimiter(times), times, lo, lo + length) <= 30 * Windows(length, 60_000_000_000)
  {
    SlidingBound(FirstLimiter(times), times, lo, length);
  }

  /** In every run, whatever the other users do, at most 30 commands of one user are dispatched for each
      minute that an interval of the given length can touch. */
  lemma DispatchBound(steps: seq<Step>, u: UserId, lo: int, length: nat)
    requires Timed(steps)
    ensures Dispatched(steps, u, lo, lo + length) <= 30 * Windows(length, 60_000_000_000)
  {
    DispatchedIsAdmitted(steps, u, lo, lo + length);
    if GateTimes(steps, u) != [] {
      AdmittedAtGate(GateTimes(steps, u), lo, length);
    }
  }
}
