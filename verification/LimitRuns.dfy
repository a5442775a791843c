/** The two limiters inside the handler: how many joins of one user a run lets through, and that no command
    and no join is refused without cause. */
module LimitRuns {
  import opened Base
  import opened Text
  import opened ChannelNames
  import opened Channels
  import opened RateLimit
  import opened Abuse
  import opened Commands
  import opened CommandRuns
  import opened BanRuns

  /** Whether a step is a join of `u` that gets past the command limiter, to the join limiter. */
  predicate ReachesJoinLimiter(g: Gate, step: Step, u: UserId) {
    && PassesBan(g, step, u) && CountsAsJoin(step.word, step.args)
    && Allow(LimitsOf(g.limits, u, step.at).commands, step.at).1
  }

  /** Whether a step is a join of `u` that both limiters let through. */
  predicate IsJoinAdmitted(g: Gate, step: Step, u: UserId) {
    step.Request? && step.user == u && CountsAsJoin(step.word, step.args) && Refusal(g, step, u) == None
  }

  /** The joins that are counted name a channel that can exist. */
  lemma CountsAsJoinIff(word: string, args: seq<string>)
    ensures CountsAsJoin(word, args) <==> Fold(word) == "join" && args != [] && IsKey(Sanitized(args[0]))
  {
    if args != [] && IsValidName(Sanitized(args[0])) {
      AcceptedNameIsKey(args[0]);
    }
  }

  function JoinTimes(steps: seq<Step>, u: UserId): seq<int> {
    if steps == [] then []
    else
      var prefix, step := steps[..|steps| - 1], steps[|steps| - 1];
      JoinTimes(prefix, u) + if ReachesJoinLimiter(RunGate(EMPTY_GATE, prefix), step, u) then [step.at] else []
  }

  /** How many joins of `u` are let through at a time in [lo, hi). */
  function JoinsAdmitted(steps: seq<Step>, u: UserId, lo: int, hi: int): nat {
    if steps == [] then 0
    else
      var prefix, step := steps[..|steps| - 1], steps[|steps| - 1];
      JoinsAdmitted(prefix, u, lo, hi)
      + if lo <= step.at < hi && IsJoinAdmitted(RunGate(EMPTY_GATE, prefix), step, u) then 1 else 0
  }

  lemma JoinGateStep(g: Gate, step: Step, u: UserId)
    ensures u in NextGate(g, step).limits ==>
      NextGate(g, step).limits[u].joins ==
        if ReachesJoinLimiter(g, step, u) then Allow(LimitsOf(g.limits, u, step.at).joins, step.at).0
        else LimitsOf(g.limits, u, step.at).joins
    ensures IsJoinAdmitted(g, step, u) <==>
      ReachesJoinLimiter(g, step, u) && Allow(LimitsOf(g.limits, u, step.at).joins, step.at).1
  {
  }

  /** The join limiter of a user, made when the user first gets past the ban check. */
  function FirstJoinLimiter(times: seq<int>): Limiter
    requires times != []
  {
    Fresh(5, 60_000_000_000, times[0])
  }

  /** What holds between a gate and the run it comes from. */
  ghost predicate JoinsFollow(steps: seq<Step>, u: UserId, lo: int, hi: int) {
    var g, times, joins := RunGate(EMPTY_GATE, steps), GateTimes(steps, u), JoinTimes(steps, u);
    && (u in g.limits <==> times != [])
    && (times == [] ==> joins == [] && JoinsAdmitted(steps, u, lo, hi) == 0)
    && (times != [] ==>
          && g.limits[u].joins == After(FirstJoinLimiter(times), joins)
          && JoinsAdmitted(steps, u, lo, hi) == Admitted(FirstJoinLimiter(times), joins, lo, hi))
  }

  lemma GateTimesGrow(steps: seq<Step>, u: UserId)
    requires steps != []
    ensures var prefix, step := steps[..|steps| - 1], steps[|steps| - 1];
      GateTimes(steps, u) == GateTimes(prefix, u)
                             + if PassesBan(RunGate(EMPTY_GATE, prefix), step, u) then [step.at] else []
  {
  }

  lemma JoinsFollowStep(steps: seq<Step>, u: UserId, lo: int, hi: int)
    requires steps != [] && JoinsFollow(steps[..|steps| - 1], u, lo, hi)
    ensures JoinsFollow(steps, u, lo, hi)
  {
    var prefix, step := steps[..|steps| - 1], steps[|steps| - 1];
    var g, times, joins := RunGate(EMPTY_GATE, prefix), GateTimes(prefix, u), JoinTimes(prefix, u);
    GateStep(g, step, u);
    JoinGateStep(g, step, u);
    GateTimesGrow(steps, u);
    if PassesBan(g, step, u) {
      var first := FirstJoinLimiter(times + [step.at]);
      assert times == [] ==> LimitsOf(g.limits, u, step.at).joins == first;
      assert times != [] ==> first == FirstJoinLimiter(times);
      assert After(first, joins) == LimitsOf(g.limits, u, step.at).joins;
      if ReachesJoinLimiter(g, step, u) {
        AfterConcat(first, joins, [step.at]);
        SingleCall(After(first, joins), step.at, lo, hi);
        AdmittedConcat(first, joins, [step.at], lo, hi);
      } else {
        assert joins + [] == joins;
      }
    } else {
      assert joins + [] == joins && times + [] == times;
    }
  }

  /** The join limiter of a user inside the handler is the plain limiter of five calls a minute, run on the
      times at which joins of that user get past the command limiter; and it lets through what is let
      through. */
  lemma {:induction false} JoinLimiterFollowsGate(steps: seq<Step>, u: UserId, lo: int, hi: int)
    ensures JoinsFollow(steps, u, lo, hi)
    decreases |steps|
  {
    if steps != [] {
      JoinLimiterFollowsGate(steps[..|steps| - 1], u, lo, hi);
      JoinsFollowStep(steps, u, lo, hi);
    }
  }

  /** Times in order, none of them before `first` or after `last`. */
  ghost predicate InOrder(times: seq<int>, first: int, last: int) {
    Nondecreasing(times) && forall i | 0 <= i < |times| :: first <= times[i] <= last
  }

  lemma InOrderStep(times: seq<int>, more: seq<int>, first: int, last: int, now: int)
    requires InOrder(times, first, last) && last <= now && first <= now
    requires more == [] || more == [now]
    ensures InOrder(times + more, first, now)
  {
  }

  /** The first command at the gate is no later than the end of the run, and stays the first. */
  lemma FirstAtGate(steps: seq<Step>, u: UserId)
    requires BanRuns.Timed(steps) && GateTimes(steps, u) != []
    ensures steps != [] && GateTimes(steps, u)[0] <= steps[|steps| - 1].at
    ensures var earlier := GateTimes(steps[..|steps| - 1], u);
      earlier != [] ==> earlier[0] == GateTimes(steps, u)[0]
  {
    GateTimesReady(steps, u);
    GateTimesGrow(steps, u);
    assert GateTimes(steps, u)[0] in GateTimes(steps, u);
  }

  function MoreJoins(g: Gate, step: Step, u: UserId): seq<int> {
    if ReachesJoinLimiter(g, step, u) then [step.at] else []
  }

  lemma JoinTimesGrow(steps: seq<Step>, u: UserId)
    requires steps != []
    ensures var prefix, step := steps[..|steps| - 1], steps[|steps| - 1];
      JoinTimes(steps, u) == JoinTimes(prefix, u) + MoreJoins(RunGate(EMPTY_GATE, prefix), step, u)
  {
  }

  lemma {:induction false} JoinTimesInOrder(steps: seq<Step>, u: UserId)
    requires BanRuns.Timed(steps) && GateTimes(steps, u) != []
    ensures steps != [] && InOrder(JoinTimes(steps, u), GateTimes(steps, u)[0], steps[|steps| - 1].at)
    decreases |steps|
  {
    FirstAtGate(steps, u);
    JoinTimesGrow(steps, u);
    var n := |steps| - 1;
    var first, more := GateTimes(steps, u)[0], MoreJoins(RunGate(EMPTY_GATE, steps[..n]), steps[n], u);
    if GateTimes(steps[..n], u) == [] {
      JoinLimiterFollowsGate(steps[..n], u, 0, 0);
      InOrderStep([], more, first, first, steps[n].at);
    } else {
      JoinTimesInOrder(steps[..n], u);
      assert steps[..n][n - 1].at <= steps[n].at;
      InOrderStep(JoinTimes(steps[..n], u), more, first, steps[..n][n - 1].at, steps[n].at);
    }
  }

  /** In every run, whatever the other users do, at most five joins of one user are let through for each
      minute that an interval of the given length can touch. */
  lemma JoinBound(steps: seq<Step>, u: UserId, lo: int, length: nat)
    requires BanRuns.Timed(steps)
    ensures JoinsAdmitted(steps, u, lo, lo + length) <= 5 * Windows(length, 60_000_000_000)
  {
    var times, joins := GateTimes(steps, u), JoinTimes(steps, u);
    JoinLimiterFollowsGate(steps, u, lo, lo + length);
    if times != [] {
      JoinTimesInOrder(steps, u);
      SlidingBound(FirstJoinLimiter(times), joins, lo, length);
    }
  }

  // ----- No refusal without cause -------------------------------------------------------------------

  /** A refusal comes from a limiter that is there already, for a new one lets the first call through. */
  lemma RefusedAtLimiter(s: Server, u: UserId, word: string, args: seq<string>, now: int)
    ensures var reply, limits := Handle(s, u, word, args, now).1, s.gate.limits;
      && (reply == TooManyCommands ==> u in limits && !Allow(limits[u].commands, now).1)
      && (reply == TooManyJoins ==> u in limits && !Allow(limits[u].joins, now).1)
  {
    ReplyIsRefusal(s, u, word, args, now);
  }

  lemma RefusedInRun(steps: seq<Step>, u: UserId, word: string, args: seq<string>, now: int)
    ensures var reply, limits := Handle(Run(EMPTY_SERVER, steps), u, word, args, now).1,
                                 RunGate(EMPTY_GATE, steps).limits;
      && (reply == TooManyCommands ==> u in limits && !Allow(limits[u].commands, now).1)
      && (reply == TooManyJoins ==> u in limits && !Allow(limits[u].joins, now).1)
  {
    RunGateIsGate(EMPTY_SERVER, steps);
    RefusedAtLimiter(Run(EMPTY_SERVER, steps), u, word, args, now);
  }

  lemma ReadyWithOneMore(budget: int, times: seq<int>, first: int, now: int)
    requires budget > 0 && InOrder(times, first, now) && first <= now
    ensures Ready(Fresh(budget, 60_000_000_000, first), times + [now])
  {
  }

  lemma SpentBefore(budget: int, l: Limiter, times: seq<int>, first: int, now: int)
    requires budget > 0 && InOrder(times, first, now) && first <= now
    requires l == After(Fresh(budget, 60_000_000_000, first), times) && !Allow(l, now).1
    ensures Admitted(Fresh(budget, 60_000_000_000, first), times, now - 60_000_000_000 + 1, now + 1) >= budget
  {
    ReadyWithOneMore(budget, times, first, now);
    RefusedOnlyWhenSpent(budget, 60_000_000_000, first, times, now);
  }

  lemma GateTimesInOrder(steps: seq<Step>, u: UserId, now: int)
    requires BanRuns.Timed(steps) && AllUntil(steps, now) && GateTimes(steps, u) != []
    ensures InOrder(GateTimes(steps, u), GateTimes(steps, u)[0], now)
  {
    var times := GateTimes(steps, u);
    GateTimesReady(steps, u);
    forall i | 0 <= i < |times| ensures times[0] <= times[i] <= now {
      assert times[i] in times;
    }
  }

  lemma AllUntilGate(steps: seq<Step>, u: UserId, now: int)
    requires BanRuns.Timed(steps) && AllUntil(steps, now) && GateTimes(steps, u) != []
    ensures InOrder(GateTimes(steps, u), GateTimes(steps, u)[0], now)
    ensures InOrder(JoinTimes(steps, u), GateTimes(steps, u)[0], now)
    ensures GateTimes(steps, u)[0] <= now
  {
    GateTimesInOrder(steps, u, now);
    FirstAtGate(steps, u);
    JoinTimesInOrder(steps, u);
  }

  /** No command is refused without cause: a refusal means that 30 commands of the user have been dispatched
      within the minute before. */
  lemma CommandRefusalHasCause(steps: seq<Step>, u: UserId, word: string, args: seq<string>, now: int)
    requires BanRuns.Timed(steps) && AllUntil(steps, now)
    requires Handle(Run(EMPTY_SERVER, steps), u, word, args, now).1 == TooManyCommands
    ensures Dispatched(steps, u, now - 60_000_000_000 + 1, now + 1) >= 30
  {
    var times, limits := GateTimes(steps, u), RunGate(EMPTY_GATE, steps).limits;
    RefusedInRun(steps, u, word, args, now);
    LimiterFollowsGate(steps, u, now - 60_000_000_000 + 1, now + 1);
    AllUntilGate(steps, u, now);
    SpentBefore(30, limits[u].commands, times, times[0], now);
  }

  /** And no join without five joins let through within the minute before. */
  lemma JoinRefusalHasCause(steps: seq<Step>, u: UserId, word: string, args: seq<string>, now: int)
    requires BanRuns.Timed(steps) && AllUntil(steps, now)
    requires Handle(Run(EMPTY_SERVER, steps), u, word, args, now).1 == TooManyJoins
    ensures JoinsAdmitted(steps, u, now - 60_000_000_000 + 1, now + 1) >= 5
  {
    var times, limits := GateTimes(steps, u), RunGate(EMPTY_GATE, steps).limits;
    RefusedInRun(steps, u, word, args, now);
    JoinLimiterFollowsGate(steps, u, now - 60_000_000_000 + 1, now + 1);
    AllUntilGate(steps, u, now);
    SpentBefore(5, limits[u].joins, JoinTimes(steps, u), times[0], now);
  }
}
