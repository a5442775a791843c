/** Channels over whole runs of the handler: what lasts, who can change what, and what goes wrong. */
module ChannelRuns {
  import opened Base
  import opened Text
  import opened ChannelNames
  import opened Channels
  import opened ChannelRules
  import opened RateLimit
  import opened Commands
  import opened CommandRuns

  /** The channel exists at every point of the run. */
  ghost predicate Lives(s: Server, steps: seq<Step>, name: string) {
    forall i | 0 <= i <= |steps| :: name in Run(s, steps[..i]).world.channels
  }

  lemma LivesPrefix(s: Server, steps: seq<Step>, name: string)
    requires steps != [] && Lives(s, steps, name)
    ensures Lives(s, steps[..|steps| - 1], name) && name in Run(s, steps).world.channels
  {
    var prefix := steps[..|steps| - 1];
    assert steps[..|steps|] == steps;
    forall i | 0 <= i <= |prefix| ensures name in Run(s, prefix[..i]).world.channels {
      assert prefix[..i] == steps[..i];
    }
  }

  lemma {:induction false} GoodLater(s: Server, steps: seq<Step>)
    requires Good(s.world)
    ensures Good(Run(s, steps).world)
    decreases |steps|
  {
    if steps != [] {
      var before, step := Run(s, steps[..|steps| - 1]), steps[|steps| - 1];
      GoodLater(s, steps[..|steps| - 1]);
      NextWorld(before, step);
      if step.Request? {
        ActKeepsGood(before.world, step.user, VerbOf(step.word), step.args);
      }
    }
  }

  /** The channel at the beginning of a run it lives through. */
  function ChannelOf(s: Server, name: string): Channel {
    GetOrNew(s.world, name)
  }

  // ----- What lasts ----------------------------------------------------------------------------

  /** Whoever is banned from a channel is not a member at any later point of the run, and keeps the
      operator bit if there was one, for as long as the channel exists, whoever does what. */
  lemma {:induction false} BannedForGood(s: Server, steps: seq<Step>, name: string, v: UserId)
    requires Good(s.world) && Lives(s, steps, name)
    requires name in s.world.channels && v in s.world.channels[name].banned
    ensures var w := Run(s, steps).world;
      && name in w.channels && v in w.channels[name].banned && v !in w.channels[name].members
      && (v in s.world.channels[name].operators ==> v in w.channels[name].operators)
    decreases |steps|
  {
    GoodLater(s, steps);
    if steps != [] {
      var before, step := Run(s, steps[..|steps| - 1]), steps[|steps| - 1];
      LivesPrefix(s, steps, name);
      GoodLater(s, steps[..|steps| - 1]);
      BannedForGood(s, steps[..|steps| - 1], name, v);
      NextWorld(before, step);
      if step.Request? {
        BanIsForever(before.world, step.user, VerbOf(step.word), step.args, name, v);
        if v in before.world.channels[name].operators {
          BannedOperatorIsForever(before.world, step.user, VerbOf(step.word), step.args, name, v);
        }
      }
    }
    assert Consistent(Run(s, steps).world.channels[name]);
  }

  /** An invitation is never taken back: at any later point of a run that the channel lives through, the
      invited user may enter, invite-only or not, exactly if not banned by then. */
  lemma {:induction false} InvitationLasts(s: Server, steps: seq<Step>, name: string, v: UserId)
    requires Lives(s, steps, name) && v in ChannelOf(s, name).invites
    ensures var c := ChannelOf(Run(s, steps), name);
      v in c.invites && (MayEnter(c, v) <==> v !in c.banned)
    decreases |steps|
  {
    if steps != [] {
      var before, step := Run(s, steps[..|steps| - 1]), steps[|steps| - 1];
      LivesPrefix(s, steps, name);
      LivesAtEnd(s, steps[..|steps| - 1], name);
      InvitationLasts(s, steps[..|steps| - 1], name, v);
      NextWorld(before, step);
      if step.Request? {
        InvitationStays(before.world, step.user, VerbOf(step.word), step.args, name, v);
      }
    } else {
      LivesAtEnd(s, steps, name);
    }
  }

  lemma LivesAtEnd(s: Server, steps: seq<Step>, name: string)
    requires Lives(s, steps, name)
    ensures name in Run(s, steps).world.channels
  {
    assert steps[..|steps|] == steps;
  }

  predicate IsJoinBy(step: Step, u: UserId) {
    step.Request? && step.user == u && VerbOf(step.word) == Join
  }

  lemma StepKeepsOut(s: Server, u: UserId, step: Step, name: string)
    requires u !in Members(s.world, name) && !IsJoinBy(step, u)
    ensures u !in Members(Next(s, step).world, name)
  {
    StepMovesMembers(s, step, name);
    var newcomers := Members(Next(s, step).world, name) - Members(s.world, name);
    assert u !in newcomers;
  }

  lemma {:induction false} StaysOut(s: Server, u: UserId, steps: seq<Step>, name: string)
    requires u !in Members(s.world, name)
    requires forall i | 0 <= i < |steps| :: !IsJoinBy(steps[i], u)
    ensures u !in Members(Run(s, steps).world, name)
    decreases |steps|
  {
    if steps != [] {
      var n := |steps| - 1;
      StaysOut(s, u, steps[..n], name);
      StepKeepsOut(Run(s, steps[..n]), u, steps[n], name);
    }
  }

  lemma QuitGetsOut(s: Server, u: UserId, word: string, args: seq<string>, t: int, name: string)
    requires VerbOf(word) == Quit && Handle(s, u, word, args, t).1 == Done
    ensures u !in Members(Handle(s, u, word, args, t).0.world, name)
  {
    QuitLeavesEverything(s.world, u, args, name);
  }

  /** Whoever has quit is in no member set at any later point of the run until joining again. */
  lemma QuitLasts(s: Server, u: UserId, word: string, args: seq<string>, t: int, steps: seq<Step>, name: string)
    requires VerbOf(word) == Quit && Handle(s, u, word, args, t).1 == Done
    requires forall i | 0 <= i < |steps| :: !IsJoinBy(steps[i], u)
    ensures u !in Members(Run(Handle(s, u, word, args, t).0, steps).world, name)
  {
    QuitGetsOut(s, u, word, args, t, name);
    StaysOut(Handle(s, u, word, args, t).0, u, steps, name);
  }

  // ----- Who gets in ---------------------------------------------------------------------------

  /** A join of `v` that finds the channel new, or its door open to `v`. */
  ghost predicate EntersAt(s: Server, step: Step, name: string, v: UserId) {
    && IsJoinBy(step, v) && JoinIsCounted(step.args) && Sanitized(step.args[0]) == name
    && (name !in s.world.channels ||
        var c := s.world.channels[name];
        v !in c.banned && (!c.inviteOnly || v in c.invites || v in c.operators))
  }

  lemma StepThroughDoor(s: Server, step: Step, name: string, v: UserId)
    requires v !in Members(s.world, name) && v in Members(Next(s, step).world, name)
    ensures EntersAt(s, step, name, v)
  {
    var newcomers := Members(Next(s, step).world, name) - Members(s.world, name);
    assert v in newcomers;
    StepMovesMembers(s, step, name);
    NextWorld(s, step);
    JoinGrantedIff(s.world, v, step.args);
    RefusedJoinMovesNobody(s.world, v, step.args, name);
    if step.args == [] || Sanitized(step.args[0]) != name {
      OtherRoomUntouched(s.world, v, step.args, name);
      assert false;
    }
  }

  lemma RefusedJoinMovesNobody(w: World, u: UserId, args: seq<string>, name: string)
    ensures JoinCommand(w, u, args).1 != Done ==> Members(JoinCommand(w, u, args).0, name) == Members(w, name)
  {
  }

  lemma OtherRoomUntouched(w: World, u: UserId, args: seq<string>, name: string)
    requires args == [] || Sanitized(args[0]) != name
    ensures Members(JoinCommand(w, u, args).0, name) == Members(w, name)
  {
  }

  /** Whoever is a member at the end of a run and was none at its beginning came in through the door: by a
      join of one's own, at a time when the channel was new, or one was not banned and, in an invite-only
      channel, invited or an operator. */
  lemma {:induction false} EntryThroughDoor(s: Server, steps: seq<Step>, name: string, v: UserId) returns (i: nat)
    requires v !in Members(s.world, name) && v in Members(Run(s, steps).world, name)
    ensures i < |steps| && EntersAt(Run(s, steps[..i]), steps[i], name, v)
    decreases |steps|
  {
    var n := |steps| - 1;
    if v in Members(Run(s, steps[..n]).world, name) {
      i := EntryThroughDoor(s, steps[..n], name, v);
      assert steps[..n][..i] == steps[..i] && steps[..n][i] == steps[i];
    } else {
      StepThroughDoor(Run(s, steps[..n]), steps[n], name, v);
      i := n;
    }
  }

  // ----- Who can change what -------------------------------------------------------------------

  /** Bans, invitations and options. */
  function Settings(c: Channel): Channel {
    c.(members := {}, operators := {}, voiced := {})
  }

  /** Member, operator, voiced. */
  function Place(c: Channel, v: UserId): (bool, bool, bool) {
    (v in c.members, v in c.operators, v in c.voiced)
  }

  /** Step `i` of the run is a request by a user who is then an operator of the channel. */
  ghost predicate ByOperator(s: Server, steps: seq<Step>, i: nat, name: string) {
    && i < |steps| && steps[i].Request?
    && steps[i].user in Operators(Run(s, steps[..i]).world, name)
  }

  lemma StepGoverned(s: Server, step: Step, name: string, v: UserId)
    requires name in s.world.channels && name in Next(s, step).world.channels
    requires step.Request? ==> step.user !in Operators(s.world, name)
    ensures Settings(ChannelOf(Next(s, step), name)) == Settings(ChannelOf(s, name))
    ensures !(step.Request? && step.user == v) ==>
      Place(ChannelOf(Next(s, step), name), v) == Place(ChannelOf(s, name), v)
  {
    NextWorld(s, step);
    if step.Request? {
      var w := Act(s.world, step.user, VerbOf(step.word), step.args).0;
      OnlyOperatorsGovern(s.world, step.user, VerbOf(step.word), step.args, name);
      if Next(s, step).world == w && v != step.user {
        var c, d := s.world.channels[name], w.channels[name];
        assert v in c.members - {step.user} <==> v in d.members - {step.user};
        assert v in c.operators - {step.user} <==> v in d.operators - {step.user};
        assert v in c.voiced - {step.user} <==> v in d.voiced - {step.user};
      }
    }
  }

  lemma ByOperatorEarlier(s: Server, steps: seq<Step>, i: nat, name: string)
    requires steps != [] && ByOperator(s, steps[..|steps| - 1], i, name)
    ensures ByOperator(s, steps, i, name)
  {
    assert steps[..|steps| - 1][..i] == steps[..i];
  }

  /** If a channel that lives through a run has other bans, invitations or options at its end, then some
      step in between was taken by a user who was then an operator. */
  lemma {:induction false} SettingsAreGoverned(s: Server, steps: seq<Step>, name: string) returns (i: nat)
    requires Lives(s, steps, name)
    requires Settings(ChannelOf(Run(s, steps), name)) != Settings(ChannelOf(s, name))
    ensures ByOperator(s, steps, i, name)
    decreases |steps|
  {
    var n := |steps| - 1;
    var before := Run(s, steps[..n]);
    LivesPrefix(s, steps, name);
    LivesAtEnd(s, steps[..n], name);
    if Settings(ChannelOf(before, name)) != Settings(ChannelOf(s, name)) {
      i := SettingsAreGoverned(s, steps[..n], name);
      ByOperatorEarlier(s, steps, i, name);
    } else {
      i := n;
      if !ByOperator(s, steps, n, name) {
        StepGoverned(before, steps[n], name, "");
      }
    }
  }

  /** And if a user's place in it differs, some step was taken by that user or by a then-operator. */
  lemma {:induction false} PlacesAreGoverned(s: Server, steps: seq<Step>, name: string, v: UserId) returns (i: nat)
    requires Lives(s, steps, name)
    requires Place(ChannelOf(Run(s, steps), name), v) != Place(ChannelOf(s, name), v)
    ensures ByOperator(s, steps, i, name) || (i < |steps| && steps[i].Request? && steps[i].user == v)
    decreases |steps|
  {
    var n := |steps| - 1;
    var before := Run(s, steps[..n]);
    LivesPrefix(s, steps, name);
    LivesAtEnd(s, steps[..n], name);
    if Place(ChannelOf(before, name), v) != Place(ChannelOf(s, name), v) {
      i := PlacesAreGoverned(s, steps[..n], name, v);
      if ByOperator(s, steps[..n], i, name) {
        ByOperatorEarlier(s, steps, i, name);
      }
    } else {
      i := n;
      if !ByOperator(s, steps, n, name) && !(steps[n].Request? && steps[n].user == v) {
        StepGoverned(before, steps[n], name, v);
      }
    }
  }

  // ----- Operators and members -----------------------------------------------------------------

  /** The step carries out a ban of an operator by an operator. */
  predicate CarriesOutBan(s: Server, step: Step) {
    && step.Request? && BansOperator(s.world, step.user, VerbOf(step.word), step.args)
    && Handle(s, step.user, step.word, step.args, step.at).1 == Done
  }

  lemma StepKeepsOperatorsMembers(s: Server, step: Step)
    requires OperatorsAreMembers(s.world)
    ensures OperatorsAreMembers(Next(s, step).world) <==> !CarriesOutBan(s, step)
  {
    if step.Request? {
      OperatorsAreMembersIff(s.world, step.user, VerbOf(step.word), step.args);
    }
  }

  /** Operators are members in every run in which no operator carries out a ban of an operator; and the
      first such ban ends it. */
  lemma {:induction false} OperatorsAreMembersInRuns(steps: seq<Step>)
    requires forall i | 0 <= i < |steps| - 1 :: !CarriesOutBan(Run(EMPTY_SERVER, steps[..i]), steps[i])
    ensures OperatorsAreMembers(Run(EMPTY_SERVER, steps).world) <==>
      (steps == [] || !CarriesOutBan(Run(EMPTY_SERVER, steps[..|steps| - 1]), steps[|steps| - 1]))
    decreases |steps|
  {
    if steps != [] {
      var prefix := steps[..|steps| - 1];
      forall i | 0 <= i < |prefix| ensures !CarriesOutBan(Run(EMPTY_SERVER, prefix[..i]), prefix[i]) {
        assert prefix[..i] == steps[..i];
        assert !CarriesOutBan(Run(EMPTY_SERVER, steps[..i]), steps[i]);
      }
      OperatorsAreMembersInRuns(prefix);
      StepKeepsOperatorsMembers(Run(EMPTY_SERVER, prefix), steps[|steps| - 1]);
    }
  }

  // ----- Two runs --------------------------------------------------------------------------------

  /** Nobody has a record, and nobody has used more than `n` of any budget. */
  ghost predicate Calm(g: Gate, n: nat) {
    && g.records == map[]
    && forall u | u in g.limits ::
         && g.limits[u].commands.maxTokens == 30 && g.limits[u].commands.count <= n
         && g.limits[u].joins.maxTokens == 5 && g.limits[u].joins.count <= n
  }

  lemma CalmGate(g: Gate, u: UserId, join: bool, t: int, n: nat)
    requires Calm(g, n) && n < 5
    ensures var (g', refusal) := Admit(g, u, false, join, t);
      refusal == None && Calm(g', n + 1)
  {
  }

  /** The first five commands are all carried out. */
  lemma CalmStep(s: Server, u: UserId, word: string, args: seq<string>, t: int, n: nat)
    requires Calm(s.gate, n) && n < 5 && word != ""
    ensures var s' := Handle(s, u, word, args, t).0;
      s'.world == Act(s.world, u, VerbOf(word), args).0 && Calm(s'.gate, n + 1)
  {
    CalmGate(s.gate, u, CountsAsJoin(word, args), t, n);
  }

  lemma RunSnoc(s: Server, steps: seq<Step>, step: Step)
    ensures Run(s, steps + [step]) == Next(Run(s, steps), step)
  {
    assert (steps + [step])[..|steps|] == steps;
  }

  lemma CalmRun(steps: seq<Step>, u: UserId, word: string, args: seq<string>, t: int)
    requires Calm(Run(EMPTY_SERVER, steps).gate, |steps|) && |steps| < 5 && word != ""
    ensures var s' := Run(EMPTY_SERVER, steps + [Request(u, word, args, t)]);
      && s'.world == Act(Run(EMPTY_SERVER, steps).world, u, VerbOf(word), args).0
      && Calm(s'.gate, |steps| + 1)
  {
    RunSnoc(EMPTY_SERVER, steps, Request(u, word, args, t));
    CalmStep(Run(EMPTY_SERVER, steps), u, word, args, t, |steps|);
  }

  lemma Words()
    ensures VerbOf("join") == Join && VerbOf("mode") == Mode && VerbOf("ban") == Ban && VerbOf("nick") == Nick
  {
    assert Fold("join") == "join" && Fold("mode") == "mode" && Fold("ban") == "ban" && Fold("nick") == "nick";
  }

  // A run in which an operator is no member: alice and bob join, alice makes bob an operator and bans him.

  const BOTH_JOIN := [Request("alice", "join", ["#a"], 0)] + [Request("bob", "join", ["#a"], 0)]
  const BOB_GRANTED := BOTH_JOIN + [Request("alice", "mode", ["#a", "+o", "bob"], 0)]
  const BOB_BANNED := BOB_GRANTED + [Request("alice", "ban", ["#a", "bob"], 0)]

  lemma RoomName()
    ensures Sanitized("#a") == "#a" && JoinIsCounted(["#a"])
  {
    assert FirstPrefix("#a") == 0;
    assert "#a"[..0] == "" && "#a"[1..] == "a" && "a"[..0] == "" && IsValidChar('a');
    assert Kept("") == "" && Kept("a") == "a";
    assert "" + "#" + "a" == "#a";
  }

  /** A channel as it is after joins only. */
  ghost predicate Plain(w: World, members: set<UserId>, operators: set<UserId>) {
    && w.nickToUser == map[] && "#a" in w.channels
    && w.channels["#a"].members == members && w.channels["#a"].operators == operators
    && w.channels["#a"].banned == {} && !w.channels["#a"].inviteOnly
  }

  lemma PlainJoin(w: World, u: UserId, members: set<UserId>, operators: set<UserId>)
    requires w.nickToUser == map[]
    requires if "#a" in w.channels then Plain(w, members, operators) else members == operators == {}
    ensures Plain(Act(w, u, Join, ["#a"]).0, members + {u}, if members <= {u} then operators + {u} else operators)
  {
    RoomName();
    AloneIff(members, u);
  }

  lemma AfterFirstJoin()
    ensures var s := Run(EMPTY_SERVER, [Request("alice", "join", ["#a"], 0)]);
      Calm(s.gate, 1) && Plain(s.world, {"alice"}, {"alice"})
  {
    Words();
    var first := [Request("alice", "join", ["#a"], 0)];
    assert [] + first == first && {} + {"alice"} == {"alice"};
    CalmRun([], "alice", "join", ["#a"], 0);
    PlainJoin(EMPTY_WORLD, "alice", {}, {});
  }

  lemma AfterJoins()
    ensures var s := Run(EMPTY_SERVER, BOTH_JOIN);
      Calm(s.gate, 2) && Plain(s.world, {"alice", "bob"}, {"alice"})
  {
    Words();
    AfterFirstJoin();
    var first := [Request("alice", "join", ["#a"], 0)];
    CalmRun(first, "bob", "join", ["#a"], 0);
    PlainJoin(Run(EMPTY_SERVER, first).world, "bob", {"alice"}, {"alice"});
    assert {"alice"} + {"bob"} == {"alice", "bob"};
  }

  lemma PlainGrant(w: World)
    requires Plain(w, {"alice", "bob"}, {"alice"})
    ensures Plain(Act(w, "alice", Mode, ["#a", "+o", "bob"]).0, {"alice", "bob"}, {"alice", "bob"})
  {
    assert {"alice"} + {"bob"} == {"alice", "bob"};
  }

  lemma AfterGrant()
    ensures var s := Run(EMPTY_SERVER, BOB_GRANTED);
      Calm(s.gate, 3) && Plain(s.world, {"alice", "bob"}, {"alice", "bob"})
  {
    Words();
    AfterJoins();
    CalmRun(BOTH_JOIN, "alice", "mode", ["#a", "+o", "bob"], 0);
    PlainGrant(Run(EMPTY_SERVER, BOTH_JOIN).world);
  }

  /** The end of the run: bob is an operator, but no member. */
  ghost predicate BobIsOut(w: World) {
    && "#a" in w.channels && "bob" in w.channels["#a"].operators && "bob" !in w.channels["#a"].members
    && !OperatorsAreMembers(w)
  }

  lemma PlainBan(w: World)
    requires Plain(w, {"alice", "bob"}, {"alice", "bob"})
    ensures BobIsOut(Act(w, "alice", Ban, ["#a", "bob"]).0)
  {
    var c := Act(w, "alice", Ban, ["#a", "bob"]).0.channels["#a"];
    assert "bob" in c.operators && "bob" !in c.members;
  }

  /** It does happen. */
  lemma BannedOperatorRun()
    ensures BobIsOut(Run(EMPTY_SERVER, BOB_BANNED).world)
  {
    Words();
    AfterGrant();
    CalmRun(BOB_GRANTED, "alice", "ban", ["#a", "bob"], 0);
    PlainBan(Run(EMPTY_SERVER, BOB_GRANTED).world);
  }

  // A run in which the nickname tables part: bob takes the id of alice, then alice takes another nick.

  const BOB_IS_ALICE := [Request("bob", "nick", ["alice"], 0)]

  /** It does happen: bob still goes by "alice" in one table, but nobody does in the other. */
  lemma ErasedNickRun()
    ensures var w := Run(EMPTY_SERVER, BOB_IS_ALICE + [Request("alice", "nick", ["zed"], 0)]).world;
      && "bob" in w.userToNick && w.userToNick["bob"] == "alice" && "alice" !in w.nickToUser
      && NicksOwned(w) && !NicksMirrored(w)
  {
    Words();
    assert [] + BOB_IS_ALICE == BOB_IS_ALICE;
    CalmRun([], "bob", "nick", ["alice"], 0);
    var w := Run(EMPTY_SERVER, BOB_IS_ALICE).world;
    assert w.nickToUser == map["alice" := "bob"] && w.userToNick == map["bob" := "alice"];
    CalmRun(BOB_IS_ALICE, "alice", "nick", ["zed"], 0);
    assert ErasesForeignNick(w, "alice", Nick, ["zed"]);
    assert NicksMirrored(w);
    NicksMirroredIff(w, "alice", Nick, ["zed"]);
    ActKeepsNicksOwned(w, "alice", Nick, ["zed"]);
  }
}
