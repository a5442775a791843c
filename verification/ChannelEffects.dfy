/** What each command does: when it is carried out, and what is different afterwards. The conditions and the
    changes are spelled out in the channels and tables before and after, not in terms of the handlers. */
module ChannelEffects {
  import opened Base
  import opened Text
  import opened ChannelNames
  import opened Channels
  import opened ChannelRules
  import opened Commands

  // ----- Words ---------------------------------------------------------------------------------

  /** Command words are read without regard to case. */
  lemma VerbIgnoresCase(a: string, b: string)
    requires Fold(a) == Fold(b)
    ensures VerbOf(a) == VerbOf(b)
  {
  }

  lemma LowerCase(s: string)
    requires forall i | 0 <= i < |s| :: 'a' <= s[i] <= 'z'
    ensures Fold(s) == s
  {
    assert forall i | 0 <= i < |s| :: Fold(s)[i] == s[i];
  }

  lemma WordsForComingAndGoing()
    ensures VerbOf("join") == Join && VerbOf("part") == Part && VerbOf("leave") == Part && VerbOf("quit") == Quit
  {
    LowerCase("join");
    LowerCase("part");
    LowerCase("leave");
    LowerCase("quit");
  }

  lemma WordsForOperators()
    ensures VerbOf("kick") == Kick && VerbOf("ban") == Ban && VerbOf("invite") == Invite
  {
    LowerCase("kick");
    LowerCase("ban");
    LowerCase("invite");
  }

  lemma WordsForModes()
    ensures VerbOf("set") == Set && VerbOf("mode") == Mode && VerbOf("nick") == Nick
  {
    LowerCase("set");
    LowerCase("mode");
    LowerCase("nick");
  }

  const COMMAND_WORDS: set<string> := {
    "join", "part", "leave", "quit", "kick", "ban", "invite", "set", "mode", "nick", "whois", "me", "action",
    "topic", "msg", "query", "password", "pass", "resetdb"}

  /** Exactly these words are commands. */
  lemma UnknownIff(word: string)
    ensures VerbOf(word) == Unknown <==> Fold(word) !in COMMAND_WORDS
  {
  }

  lemma NotModelledIff(word: string)
    ensures VerbOf(word) == Other <==>
      Fold(word) in {"whois", "me", "action", "topic", "msg", "query", "password", "pass", "resetdb"}
  {
  }

  /** A request that the gate lets pass is carried out on the world, and one that it refuses is not. */
  lemma HandledIff(s: Server, u: UserId, word: string, args: seq<string>, now: int)
    ensures var (s', reply) := Handle(s, u, word, args, now);
      if Admit(s.gate, u, word == "", CountsAsJoin(word, args), now).1 == None
      then (s'.world, reply) == Act(s.world, u, VerbOf(word), args)
      else s'.world == s.world && reply in {EmptyCommand, TemporarilyBanned, TooManyCommands, TooManyJoins}
  {
  }

  // ----- Frames -----------------------------------------------------------------------------------

  /** Only this channel may differ. */
  ghost predicate OnlyChannel(w: World, w': World, name: string) {
    && w'.nickToUser == w.nickToUser && w'.userToNick == w.userToNick
    && (forall n | n != name :: n in w'.channels <==> n in w.channels)
    && (forall n | n != name && n in w.channels :: w'.channels[n] == w.channels[n])
  }

  predicate SameOptions(c: Channel, d: Channel) {
    c.inviteOnly == d.inviteOnly && c.moderated == d.moderated && c.topicRestricted == d.topicRestricted
  }

  predicate SameLists(c: Channel, d: Channel) {
    c.name == d.name && c.banned == d.banned && c.invites == d.invites
  }

  /** `d` is `c` without `v` in any of the three sets. */
  predicate WithoutUser(c: Channel, d: Channel, v: UserId) {
    && d.members == c.members - {v} && d.operators == c.operators - {v} && d.voiced == c.voiced - {v}
    && SameLists(c, d) && SameOptions(c, d)
  }

  /** The user a name stands for: the owner of the nickname, or else the user of that id. */
  predicate Names(w: World, name: string, v: UserId) {
    if name in w.nickToUser then w.nickToUser[name] == v else v == name
  }

  /** The caller is an operator of the channel named first. */
  predicate AsOperator(w: World, u: UserId, args: seq<string>, n: nat) {
    |args| >= n > 0 && args[0] in w.channels && u in w.channels[args[0]].operators
  }

  // ----- Coming and going ------------------------------------------------------------------------

  lemma JoinEffect(w: World, u: UserId, args: seq<string>)
    ensures var (w', reply) := Act(w, u, Join, args);
      && (reply != Done ==> w' == w)
      && (reply == Done <==>
            && args != [] && IsKey(Sanitized(args[0]))
            && (Sanitized(args[0]) in w.channels ==>
                  var c := w.channels[Sanitized(args[0])];
                  u !in c.banned && (!c.inviteOnly || u in c.invites || u in c.operators)))
    ensures Act(w, u, Join, args).1 == Done ==>
      var w', name := Act(w, u, Join, args).0, Sanitized(args[0]);
      && OnlyChannel(w, w', name) && name in w'.channels
      && (if name in w.channels then JoinedBy(w.channels[name], w'.channels[name], u)
          else FoundedBy(w'.channels[name], name, u))
  {
    if args != [] {
      JoinDone(w, u, args);
      if IsValidName(Sanitized(args[0])) {
        AcceptedNameIsKey(args[0]);
        AloneIff(GetOrNew(w, Sanitized(args[0])).members, u);
      }
    }
  }

  /** The user comes in, and becomes an operator if there is nobody else. */
  predicate JoinedBy(c: Channel, d: Channel, u: UserId) {
    && d.members == c.members + {u} && d.voiced == c.voiced && SameLists(c, d) && SameOptions(c, d)
    && d.operators == if c.members <= {u} then c.operators + {u} else c.operators
  }

  /** A channel as its first member finds it. */
  predicate FoundedBy(d: Channel, name: string, u: UserId) {
    && d.name == name && d.members == {u} && d.operators == {u}
    && d.voiced == {} && d.banned == {} && d.invites == {}
    && !d.inviteOnly && !d.moderated && d.topicRestricted
  }

  lemma JoinDone(w: World, u: UserId, args: seq<string>)
    requires args != []
    ensures JoinCommand(w, u, args).1 != Done ==> JoinCommand(w, u, args).0 == w
    ensures IsKey(Sanitized(args[0])) ==> IsValidName(Sanitized(args[0]))
  {
    var name := Sanitized(args[0]);
    if name in w.channels {
      assert w.channels[name := w.channels[name]] == w.channels;
    }
  }

  /** Parting takes the caller out of one channel, and the channel away if nobody else is in it. */
  lemma PartEffect(w: World, u: UserId, args: seq<string>)
    ensures var (w', reply) := Act(w, u, Part, args);
      && (reply != Done ==> w' == w)
      && (reply == Done <==> args != [] && args[0] in w.channels && u in w.channels[args[0]].members)
      && (reply == Done ==>
            && OnlyChannel(w, w', args[0])
            && (args[0] in w'.channels <==> w.channels[args[0]].members != {u})
            && (args[0] in w'.channels ==> WithoutUser(w.channels[args[0]], w'.channels[args[0]], u)))
  {
  }

  /** Quitting takes the caller out of every channel, and those away in which nobody else is. */
  lemma QuitEffect(w: World, u: UserId, args: seq<string>)
    ensures var (w', reply) := Act(w, u, Quit, args);
      && reply == Done && w'.nickToUser == w.nickToUser && w'.userToNick == w.userToNick
      && (forall n :: n in w'.channels <==> n in w.channels && w.channels[n].members != {u})
      && (forall n | n in w'.channels ::
            if u in w.channels[n].members then WithoutUser(w.channels[n], w'.channels[n], u)
            else w'.channels[n] == w.channels[n])
  {
  }

  // ----- Operators' commands ------------------------------------------------------------------------

  /** A kick is carried out exactly if the caller is an operator and the name stands for a member; then
      that member is in none of the three sets. */
  lemma KickEffect(w: World, u: UserId, args: seq<string>, v: UserId)
    requires |args| >= 2 ==> Names(w, args[1], v)
    ensures var (w', reply) := Act(w, u, Kick, args);
      && (reply != Done ==> w' == w)
      && (reply == Done <==> AsOperator(w, u, args, 2) && v in w.channels[args[0]].members)
      && (reply == Done ==>
            && OnlyChannel(w, w', args[0]) && args[0] in w'.channels
            && WithoutUser(w.channels[args[0]], w'.channels[args[0]], v))
  {
  }

  /** A ban is carried out exactly if the caller is an operator, whoever the name stands for; then that user
      is banned and no member. */
  lemma BanEffect(w: World, u: UserId, args: seq<string>, v: UserId)
    requires |args| >= 2 ==> Names(w, args[1], v)
    ensures var (w', reply) := Act(w, u, Ban, args);
      && (reply != Done ==> w' == w)
      && (reply == Done <==> AsOperator(w, u, args, 2))
      && (reply == Done ==>
            && OnlyChannel(w, w', args[0]) && args[0] in w'.channels
            && var c, d := w.channels[args[0]], w'.channels[args[0]];
            && d.banned == c.banned + {v} && d.members == c.members - {v} && SameOptions(c, d)
            && d.name == c.name && d.operators == c.operators && d.voiced == c.voiced && d.invites == c.invites)
  {
  }

  lemma InviteEffect(w: World, u: UserId, args: seq<string>, v: UserId)
    requires |args| >= 2 ==> Names(w, args[1], v)
    ensures var (w', reply) := Act(w, u, Invite, args);
      && (reply != Done ==> w' == w)
      && (reply == Done <==> AsOperator(w, u, args, 2))
      && (reply == Done ==>
            && OnlyChannel(w, w', args[0]) && args[0] in w'.channels
            && var c, d := w.channels[args[0]], w'.channels[args[0]];
            && d.invites == c.invites + {v} && SameRoles(c, d) && SameOptions(c, d))
  {
  }

  /** One of three options is set to what the value says. */
  lemma SetEffect(w: World, u: UserId, args: seq<string>)
    ensures var (w', reply) := Act(w, u, Set, args);
      && (reply != Done ==> w' == w)
      && (reply == Done <==> (
            && AsOperator(w, u, args, 3)
            && Fold(args[1]) in {"invite_only", "moderated", "topic_restricted"}))
      && (reply == Done ==>
            && OnlyChannel(w, w', args[0]) && args[0] in w'.channels
            && var c, d, option, on := w.channels[args[0]], w'.channels[args[0]], Fold(args[1]),
                                       args[2] in {"true", "1", "on"};
            && SameRoles(c, d) && d.invites == c.invites
            && d.inviteOnly == (if option == "invite_only" then on else c.inviteOnly)
            && d.moderated == (if option == "moderated" then on else c.moderated)
            && d.topicRestricted == (if option == "topic_restricted" then on else c.topicRestricted))
  {
  }

  /** A mode is changed exactly if the caller is an operator, the name stands for a member, and the mode is
      one of four. */
  lemma ModeDoneIff(w: World, u: UserId, args: seq<string>, v: UserId)
    requires |args| >= 3 ==> Names(w, args[2], v)
    ensures var (w', reply) := Act(w, u, Mode, args);
      && (reply != Done ==> w' == w)
      && (reply == Done <==> (
            && AsOperator(w, u, args, 3) && v in w.channels[args[0]].members
            && args[1] in {"+o", "-o", "+v", "-v"}))
  {
  }

  /** Then one of the two bits of that member is set or cleared. */
  lemma ModeEffect(w: World, u: UserId, args: seq<string>, v: UserId)
    requires AsOperator(w, u, args, 3) && v in w.channels[args[0]].members && Names(w, args[2], v)
    requires args[1] in {"+o", "-o", "+v", "-v"}
    ensures var w', c := Act(w, u, Mode, args).0, w.channels[args[0]];
      && OnlyChannel(w, w', args[0]) && args[0] in w'.channels
      && w'.channels[args[0]] == match args[1]
                                 case "+o" => c.(operators := c.operators + {v})
                                 case "-o" => c.(operators := c.operators - {v})
                                 case "+v" => c.(voiced := c.voiced + {v})
                                 case _ => c.(voiced := c.voiced - {v})
  {
  }

  // ----- Nicknames -----------------------------------------------------------------------------------

  /** A nick is taken exactly if it is free or the caller's own; the entry under the caller's former nick,
      or under the caller's id if there was none, is gone. */
  lemma NickEffect(w: World, u: UserId, args: seq<string>)
    ensures var (w', reply) := Act(w, u, Nick, args);
      && (reply != Done ==> w' == w)
      && (reply == Done <==> args != [] && (args[0] in w.nickToUser ==> w.nickToUser[args[0]] == u))
      && (reply == Done ==>
            && w'.channels == w.channels && w'.userToNick == w.userToNick[u := args[0]]
            && args[0] in w'.nickToUser && w'.nickToUser[args[0]] == u
            && forall n | n != args[0] ::
                 && (n in w'.nickToUser <==> n in w.nickToUser && !IsFormerNick(w, u, n))
                 && (n in w'.nickToUser ==> w'.nickToUser[n] == w.nickToUser[n]))
  {
  }

  predicate IsFormerNick(w: World, u: UserId, n: string) {
    if u in w.userToNick then w.userToNick[u] == n else n == u
  }

  /** The commands that are not modelled, and words that are no commands, change nothing here. */
  lemma OthersChangeNothing(w: World, u: UserId, args: seq<string>)
    ensures Act(w, u, Other, args).0 == w && Act(w, u, Unknown, args) == (w, UnknownCommand)
  {
  }

  // ----- Refusals: which reply means what ---------------------------------------------------------------

  function NeededArgs(verb: Verb): nat {
    if verb in {Join, Part, Nick} then 1 else if verb in {Kick, Ban, Invite} then 2
    else if verb in {Set, Mode} then 3 else 0
  }

  lemma UsageIff(w: World, u: UserId, verb: Verb, args: seq<string>)
    ensures Act(w, u, verb, args).1 == Usage <==> |args| < NeededArgs(verb)
  {
  }

  /** The command is about a channel that must exist, and is complete. */
  predicate IsAboutChannel(verb: Verb, args: seq<string>) {
    verb in {Part, Kick, Ban, Invite, Set, Mode} && |args| >= NeededArgs(verb)
  }

  lemma NoSuchChannelIff(w: World, u: UserId, verb: Verb, args: seq<string>)
    ensures Act(w, u, verb, args).1 == NoSuchChannel <==> IsAboutChannel(verb, args) && args[0] !in w.channels
  {
  }

  predicate IsAbout(c: Channel, w: World, verb: Verb, args: seq<string>) {
    IsAboutChannel(verb, args) && args[0] in w.channels && w.channels[args[0]] == c
  }

  lemma NotOperatorIff(w: World, u: UserId, verb: Verb, args: seq<string>, c: Channel)
    requires IsAbout(c, w, verb, args)
    ensures Act(w, u, verb, args).1 == NotOperator <==> verb != Part && u !in c.operators
    ensures Act(w, u, verb, args).1 == NotInChannel <==> verb == Part && u !in c.members
  {
  }

  /** What an operator may be told; `v` is whom a kick or a mode is about. */
  lemma OperatorIsToldIff(w: World, u: UserId, verb: Verb, args: seq<string>, c: Channel, v: UserId)
    requires IsAbout(c, w, verb, args) && u in c.operators && verb != Part
    requires (verb == Kick ==> Names(w, args[1], v)) && (verb == Mode ==> Names(w, args[2], v))
    ensures var reply := Act(w, u, verb, args).1;
      && (reply == UserNotFound <==> verb == Kick && args[1] !in w.nickToUser && v !in c.members)
      && (reply == TargetNotInChannel <==>
            (verb == Mode || (verb == Kick && args[1] in w.nickToUser)) && v !in c.members)
      && (reply == UnknownMode <==>
            verb == Mode && v in c.members && args[1] !in {"+o", "-o", "+v", "-v"})
      && (reply == UnknownOption <==>
            verb == Set && Fold(args[1]) !in {"invite_only", "moderated", "topic_restricted"})
  {
  }

  /** Why somebody may not come in. */
  lemma RefusedJoinIff(w: World, u: UserId, args: seq<string>)
    requires args != []
    ensures var reply, name := Act(w, u, Join, args).1, Sanitized(args[0]);
      && (reply == InvalidName <==> !IsKey(name))
      && (reply == BannedFromChannel <==> IsKey(name) && name in w.channels && u in w.channels[name].banned)
      && (reply == InviteRequired <==> (
            && IsKey(name) && name in w.channels && u !in w.channels[name].banned && w.channels[name].inviteOnly
            && u !in w.channels[name].invites && u !in w.channels[name].operators))
  {
    JoinDone(w, u, args);
    if IsValidName(Sanitized(args[0])) {
      AcceptedNameIsKey(args[0]);
    }
  }

  lemma NickInUseIff(w: World, u: UserId, args: seq<string>)
    requires args != []
    ensures Act(w, u, Nick, args).1 == NickInUse <==> args[0] in w.nickToUser && w.nickToUser[args[0]] != u
  {
  }
}
