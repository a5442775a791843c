/** Who may do what in a channel: doors, bans, and what only operators can change. */
module ChannelRules {
  import opened Base
  import opened ChannelNames
  import opened Channels

  // ----- The door ------------------------------------------------------------------------

  lemma AloneIff(members: set<UserId>, u: UserId)
    ensures |members + {u}| == 1 <==> members <= {u}
  {
    if members <= {u} {
      assert members + {u} == {u};
    } else if |members + {u}| == 1 {
      SingletonOf(members + {u}, u);
    }
  }

  /** A join is granted exactly if the name is valid and the channel is new, or the caller is not banned
      and the channel is not invite-only or the caller invited or an operator. */
  lemma JoinGrantedIff(w: World, u: UserId, args: seq<string>)
    ensures JoinCommand(w, u, args).1 == Done <==>
      && JoinIsCounted(args)
      && (Sanitized(args[0]) !in w.channels ||
          var c := w.channels[Sanitized(args[0])];
          u !in c.banned && (!c.inviteOnly || u in c.invites || u in c.operators))
  {
  }

  /** Then the caller is a member, everybody else stays what they were, and the caller is an operator if
      alone or if one before. */
  lemma GrantedJoin(w: World, u: UserId, args: seq<string>)
    requires JoinCommand(w, u, args).1 == Done
    ensures var w', name := JoinCommand(w, u, args).0, Sanitized(args[0]);
      && Members(w', name) == Members(w, name) + {u}
      && Operators(w', name) == Operators(w, name) + if Members(w, name) <= {u} then {u} else {}
  {
    AloneIff(GetOrNew(w, Sanitized(args[0])).members, u);
  }

  /** There is no way to lift a ban: it lasts as long as the channel does, and shuts the door. */
  lemma BanIsForever(w: World, u: UserId, verb: Verb, args: seq<string>, name: string, v: UserId)
    requires name in w.channels && v in w.channels[name].banned
    ensures var w' := Act(w, u, verb, args).0;
      name in w'.channels ==> v in w'.channels[name].banned && !MayEnter(w'.channels[name], v)
  {
    match verb
    case Join => BanStaysOnJoin(w, u, args, name, v);
    case Kick => BanStaysOnJoin(w, u, args, name, v);
    case Ban => BanStaysOnJoin(w, u, args, name, v);
    case Mode => BanStaysOnEdit(w, u, args, name, v);
    case Invite => BanStaysOnEdit(w, u, args, name, v);
    case Set => BanStaysOnSet(w, u, args, name, v);
    case Part => BanStaysOnLeaving(w, u, args, name, v);
    case Quit => BanStaysOnLeaving(w, u, args, name, v);
    case Nick => assert NickCommand(w, u, args).0.channels == w.channels;
    case Other =>
    case Unknown =>
  }

  predicate StaysBanned(w: World, name: string, v: UserId) {
    name in w.channels ==> v in w.channels[name].banned
  }

  lemma BanStaysOnJoin(w: World, u: UserId, args: seq<string>, name: string, v: UserId)
    requires name in w.channels && v in w.channels[name].banned
    ensures StaysBanned(JoinCommand(w, u, args).0, name, v)
    ensures StaysBanned(KickCommand(w, u, args).0, name, v)
    ensures StaysBanned(BanCommand(w, u, args).0, name, v)
  {
  }

  lemma BanStaysOnEdit(w: World, u: UserId, args: seq<string>, name: string, v: UserId)
    requires name in w.channels && v in w.channels[name].banned
    ensures StaysBanned(ModeCommand(w, u, args).0, name, v)
    ensures StaysBanned(InviteCommand(w, u, args).0, name, v)
  {
  }

  lemma BanStaysOnSet(w: World, u: UserId, args: seq<string>, name: string, v: UserId)
    requires name in w.channels && v in w.channels[name].banned
    ensures StaysBanned(SetCommand(w, u, args).0, name, v)
  {
    SetKeepsRoles(w, u, args);
  }

  lemma BanStaysOnLeaving(w: World, u: UserId, args: seq<string>, name: string, v: UserId)
    requires name in w.channels && v in w.channels[name].banned
    ensures StaysBanned(PartCommand(w, u, args).0, name, v)
    ensures StaysBanned(QuitCommand(w, u).0, name, v)
  {
  }

  // ----- What only operators can change -----------------------------------------------------

  predicate DifferOnlyBy(s: set<UserId>, t: set<UserId>, u: UserId) {
    s - {u} == t - {u}
  }

  /** What a user who is not an operator can change about a channel: the user's own place in it. */
  predicate OwnPlaceOnly(c: Channel, d: Channel, u: UserId) {
    && c.name == d.name && c.banned == d.banned && c.invites == d.invites
    && c.inviteOnly == d.inviteOnly && c.moderated == d.moderated && c.topicRestricted == d.topicRestricted
    && DifferOnlyBy(c.members, d.members, u)
    && DifferOnlyBy(c.operators, d.operators, u)
    && DifferOnlyBy(c.voiced, d.voiced, u)
  }

  predicate Governed(w: World, w': World, u: UserId, name: string) {
    name in w.channels && name in w'.channels && u !in w.channels[name].operators ==>
      OwnPlaceOnly(w.channels[name], w'.channels[name], u)
  }

  lemma JoinGoverned(w: World, u: UserId, args: seq<string>, name: string)
    ensures Governed(w, JoinCommand(w, u, args).0, u, name)
  {
    if JoinIsCounted(args) {
      EntryGoverned(w, u, Sanitized(args[0]), name);
    }
  }

  lemma EntryGoverned(w: World, u: UserId, entered: string, name: string)
    ensures Governed(w, JoinChannel(w, u, entered).0, u, name)
  {
  }

  lemma PartGoverned(w: World, u: UserId, args: seq<string>, name: string)
    ensures Governed(w, PartCommand(w, u, args).0, u, name)
  {
  }

  lemma QuitGoverned(w: World, u: UserId, name: string)
    ensures Governed(w, QuitCommand(w, u).0, u, name)
  {
  }

  lemma EditGoverned(w: World, u: UserId, args: seq<string>, name: string)
    ensures Governed(w, KickCommand(w, u, args).0, u, name)
    ensures Governed(w, BanCommand(w, u, args).0, u, name)
    ensures Governed(w, InviteCommand(w, u, args).0, u, name)
  {
  }

  lemma ModeGoverned(w: World, u: UserId, args: seq<string>, name: string)
    ensures Governed(w, ModeCommand(w, u, args).0, u, name)
  {
  }

  lemma SetGoverned(w: World, u: UserId, args: seq<string>, name: string)
    ensures Governed(w, SetCommand(w, u, args).0, u, name)
  {
  }

  /** Bans, invitations, options and everybody else's place are in the hands of operators alone. */
  lemma OnlyOperatorsGovern(w: World, u: UserId, verb: Verb, args: seq<string>, name: string)
    ensures var w' := Act(w, u, verb, args).0;
      name in w.channels && name in w'.channels && u !in w.channels[name].operators ==>
        OwnPlaceOnly(w.channels[name], w'.channels[name], u)
  {
    match verb
    case Join => JoinGoverned(w, u, args, name);
    case Part => PartGoverned(w, u, args, name);
    case Quit => QuitGoverned(w, u, name);
    case Kick => EditGoverned(w, u, args, name);
    case Ban => EditGoverned(w, u, args, name);
    case Invite => EditGoverned(w, u, args, name);
    case Mode => ModeGoverned(w, u, args, name);
    case Set => SetGoverned(w, u, args, name);
    case Nick => assert NickCommand(w, u, args).0.channels == w.channels;
    case Other =>
    case Unknown =>
  }

  // ----- Invitations ------------------------------------------------------------------------

  predicate StaysInvited(w: World, name: string, v: UserId) {
    name in w.channels ==> v in w.channels[name].invites
  }

  lemma InvitationStaysOnJoin(w: World, u: UserId, args: seq<string>, name: string, v: UserId)
    requires name in w.channels && v in w.channels[name].invites
    ensures StaysInvited(JoinCommand(w, u, args).0, name, v)
    ensures StaysInvited(PartCommand(w, u, args).0, name, v)
    ensures StaysInvited(QuitCommand(w, u).0, name, v)
  {
  }

  lemma InvitationStaysOnEdit(w: World, u: UserId, args: seq<string>, name: string, v: UserId)
    requires name in w.channels && v in w.channels[name].invites
    ensures StaysInvited(KickCommand(w, u, args).0, name, v)
    ensures StaysInvited(BanCommand(w, u, args).0, name, v)
    ensures StaysInvited(InviteCommand(w, u, args).0, name, v)
  {
  }

  lemma InvitationStaysOnMode(w: World, u: UserId, args: seq<string>, name: string, v: UserId)
    requires name in w.channels && v in w.channels[name].invites
    ensures StaysInvited(ModeCommand(w, u, args).0, name, v)
  {
  }

  lemma InvitationStaysOnSet(w: World, u: UserId, args: seq<string>, name: string, v: UserId)
    requires name in w.channels && v in w.channels[name].invites
    ensures StaysInvited(SetCommand(w, u, args).0, name, v)
  {
  }

  /** Nothing takes an invitation back. */
  lemma InvitationStays(w: World, u: UserId, verb: Verb, args: seq<string>, name: string, v: UserId)
    requires name in w.channels && v in w.channels[name].invites
    ensures StaysInvited(Act(w, u, verb, args).0, name, v)
  {
    match verb
    case Join => InvitationStaysOnJoin(w, u, args, name, v);
    case Part => InvitationStaysOnJoin(w, u, args, name, v);
    case Quit => InvitationStaysOnJoin(w, u, args, name, v);
    case Kick => InvitationStaysOnEdit(w, u, args, name, v);
    case Ban => InvitationStaysOnEdit(w, u, args, name, v);
    case Invite => InvitationStaysOnEdit(w, u, args, name, v);
    case Mode => InvitationStaysOnMode(w, u, args, name, v);
    case Set => InvitationStaysOnSet(w, u, args, name, v);
    case Nick => assert NickCommand(w, u, args).0.channels == w.channels;
    case Other =>
    case Unknown =>
  }
}
