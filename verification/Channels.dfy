/** Channels and nicknames: what each IRC command does to them, and what every command keeps. */
module Channels {
  import opened Base
  import opened Text
  import opened ChannelNames

  datatype Channel = Channel(
    name: string,
    members: set<UserId>,
    operators: set<UserId>,
    voiced: set<UserId>,
    banned: set<UserId>,
    invites: set<UserId>,
    inviteOnly: bool,
    moderated: bool,
    topicRestricted: bool)

  /** The channel table and the two nickname tables. */
  datatype World = World(
    channels: map<string, Channel>,
    nickToUser: map<string, UserId>,
    userToNick: map<UserId, string>)

  const EMPTY_WORLD := World(map[], map[], map[])

  /** The commands that touch the world; `Other` stands for the known commands that do not. */
  datatype Verb = Join | Part | Nick | Kick | Ban | Invite | Set | Mode | Quit | Other | Unknown

  datatype Reply =
    | Done
    | EmptyCommand | TemporarilyBanned | TooManyCommands | TooManyJoins | UnknownCommand
    | Usage | InvalidName | NoSuchChannel | NotInChannel | BannedFromChannel | InviteRequired
    | NickInUse | NotOperator | UserNotFound | TargetNotInChannel | UnknownOption | UnknownMode
    | NotModelled

  /** The command table; lookup is by the lower-cased word. */
  function VerbOf(word: string): Verb {
    var w := Fold(word);
    if w == "join" then Join
    else if w == "part" || w == "leave" then Part
    else if w == "nick" then Nick
    else if w == "kick" then Kick
    else if w == "ban" then Ban
    else if w == "invite" then Invite
    else if w == "set" then Set
    else if w == "mode" then Mode
    else if w == "quit" then Quit
    else if w in {"whois", "me", "action", "topic", "password", "pass", "msg", "query", "resetdb"} then Other
    else Unknown
  }

  function NewChannel(name: string): Channel {
    Channel(name, {}, {}, {}, {}, {}, false, false, true)
  }

  function GetOrNew(w: World, name: string): Channel {
    if name in w.channels then w.channels[name] else NewChannel(name)
  }

  /** A channel without `u` as member, operator or voiced user. */
  function Without(c: Channel, u: UserId): Channel {
    c.(members := c.members - {u}, operators := c.operators - {u}, voiced := c.voiced - {u})
  }

  function TargetId(w: World, target: string): UserId {
    if target in w.nickToUser then w.nickToUser[target] else target
  }

  function IsOn(value: string): bool {
    value == "true" || value == "1" || value == "on"
  }

  function WithChannel(w: World, name: string, c: Channel): World {
    w.(channels := w.channels[name := c])
  }

  // ----- The commands -----------------------------------------------------------

  /** Whether `u` may enter the channel as it is. */
  predicate MayEnter(c: Channel, u: UserId) {
    u !in c.banned && (c.inviteOnly ==> u in c.invites || u in c.operators)
  }

  /** A channel that `u` has entered: whoever is alone becomes an operator. */
  function Entered(c: Channel, u: UserId): Channel {
    var members := c.members + {u};
    c.(members := members, operators := if |members| == 1 then c.operators + {u} else c.operators)
  }

  /** Joining, once the name is sanitized and valid and the join limiter has agreed. */
  function JoinChannel(w: World, u: UserId, name: string): (World, Reply) {
    var c := GetOrNew(w, name);
    if MayEnter(c, u) then (WithChannel(w, name, Entered(c, u)), Done)
    else (WithChannel(w, name, c), if u in c.banned then BannedFromChannel else InviteRequired)
  }

  /** Whether a join request gets as far as the join limiter. */
  predicate JoinIsCounted(args: seq<string>) {
    args != [] && IsValidName(Sanitized(args[0]))
  }

  function JoinCommand(w: World, u: UserId, args: seq<string>): (World, Reply) {
    if args == [] then (w, Usage)
    else if !IsValidName(Sanitized(args[0])) then (w, InvalidName)
    else JoinChannel(w, u, Sanitized(args[0]))
  }

  function PartCommand(w: World, u: UserId, args: seq<string>): (World, Reply) {
    if args == [] then (w, Usage)
    else if args[0] !in w.channels then (w, NoSuchChannel)
    else if u !in w.channels[args[0]].members then (w, NotInChannel)
    else (w.(channels := Parted(w.channels, args[0], u)), Done)
  }

  /** `u` leaves one channel; a channel left without members is destroyed. */
  function Parted(channels: map<string, Channel>, name: string, u: UserId): map<string, Channel> {
    if name !in channels then channels
    else
      var c := Without(channels[name], u);
      if c.members == {} then channels - {name} else channels[name := c]
  }

  function NickCommand(w: World, u: UserId, args: seq<string>): (World, Reply) {
    if args == [] then (w, Usage)
    else
      var newNick := args[0];
      var oldNick := if u in w.userToNick then w.userToNick[u] else u;
      if newNick in w.nickToUser && w.nickToUser[newNick] != u then (w, NickInUse)
      else
        (w.(nickToUser := (w.nickToUser - {oldNick})[newNick := u], userToNick := w.userToNick[u := newNick]), Done)
  }

  function KickCommand(w: World, u: UserId, args: seq<string>): (World, Reply) {
    if |args| < 2 then (w, Usage)
    else if args[0] !in w.channels then (w, NoSuchChannel)
    else
      var c := w.channels[args[0]];
      if u !in c.operators then (w, NotOperator)
      else if args[1] !in w.nickToUser && args[1] !in c.members then (w, UserNotFound)
      else
        var target := TargetId(w, args[1]);
        if target !in c.members then (w, TargetNotInChannel)
        else (WithChannel(w, args[0], Without(c, target)), Done)
  }

  /** Banning takes away membership only: operator and voice bits stay. */
  function BanCommand(w: World, u: UserId, args: seq<string>): (World, Reply) {
    if |args| < 2 then (w, Usage)
    else if args[0] !in w.channels then (w, NoSuchChannel)
    else
      var c := w.channels[args[0]];
      if u !in c.operators then (w, NotOperator)
      else
        var target := TargetId(w, args[1]);
        (WithChannel(w, args[0], c.(banned := c.banned + {target}, members := c.members - {target})), Done)
  }

  function InviteCommand(w: World, u: UserId, args: seq<string>): (World, Reply) {
    if |args| < 2 then (w, Usage)
    else if args[0] !in w.channels then (w, NoSuchChannel)
    else
      var c := w.channels[args[0]];
      if u !in c.operators then (w, NotOperator)
      else (WithChannel(w, args[0], c.(invites := c.invites + {TargetId(w, args[1])})), Done)
  }

  function SetCommand(w: World, u: UserId, args: seq<string>): (World, Reply) {
    if |args| < 3 then (w, Usage)
    else if args[0] !in w.channels then (w, NoSuchChannel)
    else
      var c := w.channels[args[0]];
      var option := Fold(args[1]);
      if u !in c.operators then (w, NotOperator)
      else if option == "invite_only" then (WithChannel(w, args[0], c.(inviteOnly := IsOn(args[2]))), Done)
      else if option == "moderated" then (WithChannel(w, args[0], c.(moderated := IsOn(args[2]))), Done)
      else if option == "topic_restricted" then (WithChannel(w, args[0], c.(topicRestricted := IsOn(args[2]))), Done)
      else (w, UnknownOption)
  }

  function ModeCommand(w: World, u: UserId, args: seq<string>): (World, Reply) {
    if |args| < 3 then (w, Usage)
    else if args[0] !in w.channels then (w, NoSuchChannel)
    else
      var c := w.channels[args[0]];
      var target := TargetId(w, args[2]);
      if u !in c.operators then (w, NotOperator)
      else if target !in c.members then (w, TargetNotInChannel)
      else if args[1] == "+o" then (WithChannel(w, args[0], c.(operators := c.operators + {target})), Done)
      else if args[1] == "-o" then (WithChannel(w, args[0], c.(operators := c.operators - {target})), Done)
      else if args[1] == "+v" then (WithChannel(w, args[0], c.(voiced := c.voiced + {target})), Done)
      else if args[1] == "-v" then (WithChannel(w, args[0], c.(voiced := c.voiced - {target})), Done)
      else (w, UnknownMode)
  }

  /** Quitting leaves every channel the user is a member of, and no other. */
  function QuitCommand(w: World, u: UserId): (World, Reply) {
    (w.(channels := map n | n in w.channels && w.channels[n].members != {u} ::
                      if u in w.channels[n].members then Without(w.channels[n], u) else w.channels[n]),
     Done)
  }

  /** The effect of one command that has passed every limiter. */
  function Act(w: World, u: UserId, verb: Verb, args: seq<string>): (World, Reply) {
    match verb
    case Join => JoinCommand(w, u, args)
    case Part => PartCommand(w, u, args)
    case Nick => NickCommand(w, u, args)
    case Kick => KickCommand(w, u, args)
    case Ban => BanCommand(w, u, args)
    case Invite => InviteCommand(w, u, args)
    case Set => SetCommand(w, u, args)
    case Mode => ModeCommand(w, u, args)
    case Quit => QuitCommand(w, u)
    case Other => (w, NotModelled)
    case Unknown => (w, UnknownCommand)
  }

  // ----- What every command keeps -------------------------------------------------

  function Members(w: World, name: string): set<UserId> {
    if name in w.channels then w.channels[name].members else {}
  }

  function Operators(w: World, name: string): set<UserId> {
    if name in w.channels then w.channels[name].operators else {}
  }

  /** No banned member; operators and voiced users are members or have been banned since. */
  ghost predicate Consistent(c: Channel) {
    && c.members !! c.banned
    && c.operators <= c.members + c.banned
    && c.voiced <= c.members + c.banned
  }

  ghost predicate Good(w: World) {
    forall n | n in w.channels :: w.channels[n].name == n && IsKey(n) && Consistent(w.channels[n])
  }

  lemma GoodWithChannel(w: World, name: string, c: Channel)
    requires Good(w) && IsKey(name) && c.name == name && Consistent(c)
    ensures Good(WithChannel(w, name, c))
  {
  }

  lemma JoinKeepsGood(w: World, u: UserId, args: seq<string>)
    requires Good(w)
    ensures Good(JoinCommand(w, u, args).0)
  {
    if JoinIsCounted(args) {
      var name := Sanitized(args[0]);
      AcceptedNameIsKey(args[0]);
      var c := GetOrNew(w, name);
      assert Consistent(c) && c.name == name;
      GoodWithChannel(w, name, if MayEnter(c, u) then Entered(c, u) else c);
    }
  }

  lemma KickKeepsGood(w: World, u: UserId, args: seq<string>)
    requires Good(w)
    ensures Good(KickCommand(w, u, args).0)
  {
    var w' := KickCommand(w, u, args).0;
    if w' != w {
      GoodWithChannel(w, args[0], w'.channels[args[0]]);
    }
  }

  lemma BanKeepsGood(w: World, u: UserId, args: seq<string>)
    requires Good(w)
    ensures Good(BanCommand(w, u, args).0)
  {
    var w' := BanCommand(w, u, args).0;
    if w' != w {
      GoodWithChannel(w, args[0], w'.channels[args[0]]);
    }
  }

  lemma ModeKeepsChannel(w: World, u: UserId, args: seq<string>)
    requires |args| >= 3 && args[0] in w.channels && Consistent(w.channels[args[0]])
    ensures args[0] in ModeCommand(w, u, args).0.channels
    ensures var c := ModeCommand(w, u, args).0.channels[args[0]];
      Consistent(c) && c.name == w.channels[args[0]].name
  {
  }

  lemma ModeKeepsGood(w: World, u: UserId, args: seq<string>)
    requires Good(w)
    ensures Good(ModeCommand(w, u, args).0)
  {
    var w' := ModeCommand(w, u, args).0;
    if w' != w {
      ModeKeepsChannel(w, u, args);
      GoodWithChannel(w, args[0], w'.channels[args[0]]);
    }
  }

  predicate SameRoles(c: Channel, d: Channel) {
    && c.name == d.name && c.members == d.members && c.operators == d.operators
    && c.voiced == d.voiced && c.banned == d.banned
  }

  /** Options touch nobody's role. */
  lemma SetKeepsRoles(w: World, u: UserId, args: seq<string>)
    ensures var w' := SetCommand(w, u, args).0;
      || w' == w
      || (|args| >= 3 && args[0] in w.channels && args[0] in w'.channels
          && w' == WithChannel(w, args[0], w'.channels[args[0]])
          && SameRoles(w.channels[args[0]], w'.channels[args[0]]))
  {
    if |args| >= 3 && args[0] in w.channels {
      var option := Fold(args[1]);
      assert option in {"invite_only", "moderated", "topic_restricted"} || SetCommand(w, u, args).0 == w;
    }
  }

  lemma OptionsKeepGood(w: World, u: UserId, args: seq<string>)
    requires Good(w)
    ensures Good(SetCommand(w, u, args).0)
  {
    SetKeepsRoles(w, u, args);
    var w' := SetCommand(w, u, args).0;
    if w' != w {
      GoodWithChannel(w, args[0], w'.channels[args[0]]);
    }
  }

  lemma InviteKeepsGood(w: World, u: UserId, args: seq<string>)
    requires Good(w)
    ensures Good(InviteCommand(w, u, args).0)
  {
  }

  lemma LeavingKeepsGood(w: World, u: UserId, args: seq<string>)
    requires Good(w)
    ensures Good(PartCommand(w, u, args).0) && Good(QuitCommand(w, u).0)
  {
  }

  /** Every command keeps every channel consistent and filed under its own, valid name. */
  lemma ActKeepsGood(w: World, u: UserId, verb: Verb, args: seq<string>)
    requires Good(w)
    ensures Good(Act(w, u, verb, args).0)
  {
    match verb
    case Join => JoinKeepsGood(w, u, args);
    case Kick => KickKeepsGood(w, u, args);
    case Ban => BanKeepsGood(w, u, args);
    case Mode => ModeKeepsGood(w, u, args);
    case Set => OptionsKeepGood(w, u, args);
    case Invite => InviteKeepsGood(w, u, args);
    case Part => LeavingKeepsGood(w, u, args);
    case Quit => LeavingKeepsGood(w, u, args);
    case Nick => assert NickCommand(w, u, args).0.channels == w.channels;
    case Other =>
    case Unknown =>
  }

  ghost predicate MembersMove(w: World, w': World, u: UserId, joining: bool, name: string) {
    && Members(w', name) - Members(w, name) <= (if joining then {u} else {})
    && (u !in Operators(w, name) ==> Members(w, name) - Members(w', name) <= {u})
  }

  lemma ByName(w: World, u: UserId, args: seq<string>, name: string)
    ensures MembersMove(w, KickCommand(w, u, args).0, u, false, name)
    ensures MembersMove(w, BanCommand(w, u, args).0, u, false, name)
    ensures MembersMove(w, InviteCommand(w, u, args).0, u, false, name)
  {
  }

  lemma ByRole(w: World, u: UserId, args: seq<string>, name: string)
    ensures MembersMove(w, SetCommand(w, u, args).0, u, false, name)
    ensures MembersMove(w, ModeCommand(w, u, args).0, u, false, name)
  {
    SetKeepsRoles(w, u, args);
  }

  lemma ByComing(w: World, u: UserId, args: seq<string>, name: string)
    ensures MembersMove(w, JoinCommand(w, u, args).0, u, true, name)
  {
  }

  lemma ByGoing(w: World, u: UserId, args: seq<string>, name: string)
    ensures MembersMove(w, PartCommand(w, u, args).0, u, false, name)
  {
  }

  lemma ByQuitting(w: World, u: UserId, name: string)
    ensures MembersMove(w, QuitCommand(w, u).0, u, false, name)
  {
  }

  /** The only newcomer in any member set is the caller of a join; anyone else leaves one only at the
      hands of an operator of that channel. */
  lemma ActMovesMembers(w: World, u: UserId, verb: Verb, args: seq<string>, name: string)
    ensures var w' := Act(w, u, verb, args).0;
      && Members(w', name) - Members(w, name) <= (if verb == Join then {u} else {})
      && (u !in Operators(w, name) ==> Members(w, name) - Members(w', name) <= {u})
  {
    match verb
    case Join => ByComing(w, u, args, name);
    case Part => ByGoing(w, u, args, name);
    case Quit => ByQuitting(w, u, name);
    case Kick => ByName(w, u, args, name);
    case Ban => ByName(w, u, args, name);
    case Invite => ByName(w, u, args, name);
    case Set => ByRole(w, u, args, name);
    case Mode => ByRole(w, u, args, name);
    case Nick => assert NickCommand(w, u, args).0.channels == w.channels;
    case Other =>
    case Unknown =>
  }

  /** After quitting, the user is in no member set, and nobody else has been moved. */
  lemma QuitLeavesEverything(w: World, u: UserId, args: seq<string>, name: string)
    ensures Members(Act(w, u, Quit, args).0, name) == Members(w, name) - {u}
  {
  }

  /** The two ways to become an operator. */
  predicate Founded(w': World, u: UserId, verb: Verb, name: string, v: UserId) {
    verb == Join && v == u && Members(w', name) == {u}
  }

  predicate Granted(w: World, u: UserId, verb: Verb, args: seq<string>, name: string, v: UserId) {
    && verb == Mode && u in Operators(w, name) && v in Members(w, name)
    && |args| >= 3 && args[0] == name && args[1] == "+o" && TargetId(w, args[2]) == v
  }

  lemma JoinMakesOperator(w: World, u: UserId, args: seq<string>, name: string, v: UserId)
    ensures var w' := JoinCommand(w, u, args).0;
      v in Operators(w', name) && v !in Operators(w, name) ==> v == u && Members(w', name) == {u}
  {
    if JoinIsCounted(args) {
      var members := GetOrNew(w, Sanitized(args[0])).members + {u};
      if |members| == 1 {
        SingletonOf(members, u);
      }
    }
  }

  lemma ModeMakesOperator(w: World, u: UserId, args: seq<string>, name: string, v: UserId)
    ensures v in Operators(ModeCommand(w, u, args).0, name) && v !in Operators(w, name) ==>
      Granted(w, u, Mode, args, name, v)
  {
  }

  lemma LeavingMakesNoOperator(w: World, u: UserId, args: seq<string>, name: string)
    ensures Operators(PartCommand(w, u, args).0, name) <= Operators(w, name)
    ensures Operators(QuitCommand(w, u).0, name) <= Operators(w, name)
  {
  }

  lemma RemovingMakesNoOperator(w: World, u: UserId, args: seq<string>, name: string)
    ensures Operators(KickCommand(w, u, args).0, name) <= Operators(w, name)
    ensures Operators(BanCommand(w, u, args).0, name) <= Operators(w, name)
  {
  }

  lemma OptionsMakeNoOperator(w: World, u: UserId, args: seq<string>, name: string)
    ensures Operators(InviteCommand(w, u, args).0, name) <= Operators(w, name)
    ensures Operators(SetCommand(w, u, args).0, name) <= Operators(w, name)
    ensures Operators(NickCommand(w, u, args).0, name) <= Operators(w, name)
  {
    SetKeepsRoles(w, u, args);
  }

  /** One becomes an operator by founding (or being left alone in) a channel, or by a grant of an
      operator. */
  lemma ActMakesOperator(w: World, u: UserId, verb: Verb, args: seq<string>, name: string, v: UserId)
    ensures var w' := Act(w, u, verb, args).0;
      v in Operators(w', name) && v !in Operators(w, name) ==>
        Founded(w', u, verb, name, v) || Granted(w, u, verb, args, name, v)
  {
    match verb
    case Join => JoinMakesOperator(w, u, args, name, v);
    case Mode => ModeMakesOperator(w, u, args, name, v);
    case Part => LeavingMakesNoOperator(w, u, args, name);
    case Quit => LeavingMakesNoOperator(w, u, args, name);
    case Kick => RemovingMakesNoOperator(w, u, args, name);
    case Ban => RemovingMakesNoOperator(w, u, args, name);
    case Invite => OptionsMakeNoOperator(w, u, args, name);
    case Set => OptionsMakeNoOperator(w, u, args, name);
    case Nick => OptionsMakeNoOperator(w, u, args, name);
    case Other =>
    case Unknown =>
  }

  lemma SingletonOf(s: set<UserId>, x: UserId)
    requires |s| == 1 && x in s
    ensures s == {x}
  {
    assert s - {x} == {};
    assert s == {x} + (s - {x});
  }

  /** In every channel the operators are members. */
  ghost predicate OperatorsAreMembers(w: World) {
    forall n | n in w.channels :: w.channels[n].operators <= w.channels[n].members
  }

  /** An operator who bans an operator of the same channel, possibly oneself. */
  predicate BansOperator(w: World, u: UserId, verb: Verb, args: seq<string>) {
    && verb == Ban && |args| >= 2 && args[0] in w.channels
    && u in w.channels[args[0]].operators && TargetId(w, args[1]) in w.channels[args[0]].operators
  }

  lemma JoinKeepsOperatorsMembers(w: World, u: UserId, args: seq<string>)
    requires OperatorsAreMembers(w)
    ensures OperatorsAreMembers(JoinCommand(w, u, args).0)
  {
  }

  lemma LeavingKeepsOperatorsMembers(w: World, u: UserId, args: seq<string>)
    requires OperatorsAreMembers(w)
    ensures OperatorsAreMembers(PartCommand(w, u, args).0)
    ensures OperatorsAreMembers(QuitCommand(w, u).0)
    ensures OperatorsAreMembers(KickCommand(w, u, args).0)
  {
  }

  lemma RolesKeepOperatorsMembers(w: World, u: UserId, args: seq<string>)
    requires OperatorsAreMembers(w)
    ensures OperatorsAreMembers(ModeCommand(w, u, args).0)
    ensures OperatorsAreMembers(SetCommand(w, u, args).0)
    ensures OperatorsAreMembers(InviteCommand(w, u, args).0)
  {
    SetKeepsRoles(w, u, args);
  }

  lemma BanKeepsOperatorsMembersIff(w: World, u: UserId, args: seq<string>)
    requires OperatorsAreMembers(w)
    ensures OperatorsAreMembers(BanCommand(w, u, args).0) <==> !BansOperator(w, u, Ban, args)
  {
    if BansOperator(w, u, Ban, args) {
      var c := BanCommand(w, u, args).0.channels[args[0]];
      assert TargetId(w, args[1]) in c.operators && TargetId(w, args[1]) !in c.members;
    }
  }

  /** Operators stay members through every command but one: a ban of an operator by an operator. */
  lemma OperatorsAreMembersIff(w: World, u: UserId, verb: Verb, args: seq<string>)
    requires OperatorsAreMembers(w)
    ensures OperatorsAreMembers(Act(w, u, verb, args).0) <==> !BansOperator(w, u, verb, args)
  {
    match verb
    case Join => JoinKeepsOperatorsMembers(w, u, args);
    case Part => LeavingKeepsOperatorsMembers(w, u, args);
    case Quit => LeavingKeepsOperatorsMembers(w, u, args);
    case Kick => LeavingKeepsOperatorsMembers(w, u, args);
    case Ban => BanKeepsOperatorsMembersIff(w, u, args);
    case Invite => RolesKeepOperatorsMembers(w, u, args);
    case Set => RolesKeepOperatorsMembers(w, u, args);
    case Mode => RolesKeepOperatorsMembers(w, u, args);
    case Nick => assert NickCommand(w, u, args).0.channels == w.channels;
    case Other =>
    case Unknown =>
  }

  predicate IsBannedOperator(w: World, name: string, v: UserId) {
    name in w.channels && v in w.channels[name].operators && v in w.channels[name].banned
  }

  lemma JoinKeepsBannedOperator(w: World, u: UserId, args: seq<string>, name: string, v: UserId)
    requires IsBannedOperator(w, name, v)
    ensures IsBannedOperator(JoinCommand(w, u, args).0, name, v)
  {
  }

  lemma EditKeepsBannedOperator(w: World, u: UserId, args: seq<string>, name: string, v: UserId)
    requires IsBannedOperator(w, name, v) && v !in w.channels[name].members
    ensures IsBannedOperator(KickCommand(w, u, args).0, name, v)
    ensures IsBannedOperator(BanCommand(w, u, args).0, name, v)
    ensures IsBannedOperator(InviteCommand(w, u, args).0, name, v)
  {
  }

  lemma ModeKeepsBannedOperator(w: World, u: UserId, args: seq<string>, name: string, v: UserId)
    requires IsBannedOperator(w, name, v) && v !in w.channels[name].members
    ensures IsBannedOperator(ModeCommand(w, u, args).0, name, v)
  {
  }

  lemma SetKeepsBannedOperator(w: World, u: UserId, args: seq<string>, name: string, v: UserId)
    requires IsBannedOperator(w, name, v)
    ensures IsBannedOperator(SetCommand(w, u, args).0, name, v)
  {
    SetKeepsRoles(w, u, args);
  }

  lemma LeavingKeepsBannedOperator(w: World, u: UserId, args: seq<string>, name: string, v: UserId)
    requires IsBannedOperator(w, name, v) && v !in w.channels[name].members
    ensures name in PartCommand(w, u, args).0.channels ==> IsBannedOperator(PartCommand(w, u, args).0, name, v)
    ensures name in QuitCommand(w, u).0.channels ==> IsBannedOperator(QuitCommand(w, u).0, name, v)
  {
  }

  /** An operator who has been banned can no longer be demoted by anyone: the bit lasts as long as
      the channel does. */
  lemma BannedOperatorIsForever(w: World, u: UserId, verb: Verb, args: seq<string>, name: string, v: UserId)
    requires Good(w) && IsBannedOperator(w, name, v)
    ensures var w' := Act(w, u, verb, args).0;
      name in w'.channels ==> IsBannedOperator(w', name, v)
  {
    assert Consistent(w.channels[name]);
    match verb
    case Join => JoinKeepsBannedOperator(w, u, args, name, v);
    case Kick => EditKeepsBannedOperator(w, u, args, name, v);
    case Ban => EditKeepsBannedOperator(w, u, args, name, v);
    case Invite => EditKeepsBannedOperator(w, u, args, name, v);
    case Mode => ModeKeepsBannedOperator(w, u, args, name, v);
    case Set => SetKeepsBannedOperator(w, u, args, name, v);
    case Part => LeavingKeepsBannedOperator(w, u, args, name, v);
    case Quit => LeavingKeepsBannedOperator(w, u, args, name, v);
    case Nick => assert NickCommand(w, u, args).0.channels == w.channels;
    case Other =>
    case Unknown =>
  }

  // ----- Nicknames ------------------------------------------------------------------

  /** Every nickname entry is mirrored by its user, so no two entries name the same user. */
  ghost predicate NicksOwned(w: World) {
    forall n | n in w.nickToUser ::
      w.nickToUser[n] in w.userToNick && w.userToNick[w.nickToUser[n]] == n
  }

  /** The two nickname tables are inverse to one another. */
  ghost predicate NicksMirrored(w: World) {
    && NicksOwned(w)
    && forall u | u in w.userToNick ::
         w.userToNick[u] in w.nickToUser && w.nickToUser[w.userToNick[u]] == u
  }

  lemma ActKeepsNicksOwned(w: World, u: UserId, verb: Verb, args: seq<string>)
    requires NicksOwned(w)
    ensures NicksOwned(Act(w, u, verb, args).0)
  {
  }

  lemma NicksAreInjective(w: World, m: string, n: string)
    requires NicksOwned(w) && m in w.nickToUser && n in w.nickToUser
    requires w.nickToUser[m] == w.nickToUser[n]
    ensures m == n
  {
  }

  /** A nick request by a user without a nickname while somebody else goes by that user's id. */
  predicate ErasesForeignNick(w: World, u: UserId, verb: Verb, args: seq<string>) {
    && verb == Nick && args != []
    && u !in w.userToNick && u in w.nickToUser
    && args[0] !in w.nickToUser
  }

  /** The tables stop mirroring one another in exactly one case. */
  lemma NicksMirroredIff(w: World, u: UserId, verb: Verb, args: seq<string>)
    requires NicksMirrored(w)
    ensures NicksMirrored(Act(w, u, verb, args).0) <==> !ErasesForeignNick(w, u, verb, args)
  {
    var w' := Act(w, u, verb, args).0;
    ActKeepsNicksOwned(w, u, verb, args);
    if ErasesForeignNick(w, u, verb, args) {
      var v := w.nickToUser[u];
      assert v != u && v in w'.userToNick && w'.userToNick[v] == u;
      assert u !in w'.nickToUser;
    }
  }
}
