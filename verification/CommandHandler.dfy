/** The command handler: the ban gate, the two limiters, and dispatch to the channel commands. */
module Commands {
  import opened Base
  import opened ChannelNames
  import opened Channels
  import opened RateLimit
  import opened Abuse

  const COMMANDS_PER_WINDOW: int := 30
  const JOINS_PER_WINDOW: int := 5
  const LIMIT_WINDOW: int := MINUTE

  datatype Limits = Limits(commands: Limiter, joins: Limiter)

  function NewLimits(now: int): Limits {
    Limits(Fresh(COMMANDS_PER_WINDOW, LIMIT_WINDOW, now), Fresh(JOINS_PER_WINDOW, LIMIT_WINDOW, now))
  }

  /** What decides whether a command gets to be carried out. */
  datatype Gate = Gate(limits: map<UserId, Limits>, records: Records)

  datatype Server = Server(world: World, gate: Gate)

  const EMPTY_SERVER := Server(EMPTY_WORLD, Gate(map[], map[]))

  function LimitsOf(limits: map<UserId, Limits>, u: UserId, now: int): Limits {
    if u in limits then limits[u] else NewLimits(now)
  }

  /** The join limiter, asked only for joins of a valid channel name. */
  function AdmitJoin(g: Gate, u: UserId, join: bool, now: int): (Gate, Option<Reply>) {
    if !join then (g, None)
    else
      var l := LimitsOf(g.limits, u, now);
      var (joins, ok) := Allow(l.joins, now);
      var g' := g.(limits := g.limits[u := l.(joins := joins)]);
      if !ok then (g'.(records := Track(g.records, u, now).0), Some(TooManyJoins)) else (g', None)
  }

  /** The ban check, the command limiter and the join limiter, in this order; None lets the command
      pass, and every refusal by a limiter counts as a violation. */
  function Admit(g: Gate, u: UserId, empty: bool, join: bool, now: int): (Gate, Option<Reply>) {
    if empty then (g, Some(EmptyCommand))
    else
      var (records, abuser) := Check(g.records, u, now);
      if abuser then (g.(records := records), Some(TemporarilyBanned))
      else
        var l := LimitsOf(g.limits, u, now);
        var (commands, ok) := Allow(l.commands, now);
        var g' := Gate(g.limits[u := l.(commands := commands)], records);
        if !ok then (g'.(records := Track(records, u, now).0), Some(TooManyCommands))
        else AdmitJoin(g', u, join, now)
  }

  predicate CountsAsJoin(word: string, args: seq<string>) {
    VerbOf(word) == Join && JoinIsCounted(args)
  }

  /** One request of user `u` at time `now`. */
  function Handle(s: Server, u: UserId, word: string, args: seq<string>, now: int): (Server, Reply) {
    var (gate, refusal) := Admit(s.gate, u, word == "", CountsAsJoin(word, args), now);
    match refusal
    case Some(reply) => (s.(gate := gate), reply)
    case None =>
      var (world, reply) := Act(s.world, u, VerbOf(word), args);
      (Server(world, gate), reply)
  }

  class CommandHandler {
    var channels: map<string, Channel>
    var nickToUser: map<string, UserId>
    var userToNick: map<UserId, string>
    var limits: map<UserId, Limits>
    var records: Records

    ghost function TheWorld(): World
      reads this
    {
      World(channels, nickToUser, userToNick)
    }

    ghost function State(): Server
      reads this
    {
      Server(TheWorld(), Gate(limits, records))
    }

    constructor ()
      ensures State() == EMPTY_SERVER
    {
      channels, nickToUser, userToNick, limits, records := map[], map[], map[], map[], map[];
    }

    method IsAbuser(u: UserId, now: int) returns (abuser: bool)
      modifies this`records
      ensures (records, abuser) == Check(old(records), u, now)
    {
      if u !in records || !records[u].banned {
        return false;
      }
      if now - records[u].last > BAN_DURATION {
        records := records - {u};
        return false;
      }
      return true;
    }

    method TrackAbuse(u: UserId, now: int) returns (nowBanned: bool)
      modifies this`records
      ensures (records, nowBanned) == Track(old(records), u, now)
    {
      var r := if u in records then records[u] else Record(0, now, now, false);
      if now - r.first > VIOLATION_WINDOW {
        r := Record(0, now, r.last, false);
      }
      r := r.(violations := r.violations + 1);
      r := r.(last := now);
      nowBanned := false;
      if r.violations >= MAX_VIOLATIONS {
        r := r.(banned := true);
        nowBanned := true;
      }
      records := records[u := r];
    }

    /** Walks over all records and erases the stale ones on the way. */
    method CleanupOldAbuseRecords(now: int)
      modifies this`records
      ensures records == Cleanup(old(records), now)
    {
      var pending := records.Keys;
      while pending != {}
        invariant pending <= records.Keys <= old(records).Keys
        invariant forall u | u in records :: records[u] == old(records)[u]
        invariant forall u | u in old(records) && u !in pending ::
                    u in records <==> !Stale(old(records)[u], now)
        decreases |pending|
      {
        var u :| u in pending;
        if Stale(records[u], now) {
          records := records - {u};
        }
        pending := pending - {u};
      }
    }

    /** One call of the command limiter of `u`, which is created if need be. */
    method AllowCommand(u: UserId, now: int) returns (ok: bool)
      modifies this`limits
      ensures var l := LimitsOf(old(limits), u, now);
        limits == old(limits)[u := l.(commands := Allow(l.commands, now).0)] && ok == Allow(l.commands, now).1
    {
      if u !in limits {
        limits := limits[u := NewLimits(now)];
      }
      var (commands, allowed) := Allow(limits[u].commands, now);
      limits := limits[u := limits[u].(commands := commands)];
      assert limits == old(limits)[u := LimitsOf(old(limits), u, now).(commands := commands)];
      return allowed;
    }

    method AllowJoin(u: UserId, now: int) returns (ok: bool)
      modifies this`limits
      ensures var l := LimitsOf(old(limits), u, now);
        limits == old(limits)[u := l.(joins := Allow(l.joins, now).0)] && ok == Allow(l.joins, now).1
    {
      if u !in limits {
        limits := limits[u := NewLimits(now)];
      }
      var (joins, allowed) := Allow(limits[u].joins, now);
      limits := limits[u := limits[u].(joins := joins)];
      assert limits == old(limits)[u := LimitsOf(old(limits), u, now).(joins := joins)];
      return allowed;
    }

    method HandleCommand(u: UserId, word: string, args: seq<string>, now: int) returns (reply: Reply)
      modifies this
      ensures (State(), reply) == Handle(old(State()), u, word, args, now)
    {
      if word == "" {
        return EmptyCommand;
      }
      var abuser := IsAbuser(u, now);
      if abuser {
        return TemporarilyBanned;
      }
      var ok := AllowCommand(u, now);
      if !ok {
        var _ := TrackAbuse(u, now);
        return TooManyCommands;
      }
      match VerbOf(word) {
        case Join => reply := CmdJoin(u, args, now);
        case Part => reply := CmdPart(u, args);
        case Nick => reply := CmdNick(u, args);
        case Kick => reply := CmdKick(u, args);
        case Ban => reply := CmdBan(u, args);
        case Invite => reply := CmdInvite(u, args);
        case Set => reply := CmdSet(u, args);
        case Mode => reply := CmdMode(u, args);
        case Quit => reply := CmdQuit(u);
        case Other => reply := NotModelled;
        case Unknown => reply := UnknownCommand;
      }
    }

    method CmdJoin(u: UserId, args: seq<string>, now: int) returns (reply: Reply)
      modifies this
      ensures var (gate, refusal) := AdmitJoin(old(Gate(limits, records)), u, JoinIsCounted(args), now);
        && Gate(limits, records) == gate
        && (TheWorld(), reply) == match refusal
                                  case Some(r) => (old(TheWorld()), r)
                                  case None => JoinCommand(old(TheWorld()), u, args)
    {
      if args == [] {
        return Usage;
      }
      var channel := Sanitize(args[0]);
      if !IsValidName(channel) {
        return InvalidName;
      }
      var ok := AllowJoin(u, now);
      if !ok {
        var _ := TrackAbuse(u, now);
        return TooManyJoins;
      }
      reply := EnterChannel(u, channel);
    }

    method GetOrCreateChannel(name: string) returns (c: Channel)
      modifies this`channels
      ensures c == GetOrNew(old(TheWorld()), name) && channels == old(channels)[name := c]
    {
      if name !in channels {
        channels := channels[name := NewChannel(name)];
      }
      return channels[name];
    }

    /** The second half of a join: ban and invitation are checked, then the user goes in. */
    method EnterChannel(u: UserId, name: string) returns (reply: Reply)
      modifies this`channels
      ensures (TheWorld(), reply) == JoinChannel(old(TheWorld()), u, name)
    {
      var c := GetOrCreateChannel(name);
      if u in c.banned {
        return BannedFromChannel;
      }
      if c.inviteOnly && u !in c.invites && u !in c.operators {
        return InviteRequired;
      }
      c := c.(members := c.members + {u});
      if |c.members| == 1 {
        c := c.(operators := c.operators + {u});
      }
      channels := channels[name := c];
      assert channels == old(channels)[name := c];
      return Done;
    }

    method CmdPart(u: UserId, args: seq<string>) returns (reply: Reply)
      modifies this`channels
      ensures (TheWorld(), reply) == PartCommand(old(TheWorld()), u, args)
    {
      if args == [] {
        return Usage;
      }
      if args[0] !in channels {
        return NoSuchChannel;
      }
      var c := channels[args[0]];
      if u !in c.members {
        return NotInChannel;
      }
      c := c.(members := c.members - {u});
      c := c.(operators := c.operators - {u});
      c := c.(voiced := c.voiced - {u});
      channels := channels[args[0] := c];
      if c.members == {} {
        channels := channels - {args[0]};
      }
      assert channels == Parted(old(channels), args[0], u);
      return Done;
    }

    method CmdNick(u: UserId, args: seq<string>) returns (reply: Reply)
      modifies this`nickToUser, this`userToNick
      ensures (TheWorld(), reply) == NickCommand(old(TheWorld()), u, args)
    {
      if args == [] {
        return Usage;
      }
      var newNick := args[0];
      var oldNick := if u in userToNick then userToNick[u] else u;
      if newNick in nickToUser && nickToUser[newNick] != u {
        return NickInUse;
      }
      nickToUser := nickToUser - {oldNick};
      nickToUser := nickToUser[newNick := u];
      userToNick := userToNick[u := newNick];
      return Done;
    }

    method CmdKick(u: UserId, args: seq<string>) returns (reply: Reply)
      modifies this`channels
      ensures (TheWorld(), reply) == KickCommand(old(TheWorld()), u, args)
    {
      if |args| < 2 {
        return Usage;
      }
      if args[0] !in channels {
        return NoSuchChannel;
      }
      var c := channels[args[0]];
      if u !in c.operators {
        return NotOperator;
      }
      var target;
      if args[1] in nickToUser {
        target := nickToUser[args[1]];
      } else if args[1] in c.members {
        target := args[1];
      } else {
        return UserNotFound;
      }
      if target !in c.members {
        return TargetNotInChannel;
      }
      c := c.(members := c.members - {target});
      c := c.(operators := c.operators - {target});
      c := c.(voiced := c.voiced - {target});
      channels := channels[args[0] := c];
      return Done;
    }

    method CmdBan(u: UserId, args: seq<string>) returns (reply: Reply)
      modifies this`channels
      ensures (TheWorld(), reply) == BanCommand(old(TheWorld()), u, args)
    {
      if |args| < 2 {
        return Usage;
      }
      if args[0] !in channels {
        return NoSuchChannel;
      }
      var c := channels[args[0]];
      if u !in c.operators {
        return NotOperator;
      }
      var target := if args[1] in nickToUser then nickToUser[args[1]] else args[1];
      c := c.(banned := c.banned + {target});
      if target in c.members {
        c := c.(members := c.members - {target});
      }
      assert c.members == old(channels)[args[0]].members - {target};
      channels := channels[args[0] := c];
      return Done;
    }

    method CmdInvite(u: UserId, args: seq<string>) returns (reply: Reply)
      modifies this`channels
      ensures (TheWorld(), reply) == InviteCommand(old(TheWorld()), u, args)
    {
      if |args| < 2 {
        return Usage;
      }
      if args[0] !in channels {
        return NoSuchChannel;
      }
      var c := channels[args[0]];
      if u !in c.operators {
        return NotOperator;
      }
      var target := if args[1] in nickToUser then nickToUser[args[1]] else args[1];
      channels := channels[args[0] := c.(invites := c.invites + {target})];
      return Done;
    }

    method CmdSet(u: UserId, args: seq<string>) returns (reply: Reply)
      modifies this`channels
      ensures (TheWorld(), reply) == SetCommand(old(TheWorld()), u, args)
    {
      if |args| < 3 {
        return Usage;
      }
      if args[0] !in channels {
        return NoSuchChannel;
      }
      var c := channels[args[0]];
      if u !in c.operators {
        return NotOperator;
      }
      var option := Text.NormalizeNickname(args[1]);
      if option == "invite_only" {
        c := c.(inviteOnly := IsOn(args[2]));
      } else if option == "moderated" {
        c := c.(moderated := IsOn(args[2]));
      } else if option == "topic_restricted" {
        c := c.(topicRestricted := IsOn(args[2]));
      } else {
        return UnknownOption;
      }
      channels := channels[args[0] := c];
      return Done;
    }

    method CmdMode(u: UserId, args: seq<string>) returns (reply: Reply)
      modifies this`channels
      ensures (TheWorld(), reply) == ModeCommand(old(TheWorld()), u, args)
    {
      if |args| < 3 {
        return Usage;
      }
      if args[0] !in channels {
        return NoSuchChannel;
      }
      var c := channels[args[0]];
      if u !in c.operators {
        return NotOperator;
      }
      var target := if args[2] in nickToUser then nickToUser[args[2]] else args[2];
      if target !in c.members {
        return TargetNotInChannel;
      }
      if args[1] == "+o" {
        c := c.(operators := c.operators + {target});
      } else if args[1] == "-o" {
        c := c.(operators := c.operators - {target});
      } else if args[1] == "+v" {
        c := c.(voiced := c.voiced + {target});
      } else if args[1] == "-v" {
        c := c.(voiced := c.voiced - {target});
      } else {
        return UnknownMode;
      }
      channels := channels[args[0] := c];
      return Done;
    }

    method PartChannel(name: string, u: UserId)
      modifies this`channels
      ensures channels == Parted(old(channels), name, u)
    {
      if name !in channels {
        return;
      }
      var c := channels[name];
      c := c.(members := c.members - {u});
      c := c.(operators := c.operators - {u});
      c := c.(voiced := c.voiced - {u});
      channels := channels[name := c];
      if c.members == {} {
        channels := channels - {name};
      }
    }

    /** Collects the channels the user is in, then leaves them one by one. */
    method CmdQuit(u: UserId) returns (reply: Reply)
      modifies this`channels
      ensures (TheWorld(), reply) == QuitCommand(old(TheWorld()), u)
    {
      var toLeave := set n | n in channels && u in channels[n].members;
      while toLeave != {}
        invariant PartlyQuit(old(channels), channels, u, toLeave)
        decreases |toLeave|
      {
        var n :| n in toLeave;
        PartlyQuitStep(old(channels), channels, u, toLeave, n);
        PartChannel(n, u);
        toLeave := toLeave - {n};
      }
      QuitComplete(old(TheWorld()), channels, u);
      return Done;
    }
  }

  /** `u` has left all channels of `before` that `u` was in but those in `remaining`. */
  ghost predicate PartlyQuit(before: map<string, Channel>, after: map<string, Channel>, u: UserId,
                             remaining: set<string>)
  {
    && remaining <= after.Keys <= before.Keys
    && (forall n | n in remaining :: u in before[n].members && after[n] == before[n])
    && (forall n | n in before && n !in remaining :: n in after <==> before[n].members != {u})
    && (forall n | n in after && n !in remaining ::
          after[n] == if u in before[n].members then Without(before[n], u) else before[n])
  }

  lemma PartlyQuitStep(before: map<string, Channel>, after: map<string, Channel>, u: UserId,
                       remaining: set<string>, n: string)
    requires PartlyQuit(before, after, u, remaining) && n in remaining
    ensures PartlyQuit(before, Parted(after, n, u), u, remaining - {n})
  {
    assert Without(before[n], u).members == {} <==> before[n].members == {u};
  }

  lemma QuitComplete(w: World, after: map<string, Channel>, u: UserId)
    requires PartlyQuit(w.channels, after, u, {})
    ensures after == QuitCommand(w, u).0.channels
  {
  }
}
