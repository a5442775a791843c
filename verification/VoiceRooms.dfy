/** Voice rooms: a room index and its inverse, and the messages from which clients rebuild the room. */
module VoiceRooms {
  import opened Base

  const MAX_PER_ROOM: nat := 8

  type ChannelId = string

  datatype Message =
    | RoomState(channel: ChannelId, participants: set<UserId>)
    | RoomJoin(channel: ChannelId, user: UserId)
    | RoomLeave(channel: ChannelId, user: UserId)

  type Inboxes = map<UserId, seq<Message>>

  /** The two indexes, and what every user has been sent so far. */
  datatype Voice = Voice(rooms: map<ChannelId, set<UserId>>, userRoom: map<UserId, ChannelId>, inboxes: Inboxes)

  const EMPTY_VOICE := Voice(map[], map[], map[])

  function Inbox(inboxes: Inboxes, u: UserId): seq<Message> {
    if u in inboxes then inboxes[u] else []
  }

  /** Sends to those of `to` who can be found online. */
  function Send(inboxes: Inboxes, to: set<UserId>, online: set<UserId>, msg: Message): Inboxes {
    map u | u in inboxes.Keys + (to * online) :: if u in to * online then Inbox(inboxes, u) + [msg] else inboxes[u]
  }

  function Occupants(rooms: map<ChannelId, set<UserId>>, c: ChannelId): set<UserId> {
    if c in rooms then rooms[c] else {}
  }

  /** A room without `u`; a room left empty is dropped. */
  function Vacated(rooms: map<ChannelId, set<UserId>>, c: ChannelId, u: UserId): map<ChannelId, set<UserId>> {
    if Occupants(rooms, c) - {u} == {} then rooms - {c} else rooms[c := Occupants(rooms, c) - {u}]
  }

  /** `u` goes out of room `c`, and the others there are told. */
  function GoOut(v: Voice, c: ChannelId, u: UserId, online: set<UserId>): Voice {
    Voice(Vacated(v.rooms, c, u), v.userRoom - {u},
          Send(v.inboxes, Occupants(v.rooms, c) - {u}, online, RoomLeave(c, u)))
  }

  /** `u` comes into room `c`: those there are told, then `u` is told who is there. */
  function Enter(v: Voice, c: ChannelId, u: UserId, online: set<UserId>): Voice {
    var room := Occupants(v.rooms, c);
    var told := Send(v.inboxes, room, online, RoomJoin(c, u));
    Voice(v.rooms[c := room + {u}], v.userRoom[u := c], Send(told, {u}, online, RoomState(c, room + {u})))
  }

  /** Joining leaves the present room first; the result says whether there was space. */
  function Join(v: Voice, c: ChannelId, u: UserId, online: set<UserId>): (Voice, bool) {
    var out := Disconnect(v, u, online);
    if |Occupants(out.rooms, c)| >= MAX_PER_ROOM then (out, false) else (Enter(out, c, u, online), true)
  }

  function Leave(v: Voice, c: ChannelId, u: UserId, online: set<UserId>): Voice {
    if u in Occupants(v.rooms, c) then GoOut(v, c, u, online) else v
  }

  function Disconnect(v: Voice, u: UserId, online: set<UserId>): Voice {
    if u in v.userRoom then GoOut(v, v.userRoom[u], u, online) else v
  }

  lemma SentToEach(inboxes: Inboxes, to: set<UserId>, online: set<UserId>, msg: Message, sent: Inboxes)
    requires forall u :: u in sent <==> u in inboxes || (u in to && u in online)
    requires forall u | u in sent ::
      sent[u] == if u in to && u in online then Inbox(inboxes, u) + [msg] else Inbox(inboxes, u)
    ensures sent == Send(inboxes, to, online, msg)
  {
    assert sent.Keys == Send(inboxes, to, online, msg).Keys;
  }

  class VoiceRoomManager {
    var rooms: map<ChannelId, set<UserId>>
    var userRoom: map<UserId, ChannelId>
    var inboxes: Inboxes

    ghost function State(): Voice
      reads this
    {
      Voice(rooms, userRoom, inboxes)
    }

    constructor ()
      ensures State() == EMPTY_VOICE
    {
      rooms, userRoom, inboxes := map[], map[], map[];
    }

    method SendTo(u: UserId, online: set<UserId>, msg: Message)
      modifies this`inboxes
      ensures inboxes == Send(old(inboxes), {u}, online, msg)
    {
      if u in online {
        inboxes := inboxes[u := Inbox(inboxes, u) + [msg]];
      }
      assert inboxes == Send(old(inboxes), {u}, online, msg);
    }

    method SendToPeers(peers: set<UserId>, online: set<UserId>, msg: Message)
      modifies this`inboxes
      ensures inboxes == Send(old(inboxes), peers, online, msg)
    {
      var pending, sent := peers, inboxes;
      while pending != {}
        invariant forall u | u in pending :: u in peers
        invariant forall u :: u in sent <==> u in old(inboxes) || (u in peers && u !in pending && u in online)
        invariant forall u | u in sent ::
          sent[u] == if u in peers && u !in pending && u in online then Inbox(old(inboxes), u) + [msg]
                     else Inbox(old(inboxes), u)
        decreases |pending|
      {
        var u :| u in pending;
        pending := pending - {u};
        if u in online {
          sent := sent[u := Inbox(sent, u) + [msg]];
        }
      }
      SentToEach(inboxes, peers, online, msg, sent);
      inboxes := sent;
    }

    method JoinRoom(c: ChannelId, u: UserId, online: set<UserId>) returns (ok: bool)
      modifies this
      ensures (State(), ok) == Join(old(State()), c, u, online)
    {
      if u in userRoom {
        LeavePrevious(u, online);
      }
      var room := Occupants(rooms, c);
      if |room| >= MAX_PER_ROOM {
        return false;
      }
      SendToPeers(room, online, RoomJoin(c, u));
      room := room + {u};
      rooms := rooms[c := room];
      userRoom := userRoom[u := c];
      SendTo(u, online, RoomState(c, room));
      return true;
    }

    /** The first half of a join by a user who is in some room. */
    method LeavePrevious(u: UserId, online: set<UserId>)
      requires u in userRoom
      modifies this
      ensures State() == GoOut(old(State()), old(userRoom[u]), u, online)
    {
      var previous := userRoom[u];
      var oldRoom := Occupants(rooms, previous) - {u};
      rooms := rooms[previous := oldRoom];
      SendToPeers(oldRoom, online, RoomLeave(previous, u));
      if oldRoom == {} {
        rooms := rooms - {previous};
      }
      userRoom := userRoom - {u};
      assert rooms == Vacated(old(rooms), previous, u);
    }

    method LeaveRoom(c: ChannelId, u: UserId, online: set<UserId>)
      modifies this
      ensures State() == Leave(old(State()), c, u, online)
    {
      if c !in rooms || u !in rooms[c] {
        return;
      }
      var room := rooms[c] - {u};
      rooms := rooms[c := room];
      userRoom := userRoom - {u};
      SendToPeers(room, online, RoomLeave(c, u));
      if room == {} {
        rooms := rooms - {c};
      }
      assert rooms == Vacated(old(rooms), c, u);
    }

    method OnDisconnect(u: UserId, online: set<UserId>)
      modifies this
      ensures State() == Disconnect(old(State()), u, online)
    {
      if u !in userRoom {
        return;
      }
      var c := userRoom[u];
      if c in rooms {
        var room := rooms[c] - {u};
        rooms := rooms[c := room];
        SendToPeers(room, online, RoomLeave(c, u));
        if room == {} {
          rooms := rooms - {c};
        }
      }
      userRoom := userRoom - {u};
      assert rooms == Vacated(old(rooms), c, u);
    }

    method Participants(c: ChannelId) returns (users: set<UserId>)
      ensures users == Occupants(rooms, c)
      ensures Indexed(rooms, userRoom) ==> users == set u | u in userRoom && userRoom[u] == c
    {
      if c !in rooms {
        return {};
      }
      return rooms[c];
    }

    method IsInVoice(u: UserId) returns (present: bool)
      ensures present <==> u in userRoom
      ensures Indexed(rooms, userRoom) ==> (present <==> exists c :: c in rooms && u in rooms[c])
    {
      present := u in userRoom;
    }
  }

  // ----- The indexes -----------------------------------------------------------------------

  /** The two indexes are exactly inverse, and no room is empty or holds more than eight users. */
  ghost predicate Indexed(rooms: map<ChannelId, set<UserId>>, userRoom: map<UserId, ChannelId>) {
    && (forall u | u in userRoom :: userRoom[u] in rooms && u in rooms[userRoom[u]])
    && (forall c, u | c in rooms && u in rooms[c] :: u in userRoom && userRoom[u] == c)
    && (forall c | c in rooms :: rooms[c] != {} && |rooms[c]| <= MAX_PER_ROOM)
  }

  lemma GoOutIndexed(v: Voice, u: UserId, online: set<UserId>)
    requires Indexed(v.rooms, v.userRoom) && u in v.userRoom
    ensures var out := GoOut(v, v.userRoom[u], u, online); Indexed(out.rooms, out.userRoom)
  {
  }

  lemma EnterIndexed(v: Voice, c: ChannelId, u: UserId, online: set<UserId>)
    requires Indexed(v.rooms, v.userRoom) && u !in v.userRoom && |Occupants(v.rooms, c)| < MAX_PER_ROOM
    ensures var v' := Enter(v, c, u, online); Indexed(v'.rooms, v'.userRoom)
  {
  }

  lemma JoinIndexed(v: Voice, c: ChannelId, u: UserId, online: set<UserId>)
    requires Indexed(v.rooms, v.userRoom)
    ensures var (v', ok) := Join(v, c, u, online);
      && Indexed(v'.rooms, v'.userRoom)
      && (if ok then u in v'.userRoom && v'.userRoom[u] == c else u !in v'.userRoom)
  {
    var out := Disconnect(v, u, online);
    if u in v.userRoom {
      GoOutIndexed(v, u, online);
    }
    if |Occupants(out.rooms, c)| < MAX_PER_ROOM {
      EnterIndexed(out, c, u, online);
    }
  }

  lemma RoomAfterGoingOut(v: Voice, c: ChannelId, u: UserId, online: set<UserId>)
    requires Indexed(v.rooms, v.userRoom)
    ensures Occupants(Disconnect(v, u, online).rooms, c) == Occupants(v.rooms, c) - {u}
  {
  }

  /** A join succeeds exactly when there are fewer than eight others in the room; a failed join leaves
      the user in no room. */
  lemma JoinSucceedsIff(v: Voice, c: ChannelId, u: UserId, online: set<UserId>)
    requires Indexed(v.rooms, v.userRoom)
    ensures Join(v, c, u, online).1 <==> |Occupants(v.rooms, c) - {u}| < 8
    ensures !Join(v, c, u, online).1 ==>
              u !in Join(v, c, u, online).0.userRoom && forall d :: u !in Occupants(Join(v, c, u, online).0.rooms, d)
  {
    RoomAfterGoingOut(v, c, u, online);
    if !Join(v, c, u, online).1 {
      JoinIndexed(v, c, u, online);
    }
  }

  // ----- What clients see --------------------------------------------------------------------

  datatype View = Outside | Inside(channel: ChannelId, participants: set<UserId>)

  /** What a client makes of one more message. */
  function Apply(view: View, msg: Message): View {
    match msg
    case RoomState(c, users) => Inside(c, users)
    case RoomJoin(c, u) =>
      if view.Inside? && view.channel == c then view.(participants := view.participants + {u}) else view
    case RoomLeave(c, u) =>
      if view.Inside? && view.channel == c then view.(participants := view.participants - {u}) else view
  }

  function Replay(msgs: seq<Message>): View {
    if msgs == [] then Outside else Apply(Replay(msgs[..|msgs| - 1]), msgs[|msgs| - 1])
  }

  lemma ReplayAfterSend(inboxes: Inboxes, to: set<UserId>, online: set<UserId>, msg: Message, u: UserId)
    ensures Replay(Inbox(Send(inboxes, to, online, msg), u))
         == if u in to && u in online then Apply(Replay(Inbox(inboxes, u)), msg) else Replay(Inbox(inboxes, u))
  {
    if u in to && u in online {
      var box := Inbox(inboxes, u) + [msg];
      assert box[..|box| - 1] == Inbox(inboxes, u);
    }
  }

  /** The room of `u`, as a client should see it. */
  function RoomOf(v: Voice, u: UserId): View
    requires u in v.userRoom
  {
    Inside(v.userRoom[u], Occupants(v.rooms, v.userRoom[u]))
  }

  /** What the messages to `u` amount to. */
  function ViewOf(v: Voice, u: UserId): View {
    Replay(Inbox(v.inboxes, u))
  }

  /** A participant's view is its room. */
  ghost predicate Agrees(v: Voice, u: UserId) {
    u in v.userRoom ==> ViewOf(v, u) == RoomOf(v, u)
  }

  lemma GoOutAgrees(v: Voice, w: UserId, online: set<UserId>, u: UserId)
    requires Indexed(v.rooms, v.userRoom) && w in v.userRoom && Agrees(v, u) && u in online
    ensures Agrees(GoOut(v, v.userRoom[w], w, online), u)
  {
    var c := v.userRoom[w];
    ReplayAfterSend(v.inboxes, Occupants(v.rooms, c) - {w}, online, RoomLeave(c, w), u);
  }

  lemma EnterAgrees(v: Voice, c: ChannelId, w: UserId, online: set<UserId>, u: UserId)
    requires Indexed(v.rooms, v.userRoom) && w !in v.userRoom && (u != w ==> Agrees(v, u)) && u in online
    ensures Agrees(Enter(v, c, w, online), u)
  {
    var room := Occupants(v.rooms, c);
    var told := Send(v.inboxes, room, online, RoomJoin(c, w));
    ReplayAfterSend(v.inboxes, room, online, RoomJoin(c, w), u);
    ReplayAfterSend(told, {w}, online, RoomState(c, room + {w}), u);
  }

  lemma JoinAgrees(v: Voice, c: ChannelId, w: UserId, online: set<UserId>, u: UserId)
    requires Indexed(v.rooms, v.userRoom) && (u != w ==> Agrees(v, u)) && u in online
    ensures Agrees(Join(v, c, w, online).0, u)
  {
    var out := Disconnect(v, w, online);
    if w in v.userRoom {
      GoOutIndexed(v, w, online);
      if u != w {
        GoOutAgrees(v, w, online, u);
      }
    }
    if |Occupants(out.rooms, c)| < MAX_PER_ROOM {
      EnterAgrees(out, c, w, online, u);
    }
  }

  /** A join by a user who can be reached sets that user's view right, whatever it was before. */
  lemma JoinHeals(v: Voice, c: ChannelId, u: UserId, online: set<UserId>)
    requires Indexed(v.rooms, v.userRoom) && u in online
    ensures Agrees(Join(v, c, u, online).0, u)
  {
    JoinAgrees(v, c, u, online, u);
  }

  datatype Step =
    | JoinStep(channel: ChannelId, user: UserId, online: set<UserId>)
    | LeaveStep(channel: ChannelId, user: UserId, online: set<UserId>)
    | DisconnectStep(user: UserId, online: set<UserId>)

  function Next(v: Voice, step: Step): Voice {
    match step
    case JoinStep(c, u, online) => Join(v, c, u, online).0
    case LeaveStep(c, u, online) => Leave(v, c, u, online)
    case DisconnectStep(u, online) => Disconnect(v, u, online)
  }

  function Run(v: Voice, steps: seq<Step>): Voice {
    if steps == [] then v else Next(Run(v, steps[..|steps| - 1]), steps[|steps| - 1])
  }

  /** In every run the indexes stay exactly inverse, no room is empty, and none is overfull. */
  lemma {:induction false} RunIndexed(v: Voice, steps: seq<Step>)
    requires Indexed(v.rooms, v.userRoom)
    ensures Indexed(Run(v, steps).rooms, Run(v, steps).userRoom)
    decreases |steps|
  {
    if steps != [] {
      var v' := Run(v, steps[..|steps| - 1]);
      RunIndexed(v, steps[..|steps| - 1]);
      match steps[|steps| - 1] {
        case JoinStep(c, u, online) => JoinIndexed(v', c, u, online);
        case LeaveStep(c, u, online) => if u in v'.userRoom { GoOutIndexed(v', u, online); }
        case DisconnectStep(u, online) => if u in v'.userRoom { GoOutIndexed(v', u, online); }
      }
    }
  }

  // ----- Who misses what ---------------------------------------------------------------------

  /** A user who cannot be reached is sent nothing. */
  lemma UnreachedInbox(v: Voice, step: Step, u: UserId)
    requires u !in step.online
    ensures Inbox(Next(v, step).inboxes, u) == Inbox(v.inboxes, u)
  {
  }

  /** Nor is a user who is in no room after the step. */
  lemma OutsideInbox(v: Voice, step: Step, u: UserId)
    requires Indexed(v.rooms, v.userRoom) && u !in Next(v, step).userRoom
    ensures Inbox(Next(v, step).inboxes, u) == Inbox(v.inboxes, u)
  {
    match step
    case JoinStep(c, w, online) => JoinSparesOutside(v, c, w, online, u);
    case LeaveStep(_, _, _) =>
    case DisconnectStep(_, _) =>
  }

  lemma GoOutSpares(v: Voice, w: UserId, online: set<UserId>, u: UserId)
    requires w in v.userRoom && u !in Occupants(v.rooms, v.userRoom[w]) - {w}
    ensures Inbox(GoOut(v, v.userRoom[w], w, online).inboxes, u) == Inbox(v.inboxes, u)
  {
  }

  lemma EnterSpares(v: Voice, c: ChannelId, w: UserId, online: set<UserId>, u: UserId)
    requires u != w && u !in Occupants(v.rooms, c)
    ensures Inbox(Enter(v, c, w, online).inboxes, u) == Inbox(v.inboxes, u)
  {
  }

  lemma JoinSparesOutside(v: Voice, c: ChannelId, w: UserId, online: set<UserId>, u: UserId)
    requires Indexed(v.rooms, v.userRoom) && u !in Join(v, c, w, online).0.userRoom
    ensures Inbox(Join(v, c, w, online).0.inboxes, u) == Inbox(v.inboxes, u)
  {
    var out := Disconnect(v, w, online);
    if w in v.userRoom {
      GoOutIndexed(v, w, online);
      GoOutSpares(v, w, online, u);
    }
    if |Occupants(out.rooms, c)| < MAX_PER_ROOM {
      EnterSpares(out, c, w, online, u);
    }
  }

  /** A user in a room before and after a step, who can be reached. */
  lemma ReachedAgrees(v: Voice, step: Step, u: UserId)
    requires Indexed(v.rooms, v.userRoom) && Agrees(v, u) && u in step.online
    ensures Agrees(Next(v, step), u)
  {
    match step
    case JoinStep(c, w, online) => JoinAgrees(v, c, w, online, u);
    case LeaveStep(c, w, online) => if w in Occupants(v.rooms, c) { GoOutAgrees(v, w, online, u); }
    case DisconnectStep(w, online) => if w in v.userRoom { GoOutAgrees(v, w, online, u); }
  }

  /** What a client should show: the room of its user, or the last one if the user is in none. */
  function Shown(last: View, v: Voice, u: UserId): View {
    if u in v.userRoom then RoomOf(v, u) else last
  }

  /** The step leaves `u` in a room that is not as last shown, and `u` cannot be reached. */
  predicate Misses(last: View, v: Voice, step: Step, u: UserId) {
    var v' := Next(v, step);
    u in v'.userRoom && u !in step.online && RoomOf(v', u) != last
  }

  /** A client that shows what it should goes on doing so exactly if its user misses nothing. */
  lemma ViewStepIff(last: View, v: Voice, step: Step, u: UserId)
    requires Indexed(v.rooms, v.userRoom)
    requires ViewOf(v, u) == last && last == Shown(last, v, u)
    ensures ViewOf(Next(v, step), u) == Shown(last, Next(v, step), u) <==> !Misses(last, v, step, u)
  {
    if u !in step.online {
      UnreachedInbox(v, step, u);
    } else if u in Next(v, step).userRoom {
      ReachedAgrees(v, step, u);
    } else {
      OutsideInbox(v, step, u);
    }
  }

  /** What the client of `u` should show after a run. */
  function ShownAfter(last: View, v: Voice, steps: seq<Step>, u: UserId): View {
    if steps == [] then Shown(last, v, u)
    else Shown(ShownAfter(last, v, steps[..|steps| - 1], u), Run(v, steps), u)
  }

  /** `u` misses nothing at step `i` of a run. */
  predicate NoMissAt(last: View, v: Voice, steps: seq<Step>, u: UserId, i: nat)
    requires i < |steps|
  {
    !Misses(ShownAfter(last, v, steps[..i], u), Run(v, steps[..i]), steps[i], u)
  }

  /** In every run in which `u` has missed nothing before the last step, replaying all messages sent to `u`
      yields what the client should show, and so the room `u` is in, if any, exactly if `u` does not miss
      the last step. The other users may come and go, reachable or not. */
  lemma {:induction false} VoiceViewAgreement(last: View, v: Voice, steps: seq<Step>, u: UserId)
    requires Indexed(v.rooms, v.userRoom) && ViewOf(v, u) == Shown(last, v, u)
    requires forall i | 0 <= i < |steps| - 1 :: NoMissAt(last, v, steps, u, i)
    ensures ViewOf(Run(v, steps), u) == ShownAfter(last, v, steps, u) <==>
      (steps == [] || NoMissAt(last, v, steps, u, |steps| - 1))
    decreases |steps|
  {
    if steps != [] {
      var prefix := steps[..|steps| - 1];
      forall i | 0 <= i < |prefix| ensures NoMissAt(last, v, prefix, u, i) {
        assert prefix[..i] == steps[..i] && prefix[i] == steps[i];
        assert NoMissAt(last, v, steps, u, i);
      }
      VoiceViewAgreement(last, v, prefix, u);
      RunIndexed(v, prefix);
      ViewStepIff(ShownAfter(last, v, prefix, u), Run(v, prefix), steps[|steps| - 1], u);
    }
  }

  /** From the start of the server on, with a client that shows nothing yet. */
  lemma {:induction false} VoiceViewAgreementFromStart(steps: seq<Step>, u: UserId)
    requires forall i | 0 <= i < |steps| :: NoMissAt(Outside, EMPTY_VOICE, steps, u, i)
    ensures var v := Run(EMPTY_VOICE, steps); Agrees(v, u) && Indexed(v.rooms, v.userRoom)
  {
    VoiceViewAgreement(Outside, EMPTY_VOICE, steps, u);
    RunIndexed(EMPTY_VOICE, steps);
    assert u in Run(EMPTY_VOICE, steps).userRoom ==>
        ShownAfter(Outside, EMPTY_VOICE, steps, u) == RoomOf(Run(EMPTY_VOICE, steps), u);
  }

  /** And from any join by a user who can be reached, whatever was missed before it. */
  lemma {:induction false} VoiceViewAfterJoin(v: Voice, c: ChannelId, u: UserId, online: set<UserId>, steps: seq<Step>)
    requires Indexed(v.rooms, v.userRoom) && u in online && Join(v, c, u, online).1
    requires var v' := Join(v, c, u, online).0;
      forall i | 0 <= i < |steps| :: NoMissAt(ViewOf(v', u), v', steps, u, i)
    ensures Agrees(Run(Join(v, c, u, online).0, steps), u)
  {
    var v' := Join(v, c, u, online).0;
    JoinHeals(v, c, u, online);
    JoinIndexed(v, c, u, online);
    VoiceViewAgreement(ViewOf(v', u), v', steps, u);
    assert u in Run(v', steps).userRoom ==> ShownAfter(ViewOf(v', u), v', steps, u) == RoomOf(Run(v', steps), u);
  }

  /** It does go wrong: bob joins while nobody can find him, after a ping timeout say. He is in the room,
      alice sees him there, and he sees nothing. */
  lemma UnreachedJoin(c: ChannelId)
    ensures var v := Run(EMPTY_VOICE, [JoinStep(c, "alice", {"alice"})] + [JoinStep(c, "bob", {"alice"})]);
      && "bob" in v.userRoom && v.userRoom["bob"] == c
      && ViewOf(v, "bob") == Outside && !Agrees(v, "bob") && Agrees(v, "alice")
  {
    var first, second := JoinStep(c, "alice", {"alice"}), JoinStep(c, "bob", {"alice"});
    assert ([first] + [second])[..1] == [first] && [first][..0] == [];
    assert Run(EMPTY_VOICE, [first]) == Next(EMPTY_VOICE, first);
    var v := Next(EMPTY_VOICE, first);
    JoinHeals(EMPTY_VOICE, c, "alice", {"alice"});
    JoinIndexed(EMPTY_VOICE, c, "alice", {"alice"});
    UnreachedInbox(EMPTY_VOICE, first, "bob");
    UnreachedInbox(v, second, "bob");
    JoinSucceedsIff(v, c, "bob", {"alice"});
    assert Occupants(v.rooms, c) - {"bob"} <= {"alice"};
    JoinIndexed(v, c, "bob", {"alice"});
    JoinAgrees(v, c, "bob", {"alice"}, "alice");
  }

  // ----- What each step does -----------------------------------------------------------------

  /** `u` has gone out of the room it was in: it is in none, the others are where they were, and each of
      those in that room that can be reached has been told, and nobody else anything. */
  ghost predicate WentOut(v: Voice, v': Voice, u: UserId, online: set<UserId>)
    requires u in v.userRoom
  {
    var c := v.userRoom[u];
    && v'.userRoom.Keys == v.userRoom.Keys - {u}
    && (forall w | w in v'.userRoom :: v'.userRoom[w] == v.userRoom[w])
    && Occupants(v'.rooms, c) == Occupants(v.rooms, c) - {u}
    && (forall d | d != c :: Occupants(v'.rooms, d) == Occupants(v.rooms, d))
    && (forall w :: Inbox(v'.inboxes, w) == Inbox(v.inboxes, w)
                      + if w in Occupants(v'.rooms, c) * online then [RoomLeave(c, u)] else [])
  }

  lemma InboxAfterSend(inboxes: Inboxes, to: set<UserId>, online: set<UserId>, msg: Message, u: UserId)
    ensures Inbox(Send(inboxes, to, online, msg), u) == Inbox(inboxes, u) + if u in to * online then [msg] else []
  {
    assert Inbox(inboxes, u) + [] == Inbox(inboxes, u);
  }

  lemma GoOutEffect(v: Voice, u: UserId, online: set<UserId>)
    requires Indexed(v.rooms, v.userRoom) && u in v.userRoom
    ensures WentOut(v, GoOut(v, v.userRoom[u], u, online), u, online)
  {
    var c := v.userRoom[u];
    var v' := GoOut(v, c, u, online);
    forall w ensures Inbox(v'.inboxes, w) == Inbox(v.inboxes, w)
                       + if w in Occupants(v'.rooms, c) * online then [RoomLeave(c, u)] else []
    {
      InboxAfterSend(v.inboxes, Occupants(v.rooms, c) - {u}, online, RoomLeave(c, u), w);
    }
  }

  /** Leaving the room one is in takes one out of it; leaving any other changes nothing. */
  lemma LeaveEffect(v: Voice, c: ChannelId, u: UserId, online: set<UserId>)
    requires Indexed(v.rooms, v.userRoom)
    ensures var v' := Next(v, LeaveStep(c, u, online));
      if u in v.userRoom && v.userRoom[u] == c then WentOut(v, v', u, online) else v' == v
  {
    if u in v.userRoom && v.userRoom[u] == c {
      GoOutEffect(v, u, online);
    }
  }

  /** A disconnect takes one out of whatever room. */
  lemma DisconnectEffect(v: Voice, u: UserId, online: set<UserId>)
    requires Indexed(v.rooms, v.userRoom)
    ensures var v' := Next(v, DisconnectStep(u, online));
      if u in v.userRoom then WentOut(v, v', u, online) else v' == v
  {
    if u in v.userRoom {
      GoOutEffect(v, u, online);
    }
  }

  /** `u` has come into room `c` from none: the others there are told of it, and it is told who is there. */
  ghost predicate CameIn(v: Voice, v': Voice, c: ChannelId, u: UserId, online: set<UserId>) {
    && v'.userRoom == v.userRoom[u := c]
    && Occupants(v'.rooms, c) == Occupants(v.rooms, c) + {u}
    && (forall d | d != c :: Occupants(v'.rooms, d) == Occupants(v.rooms, d))
    && (forall w | w != u :: Inbox(v'.inboxes, w) == Inbox(v.inboxes, w)
                               + if w in Occupants(v.rooms, c) * online then [RoomJoin(c, u)] else [])
    && Inbox(v'.inboxes, u) == Inbox(v.inboxes, u) + if u in online then [RoomState(c, Occupants(v'.rooms, c))] else []
  }

  lemma EnterEffect(v: Voice, c: ChannelId, u: UserId, online: set<UserId>)
    requires u !in Occupants(v.rooms, c)
    ensures CameIn(v, Enter(v, c, u, online), c, u, online)
  {
    var room := Occupants(v.rooms, c);
    var told := Send(v.inboxes, room, online, RoomJoin(c, u));
    var v' := Enter(v, c, u, online);
    forall w | w != u
      ensures Inbox(v'.inboxes, w) == Inbox(v.inboxes, w) + if w in room * online then [RoomJoin(c, u)] else []
    {
      InboxAfterSend(v.inboxes, room, online, RoomJoin(c, u), w);
      InboxAfterSend(told, {u}, online, RoomState(c, room + {u}), w);
      assert Inbox(told, w) + [] == Inbox(told, w);
    }
    InboxAfterSend(v.inboxes, room, online, RoomJoin(c, u), u);
    InboxAfterSend(told, {u}, online, RoomState(c, room + {u}), u);
    assert Inbox(v.inboxes, u) + [] == Inbox(v.inboxes, u);
  }

  /** A join takes one out of the present room, if any, and then, exactly if fewer than eight others are
      there, into the new one. */
  lemma JoinEffect(v: Voice, c: ChannelId, u: UserId, online: set<UserId>)
    requires Indexed(v.rooms, v.userRoom)
    ensures var v', out := Next(v, JoinStep(c, u, online)), Next(v, DisconnectStep(u, online));
      if |Occupants(v.rooms, c) - {u}| < 8 then CameIn(out, v', c, u, online) else v' == out
  {
    var out := Next(v, DisconnectStep(u, online));
    RoomAfterGoingOut(v, c, u, online);
    JoinSucceedsIff(v, c, u, online);
    if |Occupants(v.rooms, c) - {u}| < 8 {
      EnterEffect(out, c, u, online);
    }
  }
}
