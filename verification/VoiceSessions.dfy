/** The registry and the voice rooms together: who can be reached is who is registered, and a report that a
    session has gone takes its user out of the voice rooms. */
module VoiceSessions {
  import opened Base
  import opened VoiceRooms
  import R = Registries

  datatype Hall = Hall(registry: R.Registry, voice: Voice)

  const EMPTY_HALL := Hall(R.EMPTY_REGISTRY, EMPTY_VOICE)

  /** Voice requests come from sessions that have authenticated, registered still or not any more. */
  datatype Event =
    | Arrived(session: R.SessionId, user: UserId)
    | Reported(session: R.SessionId)
    | VoiceJoin(user: UserId, channel: ChannelId)
    | VoiceLeave(user: UserId, channel: ChannelId)

  function Online(h: Hall): set<UserId> {
    h.registry.byUser.Keys
  }

  /** A session authenticates once. */
  function Arrive(h: Hall, s: R.SessionId, u: UserId): Hall {
    if s in h.registry.bySession then h else h.(registry := R.Register(h.registry, u, s))
  }

  /** A disconnect report: the user is unregistered, then goes out of whatever room. */
  function Report(h: Hall, s: R.SessionId): Hall {
    if s !in h.registry.bySession then h
    else
      var registry := R.Unregister(h.registry, s);
      Hall(registry, Disconnect(h.voice, h.registry.bySession[s], registry.byUser.Keys))
  }

  function After(h: Hall, e: Event): Hall {
    match e
    case Arrived(s, u) => Arrive(h, s, u)
    case Reported(s) => Report(h, s)
    case VoiceJoin(u, c) => h.(voice := Join(h.voice, c, u, Online(h)).0)
    case VoiceLeave(u, c) => h.(voice := Leave(h.voice, c, u, Online(h)))
  }

  function RunHall(events: seq<Event>): Hall {
    if events == [] then EMPTY_HALL else After(RunHall(events[..|events| - 1]), events[|events| - 1])
  }

  ghost predicate Sound(h: Hall) {
    R.Inverse(h.registry) && Indexed(h.voice.rooms, h.voice.userRoom)
  }

  lemma AfterSound(h: Hall, e: Event)
    requires Sound(h)
    ensures Sound(After(h, e))
  {
    match e
    case Arrived(s, u) =>
      if s !in h.registry.bySession {
        R.RegisterInverseIff(h.registry, u, s);
      }
    case Reported(s) =>
      R.UnregisterKeepsInverse(h.registry, s);
      if s in h.registry.bySession && h.registry.bySession[s] in h.voice.userRoom {
        GoOutIndexed(h.voice, h.registry.bySession[s], R.Unregister(h.registry, s).byUser.Keys);
      }
    case VoiceJoin(u, c) => JoinIndexed(h.voice, c, u, Online(h));
    case VoiceLeave(u, c) =>
      if u in Occupants(h.voice.rooms, c) {
        GoOutIndexed(h.voice, u, Online(h));
      }
  }

  lemma {:induction false} RunIsSound(events: seq<Event>)
    ensures Sound(RunHall(events))
    decreases |events|
  {
    if events != [] {
      RunIsSound(events[..|events| - 1]);
      AfterSound(RunHall(events[..|events| - 1]), events[|events| - 1]);
    }
  }

  // ----- Everybody in a room is registered -----------------------------------------------------------

  ghost predicate Present(h: Hall) {
    h.voice.userRoom.Keys <= Online(h)
  }

  /** A session that has been reported gone, but is open still, joins a room with space for its user. */
  predicate GhostJoins(h: Hall, e: Event) {
    e.VoiceJoin? && e.user !in Online(h) && Join(h.voice, e.channel, e.user, Online(h)).1
  }

  lemma JoinPresentIff(h: Hall, u: UserId, c: ChannelId)
    requires Sound(h) && Present(h)
    ensures Present(After(h, VoiceJoin(u, c))) <==> !GhostJoins(h, VoiceJoin(u, c))
  {
    JoinIndexed(h.voice, c, u, Online(h));
    var after := Join(h.voice, c, u, Online(h)).0.userRoom;
    assert forall v | v != u :: v in after <==> v in h.voice.userRoom;
  }

  lemma ReportKeepsPresent(h: Hall, s: R.SessionId)
    requires Sound(h) && Present(h)
    ensures Present(Report(h, s))
  {
  }

  /** Only such a join puts somebody who is not registered into a room. */
  lemma PresentIff(h: Hall, e: Event)
    requires Sound(h) && Present(h)
    ensures Present(After(h, e)) <==> !GhostJoins(h, e)
  {
    match e
    case Arrived(s, u) =>
    case Reported(s) => ReportKeepsPresent(h, s);
    case VoiceJoin(u, c) => JoinPresentIff(h, u, c);
    case VoiceLeave(u, c) =>
  }

  // ----- Everybody in a room sees it ----------------------------------------------------------------

  ghost predicate AllAgree(h: Hall) {
    forall u :: Agrees(h.voice, u)
  }

  lemma AfterAgrees(h: Hall, e: Event, u: UserId)
    requires Sound(h) && AllAgree(h) && Present(After(h, e))
    ensures Agrees(After(h, e).voice, u)
  {
    assert Agrees(h.voice, u);
    if u in After(h, e).voice.userRoom {
      match e
      case Arrived(s, w) =>
      case Reported(s) =>
        if s in h.registry.bySession && h.registry.bySession[s] in h.voice.userRoom {
          GoOutAgrees(h.voice, h.registry.bySession[s], R.Unregister(h.registry, s).byUser.Keys, u);
        }
      case VoiceJoin(w, c) => JoinAgrees(h.voice, c, w, Online(h), u);
      case VoiceLeave(w, c) =>
        if w in Occupants(h.voice.rooms, c) {
          GoOutAgrees(h.voice, w, Online(h), u);
        }
    }
  }

  /** In every run in which no such join has happened before the last step, the last step keeps everybody in
      a room registered exactly if it is no such join; and then, nobody needing to be assumed reachable,
      the view of everybody in a room is that room. */
  lemma {:induction false} RegisteredVoiceViews(events: seq<Event>)
    requires forall i | 0 <= i < |events| - 1 :: !GhostJoins(RunHall(events[..i]), events[i])
    ensures Present(RunHall(events)) <==>
      (events == [] || !GhostJoins(RunHall(events[..|events| - 1]), events[|events| - 1]))
    ensures Present(RunHall(events)) ==> AllAgree(RunHall(events))
    decreases |events|
  {
    if events != [] {
      var prefix, e := events[..|events| - 1], events[|events| - 1];
      forall i | 0 <= i < |prefix| ensures !GhostJoins(RunHall(prefix[..i]), prefix[i]) {
        assert prefix[..i] == events[..i] && prefix[i] == events[i];
        assert !GhostJoins(RunHall(events[..i]), events[i]);
      }
      RegisteredVoiceViews(prefix);
      RunIsSound(prefix);
      PresentIff(RunHall(prefix), e);
      if Present(RunHall(events)) {
        forall u ensures Agrees(RunHall(events).voice, u) {
          AfterAgrees(RunHall(prefix), e, u);
        }
      }
    }
  }

  /** The failing run: alice is reported gone, and her session joins a room all the same. */
  lemma GhostInRoom(c: ChannelId)
    ensures var h := RunHall([Arrived(1, "alice")] + [Reported(1)] + [VoiceJoin("alice", c)]);
      "alice" in h.voice.userRoom && "alice" !in Online(h) && !AllAgree(h)
  {
    var first, second, third := Arrived(1, "alice"), Reported(1), VoiceJoin("alice", c);
    assert [first][..0] == [] && ([first] + [second])[..1] == [first];
    assert ([first] + [second] + [third])[..2] == [first] + [second];
    var h := RunHall([first] + [second]);
    assert RunHall([first]) == Arrive(EMPTY_HALL, 1, "alice");
    assert h == Report(RunHall([first]), 1) && h.voice == EMPTY_VOICE && Online(h) == {};
    JoinSucceedsIff(EMPTY_VOICE, c, "alice", {});
    JoinIndexed(EMPTY_VOICE, c, "alice", {});
    UnreachedInbox(EMPTY_VOICE, JoinStep(c, "alice", {}), "alice");
    assert !Agrees(Join(EMPTY_VOICE, c, "alice", {}).0, "alice");
  }

  // ----- What each event does ------------------------------------------------------------------------

  /** A report of a registered session takes its user out of the registry and out of whatever voice room,
      those who remain there being told. */
  lemma ReportEffect(h: Hall, s: R.SessionId)
    requires Sound(h) && s in h.registry.bySession
    ensures var h', u := After(h, Reported(s)), h.registry.bySession[s];
      && Online(h') == Online(h) - {u} && s !in h'.registry.bySession && u !in h'.voice.userRoom
      && (if u in h.voice.userRoom then WentOut(h.voice, h'.voice, u, Online(h')) else h'.voice == h.voice)
  {
    R.UnregisteredAfter(h.registry, s);
    DisconnectEffect(h.voice, h.registry.bySession[s], R.Unregister(h.registry, s).byUser.Keys);
  }

  /** An arrival puts its user online under that session, and touches no voice room. */
  lemma ArriveEffect(h: Hall, s: R.SessionId, u: UserId)
    requires Sound(h) && s !in h.registry.bySession
    ensures var h' := After(h, Arrived(s, u));
      && Online(h') == Online(h) + {u} && h'.registry.byUser[u] == s && h'.voice == h.voice
  {
    R.RegisteredAfter(h.registry, u, s);
  }

  /** Voice requests are carried out with those online as the ones who can be reached. */
  lemma VoiceEffect(h: Hall, u: UserId, c: ChannelId)
    ensures After(h, VoiceJoin(u, c)) == Hall(h.registry, Next(h.voice, JoinStep(c, u, Online(h))))
    ensures After(h, VoiceLeave(u, c)) == Hall(h.registry, Next(h.voice, LeaveStep(c, u, Online(h))))
  {
  }
}
