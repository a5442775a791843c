/** Presence: the listener's handlers, the updates they send, and what every client makes of them. */
module Presences {
  import opened Base
  import opened Text
  import opened Registries

  datatype Phase = AuthPending | Established | Dead

  datatype Update = Update(user: UserId, online: bool)

  /** The registry, the phase of every session and the presence updates each session has been sent. */
  datatype Net = Net(registry: Registry, phases: map<SessionId, Phase>, inboxes: map<SessionId, seq<Update>>)

  const EMPTY_NET := Net(EMPTY_REGISTRY, map[], map[])

  function PhaseOf(phases: map<SessionId, Phase>, s: SessionId): Phase {
    if s in phases then phases[s] else AuthPending
  }

  function Inbox(inboxes: map<SessionId, seq<Update>>, s: SessionId): seq<Update> {
    if s in inboxes then inboxes[s] else []
  }

  function SendAll(inboxes: map<SessionId, seq<Update>>, to: set<SessionId>,
                   update: Update): map<SessionId, seq<Update>>
  {
    map s | s in inboxes.Keys + to :: if s in to then Inbox(inboxes, s) + [update] else inboxes[s]
  }

  /** The snapshot: one ONLINE update per listed user. */
  function Snapshot(users: seq<UserId>): (r: seq<Update>)
    ensures |r| == |users| && forall i | 0 <= i < |users| :: r[i] == Update(users[i], true)
  {
    seq(|users|, i requires 0 <= i < |users| => Update(users[i], true))
  }

  /** The registered users whose session is established. */
  function OnlineUsers(r: Registry, phases: map<SessionId, Phase>): set<UserId> {
    set u | u in r.byUser && PhaseOf(phases, r.byUser[u]) == Established
  }

  /** The tail of a successful authentication of session `s` as user `u`: registration, the snapshot
      to `s` in the order `listing`, and ONLINE to everybody else. */
  function Authenticate(n: Net, s: SessionId, u: UserId, listing: seq<UserId>): Net {
    if PhaseOf(n.phases, s) != AuthPending then n
    else
      var registry := Register(n.registry, u, s);
      var greeted := n.inboxes[s := Inbox(n.inboxes, s) + Snapshot(listing)];
      Net(registry, n.phases[s := Established], SendAll(greeted, registry.byUser.Values - {s}, Update(u, true)))
  }

  /** A report, possibly late or repeated, that session `s` has gone. */
  function ReportGone(n: Net, s: SessionId): Net {
    if s !in n.registry.bySession then n
    else
      var registry := Unregister(n.registry, s);
      Net(registry, n.phases, SendAll(n.inboxes, registry.byUser.Values, Update(n.registry.bySession[s], false)))
  }

  function MarkDead(n: Net, s: SessionId): Net {
    n.(phases := n.phases[s := Dead])
  }

  /** All registered sessions but the excluded one. */
  function Recipients(byUser: map<UserId, SessionId>, exclude: Option<SessionId>): set<SessionId> {
    byUser.Values - (if exclude.Some? then {exclude.value} else {})
  }

  lemma SentToEach(inboxes: map<SessionId, seq<Update>>, to: set<SessionId>, update: Update,
                   sent: map<SessionId, seq<Update>>)
    requires forall s :: s in sent <==> s in inboxes || s in to
    requires forall s | s in to :: s in sent && sent[s] == Inbox(inboxes, s) + [update]
    requires forall s | s in inboxes && s !in to :: s in sent && sent[s] == inboxes[s]
    ensures sent == SendAll(inboxes, to, update)
  {
    var all := SendAll(inboxes, to, update);
    assert sent.Keys == all.Keys;
    assert forall s | s in sent :: sent[s] == all[s];
  }

  method SendToEach(inboxes: map<SessionId, seq<Update>>, recipients: set<SessionId>, update: Update)
    returns (sent: map<SessionId, seq<Update>>)
    ensures sent == SendAll(inboxes, recipients, update)
  {
    sent := inboxes;
    var pending := recipients;
    while pending != {}
      invariant pending <= recipients
      invariant forall s :: s in sent <==> s in inboxes || s in recipients - pending
      invariant forall s | s in recipients && s !in pending :: s in sent && sent[s] == Inbox(inboxes, s) + [update]
      invariant forall s | s in inboxes && s !in recipients - pending :: s in sent && sent[s] == inboxes[s]
      decreases |pending|
    {
      var s :| s in pending;
      sent := sent[s := Inbox(sent, s) + [update]];
      pending := pending - {s};
    }
    SentToEach(inboxes, recipients, update, sent);
  }

  class Listener {
    var sessionsByUser: map<UserId, SessionId>
    var usersBySession: map<SessionId, UserId>
    var phases: map<SessionId, Phase>
    var inboxes: map<SessionId, seq<Update>>

    ghost function Registry(): Registries.Registry
      reads this
    {
      Registries.Registry(sessionsByUser, usersBySession)
    }

    ghost function State(): Net
      reads this
    {
      Net(Registry(), phases, inboxes)
    }

    constructor ()
      ensures State() == EMPTY_NET
    {
      sessionsByUser, usersBySession, phases, inboxes := map[], map[], map[], map[];
    }

    /** The end of a successful authentication. The snapshot is taken in some order; the result tells
        which. */
    method CompleteAuthentication(s: SessionId, u: UserId) returns (listing: seq<UserId>)
      requires PhaseOf(phases, s) == AuthPending
      modifies this
      ensures Lists(listing, OnlineUsers(Register(old(Registry()), u, s), phases))
      ensures State() == Authenticate(old(State()), s, u, listing)
    {
      phases := phases[s := Established];
      listing := OnSessionAuthenticated(s, u);
      Broadcast(Update(u, true), Some(s));
    }

    method OnSessionAuthenticated(s: SessionId, u: UserId) returns (listing: seq<UserId>)
      modifies this
      ensures phases == old(phases)
      ensures Registry() == Register(old(Registry()), u, s)
      ensures Lists(listing, OnlineUsers(Registry(), phases))
      ensures inboxes == old(inboxes)[s := Inbox(old(inboxes), s) + Snapshot(listing)]
    {
      if u in sessionsByUser {
        usersBySession := usersBySession - {sessionsByUser[u]};
        sessionsByUser := sessionsByUser - {u};
      }
      sessionsByUser := sessionsByUser[u := s];
      usersBySession := usersBySession[s := u];
      listing := CollectOnline();
      SendPresenceSnapshot(s, listing);
    }

    /** Walks the registered sessions and collects the users whose session is established. */
    method CollectOnline() returns (listing: seq<UserId>)
      ensures Lists(listing, OnlineUsers(Registry(), phases))
    {
      listing := [];
      var pending := sessionsByUser.Keys;
      while pending != {}
        invariant pending <= sessionsByUser.Keys
        invariant Lists(listing, OnlineUsers(Registry(), phases) - pending)
        decreases |pending|
      {
        var v :| v in pending;
        pending := pending - {v};
        if PhaseOf(phases, sessionsByUser[v]) == Established {
          listing := listing + [v];
        }
      }
      assert OnlineUsers(Registry(), phases) - pending == OnlineUsers(Registry(), phases);
    }

    method SendPresenceSnapshot(s: SessionId, users: seq<UserId>)
      modifies this`inboxes
      ensures inboxes == old(inboxes)[s := Inbox(old(inboxes), s) + Snapshot(users)]
    {
      var box := Inbox(inboxes, s);
      for i := 0 to |users|
        invariant box == Inbox(old(inboxes), s) + Snapshot(users[..i])
      {
        assert Snapshot(users[..i + 1]) == Snapshot(users[..i]) + [Update(users[i], true)];
        box := box + [Update(users[i], true)];
      }
      assert users[..|users|] == users;
      inboxes := inboxes[s := box];
    }

    /** Collects the sessions of the registry, then sends to one after the other. */
    method Broadcast(update: Update, exclude: Option<SessionId>)
      modifies this`inboxes
      ensures inboxes == SendAll(old(inboxes), Recipients(sessionsByUser, exclude), update)
    {
      inboxes := SendToEach(inboxes, Recipients(sessionsByUser, exclude), update);
    }

    method OnSessionDisconnected(s: SessionId)
      modifies this
      ensures State() == ReportGone(old(State()), s)
    {
      if s in usersBySession {
        var u := usersBySession[s];
        sessionsByUser := sessionsByUser - {u};
        usersBySession := usersBySession - {s};
        Broadcast(Update(u, false), None);
      }
    }

    method Kill(s: SessionId)
      modifies this
      ensures State() == MarkDead(old(State()), s)
    {
      phases := phases[s := Dead];
    }

    method FindSession(u: UserId) returns (s: Option<SessionId>)
      ensures s == if u in sessionsByUser then Some(sessionsByUser[u]) else None
    {
      if u in sessionsByUser {
        return Some(sessionsByUser[u]);
      }
      return None;
    }

    /** Null exactly if no online user has the nickname; otherwise the session of one who has. */
    method FindSessionByNickname(nick: string) returns (s: Option<SessionId>)
      ensures s.None? <==> Available(Registry(), nick, "")
      ensures s.Some? ==> exists u :: Clashes(Registry(), u, nick) && sessionsByUser[u] == s.value
    {
      var target := NormalizeNickname(nick);
      var pending := sessionsByUser.Keys;
      while pending != {}
        invariant pending <= sessionsByUser.Keys
        invariant forall u | Clashes(Registry(), u, nick) :: u in pending
        decreases |pending|
      {
        var u :| u in pending;
        var folded := NormalizeNickname(u);
        if folded == target {
          assert Clashes(Registry(), u, nick);
          return Some(sessionsByUser[u]);
        }
        pending := pending - {u};
      }
      return None;
    }

    method IsNicknameAvailable(nick: string, exclude: string) returns (available: bool)
      ensures available <==> Available(Registry(), nick, exclude)
    {
      var target := NormalizeNickname(nick);
      var normalizedExclude := NormalizeNickname(exclude);
      var pending := sessionsByUser.Keys;
      while pending != {}
        invariant pending <= sessionsByUser.Keys
        invariant forall u | Clashes(Registry(), u, nick) && u !in pending ::
                    exclude != "" && Fold(u) == Fold(exclude)
        decreases |pending|
      {
        var u :| u in pending;
        pending := pending - {u};
        var folded := NormalizeNickname(u);
        if exclude != "" && folded == normalizedExclude {
          continue;
        }
        if folded == target {
          assert Clashes(Registry(), u, nick);
          return false;
        }
      }
      return true;
    }
  }

  // ----- What clients see ---------------------------------------------------------------

  /** The users a client takes to be online after a sequence of updates. */
  function View(updates: seq<Update>): set<UserId> {
    if updates == [] then {}
    else
      var earlier, last := View(updates[..|updates| - 1]), updates[|updates| - 1];
      if last.online then earlier + {last.user} else earlier - {last.user}
  }

  lemma ViewSnoc(updates: seq<Update>, last: Update)
    ensures View(updates + [last]) == if last.online then View(updates) + {last.user} else View(updates) - {last.user}
  {
    assert (updates + [last])[..|updates|] == updates;
  }

  lemma SnapshotSnoc(users: seq<UserId>, last: UserId)
    ensures Snapshot(users + [last]) == Snapshot(users) + [Update(last, true)]
  {
  }

  lemma {:induction false} ViewOfSnapshot(users: seq<UserId>, v: UserId)
    ensures v in View(Snapshot(users)) <==> v in users
    decreases |users|
  {
    if users != [] {
      var rest, last := users[..|users| - 1], users[|users| - 1];
      ViewOfSnapshot(rest, v);
      assert users == rest + [last];
      SnapshotSnoc(rest, last);
      ViewSnoc(Snapshot(rest), Update(last, true));
    }
  }

  lemma ViewAfterSnapshot(users: seq<UserId>, all: set<UserId>)
    requires Lists(users, all)
    ensures View(Snapshot(users)) == all
  {
    forall v ensures v in View(Snapshot(users)) <==> v in all {
      ViewOfSnapshot(users, v);
    }
  }

  lemma ViewOfSend(inboxes: map<SessionId, seq<Update>>, to: set<SessionId>, update: Update, s: SessionId)
    ensures var before, after := View(Inbox(inboxes, s)), View(Inbox(SendAll(inboxes, to, update), s));
      after == if s !in to then before
               else if update.online then before + {update.user} else before - {update.user}
  {
    if s in to {
      ViewSnoc(Inbox(inboxes, s), update);
    }
  }

  /** The maps are inverse, nothing has been sent to a session that has not authenticated, and the view
      of every registered session contains every registered user with an established session and only
      registered users. */
  ghost predicate Agreement(n: Net) {
    && Inverse(n.registry)
    && (forall s | PhaseOf(n.phases, s) == AuthPending :: s !in n.registry.bySession && Inbox(n.inboxes, s) == [])
    && (forall s | s in n.registry.bySession ::
          OnlineUsers(n.registry, n.phases) <= View(Inbox(n.inboxes, s)) <= n.registry.byUser.Keys)
  }

  datatype Step =
    | Authenticated(session: SessionId, user: UserId, listing: seq<UserId>)
    | Gone(session: SessionId)
    | Died(session: SessionId)

  function Next(n: Net, step: Step): Net {
    match step
    case Authenticated(s, u, listing) => Authenticate(n, s, u, listing)
    case Gone(s) => ReportGone(n, s)
    case Died(s) => MarkDead(n, s)
  }

  /** The snapshot of an authentication lists the users online after the registration. */
  ghost predicate Legal(n: Net, step: Step) {
    step.Authenticated? && PhaseOf(n.phases, step.session) == AuthPending ==>
      var registry, phases := Register(n.registry, step.user, step.session), n.phases[step.session := Established];
      Lists(step.listing, OnlineUsers(registry, phases))
  }

  function Run(steps: seq<Step>): Net {
    if steps == [] then EMPTY_NET else Next(Run(steps[..|steps| - 1]), steps[|steps| - 1])
  }

  ghost predicate LegalRun(steps: seq<Step>) {
    forall i | 0 <= i < |steps| :: Legal(Run(steps[..i]), steps[i])
  }

  lemma AuthenticateViews(n: Net, s: SessionId, u: UserId, listing: seq<UserId>, s': SessionId)
    requires Agreement(n) && PhaseOf(n.phases, s) == AuthPending
    requires Legal(n, Authenticated(s, u, listing))
    requires s' in Authenticate(n, s, u, listing).registry.bySession && s' != s
    ensures var n' := Authenticate(n, s, u, listing);
      OnlineUsers(n'.registry, n'.phases) <= View(Inbox(n'.inboxes, s')) <= n'.registry.byUser.Keys
  {
    var n' := Authenticate(n, s, u, listing);
    var r := n'.registry;
    var greeted := n.inboxes[s := Inbox(n.inboxes, s) + Snapshot(listing)];
    RegisterInverseIff(n.registry, u, s);
    ViewOfSend(greeted, r.byUser.Values - {s}, Update(u, true), s');
    assert r.byUser[r.bySession[s']] == s';
    assert s' in r.byUser.Values && s' in n.registry.bySession;
    assert Inbox(greeted, s') == Inbox(n.inboxes, s');
    assert OnlineUsers(r, n'.phases) <= OnlineUsers(n.registry, n.phases) + {u};
  }

  lemma NewcomerView(n: Net, s: SessionId, u: UserId, listing: seq<UserId>)
    requires Agreement(n) && PhaseOf(n.phases, s) == AuthPending
    requires Legal(n, Authenticated(s, u, listing))
    ensures var n' := Authenticate(n, s, u, listing);
      View(Inbox(n'.inboxes, s)) == OnlineUsers(n'.registry, n'.phases)
  {
    var n' := Authenticate(n, s, u, listing);
    var greeted := n.inboxes[s := Inbox(n.inboxes, s) + Snapshot(listing)];
    ViewOfSend(greeted, n'.registry.byUser.Values - {s}, Update(u, true), s);
    ViewAfterSnapshot(listing, OnlineUsers(n'.registry, n'.phases));
    assert [] + Snapshot(listing) == Snapshot(listing);
  }

  lemma AuthenticateKeepsPending(n: Net, s: SessionId, u: UserId, listing: seq<UserId>, s': SessionId)
    requires Agreement(n) && PhaseOf(n.phases, s) == AuthPending
    requires PhaseOf(n.phases, s') == AuthPending && s' != s
    ensures var n' := Authenticate(n, s, u, listing);
      s' !in n'.registry.bySession && Inbox(n'.inboxes, s') == []
  {
    var r := Register(n.registry, u, s);
    RegisterInverseIff(n.registry, u, s);
    assert forall x | x in r.byUser.Values :: x in r.bySession;
  }

  lemma AuthenticateAgrees(n: Net, s: SessionId, u: UserId, listing: seq<UserId>)
    requires Agreement(n) && PhaseOf(n.phases, s) == AuthPending
    requires Legal(n, Authenticated(s, u, listing))
    ensures Agreement(Authenticate(n, s, u, listing))
  {
    var n' := Authenticate(n, s, u, listing);
    RegisterInverseIff(n.registry, u, s);
    NewcomerView(n, s, u, listing);
    forall s' | s' in n'.registry.bySession
      ensures OnlineUsers(n'.registry, n'.phases) <= View(Inbox(n'.inboxes, s')) <= n'.registry.byUser.Keys
    {
      if s' != s {
        AuthenticateViews(n, s, u, listing, s');
      }
    }
    forall s' | PhaseOf(n'.phases, s') == AuthPending
      ensures s' !in n'.registry.bySession && Inbox(n'.inboxes, s') == []
    {
      AuthenticateKeepsPending(n, s, u, listing, s');
    }
  }

  lemma ReportGoneViews(n: Net, s: SessionId, s': SessionId)
    requires Agreement(n) && s in n.registry.bySession && s' in ReportGone(n, s).registry.bySession
    ensures var n' := ReportGone(n, s);
      OnlineUsers(n'.registry, n'.phases) <= View(Inbox(n'.inboxes, s')) <= n'.registry.byUser.Keys
  {
    var n' := ReportGone(n, s);
    var u := n.registry.bySession[s];
    var r := n'.registry;
    UnregisterKeepsInverse(n.registry, s);
    assert r.byUser[r.bySession[s']] == s';
    assert s' in r.byUser.Values;
    ViewOfSend(n.inboxes, r.byUser.Values, Update(u, false), s');
    assert OnlineUsers(r, n'.phases) <= OnlineUsers(n.registry, n.phases) - {u};
  }

  lemma ReportGoneKeepsPending(n: Net, s: SessionId, s': SessionId)
    requires Agreement(n) && s in n.registry.bySession && PhaseOf(n.phases, s') == AuthPending
    ensures s' !in ReportGone(n, s).registry.bySession && Inbox(ReportGone(n, s).inboxes, s') == []
  {
    var r := ReportGone(n, s).registry;
    UnregisterKeepsInverse(n.registry, s);
    assert forall x | x in r.byUser.Values :: x in r.bySession;
  }

  lemma ReportGoneAgrees(n: Net, s: SessionId)
    requires Agreement(n)
    ensures Agreement(ReportGone(n, s))
  {
    if s in n.registry.bySession {
      var n' := ReportGone(n, s);
      UnregisterKeepsInverse(n.registry, s);
      forall s' | s' in n'.registry.bySession
        ensures OnlineUsers(n'.registry, n'.phases) <= View(Inbox(n'.inboxes, s')) <= n'.registry.byUser.Keys
      {
        ReportGoneViews(n, s, s');
      }
      forall s' | PhaseOf(n.phases, s') == AuthPending
        ensures s' !in n'.registry.bySession && Inbox(n'.inboxes, s') == []
      {
        ReportGoneKeepsPending(n, s, s');
      }
    }
  }

  /** In every run of authentications, with or without replacement, of disconnect reports and of
      sessions dying, every client's view agrees with the registry. */
  lemma {:induction false} PresenceAgreement(steps: seq<Step>)
    requires LegalRun(steps)
    ensures Agreement(Run(steps))
    decreases |steps|
  {
    if steps != [] {
      var k := |steps| - 1;
      forall i | 0 <= i < k ensures Legal(Run(steps[..k][..i]), steps[..k][i]) {
        assert steps[..k][..i] == steps[..i];
        assert Legal(Run(steps[..i]), steps[i]);
      }
      PresenceAgreement(steps[..k]);
      var n := Run(steps[..k]);
      assert Legal(n, steps[k]);
      match steps[k] {
        case Authenticated(s, u, listing) =>
          if PhaseOf(n.phases, s) == AuthPending {
            AuthenticateAgrees(n, s, u, listing);
          }
        case Gone(s) => ReportGoneAgrees(n, s);
        case Died(s) =>
      }
    }
  }

  /** Once every registered session is alive, the views are exact. */
  lemma ViewsExactWhenAlive(n: Net, s: SessionId)
    requires Agreement(n) && s in n.registry.bySession
    requires forall u | u in n.registry.byUser :: PhaseOf(n.phases, n.registry.byUser[u]) == Established
    ensures View(Inbox(n.inboxes, s)) == n.registry.byUser.Keys
  {
    assert OnlineUsers(n.registry, n.phases) == n.registry.byUser.Keys;
  }

  // ----- Superseded sessions --------------------------------------------------------------

  /** A session that has authenticated before and is not registered any more. */
  ghost predicate Superseded(n: Net, s: SessionId) {
    PhaseOf(n.phases, s) != AuthPending && s !in n.registry.bySession
  }

  lemma ReplacementSupersedes(n: Net, s: SessionId, u: UserId, listing: seq<UserId>)
    requires Agreement(n) && PhaseOf(n.phases, s) == AuthPending && u in n.registry.byUser
    ensures Superseded(Authenticate(n, s, u, listing), n.registry.byUser[u])
  {
    assert n.registry.byUser[u] in n.registry.bySession;
  }

  /** However late a superseded session is reported gone, its successor stays registered and nobody is
      told that the user is offline. */
  lemma {:induction false} LateReportIsSilent(n: Net, s: SessionId, steps: seq<Step>)
    requires Superseded(n, s)
    ensures Superseded(RunFrom(n, steps), s)
    ensures ReportGone(RunFrom(n, steps), s) == RunFrom(n, steps)
    decreases |steps|
  {
    if steps != [] {
      LateReportIsSilent(n, s, steps[..|steps| - 1]);
    }
  }

  function RunFrom(n: Net, steps: seq<Step>): Net {
    if steps == [] then n else Next(RunFrom(n, steps[..|steps| - 1]), steps[|steps| - 1])
  }

  // ----- What each step does -----------------------------------------------------------------

  /** Exactly these sessions are sent exactly this. */
  ghost predicate SentExactly(n: Net, n': Net, to: set<SessionId>, updates: seq<Update>) {
    forall x :: Inbox(n'.inboxes, x) == Inbox(n.inboxes, x) + if x in to then updates else []
  }

  lemma SentByBroadcast(inboxes: map<SessionId, seq<Update>>, to: set<SessionId>, update: Update, x: SessionId)
    ensures Inbox(SendAll(inboxes, to, update), x) == Inbox(inboxes, x) + if x in to then [update] else []
  {
    assert Inbox(inboxes, x) + [] == Inbox(inboxes, x);
  }

  /** A report that a registered session has gone takes it and its user, and nobody else, out of the
      registry; every session that is still registered is sent one OFFLINE, and nobody anything else; and
      none of their views shows the user any more. */
  lemma GoneEffect(n: Net, s: SessionId)
    requires Agreement(n) && s in n.registry.bySession
    ensures var n', u := Next(n, Gone(s)), n.registry.bySession[s];
      && n'.phases == n.phases
      && n'.registry.byUser.Keys == n.registry.byUser.Keys - {u}
      && n'.registry.bySession.Keys == n.registry.bySession.Keys - {s}
      && (forall v | v in n'.registry.byUser :: n'.registry.byUser[v] == n.registry.byUser[v])
      && (forall x | x in n'.registry.bySession :: n'.registry.bySession[x] == n.registry.bySession[x])
      && SentExactly(n, n', n'.registry.bySession.Keys, [Update(u, false)])
      && forall x | x in n'.registry.bySession :: u !in View(Inbox(n'.inboxes, x))
  {
    var n', u := Next(n, Gone(s)), n.registry.bySession[s];
    UnregisteredAfter(n.registry, s);
    UnregisterKeepsInverse(n.registry, s);
    SessionsAreValues(n'.registry);
    forall x ensures Inbox(n'.inboxes, x) == Inbox(n.inboxes, x)
                       + if x in n'.registry.bySession.Keys then [Update(u, false)] else []
    {
      SentByBroadcast(n.inboxes, n'.registry.byUser.Values, Update(u, false), x);
    }
    forall x | x in n'.registry.bySession ensures u !in View(Inbox(n'.inboxes, x)) {
      ViewOfSend(n.inboxes, n'.registry.byUser.Values, Update(u, false), x);
    }
  }

  lemma SessionsAreValues(r: Registry)
    requires Inverse(r)
    ensures r.byUser.Values == r.bySession.Keys
  {
    assert forall x | x in r.byUser.Values :: x in r.bySession;
    forall x | x in r.bySession ensures x in r.byUser.Values {
      assert r.byUser[r.bySession[x]] == x;
    }
  }

  /** A report of a session that is not registered changes nothing, nor does a repeated one. */
  lemma GoneAgain(n: Net, s: SessionId)
    ensures s !in n.registry.bySession ==> Next(n, Gone(s)) == n
    ensures Agreement(n) ==> Next(Next(n, Gone(s)), Gone(s)) == Next(n, Gone(s))
  {
    if Agreement(n) && s in n.registry.bySession {
      UnregisterKeepsInverse(n.registry, s);
    }
  }

  /** An authentication registers the session for the user in place of any other session of that user, and
      touches nobody else. */
  lemma AuthenticatedRegisters(n: Net, s: SessionId, u: UserId, listing: seq<UserId>)
    requires Agreement(n) && PhaseOf(n.phases, s) == AuthPending
    ensures var n' := Next(n, Authenticated(s, u, listing));
      && n'.phases == n.phases[s := Established]
      && n'.registry.byUser.Keys == n.registry.byUser.Keys + {u} && n'.registry.byUser[u] == s
      && s in n'.registry.bySession && n'.registry.bySession[s] == u
      && (forall v | v in n.registry.byUser && v != u :: n'.registry.byUser[v] == n.registry.byUser[v])
      && (forall x | x != s ::
            x in n'.registry.bySession <==> x in n.registry.bySession && n.registry.bySession[x] != u)
  {
    RegisteredAfter(n.registry, u, s);
  }

  /** The newcomer is sent one ONLINE for each registered user with an established session, and every other
      registered session one ONLINE for the newcomer. */
  lemma AuthenticatedTells(n: Net, s: SessionId, u: UserId, listing: seq<UserId>)
    requires Agreement(n) && PhaseOf(n.phases, s) == AuthPending && Legal(n, Authenticated(s, u, listing))
    ensures var n' := Next(n, Authenticated(s, u, listing));
      && Greeted(n', s, listing)
      && forall x | x != s :: Inbox(n'.inboxes, x) == Inbox(n.inboxes, x)
                                + if x in n'.registry.bySession then [Update(u, true)] else []
  {
    var n' := Next(n, Authenticated(s, u, listing));
    var greeted := n.inboxes[s := Inbox(n.inboxes, s) + Snapshot(listing)];
    RegisterInverseIff(n.registry, u, s);
    SessionsAreValues(n'.registry);
    forall x | x != s ensures Inbox(n'.inboxes, x) == Inbox(n.inboxes, x)
                                + if x in n'.registry.bySession then [Update(u, true)] else []
    {
      SentByBroadcast(greeted, n'.registry.byUser.Values - {s}, Update(u, true), x);
      assert x in n'.registry.bySession <==> x in n'.registry.byUser.Values;
    }
    NewcomerInbox(n, s, u, listing);
  }

  lemma NewcomerInbox(n: Net, s: SessionId, u: UserId, listing: seq<UserId>)
    requires Agreement(n) && PhaseOf(n.phases, s) == AuthPending
    ensures Inbox(Authenticate(n, s, u, listing).inboxes, s) == Snapshot(listing)
  {
    var greeted := n.inboxes[s := Inbox(n.inboxes, s) + Snapshot(listing)];
    var to := Register(n.registry, u, s).byUser.Values - {s};
    SentByBroadcast(greeted, to, Update(u, true), s);
    assert Inbox(greeted, s) + [] == [] + Snapshot(listing) == Snapshot(listing);
  }

  /** A session has been sent exactly one ONLINE for each registered user with an established session. */
  ghost predicate Greeted(n: Net, s: SessionId, listing: seq<UserId>) {
    && |Inbox(n.inboxes, s)| == |listing|
    && (forall i | 0 <= i < |listing| :: Inbox(n.inboxes, s)[i] == Update(listing[i], true))
    && (forall v :: v in listing <==> v in n.registry.byUser && PhaseOf(n.phases, n.registry.byUser[v]) == Established)
    && (forall i, j | 0 <= i < j < |listing| :: listing[i] != listing[j])
  }

  /** Dying makes the session dead, and nothing else. */
  lemma DiedEffect(n: Net, s: SessionId)
    ensures var n' := Next(n, Died(s));
      && PhaseOf(n'.phases, s) == Dead && n'.registry == n.registry && n'.inboxes == n.inboxes
      && forall x | x != s :: PhaseOf(n'.phases, x) == PhaseOf(n.phases, x)
  {
  }
}
