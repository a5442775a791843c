/** The registry of authenticated sessions: two maps that are meant to be inverse to one another. */
module Registries {
  import opened Base
  import opened Text

  type SessionId = nat

  datatype Registry = Registry(byUser: map<UserId, SessionId>, bySession: map<SessionId, UserId>)

  const EMPTY_REGISTRY := Registry(map[], map[])

  /** Registers session `s` for user `u`, replacing a session the user may already have. */
  function Register(r: Registry, u: UserId, s: SessionId): Registry {
    var cleared := if u in r.byUser then Registry(r.byUser - {u}, r.bySession - {r.byUser[u]}) else r;
    Registry(cleared.byUser[u := s], cleared.bySession[s := u])
  }

  function Unregister(r: Registry, s: SessionId): Registry {
    if s in r.bySession then Registry(r.byUser - {r.bySession[s]}, r.bySession - {s}) else r
  }

  ghost predicate Inverse(r: Registry) {
    && (forall u | u in r.byUser :: r.byUser[u] in r.bySession && r.bySession[r.byUser[u]] == u)
    && (forall s | s in r.bySession :: r.bySession[s] in r.byUser && r.byUser[r.bySession[s]] == s)
  }

  /** Registering keeps the maps inverse exactly when the session is not registered for another user. */
  lemma RegisterInverseIff(r: Registry, u: UserId, s: SessionId)
    requires Inverse(r)
    ensures Inverse(Register(r, u, s)) <==> (s in r.bySession ==> r.bySession[s] == u)
  {
    if s in r.bySession && r.bySession[s] != u {
      var v := r.bySession[s];
      assert Register(r, u, s).byUser[v] == s && Register(r, u, s).bySession[s] == u;
    }
  }

  lemma UnregisterKeepsInverse(r: Registry, s: SessionId)
    requires Inverse(r)
    ensures Inverse(Unregister(r, s)) && s !in Unregister(r, s).bySession
    ensures forall u | u in r.byUser && r.byUser[u] != s ::
              u in Unregister(r, s).byUser && Unregister(r, s).byUser[u] == r.byUser[u]
  {
  }

  /** After a registration the user has that session and the session that user; a session the user had
      before is not registered any more, and nobody else's is touched. */
  lemma RegisteredAfter(r: Registry, u: UserId, s: SessionId)
    requires Inverse(r) && s !in r.bySession
    ensures var r' := Register(r, u, s);
      && r'.byUser.Keys == r.byUser.Keys + {u} && r'.byUser[u] == s
      && s in r'.bySession && r'.bySession[s] == u
      && (forall v | v in r.byUser && v != u :: r'.byUser[v] == r.byUser[v])
      && (forall x | x != s :: x in r'.bySession <==> x in r.bySession && r.bySession[x] != u)
      && (forall x | x in r'.bySession && x != s :: r'.bySession[x] == r.bySession[x])
  {
  }

  /** After an unregistration neither the session nor its user is registered, and nobody else is touched. */
  lemma UnregisteredAfter(r: Registry, s: SessionId)
    requires Inverse(r) && s in r.bySession
    ensures var r' := Unregister(r, s);
      && r'.byUser.Keys == r.byUser.Keys - {r.bySession[s]} && r'.bySession.Keys == r.bySession.Keys - {s}
      && (forall v | v in r'.byUser :: r'.byUser[v] == r.byUser[v])
      && (forall x | x in r'.bySession :: r'.bySession[x] == r.bySession[x])
  {
  }

  // ----- Nicknames --------------------------------------------------------------------

  /** An online user whose id folds to the same nickname. */
  predicate Clashes(r: Registry, u: UserId, nick: string) {
    u in r.byUser && Fold(u) == Fold(nick)
  }

  /** No online user other than the excluded one (the empty string excludes nobody) has the nickname. */
  ghost predicate Available(r: Registry, nick: string, exclude: string) {
    forall u | Clashes(r, u, nick) :: exclude != "" && Fold(u) == Fold(exclude)
  }

  /** Neither the case of the nickname nor that of the excluded one matters. */
  lemma AvailabilityIgnoresCase(r: Registry, nick: string, nick': string, exclude: string, exclude': string)
    requires Fold(nick) == Fold(nick') && Fold(exclude) == Fold(exclude')
    ensures Available(r, nick, exclude) <==> Available(r, nick', exclude')
  {
    assert forall u :: Clashes(r, u, nick) <==> Clashes(r, u, nick');
    assert |exclude| == |Fold(exclude)| && |exclude'| == |Fold(exclude')|;
  }

  /** A nickname is taken as soon as a user who has it in any case is online and not the excluded one, and an
      own nickname is always free. */
  lemma TakenOrOwn(r: Registry, u: UserId, nick: string, exclude: string)
    requires u in r.byUser && Fold(u) == Fold(nick)
    ensures Fold(exclude) != Fold(u) ==> !Available(r, nick, exclude)
    ensures u != "" ==> Available(r, nick, u)
    ensures !Available(r, nick, "")
  {
    assert Clashes(r, u, nick);
  }

  /** Online ids are pairwise distinct after case folding. */
  ghost predicate Distinct(r: Registry) {
    forall u, v | u in r.byUser && v in r.byUser && Fold(u) == Fold(v) :: u == v
  }

  /** Registering keeps online nicknames distinct exactly when no online user clashes with the new one,
      apart from a user of that very id, who is replaced. */
  lemma RegisterDistinctIff(r: Registry, u: UserId, s: SessionId)
    requires Distinct(r)
    ensures Distinct(Register(r, u, s)) <==> forall v | Clashes(r, v, u) :: v == u
  {
    var r' := Register(r, u, s);
    if v :| Clashes(r, v, u) && v != u {
      assert v in r'.byUser && u in r'.byUser;
    } else {
      forall x, y | x in r'.byUser && y in r'.byUser && Fold(x) == Fold(y)
        ensures x == y
      {
        assert !Clashes(r, x, u) || x == u;
        assert !Clashes(r, y, u) || y == u;
      }
    }
  }

  // ----- Every interleaving of the critical sections ----------------------------------

  /** How far the authentication handler of a session has come. */
  datatype Progress = Pending | Checked(user: UserId) | Registered | Rejected

  datatype Shared = Shared(registry: Registry, progress: map<SessionId, Progress>)

  const START := Shared(EMPTY_REGISTRY, map[])

  /** One critical section of one session; sections of different sessions interleave freely. */
  datatype Section =
    | CheckNick(session: SessionId, user: UserId)
    | DoRegister(session: SessionId)
    | DoUnregister(session: SessionId)

  function ProgressOf(g: Shared, s: SessionId): Progress {
    if s in g.progress then g.progress[s] else Pending
  }

  ghost function Enter(g: Shared, c: Section): Shared {
    match c
    case CheckNick(s, u) =>
      if ProgressOf(g, s) != Pending then g
      else g.(progress := g.progress[s := if Available(g.registry, u, "") then Checked(u) else Rejected])
    case DoRegister(s) =>
      if !ProgressOf(g, s).Checked? then g
      else Shared(Register(g.registry, ProgressOf(g, s).user, s), g.progress[s := Registered])
    case DoUnregister(s) =>
      g.(registry := Unregister(g.registry, s))
  }

  ghost function Interleave(schedule: seq<Section>): Shared {
    if schedule == [] then START
    else Enter(Interleave(schedule[..|schedule| - 1]), schedule[|schedule| - 1])
  }

  /** A session is registered only after its handler has got that far. */
  ghost predicate Sound(g: Shared) {
    && Inverse(g.registry)
    && forall s | s in g.registry.bySession :: ProgressOf(g, s) == Registered
  }

  /** The maps stay inverse under all interleavings of the critical sections. */
  lemma {:induction false} InverseUnderInterleaving(schedule: seq<Section>)
    ensures Sound(Interleave(schedule))
    decreases |schedule|
  {
    if schedule != [] {
      var g, c := Interleave(schedule[..|schedule| - 1]), schedule[|schedule| - 1];
      InverseUnderInterleaving(schedule[..|schedule| - 1]);
      match c {
        case CheckNick(_, _) =>
        case DoRegister(s) =>
          if ProgressOf(g, s).Checked? {
            RegisterInverseIff(g.registry, ProgressOf(g, s).user, s);
          }
        case DoUnregister(s) => UnregisterKeepsInverse(g.registry, s);
      }
    }
  }

  /** Every check is followed at once by the registration of the same session. */
  ghost predicate ChecksAreAtomic(schedule: seq<Section>) {
    forall i | 0 <= i < |schedule| && schedule[i].CheckNick? ::
      i + 1 < |schedule| && schedule[i + 1] == DoRegister(schedule[i].session)
  }

  /** What holds between two sections of an atomic schedule: only the session that has just been
      checked is waiting to register, and its nickname is still available. */
  ghost predicate Waiting(g: Shared, last: Option<Section>) {
    forall s | ProgressOf(g, s).Checked? ::
      && last.Some? && last.value.CheckNick? && last.value.session == s
      && Available(g.registry, ProgressOf(g, s).user, "")
  }

  lemma AtomicStep(g: Shared, last: Option<Section>, c: Section)
    requires Distinct(g.registry) && Waiting(g, last)
    requires last.Some? && last.value.CheckNick? ==> c == DoRegister(last.value.session)
    ensures Distinct(Enter(g, c).registry) && Waiting(Enter(g, c), Some(c))
  {
    var g' := Enter(g, c);
    if c.DoRegister? && ProgressOf(g, c.session).Checked? {
      RegisterDistinctIff(g.registry, ProgressOf(g, c.session).user, c.session);
    }
    forall s | ProgressOf(g', s).Checked?
      ensures c.CheckNick? && c.session == s && Available(g'.registry, ProgressOf(g', s).user, "")
    {
      if ProgressOf(g, s).Checked? {
        assert false;
      }
    }
  }

  lemma {:induction false} DistinctUpTo(schedule: seq<Section>, k: nat)
    requires k <= |schedule| && ChecksAreAtomic(schedule)
    ensures Distinct(Interleave(schedule[..k]).registry)
    ensures Waiting(Interleave(schedule[..k]), if k == 0 then None else Some(schedule[k - 1]))
    decreases k
  {
    if k > 0 {
      DistinctUpTo(schedule, k - 1);
      assert schedule[..k][..k - 1] == schedule[..k - 1];
      AtomicStep(Interleave(schedule[..k - 1]), if k == 1 then None else Some(schedule[k - 2]), schedule[k - 1]);
    }
  }

  /** If checking and registering are atomic, online ids are pairwise distinct after case folding. */
  lemma DistinctWhenAtomic(schedule: seq<Section>)
    requires ChecksAreAtomic(schedule)
    ensures Distinct(Interleave(schedule).registry)
  {
    DistinctUpTo(schedule, |schedule|);
    assert schedule[..|schedule|] == schedule;
  }

  /** They need not be: two handlers that both check before either registers leave two users online
      whose nicknames differ in case only. */
  lemma RaceBreaksDistinctness()
    ensures var g := Interleave([CheckNick(1, "Sepi"), CheckNick(2, "sepi"), DoRegister(1), DoRegister(2)]);
      "Sepi" in g.registry.byUser && "sepi" in g.registry.byUser && !Distinct(g.registry)
  {
    var c1, c2, c3, c4 := CheckNick(1, "Sepi"), CheckNick(2, "sepi"), DoRegister(1), DoRegister(2);
    assert [c1, c2, c3, c4][..3] == [c1, c2, c3];
    assert [c1, c2, c3][..2] == [c1, c2];
    assert [c1, c2][..1] == [c1];
    assert [c1][..0] == [];
    var g1 := Enter(START, c1);
    assert Interleave([c1]) == g1 && ProgressOf(g1, 1) == Checked("Sepi") && g1.registry == EMPTY_REGISTRY;
    var g2 := Enter(g1, c2);
    assert Interleave([c1, c2]) == g2 && ProgressOf(g2, 2) == Checked("sepi") && g2.registry == EMPTY_REGISTRY;
    var g3 := Enter(g2, c3);
    assert Interleave([c1, c2, c3]) == g3 && ProgressOf(g3, 2) == Checked("sepi") && "Sepi" in g3.registry.byUser;
    var g4 := Enter(g3, c4);
    assert Interleave([c1, c2, c3, c4]) == g4;
    assert "Sepi"[0] != "sepi"[0];
    assert Fold("Sepi") == Fold("sepi");
  }
}
