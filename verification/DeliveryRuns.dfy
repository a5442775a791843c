/** What each step of a delivery run does: who is online after it, who is handed what, and what is stored. */
module DeliveryRuns {
  import opened Base
  import opened Registries
  import opened Offline
  import opened Deliveries

  lemma HubSnoc(steps: seq<Step>, step: Step)
    ensures RunHub(steps + [step]) == NextHub(RunHub(steps), step)
  {
    assert (steps + [step])[..|steps|] == steps;
  }

  // ----- Who is online -----------------------------------------------------------------------------

  /** Every registered session is the one its user has. */
  ghost predicate Owned(r: Registry) {
    forall x | x in r.bySession :: r.bySession[x] in r.byUser && r.byUser[r.bySession[x]] == x
  }

  lemma {:induction false} NotifyAllKeepsRegistry(h: Hub, exclude: Option<SessionId>, members: seq<UserId>,
                                                  payload: Bytes, now: int)
    ensures NotifyAll(h, exclude, members, payload, now).registry == h.registry
    decreases |members|
  {
    if members != [] {
      NotifyAllKeepsRegistry(h, exclude, members[..|members| - 1], payload, now);
    }
  }

  lemma OthersKeepRegistry(h: Hub, step: Step)
    requires !step.ArriveStep? && !step.LeaveStep?
    ensures NextHub(h, step).registry == h.registry
  {
    if step.NoticeStep? {
      NotifyAllKeepsRegistry(h, step.exclude, step.members, step.payload, step.at);
    }
  }

  lemma {:induction false} RunIsOwned(steps: seq<Step>)
    ensures Owned(RunHub(steps).registry)
    decreases |steps|
  {
    if steps != [] {
      var prefix, step := steps[..|steps| - 1], steps[|steps| - 1];
      RunIsOwned(prefix);
      if !step.ArriveStep? && !step.LeaveStep? {
        OthersKeepRegistry(RunHub(prefix), step);
      }
    }
  }

  /** After an arrival the user is online under that session, and everybody else under the one before; no
      session is out of the registry but the one the user had before. */
  lemma ArrivalRegisters(steps: seq<Step>, s: SessionId, u: UserId, t: int)
    ensures var r, r' := RunHub(steps).registry, RunHub(steps + [ArriveStep(s, u, t)]).registry;
      && r'.byUser.Keys == r.byUser.Keys + {u} && r'.byUser[u] == s
      && s in r'.bySession && r'.bySession[s] == u
      && (forall v | v in r.byUser && v != u :: r'.byUser[v] == r.byUser[v])
      && (forall x | x != s && x in r.bySession && (u in r.byUser ==> x != r.byUser[u]) ::
            x in r'.bySession && r'.bySession[x] == r.bySession[x])
  {
    HubSnoc(steps, ArriveStep(s, u, t));
  }

  /** After a report of a registered session, it and its user are out of the registry, and nobody else. */
  lemma LeavingUnregisters(steps: seq<Step>, s: SessionId, t: int)
    requires s in RunHub(steps).registry.bySession
    ensures var h, h' := RunHub(steps), RunHub(steps + [LeaveStep(s, t)]);
      var r, r' := h.registry, h'.registry;
      && r'.byUser.Keys == r.byUser.Keys - {r.bySession[s]} && r'.bySession.Keys == r.bySession.Keys - {s}
      && (forall v | v in r'.byUser :: r'.byUser[v] == r.byUser[v])
      && (forall x | x in r'.bySession :: r'.bySession[x] == r.bySession[x])
      && h'.table == h.table && h'.ledger == h.ledger
  {
    HubSnoc(steps, LeaveStep(s, t));
    RunIsOwned(steps);
  }

  ghost predicate OnlineUnder(r: Registry, s: SessionId, u: UserId) {
    u in r.byUser && r.byUser[u] == s && s in r.bySession && r.bySession[s] == u
  }

  /** The step is no report of session `s`, and no arrival of `u` or of `s`. */
  predicate LeavesAlone(step: Step, s: SessionId, u: UserId) {
    match step
    case ArriveStep(s', u', _) => s' != s && u' != u
    case LeaveStep(s', _) => s' != s
    case _ => true
  }

  lemma StaysOnlineStep(h: Hub, step: Step, s: SessionId, u: UserId)
    requires Owned(h.registry) && OnlineUnder(h.registry, s, u) && LeavesAlone(step, s, u)
    requires step.ArriveStep? && step.user in h.registry.byUser ==> h.registry.byUser[step.user] != s
    ensures OnlineUnder(NextHub(h, step).registry, s, u)
  {
    if !step.ArriveStep? && !step.LeaveStep? {
      OthersKeepRegistry(h, step);
    }
  }

  /** The session has no other user than `u`. */
  ghost predicate OnlyUserOf(r: Registry, s: SessionId, u: UserId) {
    forall v | v in r.byUser && r.byUser[v] == s :: v == u
  }

  lemma OnlyUserStep(h: Hub, step: Step, s: SessionId, u: UserId)
    requires OnlyUserOf(h.registry, s, u) && LeavesAlone(step, s, u)
    ensures OnlyUserOf(NextHub(h, step).registry, s, u)
  {
    if !step.ArriveStep? && !step.LeaveStep? {
      OthersKeepRegistry(h, step);
    }
  }

  lemma StaysOnlineStepUser(h: Hub, step: Step, s: SessionId, u: UserId)
    requires Owned(h.registry) && u in h.registry.byUser && h.registry.byUser[u] == s && LeavesAlone(step, s, u)
    ensures u in NextHub(h, step).registry.byUser && NextHub(h, step).registry.byUser[u] == s
  {
    if !step.ArriveStep? && !step.LeaveStep? {
      OthersKeepRegistry(h, step);
    }
  }

  /** From the arrival of `u` in session `s` until a report of that session or another arrival of either,
      whatever else happens, `u` is online under that session. */
  lemma {:induction false} StaysOnline(steps: seq<Step>, s: SessionId, u: UserId, t: int, later: seq<Step>)
    requires forall i | 0 <= i < |later| :: LeavesAlone(later[i], s, u)
    ensures var r := RunHub(steps + [ArriveStep(s, u, t)] + later).registry; u in r.byUser && r.byUser[u] == s
    decreases |later|
  {
    var start := steps + [ArriveStep(s, u, t)];
    if later == [] {
      ArrivalRegisters(steps, s, u, t);
      assert start + later == start;
    } else {
      var earlier, step := later[..|later| - 1], later[|later| - 1];
      StaysOnline(steps, s, u, t, earlier);
      assert start + later == (start + earlier) + [step];
      HubSnoc(start + earlier, step);
      RunIsOwned(start + earlier);
      StaysOnlineStepUser(RunHub(start + earlier), step, s, u);
    }
  }

  /** And the session is registered for `u`, if it had no other user before. */
  lemma {:induction false} StaysRegistered(steps: seq<Step>, s: SessionId, u: UserId, t: int, later: seq<Step>)
    requires OnlyUserOf(RunHub(steps).registry, s, u)
    requires forall i | 0 <= i < |later| :: LeavesAlone(later[i], s, u)
    ensures OnlineUnder(RunHub(steps + [ArriveStep(s, u, t)] + later).registry, s, u)
    ensures OnlyUserOf(RunHub(steps + [ArriveStep(s, u, t)] + later).registry, s, u)
    decreases |later|
  {
    var start := steps + [ArriveStep(s, u, t)];
    if later == [] {
      ArrivalRegisters(steps, s, u, t);
      assert start + later == start;
    } else {
      var earlier, step := later[..|later| - 1], later[|later| - 1];
      StaysRegistered(steps, s, u, t, earlier);
      assert start + later == (start + earlier) + [step];
      HubSnoc(start + earlier, step);
      RunIsOwned(start + earlier);
      StaysOnlineStep(RunHub(start + earlier), step, s, u);
      OnlyUserStep(RunHub(start + earlier), step, s, u);
    }
  }

  // ----- What is handed over and stored ---------------------------------------------------------------

  /** An accepted direct message for a user who is online. */
  predicate IsDirect(step: Step, u: UserId) {
    step.ChatStep? && step.claimed == step.user && step.recipient == u && u != "" && u[0] != '#'
  }

  /** All that time every direct message to `u` is handed to `u` at once, as the next envelope, and the table
      is left alone. */
  lemma OnlineDelivery(steps: seq<Step>, s: SessionId, u: UserId, t: int, later: seq<Step>, chat: Step)
    requires (forall i | 0 <= i < |later| :: LeavesAlone(later[i], s, u)) && IsDirect(chat, u)
    ensures var all := steps + [ArriveStep(s, u, t)] + later;
      var h, h' := RunHub(all), RunHub(all + [chat]);
      && Entries(h'.ledger.handed, u) == Entries(h.ledger.handed, u) + [Direct(chat.payload)]
      && (forall v | v != u :: Entries(h'.ledger.handed, v) == Entries(h.ledger.handed, v))
      && h'.table == h.table && h'.registry == h.registry
  {
    var all := steps + [ArriveStep(s, u, t)] + later;
    StaysOnline(steps, s, u, t, later);
    HubSnoc(all, chat);
  }

  lemma Storage(h: Hub, u: UserId, payload: Bytes, now: int)
    requires u !in h.registry.byUser
    ensures var h' := Route(h, u, payload, now).0;
      && h'.ledger.handed == h.ledger.handed && h'.registry == h.registry
      && (|Queue(h.table.rows, u)| >= 100 ==> h'.table == h.table)
      && (|Queue(h.table.rows, u)| < 100 ==>
            && h'.table.nextId == h.table.nextId + 1
            && h'.table.rows == (if |h.table.rows| >= 100000 then h.table.rows[1..] else h.table.rows)
                                + [Row(h.table.nextId, u, payload, now, now + 604800)])
  {
  }

  /** A direct message for a user who is offline is stored as the last row, unless a hundred rows wait there
      already, and expires after a week; nobody is handed anything. */
  lemma OfflineStorage(steps: seq<Step>, u: UserId, chat: Step)
    requires IsDirect(chat, u) && u !in RunHub(steps).registry.byUser
    ensures var h, h' := RunHub(steps), RunHub(steps + [chat]);
      && h'.ledger.handed == h.ledger.handed && h'.registry == h.registry
      && (|Queue(h.table.rows, u)| >= 100 ==> h'.table == h.table)
      && (|Queue(h.table.rows, u)| < 100 ==>
            && h'.table.nextId == h.table.nextId + 1
            && h'.table.rows == (if |h.table.rows| >= 100000 then h.table.rows[1..] else h.table.rows)
                                + [Row(h.table.nextId, u, chat.payload, chat.at, chat.at + 604800)])
  {
    HubSnoc(steps, chat);
    Storage(RunHub(steps), u, chat.payload, chat.at);
  }

  /** Why a chat envelope is refused: a false sender, no recipient, or a hundred rows waiting for a recipient
      who is offline, in this order. */
  lemma ChatRefusedIff(h: Hub, s: SessionId, u: UserId, claimed: UserId, recipient: string, payload: Bytes, now: int)
    ensures var reply := Chat(h, s, u, claimed, recipient, payload, now).1;
      && (reply == SenderMismatch <==> claimed != u)
      && (reply == EmptyRecipient <==> claimed == u && recipient == "")
      && (reply == QueueFull <==> (
            && claimed == u && recipient != "" && recipient[0] != '#'
            && recipient !in h.registry.byUser && |Queue(h.table.rows, recipient)| >= 100))
  {
  }

  /** At an arrival the user is handed what waits and has not expired, in order, and nothing waits any more;
      nobody else is handed anything or loses anything. */
  lemma ArrivalDelivers(steps: seq<Step>, s: SessionId, u: UserId, t: int)
    ensures var h, h' := RunHub(steps), RunHub(steps + [ArriveStep(s, u, t)]);
      && Entries(h'.ledger.handed, u) == Entries(h.ledger.handed, u) + Wrap(Live(Queue(h.table.rows, u), t))
      && Queue(h'.table.rows, u) == []
      && (forall v | v != u :: Entries(h'.ledger.handed, v) == Entries(h.ledger.handed, v))
      && (forall v | v != u :: Queue(h'.table.rows, v) == Queue(h.table.rows, v))
      && h'.ledger.accepted == h.ledger.accepted
  {
    HubSnoc(steps, ArriveStep(s, u, t));
    forall v ensures Queue(Others(RunHub(steps).table.rows, u), v)
                       == if u == v then [] else Queue(RunHub(steps).table.rows, v)
    {
      QueueOfOthers(RunHub(steps).table.rows, u, v);
    }
  }

  /** A cleanup takes away exactly the rows that have expired, and records them as expired then. */
  lemma PurgeEffect(steps: seq<Step>, t: int)
    ensures var h, h' := RunHub(steps), RunHub(steps + [PurgeStep(t)]);
      && (forall r :: r in h'.table.rows <==> r in h.table.rows && r.expiresAt > t)
      && (forall r | r in h.table.rows && r.expiresAt <= t ::
            r in h'.ledger.expired && h'.ledger.expired[r] == t)
      && h'.ledger.handed == h.ledger.handed && h'.ledger.accepted == h.ledger.accepted
      && h'.ledger.delivered == h.ledger.delivered && h'.registry == h.registry
  {
    HubSnoc(steps, PurgeStep(t));
    LiveMembers(RunHub(steps).table.rows, t);
  }

  // ----- Notices --------------------------------------------------------------------------------------

  /** Nobody but the members is notified, and no queue of a user who is not among them grows. */
  lemma {:induction false} NoticeSparesOthers(h: Hub, exclude: Option<SessionId>, members: seq<UserId>, payload: Bytes,
                                              now: int, v: UserId)
    requires v !in members
    ensures var h' := NotifyAll(h, exclude, members, payload, now);
      && Entries(h'.ledger.accepted, v) == Entries(h.ledger.accepted, v)
      && Entries(h'.ledger.handed, v) == Entries(h.ledger.handed, v)
      && |Queue(h'.table.rows, v)| <= |Queue(h.table.rows, v)|
    decreases |members|
  {
    if members != [] {
      var earlier, last := members[..|members| - 1], members[|members| - 1];
      assert last in members;
      NoticeSparesOthers(h, exclude, earlier, payload, now, v);
      NotifySpares(NotifyAll(h, exclude, earlier, payload, now), exclude, last, payload, now, v);
    }
  }

  lemma NotifySpares(h: Hub, exclude: Option<SessionId>, u: UserId, payload: Bytes, now: int, v: UserId)
    requires v != u
    ensures var h' := Notify(h, exclude, u, payload, now);
      && Entries(h'.ledger.accepted, v) == Entries(h.ledger.accepted, v)
      && Entries(h'.ledger.handed, v) == Entries(h.ledger.handed, v)
      && |Queue(h'.table.rows, v)| <= |Queue(h.table.rows, v)|
  {
    RouteAcceptance(h, u, payload, now, v);
    SaveQueue(h.table, u, payload, now, v);
  }

  /** What a notice does for a member when it is its turn. */
  lemma NotifyReaches(h: Hub, exclude: Option<SessionId>, u: UserId, payload: Bytes, now: int)
    ensures var h' := Notify(h, exclude, u, payload, now);
      if u in h.registry.byUser then
        Entries(h'.ledger.handed, u) == Entries(h.ledger.handed, u)
          + if exclude == Some(h.registry.byUser[u]) then [] else [Direct(payload)]
      else
        && Entries(h'.ledger.handed, u) == Entries(h.ledger.handed, u)
        && (|Queue(h.table.rows, u)| < 100 ==>
              OneMore(Entries(h.ledger.accepted, u), Entries(h'.ledger.accepted, u), payload))
  {
    assert Entries(h.ledger.handed, u) + [] == Entries(h.ledger.handed, u);
  }

  /** A channel notice reaches each member once: a member who is online is handed it, but for the excluded
      session, and for one who is offline and has room it is accepted and stored. */
  lemma {:induction false} NoticeReaches(h: Hub, exclude: Option<SessionId>, members: seq<UserId>, payload: Bytes,
                                         now: int, u: UserId)
    requires u in members && forall i, j | 0 <= i < j < |members| :: members[i] != members[j]
    ensures var h' := NotifyAll(h, exclude, members, payload, now);
      if u in h.registry.byUser then
        Entries(h'.ledger.handed, u) == Entries(h.ledger.handed, u)
          + if exclude == Some(h.registry.byUser[u]) then [] else [Direct(payload)]
      else
        && Entries(h'.ledger.handed, u) == Entries(h.ledger.handed, u)
        && (|Queue(h.table.rows, u)| < 100 ==>
              OneMore(Entries(h.ledger.accepted, u), Entries(h'.ledger.accepted, u), payload))
    decreases |members|
  {
    var earlier, last := members[..|members| - 1], members[|members| - 1];
    var before := NotifyAll(h, exclude, earlier, payload, now);
    NotifyAllKeepsRegistry(h, exclude, earlier, payload, now);
    if last == u {
      assert u !in earlier;
      NoticeSparesOthers(h, exclude, earlier, payload, now, u);
      NotifyReaches(before, exclude, u, payload, now);
    } else {
      assert u in earlier;
      NoticeReaches(h, exclude, earlier, payload, now, u);
      NotifySpares(before, exclude, last, payload, now, u);
    }
  }
}
