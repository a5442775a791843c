/** Message routing: direct delivery to online users, storage for offline ones, and delivery of what is
    stored when they authenticate. Each handler is one atomic step. */
module Deliveries {
  import opened Base
  import opened Registries
  import opened Offline

  /** An envelope for one user: handed over at once, or by way of a row of the offline table. */
  datatype Entry = Direct(payload: Bytes) | Stored(row: Row)

  type Log = map<UserId, seq<Entry>>

  /** What has been accepted for and handed to each user, and the fate of every row that has left the
      table: delivered or expired at some time, or evicted. */
  datatype Ledger = Ledger(
    accepted: Log,
    handed: Log,
    delivered: map<Row, int>,
    expired: map<Row, int>,
    evicted: set<Row>)

  datatype Hub = Hub(registry: Registry, table: Table, ledger: Ledger)

  const EMPTY_HUB := Hub(EMPTY_REGISTRY, EMPTY_TABLE, Ledger(map[], map[], map[], map[], {}))

  function Entries(log: Log, u: UserId): seq<Entry> {
    if u in log then log[u] else []
  }

  function Append(log: Log, u: UserId, entries: seq<Entry>): Log {
    log[u := Entries(log, u) + entries]
  }

  function Wrap(rows: seq<Row>): (r: seq<Entry>)
    ensures |r| == |rows| && forall i | 0 <= i < |rows| :: r[i] == Stored(rows[i])
  {
    seq(|rows|, i requires 0 <= i < |rows| => Stored(rows[i]))
  }

  /** Rows with the time at which they left the table. */
  function StampedAt(rows: set<Row>, now: int): map<Row, int> {
    map r | r in rows :: now
  }

  function ExpiredIn(rows: seq<Row>, now: int): set<Row> {
    set r | r in rows && r.expiresAt <= now
  }

  // ----- The handlers ---------------------------------------------------------------------

  /** An envelope for user `u`: to the session if there is one, to the table otherwise. */
  function Route(h: Hub, u: UserId, payload: Bytes, now: int): (Hub, bool) {
    var l := h.ledger;
    if u in h.registry.byUser then
      (h.(ledger := l.(accepted := Append(l.accepted, u, [Direct(payload)]),
                       handed := Append(l.handed, u, [Direct(payload)]))), true)
    else
      var (table, saved) := Save(h.table, u, payload, now);
      if !saved then (h, false)
      else
        var row := Row(h.table.nextId, u, payload, now, now + TTL_SECONDS);
        var evicted := if |h.table.rows| >= MAX_TOTAL then {h.table.rows[0]} else {};
        (h.(table := table,
            ledger := l.(accepted := Append(l.accepted, u, [Stored(row)]), evicted := l.evicted + evicted)), true)
  }

  /** A channel notice for one member: nothing is sent to the excluded session. */
  function Notify(h: Hub, exclude: Option<SessionId>, u: UserId, payload: Bytes, now: int): Hub {
    if u in h.registry.byUser && exclude == Some(h.registry.byUser[u]) then h else Route(h, u, payload, now).0
  }

  /** A channel notice: the members in the order in which they happen to be walked. */
  function NotifyAll(h: Hub, exclude: Option<SessionId>, members: seq<UserId>, payload: Bytes, now: int): Hub {
    if members == [] then h
    else
      var earlier, last := members[..|members| - 1], members[|members| - 1];
      Notify(NotifyAll(h, exclude, earlier, payload, now), exclude, last, payload, now)
  }

  function AppendToOnline(log: Log, byUser: map<UserId, SessionId>, sender: SessionId, entry: Entry): Log {
    map u | u in log.Keys + byUser.Keys ::
      if u in byUser && byUser[u] != sender then Entries(log, u) + [entry] else Entries(log, u)
  }

  /** Channel chat goes to every registered session but the sender's and is never stored. */
  function ChannelChat(h: Hub, sender: SessionId, payload: Bytes): Hub {
    var l := h.ledger;
    h.(ledger := l.(accepted := AppendToOnline(l.accepted, h.registry.byUser, sender, Direct(payload)),
                    handed := AppendToOnline(l.handed, h.registry.byUser, sender, Direct(payload))))
  }

  datatype ChatReply = Accepted | SenderMismatch | EmptyRecipient | QueueFull

  /** A chat envelope from session `s` of user `u`. */
  function Chat(h: Hub, s: SessionId, u: UserId, claimed: UserId, recipient: string, payload: Bytes,
                now: int): (Hub, ChatReply)
  {
    if claimed != u then (h, SenderMismatch)
    else if recipient == "" then (h, EmptyRecipient)
    else if recipient[0] == '#' then (ChannelChat(h, s, payload), Accepted)
    else
      var (h', saved) := Route(h, recipient, payload, now);
      (h', if saved then Accepted else QueueFull)
  }

  /** Authentication: registration, then delivery of what is stored for the user. */
  function Arrive(h: Hub, s: SessionId, u: UserId, now: int): Hub {
    var l := h.ledger;
    var (table, rows) := Fetch(h.table, u, now);
    var dropped := ExpiredIn(Queue(h.table.rows, u), now);
    Hub(Register(h.registry, u, s), table,
        l.(handed := Append(l.handed, u, Wrap(rows)),
           delivered := l.delivered + StampedAt((set r | r in rows), now),
           expired := l.expired + StampedAt(dropped, now)))
  }

  function Leave(h: Hub, s: SessionId): Hub {
    h.(registry := Unregister(h.registry, s))
  }

  function Purge(h: Hub, now: int): Hub {
    h.(table := CleanupExpired(h.table, now),
       ledger := h.ledger.(expired := h.ledger.expired + StampedAt(ExpiredIn(h.table.rows, now), now)))
  }

  lemma SentToOnline(log: Log, byUser: map<UserId, SessionId>, sender: SessionId, entry: Entry, sent: Log)
    requires forall u :: u in sent <==> u in log || u in byUser
    requires forall u | u in sent ::
      sent[u] == if u in byUser && byUser[u] != sender then Entries(log, u) + [entry] else Entries(log, u)
    ensures sent == AppendToOnline(log, byUser, sender, entry)
  {
    assert sent.Keys == AppendToOnline(log, byUser, sender, entry).Keys;
  }

  /** Walks over the registry and sends to every session but the sender's. */
  method SendToOnline(log: Log, byUser: map<UserId, SessionId>, sender: SessionId, entry: Entry) returns (sent: Log)
    ensures sent == AppendToOnline(log, byUser, sender, entry)
  {
    sent := log;
    var pending := byUser.Keys;
    while pending != {}
      invariant forall u | u in pending :: u in byUser
      invariant forall u :: u in sent <==> u in log || (u in byUser && u !in pending)
      invariant forall u | u in sent && u in pending :: sent[u] == log[u]
      invariant forall u | u in sent && u !in pending ::
        sent[u] == if u in byUser && byUser[u] != sender then Entries(log, u) + [entry] else Entries(log, u)
      decreases |pending|
    {
      var u :| u in pending;
      pending := pending - {u};
      sent := sent[u := if byUser[u] != sender then Entries(log, u) + [entry] else Entries(log, u)];
    }
    SentToOnline(log, byUser, sender, entry, sent);
  }

  /** Hands over stored envelopes one after the other. */
  method HandOver(box: seq<Entry>, rows: seq<Row>) returns (filled: seq<Entry>)
    ensures filled == box + Wrap(rows)
  {
    filled := box;
    for i := 0 to |rows|
      invariant filled == box + Wrap(rows[..i])
    {
      assert Wrap(rows[..i + 1]) == Wrap(rows[..i]) + [Stored(rows[i])];
      filled := filled + [Stored(rows[i])];
    }
    assert rows[..|rows|] == rows;
  }

  class Relay {
    var registry: Registry
    var table: Table
    var handed: Log
    ghost var ledger: Ledger

    ghost predicate Valid()
      reads this
    {
      ledger.handed == handed
    }

    ghost function State(): Hub
      reads this
    {
      Hub(registry, table, ledger)
    }

    constructor ()
      ensures Valid() && State() == EMPTY_HUB
    {
      registry, table, handed, ledger := EMPTY_REGISTRY, EMPTY_TABLE, map[], EMPTY_HUB.ledger;
    }

    method RouteTo(u: UserId, payload: Bytes, now: int) returns (ok: bool)
      requires Valid()
      modifies this
      ensures Valid() && (State(), ok) == Route(old(State()), u, payload, now)
    {
      if u in registry.byUser {
        handed := Append(handed, u, [Direct(payload)]);
        ledger := ledger.(accepted := Append(ledger.accepted, u, [Direct(payload)]), handed := handed);
        return true;
      }
      var store := new OfflineStore();
      store.rows, store.nextId := table.rows, table.nextId;
      ok := store.SaveMessage(u, payload, now);
      if ok {
        ghost var gone := if |table.rows| >= MAX_TOTAL then {table.rows[0]} else {};
        ghost var row := store.rows[|store.rows| - 1];
        ledger := ledger.(accepted := Append(ledger.accepted, u, [Stored(row)]), evicted := ledger.evicted + gone);
      }
      table := Table(store.rows, store.nextId);
    }

    method HandleChat(s: SessionId, u: UserId, claimed: UserId, recipient: string, payload: Bytes, now: int)
      returns (reply: ChatReply)
      requires Valid()
      modifies this
      ensures Valid() && (State(), reply) == Chat(old(State()), s, u, claimed, recipient, payload, now)
    {
      if claimed != u {
        return SenderMismatch;
      }
      if recipient == "" {
        return EmptyRecipient;
      }
      if recipient[0] == '#' {
        Broadcast(s, payload);
        return Accepted;
      }
      var saved := RouteTo(recipient, payload, now);
      return if saved then Accepted else QueueFull;
    }

    method Broadcast(sender: SessionId, payload: Bytes)
      requires Valid()
      modifies this
      ensures Valid() && State() == ChannelChat(old(State()), sender, payload)
    {
      handed := SendToOnline(handed, registry.byUser, sender, Direct(payload));
      ledger := ledger.(
        accepted := AppendToOnline(ledger.accepted, registry.byUser, sender, Direct(payload)), handed := handed);
    }

    /** Walks over the members of the channel, if it exists, in some order; the result tells which. */
    method BroadcastToChannel(channels: map<string, set<UserId>>, channel: string, payload: Bytes,
                              exclude: Option<SessionId>, now: int) returns (members: seq<UserId>)
      requires Valid()
      modifies this
      ensures Valid() && State() == NotifyAll(old(State()), exclude, members, payload, now)
      ensures Lists(members, if channel in channels then channels[channel] else {})
    {
      members := [];
      if channel !in channels {
        return;
      }
      var pending := channels[channel];
      while pending != {}
        invariant pending <= channels[channel] && Lists(members, channels[channel] - pending)
        invariant Valid() && State() == NotifyAll(old(State()), exclude, members, payload, now)
        decreases |pending|
      {
        var u :| u in pending;
        pending := pending - {u};
        if !(u in registry.byUser && exclude == Some(registry.byUser[u])) {
          var _ := RouteTo(u, payload, now);
        }
        assert (members + [u])[..|members|] == members;
        members := members + [u];
      }
      assert channels[channel] - pending == channels[channel];
    }

    method CompleteAuthentication(s: SessionId, u: UserId, now: int)
      requires Valid()
      modifies this
      ensures Valid() && State() == Arrive(old(State()), s, u, now)
    {
      registry := Register(registry, u, s);
      var (rest, rows) := Fetch(table, u, now);
      var box := HandOver(Entries(handed, u), rows);
      handed := handed[u := box];
      ledger := ledger.(
        handed := handed,
        delivered := ledger.delivered + StampedAt((set r | r in rows), now),
        expired := ledger.expired + StampedAt(ExpiredIn(Queue(table.rows, u), now), now));
      table := rest;
    }

    method Disconnected(s: SessionId)
      requires Valid()
      modifies this
      ensures Valid() && State() == Leave(old(State()), s)
    {
      if s in registry.bySession {
        var u := registry.bySession[s];
        registry := Registry(registry.byUser - {u}, registry.bySession - {s});
      }
    }

    method CleanupExpired(now: int)
      requires Valid()
      modifies this
      ensures Valid() && State() == Purge(old(State()), now)
    {
      var store := new OfflineStore();
      store.rows, store.nextId := table.rows, table.nextId;
      var _ := store.Cleanup(now);
      ledger := ledger.(expired := ledger.expired + StampedAt(ExpiredIn(table.rows, now), now));
      table := Table(store.rows, store.nextId);
    }
  }

  // ----- Runs ------------------------------------------------------------------------------

  datatype Step =
    | ChatStep(session: SessionId, user: UserId, claimed: UserId, recipient: string, payload: Bytes, at: int)
    | NoticeStep(exclude: Option<SessionId>, members: seq<UserId>, payload: Bytes, at: int)
    | ArriveStep(session: SessionId, user: UserId, at: int)
    | LeaveStep(session: SessionId, at: int)
    | PurgeStep(at: int)

  function NextHub(h: Hub, step: Step): Hub {
    match step
    case ChatStep(s, u, claimed, recipient, payload, now) => Chat(h, s, u, claimed, recipient, payload, now).0
    case NoticeStep(exclude, members, payload, now) => NotifyAll(h, exclude, members, payload, now)
    case ArriveStep(s, u, now) => Arrive(h, s, u, now)
    case LeaveStep(s, _) => Leave(h, s)
    case PurgeStep(now) => Purge(h, now)
  }

  function RunHub(steps: seq<Step>): Hub {
    if steps == [] then EMPTY_HUB else NextHub(RunHub(steps[..|steps| - 1]), steps[|steps| - 1])
  }

  ghost predicate TimedSteps(steps: seq<Step>) {
    forall i, j | 0 <= i < j < |steps| :: steps[i].at <= steps[j].at
  }

  // ----- The delivery guarantee --------------------------------------------------------------

  function Lost(l: Ledger): set<Row> {
    l.expired.Keys + l.evicted
  }

  function Keep(e: Entry, lost: set<Row>): seq<Entry> {
    if e.Stored? && e.row in lost then [] else [e]
  }

  /** The entries that are neither expired nor evicted. */
  function Surviving(entries: seq<Entry>, lost: set<Row>): seq<Entry> {
    if entries == [] then [] else Keep(entries[0], lost) + Surviving(entries[1..], lost)
  }

  /** First in, first out, exactly once: what has been handed to a user, followed by what is pending for
      the user, is what has been accepted for the user, in order, less exactly what was lost. */
  ghost predicate Fifo(h: Hub, u: UserId) {
    Entries(h.ledger.handed, u) + Wrap(Queue(h.table.rows, u))
      == Surviving(Entries(h.ledger.accepted, u), Lost(h.ledger))
  }

  /** Nothing is pending for an online user. */
  ghost predicate OnlineIsDrained(h: Hub) {
    forall u | u in h.registry.byUser :: Queue(h.table.rows, u) == []
  }

  /** Rows that have left the table are accounted for once, with good reason, and never come back. */
  ghost predicate Accounted(h: Hub) {
    var l := h.ledger;
    && (forall r | r in l.delivered :: l.delivered[r] < r.expiresAt && r.id < h.table.nextId && r !in h.table.rows)
    && (forall r | r in l.expired :: r.expiresAt <= l.expired[r] && r.id < h.table.nextId && r !in h.table.rows)
    && (forall r | r in l.evicted :: r.id < h.table.nextId && r !in h.table.rows)
    && l.delivered.Keys !! l.expired.Keys && l.delivered.Keys !! l.evicted && l.expired.Keys !! l.evicted
  }

  /** The stored entries handed to users are the delivered rows. */
  ghost predicate HandedRows(h: Hub) {
    forall u, e | e in Entries(h.ledger.handed, u) && e.Stored? :: e.row in h.ledger.delivered
  }

  ghost predicate Good(h: Hub, now: int) {
    && Ordered(h.table, now)
    && OnlineIsDrained(h)
    && Accounted(h)
    && HandedRows(h)
    && forall u :: Fifo(h, u)
  }

  lemma SurvivingCons(e: Entry, entries: seq<Entry>, lost: set<Row>)
    ensures Surviving([e] + entries, lost) == Keep(e, lost) + Surviving(entries, lost)
  {
    assert ([e] + entries)[1..] == entries;
  }

  lemma {:induction false} SurvivingConcat(a: seq<Entry>, b: seq<Entry>, lost: set<Row>)
    ensures Surviving(a + b, lost) == Surviving(a, lost) + Surviving(b, lost)
    decreases |a|
  {
    if a == [] {
      assert a + b == b;
    } else {
      var e, rest := a[0], a[1..];
      SurvivingConcat(rest, b, lost);
      SurvivingCons(e, rest, lost);
      SurvivingCons(e, rest + b, lost);
      assert a == [e] + rest && a + b == [e] + (rest + b);
    }
  }

  /** Losing more is losing some of what has survived so far. */
  lemma {:induction false} SurvivingTwice(entries: seq<Entry>, lost: set<Row>, more: set<Row>)
    ensures Surviving(entries, lost + more) == Surviving(Surviving(entries, lost), more)
    decreases |entries|
  {
    if entries != [] {
      SurvivingTwice(entries[1..], lost, more);
      SurvivingConcat(Keep(entries[0], lost), Surviving(entries[1..], lost), more);
    }
  }

  lemma {:induction false} SurvivingUntouched(entries: seq<Entry>, lost: set<Row>)
    requires forall e | e in entries && e.Stored? :: e.row !in lost
    ensures Surviving(entries, lost) == entries
    decreases |entries|
  {
    if entries != [] {
      SurvivingUntouched(entries[1..], lost);
    }
  }

  lemma {:induction false} SurvivingExpiry(rows: seq<Row>, lost: set<Row>, now: int)
    requires forall r | r in rows :: r in lost <==> r.expiresAt <= now
    ensures Surviving(Wrap(rows), lost) == Wrap(Live(rows, now))
    decreases |rows|
  {
    if rows != [] {
      SurvivingExpiry(rows[1..], lost, now);
      assert Wrap(rows) == [Stored(rows[0])] + Wrap(rows[1..]);
      assert Wrap(Live(rows, now))
          == (if rows[0].expiresAt > now then [Stored(rows[0])] else []) + Wrap(Live(rows[1..], now));
    }
  }

  // ----- Every step keeps it -------------------------------------------------------------------

  /** What is pending for `u` when the rows in `dropped` are lost, nothing that has been handed out being
      among them. */
  lemma FifoAfterLoss(h: Hub, u: UserId, dropped: set<Row>)
    requires Fifo(h, u) && HandedRows(h)
    requires dropped !! h.ledger.delivered.Keys
    ensures Surviving(Entries(h.ledger.accepted, u), Lost(h.ledger) + dropped)
            == Entries(h.ledger.handed, u) + Surviving(Wrap(Queue(h.table.rows, u)), dropped)
  {
    var accepted, handed := Entries(h.ledger.accepted, u), Entries(h.ledger.handed, u);
    SurvivingTwice(accepted, Lost(h.ledger), dropped);
    SurvivingConcat(handed, Wrap(Queue(h.table.rows, u)), dropped);
    SurvivingUntouched(handed, dropped);
  }

  lemma SurvivingOne(e: Entry, lost: set<Row>)
    ensures Surviving([e], lost) == Keep(e, lost)
  {
    assert [e][1..] == [];
  }

  lemma SurvivingDirect(entries: seq<Entry>, payload: Bytes, lost: set<Row>)
    ensures Surviving(entries + [Direct(payload)], lost) == Surviving(entries, lost) + [Direct(payload)]
  {
    SurvivingConcat(entries, [Direct(payload)], lost);
    SurvivingOne(Direct(payload), lost);
  }

  lemma RouteOnlineGood(h: Hub, u: UserId, payload: Bytes, now: int)
    requires Good(h, now) && u in h.registry.byUser
    ensures Good(Route(h, u, payload, now).0, now)
  {
    var h' := Route(h, u, payload, now).0;
    forall v ensures Fifo(h', v) {
      assert Fifo(h, v);
      if v == u {
        assert Queue(h.table.rows, u) == [];
        SurvivingDirect(Entries(h.ledger.accepted, u), payload, Lost(h.ledger));
        assert Wrap([]) == [];
        assert Entries(h.ledger.handed, u) + [] == Entries(h.ledger.handed, u);
      }
    }
    forall v, e | e in Entries(h'.ledger.handed, v) && e.Stored?
      ensures e.row in h'.ledger.delivered
    {
      assert e in Entries(h.ledger.handed, v);
    }
  }

  /** The oldest row of the table is the head of its recipient's queue and of no other. */
  lemma EvictionTakesHead(rows: seq<Row>, v: UserId)
    requires rows != [] && forall i, j | 0 <= i < j < |rows| :: rows[i].id < rows[j].id
    ensures Surviving(Wrap(Queue(rows, v)), {rows[0]}) == Wrap(Queue(rows[1..], v))
  {
    var rest := Queue(rows[1..], v);
    var head := if rows[0].recipient == v then [Stored(rows[0])] else [];
    assert Queue(rows, v) == (if rows[0].recipient == v then [rows[0]] else []) + rest;
    assert Wrap(Queue(rows, v)) == head + Wrap(rest);
    SurvivingConcat(head, Wrap(rest), {rows[0]});
    SurvivingOne(Stored(rows[0]), {rows[0]});
    TailKeepsOlder(rows, v);
    SurvivingUntouched(Wrap(rest), {rows[0]});
  }

  lemma TailKeepsOlder(rows: seq<Row>, v: UserId)
    requires rows != [] && forall i, j | 0 <= i < j < |rows| :: rows[i].id < rows[j].id
    ensures rows[0] !in Queue(rows[1..], v)
  {
    QueueMembers(rows[1..], v);
  }

  /** The rows that stay when one more is saved, and the one that has to go, if any. */
  function KeptBySave(t: Table): seq<Row> {
    if |t.rows| >= MAX_TOTAL then t.rows[1..] else t.rows
  }

  function EvictedBySave(t: Table): set<Row> {
    if |t.rows| >= MAX_TOTAL then {t.rows[0]} else {}
  }

  lemma EvictionFromQueue(t: Table, now: int, v: UserId)
    requires Ordered(t, now)
    ensures Surviving(Wrap(Queue(t.rows, v)), EvictedBySave(t)) == Wrap(Queue(KeptBySave(t), v))
  {
    if |t.rows| >= MAX_TOTAL {
      EvictionTakesHead(t.rows, v);
    } else {
      SurvivingUntouched(Wrap(Queue(t.rows, v)), {});
    }
  }

  lemma SurvivingStored(entries: seq<Entry>, row: Row, lost: set<Row>)
    requires row !in lost
    ensures Surviving(entries + [Stored(row)], lost) == Surviving(entries, lost) + [Stored(row)]
  {
    SurvivingConcat(entries, [Stored(row)], lost);
    SurvivingOne(Stored(row), lost);
  }

  lemma WrapQueueSnoc(kept: seq<Row>, row: Row, v: UserId)
    ensures Wrap(Queue(kept + [row], v)) == Wrap(Queue(kept, v)) + if row.recipient == v then [Stored(row)] else []
  {
    QueueConcat(kept, [row], v);
  }

  /** What is pending for `v` when room is made for a new row. */
  lemma MakeRoom(h: Hub, now: int, v: UserId)
    requires Good(h, now)
    ensures Surviving(Entries(h.ledger.accepted, v), Lost(h.ledger) + EvictedBySave(h.table))
         == Entries(h.ledger.handed, v) + Wrap(Queue(KeptBySave(h.table), v))
  {
    assert Fifo(h, v);
    EvictionFromQueue(h.table, now, v);
    FifoAfterLoss(h, v, EvictedBySave(h.table));
  }

  lemma NewRowIsNotLost(h: Hub, row: Row, now: int)
    requires Good(h, now) && row.id == h.table.nextId
    ensures row !in Lost(h.ledger) + EvictedBySave(h.table)
  {
  }

  /** The hub after a new row has been stored. */
  ghost predicate Stores(h: Hub, h': Hub, row: Row) {
    && h'.registry == h.registry && h'.ledger.handed == h.ledger.handed
    && h'.table.rows == KeptBySave(h.table) + [row]
    && Lost(h'.ledger) == Lost(h.ledger) + EvictedBySave(h.table)
    && h'.ledger.accepted == Append(h.ledger.accepted, row.recipient, [Stored(row)])
  }

  lemma StoredFifoSelf(h: Hub, h': Hub, row: Row, now: int)
    requires Good(h, now) && row.id == h.table.nextId && Stores(h, h', row)
    ensures Fifo(h', row.recipient)
  {
    var u := row.recipient;
    MakeRoom(h, now, u);
    NewRowIsNotLost(h, row, now);
    WrapQueueSnoc(KeptBySave(h.table), row, u);
    SurvivingStored(Entries(h.ledger.accepted, u), row, Lost(h'.ledger));
    var handed, queue := Entries(h.ledger.handed, u), Wrap(Queue(KeptBySave(h.table), u));
    assert (handed + queue) + [Stored(row)] == handed + (queue + [Stored(row)]);
  }

  lemma StoredFifoOther(h: Hub, h': Hub, row: Row, now: int, v: UserId)
    requires Good(h, now) && Stores(h, h', row) && v != row.recipient
    ensures Fifo(h', v)
  {
    MakeRoom(h, now, v);
    WrapQueueSnoc(KeptBySave(h.table), row, v);
    var queue := Wrap(Queue(KeptBySave(h.table), v));
    assert queue + [] == queue;
  }

  lemma SaveFifo(h: Hub, u: UserId, payload: Bytes, now: int, v: UserId)
    requires Good(h, now) && u !in h.registry.byUser && Save(h.table, u, payload, now).1
    ensures Fifo(Route(h, u, payload, now).0, v)
  {
    var h' := Route(h, u, payload, now).0;
    var row := Row(h.table.nextId, u, payload, now, now + TTL_SECONDS);
    assert Lost(h'.ledger) == Lost(h.ledger) + EvictedBySave(h.table);
    assert Stores(h, h', row);
    if v == u {
      StoredFifoSelf(h, h', row, now);
    } else {
      StoredFifoOther(h, h', row, now, v);
    }
  }

  lemma SaveAccounted(h: Hub, u: UserId, payload: Bytes, now: int)
    requires Good(h, now) && u !in h.registry.byUser && Save(h.table, u, payload, now).1
    ensures Accounted(Route(h, u, payload, now).0)
  {
    var h' := Route(h, u, payload, now).0;
    forall r | r in h'.table.rows ensures r in h.table.rows || r.id == h.table.nextId {
    }
    if |h.table.rows| >= MAX_TOTAL {
      var oldest := h.table.rows[0];
      assert oldest in h.table.rows;
      assert oldest !in h'.table.rows;
    }
  }

  lemma RouteOfflineGood(h: Hub, u: UserId, payload: Bytes, now: int)
    requires Good(h, now) && u !in h.registry.byUser
    ensures Good(Route(h, u, payload, now).0, now)
  {
    var h' := Route(h, u, payload, now).0;
    if Save(h.table, u, payload, now).1 {
      OrderedStep(h.table, SaveOp(u, payload, now), now);
      SaveAccounted(h, u, payload, now);
      forall v ensures Fifo(h', v) {
        SaveFifo(h, u, payload, now, v);
      }
      forall v | v in h'.registry.byUser ensures Queue(h'.table.rows, v) == [] {
        QueueStep(h.table, SaveOp(u, payload, now), v);
      }
    }
  }

  lemma RouteGood(h: Hub, u: UserId, payload: Bytes, now: int)
    requires Good(h, now)
    ensures Good(Route(h, u, payload, now).0, now)
  {
    if u in h.registry.byUser {
      RouteOnlineGood(h, u, payload, now);
    } else {
      RouteOfflineGood(h, u, payload, now);
    }
  }

  lemma {:induction false} NotifyAllGood(h: Hub, exclude: Option<SessionId>, members: seq<UserId>, payload: Bytes,
                                         now: int)
    requires Good(h, now)
    ensures Good(NotifyAll(h, exclude, members, payload, now), now)
    decreases |members|
  {
    if members != [] {
      var rest, last := members[..|members| - 1], members[|members| - 1];
      NotifyAllGood(h, exclude, rest, payload, now);
      RouteGood(NotifyAll(h, exclude, rest, payload, now), last, payload, now);
    }
  }

  lemma ChannelChatGood(h: Hub, sender: SessionId, payload: Bytes, now: int)
    requires Good(h, now)
    ensures Good(ChannelChat(h, sender, payload), now)
  {
    var h' := ChannelChat(h, sender, payload);
    forall u ensures Fifo(h', u) {
      assert Fifo(h, u);
      if u in h.registry.byUser && h.registry.byUser[u] != sender {
        SurvivingDirect(Entries(h.ledger.accepted, u), payload, Lost(h.ledger));
        assert Wrap([]) == [];
        assert Entries(h.ledger.handed, u) + [] == Entries(h.ledger.handed, u);
      }
    }
  }

  /** What is left for `v` of the accepted envelopes when the expired rows of `u` are lost. */
  lemma ArriveLoses(h: Hub, s: SessionId, u: UserId, now: int, v: UserId)
    requires Good(h, now)
    ensures Surviving(Entries(h.ledger.accepted, v), Lost(Arrive(h, s, u, now).ledger))
         == Entries(h.ledger.handed, v)
            + Surviving(Wrap(Queue(h.table.rows, v)), ExpiredIn(Queue(h.table.rows, u), now))
  {
    var dropped := ExpiredIn(Queue(h.table.rows, u), now);
    QueueMembers(h.table.rows, u);
    assert Fifo(h, v);
    FifoAfterLoss(h, v, dropped);
    assert Lost(Arrive(h, s, u, now).ledger) == Lost(h.ledger) + dropped;
  }

  lemma ArriveFifoSelf(h: Hub, s: SessionId, u: UserId, now: int)
    requires Good(h, now)
    ensures Fifo(Arrive(h, s, u, now), u)
  {
    var queue := Queue(h.table.rows, u);
    ArriveLoses(h, s, u, now, u);
    QueueOfOthers(h.table.rows, u, u);
    SurvivingExpiry(queue, ExpiredIn(queue, now), now);
    var handed := Entries(h.ledger.handed, u) + Wrap(Live(queue, now));
    assert Wrap([]) == [] && handed + [] == handed;
  }

  lemma ArriveFifoOther(h: Hub, s: SessionId, u: UserId, now: int, v: UserId)
    requires Good(h, now) && v != u
    ensures Fifo(Arrive(h, s, u, now), v)
  {
    ArriveLoses(h, s, u, now, v);
    QueueOfOthers(h.table.rows, u, v);
    QueueMembers(h.table.rows, u);
    QueueMembers(h.table.rows, v);
    SurvivingUntouched(Wrap(Queue(h.table.rows, v)), ExpiredIn(Queue(h.table.rows, u), now));
  }

  lemma ArriveFifo(h: Hub, s: SessionId, u: UserId, now: int, v: UserId)
    requires Good(h, now)
    ensures Fifo(Arrive(h, s, u, now), v)
  {
    if v == u {
      ArriveFifoSelf(h, s, u, now);
    } else {
      ArriveFifoOther(h, s, u, now, v);
    }
  }

  lemma ArriveAccounted(h: Hub, s: SessionId, u: UserId, now: int)
    requires Good(h, now)
    ensures Accounted(Arrive(h, s, u, now))
  {
    var queue := Queue(h.table.rows, u);
    QueueMembers(h.table.rows, u);
    LiveMembers(queue, now);
    OthersMembers(h.table.rows, u);
    var delivered, expired := (set r | r in Live(queue, now)), ExpiredIn(queue, now);
    assert forall r | r in delivered + expired :: r in h.table.rows && r.recipient == u && r.id < h.table.nextId;
    LossAccounted(h, Arrive(h, s, u, now), delivered, expired, now);
  }

  /** Taking rows from the table, each delivered in time or expired, keeps the accounts. */
  lemma LossAccounted(h: Hub, h': Hub, delivered: set<Row>, expired: set<Row>, now: int)
    requires Accounted(h)
    requires forall r | r in delivered + expired :: r in h.table.rows && r.id < h.table.nextId && r !in h'.table.rows
    requires forall r | r in delivered :: now < r.expiresAt
    requires forall r | r in expired :: r.expiresAt <= now
    requires forall r | r in h'.table.rows :: r in h.table.rows
    requires h'.table.nextId == h.table.nextId
    requires h'.ledger.delivered == h.ledger.delivered + StampedAt(delivered, now)
    requires h'.ledger.expired == h.ledger.expired + StampedAt(expired, now)
    requires h'.ledger.evicted == h.ledger.evicted
    ensures Accounted(h')
  {
  }

  lemma ArriveHandedRows(h: Hub, s: SessionId, u: UserId, now: int)
    requires HandedRows(h)
    ensures HandedRows(Arrive(h, s, u, now))
  {
    var h' := Arrive(h, s, u, now);
    var rows := Fetch(h.table, u, now).1;
    forall v, e | e in Entries(h'.ledger.handed, v) && e.Stored?
      ensures e.row in h'.ledger.delivered
    {
      if e !in Entries(h.ledger.handed, v) {
        assert e in Wrap(rows);
        assert e.row in rows;
      }
    }
  }

  lemma ArriveGood(h: Hub, s: SessionId, u: UserId, now: int)
    requires Good(h, now)
    ensures Good(Arrive(h, s, u, now), now)
  {
    var h' := Arrive(h, s, u, now);
    OrderedStep(h.table, FetchOp(u, now), now);
    ArriveAccounted(h, s, u, now);
    ArriveHandedRows(h, s, u, now);
    forall v ensures Fifo(h', v) {
      ArriveFifo(h, s, u, now, v);
    }
    forall v | v in h'.registry.byUser ensures Queue(h'.table.rows, v) == [] {
      QueueOfOthers(h.table.rows, u, v);
    }
  }

  lemma PurgeFifo(h: Hub, now: int, u: UserId)
    requires Good(h, now)
    ensures Fifo(Purge(h, now), u)
  {
    var dropped := ExpiredIn(h.table.rows, now);
    assert Fifo(h, u);
    FifoAfterLoss(h, u, dropped);
    assert Lost(Purge(h, now).ledger) == Lost(h.ledger) + dropped;
    QueueMembers(h.table.rows, u);
    SurvivingExpiry(Queue(h.table.rows, u), dropped, now);
    QueueOfLive(h.table.rows, u, now);
  }

  lemma PurgeAccounted(h: Hub, now: int)
    requires Good(h, now)
    ensures Accounted(Purge(h, now))
  {
    LiveMembers(h.table.rows, now);
    assert h.ledger.delivered == h.ledger.delivered + StampedAt({}, now);
    LossAccounted(h, Purge(h, now), {}, ExpiredIn(h.table.rows, now), now);
  }

  lemma PurgeDrained(h: Hub, now: int)
    requires OnlineIsDrained(h)
    ensures OnlineIsDrained(Purge(h, now))
  {
    forall u | u in h.registry.byUser ensures Queue(Live(h.table.rows, now), u) == [] {
      QueueOfLive(h.table.rows, u, now);
    }
  }

  lemma PurgeGood(h: Hub, now: int)
    requires Good(h, now)
    ensures Good(Purge(h, now), now)
  {
    OrderedStep(h.table, CleanupOp(now), now);
    PurgeAccounted(h, now);
    PurgeDrained(h, now);
    forall u ensures Fifo(Purge(h, now), u) {
      PurgeFifo(h, now, u);
    }
  }

  lemma GoodLater(h: Hub, past: int, now: int)
    requires Good(h, past) && past <= now
    ensures Good(h, now)
  {
  }

  lemma StepGood(h: Hub, step: Step)
    requires Good(h, step.at)
    ensures Good(NextHub(h, step), step.at)
  {
    match step
    case ChatStep(s, _, _, recipient, payload, now) =>
      if recipient != "" {
        ChannelChatGood(h, s, payload, now);
        RouteGood(h, recipient, payload, now);
      }
    case NoticeStep(exclude, members, payload, now) => NotifyAllGood(h, exclude, members, payload, now);
    case ArriveStep(s, u, now) => ArriveGood(h, s, u, now);
    case LeaveStep(s, now) =>
      assert forall u :: Fifo(h, u) ==> Fifo(Leave(h, s), u);
    case PurgeStep(now) => PurgeGood(h, now);
  }

  lemma {:induction false} RunIsGood(steps: seq<Step>, now: int)
    requires TimedSteps(steps) && forall i | 0 <= i < |steps| :: steps[i].at <= now
    ensures Good(RunHub(steps), now)
    decreases |steps|
  {
    if steps == [] {
      forall u ensures Fifo(EMPTY_HUB, u) {
        assert Wrap([]) == [];
      }
    } else {
      var n := |steps| - 1;
      RunIsGood(steps[..n], steps[n].at);
      StepGood(RunHub(steps[..n]), steps[n]);
      GoodLater(RunHub(steps), steps[n].at, now);
    }
  }

  /** End to end: in every run of the handlers with a clock that does not run backwards, for every user,
      the envelopes handed to the user's sessions followed by those pending are the accepted ones in
      order of acceptance, less exactly the expired and the evicted; a row is delivered only before and
      expires only after its time; and nothing is pending for a user who is online. */
  lemma EndToEndFifo(steps: seq<Step>, u: UserId)
    requires TimedSteps(steps)
    ensures var h := RunHub(steps);
      && Fifo(h, u)
      && (u in h.registry.byUser ==>
            Entries(h.ledger.handed, u) == Surviving(Entries(h.ledger.accepted, u), Lost(h.ledger)))
      && Accounted(h)
  {
    var now := if steps == [] then 0 else steps[|steps| - 1].at;
    RunIsGood(steps, now);
    assert Fifo(RunHub(steps), u);
    var handed := Entries(RunHub(steps).ledger.handed, u);
    assert Wrap([]) == [] && handed + [] == handed;
  }

  // ----- What is accepted ------------------------------------------------------------------------

  function PayloadOf(e: Entry): Bytes {
    match e
    case Direct(payload) => payload
    case Stored(row) => row.payload
  }

  /** Whether a chat envelope from session `s` to `recipient` is meant for user `v`: channel chat is for
      every online user but the sender. */
  predicate Addressed(h: Hub, s: SessionId, recipient: string, v: UserId)
    requires recipient != ""
  {
    if recipient[0] == '#' then v in h.registry.byUser && h.registry.byUser[v] != s else v == recipient
  }

  predicate HasRoom(h: Hub, recipient: string)
    requires recipient != ""
  {
    recipient[0] == '#' || recipient in h.registry.byUser || |Queue(h.table.rows, recipient)| < 100
  }

  ghost predicate OneMore(before: seq<Entry>, after: seq<Entry>, payload: Bytes) {
    |after| == |before| + 1 && before == after[..|before|] && PayloadOf(after[|before|]) == payload
  }

  lemma RouteAcceptance(h: Hub, u: UserId, payload: Bytes, now: int, v: UserId)
    ensures var (h', ok) := Route(h, u, payload, now);
      var before, after := Entries(h.ledger.accepted, v), Entries(h'.ledger.accepted, v);
      && (ok <==> u in h.registry.byUser || |Queue(h.table.rows, u)| < 100)
      && (if ok && v == u then OneMore(before, after, payload) else after == before)
      && (!ok ==> h' == h)
      && (h'.ledger.evicted != h.ledger.evicted ==> |h.table.rows| >= 100000)
  {
  }

  /** A chat envelope is accepted exactly if the sender is who they claim to be, there is a recipient,
      and a user who is offline has room for it; then it is accepted once for everyone it is meant for
      and for nobody else, and a refused one changes nothing. */
  lemma ChatAcceptance(h: Hub, s: SessionId, u: UserId, claimed: UserId, recipient: string, payload: Bytes,
                       now: int, v: UserId)
    ensures var (h', reply) := Chat(h, s, u, claimed, recipient, payload, now);
      var before, after := Entries(h.ledger.accepted, v), Entries(h'.ledger.accepted, v);
      && (reply == Accepted <==> (claimed == u && recipient != "" && HasRoom(h, recipient)))
      && (if reply == Accepted && Addressed(h, s, recipient, v) then OneMore(before, after, payload)
          else after == before)
      && (reply != Accepted ==> h' == h)
  {
    if recipient != "" {
      RouteAcceptance(h, recipient, payload, now, v);
    }
  }

  // ----- Exactly once --------------------------------------------------------------------------

  /** The stored entries of a log are rows of that user with strictly increasing ids, so none of them
      occurs twice. */
  ghost predicate InOrder(entries: seq<Entry>, u: UserId, nextId: nat) {
    && (forall e | e in entries && e.Stored? :: e.row.recipient == u && e.row.id < nextId)
    && (forall i, j | 0 <= i < j < |entries| && entries[i].Stored? && entries[j].Stored? ::
          entries[i].row.id < entries[j].row.id)
  }

  ghost predicate AllInOrder(h: Hub) {
    forall u :: InOrder(Entries(h.ledger.accepted, u), u, h.table.nextId)
  }

  lemma InOrderDirect(entries: seq<Entry>, payload: Bytes, u: UserId, nextId: nat)
    requires InOrder(entries, u, nextId)
    ensures InOrder(entries + [Direct(payload)], u, nextId)
  {
  }

  lemma InOrderStored(entries: seq<Entry>, row: Row, u: UserId, nextId: nat)
    requires InOrder(entries, u, nextId) && row.recipient == u && row.id == nextId
    ensures InOrder(entries + [Stored(row)], u, nextId + 1)
  {
    assert forall i | 0 <= i < |entries| :: entries[i] in entries;
  }

  lemma InOrderLater(entries: seq<Entry>, u: UserId, nextId: nat)
    requires InOrder(entries, u, nextId)
    ensures InOrder(entries, u, nextId + 1)
  {
  }

  lemma RouteInOrder(h: Hub, u: UserId, payload: Bytes, now: int)
    requires AllInOrder(h)
    ensures AllInOrder(Route(h, u, payload, now).0)
  {
    var h' := Route(h, u, payload, now).0;
    forall v ensures InOrder(Entries(h'.ledger.accepted, v), v, h'.table.nextId) {
      var before := Entries(h.ledger.accepted, v);
      assert InOrder(before, v, h.table.nextId);
      InOrderDirect(before, payload, v, h.table.nextId);
      InOrderLater(before, v, h.table.nextId);
      if v == u {
        InOrderStored(before, Row(h.table.nextId, u, payload, now, now + TTL_SECONDS), u, h.table.nextId);
      }
    }
  }

  lemma {:induction false} NotifyAllInOrder(h: Hub, exclude: Option<SessionId>, members: seq<UserId>,
                                            payload: Bytes, now: int)
    requires AllInOrder(h)
    ensures AllInOrder(NotifyAll(h, exclude, members, payload, now))
    decreases |members|
  {
    if members != [] {
      var rest, last := members[..|members| - 1], members[|members| - 1];
      NotifyAllInOrder(h, exclude, rest, payload, now);
      RouteInOrder(NotifyAll(h, exclude, rest, payload, now), last, payload, now);
    }
  }

  lemma ChannelChatInOrder(h: Hub, sender: SessionId, payload: Bytes)
    requires AllInOrder(h)
    ensures AllInOrder(ChannelChat(h, sender, payload))
  {
    forall u ensures InOrder(Entries(ChannelChat(h, sender, payload).ledger.accepted, u), u, h.table.nextId) {
      var before := Entries(h.ledger.accepted, u);
      assert InOrder(before, u, h.table.nextId);
      InOrderDirect(before, payload, u, h.table.nextId);
    }
  }

  lemma {:induction false} RunInOrder(steps: seq<Step>)
    ensures AllInOrder(RunHub(steps))
    decreases |steps|
  {
    if steps != [] {
      var h, step := RunHub(steps[..|steps| - 1]), steps[|steps| - 1];
      RunInOrder(steps[..|steps| - 1]);
      match step {
        case ChatStep(s, _, _, recipient, payload, now) =>
          if recipient != "" {
            ChannelChatInOrder(h, s, payload);
            RouteInOrder(h, recipient, payload, now);
          }
        case NoticeStep(exclude, members, payload, now) => NotifyAllInOrder(h, exclude, members, payload, now);
        case ArriveStep(_, _, _) =>
        case LeaveStep(_, _) =>
        case PurgeStep(_) =>
      }
    }
  }

  lemma {:induction false} SurvivingMembers(entries: seq<Entry>, lost: set<Row>, r: Row)
    ensures Stored(r) in Surviving(entries, lost) <==> Stored(r) in entries && r !in lost
    decreases |entries|
  {
    if entries != [] {
      SurvivingMembers(entries[1..], lost, r);
      assert entries == [entries[0]] + entries[1..];
    }
  }

  function Count(b: bool): nat {
    if b then 1 else 0
  }

  /** Conservation: in every run, every accepted row of every user has exactly one fate. It is accepted
      once, and is then pending, delivered, expired or evicted. */
  lemma ExactlyOneFate(steps: seq<Step>, u: UserId, r: Row)
    requires TimedSteps(steps) && Stored(r) in Entries(RunHub(steps).ledger.accepted, u)
    ensures var h := RunHub(steps);
      && InOrder(Entries(h.ledger.accepted, u), u, h.table.nextId)
      && Count(r in h.table.rows) + Count(r in h.ledger.delivered) + Count(r in h.ledger.expired)
         + Count(r in h.ledger.evicted) == 1
      && (r in h.ledger.delivered ==> Stored(r) in Entries(h.ledger.handed, u))
  {
    var h := RunHub(steps);
    var now := if steps == [] then 0 else steps[|steps| - 1].at;
    RunIsGood(steps, now);
    RunInOrder(steps);
    assert Fifo(h, u);
    SurvivingMembers(Entries(h.ledger.accepted, u), Lost(h.ledger), r);
    QueueMembers(h.table.rows, u);
    var handed, pending := Entries(h.ledger.handed, u), Wrap(Queue(h.table.rows, u));
    if r !in Lost(h.ledger) {
      assert Stored(r) in handed + pending;
      if Stored(r) !in handed {
        var i :| 0 <= i < |pending| && pending[i] == Stored(r);
        assert r in h.table.rows;
      }
    }
  }
}
