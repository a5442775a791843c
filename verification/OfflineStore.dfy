/** The store-and-forward table: messages for offline users, with a time to live, a cap per user and
    a global limit. */
module Offline {
  import opened Base

  const TTL_SECONDS: int := 7 * 24 * 3600
  const MAX_PER_USER: nat := 100
  const MAX_TOTAL: nat := 100000

  datatype Row = Row(id: nat, recipient: UserId, payload: Bytes, storedAt: int, expiresAt: int)

  /** The table in the order of its automatic ids, which are never reused. */
  datatype Table = Table(rows: seq<Row>, nextId: nat)

  const EMPTY_TABLE := Table([], 1)

  /** The rows of one recipient, oldest first. */
  function Queue(rows: seq<Row>, u: UserId): seq<Row> {
    if rows == [] then []
    else (if rows[0].recipient == u then [rows[0]] else []) + Queue(rows[1..], u)
  }

  /** The rows that have not expired at `now`. */
  function Live(rows: seq<Row>, now: int): seq<Row> {
    if rows == [] then []
    else (if rows[0].expiresAt > now then [rows[0]] else []) + Live(rows[1..], now)
  }

  /** The rows of everybody else. */
  function Others(rows: seq<Row>, u: UserId): seq<Row> {
    if rows == [] then []
    else (if rows[0].recipient != u then [rows[0]] else []) + Others(rows[1..], u)
  }

  function Payloads(rows: seq<Row>): (r: seq<Bytes>)
    ensures |r| == |rows|
    ensures forall i | 0 <= i < |rows| :: r[i] == rows[i].payload
  {
    seq(|rows|, i requires 0 <= i < |rows| => rows[i].payload)
  }

  /** Refused when the recipient has too many rows; drops the oldest row when the table is full. */
  function Save(t: Table, u: UserId, payload: Bytes, now: int): (Table, bool) {
    if |Queue(t.rows, u)| >= MAX_PER_USER then (t, false)
    else
      var kept := if |t.rows| >= MAX_TOTAL then t.rows[1..] else t.rows;
      (Table(kept + [Row(t.nextId, u, payload, now, now + TTL_SECONDS)], t.nextId + 1), true)
  }

  /** Hands out the live rows of `u` and deletes all of them. */
  function Fetch(t: Table, u: UserId, now: int): (Table, seq<Row>) {
    (t.(rows := Others(t.rows, u)), Live(Queue(t.rows, u), now))
  }

  function CleanupExpired(t: Table, now: int): Table {
    t.(rows := Live(t.rows, now))
  }

  function PendingCount(t: Table, u: UserId, now: int): nat {
    |Live(Queue(t.rows, u), now)|
  }

  /** One more row in front of the query. */
  lemma FetchStep(rows: seq<Row>, r: Row, u: UserId, now: int)
    ensures Others(rows + [r], u) == Others(rows, u) + if r.recipient != u then [r] else []
    ensures Payloads(Live(Queue(rows + [r], u), now))
         == Payloads(Live(Queue(rows, u), now)) + if r.recipient == u && r.expiresAt > now then [r.payload] else []
  {
    QueueConcat(rows, [r], u);
    LiveConcat(Queue(rows, u), Queue([r], u), now);
    OthersConcat(rows, [r], u);
  }

  class OfflineStore {
    var rows: seq<Row>
    var nextId: nat

    ghost function State(): Table
      reads this
    {
      Table(rows, nextId)
    }

    constructor ()
      ensures State() == EMPTY_TABLE
    {
      rows, nextId := [], 1;
    }

    method CountFor(u: UserId) returns (n: nat)
      ensures n == |Queue(rows, u)|
    {
      n := 0;
      for i := 0 to |rows|
        invariant n == |Queue(rows[..i], u)|
      {
        QueueConcat(rows[..i], [rows[i]], u);
        assert rows[..i + 1] == rows[..i] + [rows[i]];
        if rows[i].recipient == u {
          n := n + 1;
        }
      }
      assert rows[..|rows|] == rows;
    }

    method SaveMessage(u: UserId, payload: Bytes, now: int) returns (saved: bool)
      modifies this
      ensures (State(), saved) == Save(old(State()), u, payload, now)
    {
      var userCount := CountFor(u);
      if userCount >= MAX_PER_USER {
        return false;
      }
      if |rows| >= MAX_TOTAL {
        rows := rows[1..];
      }
      rows := rows + [Row(nextId, u, payload, now, now + TTL_SECONDS)];
      nextId := nextId + 1;
      return true;
    }

    /** Steps through the result of the query, then deletes every row of the recipient. */
    method FetchAndDelete(u: UserId, now: int) returns (messages: seq<Bytes>)
      modifies this
      ensures var (t, fetched) := Fetch(old(State()), u, now);
        State() == t && messages == Payloads(fetched)
    {
      messages := [];
      var kept: seq<Row> := [];
      for i := 0 to |rows|
        invariant rows == old(rows) && nextId == old(nextId)
        invariant messages == Payloads(Live(Queue(rows[..i], u), now))
        invariant kept == Others(rows[..i], u)
      {
        var r := rows[i];
        assert rows[..i + 1] == rows[..i] + [r];
        FetchStep(rows[..i], r, u, now);
        if r.recipient == u {
          if r.expiresAt > now {
            messages := messages + [r.payload];
          }
        } else {
          kept := kept + [r];
        }
      }
      assert rows[..|rows|] == rows;
      rows := kept;
    }

    method Cleanup(now: int) returns (removed: nat)
      modifies this
      ensures State() == CleanupExpired(old(State()), now)
      ensures removed == |old(rows)| - |rows|
    {
      var kept: seq<Row> := [];
      for i := 0 to |rows|
        invariant rows == old(rows) && nextId == old(nextId)
        invariant kept == Live(rows[..i], now) && |kept| <= i
      {
        assert rows[..i + 1] == rows[..i] + [rows[i]];
        LiveConcat(rows[..i], [rows[i]], now);
        if rows[i].expiresAt > now {
          kept := kept + [rows[i]];
        }
      }
      assert rows[..|rows|] == rows;
      removed := |rows| - |kept|;
      rows := kept;
    }

    method GetPendingCount(u: UserId, now: int) returns (n: nat)
      ensures n == PendingCount(State(), u, now)
    {
      n := 0;
      for i := 0 to |rows|
        invariant n == |Live(Queue(rows[..i], u), now)|
      {
        assert rows[..i + 1] == rows[..i] + [rows[i]];
        QueueConcat(rows[..i], [rows[i]], u);
        LiveConcat(Queue(rows[..i], u), Queue([rows[i]], u), now);
        if rows[i].recipient == u && rows[i].expiresAt > now {
          n := n + 1;
        }
      }
      assert rows[..|rows|] == rows;
    }
  }

  // ----- The queries distribute over concatenation and commute -------------------------

  lemma QueueCons(r: Row, rows: seq<Row>, u: UserId)
    ensures Queue([r] + rows, u) == (if r.recipient == u then [r] else []) + Queue(rows, u)
  {
    assert ([r] + rows)[1..] == rows;
  }

  lemma LiveCons(r: Row, rows: seq<Row>, now: int)
    ensures Live([r] + rows, now) == (if r.expiresAt > now then [r] else []) + Live(rows, now)
  {
    assert ([r] + rows)[1..] == rows;
  }

  lemma OthersCons(r: Row, rows: seq<Row>, u: UserId)
    ensures Others([r] + rows, u) == (if r.recipient != u then [r] else []) + Others(rows, u)
  {
    assert ([r] + rows)[1..] == rows;
  }

  lemma {:induction false} QueueConcat(a: seq<Row>, b: seq<Row>, u: UserId)
    ensures Queue(a + b, u) == Queue(a, u) + Queue(b, u)
    decreases |a|
  {
    if a == [] {
      assert a + b == b;
    } else {
      var r, rest := a[0], a[1..];
      QueueConcat(rest, b, u);
      QueueCons(r, rest, u);
      QueueCons(r, rest + b, u);
      assert a == [r] + rest && a + b == [r] + (rest + b);
    }
  }

  lemma {:induction false} LiveConcat(a: seq<Row>, b: seq<Row>, now: int)
    ensures Live(a + b, now) == Live(a, now) + Live(b, now)
    decreases |a|
  {
    if a == [] {
      assert a + b == b;
    } else {
      var r, rest := a[0], a[1..];
      LiveConcat(rest, b, now);
      LiveCons(r, rest, now);
      LiveCons(r, rest + b, now);
      assert a == [r] + rest && a + b == [r] + (rest + b);
    }
  }

  lemma {:induction false} OthersConcat(a: seq<Row>, b: seq<Row>, u: UserId)
    ensures Others(a + b, u) == Others(a, u) + Others(b, u)
    decreases |a|
  {
    if a == [] {
      assert a + b == b;
    } else {
      var r, rest := a[0], a[1..];
      OthersConcat(rest, b, u);
      OthersCons(r, rest, u);
      OthersCons(r, rest + b, u);
      assert a == [r] + rest && a + b == [r] + (rest + b);
    }
  }

  lemma {:induction false} QueueOfLive(rows: seq<Row>, u: UserId, now: int)
    ensures Queue(Live(rows, now), u) == Live(Queue(rows, u), now)
    decreases |rows|
  {
    if rows != [] {
      QueueOfLive(rows[1..], u, now);
      var head := if rows[0].expiresAt > now then [rows[0]] else [];
      QueueConcat(head, Live(rows[1..], now), u);
      LiveConcat(Queue([rows[0]], u), Queue(rows[1..], u), now);
      assert Queue(rows, u) == Queue([rows[0]], u) + Queue(rows[1..], u);
    }
  }

  lemma {:induction false} LiveOfLive(rows: seq<Row>, t: int, now: int)
    requires t <= now
    ensures Live(Live(rows, t), now) == Live(rows, now)
    decreases |rows|
  {
    if rows != [] {
      LiveOfLive(rows[1..], t, now);
      LiveConcat(if rows[0].expiresAt > t then [rows[0]] else [], Live(rows[1..], t), now);
    }
  }

  lemma {:induction false} QueueOfOthers(rows: seq<Row>, u: UserId, v: UserId)
    ensures Queue(Others(rows, u), v) == if u == v then [] else Queue(rows, v)
    decreases |rows|
  {
    if rows != [] {
      QueueOfOthers(rows[1..], u, v);
      QueueConcat(if rows[0].recipient != u then [rows[0]] else [], Others(rows[1..], u), v);
    }
  }

  // ----- Every table of a run ----------------------------------------------------------

  datatype Op =
    | SaveOp(user: UserId, payload: Bytes, at: int)
    | FetchOp(user: UserId, at: int)
    | CountOp(user: UserId, at: int)
    | CleanupOp(at: int)

  function Next(t: Table, op: Op): Table {
    match op
    case SaveOp(u, payload, now) => Save(t, u, payload, now).0
    case FetchOp(u, now) => Fetch(t, u, now).0
    case CountOp(_, _) => t
    case CleanupOp(now) => CleanupExpired(t, now)
  }

  function Run(t: Table, ops: seq<Op>): Table {
    if ops == [] then t else Next(Run(t, ops[..|ops| - 1]), ops[|ops| - 1])
  }

  ghost predicate Timed(ops: seq<Op>) {
    forall i, j | 0 <= i < j < |ops| :: ops[i].at <= ops[j].at
  }

  /** Ids and expiry times are ordered alike, and both lie ahead of what is in the table. */
  ghost predicate Ordered(t: Table, now: int) {
    && (forall i, j | 0 <= i < j < |t.rows| :: t.rows[i].id < t.rows[j].id)
    && (forall i, j | 0 <= i < j < |t.rows| :: t.rows[i].expiresAt <= t.rows[j].expiresAt)
    && (forall i | 0 <= i < |t.rows| ::
          && t.rows[i].id < t.nextId
          && t.rows[i].expiresAt == t.rows[i].storedAt + TTL_SECONDS && t.rows[i].storedAt <= now)
  }

  ghost predicate Bounded(t: Table) {
    && |t.rows| <= MAX_TOTAL
    && forall u :: |Queue(t.rows, u)| <= MAX_PER_USER
  }

  /** A selection of the elements of `rows` in their order: result element `i` comes from `from[i]`. */
  ghost predicate SelectedBy(rows: seq<Row>, part: seq<Row>, from: seq<nat>) {
    && |from| == |part|
    && (forall i | 0 <= i < |from| :: from[i] < |rows| && part[i] == rows[from[i]])
    && (forall i, j | 0 <= i < j < |from| :: from[i] < from[j])
  }

  lemma SelectedCons(head: Row, rows: seq<Row>, part: seq<Row>, from: seq<nat>, take: bool) returns (from': seq<nat>)
    requires SelectedBy(rows, part, from)
    ensures SelectedBy([head] + rows, (if take then [head] else []) + part, from')
  {
    var shifted := seq(|from|, i requires 0 <= i < |from| => from[i] + 1);
    from' := (if take then [0] else []) + shifted;
  }

  lemma {:induction false} OthersSelects(rows: seq<Row>, u: UserId) returns (from: seq<nat>)
    ensures SelectedBy(rows, Others(rows, u), from)
    decreases |rows|
  {
    from := [];
    if rows != [] {
      from := OthersSelects(rows[1..], u);
      from := SelectedCons(rows[0], rows[1..], Others(rows[1..], u), from, rows[0].recipient != u);
      assert rows == [rows[0]] + rows[1..];
    }
  }

  lemma OrderedSelection(rows: seq<Row>, part: seq<Row>, from: seq<nat>, nextId: nat, now: int)
    requires Ordered(Table(rows, nextId), now) && SelectedBy(rows, part, from)
    ensures Ordered(Table(part, nextId), now)
  {
  }

  lemma OrderedAppend(rows: seq<Row>, r: Row, now: int)
    requires Ordered(Table(rows, r.id), now)
    requires r.storedAt == now && r.expiresAt == now + TTL_SECONDS
    ensures Ordered(Table(rows + [r], r.id + 1), now)
  {
    var all := rows + [r];
    forall i | 0 <= i < |rows|
      ensures all[i] == rows[i] && rows[i].id < r.id && rows[i].expiresAt <= r.expiresAt
    {
    }
  }

  lemma OrderedDrop(rows: seq<Row>, k: nat, nextId: nat, past: int, now: int)
    requires Ordered(Table(rows, nextId), past) && k <= |rows| && past <= now
    ensures Ordered(Table(rows[k..], nextId), now)
  {
  }

  lemma OrderedSave(t: Table, u: UserId, payload: Bytes, now: int, past: int)
    requires Ordered(t, past) && past <= now
    ensures Ordered(Save(t, u, payload, now).0, now)
  {
    OrderedLater(t, past, now);
    if Save(t, u, payload, now).1 {
      var dropped := if |t.rows| >= MAX_TOTAL then 1 else 0;
      var row := Row(t.nextId, u, payload, now, now + TTL_SECONDS);
      OrderedDrop(t.rows, dropped, t.nextId, past, now);
      OrderedAppend(t.rows[dropped..], row, now);
      assert Save(t, u, payload, now).0.rows == t.rows[dropped..] + [row];
    }
  }

  lemma OrderedLater(t: Table, past: int, now: int)
    requires Ordered(t, past) && past <= now
    ensures Ordered(t, now)
  {
    OrderedDrop(t.rows, 0, t.nextId, past, now);
    assert t.rows[0..] == t.rows;
  }

  lemma OrderedStep(t: Table, op: Op, past: int)
    requires Ordered(t, past) && past <= op.at
    ensures Ordered(Next(t, op), op.at)
  {
    OrderedLater(t, past, op.at);
    match op
    case SaveOp(u, payload, now) => OrderedSave(t, u, payload, now, past);
    case FetchOp(u, now) =>
      var from := OthersSelects(t.rows, u);
      OrderedSelection(t.rows, Others(t.rows, u), from, t.nextId, now);
    case CountOp(_, now) =>
    case CleanupOp(now) =>
      var k := LiveIsSuffix(t.rows, now);
      OrderedDrop(t.rows, k, t.nextId, past, now);
  }

  lemma {:induction false} LiveShrinks(rows: seq<Row>, now: int)
    ensures |Live(rows, now)| <= |rows|
    decreases |rows|
  {
    if rows != [] { LiveShrinks(rows[1..], now); }
  }

  lemma {:induction false} OthersShrinks(rows: seq<Row>, u: UserId)
    ensures |Others(rows, u)| <= |rows|
    decreases |rows|
  {
    if rows != [] { OthersShrinks(rows[1..], u); }
  }

  lemma BoundedStep(t: Table, op: Op)
    requires Bounded(t)
    ensures Bounded(Next(t, op))
  {
    var t' := Next(t, op);
    match op {
      case SaveOp(_, _, _) =>
      case FetchOp(u, _) => OthersShrinks(t.rows, u);
      case CountOp(_, _) =>
      case CleanupOp(_) => LiveShrinks(t.rows, op.at);
    }
    forall v ensures |Queue(t'.rows, v)| <= MAX_PER_USER {
      QueueStep(t, op, v);
      match op {
        case SaveOp(_, _, _) =>
        case FetchOp(_, _) =>
        case CountOp(_, _) =>
        case CleanupOp(_) => LiveShrinks(Queue(t.rows, v), op.at);
      }
    }
  }

  /** The oldest row of a full table, if it is one of `v`. */
  function EvictedFrom(t: Table, op: Op, v: UserId): seq<Row> {
    if op.SaveOp? && |Queue(t.rows, op.user)| < 100 && |t.rows| >= 100000 && t.rows[0].recipient == v
    then [t.rows[0]] else []
  }

  lemma SaveQueue(t: Table, u: UserId, payload: Bytes, now: int, v: UserId)
    ensures var (t', saved) := Save(t, u, payload, now);
      var evicted := EvictedFrom(t, SaveOp(u, payload, now), v);
      && evicted <= Queue(t.rows, v)
      && Queue(t'.rows, v) == Queue(t.rows, v)[|evicted|..]
                              + if u == v && saved then [Row(t.nextId, u, payload, now, now + TTL_SECONDS)] else []
  {
    if |Queue(t.rows, u)| < MAX_PER_USER {
      var kept := if |t.rows| >= MAX_TOTAL then t.rows[1..] else t.rows;
      QueueConcat(kept, [Row(t.nextId, u, payload, now, now + TTL_SECONDS)], v);
    }
  }

  /** The table refines one queue per recipient: a save appends to the queue of its recipient, unless there
      are a hundred rows in it already, and after an eviction has taken the head of some queue; a fetch
      empties one queue; a cleanup thins all of them; and nothing else happens to any of them. */
  lemma QueueStep(t: Table, op: Op, v: UserId)
    ensures var before, after := Queue(t.rows, v), Queue(Next(t, op).rows, v);
      match op
      case SaveOp(u, payload, now) =>
        && EvictedFrom(t, op, v) <= before
        && after == before[|EvictedFrom(t, op, v)|..]
                    + if u == v && |before| < 100 then [Row(t.nextId, u, payload, now, now + 604800)] else []
      case FetchOp(u, _) => after == if u == v then [] else before
      case CountOp(_, _) => after == before
      case CleanupOp(now) => after == Live(before, now)
  {
    match op
    case SaveOp(u, payload, now) =>
      SaveQueue(t, u, payload, now, v);
    case FetchOp(u, _) => QueueOfOthers(t.rows, u, v);
    case CountOp(_, _) =>
    case CleanupOp(now) => QueueOfLive(t.rows, v, now);
  }

  /** In every run there are at most 100 rows for each user and at most 100000 in all, and, the clock
      not running backwards, ids and expiry times are ordered alike. */
  lemma {:induction false} RunIsBoundedAndOrdered(ops: seq<Op>, now: int)
    requires Timed(ops) && forall i | 0 <= i < |ops| :: ops[i].at <= now
    ensures var t := Run(EMPTY_TABLE, ops);
      |t.rows| <= 100000 && (forall u :: |Queue(t.rows, u)| <= 100) && Ordered(t, now)
    decreases |ops|
  {
    if ops != [] {
      var n := |ops| - 1;
      RunIsBoundedAndOrdered(ops[..n], ops[n].at);
      BoundedStep(Run(EMPTY_TABLE, ops[..n]), ops[n]);
      OrderedStep(Run(EMPTY_TABLE, ops[..n]), ops[n], ops[n].at);
    }
  }

  lemma {:induction false} LiveKeepsAll(rows: seq<Row>, now: int)
    requires forall r | r in rows :: r.expiresAt > now
    ensures Live(rows, now) == rows
    decreases |rows|
  {
    if rows != [] {
      LiveKeepsAll(rows[1..], now);
    }
  }

  /** Among rows in order of expiry, the expired ones come first: dropping them drops a prefix. */
  lemma {:induction false} LiveIsSuffix(rows: seq<Row>, now: int) returns (k: nat)
    requires forall i, j | 0 <= i < j < |rows| :: rows[i].expiresAt <= rows[j].expiresAt
    ensures k <= |rows| && Live(rows, now) == rows[k..]
    ensures forall i | 0 <= i < |rows| :: rows[i].expiresAt <= now <==> i < k
    decreases |rows|
  {
    if rows == [] {
      k := 0;
    } else if rows[0].expiresAt > now {
      LiveKeepsAll(rows, now);
      k := 0;
    } else {
      k := LiveIsSuffix(rows[1..], now);
      k := k + 1;
    }
  }

  /** Cleanup drops a prefix of the table in every run. */
  lemma CleanupDropsPrefix(t: Table, past: int, now: int) returns (k: nat)
    requires Ordered(t, past)
    ensures k <= |t.rows| && CleanupExpired(t, now).rows == t.rows[k..]
  {
    k := LiveIsSuffix(t.rows, now);
  }

  /** A fetch hands out exactly the rows of the user that have not expired, in the order of the table, and the
      pending count is their number; what is left are exactly the rows of everybody else. */
  lemma FetchedIff(t: Table, u: UserId, now: int)
    ensures var (t', fetched) := Fetch(t, u, now);
      && (forall r :: r in fetched <==> r in t.rows && r.recipient == u && r.expiresAt > now)
      && (forall r :: r in t'.rows <==> r in t.rows && r.recipient != u)
      && PendingCount(t, u, now) == |fetched|
  {
    QueueMembers(t.rows, u);
    LiveMembers(Queue(t.rows, u), now);
    OthersMembers(t.rows, u);
  }

  lemma {:induction false} QueueMembers(rows: seq<Row>, u: UserId)
    ensures forall r :: r in Queue(rows, u) <==> r in rows && r.recipient == u
    decreases |rows|
  {
    if rows != [] {
      QueueMembers(rows[1..], u);
    }
  }

  lemma {:induction false} LiveMembers(rows: seq<Row>, now: int)
    ensures forall r :: r in Live(rows, now) <==> r in rows && r.expiresAt > now
    decreases |rows|
  {
    if rows != [] {
      LiveMembers(rows[1..], now);
      assert rows == [rows[0]] + rows[1..];
    }
  }

  lemma {:induction false} OthersMembers(rows: seq<Row>, u: UserId)
    ensures forall r :: r in Others(rows, u) <==> r in rows && r.recipient != u
    decreases |rows|
  {
    if rows != [] {
      OthersMembers(rows[1..], u);
      assert rows == [rows[0]] + rows[1..];
    }
  }

  // ----- Cleanup cannot be observed by readers -----------------------------------------

  /** The rows handed out and the counts returned by an operation. */
  function Answer(t: Table, op: Op): (seq<Row>, nat) {
    match op
    case SaveOp(_, _, _) => ([], 0)
    case FetchOp(u, now) => (Fetch(t, u, now).1, 0)
    case CountOp(u, now) => ([], PendingCount(t, u, now))
    case CleanupOp(_) => ([], 0)
  }

  function Answers(t: Table, ops: seq<Op>): seq<(seq<Row>, nat)>
    decreases |ops|
  {
    if ops == [] then [] else [Answer(t, ops[0])] + Answers(Next(t, ops[0]), ops[1..])
  }

  lemma {:induction false} LiveOthers(rows: seq<Row>, u: UserId, now: int)
    ensures Live(Others(rows, u), now) == Others(Live(rows, now), u)
    decreases |rows|
  {
    if rows != [] {
      var r, rest := rows[0], rows[1..];
      LiveOthers(rest, u, now);
      LiveCons(r, Others(rest, u), now);
      OthersCons(r, Live(rest, now), u);
      assert r.recipient == u ==> Others(rows, u) == [] + Others(rest, u) == Others(rest, u);
      assert r.expiresAt <= now ==> Live(rows, now) == [] + Live(rest, now) == Live(rest, now);
    }
  }

  /** Tables with the same live rows at `t` answer alike from then on, as long as nothing is saved. */
  lemma {:induction false} SameLiveSameAnswers(a: Table, b: Table, t: int, ops: seq<Op>)
    requires Live(a.rows, t) == Live(b.rows, t)
    requires Timed(ops) && forall i | 0 <= i < |ops| :: t <= ops[i].at && !ops[i].SaveOp?
    ensures Answers(a, ops) == Answers(b, ops)
    decreases |ops|
  {
    if ops != [] {
      var op := ops[0];
      LiveOfLive(a.rows, t, op.at);
      LiveOfLive(b.rows, t, op.at);
      match op {
        case FetchOp(u, now) =>
          QueueOfLive(a.rows, u, now);
          QueueOfLive(b.rows, u, now);
          LiveOthers(a.rows, u, now);
          LiveOthers(b.rows, u, now);
        case CountOp(u, now) =>
          QueueOfLive(a.rows, u, now);
          QueueOfLive(b.rows, u, now);
        case CleanupOp(now) =>
      }
      SameLiveSameAnswers(Next(a, op), Next(b, op), op.at, ops[1..]);
    }
  }

  /** Cleaning up at `t` changes no fetch and no pending count at any later time, for every sequence of
      operations without a save in between. */
  lemma {:induction false} CleanupUnobservable(table: Table, t: int, ops: seq<Op>)
    requires Timed(ops) && forall i | 0 <= i < |ops| :: t <= ops[i].at && !ops[i].SaveOp?
    ensures Answers(CleanupExpired(table, t), ops) == Answers(table, ops)
  {
    LiveOfLive(table.rows, t, t);
    SameLiveSameAnswers(CleanupExpired(table, t), table, t, ops);
  }

  /** A save, however, can tell: the cap counts expired rows too, so without a cleanup a save is
      refused exactly when the cap is reached, and a cleanup turns the refusal around exactly when
      fewer than the cap of the rows are live. */
  lemma SaveSeesCleanup(table: Table, u: UserId, payload: Bytes, now: int)
    ensures Save(CleanupExpired(table, now), u, payload, now).1 != Save(table, u, payload, now).1
            <==> PendingCount(table, u, now) < 100 <= |Queue(table.rows, u)|
  {
    QueueOfLive(table.rows, u, now);
    LiveShrinks(Queue(table.rows, u), now);
  }

  function Saves(u: UserId, payload: Bytes, n: nat): (ops: seq<Op>)
    ensures |ops| == n
  {
    if n == 0 then [] else Saves(u, payload, n - 1) + [SaveOp(u, payload, 0)]
  }

  lemma {:induction false} AllQueued(rows: seq<Row>, u: UserId, now: int)
    requires forall r | r in rows :: r.recipient == u && r.expiresAt <= now
    ensures Queue(rows, u) == rows && Live(rows, now) == []
    decreases |rows|
  {
    if rows != [] {
      AllQueued(rows[1..], u, now);
      assert [rows[0]] + rows[1..] == rows;
    }
  }

  lemma RunSnoc(t: Table, ops: seq<Op>, op: Op)
    ensures Run(t, ops + [op]) == Next(Run(t, ops), op)
  {
    assert (ops + [op])[..|ops|] == ops;
  }

  lemma SaveIntoRoom(t: Table, u: UserId, payload: Bytes)
    requires forall r | r in t.rows :: r.recipient == u && r.expiresAt <= TTL_SECONDS
    requires |t.rows| < MAX_PER_USER
    ensures var rows := Save(t, u, payload, 0).0.rows;
      |rows| == |t.rows| + 1 && forall r | r in rows :: r.recipient == u && r.expiresAt <= TTL_SECONDS
  {
    AllQueued(t.rows, u, TTL_SECONDS);
  }

  lemma {:induction false} AfterSaves(u: UserId, payload: Bytes, n: nat)
    requires n <= MAX_PER_USER
    ensures var rows := Run(EMPTY_TABLE, Saves(u, payload, n)).rows;
      |rows| == n && forall r | r in rows :: r.recipient == u && r.expiresAt <= TTL_SECONDS
  {
    if n > 0 {
      AfterSaves(u, payload, n - 1);
      RunSnoc(EMPTY_TABLE, Saves(u, payload, n - 1), SaveOp(u, payload, 0));
      SaveIntoRoom(Run(EMPTY_TABLE, Saves(u, payload, n - 1)), u, payload);
    }
  }

  /** It does happen: after a hundred saves, when all of them have expired, the next save is refused
      although nothing is pending, and accepted if a cleanup comes first. */
  lemma ExpiredRowsBlockSave(u: UserId, payload: Bytes)
    ensures var t := Run(EMPTY_TABLE, Saves(u, payload, 100));
      && PendingCount(t, u, TTL_SECONDS) == 0
      && !Save(t, u, payload, TTL_SECONDS).1
      && Save(CleanupExpired(t, TTL_SECONDS), u, payload, TTL_SECONDS).1
  {
    AfterSaves(u, payload, 100);
    AllQueued(Run(EMPTY_TABLE, Saves(u, payload, 100)).rows, u, TTL_SECONDS);
  }
}
