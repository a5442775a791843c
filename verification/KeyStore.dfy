/** Identity keys and prekeys: registration, recovery by password, upload, and one-time hand-out. */
module KeyStores {
  import opened Base
  import R = Registries

  type SessionId = nat

  datatype SignedPrekey = SignedPrekey(pub: Bytes, sig: Bytes)

  datatype Opk = Opk(user: UserId, pub: Bytes, used: bool)

  /** The user table (identity key, and password where one is set), the signed prekeys, and the one-time
      prekeys under their automatic ids, which are never reused. */
  datatype Store = Store(
    identities: map<UserId, Bytes>,
    passwords: map<UserId, string>,
    signed: map<UserId, SignedPrekey>,
    opks: map<nat, Opk>,
    nextId: nat)

  const EMPTY_STORE := Store(map[], map[], map[], map[], 1)

  // ----- Table operations ------------------------------------------------------------------

  predicate VerifyPassword(s: Store, u: UserId, password: string) {
    u in s.passwords && s.passwords[u] == password
  }

  function ClearKeyMaterial(s: Store, u: UserId): Store {
    s.(signed := s.signed - {u}, opks := map i | i in s.opks && s.opks[i].user != u :: s.opks[i])
  }

  function StoreOpk(s: Store, u: UserId, pub: Bytes): Store {
    s.(opks := s.opks[s.nextId := Opk(u, pub, false)], nextId := s.nextId + 1)
  }

  /** All prekeys of one upload, one after the other: they get consecutive ids. */
  function StoreOpks(s: Store, u: UserId, pubs: seq<Bytes>): (r: Store)
    ensures r == s.(opks := r.opks, nextId := s.nextId + |pubs|)
    ensures forall i :: i in r.opks <==> i in s.opks || s.nextId <= i < s.nextId + |pubs|
    ensures forall i | i in s.opks && i < s.nextId :: r.opks[i] == s.opks[i]
    ensures forall i | s.nextId <= i < s.nextId + |pubs| :: r.opks[i] == Opk(u, pubs[i - s.nextId], false)
  {
    if pubs == [] then s else StoreOpk(StoreOpks(s, u, pubs[..|pubs| - 1]), u, pubs[|pubs| - 1])
  }

  predicate IsUnused(s: Store, u: UserId, i: nat) {
    i in s.opks && s.opks[i].user == u && !s.opks[i].used
  }

  /** What the query for one unused prekey may find; it names no order. */
  ghost predicate MayFind(s: Store, u: UserId, found: Option<nat>) {
    match found
    case Some(i) => IsUnused(s, u, i)
    case None => forall i | i in s.opks :: !IsUnused(s, u, i)
  }

  function MarkUsed(s: Store, found: Option<nat>): Store {
    if found.Some? && found.value in s.opks
    then s.(opks := s.opks[found.value := s.opks[found.value].(used := true)])
    else s
  }

  function Upsert(s: Store, u: UserId, spk: Option<SignedPrekey>): Store {
    if spk.Some? then s.(signed := s.signed[u := spk.value]) else s
  }

  // ----- The handlers ------------------------------------------------------------------------

  datatype AuthResult = Registered | Verified | Backfilled | Recovered | WrongPassword | KeyMismatch

  /** What becomes of an authentication, after the signature has been checked against the presented key.
      The password may be empty. */
  function Verdict(s: Store, u: UserId, key: Bytes, password: string): AuthResult {
    if u !in s.identities then Registered
    else if s.identities[u] == key then (if password != "" && u !in s.passwords then Backfilled else Verified)
    else if password == "" || u !in s.passwords then KeyMismatch
    else if VerifyPassword(s, u, password) then Recovered
    else WrongPassword
  }

  /** Sets the identity key of `u`, and the signed prekey if there is one; it counts only if it comes
      with a signature. */
  function SetIdentity(s: Store, u: UserId, key: Bytes, spk: Option<SignedPrekey>): Store {
    Upsert(s.(identities := s.identities[u := key]), u, spk)
  }

  function Authenticate(s: Store, u: UserId, key: Bytes, spk: Option<SignedPrekey>, password: string): Store {
    match Verdict(s, u, key, password)
    case Registered =>
      var s' := SetIdentity(s, u, key, spk);
      if password != "" then s'.(passwords := s'.passwords[u := password]) else s'
    case Recovered => SetIdentity(ClearKeyMaterial(s, u), u, key, spk)
    case Backfilled => s.(passwords := s.passwords[u := password])
    case Verified => s
    case WrongPassword => s
    case KeyMismatch => s
  }

  /** The keys of an upload that are stored: an empty one violates the NOT NULL constraint of its column
      and ends the upload. */
  function Storable(pubs: seq<Bytes>): (r: seq<Bytes>)
    ensures r <= pubs && [] !in r && (r == pubs || pubs[|r|] == [])
  {
    if pubs == [] || pubs[0] == [] then [] else [pubs[0]] + Storable(pubs[1..])
  }

  function Upload(s: Store, u: UserId, spk: Option<SignedPrekey>, pubs: seq<Bytes>): Store {
    StoreOpks(Upsert(s, u, spk), u, Storable(pubs))
  }

  datatype Bundle = Bundle(identity: Bytes, signed: Option<SignedPrekey>, oneTime: Option<Bytes>)

  /** The bundle for a known user, with the one-time prekey that has been found; an empty prekey is left
      out of the bundle, though it is used up. */
  function Request(s: Store, u: UserId, found: Option<nat>): (Store, Option<Bundle>) {
    if u !in s.identities then (s, None)
    else
      var oneTime := if found.Some? && found.value in s.opks && s.opks[found.value].pub != []
                     then Some(s.opks[found.value].pub) else None;
      (MarkUsed(s, found),
       Some(Bundle(s.identities[u], if u in s.signed then Some(s.signed[u]) else None, oneTime)))
  }

  function UpdatePassword(s: Store, u: UserId, given: string, replacement: string): (Store, bool) {
    if VerifyPassword(s, u, given) then (s.(passwords := s.passwords[u := replacement]), true) else (s, false)
  }

  lemma {:induction false} StorableUntil(pubs: seq<Bytes>, i: nat)
    requires i <= |pubs| && [] !in pubs[..i] && (i < |pubs| ==> pubs[i] == [])
    ensures Storable(pubs) == pubs[..i]
    decreases i
  {
    if i > 0 {
      assert pubs[..i][0] == pubs[0] && pubs[1..][..i - 1] == pubs[..i][1..];
      StorableUntil(pubs[1..], i - 1);
    }
  }

  class UserStore {
    var identities: map<UserId, Bytes>
    var passwords: map<UserId, string>
    var signed: map<UserId, SignedPrekey>
    var opks: map<nat, Opk>
    var nextId: nat

    ghost function State(): Store
      reads this
    {
      Store(identities, passwords, signed, opks, nextId)
    }

    constructor ()
      ensures State() == EMPTY_STORE
    {
      identities, passwords, signed, opks, nextId := map[], map[], map[], map[], 1;
    }

    method ClearKeys(u: UserId)
      modifies this`signed, this`opks
      ensures State() == ClearKeyMaterial(old(State()), u)
    {
      signed := signed - {u};
      opks := map i | i in opks && opks[i].user != u :: opks[i];
    }

    method AddOpk(u: UserId, pub: Bytes)
      modifies this`opks, this`nextId
      ensures State() == StoreOpk(old(State()), u, pub)
    {
      opks := opks[nextId := Opk(u, pub, false)];
      nextId := nextId + 1;
    }

    /** Looks for an unused prekey of the user, in no particular order, and marks it as used. */
    method ConsumeOpk(u: UserId) returns (found: Option<nat>)
      modifies this`opks
      ensures MayFind(old(State()), u, found)
      ensures State() == MarkUsed(old(State()), found)
    {
      var pending := opks.Keys;
      while pending != {}
        invariant pending <= opks.Keys && opks == old(opks)
        invariant forall i | i in opks && i !in pending :: !IsUnused(old(State()), u, i)
        decreases |pending|
      {
        var i :| i in pending;
        pending := pending - {i};
        if opks[i].user == u && !opks[i].used {
          opks := opks[i := opks[i].(used := true)];
          return Some(i);
        }
      }
      return None;
    }

    method HandleAuth(u: UserId, key: Bytes, spk: Option<SignedPrekey>, password: string) returns (result: AuthResult)
      modifies this
      ensures result == Verdict(old(State()), u, key, password)
      ensures State() == Authenticate(old(State()), u, key, spk, password)
    {
      if u !in identities {
        identities := identities[u := key];
        if spk.Some? {
          signed := signed[u := spk.value];
        }
        if password != "" {
          passwords := passwords[u := password];
        }
        return Registered;
      }
      if identities[u] != key {
        if password == "" || u !in passwords {
          return KeyMismatch;
        }
        if passwords[u] != password {
          return WrongPassword;
        }
        ClearKeys(u);
        identities := identities[u := key];
        if spk.Some? {
          signed := signed[u := spk.value];
        }
        return Recovered;
      }
      if password != "" && u !in passwords {
        passwords := passwords[u := password];
        return Backfilled;
      }
      return Verified;
    }

    /** Stores the keys one by one; an empty one is an exception. */
    method HandleKeyUpload(u: UserId, spk: Option<SignedPrekey>, pubs: seq<Bytes>) returns (completed: bool)
      modifies this
      ensures State() == Upload(old(State()), u, spk, pubs)
      ensures completed <==> [] !in pubs
    {
      if spk.Some? {
        signed := signed[u := spk.value];
      }
      ghost var s := Upsert(old(State()), u, spk);
      for i := 0 to |pubs|
        invariant State() == StoreOpks(s, u, pubs[..i]) && [] !in pubs[..i]
      {
        if pubs[i] == [] {
          StorableUntil(pubs, i);
          return false;
        }
        assert pubs[..i + 1][..i] == pubs[..i];
        AddOpk(u, pubs[i]);
      }
      assert pubs[..|pubs|] == pubs;
      StorableUntil(pubs, |pubs|);
      return true;
    }

    method HandleKeyRequest(u: UserId) returns (bundle: Option<Bundle>, found: Option<nat>)
      modifies this`opks
      ensures u in identities ==> MayFind(old(State()), u, found)
      ensures (State(), bundle) == Request(old(State()), u, found)
    {
      if u !in identities {
        return None, None;
      }
      var spk := if u in signed then Some(signed[u]) else None;
      found := ConsumeOpk(u);
      var oneTime := None;
      if found.Some? && opks[found.value].pub != [] {
        oneTime := Some(opks[found.value].pub);
      }
      return Some(Bundle(identities[u], spk, oneTime)), found;
    }
  }

  // ----- Runs with their history ---------------------------------------------------------------

  datatype Step =
    | AuthStep(session: SessionId, user: UserId, key: Bytes, spk: Option<SignedPrekey>, password: string)
    | UploadStep(session: SessionId, spk: Option<SignedPrekey>, pubs: seq<Bytes>)
    | RequestStep(target: UserId, found: Option<nat>)
    | PasswordStep(session: SessionId, given: string, replacement: string)
    | ReportStep(session: SessionId)

  /** A session that has authenticated, and the key it has proved to hold. */
  datatype Login = Login(user: UserId, key: Bytes)

  /** When a key was stored, and by a session holding which identity key. */
  datatype Stamp = Stamp(at: nat, holder: Bytes)

  /** The store with its history: the number of steps so far, when each identity key was set, the stamps
      of the prekeys, and which one-time prekeys have been served or cleared unused; and the registry. A
      session that is reported gone leaves the registry, but goes on to be served while it is open. */
  datatype History = History(
    store: Store,
    logins: map<SessionId, Login>,
    clock: nat,
    identitySince: map<UserId, nat>,
    signedStamps: map<UserId, Stamp>,
    opkStamps: map<nat, Stamp>,
    served: seq<nat>,
    cleared: set<nat>,
    registry: R.Registry)

  const START := History(EMPTY_STORE, map[], 0, map[], map[], map[], [], {}, R.EMPTY_REGISTRY)

  function UnusedIds(s: Store): set<nat> {
    set i | i in s.opks && !s.opks[i].used
  }

  function UnusedIdsOf(s: Store, u: UserId): set<nat> {
    set i | i in s.opks && s.opks[i].user == u && !s.opks[i].used
  }

  function StampOpks(stamps: map<nat, Stamp>, lo: nat, n: nat, stamp: Stamp): (r: map<nat, Stamp>)
    ensures forall i :: i in r <==> i in stamps || lo <= i < lo + n
    ensures forall i | i in r :: r[i] == if lo <= i < lo + n then stamp else stamps[i]
  {
    if n == 0 then stamps else StampOpks(stamps, lo, n - 1, stamp)[lo + n - 1 := stamp]
  }

  function StampSigned(stamps: map<UserId, Stamp>, u: UserId, spk: Option<SignedPrekey>,
                       stamp: Stamp): map<UserId, Stamp>
  {
    if spk.Some? then stamps[u := stamp] else stamps
  }

  function NextAuth(h: History, session: SessionId, u: UserId, key: Bytes, spk: Option<SignedPrekey>,
                    password: string): History
  {
    var verdict := Verdict(h.store, u, key, password);
    if verdict in {WrongPassword, KeyMismatch} then h
    else
      var h' := h.(store := Authenticate(h.store, u, key, spk, password),
                   logins := h.logins[session := Login(u, key)],
                   registry := R.Register(h.registry, u, session));
      if verdict in {Verified, Backfilled} then h'
      else
        h'.(identitySince := h.identitySince[u := h.clock],
            signedStamps := StampSigned(h.signedStamps, u, spk, Stamp(h.clock, key)),
            cleared := if verdict == Recovered then h.cleared + UnusedIdsOf(h.store, u) else h.cleared)
  }

  function NextUpload(h: History, u: UserId, key: Bytes, spk: Option<SignedPrekey>, pubs: seq<Bytes>): History {
    h.(store := Upload(h.store, u, spk, pubs),
       signedStamps := StampSigned(h.signedStamps, u, spk, Stamp(h.clock, key)),
       opkStamps := StampOpks(h.opkStamps, h.store.nextId, |Storable(pubs)|, Stamp(h.clock, key)))
  }

  function NextRequest(h: History, target: UserId, found: Option<nat>): History {
    h.(store := Request(h.store, target, found).0,
       served := if target in h.store.identities && found.Some? then h.served + [found.value] else h.served)
  }

  function Act(h: History, step: Step): History {
    match step
    case AuthStep(s, u, key, spk, password) => NextAuth(h, s, u, key, spk, password)
    case UploadStep(s, spk, pubs) =>
      if s in h.logins then NextUpload(h, h.logins[s].user, h.logins[s].key, spk, pubs) else h
    case RequestStep(target, found) => NextRequest(h, target, found)
    case PasswordStep(s, given, replacement) =>
      if s in h.logins then h.(store := UpdatePassword(h.store, h.logins[s].user, given, replacement).0) else h
    case ReportStep(s) => h.(registry := R.Unregister(h.registry, s))
  }

  function Next(h: History, step: Step): History {
    Act(h, step).(clock := h.clock + 1)
  }

  function Run(steps: seq<Step>): History {
    if steps == [] then START else Next(Run(steps[..|steps| - 1]), steps[|steps| - 1])
  }

  /** A request finds what the query may find. */
  ghost predicate Legal(h: History, step: Step) {
    step.RequestStep? ==> MayFind(h.store, step.target, step.found)
  }

  ghost predicate LegalRun(steps: seq<Step>) {
    forall i | 0 <= i < |steps| :: Legal(Run(steps[..i]), steps[i])
  }

  lemma LegalPrefix(steps: seq<Step>)
    requires LegalRun(steps) && steps != []
    ensures LegalRun(steps[..|steps| - 1]) && Legal(Run(steps[..|steps| - 1]), steps[|steps| - 1])
  {
    var prefix := steps[..|steps| - 1];
    forall i | 0 <= i < |prefix| ensures Legal(Run(prefix[..i]), prefix[i]) {
      assert prefix[..i] == steps[..i];
    }
  }

  // ----- Prekey epochs ---------------------------------------------------------------------------

  /** Ids lie below the next id, and every row belongs to a known user. */
  ghost predicate Tabled(s: Store) {
    && s.nextId >= 1
    && (forall i | i in s.opks :: 1 <= i < s.nextId && s.opks[i].user in s.identities)
    && (forall u | u in s.signed :: u in s.identities)
  }

  ghost predicate LoginsKnown(h: History) {
    forall l | l in h.logins :: h.logins[l].user in h.store.identities
  }

  /** Every stored prekey was stored no earlier than its user's identity key was last set. */
  ghost predicate InEpoch(h: History) {
    && (forall u | u in h.store.identities :: u in h.identitySince && h.identitySince[u] <= h.clock)
    && (forall u | u in h.store.signed :: u in h.signedStamps && Since(h, u) <= h.signedStamps[u].at)
    && (forall i | i in h.store.opks :: i in h.opkStamps && Since(h, h.store.opks[i].user) <= h.opkStamps[i].at)
  }

  function Since(h: History, u: UserId): nat {
    if u in h.identitySince then h.identitySince[u] else 0
  }

  /** Every stored prekey was stored by a session that had proved to hold the current identity key. */
  ghost predicate Genuine(h: History) {
    && (forall u | u in h.store.signed :: u in h.signedStamps && HeldBy(h.store, u, h.signedStamps[u]))
    && (forall i | i in h.store.opks :: i in h.opkStamps && HeldBy(h.store, h.store.opks[i].user, h.opkStamps[i]))
  }

  predicate HeldBy(s: Store, u: UserId, stamp: Stamp) {
    u in s.identities && s.identities[u] == stamp.holder
  }

  /** What one step may do to identity keys and prekeys: `u` may get the new identity key `key`, and then
      none of its older prekeys stay; and prekeys of `u` may be stored under the stamp of this step. */
  ghost predicate Moves(h: History, h': History, u: UserId, key: Bytes, renewed: bool) {
    IdentitiesMove(h, h', u, key, renewed) && SignedMove(h, h', u, key, renewed) && OpksMove(h, h', u, key, renewed)
  }

  ghost predicate IdentitiesMove(h: History, h': History, u: UserId, key: Bytes, renewed: bool) {
    var s, s' := h.store, h'.store;
    && (forall v | v in s.identities :: v in s'.identities)
    && (forall v | v in s'.identities && !(renewed && v == u) ::
          v in s.identities && s'.identities[v] == s.identities[v] && SameSince(h, h', v))
    && (renewed ==>
          && u in s'.identities && s'.identities[u] == key
          && u in h'.identitySince && h'.identitySince[u] == h.clock)
  }

  ghost predicate SameSince(h: History, h': History, v: UserId) {
    v in h.identitySince ==> v in h'.identitySince && h'.identitySince[v] == h.identitySince[v]
  }

  ghost predicate SignedMove(h: History, h': History, u: UserId, key: Bytes, renewed: bool) {
    forall v | v in h'.store.signed ::
      || (v in h.store.signed && !(renewed && v == u) && (v in h.signedStamps ==>
            v in h'.signedStamps && h'.signedStamps[v] == h.signedStamps[v]))
      || (v == u && v in h'.signedStamps && h'.signedStamps[v] == Stamp(h.clock, key))
  }

  ghost predicate OpksMove(h: History, h': History, u: UserId, key: Bytes, renewed: bool) {
    && h.store.nextId <= h'.store.nextId
    && forall i | i in h'.store.opks ::
         var v := h'.store.opks[i].user;
         || (i in h.store.opks && h.store.opks[i].user == v && !(renewed && v == u) && (i in h.opkStamps ==>
               i in h'.opkStamps && h'.opkStamps[i] == h.opkStamps[i]))
         || (v == u && h.store.nextId <= i < h'.store.nextId
             && i in h'.opkStamps && h'.opkStamps[i] == Stamp(h.clock, key))
  }

  lemma MovesTabled(h: History, h': History, u: UserId, key: Bytes, renewed: bool)
    requires Tabled(h.store) && Moves(h, h', u, key, renewed) && u in h'.store.identities
    ensures Tabled(h'.store)
  {
  }

  lemma MovesInEpoch(h: History, h': History, u: UserId, key: Bytes, renewed: bool)
    requires Tabled(h.store) && InEpoch(h) && Moves(h, h', u, key, renewed)
    requires u in h'.store.identities && h'.clock >= h.clock
    ensures InEpoch(h')
  {
  }

  lemma MovesGenuine(h: History, h': History, u: UserId, key: Bytes, renewed: bool)
    requires Tabled(h.store) && Genuine(h) && Moves(h, h', u, key, renewed)
    requires u in h'.store.identities && h'.store.identities[u] == key
    ensures Genuine(h')
  {
  }

  predicate Renews(v: AuthResult) {
    v == Registered || v == Recovered
  }

  predicate Admits(v: AuthResult) {
    v != WrongPassword && v != KeyMismatch
  }

  /** Setting a new identity key, after the rows of `u` are gone. */
  lemma RenewedMoves(h: History, h': History, u: UserId, key: Bytes, spk: Option<SignedPrekey>)
    requires h'.store.identities == h.store.identities[u := key] && h'.identitySince == h.identitySince[u := h.clock]
    requires h'.store.signed == Upsert(h.store.(signed := h.store.signed - {u}), u, spk).signed
    requires h'.signedStamps == StampSigned(h.signedStamps, u, spk, Stamp(h.clock, key))
    requires h'.store.nextId == h.store.nextId && h'.opkStamps == h.opkStamps
    requires forall i | i in h'.store.opks ::
      i in h.store.opks && h'.store.opks[i] == h.store.opks[i] && h'.store.opks[i].user != u
    ensures Moves(h, h', u, key, true)
  {
  }

  /** A user that is not in the table has no rows, so there is nothing to be gone. */
  lemma RegisteredRows(s: Store, u: UserId, key: Bytes, spk: Option<SignedPrekey>, password: string)
    requires Tabled(s) && Verdict(s, u, key, password) == Registered
    ensures var s' := Authenticate(s, u, key, spk, password);
      && s'.identities == s.identities[u := key]
      && s'.signed == Upsert(s.(signed := s.signed - {u}), u, spk).signed
      && s'.nextId == s.nextId && s'.opks == s.opks
      && forall i | i in s'.opks :: s'.opks[i].user != u
  {
    assert s.signed - {u} == s.signed;
  }

  lemma RegisteredMoves(h: History, session: SessionId, u: UserId, key: Bytes, spk: Option<SignedPrekey>,
                        password: string)
    requires Tabled(h.store) && Verdict(h.store, u, key, password) == Registered
    ensures Moves(h, NextAuth(h, session, u, key, spk, password), u, key, true)
  {
    RegisteredRows(h.store, u, key, spk, password);
    RenewedMoves(h, NextAuth(h, session, u, key, spk, password), u, key, spk);
  }

  lemma RecoveredMoves(h: History, session: SessionId, u: UserId, key: Bytes, spk: Option<SignedPrekey>,
                       password: string)
    requires Verdict(h.store, u, key, password) == Recovered
    ensures Moves(h, NextAuth(h, session, u, key, spk, password), u, key, true)
  {
    RenewedMoves(h, NextAuth(h, session, u, key, spk, password), u, key, spk);
  }

  lemma StayingMoves(h: History, session: SessionId, u: UserId, key: Bytes, spk: Option<SignedPrekey>, password: string)
    requires Verdict(h.store, u, key, password) in {Verified, Backfilled}
    ensures Moves(h, NextAuth(h, session, u, key, spk, password), u, key, false)
  {
    var s' := NextAuth(h, session, u, key, spk, password).store;
    assert s'.identities == h.store.identities && s'.signed == h.store.signed && s'.opks == h.store.opks;
  }

  lemma AuthenticateSettles(s: Store, u: UserId, key: Bytes, spk: Option<SignedPrekey>, password: string)
    requires Admits(Verdict(s, u, key, password))
    ensures var s' := Authenticate(s, u, key, spk, password);
      u in s'.identities && s'.identities[u] == key
  {
  }

  /** Who has been let in is known under the key presented. */
  lemma AuthSettles(h: History, session: SessionId, u: UserId, key: Bytes, spk: Option<SignedPrekey>, password: string)
    requires Admits(Verdict(h.store, u, key, password))
    ensures var h' := NextAuth(h, session, u, key, spk, password);
      && u in h'.store.identities && h'.store.identities[u] == key
      && h'.clock == h.clock && h'.logins == h.logins[session := Login(u, key)]
  {
    AuthenticateSettles(h.store, u, key, spk, password);
    assert NextAuth(h, session, u, key, spk, password).store == Authenticate(h.store, u, key, spk, password);
  }

  lemma AuthMoves(h: History, session: SessionId, u: UserId, key: Bytes, spk: Option<SignedPrekey>, password: string)
    requires Tabled(h.store) && Admits(Verdict(h.store, u, key, password))
    ensures Moves(h, NextAuth(h, session, u, key, spk, password), u, key, Renews(Verdict(h.store, u, key, password)))
  {
    match Verdict(h.store, u, key, password)
    case Registered => RegisteredMoves(h, session, u, key, spk, password);
    case Recovered => RecoveredMoves(h, session, u, key, spk, password);
    case Backfilled => StayingMoves(h, session, u, key, spk, password);
    case Verified => StayingMoves(h, session, u, key, spk, password);
  }

  lemma UploadMoves(h: History, u: UserId, key: Bytes, spk: Option<SignedPrekey>, pubs: seq<Bytes>)
    requires Tabled(h.store)
    ensures Moves(h, NextUpload(h, u, key, spk, pubs), u, key, false)
    ensures NextUpload(h, u, key, spk, pubs).store.identities == h.store.identities
  {
  }

  lemma RequestMoves(h: History, target: UserId, found: Option<nat>, u: UserId, key: Bytes)
    ensures Moves(h, NextRequest(h, target, found), u, key, false)
    ensures NextRequest(h, target, found).store.identities == h.store.identities
  {
  }

  lemma PasswordMoves(h: History, user: UserId, given: string, replacement: string, u: UserId, key: Bytes)
    ensures Moves(h, h.(store := UpdatePassword(h.store, user, given, replacement).0), u, key, false)
  {
  }

  /** A known user's identity key changes only when that very user authenticates with another key and
      the password on file; the old prekeys are gone then. */
  lemma IdentityChangesOnlyByPassword(h: History, step: Step, u: UserId)
    requires Tabled(h.store) && u in h.store.identities
    ensures var s, s' := h.store, Next(h, step).store;
      && u in s'.identities
      && (s'.identities[u] != s.identities[u] ==>
            && step.AuthStep? && step.user == u && step.key == s'.identities[u]
            && step.password != "" && VerifyPassword(s, u, step.password)
            && (forall i | i in s'.opks :: s'.opks[i].user != u)
            && (u in s'.signed ==> step.spk == Some(s'.signed[u])))
  {
    match step
    case AuthStep(_, v, key, spk, password) => AuthenticateChanges(h.store, v, key, spk, password, u);
    case UploadStep(_, _, _) =>
    case RequestStep(_, _) =>
    case PasswordStep(_, _, _) =>
    case ReportStep(_) =>
  }

  lemma AuthenticateChanges(s: Store, v: UserId, key: Bytes, spk: Option<SignedPrekey>, password: string, u: UserId)
    requires u in s.identities
    ensures var s' := Authenticate(s, v, key, spk, password);
      && u in s'.identities
      && (s'.identities[u] != s.identities[u] ==>
            && v == u && s'.identities[u] == key
            && password != "" && VerifyPassword(s, u, password)
            && (forall i | i in s'.opks :: s'.opks[i].user != u)
            && (u in s'.signed ==> spk == Some(s'.signed[u])))
  {
    var s' := Authenticate(s, v, key, spk, password);
    if v == u && Verdict(s, v, key, password) == Recovered {
      var cleared := ClearKeyMaterial(s, u);
      assert s'.opks == cleared.opks && u !in cleared.signed;
      assert s'.signed == if spk.Some? then cleared.signed[u := spk.value] else cleared.signed;
    }
  }

  lemma AuthKeepsPassword(s: Store, v: UserId, key: Bytes, spk: Option<SignedPrekey>, password: string, u: UserId)
    requires u in s.passwords && u in s.identities
    ensures var s' := Authenticate(s, v, key, spk, password); u in s'.passwords && s'.passwords[u] == s.passwords[u]
  {
  }

  /** A password, once set, is changed only by a session of its user that gives the old one. */
  lemma PasswordChangesOnlyByPassword(h: History, step: Step, u: UserId)
    requires u in h.store.passwords && u in h.store.identities
    ensures var s, s' := h.store, Next(h, step).store;
      && u in s'.passwords
      && (s'.passwords[u] != s.passwords[u] ==>
            && step.PasswordStep? && step.session in h.logins && h.logins[step.session].user == u
            && VerifyPassword(s, u, step.given) && s'.passwords[u] == step.replacement)
  {
    match step
    case AuthStep(_, v, key, spk, password) => AuthKeepsPassword(h.store, v, key, spk, password, u);
    case UploadStep(_, _, _) =>
    case RequestStep(_, _) =>
    case PasswordStep(_, _, _) =>
    case ReportStep(_) =>
  }

  // ----- The steps keep the epochs ------------------------------------------------------------

  ghost predicate Epochal(h: History) {
    Tabled(h.store) && LoginsKnown(h) && InEpoch(h)
  }

  lemma MovesEpochal(h: History, h': History, u: UserId, key: Bytes, renewed: bool)
    requires Epochal(h) && Moves(h, h', u, key, renewed) && u in h'.store.identities && h'.clock == h.clock
    requires forall l | l in h'.logins ::
      (l in h.logins && h.logins[l] == h'.logins[l]) || h'.logins[l] == Login(u, key)
    ensures Epochal(h')
  {
    MovesTabled(h, h', u, key, renewed);
    MovesInEpoch(h, h', u, key, renewed);
  }

  /** Time passing moves no rows. */
  lemma TickKeeps(h: History, h': History)
    requires h' == h.(clock := h.clock + 1)
    ensures Epochal(h) ==> Epochal(h')
    ensures Genuine(h) <==> Genuine(h')
  {
  }

  lemma AuthEpochal(h: History, session: SessionId, u: UserId, key: Bytes, spk: Option<SignedPrekey>, password: string)
    requires Epochal(h)
    ensures Epochal(NextAuth(h, session, u, key, spk, password))
  {
    var verdict := Verdict(h.store, u, key, password);
    if Admits(verdict) {
      AuthMoves(h, session, u, key, spk, password);
      AuthSettles(h, session, u, key, spk, password);
      MovesEpochal(h, NextAuth(h, session, u, key, spk, password), u, key, Renews(verdict));
    }
  }

  lemma UploadEpochal(h: History, u: UserId, key: Bytes, spk: Option<SignedPrekey>, pubs: seq<Bytes>)
    requires Epochal(h) && u in h.store.identities
    ensures Epochal(NextUpload(h, u, key, spk, pubs))
  {
    UploadMoves(h, u, key, spk, pubs);
    MovesEpochal(h, NextUpload(h, u, key, spk, pubs), u, key, false);
  }

  lemma RequestEpochal(h: History, target: UserId, found: Option<nat>)
    requires Epochal(h)
    ensures Epochal(NextRequest(h, target, found))
  {
    if target in h.store.identities {
      RequestMoves(h, target, found, target, []);
      MovesEpochal(h, NextRequest(h, target, found), target, [], false);
    }
  }

  lemma PasswordEpochal(h: History, user: UserId, given: string, replacement: string)
    requires Epochal(h) && user in h.store.identities
    ensures Epochal(h.(store := UpdatePassword(h.store, user, given, replacement).0))
  {
    PasswordMoves(h, user, given, replacement, user, []);
    MovesEpochal(h, h.(store := UpdatePassword(h.store, user, given, replacement).0), user, [], false);
  }

  lemma NextEpochal(h: History, step: Step)
    requires Epochal(h)
    ensures Epochal(Next(h, step))
  {
    match step {
      case AuthStep(s, u, key, spk, password) => AuthEpochal(h, s, u, key, spk, password);
      case UploadStep(s, spk, pubs) =>
        if s in h.logins {
          UploadEpochal(h, h.logins[s].user, h.logins[s].key, spk, pubs);
        }
      case RequestStep(target, found) => RequestEpochal(h, target, found);
      case PasswordStep(s, given, replacement) =>
        if s in h.logins {
          PasswordEpochal(h, h.logins[s].user, given, replacement);
        }
      case ReportStep(_) =>
    }
    TickKeeps(Act(h, step), Next(h, step));
  }

  /** In every run every stored prekey belongs to the current epoch of its user. */
  lemma {:induction false} RunInEpoch(steps: seq<Step>)
    ensures Epochal(Run(steps))
    decreases |steps|
  {
    if steps != [] {
      RunInEpoch(steps[..|steps| - 1]);
      NextEpochal(Run(steps[..|steps| - 1]), steps[|steps| - 1]);
    }
  }

  /** A bundle served in any run does not mix epochs: each prekey in it was stored no earlier than the
      identity key it is served with. */
  lemma ServedBundleInEpoch(steps: seq<Step>, u: UserId, found: Option<nat>)
    requires u in Run(steps).store.identities && MayFind(Run(steps).store, u, found)
    ensures var h := Run(steps);
      var bundle := Request(h.store, u, found).1.value;
      && bundle.identity == h.store.identities[u]
      && u in h.identitySince
      && (bundle.signed.Some? ==> u in h.signedStamps && h.identitySince[u] <= h.signedStamps[u].at)
      && (bundle.oneTime.Some? ==>
            && found.Some? && h.store.opks[found.value] == Opk(u, bundle.oneTime.value, false)
            && found.value in h.opkStamps && h.identitySince[u] <= h.opkStamps[found.value].at)
  {
    RunInEpoch(steps);
  }

  // ----- One time means one time ------------------------------------------------------------------

  ghost predicate NoRepeats(ids: seq<nat>) {
    forall i, j | 0 <= i < j < |ids| :: ids[i] != ids[j]
  }

  function IdSet(ids: seq<nat>): set<nat> {
    set i | i in ids
  }

  /** The numbers from `lo` on, `n` of them. */
  function Range(lo: nat, n: nat): (r: set<nat>)
    ensures |r| == n && forall i :: i in r <==> lo <= i < lo + n
  {
    if n == 0 then {} else Range(lo, n - 1) + {lo + n - 1}
  }

  /** Every id ever assigned is unused, served, or was cleared unused, and only one of these. */
  ghost predicate Partition(unused: set<nat>, served: set<nat>, cleared: set<nat>, nextId: nat) {
    && unused !! served && unused !! cleared && served !! cleared
    && (forall i :: i in unused || i in served || i in cleared <==> 1 <= i < nextId)
  }

  ghost predicate Accounted(h: History) {
    NoRepeats(h.served) && Partition(UnusedIds(h.store), IdSet(h.served), h.cleared, h.store.nextId)
  }

  /** Clearing the keys of `u` moves the unused among them to the cleared. */
  lemma ClearingAccounted(s: Store, s': Store, u: UserId, served: set<nat>, cleared: set<nat>)
    requires s'.opks == ClearKeyMaterial(s, u).opks && s'.nextId == s.nextId
    requires Partition(UnusedIds(s), served, cleared, s.nextId)
    ensures Partition(UnusedIds(s'), served, cleared + UnusedIdsOf(s, u), s'.nextId)
  {
    assert forall i :: i in UnusedIds(s) <==> i in UnusedIds(s') || i in UnusedIdsOf(s, u);
  }

  lemma AuthRows(s: Store, u: UserId, key: Bytes, spk: Option<SignedPrekey>, password: string)
    ensures var s' := Authenticate(s, u, key, spk, password);
      && s'.nextId == s.nextId
      && s'.opks == if Verdict(s, u, key, password) == Recovered then ClearKeyMaterial(s, u).opks else s.opks
  {
  }

  lemma AuthAccounted(h: History, session: SessionId, u: UserId, key: Bytes, spk: Option<SignedPrekey>,
                      password: string)
    requires Accounted(h)
    ensures Accounted(NextAuth(h, session, u, key, spk, password))
  {
    var s, s' := h.store, NextAuth(h, session, u, key, spk, password).store;
    AuthRows(s, u, key, spk, password);
    if Verdict(s, u, key, password) == Recovered {
      ClearingAccounted(s, s', u, IdSet(h.served), h.cleared);
    } else {
      assert UnusedIds(s') == UnusedIds(s);
    }
  }

  lemma UploadAccounted(h: History, u: UserId, key: Bytes, spk: Option<SignedPrekey>, pubs: seq<Bytes>)
    requires Tabled(h.store) && Accounted(h)
    ensures Accounted(NextUpload(h, u, key, spk, pubs))
  {
    var s, s' := h.store, NextUpload(h, u, key, spk, pubs).store;
    assert forall i :: i in UnusedIds(s') <==> i in UnusedIds(s) || s.nextId <= i < s'.nextId;
  }

  lemma ServeOne(served: seq<nat>, i: nat)
    requires NoRepeats(served) && i !in served
    ensures NoRepeats(served + [i])
    ensures IdSet(served + [i]) == IdSet(served) + {i}
  {
  }

  lemma RequestAccounted(h: History, target: UserId, found: Option<nat>)
    requires Accounted(h) && MayFind(h.store, target, found)
    ensures Accounted(NextRequest(h, target, found))
  {
    var s, s' := h.store, NextRequest(h, target, found).store;
    if target in s.identities && found.Some? {
      var i := found.value;
      assert i in UnusedIds(s) && i !in IdSet(h.served);
      ServeOne(h.served, i);
      assert forall j :: j in UnusedIds(s') <==> j in UnusedIds(s) && j != i;
    }
  }

  lemma {:induction false} RunAccounted(steps: seq<Step>)
    requires LegalRun(steps)
    ensures Accounted(Run(steps))
    decreases |steps|
  {
    if steps != [] {
      var h, step := Run(steps[..|steps| - 1]), steps[|steps| - 1];
      LegalPrefix(steps);
      RunAccounted(steps[..|steps| - 1]);
      RunInEpoch(steps[..|steps| - 1]);
      match step {
        case AuthStep(s, u, key, spk, password) => AuthAccounted(h, s, u, key, spk, password);
        case UploadStep(s, spk, pubs) =>
          if s in h.logins {
            UploadAccounted(h, h.logins[s].user, h.logins[s].key, spk, pubs);
          }
        case RequestStep(target, found) => RequestAccounted(h, target, found);
        case PasswordStep(_, _, _) =>
        case ReportStep(_) =>
      }
    }
  }

  lemma {:induction false} IdSetSize(ids: seq<nat>)
    requires NoRepeats(ids)
    ensures |IdSet(ids)| == |ids|
    decreases |ids|
  {
    if ids != [] {
      var last, rest := ids[|ids| - 1], ids[..|ids| - 1];
      IdSetSize(rest);
      assert ids == rest + [last];
      assert IdSet(ids) == IdSet(rest) + {last};
    }
  }

  lemma PartitionSize(unused: set<nat>, served: set<nat>, cleared: set<nat>, nextId: nat)
    requires nextId >= 1 && Partition(unused, served, cleared, nextId)
    ensures |unused| + |served| + |cleared| == nextId - 1
  {
    assert unused + served + cleared == Range(1, nextId - 1);
    assert (unused + served) !! cleared;
  }

  /** In every run each one-time prekey is served at most once and never after it was cleared, and the
      number stored is the number unused plus the number served plus the number cleared unused. */
  lemma OneTimeKeysConserved(steps: seq<Step>)
    requires LegalRun(steps)
    ensures var h := Run(steps);
      && NoRepeats(h.served)
      && (forall i | i in h.served :: i !in h.cleared && i !in UnusedIds(h.store))
      && h.store.nextId - 1 == |UnusedIds(h.store)| + |h.served| + |h.cleared|
  {
    RunAccounted(steps);
    RunInEpoch(steps);
    var h := Run(steps);
    IdSetSize(h.served);
    PartitionSize(UnusedIds(h.store), IdSet(h.served), h.cleared, h.store.nextId);
    assert forall i | i in h.served :: i in IdSet(h.served);
  }

  // ----- Keys of an old identity --------------------------------------------------------------------

  lemma StaleUpload(h: History, u: UserId, key: Bytes, spk: Option<SignedPrekey>, pubs: seq<Bytes>)
    requires spk.Some? || Storable(pubs) != []
    requires u in h.store.identities && h.store.identities[u] != key
    ensures !Genuine(NextUpload(h, u, key, spk, pubs))
  {
    var h' := NextUpload(h, u, key, spk, pubs);
    if Storable(pubs) != [] {
      var n := h.store.nextId;
      assert n in h'.store.opks && h'.store.opks[n].user == u && h'.opkStamps[n] == Stamp(h.clock, key);
    } else {
      assert u in h'.store.signed && h'.signedStamps[u] == Stamp(h.clock, key);
    }
  }

  /** An upload keeps every stored prekey genuine exactly when it stores nothing or comes from a session
      that authenticated with the key that is on file now. */
  lemma UploadGenuineIff(h: History, u: UserId, key: Bytes, spk: Option<SignedPrekey>, pubs: seq<Bytes>)
    requires Tabled(h.store) && Genuine(h) && u in h.store.identities
    ensures Genuine(NextUpload(h, u, key, spk, pubs)) <==>
      (spk.None? && Storable(pubs) == []) || h.store.identities[u] == key
  {
    if spk.None? && Storable(pubs) == [] {
      EmptyUpload(h, u, key, pubs);
    } else if h.store.identities[u] == key {
      UploadMoves(h, u, key, spk, pubs);
      MovesGenuine(h, NextUpload(h, u, key, spk, pubs), u, key, false);
    } else {
      StaleUpload(h, u, key, spk, pubs);
    }
  }

  lemma EmptyUpload(h: History, u: UserId, key: Bytes, pubs: seq<Bytes>)
    requires Storable(pubs) == []
    ensures NextUpload(h, u, key, None, pubs) == h
  {
  }

  /** The other steps always keep them genuine. */
  lemma OthersKeepGenuine(h: History, step: Step)
    requires Tabled(h.store) && Genuine(h) && !step.UploadStep?
    ensures Genuine(Next(h, step))
  {
    match step {
      case AuthStep(s, u, key, spk, password) =>
        var verdict := Verdict(h.store, u, key, password);
        if Admits(verdict) {
          AuthMoves(h, s, u, key, spk, password);
          AuthSettles(h, s, u, key, spk, password);
          MovesGenuine(h, NextAuth(h, s, u, key, spk, password), u, key, Renews(verdict));
        }
      case RequestStep(target, found) =>
        if target in h.store.identities {
          var key := h.store.identities[target];
          RequestMoves(h, target, found, target, key);
          MovesGenuine(h, NextRequest(h, target, found), target, key, false);
        }
      case PasswordStep(_, _, _) =>
      case ReportStep(_) =>
    }
    TickKeeps(Act(h, step), Next(h, step));
  }

  /** An upload that stores something, from a session that has not proved to hold the key on file. */
  predicate UploadsStale(h: History, step: Step) {
    && step.UploadStep? && step.session in h.logins
    && (step.spk.Some? || Storable(step.pubs) != [])
    && !HeldBy(h.store, h.logins[step.session].user, Stamp(h.clock, h.logins[step.session].key))
  }

  lemma StepGenuineIff(h: History, step: Step)
    requires Epochal(h) && Genuine(h)
    ensures Genuine(Next(h, step)) <==> !UploadsStale(h, step)
  {
    if step.UploadStep? {
      TickKeeps(Act(h, step), Next(h, step));
      if step.session in h.logins {
        UploadGenuineIff(h, h.logins[step.session].user, h.logins[step.session].key, step.spk, step.pubs);
      }
    } else {
      OthersKeepGenuine(h, step);
    }
  }

  /** In every run in which there was no such upload before the last step, every stored prekey comes from a
      session that proved to hold its user's present identity key exactly if the last step is none. */
  lemma {:induction false} GenuineInRunsIff(steps: seq<Step>)
    requires forall i | 0 <= i < |steps| - 1 :: !UploadsStale(Run(steps[..i]), steps[i])
    ensures Genuine(Run(steps)) <==>
      (steps == [] || !UploadsStale(Run(steps[..|steps| - 1]), steps[|steps| - 1]))
    decreases |steps|
  {
    if steps != [] {
      var prefix := steps[..|steps| - 1];
      forall i | 0 <= i < |prefix| ensures !UploadsStale(Run(prefix[..i]), prefix[i]) {
        assert prefix[..i] == steps[..i] && prefix[i] == steps[i];
        assert !UploadsStale(Run(steps[..i]), steps[i]);
      }
      GenuineInRunsIff(prefix);
      RunInEpoch(prefix);
      StepGenuineIff(Run(prefix), steps[|steps| - 1]);
    }
  }

  lemma RunSnoc(steps: seq<Step>, step: Step)
    ensures Run(steps + [step]) == Next(Run(steps), step)
  {
    assert (steps + [step])[..|steps|] == steps;
  }

  /** Every authentication finds the nickname available, as the handler checks before anything else. */
  ghost predicate Admissible(steps: seq<Step>) {
    forall i | 0 <= i < |steps| && steps[i].AuthStep? :: R.Available(Run(steps[..i]).registry, steps[i].user, "")
  }

  lemma AdmissibleSnoc(steps: seq<Step>, step: Step)
    requires Admissible(steps)
    requires step.AuthStep? ==> R.Available(Run(steps).registry, step.user, "")
    ensures Admissible(steps + [step])
  {
    var longer := steps + [step];
    forall i | 0 <= i < |longer| && longer[i].AuthStep?
      ensures R.Available(Run(longer[..i]).registry, longer[i].user, "")
    {
      assert longer[..i] == steps[..i];
      assert steps[..|steps|] == steps;
    }
  }

  function FirstLogin(u: UserId, key: Bytes, password: string): Step {
    AuthStep(1, u, key, None, password)
  }

  lemma AfterFirstLogin(u: UserId, key: Bytes, password: string)
    requires password != ""
    ensures Admissible([FirstLogin(u, key, password)])
    ensures var h := Run([FirstLogin(u, key, password)]);
      && u in h.store.identities && h.store.identities[u] == key && VerifyPassword(h.store, u, password)
      && 1 in h.logins && h.logins[1] == Login(u, key)
      && h.registry == R.Registry(map[u := 1], map[1 := u])
  {
    var step := FirstLogin(u, key, password);
    assert [] + [step] == [step];
    RunSnoc([], step);
    AdmissibleSnoc([], step);
  }

  /** Session 1 is reported gone, after a ping timeout for example, which leaves it open. */
  lemma AfterReport(u: UserId, key: Bytes, password: string)
    requires password != ""
    ensures var steps := [FirstLogin(u, key, password)] + [ReportStep(1)];
      && Admissible(steps)
      && Run(steps).store == Run([FirstLogin(u, key, password)]).store
      && Run(steps).logins == Run([FirstLogin(u, key, password)]).logins
      && Run(steps).registry.byUser == map[]
  {
    AfterFirstLogin(u, key, password);
    RunSnoc([FirstLogin(u, key, password)], ReportStep(1));
    AdmissibleSnoc([FirstLogin(u, key, password)], ReportStep(1));
  }

  lemma SecondLogin(h: History, u: UserId, key: Bytes, password: string)
    requires u in h.store.identities && h.store.identities[u] != key
    requires password != "" && VerifyPassword(h.store, u, password)
    requires 1 in h.logins
    ensures var h' := Next(h, AuthStep(2, u, key, None, password));
      && u in h'.store.identities && h'.store.identities[u] == key
      && 1 in h'.logins && h'.logins[1] == h.logins[1]
  {
  }

  /** It can happen: a session is reported gone but stays open, its user comes back with another identity
      key and the password, and the old session goes on to upload a prekey made for the old key. */
  lemma StaleSessionUpload(u: UserId, old': Bytes, new': Bytes, password: string, pub: Bytes)
    requires old' != new' && password != "" && pub != []
    ensures var steps := [FirstLogin(u, old', password)] + [ReportStep(1)] + [AuthStep(2, u, new', None, password)];
      var all := steps + [UploadStep(1, None, [pub])];
      Admissible(all) && !Genuine(Run(all)) && InEpoch(Run(all))
  {
    var reported := [FirstLogin(u, old', password)] + [ReportStep(1)];
    var third, fourth := AuthStep(2, u, new', None, password), UploadStep(1, None, [pub]);
    AfterFirstLogin(u, old', password);
    AfterReport(u, old', password);
    RunSnoc(reported, third);
    AdmissibleSnoc(reported, third);
    SecondLogin(Run(reported), u, new', password);
    var steps := reported + [third];
    RunSnoc(steps, fourth);
    AdmissibleSnoc(steps, fourth);
    assert Storable([pub]) == [pub] + Storable([]);
    StaleUpload(Run(steps), u, old', None, [pub]);
    TickKeeps(Act(Run(steps), fourth), Next(Run(steps), fourth));
    RunInEpoch(steps + [fourth]);
  }
}
