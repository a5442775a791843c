/** The key tables of a run, told from the requests alone: one account per user, and the one-time prekeys in the
    order in which they were stored. Every bundle served is made of these. */
module KeyRuns {
  import opened Base
  import opened KeyStores

  /** What the server has on file for one user. */
  datatype Account = Account(key: Option<Bytes>, password: Option<string>, signed: Option<SignedPrekey>)

  const NO_ACCOUNT := Account(None, None, None)

  /** A user gets in who is new, or presents the key on file, or the password on file. */
  predicate GetsIn(a: Account, key: Bytes, password: string) {
    a.key == None || a.key == Some(key) || (password != "" && a.password == Some(password))
  }

  function Given(password: string): Option<string> {
    if password == "" then None else Some(password)
  }

  /** A new user's account is what comes with the request; the key on file leaves all as it is, but a password
      is added where there was none; and the password on file puts a new key, with the signed prekey that
      comes with it, in place of the old ones. */
  function LoggedIn(a: Account, key: Bytes, spk: Option<SignedPrekey>, password: string): Account {
    if a.key == None then Account(Some(key), Given(password), spk)
    else if a.key == Some(key) then a.(password := if a.password == None then Given(password) else a.password)
    else a.(key := Some(key), signed := spk)
  }

  /** The account of `u` after a run. */
  function AccountOf(steps: seq<Step>, u: UserId): Account
    decreases |steps|, 1
  {
    if steps == [] then NO_ACCOUNT
    else
      var earlier, step := steps[..|steps| - 1], steps[|steps| - 1];
      var a := AccountOf(earlier, u);
      match step
      case AuthStep(_, v, key, spk, password) =>
        if v == u && GetsIn(a, key, password) then LoggedIn(a, key, spk, password) else a
      case UploadStep(s, spk, _) =>
        if IsLoggedIn(earlier, s, u) && spk.Some? then a.(signed := spk) else a
      case PasswordStep(s, given, replacement) =>
        if IsLoggedIn(earlier, s, u) && a.password == Some(given) then a.(password := Some(replacement)) else a
      case RequestStep(_, _) => a
      case ReportStep(_) => a
  }

  /** Whose session `s` is after a run: that of the last user who got in by it. */
  function LoginOf(steps: seq<Step>, s: SessionId): Option<Login>
    decreases |steps|, 2
  {
    if steps == [] then None
    else
      var earlier, step := steps[..|steps| - 1], steps[|steps| - 1];
      if step.AuthStep? && step.session == s && GetsIn(AccountOf(earlier, step.user), step.key, step.password)
      then Some(Login(step.user, step.key))
      else LoginOf(earlier, s)
  }

  predicate IsLoggedIn(steps: seq<Step>, s: SessionId, u: UserId)
    decreases |steps|, 3
  {
    LoginOf(steps, s).Some? && LoginOf(steps, s).value.user == u
  }

  /** A one-time prekey and the user whose session stored it. */
  datatype Deposit = Deposit(user: UserId, pub: Bytes)

  function Deposits(u: UserId, pubs: seq<Bytes>): (r: seq<Deposit>)
    ensures |r| == |pubs| && forall i | 0 <= i < |pubs| :: r[i] == Deposit(u, pubs[i])
  {
    seq(|pubs|, i requires 0 <= i < |pubs| => Deposit(u, pubs[i]))
  }

  /** Every one-time prekey ever stored in a run, in order; an upload stores its keys up to the first empty
      one. */
  function Stored(steps: seq<Step>): seq<Deposit> {
    if steps == [] then []
    else
      var earlier, step := steps[..|steps| - 1], steps[|steps| - 1];
      if step.UploadStep? && LoginOf(earlier, step.session).Some?
      then Stored(earlier) + Deposits(LoginOf(earlier, step.session).value.user, Storable(step.pubs))
      else Stored(earlier)
  }

  // ----- The tables agree with the accounts ------------------------------------------------------------

  function Lookup<V>(m: map<UserId, V>, u: UserId): Option<V> {
    if u in m then Some(m[u]) else None
  }

  /** The three user tables hold the account. */
  ghost predicate OnFile(s: Store, u: UserId, a: Account) {
    Lookup(s.identities, u) == a.key && Lookup(s.passwords, u) == a.password && Lookup(s.signed, u) == a.signed
  }

  ghost predicate LoginsAgree(h: History, steps: seq<Step>) {
    forall s :: (if s in h.logins then Some(h.logins[s]) else None) == LoginOf(steps, s)
  }

  /** Who has no key on file has nothing on file. */
  predicate Whole(a: Account) {
    a.key == None ==> a == NO_ACCOUNT
  }

  lemma VerdictAdmits(s: Store, u: UserId, a: Account, key: Bytes, password: string)
    requires OnFile(s, u, a) && Whole(a)
    ensures Admits(Verdict(s, u, key, password)) <==> GetsIn(a, key, password)
  {
  }

  /** What an authentication is answered, told from the account. */
  lemma VerdictTells(s: Store, u: UserId, a: Account, key: Bytes, password: string)
    requires OnFile(s, u, a) && Whole(a)
    ensures var verdict, tried := Verdict(s, u, key, password), password != "" && a.password != None;
      && (verdict == Registered <==> a.key == None)
      && (verdict in {Verified, Backfilled} <==> a.key == Some(key))
      && (verdict == Backfilled ==> password != "" && a.password == None)
      && (verdict == Verified ==> password == "" || a.password != None)
      && (verdict == Recovered <==> a.key !in {None, Some(key)} && tried && a.password == Some(password))
      && (verdict == WrongPassword <==> a.key !in {None, Some(key)} && tried && a.password != Some(password))
      && (verdict == KeyMismatch <==> a.key !in {None, Some(key)} && !tried)
  {
  }

  /** A password is replaced exactly by somebody who gives the one on file. */
  lemma PasswordUpdateIff(s: Store, u: UserId, a: Account, given: string, replacement: string)
    requires OnFile(s, u, a)
    ensures var (s', done) := UpdatePassword(s, u, given, replacement);
      && (done <==> a.password == Some(given))
      && OnFile(s', u, if done then a.(password := Some(replacement)) else a)
  {
  }

  lemma AuthenticateOwn(s: Store, u: UserId, a: Account, key: Bytes, spk: Option<SignedPrekey>, password: string)
    requires OnFile(s, u, a) && Whole(a)
    ensures OnFile(Authenticate(s, u, key, spk, password), u,
                   if GetsIn(a, key, password) then LoggedIn(a, key, spk, password) else a)
  {
  }

  lemma AuthenticateOther(s: Store, v: UserId, key: Bytes, spk: Option<SignedPrekey>, password: string, u: UserId,
                          a: Account)
    requires OnFile(s, u, a) && u != v
    ensures OnFile(Authenticate(s, v, key, spk, password), u, a)
  {
  }

  lemma AuthStepAgrees(h: History, session: SessionId, v: UserId, key: Bytes, spk: Option<SignedPrekey>,
                       password: string, u: UserId, a: Account)
    requires OnFile(h.store, u, a) && Whole(a)
    ensures OnFile(NextAuth(h, session, v, key, spk, password).store, u,
                   if v == u && GetsIn(a, key, password) then LoggedIn(a, key, spk, password) else a)
  {
    if v == u {
      VerdictAdmits(h.store, u, a, key, password);
      AuthenticateOwn(h.store, u, a, key, spk, password);
    } else {
      AuthenticateOther(h.store, v, key, spk, password, u, a);
    }
  }

  /** What holds between a history and the run it comes from, as far as `u` is concerned. */
  ghost predicate Agree(steps: seq<Step>, u: UserId) {
    && OnFile(Run(steps).store, u, AccountOf(steps, u)) && Whole(AccountOf(steps, u))
    && LoginsAgree(Run(steps), steps)
  }

  lemma UploadStepAgrees(steps: seq<Step>, u: UserId)
    requires steps != [] && steps[|steps| - 1].UploadStep? && Agree(steps[..|steps| - 1], u)
    requires LoginsKnown(Run(steps[..|steps| - 1]))
    ensures OnFile(Run(steps).store, u, AccountOf(steps, u)) && Whole(AccountOf(steps, u))
  {
    var earlier, step := steps[..|steps| - 1], steps[|steps| - 1];
    var h := Run(earlier);
    if step.session in h.logins {
      assert LoginOf(earlier, step.session) == Some(h.logins[step.session]);
    }
  }

  lemma PasswordStepAgrees(steps: seq<Step>, u: UserId)
    requires steps != [] && steps[|steps| - 1].PasswordStep? && Agree(steps[..|steps| - 1], u)
    ensures OnFile(Run(steps).store, u, AccountOf(steps, u)) && Whole(AccountOf(steps, u))
  {
    var earlier, step := steps[..|steps| - 1], steps[|steps| - 1];
    var h := Run(earlier);
    if step.session in h.logins {
      assert LoginOf(earlier, step.session) == Some(h.logins[step.session]);
    }
  }

  lemma StepAgrees(steps: seq<Step>, u: UserId)
    requires steps != [] && Agree(steps[..|steps| - 1], u) && LoginsKnown(Run(steps[..|steps| - 1]))
    ensures OnFile(Run(steps).store, u, AccountOf(steps, u)) && Whole(AccountOf(steps, u))
  {
    var earlier, step := steps[..|steps| - 1], steps[|steps| - 1];
    match step
    case AuthStep(s, v, key, spk, password) =>
      AuthStepAgrees(Run(earlier), s, v, key, spk, password, u, AccountOf(earlier, u));
    case UploadStep(s, spk, pubs) => UploadStepAgrees(steps, u);
    case PasswordStep(s, given, replacement) => PasswordStepAgrees(steps, u);
    case RequestStep(_, _) =>
    case ReportStep(_) =>
  }

  lemma AuthLogins(h: History, session: SessionId, v: UserId, key: Bytes, spk: Option<SignedPrekey>, password: string)
    ensures NextAuth(h, session, v, key, spk, password).logins
         == if Admits(Verdict(h.store, v, key, password)) then h.logins[session := Login(v, key)] else h.logins
  {
  }

  lemma OthersKeepLogins(h: History, step: Step)
    requires !step.AuthStep?
    ensures Next(h, step).logins == h.logins
  {
  }

  lemma StepLogins(steps: seq<Step>)
    requires steps != [] && LoginsAgree(Run(steps[..|steps| - 1]), steps[..|steps| - 1])
    requires steps[|steps| - 1].AuthStep? ==> Agree(steps[..|steps| - 1], steps[|steps| - 1].user)
    ensures LoginsAgree(Run(steps), steps)
  {
    var earlier, step := steps[..|steps| - 1], steps[|steps| - 1];
    if step.AuthStep? {
      AuthLogins(Run(earlier), step.session, step.user, step.key, step.spk, step.password);
      VerdictAdmits(Run(earlier).store, step.user, AccountOf(earlier, step.user), step.key, step.password);
      var admitted := GetsIn(AccountOf(earlier, step.user), step.key, step.password);
      assert Run(steps).logins
          == if admitted then Run(earlier).logins[step.session := Login(step.user, step.key)] else Run(earlier).logins;
    } else {
      OthersKeepLogins(Run(earlier), step);
    }
  }

  /** In every run the tables hold, for every user, exactly the account that the requests add up to: the
      identity key, the password, and the signed prekey of the last request that set one since. */
  lemma {:induction false} TablesHoldAccounts(steps: seq<Step>)
    ensures forall u :: Agree(steps, u)
    decreases |steps|
  {
    if steps != [] {
      var earlier := steps[..|steps| - 1];
      TablesHoldAccounts(earlier);
      RunInEpoch(earlier);
      assert Agree(earlier, if steps[|steps| - 1].AuthStep? then steps[|steps| - 1].user else "");
      StepLogins(steps);
      forall u ensures Agree(steps, u) {
        assert Agree(earlier, u);
        StepAgrees(steps, u);
      }
    }
  }

  // ----- The one-time prekeys ----------------------------------------------------------------------------

  /** The rows hold what was stored, each under its place in that order. */
  ghost predicate RowsHold(s: Store, stored: seq<Deposit>) {
    && s.nextId == |stored| + 1
    && forall i | i in s.opks :: 1 <= i <= |stored| && stored[i - 1] == Deposit(s.opks[i].user, s.opks[i].pub)
  }

  /** The rows after an upload: the old ones as they were, and the new ones under the next ids. */
  ghost predicate Extends(opks: map<nat, Opk>, nextId: nat, s': Store, u: UserId, pubs: seq<Bytes>) {
    && s'.nextId == nextId + |pubs|
    && (forall i | i in s'.opks && i < nextId :: i in opks && s'.opks[i] == opks[i])
    && (forall i | i in s'.opks && i >= nextId :: i < s'.nextId && s'.opks[i] == Opk(u, pubs[i - nextId], false))
  }

  lemma StoreOpksExtends(s: Store, u: UserId, pubs: seq<Bytes>)
    requires forall i | i in s.opks :: i < s.nextId
    ensures Extends(s.opks, s.nextId, StoreOpks(s, u, pubs), u, pubs)
  {
    var s' := StoreOpks(s, u, pubs);
    forall i | i in s'.opks && i < s.nextId ensures i in s.opks && s'.opks[i] == s.opks[i] {
    }
    forall i | i in s'.opks && i >= s.nextId
      ensures i < s'.nextId && s'.opks[i] == Opk(u, pubs[i - s.nextId], false)
    {
      assert i !in s.opks;
    }
  }

  lemma UploadExtends(s: Store, u: UserId, spk: Option<SignedPrekey>, pubs: seq<Bytes>)
    requires forall i | i in s.opks :: i < s.nextId
    ensures Extends(s.opks, s.nextId, Upload(s, u, spk, pubs), u, Storable(pubs))
  {
    var after := Upsert(s, u, spk);
    assert after.opks == s.opks && after.nextId == s.nextId;
    StoreOpksExtends(after, u, Storable(pubs));
  }

  lemma ExtendedHolds(s: Store, s': Store, stored: seq<Deposit>, u: UserId, pubs: seq<Bytes>)
    requires RowsHold(s, stored) && Extends(s.opks, s.nextId, s', u, pubs)
    ensures RowsHold(s', stored + Deposits(u, pubs))
  {
    var longer := stored + Deposits(u, pubs);
    forall i | i in s'.opks ensures 1 <= i <= |longer| && longer[i - 1] == Deposit(s'.opks[i].user, s'.opks[i].pub) {
      if i < s.nextId {
        assert longer[i - 1] == stored[i - 1];
      } else {
        assert longer[i - 1] == Deposits(u, pubs)[i - s.nextId];
      }
    }
  }

  lemma UploadHolds(s: Store, stored: seq<Deposit>, u: UserId, spk: Option<SignedPrekey>, pubs: seq<Bytes>)
    requires RowsHold(s, stored)
    ensures RowsHold(Upload(s, u, spk, pubs), stored + Deposits(u, Storable(pubs)))
  {
    UploadExtends(s, u, spk, pubs);
    ExtendedHolds(s, Upload(s, u, spk, pubs), stored, u, Storable(pubs));
  }

  lemma AuthHolds(h: History, stored: seq<Deposit>, session: SessionId, v: UserId, key: Bytes,
                  spk: Option<SignedPrekey>, password: string)
    requires RowsHold(h.store, stored)
    ensures RowsHold(NextAuth(h, session, v, key, spk, password).store, stored)
  {
    AuthRows(h.store, v, key, spk, password);
  }

  lemma {:induction false} RowsAreStored(steps: seq<Step>)
    ensures RowsHold(Run(steps).store, Stored(steps))
    decreases |steps|
  {
    if steps != [] {
      var earlier, step := steps[..|steps| - 1], steps[|steps| - 1];
      var h := Run(earlier);
      RowsAreStored(earlier);
      TablesHoldAccounts(earlier);
      assert Agree(earlier, "");
      match step {
        case AuthStep(s, v, key, spk, password) => AuthHolds(h, Stored(earlier), s, v, key, spk, password);
        case UploadStep(s, spk, pubs) =>
          if s in h.logins {
            assert LoginOf(earlier, s) == Some(h.logins[s]);
            UploadHolds(h.store, Stored(earlier), h.logins[s].user, spk, pubs);
          }
        case RequestStep(_, _) =>
        case PasswordStep(_, _, _) =>
        case ReportStep(_) =>
      }
    }
  }

  lemma {:induction false} StoredIsNotEmpty(steps: seq<Step>)
    ensures forall i | 0 <= i < |Stored(steps)| :: Stored(steps)[i].pub != []
    decreases |steps|
  {
    if steps != [] {
      var step := steps[|steps| - 1];
      StoredIsNotEmpty(steps[..|steps| - 1]);
      if step.UploadStep? {
        assert forall i | 0 <= i < |Storable(step.pubs)| :: Storable(step.pubs)[i] in Storable(step.pubs);
      }
    }
  }

  // ----- What is served -----------------------------------------------------------------------------------

  /** The bundle is made of the account and of the one-time prekey found, if one was: that key was stored by a
      session of the user. */
  ghost predicate MadeOf(bundle: Bundle, a: Account, u: UserId, stored: seq<Deposit>, found: Option<nat>) {
    && a.key == Some(bundle.identity) && bundle.signed == a.signed
    && match found
       case None => bundle.oneTime == None
       case Some(i) => 1 <= i <= |stored| && stored[i - 1].user == u && bundle.oneTime == Some(stored[i - 1].pub)
  }

  /** Round trip: in every run, a request for a user without an account gets no bundle, and a request for any
      other user gets exactly the key that set the account, the signed prekey of the last request that set
      one since, if there was one, and the one-time prekey found, as it was uploaded. */
  lemma ServedAsUploaded(steps: seq<Step>, u: UserId, found: Option<nat>)
    requires MayFind(Run(steps).store, u, found)
    ensures var a, served := AccountOf(steps, u), Request(Run(steps).store, u, found).1;
      if a.key == None then served == None
      else served.Some? && MadeOf(served.value, a, u, Stored(steps), found)
  {
    TablesHoldAccounts(steps);
    assert Agree(steps, u);
    RowsAreStored(steps);
    StoredIsNotEmpty(steps);
  }

  /** A request marks the row found as used, and touches nothing else. */
  lemma RequestEffect(h: History, u: UserId, found: Option<nat>)
    requires u in h.store.identities && MayFind(h.store, u, found)
    ensures var s, s' := h.store, Next(h, RequestStep(u, found)).store;
      && s'.identities == s.identities && s'.passwords == s.passwords && s'.signed == s.signed
      && s'.nextId == s.nextId && s'.opks.Keys == s.opks.Keys
      && forall i | i in s.opks ::
           && s'.opks[i].user == s.opks[i].user && s'.opks[i].pub == s.opks[i].pub
           && (s'.opks[i].used <==> s.opks[i].used || found == Some(i))
  {
  }
}
