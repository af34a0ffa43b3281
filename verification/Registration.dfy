/**
 * First logins racing for one provider identity (internal/auth/store.go).
 *
 * Registration is one transaction over users, auth_identities and the monthly quota table;
 * the unique constraint on (provider, provider_user_id) decides the race.  Profile columns
 * carry no weight in it and are not modelled.
 */
module Registration {

  type User = nat
  type Period = nat
  type Tid = nat
  datatype Provider = Apple | Google
  datatype Key = Key(provider: Provider, subject: string)

  /** The committed tables. */
  datatype Db = Db(users: set<User>, identities: map<Key, User>, quotas: map<(User, Period), int>)

  const EMPTY_DB := Db({}, map[], map[])

  function Registered(db: Db, key: Key, user: User, period: Period, limit: int): Db {
    Db(db.users + {user}, db.identities[key := user], db.quotas[(user, period) := limit])
  }

  // ---- One login at a time ----

  /** ReadBackFails comes after the commit: the user's row cannot be read.  A lost reply to the commit is alike. */
  datatype Fault =
    | NoFault | LookupFails | UserFails | IdentityFails | QuotaFails | MergeFails | CommitFails | ReadBackFails
  datatype Login = LoggedIn(user: User) | NotFound | Failed

  class AuthStore {
    var users: set<User>
    var identities: map<Key, User>
    var quotas: map<(User, Period), int>

    function View(): Db
      reads this
    {
      Db(users, identities, quotas)
    }

    /** Committed rows belong to committed users. */
    ghost predicate Valid()
      reads this
    {
      Consistent(View())
    }

    constructor ()
      ensures Valid() && View() == EMPTY_DB
    {
      users, identities, quotas := {}, map[], map[];
    }

    /** The three inserts of a new user; each may fail, by a fault or by a constraint. */
    method InsertUserAndIdentity(key: Key, newUser: User, period: Period, limit: int, fault: Fault) returns (ok: bool)
      modifies this
      ensures ok <==>
                && fault !in {UserFails, IdentityFails, QuotaFails}
                && newUser !in old(users) && key !in old(identities)
                && limit >= 0 && (newUser, period) !in old(quotas)
      ensures ok ==> View() == Registered(old(View()), key, newUser, period, limit)
      ensures ok ==>
                && users == old(users) + {newUser} && identities == old(identities)[key := newUser]
                && quotas == old(quotas)[(newUser, period) := limit]
    {
      if fault == UserFails || newUser in users {
        return false;
      }
      users := users + {newUser};
      if fault == IdentityFails || key in identities {
        return false;
      }
      identities := identities[key := newUser];
      if fault == QuotaFails || limit < 0 || (newUser, period) in quotas {
        return false;
      }
      quotas := quotas[(newUser, period) := limit];
      return true;
    }

    /** App login: finds the identity or registers it, all or nothing. */
    method LoginOrRegister(key: Key, newUser: User, period: Period, limit: int, fault: Fault) returns (r: Login)
      requires Valid()
      modifies this
      ensures Valid()
      ensures var known := key in old(identities);
              var commits := key.subject != "" &&
                (if known then fault !in {LookupFails, MergeFails, CommitFails}
                 else fault in {NoFault, MergeFails, ReadBackFails} && newUser !in old(users) && limit >= 0);
              && View() == (if commits && !known then Registered(old(View()), key, newUser, period, limit)
                            else old(View()))
              && (r.LoggedIn? <==> commits && fault != ReadBackFails)
      ensures r.LoggedIn? ==> key in identities && identities[key] == r.user
      ensures r != NotFound
    {
      if key.subject == "" || fault == LookupFails {
        return Failed;
      }
      var users0, identities0, quotas0 := users, identities, quotas;
      var user, ok := newUser, true;
      if key in identities {
        user := identities[key];
        ok := fault != MergeFails;
      } else {
        if newUser !in users {
          FreshUserHasNoQuota(View(), newUser, period);
          RegisteredIsConsistent(View(), key, newUser, period, limit);
        }
        ok := InsertUserAndIdentity(key, newUser, period, limit, fault);
      }
      if !ok || fault == CommitFails {
        users, identities, quotas := users0, identities0, quotas0;
        assert View() == old(View());
        return Failed;
      }
      return if fault == ReadBackFails then Failed else LoggedIn(user);
    }

    /** Web login: never adds a user, whatever it is asked. */
    method LoginExisting(key: Key, fault: Fault) returns (r: Login)
      ensures r.LoggedIn? <==>
                && key.subject != "" && key in identities
                && fault !in {LookupFails, MergeFails, CommitFails, ReadBackFails}
      ensures r.LoggedIn? ==> r.user == identities[key]
      ensures r == NotFound <==> key.subject != "" && key !in identities && fault != LookupFails
    {
      if key.subject == "" || fault == LookupFails {
        return Failed;
      }
      if key !in identities {
        return NotFound;
      }
      if fault in {MergeFails, CommitFails, ReadBackFails} {
        return Failed;
      }
      return LoggedIn(identities[key]);
    }
  }

  // ---- Logins interleaved statement by statement ----

  /** An open registration and the rows it has inserted but not committed. */
  datatype Tx =
    | Missing(key: Key)
    | UserAdded(key: Key, user: User)
    | IdentityAdded(key: Key, user: User)
    | QuotaAdded(key: Key, user: User, period: Period, limit: int)

  datatype World = World(db: Db, drawn: set<User>, txs: map<Tid, Tx>)

  const INITIAL := World(EMPTY_DB, {}, map[])

  datatype Event =
    | LookUp(t: Tid, key: Key)
    | AddUser(t: Tid, user: User)
    | AddIdentity(t: Tid)
    | AddQuota(t: Tid, period: Period, limit: int)
    | Commit(t: Tid)
    | Rollback(t: Tid)
    | WebLogin(key: Key)

  predicate HoldsKey(tx: Tx) {
    tx.IdentityAdded? || tx.QuotaAdded?
  }

  /** Another transaction has inserted this identity and not finished: the insert waits. */
  predicate KeyBusy(w: World, key: Key) {
    exists t :: t in w.txs && HoldsKey(w.txs[t]) && w.txs[t].key == key
  }

  predicate WouldCommit(w: World, ev: Event) {
    ev.Commit? && ev.t in w.txs && w.txs[ev.t].QuotaAdded?
  }

  function Step(w: World, ev: Event): World {
    match ev
    case LookUp(t, key) =>
      if t in w.txs || key in w.db.identities then w
      else w.(txs := w.txs[t := Missing(key)])
    case AddUser(t, user) =>
      if t !in w.txs || !w.txs[t].Missing? || user in w.drawn then w
      else World(w.db, w.drawn + {user}, w.txs[t := UserAdded(w.txs[t].key, user)])
    case AddIdentity(t) =>
      if t !in w.txs || !w.txs[t].UserAdded? || KeyBusy(w, w.txs[t].key) then w
      else if w.txs[t].key in w.db.identities then w.(txs := w.txs - {t})
      else w.(txs := w.txs[t := IdentityAdded(w.txs[t].key, w.txs[t].user)])
    case AddQuota(t, period, limit) =>
      if t !in w.txs || !w.txs[t].IdentityAdded? then w
      else if limit < 0 then w.(txs := w.txs - {t})
      else w.(txs := w.txs[t := QuotaAdded(w.txs[t].key, w.txs[t].user, period, limit)])
    case Commit(t) =>
      if !WouldCommit(w, ev) then w
      else
        var tx := w.txs[t];
        World(Registered(w.db, tx.key, tx.user, tx.period, tx.limit), w.drawn, w.txs - {t})
    case Rollback(t) => w.(txs := w.txs - {t})
    case WebLogin(_) => w
  }

  function Run(evs: seq<Event>): World {
    if evs == [] then INITIAL else Step(Run(evs[..|evs| - 1]), evs[|evs| - 1])
  }

  // ---- What every step keeps ----

  /** Every user has exactly one identity and exactly one quota row, and no row lacks its user. */
  ghost predicate Consistent(db: Db) {
    && (forall k :: k in db.identities ==> db.identities[k] in db.users)
    && (forall k, l :: k in db.identities && l in db.identities && db.identities[k] == db.identities[l] ==> k == l)
    && (forall u :: u in db.users ==> u in db.identities.Values)
    && (forall q :: q in db.quotas ==> q.0 in db.users)
    && (forall q, r :: q in db.quotas && r in db.quotas && q.0 == r.0 ==> q == r)
    && (forall u :: u in db.users ==> HasQuota(db, u))
  }

  predicate HasQuota(db: Db, u: User) {
    exists q :: q in db.quotas && q.0 == u
  }

  ghost predicate TxOk(w: World, tx: Tx) {
    && (!tx.Missing? ==> tx.user in w.drawn && tx.user !in w.db.users)
    && (HoldsKey(tx) ==> tx.key !in w.db.identities)
  }

  ghost predicate Apart(a: Tx, b: Tx) {
    && (!a.Missing? && !b.Missing? ==> a.user != b.user)
    && (HoldsKey(a) && HoldsKey(b) ==> a.key != b.key)
  }

  ghost predicate Inv(w: World) {
    && Consistent(w.db)
    && w.db.users <= w.drawn
    && (forall t :: t in w.txs ==> TxOk(w, w.txs[t]))
    && (forall t, u :: t in w.txs && u in w.txs && t != u ==> Apart(w.txs[t], w.txs[u]))
  }

  lemma RegisteredIsConsistent(db: Db, key: Key, user: User, period: Period, limit: int)
    requires Consistent(db) && user !in db.users && key !in db.identities
    ensures Consistent(Registered(db, key, user, period, limit))
  {
    var db' := Registered(db, key, user, period, limit);
    assert db'.identities[key] == user && (user, period) in db'.quotas;
    forall u | u in db'.users
      ensures u in db'.identities.Values && HasQuota(db', u)
    {
      if u != user {
        var k :| k in db.identities && db.identities[k] == u;
        assert db'.identities[k] == u;
        var q :| q in db.quotas && q.0 == u;
        assert q in db'.quotas;
      }
    }
  }

  lemma FreshUserHasNoQuota(db: Db, user: User, period: Period)
    requires Consistent(db) && user !in db.users
    ensures (user, period) !in db.quotas
  {
  }

  lemma PutKeepsInv(w: World, t: Tid, tx: Tx, drawn: set<User>)
    requires Inv(w) && w.drawn <= drawn && TxOk(World(w.db, drawn, w.txs), tx)
    requires forall u :: u in w.txs && u != t ==> Apart(tx, w.txs[u])
    ensures Inv(World(w.db, drawn, w.txs[t := tx]))
  {
    var w' := World(w.db, drawn, w.txs[t := tx]);
    forall u | u in w'.txs
      ensures TxOk(w', w'.txs[u])
    {
      assert u != t ==> TxOk(w, w.txs[u]);
    }
  }

  lemma CommitKeepsInv(w: World, ev: Event)
    requires Inv(w) && WouldCommit(w, ev)
    ensures Inv(Step(w, ev))
  {
    var tx, w' := w.txs[ev.t], Step(w, ev);
    assert TxOk(w, tx);
    RegisteredIsConsistent(w.db, tx.key, tx.user, tx.period, tx.limit);
    forall t | t in w'.txs
      ensures TxOk(w', w'.txs[t])
    {
      assert TxOk(w, w.txs[t]) && Apart(w.txs[t], tx);
    }
  }

  lemma StepKeepsInv(w: World, ev: Event)
    requires Inv(w)
    ensures Inv(Step(w, ev))
  {
    var w' := Step(w, ev);
    if WouldCommit(w, ev) {
      CommitKeepsInv(w, ev);
    } else if w' != w && ev.t in w'.txs {
      var t := ev.t;
      if t in w.txs {
        assert TxOk(w, w.txs[t]);
        assert forall u :: u in w.txs && u != t ==> Apart(w.txs[t], w.txs[u]);
      }
      assert ev.AddUser? ==> forall u :: u in w.txs ==> TxOk(w, w.txs[u]);
      PutKeepsInv(w, t, w'.txs[t], w'.drawn);
      assert w' == World(w.db, w'.drawn, w.txs[t := w'.txs[t]]);
    }
  }

  lemma {:induction false} AlwaysInv(evs: seq<Event>)
    ensures Inv(Run(evs))
  {
    if evs != [] {
      AlwaysInv(evs[..|evs| - 1]);
      StepKeepsInv(Run(evs[..|evs| - 1]), evs[|evs| - 1]);
    }
  }

  /** Only a commit touches the tables, and it adds one user with one identity and one quota row. */
  lemma OnlyCommitsWrite(w: World, ev: Event)
    requires Inv(w)
    ensures !WouldCommit(w, ev) ==> Step(w, ev).db == w.db
    ensures WouldCommit(w, ev) ==>
              && w.txs[ev.t].key !in w.db.identities && w.txs[ev.t].user !in w.db.users
              && Step(w, ev).db.users == w.db.users + {w.txs[ev.t].user}
              && Step(w, ev).db.identities == w.db.identities[w.txs[ev.t].key := w.txs[ev.t].user]
              && Step(w, ev).db.quotas
              == w.db.quotas[(w.txs[ev.t].user, w.txs[ev.t].period) := w.txs[ev.t].limit]
              && |Step(w, ev).db.identities| == |w.db.identities| + 1
              && |Step(w, ev).db.users| == |w.db.users| + 1
  {
    if WouldCommit(w, ev) {
      assert TxOk(w, w.txs[ev.t]);
    }
  }

  // ---- Every interleaving ----

  /** Each registered user has exactly one identity and one initial quota row; nobody else has any. */
  lemma OneIdentityOneQuota(evs: seq<Event>, u: User)
    ensures var db := Run(evs).db;
            && (u in db.users ==> exists k ::
                  (set l | l in db.identities && db.identities[l] == u) == {k})
            && (u in db.users ==> exists p ::
                  (set q | q in db.quotas && q.0 == u) == {(u, p)})
            && (u !in db.users ==>
                  && (set l | l in db.identities && db.identities[l] == u) == {}
                  && (set q | q in db.quotas && q.0 == u) == {})
  {
    AlwaysInv(evs);
    var db := Run(evs).db;
    if u in db.users {
      assert u in db.identities.Values && HasQuota(db, u);
      var k :| k in db.identities && db.identities[k] == u;
      var q :| q in db.quotas && q.0 == u;
      assert (set l | l in db.identities && db.identities[l] == u) == {k};
      assert q == (u, q.1);
      assert (set r | r in db.quotas && r.0 == u) == {(u, q.1)};
    }
  }

  /** An identity is bound to its user once and for all. */
  lemma {:induction false} IdentityIsPermanent(evs: seq<Event>, more: seq<Event>, key: Key)
    requires key in Run(evs).db.identities
    ensures key in Run(evs + more).db.identities
    ensures Run(evs + more).db.identities[key] == Run(evs).db.identities[key]
    decreases |more|
  {
    if more == [] {
      assert evs + more == evs;
    } else {
      var init, ev := evs + more[..|more| - 1], more[|more| - 1];
      assert (evs + more)[..|evs + more| - 1] == init;
      IdentityIsPermanent(evs, more[..|more| - 1], key);
      AlwaysInv(init);
      OnlyCommitsWrite(Run(init), ev);
    }
  }

  lemma Snoc(evs: seq<Event>, ev: Event)
    ensures Run(evs + [ev]) == Step(Run(evs), ev)
  {
    assert (evs + [ev])[..|evs|] == evs;
  }

  /** The statements of one registration, from its lookup to its commit. */
  function Statements(t: Tid, key: Key, user: User, period: Period, limit: int): seq<Event> {
    [LookUp(t, key), AddUser(t, user), AddIdentity(t), AddQuota(t, period, limit), Commit(t)]
  }

  /**
   * After any run, a registration nobody disturbs goes through: it registers an unknown identity
   * under the new user with the limit it was given, unless that limit is negative.
   */
  lemma UndisturbedRegisters(evs: seq<Event>, t: Tid, key: Key, user: User, period: Period, limit: int)
    requires var w := Run(evs);
             t !in w.txs && key !in w.db.identities && !KeyBusy(w, key) && user !in w.drawn
    ensures var db, db' := Run(evs).db, Run(evs + Statements(t, key, user, period, limit)).db;
            if limit < 0 then db' == db
            else
              && db'.users == db.users + {user} && db'.identities == db.identities[key := user]
              && db'.quotas == db.quotas[(user, period) := limit]
    ensures t !in Run(evs + Statements(t, key, user, period, limit)).txs
  {
    InsertsAreHeld(evs, t, key, user);
    var inserts, e3, e4 := [LookUp(t, key), AddUser(t, user), AddIdentity(t)], AddQuota(t, period, limit), Commit(t);
    Snoc(evs + inserts, e3);
    Snoc(evs + inserts + [e3], e4);
    assert evs + inserts + [e3] + [e4] == evs + Statements(t, key, user, period, limit);
  }

  lemma InsertsAreHeld(evs: seq<Event>, t: Tid, key: Key, user: User)
    requires var w := Run(evs);
             t !in w.txs && key !in w.db.identities && !KeyBusy(w, key) && user !in w.drawn
    ensures var w := Run(evs);
            Run(evs + [LookUp(t, key), AddUser(t, user), AddIdentity(t)]) ==
              World(w.db, w.drawn + {user}, w.txs[t := IdentityAdded(key, user)])
  {
    hide KeyBusy;
    var w, e0, e1, e2 := Run(evs), LookUp(t, key), AddUser(t, user), AddIdentity(t);
    Snoc(evs, e0);
    Snoc(evs + [e0], e1);
    Snoc(evs + [e0] + [e1], e2);
    assert evs + [e0] + [e1] + [e2] == evs + [e0, e1, e2];
    var w2 := World(w.db, w.drawn + {user}, w.txs[t := Missing(key)][t := UserAdded(key, user)]);
    KeyStaysFree(w, w2, t, key);
    assert w2.txs[t := IdentityAdded(key, user)] == w.txs[t := IdentityAdded(key, user)];
  }

  lemma KeyStaysFree(w: World, w': World, t: Tid, key: Key)
    requires !KeyBusy(w, key) && t in w'.txs && w'.txs == w.txs[t := w'.txs[t]] && w'.txs[t].UserAdded?
    ensures !KeyBusy(w', key)
  {
  }

  /** A login that finds its identity, or that is under way already, opens no registration; any other does. */
  lemma LookUpOpens(w: World, t: Tid, key: Key)
    ensures Step(w, LookUp(t, key)).db == w.db
    ensures t in w.txs || key in w.db.identities ==> Step(w, LookUp(t, key)) == w
    ensures t !in w.txs && key !in w.db.identities ==> Step(w, LookUp(t, key)).txs == w.txs[t := Missing(key)]
  {
  }

  /** An insert of an identity that was registered meanwhile loses: the transaction ends and leaves nothing. */
  lemma LateInsertLoses(w: World, t: Tid)
    requires t in w.txs && w.txs[t].UserAdded? && w.txs[t].key in w.db.identities && Inv(w)
    ensures Step(w, AddIdentity(t)) == w.(txs := w.txs - {t})
  {
  }

  /** How many registrations of `key` commit in a run. */
  function Commits(evs: seq<Event>, key: Key): nat {
    if evs == [] then 0 else
    var init, ev := evs[..|evs| - 1], evs[|evs| - 1];
    Commits(init, key) + if WouldCommit(Run(init), ev) && Run(init).txs[ev.t].key == key then 1 else 0
  }

  /** Of all racing registrations of one identity exactly one wins, and only a win leaves rows. */
  lemma {:induction false} OneWinner(evs: seq<Event>, key: Key)
    ensures Commits(evs, key) <= 1
    ensures Commits(evs, key) == 1 <==> key in Run(evs).db.identities
  {
    if evs != [] {
      var init, ev := evs[..|evs| - 1], evs[|evs| - 1];
      OneWinner(init, key);
      AlwaysInv(init);
      OnlyCommitsWrite(Run(init), ev);
    }
  }

  /** How many users a run registers: one for every identity won, none for a registration that lost. */
  lemma {:induction false} UsersAreWinners(evs: seq<Event>)
    ensures |Run(evs).db.users| == |Run(evs).db.identities|
  {
    if evs != [] {
      var init, ev := evs[..|evs| - 1], evs[|evs| - 1];
      UsersAreWinners(init);
      AlwaysInv(init);
      OnlyCommitsWrite(Run(init), ev);
    }
  }
}
