/**
 * The refresh-session ledger, table auth_sessions (internal/auth/session.go).
 *
 * Tokens are known by their hashes.  A run is a sequence of operations, each a single
 * committed transaction; SessionTransactions shows that statement-level interleavings
 * under the row lock add nothing to these runs.
 */
module Sessions {
  import opened Base

  type Id = nat
  type User = nat
  type Hash = nat

  datatype Provider = Apple | Google
  datatype Reason = Rotated | Logout

  datatype Session = Session(
    user: User, provider: Provider, hash: Hash, expiresAt: int,
    revokedAt: Option<int>, reason: Option<Reason>, replacedBy: Option<Id>)

  type Rows = map<Id, Session>

  // ---- The statements ----

  function Fresh(user: User, provider: Provider, hash: Hash, expiresAt: int): Session {
    Session(user, provider, hash, expiresAt, None, None, None)
  }

  /** The unique constraint on refresh_token_hash, as an INSERT sees it. */
  predicate HashTaken(rows: Rows, h: Hash) {
    exists id :: id in rows && rows[id].hash == h
  }

  /** SELECT ... WHERE refresh_token_hash = h. */
  ghost function Find(rows: Rows, h: Hash): (r: Option<Id>)
    ensures r.Some? ==> r.value in rows && rows[r.value].hash == h
    ensures r.None? ==> !HashTaken(rows, h)
  {
    if id :| id in rows && rows[id].hash == h then Some(id) else None
  }

  ghost function Row(rows: Rows, h: Hash): Option<Session> {
    var found := Find(rows, h);
    if found.None? then None else Some(rows[found.value])
  }

  /** Some row points at `id`, so the foreign key keeps it from being deleted. */
  predicate Referenced(rows: Rows, id: Id) {
    exists other :: other in rows && rows[other].replacedBy == Some(id)
  }

  datatype Answer = Invalid | Reuse | Revoked | Expired | Accept

  function Verdict(r: Session, now: int): Answer {
    if r.revokedAt.Some? then
      if r.replacedBy.Some? then Reuse else Revoked
    else if r.expiresAt <= now then Expired
    else Accept
  }

  ghost function Check(rows: Rows, h: Hash, now: int): Answer {
    var r := Row(rows, h);
    if r.None? then Invalid else Verdict(r.value, now)
  }

  /** The two writes of a rotation: insert the successor, then revoke and link the old row. */
  function Succeed(rows: Rows, id: Id, newId: Id, newHash: Hash, now: int, ttl: int): Rows
    requires id in rows
  {
    var old_ := rows[id];
    rows[newId := Fresh(old_.user, old_.provider, newHash, now + ttl)]
        [id := old_.(revokedAt := Some(now), reason := Some(Rotated), replacedBy := Some(newId))]
  }

  predicate LiveFor(rows: Rows, user: User, id: Id) {
    id in rows && rows[id].user == user && rows[id].revokedAt.None?
  }

  function LoggedOut(rows: Rows, id: Id, now: int): Rows
    requires id in rows
  {
    rows[id := rows[id].(revokedAt := Some(now), reason := Some(Logout))]
  }

  // ---- Runs ----

  datatype Op =
    | Login(id: Id, user: User, provider: Provider, hash: Hash, expiresAt: int)
    | Rotate(hash: Hash, newId: Id, newHash: Hash, now: int, ttl: int)
    | SignOut(user: User, id: Id, now: int)
    | Remove(id: Id)

  /** `rank` numbers every id ever used by order of creation; `issued` holds every hash ever stored. */
  datatype State = State(rows: Rows, rank: map<Id, nat>, issued: set<Hash>)

  const EMPTY := State(map[], map[], {})

  /** New ids and new tokens are random: a run never draws one twice. */
  predicate Unused(s: State, id: Id, h: Hash) {
    id !in s.rank && h !in s.issued
  }

  /** The operation goes through and changes the ledger. */
  ghost predicate Succeeds(s: State, op: Op) {
    match op
    case Login(id, _, _, h, _) => Unused(s, id, h)
    case Rotate(h, newId, newHash, now, _) => Unused(s, newId, newHash) && Check(s.rows, h, now) == Accept
    case SignOut(user, id, _) => LiveFor(s.rows, user, id)
    case Remove(id) => id in s.rows && !Referenced(s.rows, id)
  }

  ghost function Apply(s: State, op: Op): State {
    if !Succeeds(s, op) then s else
    match op
    case Login(id, user, provider, h, exp) =>
      State(s.rows[id := Fresh(user, provider, h, exp)], s.rank[id := |s.rank|], s.issued + {h})
    case Rotate(h, newId, newHash, now, ttl) =>
      State(Succeed(s.rows, Find(s.rows, h).value, newId, newHash, now, ttl),
            s.rank[newId := |s.rank|], s.issued + {newHash})
    case SignOut(_, id, now) => s.(rows := LoggedOut(s.rows, id, now))
    case Remove(id) => s.(rows := s.rows - {id})
  }

  ghost function Run(ops: seq<Op>): State {
    if ops == [] then EMPTY else Apply(Run(ops[..|ops| - 1]), ops[|ops| - 1])
  }

  // ---- The store ----

  /** The random draws of an operation are new to the ledger. */
  predicate Drawn(s: State, op: Op) {
    match op
    case Login(id, _, _, h, _) => Unused(s, id, h)
    case Rotate(_, newId, newHash, _, _) => Unused(s, newId, newHash)
    case SignOut(_, _, _) => true
    case Remove(_) => true
  }

  /** The statements did to the rows what the operation does to any ledger with these rows. */
  ghost predicate Takes(before: Rows, after: Rows, op: Op) {
    forall s: State :: s.rows == before && Drawn(s, op) ==> Apply(s, op).rows == after
  }

  /**
   * What the database, the random source or the signer may refuse to do; CommitReplyLost is a commit
   * that is carried out and reports an error.
   */
  datatype Fault =
    | NoFault | LookupFails | TokenFails | InsertFails | UpdateFails | SigningFails | CommitFails | CommitReplyLost

  datatype Refresh = Rotation(id: Id) | Refused(why: Answer) | ServerError

  class SessionStore {
    var rows: Rows

    /** The unique constraint of the table. */
    ghost predicate Valid()
      reads this
    {
      UniqueHashes(rows)
    }

    constructor ()
      ensures Valid() && rows == map[]
    {
      rows := map[];
    }

    /** Fails, without a row, when the id or the hash is already stored or the statement is refused. */
    method InsertAuthSession(user: User, provider: Provider, hash: Hash, expiresAt: int, newId: Id, refused: bool)
      returns (ok: bool)
      requires Valid()
      modifies this
      ensures Valid()
      ensures ok == (!refused && newId !in old(rows) && !HashTaken(old(rows), hash))
      ensures rows == if ok then old(rows)[newId := Fresh(user, provider, hash, expiresAt)] else old(rows)
      ensures ok ==> Takes(old(rows), rows, Login(newId, user, provider, hash, expiresAt))
    {
      ok := !refused && newId !in rows && !HashTaken(rows, hash);
      if ok {
        rows := rows[newId := Fresh(user, provider, hash, expiresAt)];
      }
    }

    /** Deleting an absent row is no error; deleting a referenced one is. */
    method DeleteAuthSession(id: Id, refused: bool) returns (ok: bool)
      requires Valid()
      modifies this
      ensures Valid()
      ensures ok == !(refused || (id in old(rows) && Referenced(old(rows), id)))
      ensures !refused && id in old(rows) ==>
                (ok <==> forall other :: other in old(rows) ==> old(rows)[other].replacedBy != Some(id))
      ensures rows == if ok then old(rows) - {id} else old(rows)
      ensures !refused ==> Takes(old(rows), rows, Remove(id))
    {
      ok := !(refused || (id in rows && Referenced(rows, id)));
      if ok {
        rows := rows - {id};
      }
    }

    /**
     * One transaction: whatever goes wrong after the first write, the deferred rollback puts the
     * ledger back exactly as it was, unless it is only the reply to the commit that is lost.
     */
    method RotateRefreshToken(h: Hash, now: int, ttl: int, newId: Id, newHash: Hash, fault: Fault) returns (r: Refresh)
      requires Valid()
      modifies this
      ensures Valid()
      ensures r.Refused? <==> fault != LookupFails && Check(old(rows), h, now) != Accept
      ensures r.Refused? ==> r.why == Check(old(rows), h, now)
      ensures var allowed :=
                Check(old(rows), h, now) == Accept && newId !in old(rows) && !HashTaken(old(rows), newHash);
              && (r.Rotation? <==> allowed && fault == NoFault)
              && (if allowed && fault in {NoFault, CommitReplyLost}
                  then rows == Succeed(old(rows), Find(old(rows), h).value, newId, newHash, now, ttl)
                  else rows == old(rows))
      ensures r.Rotation? ==>
                exists id :: id in old(rows) && old(rows)[id].hash == h && r.id == newId &&
                  var row := old(rows)[id];
                  rows == old(rows)
                    [newId := Session(row.user, row.provider, newHash, now + ttl, None, None, None)]
                    [id := Session(row.user, row.provider, h, row.expiresAt, Some(now), Some(Rotated), Some(newId))]
      ensures r.Rotation? || r.Refused? ==> Takes(old(rows), rows, Rotate(h, newId, newHash, now, ttl))
    {
      var snapshot := rows;
      if fault == LookupFails {
        return ServerError;
      }
      if id :| id in rows && rows[id].hash == h {
        assert Find(rows, h) == Some(id);
        var row := rows[id];
        if row.revokedAt.Some? {
          return Refused(if row.replacedBy.Some? then Reuse else Revoked);
        }
        if !(row.expiresAt > now) {
          return Refused(Expired);
        }
        if fault == TokenFails || fault == InsertFails || newId in rows || HashTaken(rows, newHash) {
          return ServerError;
        }
        rows := rows[newId := Fresh(row.user, row.provider, newHash, now + ttl)];
        if fault == UpdateFails {
          rows := snapshot;
          return ServerError;
        }
        rows := rows[id := row.(revokedAt := Some(now), reason := Some(Rotated), replacedBy := Some(newId))];
        if fault == SigningFails || fault == CommitFails {
          rows := snapshot;
          return ServerError;
        }
        return if fault == CommitReplyLost then ServerError else Rotation(newId);
      } else {
        return Refused(Invalid);
      }
    }

    /** An id of another user, an unknown id or a session already revoked changes nothing and is no error. */
    method RevokeSessionLogout(user: User, id: Id, now: int, refused: bool) returns (ok: bool)
      requires Valid()
      modifies this
      ensures Valid()
      ensures ok == !refused
      ensures rows == if ok && LiveFor(old(rows), user, id) then LoggedOut(old(rows), id, now) else old(rows)
      ensures ok ==> Takes(old(rows), rows, SignOut(user, id, now))
      ensures rows.Keys == old(rows).Keys
      ensures forall x :: x in rows && rows[x] != old(rows)[x] ==>
                && x == id && rows[x].user == user && old(rows)[x].revokedAt.None?
                && rows[x] == old(rows)[x].(revokedAt := Some(now), reason := Some(Logout))
      ensures ok && id in rows && rows[id].user == user ==> rows[id].revokedAt.Some?
    {
      if refused {
        return false;
      }
      if id in rows && rows[id].user == user && rows[id].revokedAt.None? {
        rows := rows[id := rows[id].(revokedAt := Some(now), reason := Some(Logout))];
      }
      ok := true;
    }
  }

  // ---- What every step keeps ----

  ghost predicate UniqueHashes(rows: Rows) {
    forall a, b :: a in rows && b in rows && rows[a].hash == rows[b].hash ==> a == b
  }

  /** A link joins a row revoked by rotation to a younger row of the same user and provider. */
  ghost predicate LinkOk(s: State, a: Id)
    requires a in s.rows
  {
    var r := s.rows[a];
    r.replacedBy.Some? ==>
      && r.revokedAt.Some? && r.reason == Some(Rotated)
      && r.replacedBy.value in s.rows
      && s.rows[r.replacedBy.value].user == r.user
      && s.rows[r.replacedBy.value].provider == r.provider
      && a in s.rank && r.replacedBy.value in s.rank
      && s.rank[a] < s.rank[r.replacedBy.value]
  }

  ghost predicate Injective(rows: Rows) {
    forall a, b :: a in rows && b in rows && rows[a].replacedBy.Some? ==>
                     rows[a].replacedBy == rows[b].replacedBy ==> a == b
  }

  /** A row is revoked for one reason, and linked exactly when that reason is rotation. */
  predicate RowOk(r: Session) {
    && (r.reason == Some(Rotated) <==> r.replacedBy.Some?)
    && (r.revokedAt.Some? <==> r.reason.Some?)
  }

  ghost predicate Sound(s: State) {
    && s.rows.Keys <= s.rank.Keys
    && (forall id :: id in s.rank ==> s.rank[id] < |s.rank|)
    && (forall id :: id in s.rows ==> s.rows[id].hash in s.issued && RowOk(s.rows[id]) && LinkOk(s, id))
    && UniqueHashes(s.rows)
    && Injective(s.rows)
  }

  lemma LoginKeepsSound(s: State, op: Op)
    requires Sound(s) && op.Login? && Succeeds(s, op)
    ensures Sound(Apply(s, op))
  {
    var s' := Apply(s, op);
    assert forall id :: id in s.rows ==> s'.rows[id] == s.rows[id];
    forall id | id in s'.rows
      ensures LinkOk(s', id)
    {
      assert id in s.rows ==> LinkOk(s, id);
    }
  }

  /** What a rotation does to each row. */
  lemma RotationRows(s: State, op: Op, id: Id)
    requires Sound(s) && op.Rotate? && Succeeds(s, op) && Find(s.rows, op.hash) == Some(id)
    ensures var s' := Apply(s, op);
            && s'.rows.Keys == s.rows.Keys + {op.newId} && op.newId !in s.rows && id != op.newId
            && (forall x :: x in s.rows && x != id ==> s'.rows[x] == s.rows[x])
            && s.rows[id].replacedBy.None?
            && s'.rows[id] ==
                 s.rows[id].(revokedAt := Some(op.now), reason := Some(Rotated), replacedBy := Some(op.newId))
            && s'.rows[op.newId] == Fresh(s.rows[id].user, s.rows[id].provider, op.newHash, op.now + op.ttl)
  {
    assert RowOk(s.rows[id]);
  }

  lemma RotateKeepsRow(s: State, op: Op, id: Id, x: Id)
    requires Sound(s) && op.Rotate? && Succeeds(s, op) && Find(s.rows, op.hash) == Some(id) && x in Apply(s, op).rows
    ensures var s' := Apply(s, op); s'.rows[x].hash in s'.issued && RowOk(s'.rows[x]) && LinkOk(s', x)
  {
    RotationRows(s, op, id);
    if x in s.rows {
      assert RowOk(s.rows[x]) && LinkOk(s, x);
    }
  }

  lemma RotateKeepsHashes(s: State, op: Op, id: Id)
    requires Sound(s) && op.Rotate? && Succeeds(s, op) && Find(s.rows, op.hash) == Some(id)
    ensures UniqueHashes(Apply(s, op).rows)
  {
    RotationRows(s, op, id);
    assert forall x :: x in s.rows ==> s.rows[x].hash in s.issued;
  }

  lemma RotateKeepsSound(s: State, op: Op)
    requires Sound(s) && op.Rotate? && Succeeds(s, op)
    ensures Sound(Apply(s, op))
  {
    var s' := Apply(s, op);
    var id := Find(s.rows, op.hash).value;
    assert s'.rows.Keys <= s'.rank.Keys && s'.rank == s.rank[op.newId := |s.rank|] && |s'.rank| == |s.rank| + 1 by {
      RotationRows(s, op, id);
    }
    RotateKeepsInjective(s, op, id);
    RotateKeepsHashes(s, op, id);
    forall x | x in s'.rows
      ensures s'.rows[x].hash in s'.issued && RowOk(s'.rows[x]) && LinkOk(s', x)
    {
      RotateKeepsRow(s, op, id, x);
    }
    hide Apply, Succeeds, Find;
  }

  lemma RotateKeepsInjective(s: State, op: Op, id: Id)
    requires Sound(s) && op.Rotate? && Succeeds(s, op) && Find(s.rows, op.hash) == Some(id)
    ensures Injective(Apply(s, op).rows)
  {
    var rows' := Apply(s, op).rows;
    RotationRows(s, op, id);
    forall a, b | a in rows' && b in rows' && rows'[a].replacedBy.Some? && rows'[a].replacedBy == rows'[b].replacedBy
      ensures a == b
    {
      assert a in s.rows && b in s.rows;
      assert LinkOk(s, a) && LinkOk(s, b);
    }
  }

  lemma SignOutKeepsSound(s: State, op: Op)
    requires Sound(s) && op.SignOut? && Succeeds(s, op)
    ensures Sound(Apply(s, op))
  {
    var s' := Apply(s, op);
    assert forall x :: x in s.rows && x != op.id ==> s'.rows[x] == s.rows[x];
    forall x | x in s'.rows
      ensures LinkOk(s', x)
    {
      assert LinkOk(s, x);
    }
  }

  lemma RemoveKeepsSound(s: State, op: Op)
    requires Sound(s) && op.Remove? && Succeeds(s, op)
    ensures Sound(Apply(s, op))
  {
    var s' := Apply(s, op);
    assert forall x :: x in s'.rows ==> x in s.rows && s'.rows[x] == s.rows[x];
    forall x | x in s'.rows
      ensures LinkOk(s', x)
    {
      assert LinkOk(s, x);
    }
  }

  lemma ApplyKeepsSound(s: State, op: Op)
    requires Sound(s)
    ensures Sound(Apply(s, op))
  {
    if Succeeds(s, op) {
      match op
      case Login(_, _, _, _, _) => LoginKeepsSound(s, op);
      case Rotate(_, _, _, _, _) => RotateKeepsSound(s, op);
      case SignOut(_, _, _) => SignOutKeepsSound(s, op);
      case Remove(_) => RemoveKeepsSound(s, op);
    }
  }

  lemma {:induction false} RunIsSound(ops: seq<Op>)
    ensures Sound(Run(ops))
  {
    if ops != [] {
      RunIsSound(ops[..|ops| - 1]);
      ApplyKeepsSound(Run(ops[..|ops| - 1]), ops[|ops| - 1]);
    }
  }

  // ---- Chains ----

  /** The row reached by following `n` links from `id`. */
  function Follow(rows: Rows, id: Id, n: nat): (r: Option<Id>)
    ensures r.Some? ==> r.value in rows
    decreases n
  {
    if id !in rows then None
    else if n == 0 then Some(id)
    else if rows[id].replacedBy.None? then None
    else Follow(rows, rows[id].replacedBy.value, n - 1)
  }

  lemma {:induction false} FollowRises(s: State, id: Id, n: nat)
    requires Sound(s) && n > 0 && Follow(s.rows, id, n).Some?
    ensures id in s.rank && Follow(s.rows, id, n).value in s.rank
    ensures s.rank[id] < s.rank[Follow(s.rows, id, n).value]
    decreases n
  {
    assert LinkOk(s, id);
    if n > 1 {
      FollowRises(s, s.rows[id].replacedBy.value, n - 1);
    }
  }

  lemma {:induction false} FollowKeepsOwner(s: State, id: Id, n: nat)
    requires Sound(s) && Follow(s.rows, id, n).Some?
    ensures s.rows[Follow(s.rows, id, n).value].user == s.rows[id].user
    ensures s.rows[Follow(s.rows, id, n).value].provider == s.rows[id].provider
    decreases n
  {
    if n > 0 {
      assert LinkOk(s, id);
      FollowKeepsOwner(s, s.rows[id].replacedBy.value, n - 1);
    }
  }

  /** No run ever links sessions into a cycle, and a link never leaves the user or the provider. */
  lemma ChainsAreAcyclic(ops: seq<Op>, id: Id, n: nat)
    requires Follow(Run(ops).rows, id, n).Some?
    ensures n > 0 ==> Follow(Run(ops).rows, id, n).value != id
    ensures var end := Run(ops).rows[Follow(Run(ops).rows, id, n).value];
            end.user == Run(ops).rows[id].user && end.provider == Run(ops).rows[id].provider
  {
    RunIsSound(ops);
    FollowKeepsOwner(Run(ops), id, n);
    if n > 0 {
      FollowRises(Run(ops), id, n);
    }
  }

  lemma {:induction false} BeforeLast(rows: Rows, id: Id, n: nat)
    requires n > 0 && Follow(rows, id, n).Some?
    ensures Follow(rows, id, n - 1).Some?
    ensures rows[Follow(rows, id, n - 1).value].replacedBy == Follow(rows, id, n)
    decreases n
  {
    var next := rows[id].replacedBy.value;
    if n == 1 {
      assert Follow(rows, next, 0) == Some(next);
    } else {
      BeforeLast(rows, next, n - 1);
    }
  }

  /** Two rows whose chains meet lie on one path: one of them is reached from the other. */
  lemma MeetingChainsAreOne(ops: seq<Op>, a: Id, m: nat, b: Id, n: nat)
    requires m <= n
    requires Follow(Run(ops).rows, a, m).Some? && Follow(Run(ops).rows, a, m) == Follow(Run(ops).rows, b, n)
    ensures Follow(Run(ops).rows, b, n - m) == Some(a)
  {
    RunIsSound(ops);
    Unwind(Run(ops).rows, a, m, b, n);
  }

  lemma {:induction false} Unwind(rows: Rows, a: Id, m: nat, b: Id, n: nat)
    requires Injective(rows) && m <= n
    requires Follow(rows, a, m).Some? && Follow(rows, a, m) == Follow(rows, b, n)
    ensures Follow(rows, b, n - m) == Some(a)
    decreases m
  {
    if m > 0 {
      BeforeLast(rows, a, m);
      BeforeLast(rows, b, n);
      Unwind(rows, a, m - 1, b, n - 1);
    }
  }

  /** Only the end of a chain can be unrevoked. */
  lemma OnlyTailIsLive(ops: seq<Op>, id: Id, n: nat)
    requires Follow(Run(ops).rows, id, n).Some? && n > 0
    ensures Run(ops).rows[id].revokedAt.Some? && Run(ops).rows[id].reason == Some(Rotated)
  {
    RunIsSound(ops);
    assert LinkOk(Run(ops), id);
  }

  /** Of all sessions that share a chain, at most one is unrevoked: a login has one live descendant. */
  lemma OneLiveSessionPerChain(ops: seq<Op>, a: Id, m: nat, b: Id, n: nat)
    requires Follow(Run(ops).rows, a, m).Some? && Follow(Run(ops).rows, a, m) == Follow(Run(ops).rows, b, n)
    requires Run(ops).rows[a].revokedAt.None? && Run(ops).rows[b].revokedAt.None?
    ensures a == b
  {
    if m > 0 {
      OnlyTailIsLive(ops, a, m);
    } else if n > 0 {
      OnlyTailIsLive(ops, b, n);
    }
  }

  // ---- Answers follow history ----

  /** The expiry a token was issued with, by a login or by a rotation. */
  ghost function IssuedWith(ops: seq<Op>, h: Hash): Option<int> {
    if ops == [] then None else
    var init, op := ops[..|ops| - 1], ops[|ops| - 1];
    if op.Login? && op.hash == h && Succeeds(Run(init), op) then Some(op.expiresAt)
    else if op.Rotate? && op.newHash == h && Succeeds(Run(init), op) then Some(op.now + op.ttl)
    else IssuedWith(init, h)
  }

  ghost predicate EverRotated(ops: seq<Op>, h: Hash) {
    ops != [] &&
    var init, op := ops[..|ops| - 1], ops[|ops| - 1];
    EverRotated(init, h) || (op.Rotate? && op.hash == h && Succeeds(Run(init), op))
  }

  /** Its session was signed out while it was live. */
  ghost predicate EverSignedOut(ops: seq<Op>, h: Hash) {
    ops != [] &&
    var init, op := ops[..|ops| - 1], ops[|ops| - 1];
    EverSignedOut(init, h) || (op.SignOut? && Succeeds(Run(init), op) && Run(init).rows[op.id].hash == h)
  }

  ghost predicate EverRemoved(ops: seq<Op>, h: Hash) {
    ops != [] &&
    var init, op := ops[..|ops| - 1], ops[|ops| - 1];
    EverRemoved(init, h) || (op.Remove? && Succeeds(Run(init), op) && Run(init).rows[op.id].hash == h)
  }

  /** What the history of a token says a refresh at `now` must be answered. */
  ghost function Expected(ops: seq<Op>, h: Hash, now: int): Answer {
    if IssuedWith(ops, h).None? || EverRemoved(ops, h) then Invalid
    else if EverRotated(ops, h) then Reuse
    else if EverSignedOut(ops, h) then Revoked
    else if IssuedWith(ops, h).value <= now then Expired
    else Accept
  }

  lemma RowIs(rows: Rows, h: Hash, id: Id)
    requires UniqueHashes(rows) && id in rows && rows[id].hash == h
    ensures Row(rows, h) == Some(rows[id])
  {
    assert HashTaken(rows, h);
  }

  lemma RowKept(rows: Rows, rows': Rows, h: Hash)
    requires UniqueHashes(rows')
    requires forall x :: x in rows && rows[x].hash == h ==> x in rows' && rows'[x] == rows[x]
    requires forall x :: x in rows' && rows'[x].hash == h ==> x in rows && rows[x].hash == h
    ensures Row(rows', h) == Row(rows, h)
  {
    var found := Find(rows, h);
    if found.Some? {
      RowIs(rows', h, found.value);
    }
  }

  /** The row of token `h` after an operation that went through. */
  ghost function RowAfter(s: State, op: Op, h: Hash): Option<Session>
    requires Succeeds(s, op)
  {
    match op
    case Login(_, user, provider, hash, exp) =>
      if hash == h then Some(Fresh(user, provider, hash, exp)) else Row(s.rows, h)
    case Rotate(hash, newId, newHash, now, ttl) =>
      var r := Row(s.rows, hash).value;
      if newHash == h then Some(Fresh(r.user, r.provider, newHash, now + ttl))
      else if hash == h then Some(r.(revokedAt := Some(now), reason := Some(Rotated), replacedBy := Some(newId)))
      else Row(s.rows, h)
    case SignOut(_, id, now) =>
      if s.rows[id].hash == h then Some(s.rows[id].(revokedAt := Some(now), reason := Some(Logout))) else Row(s.rows, h)
    case Remove(id) =>
      if s.rows[id].hash == h then None else Row(s.rows, h)
  }

  /** A rotation presents a live token, and draws one that was never issued. */
  lemma RotationPresents(s: State, op: Op)
    requires Sound(s) && op.Rotate? && Succeeds(s, op)
    ensures Find(s.rows, op.hash).Some? && Row(s.rows, op.hash).Some?
    ensures var r := Row(s.rows, op.hash).value; r.revokedAt.None? && r.replacedBy.None? && r.reason.None? && RowOk(r)
    ensures op.hash in s.issued && op.newHash !in s.issued && op.hash != op.newHash
    ensures Apply(s, op).issued == s.issued + {op.newHash}
  {
    var id := Find(s.rows, op.hash).value;
    assert RowOk(s.rows[id]);
  }

  lemma RowFollowsRotation(s: State, op: Op, h: Hash)
    requires Sound(s) && op.Rotate? && Succeeds(s, op) && UniqueHashes(Apply(s, op).rows)
    ensures Row(Apply(s, op).rows, h) == RowAfter(s, op, h)
  {
    RotationPresents(s, op);
    var rows', id := Apply(s, op).rows, Find(s.rows, op.hash).value;
    RotationRows(s, op, id);
    assert UniqueHashes(s.rows);
    hide Apply, Succeeds, Succeed, Sound;
    if op.newHash == h {
      RowIs(rows', h, op.newId);
    } else if op.hash == h {
      RowIs(rows', h, id);
    } else {
      RowKept(s.rows, rows', h);
    }
  }

  lemma RowFollows(s: State, op: Op, h: Hash)
    requires Sound(s) && Succeeds(s, op)
    ensures Row(Apply(s, op).rows, h) == RowAfter(s, op, h)
  {
    ApplyKeepsSound(s, op);
    var rows' := Apply(s, op).rows;
    match op
    case Login(id, _, _, hash, _) =>
      if hash == h { RowIs(rows', h, id); } else { RowKept(s.rows, rows', h); }
    case Rotate(_, _, _, _, _) => RowFollowsRotation(s, op, h);
    case SignOut(_, id, _) =>
      if s.rows[id].hash == h { RowIs(rows', h, id); } else { RowKept(s.rows, rows', h); }
    case Remove(id) =>
      if s.rows[id].hash == h {
        assert !HashTaken(rows', h);
      } else {
        RowKept(s.rows, rows', h);
      }
  }

  /** Row and history of one token fit together. */
  predicate Fits(
      row: Option<Session>, issued: bool, expiry: Option<int>, rotated: bool, signedOut: bool, removed: bool)
  {
    && (issued <==> expiry.Some?)
    && (rotated || signedOut || removed ==> issued)
    && (row.Some? <==> issued && !removed)
    && (row.Some? ==>
          && RowOk(row.value)
          && expiry == Some(row.value.expiresAt)
          && (row.value.replacedBy.Some? <==> rotated)
          && (row.value.reason == Some(Logout) <==> signedOut))
  }

  /** What the row of a token shows is what happened to the token. */
  ghost predicate Mirrors(ops: seq<Op>, h: Hash) {
    Fits(Row(Run(ops).rows, h), h in Run(ops).issued, IssuedWith(ops, h),
         EverRotated(ops, h), EverSignedOut(ops, h), EverRemoved(ops, h))
  }

  lemma Unroll(init: seq<Op>, op: Op)
    ensures Run(init + [op]) == Apply(Run(init), op)
  {
    assert (init + [op])[..|init|] == init;
  }

  lemma UnrollHistory(init: seq<Op>, op: Op, h: Hash)
    ensures IssuedWith(init + [op], h) ==
              if op.Login? && op.hash == h && Succeeds(Run(init), op) then Some(op.expiresAt)
              else if op.Rotate? && op.newHash == h && Succeeds(Run(init), op) then Some(op.now + op.ttl)
              else IssuedWith(init, h)
    ensures EverRotated(init + [op], h) <==>
              EverRotated(init, h) || (op.Rotate? && op.hash == h && Succeeds(Run(init), op))
    ensures EverSignedOut(init + [op], h) <==>
              EverSignedOut(init, h) || (op.SignOut? && Succeeds(Run(init), op) && Run(init).rows[op.id].hash == h)
    ensures EverRemoved(init + [op], h) <==>
              EverRemoved(init, h) || (op.Remove? && Succeeds(Run(init), op) && Run(init).rows[op.id].hash == h)
  {
    assert (init + [op])[..|init|] == init;
  }

  /** Two histories with the same row and the same events so far fit alike. */
  lemma SameFits(ops: seq<Op>, ops': seq<Op>, h: Hash)
    requires Mirrors(ops, h)
    requires Row(Run(ops').rows, h) == Row(Run(ops).rows, h) && (h in Run(ops').issued <==> h in Run(ops).issued)
    requires IssuedWith(ops', h) == IssuedWith(ops, h) && (EverRotated(ops', h) <==> EverRotated(ops, h))
    requires (EverSignedOut(ops', h) <==> EverSignedOut(ops, h)) && (EverRemoved(ops', h) <==> EverRemoved(ops, h))
    ensures Mirrors(ops', h)
  {
    hide Row, Run, IssuedWith, EverRotated, EverSignedOut, EverRemoved;
  }

  lemma LoginIssues(s: State, op: Op)
    requires op.Login? && Succeeds(s, op)
    ensures Apply(s, op).issued == s.issued + {op.hash} && op.hash !in s.issued
  {
  }

  lemma LoginIsMirrored(init: seq<Op>, op: Op, h: Hash)
    requires Mirrors(init, h) && Sound(Run(init)) && op.Login? && Succeeds(Run(init), op)
    ensures Mirrors(init + [op], h)
  {
    hide Apply, Succeeds, Sound, Run, Row, Find, IssuedWith, EverRotated, EverSignedOut, EverRemoved;
    Unroll(init, op);
    UnrollHistory(init, op, h);
    RowFollows(Run(init), op, h);
    LoginIssues(Run(init), op);
    if op.hash != h { SameFits(init, init + [op], h); }
  }

  lemma FreshFits(
      row: Option<Session>, expiry: Option<int>, rotated: bool, signedOut: bool, removed: bool, added: Session)
    requires Fits(row, false, expiry, rotated, signedOut, removed)
    requires added == Session(added.user, added.provider, added.hash, added.expiresAt, None, None, None)
    ensures Fits(Some(added), true, Some(added.expiresAt), rotated, signedOut, removed)
  {
  }

  lemma RotatedFits(
      row: Session, expiry: Option<int>, rotated: bool, signedOut: bool, removed: bool, now: int, newId: Id)
    requires Fits(Some(row), true, expiry, rotated, signedOut, removed) && row.reason.None?
    ensures Fits(Some(row.(revokedAt := Some(now), reason := Some(Rotated), replacedBy := Some(newId))),
                 true, expiry, true, signedOut, removed)
  {
  }

  lemma NewTokenIsMirrored(init: seq<Op>, op: Op)
    requires op.Rotate? && Mirrors(init, op.newHash) && Sound(Run(init)) && Succeeds(Run(init), op)
    ensures Mirrors(init + [op], op.newHash)
  {
    hide Apply, Succeeds, Sound, Run, Row, Find, IssuedWith, EverRotated, EverSignedOut, EverRemoved;
    var h := op.newHash;
    Unroll(init, op);
    UnrollHistory(init, op, h);
    RowFollows(Run(init), op, h);
    RotationPresents(Run(init), op);
    var r := Row(Run(init).rows, op.hash).value;
    FreshFits(Row(Run(init).rows, h), IssuedWith(init, h), EverRotated(init, h), EverSignedOut(init, h),
              EverRemoved(init, h), Fresh(r.user, r.provider, h, op.now + op.ttl));
  }

  lemma OldTokenIsMirrored(init: seq<Op>, op: Op)
    requires op.Rotate? && Mirrors(init, op.hash) && Sound(Run(init)) && Succeeds(Run(init), op)
    ensures Mirrors(init + [op], op.hash)
  {
    hide Apply, Succeeds, Sound, Run, Row, Find, IssuedWith, EverRotated, EverSignedOut, EverRemoved;
    var h := op.hash;
    Unroll(init, op);
    UnrollHistory(init, op, h);
    RowFollows(Run(init), op, h);
    RotationPresents(Run(init), op);
    RotatedFits(Row(Run(init).rows, h).value, IssuedWith(init, h), EverRotated(init, h), EverSignedOut(init, h),
                EverRemoved(init, h), op.now, op.newId);
  }

  lemma RotationIsMirrored(init: seq<Op>, op: Op, h: Hash)
    requires Mirrors(init, h) && Sound(Run(init)) && op.Rotate? && Succeeds(Run(init), op)
    ensures Mirrors(init + [op], h)
  {
    hide Apply, Succeeds, Sound, Run, Row, Find, IssuedWith, EverRotated, EverSignedOut, EverRemoved;
    if op.newHash == h {
      NewTokenIsMirrored(init, op);
    } else if op.hash == h {
      OldTokenIsMirrored(init, op);
    } else {
      Unroll(init, op);
      UnrollHistory(init, op, h);
      RowFollows(Run(init), op, h);
      RotationPresents(Run(init), op);
      SameFits(init, init + [op], h);
    }
  }

  /** A sign-out or a removal names a row, and issues nothing. */
  lemma NamesRow(s: State, op: Op)
    requires Sound(s) && (op.SignOut? || op.Remove?) && Succeeds(s, op)
    ensures op.id in s.rows && Row(s.rows, s.rows[op.id].hash) == Some(s.rows[op.id])
    ensures Apply(s, op).issued == s.issued
    ensures op.SignOut? ==>
              s.rows[op.id].revokedAt.None? && s.rows[op.id].reason.None? && s.rows[op.id].replacedBy.None?
  {
    RowIs(s.rows, s.rows[op.id].hash, op.id);
    assert RowOk(s.rows[op.id]);
  }

  lemma SignOutIsMirrored(init: seq<Op>, op: Op, h: Hash)
    requires Mirrors(init, h) && Sound(Run(init)) && op.SignOut? && Succeeds(Run(init), op)
    ensures Mirrors(init + [op], h)
  {
    hide Apply, Succeeds, Sound, Run, Row, Find, IssuedWith, EverRotated, EverSignedOut, EverRemoved;
    Unroll(init, op);
    UnrollHistory(init, op, h);
    RowFollows(Run(init), op, h);
    NamesRow(Run(init), op);
    if Run(init).rows[op.id].hash != h { SameFits(init, init + [op], h); }
  }

  lemma RemovalIsMirrored(init: seq<Op>, op: Op, h: Hash)
    requires Mirrors(init, h) && Sound(Run(init)) && op.Remove? && Succeeds(Run(init), op)
    ensures Mirrors(init + [op], h)
  {
    hide Apply, Succeeds, Sound, Run, Row, Find, IssuedWith, EverRotated, EverSignedOut, EverRemoved;
    Unroll(init, op);
    UnrollHistory(init, op, h);
    RowFollows(Run(init), op, h);
    NamesRow(Run(init), op);
    if Run(init).rows[op.id].hash != h { SameFits(init, init + [op], h); }
  }

  lemma StepIsMirrored(init: seq<Op>, op: Op, h: Hash)
    requires Mirrors(init, h) && Sound(Run(init))
    ensures Mirrors(init + [op], h)
  {
    if Succeeds(Run(init), op) {
      hide Mirrors, Succeeds, Apply, Run, Sound;
      match op
      case Login(_, _, _, _, _) => LoginIsMirrored(init, op, h);
      case Rotate(_, _, _, _, _) => RotationIsMirrored(init, op, h);
      case SignOut(_, _, _) => SignOutIsMirrored(init, op, h);
      case Remove(_) => RemovalIsMirrored(init, op, h);
    } else {
      Unroll(init, op);
      UnrollHistory(init, op, h);
      hide Succeeds, Run, Row, IssuedWith, EverRotated, EverSignedOut, EverRemoved;
      SameFits(init, init + [op], h);
    }
  }

  lemma {:induction false} HistoryIsMirrored(ops: seq<Op>, h: Hash)
    ensures Mirrors(ops, h)
  {
    if ops != [] {
      var init, op := ops[..|ops| - 1], ops[|ops| - 1];
      assert ops == init + [op];
      HistoryIsMirrored(init, h);
      RunIsSound(init);
      StepIsMirrored(init, op, h);
    }
  }

  /** Every refresh is answered by the token's history and by nothing else. */
  lemma AnswersFollowHistory(ops: seq<Op>, h: Hash, now: int)
    ensures Check(Run(ops).rows, h, now) == Expected(ops, h, now)
  {
    HistoryIsMirrored(ops, h);
    var row := Row(Run(ops).rows, h);
    if row.Some? && row.value.reason.Some? {
      assert row.value.reason.value == Rotated || row.value.reason.value == Logout;
    }
  }

  /** A token once refused as reused, revoked or expired is never accepted at a later time, whatever happens next. */
  lemma {:induction false} RefusedForever(ops: seq<Op>, more: seq<Op>, h: Hash, now: int, later: int)
    requires Check(Run(ops).rows, h, now) in {Reuse, Revoked, Expired} && now <= later
    ensures Check(Run(ops + more).rows, h, later) != Accept
    ensures IssuedWith(ops + more, h) == IssuedWith(ops, h)
    decreases |more|
  {
    AnswersFollowHistory(ops, h, now);
    AnswersFollowHistory(ops + more, h, later);
    HistoryGrows(ops, more, h);
  }

  lemma {:induction false} HistoryGrows(ops: seq<Op>, more: seq<Op>, h: Hash)
    ensures IssuedWith(ops, h).Some? ==> IssuedWith(ops + more, h) == IssuedWith(ops, h)
    ensures EverRotated(ops, h) ==> EverRotated(ops + more, h)
    ensures EverSignedOut(ops, h) ==> EverSignedOut(ops + more, h)
    ensures EverRemoved(ops, h) ==> EverRemoved(ops + more, h)
    decreases |more|
  {
    if more == [] {
      assert ops + more == ops;
    } else {
      var init := more[..|more| - 1];
      HistoryGrows(ops, init, h);
      HistoryIsMirrored(ops + init, h);
      assert (ops + more)[..|ops + more| - 1] == ops + init;
    }
  }

  /** How many times a run rotated the token `h`. */
  ghost function Rotations(ops: seq<Op>, h: Hash): nat {
    if ops == [] then 0 else
    var init, op := ops[..|ops| - 1], ops[|ops| - 1];
    Rotations(init, h) + if op.Rotate? && op.hash == h && Succeeds(Run(init), op) then 1 else 0
  }

  /** Refresh tokens are single use. */
  lemma {:induction false} SingleUse(ops: seq<Op>, h: Hash)
    ensures Rotations(ops, h) <= 1
    ensures Rotations(ops, h) == 1 <==> EverRotated(ops, h)
  {
    if ops != [] {
      var init, op := ops[..|ops| - 1], ops[|ops| - 1];
      SingleUse(init, h);
      if op.Rotate? && op.hash == h {
        AnswersFollowHistory(init, h, op.now);
      }
    }
  }

  /**
   * A rotation whose commit loses its reply leaves its caller with the old token only, and that one
   * is answered as reused from then on, at any time and whatever happens but its removal.
   */
  lemma LostReplyLocksOut(ops: seq<Op>, op: Op, more: seq<Op>, later: int)
    requires op.Rotate? && Succeeds(Run(ops), op) && !EverRemoved(ops + [op] + more, op.hash)
    ensures Check(Run(ops + [op] + more).rows, op.hash, later) == Reuse
  {
    var all := ops + [op];
    HistoryIsMirrored(ops, op.hash);
    AnswersFollowHistory(ops, op.hash, op.now);
    UnrollHistory(ops, op, op.hash);
    HistoryGrows(all, more, op.hash);
    AnswersFollowHistory(all + more, op.hash, later);
  }
}
