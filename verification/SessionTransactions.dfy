/**
 * Refresh, login and logout interleaved statement by statement (internal/auth/session.go).
 *
 * A rotation is a transaction of four statements.  SELECT ... FOR UPDATE locks the row of the
 * token; its two writes stay private until the commit; other writers of a locked row wait,
 * which here means that their step is not taken yet.  Every interleaving turns out to be a
 * run of the one-step ledger of Sessions, so all its theorems hold of concurrent requests.
 */
module SessionTransactions {
  import opened Base
  import opened Sessions

  type Tid = nat

  /** An open rotation: the row it locked, as it read it, and the writes it has made so far. */
  datatype Tx =
    | Locked(row: Id, seen: Session)
    | Judged(row: Id, seen: Session, now: int)
    | Inserted(row: Id, seen: Session, now: int, ttl: int, newId: Id, added: Session)
    | Linked(row: Id, seen: Session, now: int, ttl: int, newId: Id, added: Session, updated: Session)

  datatype World = World(db: State, txs: map<Tid, Tx>)

  datatype Event =
    | Select(t: Tid, hash: Hash)
    | Judge(t: Tid, now: int)
    | InsertNew(t: Tid, newId: Id, newHash: Hash, ttl: int)
    | LinkOld(t: Tid)
    | Commit(t: Tid)
    | Rollback(t: Tid)
    | Auto(op: Op)  // a statement that commits by itself: login insert, logout update, delete

  ghost predicate IsLocked(w: World, id: Id) {
    exists t :: t in w.txs && w.txs[t].row == id
  }

  predicate Pending(tx: Tx) {
    tx.Inserted? || tx.Linked?
  }

  /** No open transaction has drawn this id or token. */
  ghost predicate NotPending(w: World, id: Id, h: Hash) {
    forall t :: t in w.txs && Pending(w.txs[t]) ==> w.txs[t].newId != id && w.txs[t].added.hash != h
  }

  /** The single statement can run now: it needs no locked row and no token drawn elsewhere. */
  ghost predicate CanRun(w: World, op: Op) {
    match op
    case Login(id, _, _, h, _) => NotPending(w, id, h)
    case Rotate(_, _, _, _, _) => false
    case SignOut(_, id, _) => !IsLocked(w, id)
    case Remove(id) => !IsLocked(w, id)
  }

  ghost function Step(w: World, ev: Event): World {
    match ev
    case Select(t, h) =>
      var found := Find(w.db.rows, h);
      if t in w.txs || found.None? || IsLocked(w, found.value) then w
      else w.(txs := w.txs[t := Locked(found.value, w.db.rows[found.value])])
    case Judge(t, now) =>
      if t !in w.txs || !w.txs[t].Locked? then w
      else if Verdict(w.txs[t].seen, now) == Accept then
        w.(txs := w.txs[t := Judged(w.txs[t].row, w.txs[t].seen, now)])
      else w.(txs := w.txs - {t})
    case InsertNew(t, newId, newHash, ttl) =>
      if t !in w.txs || !w.txs[t].Judged? || !Unused(w.db, newId, newHash) || !NotPending(w, newId, newHash) then w
      else
        var tx := w.txs[t];
        w.(txs := w.txs[t := Inserted(tx.row, tx.seen, tx.now, ttl, newId,
                                      Fresh(tx.seen.user, tx.seen.provider, newHash, tx.now + ttl))])
    case LinkOld(t) =>
      if t !in w.txs || !w.txs[t].Inserted? || w.txs[t].row !in w.db.rows then w
      else
        var tx := w.txs[t];
        var current := w.db.rows[tx.row];
        w.(txs := w.txs[t := Linked(tx.row, tx.seen, tx.now, tx.ttl, tx.newId, tx.added,
             current.(revokedAt := Some(tx.now), reason := Some(Rotated), replacedBy := Some(tx.newId)))])
    case Commit(t) =>
      if t !in w.txs || !w.txs[t].Linked? then w
      else
        var tx := w.txs[t];
        World(State(w.db.rows[tx.newId := tx.added][tx.row := tx.updated],
                    w.db.rank[tx.newId := |w.db.rank|],
                    w.db.issued + {tx.added.hash}),
              w.txs - {t})
    case Rollback(t) => w.(txs := w.txs - {t})
    case Auto(op) => if CanRun(w, op) then w.(db := Apply(w.db, op)) else w
  }

  /** The one-step operation an event amounts to: none, unless it commits something. */
  ghost function Emitted(w: World, ev: Event): seq<Op> {
    match ev
    case Commit(t) =>
      if t !in w.txs || !w.txs[t].Linked? then []
      else
        var tx := w.txs[t];
        [Rotate(tx.seen.hash, tx.newId, tx.added.hash, tx.now, tx.ttl)]
    case Auto(op) => if CanRun(w, op) then [op] else []
    case _ => []
  }

  ghost function After(evs: seq<Event>): World {
    if evs == [] then World(EMPTY, map[]) else Step(After(evs[..|evs| - 1]), evs[|evs| - 1])
  }

  ghost function Serial(evs: seq<Event>): seq<Op> {
    if evs == [] then [] else
    var init := evs[..|evs| - 1];
    Serial(init) + Emitted(After(init), evs[|evs| - 1])
  }

  // ---- What the locks keep ----

  /** The locked row is still what the transaction read, and its writes are those of one rotation. */
  ghost predicate TxOk(db: State, tx: Tx) {
    && tx.row in db.rows && db.rows[tx.row] == tx.seen
    && (!tx.Locked? ==> Verdict(tx.seen, tx.now) == Accept)
    && (Pending(tx) ==>
          && Unused(db, tx.newId, tx.added.hash)
          && tx.added == Fresh(tx.seen.user, tx.seen.provider, tx.added.hash, tx.now + tx.ttl))
    && (tx.Linked? ==>
          tx.updated == tx.seen.(revokedAt := Some(tx.now), reason := Some(Rotated), replacedBy := Some(tx.newId)))
  }

  ghost predicate Apart(a: Tx, b: Tx) {
    && a.row != b.row
    && (Pending(a) && Pending(b) ==> a.newId != b.newId && a.added.hash != b.added.hash)
  }

  ghost predicate Isolated(w: World) {
    && Sound(w.db)
    && (forall t :: t in w.txs ==> TxOk(w.db, w.txs[t]))
    && (forall t, u :: t in w.txs && u in w.txs && t != u ==> Apart(w.txs[t], w.txs[u]))
  }

  lemma PutKeepsIsolated(w: World, t: Tid, tx: Tx)
    requires Isolated(w) && TxOk(w.db, tx)
    requires forall u :: u in w.txs && u != t ==> Apart(tx, w.txs[u])
    ensures Isolated(w.(txs := w.txs[t := tx]))
  {
  }

  lemma TxStepKeepsIsolated(w: World, ev: Event)
    requires Isolated(w) && !ev.Commit? && !ev.Auto?
    ensures Isolated(Step(w, ev)) && Step(w, ev).db == w.db
  {
    var w' := Step(w, ev);
    if w' != w && ev.t in w'.txs {
      if ev.t in w.txs {
        assert TxOk(w.db, w.txs[ev.t]);
        assert forall u :: u in w.txs && u != ev.t ==> Apart(w.txs[ev.t], w.txs[u]);
      }
      PutKeepsIsolated(w, ev.t, w'.txs[ev.t]);
      assert w'.txs == w.txs[ev.t := w'.txs[ev.t]];
    }
  }

  /** A commit is one successful rotation of the ledger, with the verdict its lock protected. */
  lemma CommitIsRotation(w: World, t: Tid)
    requires Isolated(w) && t in w.txs && w.txs[t].Linked?
    ensures var tx := w.txs[t];
            var op := Rotate(tx.seen.hash, tx.newId, tx.added.hash, tx.now, tx.ttl);
            && Find(w.db.rows, op.hash) == Some(tx.row)
            && Succeeds(w.db, op) && Step(w, Commit(t)).db == Apply(w.db, op)
  {
    var tx := w.txs[t];
    assert TxOk(w.db, tx);
    RowIs(w.db.rows, tx.seen.hash, tx.row);
  }

  lemma OthersKeepTheirRows(db: State, op: Op, id: Id, other: Tx)
    requires Sound(db) && op.Rotate? && Succeeds(db, op) && Find(db.rows, op.hash) == Some(id)
    requires TxOk(db, other) && other.row != id
    requires Pending(other) ==> other.newId != op.newId && other.added.hash != op.newHash
    ensures TxOk(Apply(db, op), other)
  {
    RotationRows(db, op, id);
  }

  lemma CommitKeepsIsolated(w: World, t: Tid)
    requires Isolated(w) && t in w.txs && w.txs[t].Linked?
    ensures Isolated(Step(w, Commit(t)))
  {
    var tx := w.txs[t];
    var op := Rotate(tx.seen.hash, tx.newId, tx.added.hash, tx.now, tx.ttl);
    CommitIsRotation(w, t);
    ApplyKeepsSound(w.db, op);
    var db' := Step(w, Commit(t)).db;
    forall u | u in w.txs && u != t
      ensures TxOk(db', w.txs[u])
    {
      assert TxOk(w.db, w.txs[u]) && Apart(w.txs[u], tx);
      OthersKeepTheirRows(w.db, op, tx.row, w.txs[u]);
    }
  }

  lemma AutoKeepsIsolated(w: World, op: Op)
    requires Isolated(w) && CanRun(w, op)
    ensures Isolated(Step(w, Auto(op)))
  {
    ApplyKeepsSound(w.db, op);
    var db' := Apply(w.db, op);
    forall t | t in w.txs
      ensures TxOk(db', w.txs[t])
    {
      assert TxOk(w.db, w.txs[t]);
      if op.Login? && Pending(w.txs[t]) {
        assert w.txs[t].newId != op.id && w.txs[t].added.hash != op.hash;
      }
    }
  }

  lemma StepKeepsIsolated(w: World, ev: Event)
    requires Isolated(w)
    ensures Isolated(Step(w, ev))
  {
    if ev.Commit? {
      if ev.t in w.txs && w.txs[ev.t].Linked? {
        CommitKeepsIsolated(w, ev.t);
      }
    } else if ev.Auto? {
      if CanRun(w, ev.op) {
        AutoKeepsIsolated(w, ev.op);
      }
    } else {
      TxStepKeepsIsolated(w, ev);
    }
  }

  lemma {:induction false} AlwaysIsolated(evs: seq<Event>)
    ensures Isolated(After(evs))
  {
    if evs != [] {
      AlwaysIsolated(evs[..|evs| - 1]);
      StepKeepsIsolated(After(evs[..|evs| - 1]), evs[|evs| - 1]);
    }
  }

  // ---- Every interleaving is a run of the ledger ----

  lemma {:induction false} Serializable(evs: seq<Event>)
    ensures After(evs).db == Run(Serial(evs))
  {
    if evs != [] {
      var init, ev := evs[..|evs| - 1], evs[|evs| - 1];
      Serializable(init);
      AlwaysIsolated(init);
      var w := After(init);
      if ev.Commit? && ev.t in w.txs && w.txs[ev.t].Linked? {
        CommitIsRotation(w, ev.t);
        Unroll(Serial(init), Emitted(w, ev)[0]);
      } else if ev.Auto? && CanRun(w, ev.op) {
        Unroll(Serial(init), ev.op);
      } else {
        assert Emitted(w, ev) == [];
        assert Serial(evs) == Serial(init);
        if !ev.Commit? && !ev.Auto? {
          TxStepKeepsIsolated(w, ev);
        }
      }
    }
  }

  /** The events that commit a rotation of token `h`. */
  ghost function Commits(evs: seq<Event>, h: Hash): nat {
    if evs == [] then 0 else
    var init, ev := evs[..|evs| - 1], evs[|evs| - 1];
    var w := After(init);
    Commits(init, h)
    + if ev.Commit? && ev.t in w.txs && w.txs[ev.t].Linked? && w.txs[ev.t].seen.hash == h then 1 else 0
  }

  lemma {:induction false} CommitsAreRotations(evs: seq<Event>, h: Hash)
    ensures Commits(evs, h) == Rotations(Serial(evs), h)
  {
    if evs != [] {
      var init, ev := evs[..|evs| - 1], evs[|evs| - 1];
      CommitsAreRotations(init, h);
      Serializable(init);
      AlwaysIsolated(init);
      var w := After(init);
      if ev.Commit? && ev.t in w.txs && w.txs[ev.t].Linked? {
        CommitIsRotation(w, ev.t);
      }
      var out := Emitted(w, ev);
      if out == [] {
        assert Serial(evs) == Serial(init);
      } else {
        assert (Serial(init) + out)[..|Serial(init)|] == Serial(init);
      }
    }
  }

  /** However refreshes, logins and logouts interleave, one token commits at most one rotation. */
  lemma SingleUseUnderConcurrency(evs: seq<Event>, h: Hash)
    ensures Commits(evs, h) <= 1
  {
    CommitsAreRotations(evs, h);
    SingleUse(Serial(evs), h);
  }

  /** The verdict reached under the lock is the one the token's history calls for at that moment. */
  lemma JudgedByHistory(evs: seq<Event>, t: Tid, now: int)
    requires t in After(evs).txs && After(evs).txs[t].Locked?
    ensures var seen := After(evs).txs[t].seen;
            Verdict(seen, now) == Expected(Serial(evs), seen.hash, now)
  {
    AlwaysIsolated(evs);
    var w := After(evs);
    assert TxOk(w.db, w.txs[t]);
    RowIs(w.db.rows, w.txs[t].seen.hash, w.txs[t].row);
    Serializable(evs);
    AnswersFollowHistory(Serial(evs), w.txs[t].seen.hash, now);
  }

  /** Two open rotations never hold the same token: the second waits for the first. */
  lemma OneRotationAtATime(evs: seq<Event>, t: Tid, u: Tid)
    requires t in After(evs).txs && u in After(evs).txs
    requires After(evs).txs[t].seen.hash == After(evs).txs[u].seen.hash
    ensures t == u
  {
    AlwaysIsolated(evs);
    var w := After(evs);
    assert TxOk(w.db, w.txs[t]) && TxOk(w.db, w.txs[u]);
    assert w.txs[t].row == w.txs[u].row;
  }
}
