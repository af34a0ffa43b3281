/**
 * The entitlement table: rows are revoked and re-inserted, never overwritten
 * (internal/entitlement/store.go, internal/entitlement/stripe.go).
 *
 * A table of rows that only grows refines a plain map from (user, source) to an expiry.
 */
module Entitlements {
  import opened Base

  type User = nat

  datatype Source = Dev | AppleIap | Stripe | Owner | Admin | Internal | External | Promo | Gift | FriendLifetime
  datatype Status = Active | Lapsed | Revoked

  const PRO := "pro"

  datatype Row = Row(
    user: User, product: string, status: Status, source: Source, expiresAt: Option<int>, createdAt: int)

  type Key = (User, Source)

  /** The sources whose rows the server itself revokes and re-inserts. */
  predicate Managed(source: Source) {
    source == Dev || source == AppleIap || source == Stripe
  }

  // ---- The statements ----

  predicate Matches(r: Row, user: User, source: Source) {
    r.user == user && r.product == PRO && r.source == source && r.status == Active
  }

  /** UPDATE ... SET status = 'revoked' WHERE user, product, source and status = 'active'. */
  function RevokeAll(rows: seq<Row>, user: User, source: Source): (r: seq<Row>)
    ensures |r| == |rows|
    ensures forall i :: 0 <= i < |rows| ==>
              r[i] == if Matches(rows[i], user, source) then rows[i].(status := Revoked) else rows[i]
  {
    seq(|rows|, i requires 0 <= i < |rows| =>
      if Matches(rows[i], user, source) then rows[i].(status := Revoked) else rows[i])
  }

  function Upserted(rows: seq<Row>, user: User, source: Source, exp: Option<int>, now: int): seq<Row> {
    RevokeAll(rows, user, source) + [Row(user, PRO, Active, source, exp, now)]
  }

  predicate Unexpired(exp: Option<int>, t: int) {
    exp.None? || exp.value > t
  }

  /** The WHERE clause of both reads. */
  predicate Current(r: Row, user: User, t: int) {
    r.user == user && r.product == PRO && r.status == Active && Unexpired(r.expiresAt, t)
  }

  predicate HasActivePro(rows: seq<Row>, user: User, t: int) {
    exists i :: 0 <= i < |rows| && Current(rows[i], user, t)
  }

  /** Row `i` is one that ORDER BY created_at DESC LIMIT 1 may return. */
  predicate Newest(rows: seq<Row>, user: User, t: int, i: int) {
    && 0 <= i < |rows| && Current(rows[i], user, t)
    && forall j :: 0 <= j < |rows| && Current(rows[j], user, t) ==> rows[j].createdAt <= rows[i].createdAt
  }

  lemma {:induction false} NewestExists(rows: seq<Row>, user: User, t: int)
    requires HasActivePro(rows, user, t)
    ensures exists i :: Newest(rows, user, t, i)
  {
    var n := |rows| - 1;
    var init := rows[..n];
    if HasActivePro(init, user, t) {
      NewestExists(init, user, t);
      var i :| Newest(init, user, t, i);
      assert forall j :: 0 <= j < n ==> rows[j] == init[j];
      if Current(rows[n], user, t) && rows[n].createdAt > rows[i].createdAt {
        assert Newest(rows, user, t, n);
      } else {
        assert Newest(rows, user, t, i);
      }
    } else {
      assert forall j :: 0 <= j < n ==> rows[j] == init[j];
      assert Newest(rows, user, t, n);
    }
  }

  // ---- The abstract map ----

  /** What the table grants: the expiry of the active Pro row of each user and source, the latest if several. */
  function Abs(rows: seq<Row>): map<Key, Option<int>> {
    if rows == [] then map[]
    else
      var r, init := rows[|rows| - 1], rows[..|rows| - 1];
      if r.product == PRO && r.status == Active then Abs(init)[(r.user, r.source) := r.expiresAt] else Abs(init)
  }

  predicate AtMostOne(rows: seq<Row>, user: User, source: Source) {
    forall i, j :: 0 <= i < |rows| && 0 <= j < |rows| && Matches(rows[i], user, source) ==>
                     Matches(rows[j], user, source) ==> i == j
  }

  lemma {:induction false} AbsHas(rows: seq<Row>, user: User, source: Source)
    ensures (user, source) in Abs(rows) <==> exists i :: 0 <= i < |rows| && Matches(rows[i], user, source)
    ensures forall i :: AtMostOne(rows, user, source) && 0 <= i < |rows| && Matches(rows[i], user, source) ==>
                          (user, source) in Abs(rows) && Abs(rows)[(user, source)] == rows[i].expiresAt
    decreases |rows|
  {
    if rows != [] {
      var n, init := |rows| - 1, rows[..|rows| - 1];
      AbsHas(init, user, source);
      assert forall j :: 0 <= j < n ==> rows[j] == init[j];
      if (user, source) in Abs(init) {
        var i :| 0 <= i < n && Matches(init[i], user, source);
        assert Matches(rows[i], user, source);
      }
    }
  }

  lemma {:induction false} AbsRevokeAll(rows: seq<Row>, user: User, source: Source)
    ensures Abs(RevokeAll(rows, user, source)) == Abs(rows) - {(user, source)}
    decreases |rows|
  {
    if rows != [] {
      var init, r := rows[..|rows| - 1], rows[|rows| - 1];
      AbsRevokeAll(init, user, source);
      var last := if Matches(r, user, source) then r.(status := Revoked) else r;
      assert RevokeAll(rows, user, source) == RevokeAll(init, user, source) + [last];
      assert rows == init + [r];
      hide RevokeAll, Abs;
      AbsAppend(RevokeAll(init, user, source), last);
      AbsAppend(init, r);
      AbsRevokesOne(Abs(init), r, user, source);
    }
  }

  /** One row more: revoking it takes its key away, and no other row's. */
  lemma AbsRevokesOne(m: map<Key, Option<int>>, r: Row, user: User, source: Source)
    ensures var last := if Matches(r, user, source) then r.(status := Revoked) else r;
            ApplyAbs(m - {(user, source)}, OutOfBand(last)) == ApplyAbs(m, OutOfBand(r)) - {(user, source)}
  {
  }

  lemma AbsUpserted(rows: seq<Row>, user: User, source: Source, exp: Option<int>, now: int)
    ensures Abs(Upserted(rows, user, source, exp, now)) == Abs(rows)[(user, source) := exp]
  {
    AbsRevokeAll(rows, user, source);
    var r := Row(user, PRO, Active, source, exp, now);
    assert Upserted(rows, user, source, exp, now)[..|rows|] == RevokeAll(rows, user, source);
  }

  lemma AbsAppend(rows: seq<Row>, r: Row)
    ensures Abs(rows + [r]) ==
              if r.product == PRO && r.status == Active then Abs(rows)[(r.user, r.source) := r.expiresAt] else Abs(rows)
  {
    assert (rows + [r])[..|rows|] == rows;
  }

  /** One serial upsert leaves exactly one active row, one serial revoke none, whatever was there before. */
  lemma SerialWritesRestore(rows: seq<Row>, user: User, source: Source, exp: Option<int>, now: int)
    ensures AtMostOne(Upserted(rows, user, source, exp, now), user, source)
    ensures Matches(Upserted(rows, user, source, exp, now)[|rows|], user, source)
    ensures forall i :: 0 <= i < |rows| ==> !Matches(RevokeAll(rows, user, source)[i], user, source)
  {
  }

  // ---- Runs of serial transactions ----

  datatype Op =
    | Upsert(user: User, source: Source, exp: Option<int>, now: int)
    | Withdraw(user: User, source: Source)
    | OutOfBand(row: Row)  // inserted by hand: owner, promo, gift, ...

  predicate Allowed(op: Op) {
    match op
    case Upsert(_, source, _, _) => Managed(source)
    case Withdraw(_, source) => Managed(source)
    case OutOfBand(row) => !Managed(row.source)
  }

  function Apply(rows: seq<Row>, op: Op): seq<Row> {
    match op
    case Upsert(user, source, exp, now) => Upserted(rows, user, source, exp, now)
    case Withdraw(user, source) => RevokeAll(rows, user, source)
    case OutOfBand(row) => rows + [row]
  }

  /** The same operation on the abstract map. */
  function ApplyAbs(m: map<Key, Option<int>>, op: Op): map<Key, Option<int>> {
    match op
    case Upsert(user, source, exp, _) => m[(user, source) := exp]
    case Withdraw(user, source) => m - {(user, source)}
    case OutOfBand(r) => if r.product == PRO && r.status == Active then m[(r.user, r.source) := r.expiresAt] else m
  }

  function Run(rows: seq<Row>, ops: seq<Op>): seq<Row> {
    if ops == [] then rows else Apply(Run(rows, ops[..|ops| - 1]), ops[|ops| - 1])
  }

  function Fold(m: map<Key, Option<int>>, ops: seq<Op>): map<Key, Option<int>> {
    if ops == [] then m else ApplyAbs(Fold(m, ops[..|ops| - 1]), ops[|ops| - 1])
  }

  lemma ApplyRefines(rows: seq<Row>, op: Op)
    ensures Abs(Apply(rows, op)) == ApplyAbs(Abs(rows), op)
  {
    match op
    case Upsert(user, source, exp, now) => AbsUpserted(rows, user, source, exp, now);
    case Withdraw(user, source) => AbsRevokeAll(rows, user, source);
    case OutOfBand(row) => AbsAppend(rows, row);
  }

  /** Revoking and re-inserting rows computes exactly a map update. */
  lemma {:induction false} TableRefinesMap(rows: seq<Row>, ops: seq<Op>)
    ensures Abs(Run(rows, ops)) == Fold(Abs(rows), ops)
  {
    if ops != [] {
      TableRefinesMap(rows, ops[..|ops| - 1]);
      ApplyRefines(Run(rows, ops[..|ops| - 1]), ops[|ops| - 1]);
    }
  }

  /** In a table written by serial transactions no user has two active rows of a managed source. */
  ghost predicate Serial(rows: seq<Row>) {
    forall user, source :: Managed(source) ==> AtMostOne(rows, user, source)
  }

  lemma ApplyKeepsSerial(rows: seq<Row>, op: Op)
    requires Serial(rows) && Allowed(op)
    ensures Serial(Apply(rows, op))
  {
    var rows' := Apply(rows, op);
    forall user, source | Managed(source)
      ensures AtMostOne(rows', user, source)
    {
      assert AtMostOne(rows, user, source);
      assert forall i :: 0 <= i < |rows| && Matches(rows'[i], user, source) ==> Matches(rows[i], user, source);
      if op.Upsert? && op.user == user && op.source == source {
        SerialWritesRestore(rows, user, source, op.exp, op.now);
      }
    }
  }

  /** Rows are never removed or edited, except that an active row may be revoked, for good. */
  ghost predicate Extends(before: seq<Row>, after: seq<Row>) {
    && |before| <= |after|
    && forall i :: 0 <= i < |before| ==>
         after[i] == before[i] || (before[i].status == Active && after[i] == before[i].(status := Revoked))
  }

  /** A run touches nothing but the active rows of the users and sources it names. */
  lemma {:induction false} RunExtends(rows: seq<Row>, ops: seq<Op>)
    ensures Extends(rows, Run(rows, ops))
    ensures forall i :: 0 <= i < |rows| && Run(rows, ops)[i] != rows[i] ==>
              exists op :: op in ops && !op.OutOfBand? && op.user == rows[i].user && op.source == rows[i].source
    decreases |ops|
  {
    if ops != [] {
      var init, op := ops[..|ops| - 1], ops[|ops| - 1];
      RunExtends(rows, init);
      var mid, end := Run(rows, init), Run(rows, ops);
      forall i | 0 <= i < |rows| && end[i] != rows[i]
        ensures exists op :: op in ops && !op.OutOfBand? && op.user == rows[i].user && op.source == rows[i].source
      {
        if mid[i] != rows[i] {
          var op' :| op' in init && !op'.OutOfBand? && op'.user == rows[i].user && op'.source == rows[i].source;
          assert op' in ops;
        } else {
          assert op in ops;
        }
      }
    }
  }

  // ---- Reads ----

  /** Some source the server manages grants unexpired access, according to the map. */
  predicate Granted(m: map<Key, Option<int>>, user: User, t: int) {
    exists source :: Managed(source) && (user, source) in m && Unexpired(m[(user, source)], t)
  }

  predicate GrantedOutOfBand(rows: seq<Row>, user: User, t: int) {
    exists i :: 0 <= i < |rows| && !Managed(rows[i].source) && Current(rows[i], user, t)
  }

  /** The access check reads the map, plus whatever was inserted by hand. */
  lemma ReadsRefine(rows: seq<Row>, user: User, t: int)
    requires Serial(rows)
    ensures HasActivePro(rows, user, t) <==> Granted(Abs(rows), user, t) || GrantedOutOfBand(rows, user, t)
  {
    if HasActivePro(rows, user, t) {
      var i :| 0 <= i < |rows| && Current(rows[i], user, t);
      if Managed(rows[i].source) {
        AbsHas(rows, user, rows[i].source);
        assert Matches(rows[i], user, rows[i].source) && AtMostOne(rows, user, rows[i].source);
      }
    }
    if Granted(Abs(rows), user, t) {
      var source :| Managed(source) && (user, source) in Abs(rows) && Unexpired(Abs(rows)[(user, source)], t);
      AbsHas(rows, user, source);
      assert AtMostOne(rows, user, source);
      var i :| 0 <= i < |rows| && Matches(rows[i], user, source);
      assert Current(rows[i], user, t);
    }
  }

  /** Access is an active Pro row of the user that has not expired, and nothing else is. */
  lemma AccessExactly(rows: seq<Row>, user: User, t: int)
    ensures HasActivePro(rows, user, t) <==>
              exists r :: r in rows && r.user == user && r.product == "pro" && r.status == Active &&
                          (r.expiresAt.None? || r.expiresAt.value > t)
  {
    if HasActivePro(rows, user, t) {
      var i :| 0 <= i < |rows| && Current(rows[i], user, t);
      assert rows[i] in rows;
    }
    if r :| r in rows && r.user == user && r.product == "pro" && r.status == Active &&
            (r.expiresAt.None? || r.expiresAt.value > t) {
      var i :| 0 <= i < |rows| && rows[i] == r;
      assert Current(rows[i], user, t);
    }
  }

  /** Once every expiry of a user has passed, the user has no access, revoked or not. */
  lemma AccessEnds(rows: seq<Row>, user: User, t: int)
    requires forall r :: r in rows && r.user == user ==> r.expiresAt.Some? && r.expiresAt.value <= t
    ensures !HasActivePro(rows, user, t)
  {
    AccessExactly(rows, user, t);
  }

  /** An upsert whose expiry lies ahead makes the access check succeed. */
  lemma UpsertGrants(rows: seq<Row>, user: User, source: Source, exp: Option<int>, now: int, t: int)
    requires Unexpired(exp, t)
    ensures HasActivePro(Upserted(rows, user, source, exp, now), user, t)
  {
    assert Current(Upserted(rows, user, source, exp, now)[|rows|], user, t);
  }

  // ---- The store ----

  /** CommitReplyLost is a commit that is carried out and reports an error. */
  datatype Fault = NoFault | UpdateFails | InsertFails | CommitFails | CommitReplyLost

  class EntitlementStore {
    var rows: seq<Row>

    constructor ()
      ensures rows == []
    {
      rows := [];
    }

    method UpdateRevoked(user: User, source: Source)
      modifies this
      ensures rows == RevokeAll(old(rows), user, source)
    {
      rows := RevokeAll(rows, user, source);
    }

    method InsertActive(user: User, source: Source, exp: Option<int>, now: int)
      modifies this
      ensures rows == old(rows) + [Row(user, PRO, Active, source, exp, now)]
    {
      rows := rows + [Row(user, PRO, Active, source, exp, now)];
    }

    /** UpsertAppleIAPPro and UpsertStripePro: two statements in the caller's transaction. */
    method UpsertPro(user: User, source: Source, exp: Option<int>, now: int)
      requires source == AppleIap || source == Stripe
      modifies this
      ensures rows == Upserted(old(rows), user, source, exp, now)
      ensures |rows| == |old(rows)| + 1 && rows[|old(rows)|] == Row(user, "pro", Active, source, exp, now)
      ensures Abs(rows) == Abs(old(rows))[(user, source) := exp]
    {
      AbsUpserted(rows, user, source, exp, now);
      UpdateRevoked(user, source);
      InsertActive(user, source, exp, now);
    }

    /** RevokeAppleIAPPro and RevokeStripePro. */
    method RevokePro(user: User, source: Source)
      requires source == AppleIap || source == Stripe
      modifies this
      ensures rows == RevokeAll(old(rows), user, source)
      ensures Abs(rows) == Abs(old(rows)) - {(user, source)}
    {
      AbsRevokeAll(rows, user, source);
      UpdateRevoked(user, source);
    }

    /** The development switch, in a transaction of its own. */
    method SetDevPro(user: User, active: bool, now: int, fault: Fault) returns (ok: bool)
      modifies this
      ensures ok <==> fault == NoFault || (fault == InsertFails && !active)
      ensures var op := if active then Upsert(user, Dev, None, now) else Withdraw(user, Dev);
              rows == if ok || fault == CommitReplyLost then Apply(old(rows), op) else old(rows)
      ensures ok ==> Abs(rows) == if active then Abs(old(rows))[(user, Dev) := None] else Abs(old(rows)) - {(user, Dev)}
    {
      AbsUpserted(rows, user, Dev, None, now);
      AbsRevokeAll(rows, user, Dev);
      hide Abs, RevokeAll;
      var snapshot := rows;
      if fault == UpdateFails {
        return false;
      }
      UpdateRevoked(user, Dev);
      if active {
        if fault == InsertFails {
          rows := snapshot;
          return false;
        }
        InsertActive(user, Dev, None, now);
      }
      if fault == CommitFails {
        rows := snapshot;
        return false;
      }
      return fault != CommitReplyLost;
    }

    /** A query: source and expiry of the newest current row. */
    method ActiveProAccess(user: User, t: int) returns (access: Option<(Source, Option<int>)>)
      ensures access.Some? <==> HasActivePro(rows, user, t)
      ensures access.Some? ==>
                exists i :: && 0 <= i < |rows| && access.value == (rows[i].source, rows[i].expiresAt)
                            && rows[i].user == user && rows[i].product == "pro" && rows[i].status == Active
                            && (rows[i].expiresAt.None? || rows[i].expiresAt.value > t)
                            && forall j :: 0 <= j < |rows| && rows[j].createdAt > rows[i].createdAt ==>
                                             !Current(rows[j], user, t)
      ensures access.Some? ==>
                exists i :: Newest(rows, user, t, i) && access.value == (rows[i].source, rows[i].expiresAt)
    {
      if i :| 0 <= i < |rows| && Newest(rows, user, t, i) {
        access := Some((rows[i].source, rows[i].expiresAt));
      } else {
        if HasActivePro(rows, user, t) {
          NewestExists(rows, user, t);
        }
        access := None;
      }
    }
  }
}
