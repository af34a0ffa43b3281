/**
 * The Apple subscription table and the entitlements it stands for
 * (internal/server/routes_iap_apple_webhook.go, internal/appleiap/service.go).
 *
 * A lineage grants access exactly when its user holds an active apple_iap row with the same
 * expiry.  The schema does not enforce this, and two things can break it: a second lineage of
 * one user, and a lineage handed over to another user.  The condition below says exactly when.
 */
module AppleCoupling {
  import opened Base
  import D = Decisions
  import E = Entitlements
  import opened Webhooks

  function AppleKey(user: User): E.Key {
    (user, E.AppleIap)
  }

  /** The lineage and the entitlement map agree. */
  ghost predicate Agrees(m: map<E.Key, Option<int>>, l: Lineage) {
    && l.product == E.PRO
    && (D.Grants(l.status) ==> AppleKey(l.user) in m && m[AppleKey(l.user)] == l.expiresAt)
    && (!D.Grants(l.status) ==> AppleKey(l.user) !in m)
  }

  ghost predicate HasLineage(lineages: map<string, Lineage>, user: User) {
    exists o :: o in lineages && lineages[o].user == user
  }

  ghost predicate CoupledTo(lineages: map<string, Lineage>, m: map<E.Key, Option<int>>) {
    && (forall o :: o in lineages ==> Agrees(m, lineages[o]))
    && (forall user :: AppleKey(user) in m ==> HasLineage(lineages, user))
  }

  ghost predicate Coupled(s: Sys) {
    CoupledTo(s.lineages, E.Abs(s.rows))
  }

  // ---- Exactly when one step keeps it ----

  /** Every other lineage of `user` already says what lineage `orig` is about to say. */
  ghost predicate OthersConcur(
      lineages: map<string, Lineage>, orig: string, user: User, grants: bool, exp: Option<int>)
  {
    forall o :: o in lineages && o != orig && lineages[o].user == user ==>
      D.Grants(lineages[o].status) == grants && (grants ==> lineages[o].expiresAt == exp)
  }

  /** Taking lineage `orig` away from its present user strands no active entitlement. */
  ghost predicate MayMove(lineages: map<string, Lineage>, orig: string, user: User) {
    orig in lineages && lineages[orig].user != user && D.Grants(lineages[orig].status) ==>
      exists o :: o in lineages && o != orig && lineages[o].user == lineages[orig].user
  }

  /** What a caller can check before a delivery. */
  ghost predicate Safe(s: Sys, d: Delivery) {
    OutcomeOf(s, d) == Ok ==>
      match d
      case AppleEvent(_, _, _, p, _, _, _, _) =>
        Linked(s, p) ==>
          OthersConcur(s.lineages, p.originalId, s.lineages[p.originalId].user, D.Grants(StatusOf(d)), D.ExpiresAt(p))
      case Validate(user, p, _, _, _, _) =>
        OthersConcur(s.lineages, p.originalId, user, true, D.ExpiresAt(p)) && MayMove(s.lineages, p.originalId, user)
      case _ => true
  }

  /** Writing one lineage together with its user's entitlement keeps the coupling iff nobody is left contradicted. */
  lemma WriteCoupledExactly(
      lineages: map<string, Lineage>, m: map<E.Key, Option<int>>, orig: string, l: Lineage, m': map<E.Key, Option<int>>)
    requires CoupledTo(lineages, m) && l.product == E.PRO
    requires m' == if D.Grants(l.status) then m[AppleKey(l.user) := l.expiresAt] else m - {AppleKey(l.user)}
    ensures CoupledTo(lineages[orig := l], m') <==>
              OthersConcur(lineages, orig, l.user, D.Grants(l.status), l.expiresAt) && MayMove(lineages, orig, l.user)
  {
    var after := lineages[orig := l];
    if OthersConcur(lineages, orig, l.user, D.Grants(l.status), l.expiresAt) && MayMove(lineages, orig, l.user) {
      SafeWriteCouples(lineages, m, orig, l, m');
    }
    if CoupledTo(after, m') {
      forall o | o in lineages && o != orig && lineages[o].user == l.user
        ensures D.Grants(lineages[o].status) == D.Grants(l.status)
        ensures D.Grants(l.status) ==> lineages[o].expiresAt == l.expiresAt
      {
        assert after[o] == lineages[o] && Agrees(m', after[o]) && Agrees(m', after[orig]);
      }
      if orig in lineages && lineages[orig].user != l.user && D.Grants(lineages[orig].status) {
        var loser := lineages[orig].user;
        assert Agrees(m, lineages[orig]);
        assert AppleKey(loser) in m' && HasLineage(after, loser);
        var o :| o in after && after[o].user == loser;
        assert o in lineages && o != orig && lineages[o].user == loser;
      }
    }
  }

  lemma SafeWriteCouples(
      lineages: map<string, Lineage>, m: map<E.Key, Option<int>>, orig: string, l: Lineage, m': map<E.Key, Option<int>>)
    requires CoupledTo(lineages, m) && l.product == E.PRO
    requires m' == if D.Grants(l.status) then m[AppleKey(l.user) := l.expiresAt] else m - {AppleKey(l.user)}
    requires OthersConcur(lineages, orig, l.user, D.Grants(l.status), l.expiresAt) && MayMove(lineages, orig, l.user)
    ensures CoupledTo(lineages[orig := l], m')
  {
    var after := lineages[orig := l];
    forall o | o in after
      ensures Agrees(m', after[o])
    {
      if o != orig {
        assert Agrees(m, lineages[o]);
      }
    }
    forall user | AppleKey(user) in m'
      ensures HasLineage(after, user)
    {
      if user == l.user {
        assert after[orig].user == user;
      } else {
        assert AppleKey(user) in m && HasLineage(lineages, user);
        var o :| o in lineages && lineages[o].user == user;
        if o != orig {
          assert after[o].user == user;
        } else {
          assert Agrees(m, lineages[orig]);
          var o' :| o' in lineages && o' != orig && lineages[o'].user == user;
          assert after[o'].user == user;
        }
      }
    }
  }

  /** Operations on other sources leave the Apple part of the map alone. */
  lemma OtherSourcesKeepCoupling(lineages: map<string, Lineage>, m: map<E.Key, Option<int>>, op: E.Op)
    requires CoupledTo(lineages, m)
    requires match op
             case Upsert(_, source, _, _) => source != E.AppleIap
             case Withdraw(_, source) => source != E.AppleIap
             case OutOfBand(row) => row.source != E.AppleIap
    ensures CoupledTo(lineages, E.ApplyAbs(m, op))
  {
    var m' := E.ApplyAbs(m, op);
    forall user
      ensures AppleKey(user) in m' <==> AppleKey(user) in m
      ensures AppleKey(user) in m ==> m'[AppleKey(user)] == m[AppleKey(user)]
    {
    }
    forall o | o in lineages
      ensures Agrees(m', lineages[o])
    {
      assert Agrees(m, lineages[o]);
    }
  }

  lemma DeliverAbs(s: Sys, d: Delivery)
    ensures OpsOf(s, d) == [] ==> Deliver(s, d).rows == s.rows
    ensures OpsOf(s, d) != [] ==> E.Abs(Deliver(s, d).rows) == E.ApplyAbs(E.Abs(s.rows), OpsOf(s, d)[0])
  {
    DeliverRows(s, d);
    OpsAllowed(s, d);
    if OpsOf(s, d) != [] {
      OneOp(s.rows, OpsOf(s, d));
      E.ApplyRefines(s.rows, OpsOf(s, d)[0]);
    }
  }

  /** Every delivery keeps lineages and entitlements in agreement exactly when it is safe. */
  lemma CouplingExactly(s: Sys, d: Delivery)
    requires Coupled(s)
    ensures Coupled(Deliver(s, d)) <==> Safe(s, d)
  {
    DeliverAbs(s, d);
    if OutcomeOf(s, d) == Ok {
      var s', m := Deliver(s, d), E.Abs(s.rows);
      if d.Validate? {
        WriteCoupledExactly(s.lineages, m, d.payload.originalId, s'.lineages[d.payload.originalId], E.Abs(s'.rows));
      } else if d.AppleEvent? && Linked(s, d.payload) {
        assert Agrees(m, s.lineages[d.payload.originalId]);
        WriteCoupledExactly(s.lineages, m, d.payload.originalId, s'.lineages[d.payload.originalId], E.Abs(s'.rows));
      } else if OpsOf(s, d) != [] {
        OtherSourcesKeepCoupling(s.lineages, m, OpsOf(s, d)[0]);
      }
    }
  }

  // ---- Runs ----

  /** A lineage is validated only by its own user, and no user validates a second one. */
  ghost predicate Disciplined(s: Sys, d: Delivery) {
    d.Validate? && OutcomeOf(s, d) == Ok ==>
      && (d.payload.originalId in s.lineages ==> s.lineages[d.payload.originalId].user == d.user)
      && (d.payload.originalId !in s.lineages ==> !HasLineage(s.lineages, d.user))
  }

  ghost predicate AllDisciplined(ds: seq<Delivery>) {
    ds != [] ==> AllDisciplined(ds[..|ds| - 1]) && Disciplined(Run(ds[..|ds| - 1]), ds[|ds| - 1])
  }

  ghost predicate OneLineageEach(lineages: map<string, Lineage>) {
    forall o, p :: o in lineages && p in lineages && lineages[o].user == lineages[p].user ==> o == p
  }

  /** With one lineage per user and no handing over, the two tables agree after every run. */
  lemma {:induction false} AlwaysCoupled(ds: seq<Delivery>)
    requires AllDisciplined(ds)
    ensures Coupled(Run(ds)) && OneLineageEach(Run(ds).lineages)
  {
    if ds != [] {
      var init, d := ds[..|ds| - 1], ds[|ds| - 1];
      var s := Run(init);
      AlwaysCoupled(init);
      DisciplineIsSafe(s, d);
      CouplingExactly(s, d);
    }
  }

  lemma DisciplineIsSafe(s: Sys, d: Delivery)
    requires OneLineageEach(s.lineages) && Disciplined(s, d)
    ensures Safe(s, d) && OneLineageEach(Deliver(s, d).lineages)
  {
    if d.Validate? && OutcomeOf(s, d) == Ok {
      var orig, after := d.payload.originalId, Deliver(s, d).lineages;
      forall o, p | o in after && p in after && after[o].user == after[p].user
        ensures o == p
      {
        assert o != orig ==> after[o] == s.lineages[o];
        assert p != orig ==> after[p] == s.lineages[p];
      }
    }
  }

  /** Every lineage ever written is for the Pro product, so every notification reaches the entitlements. */
  lemma {:induction false} LineagesArePro(ds: seq<Delivery>)
    ensures forall o :: o in Run(ds).lineages ==> Run(ds).lineages[o].product == E.PRO
  {
    if ds != [] {
      LineagesArePro(ds[..|ds| - 1]);
    }
  }

  /** An Apple grant is honoured: right after it, the access check at its decision time succeeds. */
  lemma AppleGrantsAreHonoured(ds: seq<Delivery>, d: Delivery)
    requires d.AppleEvent? || d.Validate?
    requires OutcomeOf(Run(ds), d) == Ok
    requires d.AppleEvent? ==> Linked(Run(ds), d.payload) && D.Grants(StatusOf(d))
    ensures var user := if d.Validate? then d.user else Run(ds).lineages[d.payload.originalId].user;
            E.HasActivePro(Deliver(Run(ds), d).rows, user, d.now)
  {
    var s := Run(ds);
    LineagesArePro(ds);
    DeliverRows(s, d);
    OneOp(s.rows, OpsOf(s, d));
    var op := OpsOf(s, d)[0];
    E.UpsertGrants(s.rows, op.user, E.AppleIap, op.exp, op.now, d.now);
  }

  /**
   * Handing a user's only, granting lineage to somebody else leaves that user with the access, and
   * with no lineage that a notification could withdraw it through.
   */
  lemma RelinkStrandsAccess(s: Sys, d: Delivery, t: int)
    requires Coupled(s) && E.Serial(s.rows) && d.Validate? && OutcomeOf(s, d) == Ok
    requires d.payload.originalId in s.lineages
    requires var l := s.lineages[d.payload.originalId];
             && l.user != d.user && D.Grants(l.status) && E.Unexpired(l.expiresAt, t)
             && forall o :: o in s.lineages && s.lineages[o].user == l.user ==> o == d.payload.originalId
    ensures var user := s.lineages[d.payload.originalId].user;
            && E.HasActivePro(Deliver(s, d).rows, user, t)
            && !HasLineage(Deliver(s, d).lineages, user)
            && !Coupled(Deliver(s, d))
  {
    var l, s' := s.lineages[d.payload.originalId], Deliver(s, d);
    assert Agrees(E.Abs(s.rows), l);
    DeliverAbs(s, d);
    OpsAllowed(s, d);
    OneOp(s.rows, OpsOf(s, d));
    E.ApplyKeepsSerial(s.rows, OpsOf(s, d)[0]);
    assert E.Granted(E.Abs(s'.rows), l.user, t);
    E.ReadsRefine(s'.rows, l.user, t);
  }

  /** The user has Apple access until `exp` and no lineage. */
  ghost predicate Stranded(s: Sys, user: User, exp: Option<int>) {
    && E.Serial(s.rows) && !HasLineage(s.lineages, user)
    && AppleKey(user) in E.Abs(s.rows) && E.Abs(s.rows)[AppleKey(user)] == exp
  }

  /** Only the user's own validation gives him a lineage again. */
  lemma DeliveryLeavesStranded(s: Sys, d: Delivery, user: User, exp: Option<int>)
    requires Stranded(s, user, exp) && !(d.Validate? && d.user == user)
    ensures Stranded(Deliver(s, d), user, exp)
  {
    DeliverAbs(s, d);
    DeliverRows(s, d);
    OpsAllowed(s, d);
    if OpsOf(s, d) != [] {
      OneOp(s.rows, OpsOf(s, d));
      E.ApplyKeepsSerial(s.rows, OpsOf(s, d)[0]);
      assert E.Allowed(OpsOf(s, d)[0]);
    }
    var after := Deliver(s, d).lineages;
    forall o | o in after
      ensures after[o].user != user
    {
      if o in s.lineages { assert s.lineages[o].user != user; }
    }
  }

  function DeliverAll(s: Sys, ds: seq<Delivery>): Sys {
    if ds == [] then s else Deliver(DeliverAll(s, ds[..|ds| - 1]), ds[|ds| - 1])
  }

  ghost predicate NoValidationBy(ds: seq<Delivery>, user: User) {
    forall i :: 0 <= i < |ds| && ds[i].Validate? ==> ds[i].user != user
  }

  lemma {:induction false} StaysStranded(s: Sys, ds: seq<Delivery>, user: User, exp: Option<int>)
    requires Stranded(s, user, exp) && NoValidationBy(ds, user)
    ensures Stranded(DeliverAll(s, ds), user, exp)
  {
    if ds != [] {
      StaysStranded(s, ds[..|ds| - 1], user, exp);
      DeliveryLeavesStranded(DeliverAll(s, ds[..|ds| - 1]), ds[|ds| - 1], user, exp);
    }
  }

  /**
   * For good: no notification, no event and no validation by anybody else, in any number, takes
   * the access away before it expires.
   */
  lemma StrandedForGood(s: Sys, d: Delivery, more: seq<Delivery>, t: int)
    requires Coupled(s) && E.Serial(s.rows) && d.Validate? && OutcomeOf(s, d) == Ok
    requires d.payload.originalId in s.lineages
    requires var l := s.lineages[d.payload.originalId];
             && l.user != d.user && D.Grants(l.status) && E.Unexpired(l.expiresAt, t)
             && (forall o :: o in s.lineages && s.lineages[o].user == l.user ==> o == d.payload.originalId)
             && NoValidationBy(more, l.user)
    ensures var user := s.lineages[d.payload.originalId].user;
            E.HasActivePro(DeliverAll(Deliver(s, d), more).rows, user, t)
  {
    var l, s' := s.lineages[d.payload.originalId], Deliver(s, d);
    RelinkStrandsAccess(s, d, t);
    assert Agrees(E.Abs(s.rows), l);
    DeliverAbs(s, d);
    DeliverRows(s, d);
    OpsAllowed(s, d);
    OneOp(s.rows, OpsOf(s, d));
    E.ApplyKeepsSerial(s.rows, OpsOf(s, d)[0]);
    StaysStranded(s', more, l.user, l.expiresAt);
    var rows := DeliverAll(s', more).rows;
    assert E.Granted(E.Abs(rows), l.user, t);
    E.ReadsRefine(rows, l.user, t);
  }
}
