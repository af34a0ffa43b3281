/**
 * Everything that writes entitlements, in overlapping transactions (internal/server/routes_webhook.go,
 * internal/server/routes_iap_apple_webhook.go, internal/appleiap/service.go, internal/entitlement).
 *
 * A transaction goes through up to four steps.  An event inserts its id, which waits for an open
 * transaction with the same id.  It reads, without a lock, the subscription row or the Stripe
 * customer, and so knows what it is going to do.  Its UPDATE revokes the active rows it sees, which
 * are the committed ones; should it have to wait for another UPDATE, it still revokes no more than
 * it saw.  Its INSERT comes with the commit.  The writes of an open transaction are invisible to all
 * others, and writers of one subscription row wait for each other, so that this row can be taken to
 * be written at the commit as well.
 */
module ConcurrentDeliveries {
  import opened Base
  import D = Decisions
  import E = Entitlements
  import opened Webhooks
  import C = AppleCoupling

  type Tid = nat

  /** What a transaction has read and concluded: whether there is a subscription row, and what to write. */
  datatype Plan = Plan(linked: bool, ops: seq<E.Op>)

  /** `seen` are the positions of the rows that its UPDATE saw active. */
  datatype Tx = Tx(d: Delivery, plan: Option<Plan>, seen: Option<set<nat>>)

  datatype World = World(sys: Sys, txs: map<Tid, Tx>)

  datatype Event =
    | Begin(t: Tid, d: Delivery)
    | Look(t: Tid)
    | Update(t: Tid)
    | Commit(t: Tid)
    | Abort(t: Tid)
    | Alone(d: Delivery)  // a single statement: a row inserted by hand, a customer linked

  predicate IsEvent(d: Delivery) {
    d.StripeEvent? || d.AppleEvent?
  }

  predicate IsTransaction(d: Delivery) {
    IsEvent(d) || d.Validate? || d.DevPro?
  }

  // ---- What a transaction reads and writes ----

  function PlanAt(s: Sys, d: Delivery): Plan {
    match d
    case StripeEvent(_, body, now, fault) =>
      var effect := D.StripeEffect(s.customers, body, fault != LookupFails);
      Plan(false, if effect.None? then [] else OpsOfEffect(effect.value, now))
    case AppleEvent(_, _, _, p, _, _, _, _) =>
      if Linked(s, p) then Plan(true, OpsForRow(s.lineages[p.originalId], d)) else Plan(false, [])
    case Validate(user, p, _, _, now, _) => Plan(false, [E.Upsert(user, E.AppleIap, D.ExpiresAt(p), now)])
    case DevPro(user, active, now, _) =>
      Plan(false, [if active then E.Upsert(user, E.Dev, None, now) else E.Withdraw(user, E.Dev)])
    case _ => Plan(false, [])
  }

  function OpsOfEffect(effect: D.Effect, now: int): seq<E.Op> {
    match effect
    case NoEffect => []
    case Grant(user, exp) => [E.Upsert(user, E.Stripe, exp, now)]
    case Withdraw(user) => [E.Withdraw(user, E.Stripe)]
  }

  function OpsForRow(l: Lineage, d: Delivery): seq<E.Op>
    requires d.AppleEvent?
  {
    if l.product != E.PRO then []
    else if D.Grants(StatusOf(d)) then [E.Upsert(l.user, E.AppleIap, D.ExpiresAt(d.payload), d.now)]
    else [E.Withdraw(l.user, E.AppleIap)]
  }

  predicate Writes(ops: seq<E.Op>) {
    |ops| == 1 && !ops[0].OutOfBand? && E.Managed(ops[0].source)
  }

  /** The user and source whose rows the plan writes. */
  function KeyOf(ops: seq<E.Op>): E.Key
    requires Writes(ops)
  {
    (ops[0].user, ops[0].source)
  }

  /** The positions of the active rows of `key`. */
  function Active(rows: seq<E.Row>, key: E.Key): set<nat> {
    set i: nat | i < |rows| && E.Matches(rows[i], key.0, key.1)
  }

  function RevokeSeen(rows: seq<E.Row>, key: E.Key, seen: set<nat>): seq<E.Row> {
    seq(|rows|, i requires 0 <= i < |rows| =>
      if i in seen && E.Matches(rows[i], key.0, key.1) then rows[i].(status := E.Revoked) else rows[i])
  }

  function Written(rows: seq<E.Row>, ops: seq<E.Op>, seen: set<nat>): seq<E.Row> {
    if !Writes(ops) then rows
    else
      var revoked := RevokeSeen(rows, KeyOf(ops), seen);
      if ops[0].Withdraw? then revoked
      else revoked + [E.Row(ops[0].user, E.PRO, E.Active, ops[0].source, ops[0].exp, ops[0].now)]
  }

  /** A statement or the commit fails, or breaks a constraint: the transaction rolls back. */
  predicate Refused(s: Sys, d: Delivery, plan: Plan) {
    match d
    case StripeEvent(_, body, _, fault) =>
      body == D.Undecodable || fault == CommitFails || (fault == WriteFails && plan.ops != [])
    case AppleEvent(_, _, _, p, _, _, _, fault) =>
      fault == CommitFails || (p.originalId != "" && (fault == LookupFails || (plan.linked && UpdateRefused(s, d))))
    case _ => OutcomeOf(s, d) != Ok
  }

  function LineagesAfter(s: Sys, d: Delivery, linked: bool): map<string, Lineage> {
    match d
    case AppleEvent(_, _, _, p, _, _, _, _) =>
      if linked && Linked(s, p) then
        var l := s.lineages[p.originalId];
        s.lineages[p.originalId :=
          l.(latest := Latest(p.transactionId), status := StatusOf(d), env := EnvOf(d), expiresAt := D.ExpiresAt(p))]
      else s.lineages
    case Validate(user, p, _, clientEnv, now, _) =>
      s.lineages[p.originalId :=
        Lineage(user, E.PRO, Latest(p.transactionId), D.ValidatedState(p, now),
                D.ValidatedEnv(p.environment, clientEnv), D.ExpiresAt(p))]
    case _ => s.lineages
  }

  function Finished(s: Sys, d: Delivery, plan: Plan, seen: set<nat>): Sys {
    if Refused(s, d, plan) then s
    else
      s.(rows := Written(s.rows, plan.ops, seen),
         stripeSeen := if d.StripeEvent? then s.stripeSeen + {d.id} else s.stripeSeen,
         appleSeen := if d.AppleEvent? then s.appleSeen + {d.uuid} else s.appleSeen,
         lineages := LineagesAfter(s, d, plan.linked))
  }

  // ---- Steps ----

  ghost predicate Busy(w: World, o: Origin) {
    exists t :: t in w.txs && OriginOf(w.txs[t].d) == o
  }

  ghost predicate MayBegin(w: World, t: Tid, d: Delivery) {
    && t !in w.txs && IsTransaction(d)
    && (IsEvent(d) ==> d.fault != EventFails && !Busy(w, OriginOf(d)) && !Seen(w.sys, OriginOf(d)))
  }

  predicate MayUpdate(w: World, t: Tid) {
    t in w.txs && w.txs[t].plan.Some? && Writes(w.txs[t].plan.value.ops) && w.txs[t].seen.None?
  }

  predicate MayCommit(w: World, t: Tid) {
    t in w.txs && w.txs[t].plan.Some? && (w.txs[t].plan.value.ops == [] || w.txs[t].seen.Some?)
  }

  function SeenRows(tx: Tx): set<nat> {
    if tx.seen.Some? then tx.seen.value else {}
  }

  ghost function Step(w: World, ev: Event): World {
    match ev
    case Begin(t, d) => if MayBegin(w, t, d) then w.(txs := w.txs[t := Tx(d, None, None)]) else w
    case Look(t) =>
      if t in w.txs && w.txs[t].plan.None? then
        w.(txs := w.txs[t := w.txs[t].(plan := Some(PlanAt(w.sys, w.txs[t].d)))])
      else w
    case Update(t) =>
      if MayUpdate(w, t) then
        w.(txs := w.txs[t := w.txs[t].(seen := Some(Active(w.sys.rows, KeyOf(w.txs[t].plan.value.ops))))])
      else w
    case Commit(t) =>
      if MayCommit(w, t) then
        World(Finished(w.sys, w.txs[t].d, w.txs[t].plan.value, SeenRows(w.txs[t])), w.txs - {t})
      else w
    case Abort(t) => w.(txs := w.txs - {t})
    case Alone(d) => if IsTransaction(d) then w else w.(sys := Deliver(w.sys, d))
  }

  ghost function After(evs: seq<Event>): World {
    if evs == [] then World(INITIAL, map[]) else Step(After(evs[..|evs| - 1]), evs[|evs| - 1])
  }

  // ---- What every step keeps ----

  /** An open event is not recorded, and what it plans is within its means. */
  ghost predicate TxOk(s: Sys, tx: Tx) {
    && IsTransaction(tx.d)
    && (IsEvent(tx.d) ==> tx.d.fault != EventFails && !Seen(s, OriginOf(tx.d)))
    && (tx.plan.Some? ==>
          && (tx.plan.value.ops == [] || Writes(tx.plan.value.ops))
          && (tx.d.AppleEvent? && tx.plan.value.linked ==> Linked(s, tx.d.payload)))
    && (tx.seen.Some? ==> tx.plan.Some? && Writes(tx.plan.value.ops))
  }

  /** No two open transactions are at the same event. */
  ghost predicate Inv(w: World) {
    && (forall t :: t in w.txs ==> TxOk(w.sys, w.txs[t]))
    && (forall t, u :: t in w.txs && u in w.txs && IsEvent(w.txs[t].d) ==>
          OriginOf(w.txs[t].d) == OriginOf(w.txs[u].d) ==> t == u)
  }

  lemma PlansWrite(s: Sys, d: Delivery)
    requires IsTransaction(d)
    ensures PlanAt(s, d).ops == [] || Writes(PlanAt(s, d).ops)
    ensures d.AppleEvent? && PlanAt(s, d).linked ==> Linked(s, d.payload)
  {
  }

  lemma FinishMarks(s: Sys, d: Delivery, plan: Plan, seen: set<nat>, o: Origin)
    requires IsTransaction(d)
    ensures var s' := Finished(s, d, plan, seen);
            && (Seen(s', o) <==> Seen(s, o) || (!Refused(s, d, plan) && o == OriginOf(d) && o != Direct))
            && s.lineages.Keys <= s'.lineages.Keys
  {
  }

  lemma AloneMarks(s: Sys, d: Delivery, o: Origin)
    requires !IsTransaction(d)
    ensures Seen(Deliver(s, d), o) <==> Seen(s, o)
    ensures Deliver(s, d).lineages == s.lineages
  {
  }

  lemma StepKeepsInv(w: World, ev: Event)
    requires Inv(w)
    ensures Inv(Step(w, ev))
  {
    var w' := Step(w, ev);
    forall t | t in w'.txs
      ensures TxOk(w'.sys, w'.txs[t])
    {
      TxLasts(w, ev, t);
    }
  }

  lemma TxLasts(w: World, ev: Event, t: Tid)
    requires Inv(w) && t in Step(w, ev).txs
    ensures TxOk(Step(w, ev).sys, Step(w, ev).txs[t])
  {
    if t in w.txs {
      assert TxOk(w.sys, w.txs[t]);
    }
    match ev
    case Begin(_, _) =>
    case Look(u) =>
      if u == t { PlansWrite(w.sys, w.txs[t].d); }
    case Update(_) =>
    case Commit(u) =>
      if MayCommit(w, u) {
        assert TxOk(w.sys, w.txs[u]);
        FinishMarks(w.sys, w.txs[u].d, w.txs[u].plan.value, SeenRows(w.txs[u]), OriginOf(w.txs[t].d));
      }
    case Abort(_) =>
    case Alone(d) =>
      if !IsTransaction(d) { AloneMarks(w.sys, d, OriginOf(w.txs[t].d)); }
  }

  lemma {:induction false} AlwaysInv(evs: seq<Event>)
    ensures Inv(After(evs))
  {
    if evs != [] {
      AlwaysInv(evs[..|evs| - 1]);
      StepKeepsInv(After(evs[..|evs| - 1]), evs[|evs| - 1]);
    }
  }

  // ---- Exactly once, whatever overlaps ----

  /** The step changes the tables on behalf of event `o`. */
  ghost predicate TakesEffect(w: World, ev: Event, o: Origin) {
    ev.Commit? && MayCommit(w, ev.t) && OriginOf(w.txs[ev.t].d) == o && Step(w, ev).sys != w.sys
  }

  ghost function Effects(evs: seq<Event>, o: Origin): nat {
    if evs == [] then 0 else
    var init := evs[..|evs| - 1];
    Effects(init, o) + if TakesEffect(After(init), evs[|evs| - 1], o) then 1 else 0
  }

  lemma SeenGrows(w: World, ev: Event, o: Origin)
    requires Inv(w) && o != Direct
    ensures Seen(Step(w, ev).sys, o) <==> Seen(w.sys, o) || TakesEffect(w, ev, o)
    ensures TakesEffect(w, ev, o) ==> !Seen(w.sys, o)
  {
    if ev.Commit? && MayCommit(w, ev.t) {
      var tx := w.txs[ev.t];
      assert TxOk(w.sys, tx);
      FinishMarks(w.sys, tx.d, tx.plan.value, SeenRows(tx), o);
    } else if ev.Alone? && !IsTransaction(ev.d) {
      AloneMarks(w.sys, ev.d, o);
    }
  }

  /** However its deliveries overlap, an event changes the tables once at most, and exactly if its id is recorded. */
  lemma {:induction false} OnceUnderConcurrency(evs: seq<Event>, o: Origin)
    requires o != Direct
    ensures Effects(evs, o) <= 1
    ensures Effects(evs, o) == 1 <==> Seen(After(evs).sys, o)
  {
    if evs != [] {
      OnceUnderConcurrency(evs[..|evs| - 1], o);
      AlwaysInv(evs[..|evs| - 1]);
      SeenGrows(After(evs[..|evs| - 1]), evs[|evs| - 1], o);
    }
  }

  // ---- One commit and one serial delivery ----

  /** What was planned is what would be planned now. */
  predicate UpToDate(s: Sys, d: Delivery, plan: Plan) {
    plan == PlanAt(s, d)
  }

  /** The UPDATE saw every row that is active now. */
  predicate Covered(s: Sys, plan: Plan, seen: set<nat>) {
    Writes(plan.ops) ==> Active(s.rows, KeyOf(plan.ops)) <= seen
  }

  lemma RevokeSeenExactly(rows: seq<E.Row>, key: E.Key, seen: set<nat>)
    ensures RevokeSeen(rows, key, seen) == E.RevokeAll(rows, key.0, key.1) <==> Active(rows, key) <= seen
  {
    var some, all := RevokeSeen(rows, key, seen), E.RevokeAll(rows, key.0, key.1);
    if some == all {
      forall i | i in Active(rows, key)
        ensures i in seen
      {
        assert some[i] == all[i];
      }
    } else {
      var i :| 0 <= i < |rows| && some[i] != all[i];
      assert i in Active(rows, key) && i !in seen;
    }
  }

  lemma WrittenExactly(rows: seq<E.Row>, ops: seq<E.Op>, seen: set<nat>)
    requires ops == [] || Writes(ops)
    ensures Written(rows, ops, seen) == E.Run(rows, ops) <==> (Writes(ops) ==> Active(rows, KeyOf(ops)) <= seen)
  {
    if Writes(ops) {
      OneOp(rows, ops);
      RevokeSeenExactly(rows, KeyOf(ops), seen);
      var some, all := RevokeSeen(rows, KeyOf(ops), seen), E.RevokeAll(rows, ops[0].user, ops[0].source);
      if ops[0].Upsert? {
        var row := E.Row(ops[0].user, E.PRO, E.Active, ops[0].source, ops[0].exp, ops[0].now);
        assert (some + [row])[..|rows|] == some && (all + [row])[..|rows|] == all;
      }
    }
  }

  lemma RefusedIsNotOk(s: Sys, d: Delivery)
    requires IsTransaction(d) && (IsEvent(d) ==> d.fault != EventFails && !Seen(s, OriginOf(d)))
    ensures Refused(s, d, PlanAt(s, d)) <==> OutcomeOf(s, d) != Ok
    ensures OutcomeOf(s, d) == Ok ==> OpsOf(s, d) == PlanAt(s, d).ops
  {
  }

  /**
   * A commit whose plan is up to date is the serial delivery, if and only if it is refused or its
   * UPDATE saw all that is active.
   */
  lemma CommitIsDeliveryExactly(s: Sys, d: Delivery, plan: Plan, seen: set<nat>)
    requires IsTransaction(d) && (IsEvent(d) ==> d.fault != EventFails && !Seen(s, OriginOf(d)))
    requires UpToDate(s, d, plan)
    ensures Finished(s, d, plan, seen) == Deliver(s, d) <==> Refused(s, d, plan) || Covered(s, plan, seen)
  {
    RefusedIsNotOk(s, d);
    if !Refused(s, d, plan) {
      PlansWrite(s, d);
      WrittenExactly(s.rows, plan.ops, seen);
      CommitsAgree(s, d, plan, seen);
    }
  }

  lemma CommitsAgree(s: Sys, d: Delivery, plan: Plan, seen: set<nat>)
    requires IsTransaction(d) && UpToDate(s, d, plan) && !Refused(s, d, plan)
    requires OutcomeOf(s, d) == Ok && OpsOf(s, d) == plan.ops
    ensures Finished(s, d, plan, seen) == Deliver(s, d) <==> Written(s.rows, plan.ops, seen) == E.Run(s.rows, plan.ops)
  {
    DeliverRows(s, d);
    hide Written, E.Run, OpsOf, PlanAt;
    var one, other := Finished(s, d, plan, seen), Deliver(s, d);
    assert one.stripeSeen == other.stripeSeen && one.appleSeen == other.appleSeen;
    assert one.customers == other.customers;
    LineagesAgree(s, d, plan);
  }

  lemma LineagesAgree(s: Sys, d: Delivery, plan: Plan)
    requires IsTransaction(d) && UpToDate(s, d, plan) && OutcomeOf(s, d) == Ok
    ensures LineagesAfter(s, d, plan.linked) == Deliver(s, d).lineages
  {
  }

  // ---- Whole runs ----

  /** The open transaction `t` has run its UPDATE on the rows of `key`. */
  ghost predicate PastUpdate(w: World, t: Tid, key: E.Key) {
    && t in w.txs && w.txs[t].seen.Some? && w.txs[t].plan.Some?
    && Writes(w.txs[t].plan.value.ops) && KeyOf(w.txs[t].plan.value.ops) == key
  }

  /** No two open transactions that write the same user and source are both past their UPDATE. */
  ghost predicate Apart(w: World) {
    forall t, u, key :: PastUpdate(w, t, key) && PastUpdate(w, u, key) ==> t == u
  }

  ghost predicate AllApart(evs: seq<Event>) {
    Apart(After(evs)) && (evs != [] ==> AllApart(evs[..|evs| - 1]))
  }

  /** Whenever a transaction commits, its plan is up to date. */
  ghost predicate AllUpToDate(evs: seq<Event>) {
    evs != [] ==>
      var init, ev := evs[..|evs| - 1], evs[|evs| - 1];
      && AllUpToDate(init)
      && (ev.Commit? && MayCommit(After(init), ev.t) ==>
            UpToDate(After(init).sys, After(init).txs[ev.t].d, After(init).txs[ev.t].plan.value))
  }

  /** Whoever is past the UPDATE has seen all that is active still. */
  ghost predicate AllCovered(w: World) {
    forall t, key :: PastUpdate(w, t, key) ==> Active(w.sys.rows, key) <= w.txs[t].seen.value
  }

  lemma OtherKeysKept(rows: seq<E.Row>, ops: seq<E.Op>, seen: set<nat>, key: E.Key)
    requires Writes(ops) ==> KeyOf(ops) != key
    ensures Active(Written(rows, ops, seen), key) == Active(rows, key)
  {
  }

  lemma AloneKeepsActive(s: Sys, d: Delivery, key: E.Key)
    requires !IsTransaction(d) && E.Managed(key.1)
    ensures Active(Deliver(s, d).rows, key) == Active(s.rows, key)
  {
    DeliverRows(s, d);
    if d.OutOfBand? && OpsOf(s, d) != [] {
      OneOp(s.rows, OpsOf(s, d));
      assert Deliver(s, d).rows == s.rows + [d.row];
    }
  }

  lemma CommitKeepsActive(w: World, u: Tid, t: Tid, key: E.Key)
    requires Inv(w) && Apart(w) && MayCommit(w, u) && PastUpdate(w, t, key) && t != u
    ensures Active(Step(w, Commit(u)).sys.rows, key) == Active(w.sys.rows, key)
  {
    var tx := w.txs[u];
    assert TxOk(w.sys, tx);
    assert Writes(tx.plan.value.ops) ==> PastUpdate(w, u, KeyOf(tx.plan.value.ops));
    OtherKeysKept(w.sys.rows, tx.plan.value.ops, SeenRows(tx), key);
  }

  lemma CoveredLasts(w: World, ev: Event)
    requires Inv(w) && Apart(w) && AllCovered(w)
    ensures AllCovered(Step(w, ev))
  {
    var w' := Step(w, ev);
    forall t, key | PastUpdate(w', t, key)
      ensures Active(w'.sys.rows, key) <= w'.txs[t].seen.value
    {
      if ev.Commit? && MayCommit(w, ev.t) {
        CommitKeepsActive(w, ev.t, t, key);
      } else if ev.Alone? && !IsTransaction(ev.d) {
        AloneKeepsActive(w.sys, ev.d, key);
      } else if PastUpdate(w, t, key) {
        assert w'.sys == w.sys;
      }
    }
  }

  lemma {:induction false} AlwaysCovered(evs: seq<Event>)
    requires AllApart(evs)
    ensures AllCovered(After(evs))
  {
    if evs != [] {
      AlwaysCovered(evs[..|evs| - 1]);
      AlwaysInv(evs[..|evs| - 1]);
      CoveredLasts(After(evs[..|evs| - 1]), evs[|evs| - 1]);
    }
  }

  /** The deliveries in the order of their commits. */
  ghost function Serial(evs: seq<Event>): seq<Delivery> {
    if evs == [] then [] else
    var init, ev := evs[..|evs| - 1], evs[|evs| - 1];
    Serial(init) +
      if ev.Commit? && MayCommit(After(init), ev.t) then [After(init).txs[ev.t].d]
      else if ev.Alone? && !IsTransaction(ev.d) then [ev.d]
      else []
  }

  lemma CommitIsSerial(w: World, t: Tid)
    requires Inv(w) && AllCovered(w) && MayCommit(w, t)
    requires UpToDate(w.sys, w.txs[t].d, w.txs[t].plan.value)
    ensures Step(w, Commit(t)).sys == Deliver(w.sys, w.txs[t].d)
  {
    var tx := w.txs[t];
    assert TxOk(w.sys, tx);
    assert Writes(tx.plan.value.ops) ==> PastUpdate(w, t, KeyOf(tx.plan.value.ops));
    CommitIsDeliveryExactly(w.sys, tx.d, tx.plan.value, SeenRows(tx));
  }

  /**
   * Overlapping transactions equal serial ones, in the order of their commits, if what each has read
   * still holds when it commits and no two that write the same user and source are past their UPDATE
   * together.
   */
  lemma {:induction false} Serializable(evs: seq<Event>)
    requires AllUpToDate(evs) && AllApart(evs)
    ensures After(evs).sys == Run(Serial(evs))
  {
    if evs != [] {
      var init, ev := evs[..|evs| - 1], evs[|evs| - 1];
      Serializable(init);
      AlwaysInv(init);
      AlwaysCovered(init);
      var w := After(init);
      if ev.Commit? && MayCommit(w, ev.t) {
        CommitIsSerial(w, ev.t);
        Next(Serial(init), w.txs[ev.t].d);
      } else if ev.Alone? && !IsTransaction(ev.d) {
        Next(Serial(init), ev.d);
      } else {
        assert Serial(evs) == Serial(init);
      }
    }
  }

  // ---- When a plan is out of date ----

  predicate Extends(before: map<D.Customer, User>, after: map<D.Customer, User>) {
    forall c :: c in before ==> c in after && after[c] == before[c]
  }

  /** A Stripe plan goes out of date exactly when its customer, needed and unknown, is linked before the commit. */
  lemma StripePlanExactly(s: Sys, s': Sys, d: Delivery)
    requires d.StripeEvent? && Extends(s.customers, s'.customers)
    ensures UpToDate(s', d, PlanAt(s, d)) <==>
              !(D.NeedsCustomer(d.body) && !D.Known(s.customers, d.body) && D.Known(s'.customers, d.body)
                && d.fault != LookupFails)
  {
    if d.body != D.Undecodable {
      D.NoEffectExactly(s.customers, d.body, d.fault != LookupFails);
      D.NoEffectExactly(s'.customers, d.body, d.fault != LookupFails);
      D.NamedUserOutranksCustomer(s.customers, d.body, d.fault != LookupFails);
      D.NamedUserOutranksCustomer(s'.customers, d.body, d.fault != LookupFails);
    }
  }

  ghost predicate AllPro(lineages: map<string, Lineage>) {
    forall o :: o in lineages ==> lineages[o].product == E.PRO
  }

  /** An Apple plan goes out of date exactly when its lineage is linked, or given to another user, before the commit. */
  lemma ApplePlanExactly(s: Sys, s': Sys, d: Delivery)
    requires d.AppleEvent? && AllPro(s.lineages) && AllPro(s'.lineages)
    ensures UpToDate(s', d, PlanAt(s, d)) <==>
              (Linked(s, d.payload) <==> Linked(s', d.payload)) &&
              (Linked(s, d.payload) && Linked(s', d.payload) ==>
                 s.lineages[d.payload.originalId].user == s'.lineages[d.payload.originalId].user)
  {
  }

  // ---- Exactly when a stale read shows ----

  /** The user's access is already what the notification would make it. */
  ghost predicate AlreadySo(m: map<E.Key, Option<int>>, user: User, d: Delivery)
    requires d.AppleEvent?
  {
    if D.Grants(StatusOf(d)) then C.AppleKey(user) in m && m[C.AppleKey(user)] == D.ExpiresAt(d.payload)
    else C.AppleKey(user) !in m
  }

  lemma WrittenAbs(rows: seq<E.Row>, ops: seq<E.Op>, seen: set<nat>)
    requires Writes(ops) && Active(rows, KeyOf(ops)) <= seen
    ensures E.Abs(Written(rows, ops, seen)) == E.ApplyAbs(E.Abs(rows), ops[0])
  {
    WrittenExactly(rows, ops, seen);
    OneOp(rows, ops);
    E.ApplyRefines(rows, ops[0]);
  }

  /**
   * A notification that read another owner than the lineage has now leaves the access map as a
   * serial one would, if and only if both users' access was already as it should be.
   */
  lemma StaleOwnerExactly(s: Sys, d: Delivery, l: Lineage, seen: set<nat>)
    requires d.AppleEvent? && Linked(s, d.payload) && OutcomeOf(s, d) == Ok
    requires l.product == E.PRO && s.lineages[d.payload.originalId].product == E.PRO
    requires Active(s.rows, C.AppleKey(l.user)) <= seen
    ensures var m, owner := E.Abs(s.rows), s.lineages[d.payload.originalId].user;
            E.Abs(Finished(s, d, Plan(true, OpsForRow(l, d)), seen).rows) == E.Abs(Deliver(s, d).rows) <==>
              l.user == owner || (AlreadySo(m, l.user, d) && AlreadySo(m, owner, d))
  {
    var m, owner := E.Abs(s.rows), s.lineages[d.payload.originalId].user;
    C.DeliverAbs(s, d);
    WrittenAbs(s.rows, OpsForRow(l, d), seen);
    WritesAgree(m, C.AppleKey(l.user), C.AppleKey(owner), D.ExpiresAt(d.payload));
  }

  lemma WritesAgree(m: map<E.Key, Option<int>>, a: E.Key, b: E.Key, x: Option<int>)
    ensures m[a := x] == m[b := x] <==> a == b || (a in m && b in m && m[a] == x && m[b] == x)
    ensures m - {a} == m - {b} <==> a == b || (a !in m && b !in m)
  {
    if m[a := x] == m[b := x] && a != b {
      assert a in m[b := x] && b in m[a := x];
      assert m[b := x][a] == x && m[a := x][b] == x;
    }
    if m - {a} == m - {b} && a != b {
      assert a !in m - {b} && b !in m - {a};
    }
  }

  /** The subscription row is already what the notification would make it. */
  predicate RowAlreadySo(l: Lineage, d: Delivery)
    requires d.AppleEvent?
  {
    && l.latest == Latest(d.payload.transactionId) && l.status == StatusOf(d)
    && l.env == EnvOf(d) && l.expiresAt == D.ExpiresAt(d.payload)
  }

  /**
   * A notification that found no row, while a validation links the lineage before its commit, is
   * spent without effect.  That shows if and only if row and access are not already as it would
   * have made them.
   */
  lemma StaleMissExactly(s: Sys, d: Delivery)
    requires d.AppleEvent? && Linked(s, d.payload) && OutcomeOf(s, d) == Ok
    requires s.lineages[d.payload.originalId].product == E.PRO
    ensures var l, s' := s.lineages[d.payload.originalId], Finished(s, d, Plan(false, []), {});
            && s'.rows == s.rows && s'.lineages == s.lineages && d.uuid in s'.appleSeen
            && (E.Abs(s'.rows) == E.Abs(Deliver(s, d).rows) && s'.lineages == Deliver(s, d).lineages <==>
                  AlreadySo(E.Abs(s.rows), l.user, d) && RowAlreadySo(l, d))
  {
    var orig := d.payload.originalId;
    var l, m, after := s.lineages[orig], E.Abs(s.rows), Deliver(s, d).lineages;
    C.DeliverAbs(s, d);
    assert after == s.lineages[orig := after[orig]];
    assert s.lineages == after <==> after[orig] == l;
    UpdateIsNone(m, C.AppleKey(l.user), D.ExpiresAt(d.payload));
  }

  lemma UpdateIsNone(m: map<E.Key, Option<int>>, a: E.Key, x: Option<int>)
    ensures m == m[a := x] <==> a in m && m[a] == x
    ensures m == m - {a} <==> a !in m
  {
    if m == m[a := x] {
      assert a in m[a := x] && m[a := x][a] == x;
    }
    if m == m - {a} {
      assert a !in m - {a};
    }
  }

  // ---- Runs that go wrong ----

  lemma Snoc(evs: seq<Event>, ev: Event)
    ensures After(evs + [ev]) == Step(After(evs), ev)
  {
    assert (evs + [ev])[..|evs|] == evs;
  }

  lemma GrantGoesToReader(s: Sys, d: Delivery, l: Lineage, seen: set<nat>)
    requires d.AppleEvent? && Linked(s, d.payload) && l.product == E.PRO
    requires !Seen(s, OriginOf(d)) && OutcomeOf(s, d) == Ok && D.Grants(StatusOf(d))
    ensures var s' := Finished(s, d, Plan(true, OpsForRow(l, d)), seen);
            && C.AppleKey(l.user) in E.Abs(s'.rows)
            && forall o :: o in s'.lineages ==> o in s.lineages && s'.lineages[o].user == s.lineages[o].user
  {
    var ops := OpsForRow(l, d);
    var row := E.Row(l.user, E.PRO, E.Active, E.AppleIap, D.ExpiresAt(d.payload), d.now);
    E.AbsAppend(RevokeSeen(s.rows, KeyOf(ops), seen), row);
  }

  lemma ValidationTakesLineage(s: Sys, v: Delivery, owner: User)
    requires v.Validate? && OutcomeOf(s, v) == Ok && owner != v.user
    requires forall o :: o in s.lineages && s.lineages[o].user == owner ==> o == v.payload.originalId
    ensures !C.HasLineage(Deliver(s, v).lineages, owner) && v.payload.originalId in Deliver(s, v).lineages
  {
  }

  /**
   * While a granting notification is under way, its lineage, the only one of its owner, is validated
   * by somebody else.  The first owner is left with access and without a lineage, whatever the
   * notification's UPDATE saw.
   */
  lemma RelinkDuringNotification(s: Sys, v: Delivery, d: Delivery, seen: set<nat>)
    requires C.Coupled(s) && v.Validate? && OutcomeOf(s, v) == Ok
    requires d.AppleEvent? && Linked(s, d.payload) && v.payload.originalId == d.payload.originalId
    requires var owner := s.lineages[d.payload.originalId].user;
             && owner != v.user
             && forall o :: o in s.lineages && s.lineages[o].user == owner ==> o == d.payload.originalId
    requires OutcomeOf(Deliver(s, v), d) == Ok && D.Grants(StatusOf(d))
    ensures var owner, s' := s.lineages[d.payload.originalId].user, Finished(Deliver(s, v), d, PlanAt(s, d), seen);
            && C.AppleKey(owner) in E.Abs(s'.rows) && !C.HasLineage(s'.lineages, owner) && !C.Coupled(s')
  {
    var l, mid := s.lineages[d.payload.originalId], Deliver(s, v);
    assert C.Agrees(E.Abs(s.rows), l);
    ValidationTakesLineage(s, v, l.user);
    GrantGoesToReader(mid, d, l, seen);
    var s' := Finished(mid, d, PlanAt(s, d), seen);
    hide Finished, Deliver, OutcomeOf;
    assert !C.HasLineage(s'.lineages, l.user);
    assert C.AppleKey(l.user) in E.Abs(s'.rows);
  }

  /** An event that grants Stripe access without looking at the customer table. */
  ghost predicate GrantsTo(d: Delivery, user: User, exp: Option<int>) {
    d.StripeEvent? && d.fault == NoFault && D.StripeEffect(map[], d.body, true) == Some(D.Grant(user, exp))
  }

  function BothPastUpdate(d: Delivery, d': Delivery): seq<Event> {
    [Begin(0, d), Look(0), Begin(1, d'), Look(1), Update(0), Update(1)]
  }

  /** Beginning and looking, in a world without customers and rows. */
  lemma OneLooks(txs: map<Tid, Tx>, t: Tid, d: Delivery)
    requires t !in txs && d.StripeEvent? && d.fault == NoFault
    requires forall u :: u in txs ==> OriginOf(txs[u].d) != OriginOf(d)
    ensures Step(Step(World(INITIAL, txs), Begin(t, d)), Look(t)) ==
              World(INITIAL, txs[t := Tx(d, Some(PlanAt(INITIAL, d)), None)])
  {
    var w := Step(World(INITIAL, txs), Begin(t, d));
    assert MayBegin(World(INITIAL, txs), t, d);
    assert w == World(INITIAL, txs[t := Tx(d, None, None)]);
  }

  lemma OneUpdates(txs: map<Tid, Tx>, t: Tid, d: Delivery, user: User, exp: Option<int>)
    requires GrantsTo(d, user, exp) && t in txs && txs[t] == Tx(d, Some(PlanAt(INITIAL, d)), None)
    ensures Step(World(INITIAL, txs), Update(t)) ==
              World(INITIAL, txs[t := Tx(d, Some(PlanAt(INITIAL, d)), Some({}))])
  {
    assert Active([], KeyOf(PlanAt(INITIAL, d).ops)) == {};
  }

  lemma SixSteps(e0: Event, e1: Event, e2: Event, e3: Event, e4: Event, e5: Event)
    ensures After([e0, e1, e2, e3, e4, e5]) ==
              Step(Step(Step(Step(Step(Step(World(INITIAL, map[]), e0), e1), e2), e3), e4), e5)
  {
    hide Step;
    Snoc([], e0);
    Snoc([e0], e1);
    Snoc([e0, e1], e2);
    Snoc([e0, e1, e2], e3);
    Snoc([e0, e1, e2, e3], e4);
    Snoc([e0, e1, e2, e3, e4], e5);
    assert [] + [e0] == [e0] && [e0] + [e1] == [e0, e1] && [e0, e1] + [e2] == [e0, e1, e2];
    assert [e0, e1, e2] + [e3] == [e0, e1, e2, e3] && [e0, e1, e2, e3] + [e4] == [e0, e1, e2, e3, e4];
    assert [e0, e1, e2, e3, e4] + [e5] == [e0, e1, e2, e3, e4, e5];
  }

  lemma BothSeeNothing(d: Delivery, d': Delivery, user: User, exp: Option<int>, exp': Option<int>)
    requires GrantsTo(d, user, exp) && GrantsTo(d', user, exp') && d.id != d'.id
    ensures After(BothPastUpdate(d, d')) ==
              World(INITIAL, map[0 := Tx(d, Some(PlanAt(INITIAL, d)), Some({})),
                                 1 := Tx(d', Some(PlanAt(INITIAL, d')), Some({}))])
  {
    hide Step, PlanAt, After;
    SixSteps(Begin(0, d), Look(0), Begin(1, d'), Look(1), Update(0), Update(1));
    var looked, looked' := Tx(d, Some(PlanAt(INITIAL, d)), None), Tx(d', Some(PlanAt(INITIAL, d')), None);
    OneLooks(map[], 0, d);
    assert map[][0 := looked] == map[0 := looked];
    OneLooks(map[0 := looked], 1, d');
    var both := map[0 := looked, 1 := looked'];
    assert map[0 := looked][1 := looked'] == both;
    OneUpdates(both, 0, d, user, exp);
    var past := both[0 := looked.(seen := Some({}))];
    OneUpdates(past, 1, d', user, exp');
    assert past[1 := looked'.(seen := Some({}))] ==
             map[0 := looked.(seen := Some({})), 1 := looked'.(seen := Some({}))];
  }

  lemma {:induction false} NoCommitsUpToDate(evs: seq<Event>)
    requires forall i :: 0 <= i < |evs| ==> !evs[i].Commit?
    ensures AllUpToDate(evs)
  {
    if evs != [] {
      NoCommitsUpToDate(evs[..|evs| - 1]);
    }
  }

  lemma UpToDateSnoc(evs: seq<Event>, ev: Event)
    ensures AllUpToDate(evs + [ev]) <==>
              AllUpToDate(evs) && (ev.Commit? && MayCommit(After(evs), ev.t) ==>
                UpToDate(After(evs).sys, After(evs).txs[ev.t].d, After(evs).txs[ev.t].plan.value))
  {
    assert (evs + [ev])[..|evs|] == evs;
  }

  /**
   * That nobody be past the UPDATE together is needed: two events that grant access to one new user,
   * each seeing nothing to revoke, leave two active rows, with plans up to date throughout.  No
   * serial run does.
   */
  lemma TwoEventsTwoRows(d: Delivery, d': Delivery, user: User, exp: Option<int>, exp': Option<int>)
    requires GrantsTo(d, user, exp) && GrantsTo(d', user, exp') && d.id != d'.id
    ensures var evs := BothPastUpdate(d, d') + [Commit(0)] + [Commit(1)];
            && AllUpToDate(evs)
            && After(evs).sys.rows == [E.Row(user, E.PRO, E.Active, E.Stripe, exp, d.now),
                                       E.Row(user, E.PRO, E.Active, E.Stripe, exp', d'.now)]
            && forall ds :: Run(ds) != After(evs).sys
  {
    var evs := BothPastUpdate(d, d');
    var w := After(evs);
    BothSeeNothing(d, d', user, exp, exp');
    NoCommitsUpToDate(evs);
    Snoc(evs, Commit(0));
    UpToDateSnoc(evs, Commit(0));
    var w1 := After(evs + [Commit(0)]);
    FirstCommit(w, d, d', user, exp, exp');
    Snoc(evs + [Commit(0)], Commit(1));
    UpToDateSnoc(evs + [Commit(0)], Commit(1));
    SecondCommit(w1, d, d', user, exp, exp');
    var s := After(evs + [Commit(0)] + [Commit(1)]).sys;
    assert E.Matches(s.rows[0], user, E.Stripe) && E.Matches(s.rows[1], user, E.Stripe);
    forall ds
      ensures Run(ds) != s
    {
      AlwaysSerial(ds);
      assert E.Serial(s.rows) ==> E.AtMostOne(s.rows, user, E.Stripe);
    }
  }

  lemma FirstCommit(w: World, d: Delivery, d': Delivery, user: User, exp: Option<int>, exp': Option<int>)
    requires GrantsTo(d, user, exp) && GrantsTo(d', user, exp') && d.id != d'.id
    requires w == World(INITIAL, map[0 := Tx(d, Some(PlanAt(INITIAL, d)), Some({})),
                                     1 := Tx(d', Some(PlanAt(INITIAL, d')), Some({}))])
    ensures Step(w, Commit(0)) ==
              World(INITIAL.(rows := [E.Row(user, E.PRO, E.Active, E.Stripe, exp, d.now)], stripeSeen := {d.id}),
                    map[1 := Tx(d', Some(PlanAt(INITIAL, d')), Some({}))])
  {
    var plan := PlanAt(INITIAL, d);
    assert RevokeSeen([], KeyOf(plan.ops), {}) == [];
    assert w.txs - {0} == map[1 := Tx(d', Some(PlanAt(INITIAL, d')), Some({}))];
  }

  lemma SecondCommit(w: World, d: Delivery, d': Delivery, user: User, exp: Option<int>, exp': Option<int>)
    requires d.StripeEvent? && GrantsTo(d', user, exp')
    requires w == World(INITIAL.(rows := [E.Row(user, E.PRO, E.Active, E.Stripe, exp, d.now)], stripeSeen := {d.id}),
                        map[1 := Tx(d', Some(PlanAt(INITIAL, d')), Some({}))])
    ensures MayCommit(w, 1) && UpToDate(w.sys, d', PlanAt(INITIAL, d'))
    ensures Step(w, Commit(1)).sys.rows == [E.Row(user, E.PRO, E.Active, E.Stripe, exp, d.now),
                                            E.Row(user, E.PRO, E.Active, E.Stripe, exp', d'.now)]
  {
    var plan := PlanAt(INITIAL, d');
    assert RevokeSeen(w.sys.rows, KeyOf(plan.ops), {}) == w.sys.rows;
  }
}
