/**
 * Stripe and Apple deliveries and the tables they write (internal/server/routes_webhook.go,
 * internal/server/routes_iap_apple_webhook.go, internal/billing/webhook_process.go,
 * internal/appleiap/service.go, internal/appleiap/store.go).
 *
 * Every delivery is one transaction: the event id is recorded together with its effect, or
 * neither is.  Deliveries repeat, fail and arrive in any order.
 */
module Webhooks {
  import opened Base
  import D = Decisions
  import E = Entitlements

  type User = E.User

  /** A row of apple_iap_subscriptions, keyed by the original transaction id. */
  datatype Lineage = Lineage(
    user: User, product: string, latest: Option<string>, status: D.AppleStatus, env: string, expiresAt: Option<int>)

  datatype Sys = Sys(
    rows: seq<E.Row>,
    stripeSeen: set<string>, appleSeen: set<string>,
    lineages: map<string, Lineage>,
    customers: map<D.Customer, User>)

  const INITIAL := Sys([], {}, {}, map[], map[])

  /** Where the database fails, if it does; CommitReplyLost is a commit that is carried out and reports an error. */
  datatype Fault = NoFault | EventFails | LookupFails | WriteFails | CommitFails | CommitReplyLost

  datatype Delivery =
    | StripeEvent(id: string, body: D.StripeBody, now: int, fault: Fault)
    | AppleEvent(uuid: string, nt: string, st: string, payload: D.Payload,
                 notificationEnv: string, configuredEnv: string, now: int, fault: Fault)
    | Validate(user: User, payload: D.Payload, proProductId: string, clientEnv: string, now: int, fault: Fault)
    | DevPro(user: User, active: bool, now: int, fault: Fault)
    | OutOfBand(row: E.Row)
    | LinkCustomer(customer: D.Customer, user: User)

  datatype Reply = Ok | Duplicate | ServerError | NotEntitled | BadTransaction

  // ---- What one delivery does ----

  /** NULLIF(latest, '') under the unique constraint on latest_transaction_id. */
  function Latest(tx: string): Option<string> {
    if tx == "" then None else Some(tx)
  }

  predicate LatestTaken(lineages: map<string, Lineage>, orig: string, tx: string) {
    tx != "" && exists o :: o in lineages && o != orig && lineages[o].latest == Some(tx)
  }

  /** The environment column the notification would write. */
  function EnvOf(d: Delivery): string
    requires d.AppleEvent?
  {
    D.DeriveEnv(d.payload.environment, d.notificationEnv, d.configuredEnv)
  }

  function StatusOf(d: Delivery): D.AppleStatus
    requires d.AppleEvent?
  {
    D.DeriveState(d.nt, d.st, d.payload, d.now)
  }

  /** Some statement of the lineage update breaks a constraint or fails. */
  predicate UpdateRefused(s: Sys, d: Delivery)
    requires d.AppleEvent?
  {
    || d.fault == WriteFails
    || !D.KnownEnv(EnvOf(d))
    || LatestTaken(s.lineages, d.payload.originalId, d.payload.transactionId)
  }

  /** The notification names a lineage that some user has validated. */
  predicate Linked(s: Sys, p: D.Payload) {
    p.originalId != "" && p.originalId in s.lineages
  }

  predicate Entitles(p: D.Payload, now: int) {
    D.ValidatedState(p, now) == D.ActiveSub
  }

  /** What comes of a delivery; Ok means that it is committed. */
  function OutcomeOf(s: Sys, d: Delivery): Reply {
    match d
    case StripeEvent(id, body, _, fault) =>
      if fault == EventFails then ServerError
      else if id in s.stripeSeen then Duplicate
      else if D.StripeEffect(s.customers, body, fault != LookupFails).None? then ServerError
      else if fault == CommitFails then ServerError
      else if fault == WriteFails && D.StripeEffect(s.customers, body, true) != Some(D.NoEffect) then ServerError
      else Ok
    case AppleEvent(uuid, _, _, p, _, _, _, fault) =>
      if fault == EventFails then ServerError
      else if uuid in s.appleSeen then Duplicate
      else if p.originalId == "" then if fault == CommitFails then ServerError else Ok
      else if fault == LookupFails then ServerError
      else if Linked(s, p) && UpdateRefused(s, d) then ServerError
      else if fault == CommitFails then ServerError
      else Ok
    case Validate(_, p, proId, clientEnv, now, fault) =>
      if p.productId == "" || p.productId != proId || p.originalId == "" then BadTransaction
      else if fault == EventFails || fault == WriteFails then ServerError
      else if LatestTaken(s.lineages, p.originalId, p.transactionId) then ServerError
      else if !D.KnownEnv(D.ValidatedEnv(p.environment, clientEnv)) then ServerError
      else if !Entitles(p, now) then NotEntitled
      else if fault == CommitFails then ServerError
      else Ok
    case DevPro(_, _, _, fault) => if fault == WriteFails || fault == CommitFails then ServerError else Ok
    case OutOfBand(row) => if E.Managed(row.source) then ServerError else Ok
    case LinkCustomer(_, _) => Ok
  }

  predicate ReplyLost(d: Delivery) {
    (d.StripeEvent? || d.AppleEvent? || d.Validate? || d.DevPro?) && d.fault == CommitReplyLost
  }

  /** The answer, which tells what came of the delivery unless the reply to the commit was lost. */
  function ReplyTo(s: Sys, d: Delivery): Reply {
    if OutcomeOf(s, d) == Ok && ReplyLost(d) then ServerError else OutcomeOf(s, d)
  }

  /** The entitlement operations a committed delivery performs: none or one. */
  function OpsOf(s: Sys, d: Delivery): seq<E.Op> {
    if OutcomeOf(s, d) != Ok then []
    else
      match d
      case StripeEvent(_, body, now, fault) =>
        (match D.StripeEffect(s.customers, body, fault != LookupFails).value
         case NoEffect => []
         case Grant(user, exp) => [E.Upsert(user, E.Stripe, exp, now)]
         case Withdraw(user) => [E.Withdraw(user, E.Stripe)])
      case AppleEvent(_, _, _, p, _, _, now, _) =>
        if !Linked(s, p) || s.lineages[p.originalId].product != E.PRO then []
        else if D.Grants(StatusOf(d)) then [E.Upsert(s.lineages[p.originalId].user, E.AppleIap, D.ExpiresAt(p), now)]
        else [E.Withdraw(s.lineages[p.originalId].user, E.AppleIap)]
      case Validate(user, p, _, _, now, _) => [E.Upsert(user, E.AppleIap, D.ExpiresAt(p), now)]
      case DevPro(user, active, now, _) =>
        [if active then E.Upsert(user, E.Dev, None, now) else E.Withdraw(user, E.Dev)]
      case OutOfBand(row) => [E.OutOfBand(row)]
      case LinkCustomer(_, _) => []
  }

  function Deliver(s: Sys, d: Delivery): Sys {
    if OutcomeOf(s, d) != Ok then s
    else
      var s' := s.(rows := E.Run(s.rows, OpsOf(s, d)));
      match d
      case StripeEvent(id, _, _, _) => s'.(stripeSeen := s.stripeSeen + {id})
      case AppleEvent(uuid, _, _, p, _, _, _, _) =>
        if !Linked(s, p) then s'.(appleSeen := s.appleSeen + {uuid})
        else
          var l := s.lineages[p.originalId];
          s'.(appleSeen := s.appleSeen + {uuid},
              lineages := s.lineages[p.originalId :=
                l.(latest := Latest(p.transactionId), status := StatusOf(d), env := EnvOf(d),
                   expiresAt := D.ExpiresAt(p))])
      case Validate(user, p, _, clientEnv, now, _) =>
        s'.(lineages := s.lineages[p.originalId :=
              Lineage(user, E.PRO, Latest(p.transactionId), D.ValidatedState(p, now),
                      D.ValidatedEnv(p.environment, clientEnv), D.ExpiresAt(p))])
      case DevPro(_, _, _, _) => s'
      case OutOfBand(_) => s'
      case LinkCustomer(customer, user) =>
        if customer in s.customers then s else s.(customers := s.customers[customer := user])
  }

  function Run(ds: seq<Delivery>): Sys {
    if ds == [] then INITIAL else Deliver(Run(ds[..|ds| - 1]), ds[|ds| - 1])
  }

  // ---- Exactly once ----

  datatype Origin = Stripe(id: string) | Apple(uuid: string) | Direct

  /** What a committed delivery left behind: who sent it and what it did. */
  datatype Entry = Entry(origin: Origin, ops: seq<E.Op>)

  function OriginOf(d: Delivery): Origin {
    match d
    case StripeEvent(id, _, _, _) => Stripe(id)
    case AppleEvent(uuid, _, _, _, _, _, _, _) => Apple(uuid)
    case _ => Direct
  }

  /** The committed deliveries of a run, in order. */
  function Journal(ds: seq<Delivery>): seq<Entry> {
    if ds == [] then [] else
    var init, d := ds[..|ds| - 1], ds[|ds| - 1];
    Journal(init) + if OutcomeOf(Run(init), d) == Ok then [Entry(OriginOf(d), OpsOf(Run(init), d))] else []
  }

  function AllOps(js: seq<Entry>): seq<E.Op> {
    if js == [] then [] else AllOps(js[..|js| - 1]) + js[|js| - 1].ops
  }

  predicate Seen(s: Sys, o: Origin) {
    match o
    case Stripe(id) => id in s.stripeSeen
    case Apple(uuid) => uuid in s.appleSeen
    case Direct => false
  }

  predicate InJournal(js: seq<Entry>, o: Origin) {
    exists i :: 0 <= i < |js| && js[i].origin == o
  }

  lemma Next(ds: seq<Delivery>, d: Delivery)
    ensures Run(ds + [d]) == Deliver(Run(ds), d)
    ensures Journal(ds + [d]) ==
              if OutcomeOf(Run(ds), d) == Ok then Journal(ds) + [Entry(OriginOf(d), OpsOf(Run(ds), d))] else Journal(ds)
  {
    assert (ds + [d])[..|ds|] == ds;
  }

  lemma DeliverMarks(s: Sys, d: Delivery, o: Origin)
    ensures Seen(Deliver(s, d), o) <==> Seen(s, o) || (OutcomeOf(s, d) == Ok && OriginOf(d) == o && o != Direct)
    ensures OutcomeOf(s, d) == Ok ==> !Seen(s, OriginOf(d))
  {
  }

  /** An event is in the journal exactly when its id is recorded, and it is there once. */
  lemma {:induction false} JournalHasEachEventOnce(ds: seq<Delivery>, o: Origin)
    requires o != Direct
    ensures InJournal(Journal(ds), o) <==> Seen(Run(ds), o)
    ensures forall i, j :: 0 <= i < j < |Journal(ds)| && Journal(ds)[i].origin == o ==> Journal(ds)[j].origin != o
  {
    hide Run, Journal, Deliver, OutcomeOf, OpsOf, Seen;
    if ds == [] {
      NothingYet();
    } else {
      var init, d := ds[..|ds| - 1], ds[|ds| - 1];
      assert ds == init + [d];
      JournalHasEachEventOnce(init, o);
      Next(init, d);
      DeliverMarks(Run(init), d, o);
      InJournalGrows(Journal(init), Entry(OriginOf(d), OpsOf(Run(init), d)), o);
    }
  }

  lemma NothingYet()
    ensures Run([]) == INITIAL && Journal([]) == []
    ensures forall o :: !Seen(INITIAL, o)
  {
  }

  lemma InJournalGrows(js: seq<Entry>, e: Entry, o: Origin)
    ensures InJournal(js + [e], o) <==> InJournal(js, o) || e.origin == o
  {
    assert forall i :: 0 <= i < |js| ==> (js + [e])[i] == js[i];
    assert (js + [e])[|js|] == e;
  }

  lemma {:induction false} RunOpsConcat(rows: seq<E.Row>, a: seq<E.Op>, b: seq<E.Op>)
    ensures E.Run(rows, a + b) == E.Run(E.Run(rows, a), b)
    decreases |b|
  {
    if b == [] {
      assert a + b == a;
    } else {
      assert (a + b)[..|a + b| - 1] == a + b[..|b| - 1];
      RunOpsConcat(rows, a, b[..|b| - 1]);
    }
  }

  lemma DeliverRows(s: Sys, d: Delivery)
    ensures Deliver(s, d).rows == E.Run(s.rows, OpsOf(s, d))
  {
  }

  lemma {:induction false} RowsFollowJournal(ds: seq<Delivery>)
    ensures Run(ds).rows == E.Run([], AllOps(Journal(ds)))
  {
    if ds != [] {
      var init, d := ds[..|ds| - 1], ds[|ds| - 1];
      var s, js := Run(init), Journal(init);
      RowsFollowJournal(init);
      DeliverRows(s, d);
      RunOpsConcat([], AllOps(js), OpsOf(s, d));
      if OutcomeOf(s, d) == Ok {
        assert (js + [Entry(OriginOf(d), OpsOf(s, d))])[..|js|] == js;
      } else {
        assert Journal(ds) == js;
      }
    }
  }

  /**
   * Exactly once: whatever is delivered, redelivered or lost, the access the table grants is the
   * fold of the committed deliveries, in which every event id occurs at most once.
   */
  lemma ExactlyOnce(ds: seq<Delivery>)
    ensures E.Abs(Run(ds).rows) == E.Fold(map[], AllOps(Journal(ds)))
    ensures forall i, j :: 0 <= i < j < |Journal(ds)| && Journal(ds)[i].origin == Journal(ds)[j].origin ==>
                             Journal(ds)[i].origin == Direct
    ensures forall i :: 0 <= i < |Journal(ds)| ==> |Journal(ds)[i].ops| <= 1
  {
    RowsFollowJournal(ds);
    E.TableRefinesMap([], AllOps(Journal(ds)));
    forall i, j | 0 <= i < j < |Journal(ds)| && Journal(ds)[i].origin == Journal(ds)[j].origin
      ensures Journal(ds)[i].origin == Direct
    {
      if Journal(ds)[i].origin != Direct {
        JournalHasEachEventOnce(ds, Journal(ds)[i].origin);
      }
    }
    EntriesAreSmall(ds);
  }

  lemma {:induction false} EntriesAreSmall(ds: seq<Delivery>)
    ensures forall i :: 0 <= i < |Journal(ds)| ==>
              |Journal(ds)[i].ops| <= 1 && forall op :: op in Journal(ds)[i].ops ==> E.Allowed(op)
  {
    if ds != [] {
      EntriesAreSmall(ds[..|ds| - 1]);
    }
  }

  lemma SameNext(ds: seq<Delivery>, ds': seq<Delivery>, d: Delivery)
    requires Run(ds) == Run(ds') && Journal(ds) == Journal(ds')
    ensures Run(ds + [d]) == Run(ds' + [d]) && Journal(ds + [d]) == Journal(ds' + [d])
  {
    hide Run, Journal, Deliver, OutcomeOf, OpsOf;
    Next(ds, d);
    Next(ds', d);
  }

  // ---- Failures and retries ----

  lemma FailureIsSpent(ds: seq<Delivery>, d: Delivery)
    requires OutcomeOf(Run(ds), d) != Ok
    ensures Run(ds + [d]) == Run(ds) && Journal(ds + [d]) == Journal(ds)
  {
    Next(ds, d);
  }

  /** A delivery that is not committed could as well not have come, whatever follows. */
  lemma {:induction false} FailureIsRetryable(ds: seq<Delivery>, d: Delivery, more: seq<Delivery>)
    requires OutcomeOf(Run(ds), d) != Ok
    ensures Run(ds + [d] + more) == Run(ds + more)
    ensures Journal(ds + [d] + more) == Journal(ds + more)
    decreases |more|
  {
    hide Run, Journal, Deliver, OutcomeOf, OpsOf;
    if more == [] {
      assert ds + [d] + more == ds + [d] && ds + more == ds;
      FailureIsSpent(ds, d);
    } else {
      var init, last := more[..|more| - 1], more[|more| - 1];
      FailureIsRetryable(ds, d, init);
      SameNext(ds + [d] + init, ds + init, last);
      assert ds + [d] + more == ds + [d] + init + [last];
      assert ds + more == ds + init + [last];
    }
  }

  /** Once an event is recorded, a redelivery anywhere later changes neither the tables nor the journal. */
  lemma RedeliveryChangesNothing(ds: seq<Delivery>, d: Delivery, more: seq<Delivery>)
    requires Seen(Run(ds), OriginOf(d))
    ensures Run(ds + [d] + more) == Run(ds + more)
    ensures Journal(ds + [d] + more) == Journal(ds + more)
  {
    hide Run, Journal;
    DeliverMarks(Run(ds), d, OriginOf(d));
    FailureIsRetryable(ds, d, more);
  }

  /** Nothing in the event itself stands in its way. */
  predicate Processable(s: Sys, d: Delivery) {
    match d
    case StripeEvent(_, body, _, _) => body != D.Undecodable
    case AppleEvent(_, _, _, p, _, _, _, _) =>
      Linked(s, p) ==> D.KnownEnv(EnvOf(d)) && !LatestTaken(s.lineages, p.originalId, p.transactionId)
    case _ => true
  }

  /** Without a fault an event is a duplicate exactly if recorded, and else succeeds exactly if it can be processed. */
  lemma RetrySucceedsExactly(s: Sys, d: Delivery)
    requires (d.StripeEvent? || d.AppleEvent?) && d.fault == NoFault
    ensures OutcomeOf(s, d) == Duplicate <==> Seen(s, OriginOf(d))
    ensures OutcomeOf(s, d) == Ok <==> !Seen(s, OriginOf(d)) && Processable(s, d)
  {
  }

  /**
   * An event that failed, and is redelivered without a fault when no attempt in between has been
   * committed, takes effect exactly if it can be processed then, as if it had never been tried.
   */
  lemma RetryTakesEffect(ds: seq<Delivery>, d: Delivery, more: seq<Delivery>, retry: Delivery)
    requires OutcomeOf(Run(ds), d) != Ok && !Seen(Run(ds + more), OriginOf(d))
    requires (retry.StripeEvent? || retry.AppleEvent?) && retry.fault == NoFault && OriginOf(retry) == OriginOf(d)
    ensures OutcomeOf(Run(ds + [d] + more), retry) == Ok <==> Processable(Run(ds + more), retry)
    ensures Processable(Run(ds + more), retry) ==>
              && Run(ds + [d] + more + [retry]) == Deliver(Run(ds + more), retry)
              && Journal(ds + [d] + more + [retry]) ==
                   Journal(ds + more) + [Entry(OriginOf(d), OpsOf(Run(ds + more), retry))]
  {
    hide Run, Journal, Deliver, OutcomeOf, OpsOf, Seen, Processable;
    FailureIsRetryable(ds, d, more);
    RetrySucceedsExactly(Run(ds + more), retry);
    Next(ds + [d] + more, retry);
  }

  /** Of the events answered with an error, only one whose commit lost its reply has left anything behind. */
  lemma ErrorLeavesNothingExactly(s: Sys, d: Delivery)
    requires (d.StripeEvent? || d.AppleEvent?) && ReplyTo(s, d) == ServerError
    ensures Deliver(s, d) == s <==> !(d.fault == CommitReplyLost && OutcomeOf(s, d) == Ok)
  {
    DeliverMarks(s, d, OriginOf(d));
  }

  /** Which does no harm: the sender tries again, and every further attempt, whatever follows, changes nothing. */
  lemma LostReplyIsHarmless(ds: seq<Delivery>, d: Delivery, more: seq<Delivery>, retry: Delivery, rest: seq<Delivery>)
    requires (d.StripeEvent? || d.AppleEvent?) && d.fault == CommitReplyLost && OutcomeOf(Run(ds), d) == Ok
    requires OriginOf(retry) == OriginOf(d)
    ensures ReplyTo(Run(ds), d) == ServerError
    ensures retry.fault != EventFails ==> ReplyTo(Run(ds + [d] + more), retry) == Duplicate
    ensures Run(ds + [d] + more + [retry] + rest) == Run(ds + [d] + more + rest)
  {
    Next(ds, d);
    DeliverMarks(Run(ds), d, OriginOf(d));
    StaysSeen(ds + [d], more, OriginOf(d));
    RedeliveryChangesNothing(ds + [d] + more, retry, rest);
  }

  lemma {:induction false} StaysSeen(ds: seq<Delivery>, more: seq<Delivery>, o: Origin)
    requires Seen(Run(ds), o)
    ensures Seen(Run(ds + more), o)
    decreases |more|
  {
    hide Run, Journal, Deliver, OutcomeOf, OpsOf, Seen;
    if more == [] {
      assert ds + more == ds;
    } else {
      var init, last := more[..|more| - 1], more[|more| - 1];
      StaysSeen(ds, init, o);
      assert ds + more == ds + init + [last];
      Next(ds + init, last);
      DeliverMarks(Run(ds + init), last, o);
    }
  }

  // ---- Success without effect ----

  /** What a Stripe event does when the customer lookup errors, and when it does not. */
  function LookedUp(id: string, body: D.StripeBody, now: int, ok: bool): Delivery {
    StripeEvent(id, body, now, if ok then NoFault else LookupFails)
  }

  /**
   * The exception: a customer lookup that errors is answered with success.  That costs the event
   * its effect exactly when only the lookup would have found its user, and every redelivery is then
   * a duplicate.
   */
  lemma LookupErrorSpendsEvent(s: Sys, id: string, body: D.StripeBody, now: int, retry: Delivery)
    requires id !in s.stripeSeen && body != D.Undecodable
    requires retry.StripeEvent? && retry.id == id && retry.fault != EventFails
    ensures OutcomeOf(s, LookedUp(id, body, now, false)) == OutcomeOf(s, LookedUp(id, body, now, true)) == Ok
    ensures OpsOf(s, LookedUp(id, body, now, false)) != OpsOf(s, LookedUp(id, body, now, true)) <==>
              D.NeedsCustomer(body) && D.Known(s.customers, body)
    ensures D.NeedsCustomer(body) ==> OpsOf(s, LookedUp(id, body, now, false)) == []
    ensures OutcomeOf(Deliver(s, LookedUp(id, body, now, false)), retry) == Duplicate
    ensures Deliver(s, LookedUp(id, body, now, false)).rows == s.rows || !D.NeedsCustomer(body)
  {
    D.LookupFailureLosesEffect(s.customers, body);
    hide D.StripeEffect;
    OneOpEach(s, LookedUp(id, body, now, true), D.StripeEffect(s.customers, body, true));
    OneOpEach(s, LookedUp(id, body, now, false), D.StripeEffect(s.customers, body, false));
  }

  lemma OneOpEach(s: Sys, d: Delivery, effect: Option<D.Effect>)
    requires d.StripeEvent? && (d.fault == NoFault || d.fault == LookupFails) && d.id !in s.stripeSeen && effect.Some?
    requires effect == D.StripeEffect(s.customers, d.body, d.fault != LookupFails)
    ensures OutcomeOf(s, d) == Ok && d.id in Deliver(s, d).stripeSeen
    ensures OpsOf(s, d) == match effect.value
                           case NoEffect => []
                           case Grant(user, exp) => [E.Upsert(user, E.Stripe, exp, d.now)]
                           case Withdraw(user) => [E.Withdraw(user, E.Stripe)]
    ensures OpsOf(s, d) == [] ==> Deliver(s, d).rows == s.rows
  {
  }

  /**
   * Nor does it take an error: an event that needs its customer and comes before the customer is in
   * the table is spent too, although it would act once the customer is there.
   */
  lemma EarlyEventIsSpent(s: Sys, id: string, body: D.StripeBody, now: int, user: User, retry: Delivery)
    requires id !in s.stripeSeen && D.NeedsCustomer(body) && D.CustomerOf(body) != "" && !D.Known(s.customers, body)
    requires retry.StripeEvent? && retry.id == id && retry.fault != EventFails
    ensures var d := StripeEvent(id, body, now, NoFault);
            var linked := Deliver(Deliver(s, d), LinkCustomer(D.CustomerOf(body), user));
            && OutcomeOf(s, d) == Ok && Deliver(s, d).rows == s.rows
            && OutcomeOf(linked, retry) == Duplicate
            && OpsOf(Deliver(s, LinkCustomer(D.CustomerOf(body), user)), d) != []
  {
    var d := StripeEvent(id, body, now, NoFault);
    var later := Deliver(s, LinkCustomer(D.CustomerOf(body), user));
    D.NoEffectExactly(s.customers, body, true);
    D.NoEffectExactly(later.customers, body, true);
    OneOpEach(s, d, D.StripeEffect(s.customers, body, true));
    OneOpEach(later, d, D.StripeEffect(later.customers, body, true));
  }

  // ---- Reads over runs ----

  lemma {:induction false} AlwaysSerial(ds: seq<Delivery>)
    ensures E.Serial(Run(ds).rows)
  {
    if ds != [] {
      var init, d := ds[..|ds| - 1], ds[|ds| - 1];
      AlwaysSerial(init);
      DeliverRows(Run(init), d);
      OpsAllowed(Run(init), d);
      if OpsOf(Run(init), d) != [] {
        OneOp(Run(init).rows, OpsOf(Run(init), d));
        E.ApplyKeepsSerial(Run(init).rows, OpsOf(Run(init), d)[0]);
      }
    }
  }

  lemma OpsAllowed(s: Sys, d: Delivery)
    ensures |OpsOf(s, d)| <= 1 && forall op :: op in OpsOf(s, d) ==> E.Allowed(op)
  {
  }

  lemma OneOp(rows: seq<E.Row>, ops: seq<E.Op>)
    requires |ops| == 1
    ensures E.Run(rows, ops) == E.Apply(rows, ops[0])
  {
    assert ops[..0] == [];
  }

  /** The access check, after any run, reads the fold of the journal plus the rows inserted by hand. */
  lemma AccessFollowsJournal(ds: seq<Delivery>, user: User, t: int)
    ensures E.HasActivePro(Run(ds).rows, user, t) <==>
              || E.Granted(E.Fold(map[], AllOps(Journal(ds))), user, t)
              || E.GrantedOutOfBand(Run(ds).rows, user, t)
  {
    AlwaysSerial(ds);
    ExactlyOnce(ds);
    E.ReadsRefine(Run(ds).rows, user, t);
  }

  /** The constraints of apple_iap_subscriptions: known environments, and no transaction id in two rows. */
  ghost predicate MeetsConstraints(lineages: map<string, Lineage>) {
    && (forall o :: o in lineages ==> lineages[o].env in {"sandbox", "production"} && lineages[o].latest != Some(""))
    && (forall o, p :: o in lineages && p in lineages && lineages[o].latest.Some? ==>
                         lineages[o].latest == lineages[p].latest ==> o == p)
  }

  lemma WriteMeetsConstraints(lineages: map<string, Lineage>, orig: string, tx: string, l: Lineage)
    requires MeetsConstraints(lineages)
    requires D.KnownEnv(l.env) && l.latest == Latest(tx) && !LatestTaken(lineages, orig, tx)
    ensures MeetsConstraints(lineages[orig := l])
  {
  }

  /** The handlers answer a violation with an error instead of committing it. */
  lemma {:induction false} LineagesMeetConstraints(ds: seq<Delivery>)
    ensures MeetsConstraints(Run(ds).lineages)
  {
    if ds != [] {
      var init, d := ds[..|ds| - 1], ds[|ds| - 1];
      var s, s' := Run(init), Run(ds);
      LineagesMeetConstraints(init);
      if OutcomeOf(s, d) == Ok && (d.Validate? || (d.AppleEvent? && Linked(s, d.payload))) {
        var orig := d.payload.originalId;
        WriteMeetsConstraints(s.lineages, orig, d.payload.transactionId, s'.lineages[orig]);
      }
    }
  }

  // ---- The handlers ----

  function EffectOn(rows: seq<E.Row>, effect: D.Effect, now: int): seq<E.Row> {
    match effect
    case NoEffect => rows
    case Grant(user, exp) => E.Upserted(rows, user, E.Stripe, exp, now)
    case Withdraw(user) => E.RevokeAll(rows, user, E.Stripe)
  }

  class Server {
    const ent: E.EntitlementStore
    var stripeSeen: set<string>
    var appleSeen: set<string>
    var lineages: map<string, Lineage>
    var customers: map<D.Customer, User>

    function View(): Sys
      reads this, ent
    {
      Sys(ent.rows, stripeSeen, appleSeen, lineages, customers)
    }

    constructor ()
      ensures View() == INITIAL && fresh(ent)
    {
      ent := new E.EntitlementStore();
      stripeSeen, appleSeen, lineages, customers := {}, {}, map[], map[];
    }

    /** The deferred rollback: every table as the transaction found it. */
    method Rollback(before: Sys)
      modifies this, ent
      ensures View() == before
    {
      ent.rows := before.rows;
      stripeSeen, appleSeen := before.stripeSeen, before.appleSeen;
      lineages, customers := before.lineages, before.customers;
    }

    /** INSERT INTO stripe_webhook_events ... ON CONFLICT DO NOTHING RETURNING. */
    method InsertStripeEvent(id: string) returns (inserted: bool)
      modifies this`stripeSeen
      ensures inserted <==> id !in old(stripeSeen)
      ensures stripeSeen == old(stripeSeen) + {id}
    {
      inserted := id !in stripeSeen;
      stripeSeen := stripeSeen + {id};
    }

    method InsertAppleEvent(uuid: string) returns (inserted: bool)
      modifies this`appleSeen
      ensures inserted <==> uuid !in old(appleSeen)
      ensures appleSeen == old(appleSeen) + {uuid}
    {
      inserted := uuid !in appleSeen;
      appleSeen := appleSeen + {uuid};
    }

    /** Applies one event; false is an error that makes the caller roll back. */
    method ProcessStripeEvent(body: D.StripeBody, now: int, fault: Fault) returns (ok: bool)
      modifies ent
      ensures var effect := D.StripeEffect(customers, body, fault != LookupFails);
              && (ok <==> effect.Some? && (fault == WriteFails ==> effect.value.NoEffect?))
              && (ok ==> ent.rows == EffectOn(old(ent.rows), effect.value, now))
    {
      var lookupOk := fault != LookupFails;
      match body {
        case CheckoutCompleted(sess) =>
          if !sess.isSubscription || !sess.hasMetadata
             || sess.plan != D.PLAN_PRO || sess.source != D.SOURCE_STRIPE_WEB {
            return true;
          }
          var user := D.UserOfCheckout(customers, sess, lookupOk);
          if user.None? {
            return true;
          }
          if fault == WriteFails {
            return false;
          }
          ent.UpsertPro(user.value, E.Stripe, None, now);
          return true;
        case SubscriptionChanged(sub) =>
          var user := D.UserOfSubscription(customers, sub, lookupOk);
          if user.None? {
            return true;
          }
          if fault == WriteFails {
            return false;
          }
          var access := D.ProAccess(sub);
          if access.Some? {
            ent.UpsertPro(user.value, E.Stripe, access.value, now);
          } else {
            ent.RevokePro(user.value, E.Stripe);
          }
          return true;
        case SubscriptionDeleted(sub) =>
          var user := D.UserOfSubscription(customers, sub, lookupOk);
          if user.None? {
            return true;
          }
          if fault == WriteFails {
            return false;
          }
          ent.RevokePro(user.value, E.Stripe);
          return true;
        case Unsupported =>
          return true;
        case Undecodable =>
          return false;
      }
    }

    method HandleStripeWebhook(id: string, body: D.StripeBody, now: int, fault: Fault) returns (reply: Reply)
      modifies this, ent
      ensures reply == ReplyTo(old(View()), StripeEvent(id, body, now, fault))
      ensures View() == Deliver(old(View()), StripeEvent(id, body, now, fault))
    {
      var before := View();
      if fault == EventFails {
        return ServerError;
      }
      var inserted := InsertStripeEvent(id);
      if !inserted {
        Rollback(before);
        return Duplicate;
      }
      var ok := ProcessStripeEvent(body, now, fault);
      if !ok || fault == CommitFails {
        Rollback(before);
        return ServerError;
      }
      ghost var ops := OpsOf(before, StripeEvent(id, body, now, fault));
      if ops != [] {
        OneOp(before.rows, ops);
      }
      return if fault == CommitReplyLost then ServerError else Ok;
    }

    /** UPDATE apple_iap_subscriptions ... under its constraints; false breaks one or fails. */
    method UpdateLineage(orig: string, tx: string, status: D.AppleStatus, env: string, exp: Option<int>, fault: Fault)
      returns (ok: bool)
      requires orig in lineages
      modifies this`lineages
      ensures ok <==> fault != WriteFails && D.KnownEnv(env) && !LatestTaken(old(lineages), orig, tx)
      ensures ok ==> lineages == old(lineages)[orig :=
                       old(lineages)[orig].(latest := Latest(tx), status := status, env := env, expiresAt := exp)]
      ensures !ok ==> lineages == old(lineages)
    {
      ok := fault != WriteFails && D.KnownEnv(env) && !LatestTaken(lineages, orig, tx);
      if ok {
        var row := lineages[orig].(latest := Latest(tx), status := status, env := env, expiresAt := exp);
        lineages := lineages[orig := row];
      }
    }

    method HandleAppleWebhook(d: Delivery) returns (reply: Reply)
      requires d.AppleEvent?
      modifies this, ent
      ensures reply == ReplyTo(old(View()), d)
      ensures View() == Deliver(old(View()), d)
    {
      var before := View();
      var orig := d.payload.originalId;
      if d.fault == EventFails {
        return ServerError;
      }
      var inserted := InsertAppleEvent(d.uuid);
      if !inserted {
        Rollback(before);
        return Duplicate;
      }
      if orig != "" {
        if d.fault == LookupFails {
          Rollback(before);
          return ServerError;
        }
        if orig in lineages {
          var row, status := lineages[orig], StatusOf(d);
          var ok := UpdateLineage(orig, d.payload.transactionId, status, EnvOf(d), D.ExpiresAt(d.payload), d.fault);
          if !ok {
            Rollback(before);
            return ServerError;
          }
          if row.product == E.PRO {
            if D.Grants(status) {
              ent.UpsertPro(row.user, E.AppleIap, D.ExpiresAt(d.payload), d.now);
            } else {
              ent.RevokePro(row.user, E.AppleIap);
            }
          }
        }
      }
      if d.fault == CommitFails {
        Rollback(before);
        return ServerError;
      }
      ghost var ops := OpsOf(before, d);
      if ops != [] {
        OneOp(before.rows, ops);
      }
      return if d.fault == CommitReplyLost then ServerError else Ok;
    }

    /**
     * From the decoded payload on.  An inactive transaction revokes inside the transaction and
     * then returns without committing, so nothing of it stays.
     */
    method ValidateTransaction(d: Delivery) returns (reply: Reply)
      requires d.Validate?
      modifies this, ent
      ensures reply == ReplyTo(old(View()), d)
      ensures View() == Deliver(old(View()), d)
    {
      var before, p := View(), d.payload;
      if p.productId == "" || p.productId != d.proProductId || p.originalId == "" {
        return BadTransaction;
      }
      var env, exp := D.ValidatedEnv(p.environment, d.clientEnv), D.ExpiresAt(p);
      var status := D.ValidatedState(p, d.now);
      if d.fault == EventFails || d.fault == WriteFails {
        return ServerError;
      }
      if LatestTaken(lineages, p.originalId, p.transactionId) || !D.KnownEnv(env) {
        return ServerError;
      }
      lineages := lineages[p.originalId := Lineage(d.user, E.PRO, Latest(p.transactionId), status, env, exp)];
      if status == D.ActiveSub {
        ent.UpsertPro(d.user, E.AppleIap, exp, d.now);
      } else {
        ent.RevokePro(d.user, E.AppleIap);
        Rollback(before);
        return NotEntitled;
      }
      if d.fault == CommitFails {
        Rollback(before);
        return ServerError;
      }
      OneOp(before.rows, OpsOf(before, d));
      return if d.fault == CommitReplyLost then ServerError else Ok;
    }
  }
}
