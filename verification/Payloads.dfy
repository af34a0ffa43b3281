/**
 * What each delivery does, told by the fields of its payload (internal/billing/webhook_process.go,
 * internal/billing/webhook_resolve.go, internal/server/routes_iap_apple_webhook.go,
 * internal/appleiap/service.go, internal/entitlement/store.go).
 */
module Payloads {
  import opened Base
  import D = Decisions
  import E = Entitlements
  import opened Webhooks
  import C = AppleCoupling

  type Access = map<E.Key, Option<int>>

  function Before(s: Sys): Access {
    E.Abs(s.rows)
  }

  function Afterwards(s: Sys, d: Delivery): Access {
    E.Abs(Deliver(s, d).rows)
  }

  // ---- Stripe ----

  /** The user of an event: the one it names in its metadata, else by reference, else the owner of its customer. */
  predicate IsUserOf(
      customers: map<D.Customer, User>, metadata: Option<User>, reference: Option<User>, customer: D.Customer,
      lookedUp: bool, user: User)
  {
    if metadata.Some? then metadata.value == user
    else if reference.Some? then reference.value == user
    else lookedUp && customer != "" && customer in customers && customers[customer] == user
  }

  predicate HasNoUser(
      customers: map<D.Customer, User>, metadata: Option<User>, reference: Option<User>, customer: D.Customer,
      lookedUp: bool)
  {
    metadata.None? && reference.None? && !(lookedUp && customer != "" && customer in customers)
  }

  lemma OneOpAbs(s: Sys, d: Delivery)
    ensures OpsOf(s, d) == [] ==> Deliver(s, d).rows == s.rows
    ensures OpsOf(s, d) != [] ==> Afterwards(s, d) == E.ApplyAbs(Before(s), OpsOf(s, d)[0])
  {
    C.DeliverAbs(s, d);
  }

  /** A deleted subscription takes its user's Stripe access away, and nothing else. */
  lemma DeletionWithdraws(s: Sys, d: Delivery, user: User)
    requires d.StripeEvent? && d.body.SubscriptionDeleted? && OutcomeOf(s, d) == Ok
    requires IsUserOf(s.customers, d.body.sub.metadataUser, None, d.body.sub.customer, d.fault != LookupFails, user)
    ensures Afterwards(s, d) == Before(s) - {(user, E.Stripe)}
  {
    OneOpAbs(s, d);
  }

  predicate IsProCheckout(c: D.Checkout) {
    c.isSubscription && c.hasMetadata && c.plan == "pro" && c.source == "stripe_web"
  }

  /** A completed Pro checkout gives its user Stripe access without an end, and changes nothing else. */
  lemma CheckoutGrants(s: Sys, d: Delivery, user: User)
    requires d.StripeEvent? && d.body.CheckoutCompleted? && OutcomeOf(s, d) == Ok && IsProCheckout(d.body.session)
    requires var c := d.body.session;
             IsUserOf(s.customers, c.metadataUser, c.referenceUser, c.customer, d.fault != LookupFails, user)
    ensures Afterwards(s, d) == Before(s)[(user, E.Stripe) := None]
  {
    OneOpAbs(s, d);
  }

  /** A created or updated subscription sets its user's Stripe access by its status and the end of the paid period. */
  lemma SubscriptionDecides(s: Sys, d: Delivery, user: User)
    requires d.StripeEvent? && d.body.SubscriptionChanged? && OutcomeOf(s, d) == Ok
    requires IsUserOf(s.customers, d.body.sub.metadataUser, None, d.body.sub.customer, d.fault != LookupFails, user)
    ensures var key, sub := (user, E.Stripe), d.body.sub;
            Afterwards(s, d) ==
              match sub.status
              case Active | Trialing =>
                Before(s)[key :=
                  if sub.currentPeriodEnd > 0 then Some(sub.currentPeriodEnd)
                  else if sub.cancelAtPeriodEnd && sub.cancelAt > 0 then Some(sub.cancelAt)
                  else None]
              case PastDue => Before(s)[key := None]
              case Canceled | Unpaid | IncompleteExpired | Paused | Incomplete | Other => Before(s) - {key}
  {
    D.ProAccessMeans(d.body.sub);
    OneOpAbs(s, d);
  }

  /** An event of no interest, and one whose user is not found, change no entitlement. */
  lemma OthersChangeNothing(s: Sys, d: Delivery)
    requires d.StripeEvent? && OutcomeOf(s, d) == Ok
    requires match d.body
             case CheckoutCompleted(c) =>
               || !IsProCheckout(c)
               || HasNoUser(s.customers, c.metadataUser, c.referenceUser, c.customer, d.fault != LookupFails)
             case SubscriptionChanged(sub) =>
               HasNoUser(s.customers, sub.metadataUser, None, sub.customer, d.fault != LookupFails)
             case SubscriptionDeleted(sub) =>
               HasNoUser(s.customers, sub.metadataUser, None, sub.customer, d.fault != LookupFails)
             case Unsupported => true
             case Undecodable => true
    ensures Deliver(s, d).rows == s.rows && d.body != D.Undecodable
  {
    OneOpAbs(s, d);
  }

  // ---- Apple ----

  /** The transaction grants access at `now`: neither refunded nor expired. */
  predicate Lasts(p: D.Payload, now: int) {
    p.revocationDate <= 0 && (p.expiresDate <= 0 || p.expiresDate > now)
  }

  function ExpiryOf(p: D.Payload): Option<int> {
    if p.expiresDate <= 0 then None else Some(p.expiresDate)
  }

  predicate KnownName(env: string) {
    env == "sandbox" || env == "production"
  }

  /** Another subscription row already holds this transaction id. */
  predicate TakenElsewhere(s: Sys, p: D.Payload) {
    p.transactionId != "" &&
      exists o :: o in s.lineages && o != p.originalId && s.lineages[o].latest == Some(p.transactionId)
  }

  /** The status by dates: refunded before expired before active. */
  lemma ValidatedStatus(p: D.Payload, now: int)
    ensures D.ValidatedState(p, now) == D.Revoked <==> p.revocationDate > 0
    ensures D.ValidatedState(p, now) == D.Expired <==> p.revocationDate <= 0 && 0 < p.expiresDate <= now
    ensures D.ValidatedState(p, now) == D.ActiveSub <==> Lasts(p, now)
  {
  }

  /**
   * A validation that meets no fault and breaks no constraint is accepted if and only if the
   * transaction is complete, for the right product, and lasts; it is answered "not entitled" exactly
   * if only the last is missing.  Whatever is not accepted leaves nothing behind.
   */
  lemma ValidationExactly(s: Sys, d: Delivery)
    requires d.Validate? && d.fault == NoFault
    requires !TakenElsewhere(s, d.payload) && (KnownName(d.payload.environment) || KnownName(d.clientEnv))
    ensures var p := d.payload;
            var complete := p.productId != "" && p.productId == d.proProductId && p.originalId != "";
            && (OutcomeOf(s, d) == Ok <==> complete && Lasts(d.payload, d.now))
            && (OutcomeOf(s, d) == NotEntitled <==> complete && !Lasts(d.payload, d.now))
            && (OutcomeOf(s, d) == BadTransaction <==> !complete)
    ensures OutcomeOf(s, d) != Ok ==> Deliver(s, d) == s
  {
  }

  /** A validation that breaks a constraint is never accepted. */
  lemma BrokenValidationFails(s: Sys, d: Delivery)
    requires d.Validate?
    requires TakenElsewhere(s, d.payload) || !(KnownName(d.payload.environment) || KnownName(d.clientEnv))
    ensures OutcomeOf(s, d) != Ok && Deliver(s, d) == s
  {
  }

  /** An accepted validation links the lineage to its user and grants access until the transaction expires. */
  lemma ValidationGrants(s: Sys, d: Delivery)
    requires d.Validate? && OutcomeOf(s, d) == Ok
    ensures var p := d.payload;
            && Deliver(s, d).lineages == s.lineages[p.originalId :=
                 Lineage(d.user, "pro", if p.transactionId == "" then None else Some(p.transactionId), D.ActiveSub,
                         if KnownName(p.environment) then p.environment else d.clientEnv, ExpiryOf(p))]
            && Afterwards(s, d) == Before(s)[(d.user, E.AppleIap) := ExpiryOf(p)]
    ensures Lasts(d.payload, d.now)
  {
    ValidatedStatus(d.payload, d.now);
    OneOpAbs(s, d);
  }

  predicate InGrace(d: Delivery)
    requires d.AppleEvent?
  {
    d.nt == "DID_ENTER_GRACE_PERIOD" || d.st == "GRACE_PERIOD"
  }

  /** The notification leaves its subscription granting access. */
  predicate Continues(d: Delivery)
    requires d.AppleEvent?
  {
    && Lasts(d.payload, d.now) && d.nt !in {"REVOKE", "REFUND", "EXPIRED"}
    && (d.nt == "GRACE_PERIOD_EXPIRED" ==> d.st == "GRACE_PERIOD")
  }

  /** The environment a notification states: by its transaction, else by itself, else by the configuration. */
  function StatedEnv(d: Delivery): string
    requires d.AppleEvent?
  {
    if d.payload.environment != "" then d.payload.environment
    else if d.notificationEnv != "" then d.notificationEnv
    else d.configuredEnv
  }

  /** A committed notification records its lineage's state, and leaves owner, product and other lineages alone. */
  lemma NotificationRecords(s: Sys, d: Delivery)
    requires d.AppleEvent? && OutcomeOf(s, d) == Ok && d.payload.originalId != "" && d.payload.originalId in s.lineages
    ensures var p, l := d.payload, s.lineages[d.payload.originalId];
            var l' := Deliver(s, d).lineages[p.originalId];
            && Deliver(s, d).lineages == s.lineages[p.originalId := l']
            && l'.user == l.user && l'.product == l.product && l'.env == StatedEnv(d) && l'.expiresAt == ExpiryOf(p)
            && l'.latest == (if p.transactionId == "" then None else Some(p.transactionId))
            && (l'.status == D.Revoked <==> p.revocationDate > 0 || d.nt in {"REVOKE", "REFUND"})
            && (l'.status == D.BillingRetry <==> Continues(d) && d.nt == "DID_FAIL_TO_RENEW")
            && (l'.status == D.GracePeriod <==> Continues(d) && d.nt != "DID_FAIL_TO_RENEW" && InGrace(d))
            && (l'.status == D.ActiveSub <==> Continues(d) && d.nt != "DID_FAIL_TO_RENEW" && !InGrace(d))
    ensures KnownName(StatedEnv(d)) && !TakenElsewhere(s, d.payload)
  {
    D.StatusExactlyWhen(d.nt, d.st, d.payload, d.now);
  }

  /** A notification of a lineage nobody has validated is recorded and changes nothing else. */
  lemma OrphanChangesNothing(s: Sys, d: Delivery)
    requires d.AppleEvent? && OutcomeOf(s, d) == Ok
    requires d.payload.originalId == "" || d.payload.originalId !in s.lineages
    ensures Deliver(s, d) == s.(appleSeen := s.appleSeen + {d.uuid})
  {
    OneOpAbs(s, d);
  }

  /** After a notification, Apple access of the lineage's user is exactly what its dates, type and subtype say. */
  lemma NotificationDecides(ds: seq<Delivery>, d: Delivery)
    requires d.AppleEvent? && OutcomeOf(Run(ds), d) == Ok
    requires d.payload.originalId != "" && d.payload.originalId in Run(ds).lineages
    ensures var key, m := (Run(ds).lineages[d.payload.originalId].user, E.AppleIap), Before(Run(ds));
            Afterwards(Run(ds), d) == if Continues(d) then m[key := ExpiryOf(d.payload)] else m - {key}
  {
    C.LineagesArePro(ds);
    D.GrantsExactlyWhen(d.nt, d.st, d.payload, d.now);
    OneOpAbs(Run(ds), d);
  }

  // ---- By hand, and links ----

  /** The development switch sets or takes away access without an end, unless a write or the commit fails. */
  lemma SwitchDecides(s: Sys, d: Delivery)
    requires d.DevPro?
    ensures d.fault in {WriteFails, CommitFails} ==> OutcomeOf(s, d) == ServerError && Deliver(s, d) == s
    ensures d.fault !in {WriteFails, CommitFails} ==> OutcomeOf(s, d) == Ok
    ensures d.fault !in {WriteFails, CommitFails} ==>
              Afterwards(s, d) == if d.active then Before(s)[(d.user, E.Dev) := None] else Before(s) - {(d.user, E.Dev)}
  {
    OneOpAbs(s, d);
  }

  lemma OutOfBandAdds(s: Sys, d: Delivery)
    requires d.OutOfBand? && d.row.source !in {E.Dev, E.AppleIap, E.Stripe}
    ensures Deliver(s, d) == s.(rows := s.rows + [d.row])
  {
    OneOp(s.rows, OpsOf(s, d));
  }

  /** A customer is linked once and stays with its user. */
  lemma LinkIsKept(s: Sys, d: Delivery, customer: D.Customer)
    requires customer in s.customers || (d.LinkCustomer? && d.customer == customer)
    ensures customer in Deliver(s, d).customers
    ensures Deliver(s, d).customers[customer] == if customer in s.customers then s.customers[customer] else d.user
  {
  }

  // ---- Faults ----

  /** Without a fault an event is committed if and only if it is new and its payload can be processed. */
  lemma AcceptedExactly(s: Sys, d: Delivery)
    requires (d.StripeEvent? || d.AppleEvent?) && d.fault == NoFault
    ensures d.StripeEvent? ==> (OutcomeOf(s, d) == Ok <==> d.id !in s.stripeSeen && d.body != D.Undecodable)
    ensures d.AppleEvent? ==>
              (OutcomeOf(s, d) == Ok <==>
                 && d.uuid !in s.appleSeen
                 && (d.payload.originalId != "" && d.payload.originalId in s.lineages ==>
                       KnownName(StatedEnv(d)) && !TakenElsewhere(s, d.payload)))
  {
    RetrySucceedsExactly(s, d);
  }

  /** A fault costs a delivery its commit: always when event id or commit fails, a write only where there is one. */
  lemma FaultsAreNotCommitted(s: Sys, d: Delivery)
    requires d.StripeEvent? || d.AppleEvent? || d.Validate?
    ensures d.fault in {EventFails, CommitFails} ==> OutcomeOf(s, d) != Ok
    ensures d.fault == WriteFails && OutcomeOf(s, d) == Ok ==> OpsOf(s, d) == [] && Deliver(s, d).lineages == s.lineages
    ensures d.fault == LookupFails && d.AppleEvent? && OutcomeOf(s, d) == Ok ==> d.payload.originalId == ""
  {
  }
}
