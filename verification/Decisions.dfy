/**
 * What a payload from Stripe or Apple says about Pro access
 * (internal/billing/webhook_process.go, internal/server/routes_iap_apple_webhook.go,
 * internal/appleiap/jws.go, internal/appleiap/service.go).
 *
 * Strings arrive trimmed, and notification types in upper case; users named in a payload
 * arrive parsed.
 */
module Decisions {
  import opened Base

  type User = nat
  type Customer = string

  // ---- Stripe ----

  datatype StripeStatus =
    | Active | Trialing | PastDue | Canceled | Unpaid | IncompleteExpired | Paused | Incomplete | Other

  datatype Subscription = Subscription(
    status: StripeStatus, cancelAtPeriodEnd: bool, currentPeriodEnd: int, cancelAt: int,
    metadataUser: Option<User>, customer: Customer)

  datatype Checkout = Checkout(
    isSubscription: bool, hasMetadata: bool, plan: string, source: string,
    metadataUser: Option<User>, referenceUser: Option<User>, customer: Customer)

  datatype StripeBody =
    | CheckoutCompleted(session: Checkout)
    | SubscriptionChanged(sub: Subscription)
    | SubscriptionDeleted(sub: Subscription)
    | Unsupported
    | Undecodable

  const PLAN_PRO := "pro"
  const SOURCE_STRIPE_WEB := "stripe_web"

  function PeriodEnd(sub: Subscription): int {
    if sub.currentPeriodEnd > 0 then sub.currentPeriodEnd
    else if sub.cancelAtPeriodEnd && sub.cancelAt > 0 then sub.cancelAt
    else 0
  }

  /** None when the subscription grants nothing, otherwise the expiry of the grant. */
  function ProAccess(sub: Subscription): Option<Option<int>> {
    match sub.status
    case Active | Trialing =>
      if sub.cancelAtPeriodEnd then Some(if PeriodEnd(sub) > 0 then Some(PeriodEnd(sub)) else None)
      else Some(if sub.currentPeriodEnd > 0 then Some(sub.currentPeriodEnd) else None)
    case PastDue => Some(None)
    case _ => None
  }

  /** The end of the paid period bounds the grant whenever Stripe states one; a past-due grant is open-ended. */
  lemma ProAccessMeans(sub: Subscription)
    ensures ProAccess(sub).Some? <==> sub.status in {Active, Trialing, PastDue}
    ensures sub.status in {Active, Trialing} ==>
              ProAccess(sub).value == (if PeriodEnd(sub) > 0 then Some(PeriodEnd(sub)) else None)
    ensures sub.status == PastDue ==> ProAccess(sub).value == None
    ensures ProAccess(sub).Some? && ProAccess(sub).value.Some? ==> ProAccess(sub).value.value > 0
  {
  }

  datatype Effect = NoEffect | Grant(user: User, exp: Option<int>) | Withdraw(user: User)

  /** A lookup that errors counts as "no such customer"; the error is only logged. */
  function UserOfCustomer(customers: map<Customer, User>, customer: Customer, lookupOk: bool): Option<User> {
    if customer != "" && lookupOk && customer in customers then Some(customers[customer]) else None
  }

  function UserOfCheckout(customers: map<Customer, User>, s: Checkout, lookupOk: bool): Option<User> {
    if s.metadataUser.Some? then s.metadataUser
    else if s.referenceUser.Some? then s.referenceUser
    else UserOfCustomer(customers, s.customer, lookupOk)
  }

  function UserOfSubscription(customers: map<Customer, User>, sub: Subscription, lookupOk: bool): Option<User> {
    if sub.metadataUser.Some? then sub.metadataUser
    else UserOfCustomer(customers, sub.customer, lookupOk)
  }

  /** What processing an event does to the entitlements; None when its payload does not decode. */
  function StripeEffect(customers: map<Customer, User>, body: StripeBody, lookupOk: bool): Option<Effect> {
    match body
    case CheckoutCompleted(s) =>
      if !s.isSubscription || !s.hasMetadata || s.plan != PLAN_PRO || s.source != SOURCE_STRIPE_WEB then Some(NoEffect)
      else
        var user := UserOfCheckout(customers, s, lookupOk);
        Some(if user.None? then NoEffect else Grant(user.value, None))
    case SubscriptionChanged(sub) =>
      var user, access := UserOfSubscription(customers, sub, lookupOk), ProAccess(sub);
      Some(if user.None? then NoEffect
           else if access.Some? then Grant(user.value, access.value)
           else Withdraw(user.value))
    case SubscriptionDeleted(sub) =>
      var user := UserOfSubscription(customers, sub, lookupOk);
      Some(if user.None? then NoEffect else Withdraw(user.value))
    case Unsupported => Some(NoEffect)
    case Undecodable => None
  }

  predicate NamesUser(body: StripeBody) {
    match body
    case CheckoutCompleted(s) => s.metadataUser.Some? || s.referenceUser.Some?
    case SubscriptionChanged(sub) => sub.metadataUser.Some?
    case SubscriptionDeleted(sub) => sub.metadataUser.Some?
    case _ => false
  }

  /** A payload that names its user needs no customer table, and what it names in its metadata outranks the rest. */
  lemma NamedUserOutranksCustomer(customers: map<Customer, User>, body: StripeBody, lookupOk: bool)
    ensures NamesUser(body) ==> StripeEffect(customers, body, lookupOk) == StripeEffect(map[], body, false)
    ensures body.CheckoutCompleted? && body.session.metadataUser.Some? ==>
              StripeEffect(customers, body, lookupOk) in
                {Some(NoEffect), Some(Grant(body.session.metadataUser.value, None))}
    ensures !NamesUser(body) && !lookupOk ==> StripeEffect(customers, body, lookupOk) in {Some(NoEffect), None}
  {
  }

  /** The event is of a kind that changes somebody's entitlement. */
  predicate Acts(body: StripeBody) {
    match body
    case CheckoutCompleted(s) =>
      s.isSubscription && s.hasMetadata && s.plan == PLAN_PRO && s.source == SOURCE_STRIPE_WEB
    case SubscriptionChanged(_) => true
    case SubscriptionDeleted(_) => true
    case _ => false
  }

  function CustomerOf(body: StripeBody): Customer {
    match body
    case CheckoutCompleted(s) => s.customer
    case SubscriptionChanged(sub) => sub.customer
    case SubscriptionDeleted(sub) => sub.customer
    case _ => ""
  }

  /** Nothing but the customer table can tell whom the event is about. */
  predicate NeedsCustomer(body: StripeBody) {
    Acts(body) && !NamesUser(body)
  }

  predicate Known(customers: map<Customer, User>, body: StripeBody) {
    CustomerOf(body) != "" && CustomerOf(body) in customers
  }

  /** An event is without effect exactly when it is of no interest or its customer, though needed, is not found. */
  lemma NoEffectExactly(customers: map<Customer, User>, body: StripeBody, lookupOk: bool)
    requires body != Undecodable
    ensures StripeEffect(customers, body, lookupOk) == Some(NoEffect) <==>
              !Acts(body) || (NeedsCustomer(body) && !(lookupOk && Known(customers, body)))
  {
    NamedUserOutranksCustomer(customers, body, lookupOk);
  }

  /**
   * A customer lookup that errors loses the effect of an event exactly when nothing but the lookup
   * would have found the user, and it would have.  It never alters an effect.
   */
  lemma LookupFailureLosesEffect(customers: map<Customer, User>, body: StripeBody)
    ensures StripeEffect(customers, body, false) == StripeEffect(customers, body, true) <==>
              !(NeedsCustomer(body) && Known(customers, body))
    ensures NeedsCustomer(body) ==> StripeEffect(customers, body, false) == Some(NoEffect)
    ensures forall ok :: StripeEffect(customers, body, ok).None? <==> body == Undecodable
  {
    if body != Undecodable {
      NoEffectExactly(customers, body, false);
      NoEffectExactly(customers, body, true);
      NamedUserOutranksCustomer(customers, body, true);
      NamedUserOutranksCustomer(customers, body, false);
    }
  }

  // ---- Apple ----

  datatype AppleStatus = ActiveSub | Expired | Revoked | GracePeriod | BillingRetry

  datatype Payload = Payload(
    transactionId: string, originalId: string, productId: string,
    expiresDate: int, revocationDate: int, environment: string)

  function ExpiresAt(p: Payload): Option<int> {
    if p.expiresDate <= 0 then None else Some(p.expiresDate)
  }

  predicate After(exp: Option<int>, now: int) {
    exp.None? || exp.value > now
  }

  /** The status an App Store notification puts its lineage in. */
  function DeriveState(nt: string, st: string, p: Payload, now: int): AppleStatus {
    if p.revocationDate > 0 || nt == "REVOKE" || nt == "REFUND" then Revoked
    else if nt == "EXPIRED" then Expired
    else if !After(ExpiresAt(p), now) then Expired
    else if nt == "DID_FAIL_TO_RENEW" then BillingRetry
    else if nt == "DID_ENTER_GRACE_PERIOD" || st == "GRACE_PERIOD" then GracePeriod
    else if nt == "GRACE_PERIOD_EXPIRED" then Expired
    else ActiveSub
  }

  predicate Grants(status: AppleStatus) {
    status == ActiveSub || status == GracePeriod || status == BillingRetry
  }

  /** Each status stands for one situation: the order of the tests in the code leaves no other reading. */
  lemma StatusExactlyWhen(nt: string, st: string, p: Payload, now: int)
    ensures var status := DeriveState(nt, st, p, now);
            var revoked := p.revocationDate > 0 || nt in {"REVOKE", "REFUND"};
            var lasting := !revoked && nt != "EXPIRED" && After(ExpiresAt(p), now);
            var grace := nt == "DID_ENTER_GRACE_PERIOD" || st == "GRACE_PERIOD";
            && (status == Revoked <==> revoked)
            && (status == BillingRetry <==> lasting && nt == "DID_FAIL_TO_RENEW")
            && (status == GracePeriod <==> lasting && nt != "DID_FAIL_TO_RENEW" && grace)
            && (status == ActiveSub <==> lasting && nt !in {"DID_FAIL_TO_RENEW", "GRACE_PERIOD_EXPIRED"} && !grace)
            && (status == Expired <==> !revoked && (!lasting || (nt == "GRACE_PERIOD_EXPIRED" && !grace)))
  {
  }

  /**
   * When a notification grants access: never after a revocation or a past expiry, and otherwise
   * for every type but three, where a grace-period subtype still outweighs an expired grace period.
   */
  lemma GrantsExactlyWhen(nt: string, st: string, p: Payload, now: int)
    ensures Grants(DeriveState(nt, st, p, now)) <==>
              && p.revocationDate <= 0 && After(ExpiresAt(p), now)
              && nt !in {"REVOKE", "REFUND", "EXPIRED"}
              && (nt == "GRACE_PERIOD_EXPIRED" ==> st == "GRACE_PERIOD")
  {
    StatusExactlyWhen(nt, st, p, now);
  }

  /** The status a validated transaction puts its lineage in. */
  function ValidatedState(p: Payload, now: int): AppleStatus {
    if p.revocationDate > 0 then Revoked
    else if !After(ExpiresAt(p), now) then Expired
    else ActiveSub
  }

  /** The first environment stated: by the transaction, by the notification, by the configuration. */
  function DeriveEnv(txEnv: string, notificationEnv: string, configured: string): string {
    if txEnv != "" then txEnv else if notificationEnv != "" then notificationEnv else configured
  }

  /** The CHECK constraint of the table. */
  predicate KnownEnv(env: string) {
    env == "sandbox" || env == "production"
  }

  function ValidatedEnv(txEnv: string, clientEnv: string): string {
    if KnownEnv(txEnv) then txEnv else clientEnv
  }
}
