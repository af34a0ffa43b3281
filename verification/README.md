# The state machines of the Foreign Reader backend

The backend keeps accounts, sessions, payments and reading positions in PostgreSQL tables, one
in-memory rate limiter beside them. Most of its requirements are about what several requests do to
the same rows: a refresh token is good for one rotation, a user has one Stripe customer, a webhook
takes effect once, a paying user keeps access and a revoked one loses it. This project models those
tables and the handlers that write them, and proves what they keep over every run and every
interleaving.

Each module follows one component. A step function over an explicit state says what one SQL statement,
one call to an outside service or one committed transaction does; a class holds the same state in fields
and its methods, written like the handlers, are proved to change it as those functions say; the lemmas are
about all sequences of steps. Time is an integer argument. What the database or an outside service answers is
an argument too, so every error path is one of the cases. Hashes stand for the tokens they are made of,
and ids and tokens drawn at random are never drawn twice.

- `RateLimit`: the fixed-window counter, and the sharp bound it implies for sliding intervals.
- `Sessions`, `SessionTransactions`: the refresh-session ledger, first with one transaction per step and
  then statement by statement under row locks, which is shown to add no behaviour.
- `StripeCustomers`: creating the Stripe customer of a user, raced by any number of requests.
- `Registration`: first logins racing for one provider identity.
- `Quota`: check, translate, charge, with overlapping requests.
- `Entitlements`, `UpsertRace`: the table of entitlement rows as a refinement of a map, and what
  overlapping upserts can leave in it.
- `Decisions`, `Webhooks`, `AppleCoupling`: what payloads mean, exactly-once processing of Stripe and Apple
  deliveries, and the agreement between Apple subscriptions and entitlements.
- `Payloads`: what each delivery does, told by the fields of its payload alone.
- `ConcurrentDeliveries`: the same deliveries in overlapping transactions, with their unlocked reads and with
  UPDATE and INSERT apart.
- `ReadingPosition`: the last-writer-wins register.
- `Binary64`, `FlexibleTime`: rounding to 64-bit floats, and the clock encodings clients send, decoded in them.
- `Text`, `JsonExtraction`, `SubscriptionStatus`: Go's trimming and searching, the JSON object in a model's
  answer, and the choice among the transactions Apple reports.

Some promises turn out to hold only under a condition, which is then stated exactly:

- A fence without a tag loses the first line of the object, because the newline after the fence is trimmed
  before the first line is looked for (`FenceRoundTrip`), and a fence on one line with text below it loses all of
  it (`OneLineFenceThenProse`).
- Two saves whose times differ only below the microsecond do not converge (`ConvergesExactly`).
- The encoding of a time matters: the decoder works in floats, so that 1700000000.1 seconds is stored a
  microsecond before 1700000000100 milliseconds, and one of the two saves is stale where the other is applied
  (`EncodingMatters`). Whole seconds are safe; for whole microseconds the exact condition is that both encodings keep
  the microsecond or both lose it (`OutcomeIgnoresEncoding`); other instants are safe away from its boundaries.
- Handing a subscription to another user, or giving one user two, breaks the agreement between
  subscriptions and entitlements (`CouplingExactly`), and the first user's access is out of reach for good
  (`StrandedForGood`). It also makes a notification that is under way grant the wrong user access
  (`StaleOwnerExactly`, `RelinkDuringNotification`).
- Overlapping deliveries equal serial ones only while what they read still holds and no two that write the same user
  and source are past their UPDATE together. Two events that grant access to a new user can leave two active rows, as
  no serial run does (`ConcurrentDeliveries.Serializable`, `TwoEventsTwoRows`).
- A commit that is carried out but loses its reply is harmless for an event (`LostReplyIsHarmless`), but a refresh
  leaves its caller with a token that is answered as reused from then on (`LostReplyLocksOut`).
- The comment on `EnsureStripeCustomerID` calls concurrent requests safe. They are, unless a write is carried out and
  its reply is lost, or a deletion is refused. A lost reply to the insert deletes the mapped customer; a lost reply to
  the creation leaves a second one. `AgreementAtRest` and `OneCustomerPerUser` say exactly when no trace is left.
- A customer lookup that errors is logged and answered with success. It costs the event its effect exactly when only
  the lookup would have found the user (`LookupFailureLosesEffect`, `LookupErrorSpendsEvent`). An event that comes before
  its customer is in the table is spent without any error (`EarlyEventIsSpent`).
- Overlapping upserts of one user and source leave as many active rows as were open together
  (`ActiveRowsAreBounded`, `UpsertRace.BoundIsAttained`), and a withdrawal misses exactly the upserts that were open when
  it looked, or began later (`WithdrawalSurvivors`, `CancelledKeepsAccess`).

## Model

| member | source | states |
|---|---|---|
| RateLimit.Window.Allow | internal/ratelimit/window.go:25-42 | the answer and the whole new table for all branches, with entries updated in place and never shared between keys; the object always equals the replay of its calls |
| RateLimit.CreditPays | internal/ratelimit/window.go:33-41 | one call pays for its own admission out of the remaining credit of its key, whether it opens a window, counts or is refused |
| RateLimit.SlidingBound | internal/ratelimit/window.go:25-42 | in any trace, a closed interval admits at most limit - 1 calls plus one limit per window that fits into it, even when clock order and lock order differ by a given skew |
| RateLimit.SlidingBoundInWindows | internal/ratelimit/window.go:25-42 | with times that never decrease, n consecutive windows admit at most (n + 1) * limit - 1 calls |
| RateLimit.BoundIsAttained | internal/ratelimit/window.go:33-36 | for every limit and window some trace reaches that number, so the bound cannot be lowered |
| RateLimit.RefusalIsEarned | internal/ratelimit/window.go:37-39 | a refusal means that the full limit was admitted within one window length before it |
| Sessions.SessionStore.InsertAuthSession | internal/auth/session.go:21-34 | stores a live row, as a login does in the ledger, or, on a taken id or hash or a refused statement, nothing |
| Sessions.SessionStore.DeleteAuthSession | internal/auth/session.go:37-40 | removes the row; an absent one is no error, one that another session points at cannot go |
| Sessions.SessionStore.RotateRefreshToken | internal/auth/session.go:50-153 | the refusal depends only on the row and the time; success is one rotation of the ledger; any failure after the first write leaves the ledger as it was, except a commit that is carried out and loses its reply |
| Sessions.SessionStore.RevokeSessionLogout | internal/auth/session.go:180-192 | revokes only a live session of that user; the sid of a rotated or foreign session changes nothing |
| Sessions.RunIsSound | internal/auth/session.go:114-134 | in every reachable ledger hashes are unique, links are injective, rise in age, join rows of one user and provider, and stand exactly on rows revoked as rotated |
| Sessions.ChainsAreAcyclic | migrations/000012_auth_sessions.up.sql:1-14 | no sequence of links returns to its start or leaves its user and provider |
| Sessions.MeetingChainsAreOne | internal/auth/session.go:126-134 | two chains that meet are one path: the longer one passes through the start of the shorter |
| Sessions.OnlyTailIsLive | internal/auth/session.go:126-134 | a row with a successor is revoked as rotated |
| Sessions.OneLiveSessionPerChain | internal/auth/session.go:126-134 | of the sessions that share a chain at most one is unrevoked |
| Sessions.AnswersFollowHistory | internal/auth/session.go:71-106 | reuse, revoked, expired, invalid and accepted are each answered exactly when the history of the token calls for it |
| Sessions.RefusedForever | internal/auth/session.go:92-106 | a token refused as reused, revoked or expired is never accepted later, whatever happens in between |
| Sessions.SingleUse | internal/auth/session.go:65-146 | no run rotates one token twice |
| Sessions.LostReplyLocksOut | internal/auth/session.go:94-98 | after a rotation whose reply is lost the old token, the only one its caller has, is answered as reused at any later time |
| SessionTransactions.CommitIsRotation | internal/auth/session.go:114-146 | the private writes of an open transaction amount at commit to one rotation that would succeed on the committed ledger |
| SessionTransactions.AlwaysIsolated | internal/auth/session.go:71-76 | under FOR UPDATE the locked row stays as it was read, and no two open rotations hold one row, id or token |
| SessionTransactions.Serializable | internal/auth/session.go:65-153 | every statement-level interleaving of refreshes, logins, logouts and deletes equals a run of whole operations |
| SessionTransactions.SingleUseUnderConcurrency | internal/auth/session.go:65-146 | however requests interleave, one token commits at most one rotation |
| SessionTransactions.JudgedByHistory | internal/auth/session.go:78-106 | the verdict under the lock is the one the token's history calls for at that moment |
| SessionTransactions.OneRotationAtATime | internal/auth/session.go:71-76 | two open rotations never hold the same token |
| StripeCustomers.Billing.SelectCustomer | internal/billing/customer.go:32-39 | answers with the mapping, fails, or goes on when there is no row |
| StripeCustomers.Billing.CreateCustomer | internal/billing/customer.go:51-55 | a new live customer held by this request, or a failure that left nothing behind or a customer nobody knows of |
| StripeCustomers.Billing.InsertMapping | internal/billing/customer.go:57-73 | maps the user, finds a conflict, or reports an error with or without having written |
| StripeCustomers.Billing.ReselectCustomer | internal/billing/customer.go:74-84 | after a conflict the row is always there: a SELECT that succeeds answers with the winner's customer, one that fails with its own error |
| StripeCustomers.Billing.DeleteCustomer | internal/billing/customer.go:85-88 | the compensating delete, carried out or refused, whatever its caller is told |
| StripeCustomers.Billing.EnsureStripeCustomerID | internal/billing/customer.go:31-89 | the whole request, with other requests between its statements and each write refused or its reply lost, is a run of the step machine whose answer is true of the state it returns in; success names the row's customer, and each failure needs a fault of its own statement or a used id |
| StripeCustomers.AnswerIsExplained | internal/billing/customer.go:31-89 | in every interleaving a request has a given answer if and only if one of its own statements gave the reason: "created" the insert that wrote the row, "existing" a SELECT that read it, a failure the refusal, lost reply or used id of that name |
| StripeCustomers.RunKeepsInv | internal/billing/customer.go:31-89 | every interleaving keeps track of each customer: mapped, held by the request that made it, deleted, not deletable, or created unheard of |
| StripeCustomers.MappingIsSetOnce | migrations/000008_stripe_customers.up.sql:1-9 | a user's mapping is never changed or removed afterwards |
| StripeCustomers.AnswersAgree | internal/billing/customer.go:28-30 | all successful answers for a user name the one mapped customer, at most one says created, and the error "missing after conflict" never occurs |
| StripeCustomers.Conservation | internal/billing/customer.go:51-88 | the customers alive at Stripe are exactly those mapped by an insert that was heard of, those held by running requests, those whose deletion was refused and those created by a call that reported an error |
| StripeCustomers.AgreementAtRest | internal/billing/customer.go:28-30 | with no request running, Stripe and the table agree if and only if no creation lost its reply and the refused deletions are those after lost inserts |
| StripeCustomers.OneCustomerPerUser | internal/billing/customer.go:28-30 | user by user, the live customers are exactly the mapped one, or none, if and only if the same holds of that user's customers |
| StripeCustomers.LostReplyStrandsTheUser | internal/billing/customer.go:67-72 | an insert that loses its reply makes the request delete the customer it has mapped |
| StripeCustomers.LostCreateLeavesTwo | internal/billing/customer.go:51-54 | from any state, a creation that loses its reply leaves its customer alive beside the one the user's next request creates and maps |
| Registration.AuthStore.InsertUserAndIdentity | internal/auth/store.go:157-185 | succeeds exactly when none of the three inserts fails or breaks a constraint, and then adds user, identity and quota row |
| Registration.AuthStore.LoginOrRegister | internal/auth/store.go:71-115 | finds or registers the identity, all or nothing; only a failure to read the user back comes after the commit |
| Registration.AuthStore.LoginExisting | internal/auth/store.go:118-155 | returns the identity's user or "not found" and never adds a user |
| Registration.AlwaysInv | internal/auth/store.go:84-113 | in every interleaving the committed tables are consistent and open registrations have drawn different users and hold different identities |
| Registration.OnlyCommitsWrite | internal/auth/store.go:97-113 | only a commit changes the tables, and it adds the transaction's user, identity and quota row, none of which was there before |
| Registration.UndisturbedRegisters | internal/auth/store.go:97-113 | after any run a registration nobody disturbs binds an unknown identity to its new user with the given limit, or does nothing if that limit is negative |
| Registration.OneIdentityOneQuota | internal/auth/store.go:157-185 | every registered user has exactly one identity and one initial quota row, and nobody else has any |
| Registration.IdentityIsPermanent | migrations/000001_init_auth.up.sql:11-20 | an identity stays bound to its first user for good |
| Registration.OneWinner | migrations/000001_init_auth.up.sql:19 | of all racing registrations of an identity exactly one commits, if the identity is registered at all |
| Registration.UsersAreWinners | internal/auth/store.go:80-84 | a lost registration leaves no orphan user: users and identities are equally many |
| Quota.QuotaStore.InsertInitialRow | internal/monthlycontexttranslation/repo.go:19-25 | inserts the row of a new user, or fails on an existing row or a negative limit |
| Quota.QuotaStore.EnsureCurrentMonthRow | internal/monthlycontexttranslation/repo.go:29-41 | returns the month's row, inserting it unused if missing and leaving an existing one as it is |
| Quota.QuotaStore.IncrementUsedCount | internal/monthlycontexttranslation/repo.go:44-52 | charges one unit to the row, or finds none |
| Quota.QuotaStore.CheckQuota | internal/server/routes_api_v1.go:50-67 | lets a request through exactly when its row has a unit left |
| Quota.QuotaStore.Charge | internal/server/routes_api_v1.go:69-92 | one unit is added to the row of the check if and only if translation and charge succeed; otherwise no row changes |
| Quota.QuotaStore.Translate | internal/server/routes_api_v1.go:43-92 | the whole request, with others moving while the model works, is check, the others' steps, charge; without a successful translation and charge it leaves the rows to the others; a Pro user is neither checked nor charged |
| Quota.LimitIsFixed | internal/monthlycontexttranslation/repo.go:27-41 | a row's monthly limit never changes and its count never falls |
| Quota.UsedCountsCharges | internal/server/routes_api_v1.go:50-92 | the count is exactly the number of charges of requests admitted in that month, every admitted request is charged, failed or running, and every charge finds its row |
| Quota.StepKeepsPotential | internal/server/routes_api_v1.go:59-76 | booked units plus requests in flight stay below limit + k |
| Quota.OvershootIsBounded | internal/server/routes_api_v1.go:50-92 | with at most k requests of a user and month in flight the count never exceeds limit + k - 1, and stays 0 for limit 0 |
| Quota.SerialRequestsStayWithinLimit | internal/server/routes_api_v1.go:50-92 | one request at a time, the limit is exact |
| Quota.OvershootIsAttained | internal/server/routes_api_v1.go:50-92 | for every limit and k some run with k requests in flight ends at limit + k - 1 |
| Entitlements.EntitlementStore.UpdateRevoked | internal/entitlement/store.go:180-189 | revokes the active rows of the user and source and no others |
| Entitlements.EntitlementStore.InsertActive | internal/entitlement/store.go:190-194 | appends one active row |
| Entitlements.EntitlementStore.UpsertPro | internal/entitlement/stripe.go:11-27 | two statements whose joint effect on the access map is one assignment |
| Entitlements.EntitlementStore.RevokePro | internal/entitlement/stripe.go:30-40 | takes the user and source out of the access map |
| Entitlements.EntitlementStore.SetDevPro | internal/entitlement/store.go:118-176 | switches development access on or off, or changes nothing when a statement or the commit fails |
| Entitlements.EntitlementStore.ActiveProAccess | internal/entitlement/store.go:72-89 | succeeds exactly when access is active, with source and expiry of a newest current row |
| Entitlements.NewestExists | internal/entitlement/store.go:73-81 | whenever access is active there is a newest current row to report |
| Entitlements.SerialWritesRestore | internal/entitlement/store.go:179-208 | from any table, one upsert leaves exactly one active row of its user and source and one revoke none |
| Entitlements.TableRefinesMap | internal/entitlement/store.go:118-208 | any run of revokes and re-inserts computes the same map as plain assignments and deletions |
| Entitlements.ApplyKeepsSerial | internal/entitlement/stripe.go:11-40 | serial transactions never leave two active rows of a managed source |
| Entitlements.RunExtends | internal/entitlement/store.go:129-136 | rows are never removed or edited except by revocation, which is final and reaches only the named user and source |
| Entitlements.ReadsRefine | internal/entitlement/store.go:53-69 | the access check is true exactly when the map or a row inserted by hand grants unexpired access |
| Entitlements.AccessExactly | internal/entitlement/store.go:53-69 | the access check fails if and only if every row of the user is for another product, revoked, or expired |
| Entitlements.AccessEnds | internal/entitlement/store.go:62 | when all rows of a user have expiries, access is over from the latest of them on |
| Entitlements.UpsertGrants | internal/entitlement/store.go:190-194 | an upsert that expires later makes the access check succeed |
| UpsertRace.AlwaysInv | internal/entitlement/store.go:180-194 | in every interleaving of open transactions any two active rows come from upserts that overlapped |
| UpsertRace.PeersAreFew | internal/entitlement/store.go:180-189 | the upserts an upsert overlapped with when it revoked were open at one moment, so they are at most k |
| UpsertRace.ActiveRowsAreBounded | internal/entitlement/stripe.go:11-27 | if at most k upserts of a user and source are ever open together, at most k active rows exist at any time |
| UpsertRace.BoundIsAttained | migrations/000002_entitlements.up.sql:1-14 | k upserts open together can leave k active rows, since no index forbids it |
| UpsertRace.WithdrawalSurvivors | internal/entitlement/stripe.go:30-40 | of the active rows, exactly those of upserts open at the withdrawal's UPDATE or begun after it outlive its commit |
| UpsertRace.CancelledKeepsAccess | internal/entitlement/store.go:198-208 | a run in which a withdrawal commits last and the user keeps an active row |
| Decisions.LookupFailureLosesEffect | internal/billing/webhook_process.go:73-94 | a failed customer lookup changes what an event does if and only if the event acts, names no user, and its customer is in the table; it then does nothing |
| Webhooks.Server.InsertStripeEvent | internal/server/routes_webhook.go:67-79 | reports whether the event id is new and records it |
| Webhooks.Server.InsertAppleEvent | internal/appleiap/store.go:148-163 | reports whether the notification is new and records it |
| Webhooks.Server.ProcessStripeEvent | internal/billing/webhook_process.go:21-142 | each event type changes the entitlements of the resolved user as its payload says, or fails |
| Webhooks.Server.HandleStripeWebhook | internal/server/routes_webhook.go:59-99 | event id and effect are committed together, and every failure or duplicate leaves all tables as they were, unless the reply to the commit is lost |
| Webhooks.Server.UpdateLineage | internal/appleiap/store.go:123-146 | updates the subscription row under its environment and transaction-id constraints, or fails without a change |
| Webhooks.Server.HandleAppleWebhook | internal/server/routes_iap_apple_webhook.go:79-184 | event, subscription and entitlement are committed together or not at all |
| Webhooks.Server.ValidateTransaction | internal/appleiap/service.go:75-164 | an active transaction links its lineage to the user and grants access; an inactive one is refused and leaves nothing behind |
| Webhooks.JournalHasEachEventOnce | internal/server/routes_webhook.go:67-79 | an event is among the committed deliveries exactly when its id is recorded, and only once |
| Webhooks.RowsFollowJournal | internal/server/routes_webhook.go:86-96 | the entitlement table is what the committed deliveries, in order, make of an empty one |
| Webhooks.ExactlyOnce | internal/server/routes_webhook.go:59-99 | over any deliveries with duplicates, failures and retries, the access map is the fold of the committed ones, each event at most once and with at most one operation |
| Webhooks.RedeliveryChangesNothing | internal/server/routes_webhook.go:74-79 | a redelivery inserted anywhere after the first commit changes no table and no later outcome |
| Webhooks.FailureIsRetryable | internal/server/routes_webhook.go:80-96 | over any run, a delivery that is not committed could as well not have come: same tables, same journal, whatever follows |
| Webhooks.RetrySucceedsExactly | internal/server/routes_webhook.go:67-99 | without a fault an event is a duplicate if and only if it is recorded, and succeeds if and only if it is not and its payload can be processed |
| Webhooks.RetryTakesEffect | internal/server/routes_webhook.go:59-99 | an event that failed any number of times takes, when redelivered, the effect it would have had untried, if and only if it can be processed then |
| Webhooks.ErrorLeavesNothingExactly | internal/server/routes_webhook.go:92-96 | an event answered with an error has left nothing behind if and only if it is not one whose commit lost its reply |
| Webhooks.LostReplyIsHarmless | internal/server/routes_webhook.go:74-79 | after such a reply every redelivery is a duplicate and changes nothing, whatever follows |
| Webhooks.LookupErrorSpendsEvent | internal/billing/webhook_process.go:73-94 | in any state, a lookup error is answered with success and every redelivery is a duplicate; the event has lost its effect if and only if only the lookup would have found its user |
| Webhooks.EarlyEventIsSpent | internal/billing/webhook_process.go:144-160 | an event that comes before its customer is in the table is recorded without effect, although it would act once the customer is there |
| Webhooks.AlwaysSerial | internal/entitlement/stripe.go:11-40 | with transactions one after another no delivery leaves two active rows of a managed source |
| Webhooks.LineagesMeetConstraints | migrations/000011_apple_iap_schema.up.sql:34-41 | after any run every environment is a known one and no transaction id is the latest of two lineages |
| Webhooks.AccessFollowsJournal | internal/entitlement/store.go:53-69 | after any run the access check reads the fold of the committed deliveries plus rows inserted by hand |
| AppleCoupling.WriteCoupledExactly | internal/appleiap/store.go:58-91 | writing a lineage with its entitlement keeps both tables in agreement if and only if no other lineage of the user says otherwise and nobody loses his only granting lineage |
| AppleCoupling.CouplingExactly | internal/server/routes_iap_apple_webhook.go:145-182 | any delivery keeps lineages and entitlements in agreement if and only if it meets that condition |
| AppleCoupling.AlwaysCoupled | internal/appleiap/service.go:112-156 | if lineages are not handed over and no user validates two, status and expiry of every lineage match its user's entitlement after every run |
| AppleCoupling.LineagesArePro | internal/appleiap/service.go:80-84 | every subscription row is for the product "pro" |
| AppleCoupling.AppleGrantsAreHonoured | internal/server/routes_iap_apple_webhook.go:154-166 | right after a committed grant the access check at its decision time succeeds |
| AppleCoupling.RelinkStrandsAccess | internal/appleiap/store.go:79-80 | handing a user's only granting lineage to somebody else leaves the first user with the access and without a lineage |
| AppleCoupling.StrandedForGood | internal/appleiap/store.go:104-121 | no later notification, event or validation by others, in any number, takes that access away before it expires |
| Payloads.DeletionWithdraws | internal/billing/webhook_process.go:125-160 | a committed deletion takes Stripe access from the user its metadata or its customer names, and changes nothing else |
| Payloads.CheckoutGrants | internal/billing/webhook_process.go:36-94 | a committed Pro checkout gives open-ended Stripe access to the user named by metadata, else reference, else customer |
| Payloads.SubscriptionDecides | internal/billing/webhook_process.go:96-209 | after a subscription event, Stripe access of its user is what status, period end and cancellation date say |
| Payloads.OthersChangeNothing | internal/billing/webhook_process.go:30-63 | events of other kinds, other checkouts and events whose user is not found leave the entitlements alone |
| Payloads.AcceptedExactly | internal/server/routes_iap_apple_webhook.go:87-152 | without a fault an event is committed if and only if it is new and its payload decodes, or, for a known lineage, meets the constraints of the table |
| Payloads.ValidationExactly | internal/appleiap/service.go:75-156 | without a fault a validation is accepted if and only if product and lineage are right and the transaction is neither refunded nor expired; anything else leaves nothing behind |
| Payloads.ValidationGrants | internal/appleiap/service.go:91-156 | an accepted validation writes its whole lineage row and grants access until the transaction expires |
| Payloads.BrokenValidationFails | migrations/000011_apple_iap_schema.up.sql:34-41 | a transaction id held by another lineage, or an unknown environment, is never accepted |
| Payloads.ValidatedStatus | internal/appleiap/service.go:105-110 | the status is revoked, expired or active exactly by revocation date and expiry, in that order |
| Payloads.NotificationRecords | internal/server/routes_iap_apple_webhook.go:145-152 | a committed notification writes status, environment, expiry and transaction of its lineage, and nothing else in the table |
| Payloads.NotificationDecides | internal/server/routes_iap_apple_webhook.go:145-175 | after a notification, Apple access of the lineage's user is exactly what its dates, type and subtype say |
| Payloads.OrphanChangesNothing | internal/server/routes_iap_apple_webhook.go:110-138 | a notification of an unknown lineage is recorded and does nothing else |
| Payloads.FaultsAreNotCommitted | internal/server/routes_iap_apple_webhook.go:95-182 | a failed event insert or commit is never answered with success, and a failed write only where nothing was to be written |
| Payloads.SwitchDecides | internal/entitlement/store.go:115-176 | the development switch sets or clears open-ended access of its source and nothing else, and exactly a failed write or commit makes it do nothing |
| ConcurrentDeliveries.OnceUnderConcurrency | internal/server/routes_webhook.go:67-79 | however deliveries of an event overlap, it changes the tables at most once, and exactly if its id is recorded |
| ConcurrentDeliveries.AlwaysInv | internal/appleiap/store.go:148-163 | two open transactions are never at the same event, and an open one's event is not recorded |
| ConcurrentDeliveries.CommitIsDeliveryExactly | internal/entitlement/stripe.go:11-27 | a commit whose plan is up to date does what the serial delivery would, if and only if it is refused or its UPDATE saw every row that is active |
| ConcurrentDeliveries.Serializable | internal/server/routes_iap_apple_webhook.go:79-182 | overlapping deliveries equal serial ones in the order of their commits, if what each read still holds at its commit and no two that write the same user and source are past their UPDATE together |
| ConcurrentDeliveries.TwoEventsTwoRows | internal/entitlement/stripe.go:11-27 | that condition is needed: two overlapping events that grant access to one new user leave two active rows, which no serial run does |
| ConcurrentDeliveries.StripePlanExactly | internal/billing/webhook_process.go:73-94 | what a Stripe event read goes out of date if and only if its customer, needed and unknown, is linked before the commit |
| ConcurrentDeliveries.ApplePlanExactly | internal/server/routes_iap_apple_webhook.go:122-143 | what a notification read goes out of date if and only if its lineage is linked, or given to another user, before the commit |
| ConcurrentDeliveries.StaleOwnerExactly | internal/server/routes_iap_apple_webhook.go:122-175 | a notification that read another owner leaves the access map as a serial one would, if and only if both users' access was already so |
| ConcurrentDeliveries.StaleMissExactly | internal/server/routes_iap_apple_webhook.go:122-137 | a notification that found no row, although the lineage is linked by its commit, is spent without effect, which shows if and only if row and access are not already so |
| ConcurrentDeliveries.RelinkDuringNotification | internal/server/routes_iap_apple_webhook.go:122-166 | a relink during a granting notification leaves the former owner with access and without a lineage, whatever its UPDATE saw |
| ReadingPosition.Service.UpsertLatest | internal/readingposition/repository.go:57-97 | stores the row exactly when no row has a later time |
| ReadingPosition.Service.SavePosition | internal/readingposition/service.go:74-91 | rejects what is incomplete or unauthenticated, and otherwise saves if not older |
| ReadingPosition.Service.ResolvePosition | internal/readingposition/service.go:47-71 | the stored position and time are returned if and only if there is a row and the local time is missing, zero or earlier; the local one is kept otherwise; and the errors |
| ReadingPosition.ResolverAgreesWithWriter | internal/readingposition/service.go:67-69 | the local position is preferred if and only if saving it would be applied |
| ReadingPosition.OnlyMicrosCount | internal/readingposition/repository.go:78-88 | two times are treated alike by every save and every decision if and only if their stored microsecond is the same |
| ReadingPosition.LastWriterWins | internal/readingposition/repository.go:78-88 | the stored row is the last to arrive among the valid saves with the latest stored time |
| ReadingPosition.TimeNeverDecreases | internal/readingposition/repository.go:87 | rows stay and their time never goes back |
| ReadingPosition.ConvergesExactly | internal/readingposition/repository.go:54-56 | all orders of the same saves leave the same row if and only if the saves with the latest stored time agree |
| ReadingPosition.DistinctTimesConverge | internal/readingposition/repository.go:54-56 | saves with distinct stored times converge |
| ReadingPosition.NanosecondsDoNotConverge | migrations/000003_reading_positions.up.sql:9 | two different saves less than a microsecond apart do not |
| FlexibleTime.FlexibleTime.UnmarshalNumber | internal/server/json_flexible_time.go:49-92 | sets the time to what the four-way guess, in 64-bit floats, makes of the number, or fails on a number out of range |
| FlexibleTime.EncodingsDecode | internal/server/json_flexible_time.go:64-90 | from March 2004 to 1 January 2032 each of the four encodings of any instant decodes to within 127 nanoseconds of it |
| FlexibleTime.StoredWithinOne | internal/server/json_flexible_time.go:72-90 | two encodings of one instant are stored at most a microsecond apart |
| FlexibleTime.WholeMicroseconds | internal/server/json_flexible_time.go:72-90 | a whole microsecond is stored as it is if and only if the nearest float, or for Apple numbers the product, does not lie below it, and one lower otherwise |
| FlexibleTime.MillisAreKept | internal/server/json_flexible_time.go:72-81 | whole milliseconds in Unix milliseconds lose nothing |
| FlexibleTime.DecodesExactly | internal/server/json_flexible_time.go:72-90 | for each encoding, exactly which whole seconds it is right for, rounding and overflow included |
| FlexibleTime.AppleSecondsExactly | internal/server/json_flexible_time.go:83-89 | Apple seconds are right back to 1855, for even numbers of seconds back to 1708, and not before |
| FlexibleTime.AllEncodingsDecodeExactly | internal/server/json_flexible_time.go:72-90 | all four are right exactly for the whole seconds of that window and at Apple's reference date |
| FlexibleTime.WholeSecondsIgnoreEncoding | internal/server/json_flexible_time.go:64-71 | in the window a whole second decodes alike from every encoding |
| FlexibleTime.OutcomeIgnoresEncoding | internal/server/json_flexible_time.go:64-71 | saves and decisions ignore which of two encodings a whole microsecond is sent in, if and only if both keep it or both lose it |
| FlexibleTime.OutcomeIgnoresEncodingInside | internal/server/json_flexible_time.go:64-71 | for instants at least 127 nanoseconds away from the microsecond boundaries they always ignore it |
| FlexibleTime.EncodingMatters | internal/server/json_flexible_time.go:83-90 | an instant at which one encoding is saved and preferred while another is stale |
| Binary64.RoundErr | internal/server/json_flexible_time.go:54-57 | rounding moves a number by at most half a last place |
| Binary64.RoundExact | internal/server/json_flexible_time.go:54-57 | a number of at most 53 significant bits is left alone |
| Binary64.ParseFails | internal/server/json_flexible_time.go:54-57 | a number of either sign from 2^1024 on is a range error |
| JsonExtraction.ExtractJSONObject | internal/translate/client.go:258-275 | computes the composition that the round trips below are about |
| JsonExtraction.ProseRoundTrip | internal/translate/client.go:269-274 | without fences, an object surrounded by prose comes back unchanged if and only if no brace of the prose reaches over it |
| JsonExtraction.PlainProse | internal/translate/client.go:260 | prose without backticks around an object without a fence is such a text |
| JsonExtraction.TaggedFence | internal/translate/client.go:260-268 | the line that opens a fence is dropped when it names something, and the object comes back unchanged |
| JsonExtraction.BareFence | internal/translate/client.go:261-264 | after a fence without a tag the result is shorter than the object |
| JsonExtraction.FenceRoundTrip | internal/translate/client.go:260-268 | from a fence an object, whatever it holds, comes back if and only if the fence is tagged |
| JsonExtraction.UnclosedFence | internal/translate/client.go:262-268 | after a tagged fence that is never closed the object comes back if and only if no closing brace follows it |
| JsonExtraction.OneLineFence | internal/translate/client.go:262-268 | from a fence opened and closed on the last line of the answer the object comes back if and only if no brace beside it inside the fence reaches over it |
| JsonExtraction.OneLineFenceThenProse | internal/translate/client.go:262-264 | with text on the lines below such a fence, only that text is searched: the object is dropped with its line |
| JsonExtraction.ExtractIsWithin | internal/translate/client.go:258-275 | the result is always a contiguous piece of the answer |
| Text.TrimAround | internal/translate/client.go:259-266 | around a visible text only outer space is trimmed |
| SubscriptionStatus.BestProTransactionPayload | internal/appleiap/subscription_status.go:76-106 | the first row of latest expiry among the decodable rows of the product in group order, and a failure exactly when there is no response, no group, or no such row with a non-negative expiry |
| SubscriptionStatus.ChoiceIsUnique | internal/appleiap/subscription_status.go:83-101 | such a row exists whenever there is a candidate, and there is only one |
| SubscriptionStatus.ChoosePayload | internal/appleiap/service.go:61-73 | a renewal goes by the best reported transaction and anything else by itself; a reported renewal never gets an earlier expiry |

## Left out

- HTTP plumbing, JSON field validation, configuration, logging, CORS and the middleware chain.
- Signing and verification of JWT and JWS, SHA-256 and randomness: hashes are taken as one-to-one, and fresh ids and tokens as never repeated. The empty refresh token, refused before any lookup, counts as a token that was never issued.
- The clients of Stripe, Apple, Google and OpenAI: their answers are arguments.
- PostgreSQL below the statement: atomic statements, unique constraints, ON CONFLICT, row locks, commit and rollback are assumed. A refused statement is taken to have written nothing, except in StripeCustomers, where lost replies of the insert and of both calls to Stripe are modelled; lost replies of commits are modelled in Sessions, Webhooks and Entitlements, and in Quota and ReadingPosition, whose statements commit by themselves, they are not. Stripe is taken never to issue a customer id twice.
- Columns no decision reads: created_at, updated_at, last_used_at and processed_at, except where they are compared, and purchased_at.
- Deletion of users and what cascades from it; a payload that names a user who does not exist is one of the write faults.
- Profile fields and their merging on login (mergeUser, mergeIdentityEmail): only that they may fail.
- The 32-bit width of used_count and monthly_limit.
- Read queries of the entitlement store that the database refuses: the handlers pass the error on.
- The table apple_iap_products (EnsureProductMapping): a failure of it is a write fault of the validation.
- Concurrent webhook transactions: deliveries are serialised in Webhooks and AppleCoupling and overlap in ConcurrentDeliveries, where the subscription row is written at the commit, since its writers wait for each other and its uncommitted state is invisible.
- Self-healing after an orphan Apple notification: best effort after the event is committed, and then an ordinary validation.
- Trimming, case folding and UUID parsing of payload strings, except where the trimming is the point (JsonExtraction, SubscriptionStatus).
- FlexibleTime.FlexibleTime.UnmarshalNumber: the branch for strings is not modelled, and where a float out of the range of int64 is converted, which Go leaves to the platform, nothing is said about the time.
- ReadingPosition.LastWriterWins: times are compared as stored, in whole microseconds, the resolution of the column.
- RateLimit.BoundIsAttained: needs n not larger than the window in ticks of the clock, because n windows that begin one tick apart must fit into the interval.
- Entitlements.EntitlementStore.ActiveProAccess: among rows created at the same instant any may be returned, as in the query.
- parseTranslationJSON and firstJSONString, which rest on a JSON library and on map iteration order.
- Admin metrics, analytics, rate-us prompts, storefront, onboarding tokens and redirect URLs: single inserts, queries or checks.
