# Billing and provisioning control loop: a verified model

A hosting platform sells workspaces. A tenant's status, its subscription, its invoices, its payment
attempts, its open billing exceptions and its provisioning jobs are written by many hands: payment
callbacks, ERP reconciliation, the trial and dunning cycles, customers, administrators and workers.
This project models those writers and proves what they keep, together and over whole runs.

## Shape

- **Vocabulary.** `Common` (time in microseconds, sort keys), `Statuses` (the status texts as
  values, unknown and blank text included), `Rows` and `Sorting` (which invoice or attempt is "the
  latest", and the stable newest-first order).
- **Guarded statuses.** `TenantState`, `SubscriptionState`, `TrialLifecycle`, `Transitions`.
- **Reading.** `Lifecycle` folds the stored records and the clock into one billing decision, and
  `LifecycleTable` proves it equal to one table over the stored columns; `ReadModels` builds the customer's workspace from the same records.
- **Writing.** `InvoiceSync`, `Ledgers`, `Reconciliation`, `PaymentWebhooks`, `PaymentAttempts` and
  `Provisioning` specify the operations on a `Ledger`, the records of one tenant. `BillingSession`
  is the imperative form: an object whose methods change rows, commit and roll back, each proved
  against its specification. `ReconciliationOutcome` and `AttemptOutcomes` say column by column what
  reconciling an invoice and starting an attempt leave, and `PassCounters` what a pass counts. `LedgerAgreement` and `SecondPass` prove what a reconciliation pass
  achieves and that a second one is idle; `ReconciliationCycle` runs the passes of all tenants,
  `ReportExactness` says when its report accounts for every exception, and `ExceptionRuns` follows the
  open exceptions over every run.
- **Deliveries.** `Outbox` is the webhook outbox over any handler, `BillingOutbox` plugs the payment
  callbacks in, `CallbackOutcomes` says what each kind of callback leaves in the stored columns and
  what the lifecycle then answers, `CanonicalJson` and `DedupKey` say when two deliveries count as the same.
- **Cycles.** `TrialCycle`, `Dunning`, and `SchedulerLease`, the lock and marker that decide when a
  cycle is enqueued, as interleaved steps under one clock.
- **Whole lives.** `ControlLoop` puts every writer of a tenant's standing into one transition system
  and shows that the ledger's operations are steps of it.
- **Tokens.** `TokenStore` and `RefreshRotation`.

A handler that raises is modelled together with its caller's rollback, so its result is what the
database holds afterwards. Calls to the outside (ERP, gateway, runtime, queue, owner's account) are
parameters.

## What turned out not to hold

The code is modelled as it is. Where a promise fails, a lemma gives the input and the exact
condition under which it holds.

- A confirmation whose hand-over to the work queue failed is committed before it raises. Its
  redelivery adds the attempt's amount to the paid total a second time exactly when the tenant is not
  linked to the ERP and the amount is positive (`PaymentWebhooks.ConfirmingTwice`). The outbox review
  (docs/p1-6-outbox-event-reliability-review.md) says repeated deliveries do not repeat side effects;
  the code keeps that exactly for handlers that roll back (`Outbox.RollingBackIsExact`).
- A tenant with a settled invoice and a cancelled subscription can never be reconciled: the repair
  raises every time (`LedgerAgreement.CompletesExactlyWhen`).
- The reconciliation cycle's report misses what a failed tenant's pass had committed before it raised
  (`ReconciliationCycle.CycleAccounts`, `ReconciliationCycle.ReportMissesAnException`). Whatever
  exceptions are on file, it is exact if and only if every tenant's list cannot be copied, or nothing
  blocks its pass, or no invoice up to the blocking one is settled or open with a latest attempt marked
  paid (`ReportExactness.ReportExactlyWhen`).
- An invoice the ERP has cancelled with nothing outstanding counts as settled by its total: the
  reconciler takes its tenant out of suspension, while the lifecycle goes on blocking it
  (`ReconciliationOutcome.CancelledInvoiceRestores`). An invoice is settled exactly if the ERP calls it
  paid, settled or closed, or nothing is outstanding and a positive amount was paid
  (`ReconciliationOutcome.SettledAsRead`).
- A callback that names an older attempt can hide an active one, and a second active attempt can then
  be started (`PaymentAttempts.TouchKeepsExactlyWhen`, `PaymentAttempts.OldReferenceBreaksThePromise`).
- Running a failed create job again can make two live create jobs (`Provisioning.RerunCondition`).
- A sync that lists a new invoice twice fails, because rows are not flushed between items
  (`InvoiceSync.SyncOutcome`).
- A reminder stamps the tenant's row, which restarts the grace period that escalation waits for. Once a
  cycle has attended a tenant, cycles that keep coming with no other writer between them never escalate
  it; the service's own interval of half an hour is far below the bound of 36 hours (`Dunning.SteadyBoundIsExact`, `Dunning.DefaultIntervalNeverEscalates`).
- Dunning turns an administrator's hold into a billing suspension, which the next paid repair lifts
  (`ControlLoop.DunningErasesTheHold`); a cancellation makes a deleted tenant unsuspendable again
  (`ControlLoop.CancellationRevives`).
- `upgrading` and `suspended` are in the tenant table, but no writer stores them
  (`ControlLoop.ReachableStatuses`).
- The marker that spaces a cycle's runs must outlive an interval and a whole lease; a long lock with a
  short interval breaks the spacing (`SchedulerLease.ProvisoIsExact`).
- A store error between handing a cycle over and writing its marker is swallowed, and the next poll
  hands the cycle over again within the interval, whatever the marker's lifetime: recorded times stay
  spaced, enqueued ones do not (`SchedulerLease.LostMarkerMisfires`, `SchedulerLease.LossesAreExact`).
- The in-memory store's `delete` counts expired entries (`TokenStore.StepAgrees`).
- A refresh token can be replayed if its lookup trails its decoding by more than 58 seconds
  (`RefreshRotation.LookupDelayIsExact`).
- The workspace judges by the tenant's newest attempt, payment creation by the invoice's and by what it
  owes. A workspace offer can be refused, and an acceptable one withheld
  (`ReadModels.OfferHonouredExactlyWhen`, `ReadModels.OfferWithheldExactlyWhen`, `ReadModels.OfferMayBeRefused`).
- A confirmation of the latest invoice need not be seen: reading the invoice again can put its due date
  before another one's. It is seen then exactly if that other invoice stands clear
  (`PaymentWebhooks.RedatedStaysBlocked`, `PaymentWebhooks.ConfirmedBesideLatest`).
- The list of a tenant's invoices and the answer about one of them need not agree; a pass is idle the
  second time all the same (`SecondPass.SecondPassIsIdle`), but a failing list call aborts it
  (`LedgerAgreement.CompletesExactlyWhen`).

## Model

| member | source | states |
|---|---|---|
| TenantState.Tenant.TransitionStatus | provisioning-api/app/modules/tenant/state.py:62-72 | A guarded write succeeds exactly for the same status or an edge of the table, and otherwise changes nothing |
| TenantState.EnteredFrom | provisioning-api/app/modules/tenant/state.py:6-55 | The table read the other way round: for each status, exactly the statuses it can be entered from |
| SubscriptionState.Subscription.SetStatus | provisioning-api/app/modules/subscription/models.py:89-97 | The hook on every status write accepts exactly what the table allows and stores the normalised status |
| SubscriptionState.Subscription.SetLegacyBillingStatus | provisioning-api/app/modules/tenant/models.py:145-154 | The legacy setter writes the mapped status, a pending hint only over a blank or pending one, and succeeds exactly if the hint is ignored or the table allows the write |
| SubscriptionState.AcceptedWrites | provisioning-api/app/modules/subscription/state.py:9-38 | For each status asked for, exactly the stored statuses it is accepted over |
| SubscriptionState.LegacyViewWrittenBack | provisioning-api/app/modules/tenant/models.py:145-154 | Writing a row's legacy view back changes nothing but turns a trial into a paid subscription |
| SubscriptionState.HistoryIsAPath | provisioning-api/app/modules/subscription/state.py:9-38 | Every history of direct and legacy writes is a path in the table |
| SubscriptionState.SubscriptionRuns | provisioning-api/app/modules/subscription/state.py:9-38 | In every history pending is never re-entered, a trial is entered at most once, cancelled is final |
| Rows.FirstMaxUnique | provisioning-api/app/modules/billing/lifecycle.py:294-323 | The first largest key is the only one with its properties, ties included |
| Rows.TouchedLatestStaysLatest | provisioning-api/app/modules/billing/lifecycle.py:311-323 | Writing to an invoice's latest attempt leaves it the latest |
| Rows.LatestInvoiceIs | provisioning-api/app/modules/billing/lifecycle.py:294-309 | The latest invoice is the tenant's with the latest due date, then issue date, then creation, then the first in the table; a missing date counts as earliest |
| Sorting.HeadIsFirstMax | provisioning-api/app/modules/billing/read_models.py:144-156 | The head of the stable newest-first order is the row the maximum picks, ties included |
| Lifecycle.StoredStatusIsSeen | provisioning-api/app/modules/billing/lifecycle.py:66-103 | For the six stored statuses the legacy view never overrides the stored one |
| Lifecycle.WaitingIsInvisible | provisioning-api/app/modules/billing/lifecycle.py:106-159 | While an invoice waits for payment, its exact status does not reach any part of the decision |
| Lifecycle.SuspendedInvoiceBlocks | provisioning-api/app/modules/billing/lifecycle.py:208-290 | A suspended invoice without a paid attempt blocks billing and provisioning, whatever the tenant's status |
| Lifecycle.TimeIsASingleCliff | provisioning-api/app/modules/billing/lifecycle.py:327-401 | For a dated latest invoice with an unpaid status, no payment date, less paid than due and an attempt neither paid nor processing: the billing state is constant up to due date plus grace and suspended ever after; time alone never confirms, allows or unblocks |
| LifecycleTable.ResolvesByTable | provisioning-api/app/modules/billing/lifecycle.py:327-401 | For every combination of stored columns the resolved billing state, entitlement, operational state, flags, reason, action and grace end are those of one table, first row that applies |
| LifecycleTable.PaymentDecides | provisioning-api/app/modules/billing/lifecycle.py:348-376 | Paid at least what is due confirms at every time; less, without a payment date or a paid attempt, confirms at no time beyond grace |
| Transitions.ConfirmedTenant | provisioning-api/app/modules/billing/lifecycle.py:420-445 | A confirmation makes unpaid tenants pending and keeps every other status |
| Transitions.FailureRaises | provisioning-api/app/modules/billing/lifecycle.py:449-474 | A failure raises exactly on a cancelled or paused subscription, and otherwise suspends or keeps the tenant, never reactivates it |
| Transitions.ConfirmationRaises | provisioning-api/app/modules/billing/lifecycle.py:420-445 | A confirmation and a repair raise exactly on a cancelled subscription |
| Transitions.RepairIsIdempotent | provisioning-api/app/modules/billing/reconciliation.py:222-256 | The tenant status and subscription row a paid repair leads to, and that repairing again changes nothing |
| Transitions.ApplyPaymentConfirmed | provisioning-api/app/modules/billing/lifecycle.py:420-445 | The in-place confirmation equals its specification, including the forced pending |
| Transitions.ApplyPaymentFailed | provisioning-api/app/modules/billing/lifecycle.py:449-474 | The in-place failure equals its specification, including the second try |
| Transitions.ApplySubscriptionCancelled | provisioning-api/app/modules/billing/lifecycle.py:478-500 | The in-place cancellation never fails on a stored status and always leaves a suspended tenant and a cancelled subscription with its trial date |
| Transitions.TransitionOrForce | provisioning-api/app/modules/billing/reconciliation.py:206-218 | Always ends in the target; reports whether the status changed |
| Transitions.ApplyPaidRepair | provisioning-api/app/modules/billing/reconciliation.py:222-256 | The in-place repair equals its specification and asks for provisioning exactly when pending without a runtime |
| InvoiceSync.MinorUnits | provisioning-api/app/modules/billing/invoice_sync.py:14-21 | Rounding is within half a unit, exact on two decimals, monotone, and zero without an amount |
| InvoiceSync.TiesGoAwayFromZero | provisioning-api/app/modules/billing/invoice_sync.py:14-21 | A tie is rounded away from zero, on both sides |
| InvoiceSync.AmountsConserved | provisioning-api/app/modules/billing/invoice_sync.py:70-118 | Paid plus due is the rounded total exactly when due is at most the total, which outstanding at most grand total implies |
| InvoiceSync.SyncOutcome | provisioning-api/app/modules/billing/invoice_sync.py:121-140 | When a sync succeeds, and every row it leaves: the last item of its name, or untouched |
| InvoiceSync.OneRowPerItem | provisioning-api/app/modules/billing/invoice_sync.py:70-140 | Distinct items end with exactly one row each, and every column of it: due is the outstanding amount, paid what is missing to the total, status, dates, payment date, and the creation time kept |
| InvoiceSync.SyncTenantOutcome | provisioning-api/app/modules/billing/invoice_sync.py:121-140 | Copying succeeds exactly when the list is there, names every invoice and repeats no new one, and leaves what the list says |
| InvoiceSync.InvoiceTable.SyncPlatformInvoices | provisioning-api/app/modules/billing/invoice_sync.py:121-140 | The loop over the table equals the specification; where it raises, a failing list call included, the rows are as before |
| InvoiceSync.ResyncOutcome | provisioning-api/app/modules/billing/invoice_sync.py:143-172 | Reading one invoice again writes that row only, and fails exactly when it cannot be read |
| InvoiceSync.ResyncedColumns | provisioning-api/app/modules/billing/invoice_sync.py:70-118 | The row read again holds the item's columns, each in its place, and keeps its creation time |
| InvoiceSync.ResyncWrites | provisioning-api/app/modules/billing/invoice_sync.py:143-172 | In any table and for any answer: which name is asked for, and the one row that is written, the first with the item's name or a new one |
| InvoiceSync.ResyncFinds | provisioning-api/app/modules/billing/invoice_sync.py:82-98 | The first row with the item's name as either identifier is the one written, and that fails exactly if a name is then shared |
| Ledgers.ResolvingAccounts | provisioning-api/app/modules/billing/reconciliation.py:175-202 | Resolving lowers the open count by what it reports, keeps keys unique, leaves nothing to resolve |
| Ledgers.OpeningAccounts | provisioning-api/app/modules/billing/reconciliation.py:128-171 | Opening raises the open count by what it reports, keeps keys unique, and twice is once |
| Reconciliation.BillingOrderEnumerates | provisioning-api/app/modules/billing/reconciliation.py:414-448 | The pass visits every invoice of the tenant once and no other |
| Reconciliation.BillingOrderIs | provisioning-api/app/modules/billing/reconciliation.py:425-428 | From the latest due date to the earliest, undated ones last, newest first among equals |
| Reconciliation.RowEffect | provisioning-api/app/modules/billing/reconciliation.py:260-410 | One invoice's reconciliation agrees it with its latest attempt, keeps the exception account, disturbs no other invoice |
| ReconciliationOutcome.SettledAsRead | provisioning-api/app/modules/billing/reconciliation.py:65-70 | Settled means, in the ERP's figures: called paid, settled or closed, or nothing outstanding and a positive amount paid |
| ReconciliationOutcome.OpenInvoiceLeaves | provisioning-api/app/modules/billing/reconciliation.py:367-410 | While the ERP holds an invoice open, nothing raises, tenant, subscription and jobs stay as they are, and a paid newest attempt is sent to review with a mismatch on file |
| ReconciliationOutcome.SettledInvoiceLeaves | provisioning-api/app/modules/billing/reconciliation.py:282-365 | A settled invoice raises exactly for a cancelled subscription or a refused hand-over; else its newest attempt is paid, its exceptions closed, the subscription active, the tenant restored or provisioned, or a review asked for |
| ReconciliationOutcome.RefusedRepairLeaves | provisioning-api/app/modules/billing/reconciliation.py:302-332 | Where it raises, all is as at the last commit, unless a new job was stored: then the whole repair is committed with that job waiting |
| ReconciliationOutcome.CancelledInvoiceRestores | provisioning-api/app/modules/billing/reconciliation.py:65-70 | A cancelled invoice with nothing outstanding gives a suspended tenant its service back while the lifecycle blocks it |
| PassCounters.PassCounts | provisioning-api/app/modules/billing/reconciliation.py:414-448 | Each counter of a pass is the number of listed invoices, by the records before it, that it is named after; requeues are the jobs newly queued |
| PassCounters.TenantReport | provisioning-api/app/modules/billing/reconciliation.py:414-448 | The same for the report of one tenant's pass |
| LedgerAgreement.PassOutcomeHolds | provisioning-api/app/modules/billing/reconciliation.py:414-448 | After a completed pass, over all invoices or one, every visited invoice with an attempt is settled iff its latest attempt is paid, settled ones keep no open exception, and open-after is open-before plus opened minus resolved |
| ExceptionRuns.PassKeepsKeys | provisioning-api/app/modules/billing/reconciliation.py:128-171 | A pass that completes and a pass that raises both leave at most one open exception for an invoice, attempt and kind, whatever the ERP answers |
| ExceptionRuns.CycleKeepsKeys | provisioning-api/app/workers/tasks.py:799-815 | So does a whole cycle for every tenant, failed ones included |
| ExceptionRuns.OneOpenInEveryRun | provisioning-api/app/modules/billing/reconciliation.py:128-202 | Over every run of passes, callbacks and new attempts at most one exception is open for an invoice, attempt and kind |
| LedgerAgreement.CompletesExactlyWhen | provisioning-api/app/modules/billing/reconciliation.py:222-256 | A pass completes exactly when the list is there and can be copied, every invoice can be read, and none is settled under a cancelled subscription or while the tenant needs a job that the work queue refuses |
| SecondPass.SecondPassIsIdle | provisioning-api/app/modules/billing/reconciliation.py:260-448 | A second pass with the same ERP answers changes no status, attempt, exception or job and opens and resolves nothing, even where list and answer about an invoice differ |
| ReconciliationCycle.RunCycle | provisioning-api/app/workers/tasks.py:799-815 | The loop over the tenants adds the summaries of completed passes and counts the failed ones, as specified |
| ReconciliationCycle.CycleSums | provisioning-api/app/workers/tasks.py:799-815 | Each counter of the cycle is the sum of that counter over the completed passes; the others are the failed tenants |
| ReconciliationCycle.CycleAccounts | provisioning-api/app/workers/tasks.py:799-815 | Over the whole cycle open-after is open-before plus opened minus resolved plus what failed passes had committed, which is nothing if no tenant failed |
| ReconciliationCycle.FailedTenantIsUnreported | provisioning-api/app/workers/tasks.py:800-806 | A tenant whose pass disputes one invoice and cannot read the next is counted as failed, and its open exception is in no counter of the cycle |
| ReconciliationCycle.ReportMissesAnException | provisioning-api/app/workers/tasks.py:799-815 | The input on which the cycle's report misses an exception |
| ReportExactness.PassActs | provisioning-api/app/modules/billing/reconciliation.py:260-448 | The exceptions on file decide nothing in a pass: over any of them it ends alike and plays the same effects on them |
| ReportExactness.GainsAddUp | provisioning-api/app/modules/billing/reconciliation.py:128-202 | Effects on distinct invoices change the open count by the sum of what each would change alone |
| ReportExactness.SilentExactlyWhen | provisioning-api/app/modules/billing/reconciliation.py:260-410 | A pass has no effect on the exceptions exactly if no invoice up to the first one that blocks it is settled, or open with a latest attempt marked paid |
| ReportExactness.TenantReportExactlyWhen | provisioning-api/app/workers/tasks.py:799-815 | For one tenant the report is exact, whatever is on file, if and only if its list cannot be copied, nothing blocks its pass, or the pass is quiet up to its block |
| ReportExactness.ReportExactlyWhen | provisioning-api/app/workers/tasks.py:799-815 | For a whole cycle if and only if that holds of every tenant at its turn |
| PaymentWebhooks.LocalSettlement | provisioning-api/app/modules/billing/webhook_application_service.py:249-259 | A locally settled invoice owes nothing and has been paid its old total plus the larger of the amount and the old debt |
| PaymentWebhooks.SettledInvoiceShape | provisioning-api/app/modules/billing/webhook_application_service.py:343-386 | A confirmation reads the invoice again and settles it locally unless the answer looks settled; only that row changes |
| PaymentWebhooks.StandingAfterConfirmation | provisioning-api/app/modules/billing/webhook_application_service.py:422-482 | The committed standing: active subscription, suspended tenants active, unpaid ones pending, others kept |
| PaymentWebhooks.ConfirmedEndToEnd | provisioning-api/app/modules/billing/webhook_application_service.py:343-482 | Once a confirmation on the latest invoice, by the due date the ERP gives on reading it, is committed, resolving from the stored records confirms, allows provisioning and does not block, from any status and at any later time |
| PaymentWebhooks.ConfirmedEndToEndUnlinked | provisioning-api/app/modules/billing/webhook_application_service.py:343-482 | Without an ERP link that holds of the latest invoice as stored, for every subscription that is not cancelled |
| PaymentWebhooks.ConfirmedBesideLatest | provisioning-api/app/modules/billing/webhook_application_service.py:343-482 | Where another invoice is the latest after the reading, the confirmation is seen if and only if that invoice stands clear with its own latest attempt |
| PaymentWebhooks.RedatedStaysBlocked | provisioning-api/app/modules/billing/webhook_application_service.py:343-386 | The input on which a successful confirmation of the stored latest invoice leaves the tenant blocked, because the ERP re-dates that invoice |
| PaymentWebhooks.ConfirmingTwice | provisioning-api/app/modules/billing/webhook_application_service.py:249-259 | Confirming twice repeats no status change, and counts the money twice exactly without an ERP link and with a positive amount |
| PaymentWebhooks.OutageThenRedelivery | provisioning-api/app/modules/billing/webhook_application_service.py:480-482 | A queue outage and a redelivery hand over the same one job as a direct confirmation; only the paid total can differ |
| PaymentAttempts.AtMostOneActive | provisioning-api/app/modules/billing/payment_attempt_service.py:52-62 | If only latest attempts are active, an invoice has at most one active attempt and checking the latest finds it |
| PaymentAttempts.TouchKeepsExactlyWhen | provisioning-api/app/modules/billing/webhook_application_service.py:193-234 | A callback on an attempt keeps that promise exactly if the attempt is the latest or none is active |
| PaymentAttempts.FallbackPicksALatest | provisioning-api/app/modules/billing/webhook_application_service.py:204-234 | Without a matching reference the attempt chosen is its invoice's latest, when one provider serves all |
| PaymentAttempts.StepKeepsPromise | provisioning-api/app/modules/billing/payment_attempt_service.py:36-156 | Each creation, reconciliation or callback on a latest attempt keeps the promise |
| PaymentAttempts.OneLiveAttempt | provisioning-api/app/modules/billing/payment_attempt_service.py:52-107 | Over every such run under a strictly increasing clock each invoice has at most one active attempt, the newest |
| PaymentAttempts.OldReferenceBreaksThePromise | provisioning-api/app/modules/billing/webhook_application_service.py:204-234 | The run in which a failure for an older attempt hides the active one and a second active attempt is started |
| AttemptOutcomes.CreationLeaves | provisioning-api/app/modules/billing/payment_attempt_service.py:36-107 | Each refusal, in the order of the checks, and the one new attempt, over what the invoice owes when read again |
| AttemptOutcomes.SecondStartIsRefused | provisioning-api/app/modules/billing/payment_attempt_service.py:55-62 | A second start on the same invoice is refused whatever the world says by then |
| Provisioning.EnqueuePromise | provisioning-api/app/modules/tenant/service.py:188-235 | True exactly when one job was handed over, and that job; a committed job never handed over is handed over by the next call |
| Provisioning.EnqueueLeaves | provisioning-api/app/modules/tenant/service.py:188-235 | All of what one call leaves: the first create job that has not failed is handed over if it waits, or a new one is |
| Provisioning.HandOverRaises | provisioning-api/app/modules/tenant/service.py:188-235 | Handing over raises exactly when a job needs it and the queue is down, and leaves a job waiting |
| Provisioning.OutageThenRetry | provisioning-api/app/modules/tenant/service.py:188-235 | An outage followed by a retry does what one call does |
| Provisioning.JobBoard.EnqueueProvisioning | provisioning-api/app/modules/tenant/service.py:188-235 | The in-place enqueue equals its specification, with its commits before the hand-over |
| Provisioning.StepKeepsSound | provisioning-api/app/modules/support/job_service.py:21-46 | A call or a job's progress that does not re-run a failed job keeps at most one live create job, each queued once |
| Provisioning.OneLiveCreateJob | provisioning-api/app/modules/tenant/service.py:188-235 | The same over every run of calls, outages and worker progress |
| Provisioning.RerunCondition | provisioning-api/app/modules/support/job_service.py:21-26 | Re-running a failed create job is harmless exactly when no other is live |
| BillingSession.Session.Rollback | provisioning-api/app/workers/tasks.py:799-806 | The rows return to the last commit; what the queue was given stays given |
| BillingSession.Session.OpenBillingException | provisioning-api/app/modules/billing/reconciliation.py:128-171 | The in-place opening equals its specification |
| BillingSession.Session.ResolveBillingExceptions | provisioning-api/app/modules/billing/reconciliation.py:175-202 | The loop resolves exactly the open reconciliation exceptions of the invoice and counts them |
| BillingSession.Session.ReconcileInvoiceSettlement | provisioning-api/app/modules/billing/reconciliation.py:260-410 | The in-place reconciliation of an invoice, commits and rollback included, equals its specification |
| BillingSession.Session.ReconcileTenantBilling | provisioning-api/app/modules/billing/reconciliation.py:414-448 | The loop over the invoices, or over the one asked for, accumulates exactly the specified summary and ledger |
| BillingSession.Session.EnsureSubscription | provisioning-api/app/modules/billing/webhook_application_service.py:61-81 | Finds the subscription or creates a pending one |
| BillingSession.Session.HandlePaymentConfirmed | provisioning-api/app/modules/billing/webhook_application_service.py:422-505 | The in-place handler equals its specification; once committed, a refused hand-over undoes nothing |
| BillingSession.Session.HandlePaymentFailed | provisioning-api/app/modules/billing/webhook_application_service.py:509-576 | The in-place handler equals its specification |
| BillingSession.Session.HandleSubscriptionCancelled | provisioning-api/app/modules/billing/webhook_application_service.py:580-627 | The in-place handler equals its specification |
| BillingSession.Session.CreatePaymentAttempt | provisioning-api/app/modules/billing/payment_attempt_service.py:36-156 | The in-place creation equals its specification; every refusal leaves the stored records as they were |
| Outbox.Webhook.EnsureOutboxEvent | provisioning-api/app/modules/billing/webhook_application_service.py:85-116 | One row per key, found or created pending |
| Outbox.Webhook.HandleGatewayWebhook | provisioning-api/app/modules/billing/webhook_service.py:85-193 | A delivery runs the handler exactly if its row is not processed, and records the outcome and one more attempt |
| Outbox.DeliveryAccounts | provisioning-api/app/modules/billing/webhook_service.py:85-178 | One delivery keeps the account: attempts are invocations, processed rows are final and never handled again |
| Outbox.CountsAreEntries | provisioning-api/app/modules/billing/webhook_service.py:85-178 | The two counts are zero exactly without such an entry in the log, and at most one completion means at most one entry |
| Outbox.OutboxRuns | provisioning-api/app/modules/billing/webhook_service.py:85-178 | The same over every sequential run, with at most one completion per key |
| Outbox.DeduplicationIsReplay | provisioning-api/app/modules/billing/webhook_service.py:85-178 | With handlers that roll back, any run leaves the state of one pass over the first successful delivery of each key |
| Outbox.RollingBackIsExact | provisioning-api/app/modules/billing/webhook_service.py:130-178 | All runs of a handler are such replays if and only if it leaves no trace where it raises |
| BillingOutbox.LeavesTraceExactlyWhen | provisioning-api/app/modules/billing/webhook_application_service.py:422-505 | A raising handler leaves a trace if and only if it is a committed confirmation whose hand-over was needed and refused, with something to commit |
| BillingOutbox.CallbacksAreDeduplicated | provisioning-api/app/modules/billing/webhook_application_service.py:631-674 | While the queue is up, any run of callbacks leaves the ledger of one pass over the first successes |
| CallbackOutcomes.CallbackIsAbout | provisioning-api/app/modules/billing/webhook_application_service.py:184-234 | A callback is about the newest attempt it names, else the newest that can be completed, else the newest; without its invoice on file about none |
| CallbackOutcomes.ConfirmationLeaves | provisioning-api/app/modules/billing/webhook_application_service.py:422-505 | When a confirmation raises, and the tenant, subscription, attempt and invoice columns it commits either way |
| CallbackOutcomes.FailureLeaves | provisioning-api/app/modules/billing/webhook_application_service.py:509-576 | When a failure raises, and the tenant, subscription and attempt columns it leaves; nothing else is written |
| CallbackOutcomes.CancellationLeaves | provisioning-api/app/modules/billing/webhook_application_service.py:580-627 | A cancellation never raises and leaves a suspended tenant and a cancelled subscription; nothing else is written |
| CallbackOutcomes.UnknownLeaves | provisioning-api/app/modules/billing/webhook_application_service.py:631-674 | Any other event leaves the records as they are |
| CallbackOutcomes.CancelledEndToEnd | provisioning-api/app/modules/billing/lifecycle.py:478-500 | After a cancellation the stored records block the tenant and confirm nothing, from whatever status, at every later time |
| CallbackOutcomes.FailedEndToEnd | provisioning-api/app/modules/billing/lifecycle.py:449-474 | After a failure on the latest invoice's attempt the stored records confirm exactly if that invoice is paid already, and otherwise block |
| CanonicalJson.EscapeIsPrefixFree | provisioning-api/app/modules/billing/webhook_normalization.py:55-58 | Escaped characters, surrogate pairs included, can be told apart at the front of any text |
| CanonicalJson.EscapeReadsBack | provisioning-api/app/modules/billing/webhook_normalization.py:55-58 | Everything outside printable ASCII is written by four lower-case digits that stand for it, or by those of a surrogate pair, as section 7 of RFC 8259 reads it back |
| CanonicalJson.AsciiReadsBack | provisioning-api/app/modules/billing/webhook_normalization.py:55-58 | Printable ASCII stands for itself but for the quote and the backslash; five control characters have a letter |
| CanonicalJson.EncodeIsPrefixFree | provisioning-api/app/modules/billing/webhook_normalization.py:55-58 | Compact JSON text determines the value it was written from, and where it ends |
| CanonicalJson.CanonIsSame | provisioning-api/app/modules/billing/webhook_normalization.py:55-58 | Sorting keys identifies exactly the values that differ at most in member order, at any depth |
| CanonicalJson.DumpDetermines | provisioning-api/app/modules/billing/webhook_normalization.py:55-58 | The hashed text is the same exactly for such values |
| DedupKey.KeyIdentifiesDelivery | provisioning-api/app/modules/billing/webhook_normalization.py:55-58 | Colon-free deliveries share a key iff provider, event type, ids (missing as "-") and payload up to member order agree |
| DedupKey.KeyIdentifiesIds | provisioning-api/app/modules/billing/webhook_normalization.py:55-58 | Ids other than "-" are identified themselves, a missing one with an empty one |
| DedupKey.ColonsCollide | provisioning-api/app/modules/billing/webhook_normalization.py:55-58 | A colon in the provider's name always makes another delivery with the same key |
| SchedulerLease.LeaseExcludes | provisioning-api/app/worker.py:71-89 | Over every timely interleaving at most one worker believes it holds the lock |
| SchedulerLease.CyclesAreSpaced | provisioning-api/app/worker.py:92-118 | Over every timely run, swallowed exceptions included, recorded cycle times are an interval apart, if the marker outlives an interval and a lease |
| SchedulerLease.EnqueuedAreSpaced | provisioning-api/app/worker.py:92-118 | So are the enqueued times over every such run that loses no marker |
| SchedulerLease.ShortMarkerMisfires | provisioning-api/app/worker.py:92-118 | With a shorter marker a timely run enqueues and records twice within an interval |
| SchedulerLease.LostMarkerMisfires | provisioning-api/app/worker.py:105-118 | With any marker lifetime a timely worker whose marker write fails enqueues again at its next poll, whenever within the interval that is |
| SchedulerLease.ProvisoIsExact | provisioning-api/app/worker.py:92-118 | Spacing of the recorded times over all timely runs holds if and only if the marker outlives an interval and a lease |
| SchedulerLease.LossesAreExact | provisioning-api/app/worker.py:92-118 | Spacing of the enqueued times holds if and only if it does and no marker is lost |
| SchedulerLease.ConfiguredProviso | provisioning-api/app/worker.py:71-118 | The three configured durations with their floors, and what the proviso means for them; the defaults meet it |
| TrialCycle.Expire | provisioning-api/app/workers/tasks.py:681-718 | One subscription's turn equals its specification |
| TrialCycle.RunCycle | provisioning-api/app/workers/tasks.py:650-744 | The loop leaves every row as specified and reports the specified counters; a dry run changes nothing |
| TrialCycle.CycleSettles | provisioning-api/app/workers/tasks.py:669-718 | Afterwards an expired trial is still trialing iff its tenant is missing; a second cycle changes nothing |
| TrialCycle.ExpiredLosesService | provisioning-api/app/workers/tasks.py:703-716 | The status of every expired trial's tenant afterwards, and exactly which keep theirs |
| TrialCycle.FunnelIsPreserved | provisioning-api/app/modules/support/admin_router.py:1099-1113 | Every funnel count is the same before and after, in reports of that instant and later |
| TrialCycle.FunnelMeans | provisioning-api/app/modules/support/admin_router.py:1099-1113 | What each funnel count is the number of |
| TrialCycle.TallyAccounts | provisioning-api/app/workers/tasks.py:656-716 | The counters are numbers of expired trials, changed rows and tenants sent to each status, dry runs included |
| Dunning.Serve | provisioning-api/app/workers/tasks.py:868-947 | One tenant's turn equals its specification, with both windows taken before the reminder |
| Dunning.RunCycle | provisioning-api/app/workers/tasks.py:850-958 | The loop leaves every row as specified and reports the specified counters; a dry run changes nothing |
| Dunning.CycleDecides | provisioning-api/app/workers/tasks.py:868-927 | When a cycle suspends, stamps or leaves a row, by its columns, with the hours written out |
| Dunning.TallyAccounts | provisioning-api/app/workers/tasks.py:843-927 | The counters are numbers of rows watched, passed over, changed and suspended; a dry run sends and suspends nothing |
| Dunning.ReminderBound | provisioning-api/app/modules/support/dunning.py:58-78 | From one reminder to the n-th after it at least n times six hours pass, over any run |
| Dunning.ReminderTimesAre | provisioning-api/app/workers/tasks.py:868-905 | The reminder times counted are those of the log's reminders, one for each |
| Dunning.EscalationIsLate | provisioning-api/app/modules/support/dunning.py:81-116 | Over any run an escalation comes 48 hours after every earlier change but its own reminder, and three days after a known due date |
| Dunning.SteadyCyclesNeverEscalate | provisioning-api/app/workers/tasks.py:868-927 | Cycles that come often enough never escalate, because each reminder restarts the grace period |
| Dunning.SteadyBoundIsExact | provisioning-api/app/workers/tasks.py:868-927 | The gap that prevents escalation is exactly grace minus retry |
| Dunning.DefaultIntervalNeverEscalates | provisioning-api/app/workers/tasks.py:868-927 | For every status a day and a half is such a gap |
| ControlLoop.StepStaysTabled | provisioning-api/app/modules/tenant/state.py:6-55 | Every writer leaves a status of the table and moves the subscription along its own table |
| ControlLoop.WritersMove | provisioning-api/app/modules/tenant/state.py:6-72 | Where each write of a customer, an administrator or the worker leads from every status |
| ControlLoop.BillingMoves | provisioning-api/app/modules/billing/lifecycle.py:404-500 | Where each confirmation, failure, cancellation, repair and trial check leads |
| ControlLoop.ReachableStatuses | provisioning-api/app/modules/tenant/state.py:6-55 | Over all runs of a new tenant the stored statuses are exactly eleven of the table's keys; `activation_blocked` is never stored |
| ControlLoop.SubscriptionFollowsItsTable | provisioning-api/app/modules/subscription/state.py:9-38 | Under all writers together the subscription's history is a path of its table |
| ControlLoop.DeletedIsLeftOnlyByCancellation | provisioning-api/app/modules/billing/lifecycle.py:478-500 | A step takes a tenant out of deleted if and only if it is a cancellation |
| ControlLoop.DeletedRun | provisioning-api/app/modules/billing/lifecycle.py:181-204 | Over every run without a cancellation a deleted tenant stays deleted |
| ControlLoop.CancellationRevives | provisioning-api/app/modules/support/admin_router.py:1241-1244 | A cancellation and an administrator's unsuspend make a deleted tenant active |
| ControlLoop.HoldIsLeftExactlyBy | provisioning-api/app/modules/tenant/state.py:62-72 | Exactly which steps lift an administrator's hold |
| ControlLoop.PaymentsKeepTheHold | provisioning-api/app/modules/billing/lifecycle.py:181-204 | No run of confirmations, failures, repairs and trial checks lifts it |
| ControlLoop.DunningErasesTheHold | provisioning-api/app/workers/tasks.py:913-925 | An escalation and a repair do |
| ControlLoop.CallbacksAreSteps | provisioning-api/app/modules/billing/webhook_application_service.py:422-627 | Each callback on the ledger moves the standing by its step of the loop, or not at all |
| ControlLoop.PassIsRepairs | provisioning-api/app/modules/billing/reconciliation.py:414-448 | A reconciliation pass moves the standing by a number of repairs |
| TokenStore.InMemoryTokenStore.GetDel | provisioning-api/app/token_store.py:60-66 | Purges, takes and answers as specified |
| TokenStore.InMemoryTokenStore.Delete | provisioning-api/app/token_store.py:51-58 | Removes the names one by one and counts those stored |
| TokenStore.StepAgrees | provisioning-api/app/token_store.py:16-66 | One operation on the lazily purged store agrees with an ideal expiring map; a delete count differs exactly if a name holds an expired entry |
| TokenStore.StoreIsAnExpiringMap | provisioning-api/app/token_store.py:16-66 | After any operations both hold the same live entries and have given the same replies, delete counts aside |
| TokenStore.TakenAtMostOnce | provisioning-api/app/modules/identity/router.py:82-93 | `getdel` yields a name's values at most as often as they were stored |
| TokenStore.CountsArePositions | provisioning-api/app/token_store.py:40-66 | The counts of storings and takings are numbers of positions in the run and its replies |
| TokenStore.TakenInTime | provisioning-api/app/token_store.py:34-38 | A stored value can be taken exactly until the given seconds, at least one, are over |
| RefreshRotation.RefreshToken | provisioning-api/app/modules/identity/router.py:643-665 | The handler's commands on the store equal the specification |
| RefreshRotation.RedeemedExactlyWhen | provisioning-api/app/modules/identity/router.py:643-665 | Tokens are handed out exactly for a good token of an existing user that is not remembered as spent, which is then remembered |
| RefreshRotation.LoggedOutExactlyWhen | provisioning-api/app/modules/identity/router.py:677-715 | A logout remembers exactly the good tokens and hands out none |
| RefreshRotation.RevocationOutlivesToken | provisioning-api/app/modules/identity/security.py:88-92 | A revocation entry lives more than 59 seconds past the token's `exp` (section 4.1.4 of RFC 7519) |
| RefreshRotation.RedeemedAtMostOnce | provisioning-api/app/modules/identity/router.py:643-665 | In any sequential run a refresh token is redeemed at most once |
| RefreshRotation.LoggedOutIsNeverRedeemed | provisioning-api/app/modules/identity/router.py:677-715 | After a logout that decoded it, never |
| RefreshRotation.LookupDelayIsExact | provisioning-api/app/modules/identity/router.py:648-658 | Single use over all runs holds if and only if a lookup trails its decoding by at most 58 seconds |
| ReadModels.SortedInvoicesAgree | provisioning-api/app/modules/billing/read_models.py:144-160 | The head of the sorted invoices is the lifecycle's latest; the open invoices are the non-terminal ones, led by it if it is open |
| ReadModels.NextEventIs | provisioning-api/app/modules/billing/read_models.py:186-190 | The next event is overdue iff an open invoice is, absent iff none has a due date, and at the earliest |
| ReadModels.OverdueIsPartOfDue | provisioning-api/app/modules/billing/read_models.py:174-179 | Due is overdue plus not yet overdue, so overdue is at most due without negative amounts |
| ReadModels.AmountsAreOwed | provisioning-api/app/modules/billing/read_models.py:174-179 | The amounts shown are the sums of what the open, and the overdue, invoices of the table owe, each counted once |
| ReadModels.RetryImpliesCreate | provisioning-api/app/modules/billing/read_models.py:197-202 | Exactly when a retry and a new attempt are on offer; whoever may retry may create |
| ReadModels.OfferHonouredExactlyWhen | provisioning-api/app/modules/billing/read_models.py:197-202 | Over all statuses of the attempts the offer is never refused iff the first open invoice owes something and has no attempt or the tenant's newest one |
| ReadModels.OfferWithheldExactlyWhen | provisioning-api/app/modules/billing/read_models.py:197-202 | What the service would accept is always offered iff that invoice owes nothing or there is no attempt |
| ReadModels.OfferMayBeRefused | provisioning-api/app/modules/billing/read_models.py:163-165 | An input on which an offered attempt is refused |

## Left out

- Concurrency of database transactions, crashes between the commits of one handler, and the worker's reading of a tenant's status before a long command and writing it after: database steps are sequential here.
- Status text normalisation (trimming, case): a status value stands for the normalised text.
- Billing events, audit entries, notifications, provider context columns, `cancelled_at`, `collection_stage`, `last_synced_at` and currencies: written alongside and not read by the modelled decisions.
- Other tenants' attempts, exceptions and jobs: a ledger is one tenant's; the invoice table is shared, since the sync looks rows up by name across tenants.
- ReconciliationCycle.RunCycle: works on the tenants' ledgers as values; which tenants the database query selects is a parameter, and so is the order.
- Ties left open by the database's `ORDER BY`: the row stored first is taken.
- Gateway parsing, signatures, SHA-256 (a collision-free function), JWT signing and password hashing.
- Values `json.dumps` only writes through `default=str`, and strings with lone surrogates: payloads come from decoded JSON or form text.
- Trial-expiry warnings and their once-a-day keys: notifications only.
- RQ's own retries (a re-run is a step with its own condition), stuck-job recovery, backups, TLS, DNS and all of the user interface.
- Redis itself: the lease's store commands are atomic steps of the model, and the ideal expiring map is what the token store is compared with.
- LedgerAgreement.PassOutcomeHolds: for invoice tables in which every row carries one non-empty name as both its identifiers, as the sync writes them, and an ERP that answers a lookup with the invoice it was asked for.
- ReconciliationOutcome.SettledInvoiceLeaves: on the same tables and ERP answers, and so are `ReconciliationOutcome.OpenInvoiceLeaves`, `PassCounters.PassCounts`, `AttemptOutcomes.CreationLeaves` and `CallbackOutcomes.ConfirmationLeaves`; what reading an invoice again does on any table is `InvoiceSync.ResyncWrites`.
- CallbackOutcomes.FailedEndToEnd: for a clock later than every stored attempt.
- ReportExactness.ReportExactlyWhen: on the same tables and ERP answers, and over all exceptions on file rather than one file: effects on different invoices can cancel out in a particular one.
- SecondPass.SecondPassIsIdle: on the same tables and ERP answers; the payment date, which each sync stamps anew, is not compared.
- PaymentWebhooks.ConfirmedEndToEnd: for a clock later than every stored attempt, on the same tables and ERP answers.
- ReadModels.OfferHonouredExactlyWhen: against the stored invoice; that the service reads it again from the ERP first is not part of the comparison.
- SchedulerLease.LeaseExcludes: each holder is done before its lock can lapse, and the EXPIRE lands before the lease seen by the GET has lapsed; without that the code gives no guarantee.
- RefreshRotation.RedeemedAtMostOnce: lookups within 58 seconds of decoding (shown exact), and the JWT library's comparison in whole seconds, which accepts a token through the second it expires in.
- Dunning.DefaultIntervalNeverEscalates: for a tenant whose row was attended by the last cycle, with no other writer between the cycles.
