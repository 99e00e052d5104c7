/** The billing lifecycle: one decision folded out of a tenant's status, subscription,
    latest invoice, that invoice's latest attempt and the clock. */
module Lifecycle {
  import opened Common
  import opened Statuses
  import opened Rows
  import SubscriptionState

  datatype ReasonCode =
    | BillingOk | InvoiceOpenUnpaid | PaymentSettlementInProgress | BillingSuspensionRequired
    | InvoiceCancelled | InvoiceOverdueGraceActive | GraceExpiredUnpaidInvoice

  datatype NextAction = PayInvoice | AwaitPaymentConfirmation | CompleteCheckout | NoAction

  datatype Snapshot = Snapshot(
    billingState: BillingState,
    entitlement: EntitlementState,
    operational: TenantStatus,
    paymentConfirmed: bool,
    billingBlocked: bool,
    provisioningAllowed: bool,
    requiresManualReview: bool,
    reason: ReasonCode,
    nextAction: NextAction,
    graceEndsAt: Option<Time>,
    latestInvoice: Option<RowId>,
    latestAttempt: Option<RowId>)

  function Alias(s: InvoiceStatus): InvoiceStatus {
    match s
    case Open | Unpaid | Invoiced => InvoiceStatus.PaymentPending
    case Overdue => InvoiceStatus.PastDue
    case Settled => InvoiceStatus.Paid
    case Void | Canceled => InvoiceStatus.Cancelled
    case _ => s
  }

  /** The subscription status the lifecycle works with, given the row's status and the legacy
      view computed from it. */
  function SubscriptionStatusForValues(s: SubscriptionStatus, legacy: LegacyBillingStatus): SubscriptionStatus {
    if legacy.Cancelled? then SubscriptionStatus.Cancelled
    else if legacy.Failed? && !s.PastDue? && !s.Cancelled? && !s.Paused? then SubscriptionStatus.PastDue
    else if !s.Blank? then s
    else if legacy.Paid? then SubscriptionStatus.Active
    else SubscriptionStatus.Pending
  }

  function SubscriptionStatusForTenant(s: SubscriptionStatus): SubscriptionStatus {
    SubscriptionStatusForValues(s, SubscriptionState.ToLegacy(s))
  }

  function DeriveBillingState(tenant: TenantStatus, subscription: SubscriptionStatus,
                              invoice: InvoiceStatus, attempt: AttemptStatus): BillingState
  {
    var inv := Alias(invoice);
    if attempt.Paid? || inv.Paid? then InvoiceStatus.Paid
    else if inv.Suspended? || inv.Closed? || inv.Cancelled? then inv
    else if ProcessingAttempt(attempt) then InvoiceStatus.PaymentProcessing
    else if attempt.Created? || attempt.Failed? || attempt.Expired? || attempt.Cancelled?
         || attempt.ReconciliationRequired? then InvoiceStatus.PastDue
    else if PaidSubscription(subscription) then InvoiceStatus.Paid
    else if subscription.Cancelled? then InvoiceStatus.Closed
    else if subscription.PastDue? || subscription.Paused? then
      if tenant.Active? || tenant.Provisioning? || tenant.Upgrading? || tenant.Restoring? then InvoiceStatus.Grace
      else if tenant.SuspendedBilling? then InvoiceStatus.Suspended
      else InvoiceStatus.PastDue
    else if subscription.Pending? then
      if tenant.SuspendedBilling? then InvoiceStatus.Suspended else InvoiceStatus.PaymentPending
    else if inv.Draft? || inv.InvoicingPending? || inv.PaymentPending? || inv.PaymentProcessing?
         || inv.PastDue? || inv.Grace? then inv
    else if tenant.SuspendedBilling? then InvoiceStatus.Suspended
    else InvoiceStatus.PaymentPending
  }

  function DeriveEntitlement(billing: BillingState, subscription: SubscriptionStatus): EntitlementState {
    if subscription.Trialing? && (billing.PaymentPending? || billing.PastDue? || billing.Grace?)
    then EntitlementState.Trialing
    else if subscription.Cancelled? || billing.Cancelled? then EntitlementState.Cancelled
    else if billing.Paid? || billing.Closed? then EntitlementState.Active
    else if billing.Grace? then EntitlementState.Grace
    else if billing.Suspended? then EntitlementState.SuspendedBilling
    else EntitlementState.PastDue
  }

  function DeriveOperational(current: TenantStatus, e: EntitlementState): TenantStatus {
    if TerminalTenant(current) || current.SuspendedAdmin? then current
    else if current.Failed? && (e.Active? || e.Trialing? || e.Grace?) then TenantStatus.ActivationBlocked
    else match e
      case Active | Trialing =>
        if current.PendingPayment? || current.SuspendedBilling? || current.Blank?
        then TenantStatus.Pending else current
      case Grace =>
        if current.Active? || current.Provisioning? || current.Upgrading? || current.Restoring?
        then current else TenantStatus.PendingPayment
      case PastDue | SuspendedBilling | Cancelled =>
        if current.Active? || current.Provisioning? || current.Upgrading? || current.Restoring?
        || current.Suspended? || current.SuspendedBilling?
        then TenantStatus.SuspendedBilling else TenantStatus.PendingPayment
  }

  predicate BillingBlocked(e: EntitlementState, tenant: TenantStatus) {
    tenant.PendingPayment? || tenant.SuspendedBilling?
    || e.PastDue? || e.SuspendedBilling? || e.Cancelled?
  }

  function ReasonDetails(billing: BillingState): (ReasonCode, NextAction) {
    match billing
    case PaymentPending | PastDue | Grace => (InvoiceOpenUnpaid, PayInvoice)
    case PaymentProcessing => (PaymentSettlementInProgress, AwaitPaymentConfirmation)
    case Suspended => (BillingSuspensionRequired, PayInvoice)
    case Cancelled => (InvoiceCancelled, NoAction)
    case _ => (BillingOk, NoAction)
  }

  function Evaluate(tenant: TenantStatus, subscription: SubscriptionStatus,
                    invoice: InvoiceStatus, attempt: AttemptStatus): Snapshot
  {
    var s := SubscriptionStatusForValues(subscription, LegacyBillingStatus.Blank);
    var billing := DeriveBillingState(tenant, s, invoice, attempt);
    var e := DeriveEntitlement(billing, s);
    var (reason, action) := ReasonDetails(billing);
    Snapshot(billing, e, DeriveOperational(tenant, e),
             e.Active? || e.Trialing? || e.Grace?,
             BillingBlocked(e, tenant),
             e.Active? || e.Trialing?,
             attempt.ReconciliationRequired?,
             reason, action, None, None, None)
  }

  /** The resolved invoice status with its reason, action and the end of a running grace period. */
  datatype Resolution = Resolution(status: InvoiceStatus, reason: ReasonCode, action: NextAction, graceEndsAt: Option<Time>)

  predicate JudgedCancelled(invoice: Invoice) {
    invoice.status.Cancelled? || invoice.status.Canceled? || invoice.status.Void?
    || invoice.status.Voided? || invoice.status.WrittenOff?
  }

  predicate JudgedPaid(invoice: Invoice, attempt: AttemptStatus) {
    attempt.Paid? || invoice.status.Paid? || invoice.status.Settled? || invoice.status.Closed?
    || invoice.paidAt.Some? || invoice.paid >= invoice.due > 0
  }

  function ResolveInvoice(invoice: Invoice, attempt: AttemptStatus, now: Time, grace: Time): Resolution {
    if JudgedCancelled(invoice) then Resolution(InvoiceStatus.Cancelled, InvoiceCancelled, NoAction, None)
    else if JudgedPaid(invoice, attempt) then Resolution(InvoiceStatus.Paid, BillingOk, NoAction, None)
    else if ProcessingAttempt(attempt) then
      Resolution(InvoiceStatus.PaymentProcessing, PaymentSettlementInProgress, AwaitPaymentConfirmation, None)
    else if invoice.dueDate.Some? && invoice.dueDate.value <= now then
      var ends := invoice.dueDate.value + grace;
      if now <= ends then Resolution(InvoiceStatus.Grace, InvoiceOverdueGraceActive, PayInvoice, Some(ends))
      else Resolution(InvoiceStatus.Suspended, GraceExpiredUnpaidInvoice, PayInvoice, Some(ends))
    else if ActiveAttempt(attempt) then
      Resolution(InvoiceStatus.PaymentPending, InvoiceOpenUnpaid, CompleteCheckout, None)
    else
      var s := if invoice.status.Blank? then InvoiceStatus.PaymentPending else Alias(invoice.status);
      var (reason, action) := ReasonDetails(s);
      Resolution(s, reason, action, None)
  }

  /** The snapshot once the latest invoice and attempt have been picked. */
  function Judge(tenant: TenantStatus, s: SubscriptionStatus, invoice: Invoice, attempt: AttemptStatus,
                 now: Time, grace: Time): Snapshot
  {
    var r := ResolveInvoice(invoice, attempt, now, grace);
    Evaluate(tenant, s, r.status, attempt).(reason := r.reason, nextAction := r.action, graceEndsAt := r.graceEndsAt)
  }

  function AttemptStatusOf(attempts: seq<Attempt>, a: Option<RowId>): AttemptStatus
    requires a.Some? ==> a.value < |attempts|
  {
    if a.Some? then attempts[a.value].status else AttemptStatus.Blank
  }

  /** The decision for a tenant, from its stored records and the clock. */
  function Resolve(me: TenantId, tenant: TenantStatus, subscription: SubscriptionStatus,
                   invoices: seq<Invoice>, attempts: seq<Attempt>, now: Time, grace: Time): Snapshot
  {
    var s := SubscriptionStatusForTenant(subscription);
    var latest := LatestInvoice(invoices, me);
    if latest.None? then Evaluate(tenant, s, InvoiceStatus.Blank, AttemptStatus.Blank)
    else
      var attempt := LatestAttempt(attempts, latest.value);
      var status := AttemptStatusOf(attempts, attempt);
      Judge(tenant, s, invoices[latest.value], status, now, grace)
        .(latestInvoice := latest, latestAttempt := attempt)
  }

  // ----- Time is a single cliff -----

  /** A latest invoice whose outcome is still open: dated, with one of the sync's unpaid statuses,
      no payment date and not paid in full, and an attempt neither paid nor being processed. */
  ghost predicate OpenQuestion(invoice: Invoice, attempt: AttemptStatus) {
    && (invoice.status.PastDue? || invoice.status.Draft? || invoice.status.PaymentPending?)
    && invoice.dueDate.Some? && invoice.paidAt.None?
    && (invoice.due <= 0 || invoice.paid < invoice.due)
    && !attempt.Paid?
    && !attempt.CheckoutStarted? && !attempt.PendingProviderConfirmation? && !attempt.SettlementPending?
  }

  predicate Waiting(s: InvoiceStatus) {
    s.PastDue? || s.Draft? || s.PaymentPending? || s.Grace?
  }

  lemma OpenUntilCliff(invoice: Invoice, attempt: AttemptStatus, now: Time, grace: Time)
    requires OpenQuestion(invoice, attempt)
    ensures var r := ResolveInvoice(invoice, attempt, now, grace);
            if now <= invoice.dueDate.value + grace then Waiting(r.status) && !r.reason.GraceExpiredUnpaidInvoice?
            else r.status.Suspended? && r.reason.GraceExpiredUnpaidInvoice?
  {
  }

  /** While an invoice waits, its exact status does not reach the billing state. */
  lemma WaitingIsInvisible(tenant: TenantStatus, s: SubscriptionStatus, attempt: AttemptStatus,
                           x: InvoiceStatus, y: InvoiceStatus)
    requires StoredSubscriptionStatus(s) && Waiting(x) && Waiting(y)
    ensures Evaluate(tenant, s, x, attempt)
         == Evaluate(tenant, s, y, attempt)
  {
  }

  lemma SuspendedInvoiceBlocks(tenant: TenantStatus, s: SubscriptionStatus, attempt: AttemptStatus)
    requires StoredSubscriptionStatus(s) && !attempt.Paid?
    ensures var e := Evaluate(tenant, s, InvoiceStatus.Suspended, attempt);
            e.billingState.Suspended? && !e.paymentConfirmed && !e.provisioningAllowed && e.billingBlocked
  {
  }

  /** The stored status and its legacy view agree, so the lifecycle sees the stored status. */
  lemma StoredStatusIsSeen(s: SubscriptionStatus)
    requires StoredSubscriptionStatus(s)
    ensures SubscriptionStatusForTenant(s) == s
    ensures SubscriptionStatusForValues(s, LegacyBillingStatus.Blank) == s
  {
  }

  /** With fixed records the billing state has one value up to the end of the grace period and
      is suspended ever after; the passing of time alone never confirms a payment, never allows
      provisioning and never unblocks billing. */
  lemma TimeIsASingleCliff(me: TenantId, tenant: TenantStatus, subscription: SubscriptionStatus,
                           invoices: seq<Invoice>, attempts: seq<Attempt>, grace: Time, t: Time, u: Time)
    requires StoredSubscriptionStatus(subscription)
    requires LatestInvoice(invoices, me).Some?
    requires var latest := LatestInvoice(invoices, me).value;
             OpenQuestion(invoices[latest], AttemptStatusOf(attempts, LatestAttempt(attempts, latest)))
    requires t <= u
    ensures Cliff(Resolve(me, tenant, subscription, invoices, attempts, t, grace),
                  Resolve(me, tenant, subscription, invoices, attempts, u, grace),
                  invoices[LatestInvoice(invoices, me).value].dueDate.value + grace, u)
  {
    var latest := LatestInvoice(invoices, me).value;
    var attempt := AttemptStatusOf(attempts, LatestAttempt(attempts, latest));
    var invoice := invoices[latest];
    hide Resolve, Judge, LatestInvoice, LatestAttempt, OpenQuestion;
    ResolvesByJudging(me, tenant, subscription, invoices, attempts, t, grace);
    ResolvesByJudging(me, tenant, subscription, invoices, attempts, u, grace);
    InvoiceCliff(tenant, subscription, invoice, attempt, t, u, grace);
  }

  lemma ResolvesByJudging(me: TenantId, tenant: TenantStatus, subscription: SubscriptionStatus,
                          invoices: seq<Invoice>, attempts: seq<Attempt>, now: Time, grace: Time)
    requires StoredSubscriptionStatus(subscription)
    requires LatestInvoice(invoices, me).Some?
    ensures var latest := LatestInvoice(invoices, me);
            var last := LatestAttempt(attempts, latest.value);
            Resolve(me, tenant, subscription, invoices, attempts, now, grace)
            == Judge(tenant, subscription, invoices[latest.value], AttemptStatusOf(attempts, last), now, grace)
                 .(latestInvoice := latest, latestAttempt := last)
  {
    StoredStatusIsSeen(subscription);
    hide Judge, LatestAttempt, SubscriptionStatusForTenant;
  }

  ghost predicate Cliff(before: Snapshot, after: Snapshot, cliff: Time, u: Time) {
    && (u <= cliff ==> before.billingState == after.billingState)
    && (u > cliff <==> after.billingState.Suspended? && after.reason.GraceExpiredUnpaidInvoice?)
    && (after.paymentConfirmed ==> before.paymentConfirmed)
    && (after.provisioningAllowed ==> before.provisioningAllowed)
    && (before.billingBlocked ==> after.billingBlocked)
  }

  lemma InvoiceCliff(tenant: TenantStatus, s: SubscriptionStatus, invoice: Invoice, attempt: AttemptStatus,
                     t: Time, u: Time, grace: Time)
    requires StoredSubscriptionStatus(s) && OpenQuestion(invoice, attempt) && t <= u
    ensures Cliff(Judge(tenant, s, invoice, attempt, t, grace), Judge(tenant, s, invoice, attempt, u, grace),
                  invoice.dueDate.value + grace, u)
  {
    hide Evaluate, ResolveInvoice;
    var before := Judge(tenant, s, invoice, attempt, t, grace);
    var after := Judge(tenant, s, invoice, attempt, u, grace);
    OpenUntilCliff(invoice, attempt, t, grace);
    OpenUntilCliff(invoice, attempt, u, grace);
    var atT := ResolveInvoice(invoice, attempt, t, grace);
    var atU := ResolveInvoice(invoice, attempt, u, grace);
    if u <= invoice.dueDate.value + grace {
      WaitingIsInvisible(tenant, s, attempt, atT.status, atU.status);
      assert before.billingState == after.billingState;
      assert before.paymentConfirmed == after.paymentConfirmed;
      assert before.provisioningAllowed == after.provisioningAllowed;
      assert before.billingBlocked == after.billingBlocked;
      assert !after.reason.GraceExpiredUnpaidInvoice?;
    } else {
      SuspendedInvoiceBlocks(tenant, s, attempt);
    }
  }
}
