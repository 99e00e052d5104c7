/** The status vocabularies of tenants, subscriptions, invoices and payment attempts.
    A value stands for the normalised (trimmed, lower-case) text; `Blank` is a missing
    or empty text and `Other` any text the code does not name. */
module Statuses {

  datatype TenantStatus =
    | PendingPayment | Pending | Provisioning | Active
    | Suspended | SuspendedAdmin | SuspendedBilling
    | Upgrading | Restoring | PendingDeletion | Deleting | Failed | Deleted
    | ActivationBlocked | Blank | Other(text: string)

  datatype SubscriptionStatus =
    | Pending | Trialing | Active | PastDue | Paused | Cancelled | Blank | Other(text: string)

  /** Invoice statuses and billing states share one vocabulary: a billing state is often
      the invoice status passed through. */
  datatype InvoiceStatus =
    | Draft | InvoicingPending | PaymentPending | PaymentProcessing | PastDue | Grace
    | Paid | Settled | Closed | Suspended
    | Cancelled | Canceled | Void | Voided | WrittenOff
    | Open | Unpaid | Invoiced | Overdue
    | Blank | Other(text: string)

  type BillingState = InvoiceStatus

  datatype AttemptStatus =
    | Created | CheckoutStarted | PendingProviderConfirmation | SettlementPending
    | Paid | Failed | Expired | Cancelled | Canceled | ReconciliationRequired
    | Blank | Other(text: string)

  datatype EntitlementState = Trialing | Active | Grace | PastDue | SuspendedBilling | Cancelled

  datatype LegacyBillingStatus = Paid | Failed | Cancelled | Pending | Blank | Other(text: string)

  predicate PaidSubscription(s: SubscriptionStatus) {
    s.Active? || s.Trialing?
  }

  predicate ProcessingAttempt(a: AttemptStatus) {
    a.CheckoutStarted? || a.PendingProviderConfirmation? || a.SettlementPending?
  }

  /** A payment attempt that the customer may still complete. */
  predicate ActiveAttempt(a: AttemptStatus) {
    a.Created? || ProcessingAttempt(a)
  }

  predicate TerminalTenant(t: TenantStatus) {
    t.PendingDeletion? || t.Deleting? || t.Deleted?
  }

  /** The invoice statuses the invoice sync and local settlement write. */
  predicate StoredInvoiceStatus(s: InvoiceStatus) {
    s.Cancelled? || s.Paid? || s.PastDue? || s.Draft? || s.PaymentPending?
  }

  /** The six statuses a subscription row can hold. */
  predicate StoredSubscriptionStatus(s: SubscriptionStatus) {
    s.Pending? || s.Trialing? || s.Active? || s.PastDue? || s.Paused? || s.Cancelled?
  }
}
