/** The lifecycle as one table over the stored columns: what a tenant's subscription, its latest
    invoice, that invoice's latest attempt and the clock entitle it to. */
module LifecycleTable {
  import opened Common
  import opened Statuses
  import opened Rows
  import opened Lifecycle

  // ----- The columns -----

  predicate Withdrawn(x: Invoice) {
    x.status.Cancelled? || x.status.Canceled? || x.status.Void? || x.status.Voided? || x.status.WrittenOff?
  }

  /** The row says it is paid, or the amount paid covers what is still due. */
  predicate PaidInFull(x: Invoice) {
    || x.status.Paid? || x.status.Settled? || x.status.Closed?
    || x.paidAt.Some?
    || (x.due > 0 && x.due <= x.paid)
  }

  predicate UnderWay(a: AttemptStatus) {
    a.CheckoutStarted? || a.PendingProviderConfirmation? || a.SettlementPending?
  }

  /** Opened and not taken up, or ended without a payment. */
  predicate CameToNothing(a: AttemptStatus) {
    a.Created? || a.Failed? || a.Expired? || a.Cancelled? || a.ReconciliationRequired?
  }

  predicate Overdue(x: Invoice, now: Time) {
    x.dueDate.Some? && x.dueDate.value <= now
  }

  predicate BeyondGrace(x: Invoice, now: Time, grace: Time) {
    x.dueDate.Some? && x.dueDate.value + grace < now
  }

  /** Neither dated in the past nor in a new checkout, so its own status speaks for it. */
  predicate Quiet(x: Invoice, a: AttemptStatus, now: Time) {
    !Overdue(x, now) && !a.Created?
  }

  predicate AsksForPayment(s: InvoiceStatus) {
    || s.PaymentPending? || s.Open? || s.Unpaid? || s.Invoiced? || s.Blank?
    || s.PastDue? || s.Overdue? || s.Grace?
  }

  /** The tenant's runtime is in use or being worked on. */
  predicate InService(t: TenantStatus) {
    t.Active? || t.Provisioning? || t.Upgrading? || t.Restoring?
  }

  // ----- The table, first row that applies -----

  /** Without an invoice that says otherwise the subscription decides. */
  function BySubscription(t: TenantStatus, s: SubscriptionStatus): (BillingState, EntitlementState) {
    if s.Active? || s.Trialing? then (InvoiceStatus.Paid, EntitlementState.Active)
    else if s.Cancelled? then (InvoiceStatus.Closed, EntitlementState.Cancelled)
    else if t.SuspendedBilling? then (InvoiceStatus.Suspended, EntitlementState.SuspendedBilling)
    else if s.Pending? then (InvoiceStatus.PaymentPending, EntitlementState.PastDue)
    else if InService(t) then (InvoiceStatus.Grace, EntitlementState.Grace)
    else (InvoiceStatus.PastDue, EntitlementState.PastDue)
  }

  function Row(t: TenantStatus, s: SubscriptionStatus, x: Invoice, a: AttemptStatus, now: Time, grace: Time)
    : (BillingState, EntitlementState)
  {
    var ended := s.Cancelled?;
    if a.Paid? || (PaidInFull(x) && !Withdrawn(x)) then
      (InvoiceStatus.Paid, if ended then EntitlementState.Cancelled else EntitlementState.Active)
    else if Withdrawn(x) then (InvoiceStatus.Cancelled, EntitlementState.Cancelled)
    else if UnderWay(a) then
      (InvoiceStatus.PaymentProcessing, if ended then EntitlementState.Cancelled else EntitlementState.PastDue)
    else if BeyondGrace(x, now, grace) || (Quiet(x, a, now) && x.status.Suspended?) then
      (InvoiceStatus.Suspended, if ended then EntitlementState.Cancelled else EntitlementState.SuspendedBilling)
    else if CameToNothing(a) then
      (InvoiceStatus.PastDue,
       if ended then EntitlementState.Cancelled
       else if s.Trialing? then EntitlementState.Trialing else EntitlementState.PastDue)
    else BySubscription(t, s)
  }

  /** The operational state the table asks for. */
  ghost predicate Operates(t: TenantStatus, e: EntitlementState, o: TenantStatus) {
    var good := e.Active? || e.Trialing? || e.Grace?;
    && (TerminalTenant(t) || t.SuspendedAdmin? ==> o == t)
    && (t.Failed? ==> if good then o.ActivationBlocked? else o.PendingPayment?)
    && (InService(t) ==> o == if good then t else TenantStatus.SuspendedBilling)
    && (t.Pending? ==> o == if e.Active? || e.Trialing? then t else TenantStatus.PendingPayment)
    && (t.PendingPayment? ==> o == if e.Active? || e.Trialing? then TenantStatus.Pending else t)
    && (t.SuspendedBilling? ==> o == if e.Active? || e.Trialing? then TenantStatus.Pending
                                     else if e.Grace? then TenantStatus.PendingPayment else t)
    && (t.Suspended? ==> o == if e.Active? || e.Trialing? then t
                              else if e.Grace? then TenantStatus.PendingPayment else TenantStatus.SuspendedBilling)
  }

  /** The four answers the rest of the code asks for. */
  ghost predicate Answers(s: Snapshot, t: TenantStatus, row: (BillingState, EntitlementState)) {
    && s.billingState == row.0 && s.entitlement == row.1
    && (s.paymentConfirmed <==> row.1.Active? || row.1.Trialing? || row.1.Grace?)
    && (s.provisioningAllowed <==> row.1.Active? || row.1.Trialing?)
    && (s.billingBlocked <==> t.PendingPayment? || t.SuspendedBilling?
                              || row.1.PastDue? || row.1.SuspendedBilling? || row.1.Cancelled?)
    && Operates(t, row.1, s.operational)
  }

  /** The reason given and what the customer is asked to do. */
  ghost predicate Explains(s: Snapshot, x: Invoice, a: AttemptStatus, now: Time, grace: Time) {
    var paid := PaidInFull(x) || a.Paid?;
    var idle := !Withdrawn(x) && !paid && !UnderWay(a);
    var quiet := idle && Quiet(x, a, now);
    var asks := quiet && AsksForPayment(x.status);
    var settling := (!Withdrawn(x) && !paid && UnderWay(a)) || (quiet && x.status.PaymentProcessing?);
    var suspended := quiet && x.status.Suspended?;
    && (s.reason.InvoiceCancelled? <==> Withdrawn(x))
    && (s.reason.BillingOk? <==> (!Withdrawn(x) && paid) || (quiet && !asks && !settling && !suspended))
    && (s.reason.PaymentSettlementInProgress? <==> settling)
    && (s.reason.InvoiceOverdueGraceActive? <==> idle && Overdue(x, now) && !BeyondGrace(x, now, grace))
    && (s.reason.GraceExpiredUnpaidInvoice? <==> idle && BeyondGrace(x, now, grace))
    && (s.reason.InvoiceOpenUnpaid? <==> asks || (idle && !Overdue(x, now) && a.Created?))
    && (s.reason.BillingSuspensionRequired? <==> suspended)
    && (s.graceEndsAt == if idle && Overdue(x, now) then Some(x.dueDate.value + grace) else None)
    && (s.nextAction.PayInvoice? <==> asks || suspended || (idle && Overdue(x, now)))
    && (s.nextAction.CompleteCheckout? <==> idle && !Overdue(x, now) && a.Created?)
    && (s.nextAction.AwaitPaymentConfirmation? <==> settling)
    && s.requiresManualReview == a.ReconciliationRequired?
  }

  lemma JudgedByTable(t: TenantStatus, s: SubscriptionStatus, x: Invoice, a: AttemptStatus, now: Time, grace: Time)
    requires StoredSubscriptionStatus(s)
    ensures Answers(Judge(t, s, x, a, now, grace), t, Row(t, s, x, a, now, grace))
  {
    hide Evaluate, Answers, BySubscription;
    var r := ResolveInvoice(x, a, now, grace);
    EvaluatedByTable(t, s, r.status, a);
    assert Resolved(t, s, r.status, a) == Row(t, s, x, a, now, grace);
    AnswersIgnoreReasons(Evaluate(t, s, r.status, a), t, Row(t, s, x, a, now, grace), r);
  }

  lemma AnswersIgnoreReasons(s: Snapshot, t: TenantStatus, row: (BillingState, EntitlementState), r: Resolution)
    requires Answers(s, t, row)
    ensures Answers(s.(reason := r.reason, nextAction := r.action, graceEndsAt := r.graceEndsAt), t, row)
  {
    hide Operates;
  }

  lemma ExplainedByTable(t: TenantStatus, s: SubscriptionStatus, x: Invoice, a: AttemptStatus, now: Time, grace: Time)
    ensures Explains(Judge(t, s, x, a, now, grace), x, a, now, grace)
  {
    hide DeriveBillingState, DeriveEntitlement, DeriveOperational, SubscriptionStatusForValues;
  }

  /** The evaluation of one resolved invoice status. */
  function Resolved(t: TenantStatus, s: SubscriptionStatus, r: InvoiceStatus, a: AttemptStatus)
    : (BillingState, EntitlementState)
  {
    var ended := s.Cancelled?;
    if a.Paid? || r.Paid? then
      (InvoiceStatus.Paid, if ended then EntitlementState.Cancelled else EntitlementState.Active)
    else if r.Cancelled? then (r, EntitlementState.Cancelled)
    else if r.Suspended? then (r, if ended then EntitlementState.Cancelled else EntitlementState.SuspendedBilling)
    else if UnderWay(a) then
      (InvoiceStatus.PaymentProcessing, if ended then EntitlementState.Cancelled else EntitlementState.PastDue)
    else if CameToNothing(a) then
      (InvoiceStatus.PastDue,
       if ended then EntitlementState.Cancelled
       else if s.Trialing? then EntitlementState.Trialing else EntitlementState.PastDue)
    else BySubscription(t, s)
  }

  lemma EvaluatedByTable(t: TenantStatus, s: SubscriptionStatus, r: InvoiceStatus, a: AttemptStatus)
    requires StoredSubscriptionStatus(s) && Alias(r) == r && !r.Closed?
    ensures Answers(Evaluate(t, s, r, a), t, Resolved(t, s, r, a))
  {
    hide *;
    StoredStatusIsSeen(s);
    BillingByTable(t, s, r, a);
    EntitledByTable(t, s, r, a);
    OperatesByTable(t, Resolved(t, s, r, a).1);
    AnswersOf(t, s, r, a);
  }

  lemma BillingByTable(t: TenantStatus, s: SubscriptionStatus, r: InvoiceStatus, a: AttemptStatus)
    requires StoredSubscriptionStatus(s) && Alias(r) == r && !r.Closed?
    ensures DeriveBillingState(t, s, r, a) == Resolved(t, s, r, a).0
  {
  }

  lemma EntitledByTable(t: TenantStatus, s: SubscriptionStatus, r: InvoiceStatus, a: AttemptStatus)
    requires StoredSubscriptionStatus(s) && Alias(r) == r && !r.Closed?
    ensures DeriveEntitlement(Resolved(t, s, r, a).0, s) == Resolved(t, s, r, a).1
  {
  }

  lemma OperatesByTable(t: TenantStatus, e: EntitlementState)
    ensures Operates(t, e, DeriveOperational(t, e))
  {
  }

  lemma AnswersOf(t: TenantStatus, s: SubscriptionStatus, r: InvoiceStatus, a: AttemptStatus)
    requires SubscriptionStatusForValues(s, LegacyBillingStatus.Blank) == s
    requires DeriveBillingState(t, s, r, a) == Resolved(t, s, r, a).0
    requires DeriveEntitlement(Resolved(t, s, r, a).0, s) == Resolved(t, s, r, a).1
    requires Operates(t, Resolved(t, s, r, a).1, DeriveOperational(t, Resolved(t, s, r, a).1))
    ensures Answers(Evaluate(t, s, r, a), t, Resolved(t, s, r, a))
  {
    hide SubscriptionStatusForValues, DeriveBillingState, DeriveEntitlement, DeriveOperational, Operates, Resolved, ReasonDetails;
  }

  lemma SubscriptionByTable(t: TenantStatus, s: SubscriptionStatus)
    requires StoredSubscriptionStatus(s)
    ensures Answers(Evaluate(t, s, InvoiceStatus.Blank, AttemptStatus.Blank), t, BySubscription(t, s))
    ensures Evaluate(t, s, InvoiceStatus.Blank, AttemptStatus.Blank).latestInvoice.None?
  {
    EvaluatedByTable(t, s, InvoiceStatus.Blank, AttemptStatus.Blank);
  }

  /** The lifecycle resolved from the stored records answers by the table, whatever they are: by the
      row of the latest invoice and its latest attempt, or by the subscription alone if the tenant
      has no invoice. */
  lemma ResolvesByTable(me: TenantId, t: TenantStatus, s: SubscriptionStatus, invoices: seq<Invoice>,
                        attempts: seq<Attempt>, now: Time, grace: Time)
    requires StoredSubscriptionStatus(s)
    ensures var r := Resolve(me, t, s, invoices, attempts, now, grace);
            var latest := LatestInvoice(invoices, me);
            && r.latestInvoice == latest
            && (latest.None? ==> Answers(r, t, BySubscription(t, s)))
            && (latest.Some? ==>
                  var x, last := invoices[latest.value], LatestAttempt(attempts, latest.value);
                  var a := if last.None? then AttemptStatus.Blank else attempts[last.value].status;
                  && r.latestAttempt == last
                  && Answers(r, t, Row(t, s, x, a, now, grace)) && Explains(r, x, a, now, grace))
  {
    hide LatestInvoice, LatestAttempt, Judge, Evaluate, Row, BySubscription, Operates, SubscriptionStatusForTenant;
    StoredStatusIsSeen(s);
    SubscriptionByTable(t, s);
    var latest := LatestInvoice(invoices, me);
    if latest.Some? {
      var a := AttemptStatusOf(attempts, LatestAttempt(attempts, latest.value));
      JudgedByTable(t, s, invoices[latest.value], a, now, grace);
      ExplainedByTable(t, s, invoices[latest.value], a, now, grace);
    }
  }

  /** An invoice paid in full, however late, under a subscription that has not ended, is confirmed
      at every time; one that is not is confirmed at no time beyond its grace period, part paid or
      not, unless its attempt is. */
  lemma PaymentDecides(me: TenantId, t: TenantStatus, s: SubscriptionStatus, invoices: seq<Invoice>,
                       attempts: seq<Attempt>, now: Time, grace: Time)
    requires StoredSubscriptionStatus(s) && !s.Cancelled?
    requires LatestInvoice(invoices, me).Some?
    requires StoredInvoiceStatus(invoices[LatestInvoice(invoices, me).value].status)
    requires !invoices[LatestInvoice(invoices, me).value].status.Cancelled?
    ensures var x := invoices[LatestInvoice(invoices, me).value];
            var last := LatestAttempt(attempts, LatestInvoice(invoices, me).value);
            var r := Resolve(me, t, s, invoices, attempts, now, grace);
            && (x.paid >= x.due > 0 ==>
                  r.billingState.Paid? && r.paymentConfirmed && r.provisioningAllowed
                  && (r.billingBlocked <==> t.PendingPayment? || t.SuspendedBilling?))
            && (x.paid < x.due && x.paidAt.None? && !x.status.Paid? && (last.Some? ==> !attempts[last.value].status.Paid?) 
                && x.dueDate.Some? && x.dueDate.value + grace < now ==>
                  !r.paymentConfirmed && !r.provisioningAllowed && r.billingBlocked)
  {
    ResolvesByTable(me, t, s, invoices, attempts, now, grace);
    hide LatestInvoice, LatestAttempt, Resolve;
  }
}
