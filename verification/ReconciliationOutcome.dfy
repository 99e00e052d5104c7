/** What reconciling one invoice leaves in the stored records, from the ERP's figures. */
module ReconciliationOutcome {
  import opened Common
  import opened Statuses
  import opened Rows
  import opened Ledgers
  import opened Transitions
  import opened Reconciliation
  import opened CallbackOutcomes
  import opened LedgerAgreement
  import InvoiceSync
  import Lifecycle
  import LifecycleTable
  import Provisioning
  import TenantState

  // ----- Is it settled? -----

  /** The ERP calls the item paid; or nothing is outstanding, and the total, or for want of one the
      paid amount, is positive. */
  predicate Credited(item: InvoiceSync.ErpItem) {
    var outstanding := InvoiceSync.ToMinorUnits(item.outstanding);
    var total := InvoiceSync.ToMinorUnits(item.grandTotal);
    || item.status.Paid? || item.status.Settled? || item.status.Closed?
    || (outstanding <= 0 && if total == 0 then InvoiceSync.ToMinorUnits(item.paidAmount) > 0 else outstanding < total)
  }

  /** The stored row calls itself paid, or owes nothing and has been paid something. */
  predicate CreditedHere(x: Invoice) {
    x.status.Paid? || x.status.Settled? || x.status.Closed? || (x.due <= 0 && 0 < x.paid)
  }

  function Answer(row: Invoice, w: World): InvoiceSync.ErpAnswer {
    if w.erp.linked then w.erp.lookup(row.erpId) else InvoiceSync.NoMatch
  }

  /** The ERP can be reached, and names what it answers. */
  predicate Answered(row: Invoice, w: World) {
    !Answer(row, w).Unreachable? && (Answer(row, w).Found? ==> Answer(row, w).item.reference != "")
  }

  /** The ERP's figures decide if it has any, else the stored ones. */
  predicate SettledOutside(row: Invoice, w: World) {
    match Answer(row, w)
    case Found(item) => Credited(item)
    case _ => CreditedHere(row)
  }

  lemma SettledAsRead(row: Invoice, w: World, now: Time)
    requires row.erpId == row.number != ""
    ensures InvoiceSync.Readable(row, w.erp) <==> Answered(row, w)
    ensures InvoiceSettled(InvoiceSync.Reread(row, w.me, w.erp, now)) <==> SettledOutside(row, w)
  {
    if w.erp.linked && w.erp.lookup(row.erpId).Found? {
      InvoiceSync.OverwrittenColumns(row, w.me, w.erp.lookup(row.erpId).item, now);
    }
    hide InvoiceSync.ToMinorUnits, InvoiceSync.Overwrite;
  }

  // ----- What is left -----

  /** The invoice's own row is read again and no other row is written. */
  ghost predicate OnlyReread(l: Ledger, l': Ledger, i: RowId, w: World, now: Time) {
    && i < |l.invoices| == |l'.invoices|
    && (forall k | 0 <= k < |l.invoices| && k != i :: l'.invoices[k] == l.invoices[k])
    && (match Answer(l.invoices[i], w)
        case Found(item) => InvoiceSync.CopiedFrom(l'.invoices[i], l.invoices[i].createdAt, w.me, item, now)
        case _ => l'.invoices[i] == l.invoices[i])
  }

  /** The status of the invoice's newest attempt, if it has one. */
  function NewestStatus(l: Ledger, i: RowId): AttemptStatus {
    var latest := LatestAttempt(l.attempts, i);
    if latest.None? then AttemptStatus.Blank else l.attempts[latest.value].status
  }

  ghost predicate SameStandingAndJobs(l: Ledger, l': Ledger) {
    l'.tenant == l.tenant && l'.subscription == l.subscription && l'.jobs == l.jobs && l'.queue == l.queue
  }

  /** While the ERP holds the invoice open, reconciling it never raises and leaves tenant,
      subscription and jobs alone. A newest attempt that claims to be paid is sent to review, with an
      open mismatch on file; no attempt is paid on its account. */
  lemma OpenInvoiceLeaves(start: Ledger, l: Ledger, i: RowId, w: World, now: Time)
    requires Book(l, now) && InvoiceSync.Honest(w.erp) && i < |l.invoices|
    requires Answered(l.invoices[i], w) && !SettledOutside(l.invoices[i], w)
    ensures var o := ReconcileInvoice(start, l, i, w, now);
            var latest := LatestAttempt(l.attempts, i);
            && o.Done? && !o.report.settled && !o.report.restored && !o.report.attemptUpdated && !o.report.requeued
            && o.report.exceptionsResolved == 0
            && SameStandingAndJobs(l, o.ledger) && OnlyReread(l, o.ledger, i, w, now)
            && (!NewestStatus(l, i).Paid? ==>
                  o.ledger.attempts == l.attempts && o.ledger.exceptions == l.exceptions && o.report.exceptionsOpened == 0)
            && (NewestStatus(l, i).Paid? ==>
                  && Marked(l.attempts, o.ledger.attempts, latest, AttemptStatus.ReconciliationRequired, now)
                  && l.exceptions <= o.ledger.exceptions
                  && |o.ledger.exceptions| == |l.exceptions| + o.report.exceptionsOpened
                  && BillingException(i, latest, ErpMismatch, true) in o.ledger.exceptions
                  && (o.report.exceptionsOpened == 0 <==> BillingException(i, latest, ErpMismatch, true) in l.exceptions)
                  && o.report.exceptionsOpened <= 1)
  {
    SettledAsRead(l.invoices[i], w, now);
    ReadingAgain(start, l, i, w, now);
    RereadRow(l, i, w, now);
    var m := Refreshed(l, i, w, now);
    assert ReconcileInvoice(start, l, i, w, now) == Dispute(m, i, now);
    hide ReconcileInvoice, LatestAttempt, InvoiceSettled, InvoiceSync.Reread, InvoiceSync.CopiedFrom, Book, SettledOutside;
  }

  lemma RereadRow(l: Ledger, i: RowId, w: World, now: Time)
    requires InvoiceSync.Keyed(l.invoices) && i < |l.invoices| && Answered(l.invoices[i], w)
    ensures OnlyReread(l, Refreshed(l, i, w, now), i, w, now)
  {
    if Answer(l.invoices[i], w).Found? {
      InvoiceSync.OverwrittenColumns(l.invoices[i], w.me, Answer(l.invoices[i], w).item, now);
    }
    hide InvoiceSync.CopiedFrom, InvoiceSync.Overwrite;
  }

  /** The open exceptions of the three reconciliation kinds on the invoice are closed and all others
      are as they were; what follows them is new. */
  ghost predicate Resolved(before: seq<BillingException>, after: seq<BillingException>, i: RowId) {
    && |before| <= |after|
    && (forall k | 0 <= k < |before| ::
          after[k] == if before[k].invoice == i
                         && (before[k].kind.ErpMismatch? || before[k].kind.ProviderReconciliationMismatch?
                             || before[k].kind.ReconciliationRequired?)
                      then before[k].(open := false) else before[k])
  }

  /** The newest attempt of the invoice ends up paid, and no other attempt is written. */
  ghost predicate NewestPaid(l: Ledger, l': Ledger, i: RowId, now: Time) {
    if NewestStatus(l, i).Paid? then l'.attempts == l.attempts
    else Marked(l.attempts, l'.attempts, LatestAttempt(l.attempts, i), AttemptStatus.Paid, now)
  }

  /** The tenant status a settled invoice leads to. */
  function Restored(t: TenantStatus, runtimeExists: bool): TenantStatus {
    if t.SuspendedBilling? && runtimeExists then TenantStatus.Active
    else if t.SuspendedBilling? || t.PendingPayment? || t.Failed? then TenantStatus.Pending
    else t
  }

  /** The end of the trial is cleared when a trial is paid for. */
  function TrialLeft(l: Ledger): Option<Time>
    requires l.subscription.Some?
  {
    if l.subscription.value.status.Trialing? then None else l.subscription.value.trialEndsAt
  }

  lemma SettleLeaves(l: Ledger, i: RowId, now: Time)
    ensures var l' := Settle(l, i, now);
            && NewestPaid(l, l', i, now) && Resolved(l.exceptions, l'.exceptions, i)
            && |l'.exceptions| == |l.exceptions|
            && l' == l.(attempts := l'.attempts, exceptions := l'.exceptions)
    ensures SettledReport(l, i).settled
            && SettledReport(l, i).attemptUpdated == (LatestAttempt(l.attempts, i).Some? && !NewestStatus(l, i).Paid?)
  {
    hide LatestAttempt;
  }

  /** Once the ERP holds the invoice settled, reconciling it raises exactly if the subscription is
      cancelled or a job has to be handed over and the queue refuses it. When it finishes, the newest
      attempt is paid, the invoice's reconciliation exceptions are closed, and the subscription is
      active and the tenant back in service, or on the way there with a job of its own; without a
      subscription a review is asked for instead. */
  lemma SettledInvoiceLeaves(start: Ledger, l: Ledger, i: RowId, w: World, now: Time)
    requires Book(l, now) && InvoiceSync.Honest(w.erp) && i < |l.invoices|
    requires Answered(l.invoices[i], w) && SettledOutside(l.invoices[i], w)
    ensures var o := ReconcileInvoice(start, l, i, w, now);
            && (o.Raised? <==> l.subscription.Some? && (l.subscription.value.status.Cancelled? || HandOverRefused(l, w)))
            && (o.Done? ==>
                  var l' := o.ledger;
                  && o.report.settled
                  && (o.report.attemptUpdated <==> LatestAttempt(l.attempts, i).Some? && !NewestStatus(l, i).Paid?)
                  && OnlyReread(l, l', i, w, now) && NewestPaid(l, l', i, now) && Resolved(l.exceptions, l'.exceptions, i)
                  && (o.report.restored <==> l.subscription.Some?)
                  && (l.subscription.Some? ==>
                        && l'.subscription == Some(SubscriptionRow(SubscriptionStatus.Active, TrialLeft(l)))
                        && l'.tenant == Restored(l.tenant, w.runtimeExists)
                        && |l'.exceptions| == |l.exceptions| && o.report.exceptionsOpened == 0
                        && (if l'.tenant.Pending? && !w.runtimeExists && w.ownerExists
                            then Handed(l.jobs, l.queue, l'.jobs, l'.queue, o.report.requeued)
                            else l'.jobs == l.jobs && l'.queue == l.queue && !o.report.requeued))
                  && (l.subscription.None? ==>
                        && SameStandingAndJobs(l, l')
                        && BillingException(i, LatestAttempt(l.attempts, i), ManualFinanceReviewRequired, true) in l'.exceptions))
  {
    SettledAsRead(l.invoices[i], w, now);
    ReadingAgain(start, l, i, w, now);
    RereadRow(l, i, w, now);
    var m := Refreshed(l, i, w, now);
    SettleLeaves(m, i, now);
    assert ReconcileInvoice(start, l, i, w, now) == ReconcileRow(start, m, i, w, now);
    hide ReconcileInvoice, LatestAttempt, InvoiceSettled, InvoiceSync.Reread, InvoiceSync.CopiedFrom, SettledOutside,
         Settle, SettledReport, MarkLatest, OnlyReread;
    if l.subscription.Some? {
      RepairRaises(start, Settle(m, i, now), SettledReport(m, i), w);
      RepairLeaves(start, Settle(m, i, now), SettledReport(m, i), w);
      hide RepairStanding, HandOverRefused, NewestPaid, Resolved, Handed, Restored;
    } else {
      SettleAttempts(m, i, now);
      ReviewLeaves(Settle(m, i, now), i, SettledReport(m, i));
      hide AskForReview, Resolved;
    }
  }

  /** A job that still runs or waits is the tenant's; one was handed over if none had been. */
  ghost predicate Handed(jobs: seq<Provisioning.Job>, queue: seq<RowId>,
                         jobs': seq<Provisioning.Job>, queue': seq<RowId>, requeued: bool)
  {
    && (exists k :: 0 <= k < |jobs'| && Provisioning.LiveCreate(jobs'[k])
                    && (jobs'[k].handed || !jobs'[k].status.Queued?)
                    && queue' == if requeued then queue + [k] else queue)
    && (requeued <==> Provisioning.NeedsHandOver(jobs))
  }

  lemma HandOverLeaves(l: Ledger, w: World)
    requires Provisioning.Enqueue(l.jobs, l.queue, w.queueUp).Returned?
    ensures var h := Provisioning.Enqueue(l.jobs, l.queue, w.queueUp);
            Handed(l.jobs, l.queue, h.jobs, h.queue, h.enqueued)
  {
    Provisioning.ReturnedJobIsLive(l.jobs, l.queue, w.queueUp);
    Provisioning.HandedExactlyWhenTrue(l.jobs, l.queue, w.queueUp);
    var h := Provisioning.Enqueue(l.jobs, l.queue, w.queueUp);
    assert h.enqueued <==> Provisioning.NeedsHandOver(l.jobs) by {
      hide Provisioning.FirstLive;
    }
    hide Provisioning.Enqueue, Provisioning.NeedsHandOver, Provisioning.FirstLive;
    assert Provisioning.LiveCreate(h.jobs[h.job]);
  }

  lemma RepairLeaves(start: Ledger, l: Ledger, report: Report, w: World)
    requires l.subscription.Some? && TenantState.Tabled(l.tenant)
    ensures var o := RepairStanding(start, l, report, w);
            o.Done? ==>
              && o.ledger == l.(tenant := Restored(l.tenant, w.runtimeExists), subscription := o.ledger.subscription,
                                jobs := o.ledger.jobs, queue := o.ledger.queue)
              && o.ledger.subscription == Some(SubscriptionRow(SubscriptionStatus.Active, TrialLeft(l)))
              && o.report == report.(restored := true, requeued := o.report.requeued)
              && if o.ledger.tenant.Pending? && !w.runtimeExists && w.ownerExists
                 then Handed(l.jobs, l.queue, o.ledger.jobs, o.ledger.queue, o.report.requeued)
                 else o.ledger.jobs == l.jobs && o.ledger.queue == l.queue && o.report.requeued == report.requeued
  {
    hide Repair, Handed, Provisioning.Enqueue, TenantState.Tabled;
    var s := Standing(l.tenant, l.subscription.value);
    if Repair(s, w.runtimeExists).Some? { RepairIsIdempotent(s, w.runtimeExists); }
    if Provisioning.Enqueue(l.jobs, l.queue, w.queueUp).Returned? { HandOverLeaves(l, w); }
  }

  lemma ReviewLeaves(l: Ledger, i: RowId, report: Report)
    ensures var o := AskForReview(l, i, report);
            && o.Done? && l.exceptions <= o.ledger.exceptions && o.ledger == l.(exceptions := o.ledger.exceptions)
            && BillingException(i, LatestAttempt(l.attempts, i), ManualFinanceReviewRequired, true) in o.ledger.exceptions
            && o.report == report.(exceptionsOpened := o.report.exceptionsOpened)
  {
    hide LatestAttempt;
  }

  /** Where a settled invoice raises, the ledger is the one of the last commit, unless a new job was
      needed: then all of the repair is committed with that job waiting. */
  lemma RefusedRepairLeaves(start: Ledger, l: Ledger, i: RowId, w: World, now: Time)
    requires Book(l, now) && InvoiceSync.Honest(w.erp) && i < |l.invoices|
    requires Answered(l.invoices[i], w) && SettledOutside(l.invoices[i], w)
    requires l.subscription.Some? && ReconcileInvoice(start, l, i, w, now).Raised?
    ensures var l' := ReconcileInvoice(start, l, i, w, now).ledger;
            if l.subscription.value.status.Cancelled? || Provisioning.FirstLive(l.jobs).Some? then l' == start
            else
              && l'.tenant.Pending? && l'.subscription.Some? && l'.subscription.value.status.Active?
              && NewestPaid(l, l', i, now) && Resolved(l.exceptions, l'.exceptions, i)
              && OnlyReread(l, l', i, w, now)
              && l'.queue == l.queue
              && l'.jobs == l.jobs + [Provisioning.Job(Provisioning.Create, Provisioning.Queued, false)]
  {
    SettledAsRead(l.invoices[i], w, now);
    ReadingAgain(start, l, i, w, now);
    RereadRow(l, i, w, now);
    var m := Refreshed(l, i, w, now);
    SettleLeaves(m, i, now);
    assert ReconcileInvoice(start, l, i, w, now) == RepairStanding(start, Settle(m, i, now), SettledReport(m, i), w);
    RepairRefused(start, Settle(m, i, now), SettledReport(m, i), w);
    hide ReconcileInvoice, RepairStanding, LatestAttempt, InvoiceSettled, InvoiceSync.Reread, InvoiceSync.CopiedFrom,
         SettledOutside, Settle, SettledReport, MarkLatest, OnlyReread, Resolved, Provisioning.FirstLive;
  }

  lemma RepairRefused(start: Ledger, l: Ledger, report: Report, w: World)
    requires l.subscription.Some? && TenantState.Tabled(l.tenant) && StoredSubscriptionStatus(l.subscription.value.status)
    requires RepairStanding(start, l, report, w).Raised?
    ensures var o := RepairStanding(start, l, report, w);
            if l.subscription.value.status.Cancelled? || Provisioning.FirstLive(l.jobs).Some? then o.ledger == start
            else
              && o.ledger.tenant.Pending? && o.ledger.subscription.Some? && o.ledger.subscription.value.status.Active?
              && o.ledger.jobs == l.jobs + [Provisioning.Job(Provisioning.Create, Provisioning.Queued, false)]
              && o.ledger == l.(tenant := o.ledger.tenant, subscription := o.ledger.subscription, jobs := o.ledger.jobs)
  {
    var s := Standing(l.tenant, l.subscription.value);
    ConfirmationRaises(s, w.runtimeExists);
    if Repair(s, w.runtimeExists).Some? { RepairIsIdempotent(s, w.runtimeExists); }
    hide Repair, Provisioning.FirstLive;
  }

  /** An invoice the ERP has cancelled with nothing outstanding counts as settled by its total. The
      reconciler gives a tenant suspended for billing its service back, while the lifecycle, if that is
      the tenant's latest invoice and nobody tried to pay it, goes on blocking the tenant. */
  lemma CancelledInvoiceRestores(start: Ledger, l: Ledger, i: RowId, w: World, now: Time, later: Time, grace: Time)
    requires Book(l, now) && InvoiceSync.Honest(w.erp) && i < |l.invoices| && w.erp.linked && w.runtimeExists
    requires w.erp.lookup(l.invoices[i].erpId).Found?
    requires var item := w.erp.lookup(l.invoices[i].erpId).item;
             && item.reference != "" && item.status.Cancelled?
             && InvoiceSync.ToMinorUnits(item.outstanding) == 0 < InvoiceSync.ToMinorUnits(item.grandTotal)
    requires l.tenant.SuspendedBilling? && l.subscription.Some? && !l.subscription.value.status.Cancelled?
    requires LatestAttempt(l.attempts, i).None?
    ensures var o := ReconcileInvoice(start, l, i, w, now);
            && o.Done? && o.ledger.tenant.Active? && o.ledger.subscription.Some? && o.ledger.subscription.value.status.Active?
            && i < |o.ledger.invoices| && o.ledger.invoices[i].status.Cancelled?
            && (LatestInvoice(o.ledger.invoices, w.me) == Some(i) ==>
                  var s := Lifecycle.Resolve(w.me, o.ledger.tenant, o.ledger.subscription.value.status,
                                             o.ledger.invoices, o.ledger.attempts, later, grace);
                  s.billingBlocked && !s.paymentConfirmed)
  {
    hide ReconcileInvoice, Lifecycle.Resolve, Book, LatestInvoice, LatestAttempt, InvoiceSync.ToMinorUnits, Resolved;
    SettledInvoiceLeaves(start, l, i, w, now);
    var l' := ReconcileInvoice(start, l, i, w, now).ledger;
    assert forall k | 0 <= k < |l'.attempts| :: l'.attempts[k].invoice == l.attempts[k].invoice;
    LifecycleTable.ResolvesByTable(w.me, l'.tenant, l'.subscription.value.status, l'.invoices, l'.attempts, later, grace);
  }
}
