/** What starting a payment attempt leaves in the stored records, when it is refused, and that a
    second start on the same invoice is. */
module AttemptOutcomes {
  import opened Common
  import opened Statuses
  import opened Rows
  import opened Ledgers
  import opened PaymentAttempts
  import InvoiceSync
  import ReconciliationOutcome

  /** The customer can still pay the row: it owes something and is neither paid, closed nor withdrawn. */
  predicate Payer(x: Invoice) {
    && x.due > 0
    && !x.status.Paid? && !x.status.Closed?
    && !x.status.Cancelled? && !x.status.Canceled? && !x.status.Void? && !x.status.Voided? && !x.status.WrittenOff?
  }

  /** The attempt is with the customer or the provider. */
  predicate Pending(a: AttemptStatus) {
    a.Created? || a.CheckoutStarted? || a.PendingProviderConfirmation? || a.SettlementPending?
  }

  /** The row as the ERP has it now, or as stored if the ERP has no answer. */
  function RowNow(l: Ledger, i: RowId, w: World, now: Time): Invoice
    requires i < |l.invoices|
  {
    InvoiceSync.Reread(l.invoices[i], w.me, w.erp, now)
  }

  /** When a start is refused, in the order of the checks, and what it leaves when it is not: the
      invoice as read again, and one attempt more, over what the invoice owes now. No other record is
      written. */
  lemma CreationLeaves(l: Ledger, i: RowId, w: World, overridden: bool, c: Checkout, now: Time)
    requires InvoiceSync.Keyed(l.invoices) && InvoiceSync.Honest(w.erp) && i < |l.invoices|
    ensures var o := Create(l, i, w, overridden, c, now);
            var readable := ReconciliationOutcome.Answered(l.invoices[i], w);
            var payable := readable && Payer(RowNow(l, i, w, now));
            var free := payable && !Pending(ReconciliationOutcome.NewestStatus(l, i));
            && (o.SyncFailed? <==> !readable)
            && (o.NotPayable? <==> readable && !payable)
            && (o.AlreadyActive? <==> payable && !free)
            && (o.ProviderOverride? <==> free && overridden)
            && (o.CheckoutRefused? <==> free && !overridden && c.Refused?)
            && (o.Created? ==>
                  && o.attempt == |l.attempts|
                  && ReconciliationOutcome.OnlyReread(l, o.ledger, i, w, now)
                  && o.ledger == l.(invoices := o.ledger.invoices, attempts := o.ledger.attempts)
                  && o.ledger.attempts
                     == l.attempts + [Attempt(i, if c.hasUrl then AttemptStatus.CheckoutStarted else AttemptStatus.Created,
                                              o.ledger.invoices[i].due, c.provider, c.session, now, now)])
  {
    InvoiceSync.ResyncOutcome(l.invoices, i, w.me, w.erp, now);
    ReconciliationOutcome.SettledAsRead(l.invoices[i], w, now);
    if ReconciliationOutcome.Answered(l.invoices[i], w) {
      ReconciliationOutcome.RereadRow(l, i, w, now);
    }
    hide LatestAttempt, InvoiceSync.Resync, InvoiceSync.Reread, InvoiceSync.CopiedFrom, InvoiceSync.Honest, InvoiceSync.Keyed,
         ReconciliationOutcome.Answered, ReconciliationOutcome.Answer, ReconciliationOutcome.SettledOutside, InvoiceSync.Readable;
  }

  /** Once an attempt is started, and until some record changes, a second start on the invoice is
      refused, whatever the provider would say: as already active, or because the invoice cannot be
      read or paid any more. */
  lemma SecondStartIsRefused(l: Ledger, i: RowId, w: World, c: Checkout, now: Time,
                             v: World, overridden: bool, d: Checkout, later: Time)
    requires InvoiceSync.Keyed(l.invoices) && InvoiceSync.Honest(w.erp) && InvoiceSync.Honest(v.erp) && i < |l.invoices|
    requires Before(l.attempts, now) && Create(l, i, w, false, c, now).Created?
    ensures var first := Create(l, i, w, false, c, now).ledger;
            var again := Create(first, i, v, overridden, d, later);
            again.AlreadyActive? || again.NotPayable? || again.SyncFailed?
  {
    CreationLeaves(l, i, w, false, c, now);
    var first := Create(l, i, w, false, c, now).ledger;
    FreshestIsLatest(first.attempts, |l.attempts|);
    KeptKeyed(l, i, w, now);
    CreationLeaves(first, i, v, overridden, d, later);
    hide Create, LatestAttempt, InvoiceSync.Honest, InvoiceSync.Keyed, ReconciliationOutcome.OnlyReread, Before;
  }

  lemma KeptKeyed(l: Ledger, i: RowId, w: World, now: Time)
    requires InvoiceSync.Keyed(l.invoices) && InvoiceSync.Honest(w.erp) && i < |l.invoices|
    requires InvoiceSync.Resync(l.invoices, i, w.me, w.erp, now).Some?
    ensures InvoiceSync.Keyed(InvoiceSync.Resync(l.invoices, i, w.me, w.erp, now).value.0)
  {
    InvoiceSync.ResyncOutcome(l.invoices, i, w.me, w.erp, now);
  }
}
