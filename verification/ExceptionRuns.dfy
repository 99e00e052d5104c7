/** No key ever has two open billing exceptions: over every run of reconciliation, callbacks and
    new payment attempts, whatever the ERP answers and whether or not a pass completes. */
module ExceptionRuns {
  import opened Common
  import opened Rows
  import opened Ledgers
  import opened Reconciliation
  import BillingOutbox
  import InvoiceSync
  import PaymentAttempts
  import ReconciliationCycle

  lemma RowKeepsKeys(start: Ledger, l: Ledger, i: RowId, w: World, now: Time)
    requires i < |l.invoices| && OneOpenPerKey(start.exceptions) && OneOpenPerKey(l.exceptions)
    ensures OneOpenPerKey(ReconcileRow(start, l, i, w, now).ledger.exceptions)
  {
    hide OneOpenPerKey, LatestAttempt, ResolveExceptions, OpenException;
    var latest := LatestAttempt(l.attempts, i);
    ResolvingAccounts(l.exceptions, i);
    var m := Settle(l, i, now);
    OpeningAccounts(m.exceptions, i, LatestAttempt(m.attempts, i), ManualFinanceReviewRequired);
    OpeningAccounts(l.exceptions, i, latest, ErpMismatch);
  }

  lemma InvoiceKeepsKeys(start: Ledger, l: Ledger, i: RowId, w: World, now: Time)
    requires i < |l.invoices| && OneOpenPerKey(start.exceptions) && OneOpenPerKey(l.exceptions)
    ensures OneOpenPerKey(ReconcileInvoice(start, l, i, w, now).ledger.exceptions)
  {
    var resynced := InvoiceSync.Resync(l.invoices, i, w.me, w.erp, now);
    if resynced.Some? {
      RowKeepsKeys(start, l.(invoices := resynced.value.0), resynced.value.1, w, now);
    }
  }

  /** A pass that completes and a pass that raises both keep it. */
  lemma {:induction false} PassKeepsKeys(start: Ledger, l: Ledger, order: seq<RowId>, w: World, now: Time, s: Summary)
    requires OneOpenPerKey(start.exceptions) && OneOpenPerKey(l.exceptions)
    ensures OneOpenPerKey(Pass(start, l, order, w, now, s).ledger.exceptions)
    decreases |order|
  {
    if order != [] && order[0] < |l.invoices| {
      InvoiceKeepsKeys(start, l, order[0], w, now);
      var o := ReconcileInvoice(start, l, order[0], w, now);
      hide ReconcileInvoice, OneOpenPerKey;
      if o.Done? {
        PassKeepsKeys(o.ledger, o.ledger, order[1..], w, now, Tally(s, o.report));
      }
    }
  }

  lemma FilteredPassKeepsKeys(l: Ledger, only: Option<RowId>, w: World, now: Time)
    requires OneOpenPerKey(l.exceptions)
    ensures OneOpenPerKey(FilteredPass(l, only, w, now).ledger.exceptions)
  {
    var synced := Synced(l.invoices, w, now);
    if synced.Some? {
      PassKeepsKeys(l, l.(invoices := synced.value), Visited(synced.value, w.me, only), w, now, NOTHING_YET);
    }
  }

  /** Every tenant's ledger after a cycle, failed tenants included. */
  lemma {:induction false} CycleKeepsKeys(invoices: seq<Invoice>, candidates: seq<ReconciliationCycle.Candidate>, now: Time)
    requires forall c | c in candidates :: OneOpenPerKey(c.ledger.exceptions)
    ensures forall l | l in ReconciliationCycle.Cycle(invoices, candidates, now).ledgers :: OneOpenPerKey(l.exceptions)
    decreases |candidates|
  {
    if candidates != [] {
      var c := candidates[0];
      FilteredPassKeepsKeys(c.ledger.(invoices := invoices), None, c.world, now);
      var p := ReconciliationCycle.PassOf(invoices, c, now);
      assert forall d | d in candidates[1..] :: d in candidates;
      hide OneOpenPerKey, FilteredPass;
      CycleKeepsKeys(p.ledger.invoices, candidates[1..], now);
    }
  }

  // ----- Runs of one tenant -----

  datatype Step =
    | Reconciled(only: Option<RowId>, world: World, at: Time)
    | Delivered(callback: BillingOutbox.Callback)
    | AttemptStarted(invoice: RowId, world: World, overridden: bool, checkout: PaymentAttempts.Checkout, at: Time)

  function Next(l: Ledger, step: Step): Ledger {
    match step
    case Reconciled(only, w, at) => FilteredPass(l, only, w, at).ledger
    case Delivered(callback) => BillingOutbox.Serve(l, callback).app
    case AttemptStarted(i, w, overridden, c, at) =>
      if i >= |l.invoices| then l
      else
        var r := PaymentAttempts.Create(l, i, w, overridden, c, at);
        if r.Created? then r.ledger else l
  }

  function Run(l: Ledger, steps: seq<Step>): Ledger
    decreases |steps|
  {
    if steps == [] then l else Run(Next(l, steps[0]), steps[1..])
  }

  /** Callbacks and new attempts leave the exceptions alone. */
  lemma OthersSpareExceptions(l: Ledger, step: Step)
    requires !step.Reconciled?
    ensures Next(l, step).exceptions == l.exceptions
  {
  }

  /** In every run at most one exception is open for an invoice, attempt and kind. */
  lemma {:induction false} OneOpenInEveryRun(l: Ledger, steps: seq<Step>)
    requires OneOpenPerKey(l.exceptions)
    ensures OneOpenPerKey(Run(l, steps).exceptions)
    decreases |steps|
  {
    if steps != [] {
      match steps[0] {
        case Reconciled(only, w, at) => FilteredPassKeepsKeys(l, only, w, at);
        case _ => OthersSpareExceptions(l, steps[0]);
      }
      hide Next, OneOpenPerKey;
      OneOpenInEveryRun(Next(l, steps[0]), steps[1..]);
    }
  }
}
