/** The billing services as they run: a database session over a tenant's rows, changed in place,
    committed and rolled back. Each method leaves exactly the ledger its specification names. */
module BillingSession {
  import opened Common
  import opened Statuses
  import opened Rows
  import opened Ledgers
  import opened Transitions
  import InvoiceSync
  import PaymentAttempts
  import PaymentWebhooks
  import Provisioning
  import R = Reconciliation
  import SubscriptionState
  import TenantState

  class Session {
    const tenant: TenantState.Tenant
    const table: InvoiceSync.InvoiceTable
    const board: Provisioning.JobBoard
    var subscription: SubscriptionState.Subscription?
    var attempts: seq<Attempt>
    var exceptions: seq<BillingException>
    /** What the database held at the last commit. */
    var committed: Ledger

    constructor (tenant: TenantState.Tenant, table: InvoiceSync.InvoiceTable, board: Provisioning.JobBoard,
                 subscription: SubscriptionState.Subscription?, attempts: seq<Attempt>, exceptions: seq<BillingException>)
      ensures this.tenant == tenant && this.table == table && this.board == board
      ensures this.subscription == subscription
      ensures committed == Current() && Current().attempts == attempts && Current().exceptions == exceptions
    {
      this.tenant := tenant;
      this.table := table;
      this.board := board;
      this.subscription := subscription;
      this.attempts := attempts;
      this.exceptions := exceptions;
      new;
      committed := Current();
    }

    function Current(): Ledger
      reads this, tenant, table, board, subscription
    {
      Ledger(tenant.status,
             if subscription == null then None
             else Some(SubscriptionRow(subscription.status, subscription.trialEndsAt)),
             table.rows, attempts, exceptions, board.jobs, board.queue)
    }

    method Commit()
      modifies this`committed
      ensures committed == Current()
    {
      committed := Current();
    }

    /** The rows go back to the last commit; what the work queue was given stays given. */
    method Rollback()
      requires committed.subscription.Some? ==> subscription != null
      modifies this, tenant, table, board, subscription
      ensures Current() == committed.(queue := old(board.queue)) && committed == old(committed)
      ensures subscription == null || subscription == old(subscription)
    {
      tenant.status := committed.tenant;
      if committed.subscription.Some? {
        subscription.status := committed.subscription.value.status;
        subscription.trialEndsAt := committed.subscription.value.trialEndsAt;
      } else {
        subscription := null;
      }
      table.rows := committed.invoices;
      attempts := committed.attempts;
      exceptions := committed.exceptions;
      board.jobs := committed.jobs;
    }

    // ----- Exceptions -----

    method OpenBillingException(invoice: RowId, attempt: Option<RowId>, kind: ExceptionKind) returns (count: nat)
      modifies this`exceptions
      ensures (exceptions, count) == OpenException(old(exceptions), invoice, attempt, kind)
    {
      if HasOpen(exceptions, invoice, attempt, kind) {
        return 0;
      }
      exceptions := exceptions + [BillingException(invoice, attempt, kind, true)];
      return 1;
    }

    method ResolveBillingExceptions(invoice: RowId) returns (count: nat)
      modifies this`exceptions
      ensures exceptions == ResolveExceptions(old(exceptions), invoice)
      ensures count == ToResolveCount(old(exceptions), invoice)
    {
      count := 0;
      var i := 0;
      ghost var before := exceptions;
      while i < |exceptions|
        invariant 0 <= i <= |exceptions| == |before|
        invariant forall k | 0 <= k < i ::
                    exceptions[k] == if ToResolve(before[k], invoice) then before[k].(open := false) else before[k]
        invariant forall k | i <= k < |before| :: exceptions[k] == before[k]
        invariant count == ToResolveCount(before[..i], invoice)
      {
        assert before[..i + 1][..i] == before[..i];
        if ToResolve(exceptions[i], invoice) {
          exceptions := exceptions[i := exceptions[i].(open := false)];
          count := count + 1;
        }
        i := i + 1;
      }
      assert before[..i] == before;
    }

    // ----- Reconciliation -----

    /** Reads an invoice again; returns the row the answer was written to. */
    method ResyncOneInvoice(i: RowId, w: World, now: Time) returns (ok: bool, row: RowId)
      requires i < |table.rows|
      modifies table
      ensures var r := InvoiceSync.Resync(old(table.rows), i, w.me, w.erp, now);
              && ok == r.Some?
              && (ok ==> (table.rows, row) == r.value)
              && (!ok ==> table.rows == old(table.rows))
    {
      row := i;
      var reference := InvoiceSync.ReferenceOf(table.rows[i]);
      if !w.erp.linked || reference == "" {
        return true, i;
      }
      var answer := w.erp.lookup(reference);
      if answer.NoMatch? {
        return true, i;
      }
      if answer.Unreachable? || answer.item.reference == "" {
        return false, i;
      }
      var found := InvoiceSync.FindRow(table.rows, answer.item.reference);
      var written := InvoiceSync.Upsert(table.rows, table.rows, w.me, answer.item, now);
      if !InvoiceSync.Flushable(written) {
        return false, i;
      }
      row := if found.Some? then found.value else |table.rows|;
      table.rows := written;
      return true, row;
    }

    method MarkAttempt(a: RowId, status: AttemptStatus, now: Time)
      requires a < |attempts|
      modifies this`attempts
      ensures attempts == R.MarkLatest(old(attempts), Some(a), status, now)
    {
      attempts := attempts[a := attempts[a].(status := status, updatedAt := now)];
    }

    method SettleRow(row: RowId, now: Time) returns (report: R.Report)
      modifies this`attempts, this`exceptions
      ensures Current() == R.Settle(old(Current()), row, now)
      ensures report == R.SettledReport(old(Current()), row)
    {
      var latest := LatestAttempt(attempts, row);
      var updated := latest.Some? && !attempts[latest.value].status.Paid?;
      if updated {
        MarkAttempt(latest.value, AttemptStatus.Paid, now);
      }
      var count := ResolveBillingExceptions(row);
      report := R.Report(true, updated, false, false, 0, count);
    }

    /** Where it raises, the caller's rollback is part of the result. */
    method RepairTenant(soFar: R.Report, w: World, now: Time) returns (ok: bool, report: R.Report)
      requires subscription != null && committed.subscription.Some?
      requires committed.jobs == board.jobs && committed.queue == board.queue
      modifies this, tenant, table, board, subscription
      ensures subscription == old(subscription)
      ensures var o := R.RepairStanding(old(committed), old(Current()), soFar, w);
              && ok == o.Done? && (ok ==> report == o.report)
              && Current() == o.ledger && committed == o.ledger
    {
      report := soFar.(restored := true);
      var changed, needsProvisioning;
      ok, changed, needsProvisioning := ApplyPaidRepair(tenant, subscription, w.runtimeExists, now);
      if !ok {
        Rollback();
        return;
      }
      if needsProvisioning && w.ownerExists {
        var live := board.FindLive();
        var enqueued;
        ok, enqueued := board.EnqueueProvisioning(w.queueUp);
        if !ok {
          // a new job is committed, and all before it, ahead of the refused hand-over
          if live.None? {
            Commit();
          }
          Rollback();
          return;
        }
        report := report.(requeued := enqueued);
      }
      Commit();
    }

    method AskForReview(row: RowId, soFar: R.Report) returns (report: R.Report)
      modifies this`exceptions, this`committed
      ensures R.AskForReview(old(Current()), row, soFar) == R.Done(Current(), report)
      ensures committed == Current()
    {
      var added := OpenBillingException(row, LatestAttempt(attempts, row), ManualFinanceReviewRequired);
      report := soFar.(exceptionsOpened := added);
      Commit();
    }

    method DisputeRow(row: RowId, now: Time) returns (report: R.Report)
      modifies this`attempts, this`exceptions, this`committed
      ensures R.Dispute(old(Current()), row, now) == R.Done(Current(), report)
      ensures committed == Current()
    {
      report := R.Report(false, false, false, false, 0, 0);
      var latest := LatestAttempt(attempts, row);
      if latest.Some? && attempts[latest.value].status.Paid? {
        MarkAttempt(latest.value, AttemptStatus.ReconciliationRequired, now);
        var added := OpenBillingException(row, latest, ErpMismatch);
        report := report.(exceptionsOpened := added);
      }
      Commit();
    }

    /** Where it raises, the caller's rollback is part of the result. */
    method ReconcileInvoiceSettlement(i: RowId, w: World, now: Time) returns (ok: bool, report: R.Report)
      requires i < |table.rows|
      requires committed.subscription.Some? <==> subscription != null
      requires committed.jobs == board.jobs && committed.queue == board.queue
      modifies this, tenant, table, board, subscription
      ensures subscription == old(subscription)
      ensures var o := R.ReconcileInvoice(old(committed), old(Current()), i, w, now);
              && ok == o.Done? && (ok ==> report == o.report)
              && Current() == o.ledger && committed == o.ledger
    {
      report := R.Report(false, false, false, false, 0, 0);
      var row;
      ok, row := ResyncOneInvoice(i, w, now);
      if !ok {
        Rollback();
        return;
      }
      if !R.InvoiceSettled(table.rows[row]) {
        report := DisputeRow(row, now);
        return;
      }
      report := SettleRow(row, now);
      if subscription == null {
        report := AskForReview(row, report);
      } else {
        ok, report := RepairTenant(report, w, now);
      }
    }

    method ReconcileTenantBilling(only: Option<RowId>, w: World, now: Time) returns (ok: bool, summary: R.Summary)
      requires committed == Current()
      modifies this, tenant, table, board, subscription
      ensures subscription == old(subscription)
      ensures var p := R.FilteredPass(old(Current()), only, w, now);
              && ok == p.Completed?
              && (ok ==> summary == p.summary)
              && Current() == p.ledger
    {
      hide R.ReconcileInvoice, R.Tally, R.Visited, InvoiceSync.SyncTenant;
      summary := R.NOTHING_YET;
      ok := table.SyncPlatformInvoices(w.me, w.erp, now);
      if !ok {
        return;
      }
      var order := R.Visited(table.rows, w.me, only);
      ghost var whole := R.Pass(committed, Current(), order, w, now, summary);
      var k := 0;
      while k < |order|
        invariant 0 <= k <= |order| && subscription == old(subscription)
        invariant committed.subscription.Some? <==> subscription != null
        invariant committed.jobs == board.jobs && committed.queue == board.queue
        invariant R.Pass(committed, Current(), order[k..], w, now, summary) == whole
      {
        if order[k] >= |table.rows| {
          Rollback();
          return false, summary;
        }
        var done, report := ReconcileInvoiceSettlement(order[k], w, now);
        if !done {
          return false, summary;
        }
        summary := R.Tally(summary, report);
        assert order[k..][1..] == order[k + 1..];
        k := k + 1;
      }
      return true, summary;
    }

    // ----- Payment callbacks -----

    /** The tenant's subscription, created as pending where it is missing. */
    method EnsureSubscription() returns (s: SubscriptionState.Subscription)
      modifies this`subscription
      ensures subscription == s && (old(subscription) != null ==> s == old(subscription))
      ensures old(subscription) == null ==> fresh(s)
      ensures Current() == old(Current()).(subscription := Some(PaymentWebhooks.SubscriptionOf(old(Current()))))
    {
      if subscription == null {
        subscription := new SubscriptionState.Subscription(SubscriptionStatus.Pending, None);
      }
      s := subscription;
    }

    method SettleInvoice(i: RowId, amount: int, w: World, now: Time) returns (ok: bool)
      requires i < |table.rows|
      modifies table
      ensures var t := PaymentWebhooks.SettleInvoice(old(table.rows), i, amount, w, now);
              ok == t.Some? && table.rows == if ok then t.value else old(table.rows)
    {
      if PaymentWebhooks.AsksErp(table.rows[i], w) {
        var row;
        ok, row := ResyncOneInvoice(i, w, now);
        if ok && !PaymentWebhooks.LooksSettled(table.rows[row]) {
          table.rows := table.rows[row := PaymentWebhooks.SettleLocally(table.rows[row], amount, now)];
        }
      } else {
        table.rows := table.rows[i := PaymentWebhooks.SettleLocally(table.rows[i], amount, now)];
        ok := true;
      }
    }

    /** A tenant that was suspended for billing, or still is, goes to active. */
    method Unsuspend(wasSuspended: bool)
      modifies tenant`status
      ensures tenant.status
              == if wasSuspended then TenantStatus.Active
                 else if old(tenant.status).SuspendedBilling? then TenantState.Guarded(old(tenant.status), TenantStatus.Active)
                 else old(tenant.status)
    {
      if wasSuspended || tenant.status.SuspendedBilling? {
        if wasSuspended && !tenant.status.SuspendedBilling? {
          tenant.status := TenantStatus.SuspendedBilling;
        }
        var _ := tenant.TransitionStatus(TenantStatus.Active);
      }
    }

    /** Everything up to the commit that precedes provisioning. */
    method ConfirmPayment(a: Option<RowId>, w: World, now: Time) returns (ok: bool)
      requires a.Some? ==> a.value < |attempts| && attempts[a.value].invoice < |table.rows|
      requires committed == Current()
      modifies this, tenant, table, board, subscription
      ensures var c := PaymentWebhooks.Confirmed(old(Current()), a, w, now);
              ok == c.Some? && committed == Current() == if ok then c.value else old(Current())
    {
      if !w.ownerExists {
        return false;
      }
      var s := EnsureSubscription();
      if a.Some? {
        ok := SettleInvoice(attempts[a.value].invoice, attempts[a.value].amount, w, now);
        if !ok {
          Rollback();
          return;
        }
        MarkAttempt(a.value, AttemptStatus.Paid, now);
      }
      var wasSuspended := tenant.status.SuspendedBilling?;
      ok := ApplyPaymentConfirmed(tenant, s, now);
      if !ok {
        Rollback();
        return;
      }
      Unsuspend(wasSuspended);
      Commit();
    }

    /** Once the confirmation is committed a refused hand-over undoes nothing. */
    method HandlePaymentConfirmed(a: Option<RowId>, w: World, now: Time) returns (ok: bool)
      requires a.Some? ==> a.value < |attempts| && attempts[a.value].invoice < |table.rows|
      requires committed == Current()
      modifies this, tenant, table, board, subscription
      ensures var r := PaymentWebhooks.HandleConfirmed(old(Current()), a, w, now);
              ok == r.Done? && Current() == r.ledger && committed == r.ledger
    {
      ok := ConfirmPayment(a, w, now);
      if ok {
        var enqueued;
        ok, enqueued := board.EnqueueProvisioning(w.queueUp);
        Commit();
      }
    }

    method HandlePaymentFailed(a: Option<RowId>, now: Time) returns (ok: bool)
      requires a.Some? ==> a.value < |attempts|
      requires committed == Current()
      modifies this, tenant, table, board, subscription
      ensures var r := PaymentWebhooks.HandleFailed(old(Current()), a, now);
              ok == r.Done? && Current() == r.ledger && committed == r.ledger
    {
      var s := EnsureSubscription();
      if a.Some? {
        MarkAttempt(a.value, AttemptStatus.Failed, now);
      }
      ok := ApplyPaymentFailed(tenant, s, now);
      if !ok {
        Rollback();
        return;
      }
      Commit();
    }

    method HandleSubscriptionCancelled(now: Time) returns (ok: bool)
      requires committed == Current()
      modifies this, tenant, table, board, subscription
      ensures var r := PaymentWebhooks.HandleCancelled(old(Current()));
              ok == r.Done? && Current() == r.ledger && committed == r.ledger
    {
      var s := EnsureSubscription();
      ok := ApplySubscriptionCancelled(tenant, s, now);
      if !ok {
        Rollback();
        return;
      }
      Commit();
    }

    // ----- Attempts -----

    method CreatePaymentAttempt(i: RowId, w: World, overridden: bool, c: PaymentAttempts.Checkout, now: Time)
      returns (r: PaymentAttempts.Creation)
      requires i < |table.rows|
      requires committed == Current()
      modifies this, tenant, table, board, subscription
      ensures r == PaymentAttempts.Create(old(Current()), i, w, overridden, c, now)
      ensures Current() == committed == if r.Created? then r.ledger else old(Current())
    {
      var ok, row := ResyncOneInvoice(i, w, now);
      if !ok {
        return PaymentAttempts.SyncFailed;
      }
      if !PaymentAttempts.Payable(table.rows[row]) {
        Rollback();
        return PaymentAttempts.NotPayable;
      }
      var latest := LatestAttempt(attempts, row);
      if latest.Some? && ActiveAttempt(attempts[latest.value].status) {
        Rollback();
        return PaymentAttempts.AlreadyActive;
      }
      if overridden {
        Rollback();
        return PaymentAttempts.ProviderOverride;
      }
      if c.Refused? {
        Rollback();
        return PaymentAttempts.CheckoutRefused;
      }
      attempts := attempts + [PaymentAttempts.NewAttempt(row, table.rows[row].due, c, now)];
      Commit();
      return PaymentAttempts.Creation.Created(Current(), |attempts| - 1);
    }
  }
}
