/** What a whole reconciliation pass guarantees: ledger and ERP agree, exceptions add up, a
    second pass changes nothing, and exactly when a pass completes. */
module LedgerAgreement {
  import opened Common
  import opened Statuses
  import opened Rows
  import opened Ledgers
  import opened Transitions
  import opened Reconciliation
  import InvoiceSync
  import Provisioning
  import TenantState

  // ----- One invoice, read again first -----

  function Refreshed(l: Ledger, i: RowId, w: World, now: Time): Ledger
    requires i < |l.invoices|
  {
    l.(invoices := l.invoices[i := InvoiceSync.Reread(l.invoices[i], w.me, w.erp, now)])
  }

  lemma ReadingAgain(start: Ledger, l: Ledger, i: RowId, w: World, now: Time)
    requires InvoiceSync.Keyed(l.invoices) && InvoiceSync.Honest(w.erp) && i < |l.invoices|
    ensures ReconcileInvoice(start, l, i, w, now)
         == if InvoiceSync.Readable(l.invoices[i], w.erp) then ReconcileRow(start, Refreshed(l, i, w, now), i, w, now)
            else Raised(start)
    ensures InvoiceSync.Readable(l.invoices[i], w.erp) ==> InvoiceSync.Keyed(Refreshed(l, i, w, now).invoices)
  {
    InvoiceSync.ResyncOutcome(l.invoices, i, w.me, w.erp, now);
  }

  /** A finished row leaves sound statuses. */
  lemma StandingStaysSound(start: Ledger, l: Ledger, i: RowId, w: World, now: Time)
    requires i < |l.invoices| && ReconcileRow(start, l, i, w, now).Done?
    requires TenantState.Tabled(l.tenant)
    requires l.subscription.Some? ==> StoredSubscriptionStatus(l.subscription.value.status)
    ensures var l' := ReconcileRow(start, l, i, w, now).ledger;
            && TenantState.Tabled(l'.tenant)
            && (l'.subscription.Some? <==> l.subscription.Some?)
            && (l'.subscription.Some? ==> StoredSubscriptionStatus(l'.subscription.value.status))
  {
    if InvoiceSettled(l.invoices[i]) && l.subscription.Some? {
      RepairIsIdempotent(Standing(l.tenant, l.subscription.value), w.runtimeExists);
    }
  }

  lemma InvoiceEffect(start: Ledger, l: Ledger, i: RowId, w: World, now: Time)
    requires Book(l, now) && InvoiceSync.Honest(w.erp) && i < |l.invoices|
    requires ReconcileInvoice(start, l, i, w, now).Done?
    ensures var o := ReconcileInvoice(start, l, i, w, now);
            && Effect(Refreshed(l, i, w, now), o.ledger, i, o.report, now)
            && Book(o.ledger, now)
  {
    ReadingAgain(start, l, i, w, now);
    RowEffect(start, Refreshed(l, i, w, now), i, w, now);
    StandingStaysSound(start, Refreshed(l, i, w, now), i, w, now);
  }

  // ----- Agreement and the exception account -----

  ghost predicate Listing(order: seq<RowId>, invoices: seq<Invoice>, me: TenantId) {
    && (forall a | 0 <= a < |order| :: order[a] < |invoices| && invoices[order[a]].tenant == me)
    && (forall a, b | 0 <= a < b < |order| :: order[a] != order[b])
  }

  lemma StepAgrees(start: Ledger, l: Ledger, i: RowId, w: World, now: Time)
    requires Book(l, now) && InvoiceSync.Honest(w.erp)
    requires i < |l.invoices| && l.invoices[i].tenant == w.me
    requires ReconcileInvoice(start, l, i, w, now).Done?
    ensures var o := ReconcileInvoice(start, l, i, w, now);
            && Book(o.ledger, now)
            && Agreed(o.ledger, i)
            && |o.ledger.invoices| == |l.invoices|
            && o.ledger.invoices[i].tenant == w.me
            && (forall j | 0 <= j < |l.invoices| && j != i :: Undisturbed(l, o.ledger, j))
            && (forall j | 0 <= j < |l.invoices| && j != i && Agreed(l, j) :: Agreed(o.ledger, j))
            && OpenCount(o.ledger.exceptions) + o.report.exceptionsResolved
               == OpenCount(l.exceptions) + o.report.exceptionsOpened
  {
    hide ReconcileInvoice, LatestAttempt, LatestIsPaid, InvoiceSettled, NothingToResolve, OpenCount, HasOpen, NotAfter, Book;
    InvoiceEffect(start, l, i, w, now);
    var m := Refreshed(l, i, w, now);
    var l' := ReconcileInvoice(start, l, i, w, now).ledger;
    forall j | 0 <= j < |l.invoices| && j != i
      ensures Undisturbed(l, l', j) && (Agreed(l, j) ==> Agreed(l', j))
    {
      assert Undisturbed(m, l', j);
    }
  }

  lemma {:induction false} PassAgrees(start: Ledger, l: Ledger, order: seq<RowId>, w: World, now: Time, s: Summary)
    requires Book(l, now) && InvoiceSync.Honest(w.erp) && Listing(order, l.invoices, w.me)
    requires Pass(start, l, order, w, now, s).Completed?
    ensures var p := Pass(start, l, order, w, now, s);
            && Book(p.ledger, now)
            && |p.ledger.invoices| == |l.invoices|
            && (forall j | 0 <= j < |l.invoices| ::
                  && p.ledger.invoices[j].tenant == l.invoices[j].tenant
                  && (j in order || Agreed(l, j) ==> Agreed(p.ledger, j)))
            && OpenCount(p.ledger.exceptions) + p.summary.exceptionsResolved + s.exceptionsOpened
               == OpenCount(l.exceptions) + p.summary.exceptionsOpened + s.exceptionsResolved
    decreases |order|
  {
    if order != [] {
      var o := ReconcileInvoice(start, l, order[0], w, now);
      StepAgrees(start, l, order[0], w, now);
      forall j | 0 <= j < |l.invoices| && j != order[0] ensures o.ledger.invoices[j] == l.invoices[j] {
        assert Undisturbed(l, o.ledger, j);
      }
      PassAgrees(o.ledger, o.ledger, order[1..], w, now, Tally(s, o.report));
    }
  }

  lemma SyncedBook(l: Ledger, w: World, now: Time)
    requires Book(l, now) && Synced(l.invoices, w, now).Some?
    ensures Book(l.(invoices := Synced(l.invoices, w, now).value), now)
  {
    InvoiceSync.SyncTenantOutcome(l.invoices, w.me, w.erp, now);
  }

  lemma VisitedIsListing(invoices: seq<Invoice>, me: TenantId, only: Option<RowId>)
    ensures Listing(Visited(invoices, me, only), invoices, me)
    ensures forall k | 0 <= k < |invoices| ::
              k in Visited(invoices, me, only) <==> invoices[k].tenant == me && (only.None? || only == Some(k))
  {
    BillingOrderEnumerates(invoices, me);
    hide BillingOrder;
  }

  /** When a pass over a tenant, or over one of its invoices, completes, every invoice it visited
      is agreed, and the open exceptions are those before plus the ones reported opened minus the
      ones reported resolved. A pass without a filter visits all of the tenant's invoices. */
  lemma PassOutcomeHolds(l: Ledger, only: Option<RowId>, w: World, now: Time)
    requires Book(l, now) && InvoiceSync.Honest(w.erp)
    ensures var p := FilteredPass(l, only, w, now);
            p.Completed? ==>
              && Book(p.ledger, now)
              && (forall k | 0 <= k < |p.ledger.invoices| && p.ledger.invoices[k].tenant == w.me
                             && (only.None? || only == Some(k)) :: Agreed(p.ledger, k))
              && OpenCount(p.ledger.exceptions)
                 == OpenCount(l.exceptions) + p.summary.exceptionsOpened - p.summary.exceptionsResolved
  {
    if FilteredPass(l, only, w, now).Completed? {
      SyncedBook(l, w, now);
      var t := Synced(l.invoices, w, now).value;
      var order := Visited(t, w.me, only);
      VisitedIsListing(t, w.me, only);
      PassAgrees(l, l.(invoices := t), order, w, now, NOTHING_YET);
      assert only.Some? && only.value < |t| && t[only.value].tenant == w.me ==> order == [only.value];
    }
  }

  // ----- Exactly when a pass completes -----

  /** A repair would leave the tenant waiting for a job that the work queue refuses. */
  predicate HandOverRefused(l: Ledger, w: World) {
    && !w.queueUp && !w.runtimeExists && w.ownerExists
    && (l.tenant.Pending? || l.tenant.PendingPayment? || l.tenant.SuspendedBilling? || l.tenant.Failed?)
    && Provisioning.NeedsHandOver(l.jobs)
  }

  /** Reconciling the invoice raises: it cannot be read, or it is settled and the repair of the
      tenant's standing raises. */
  predicate Blocked(l: Ledger, i: RowId, w: World, now: Time)
    requires i < |l.invoices|
  {
    !InvoiceSync.Readable(l.invoices[i], w.erp)
    || (l.subscription.Some? && InvoiceSettled(InvoiceSync.Reread(l.invoices[i], w.me, w.erp, now))
        && (l.subscription.value.status.Cancelled? || HandOverRefused(l, w)))
  }

  lemma RepairRaises(start: Ledger, l: Ledger, report: Report, w: World)
    requires l.subscription.Some? && TenantState.Tabled(l.tenant) && StoredSubscriptionStatus(l.subscription.value.status)
    ensures var o := RepairStanding(start, l, report, w);
            && (o.Done? <==> !l.subscription.value.status.Cancelled? && !HandOverRefused(l, w))
            && (o.Done? ==> !HandOverRefused(o.ledger, w)
                            && o.ledger.subscription.Some? && o.ledger.subscription.value.status.Active?)
  {
    var s := Standing(l.tenant, l.subscription.value);
    ConfirmationRaises(s, w.runtimeExists);
    if Repair(s, w.runtimeExists).Some? {
      RepairIsIdempotent(s, w.runtimeExists);
    }
    Provisioning.HandOverRaises(l.jobs, l.queue, w.queueUp);
    HandOverSettles(l.jobs, l.queue, w.queueUp);
    hide Repair, Provisioning.FirstLive, Provisioning.Enqueue, Provisioning.NeedsHandOver;
  }

  lemma HandOverSettles(jobs: seq<Provisioning.Job>, queue: seq<RowId>, queueUp: bool)
    ensures var h := Provisioning.Enqueue(jobs, queue, queueUp);
            h.Returned? && !queueUp ==> h.jobs == jobs
  {
    hide Provisioning.FirstLive;
  }

  /** The next invoice's blockage does not depend on what this one did to the tenant. */
  ghost predicate SameStanding(l: Ledger, l': Ledger, w: World) {
    && (l'.subscription.Some? <==> l.subscription.Some?)
    && (l.subscription.Some? ==>
          && (l.subscription.value.status.Cancelled? <==> l'.subscription.value.status.Cancelled?)
          && (HandOverRefused(l, w) <==> HandOverRefused(l', w)))
  }

  lemma StepCompletes(start: Ledger, l: Ledger, i: RowId, w: World, now: Time)
    requires Book(l, now) && InvoiceSync.Honest(w.erp) && i < |l.invoices|
    ensures ReconcileInvoice(start, l, i, w, now).Done? <==> !Blocked(l, i, w, now)
    ensures var o := ReconcileInvoice(start, l, i, w, now);
            o.Done? ==> SameStanding(l, o.ledger, w)
  {
    ReadingAgain(start, l, i, w, now);
    var m := Refreshed(l, i, w, now);
    if InvoiceSync.Readable(l.invoices[i], w.erp) && l.subscription.Some? {
      RepairRaises(start, Settle(m, i, now), SettledReport(m, i), w);
    }
    hide RepairStanding, HandOverRefused, ReconcileInvoice, LatestAttempt, LatestIsPaid, OpenException, MarkLatest;
  }

  lemma {:induction false} PassCompletes(start: Ledger, l: Ledger, order: seq<RowId>, w: World, now: Time, s: Summary)
    requires Book(l, now) && InvoiceSync.Honest(w.erp) && Listing(order, l.invoices, w.me)
    ensures Pass(start, l, order, w, now, s).Completed?
            <==> forall a | 0 <= a < |order| :: !Blocked(l, order[a], w, now)
    decreases |order|
  {
    if order != [] {
      var i := order[0];
      StepCompletes(start, l, i, w, now);
      var o := ReconcileInvoice(start, l, i, w, now);
      if o.Done? {
        StepAgrees(start, l, i, w, now);
        InvoiceEffect(start, l, i, w, now);
        var rest := order[1..];
        forall j | 0 <= j < |l.invoices| && j != i ensures o.ledger.invoices[j] == l.invoices[j] {
          assert Undisturbed(l, o.ledger, j);
        }
        assert forall a | 0 <= a < |rest| :: rest[a] == order[a + 1] && rest[a] != i;
        assert forall a | 0 <= a < |rest| :: Blocked(o.ledger, rest[a], w, now) <==> Blocked(l, order[a + 1], w, now);
        PassCompletes(o.ledger, o.ledger, rest, w, now, Tally(s, o.report));
        if forall a | 0 <= a < |rest| :: !Blocked(o.ledger, rest[a], w, now) {
          forall a | 0 <= a < |order| ensures !Blocked(l, order[a], w, now) {
            if a > 0 { assert rest[a - 1] == order[a]; }
          }
        }
      }
    }
  }

  /** A pass completes exactly when the invoices are listed and can be copied, every invoice of the
      tenant can be read again, and none of them is settled while the subscription is cancelled or
      while the tenant waits for a job that the work queue refuses: the repair of a cancelled
      subscription raises, so a tenant with a settled invoice and a cancelled subscription can never
      be reconciled. */
  lemma CompletesExactlyWhen(l: Ledger, w: World, now: Time)
    requires Book(l, now) && InvoiceSync.Honest(w.erp)
    ensures Synced(l.invoices, w, now).Some? <==> InvoiceSync.Copyable(l.invoices, w.erp)
    ensures TenantPass(l, w, now).Completed?
            <==> InvoiceSync.Copyable(l.invoices, w.erp)
                 && (var t := Synced(l.invoices, w, now).value;
                     forall k | 0 <= k < |t| && t[k].tenant == w.me :: !Blocked(l.(invoices := t), k, w, now))
  {
    InvoiceSync.SyncTenantOutcome(l.invoices, w.me, w.erp, now);
    if Synced(l.invoices, w, now).Some? {
      SyncedBook(l, w, now);
      var t := Synced(l.invoices, w, now).value;
      var order := BillingOrder(t, w.me);
      BillingOrderEnumerates(t, w.me);
      PassCompletes(l, l.(invoices := t), order, w, now, NOTHING_YET);
      if forall a | 0 <= a < |order| :: !Blocked(l.(invoices := t), order[a], w, now) {
        forall k | 0 <= k < |t| && t[k].tenant == w.me ensures !Blocked(l.(invoices := t), k, w, now) {
          assert k in order;
        }
      }
    }
  }
}
