/** Reconciling a tenant's invoices with the ERP: what one invoice does to the ledger, and the
    pass over all of them. */
module Reconciliation {
  import opened Common
  import opened Statuses
  import opened Rows
  import opened Ledgers
  import opened Transitions
  import InvoiceSync
  import Provisioning
  import Sorting
  import TenantState

  datatype Report = Report(
    settled: bool, attemptUpdated: bool, restored: bool, requeued: bool, exceptionsOpened: nat, exceptionsResolved: nat)

  /** `Raised` carries what the database holds after the caller's rollback. */
  datatype Outcome = Done(ledger: Ledger, report: Report) | Raised(ledger: Ledger)

  predicate InvoiceSettled(i: Invoice) {
    i.status.Paid? || i.status.Closed? || i.status.Settled? || (i.due <= 0 && i.paid > 0)
  }

  // ----- One invoice -----

  function MarkLatest(attempts: seq<Attempt>, latest: Option<RowId>, status: AttemptStatus, now: Time): seq<Attempt>
    requires latest.Some? ==> latest.value < |attempts|
  {
    if latest.None? then attempts
    else attempts[latest.value := attempts[latest.value].(status := status, updatedAt := now)]
  }

  predicate LatestIsPaid(attempts: seq<Attempt>, i: RowId) {
    var latest := LatestAttempt(attempts, i);
    latest.Some? && attempts[latest.value].status.Paid?
  }

  /** The attempt and exception side of a settled invoice. */
  function Settle(l: Ledger, i: RowId, now: Time): Ledger {
    l.(attempts := if LatestIsPaid(l.attempts, i) then l.attempts
                   else MarkLatest(l.attempts, LatestAttempt(l.attempts, i), AttemptStatus.Paid, now),
       exceptions := ResolveExceptions(l.exceptions, i))
  }

  function SettledReport(l: Ledger, i: RowId): Report {
    Report(true, LatestAttempt(l.attempts, i).Some? && !LatestIsPaid(l.attempts, i), false, false, 0,
           ToResolveCount(l.exceptions, i))
  }

  /** The repair of the tenant's standing, and the provisioning it may need. `start` is the
      ledger a rollback returns to. */
  function RepairStanding(start: Ledger, l: Ledger, report: Report, w: World): Outcome
    requires l.subscription.Some?
  {
    var repaired := Repair(Standing(l.tenant, l.subscription.value), w.runtimeExists);
    if repaired.None? then Raised(start)
    else
      var l' := l.(tenant := repaired.value.tenant, subscription := Some(repaired.value.subscription));
      if l'.tenant.Pending? && !w.runtimeExists && w.ownerExists then
        match Provisioning.Enqueue(l'.jobs, l'.queue, w.queueUp)
        case Returned(jobs, queue, _, enqueued) =>
          Done(l'.(jobs := jobs, queue := queue), report.(restored := true, requeued := enqueued))
        // a new job is committed before it is handed over, with everything before it
        case Raised(jobs, queue) =>
          if Provisioning.FirstLive(l'.jobs).Some? then Raised(start) else Raised(l'.(jobs := jobs, queue := queue))
      else Done(l', report.(restored := true))
  }

  /** A settled invoice without a subscription asks for a manual review. */
  function AskForReview(l: Ledger, i: RowId, report: Report): Outcome {
    var (xs, n) := OpenException(l.exceptions, i, LatestAttempt(l.attempts, i), ManualFinanceReviewRequired);
    Done(l.(exceptions := xs), report.(exceptionsOpened := n))
  }

  /** An open invoice whose latest attempt is marked paid. */
  function Dispute(l: Ledger, i: RowId, now: Time): Outcome {
    if !LatestIsPaid(l.attempts, i) then Done(l, Report(false, false, false, false, 0, 0))
    else
      var latest := LatestAttempt(l.attempts, i);
      var (xs, n) := OpenException(l.exceptions, i, latest, ErpMismatch);
      Done(l.(attempts := MarkLatest(l.attempts, latest, AttemptStatus.ReconciliationRequired, now), exceptions := xs),
           Report(false, false, false, false, n, 0))
  }

  function ReconcileRow(start: Ledger, l: Ledger, i: RowId, w: World, now: Time): Outcome
    requires i < |l.invoices|
  {
    if InvoiceSettled(l.invoices[i]) then
      if l.subscription.Some? then RepairStanding(start, Settle(l, i, now), SettledReport(l, i), w)
      else AskForReview(Settle(l, i, now), i, SettledReport(l, i))
    else Dispute(l, i, now)
  }

  /** Reads the invoice again and reconciles the row the ERP's answer was written to. */
  function ReconcileInvoice(start: Ledger, l: Ledger, i: RowId, w: World, now: Time): Outcome
    requires i < |l.invoices|
  {
    var resynced := InvoiceSync.Resync(l.invoices, i, w.me, w.erp, now);
    if resynced.None? then Raised(start)
    else ReconcileRow(start, l.(invoices := resynced.value.0), resynced.value.1, w, now)
  }

  // ----- The pass -----

  datatype Summary = Summary(
    inspected: nat, reconciled: nat, settled: nat, attemptsUpdated: nat, repairs: nat, requeues: nat,
    exceptionsOpened: nat, exceptionsResolved: nat)

  const NOTHING_YET := Summary(0, 0, 0, 0, 0, 0, 0, 0)

  function Tally(s: Summary, r: Report): Summary {
    Summary(s.inspected + 1,
            s.reconciled + One(r.settled || r.exceptionsOpened > 0 || r.exceptionsResolved > 0),
            s.settled + One(r.settled),
            s.attemptsUpdated + One(r.attemptUpdated),
            s.repairs + One(r.restored),
            s.requeues + One(r.requeued),
            s.exceptionsOpened + r.exceptionsOpened,
            s.exceptionsResolved + r.exceptionsResolved)
  }

  datatype PassOutcome = Completed(ledger: Ledger, summary: Summary) | Aborted(ledger: Ledger)

  /** Reconciles the listed invoices in turn; every finished one is committed. */
  function Pass(start: Ledger, l: Ledger, order: seq<RowId>, w: World, now: Time, s: Summary): PassOutcome
    decreases |order|
  {
    if order == [] then Completed(l, s)
    else if order[0] >= |l.invoices| then Aborted(start)
    else match ReconcileInvoice(start, l, order[0], w, now)
      case Raised(r) => Aborted(r)
      case Done(l', report) => Pass(l', l', order[1..], w, now, Tally(s, report))
  }

  /** Due date descending with undated invoices last, then newest first. */
  function BillingKeys(invoices: seq<Invoice>, me: TenantId): (keys: seq<Option<Key>>)
    ensures |keys| == |invoices|
  {
    seq(|invoices|, k requires 0 <= k < |invoices| =>
      if invoices[k].tenant != me then None
      else Some(Key(if invoices[k].dueDate.Some? then invoices[k].dueDate.value + 1 else 0, invoices[k].createdAt, 0)))
  }

  function BillingOrder(invoices: seq<Invoice>, me: TenantId): (order: seq<RowId>)
    ensures forall a | 0 <= a < |order| :: order[a] < |invoices|
  {
    Sorting.NewestFirst(BillingKeys(invoices, me))
  }

  function Synced(invoices: seq<Invoice>, w: World, now: Time): Option<seq<Invoice>> {
    InvoiceSync.SyncTenant(invoices, w.me, w.erp, now)
  }

  /** The rows a pass visits: all of the tenant's, or the one asked for if it is the tenant's. */
  function Visited(invoices: seq<Invoice>, me: TenantId, only: Option<RowId>): seq<RowId> {
    if only.None? then BillingOrder(invoices, me)
    else if only.value < |invoices| && invoices[only.value].tenant == me then [only.value]
    else []
  }

  function FilteredPass(l: Ledger, only: Option<RowId>, w: World, now: Time): PassOutcome {
    var synced := Synced(l.invoices, w, now);
    if synced.None? then Aborted(l)
    else Pass(l, l.(invoices := synced.value), Visited(synced.value, w.me, only), w, now, NOTHING_YET)
  }

  function TenantPass(l: Ledger, w: World, now: Time): PassOutcome {
    FilteredPass(l, None, w, now)
  }

  /** The order lists the tenant's own invoices, each once. */
  ghost predicate Enumerates(order: seq<RowId>, invoices: seq<Invoice>, me: TenantId) {
    && (forall a | 0 <= a < |order| :: order[a] < |invoices| && invoices[order[a]].tenant == me)
    && (forall a, b | 0 <= a < b < |order| :: order[a] != order[b])
    && (forall k | 0 <= k < |invoices| && invoices[k].tenant == me :: k in order)
  }

  lemma BillingOrderEnumerates(invoices: seq<Invoice>, me: TenantId)
    ensures Enumerates(BillingOrder(invoices, me), invoices, me)
  {
    var keys := BillingKeys(invoices, me);
    var order := BillingOrder(invoices, me);
    assert Sorting.StableNewestFirst(keys, |keys|, order);
    forall a, b | 0 <= a < b < |order| ensures order[a] != order[b] {
      assert Sorting.Ahead(keys, order[a], order[b]);
    }
  }

  /** The pass goes from the latest due date to the earliest and takes undated invoices last; among
      equals the newest row comes first, and then the one stored first. */
  lemma BillingOrderIs(invoices: seq<Invoice>, me: TenantId, a: nat, b: nat)
    requires a < b < |BillingOrder(invoices, me)|
    ensures var order := BillingOrder(invoices, me);
            var x, y := invoices[order[a]], invoices[order[b]];
            && (y.dueDate.Some? ==> x.dueDate.Some? && x.dueDate.value >= y.dueDate.value)
            && (x.dueDate == y.dueDate ==> x.createdAt >= y.createdAt && (x.createdAt == y.createdAt ==> order[a] < order[b]))
  {
    var keys, order := BillingKeys(invoices, me), BillingOrder(invoices, me);
    assert Sorting.StableNewestFirst(keys, |keys|, order);
    assert Sorting.Ahead(keys, order[a], order[b]);
  }

  // ----- What one invoice leaves behind -----

  /** Facts that hold of every ledger the service has written, at a time no earlier than any
      of its attempts. */
  ghost predicate Book(l: Ledger, now: Time) {
    && InvoiceSync.Keyed(l.invoices)
    && NotAfter(l.attempts, now)
    && TenantState.Tabled(l.tenant)
    && (l.subscription.Some? ==> StoredSubscriptionStatus(l.subscription.value.status))
  }

  /** Ledger and ERP agree on the invoice: it is settled exactly when its latest attempt is
      paid, and a settled invoice keeps no open reconciliation exception. */
  ghost predicate Agreed(l: Ledger, i: RowId) {
    i < |l.invoices|
    && (LatestAttempt(l.attempts, i).Some? ==>
          (InvoiceSettled(l.invoices[i]) <==> LatestIsPaid(l.attempts, i)))
    && (InvoiceSettled(l.invoices[i]) ==> NothingToResolve(l.exceptions, i))
  }

  /** The other invoice's row, latest attempt and open reconciliation exceptions are as before. */
  ghost predicate Undisturbed(l: Ledger, l': Ledger, j: RowId) {
    && j < |l.invoices| == |l'.invoices|
    && l'.invoices[j] == l.invoices[j]
    && LatestAttempt(l'.attempts, j) == LatestAttempt(l.attempts, j)
    && LatestIsPaid(l'.attempts, j) == LatestIsPaid(l.attempts, j)
    && (NothingToResolve(l.exceptions, j) ==> NothingToResolve(l'.exceptions, j))
    && (forall a :: HasOpen(l.exceptions, j, a, ManualFinanceReviewRequired) ==>
                    HasOpen(l'.exceptions, j, a, ManualFinanceReviewRequired))
  }

  lemma MarkingLatest(l: Ledger, i: RowId, status: AttemptStatus, now: Time)
    requires NotAfter(l.attempts, now) && LatestAttempt(l.attempts, i).Some?
    ensures var latest := LatestAttempt(l.attempts, i);
            var attempts := MarkLatest(l.attempts, latest, status, now);
            && LatestAttempt(attempts, i) == latest
            && attempts[latest.value].status == status
            && NotAfter(attempts, now)
            && (forall j | j != i :: LatestAttempt(attempts, j) == LatestAttempt(l.attempts, j)
                                     && LatestIsPaid(attempts, j) == LatestIsPaid(l.attempts, j))
  {
    var a := LatestAttempt(l.attempts, i).value;
    var row := l.attempts[a].(status := status, updatedAt := now);
    TouchedLatestStaysLatest(l.attempts, i, a, row, now);
    forall j | j != i
      ensures LatestAttempt(l.attempts[a := row], j) == LatestAttempt(l.attempts, j)
      ensures LatestIsPaid(l.attempts[a := row], j) == LatestIsPaid(l.attempts, j)
    {
      OtherInvoiceUnaffected(l.attempts, a, row, j);
    }
  }

  /** What changed and what did not when row `i` was reconciled. */
  ghost predicate Effect(l: Ledger, l': Ledger, i: RowId, report: Report, now: Time) {
    && i < |l.invoices| && l'.invoices == l.invoices
    && NotAfter(l'.attempts, now)
    && Agreed(l', i)
    && LatestAttempt(l'.attempts, i) == LatestAttempt(l.attempts, i)
    && (forall j | 0 <= j < |l.invoices| && j != i :: Undisturbed(l, l', j))
    && OpenCount(l'.exceptions) + report.exceptionsResolved == OpenCount(l.exceptions) + report.exceptionsOpened
    && report.settled == InvoiceSettled(l.invoices[i])
  }

  lemma ResolvingSparesOthers(xs: seq<BillingException>, i: RowId, j: RowId)
    ensures NothingToResolve(xs, j) ==> NothingToResolve(ResolveExceptions(xs, i), j)
    ensures forall a :: HasOpen(xs, j, a, ManualFinanceReviewRequired) ==>
                        HasOpen(ResolveExceptions(xs, i), j, a, ManualFinanceReviewRequired)
  {
    var ys := ResolveExceptions(xs, i);
    forall a | HasOpen(xs, j, a, ManualFinanceReviewRequired)
      ensures HasOpen(ys, j, a, ManualFinanceReviewRequired)
    {
      var k :| 0 <= k < |xs| && xs[k] == BillingException(j, a, ManualFinanceReviewRequired, true);
      assert ys[k] == xs[k];
    }
  }

  lemma SettleAttempts(l: Ledger, i: RowId, now: Time)
    requires NotAfter(l.attempts, now)
    ensures var l' := Settle(l, i, now);
            && NotAfter(l'.attempts, now)
            && LatestAttempt(l'.attempts, i) == LatestAttempt(l.attempts, i)
            && (LatestAttempt(l.attempts, i).Some? ==> LatestIsPaid(l'.attempts, i))
            && (forall j | j != i :: LatestAttempt(l'.attempts, j) == LatestAttempt(l.attempts, j)
                                     && LatestIsPaid(l'.attempts, j) == LatestIsPaid(l.attempts, j))
  {
    if LatestAttempt(l.attempts, i).Some? && !LatestIsPaid(l.attempts, i) {
      MarkingLatest(l, i, AttemptStatus.Paid, now);
    }
  }

  lemma SettleEffect(l: Ledger, i: RowId, now: Time)
    requires i < |l.invoices| && NotAfter(l.attempts, now) && InvoiceSettled(l.invoices[i])
    ensures Effect(l, Settle(l, i, now), i, SettledReport(l, i), now)
  {
    hide LatestAttempt, MarkLatest, ResolveExceptions, ToResolveCount, OpenCount, NotAfter;
    SettleAttempts(l, i, now);
    ResolvingAccounts(l.exceptions, i);
    forall j | 0 <= j < |l.invoices| && j != i ensures Undisturbed(l, Settle(l, i, now), j) {
      ResolvingSparesOthers(l.exceptions, i, j);
    }
  }

  lemma OpenAffectsOne(xs: seq<BillingException>, i: RowId, attempt: Option<RowId>, kind: ExceptionKind, j: RowId)
    requires j != i || !ReconciliationKind(kind)
    ensures var ys := OpenException(xs, i, attempt, kind).0;
            && xs <= ys
            && (NothingToResolve(xs, j) ==> NothingToResolve(ys, j))
  {
  }

  lemma DisputeEffect(l: Ledger, i: RowId, now: Time)
    requires i < |l.invoices| && NotAfter(l.attempts, now) && !InvoiceSettled(l.invoices[i])
    ensures Dispute(l, i, now).Done?
    ensures Effect(l, Dispute(l, i, now).ledger, i, Dispute(l, i, now).report, now)
  {
    if LatestIsPaid(l.attempts, i) {
      var latest := LatestAttempt(l.attempts, i);
      MarkingLatest(l, i, AttemptStatus.ReconciliationRequired, now);
      OpeningAccounts(l.exceptions, i, latest, ErpMismatch);
      forall j | 0 <= j < |l.invoices| && j != i ensures Undisturbed(l, Dispute(l, i, now).ledger, j) {
        OpenAffectsOne(l.exceptions, i, latest, ErpMismatch, j);
      }
    }
  }

  lemma ReviewEffect(l: Ledger, i: RowId, now: Time)
    requires i < |l.invoices| && NotAfter(l.attempts, now) && InvoiceSettled(l.invoices[i])
    ensures var o := AskForReview(Settle(l, i, now), i, SettledReport(l, i));
            Effect(l, o.ledger, i, o.report, now)
  {
    SettleEffect(l, i, now);
    var m := Settle(l, i, now);
    var latest := LatestAttempt(m.attempts, i);
    OpeningAccounts(m.exceptions, i, latest, ManualFinanceReviewRequired);
    var o := AskForReview(m, i, SettledReport(l, i));
    OpenAffectsOne(m.exceptions, i, latest, ManualFinanceReviewRequired, i);
    forall j | 0 <= j < |l.invoices| && j != i ensures Undisturbed(l, o.ledger, j) {
      assert Undisturbed(l, m, j);
      OpenAffectsOne(m.exceptions, i, latest, ManualFinanceReviewRequired, j);
    }
  }

  /** Reconciling one row agrees it, keeps the exception account and disturbs no other invoice. */
  lemma RowEffect(start: Ledger, l: Ledger, i: RowId, w: World, now: Time)
    requires i < |l.invoices| && NotAfter(l.attempts, now)
    requires ReconcileRow(start, l, i, w, now).Done?
    ensures var o := ReconcileRow(start, l, i, w, now); Effect(l, o.ledger, i, o.report, now)
  {
    if InvoiceSettled(l.invoices[i]) {
      if l.subscription.Some? {
        SettleEffect(l, i, now);
        var m := Settle(l, i, now);
        var o := ReconcileRow(start, l, i, w, now);
        assert o.ledger.exceptions == m.exceptions && o.ledger.attempts == m.attempts;
        forall j | 0 <= j < |l.invoices| && j != i ensures Undisturbed(l, o.ledger, j) {
          assert Undisturbed(l, m, j);
        }
      } else {
        ReviewEffect(l, i, now);
      }
    } else {
      DisputeEffect(l, i, now);
    }
  }
}
