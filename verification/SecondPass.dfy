/** A second reconciliation pass with the same ERP answers changes no status. */
module SecondPass {
  import opened Common
  import opened Statuses
  import opened Rows
  import opened Ledgers
  import opened Transitions
  import opened Reconciliation
  import opened LedgerAgreement
  import InvoiceSync
  import Provisioning
  import TenantState

  ghost predicate AlikeInvoices(xs: seq<Invoice>, ys: seq<Invoice>) {
    |xs| == |ys| && forall k | 0 <= k < |xs| :: SameButPaidAt(xs[k], ys[k])
  }

  /** Equal statuses, attempts, exceptions, jobs and queue; invoices equal but for payment dates. */
  ghost predicate Alike(l: Ledger, l': Ledger) {
    l' == l.(invoices := l'.invoices) && AlikeInvoices(l.invoices, l'.invoices)
  }

  /** Copying the list and reading the row again, together, would write what the row holds. */
  ghost predicate RowFixed(row: Invoice, w: World) {
    && InvoiceSync.Readable(row, w.erp)
    && SameButPaidAt(InvoiceSync.Reread(row, w.me, w.erp, 0), row)
    && (!w.erp.lookup(InvoiceSync.ReferenceOf(row)).Found? ==> InvoiceSync.Copied(row, w.me, w.erp))
  }

  /** The standing a repair and its provisioning leave behind. */
  ghost predicate Rested(l: Ledger, w: World) {
    l.subscription.Some? ==>
      && Repair(Standing(l.tenant, l.subscription.value), w.runtimeExists)
         == Some(Standing(l.tenant, l.subscription.value))
      && (l.tenant.Pending? && !w.runtimeExists && w.ownerExists ==>
            forall up :: Provisioning.Enqueue(l.jobs, l.queue, up).Returned?
                         && Provisioning.Enqueue(l.jobs, l.queue, up).jobs == l.jobs
                         && Provisioning.Enqueue(l.jobs, l.queue, up).queue == l.queue
                         && !Provisioning.Enqueue(l.jobs, l.queue, up).enqueued)
  }

  ghost predicate RowRested(l: Ledger, i: RowId, w: World) {
    && i < |l.invoices|
    && RowFixed(l.invoices[i], w)
    && Agreed(l, i)
    && (LatestIsPaid(l.attempts, i) ==> InvoiceSettled(l.invoices[i]))
    && (InvoiceSettled(l.invoices[i]) ==>
          if l.subscription.Some? then Rested(l, w)
          else HasOpen(l.exceptions, i, LatestAttempt(l.attempts, i), ManualFinanceReviewRequired))
  }

  // ----- A finished row is at rest -----

  lemma RereadIsFixed(row: Invoice, w: World, now: Time)
    requires InvoiceSync.Honest(w.erp) && row.erpId == row.number != "" && InvoiceSync.Readable(row, w.erp)
    requires InvoiceSync.Copied(row, w.me, w.erp)
    ensures RowFixed(InvoiceSync.Reread(row, w.me, w.erp, now), w)
    ensures InvoiceSync.Reread(row, w.me, w.erp, now).erpId == row.erpId
  {
  }

  lemma RepairRests(start: Ledger, l: Ledger, report: Report, w: World)
    requires l.subscription.Some? && TenantState.Tabled(l.tenant)
    requires RepairStanding(start, l, report, w).Done?
    ensures Rested(RepairStanding(start, l, report, w).ledger, w)
  {
    RepairIsIdempotent(Standing(l.tenant, l.subscription.value), w.runtimeExists);
    var l' := RepairStanding(start, l, report, w).ledger;
    if l'.tenant.Pending? && !w.runtimeExists && w.ownerExists {
      Provisioning.EnqueueRests(l.jobs, l.queue, w.queueUp);
    }
  }

  /** A standing at rest stays so while other invoices are reconciled. */
  lemma RestIsKept(start: Ledger, l: Ledger, i: RowId, w: World, now: Time)
    requires i < |l.invoices| && l.subscription.Some? && Rested(l, w)
    requires ReconcileRow(start, l, i, w, now).Done?
    ensures Rested(ReconcileRow(start, l, i, w, now).ledger, w)
  {
  }

  lemma FinishedRowRests(start: Ledger, l: Ledger, i: RowId, w: World, now: Time)
    requires i < |l.invoices| && NotAfter(l.attempts, now) && TenantState.Tabled(l.tenant)
    requires ReconcileRow(start, l, i, w, now).Done? && RowFixed(l.invoices[i], w)
    ensures RowRested(ReconcileRow(start, l, i, w, now).ledger, i, w)
  {
    RowEffect(start, l, i, w, now);
    var m := Settle(l, i, now);
    if InvoiceSettled(l.invoices[i]) {
      if l.subscription.Some? {
        RepairRests(start, m, SettledReport(l, i), w);
      } else {
        OpeningAccounts(m.exceptions, i, LatestAttempt(m.attempts, i), ManualFinanceReviewRequired);
      }
    }
  }

  lemma StepRests(start: Ledger, l: Ledger, i: RowId, w: World, now: Time)
    requires Book(l, now) && InvoiceSync.Honest(w.erp) && i < |l.invoices|
    requires InvoiceSync.Copied(l.invoices[i], w.me, w.erp)
    requires ReconcileInvoice(start, l, i, w, now).Done?
    ensures var l' := ReconcileInvoice(start, l, i, w, now).ledger;
            && RowRested(l', i, w)
            && |l'.invoices| == |l.invoices| && l'.invoices[i].erpId == l.invoices[i].erpId
            && (forall j | 0 <= j < |l.invoices| && j != i && RowRested(l, j, w) :: RowRested(l', j, w))
  {
    ReadingAgain(start, l, i, w, now);
    RereadIsFixed(l.invoices[i], w, now);
    var m := Refreshed(l, i, w, now);
    FinishedRowRests(start, m, i, w, now);
    InvoiceEffect(start, l, i, w, now);
    var l' := ReconcileInvoice(start, l, i, w, now).ledger;
    StandingStaysSound(start, m, i, w, now);
    forall j | 0 <= j < |l.invoices| && j != i && RowRested(l, j, w) ensures RowRested(l', j, w) {
      assert Undisturbed(m, l', j);
      if l.subscription.Some? && InvoiceSettled(l.invoices[j]) {
        RestIsKept(start, m, i, w, now);
      }
    }
  }

  lemma {:induction false} PassRests(start: Ledger, l: Ledger, order: seq<RowId>, w: World, now: Time, s: Summary)
    requires Book(l, now) && InvoiceSync.Honest(w.erp) && Listing(order, l.invoices, w.me)
    requires forall a | 0 <= a < |order| :: InvoiceSync.Copied(l.invoices[order[a]], w.me, w.erp)
    requires Pass(start, l, order, w, now, s).Completed?
    ensures var l' := Pass(start, l, order, w, now, s).ledger;
            && |l'.invoices| == |l.invoices|
            && (forall j | 0 <= j < |l.invoices| ::
                  && l'.invoices[j].erpId == l.invoices[j].erpId
                  && (j in order || RowRested(l, j, w) ==> RowRested(l', j, w)))
    decreases |order|
  {
    if order != [] {
      var o := ReconcileInvoice(start, l, order[0], w, now);
      StepAgrees(start, l, order[0], w, now);
      StepRests(start, l, order[0], w, now);
      forall j | 0 <= j < |l.invoices| && j != order[0] ensures o.ledger.invoices[j] == l.invoices[j] {
        assert Undisturbed(l, o.ledger, j);
      }
      PassRests(o.ledger, o.ledger, order[1..], w, now, Tally(s, o.report));
    }
  }

  // ----- A row at rest is left alone -----

  /** The row is the resting one but for the payment date, or will be once it is read again. */
  ghost predicate Returns(row: Invoice, rest: Invoice, w: World) {
    && row.tenant == rest.tenant && row.erpId == rest.erpId && row.number == rest.number
    && InvoiceSync.Readable(row, w.erp)
    && SameButPaidAt(InvoiceSync.Reread(row, w.me, w.erp, 0), rest)
  }

  /** Equal to `l` but for invoices that a pass in this order returns to rest. */
  ghost predicate Returning(l: Ledger, m: Ledger, order: seq<RowId>, w: World) {
    && m == l.(invoices := m.invoices) && |m.invoices| == |l.invoices|
    && (forall k | 0 <= k < |l.invoices| ::
          if k in order then Returns(m.invoices[k], l.invoices[k], w) else SameButPaidAt(l.invoices[k], m.invoices[k]))
  }

  lemma RereadAtAnyTime(row: Invoice, w: World, now: Time)
    ensures SameButPaidAt(InvoiceSync.Reread(row, w.me, w.erp, 0), InvoiceSync.Reread(row, w.me, w.erp, now))
  {
  }

  /** With the refreshed row in place of the resting one, reconciling it changes nothing. */
  lemma RestedRowIsIdle(start: Ledger, l: Ledger, m: Ledger, i: RowId, w: World, up: bool, now: Time)
    requires i < |l.invoices| && RowRested(l, i, w) && m == l.(invoices := m.invoices)
    requires |m.invoices| == |l.invoices| && SameButPaidAt(l.invoices[i], m.invoices[i])
    ensures var o := ReconcileRow(start, m, i, w.(queueUp := up), now);
            && o.Done? && o.ledger == m
            && !o.report.attemptUpdated && !o.report.requeued
            && o.report.exceptionsOpened == 0 && o.report.exceptionsResolved == 0
  {
    hide LatestAttempt, ResolveExceptions, ToResolveCount;
    ResolvingAccounts(l.exceptions, i);
  }

  lemma ReturningRowIsLeftAlone(start: Ledger, l: Ledger, m: Ledger, i: RowId, w: World, up: bool, now: Time)
    requires Book(m, now) && InvoiceSync.Honest(w.erp) && i < |l.invoices| && RowRested(l, i, w)
    requires m == l.(invoices := m.invoices) && |m.invoices| == |l.invoices|
    requires Returns(m.invoices[i], l.invoices[i], w)
    ensures var o := ReconcileInvoice(start, m, i, w.(queueUp := up), now);
            && o.Done? && |o.ledger.invoices| == |l.invoices|
            && o.ledger == m.(invoices := m.invoices[i := o.ledger.invoices[i]])
            && SameButPaidAt(l.invoices[i], o.ledger.invoices[i])
            && Book(o.ledger, now)
            && !o.report.attemptUpdated && !o.report.requeued
            && o.report.exceptionsOpened == 0 && o.report.exceptionsResolved == 0
  {
    var w' := w.(queueUp := up);
    ReadingAgain(start, m, i, w', now);
    RereadAtAnyTime(m.invoices[i], w, now);
    var n := Refreshed(m, i, w', now);
    hide ReconcileInvoice, RowRested, ReconcileRow;
    RestedRowIsIdle(start, l, n, i, w, up, now);
  }

  lemma {:induction false} ReturningPassIsIdle(start: Ledger, l: Ledger, m: Ledger, order: seq<RowId>, w: World, up: bool,
                                               now: Time, s: Summary)
    requires Book(m, now) && InvoiceSync.Honest(w.erp)
    requires Listing(order, m.invoices, w.me) && Returning(l, m, order, w)
    requires forall a | 0 <= a < |order| :: RowRested(l, order[a], w)
    ensures var p := Pass(start, m, order, w.(queueUp := up), now, s);
            && p.Completed? && Alike(l, p.ledger)
            && p.summary.attemptsUpdated == s.attemptsUpdated && p.summary.requeues == s.requeues
            && p.summary.exceptionsOpened == s.exceptionsOpened
            && p.summary.exceptionsResolved == s.exceptionsResolved
    decreases |order|
  {
    hide ReconcileInvoice, RowRested, Book;
    if order != [] {
      var w', i, rest := w.(queueUp := up), order[0], order[1..];
      ReturningRowIsLeftAlone(start, l, m, i, w, up, now);
      var o := ReconcileInvoice(start, m, i, w', now);
      assert forall a | 0 <= a < |rest| :: rest[a] == order[a + 1] && rest[a] != i;
      forall k | 0 <= k < |l.invoices|
        ensures if k in rest then Returns(o.ledger.invoices[k], l.invoices[k], w)
                else SameButPaidAt(l.invoices[k], o.ledger.invoices[k])
      {
        assert k in order <==> k == i || k in rest;
      }
      ReturningPassIsIdle(o.ledger, l, o.ledger, rest, w, up, now, Tally(s, o.report));
    }
  }

  // ----- The second sync -----

  /** After a sync every listed item has a row, and it is the tenant's. */
  lemma ListedHasOwnRow(invoices: seq<Invoice>, me: TenantId, items: seq<InvoiceSync.ErpItem>, now: Time, d: nat)
    returns (k: RowId)
    requires InvoiceSync.Keyed(invoices) && d < |items|
    requires InvoiceSync.Sync(invoices, me, items, now).Some?
    ensures var t := InvoiceSync.Sync(invoices, me, items, now).value;
            k < |t| && t[k].tenant == me && t[k].erpId == items[d].reference
  {
    InvoiceSync.SyncOutcome(invoices, me, items, now);
    var found := InvoiceSync.FindRow(invoices, items[d].reference);
    if found.Some? {
      k := found.value;
      assert items[d] in items;
    } else {
      k := InvoiceSync.NewItemHasRow(invoices, invoices, me, items, now, d);
    }
  }

  lemma {:induction false} NoNewNames(flushed: seq<Invoice>, items: seq<InvoiceSync.ErpItem>)
    requires forall d | 0 <= d < |items| :: InvoiceSync.FindRow(flushed, items[d].reference).Some?
    ensures InvoiceSync.NewNames(flushed, items) == []
    decreases |items|
  {
    if items != [] {
      assert forall d | 0 <= d < |items[1..]| :: items[1..][d] == items[d + 1];
      NoNewNames(flushed, items[1..]);
    }
  }

  ghost predicate OwnsRow(invoices: seq<Invoice>, me: TenantId, name: string) {
    exists k | 0 <= k < |invoices| :: invoices[k].tenant == me && invoices[k].erpId == name
  }

  /** Overwriting a resting row with the list's item leaves a row that its next reading returns. */
  lemma CopyReturns(row: Invoice, item: InvoiceSync.ErpItem, w: World, now: Time)
    requires w.erp.linked && RowFixed(row, w) && row.tenant == w.me && row.erpId == row.number == item.reference != ""
    requires w.erp.listed.Listed? && InvoiceSync.LastNamed(w.erp.listed.items, row.erpId) == Some(item)
    ensures Returns(InvoiceSync.Overwrite(row, w.me, item, now), row, w)
  {
    hide InvoiceSync.LastNamed;
  }

  /** Copying the same list again touches the tenant's rows only, and those return to rest. */
  lemma SecondCopy(invoices: seq<Invoice>, w: World, now: Time)
    requires InvoiceSync.Keyed(invoices) && w.erp.linked && w.erp.listed.Listed?
    requires !InvoiceSync.Nameless(w.erp.listed.items)
    requires forall item | item in w.erp.listed.items :: OwnsRow(invoices, w.me, item.reference)
    requires forall k | 0 <= k < |invoices| && invoices[k].tenant == w.me :: RowFixed(invoices[k], w)
    ensures Synced(invoices, w, now).Some?
    ensures var t := Synced(invoices, w, now).value;
            && |t| == |invoices|
            && (forall k | 0 <= k < |t| ::
                  if invoices[k].tenant == w.me then Returns(t[k], invoices[k], w) else t[k] == invoices[k])
  {
    var items := w.erp.listed.items;
    forall d | 0 <= d < |items| ensures InvoiceSync.FindRow(invoices, items[d].reference).Some? {
      assert OwnsRow(invoices, w.me, items[d].reference);
      var k :| 0 <= k < |invoices| && invoices[k].tenant == w.me && invoices[k].erpId == items[d].reference;
      InvoiceSync.FindRowInKeyed(invoices, k);
    }
    NoNewNames(invoices, items);
    InvoiceSync.SyncOutcome(invoices, w.me, items, now);
    var t := InvoiceSync.Sync(invoices, w.me, items, now).value;
    hide InvoiceSync.LastNamed, InvoiceSync.Sync, InvoiceSync.NewNames, RowFixed, Returns, InvoiceSync.Overwrite;
    forall k | 0 <= k < |t|
      ensures if invoices[k].tenant == w.me then Returns(t[k], invoices[k], w) else t[k] == invoices[k]
    {
      var last := InvoiceSync.LastNamed(items, invoices[k].erpId);
      if last.Some? {
        NamedRowIsOwn(invoices, w, k, last.value);
        CopyReturns(invoices[k], last.value, w, now);
      } else if invoices[k].tenant == w.me {
        FixedReturns(invoices[k], w);
      }
    }
  }

  lemma FixedReturns(row: Invoice, w: World)
    requires RowFixed(row, w)
    ensures Returns(row, row, w)
  {
  }

  lemma NamedRowIsOwn(invoices: seq<Invoice>, w: World, k: RowId, item: InvoiceSync.ErpItem)
    requires InvoiceSync.Keyed(invoices) && w.erp.listed.Listed? && k < |invoices|
    requires item in w.erp.listed.items && item.reference == invoices[k].erpId
    requires forall other | other in w.erp.listed.items :: OwnsRow(invoices, w.me, other.reference)
    ensures invoices[k].tenant == w.me
  {
    assert OwnsRow(invoices, w.me, item.reference);
    var j :| 0 <= j < |invoices| && invoices[j].tenant == w.me && invoices[j].erpId == item.reference;
    assert j == k;
  }

  /** What a completed pass leaves: the synced rows, every one of the tenant's own at rest. */
  lemma FirstPassRests(l: Ledger, w: World, now: Time)
    requires Book(l, now) && InvoiceSync.Honest(w.erp)
    ensures TenantPass(l, w, now).Completed? ==>
              var t, l1 := Synced(l.invoices, w, now).value, TenantPass(l, w, now).ledger;
              && Book(l1, now) && |l1.invoices| == |t|
              && (forall j | 0 <= j < |t| :: l1.invoices[j].erpId == t[j].erpId && l1.invoices[j].tenant == t[j].tenant)
              && (forall j | 0 <= j < |t| && t[j].tenant == w.me :: RowRested(l1, j, w))
  {
    if TenantPass(l, w, now).Completed? {
      SyncedBook(l, w, now);
      InvoiceSync.SyncTenantOutcome(l.invoices, w.me, w.erp, now);
      var t := Synced(l.invoices, w, now).value;
      assert forall k | 0 <= k < |t| :: InvoiceSync.Copied(t[k], w.me, w.erp);
      var m := l.(invoices := t);
      hide Pass, RowRested, Book, InvoiceSync.Copied;
      BillingOrderEnumerates(t, w.me);
      PassAgrees(l, m, BillingOrder(t, w.me), w, now, NOTHING_YET);
      PassRests(l, m, BillingOrder(t, w.me), w, now, NOTHING_YET);
    }
  }

  /** A pass over rows at rest is idle once the copied rows return to rest. */
  lemma PassFromRest(l: Ledger, w: World, up: bool, now: Time)
    requires Book(l, now) && InvoiceSync.Honest(w.erp) && Synced(l.invoices, w, now).Some?
    requires var t := Synced(l.invoices, w, now).value;
             && |t| == |l.invoices|
             && (forall k | 0 <= k < |t| ::
                   if l.invoices[k].tenant == w.me then Returns(t[k], l.invoices[k], w) else t[k] == l.invoices[k])
    requires forall j | 0 <= j < |l.invoices| && l.invoices[j].tenant == w.me :: RowRested(l, j, w)
    ensures var p := TenantPass(l, w.(queueUp := up), now);
            && p.Completed? && Alike(l, p.ledger)
            && p.summary.attemptsUpdated == 0 && p.summary.requeues == 0
            && p.summary.exceptionsOpened == 0 && p.summary.exceptionsResolved == 0
  {
    var w' := w.(queueUp := up);
    var t := Synced(l.invoices, w', now).value;
    assert t == Synced(l.invoices, w, now).value;
    var m := l.(invoices := t);
    SyncedBook(l, w', now);
    var order := BillingOrder(t, w.me);
    BillingOrderEnumerates(t, w.me);
    hide Pass, BillingOrder, RowRested, Synced, Book;
    forall k | 0 <= k < |t|
      ensures if k in order then Returns(t[k], l.invoices[k], w) else SameButPaidAt(l.invoices[k], t[k])
    {
      assert k in order <==> t[k].tenant == w.me;
    }
    ReturningPassIsIdle(l, l, m, order, w, up, now, NOTHING_YET);
  }

  /** A second pass, at any later time, with the same ERP answers and whatever the work queue
      does, completes, changes no tenant, subscription, attempt, exception or job, and reports
      nothing updated, requeued, opened or resolved. The list and the answer about an invoice may
      differ: the copied row is read again before it is judged. */
  lemma SecondPassIsIdle(l: Ledger, w: World, now: Time, later: Time, up: bool)
    requires Book(l, now) && InvoiceSync.Honest(w.erp) && now <= later
    ensures TenantPass(l, w, now).Completed? ==>
              var l1 := TenantPass(l, w, now).ledger;
              var p := TenantPass(l1, w.(queueUp := up), later);
              && p.Completed? && Alike(l1, p.ledger)
              && p.summary.attemptsUpdated == 0 && p.summary.requeues == 0
              && p.summary.exceptionsOpened == 0 && p.summary.exceptionsResolved == 0
  {
    if TenantPass(l, w, now).Completed? {
      var l1 := TenantPass(l, w, now).ledger;
      FirstPassRests(l, w, now);
      assert Synced(l.invoices, w, now).Some?;
      hide TenantPass, FilteredPass, Synced, RowFixed;
      SecondSync(l, l1, w, now, later);
      PassFromRest(l1, w, up, later);
    }
  }

  lemma SecondSync(l: Ledger, l1: Ledger, w: World, now: Time, later: Time)
    requires Book(l, now) && Book(l1, now)
    requires Synced(l.invoices, w, now).Some?
    requires var t := Synced(l.invoices, w, now).value;
             && |l1.invoices| == |t|
             && (forall j | 0 <= j < |t| :: l1.invoices[j].erpId == t[j].erpId && l1.invoices[j].tenant == t[j].tenant)
             && (forall j | 0 <= j < |t| && t[j].tenant == w.me :: RowFixed(l1.invoices[j], w))
    ensures Synced(l1.invoices, w, later).Some?
    ensures var t := Synced(l1.invoices, w, later).value;
            && |t| == |l1.invoices|
            && (forall k | 0 <= k < |t| ::
                  if l1.invoices[k].tenant == w.me then Returns(t[k], l1.invoices[k], w) else t[k] == l1.invoices[k])
  {
    if w.erp.linked {
      var t := Synced(l.invoices, w, now).value;
      var items := w.erp.listed.items;
      forall item | item in items ensures OwnsRow(l1.invoices, w.me, item.reference) {
        var d :| 0 <= d < |items| && items[d] == item;
        var k := ListedHasOwnRow(l.invoices, w.me, items, now, d);
        assert l1.invoices[k].tenant == w.me && l1.invoices[k].erpId == items[d].reference;
      }
      SecondCopy(l1.invoices, w, later);
    }
  }
}
