/** What the counters of a reconciliation pass count, in terms of the records before it and the
    ERP's answers. */
module PassCounters {
  import opened Common
  import opened Rows
  import opened Ledgers
  import opened Reconciliation
  import opened LedgerAgreement
  import opened ReconciliationOutcome
  import InvoiceSync

  ghost predicate InTable(order: seq<RowId>, invoices: seq<Invoice>) {
    forall a | 0 <= a < |order| :: order[a] < |invoices|
  }

  /** The listed invoices that are settled. */
  function SettledMarks(l: Ledger, order: seq<RowId>, w: World): (marks: seq<bool>)
    requires InTable(order, l.invoices)
    ensures |marks| == |order|
  {
    seq(|order|, a requires 0 <= a < |order| => SettledOutside(l.invoices[order[a]], w))
  }

  predicate Unmarked(l: Ledger, i: RowId) {
    LatestAttempt(l.attempts, i).Some? && !LatestIsPaid(l.attempts, i)
  }

  /** Those of them with a newest attempt that is not yet marked paid. */
  function UpdateMarks(l: Ledger, order: seq<RowId>, w: World): (marks: seq<bool>)
    requires InTable(order, l.invoices)
    ensures |marks| == |order|
  {
    seq(|order|, a requires 0 <= a < |order| => SettledOutside(l.invoices[order[a]], w) && Unmarked(l, order[a]))
  }

  predicate NewMismatch(l: Ledger, i: RowId) {
    LatestIsPaid(l.attempts, i) && !HasOpen(l.exceptions, i, LatestAttempt(l.attempts, i), ErpMismatch)
  }

  /** The settled ones, and the open ones with a paid attempt and no mismatch on file. */
  function ActedMarks(l: Ledger, order: seq<RowId>, w: World): (marks: seq<bool>)
    requires InTable(order, l.invoices)
    ensures |marks| == |order|
  {
    seq(|order|, a requires 0 <= a < |order| => SettledOutside(l.invoices[order[a]], w) || NewMismatch(l, order[a]))
  }

  /** What one invoice adds to the counters. */
  lemma StepCounts(start: Ledger, l: Ledger, i: RowId, w: World, now: Time)
    requires Book(l, now) && InvoiceSync.Honest(w.erp) && i < |l.invoices|
    requires ReconcileInvoice(start, l, i, w, now).Done?
    ensures var o := ReconcileInvoice(start, l, i, w, now);
            var settled := SettledOutside(l.invoices[i], w);
            && o.report.settled == settled
            && o.report.restored == (settled && l.subscription.Some?)
            && o.report.attemptUpdated == (settled && Unmarked(l, i))
            && (o.report.settled || o.report.exceptionsOpened > 0 || o.report.exceptionsResolved > 0
                <==> settled || NewMismatch(l, i))
            && |o.ledger.queue| == |l.queue| + One(o.report.requeued)
            && (o.ledger.subscription.Some? <==> l.subscription.Some?)
  {
    StepCompletes(start, l, i, w, now);
    SettledAsRead(l.invoices[i], w, now);
    if SettledOutside(l.invoices[i], w) {
      SettledInvoiceLeaves(start, l, i, w, now);
    } else {
      OpenInvoiceLeaves(start, l, i, w, now);
    }
    hide ReconcileInvoice, LatestAttempt, SettledOutside, InvoiceSync.Honest, Book, OnlyReread, Resolved, NewestPaid,
         InvoiceSync.Reread, InvoiceSettled;
  }

  /** The mismatches on file for other invoices are as they were. */
  lemma OtherMismatches(start: Ledger, l: Ledger, i: RowId, w: World, now: Time, j: RowId, a: Option<RowId>)
    requires Book(l, now) && InvoiceSync.Honest(w.erp) && i < |l.invoices| && j != i
    requires ReconcileInvoice(start, l, i, w, now).Done?
    ensures HasOpen(ReconcileInvoice(start, l, i, w, now).ledger.exceptions, j, a, ErpMismatch)
            <==> HasOpen(l.exceptions, j, a, ErpMismatch)
  {
    ReadingAgain(start, l, i, w, now);
    RowSparesOthers(start, Refreshed(l, i, w, now), i, w, now, BillingException(j, a, ErpMismatch, true));
    hide ReconcileInvoice;
  }

  lemma RowSparesOthers(start: Ledger, l: Ledger, i: RowId, w: World, now: Time, x: BillingException)
    requires i < |l.invoices| && x.invoice != i && ReconcileRow(start, l, i, w, now).Done?
    ensures x in ReconcileRow(start, l, i, w, now).ledger.exceptions <==> x in l.exceptions
  {
    var ys := ResolveExceptions(l.exceptions, i);
    assert x in ys <==> x in l.exceptions by {
      assert forall k | 0 <= k < |ys| :: ys[k] == x <==> l.exceptions[k] == x;
    }
    hide LatestAttempt, ResolveExceptions;
  }

  /** The remaining invoices are marked after one invoice as they were before it. */
  lemma MarksStay(start: Ledger, l: Ledger, order: seq<RowId>, w: World, now: Time)
    requires Book(l, now) && InvoiceSync.Honest(w.erp) && Listing(order, l.invoices, w.me) && order != []
    requires ReconcileInvoice(start, l, order[0], w, now).Done?
    ensures var l' := ReconcileInvoice(start, l, order[0], w, now).ledger;
            && Listing(order[1..], l'.invoices, w.me)
            && SettledMarks(l', order[1..], w) == SettledMarks(l, order, w)[1..]
            && UpdateMarks(l', order[1..], w) == UpdateMarks(l, order, w)[1..]
            && ActedMarks(l', order[1..], w) == ActedMarks(l, order, w)[1..]
  {
    hide ReconcileInvoice, Book, InvoiceSync.Honest, SettledOutside, Unmarked, NewMismatch, Agreed, Undisturbed;
    var l' := ReconcileInvoice(start, l, order[0], w, now).ledger;
    StepAgrees(start, l, order[0], w, now);
    forall a | 0 <= a < |order[1..]|
      ensures var j := order[1..][a];
              && j < |l'.invoices| && l'.invoices[j] == l.invoices[j]
              && (Unmarked(l', j) <==> Unmarked(l, j)) && (NewMismatch(l', j) <==> NewMismatch(l, j))
    {
      var j := order[1..][a];
      assert j == order[a + 1] && j != order[0];
      OtherMarks(start, l, order[0], w, now, j);
    }
  }

  lemma OtherMarks(start: Ledger, l: Ledger, i: RowId, w: World, now: Time, j: RowId)
    requires Book(l, now) && InvoiceSync.Honest(w.erp)
    requires i < |l.invoices| && l.invoices[i].tenant == w.me && j < |l.invoices| && j != i
    requires ReconcileInvoice(start, l, i, w, now).Done?
    ensures var l' := ReconcileInvoice(start, l, i, w, now).ledger;
            && j < |l'.invoices| && l'.invoices[j] == l.invoices[j]
            && (Unmarked(l', j) <==> Unmarked(l, j)) && (NewMismatch(l', j) <==> NewMismatch(l, j))
  {
    StepAgrees(start, l, i, w, now);
    assert Undisturbed(l, ReconcileInvoice(start, l, i, w, now).ledger, j);
    OtherMismatches(start, l, i, w, now, j, LatestAttempt(l.attempts, j));
    hide ReconcileInvoice, Book, InvoiceSync.Honest, LatestAttempt, LatestIsPaid, HasOpen, Agreed;
  }

  /** The counters of a pass that completes: the invoices visited, those found settled, those acted on,
      the attempts newly marked paid, the repairs, and the jobs newly in the queue. */
  lemma {:induction false} PassCounts(start: Ledger, l: Ledger, order: seq<RowId>, w: World, now: Time, s: Summary)
    requires Book(l, now) && InvoiceSync.Honest(w.erp) && Listing(order, l.invoices, w.me)
    requires Pass(start, l, order, w, now, s).Completed?
    ensures var p := Pass(start, l, order, w, now, s);
            && p.summary.inspected == s.inspected + |order|
            && p.summary.settled == s.settled + Count(SettledMarks(l, order, w))
            && p.summary.reconciled == s.reconciled + Count(ActedMarks(l, order, w))
            && p.summary.attemptsUpdated == s.attemptsUpdated + Count(UpdateMarks(l, order, w))
            && p.summary.repairs == s.repairs + (if l.subscription.Some? then Count(SettledMarks(l, order, w)) else 0)
            && p.summary.requeues + |l.queue| == s.requeues + |p.ledger.queue|
    decreases |order|
  {
    if order != [] {
      var o := ReconcileInvoice(start, l, order[0], w, now);
      StepCounts(start, l, order[0], w, now);
      MarksStay(start, l, order, w, now);
      StepAgrees(start, l, order[0], w, now);
      hide ReconcileInvoice, Book, InvoiceSync.Honest, SettledOutside, Unmarked, NewMismatch, Listing, Agreed, Undisturbed;
      PassCounts(o.ledger, o.ledger, order[1..], w, now, Tally(s, o.report));
    }
  }

  /** The report of a tenant's pass: how many invoices it has, how many of them the ERP holds settled,
      how many newest attempts that marks paid, and how many jobs went to the queue. */
  lemma TenantReport(l: Ledger, only: Option<RowId>, w: World, now: Time)
    requires Book(l, now) && InvoiceSync.Honest(w.erp) && FilteredPass(l, only, w, now).Completed?
    ensures var p, m := FilteredPass(l, only, w, now), l.(invoices := Synced(l.invoices, w, now).value);
            var order := Visited(m.invoices, w.me, only);
            && InTable(order, m.invoices)
            && p.summary.inspected == |order|
            && p.summary.settled == Count(SettledMarks(m, order, w))
            && p.summary.reconciled == Count(ActedMarks(m, order, w))
            && p.summary.attemptsUpdated == Count(UpdateMarks(m, order, w))
            && p.summary.repairs == (if l.subscription.Some? then p.summary.settled else 0)
            && p.summary.requeues == |p.ledger.queue| - |l.queue|
  {
    SyncedBook(l, w, now);
    var m := l.(invoices := Synced(l.invoices, w, now).value);
    var order := Visited(m.invoices, w.me, only);
    VisitedIsListing(m.invoices, w.me, only);
    PassCounts(l, m, order, w, now, NOTHING_YET);
    hide Pass, Visited, Synced, SettledMarks, UpdateMarks, ActedMarks, Book;
  }
}
