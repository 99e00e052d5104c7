/** What the payment callbacks do to a tenant's ledger. */
module PaymentWebhooks {
  import opened Common
  import opened Statuses
  import opened Rows
  import opened Ledgers
  import opened Transitions
  import InvoiceSync
  import Lifecycle
  import LifecycleTable
  import Provisioning
  import Reconciliation
  import TenantState

  /** `Raised` carries what the database holds after the rollback. */
  datatype Reply = Done(ledger: Ledger) | Raised(ledger: Ledger)

  predicate LooksSettled(i: Invoice) {
    i.paidAt.Some? || i.status.Paid? || i.status.Closed? || i.status.Settled? || i.due <= 0
  }

  function SettleLocally(i: Invoice, amount: int, now: Time): Invoice {
    i.(due := 0,
       paid := Max(i.paid, i.paid + Max(amount, i.due)),
       status := InvoiceStatus.Paid,
       paidAt := if i.paidAt.None? then Some(now) else i.paidAt)
  }

  predicate AsksErp(i: Invoice, w: World) {
    w.erp.linked && i.erpId != ""
  }

  /** The invoices after a confirmed payment of `amount` on row `i`; `None` where it raises. */
  function SettleInvoice(invoices: seq<Invoice>, i: RowId, amount: int, w: World, now: Time): Option<seq<Invoice>>
    requires i < |invoices|
  {
    if AsksErp(invoices[i], w) then
      var resynced := InvoiceSync.Resync(invoices, i, w.me, w.erp, now);
      if resynced.None? then None
      else
        var (t, row) := resynced.value;
        Some(if LooksSettled(t[row]) then t else t[row := SettleLocally(t[row], amount, now)])
    else Some(invoices[i := SettleLocally(invoices[i], amount, now)])
  }

  function SubscriptionOf(l: Ledger): SubscriptionRow {
    if l.subscription.Some? then l.subscription.value else SubscriptionRow(SubscriptionStatus.Pending, None)
  }

  /** The callback's attempt belongs to an invoice of the table. */
  ghost predicate Backed(l: Ledger, a: RowId) {
    a < |l.attempts| && l.attempts[a].invoice < |l.invoices|
  }

  /** The ledger after the attempt and its invoice are settled. */
  function SettleAttempt(l: Ledger, a: RowId, w: World, now: Time): Option<Ledger>
    requires a < |l.attempts| && l.attempts[a].invoice < |l.invoices|
  {
    var settled := SettleInvoice(l.invoices, l.attempts[a].invoice, l.attempts[a].amount, w, now);
    if settled.None? then None
    else Some(l.(invoices := settled.value,
                 attempts := l.attempts[a := l.attempts[a].(status := AttemptStatus.Paid, updatedAt := now)]))
  }

  /** A tenant that was suspended for billing goes straight back to active. */
  function Unsuspend(before: TenantStatus, confirmed: TenantStatus): TenantStatus {
    if before.SuspendedBilling? then TenantStatus.Active
    else if confirmed.SuspendedBilling? then TenantState.Guarded(confirmed, TenantStatus.Active)
    else confirmed
  }

  /** Everything a confirmation commits before it turns to provisioning. */
  function Confirmed(l: Ledger, a: Option<RowId>, w: World, now: Time): Option<Ledger>
    requires a.Some? ==> a.value < |l.attempts| && l.attempts[a.value].invoice < |l.invoices|
  {
    if !w.ownerExists then None
    else
      var settled := if a.Some? then SettleAttempt(l, a.value, w, now) else Some(l);
      if settled.None? then None
      else
        var c := Confirm(Standing(l.tenant, SubscriptionOf(l)));
        if c.None? then None
        else Some(settled.value.(tenant := Unsuspend(l.tenant, c.value.tenant),
                                 subscription := Some(c.value.subscription)))
  }

  function HandleConfirmed(l: Ledger, a: Option<RowId>, w: World, now: Time): Reply
    requires a.Some? ==> a.value < |l.attempts| && l.attempts[a.value].invoice < |l.invoices|
  {
    var committed := Confirmed(l, a, w, now);
    if committed.None? then Raised(l)
    else
      var c := committed.value;
      match Provisioning.Enqueue(c.jobs, c.queue, w.queueUp)
      case Returned(jobs, queue, _, _) => Done(c.(jobs := jobs, queue := queue))
      case Raised(jobs, queue) => Raised(c.(jobs := jobs, queue := queue))
  }

  function HandleFailed(l: Ledger, a: Option<RowId>, now: Time): Reply
    requires a.Some? ==> a.value < |l.attempts|
  {
    var f := Fail(Standing(l.tenant, SubscriptionOf(l)));
    if f.None? then Raised(l)
    else
      Done(l.(tenant := f.value.tenant, subscription := Some(f.value.subscription),
              attempts := Reconciliation.MarkLatest(l.attempts, a, AttemptStatus.Failed, now)))
  }

  function HandleCancelled(l: Ledger): Reply {
    var c := Cancel(Standing(l.tenant, SubscriptionOf(l)));
    if c.None? then Raised(l)
    else Done(l.(tenant := c.value.tenant, subscription := Some(c.value.subscription)))
  }

  // ----- What a confirmation leaves -----

  lemma SettledInvoiceShape(invoices: seq<Invoice>, i: RowId, amount: int, w: World, now: Time)
    requires InvoiceSync.Keyed(invoices) && InvoiceSync.Honest(w.erp) && i < |invoices|
    ensures SettleInvoice(invoices, i, amount, w, now).Some? <==> InvoiceSync.Readable(invoices[i], w.erp)
    ensures SettleInvoice(invoices, i, amount, w, now).Some? ==>
              var t := SettleInvoice(invoices, i, amount, w, now).value;
              var seen := InvoiceSync.Reread(invoices[i], w.me, w.erp, now);
              && InvoiceSync.Keyed(t)
              && t == invoices[i := if w.erp.linked && LooksSettled(seen) then seen
                                    else SettleLocally(seen, amount, now)]
  {
    InvoiceSync.ResyncOutcome(invoices, i, w.me, w.erp, now);
    var seen := InvoiceSync.Reread(invoices[i], w.me, w.erp, now);
    if InvoiceSync.Readable(invoices[i], w.erp) {
      assert invoices[i := seen][i := SettleLocally(seen, amount, now)] == invoices[i := SettleLocally(seen, amount, now)];
      assert InvoiceSync.Keyed(invoices[i := SettleLocally(seen, amount, now)]);
    }
  }

  /** An invoice settled locally owes nothing and has been paid its old total plus the larger of
      the attempt's amount and the old debt, which is never taken off it. */
  lemma LocalSettlement(i: Invoice, amount: int, now: Time)
    ensures var s := SettleLocally(i, amount, now);
            && s.due == 0 && s.status.Paid? && s.paidAt.Some?
            && s.paid == i.paid + Max(0, Max(amount, i.due))
            && s.paid >= i.paid + i.due
  {
  }

  lemma StandingAfterConfirmation(l: Ledger, a: Option<RowId>, w: World, now: Time)
    requires TenantState.Tabled(l.tenant)
    requires a.Some? ==> Backed(l, a.value)
    requires Confirmed(l, a, w, now).Some?
    ensures var c := Confirmed(l, a, w, now).value;
            && c.subscription.Some? && c.subscription.value.status.Active?
            && c.tenant == (if l.tenant.SuspendedBilling? then TenantStatus.Active
                            else if l.tenant.PendingPayment? then TenantStatus.Pending else l.tenant)
            && TenantState.Tabled(c.tenant)
  {
    ConfirmedTenant(Standing(l.tenant, SubscriptionOf(l)));
  }

  lemma CommittedBook(l: Ledger, a: RowId, w: World, now: Time)
    requires Reconciliation.Book(l, now) && InvoiceSync.Honest(w.erp) && Backed(l, a)
    requires Confirmed(l, Some(a), w, now).Some?
    ensures Reconciliation.Book(Confirmed(l, Some(a), w, now).value, now)
  {
    SettledInvoiceShape(l.invoices, l.attempts[a].invoice, l.attempts[a].amount, w, now);
    StandingAfterConfirmation(l, Some(a), w, now);
  }

  lemma PaidIsConfirmed(tenant: TenantStatus, status: InvoiceStatus)
    requires !tenant.PendingPayment? && !tenant.SuspendedBilling?
    ensures var s := Lifecycle.Evaluate(tenant, SubscriptionStatus.Active, status, AttemptStatus.Paid);
            s.billingState.Paid? && s.paymentConfirmed && s.provisioningAllowed && !s.billingBlocked
  {
  }

  /** Settling an invoice locally does not change which invoice is the latest. */
  lemma SettlingKeepsLatest(invoices: seq<Invoice>, i: RowId, seen: Invoice, amount: int, now: Time, me: TenantId)
    requires i < |invoices|
    ensures LatestInvoice(invoices[i := SettleLocally(seen, amount, now)], me) == LatestInvoice(invoices[i := seen], me)
  {
    assert InvoiceKeys(invoices[i := SettleLocally(seen, amount, now)], me) == InvoiceKeys(invoices[i := seen], me);
  }

  lemma ConfirmedLatest(l: Ledger, i: RowId, amount: int, w: World, now: Time)
    requires InvoiceSync.Keyed(l.invoices) && InvoiceSync.Honest(w.erp) && i < |l.invoices|
    requires SettleInvoice(l.invoices, i, amount, w, now).Some?
    ensures LatestInvoice(SettleInvoice(l.invoices, i, amount, w, now).value, w.me)
            == LatestInvoice(l.invoices[i := InvoiceSync.Reread(l.invoices[i], w.me, w.erp, now)], w.me)
  {
    SettledInvoiceShape(l.invoices, i, amount, w, now);
    SettlingKeepsLatest(l.invoices, i, InvoiceSync.Reread(l.invoices[i], w.me, w.erp, now), amount, now, w.me);
  }

  /** Once a confirmation on an attempt of the tenant's latest invoice is committed, even if the
      work queue then refuses the job, resolving the lifecycle from the stored records confirms the
      payment, allows provisioning and does not block, from whatever status the tenant started and
      at every later time. The invoice counts as the latest with the due date the ERP gives it when
      it is read again. */
  lemma ConfirmedEndToEnd(l: Ledger, a: RowId, w: World, now: Time, later: Time, grace: Time)
    requires Reconciliation.Book(l, now) && InvoiceSync.Honest(w.erp) && Backed(l, a)
    requires forall k | 0 <= k < |l.attempts| :: l.attempts[k].updatedAt < now
    requires Confirmed(l, Some(a), w, now).Some?
    requires var i := l.attempts[a].invoice;
             LatestInvoice(l.invoices[i := InvoiceSync.Reread(l.invoices[i], w.me, w.erp, now)], w.me) == Some(i)
    ensures var l' := HandleConfirmed(l, Some(a), w, now).ledger;
            var s := Lifecycle.Resolve(w.me, l'.tenant, l'.subscription.value.status, l'.invoices, l'.attempts, later, grace);
            && s.billingState.Paid? && s.paymentConfirmed && s.provisioningAllowed && !s.billingBlocked
            && s.latestAttempt == Some(a)
  {
    var l' := HandleConfirmed(l, Some(a), w, now).ledger;
    StandingAfterConfirmation(l, Some(a), w, now);
    ConfirmedLatest(l, l.attempts[a].invoice, l.attempts[a].amount, w, now);
    FreshestIsLatest(l'.attempts, a);
    assert LatestAttempt(l'.attempts, l.attempts[a].invoice) == Some(a);
    Lifecycle.StoredStatusIsSeen(SubscriptionStatus.Active);
    var r := Lifecycle.ResolveInvoice(l'.invoices[l.attempts[a].invoice], AttemptStatus.Paid, later, grace);
    PaidIsConfirmed(l'.tenant, r.status);
  }

  /** For a tenant that is not linked to the ERP that is its latest invoice as stored. */
  lemma ConfirmedEndToEndUnlinked(l: Ledger, a: RowId, w: World, now: Time, later: Time, grace: Time)
    requires Reconciliation.Book(l, now) && !w.erp.linked && Backed(l, a)
    requires forall k | 0 <= k < |l.attempts| :: l.attempts[k].updatedAt < now
    requires w.ownerExists && !SubscriptionOf(l).status.Cancelled?
    requires LatestInvoice(l.invoices, w.me) == Some(l.attempts[a].invoice)
    ensures var l' := HandleConfirmed(l, Some(a), w, now).ledger;
            && l'.subscription.Some?
            && var s := Lifecycle.Resolve(w.me, l'.tenant, l'.subscription.value.status, l'.invoices, l'.attempts, later, grace);
               s.billingState.Paid? && s.paymentConfirmed && s.provisioningAllowed && !s.billingBlocked
  {
    var i := l.attempts[a].invoice;
    var offline := w.(erp := w.erp.(lookup := _ => InvoiceSync.NoMatch));
    assert l.invoices[i := l.invoices[i]] == l.invoices;
    ErpIsNotAsked(l, a, w, offline, now);
    ConfirmationRaises(Standing(l.tenant, SubscriptionOf(l)), false);
    StandingAfterConfirmation(l, Some(a), offline, now);
    hide HandleConfirmed, Confirmed;
    ConfirmedEndToEnd(l, a, offline, now, later, grace);
  }

  lemma ErpIsNotAsked(l: Ledger, a: RowId, w: World, v: World, now: Time)
    requires Backed(l, a) && !w.erp.linked && v == w.(erp := v.erp) && !v.erp.linked
    ensures Confirmed(l, Some(a), w, now) == Confirmed(l, Some(a), v, now)
    ensures HandleConfirmed(l, Some(a), w, now) == HandleConfirmed(l, Some(a), v, now)
    ensures w.ownerExists && Confirm(Standing(l.tenant, SubscriptionOf(l))).Some? ==> Confirmed(l, Some(a), w, now).Some?
    ensures Confirmed(l, Some(a), w, now).Some? ==> HandleConfirmed(l, Some(a), w, now).ledger.subscription.Some?
  {
  }

  // ----- Another invoice is the latest -----

  /** With an active subscription the invoice does not stand in the way: its attempt is paid, or it
      is not cancelled and is paid, or else has no attempt under way or come to nothing and is not
      beyond its grace period. */
  predicate StandsClear(x: Invoice, attempt: AttemptStatus, now: Time, grace: Time) {
    attempt.Paid?
    || (!LifecycleTable.Withdrawn(x)
        && (LifecycleTable.PaidInFull(x)
            || (!LifecycleTable.UnderWay(attempt) && !LifecycleTable.CameToNothing(attempt)
                && if x.dueDate.Some? && x.dueDate.value <= now then now <= x.dueDate.value + grace else !x.status.Suspended?)))
  }

  lemma ActiveIsConfirmedWhen(tenant: TenantStatus, x: Invoice, attempt: AttemptStatus, now: Time, grace: Time)
    requires !tenant.PendingPayment? && !tenant.SuspendedBilling?
    ensures var s := Lifecycle.Judge(tenant, SubscriptionStatus.Active, x, attempt, now, grace);
            && (s.paymentConfirmed <==> StandsClear(x, attempt, now, grace))
            && s.provisioningAllowed == s.paymentConfirmed && s.billingBlocked == !s.paymentConfirmed
  {
  }

  /** If another of the tenant's invoices is the latest, be it that the ERP has put an earlier due
      date on the one paid, the committed confirmation is seen exactly if that other invoice, as
      stored and with its own latest attempt, stands clear. */
  lemma ConfirmedBesideLatest(l: Ledger, a: RowId, w: World, now: Time, later: Time, grace: Time, j: RowId)
    requires Reconciliation.Book(l, now) && InvoiceSync.Honest(w.erp) && Backed(l, a)
    requires Confirmed(l, Some(a), w, now).Some? && j != l.attempts[a].invoice
    requires var i := l.attempts[a].invoice;
             LatestInvoice(l.invoices[i := InvoiceSync.Reread(l.invoices[i], w.me, w.erp, now)], w.me) == Some(j)
    ensures var l' := HandleConfirmed(l, Some(a), w, now).ledger;
            && j < |l.invoices| && l'.subscription.Some?
            && var s := Lifecycle.Resolve(w.me, l'.tenant, l'.subscription.value.status, l'.invoices, l'.attempts, later, grace);
               var attempt := Lifecycle.AttemptStatusOf(l.attempts, LatestAttempt(l.attempts, j));
               && (s.paymentConfirmed <==> StandsClear(l.invoices[j], attempt, later, grace))
               && s.provisioningAllowed == s.paymentConfirmed && s.billingBlocked == !s.paymentConfirmed
  {
    var i, l' := l.attempts[a].invoice, HandleConfirmed(l, Some(a), w, now).ledger;
    StandingAfterConfirmation(l, Some(a), w, now);
    SettledInvoiceShape(l.invoices, i, l.attempts[a].amount, w, now);
    ConfirmedLatest(l, i, l.attempts[a].amount, w, now);
    OtherInvoiceUnaffected(l.attempts, a, l.attempts[a].(status := AttemptStatus.Paid, updatedAt := now), j);
    Lifecycle.StoredStatusIsSeen(SubscriptionStatus.Active);
    ActiveIsConfirmedWhen(l'.tenant, l.invoices[j],
                          Lifecycle.AttemptStatusOf(l.attempts, LatestAttempt(l.attempts, j)), later, grace);
    hide LatestAttempt, LatestInvoice, Lifecycle.Judge, StandsClear, SettleInvoice, Provisioning.Enqueue, Confirm;
  }

  /** Two unpaid invoices: the attempt is on the one that is due later, until it is read again. */
  function Redated(): Ledger {
    Ledger(TenantStatus.Active, Some(SubscriptionRow(SubscriptionStatus.PastDue, None)),
           [Invoice(7, "A", "A", InvoiceStatus.PaymentPending, 500, 0, Some(200), None, 1, None),
            Invoice(7, "B", "B", InvoiceStatus.PaymentPending, 500, 0, Some(100), None, 1, None)],
           [Attempt(0, AttemptStatus.CheckoutStarted, 500, "azampay", "session", 10, 10)], [], [], [])
  }

  function RedatingWorld(): World {
    var item := InvoiceSync.ErpItem("A", InvoiceSync.Overdue, Some(5.0), Some(5.0), None, Some(50), None, InvoiceSync.NotGiven);
    World(7, InvoiceSync.Erp(true, InvoiceSync.Listed([]), name => if name == "A" then InvoiceSync.Found(item) else InvoiceSync.NoMatch),
          true, true, true)
  }

  lemma RedatedLatest()
    ensures var l, w := Redated(), RedatingWorld();
            && LatestInvoice(l.invoices, 7) == Some(0)
            && LatestInvoice(l.invoices[0 := InvoiceSync.Reread(l.invoices[0], 7, w.erp, 300)], 7) == Some(1)
  {
    var l, w := Redated(), RedatingWorld();
    var again := l.invoices[0 := InvoiceSync.Reread(l.invoices[0], 7, w.erp, 300)];
    assert IsFirstMax(InvoiceKeys(l.invoices, 7), 0);
    FirstMaxUnique(InvoiceKeys(l.invoices, 7), 0);
    assert IsFirstMax(InvoiceKeys(again, 7), 1);
    FirstMaxUnique(InvoiceKeys(again, 7), 1);
  }

  lemma RedatedIsSound()
    ensures var l, w := Redated(), RedatingWorld();
            && Reconciliation.Book(l, 300) && InvoiceSync.Honest(w.erp) && Backed(l, 0)
            && InvoiceSync.Readable(l.invoices[0], w.erp) && Confirm(Standing(l.tenant, SubscriptionOf(l))).Some?
  {
    assert "A"[0] != "B"[0];
  }

  /** The customer has paid the latest invoice, and the confirmation succeeds; but reading the
      invoice again moves its due date before the other one's, which is overdue beyond grace, and the
      tenant stays blocked. */
  lemma RedatedStaysBlocked()
    ensures var l, w := Redated(), RedatingWorld();
            var l' := HandleConfirmed(l, Some(0), w, 300).ledger;
            && LatestInvoice(l.invoices, w.me) == Some(l.attempts[0].invoice)
            && HandleConfirmed(l, Some(0), w, 300).Done? && l'.subscription.Some?
            && var s := Lifecycle.Resolve(w.me, l'.tenant, l'.subscription.value.status, l'.invoices, l'.attempts, 1000, 10);
               !s.paymentConfirmed && !s.provisioningAllowed && s.billingBlocked
  {
    var l, w := Redated(), RedatingWorld();
    RedatedLatest();
    RedatedIsSound();
    hide LatestInvoice, LatestAttempt, Confirm, Lifecycle.Resolve, InvoiceSync.Reread, InvoiceSync.Readable, Reconciliation.Book,
         InvoiceSync.Honest, SettleInvoice;
    SettledInvoiceShape(l.invoices, 0, 500, w, 300);
    assert Confirmed(l, Some(0), w, 300).Some?;
    OtherAttempts();
    ConfirmedBesideLatest(l, 0, w, 300, 1000, 10, 1);
  }

  lemma OtherAttempts()
    ensures LatestAttempt(Redated().attempts, 1) == None
  {
  }

  // ----- Confirming twice -----

  /** Equal but for payment and update times and for the amount paid on invoice `i`. */
  ghost predicate SameButTotals(x: Ledger, y: Ledger, i: RowId) {
    && x.tenant == y.tenant && x.subscription == y.subscription
    && x.exceptions == y.exceptions
    && |x.attempts| == |y.attempts|
    && (forall k | 0 <= k < |x.attempts| :: y.attempts[k] == x.attempts[k].(updatedAt := y.attempts[k].updatedAt))
    && |x.invoices| == |y.invoices|
    && (forall k | 0 <= k < |x.invoices| && k != i :: y.invoices[k] == x.invoices[k])
    && (i < |x.invoices| ==> y.invoices[i] == x.invoices[i].(paid := y.invoices[i].paid, paidAt := y.invoices[i].paidAt))
  }

  /** Serving a confirmation again on what its first serving committed, as a redelivery after a
      queue outage does, repeats no status change. It counts the money again exactly when the
      tenant is not linked to the ERP and the attempt has a positive amount: local settlement,
      unlike the path through the ERP, does not look whether the invoice is settled already. */
  lemma ConfirmingTwice(l: Ledger, a: RowId, w: World, now: Time, later: Time)
    requires Reconciliation.Book(l, now) && InvoiceSync.Honest(w.erp) && Backed(l, a)
    requires Confirmed(l, Some(a), w, now).Some?
    ensures var once := Confirmed(l, Some(a), w, now).value;
            var twice := Confirmed(once, Some(a), w, later);
            var i := l.attempts[a].invoice;
            && twice.Some?
            && SameButTotals(once, twice.value, i)
            && twice.value.jobs == once.jobs && twice.value.queue == once.queue
            && (twice.value.invoices[i].paid == once.invoices[i].paid <==> w.erp.linked || l.attempts[a].amount <= 0)
            && (!w.erp.linked ==> twice.value.invoices[i].paid == once.invoices[i].paid + Max(0, l.attempts[a].amount))
  {
    var i := l.attempts[a].invoice;
    var amount := l.attempts[a].amount;
    var once := Confirmed(l, Some(a), w, now).value;
    SettledInvoiceShape(l.invoices, i, amount, w, now);
    StandingAfterConfirmation(l, Some(a), w, now);
    CommittedBook(l, a, w, now);
    SettledInvoiceShape(once.invoices, i, amount, w, later);
    var c := Confirm(Standing(once.tenant, once.subscription.value));
    ConfirmedTenant(Standing(once.tenant, once.subscription.value));
    SecondReading(l.invoices[i], amount, w, now, later);
  }

  /** What the invoice row looks like the second time. */
  lemma SecondReading(row: Invoice, amount: int, w: World, now: Time, later: Time)
    requires InvoiceSync.Honest(w.erp) && row.erpId == row.number != "" && InvoiceSync.Readable(row, w.erp)
    ensures var first := InvoiceSync.Reread(row, w.me, w.erp, now);
            var once := if w.erp.linked && LooksSettled(first) then first else SettleLocally(first, amount, now);
            var second := InvoiceSync.Reread(once, w.me, w.erp, later);
            var twice := if w.erp.linked && LooksSettled(second) then second else SettleLocally(second, amount, later);
            && InvoiceSync.Readable(once, w.erp)
            && twice == once.(paid := twice.paid, paidAt := twice.paidAt)
            && twice.paid == once.paid + if w.erp.linked then 0 else Max(0, amount)
  {
    var first := InvoiceSync.Reread(row, w.me, w.erp, now);
    var once := if w.erp.linked && LooksSettled(first) then first else SettleLocally(first, amount, now);
    assert InvoiceSync.ReferenceOf(once) == InvoiceSync.ReferenceOf(row);
  }

  /** A confirmation whose hand-over is refused by the queue, delivered again once the queue is
      back: one job is handed over, as if the queue had been up, and only the total paid can
      differ. */
  lemma OutageThenRedelivery(l: Ledger, a: RowId, w: World, now: Time, later: Time)
    requires Reconciliation.Book(l, now) && InvoiceSync.Honest(w.erp) && Backed(l, a)
    requires var down := HandleConfirmed(l, Some(a), w.(queueUp := false), now);
             down.Raised? && Confirmed(l, Some(a), w, now).Some?
    ensures var down := HandleConfirmed(l, Some(a), w.(queueUp := false), now);
            var retried := HandleConfirmed(down.ledger, Some(a), w.(queueUp := true), later);
            var direct := HandleConfirmed(l, Some(a), w.(queueUp := true), now);
            && direct.Done? && retried.Done?
            && SameButTotals(direct.ledger, retried.ledger, l.attempts[a].invoice)
            && retried.ledger.jobs == direct.ledger.jobs && retried.ledger.queue == direct.ledger.queue
  {
    var once := Confirmed(l, Some(a), w, now).value;
    QueueIsNotReadEarlier(l, a, w, now);
    var down := HandleConfirmed(l, Some(a), w.(queueUp := false), now);
    var h := Provisioning.Enqueue(once.jobs, once.queue, false);
    var again := once.(jobs := h.jobs, queue := h.queue);
    assert down.ledger == again;
    ConfirmingTwice(l, a, w, now, later);
    JobsAreNotRead(once, h.jobs, h.queue, a, w, later);
    QueueIsNotReadEarlier(again, a, w, later);
    Provisioning.OutageThenRetry(once.jobs, once.queue);
    Provisioning.EnqueuePromise(once.jobs, once.queue, true);
  }

  lemma QueueIsNotReadEarlier(l: Ledger, a: RowId, w: World, now: Time)
    requires Backed(l, a)
    ensures forall up :: Confirmed(l, Some(a), w.(queueUp := up), now) == Confirmed(l, Some(a), w, now)
  {
  }

  lemma JobsAreNotRead(l: Ledger, jobs: seq<Provisioning.Job>, queue: seq<RowId>, a: RowId, w: World, now: Time)
    requires Backed(l, a)
    ensures Confirmed(l.(jobs := jobs, queue := queue), Some(a), w, now)
         == if Confirmed(l, Some(a), w, now).None? then None
            else Some(Confirmed(l, Some(a), w, now).value.(jobs := jobs, queue := queue))
  {
  }
}
