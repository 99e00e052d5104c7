/** What each kind of gateway callback leaves in the stored records, when it raises, and what the
    lifecycle then says of the tenant. */
module CallbackOutcomes {
  import opened Common
  import opened Statuses
  import opened Rows
  import opened Ledgers
  import opened Transitions
  import opened BillingOutbox
  import opened Outbox
  import InvoiceSync
  import Lifecycle
  import LifecycleTable
  import PaymentAttempts
  import PaymentWebhooks
  import Provisioning
  import Reconciliation
  import TenantState

  // ----- The attempt a callback is about -----

  /** The newest of the marked attempts: the last updated, of those the last created, of those the
      first stored. */
  ghost predicate NewestOf(attempts: seq<Attempt>, marked: seq<bool>, a: RowId) {
    && a < |attempts| == |marked| && marked[a]
    && (forall k | 0 <= k < |attempts| && marked[k] && k != a ::
          || attempts[k].updatedAt < attempts[a].updatedAt
          || (attempts[k].updatedAt == attempts[a].updatedAt
              && (attempts[k].createdAt < attempts[a].createdAt
                  || (attempts[k].createdAt == attempts[a].createdAt && a < k))))
  }

  /** The attempts a callback names by one of its references. */
  function Named(attempts: seq<Attempt>, provider: string, references: seq<string>): (marked: seq<bool>)
    ensures |marked| == |attempts|
  {
    seq(|attempts|, k requires 0 <= k < |attempts| =>
      (provider == "" || attempts[k].provider == provider)
      && attempts[k].reference != "" && attempts[k].reference in references)
  }

  /** The provider's attempts the customer may still complete. */
  function Completable(attempts: seq<Attempt>, provider: string): (marked: seq<bool>)
    ensures |marked| == |attempts|
  {
    seq(|attempts|, k requires 0 <= k < |attempts| =>
      (provider == "" || attempts[k].provider == provider)
      && (attempts[k].status.Created? || attempts[k].status.CheckoutStarted?
          || attempts[k].status.PendingProviderConfirmation? || attempts[k].status.SettlementPending?))
  }

  function Any(attempts: seq<Attempt>, provider: string): (marked: seq<bool>)
    ensures |marked| == |attempts|
  {
    seq(|attempts|, k requires 0 <= k < |attempts| => provider == "" || attempts[k].provider == provider)
  }

  lemma NewestByKeys(attempts: seq<Attempt>, marked: seq<bool>, keys: seq<Option<Key>>)
    requires |keys| == |attempts| == |marked|
    requires forall k | 0 <= k < |keys| :: keys[k] == if marked[k] then Some(AttemptKey(attempts[k])) else None
    ensures FirstMax(keys).None? <==> true !in marked
    ensures FirstMax(keys).Some? ==> NewestOf(attempts, marked, FirstMax(keys).value)
  {
    if FirstMax(keys).None? {
      assert forall k | 0 <= k < |keys| :: !marked[k];
    } else {
      var a := FirstMax(keys).value;
      assert marked[a];
      forall k | 0 <= k < |attempts| && marked[k] && k != a
        ensures !Less(AttemptKey(attempts[a]), AttemptKey(attempts[k]))
        ensures k < a ==> Less(AttemptKey(attempts[k]), AttemptKey(attempts[a]))
      {
        assert keys[k].Some?;
      }
    }
  }

  /** A callback is about the newest attempt it names; if it names none, about the provider's newest
      that can still be completed; if there is none, about the provider's newest. */
  lemma ChosenAttempt(attempts: seq<Attempt>, provider: string, references: seq<string>)
    ensures var a := PaymentAttempts.ResolveAttempt(attempts, provider, references, true);
            var named, open, any := Named(attempts, provider, references), Completable(attempts, provider), Any(attempts, provider);
            && (a.None? <==> true !in any)
            && (a.Some? ==>
                  NewestOf(attempts, if true in named then named else if true in open then open else any, a.value))
    ensures var a := PaymentAttempts.ResolveAttempt(attempts, provider, references, false);
            var named := Named(attempts, provider, references);
            (a.None? <==> true !in named) && (a.Some? ==> NewestOf(attempts, named, a.value))
  {
    hide *;
    NamedChoice(attempts, provider, references);
    OpenChoice(attempts, provider);
    AnyChoice(attempts, provider);
    NamedIsAny(attempts, provider, references);
    ChoiceOrder(attempts, provider, references);
  }

  lemma NamedChoice(attempts: seq<Attempt>, provider: string, references: seq<string>)
    ensures var a, named := PaymentAttempts.ByReference(attempts, provider, references), Named(attempts, provider, references);
            (a.None? <==> true !in named) && (a.Some? ==> NewestOf(attempts, named, a.value))
  {
    NewestByKeys(attempts, Named(attempts, provider, references), PaymentAttempts.KeysWhere(attempts, (a: Attempt) =>
      PaymentAttempts.OfProvider(a, provider) && a.reference != "" && a.reference in references));
    hide FirstMax, NewestOf;
  }

  lemma OpenChoice(attempts: seq<Attempt>, provider: string)
    ensures var a, open := PaymentAttempts.LatestActive(attempts, provider), Completable(attempts, provider);
            (a.None? <==> true !in open) && (a.Some? ==> NewestOf(attempts, open, a.value))
  {
    NewestByKeys(attempts, Completable(attempts, provider), PaymentAttempts.KeysWhere(attempts, (a: Attempt) =>
      PaymentAttempts.OfProvider(a, provider) && ActiveAttempt(a.status)));
    hide FirstMax, NewestOf;
  }

  lemma AnyChoice(attempts: seq<Attempt>, provider: string)
    ensures var a, any := PaymentAttempts.LatestOfProvider(attempts, provider), Any(attempts, provider);
            (a.None? <==> true !in any) && (a.Some? ==> NewestOf(attempts, any, a.value))
  {
    NewestByKeys(attempts, Any(attempts, provider),
                 PaymentAttempts.KeysWhere(attempts, (a: Attempt) => PaymentAttempts.OfProvider(a, provider)));
    hide FirstMax, NewestOf;
  }

  lemma NamedIsAny(attempts: seq<Attempt>, provider: string, references: seq<string>)
    ensures true in Named(attempts, provider, references) ==> true in Any(attempts, provider)
    ensures true in Completable(attempts, provider) ==> true in Any(attempts, provider)
  {
    var named, open, any := Named(attempts, provider, references), Completable(attempts, provider), Any(attempts, provider);
    if true in named { var k :| 0 <= k < |named| && named[k]; assert any[k]; }
    if true in open { var k :| 0 <= k < |open| && open[k]; assert any[k]; }
  }

  lemma ChoiceOrder(attempts: seq<Attempt>, provider: string, references: seq<string>)
    ensures var named, active := PaymentAttempts.ByReference(attempts, provider, references),
                                 PaymentAttempts.LatestActive(attempts, provider);
            && PaymentAttempts.ResolveAttempt(attempts, provider, references, false) == named
            && PaymentAttempts.ResolveAttempt(attempts, provider, references, true)
               == if named.Some? then named else if active.Some? then active
                  else PaymentAttempts.LatestOfProvider(attempts, provider)
  {
    hide PaymentAttempts.ByReference, PaymentAttempts.LatestActive, PaymentAttempts.LatestOfProvider;
  }

  /** The same for a callback; an attempt whose invoice is not on file does not count. */
  lemma CallbackIsAbout(l: Ledger, c: Callback)
    ensures var a := PaymentAttempts.ResolveAttempt(l.attempts, c.provider, c.references, true);
            AttemptFor(l, c) == if a.Some? && l.attempts[a.value].invoice < |l.invoices| then a else None
    ensures var a := AttemptFor(l, c);
            var named, open, any := Named(l.attempts, c.provider, c.references), Completable(l.attempts, c.provider),
                                    Any(l.attempts, c.provider);
            a.Some? ==> NewestOf(l.attempts, if true in named then named else if true in open then open else any, a.value)
  {
    ChosenAttempt(l.attempts, c.provider, c.references);
    hide PaymentAttempts.ResolveAttempt, Named, Completable, Any;
  }

  // ----- What each kind leaves -----

  function StatusOf(l: Ledger): SubscriptionStatus {
    if l.subscription.None? then SubscriptionStatus.Pending else l.subscription.value.status
  }

  function TrialOf(l: Ledger): Option<Time> {
    if l.subscription.None? then None else l.subscription.value.trialEndsAt
  }

  /** The attempts with one of them, if there is one, given a status now. */
  ghost predicate Marked(before: seq<Attempt>, after: seq<Attempt>, a: Option<RowId>, s: AttemptStatus, now: Time) {
    && |after| == |before|
    && (forall k | 0 <= k < |before| :: after[k] == if a == Some(k) then before[k].(status := s, updatedAt := now) else before[k])
  }

  /** A failure raises exactly on a cancelled or paused subscription. Otherwise the subscription is
      past due with its trial date kept, an unpaid newcomer waits for payment, a tenant in service is
      suspended, and the callback's attempt has failed; nothing else is written. */
  lemma FailureLeaves(l: Ledger, c: Callback)
    requires c.kind.PaymentFailed? && StoredSubscriptionStatus(StatusOf(l)) && TenantState.Tabled(l.tenant)
    ensures Serve(l, c).Broke? <==> StatusOf(l).Cancelled? || StatusOf(l).Paused?
    ensures Serve(l, c).Broke? ==> Serve(l, c).app == l
    ensures Serve(l, c).Finished? ==>
              var l' := Serve(l, c).app;
              && l'.subscription == Some(SubscriptionRow(SubscriptionStatus.PastDue, TrialOf(l)))
              && l'.tenant == (if l.tenant.Pending? then TenantStatus.PendingPayment
                               else if l.tenant.Active? || l.tenant.Provisioning? then TenantStatus.SuspendedBilling
                               else l.tenant)
              && Marked(l.attempts, l'.attempts, AttemptFor(l, c), AttemptStatus.Failed, c.at)
              && l'.invoices == l.invoices && l'.exceptions == l.exceptions && l'.jobs == l.jobs && l'.queue == l.queue
  {
    FailureRaises(Standing(l.tenant, PaymentWebhooks.SubscriptionOf(l)));
    hide AttemptFor;
  }

  /** A cancellation never raises: from whatever status the tenant had it ends suspended for billing,
      with a cancelled subscription whose trial date is kept; no attempt, invoice, exception or job
      is written. */
  lemma CancellationLeaves(l: Ledger, c: Callback)
    requires c.kind.SubscriptionCancelled? && StoredSubscriptionStatus(StatusOf(l))
    ensures Serve(l, c) == Finished(l.(tenant := TenantStatus.SuspendedBilling,
                                       subscription := Some(SubscriptionRow(SubscriptionStatus.Cancelled, TrialOf(l)))))
  {
  }

  lemma UnknownLeaves(l: Ledger, c: Callback)
    requires c.kind.Ignored?
    ensures Serve(l, c) == Finished(l)
  {
  }

  /** What a confirmation can be refused for before it commits. */
  predicate ConfirmationRefused(l: Ledger, a: Option<RowId>, w: World)
    requires a.Some? ==> PaymentWebhooks.Backed(l, a.value)
  {
    || !w.ownerExists || StatusOf(l).Cancelled?
    || (a.Some? && w.erp.linked
        && var answer := w.erp.lookup(l.invoices[l.attempts[a.value].invoice].erpId);
           answer.Unreachable? || (answer.Found? && answer.item.reference == ""))
  }

  /** Nothing is left to pay on the row, or it is said to be paid. */
  predicate NothingToPay(x: Invoice) {
    x.due <= 0 || x.paidAt.Some? || x.status.Paid? || x.status.Settled? || x.status.Closed?
  }

  /** The row was settled without the ERP's figures: nothing is owed any more, and the larger of the
      amount confirmed and the old debt has been added to what had been paid. */
  ghost predicate SettledHere(before: Invoice, after: Invoice, amount: int, now: Time) {
    && after.due == 0 && after.status.Paid?
    && after.paidAt == (if before.paidAt.Some? then before.paidAt else Some(now))
    && after.paid == before.paid + (if amount > before.due && amount > 0 then amount
                                    else if before.due > 0 then before.due else 0)
    && after == before.(due := after.due, status := after.status, paidAt := after.paidAt, paid := after.paid)
  }

  /** The invoice row after the confirmation: settled on the spot if the ERP is not asked or does not
      know it; else the ERP's columns, settled on the spot if they leave something to pay. */
  ghost predicate InvoicePaid(before: Invoice, after: Invoice, amount: int, w: World, now: Time) {
    if !w.erp.linked then SettledHere(before, after, amount, now)
    else if w.erp.lookup(before.erpId).NoMatch? then
      if NothingToPay(before) then after == before else SettledHere(before, after, amount, now)
    else
      w.erp.lookup(before.erpId).Found?
      && exists seen ::
           && InvoiceSync.CopiedFrom(seen, before.createdAt, w.me, w.erp.lookup(before.erpId).item, now)
           && if NothingToPay(seen) then after == seen else SettledHere(seen, after, amount, now)
  }

  lemma PaidInvoiceRow(invoices: seq<Invoice>, i: RowId, amount: int, w: World, now: Time)
    requires InvoiceSync.Keyed(invoices) && InvoiceSync.Honest(w.erp) && i < |invoices|
    requires PaymentWebhooks.SettleInvoice(invoices, i, amount, w, now).Some?
    ensures var t := PaymentWebhooks.SettleInvoice(invoices, i, amount, w, now).value;
            && |t| == |invoices| && (forall k | 0 <= k < |t| && k != i :: t[k] == invoices[k])
            && InvoicePaid(invoices[i], t[i], amount, w, now)
  {
    PaymentWebhooks.SettledInvoiceShape(invoices, i, amount, w, now);
    var seen := InvoiceSync.Reread(invoices[i], w.me, w.erp, now);
    if w.erp.linked && w.erp.lookup(invoices[i].erpId).Found? {
      InvoiceSync.OverwrittenColumns(invoices[i], w.me, w.erp.lookup(invoices[i].erpId).item, now);
    }
    hide PaymentWebhooks.SettleInvoice, InvoiceSync.CopiedFrom, InvoiceSync.Overwrite;
  }

  /** A confirmation raises exactly if it is refused, and then nothing is written, or if a job has to
      be handed over and the work queue is down. Either way what is committed is the same: an active
      subscription, its trial date cleared if it was trialing, a tenant no longer waiting for payment
      or suspended for billing, the callback's attempt paid and its invoice settled. */
  lemma ConfirmationLeaves(l: Ledger, c: Callback)
    requires c.kind.PaymentConfirmed? && Reconciliation.Book(l, c.at) && InvoiceSync.Honest(c.world.erp)
    ensures var a := AttemptFor(l, c);
            var refused := ConfirmationRefused(l, a, c.world);
            && (Serve(l, c).Broke? <==> refused || (!c.world.queueUp && Provisioning.NeedsHandOver(l.jobs)))
            && (refused ==> Serve(l, c).app == l)
            && (!refused ==>
                  var l' := Serve(l, c).app;
                  && l'.subscription == Some(SubscriptionRow(SubscriptionStatus.Active,
                                                             if StatusOf(l).Trialing? then None else TrialOf(l)))
                  && l'.tenant == (if l.tenant.SuspendedBilling? then TenantStatus.Active
                                   else if l.tenant.PendingPayment? then TenantStatus.Pending else l.tenant)
                  && l'.exceptions == l.exceptions
                  && Marked(l.attempts, l'.attempts, a, AttemptStatus.Paid, c.at)
                  && |l'.invoices| == |l.invoices|
                  && (forall k | 0 <= k < |l.invoices| && (a.Some? ==> k != l.attempts[a.value].invoice) ::
                        l'.invoices[k] == l.invoices[k])
                  && (a.Some? ==>
                        var i := l.attempts[a.value].invoice;
                        InvoicePaid(l.invoices[i], l'.invoices[i], l.attempts[a.value].amount, c.world, c.at)))
  {
    var a := AttemptFor(l, c);
    CommittedColumns(l, a, c.world, c.at);
    ServedConfirmation(l, c);
    ConfirmationKeepsJobs(l, a, c.world, c.at);
    Provisioning.HandOverRaises(l.jobs, l.queue, c.world.queueUp);
    hide AttemptFor, Serve, Provisioning.Enqueue, Provisioning.NeedsHandOver, PaymentWebhooks.Confirmed, InvoicePaid,
         Reconciliation.Book, ConfirmationRefused, Marked;
  }

  lemma CommittedColumns(l: Ledger, a: Option<RowId>, w: World, now: Time)
    requires Reconciliation.Book(l, now) && InvoiceSync.Honest(w.erp)
    requires a.Some? ==> PaymentWebhooks.Backed(l, a.value)
    ensures var m := PaymentWebhooks.Confirmed(l, a, w, now);
            && (m.None? <==> ConfirmationRefused(l, a, w))
            && (m.Some? ==>
                  var l' := m.value;
                  && l'.subscription == Some(SubscriptionRow(SubscriptionStatus.Active,
                                                             if StatusOf(l).Trialing? then None else TrialOf(l)))
                  && l'.tenant == (if l.tenant.SuspendedBilling? then TenantStatus.Active
                                   else if l.tenant.PendingPayment? then TenantStatus.Pending else l.tenant)
                  && l'.exceptions == l.exceptions
                  && Marked(l.attempts, l'.attempts, a, AttemptStatus.Paid, now)
                  && |l'.invoices| == |l.invoices|
                  && (forall k | 0 <= k < |l.invoices| && (a.Some? ==> k != l.attempts[a.value].invoice) ::
                        l'.invoices[k] == l.invoices[k])
                  && (a.Some? ==>
                        var i := l.attempts[a.value].invoice;
                        InvoicePaid(l.invoices[i], l'.invoices[i], l.attempts[a.value].amount, w, now)))
  {
    ConfirmationRaises(Standing(l.tenant, PaymentWebhooks.SubscriptionOf(l)), false);
    if a.Some? {
      var i, amount := l.attempts[a.value].invoice, l.attempts[a.value].amount;
      PaymentWebhooks.SettledInvoiceShape(l.invoices, i, amount, w, now);
      if PaymentWebhooks.SettleInvoice(l.invoices, i, amount, w, now).Some? {
        PaidInvoiceRow(l.invoices, i, amount, w, now);
      }
    }
    if PaymentWebhooks.Confirmed(l, a, w, now).Some? {
      PaymentWebhooks.StandingAfterConfirmation(l, a, w, now);
    }
    hide InvoicePaid, PaymentWebhooks.SettleInvoice, InvoiceSync.Keyed, InvoiceSync.Honest, InvoiceSync.Reread;
  }

  // ----- What the lifecycle says afterwards -----

  /** Whatever the tenant was, once its cancellation is served the stored records block it, confirm
      no payment and allow no provisioning, at every later time. */
  lemma CancelledEndToEnd(l: Ledger, c: Callback, me: TenantId, later: Time, grace: Time)
    requires c.kind.SubscriptionCancelled? && StoredSubscriptionStatus(StatusOf(l))
    ensures var l' := Serve(l, c).app;
            && Serve(l, c).Finished? && l'.subscription.Some?
            && var s := Lifecycle.Resolve(me, l'.tenant, l'.subscription.value.status, l'.invoices, l'.attempts, later, grace);
               s.entitlement.Cancelled? && s.billingBlocked && !s.paymentConfirmed && !s.provisioningAllowed
  {
    hide Lifecycle.Resolve;
    CancellationLeaves(l, c);
    var l' := Serve(l, c).app;
    LifecycleTable.ResolvesByTable(me, l'.tenant, SubscriptionStatus.Cancelled, l'.invoices, l'.attempts, later, grace);
  }

  /** Once a failure on the attempt of the latest invoice is served, the stored records confirm a
      payment exactly if that invoice is paid already and not withdrawn; otherwise they block the
      tenant, within the grace period as well. */
  lemma FailedEndToEnd(l: Ledger, c: Callback, me: TenantId, later: Time, grace: Time)
    requires c.kind.PaymentFailed? && StoredSubscriptionStatus(StatusOf(l)) && TenantState.Tabled(l.tenant)
    requires Serve(l, c).Finished? && AttemptFor(l, c).Some?
    requires forall k | 0 <= k < |l.attempts| :: l.attempts[k].updatedAt < c.at
    requires LatestInvoice(l.invoices, me) == Some(l.attempts[AttemptFor(l, c).value].invoice)
    ensures var l' := Serve(l, c).app;
            var x := l.invoices[LatestInvoice(l.invoices, me).value];
            l'.subscription.Some?
            && var s := Lifecycle.Resolve(me, l'.tenant, l'.subscription.value.status, l'.invoices, l'.attempts, later, grace);
               && (s.paymentConfirmed <==> LifecycleTable.PaidInFull(x) && !LifecycleTable.Withdrawn(x))
               && s.provisioningAllowed == s.paymentConfirmed
               && (!s.paymentConfirmed ==> s.billingBlocked)
               && s.latestAttempt == AttemptFor(l, c)
  {
    hide Lifecycle.Resolve, Serve, AttemptFor, LatestInvoice, LatestAttempt;
    FailureLeaves(l, c);
    var l', a := Serve(l, c).app, AttemptFor(l, c).value;
    FreshestIsLatest(l'.attempts, a);
    assert l'.attempts[a].invoice == l.attempts[a].invoice;
    LifecycleTable.ResolvesByTable(me, l'.tenant, SubscriptionStatus.PastDue, l'.invoices, l'.attempts, later, grace);
  }
}
