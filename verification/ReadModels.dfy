/** The billing workspace shown to a customer: the tenant's open invoices and newest attempt
    folded into totals, a next event and the actions on offer. */
module ReadModels {
  import opened Common
  import opened Statuses
  import opened Rows
  import PaymentAttempts
  import Sorting

  predicate TerminalInvoice(s: InvoiceStatus) {
    s.Paid? || s.Closed? || s.Cancelled? || s.Canceled? || s.Void? || s.Voided? || s.WrittenOff?
  }

  predicate RetryableAttempt(a: AttemptStatus) {
    a.Failed? || a.Expired? || a.Cancelled? || a.Canceled? || a.ReconciliationRequired?
  }

  function SortedInvoices(invoices: seq<Invoice>, me: TenantId): (order: seq<RowId>)
    ensures forall a | 0 <= a < |order| :: order[a] < |invoices|
  {
    Sorting.NewestFirst(InvoiceKeys(invoices, me))
  }

  function StillOpen(invoices: seq<Invoice>, order: seq<RowId>): (kept: seq<RowId>)
    requires forall a | 0 <= a < |order| :: order[a] < |invoices|
    ensures forall a | 0 <= a < |kept| :: kept[a] < |invoices|
    decreases |order|
  {
    if order == [] then []
    else (if TerminalInvoice(invoices[order[0]].status) then [] else [order[0]]) + StillOpen(invoices, order[1..])
  }

  function OpenInvoices(invoices: seq<Invoice>, me: TenantId): (kept: seq<RowId>)
    ensures forall a | 0 <= a < |kept| :: kept[a] < |invoices|
  {
    StillOpen(invoices, SortedInvoices(invoices, me))
  }

  function AllAttemptKeys(attempts: seq<Attempt>): (keys: seq<Option<Key>>)
    ensures |keys| == |attempts|
  {
    seq(|attempts|, k requires 0 <= k < |attempts| => Some(AttemptKey(attempts[k])))
  }

  /** The tenant's newest attempt, whatever invoice it is for. */
  function NewestAttempt(attempts: seq<Attempt>): (a: Option<RowId>)
    ensures a.Some? ==> a.value < |attempts|
  {
    var order := Sorting.NewestFirst(AllAttemptKeys(attempts));
    if order == [] then None else Some(order[0])
  }

  predicate Overdue(i: Invoice, now: Time) {
    i.dueDate.Some? && i.dueDate.value <= now
  }

  function Total(invoices: seq<Invoice>, rows: seq<RowId>, counts: Invoice -> bool): int
    requires forall a | 0 <= a < |rows| :: rows[a] < |invoices|
    decreases |rows|
  {
    if rows == [] then 0
    else (if counts(invoices[rows[0]]) then invoices[rows[0]].due else 0) + Total(invoices, rows[1..], counts)
  }

  function DueDates(invoices: seq<Invoice>, rows: seq<RowId>): seq<Time>
    requires forall a | 0 <= a < |rows| :: rows[a] < |invoices|
    decreases |rows|
  {
    if rows == [] then []
    else (if invoices[rows[0]].dueDate.Some? then [invoices[rows[0]].dueDate.value] else []) + DueDates(invoices, rows[1..])
  }

  function Earliest(dates: seq<Time>): (t: Time)
    requires dates != []
    ensures t in dates && forall d | d in dates :: t <= d
  {
    if |dates| == 1 then dates[0]
    else
      var rest := Earliest(dates[1..]);
      assert forall d | d in dates :: d == dates[0] || d in dates[1..];
      if rest < dates[0] then rest else dates[0]
  }

  datatype BillingEvent = InvoiceOverdue(at: Time) | InvoiceDue(at: Time)

  function NextEvent(dates: seq<Time>, now: Time): Option<BillingEvent> {
    if dates == [] then None
    else Some(if Earliest(dates) <= now then InvoiceOverdue(Earliest(dates)) else InvoiceDue(Earliest(dates)))
  }

  datatype Workspace = Workspace(
    amountDue: int, amountOverdue: int, nextEvent: Option<BillingEvent>, openInvoices: seq<RowId>,
    latestAttempt: Option<RowId>, canRetry: bool, canCreate: bool)

  function Build(invoices: seq<Invoice>, attempts: seq<Attempt>, me: TenantId, now: Time): Workspace {
    var rows := OpenInvoices(invoices, me);
    var latest := NewestAttempt(attempts);
    var status := if latest.Some? then attempts[latest.value].status else AttemptStatus.Blank;
    Workspace(
      Total(invoices, rows, _ => true),
      Total(invoices, rows, i => Overdue(i, now)),
      NextEvent(DueDates(invoices, rows), now),
      rows,
      latest,
      rows != [] && RetryableAttempt(status),
      rows != [] && !ActiveAttempt(status) && !status.Paid?)
  }

  // ----- Agreement with the lifecycle -----

  /** An invoice of the tenant that is neither paid or closed nor withdrawn. */
  predicate IsOpen(invoices: seq<Invoice>, me: TenantId, k: RowId) {
    && k < |invoices| && invoices[k].tenant == me
    && var s := invoices[k].status;
       && !s.Paid? && !s.Closed?
       && !s.Cancelled? && !s.Canceled? && !s.Void? && !s.Voided? && !s.WrittenOff?
  }

  lemma {:induction false} StillOpenKeeps(invoices: seq<Invoice>, order: seq<RowId>)
    requires forall a | 0 <= a < |order| :: order[a] < |invoices|
    ensures forall k :: k in StillOpen(invoices, order) <==> k in order && !TerminalInvoice(invoices[k].status)
    ensures order != [] && !TerminalInvoice(invoices[order[0]].status) ==> StillOpen(invoices, order)[0] == order[0]
    decreases |order|
  {
    if order != [] {
      StillOpenKeeps(invoices, order[1..]);
      forall k ensures k in StillOpen(invoices, order) <==> k in order && !TerminalInvoice(invoices[k].status) {
        assert k in order <==> k == order[0] || k in order[1..];
      }
    }
  }

  /** The first of the sorted invoices is the one the lifecycle calls latest, ties included; the
      workspace's open invoices are the tenant's invoices that are not terminal, led by the latest
      if that is one of them. */
  lemma SortedInvoicesAgree(invoices: seq<Invoice>, me: TenantId)
    ensures var order := SortedInvoices(invoices, me);
            LatestInvoice(invoices, me) == if order == [] then None else Some(order[0])
    ensures forall k: nat :: k in OpenInvoices(invoices, me) <==> IsOpen(invoices, me, k)
    ensures var latest := LatestInvoice(invoices, me);
            latest.Some? && IsOpen(invoices, me, latest.value) ==>
              OpenInvoices(invoices, me) != [] && OpenInvoices(invoices, me)[0] == latest.value
  {
    var keys := InvoiceKeys(invoices, me);
    Sorting.HeadIsFirstMax(keys);
    StillOpenKeeps(invoices, SortedInvoices(invoices, me));
    assert forall k :: k in SortedInvoices(invoices, me) <==> 0 <= k < |invoices| && keys[k].Some?;
  }

  lemma {:induction false} DueDatesAre(invoices: seq<Invoice>, rows: seq<RowId>)
    requires forall a | 0 <= a < |rows| :: rows[a] < |invoices|
    ensures forall d :: d in DueDates(invoices, rows) <==> exists k | k in rows :: invoices[k].dueDate == Some(d)
    decreases |rows|
  {
    if rows != [] {
      DueDatesAre(invoices, rows[1..]);
      forall d ensures d in DueDates(invoices, rows) <==> exists k | k in rows :: invoices[k].dueDate == Some(d) {
        if invoices[rows[0]].dueDate == Some(d) { assert rows[0] in rows; }
        if k :| k in rows[1..] && invoices[k].dueDate == Some(d) { assert k in rows; }
      }
    }
  }

  lemma OpenDueDates(invoices: seq<Invoice>, me: TenantId, d: Time)
    ensures d in DueDates(invoices, OpenInvoices(invoices, me))
            <==> exists k: nat :: IsOpen(invoices, me, k) && invoices[k].dueDate == Some(d)
  {
    SortedInvoicesAgree(invoices, me);
    DueDatesAre(invoices, OpenInvoices(invoices, me));
    if k: nat :| IsOpen(invoices, me, k) && invoices[k].dueDate == Some(d) {
      assert k in OpenInvoices(invoices, me);
    }
  }

  /** The next event is an overdue invoice exactly if an open invoice is overdue; there is none
      exactly if no open invoice has a due date; its time is the earliest due date. */
  lemma NextEventIs(invoices: seq<Invoice>, attempts: seq<Attempt>, me: TenantId, now: Time)
    ensures var e := Build(invoices, attempts, me, now).nextEvent;
            && (e.Some? && e.value.InvoiceOverdue? <==> exists k: nat :: IsOpen(invoices, me, k) && Overdue(invoices[k], now))
            && (e.None? <==> forall k: nat :: IsOpen(invoices, me, k) ==> invoices[k].dueDate.None?)
            && (e.Some? ==> forall k: nat :: IsOpen(invoices, me, k) && invoices[k].dueDate.Some? ==>
                                             e.value.at <= invoices[k].dueDate.value)
  {
    var dates := DueDates(invoices, OpenInvoices(invoices, me));
    assert Build(invoices, attempts, me, now).nextEvent == NextEvent(dates, now);
    forall k: nat | IsOpen(invoices, me, k) && invoices[k].dueDate.Some? ensures invoices[k].dueDate.value in dates {
      OpenDueDates(invoices, me, invoices[k].dueDate.value);
    }
    if dates != [] {
      var t := Earliest(dates);
      OpenDueDates(invoices, me, t);
      var k: nat :| IsOpen(invoices, me, k) && invoices[k].dueDate == Some(t);
    }
  }

  /** What the tenant's open invoices owe, by their place in the table. */
  function Owed(invoices: seq<Invoice>, me: TenantId, n: nat, counts: Invoice -> bool): int
    requires n <= |invoices|
  {
    if n == 0 then 0
    else Owed(invoices, me, n - 1, counts)
         + if IsOpen(invoices, me, n - 1) && counts(invoices[n - 1]) then invoices[n - 1].due else 0
  }

  lemma {:induction false} InsertedTotal(invoices: seq<Invoice>, keys: seq<Option<Key>>, order: seq<RowId>, x: RowId,
                                         counts: Invoice -> bool)
    requires |keys| == |invoices| && x < |keys| && keys[x].Some? && Sorting.Selected(keys, order)
    ensures Sorting.Selected(keys, Sorting.Insert(keys, order, x))
    ensures Total(invoices, StillOpen(invoices, Sorting.Insert(keys, order, x)), counts)
            == Total(invoices, StillOpen(invoices, order), counts)
               + if !TerminalInvoice(invoices[x].status) && counts(invoices[x]) then invoices[x].due else 0
    decreases |order|
  {
    Sorting.InsertAdds(keys, order, x);
    if order == [] {
      assert [x][1..] == [];
    } else if Sorting.Ahead(keys, x, order[0]) {
      assert ([x] + order)[1..] == order;
      Prepended(invoices, x, order, counts);
    } else {
      InsertedTotal(invoices, keys, order[1..], x, counts);
      var rest := Sorting.Insert(keys, order[1..], x);
      assert ([order[0]] + rest)[1..] == rest && [order[0]] + order[1..] == order;
      Prepended(invoices, order[0], rest, counts);
      Prepended(invoices, order[0], order[1..], counts);
    }
  }

  lemma Prepended(invoices: seq<Invoice>, x: RowId, rest: seq<RowId>, counts: Invoice -> bool)
    requires x < |invoices| && forall a | 0 <= a < |rest| :: rest[a] < |invoices|
    ensures Total(invoices, StillOpen(invoices, [x] + rest), counts)
            == Total(invoices, StillOpen(invoices, rest), counts)
               + if !TerminalInvoice(invoices[x].status) && counts(invoices[x]) then invoices[x].due else 0
  {
    assert ([x] + rest)[1..] == rest;
    var kept := StillOpen(invoices, rest);
    assert ([x] + kept)[1..] == kept && [] + kept == kept;
  }

  lemma {:induction false} SortedTotal(invoices: seq<Invoice>, me: TenantId, n: nat, counts: Invoice -> bool)
    requires n <= |invoices|
    ensures Total(invoices, StillOpen(invoices, Sorting.SortUpTo(InvoiceKeys(invoices, me), n)), counts)
            == Owed(invoices, me, n, counts)
    decreases n
  {
    var keys := InvoiceKeys(invoices, me);
    if n > 0 {
      SortedTotal(invoices, me, n - 1, counts);
      if keys[n - 1].Some? {
        InsertedTotal(invoices, keys, Sorting.SortUpTo(keys, n - 1), n - 1, counts);
      }
    }
  }

  /** The amounts shown are what the tenant's open invoices owe, each counted once, and what those of
      them owe whose due date has come. */
  lemma AmountsAreOwed(invoices: seq<Invoice>, attempts: seq<Attempt>, me: TenantId, now: Time)
    ensures var w := Build(invoices, attempts, me, now);
            && w.amountDue == Owed(invoices, me, |invoices|, _ => true)
            && w.amountOverdue
               == Owed(invoices, me, |invoices|, (i: Invoice) => i.dueDate.Some? && i.dueDate.value <= now)
  {
    SortedTotal(invoices, me, |invoices|, _ => true);
    SortedTotal(invoices, me, |invoices|, i => Overdue(i, now));
    SameCounts(invoices, me, |invoices|, i => Overdue(i, now), (i: Invoice) => i.dueDate.Some? && i.dueDate.value <= now);
    hide StillOpen, Total, Owed, NewestAttempt;
  }

  lemma {:induction false} SameCounts(invoices: seq<Invoice>, me: TenantId, n: nat, p: Invoice -> bool, q: Invoice -> bool)
    requires n <= |invoices| && forall i :: p(i) == q(i)
    ensures Owed(invoices, me, n, p) == Owed(invoices, me, n, q)
    decreases n
  {
    if n > 0 { SameCounts(invoices, me, n - 1, p, q); }
  }

  lemma {:induction false} TotalSplits(invoices: seq<Invoice>, rows: seq<RowId>, now: Time)
    requires forall a | 0 <= a < |rows| :: rows[a] < |invoices|
    ensures Total(invoices, rows, _ => true)
            == Total(invoices, rows, i => Overdue(i, now)) + Total(invoices, rows, i => !Overdue(i, now))
    ensures (forall k | k in rows :: invoices[k].due >= 0) ==> Total(invoices, rows, i => !Overdue(i, now)) >= 0
    decreases |rows|
  {
    if rows != [] {
      TotalSplits(invoices, rows[1..], now);
      assert rows[0] in rows;
    }
  }

  /** What is due is what is overdue plus what is not yet; with no negative amount among the open
      invoices the overdue total is within the due total. */
  lemma OverdueIsPartOfDue(invoices: seq<Invoice>, attempts: seq<Attempt>, me: TenantId, now: Time)
    ensures var w := Build(invoices, attempts, me, now);
            && w.amountDue - w.amountOverdue == Total(invoices, w.openInvoices, i => !Overdue(i, now))
            && ((forall k: nat :: IsOpen(invoices, me, k) ==> invoices[k].due >= 0) ==> w.amountOverdue <= w.amountDue)
  {
    SortedInvoicesAgree(invoices, me);
    TotalSplits(invoices, OpenInvoices(invoices, me), now);
  }

  // ----- The actions on offer -----

  /** With an open invoice, a retry is on offer exactly if the newest attempt has come to nothing, and a
      new attempt unless the newest is under way or paid; so whoever may retry may create. */
  lemma RetryImpliesCreate(invoices: seq<Invoice>, attempts: seq<Attempt>, me: TenantId, now: Time)
    ensures var w := Build(invoices, attempts, me, now);
            var newest := if w.latestAttempt.Some? then attempts[w.latestAttempt.value].status else AttemptStatus.Blank;
            && w.openInvoices == OpenInvoices(invoices, me) && w.latestAttempt == NewestAttempt(attempts)
            && (w.canRetry <==> w.openInvoices != []
                                && (newest.Failed? || newest.Expired? || newest.Cancelled? || newest.Canceled?
                                    || newest.ReconciliationRequired?))
            && (w.canCreate <==> w.openInvoices != [] && !newest.Paid? && !newest.Created? && !newest.CheckoutStarted?
                                 && !newest.PendingProviderConfirmation? && !newest.SettlementPending?)
            && (w.canRetry ==> w.canCreate)
  {
    hide NewestAttempt, OpenInvoices, Total, DueDates, NextEvent;
  }

  lemma NewestIsLatestOfItsInvoice(attempts: seq<Attempt>)
    requires NewestAttempt(attempts).Some?
    ensures var a := NewestAttempt(attempts).value; LatestAttempt(attempts, attempts[a].invoice) == Some(a)
  {
    var all := AllAttemptKeys(attempts);
    Sorting.HeadIsFirstMax(all);
    var a := NewestAttempt(attempts).value;
    assert IsFirstMax(all, a);
    var keys := AttemptKeys(attempts, attempts[a].invoice);
    forall j | 0 <= j < |keys| && keys[j].Some?
      ensures !Less(keys[a].value, keys[j].value)
      ensures j < a ==> Less(keys[j].value, keys[a].value)
    {
      assert all[j] == keys[j];
    }
    FirstMaxUnique(keys, a);
  }

  /** The payment service would start an attempt on the invoice, as the stored row and its attempts
      stand: it is payable, and its latest attempt is not active. */
  predicate Accepted(invoices: seq<Invoice>, attempts: seq<Attempt>, i: RowId)
    requires i < |invoices|
  {
    PaymentAttempts.Payable(invoices[i]) && !PaymentAttempts.LatestIsActive(attempts, i)
  }

  function WithStatuses(attempts: seq<Attempt>, statuses: seq<AttemptStatus>): (changed: seq<Attempt>)
    requires |statuses| == |attempts|
    ensures |changed| == |attempts|
    ensures forall k | 0 <= k < |attempts| :: changed[k] == attempts[k].(status := statuses[k])
  {
    seq(|attempts|, k requires 0 <= k < |attempts| => attempts[k].(status := statuses[k]))
  }

  /** With these statuses of the attempts, an attempt the workspace offers is accepted. */
  predicate Honoured(invoices: seq<Invoice>, attempts: seq<Attempt>, statuses: seq<AttemptStatus>, me: TenantId, now: Time)
    requires |statuses| == |attempts|
  {
    var w := Build(invoices, WithStatuses(attempts, statuses), me, now);
    w.canCreate ==> Accepted(invoices, WithStatuses(attempts, statuses), w.openInvoices[0])
  }

  /** With these statuses, an attempt the service would accept on the first open invoice is offered. */
  predicate Offered(invoices: seq<Invoice>, attempts: seq<Attempt>, statuses: seq<AttemptStatus>, me: TenantId, now: Time)
    requires |statuses| == |attempts|
  {
    var w := Build(invoices, WithStatuses(attempts, statuses), me, now);
    w.openInvoices != [] && Accepted(invoices, WithStatuses(attempts, statuses), w.openInvoices[0]) ==> w.canCreate
  }

  lemma StatusesDoNotOrder(attempts: seq<Attempt>, statuses: seq<AttemptStatus>, i: RowId)
    requires |statuses| == |attempts|
    ensures var changed := WithStatuses(attempts, statuses);
            NewestAttempt(changed) == NewestAttempt(attempts) && LatestAttempt(changed, i) == LatestAttempt(attempts, i)
  {
    var changed := WithStatuses(attempts, statuses);
    assert AllAttemptKeys(changed) == AllAttemptKeys(attempts);
    assert AttemptKeys(changed, i) == AttemptKeys(attempts, i);
  }

  lemma OpenIsPayable(invoices: seq<Invoice>, me: TenantId)
    requires OpenInvoices(invoices, me) != []
    ensures var i := OpenInvoices(invoices, me)[0]; PaymentAttempts.Payable(invoices[i]) <==> invoices[i].due > 0
  {
    SortedInvoicesAgree(invoices, me);
    assert OpenInvoices(invoices, me)[0] in OpenInvoices(invoices, me);
  }

  lemma OfferIs(invoices: seq<Invoice>, attempts: seq<Attempt>, me: TenantId, now: Time)
    ensures var newest := NewestAttempt(attempts);
            && Build(invoices, attempts, me, now).openInvoices == OpenInvoices(invoices, me)
            && (Build(invoices, attempts, me, now).canCreate
                <==> OpenInvoices(invoices, me) != []
                     && (newest.None? || (!ActiveAttempt(attempts[newest.value].status) && !attempts[newest.value].status.Paid?)))
  {
    hide NewestAttempt, OpenInvoices, Total, DueDates, NextEvent;
  }

  lemma AnswerIs(invoices: seq<Invoice>, attempts: seq<Attempt>, i: RowId)
    requires i < |invoices| && (PaymentAttempts.Payable(invoices[i]) <==> invoices[i].due > 0)
    ensures var latest := LatestAttempt(attempts, i);
            Accepted(invoices, attempts, i)
            <==> invoices[i].due > 0 && (latest.None? || !ActiveAttempt(attempts[latest.value].status))
  {
    hide LatestAttempt, PaymentAttempts.Payable;
  }

  /** What the workspace says and what the service says, in terms of the first open invoice, its
      latest attempt and the tenant's newest attempt. */
  lemma OfferAndAnswer(invoices: seq<Invoice>, attempts: seq<Attempt>, statuses: seq<AttemptStatus>, me: TenantId, now: Time)
    requires OpenInvoices(invoices, me) != [] && |statuses| == |attempts|
    ensures var i := OpenInvoices(invoices, me)[0];
            var newest, latest := NewestAttempt(attempts), LatestAttempt(attempts, i);
            var changed := WithStatuses(attempts, statuses);
            && Build(invoices, changed, me, now).openInvoices == OpenInvoices(invoices, me)
            && (Build(invoices, changed, me, now).canCreate
                <==> newest.None? || (!ActiveAttempt(statuses[newest.value]) && !statuses[newest.value].Paid?))
            && (Accepted(invoices, changed, i)
                <==> invoices[i].due > 0 && (latest.None? || !ActiveAttempt(statuses[latest.value])))
  {
    var i, changed := OpenInvoices(invoices, me)[0], WithStatuses(attempts, statuses);
    hide *;
    StatusesDoNotOrder(attempts, statuses, i);
    OpenIsPayable(invoices, me);
    OfferIs(invoices, changed, me, now);
    AnswerIs(invoices, changed, i);
  }

  lemma NewestExists(attempts: seq<Attempt>, i: RowId)
    ensures LatestAttempt(attempts, i).Some? ==> NewestAttempt(attempts).Some?
    ensures NewestAttempt(attempts).None? <==> attempts == []
    ensures NewestAttempt(attempts).Some? ==>
              (attempts[NewestAttempt(attempts).value].invoice == i <==> LatestAttempt(attempts, i) == NewestAttempt(attempts))
  {
    Sorting.HeadIsFirstMax(AllAttemptKeys(attempts));
    assert forall k | 0 <= k < |attempts| :: AllAttemptKeys(attempts)[k].Some?;
    if NewestAttempt(attempts).Some? { NewestIsLatestOfItsInvoice(attempts); }
  }

  // The same two judgements on the statuses alone.

  predicate Offers(statuses: seq<AttemptStatus>, newest: Option<RowId>)
    requires newest.Some? ==> newest.value < |statuses|
  {
    newest.None? || (!ActiveAttempt(statuses[newest.value]) && !statuses[newest.value].Paid?)
  }

  predicate Accepts(statuses: seq<AttemptStatus>, latest: Option<RowId>, due: int)
    requires latest.Some? ==> latest.value < |statuses|
  {
    due > 0 && (latest.None? || !ActiveAttempt(statuses[latest.value]))
  }

  function AllOf(n: nat, status: AttemptStatus): (statuses: seq<AttemptStatus>)
    ensures |statuses| == n && forall k | 0 <= k < n :: statuses[k] == status
  {
    seq(n, _ => status)
  }

  predicate InRange(n: nat, newest: Option<RowId>, latest: Option<RowId>) {
    && (newest.Some? <==> n > 0) && (newest.Some? ==> newest.value < n)
    && (latest.Some? ==> latest.value < n)
  }

  lemma OffersAreAcceptedWhen(n: nat, newest: Option<RowId>, latest: Option<RowId>, due: int)
    requires InRange(n, newest, latest)
    ensures (forall statuses: seq<AttemptStatus> | |statuses| == n :: Offers(statuses, newest) ==> Accepts(statuses, latest, due))
            <==> due > 0 && (latest.None? || latest == newest)
  {
    var failed := AllOf(n, AttemptStatus.Failed);
    assert Offers(failed, newest);
    if due > 0 && latest.Some? && latest != newest {
      var hidden := failed[latest.value := AttemptStatus.Created];
      assert Offers(hidden, newest) && !Accepts(hidden, latest, due);
    }
  }

  lemma AcceptedAreOfferedWhen(n: nat, newest: Option<RowId>, latest: Option<RowId>, due: int)
    requires InRange(n, newest, latest)
    ensures (forall statuses: seq<AttemptStatus> | |statuses| == n :: Accepts(statuses, latest, due) ==> Offers(statuses, newest))
            <==> due <= 0 || n == 0
  {
    var paid := AllOf(n, AttemptStatus.Paid);
    assert Accepts(paid, latest, due) <==> due > 0;
    assert Offers(paid, newest) <==> n == 0;
  }

  /** The workspace judges by the tenant's newest attempt, the payment service by the newest of the
      invoice and by what the invoice owes. Over all statuses of the attempts, the offer is never
      refused exactly if the first open invoice owes something and either has no attempt or has the
      tenant's newest one. */
  lemma OfferHonouredExactlyWhen(invoices: seq<Invoice>, attempts: seq<Attempt>, me: TenantId, now: Time)
    requires OpenInvoices(invoices, me) != []
    ensures var i := OpenInvoices(invoices, me)[0];
            (forall statuses | |statuses| == |attempts| :: Honoured(invoices, attempts, statuses, me, now))
            <==> invoices[i].due > 0
                 && (LatestAttempt(attempts, i).None? || attempts[NewestAttempt(attempts).value].invoice == i)
  {
    var i := OpenInvoices(invoices, me)[0];
    var newest, latest, due := NewestAttempt(attempts), LatestAttempt(attempts, i), invoices[i].due;
    NewestExists(attempts, i);
    OffersAreAcceptedWhen(|attempts|, newest, latest, due);
    forall statuses | |statuses| == |attempts|
      ensures Honoured(invoices, attempts, statuses, me, now)
              <==> (Offers(statuses, newest) ==> Accepts(statuses, latest, due))
    {
      JudgementsAre(invoices, attempts, statuses, me, now);
    }
    hide *;
  }

  /** What the service would accept is always offered exactly if the first open invoice owes nothing,
      so that nothing is accepted, or the tenant has no attempt at all: a paid newest attempt
      withholds the offer whatever the invoice still owes. */
  lemma OfferWithheldExactlyWhen(invoices: seq<Invoice>, attempts: seq<Attempt>, me: TenantId, now: Time)
    requires OpenInvoices(invoices, me) != []
    ensures (forall statuses | |statuses| == |attempts| :: Offered(invoices, attempts, statuses, me, now))
            <==> invoices[OpenInvoices(invoices, me)[0]].due <= 0 || attempts == []
  {
    var i := OpenInvoices(invoices, me)[0];
    var newest, latest, due := NewestAttempt(attempts), LatestAttempt(attempts, i), invoices[i].due;
    NewestExists(attempts, i);
    AcceptedAreOfferedWhen(|attempts|, newest, latest, due);
    forall statuses | |statuses| == |attempts|
      ensures Offered(invoices, attempts, statuses, me, now)
              <==> (Accepts(statuses, latest, due) ==> Offers(statuses, newest))
    {
      JudgementsAre(invoices, attempts, statuses, me, now);
    }
    hide *;
  }

  lemma JudgementsAre(invoices: seq<Invoice>, attempts: seq<Attempt>, statuses: seq<AttemptStatus>, me: TenantId, now: Time)
    requires OpenInvoices(invoices, me) != [] && |statuses| == |attempts|
    ensures var i := OpenInvoices(invoices, me)[0];
            var newest, latest := NewestAttempt(attempts), LatestAttempt(attempts, i);
            && (Honoured(invoices, attempts, statuses, me, now)
                <==> (Offers(statuses, newest) ==> Accepts(statuses, latest, invoices[i].due)))
            && (Offered(invoices, attempts, statuses, me, now)
                <==> (Accepts(statuses, latest, invoices[i].due) ==> Offers(statuses, newest)))
  {
    OfferAndAnswer(invoices, attempts, statuses, me, now);
    hide Build, Accepted, NewestAttempt, LatestAttempt, OpenInvoices, WithStatuses;
  }

  /** An offer that is refused: a newer failed attempt on another invoice hides the open
      invoice's active one. */
  lemma OfferMayBeRefused(i: Invoice, other: Invoice, a: Attempt, b: Attempt, now: Time)
    requires i.tenant == other.tenant && !TerminalInvoice(i.status) && TerminalInvoice(other.status)
    requires a.invoice == 0 && b.invoice == 1 && ActiveAttempt(a.status) && b.status.Failed? && a.updatedAt < b.updatedAt
    ensures var w := Build([i, other], [a, b], i.tenant, now);
            && w.canCreate && w.openInvoices == [0]
            && PaymentAttempts.LatestIsActive([a, b], 0)
  {
    OnlyOpen([i, other], i.tenant);
    NewestOf([a, b]);
    OfferIs([i, other], [a, b], i.tenant, now);
    hide Build, OpenInvoices, NewestAttempt, LatestAttempt;
  }

  lemma OnlyOpen(invoices: seq<Invoice>, me: TenantId)
    requires |invoices| == 2 && IsOpen(invoices, me, 0) && !IsOpen(invoices, me, 1)
    ensures OpenInvoices(invoices, me) == [0]
  {
    var rows := OpenInvoices(invoices, me);
    hide OpenInvoices;
    OpenIsDistinct(invoices, me);
    assert |rows| > 1 ==> rows[0] != rows[1];
    SortedInvoicesAgree(invoices, me);
    assert 0 in rows && forall k | k in rows :: k == 0;
    assert forall a | 0 <= a < |rows| :: rows[a] in rows;
  }

  lemma NewestOf(attempts: seq<Attempt>)
    requires |attempts| == 2 && attempts[0].invoice == 0 && attempts[1].invoice == 1
    requires attempts[0].updatedAt < attempts[1].updatedAt
    ensures NewestAttempt(attempts) == Some(1) && LatestAttempt(attempts, 0) == Some(0)
  {
    var keys := AllAttemptKeys(attempts);
    Sorting.HeadIsFirstMax(keys);
    assert IsFirstMax(keys, 1);
    FirstMaxUnique(keys, 1);
    assert IsFirstMax(AttemptKeys(attempts, 0), 0);
    FirstMaxUnique(AttemptKeys(attempts, 0), 0);
  }

  lemma {:induction false} StillOpenIsDistinct(invoices: seq<Invoice>, order: seq<RowId>)
    requires (forall a | 0 <= a < |order| :: order[a] < |invoices|) && Distinct(order)
    ensures Distinct(StillOpen(invoices, order))
    decreases |order|
  {
    if order != [] {
      StillOpenIsDistinct(invoices, order[1..]);
      StillOpenKeeps(invoices, order[1..]);
      var rest := StillOpen(invoices, order[1..]);
      assert forall b | 0 <= b < |rest| :: rest[b] in rest;
    }
  }

  lemma OpenIsDistinct(invoices: seq<Invoice>, me: TenantId)
    ensures Distinct(OpenInvoices(invoices, me))
  {
    var keys, order := InvoiceKeys(invoices, me), SortedInvoices(invoices, me);
    forall a, b | 0 <= a < b < |order| ensures order[a] != order[b] {
      assert Sorting.Ahead(keys, order[a], order[b]);
    }
    StillOpenIsDistinct(invoices, order);
  }
}
