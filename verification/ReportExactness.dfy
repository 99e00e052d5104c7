/** Exactly when a reconciliation cycle's report accounts for every open exception: what a pass does
    to the exceptions is a list of effects that does not depend on them, so that a pass which raises
    leaves their number alone, whatever is on file, only if it had no effect at all. */
module ReportExactness {
  import opened Common
  import opened Rows
  import opened Ledgers
  import opened Reconciliation
  import opened LedgerAgreement
  import opened ReconciliationCycle
  import opened Statuses
  import opened Transitions
  import InvoiceSync
  import Provisioning
  import TenantState

  // ----- Effects on the exceptions -----

  datatype Effect =
    | Nothing
    | Resolves(invoice: RowId)
    | Disputes(invoice: RowId, attempt: Option<RowId>)
    | AsksForReview(invoice: RowId, attempt: Option<RowId>)     // after resolving

  function Act(xs: seq<BillingException>, e: Effect): seq<BillingException> {
    match e
    case Nothing => xs
    case Resolves(i) => ResolveExceptions(xs, i)
    case Disputes(i, a) => OpenException(xs, i, a, ErpMismatch).0
    case AsksForReview(i, a) => OpenException(ResolveExceptions(xs, i), i, a, ManualFinanceReviewRequired).0
  }

  function ActAll(xs: seq<BillingException>, es: seq<Effect>): seq<BillingException>
    decreases |es|
  {
    if es == [] then xs else ActAll(Act(xs, es[0]), es[1..])
  }

  /** How an effect changes the number of open exceptions. */
  function Gain(xs: seq<BillingException>, e: Effect): int {
    match e
    case Nothing => 0
    case Resolves(i) => 0 - ToResolveCount(xs, i) as int
    case Disputes(i, a) => One(!HasOpen(xs, i, a, ErpMismatch))
    case AsksForReview(i, a) => One(!HasOpen(xs, i, a, ManualFinanceReviewRequired)) - ToResolveCount(xs, i)
  }

  function Gains(xs: seq<BillingException>, es: seq<Effect>): int
    decreases |es|
  {
    if es == [] then 0 else Gain(xs, es[0]) + Gains(xs, es[1..])
  }

  predicate Silent(es: seq<Effect>) {
    forall k | 0 <= k < |es| :: es[k].Nothing?
  }

  /** No invoice is affected twice. */
  ghost predicate Apart(es: seq<Effect>) {
    forall j, k | 0 <= j < k < |es| && !es[j].Nothing? && !es[k].Nothing? :: es[j].invoice != es[k].invoice
  }

  lemma ReviewIsNotResolved(xs: seq<BillingException>, i: RowId, a: Option<RowId>)
    ensures HasOpen(ResolveExceptions(xs, i), i, a, ManualFinanceReviewRequired)
            <==> HasOpen(xs, i, a, ManualFinanceReviewRequired)
  {
    var ys := ResolveExceptions(xs, i);
    var x := BillingException(i, a, ManualFinanceReviewRequired, true);
    if x in xs {
      var k :| 0 <= k < |xs| && xs[k] == x;
      assert ys[k] == x;
    }
    if x in ys {
      var k :| 0 <= k < |ys| && ys[k] == x;
      assert xs[k] == x;
    }
  }

  lemma GainIs(xs: seq<BillingException>, e: Effect)
    ensures OpenCount(Act(xs, e)) == OpenCount(xs) + Gain(xs, e)
  {
    match e {
      case Nothing =>
      case Resolves(i) => ResolvingAccounts(xs, i);
      case Disputes(i, a) => OpeningAccounts(xs, i, a, ErpMismatch);
      case AsksForReview(i, a) =>
        ResolvingAccounts(xs, i);
        OpeningAccounts(ResolveExceptions(xs, i), i, a, ManualFinanceReviewRequired);
        ReviewIsNotResolved(xs, i, a);
    }
  }

  // ----- An effect on one invoice is not seen by an effect on another -----

  lemma {:induction false} ResolvingIsLocal(xs: seq<BillingException>, i: RowId, j: RowId)
    requires i != j
    ensures ToResolveCount(ResolveExceptions(xs, i), j) == ToResolveCount(xs, j)
    decreases |xs|
  {
    if |xs| > 0 {
      var last := |xs| - 1;
      ResolvingIsLocal(xs[..last], i, j);
      assert ResolveExceptions(xs, i)[..last] == ResolveExceptions(xs[..last], i);
    }
  }

  lemma ResolvingKeepsOthersOpen(xs: seq<BillingException>, i: RowId, j: RowId, a: Option<RowId>, kind: ExceptionKind)
    requires i != j
    ensures HasOpen(ResolveExceptions(xs, i), j, a, kind) <==> HasOpen(xs, j, a, kind)
  {
    var ys := ResolveExceptions(xs, i);
    var x := BillingException(j, a, kind, true);
    if x in xs {
      var k :| 0 <= k < |xs| && xs[k] == x;
      assert ys[k] == x;
    }
    if x in ys {
      var k :| 0 <= k < |ys| && ys[k] == x;
      assert xs[k] == x;
    }
  }

  lemma OpeningIsLocal(xs: seq<BillingException>, i: RowId, a: Option<RowId>, kind: ExceptionKind, j: RowId)
    requires i != j
    ensures ToResolveCount(OpenException(xs, i, a, kind).0, j) == ToResolveCount(xs, j)
    ensures forall b, k :: HasOpen(OpenException(xs, i, a, kind).0, j, b, k) <==> HasOpen(xs, j, b, k)
  {
    var x := BillingException(i, a, kind, true);
    assert (xs + [x])[..|xs|] == xs;
  }

  lemma GainIsLocal(xs: seq<BillingException>, d: Effect, e: Effect)
    requires d.Nothing? || e.Nothing? || d.invoice != e.invoice
    ensures Gain(Act(xs, d), e) == Gain(xs, e)
  {
    if !d.Nothing? && !e.Nothing? {
      var i, j := d.invoice, e.invoice;
      var resolved := ResolveExceptions(xs, i);
      ResolvingIsLocal(xs, i, j);
      forall a, k ensures HasOpen(resolved, j, a, k) <==> HasOpen(xs, j, a, k) {
        ResolvingKeepsOthersOpen(xs, i, j, a, k);
      }
      if d.Disputes? { OpeningIsLocal(xs, i, d.attempt, ErpMismatch, j); }
      if d.AsksForReview? { OpeningIsLocal(resolved, i, d.attempt, ManualFinanceReviewRequired, j); }
      hide ResolveExceptions, OpenException, ToResolveCount, HasOpen;
    }
  }

  lemma {:induction false} GainsAreLocal(xs: seq<BillingException>, d: Effect, es: seq<Effect>)
    requires forall k | 0 <= k < |es| :: d.Nothing? || es[k].Nothing? || d.invoice != es[k].invoice
    ensures Gains(Act(xs, d), es) == Gains(xs, es)
    decreases |es|
  {
    if es != [] {
      GainIsLocal(xs, d, es[0]);
      GainsAreLocal(xs, d, es[1..]);
    }
  }

  /** Effects on distinct invoices add up as if each met the exceptions there were at first. */
  lemma {:induction false} GainsAddUp(xs: seq<BillingException>, es: seq<Effect>)
    requires Apart(es)
    ensures OpenCount(ActAll(xs, es)) == OpenCount(xs) + Gains(xs, es)
    decreases |es|
  {
    if es != [] {
      var rest := es[1..];
      GainIs(xs, es[0]);
      assert forall k | 0 <= k < |rest| :: rest[k] == es[k + 1];
      GainsAreLocal(xs, es[0], rest);
      GainsAddUp(Act(xs, es[0]), rest);
    }
  }

  // ----- Only silence is exact -----

  function Mismatch(e: Effect): BillingException
    requires !e.Nothing?
  {
    BillingException(e.invoice, if e.Disputes? then e.attempt else None, ErpMismatch, true)
  }

  /** One more open mismatch on an effect's invoice takes one off that effect's gain, and nothing
      off any other's. */
  lemma MismatchCosts(e: Effect, d: Effect)
    requires !e.Nothing?
    ensures Gain([Mismatch(e)], e) == Gain([], e) - 1
    ensures d.Nothing? || d.invoice != e.invoice ==> Gain([Mismatch(e)], d) == Gain([], d)
  {
    var x := Mismatch(e);
    assert [x][..0] == [];
  }

  lemma {:induction false} SilentGains(xs: seq<BillingException>, es: seq<Effect>)
    requires Silent(es)
    ensures Gains(xs, es) == 0
    decreases |es|
  {
    if es != [] { SilentGains(xs, es[1..]); }
  }

  lemma {:induction false} ElsewhereCostsNothing(e: Effect, es: seq<Effect>)
    requires !e.Nothing? && forall k | 0 <= k < |es| :: es[k].Nothing? || es[k].invoice != e.invoice
    ensures Gains([Mismatch(e)], es) == Gains([], es)
    decreases |es|
  {
    if es != [] {
      MismatchCosts(e, es[0]);
      ElsewhereCostsNothing(e, es[1..]);
    }
  }

  /** Effects that are not silent gain one less on some file of exceptions than on the empty one. */
  lemma {:induction false} LoudIsUneven(es: seq<Effect>) returns (xs: seq<BillingException>)
    requires Apart(es) && !Silent(es)
    ensures Gains(xs, es) == Gains([], es) - 1
    decreases |es|
  {
    var rest := es[1..];
    assert forall k | 0 <= k < |rest| :: rest[k] == es[k + 1];
    if es[0].Nothing? {
      xs := LoudIsUneven(rest);
    } else {
      xs := [Mismatch(es[0])];
      MismatchCosts(es[0], es[0]);
      ElsewhereCostsNothing(es[0], rest);
    }
  }

  // ----- What a pass does to the exceptions -----

  /** The repair raises although what it has done is committed: a new job is stored before it is
      handed over. */
  predicate CommitsWhenRefused(l: Ledger) {
    l.subscription.Some? && !l.subscription.value.status.Cancelled? && Provisioning.FirstLive(l.jobs).None?
  }

  function EffectOf(l: Ledger, i: RowId, w: World, now: Time): (e: Effect)
    requires i < |l.invoices|
    ensures e.Nothing? || e.invoice == i
  {
    if !InvoiceSync.Readable(l.invoices[i], w.erp) then Nothing
    else if InvoiceSettled(InvoiceSync.Reread(l.invoices[i], w.me, w.erp, now)) then
      if l.subscription.None? then AsksForReview(i, LatestAttempt(l.attempts, i))
      else if Blocked(l, i, w, now) && !CommitsWhenRefused(l) then Nothing
      else Resolves(i)
    else if LatestIsPaid(l.attempts, i) then Disputes(i, LatestAttempt(l.attempts, i))
    else Nothing
  }

  /** The committed effects of a pass, up to the invoice at which it raises. */
  function Effects(l: Ledger, order: seq<RowId>, w: World, now: Time): seq<Effect>
    decreases |order|
  {
    if order == [] || order[0] >= |l.invoices| then []
    else
      var o := ReconcileInvoice(l, l, order[0], w, now);
      [EffectOf(l, order[0], w, now)] + if o.Done? then Effects(o.ledger, order[1..], w, now) else []
  }

  function With(l: Ledger, xs: seq<BillingException>): Ledger {
    l.(exceptions := xs)
  }

  lemma RepairIgnoresExceptions(start: Ledger, l: Ledger, r: Report, r': Report, w: World,
                                xs: seq<BillingException>, ys: seq<BillingException>)
    requires l.subscription.Some? && TenantState.Tabled(l.tenant) && StoredSubscriptionStatus(l.subscription.value.status)
    ensures var o, o' := RepairStanding(start, l, r, w), RepairStanding(With(start, xs), With(l, ys), r', w);
            && o'.Done? == o.Done?
            && o'.ledger == With(o.ledger, if o.Raised? && !CommitsWhenRefused(l) then xs else ys)
  {
    var s := Standing(l.tenant, l.subscription.value);
    ConfirmationRaises(s, w.runtimeExists);
    hide Repair, Provisioning.FirstLive, Provisioning.Enqueue;
  }

  lemma RowActs(start: Ledger, l: Ledger, i: RowId, w: World, now: Time, xs: seq<BillingException>)
    requires Book(l, now) && InvoiceSync.Honest(w.erp) && i < |l.invoices|
    ensures var o, o' := ReconcileInvoice(start, l, i, w, now), ReconcileInvoice(With(start, xs), With(l, xs), i, w, now);
            && o'.Done? == o.Done?
            && o'.ledger == With(o.ledger, Act(xs, EffectOf(l, i, w, now)))
  {
    ReadingAgain(start, l, i, w, now);
    ReadingAgain(With(start, xs), With(l, xs), i, w, now);
    if InvoiceSync.Readable(l.invoices[i], w.erp) {
      var m := Refreshed(l, i, w, now);
      assert Refreshed(With(l, xs), i, w, now) == With(m, xs);
      ReadRowActs(start, m, l, i, w, now, xs);
    }
  }

  lemma OpenRowActs(start: Ledger, m: Ledger, i: RowId, w: World, now: Time, xs: seq<BillingException>)
    requires i < |m.invoices| && !InvoiceSettled(m.invoices[i])
    ensures var o, o' := ReconcileRow(start, m, i, w, now), ReconcileRow(With(start, xs), With(m, xs), i, w, now);
            var e := if LatestIsPaid(m.attempts, i) then Disputes(i, LatestAttempt(m.attempts, i)) else Nothing;
            o'.Done? && o.Done? && o'.ledger == With(o.ledger, Act(xs, e))
  {
    hide LatestAttempt, OpenException, InvoiceSettled;
  }

  lemma ReviewRowActs(start: Ledger, m: Ledger, i: RowId, w: World, now: Time, xs: seq<BillingException>)
    requires i < |m.invoices| && InvoiceSettled(m.invoices[i]) && m.subscription.None? && NotAfter(m.attempts, now)
    ensures var o, o' := ReconcileRow(start, m, i, w, now), ReconcileRow(With(start, xs), With(m, xs), i, w, now);
            o'.Done? && o.Done? && o'.ledger == With(o.ledger, Act(xs, AsksForReview(i, LatestAttempt(m.attempts, i))))
  {
    SettleAttempts(m, i, now);
    hide LatestAttempt, ResolveExceptions, OpenException, InvoiceSettled;
  }

  lemma ReadRowActs(start: Ledger, m: Ledger, l: Ledger, i: RowId, w: World, now: Time, xs: seq<BillingException>)
    requires Book(l, now) && i < |l.invoices| && InvoiceSync.Readable(l.invoices[i], w.erp)
    requires m == Refreshed(l, i, w, now)
    ensures var o, o' := ReconcileRow(start, m, i, w, now), ReconcileRow(With(start, xs), With(m, xs), i, w, now);
            && o'.Done? == o.Done?
            && o'.ledger == With(o.ledger, Act(xs, EffectOf(l, i, w, now)))
  {
    hide LatestAttempt, LatestIsPaid, ResolveExceptions, OpenException, HandOverRefused, NotAfter;
    if !InvoiceSettled(m.invoices[i]) {
      OpenRowActs(start, m, i, w, now, xs);
      hide ReconcileRow;
    } else if m.subscription.None? {
      ReviewRowActs(start, m, i, w, now, xs);
      hide ReconcileRow;
    } else {
      SettledRowActs(start, m, i, w, now, xs);
      SettlingKeepsStanding(m, i, w, now);
      assert HandOverRefused(m, w) <==> HandOverRefused(l, w) by { StandingIsRead(l, m, w); }
      hide RepairStanding, Settle;
    }
  }

  lemma StandingIsRead(l: Ledger, m: Ledger, w: World)
    requires m.tenant == l.tenant && m.jobs == l.jobs
    ensures HandOverRefused(m, w) <==> HandOverRefused(l, w)
  {
  }

  lemma SettledRowActs(start: Ledger, m: Ledger, i: RowId, w: World, now: Time, xs: seq<BillingException>)
    requires i < |m.invoices| && m.subscription.Some?
    requires TenantState.Tabled(m.tenant) && StoredSubscriptionStatus(m.subscription.value.status)
    ensures var o := RepairStanding(start, Settle(m, i, now), SettledReport(m, i), w);
            var o' := RepairStanding(With(start, xs), Settle(With(m, xs), i, now), SettledReport(With(m, xs), i), w);
            var refused := m.subscription.value.status.Cancelled? || HandOverRefused(m, w);
            && o'.Done? == o.Done? && (o.Raised? <==> refused)
            && o'.ledger == With(o.ledger, if refused && !CommitsWhenRefused(m) then xs else ResolveExceptions(xs, i))
  {
    var settled := Settle(m, i, now);
    assert Settle(With(m, xs), i, now) == With(settled, ResolveExceptions(xs, i));
    hide RepairStanding, Settle, LatestAttempt, ResolveExceptions;
    RepairRaises(start, settled, SettledReport(m, i), w);
    RepairIgnoresExceptions(start, settled, SettledReport(m, i), SettledReport(With(m, xs), i), w, xs, ResolveExceptions(xs, i));
    SettlingKeepsStanding(m, i, w, now);
    hide HandOverRefused, CommitsWhenRefused;
  }

  lemma SettlingKeepsStanding(m: Ledger, i: RowId, w: World, now: Time)
    ensures var settled := Settle(m, i, now);
            && settled.subscription == m.subscription && settled.tenant == m.tenant
            && (HandOverRefused(settled, w) <==> HandOverRefused(m, w))
            && (CommitsWhenRefused(settled) <==> CommitsWhenRefused(m))
  {
  }

  lemma DoneIgnoresStart(start: Ledger, l: Ledger, i: RowId, w: World, now: Time)
    requires i < |l.invoices|
    ensures var o, o' := ReconcileInvoice(start, l, i, w, now), ReconcileInvoice(l, l, i, w, now);
            o.Done? == o'.Done? && (o.Done? ==> o == o')
  {
    hide LatestAttempt, LatestIsPaid, Repair, Provisioning.Enqueue, InvoiceSync.Resync;
  }

  /** Exceptions on file decide nothing in a pass: the same pass over any of them ends alike, and
      its effects are played on them. */
  lemma {:induction false} PassActs(start: Ledger, l: Ledger, order: seq<RowId>, w: World, now: Time,
                                    s: Summary, s': Summary, xs: seq<BillingException>)
    requires Book(l, now) && InvoiceSync.Honest(w.erp)
    ensures var p, p' := Pass(start, l, order, w, now, s), Pass(With(start, xs), With(l, xs), order, w, now, s');
            && p'.Completed? == p.Completed?
            && p'.ledger == With(p.ledger, ActAll(xs, Effects(l, order, w, now)))
    decreases |order|
  {
    if order != [] && order[0] < |l.invoices| {
      var i, rest := order[0], order[1..];
      var o := ReconcileInvoice(start, l, i, w, now);
      var o' := ReconcileInvoice(With(start, xs), With(l, xs), i, w, now);
      var e := EffectOf(l, i, w, now);
      RowActs(start, l, i, w, now, xs);
      DoneIgnoresStart(start, l, i, w, now);
      if o.Done? {
        InvoiceEffect(start, l, i, w, now);
        var later := Effects(o.ledger, rest, w, now);
        assert Effects(l, order, w, now) == [e] + later && ([e] + later)[1..] == later;
        hide ReconcileInvoice, EffectOf, Book;
        PassActs(o.ledger, o.ledger, rest, w, now, Tally(s, o.report), Tally(s', o'.report), Act(xs, e));
      } else {
        assert Effects(l, order, w, now) == [e] && [e][1..] == [];
      }
    }
  }

  ghost predicate Follows(es: seq<Effect>, order: seq<RowId>) {
    |es| <= |order| && forall k | 0 <= k < |es| :: es[k].Nothing? || es[k].invoice == order[k]
  }

  lemma FollowsInFront(e: Effect, es: seq<Effect>, order: seq<RowId>)
    requires order != [] && Follows(es, order[1..]) && (e.Nothing? || e.invoice == order[0])
    ensures Follows([e] + es, order)
  {
    var all := [e] + es;
    forall k | 0 <= k < |all| ensures all[k].Nothing? || all[k].invoice == order[k] {
      if k > 0 { assert all[k] == es[k - 1] && order[k] == order[1..][k - 1]; }
    }
  }

  lemma {:induction false} EffectsFollowOrder(l: Ledger, order: seq<RowId>, w: World, now: Time)
    ensures Follows(Effects(l, order, w, now), order)
    decreases |order|
  {
    if order != [] && order[0] < |l.invoices| {
      var o, e := ReconcileInvoice(l, l, order[0], w, now), EffectOf(l, order[0], w, now);
      var later := if o.Done? then Effects(o.ledger, order[1..], w, now) else [];
      assert Effects(l, order, w, now) == [e] + later;
      hide ReconcileInvoice, EffectOf;
      if o.Done? { EffectsFollowOrder(o.ledger, order[1..], w, now); }
      hide Effects;
      FollowsInFront(e, later, order);
    }
  }

  lemma EffectsAreApart(l: Ledger, order: seq<RowId>, w: World, now: Time)
    requires Distinct(order)
    ensures Apart(Effects(l, order, w, now))
  {
    EffectsFollowOrder(l, order, w, now);
    hide Effects;
  }

  // ----- When a pass has no effect -----

  /** Reconciling the invoice writes to the exceptions: it can be read, and it is settled without
      being undone by its block, or it is open although its latest attempt is marked paid. */
  predicate Loud(l: Ledger, i: RowId, w: World, now: Time)
    requires i < |l.invoices|
  {
    && InvoiceSync.Readable(l.invoices[i], w.erp)
    && if InvoiceSettled(InvoiceSync.Reread(l.invoices[i], w.me, w.erp, now))
       then !Blocked(l, i, w, now) || CommitsWhenRefused(l)
       else LatestIsPaid(l.attempts, i)
  }

  /** No invoice is loud up to the first one at which the pass raises. */
  ghost predicate QuietUpToBlock(l: Ledger, order: seq<RowId>, w: World, now: Time)
    requires forall a | 0 <= a < |order| :: order[a] < |l.invoices|
  {
    forall a | 0 <= a < |order| && (forall b | 0 <= b < a :: !Blocked(l, order[b], w, now)) :: !Loud(l, order[a], w, now)
  }

  lemma LoudHasAnEffect(l: Ledger, i: RowId, w: World, now: Time)
    requires i < |l.invoices|
    ensures EffectOf(l, i, w, now).Nothing? <==> !Loud(l, i, w, now)
  {
    hide LatestIsPaid, LatestAttempt, HandOverRefused;
  }

  /** A quiet invoice that does not block leaves everything but its own row as it was. */
  lemma QuietStep(l: Ledger, i: RowId, w: World, now: Time)
    requires Book(l, now) && InvoiceSync.Honest(w.erp) && i < |l.invoices|
    requires !Loud(l, i, w, now) && !Blocked(l, i, w, now)
    ensures var o := ReconcileInvoice(l, l, i, w, now); o.Done? && o.ledger == Refreshed(l, i, w, now)
  {
    ReadingAgain(l, l, i, w, now);
    hide LatestIsPaid, LatestAttempt, ReconcileInvoice;
  }

  lemma OtherRowsJudgedAlike(l: Ledger, i: RowId, j: RowId, w: World, now: Time)
    requires i < |l.invoices| && j < |l.invoices| && i != j
    ensures var m := Refreshed(l, i, w, now);
            && (Blocked(m, j, w, now) <==> Blocked(l, j, w, now))
            && (Loud(m, j, w, now) <==> Loud(l, j, w, now))
  {
    hide LatestIsPaid;
  }

  lemma FirstEffect(l: Ledger, order: seq<RowId>, w: World, now: Time)
    requires Book(l, now) && InvoiceSync.Honest(w.erp) && order != [] && order[0] < |l.invoices|
    ensures var i, es := order[0], Effects(l, order, w, now);
            && es != [] && (es[0].Nothing? <==> !Loud(l, i, w, now))
            && (Blocked(l, i, w, now) ==> |es| == 1)
            && (!Loud(l, i, w, now) && !Blocked(l, i, w, now) ==>
                  es[1..] == Effects(Refreshed(l, i, w, now), order[1..], w, now)
                  && Book(Refreshed(l, i, w, now), now))
  {
    var i := order[0];
    LoudHasAnEffect(l, i, w, now);
    StepCompletes(l, l, i, w, now);
    if !Loud(l, i, w, now) && !Blocked(l, i, w, now) {
      QuietStep(l, i, w, now);
      InvoiceEffect(l, l, i, w, now);
    }
    hide ReconcileInvoice, EffectOf, Loud, Blocked, Refreshed, Book;
  }

  lemma BlockedOrLoudFirst(l: Ledger, order: seq<RowId>, w: World, now: Time)
    requires order != [] && forall a | 0 <= a < |order| :: order[a] < |l.invoices|
    ensures Loud(l, order[0], w, now) ==> !QuietUpToBlock(l, order, w, now)
    ensures !Loud(l, order[0], w, now) && Blocked(l, order[0], w, now) ==> QuietUpToBlock(l, order, w, now)
  {
    hide Loud, Blocked;
  }

  lemma SilentSplits(es: seq<Effect>)
    requires es != []
    ensures Silent(es) <==> es[0].Nothing? && Silent(es[1..])
  {
    assert forall k | 0 <= k < |es| - 1 :: es[1..][k] == es[k + 1];
    assert forall k | 0 < k < |es| :: es[k] == es[1..][k - 1];
  }

  lemma ListingRest(l: Ledger, order: seq<RowId>, w: World, now: Time)
    requires order != [] && Listing(order, l.invoices, w.me)
    ensures order[0] < |l.invoices| && Listing(order[1..], Refreshed(l, order[0], w, now).invoices, w.me)
  {
    assert forall a | 0 <= a < |order| - 1 :: order[1..][a] == order[a + 1] && order[a + 1] != order[0];
  }

  /** A pass has no effect on the exceptions exactly if its ledger is quiet up to the first block. */
  lemma {:induction false} SilentExactlyWhen(l: Ledger, order: seq<RowId>, w: World, now: Time)
    requires Book(l, now) && InvoiceSync.Honest(w.erp) && Listing(order, l.invoices, w.me)
    ensures Silent(Effects(l, order, w, now)) <==> QuietUpToBlock(l, order, w, now)
    decreases |order|
  {
    if order == [] {
      assert Effects(l, order, w, now) == [];
      return;
    }
    var es := Effects(l, order, w, now);
    assert forall a | 0 <= a < |order| :: order[a] < |l.invoices|;
    hide Loud, Blocked, QuietUpToBlock, Effects, Book, Silent, Refreshed, InvoiceSync.Honest;
    ListingRest(l, order, w, now);
    FirstEffect(l, order, w, now);
    BlockedOrLoudFirst(l, order, w, now);
    SilentSplits(es);
    if Loud(l, order[0], w, now) {
    } else if Blocked(l, order[0], w, now) {
      NothingIsSilent(es[1..]);
    } else {
      QuietRest(l, order, w, now);
      SilentExactlyWhen(Refreshed(l, order[0], w, now), order[1..], w, now);
    }
  }

  lemma NothingIsSilent(es: seq<Effect>)
    requires es == []
    ensures Silent(es)
  {
  }

  lemma QuietRest(l: Ledger, order: seq<RowId>, w: World, now: Time)
    requires order != [] && Listing(order, l.invoices, w.me)
    requires !Loud(l, order[0], w, now) && !Blocked(l, order[0], w, now)
    ensures QuietUpToBlock(l, order, w, now) <==> QuietUpToBlock(Refreshed(l, order[0], w, now), order[1..], w, now)
  {
    var i, rest, m := order[0], order[1..], Refreshed(l, order[0], w, now);
    forall a | 0 <= a < |rest|
      ensures Blocked(m, rest[a], w, now) <==> Blocked(l, order[a + 1], w, now)
      ensures Loud(m, rest[a], w, now) <==> Loud(l, order[a + 1], w, now)
    {
      OtherRowsJudgedAlike(l, i, rest[a], w, now);
    }
    hide Loud, Blocked;
    if QuietUpToBlock(l, order, w, now) {
      forall a | 0 <= a < |rest| && (forall b | 0 <= b < a :: !Blocked(m, rest[b], w, now)) ensures !Loud(m, rest[a], w, now) {
        forall b | 0 <= b < a + 1 ensures !Blocked(l, order[b], w, now) {
          if b > 0 { assert rest[b - 1] == order[b]; }
        }
      }
    }
    if QuietUpToBlock(m, rest, w, now) {
      forall a | 0 <= a < |order| && (forall b | 0 <= b < a :: !Blocked(l, order[b], w, now)) ensures !Loud(l, order[a], w, now) {
        if a > 0 {
          forall b | 0 <= b < a - 1 ensures !Blocked(m, rest[b], w, now) {
            assert rest[b] == order[b + 1];
          }
          assert rest[a - 1] == order[a];
        }
      }
    }
  }

  // ----- One tenant, and the whole cycle -----

  /** The tenant's part of the condition, on its records and the invoice table at its turn: the list
      cannot be copied, or no invoice blocks the pass, or the pass is quiet up to its block. */
  ghost predicate TenantAccounted(invoices: seq<Invoice>, c: Candidate, now: Time) {
    var t := Synced(invoices, c.world, now);
    t.Some? ==>
      var l, order := c.ledger.(invoices := t.value), BillingOrder(t.value, c.world.me);
      || (forall a | 0 <= a < |order| :: !Blocked(l, order[a], c.world, now))
      || QuietUpToBlock(l, order, c.world, now)
  }

  /** The same of every candidate, each with the invoice table as the earlier passes leave it. */
  ghost predicate CycleAccounted(invoices: seq<Invoice>, candidates: seq<Candidate>, now: Time)
    decreases |candidates|
  {
    candidates == []
    || (TenantAccounted(invoices, candidates[0], now)
        && CycleAccounted(PassOf(invoices, candidates[0], now).ledger.invoices, candidates[1..], now))
  }

  /** The candidate with other exceptions on file. */
  function Filed(c: Candidate, xs: seq<BillingException>): Candidate {
    c.(ledger := With(c.ledger, xs))
  }

  function Filing(candidates: seq<Candidate>, files: seq<seq<BillingException>>): (filed: seq<Candidate>)
    requires |files| == |candidates|
    ensures |filed| == |candidates| && forall k | 0 <= k < |filed| :: filed[k] == Filed(candidates[k], files[k])
  {
    seq(|candidates|, k requires 0 <= k < |candidates| => Filed(candidates[k], files[k]))
  }

  function TenantEffects(invoices: seq<Invoice>, c: Candidate, now: Time): seq<Effect> {
    var t := Synced(invoices, c.world, now);
    if t.None? then []
    else Effects(c.ledger.(invoices := t.value), BillingOrder(t.value, c.world.me), c.world, now)
  }

  ghost predicate Ready(invoices: seq<Invoice>, c: Candidate, now: Time) {
    Book(c.ledger.(invoices := invoices), now) && InvoiceSync.Honest(c.world.erp)
  }

  lemma TenantPassActs(invoices: seq<Invoice>, c: Candidate, now: Time, xs: seq<BillingException>)
    requires Ready(invoices, c, now)
    ensures var p, p' := PassOf(invoices, c, now), PassOf(invoices, Filed(c, xs), now);
            && p'.Completed? == p.Completed? && p'.ledger.invoices == p.ledger.invoices
            && p'.ledger.exceptions == ActAll(xs, TenantEffects(invoices, c, now))
    ensures Apart(TenantEffects(invoices, c, now))
  {
    var l := c.ledger.(invoices := invoices);
    var t := Synced(invoices, c.world, now);
    assert With(l, xs) == Filed(c, xs).ledger.(invoices := invoices);
    if t.Some? {
      var m, order := l.(invoices := t.value), BillingOrder(t.value, c.world.me);
      SyncedBook(l, c.world, now);
      BillingOrderEnumerates(t.value, c.world.me);
      hide Pass, Effects, Book, BillingOrder, Synced;
      EffectsAreApart(m, order, c.world, now);
      PassActs(l, m, order, c.world, now, NOTHING_YET, NOTHING_YET, xs);
      assert With(m, xs) == With(l, xs).(invoices := t.value);
    }
  }

  /** A pass that completes is accounted for by its report, a pass that raises exactly if it was
      silent. */
  lemma AccountedExactlyWhen(invoices: seq<Invoice>, c: Candidate, now: Time)
    requires Ready(invoices, c, now)
    ensures TenantAccounted(invoices, c, now)
            <==> PassOf(invoices, c, now).Completed? || Silent(TenantEffects(invoices, c, now))
  {
    var l := c.ledger.(invoices := invoices);
    var t := Synced(invoices, c.world, now);
    if t.Some? {
      var m, order := l.(invoices := t.value), BillingOrder(t.value, c.world.me);
      SyncedBook(l, c.world, now);
      VisitedIsListing(t.value, c.world.me, None);
      hide Pass, Effects, Book, BillingOrder, Synced, Blocked, QuietUpToBlock, Silent;
      PassCompletes(l, m, order, c.world, now, NOTHING_YET);
      SilentExactlyWhen(m, order, c.world, now);
    }
  }

  /** What one tenant leaves unreported, whatever is on file. */
  function Share(invoices: seq<Invoice>, c: Candidate, now: Time, xs: seq<BillingException>): int {
    if PassOf(invoices, c, now).Completed? then 0 else Gains(xs, TenantEffects(invoices, c, now))
  }

  lemma UnreportedSplits(invoices: seq<Invoice>, candidates: seq<Candidate>, files: seq<seq<BillingException>>, now: Time)
    requires |files| == |candidates| > 0 && Ready(invoices, candidates[0], now)
    ensures Unreported(invoices, Filing(candidates, files), now)
            == Share(invoices, candidates[0], now, files[0])
               + Unreported(PassOf(invoices, candidates[0], now).ledger.invoices, Filing(candidates[1..], files[1..]), now)
  {
    var filed := Filing(candidates, files);
    TenantPassActs(invoices, candidates[0], now, files[0]);
    GainsAddUp(files[0], TenantEffects(invoices, candidates[0], now));
    assert filed[0] == Filed(candidates[0], files[0]);
    assert filed[1..] == Filing(candidates[1..], files[1..]);
    hide PassOf, TenantEffects, OpenCount, Filing;
  }

  lemma RestIsBookkept(invoices: seq<Invoice>, candidates: seq<Candidate>, now: Time)
    requires candidates != [] && Bookkept(invoices, candidates, now)
    ensures Ready(invoices, candidates[0], now)
    ensures Bookkept(PassOf(invoices, candidates[0], now).ledger.invoices, candidates[1..], now)
  {
    var c := candidates[0];
    var t := PassOf(invoices, c, now).ledger.invoices;
    PassOfKeepsKeyed(invoices, c, now);
    forall d | d in candidates[1..] ensures Book(d.ledger.(invoices := t), now) && InvoiceSync.Honest(d.world.erp) {
      assert d in candidates;
    }
    hide PassOf;
  }

  lemma {:induction false} AccountedLeavesNothing(invoices: seq<Invoice>, candidates: seq<Candidate>,
                                                  files: seq<seq<BillingException>>, now: Time)
    requires |files| == |candidates| && Bookkept(invoices, candidates, now) && CycleAccounted(invoices, candidates, now)
    ensures Unreported(invoices, Filing(candidates, files), now) == 0
    decreases |candidates|
  {
    if candidates != [] {
      var c := candidates[0];
      RestIsBookkept(invoices, candidates, now);
      UnreportedSplits(invoices, candidates, files, now);
      AccountedExactlyWhen(invoices, c, now);
      if Silent(TenantEffects(invoices, c, now)) {
        SilentGains(files[0], TenantEffects(invoices, c, now));
      }
      hide PassOf, TenantEffects, Filing, Unreported, Bookkept, Silent, TenantAccounted;
      AccountedLeavesNothing(PassOf(invoices, c, now).ledger.invoices, candidates[1..], files[1..], now);
    }
  }

  function Unfiled(n: nat): (files: seq<seq<BillingException>>)
    ensures |files| == n
  {
    seq(n, _ => [])
  }

  /** A candidate that is not accounted for makes the remainder differ between two files. */
  lemma {:induction false} UnaccountedIsUneven(invoices: seq<Invoice>, candidates: seq<Candidate>, now: Time)
      returns (fuller: seq<seq<BillingException>>, emptier: seq<seq<BillingException>>)
    requires Bookkept(invoices, candidates, now) && !CycleAccounted(invoices, candidates, now)
    ensures |fuller| == |emptier| == |candidates|
    ensures Unreported(invoices, Filing(candidates, fuller), now) == Unreported(invoices, Filing(candidates, emptier), now) - 1
    decreases |candidates|
  {
    var c, rest := candidates[0], candidates[1..];
    RestIsBookkept(invoices, candidates, now);
    AccountedExactlyWhen(invoices, c, now);
    if TenantAccounted(invoices, c, now) {
      var xs, ys := UnaccountedIsUneven(PassOf(invoices, c, now).ledger.invoices, rest, now);
      fuller, emptier := [[]] + xs, [[]] + ys;
      assert fuller[1..] == xs && emptier[1..] == ys;
    } else {
      TenantPassActs(invoices, c, now, []);
      var xs := LoudIsUneven(TenantEffects(invoices, c, now));
      fuller, emptier := [xs] + Unfiled(|rest|), [[]] + Unfiled(|rest|);
      assert fuller[1..] == emptier[1..] == Unfiled(|rest|);
    }
    UnreportedSplits(invoices, candidates, fuller, now);
    UnreportedSplits(invoices, candidates, emptier, now);
    hide PassOf, TenantEffects, Filing, Unreported, Bookkept, TenantAccounted;
  }

  // ----- The report -----

  /** The counters of the cycle account for the change in open exceptions. */
  ghost predicate ReportExact(invoices: seq<Invoice>, candidates: seq<Candidate>, now: Time) {
    var r := Cycle(invoices, candidates, now);
    OpenTotal(r.ledgers)
    == OpenTotal(LedgersOf(candidates)) + r.totals.summary.exceptionsOpened - r.totals.summary.exceptionsResolved
  }

  lemma FilingIsBookkept(invoices: seq<Invoice>, candidates: seq<Candidate>, files: seq<seq<BillingException>>, now: Time)
    requires |files| == |candidates| && Bookkept(invoices, candidates, now)
    ensures Bookkept(invoices, Filing(candidates, files), now)
  {
    forall c | c in Filing(candidates, files) ensures Ready(invoices, c, now) {
      var k :| 0 <= k < |candidates| && Filing(candidates, files)[k] == c;
      assert candidates[k] in candidates;
    }
    assert forall c | c in Filing(candidates, files) :: Ready(invoices, c, now);
  }

  lemma ExactMeansNothingUnreported(invoices: seq<Invoice>, candidates: seq<Candidate>, files: seq<seq<BillingException>>, now: Time)
    requires |files| == |candidates| && Bookkept(invoices, candidates, now)
    ensures ReportExact(invoices, Filing(candidates, files), now)
            <==> Unreported(invoices, Filing(candidates, files), now) == 0
  {
    FilingIsBookkept(invoices, candidates, files, now);
    CycleAccounts(invoices, Filing(candidates, files), now);
    hide Cycle, Unreported, OpenTotal, LedgersOf, Filing;
  }

  /** Whatever exceptions the candidates have on file, the report is exact. */
  ghost predicate AlwaysExact(invoices: seq<Invoice>, candidates: seq<Candidate>, now: Time) {
    forall files: seq<seq<BillingException>> | |files| == |candidates| :: ReportExact(invoices, Filing(candidates, files), now)
  }

  /** Over all exceptions on file, the cycle's report is exact if and only if for every candidate the
      list cannot be copied, or nothing blocks its pass, or its pass is quiet up to the block: no
      invoice before it is settled, or open with a latest attempt marked paid. */
  lemma ReportExactlyWhen(invoices: seq<Invoice>, candidates: seq<Candidate>, now: Time)
    requires Bookkept(invoices, candidates, now)
    ensures AlwaysExact(invoices, candidates, now) <==> CycleAccounted(invoices, candidates, now)
  {
    hide ReportExact, Unreported, Filing, Bookkept;
    if CycleAccounted(invoices, candidates, now) {
      forall files: seq<seq<BillingException>> | |files| == |candidates|
        ensures ReportExact(invoices, Filing(candidates, files), now)
      {
        AccountedLeavesNothing(invoices, candidates, files, now);
        ExactMeansNothingUnreported(invoices, candidates, files, now);
      }
    } else {
      var xs, ys := UnaccountedIsUneven(invoices, candidates, now);
      ExactMeansNothingUnreported(invoices, candidates, xs, now);
      ExactMeansNothingUnreported(invoices, candidates, ys, now);
    }
  }

  lemma AloneAlwaysExact(invoices: seq<Invoice>, c: Candidate, now: Time)
    ensures (forall xs :: ReportExact(invoices, [Filed(c, xs)], now)) <==> AlwaysExact(invoices, [c], now)
  {
    hide ReportExact, Filing, Filed;
    if forall xs :: ReportExact(invoices, [Filed(c, xs)], now) {
      forall files: seq<seq<BillingException>> | |files| == |[c]| ensures ReportExact(invoices, Filing([c], files), now) {
        FilingAlone(c, files);
        assert ReportExact(invoices, [Filed(c, files[0])], now);
      }
    } else {
      var xs :| !ReportExact(invoices, [Filed(c, xs)], now);
      FilingAlone(c, [xs]);
      assert !ReportExact(invoices, Filing([c], [xs]), now);
    }
  }

  /** For a single tenant the condition is about its stored records and the ERP's answers alone. */
  lemma TenantReportExactlyWhen(invoices: seq<Invoice>, c: Candidate, now: Time)
    requires Ready(invoices, c, now)
    ensures (forall xs :: ReportExact(invoices, [Filed(c, xs)], now)) <==> TenantAccounted(invoices, c, now)
  {
    AloneBookkept(invoices, c, now);
    hide *;
    AloneAlwaysExact(invoices, c, now);
    ReportExactlyWhen(invoices, [c], now);
    AloneAccounted(invoices, c, now);
  }

  lemma FilingAlone(c: Candidate, files: seq<seq<BillingException>>)
    requires |files| == |[c]|
    ensures Filing([c], files) == [Filed(c, files[0])]
  {
  }

  lemma AloneBookkept(invoices: seq<Invoice>, c: Candidate, now: Time)
    requires Ready(invoices, c, now)
    ensures Bookkept(invoices, [c], now)
  {
  }

  lemma AloneAccounted(invoices: seq<Invoice>, c: Candidate, now: Time)
    ensures CycleAccounted(invoices, [c], now) <==> TenantAccounted(invoices, c, now)
  {
    assert [c][1..] == [];
    hide TenantAccounted, PassOf;
  }
}
