/** The reconciliation cycle over all candidate tenants: a tenant whose pass raises is rolled back
    to its last commit, counted as failed, and the cycle goes on. */
module ReconciliationCycle {
  import opened Common
  import opened Statuses
  import opened Rows
  import opened Ledgers
  import opened Reconciliation
  import opened LedgerAgreement
  import InvoiceSync
  import Sorting

  /** A tenant's own records, and the answers it gets. The invoice table is shared. */
  datatype Candidate = Candidate(ledger: Ledger, world: World)

  datatype Totals = Totals(summary: Summary, failedTenants: nat)

  datatype Result = Result(invoices: seq<Invoice>, ledgers: seq<Ledger>, totals: Totals)

  function Sum(x: Summary, y: Summary): Summary {
    Summary(x.inspected + y.inspected, x.reconciled + y.reconciled, x.settled + y.settled,
            x.attemptsUpdated + y.attemptsUpdated, x.repairs + y.repairs, x.requeues + y.requeues,
            x.exceptionsOpened + y.exceptionsOpened, x.exceptionsResolved + y.exceptionsResolved)
  }

  function Counted(p: PassOutcome, t: Totals): Totals {
    match p
    case Completed(_, s) => t.(summary := Sum(s, t.summary))
    case Aborted(_) => t.(failedTenants := t.failedTenants + 1)
  }

  function PassOf(invoices: seq<Invoice>, c: Candidate, now: Time): PassOutcome {
    TenantPass(c.ledger.(invoices := invoices), c.world, now)
  }

  function Cycle(invoices: seq<Invoice>, candidates: seq<Candidate>, now: Time): Result
    decreases |candidates|
  {
    if candidates == [] then Result(invoices, [], Totals(NOTHING_YET, 0))
    else
      var p := PassOf(invoices, candidates[0], now);
      var rest := Cycle(p.ledger.invoices, candidates[1..], now);
      Result(rest.invoices, [p.ledger] + rest.ledgers, Counted(p, rest.totals))
  }

  /** The counters after one more tenant. */
  function Added(t: Totals, p: PassOutcome): Totals {
    match p
    case Completed(_, s) => t.(summary := Sum(t.summary, s))
    case Aborted(_) => t.(failedTenants := t.failedTenants + 1)
  }

  /** A result so far, followed by that of the remaining tenants. */
  function Followed(ledgers: seq<Ledger>, t: Totals, rest: Result): Result {
    Result(rest.invoices, ledgers + rest.ledgers,
           Totals(Sum(t.summary, rest.totals.summary), t.failedTenants + rest.totals.failedTenants))
  }

  lemma OneMore(ledgers: seq<Ledger>, t: Totals, p: PassOutcome, rest: Result)
    ensures Followed(ledgers, t, Result(rest.invoices, [p.ledger] + rest.ledgers, Counted(p, rest.totals)))
            == Followed(ledgers + [p.ledger], Added(t, p), rest)
  {
    assert ledgers + ([p.ledger] + rest.ledgers) == (ledgers + [p.ledger]) + rest.ledgers;
  }

  lemma NothingFollows(invoices: seq<Invoice>, ledgers: seq<Ledger>, t: Totals)
    ensures Followed(ledgers, t, Result(invoices, [], Totals(NOTHING_YET, 0))) == Result(invoices, ledgers, t)
    ensures forall r :: Followed([], Totals(NOTHING_YET, 0), r) == r
  {
    assert ledgers + [] == ledgers;
    forall r: Result ensures Followed([], Totals(NOTHING_YET, 0), r) == r {
      assert [] + r.ledgers == r.ledgers;
    }
  }

  /** The loop: the counters and the invoice table are carried from tenant to tenant. */
  method RunCycle(invoices: seq<Invoice>, candidates: seq<Candidate>, now: Time) returns (r: Result)
    ensures r == Cycle(invoices, candidates, now)
  {
    hide PassOf, Followed, Counted, Sum;
    var table, totals := invoices, Totals(NOTHING_YET, 0);
    var ledgers: seq<Ledger> := [];
    NothingFollows(invoices, ledgers, totals);
    assert candidates[0..] == candidates;
    for i := 0 to |candidates|
      invariant Cycle(invoices, candidates, now) == Followed(ledgers, totals, Cycle(table, candidates[i..], now))
    {
      assert candidates[i..][1..] == candidates[i + 1..];
      var p := PassOf(table, candidates[i], now);
      OneMore(ledgers, totals, p, Cycle(p.ledger.invoices, candidates[i + 1..], now));
      match p {
        case Completed(_, summary) => totals := totals.(summary := Sum(totals.summary, summary));
        case Aborted(_) => totals := totals.(failedTenants := totals.failedTenants + 1);
      }
      ledgers := ledgers + [p.ledger];
      table := p.ledger.invoices;
    }
    NothingFollows(table, ledgers, totals);
    return Result(table, ledgers, totals);
  }

  /** One counter summed over the passes that completed, in the cycle's order. */
  function SumOf(invoices: seq<Invoice>, candidates: seq<Candidate>, now: Time, counter: Summary -> nat): nat
    decreases |candidates|
  {
    if candidates == [] then 0
    else
      var p := PassOf(invoices, candidates[0], now);
      (if p.Completed? then counter(p.summary) else 0) + SumOf(p.ledger.invoices, candidates[1..], now, counter)
  }

  function FailedIn(invoices: seq<Invoice>, candidates: seq<Candidate>, now: Time): nat
    decreases |candidates|
  {
    if candidates == [] then 0
    else
      var p := PassOf(invoices, candidates[0], now);
      One(p.Aborted?) + FailedIn(p.ledger.invoices, candidates[1..], now)
  }

  /** Every counter of a cycle is the sum of the same counter of its completed passes; the others are
      counted as failed. */
  lemma {:induction false} CycleSums(invoices: seq<Invoice>, candidates: seq<Candidate>, now: Time)
    ensures var t := Cycle(invoices, candidates, now).totals;
            && t.failedTenants == FailedIn(invoices, candidates, now)
            && t.summary.inspected == SumOf(invoices, candidates, now, (s: Summary) => s.inspected)
            && t.summary.reconciled == SumOf(invoices, candidates, now, (s: Summary) => s.reconciled)
            && t.summary.settled == SumOf(invoices, candidates, now, (s: Summary) => s.settled)
            && t.summary.attemptsUpdated == SumOf(invoices, candidates, now, (s: Summary) => s.attemptsUpdated)
            && t.summary.repairs == SumOf(invoices, candidates, now, (s: Summary) => s.repairs)
            && t.summary.requeues == SumOf(invoices, candidates, now, (s: Summary) => s.requeues)
            && t.summary.exceptionsOpened == SumOf(invoices, candidates, now, (s: Summary) => s.exceptionsOpened)
            && t.summary.exceptionsResolved == SumOf(invoices, candidates, now, (s: Summary) => s.exceptionsResolved)
    decreases |candidates|
  {
    hide PassOf;
    if candidates != [] {
      CycleSums(PassOf(invoices, candidates[0], now).ledger.invoices, candidates[1..], now);
    }
  }

  function OpenTotal(ledgers: seq<Ledger>): nat
    decreases |ledgers|
  {
    if ledgers == [] then 0 else OpenCount(ledgers[0].exceptions) + OpenTotal(ledgers[1..])
  }

  function LedgersOf(candidates: seq<Candidate>): seq<Ledger>
    decreases |candidates|
  {
    if candidates == [] then [] else [candidates[0].ledger] + LedgersOf(candidates[1..])
  }

  /** What the failed tenants' passes had committed before they raised. */
  function Unreported(invoices: seq<Invoice>, candidates: seq<Candidate>, now: Time): int
    decreases |candidates|
  {
    if candidates == [] then 0
    else
      var p := PassOf(invoices, candidates[0], now);
      (if p.Aborted? then OpenCount(p.ledger.exceptions) - OpenCount(candidates[0].ledger.exceptions) else 0)
      + Unreported(p.ledger.invoices, candidates[1..], now)
  }

  ghost predicate Bookkept(invoices: seq<Invoice>, candidates: seq<Candidate>, now: Time) {
    forall c | c in candidates :: Book(c.ledger.(invoices := invoices), now) && InvoiceSync.Honest(c.world.erp)
  }

  lemma {:induction false} PassKeepsKeyed(start: Ledger, l: Ledger, order: seq<RowId>, w: World, now: Time, s: Summary)
    requires Book(l, now) && InvoiceSync.Keyed(start.invoices) && InvoiceSync.Honest(w.erp)
    ensures InvoiceSync.Keyed(Pass(start, l, order, w, now, s).ledger.invoices)
    decreases |order|
  {
    if order != [] && order[0] < |l.invoices| {
      ReadingAgain(start, l, order[0], w, now);
      var o := ReconcileInvoice(start, l, order[0], w, now);
      if o.Done? {
        InvoiceEffect(start, l, order[0], w, now);
        PassKeepsKeyed(o.ledger, o.ledger, order[1..], w, now, Tally(s, o.report));
      }
    }
  }

  lemma PassOfKeepsKeyed(invoices: seq<Invoice>, c: Candidate, now: Time)
    requires Book(c.ledger.(invoices := invoices), now) && InvoiceSync.Honest(c.world.erp)
    ensures InvoiceSync.Keyed(PassOf(invoices, c, now).ledger.invoices)
  {
    var l := c.ledger.(invoices := invoices);
    var synced := Synced(invoices, c.world, now);
    if synced.Some? {
      SyncedBook(l, c.world, now);
      PassKeepsKeyed(l, l.(invoices := synced.value), BillingOrder(synced.value, c.world.me), c.world, now, NOTHING_YET);
    }
  }

  /** Over the whole cycle the open exceptions are those before plus the ones reported opened minus
      the ones reported resolved, plus what failed passes had committed: no counter has that. With
      no failed tenant the report is exact. */
  lemma {:induction false} CycleAccounts(invoices: seq<Invoice>, candidates: seq<Candidate>, now: Time)
    requires Bookkept(invoices, candidates, now)
    ensures var r := Cycle(invoices, candidates, now);
            && |r.ledgers| == |candidates|
            && OpenTotal(r.ledgers)
               == OpenTotal(LedgersOf(candidates)) + r.totals.summary.exceptionsOpened
                  - r.totals.summary.exceptionsResolved + Unreported(invoices, candidates, now)
            && (r.totals.failedTenants == 0 ==> Unreported(invoices, candidates, now) == 0)
    decreases |candidates|
  {
    if candidates != [] {
      var c := candidates[0];
      var p := PassOf(invoices, c, now);
      PassOutcomeHolds(c.ledger.(invoices := invoices), None, c.world, now);
      PassOfKeepsKeyed(invoices, c, now);
      forall d | d in candidates[1..]
        ensures Book(d.ledger.(invoices := p.ledger.invoices), now) && InvoiceSync.Honest(d.world.erp)
      {
        assert d in candidates;
      }
      hide FilteredPass, OpenCount;
      CycleAccounts(p.ledger.invoices, candidates[1..], now);
    }
  }

  lemma DisputedStep(l: Ledger, i: RowId, w: World, now: Time)
    requires Book(l, now) && InvoiceSync.Honest(w.erp) && i < |l.invoices|
    requires InvoiceSync.Readable(l.invoices[i], w.erp)
    requires !InvoiceSettled(InvoiceSync.Reread(l.invoices[i], w.me, w.erp, now)) && LatestIsPaid(l.attempts, i)
    requires !HasOpen(l.exceptions, i, LatestAttempt(l.attempts, i), ErpMismatch)
    ensures var o := ReconcileInvoice(l, l, i, w, now);
            && o.Done? && OpenCount(o.ledger.exceptions) == OpenCount(l.exceptions) + 1
            && InvoiceSync.Keyed(o.ledger.invoices)
            && o.ledger.invoices == l.invoices[i := InvoiceSync.Reread(l.invoices[i], w.me, w.erp, now)]
  {
    ReadingAgain(l, l, i, w, now);
    OpeningAccounts(l.exceptions, i, LatestAttempt(l.attempts, i), ErpMismatch);
    hide ReconcileInvoice, LatestAttempt, OpenCount, Book;
  }

  lemma UnreadableAborts(l: Ledger, j: RowId, w: World, now: Time, s: Summary)
    requires InvoiceSync.Keyed(l.invoices) && InvoiceSync.Honest(w.erp) && j < |l.invoices|
    requires !InvoiceSync.Readable(l.invoices[j], w.erp)
    ensures Pass(l, l, [j], w, now, s) == Aborted(l)
  {
    ReadingAgain(l, l, j, w, now);
    hide ReconcileInvoice;
  }

  lemma FailedPassKeepsItsDispute(l: Ledger, i: RowId, j: RowId, w: World, now: Time)
    requires Book(l, now) && InvoiceSync.Honest(w.erp) && i < |l.invoices| && j < |l.invoices| && i != j
    requires InvoiceSync.Readable(l.invoices[i], w.erp) && !InvoiceSync.Readable(l.invoices[j], w.erp)
    requires !InvoiceSettled(InvoiceSync.Reread(l.invoices[i], w.me, w.erp, now)) && LatestIsPaid(l.attempts, i)
    requires !HasOpen(l.exceptions, i, LatestAttempt(l.attempts, i), ErpMismatch)
    ensures var p := Pass(l, l, [i, j], w, now, NOTHING_YET);
            p.Aborted? && OpenCount(p.ledger.exceptions) == OpenCount(l.exceptions) + 1
  {
    DisputedStep(l, i, w, now);
    hide *;
    var o := ReconcileInvoice(l, l, i, w, now);
    FirstOfTwo(l, i, j, w, now, NOTHING_YET);
    UnreadableAborts(o.ledger, j, w, now, Tally(NOTHING_YET, o.report));
  }

  /** The copying changes nothing, the tenant has two invoices, the first one in the pass's order is
      open although its latest attempt is marked paid, and the second one cannot be read. */
  ghost predicate DisputesThenFails(invoices: seq<Invoice>, c: Candidate, i: RowId, j: RowId, now: Time) {
    var w := c.world;
    && Synced(invoices, w, now) == Some(invoices) && BillingOrder(invoices, w.me) == [i, j]
    && i < |invoices| && j < |invoices| && i != j
    && InvoiceSync.Readable(invoices[i], w.erp) && !InvoiceSync.Readable(invoices[j], w.erp)
    && !InvoiceSettled(InvoiceSync.Reread(invoices[i], w.me, w.erp, now))
    && LatestIsPaid(c.ledger.attempts, i)
    && !HasOpen(c.ledger.exceptions, i, LatestAttempt(c.ledger.attempts, i), ErpMismatch)
  }

  /** A tenant whose pass disputes one invoice and then cannot read the next counts as failed: the
      exception it opened stays, and no counter of the cycle has it. */
  lemma FailedTenantIsUnreported(invoices: seq<Invoice>, c: Candidate, i: RowId, j: RowId, now: Time)
    requires Book(c.ledger.(invoices := invoices), now) && InvoiceSync.Honest(c.world.erp)
    requires DisputesThenFails(invoices, c, i, j, now)
    ensures var r := Cycle(invoices, [c], now);
            && r.totals == Totals(NOTHING_YET, 1)
            && Unreported(invoices, [c], now) == 1
            && OpenTotal(r.ledgers) == OpenTotal(LedgersOf([c])) + 1
  {
    var l := c.ledger.(invoices := invoices);
    FailedPassKeepsItsDispute(l, i, j, c.world, now);
    assert l.(invoices := invoices) == l;
    hide Pass, OpenCount, Book, Synced, BillingOrder, LatestIsPaid;
    var p := PassOf(invoices, c, now);
    assert p == Pass(l, l, [i, j], c.world, now, NOTHING_YET);
    OneCandidate(invoices, c, now);
  }

  lemma OneCandidate(invoices: seq<Invoice>, c: Candidate, now: Time)
    ensures var p := PassOf(invoices, c, now);
            && Cycle(invoices, [c], now)
               == Result(p.ledger.invoices, [p.ledger], Counted(p, Totals(NOTHING_YET, 0)))
            && Unreported(invoices, [c], now)
               == (if p.Aborted? then OpenCount(p.ledger.exceptions) - OpenCount(c.ledger.exceptions) else 0)
            && OpenTotal([p.ledger]) == OpenCount(p.ledger.exceptions)
            && OpenTotal(LedgersOf([c])) == OpenCount(c.ledger.exceptions)
  {
    hide PassOf, OpenCount;
    var p := PassOf(invoices, c, now);
    assert [c][1..] == [] && [p.ledger][1..] == [];
    assert LedgersOf([c]) == [c.ledger] && [c.ledger][1..] == [];
  }

  /** Two open invoices of a linked tenant: the first one's latest attempt is marked paid, the
      second one cannot be read. */
  function Overstretched(): Candidate {
    var lookup := (name: string) => if name == "B" then InvoiceSync.Unreachable else InvoiceSync.NoMatch;
    Candidate(
      Ledger(TenantStatus.Active, None, [], [Attempt(0, AttemptStatus.Paid, 500, "azampay", "session", 10, 10)], [], [], []),
      World(7, InvoiceSync.Erp(true, InvoiceSync.Listed([]), lookup), true, true, true))
  }

  function TwoInvoices(): seq<Invoice> {
    [Invoice(7, "A", "A", InvoiceStatus.PaymentPending, 500, 0, Some(30), None, 1, None),
     Invoice(7, "B", "B", InvoiceStatus.PaymentPending, 500, 0, Some(20), None, 1, None)]
  }

  lemma TwoInOrder(invoices: seq<Invoice>, me: TenantId)
    requires |invoices| == 2 && invoices[0].tenant == me == invoices[1].tenant
    requires invoices[0].dueDate.Some? && invoices[1].dueDate.Some?
    requires invoices[0].dueDate.value > invoices[1].dueDate.value
    ensures BillingOrder(invoices, me) == [0, 1]
  {
    var keys := BillingKeys(invoices, me);
    assert Sorting.SortUpTo(keys, 1) == Sorting.Insert(keys, [], 0) == [0];
    assert !Sorting.Ahead(keys, 1, 0) && [0][1..] == [];
    assert Sorting.SortUpTo(keys, 2) == Sorting.Insert(keys, [0], 1) == [0] + Sorting.Insert(keys, [], 1);
  }

  lemma EmptyListCopiesNothing(invoices: seq<Invoice>, w: World, now: Time)
    requires InvoiceSync.Keyed(invoices) && w.erp.listed == InvoiceSync.Listed([])
    ensures Synced(invoices, w, now) == Some(invoices)
  {
    InvoiceSync.SyncOutcome(invoices, w.me, [], now);
  }

  lemma OverstretchedIsPaid()
    ensures LatestIsPaid(Overstretched().ledger.attempts, 0)
  {
    FreshestIsLatest(Overstretched().ledger.attempts, 0);
  }

  /** Such a tenant makes the cycle's report miss an exception. */
  lemma ReportMissesAnException()
    ensures var c, invoices := Overstretched(), TwoInvoices();
            var r := Cycle(invoices, [c], 40);
            && Bookkept(invoices, [c], 40)
            && r.totals == Totals(NOTHING_YET, 1)
            && OpenTotal(LedgersOf([c])) == 0 && OpenTotal(r.ledgers) == 1
  {
    var c, invoices := Overstretched(), TwoInvoices();
    OverstretchedQualifies();
    OverstretchedBooks();
    hide *;
    FailedTenantIsUnreported(invoices, c, 0, 1, 40);
    OneCandidate(invoices, c, 40);
    NoExceptionsYet();
  }

  lemma NoExceptionsYet()
    ensures OpenCount(Overstretched().ledger.exceptions) == 0
  {
  }

  lemma OverstretchedBooks()
    ensures Bookkept(TwoInvoices(), [Overstretched()], 40)
    ensures Book(Overstretched().ledger.(invoices := TwoInvoices()), 40) && InvoiceSync.Honest(Overstretched().world.erp)
  {
  }

  lemma OverstretchedQualifies()
    ensures DisputesThenFails(TwoInvoices(), Overstretched(), 0, 1, 40)
  {
    EmptyListCopiesNothing(TwoInvoices(), Overstretched().world, 40);
    TwoInOrder(TwoInvoices(), 7);
    OverstretchedIsPaid();
    hide Synced, BillingOrder, LatestIsPaid, LatestAttempt;
  }

  lemma FirstOfTwo(l: Ledger, i: RowId, j: RowId, w: World, now: Time, s: Summary)
    requires i < |l.invoices| && ReconcileInvoice(l, l, i, w, now).Done?
    ensures var o := ReconcileInvoice(l, l, i, w, now);
            Pass(l, l, [i, j], w, now, s) == Pass(o.ledger, o.ledger, [j], w, now, Tally(s, o.report))
  {
    hide ReconcileInvoice, Tally;
    assert [i, j][1..] == [j];
  }
}
