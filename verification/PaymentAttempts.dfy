/** Starting payment attempts, finding the attempt a callback is about, and the promise that an
    invoice has at most one attempt the customer can still complete. */
module PaymentAttempts {
  import opened Common
  import opened Statuses
  import opened Rows
  import opened Ledgers
  import InvoiceSync
  import PaymentWebhooks
  import Reconciliation
  import Transitions

  // ----- Creation -----

  /** The gateway's answer: refused, or a session with or without a checkout page. */
  datatype Checkout = Refused | Opened(provider: string, session: string, hasUrl: bool)

  datatype Creation =
    | Created(ledger: Ledger, attempt: RowId)
    | SyncFailed | NotPayable | AlreadyActive | ProviderOverride | CheckoutRefused

  predicate Payable(i: Invoice) {
    !(i.status.Paid? || i.status.Closed? || i.status.Cancelled? || i.status.Canceled? || i.status.Void?
      || i.status.Voided? || i.status.WrittenOff?)
    && i.due > 0
  }

  /** Only the invoice's latest attempt is looked at. */
  predicate LatestIsActive(attempts: seq<Attempt>, i: RowId) {
    var latest := LatestAttempt(attempts, i);
    latest.Some? && ActiveAttempt(attempts[latest.value].status)
  }

  function NewAttempt(i: RowId, due: int, c: Checkout, now: Time): Attempt
    requires c.Opened?
  {
    Attempt(i, if c.hasUrl then AttemptStatus.CheckoutStarted else AttemptStatus.Created, due,
            c.provider, c.session, now, now)
  }

  /** `overridden` says the caller asked for a provider other than the gateway's. Every refusal
      leaves the stored records as they were. */
  function Create(l: Ledger, i: RowId, w: World, overridden: bool, c: Checkout, now: Time): Creation
    requires i < |l.invoices|
  {
    var resynced := InvoiceSync.Resync(l.invoices, i, w.me, w.erp, now);
    if resynced.None? then SyncFailed
    else
      var (t, row) := resynced.value;
      if !Payable(t[row]) then NotPayable
      else if LatestIsActive(l.attempts, row) then AlreadyActive
      else if overridden then ProviderOverride
      else if c.Refused? then CheckoutRefused
      else Creation.Created(l.(invoices := t, attempts := l.attempts + [NewAttempt(row, t[row].due, c, now)]), |l.attempts|)
  }

  // ----- The attempt a callback is about -----

  predicate OfProvider(a: Attempt, provider: string) {
    provider == "" || a.provider == provider
  }

  function KeysWhere(attempts: seq<Attempt>, chosen: Attempt -> bool): (keys: seq<Option<Key>>)
    ensures |keys| == |attempts|
    ensures forall k | 0 <= k < |attempts| ::
              keys[k] == if chosen(attempts[k]) then Some(AttemptKey(attempts[k])) else None
  {
    seq(|attempts|, k requires 0 <= k < |attempts| =>
      if chosen(attempts[k]) then Some(AttemptKey(attempts[k])) else None)
  }

  function ByReference(attempts: seq<Attempt>, provider: string, references: seq<string>): (a: Option<RowId>)
    ensures a.Some? ==> a.value < |attempts|
  {
    FirstMax(KeysWhere(attempts, (a: Attempt) =>
      OfProvider(a, provider) && a.reference != "" && a.reference in references))
  }

  function LatestActive(attempts: seq<Attempt>, provider: string): (a: Option<RowId>)
    ensures a.Some? ==> a.value < |attempts|
  {
    FirstMax(KeysWhere(attempts, (a: Attempt) => OfProvider(a, provider) && ActiveAttempt(a.status)))
  }

  function LatestOfProvider(attempts: seq<Attempt>, provider: string): (a: Option<RowId>)
    ensures a.Some? ==> a.value < |attempts|
  {
    FirstMax(KeysWhere(attempts, (a: Attempt) => OfProvider(a, provider)))
  }

  /** Without a matching reference: the tenant's latest active attempt, else its latest. */
  function Fallback(attempts: seq<Attempt>, provider: string): (a: Option<RowId>)
    ensures a.Some? ==> a.value < |attempts|
  {
    if LatestActive(attempts, provider).Some? then LatestActive(attempts, provider)
    else LatestOfProvider(attempts, provider)
  }

  function ResolveAttempt(attempts: seq<Attempt>, provider: string, references: seq<string>, tenantKnown: bool)
    : (a: Option<RowId>)
    ensures a.Some? ==> a.value < |attempts|
  {
    var named := ByReference(attempts, provider, references);
    if named.Some? then named
    else if tenantKnown then Fallback(attempts, provider)
    else None
  }

  // ----- One live attempt -----

  /** An attempt that can still be completed is its invoice's latest. */
  ghost predicate OnlyLatestActive(attempts: seq<Attempt>) {
    forall k | 0 <= k < |attempts| && ActiveAttempt(attempts[k].status) ::
      LatestAttempt(attempts, attempts[k].invoice) == Some(k)
  }

  /** The promise that looking at the latest attempt alone makes good. */
  lemma AtMostOneActive(attempts: seq<Attempt>, i: RowId)
    requires OnlyLatestActive(attempts)
    ensures forall j, k | 0 <= j < |attempts| && 0 <= k < |attempts|
              && attempts[j].invoice == i == attempts[k].invoice
              && ActiveAttempt(attempts[j].status) && ActiveAttempt(attempts[k].status) :: j == k
    ensures (exists k | 0 <= k < |attempts| :: attempts[k].invoice == i && ActiveAttempt(attempts[k].status))
            <==> LatestIsActive(attempts, i)
  {
  }

  ghost predicate Before(attempts: seq<Attempt>, now: Time) {
    forall k | 0 <= k < |attempts| :: attempts[k].updatedAt < now
  }

  lemma OthersKeepTheirLatest(attempts: seq<Attempt>, row: Attempt, j: RowId)
    requires row.invoice != j
    ensures LatestAttempt(attempts + [row], j) == LatestAttempt(attempts, j)
  {
    var keys := AttemptKeys(attempts, j);
    var keys' := AttemptKeys(attempts + [row], j);
    assert keys' == keys + [None];
    assert keys'[..|attempts|] == keys;
  }

  lemma CreationKeeps(attempts: seq<Attempt>, row: Attempt, now: Time)
    requires OnlyLatestActive(attempts) && Before(attempts, now) && row.updatedAt == now
    requires !LatestIsActive(attempts, row.invoice)
    ensures OnlyLatestActive(attempts + [row])
  {
    var grown := attempts + [row];
    FreshestIsLatest(grown, |attempts|);
    forall k | 0 <= k < |grown| && ActiveAttempt(grown[k].status)
      ensures LatestAttempt(grown, grown[k].invoice) == Some(k)
    {
      if k < |attempts| {
        assert LatestAttempt(attempts, attempts[k].invoice) == Some(k);
        OthersKeepTheirLatest(attempts, row, attempts[k].invoice);
      }
    }
  }

  /** The attempts after attempt `a` is given a status now. */
  function Touched(attempts: seq<Attempt>, a: RowId, s: AttemptStatus, now: Time): seq<Attempt>
    requires a < |attempts|
  {
    attempts[a := attempts[a].(status := s, updatedAt := now)]
  }

  /** A callback or the reconciler writes a final status on attempt `a`. The promise survives
      exactly when `a` is its invoice's latest attempt, or no other attempt of the invoice is
      active. */
  lemma TouchKeepsExactlyWhen(attempts: seq<Attempt>, a: RowId, s: AttemptStatus, now: Time)
    requires OnlyLatestActive(attempts) && Before(attempts, now) && a < |attempts| && !ActiveAttempt(s)
    ensures OnlyLatestActive(Touched(attempts, a, s, now))
            <==> LatestAttempt(attempts, attempts[a].invoice) == Some(a) || !LatestIsActive(attempts, attempts[a].invoice)
  {
    var row := attempts[a].(status := s, updatedAt := now);
    var touched := Touched(attempts, a, s, now);
    var i := attempts[a].invoice;
    FreshestIsLatest(touched, a);
    if LatestAttempt(attempts, i) != Some(a) && LatestIsActive(attempts, i) {
      var n := LatestAttempt(attempts, i).value;
      assert touched[n] == attempts[n];
    } else {
      forall k | 0 <= k < |touched| && ActiveAttempt(touched[k].status)
        ensures LatestAttempt(touched, touched[k].invoice) == Some(k)
      {
        assert touched[k] == attempts[k];
        assert LatestAttempt(attempts, attempts[k].invoice) == Some(k);
        OtherInvoiceUnaffected(attempts, a, row, attempts[k].invoice);
      }
    }
  }

  /** The fallback always picks an invoice's latest attempt when one provider serves them all. */
  lemma FallbackPicksALatest(attempts: seq<Attempt>, provider: string)
    requires OnlyLatestActive(attempts)
    requires forall k | 0 <= k < |attempts| :: OfProvider(attempts[k], provider)
    requires Fallback(attempts, provider).Some?
    ensures var a := Fallback(attempts, provider).value;
            LatestAttempt(attempts, attempts[a].invoice) == Some(a)
  {
    var a := Fallback(attempts, provider).value;
    if LatestActive(attempts, provider).Some? {
      var keys := KeysWhere(attempts, (x: Attempt) => OfProvider(x, provider) && ActiveAttempt(x.status));
      assert keys[a].Some?;
    } else {
      var all := KeysWhere(attempts, (x: Attempt) => OfProvider(x, provider));
      var mine := AttemptKeys(attempts, attempts[a].invoice);
      assert IsFirstMax(all, a);
      forall j | 0 <= j < |mine| && mine[j].Some?
        ensures !Less(mine[a].value, mine[j].value)
        ensures j < a ==> Less(mine[j].value, mine[a].value)
      {
        assert all[j] == mine[j];
      }
      FirstMaxUnique(mine, a);
    }
  }

  // ----- Runs -----

  datatype Step =
    | Start(invoice: RowId, overridden: bool, checkout: Checkout)
    | Reconcile(invoice: RowId)
    | Confirm(attempt: RowId)
    | Fail(attempt: RowId)

  /** One step, served in the given world at the given time; a refused or failed step changes
      nothing but the invoice it read again. */
  function Next(l: Ledger, s: Step, w: World, now: Time): Ledger {
    match s
    case Start(i, overridden, c) =>
      if i >= |l.invoices| then l
      else
        var r := Create(l, i, w, overridden, c, now);
        if r.Created? then r.ledger else l
    case Reconcile(i) =>
      if i >= |l.invoices| then l else Reconciliation.ReconcileInvoice(l, l, i, w, now).ledger
    case Confirm(a) =>
      if a >= |l.attempts| || l.attempts[a].invoice >= |l.invoices| then l
      else PaymentWebhooks.HandleConfirmed(l, Some(a), w, now).ledger
    case Fail(a) =>
      if a >= |l.attempts| then l else PaymentWebhooks.HandleFailed(l, Some(a), now).ledger
  }

  /** A callback that addresses its invoice's latest attempt. */
  predicate AddressesLatest(l: Ledger, s: Step) {
    (s.Confirm? || s.Fail?) && s.attempt < |l.attempts| ==>
      LatestAttempt(l.attempts, l.attempts[s.attempt].invoice) == Some(s.attempt)
  }

  lemma ReconcileTouchesLatest(start: Ledger, l: Ledger, i: RowId, w: World, now: Time)
    requires i < |l.invoices| && start.attempts == l.attempts
    ensures var attempts := Reconciliation.ReconcileRow(start, l, i, w, now).ledger.attempts;
            var latest := LatestAttempt(l.attempts, i);
            || attempts == l.attempts
            || (latest.Some? && (attempts == Touched(l.attempts, latest.value, AttemptStatus.Paid, now)
                                 || attempts == Touched(l.attempts, latest.value, AttemptStatus.ReconciliationRequired, now)))
  {
    hide LatestAttempt;
  }

  lemma ReconcileKeeps(l: Ledger, i: RowId, w: World, now: Time)
    requires OnlyLatestActive(l.attempts) && Before(l.attempts, now) && i < |l.invoices|
    ensures var attempts := Reconciliation.ReconcileInvoice(l, l, i, w, now).ledger.attempts;
            OnlyLatestActive(attempts) && NotAfter(attempts, now)
  {
    var resynced := InvoiceSync.Resync(l.invoices, i, w.me, w.erp, now);
    if resynced.Some? {
      var (t, row) := resynced.value;
      ReconcileTouchesLatest(l, l.(invoices := t), row, w, now);
      hide Reconciliation.ReconcileRow;
      var latest := LatestAttempt(l.attempts, row);
      if latest.Some? {
        TouchKeepsExactlyWhen(l.attempts, latest.value, AttemptStatus.Paid, now);
        TouchKeepsExactlyWhen(l.attempts, latest.value, AttemptStatus.ReconciliationRequired, now);
      }
    }
  }

  lemma ConfirmTouchesOne(l: Ledger, a: RowId, w: World, now: Time)
    requires PaymentWebhooks.Backed(l, a)
    ensures var attempts := PaymentWebhooks.HandleConfirmed(l, Some(a), w, now).ledger.attempts;
            attempts == l.attempts || attempts == Touched(l.attempts, a, AttemptStatus.Paid, now)
  {
  }

  /** One step, with a later clock and a callback that addresses its invoice's latest attempt,
      keeps the promise. */
  lemma StepKeepsPromise(l: Ledger, s: Step, w: World, now: Time)
    requires OnlyLatestActive(l.attempts) && Before(l.attempts, now) && AddressesLatest(l, s)
    ensures OnlyLatestActive(Next(l, s, w, now).attempts)
    ensures NotAfter(Next(l, s, w, now).attempts, now)
  {
    hide LatestAttempt, PaymentWebhooks.HandleConfirmed, Reconciliation.ReconcileInvoice;
    match s {
      case Start(i, overridden, c) =>
        if i < |l.invoices| && Create(l, i, w, overridden, c, now).Created? {
          var (t, row) := InvoiceSync.Resync(l.invoices, i, w.me, w.erp, now).value;
          CreationKeeps(l.attempts, NewAttempt(row, t[row].due, c, now), now);
        }
      case Reconcile(i) =>
        if i < |l.invoices| {
          ReconcileKeeps(l, i, w, now);
        }
      case Confirm(a) =>
        if PaymentWebhooks.Backed(l, a) {
          ConfirmTouchesOne(l, a, w, now);
          TouchKeepsExactlyWhen(l.attempts, a, AttemptStatus.Paid, now);
        }
      case Fail(a) =>
        if a < |l.attempts| {
          TouchKeepsExactlyWhen(l.attempts, a, AttemptStatus.Failed, now);
        }
    }
  }

  datatype Event = Event(step: Step, world: World, at: Time)

  function Run(l: Ledger, events: seq<Event>): Ledger
    decreases |events|
  {
    if events == [] then l
    else Run(Next(l, events[0].step, events[0].world, events[0].at), events[1..])
  }

  /** Times strictly increase and every callback addresses its invoice's latest attempt. */
  ghost predicate Orderly(l: Ledger, events: seq<Event>, clock: Time)
    decreases |events|
  {
    events == []
    || (clock < events[0].at && AddressesLatest(l, events[0].step)
        && Orderly(Next(l, events[0].step, events[0].world, events[0].at), events[1..], events[0].at))
  }

  /** In every such run of attempt creation, reconciliation and callbacks, each invoice has at
      most one active attempt, and it is the latest. */
  lemma {:induction false} OneLiveAttempt(l: Ledger, events: seq<Event>, clock: Time)
    requires OnlyLatestActive(l.attempts) && NotAfter(l.attempts, clock) && Orderly(l, events, clock)
    ensures OnlyLatestActive(Run(l, events).attempts)
    decreases |events|
  {
    if events != [] {
      StepKeepsPromise(l, events[0].step, events[0].world, events[0].at);
      OneLiveAttempt(Next(l, events[0].step, events[0].world, events[0].at), events[1..], events[0].at);
    }
  }

  // ----- A run in which the promise breaks -----

  /** A tenant with one payable invoice, an old failed attempt on it and a new one under way. */
  function TwoAttempts(): Ledger {
    Ledger(TenantStatus.PendingPayment,
           Some(Transitions.SubscriptionRow(SubscriptionStatus.Pending, None)),
           [Invoice(7, "A", "A", InvoiceStatus.PaymentPending, 500, 0, Some(90), None, 1, None)],
           [Attempt(0, AttemptStatus.Failed, 500, "azampay", "old", 10, 10),
            Attempt(0, AttemptStatus.CheckoutStarted, 500, "azampay", "new", 20, 20)],
           [], [], [])
  }

  function Offline(): World {
    World(7, InvoiceSync.Erp(false, InvoiceSync.Listed([]), _ => InvoiceSync.NoMatch), true, true, true)
  }

  lemma OldReferenceIsFound()
    ensures ResolveAttempt(TwoAttempts().attempts, "azampay", ["old"], true) == Some(0)
  {
    var attempts := TwoAttempts().attempts;
    assert "new"[0] != "old"[0];
    var keys := KeysWhere(attempts, (a: Attempt) => OfProvider(a, "azampay") && a.reference != "" && a.reference in ["old"]);
    assert keys[0].Some? && keys[1].None?;
    hide LatestActive, LatestOfProvider, Fallback;
    FirstMaxUnique(keys, 0);
  }

  lemma NewIsLatest()
    ensures OnlyLatestActive(TwoAttempts().attempts)
  {
    FreshestIsLatest(TwoAttempts().attempts, 1);
  }

  /** The failure is written on the old attempt, which is now the latest. */
  lemma OldAttemptFails()
    ensures var failed := Next(TwoAttempts(), Fail(0), Offline(), 30);
            && failed.invoices == TwoAttempts().invoices
            && |failed.attempts| == 2 && failed.attempts[1] == TwoAttempts().attempts[1]
            && LatestAttempt(failed.attempts, 0) == Some(0) && failed.attempts[0].status.Failed?
  {
    var failed := Next(TwoAttempts(), Fail(0), Offline(), 30);
    assert failed.attempts == Touched(TwoAttempts().attempts, 0, AttemptStatus.Failed, 30);
    FreshestIsLatest(failed.attempts, 0);
  }

  /** A failure callback that names the old attempt by its reference hides the active one, and a
      second active attempt is then started on the same invoice. */
  lemma OldReferenceBreaksThePromise()
    ensures var l := TwoAttempts();
            var failed := Next(l, Fail(0), Offline(), 30);
            var started := Next(failed, Start(0, false, Opened("azampay", "third", true)), Offline(), 40);
            && OnlyLatestActive(l.attempts) && ResolveAttempt(l.attempts, "azampay", ["old"], true) == Some(0)
            && |started.attempts| == 3
            && started.attempts[1].invoice == started.attempts[2].invoice == 0
            && ActiveAttempt(started.attempts[1].status) && ActiveAttempt(started.attempts[2].status)
  {
    OldReferenceIsFound();
    NewIsLatest();
    OldAttemptFails();
    hide LatestAttempt, OnlyLatestActive, ResolveAttempt, PaymentWebhooks.HandleFailed;
  }
}
