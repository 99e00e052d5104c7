/** The stored records of one tenant that billing reads and writes together, and the list of
    billing exceptions kept on them. */
module Ledgers {
  import opened Common
  import opened Statuses
  import opened Rows
  import InvoiceSync
  import Provisioning
  import Transitions

  datatype ExceptionKind =
    | ErpMismatch | ProviderReconciliationMismatch | ReconciliationRequired
    | ManualFinanceReviewRequired | Other(text: string)

  datatype BillingException = BillingException(
    invoice: RowId, attempt: Option<RowId>, kind: ExceptionKind, open: bool)

  datatype Ledger = Ledger(
    tenant: TenantStatus,
    subscription: Option<Transitions.SubscriptionRow>,
    invoices: seq<Invoice>,
    attempts: seq<Attempt>,
    exceptions: seq<BillingException>,
    jobs: seq<Provisioning.Job>,
    queue: seq<RowId>)

  /** What one call sees of the outside: the ERP's answers, whether the tenant's runtime exists,
      whether its owner's account does, and whether the work queue accepts jobs. */
  datatype World = World(me: TenantId, erp: InvoiceSync.Erp, runtimeExists: bool, ownerExists: bool, queueUp: bool)

  // ----- Exceptions -----

  /** The kinds a settled invoice resolves. */
  predicate ReconciliationKind(k: ExceptionKind) {
    k.ErpMismatch? || k.ProviderReconciliationMismatch? || k.ReconciliationRequired?
  }

  predicate HasOpen(xs: seq<BillingException>, invoice: RowId, attempt: Option<RowId>, kind: ExceptionKind) {
    BillingException(invoice, attempt, kind, true) in xs
  }

  /** Opening finds an open entry with the same key before adding one. */
  function OpenException(xs: seq<BillingException>, invoice: RowId, attempt: Option<RowId>, kind: ExceptionKind)
    : (seq<BillingException>, nat)
  {
    if HasOpen(xs, invoice, attempt, kind) then (xs, 0)
    else (xs + [BillingException(invoice, attempt, kind, true)], 1)
  }

  predicate ToResolve(x: BillingException, invoice: RowId) {
    x.open && x.invoice == invoice && ReconciliationKind(x.kind)
  }

  function ResolveExceptions(xs: seq<BillingException>, invoice: RowId): (r: seq<BillingException>)
    ensures |r| == |xs|
    ensures forall k | 0 <= k < |xs| :: r[k] == if ToResolve(xs[k], invoice) then xs[k].(open := false) else xs[k]
  {
    if |xs| == 0 then []
    else
      var last := xs[|xs| - 1];
      ResolveExceptions(xs[..|xs| - 1], invoice) + [if ToResolve(last, invoice) then last.(open := false) else last]
  }

  function ToResolveCount(xs: seq<BillingException>, invoice: RowId): nat {
    if |xs| == 0 then 0
    else ToResolveCount(xs[..|xs| - 1], invoice) + if ToResolve(xs[|xs| - 1], invoice) then 1 else 0
  }

  function OpenCount(xs: seq<BillingException>): nat {
    if |xs| == 0 then 0
    else OpenCount(xs[..|xs| - 1]) + if xs[|xs| - 1].open then 1 else 0
  }

  ghost predicate OneOpenPerKey(xs: seq<BillingException>) {
    forall a, b | 0 <= a < b < |xs| && xs[a].open && xs[b].open :: xs[a] != xs[b]
  }

  ghost predicate NothingToResolve(xs: seq<BillingException>, invoice: RowId) {
    forall k | 0 <= k < |xs| :: !ToResolve(xs[k], invoice)
  }

  lemma {:induction false} ResolvedCount(xs: seq<BillingException>, invoice: RowId)
    ensures OpenCount(ResolveExceptions(xs, invoice)) + ToResolveCount(xs, invoice) == OpenCount(xs)
    ensures NothingToResolve(xs, invoice) ==> ToResolveCount(xs, invoice) == 0
  {
    if |xs| > 0 {
      var init := xs[..|xs| - 1];
      ResolvedCount(init, invoice);
      assert ResolveExceptions(xs, invoice)[..|xs| - 1] == ResolveExceptions(init, invoice);
      if NothingToResolve(xs, invoice) {
        assert forall k | 0 <= k < |init| :: init[k] == xs[k];
      }
    }
  }

  lemma ResolvingAccounts(xs: seq<BillingException>, invoice: RowId)
    ensures OpenCount(ResolveExceptions(xs, invoice)) + ToResolveCount(xs, invoice) == OpenCount(xs)
    ensures OneOpenPerKey(xs) ==> OneOpenPerKey(ResolveExceptions(xs, invoice))
    ensures NothingToResolve(ResolveExceptions(xs, invoice), invoice)
    ensures NothingToResolve(xs, invoice) ==> ResolveExceptions(xs, invoice) == xs && ToResolveCount(xs, invoice) == 0
  {
    ResolvedCount(xs, invoice);
    var ys := ResolveExceptions(xs, invoice);
    assert forall k | 0 <= k < |xs| && ys[k].open :: ys[k] == xs[k];
    if NothingToResolve(xs, invoice) {
      assert forall k | 0 <= k < |xs| :: ys[k] == xs[k];
    }
  }

  lemma OpeningAccounts(xs: seq<BillingException>, invoice: RowId, attempt: Option<RowId>, kind: ExceptionKind)
    ensures var (ys, n) := OpenException(xs, invoice, attempt, kind);
            && OpenCount(ys) == OpenCount(xs) + n
            && (OneOpenPerKey(xs) ==> OneOpenPerKey(ys))
            && HasOpen(ys, invoice, attempt, kind)
            && OpenException(ys, invoice, attempt, kind) == (ys, 0)
  {
    if !HasOpen(xs, invoice, attempt, kind) {
      var x := BillingException(invoice, attempt, kind, true);
      assert (xs + [x])[..|xs|] == xs;
      assert (xs + [x])[|xs|] == x;
    }
  }
}
