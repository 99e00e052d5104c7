/** The stored rows of invoices and payment attempts, and which of them is "the latest". */
module Rows {
  import opened Common
  import opened Statuses

  /** Row positions in a table stand for primary keys. An empty text is a missing reference. */
  type RowId = nat
  type TenantId = nat

  datatype Invoice = Invoice(
    tenant: TenantId,
    erpId: string,
    number: string,
    status: InvoiceStatus,
    due: int,
    paid: int,
    dueDate: Option<Time>,
    issuedAt: Option<Time>,
    createdAt: Time,
    paidAt: Option<Time>)

  datatype Attempt = Attempt(
    invoice: RowId,
    status: AttemptStatus,
    amount: int,
    provider: string,
    reference: string,
    createdAt: Time,
    updatedAt: Time)

  /** Equal but for the payment date, which a sync may stamp anew each time. */
  predicate SameButPaidAt(x: Invoice, y: Invoice) {
    y == x.(paidAt := y.paidAt)
  }

  ghost predicate IsFirstMax(keys: seq<Option<Key>>, k: nat) {
    && k < |keys| && keys[k].Some?
    && (forall j | 0 <= j < |keys| && keys[j].Some? :: !Less(keys[k].value, keys[j].value))
    && (forall j | 0 <= j < k && keys[j].Some? :: Less(keys[j].value, keys[k].value))
  }

  /** The position of the first largest key among the selected rows (`None` is not selected). */
  function FirstMax(keys: seq<Option<Key>>): (best: Option<nat>)
    ensures best.Some? ==> IsFirstMax(keys, best.value)
    ensures best.None? <==> forall j | 0 <= j < |keys| :: keys[j].None?
  {
    if |keys| == 0 then None
    else
      var last := |keys| - 1;
      var before := FirstMax(keys[..last]);
      if keys[last].Some? && (before.None? || Less(keys[before.value].value, keys[last].value))
      then Some(last) else before
  }

  lemma FirstMaxUnique(keys: seq<Option<Key>>, k: nat)
    requires IsFirstMax(keys, k)
    ensures FirstMax(keys) == Some(k)
  {
    assert keys[k].Some?;
    var b := FirstMax(keys).value;
    assert !Less(keys[b].value, keys[k].value) && !Less(keys[k].value, keys[b].value);
  }

  function InvoiceKey(i: Invoice): Key {
    Key(OrMinimum(i.dueDate), OrMinimum(i.issuedAt), i.createdAt)
  }

  function InvoiceKeys(invoices: seq<Invoice>, me: TenantId): (keys: seq<Option<Key>>)
    ensures |keys| == |invoices|
  {
    seq(|invoices|, k requires 0 <= k < |invoices| =>
      if invoices[k].tenant == me then Some(InvoiceKey(invoices[k])) else None)
  }

  /** The tenant's invoice with the largest (due, issued, created) key, the first one on ties. */
  function LatestInvoice(invoices: seq<Invoice>, me: TenantId): (i: Option<RowId>)
    ensures i.Some? ==> i.value < |invoices| && invoices[i.value].tenant == me
    ensures i.None? <==> forall k | 0 <= k < |invoices| :: invoices[k].tenant != me
  {
    var keys := InvoiceKeys(invoices, me);
    assert forall k | 0 <= k < |invoices| :: keys[k].None? <==> invoices[k].tenant != me;
    FirstMax(keys)
  }

  /** The latest invoice is the tenant's with the latest due date, then the latest date of issue, then
      the latest creation, then the earliest place in the table; a missing date is earlier than any. */
  lemma LatestInvoiceIs(invoices: seq<Invoice>, me: TenantId, k: RowId)
    requires LatestInvoice(invoices, me).Some?
    requires k < |invoices| && invoices[k].tenant == me && k != LatestInvoice(invoices, me).value
    ensures var i := LatestInvoice(invoices, me).value;
            var x, y := invoices[i], invoices[k];
            && invoices[i].tenant == me
            && if OrMinimum(x.dueDate) != OrMinimum(y.dueDate) then OrMinimum(x.dueDate) > OrMinimum(y.dueDate)
               else if OrMinimum(x.issuedAt) != OrMinimum(y.issuedAt) then OrMinimum(x.issuedAt) > OrMinimum(y.issuedAt)
               else if x.createdAt != y.createdAt then x.createdAt > y.createdAt
               else i < k
  {
    var keys := InvoiceKeys(invoices, me);
    assert keys[k] == Some(InvoiceKey(invoices[k]));
  }

  function AttemptKey(a: Attempt): Key {
    Key(a.updatedAt, a.createdAt, 0)
  }

  function AttemptKeys(attempts: seq<Attempt>, invoice: RowId): (keys: seq<Option<Key>>)
    ensures |keys| == |attempts|
  {
    seq(|attempts|, k requires 0 <= k < |attempts| =>
      if attempts[k].invoice == invoice then Some(AttemptKey(attempts[k])) else None)
  }

  /** The invoice's most recently updated attempt, the first one on ties. */
  function LatestAttempt(attempts: seq<Attempt>, invoice: RowId): (a: Option<RowId>)
    ensures a.Some? ==> a.value < |attempts| && attempts[a.value].invoice == invoice
    ensures a.None? <==> forall k | 0 <= k < |attempts| :: attempts[k].invoice != invoice
  {
    var keys := AttemptKeys(attempts, invoice);
    assert forall k | 0 <= k < |attempts| :: keys[k].None? <==> attempts[k].invoice != invoice;
    FirstMax(keys)
  }

  ghost predicate NotAfter(attempts: seq<Attempt>, now: Time) {
    forall k | 0 <= k < |attempts| :: attempts[k].updatedAt <= now
  }

  /** Writing to an invoice's latest attempt leaves it the latest. */
  lemma TouchedLatestStaysLatest(attempts: seq<Attempt>, invoice: RowId, a: RowId, row: Attempt, now: Time)
    requires LatestAttempt(attempts, invoice) == Some(a)
    requires NotAfter(attempts, now)
    requires row.invoice == invoice && row.createdAt == attempts[a].createdAt && row.updatedAt == now
    ensures LatestAttempt(attempts[a := row], invoice) == Some(a)
  {
    var keys := AttemptKeys(attempts, invoice);
    var keys' := AttemptKeys(attempts[a := row], invoice);
    assert IsFirstMax(keys, a);
    forall j | 0 <= j < |keys'| && keys'[j].Some?
      ensures !Less(keys'[a].value, keys'[j].value)
      ensures j < a ==> Less(keys'[j].value, keys'[a].value)
    {
      if j != a { assert keys[j] == keys'[j]; }
    }
    FirstMaxUnique(keys', a);
  }

  /** A row stamped later than every other becomes the latest of its invoice. */
  lemma FreshestIsLatest(attempts: seq<Attempt>, a: RowId)
    requires a < |attempts|
    requires forall k | 0 <= k < |attempts| && k != a :: attempts[k].updatedAt < attempts[a].updatedAt
    ensures LatestAttempt(attempts, attempts[a].invoice) == Some(a)
  {
    var keys := AttemptKeys(attempts, attempts[a].invoice);
    assert IsFirstMax(keys, a);
    FirstMaxUnique(keys, a);
  }

  /** Writing to an attempt of one invoice does not change which attempt of another is latest. */
  lemma OtherInvoiceUnaffected(attempts: seq<Attempt>, a: RowId, row: Attempt, invoice: RowId)
    requires a < |attempts| && row.invoice == attempts[a].invoice != invoice
    ensures LatestAttempt(attempts[a := row], invoice) == LatestAttempt(attempts, invoice)
  {
    assert AttemptKeys(attempts[a := row], invoice) == AttemptKeys(attempts, invoice);
  }
}
