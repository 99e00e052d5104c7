/** Money in minor units, and the copy of ERP invoices into the local table. */
module InvoiceSync {
  import opened Common
  import opened Statuses
  import opened Rows

  // ----- Money -----

  /** Nearest integer, ties away from zero. */
  function RoundHalfUp(x: real): int {
    if x >= 0.0 then (x + 0.5).Floor else -((0.5 - x).Floor)
  }

  function ToMinorUnits(amount: Option<real>): int {
    if amount.None? then 0 else RoundHalfUp(amount.value * 100.0)
  }

  /** Rounding is off by at most half a minor unit, exact on amounts with two decimals and
      monotone; no amount counts as zero. */
  lemma MinorUnits(x: real, y: real, cents: int)
    ensures -0.5 <= ToMinorUnits(Some(x)) as real - x * 100.0 <= 0.5
    ensures ToMinorUnits(Some(cents as real / 100.0)) == cents
    ensures x <= y ==> ToMinorUnits(Some(x)) <= ToMinorUnits(Some(y))
    ensures ToMinorUnits(None) == 0
  {
    RoundsToNearest(x * 100.0);
    RoundsToNearest(cents as real);
    assert (cents as real / 100.0) * 100.0 == cents as real;
    if x <= y { RoundMonotone(x * 100.0, y * 100.0); }
  }

  lemma RoundsToNearest(x: real)
    ensures -0.5 <= RoundHalfUp(x) as real - x <= 0.5
    ensures x == x.Floor as real ==> RoundHalfUp(x) == x.Floor
  {
  }

  /** A tie goes away from zero, on both sides. */
  lemma TiesGoAwayFromZero(x: real, n: nat)
    ensures RoundHalfUp(-x) == -RoundHalfUp(x)
    ensures RoundHalfUp(n as real + 0.5) == n + 1
  {
    assert (n as real + 0.5 + 0.5) == (n + 1) as real;
  }

  lemma RoundMonotone(x: real, y: real)
    requires x <= y
    ensures RoundHalfUp(x) <= RoundHalfUp(y)
  {
    if x < 0.0 <= y {
      assert RoundHalfUp(x) <= 0 <= RoundHalfUp(y);
    }
  }

  // ----- ERP items -----

  datatype ErpStatus =
    | Cancelled | Canceled | Void | Voided | CreditNoteIssued
    | Paid | Settled | Closed | Overdue | PastDue | Draft | Other(text: string)

  /** The item's own payment date: absent, unreadable or a readable instant. */
  datatype ItemPaidAt = NotGiven | Unreadable | On(at: Time)

  /** `reference` is the first of the item's names that is not empty, or "". */
  datatype ErpItem = ErpItem(
    reference: string,
    status: ErpStatus,
    outstanding: Option<real>,
    grandTotal: Option<real>,
    paidAmount: Option<real>,
    dueDate: Option<Time>,
    postingDate: Option<Time>,
    paidAt: ItemPaidAt)

  function AmountDue(item: ErpItem): int {
    ToMinorUnits(item.outstanding)
  }

  function AmountTotal(item: ErpItem): int {
    ToMinorUnits(item.grandTotal)
  }

  function AmountPaid(item: ErpItem): int {
    var total := AmountTotal(item);
    if total != 0 then
      if total - AmountDue(item) > 0 then total - AmountDue(item) else 0
    else ToMinorUnits(item.paidAmount)
  }

  /** The two stored amounts add up to the rounded total exactly when no more is outstanding
      than was invoiced, and a total that is at least the outstanding amount before rounding
      is enough for that. */
  lemma AmountsConserved(item: ErpItem)
    requires AmountTotal(item) != 0
    ensures AmountPaid(item) + AmountDue(item) == AmountTotal(item) <==> AmountDue(item) <= AmountTotal(item)
    ensures item.outstanding.Some? && item.grandTotal.Some?
            && item.outstanding.value <= item.grandTotal.value ==>
              AmountPaid(item) + AmountDue(item) == AmountTotal(item)
  {
    if item.outstanding.Some? && item.grandTotal.Some? {
      MinorUnits(item.outstanding.value, item.grandTotal.value, 0);
    }
  }

  function InvoiceStatusOf(item: ErpItem): (s: InvoiceStatus)
    ensures StoredInvoiceStatus(s)
  {
    match item.status
    case Cancelled | Canceled | Void | Voided | CreditNoteIssued => InvoiceStatus.Cancelled
    case _ =>
      if AmountDue(item) <= 0 && AmountPaid(item) > 0 then InvoiceStatus.Paid
      else match item.status
        case Paid | Settled | Closed => InvoiceStatus.Paid
        case Overdue | PastDue => InvoiceStatus.PastDue
        case Draft => InvoiceStatus.Draft
        case _ => InvoiceStatus.PaymentPending
  }

  function PaidAtOf(item: ErpItem, now: Time): Option<Time> {
    match item.paidAt
    case On(t) => Some(t)
    case Unreadable => None
    case NotGiven => if InvoiceStatusOf(item).Paid? && AmountPaid(item) > 0 then Some(now) else None
  }

  /** The row after the item's fields are written over it. */
  function Overwrite(row: Invoice, me: TenantId, item: ErpItem, now: Time): Invoice {
    Invoice(me, item.reference, item.reference, InvoiceStatusOf(item), AmountDue(item), AmountPaid(item),
            item.dueDate, item.postingDate, row.createdAt, PaidAtOf(item, now))
  }

  function NewRow(me: TenantId, item: ErpItem, now: Time): Invoice {
    Overwrite(Invoice(me, "", "", InvoiceStatus.PaymentPending, 0, 0, None, None, now, None), me, item, now)
  }

  // ----- The row, column by column -----

  predicate Withdrawn(s: ErpStatus) {
    s.Cancelled? || s.Canceled? || s.Void? || s.Voided? || s.CreditNoteIssued?
  }

  /** The ERP calls the item paid, or nothing is owed and something has been paid. */
  predicate PaidUp(s: ErpStatus, due: int, paid: int) {
    s.Paid? || s.Settled? || s.Closed? || (due <= 0 && paid > 0)
  }

  ghost predicate AmountsFrom(row: Invoice, item: ErpItem) {
    var total := ToMinorUnits(item.grandTotal);
    && row.due == ToMinorUnits(item.outstanding)
    && (total == 0 ==> row.paid == ToMinorUnits(item.paidAmount))
    && (total != 0 && row.due <= total ==> row.paid + row.due == total)
    && (total != 0 && row.due > total ==> row.paid == 0)
  }

  /** The five statuses a copied row can have, and when it has each. */
  ghost predicate StatusFrom(row: Invoice, item: ErpItem) {
    var open := !Withdrawn(item.status) && !PaidUp(item.status, row.due, row.paid);
    && (row.status.Cancelled? <==> Withdrawn(item.status))
    && (row.status.Paid? <==> !Withdrawn(item.status) && PaidUp(item.status, row.due, row.paid))
    && (row.status.PastDue? <==> open && (item.status.Overdue? || item.status.PastDue?))
    && (row.status.Draft? <==> open && item.status.Draft?)
    && (row.status.PaymentPending? <==> open && item.status.Other?)
  }

  /** The item's own payment date, or else the time of copying for an invoice copied as paid. */
  ghost predicate PaymentDateFrom(row: Invoice, item: ErpItem, now: Time) {
    && (item.paidAt.On? ==> row.paidAt == Some(item.paidAt.at))
    && (item.paidAt.Unreadable? ==> row.paidAt.None?)
    && (item.paidAt.NotGiven? ==> row.paidAt == if row.status.Paid? && row.paid > 0 then Some(now) else None)
  }

  ghost predicate CopiedFrom(row: Invoice, created: Time, me: TenantId, item: ErpItem, now: Time) {
    && row.tenant == me && row.erpId == row.number == item.reference
    && row.dueDate == item.dueDate && row.issuedAt == item.postingDate && row.createdAt == created
    && AmountsFrom(row, item) && StatusFrom(row, item) && PaymentDateFrom(row, item, now)
  }

  lemma OverwrittenColumns(row: Invoice, me: TenantId, item: ErpItem, now: Time)
    ensures CopiedFrom(Overwrite(row, me, item, now), row.createdAt, me, item, now)
    ensures CopiedFrom(NewRow(me, item, now), now, me, item, now)
  {
  }

  // ----- The table -----

  predicate Matches(row: Invoice, reference: string) {
    reference != "" && (row.erpId == reference || row.number == reference)
  }

  function FindRow(invoices: seq<Invoice>, reference: string): (r: Option<RowId>)
    ensures r.Some? ==> r.value < |invoices| && Matches(invoices[r.value], reference)
                        && forall k | 0 <= k < r.value :: !Matches(invoices[k], reference)
    ensures r.None? <==> forall k | 0 <= k < |invoices| :: !Matches(invoices[k], reference)
  {
    if |invoices| == 0 then None
    else
      var before := FindRow(invoices[..|invoices| - 1], reference);
      if before.Some? then before
      else if Matches(invoices[|invoices| - 1], reference) then Some(|invoices| - 1) else None
  }

  /** Writes one item. The session does not flush between items, so the lookup sees `flushed`,
      the rows as of the last flush, while the write goes to `table`. */
  function Upsert(flushed: seq<Invoice>, table: seq<Invoice>, me: TenantId, item: ErpItem, now: Time)
    : (t: seq<Invoice>)
    requires |flushed| <= |table|
    ensures |table| <= |t| <= |table| + 1
  {
    var found := FindRow(flushed, item.reference);
    if found.Some? then table[found.value := Overwrite(table[found.value], me, item, now)]
    else table + [NewRow(me, item, now)]
  }

  function UpsertAll(flushed: seq<Invoice>, table: seq<Invoice>, me: TenantId, items: seq<ErpItem>, now: Time)
    : (t: seq<Invoice>)
    requires |flushed| <= |table|
    ensures |table| <= |t|
    decreases |items|
  {
    if items == [] then table
    else UpsertAll(flushed, Upsert(flushed, table, me, items[0], now), me, items[1..], now)
  }

  /** What the two unique constraints of the table allow to be flushed. */
  predicate Flushable(t: seq<Invoice>) {
    forall i, j | 0 <= i < j < |t| ::
      && (t[i].erpId == "" || t[i].erpId != t[j].erpId)
      && (t[i].number == "" || t[i].number != t[j].number)
  }

  /** Only a missing identifier can be shared. */
  lemma SharedNamesAreRefused(t: seq<Invoice>, i: nat, j: nat)
    requires i < |t| && j < |t| && i != j
    requires t[i].erpId == t[j].erpId != "" || t[i].number == t[j].number != ""
    ensures !Flushable(t)
  {
    assert if i < j then t[i].erpId == t[j].erpId || t[i].number == t[j].number
           else t[j].erpId == t[i].erpId || t[j].number == t[i].number;
  }

  predicate Nameless(items: seq<ErpItem>) {
    exists k | 0 <= k < |items| :: items[k].reference == ""
  }

  /** The table after a sync, or `None` where it raises: at an item without a name, or at the
      flush when a unique constraint fails. */
  function Sync(invoices: seq<Invoice>, me: TenantId, items: seq<ErpItem>, now: Time): Option<seq<Invoice>> {
    var t := UpsertAll(invoices, invoices, me, items, now);
    if Nameless(items) || !Flushable(t) then None else Some(t)
  }

  /** The form of a table only the sync has written: both identifiers of a row are the same
      name, and no two rows have the same one. */
  ghost predicate Keyed(t: seq<Invoice>) {
    && (forall k | 0 <= k < |t| :: t[k].erpId == t[k].number != "")
    && (forall i, j | 0 <= i < j < |t| :: t[i].erpId != t[j].erpId)
  }

  lemma FindRowInKeyed(t: seq<Invoice>, k: RowId)
    requires Keyed(t) && k < |t|
    ensures FindRow(t, t[k].erpId) == Some(k)
  {
    assert Matches(t[k], t[k].erpId);
    OnlyMatch(t, k);
  }

  /** The names no stored row has, in the order of the items. */
  function NewNames(flushed: seq<Invoice>, items: seq<ErpItem>): seq<string>
    decreases |items|
  {
    if items == [] then []
    else (if FindRow(flushed, items[0].reference).None? then [items[0].reference] else [])
         + NewNames(flushed, items[1..])
  }

  function LastNamed(items: seq<ErpItem>, name: string): (r: Option<ErpItem>)
    ensures r.Some? ==> r.value in items && r.value.reference == name
    ensures r.None? ==> forall i | i in items :: i.reference != name
    decreases |items|
  {
    if items == [] then None
    else
      var later := LastNamed(items[1..], name);
      if later.Some? then later
      else if items[0].reference == name then Some(items[0]) else None
  }

  ghost predicate SameNames(t: seq<Invoice>, names: seq<string>) {
    |t| == |names| && forall k | 0 <= k < |t| :: t[k].erpId == t[k].number == names[k]
  }

  function Names(t: seq<Invoice>): (names: seq<string>)
    ensures |names| == |t| && forall k | 0 <= k < |t| :: names[k] == t[k].erpId
  {
    if |t| == 0 then [] else Names(t[..|t| - 1]) + [t[|t| - 1].erpId]
  }

  lemma OverwriteNames(table: seq<Invoice>, names: seq<string>, k: RowId, me: TenantId, item: ErpItem, now: Time)
    requires SameNames(table, names) && k < |table| && names[k] == item.reference
    ensures SameNames(table[k := Overwrite(table[k], me, item, now)], names)
  {
  }

  lemma AppendName(table: seq<Invoice>, names: seq<string>, me: TenantId, item: ErpItem, now: Time)
    requires SameNames(table, names)
    ensures SameNames(table + [NewRow(me, item, now)], names + [item.reference])
  {
  }

  lemma UpsertNames(flushed: seq<Invoice>, table: seq<Invoice>, names: seq<string>,
                    me: TenantId, item: ErpItem, now: Time)
    requires Keyed(flushed) && |flushed| <= |table| && item.reference != ""
    requires SameNames(table, names) && Names(flushed) <= names
    ensures SameNames(Upsert(flushed, table, me, item, now),
                      names + if FindRow(flushed, item.reference).None? then [item.reference] else [])
  {
    hide FindRow, Names, Overwrite, NewRow;
    var found := FindRow(flushed, item.reference);
    if found.Some? {
      assert names[found.value] == Names(flushed)[found.value];
      OverwriteNames(table, names, found.value, me, item, now);
      assert names + [] == names;
    } else {
      AppendName(table, names, me, item, now);
    }
  }

  /** Names that are not empty can be flushed exactly when they are distinct. */
  lemma FlushableWhenDistinct(t: seq<Invoice>, names: seq<string>)
    requires SameNames(t, names) && forall i | 0 <= i < |names| :: names[i] != ""
    ensures Flushable(t) <==> Distinct(names)
    ensures Keyed(t) <==> Distinct(names)
  {
    if Flushable(t) {
      forall i, j | 0 <= i < j < |names| ensures names[i] != names[j] {
        assert t[i].erpId == names[i] && t[j].erpId == names[j];
      }
    }
    if Distinct(names) {
      forall i, j | 0 <= i < j < |t| ensures t[i].erpId != t[j].erpId && t[i].number != t[j].number {
        assert names[i] != names[j];
      }
    }
  }

  lemma DistinctTogether(xs: seq<string>, ys: seq<string>)
    requires Distinct(xs) && forall j | 0 <= j < |ys| :: ys[j] !in xs
    ensures Distinct(xs + ys) <==> Distinct(ys)
  {
    if Distinct(xs + ys) {
      forall i, j | 0 <= i < j < |ys| ensures ys[i] != ys[j] {
        assert (xs + ys)[|xs| + i] == ys[i] && (xs + ys)[|xs| + j] == ys[j];
      }
    }
  }

  /** The identifiers after the writes: the stored ones, then the new ones. */
  lemma {:induction false} NamesAfterUpserts(flushed: seq<Invoice>, table: seq<Invoice>, names: seq<string>,
                                             me: TenantId, items: seq<ErpItem>, now: Time)
    requires Keyed(flushed) && |flushed| <= |table| && !Nameless(items)
    requires SameNames(table, names) && Names(flushed) <= names
    ensures SameNames(UpsertAll(flushed, table, me, items, now), names + NewNames(flushed, items))
    decreases |items|
  {
    hide Upsert, SameNames, Keyed, FindRow, Names;
    if items != [] {
      assert items[0].reference != "" && !Nameless(items[1..]) by {
        assert forall k | 0 <= k < |items[1..]| :: items[1..][k] == items[k + 1];
      }
      var next := Upsert(flushed, table, me, items[0], now);
      var head := if FindRow(flushed, items[0].reference).None? then [items[0].reference] else [];
      UpsertNames(flushed, table, names, me, items[0], now);
      NamesAfterUpserts(flushed, next, names + head, me, items[1..], now);
      assert (names + head) + NewNames(flushed, items[1..]) == names + (head + NewNames(flushed, items[1..]));
    } else {
      assert names + NewNames(flushed, items) == names;
    }
  }

  /** A stored row ends up with the fields of the last item of its name, or untouched; a row
      beyond the stored ones is never written again. */
  lemma {:induction false} RowAfterUpserts(flushed: seq<Invoice>, table: seq<Invoice>, me: TenantId,
                                           items: seq<ErpItem>, now: Time, k: RowId)
    requires Keyed(flushed) && |flushed| <= |table| && k < |table| && !Nameless(items)
    ensures var t := UpsertAll(flushed, table, me, items, now);
            t[k] == if k >= |flushed| || LastNamed(items, flushed[k].erpId).None? then table[k]
                    else Overwrite(table[k], me, LastNamed(items, flushed[k].erpId).value, now)
    decreases |items|
  {
    if items != [] {
      assert items[0].reference != "";
      var next := Upsert(flushed, table, me, items[0], now);
      assert forall j | 0 <= j < |items[1..]| :: items[1..][j] == items[j + 1];
      RowAfterUpserts(flushed, next, me, items[1..], now, k);
      if k < |flushed| && items[0].reference == flushed[k].erpId {
        FindRowInKeyed(flushed, k);
      }
    }
  }

  lemma {:induction false} NewItemHasRow(flushed: seq<Invoice>, table: seq<Invoice>, me: TenantId,
                                         items: seq<ErpItem>, now: Time, d: nat) returns (k: RowId)
    requires Keyed(flushed) && |flushed| <= |table| && !Nameless(items) && d < |items|
    requires FindRow(flushed, items[d].reference).None?
    ensures var t := UpsertAll(flushed, table, me, items, now);
            |flushed| <= k < |t| && t[k] == NewRow(me, items[d], now)
    decreases |items|
  {
    var next := Upsert(flushed, table, me, items[0], now);
    assert forall j | 0 <= j < |items[1..]| :: items[1..][j] == items[j + 1];
    if d == 0 {
      k := |table|;
      RowAfterUpserts(flushed, next, me, items[1..], now, k);
    } else {
      k := NewItemHasRow(flushed, next, me, items[1..], now, d - 1);
    }
  }

  lemma {:induction false} NewNamesAreNew(flushed: seq<Invoice>, items: seq<ErpItem>, i: nat)
    requires i < |NewNames(flushed, items)|
    ensures FindRow(flushed, NewNames(flushed, items)[i]).None?
    decreases |items|
  {
    if FindRow(flushed, items[0].reference).Some? {
      NewNamesAreNew(flushed, items[1..], i);
    } else if i > 0 {
      NewNamesAreNew(flushed, items[1..], i - 1);
    }
  }

  /** When a sync of a keyed table succeeds, and what it then leaves. It fails exactly at an
      item without a name or at a new name that comes twice: the session does not flush between
      items, so the second lookup misses the first row. */
  lemma SyncOutcome(invoices: seq<Invoice>, me: TenantId, items: seq<ErpItem>, now: Time)
    requires Keyed(invoices)
    ensures Sync(invoices, me, items, now).Some?
            <==> !Nameless(items) && Distinct(NewNames(invoices, items))
    ensures Sync(invoices, me, items, now).Some? ==>
              var t := Sync(invoices, me, items, now).value;
              && Keyed(t)
              && |t| == |invoices| + |NewNames(invoices, items)|
              && (forall k | 0 <= k < |invoices| ::
                    t[k] == if LastNamed(items, invoices[k].erpId).None? then invoices[k]
                            else Overwrite(invoices[k], me, LastNamed(items, invoices[k].erpId).value, now))
  {
    if !Nameless(items) {
      var t := UpsertAll(invoices, invoices, me, items, now);
      var names := Names(invoices) + NewNames(invoices, items);
      NamesAfterUpserts(invoices, invoices, Names(invoices), me, items, now);
      forall i | 0 <= i < |NewNames(invoices, items)|
        ensures NewNames(invoices, items)[i] !in Names(invoices) && NewNames(invoices, items)[i] != ""
      {
        NewNamesAreNew(invoices, items, i);
        NewNameNotEmpty(invoices, items, i);
      }
      DistinctTogether(Names(invoices), NewNames(invoices, items));
      FlushableWhenDistinct(t, names);
      forall k | 0 <= k < |invoices|
        ensures t[k] == if LastNamed(items, invoices[k].erpId).None? then invoices[k]
                        else Overwrite(invoices[k], me, LastNamed(items, invoices[k].erpId).value, now)
      {
        RowAfterUpserts(invoices, invoices, me, items, now, k);
      }
    }
  }

  lemma {:induction false} NewNameNotEmpty(flushed: seq<Invoice>, items: seq<ErpItem>, i: nat)
    requires !Nameless(items) && i < |NewNames(flushed, items)|
    ensures NewNames(flushed, items)[i] != ""
    decreases |items|
  {
    assert items[0].reference != "";
    assert forall j | 0 <= j < |items[1..]| :: items[1..][j] == items[j + 1];
    if FindRow(flushed, items[0].reference).Some? {
      NewNameNotEmpty(flushed, items[1..], i);
    } else if i > 0 {
      NewNameNotEmpty(flushed, items[1..], i - 1);
    }
  }

  /** After a sync of distinctly named items each item has exactly one row, whose columns are the
      item's: the row it had, with its time of creation kept, or a new one. */
  lemma OneRowPerItem(invoices: seq<Invoice>, me: TenantId, items: seq<ErpItem>, now: Time, d: nat)
    returns (k: RowId)
    requires Keyed(invoices) && d < |items|
    requires forall a, b | 0 <= a < b < |items| :: items[a].reference != items[b].reference
    requires Sync(invoices, me, items, now).Some?
    ensures var t := Sync(invoices, me, items, now).value;
            && k < |t|
            && CopiedFrom(t[k], if k < |invoices| then invoices[k].createdAt else now, me, items[d], now)
            && (k < |invoices| <==> exists j :: 0 <= j < |invoices| && Matches(invoices[j], items[d].reference))
            && (forall j | 0 <= j < |t| && Matches(t[j], items[d].reference) :: j == k)
  {
    var t := Sync(invoices, me, items, now).value;
    SyncOutcome(invoices, me, items, now);
    hide *;
    if FindRow(invoices, items[d].reference).Some? {
      k := StoredItemHasRow(invoices, me, items, now, d);
      OverwrittenColumns(invoices[k], me, items[d], now);
      OverwriteNamed(invoices[k], me, items[d], now);
    } else {
      k := NewItemHasRow(invoices, invoices, me, items, now, d);
      SyncIs(invoices, me, items, now);
      OverwrittenColumns(t[k], me, items[d], now);
      NewRowIs(me, items[d], now);
    }
    OnlyMatch(t, k);
  }

  lemma SyncIs(invoices: seq<Invoice>, me: TenantId, items: seq<ErpItem>, now: Time)
    requires Sync(invoices, me, items, now).Some?
    ensures Sync(invoices, me, items, now).value == UpsertAll(invoices, invoices, me, items, now) && !Nameless(items)
  {
  }

  lemma LastNamedIs(items: seq<ErpItem>, d: nat)
    requires d < |items|
    requires forall a, b | 0 <= a < b < |items| :: items[a].reference != items[b].reference
    ensures LastNamed(items, items[d].reference) == Some(items[d])
  {
    assert items[d] in items;
    var last := LastNamed(items, items[d].reference);
    var e :| 0 <= e < |items| && items[e] == last.value;
  }

  lemma StoredItemHasRow(invoices: seq<Invoice>, me: TenantId, items: seq<ErpItem>, now: Time, d: nat)
    returns (k: RowId)
    requires Keyed(invoices) && d < |items| && FindRow(invoices, items[d].reference).Some?
    requires forall a, b | 0 <= a < b < |items| :: items[a].reference != items[b].reference
    requires Sync(invoices, me, items, now).Some?
    ensures var t := Sync(invoices, me, items, now).value;
            k < |invoices| <= |t| && t[k] == Overwrite(invoices[k], me, items[d], now)
  {
    SyncOutcome(invoices, me, items, now);
    k := FindRow(invoices, items[d].reference).value;
    LastNamedIs(items, d);
    hide Sync, FindRow, Overwrite, LastNamed, NewNames;
    assert invoices[k].erpId == items[d].reference;
  }

  lemma OverwriteTwice(me: TenantId, item: ErpItem, now: Time)
    ensures forall row :: Overwrite(Overwrite(row, me, item, now), me, item, now) == Overwrite(row, me, item, now)
  {
  }

  lemma OverwriteNamed(row: Invoice, me: TenantId, item: ErpItem, now: Time)
    ensures Overwrite(row, me, item, now).erpId == item.reference
  {
  }

  lemma OnlyMatch(t: seq<Invoice>, k: RowId)
    requires Keyed(t) && k < |t|
    ensures forall j | 0 <= j < |t| && Matches(t[j], t[k].erpId) :: j == k
  {
    forall j | 0 <= j < |t| && j != k ensures !Matches(t[j], t[k].erpId) {
      assert t[j].erpId == t[j].number;
      assert if j < k then t[j].erpId != t[k].erpId else t[k].erpId != t[j].erpId;
    }
  }

  // ----- A tenant's listed invoices -----

  datatype ErpAnswer = NoMatch | Found(item: ErpItem) | Unreachable

  datatype InvoiceList = Listed(items: seq<ErpItem>) | ListUnavailable

  /** The ERP as seen by one tenant during one call: whether the tenant is linked to it, what it
      lists, and its answer to a reference (with the fallback on the list folded in). The list
      carries fewer fields of an invoice than the answer to its reference. */
  datatype Erp = Erp(linked: bool, listed: InvoiceList, lookup: string -> ErpAnswer)

  /** The ERP answers about the invoice it was asked for. */
  ghost predicate Honest(erp: Erp) {
    forall name | erp.lookup(name).Found? ::
      erp.lookup(name).item.reference == name || erp.lookup(name).item.reference == ""
  }

  /** The table after the tenant's listed invoices are copied; `None` where it raises. */
  function SyncTenant(invoices: seq<Invoice>, me: TenantId, erp: Erp, now: Time): Option<seq<Invoice>> {
    if !erp.linked then Some(invoices)
    else match erp.listed
      case ListUnavailable => None
      case Listed(items) => Sync(invoices, me, items, now)
  }

  /** The list is there, and can be copied. */
  ghost predicate Copyable(invoices: seq<Invoice>, erp: Erp) {
    erp.linked ==>
      erp.listed.Listed? && !Nameless(erp.listed.items) && Distinct(NewNames(invoices, erp.listed.items))
  }

  /** Copying the list again would write what the row already holds. */
  ghost predicate Copied(row: Invoice, me: TenantId, erp: Erp) {
    erp.linked && erp.listed.Listed? && LastNamed(erp.listed.items, row.erpId).Some? ==>
      SameButPaidAt(Overwrite(row, me, LastNamed(erp.listed.items, row.erpId).value, 0), row)
  }

  lemma OverwriteAgain(row: Invoice, me: TenantId, item: ErpItem, now: Time, later: Time)
    ensures SameButPaidAt(Overwrite(Overwrite(row, me, item, now), me, item, later), Overwrite(row, me, item, now))
  {
  }

  lemma StoredName(invoices: seq<Invoice>, me: TenantId, items: seq<ErpItem>, now: Time, k: RowId)
    requires Keyed(invoices) && Sync(invoices, me, items, now).Some? && k < |invoices|
    ensures Sync(invoices, me, items, now).value[k].erpId == invoices[k].erpId
  {
    SyncOutcome(invoices, me, items, now);
  }

  lemma StoredNamesAreApart(invoices: seq<Invoice>, me: TenantId, items: seq<ErpItem>, now: Time, k: RowId)
    requires Keyed(invoices) && Sync(invoices, me, items, now).Some?
    requires |invoices| <= k < |Sync(invoices, me, items, now).value|
    ensures FindRow(invoices, Sync(invoices, me, items, now).value[k].erpId).None?
  {
    SyncOutcome(invoices, me, items, now);
    var t := Sync(invoices, me, items, now).value;
    var found := FindRow(invoices, t[k].erpId);
    if found.Some? {
      StoredName(invoices, me, items, now, found.value);
    }
  }

  lemma StoredRowCopies(invoices: seq<Invoice>, me: TenantId, items: seq<ErpItem>, now: Time, k: RowId)
    requires Keyed(invoices) && Sync(invoices, me, items, now).Some? && k < |invoices|
    ensures var t := Sync(invoices, me, items, now).value;
            LastNamed(items, t[k].erpId).Some? ==>
              t[k] == Overwrite(t[k], me, LastNamed(items, t[k].erpId).value, now)
  {
    SyncOutcome(invoices, me, items, now);
    StoredName(invoices, me, items, now, k);
    var last := LastNamed(items, invoices[k].erpId);
    hide *;
    if last.Some? { OverwriteTwice(me, last.value, now); }
  }

  lemma NewRowCopies(invoices: seq<Invoice>, me: TenantId, items: seq<ErpItem>, now: Time, k: RowId)
    requires Keyed(invoices) && Sync(invoices, me, items, now).Some?
    requires |invoices| <= k < |Sync(invoices, me, items, now).value|
    requires LastNamed(items, Sync(invoices, me, items, now).value[k].erpId).Some?
    ensures var t := Sync(invoices, me, items, now).value;
            t[k] == Overwrite(t[k], me, LastNamed(items, t[k].erpId).value, now)
  {
    SyncOutcome(invoices, me, items, now);
    SyncIs(invoices, me, items, now);
    StoredNamesAreApart(invoices, me, items, now, k);
    var t := Sync(invoices, me, items, now).value;
    var last := LastNamed(items, t[k].erpId).value;
    var d :| 0 <= d < |items| && items[d] == last;
    hide Sync, UpsertAll, FindRow, LastNamed, NewNames, Overwrite, NewRow;
    var j := NewItemHasRow(invoices, invoices, me, items, now, d);
    NewRowIs(me, items[d], now);
    assert j == k;
  }

  lemma NewRowIs(me: TenantId, item: ErpItem, now: Time)
    ensures NewRow(me, item, now) == Overwrite(NewRow(me, item, now), me, item, now)
    ensures NewRow(me, item, now).erpId == item.reference
  {
  }

  /** After a sync every row holds what the last item of its name says. */
  lemma SyncCopies(invoices: seq<Invoice>, me: TenantId, items: seq<ErpItem>, now: Time, k: RowId)
    requires Keyed(invoices) && Sync(invoices, me, items, now).Some?
    requires k < |Sync(invoices, me, items, now).value|
    ensures var t := Sync(invoices, me, items, now).value;
            LastNamed(items, t[k].erpId).Some? ==>
              t[k] == Overwrite(t[k], me, LastNamed(items, t[k].erpId).value, now)
  {
    hide *;
    if k < |invoices| {
      StoredRowCopies(invoices, me, items, now, k);
    } else if LastNamed(items, Sync(invoices, me, items, now).value[k].erpId).Some? {
      NewRowCopies(invoices, me, items, now, k);
    }
  }

  /** Copying succeeds exactly when the list is there, names every invoice and repeats no new one;
      it leaves a keyed table that holds what the list says. */
  lemma SyncTenantOutcome(invoices: seq<Invoice>, me: TenantId, erp: Erp, now: Time)
    requires Keyed(invoices)
    ensures SyncTenant(invoices, me, erp, now).Some? <==> Copyable(invoices, erp)
    ensures SyncTenant(invoices, me, erp, now).Some? ==>
              var t := SyncTenant(invoices, me, erp, now).value;
              Keyed(t) && (erp.linked ==> forall k | 0 <= k < |t| :: Copied(t[k], me, erp))
  {
    if erp.linked && erp.listed.Listed? {
      var items := erp.listed.items;
      SyncOutcome(invoices, me, items, now);
      if Sync(invoices, me, items, now).Some? {
        var t := Sync(invoices, me, items, now).value;
        forall k | 0 <= k < |t| ensures Copied(t[k], me, erp) {
          SyncCopies(invoices, me, items, now, k);
          if LastNamed(items, t[k].erpId).Some? {
            OverwriteAgain(t[k], me, LastNamed(items, t[k].erpId).value, now, 0);
          }
        }
      }
    }
  }

  class InvoiceTable {
    var rows: seq<Invoice>

    constructor (rows: seq<Invoice>)
      ensures this.rows == rows
    {
      this.rows := rows;
    }

    /** Copies the listed invoices into the table; where it raises, the rows are rolled back. */
    method SyncPlatformInvoices(me: TenantId, erp: Erp, now: Time) returns (ok: bool)
      modifies this
      ensures ok == SyncTenant(old(rows), me, erp, now).Some?
      ensures rows == if ok then SyncTenant(old(rows), me, erp, now).value else old(rows)
    {
      if !erp.linked {
        return true;
      }
      if erp.listed.ListUnavailable? {
        return false;
      }
      var items := erp.listed.items;
      var flushed := rows;
      var i := 0;
      while i < |items|
        invariant 0 <= i <= |items| && |flushed| <= |rows|
        invariant forall k | 0 <= k < i :: items[k].reference != ""
        invariant UpsertAll(flushed, rows, me, items[i..], now) == UpsertAll(flushed, flushed, me, items, now)
      {
        if items[i].reference == "" {
          rows := flushed;
          return false;
        }
        var found := FindRow(flushed, items[i].reference);
        if found.Some? {
          rows := rows[found.value := Overwrite(rows[found.value], me, items[i], now)];
        } else {
          rows := rows + [NewRow(me, items[i], now)];
        }
        assert items[i..][1..] == items[i + 1..];
        i := i + 1;
      }
      if !Flushable(rows) {
        rows := flushed;
        return false;
      }
      return true;
    }
  }

  // ----- One invoice -----

  function ReferenceOf(row: Invoice): string {
    if row.erpId != "" then row.erpId else row.number
  }

  /** The table and the row returned after one invoice is read again; `None` where it raises. */
  function Resync(invoices: seq<Invoice>, i: RowId, me: TenantId, erp: Erp, now: Time)
    : (r: Option<(seq<Invoice>, RowId)>)
    requires i < |invoices|
    ensures r.Some? ==> r.value.1 < |r.value.0| && |invoices| <= |r.value.0|
  {
    var reference := ReferenceOf(invoices[i]);
    if !erp.linked || reference == "" then Some((invoices, i))
    else match erp.lookup(reference)
      case NoMatch => Some((invoices, i))
      case Unreachable => None
      case Found(item) =>
        var t := Upsert(invoices, invoices, me, item, now);
        if item.reference == "" || !Flushable(t) then None
        else
          var found := FindRow(invoices, item.reference);
          Some((t, if found.Some? then found.value else |invoices|))
  }

  /** The reading fails exactly when the ERP cannot be reached or answers without a name. */
  predicate Readable(row: Invoice, erp: Erp) {
    erp.linked ==>
      !erp.lookup(ReferenceOf(row)).Unreachable?
      && (erp.lookup(ReferenceOf(row)).Found? ==> erp.lookup(ReferenceOf(row)).item.reference != "")
  }

  /** A row after being read again. */
  function Reread(row: Invoice, me: TenantId, erp: Erp, now: Time): Invoice {
    if erp.linked && erp.lookup(ReferenceOf(row)).Found?
    then Overwrite(row, me, erp.lookup(ReferenceOf(row)).item, now) else row
  }

  /** In a keyed table, with an honest ERP, reading one invoice again writes that row only. */
  lemma ResyncOutcome(invoices: seq<Invoice>, i: RowId, me: TenantId, erp: Erp, now: Time)
    requires Keyed(invoices) && Honest(erp) && i < |invoices|
    ensures Resync(invoices, i, me, erp, now)
         == if Readable(invoices[i], erp) then Some((invoices[i := Reread(invoices[i], me, erp, now)], i)) else None
    ensures Keyed(invoices[i := Reread(invoices[i], me, erp, now)])
            || !Readable(invoices[i], erp)
  {
    FindRowInKeyed(invoices, i);
    assert invoices[i := invoices[i]] == invoices;
    if erp.linked && erp.lookup(invoices[i].erpId).Found? {
      var item := erp.lookup(invoices[i].erpId).item;
      if item.reference != "" {
        var t := invoices[i := Overwrite(invoices[i], me, item, now)];
        assert Upsert(invoices, invoices, me, item, now) == t;
        assert forall k | 0 <= k < |t| :: t[k].erpId == invoices[k].erpId && t[k].number == invoices[k].number;
        assert Flushable(t);
      }
    }
  }

  /** In any table and with any answer, reading an invoice again writes at most one row: the first that
      has the item's name as either of its identifiers, or a new one at the end. It is asked for by its
      ERP identifier, or for want of one by its number. */
  lemma ResyncWrites(invoices: seq<Invoice>, i: RowId, me: TenantId, erp: Erp, now: Time)
    requires i < |invoices| && Resync(invoices, i, me, erp, now).Some?
    ensures var (t, row) := Resync(invoices, i, me, erp, now).value;
            var name := if invoices[i].erpId == "" then invoices[i].number else invoices[i].erpId;
            && (!erp.linked || name == "" || erp.lookup(name).NoMatch? ==> t == invoices && row == i)
            && (erp.linked && name != "" ==> !erp.lookup(name).Unreachable?)
            && (erp.linked && name != "" && erp.lookup(name).Found? ==>
                  var item := erp.lookup(name).item;
                  && item.reference != ""
                  && (forall k | 0 <= k < |invoices| && k != row :: t[k] == invoices[k])
                  && (forall k | 0 <= k < |invoices| && k < row ::
                        invoices[k].erpId != item.reference && invoices[k].number != item.reference)
                  && (if row < |invoices|
                      then |t| == |invoices|
                           && (invoices[row].erpId == item.reference || invoices[row].number == item.reference)
                           && CopiedFrom(t[row], invoices[row].createdAt, me, item, now)
                      else |t| == |invoices| + 1 && row == |invoices| && CopiedFrom(t[row], now, me, item, now)))
  {
    var name := if invoices[i].erpId == "" then invoices[i].number else invoices[i].erpId;
    if erp.linked && name != "" && erp.lookup(name).Found? {
      var item := erp.lookup(name).item;
      var found := FindRow(invoices, item.reference);
      OverwrittenColumns(if found.Some? then invoices[found.value] else invoices[0], me, item, now);
      hide FindRow, CopiedFrom, Overwrite, NewRow, Flushable;
    }
  }

  /** The first row that has the item's name as either of its identifiers is the one written; that fails
      exactly if another row then shares a name with it. */
  lemma ResyncFinds(invoices: seq<Invoice>, i: RowId, me: TenantId, erp: Erp, now: Time, k: RowId)
    requires i < |invoices| && erp.linked && ReferenceOf(invoices[i]) != ""
    requires erp.lookup(ReferenceOf(invoices[i])).Found?
    requires var name := erp.lookup(ReferenceOf(invoices[i])).item.reference;
             && name != "" && k < |invoices| && (invoices[k].erpId == name || invoices[k].number == name)
             && forall j | 0 <= j < k :: invoices[j].erpId != name && invoices[j].number != name
    ensures var t := invoices[k := Overwrite(invoices[k], me, erp.lookup(ReferenceOf(invoices[i])).item, now)];
            Resync(invoices, i, me, erp, now) == if Flushable(t) then Some((t, k)) else None
  {
    var item := erp.lookup(ReferenceOf(invoices[i])).item;
    assert Matches(invoices[k], item.reference);
    assert FindRow(invoices, item.reference) == Some(k);
  }

  /** A linked tenant's invoice that the ERP answers for holds the item's columns afterwards, in its
      own row; every other row is as it was. */
  lemma ResyncedColumns(invoices: seq<Invoice>, i: RowId, me: TenantId, erp: Erp, now: Time)
    requires Keyed(invoices) && Honest(erp) && i < |invoices| && erp.linked
    requires erp.lookup(invoices[i].erpId).Found? && erp.lookup(invoices[i].erpId).item.reference != ""
    ensures var r := Resync(invoices, i, me, erp, now);
            && r.Some? && r.value.1 == i
            && |r.value.0| == |invoices| && (forall k | 0 <= k < |invoices| && k != i :: r.value.0[k] == invoices[k])
            && CopiedFrom(r.value.0[i], invoices[i].createdAt, me, erp.lookup(invoices[i].erpId).item, now)
  {
    ResyncOutcome(invoices, i, me, erp, now);
    OverwrittenColumns(invoices[i], me, erp.lookup(invoices[i].erpId).item, now);
    hide Resync, CopiedFrom, Overwrite;
  }
}
