/** What a confirmed payment, a failed payment, a cancellation and a paid repair do to the
    stored statuses of a tenant and its subscription. */
module Transitions {
  import opened Common
  import opened Statuses
  import opened TenantState
  import SubscriptionState
  import TrialLifecycle
  import Lifecycle

  datatype SubscriptionRow = SubscriptionRow(status: SubscriptionStatus, trialEndsAt: Option<Time>)

  datatype Standing = Standing(tenant: TenantStatus, subscription: SubscriptionRow)

  /** The operational state the lifecycle derives from a paid attempt on a paid invoice. */
  function PaidTarget(t: TenantStatus): TenantStatus {
    Lifecycle.Evaluate(t, SubscriptionStatus.Active, InvoiceStatus.Paid, AttemptStatus.Paid).operational
  }

  /** `None` where the subscription validator raises. */
  function Confirm(s: Standing): Option<Standing> {
    if !SubscriptionState.Accepts(s.subscription.status, SubscriptionStatus.Active) then None
    else
      var target := PaidTarget(s.tenant);
      var t := if CanTransition(s.tenant, target) then target
               else if target.Pending? then TenantStatus.Pending else s.tenant;
      var trial := if s.subscription.status.Trialing? then None else s.subscription.trialEndsAt;
      Some(Standing(t, SubscriptionRow(SubscriptionStatus.Active, trial)))
  }

  function FailedTarget(t: TenantStatus): TenantStatus {
    if t.Pending? || t.PendingPayment? then TenantStatus.PendingPayment else TenantStatus.SuspendedBilling
  }

  function Fail(s: Standing): Option<Standing> {
    if !SubscriptionState.Accepts(s.subscription.status, SubscriptionStatus.PastDue) then None
    else
      var target := FailedTarget(s.tenant);
      var t := if CanTransition(s.tenant, target) then target
               else if target.PendingPayment? then s.tenant
               else Guarded(s.tenant, TenantStatus.PendingPayment);
      Some(Standing(t, s.subscription.(status := SubscriptionStatus.PastDue)))
  }

  function Cancel(s: Standing): Option<Standing> {
    if !SubscriptionState.Accepts(s.subscription.status, SubscriptionStatus.Cancelled) then None
    else Some(Standing(TenantStatus.SuspendedBilling, s.subscription.(status := SubscriptionStatus.Cancelled)))
  }

  /** The reconciler's repair after a settled invoice: the confirmation, with the hops the
      table does not allow forced. */
  function Repair(s: Standing, runtimeExists: bool): Option<Standing> {
    var start := if s.tenant.Failed? then s.(tenant := TenantStatus.Pending) else s;
    var confirmed := Confirm(start);
    if confirmed.None? then None
    else
      var c := confirmed.value;
      var t := if s.tenant.SuspendedBilling? then
                 if runtimeExists then TenantStatus.Active else TenantStatus.Pending
               else if s.tenant.PendingPayment? && c.tenant.PendingPayment? then TenantStatus.Pending
               else if s.tenant.Failed? && c.tenant.Failed? then TenantStatus.Pending
               else c.tenant;
      Some(c.(tenant := t))
  }

  /** The tenant status a confirmation leads to: unpaid tenants become pending, every other
      status is kept, a failed tenant included. */
  lemma ConfirmedTenant(s: Standing)
    requires Tabled(s.tenant)
    ensures Confirm(s).Some? ==>
              Confirm(s).value.tenant
              == if s.tenant.PendingPayment? || s.tenant.SuspendedBilling? then TenantStatus.Pending else s.tenant
  {
  }

  /** The tenant status a repair leads to, and that a second repair changes nothing at all. */
  lemma RepairIsIdempotent(s: Standing, runtimeExists: bool)
    requires Tabled(s.tenant)
    requires Repair(s, runtimeExists).Some?
    ensures var r := Repair(s, runtimeExists).value;
            && r.tenant == (if s.tenant.SuspendedBilling? && runtimeExists then TenantStatus.Active
                            else if s.tenant.PendingPayment? || s.tenant.SuspendedBilling? || s.tenant.Failed?
                            then TenantStatus.Pending else s.tenant)
            && r.subscription == SubscriptionRow(SubscriptionStatus.Active,
                                                 if s.subscription.status.Trialing? then None else s.subscription.trialEndsAt)
            && Repair(r, runtimeExists) == Some(r)
  {
    var start := if s.tenant.Failed? then s.(tenant := TenantStatus.Pending) else s;
    ConfirmedTenant(start);
    var r := Repair(s, runtimeExists).value;
    ConfirmedTenant(r);
  }

  /** A confirmation, and hence a repair, raises exactly on a cancelled subscription. */
  lemma ConfirmationRaises(s: Standing, runtimeExists: bool)
    requires StoredSubscriptionStatus(s.subscription.status)
    ensures Confirm(s).None? <==> s.subscription.status.Cancelled?
    ensures Repair(s, runtimeExists).None? <==> s.subscription.status.Cancelled?
  {
  }

  /** A failed payment raises exactly on a cancelled or a paused subscription; otherwise a
      tenant that had reached service is suspended or kept, never reactivated. */
  lemma FailureRaises(s: Standing)
    requires StoredSubscriptionStatus(s.subscription.status) && Tabled(s.tenant)
    ensures Fail(s).None? <==> s.subscription.status.Cancelled? || s.subscription.status.Paused?
    ensures Fail(s).Some? ==>
              Fail(s).value.tenant
              == if s.tenant.Pending? then TenantStatus.PendingPayment
                 else if s.tenant.Provisioning? || s.tenant.Active? then TenantStatus.SuspendedBilling
                 else s.tenant
  {
  }

  // ----- The same three writes on the stored rows -----

  function Read(t: Tenant, s: SubscriptionState.Subscription): Standing
    reads t, s
  {
    Standing(t.status, SubscriptionRow(s.status, s.trialEndsAt))
  }

  method ApplyPaymentConfirmed(t: Tenant, s: SubscriptionState.Subscription, now: Time) returns (ok: bool)
    modifies t`status, s
    ensures ok == Confirm(old(Read(t, s))).Some?
    ensures Read(t, s) == if ok then Confirm(old(Read(t, s))).value else old(Read(t, s))
  {
    var previous := s.status;
    var next := TrialLifecycle.ResolveStatus(s.status, TrialLifecycle.PaymentConfirmed, s.trialEndsAt, now);
    ok := s.SetStatus(next);
    if !ok {
      return;
    }
    if previous.Trialing? {
      s.trialEndsAt := None;
    }
    var snapshot := Lifecycle.Evaluate(t.status, s.status, InvoiceStatus.Paid, AttemptStatus.Paid);
    var moved := t.TransitionStatus(snapshot.operational);
    if !moved && snapshot.operational.Pending? {
      t.status := TenantStatus.Pending;
    }
  }

  method ApplyPaymentFailed(t: Tenant, s: SubscriptionState.Subscription, now: Time) returns (ok: bool)
    modifies t`status, s
    ensures ok == Fail(old(Read(t, s))).Some?
    ensures Read(t, s) == if ok then Fail(old(Read(t, s))).value else old(Read(t, s))
  {
    var next := TrialLifecycle.ResolveStatus(s.status, TrialLifecycle.PaymentFailed, s.trialEndsAt, now);
    ok := s.SetStatus(next);
    if !ok {
      return;
    }
    var target := FailedTarget(t.status);
    var moved := t.TransitionStatus(target);
    if !moved && !target.PendingPayment? {
      moved := t.TransitionStatus(TenantStatus.PendingPayment);
    }
  }

  method ApplySubscriptionCancelled(t: Tenant, s: SubscriptionState.Subscription, now: Time) returns (ok: bool)
    modifies t`status, s
    ensures ok == Cancel(old(Read(t, s))).Some?
    ensures Read(t, s) == if ok then Cancel(old(Read(t, s))).value else old(Read(t, s))
    ensures StoredSubscriptionStatus(old(s.status)) ==>
              ok && t.status.SuspendedBilling? && s.status.Cancelled? && s.trialEndsAt == old(s.trialEndsAt)
  {
    var next := TrialLifecycle.ResolveStatus(s.status, TrialLifecycle.SubscriptionCancelled, s.trialEndsAt, now);
    ok := s.SetStatus(next);
    if !ok {
      return;
    }
    var moved := t.TransitionStatus(TenantStatus.SuspendedBilling);
    if !moved {
      t.status := TenantStatus.SuspendedBilling;
    }
  }

  method TransitionOrForce(t: Tenant, target: TenantStatus) returns (changed: bool)
    modifies t`status
    ensures t.status == target
    ensures changed == (old(t.status) != target)
  {
    if t.status == target {
      return false;
    }
    var moved := t.TransitionStatus(target);
    if !moved {
      t.status := target;
    }
    return true;
  }

  method ApplyPaidRepair(t: Tenant, s: SubscriptionState.Subscription, runtimeExists: bool, now: Time)
    returns (ok: bool, statusChanged: bool, needsProvisioning: bool)
    modifies t`status, s
    ensures ok == Repair(old(Read(t, s)), runtimeExists).Some?
    ensures ok ==> Read(t, s) == Repair(old(Read(t, s)), runtimeExists).value
    ensures ok ==> statusChanged == (t.status != old(t.status))
    ensures ok ==> needsProvisioning == (t.status.Pending? && !runtimeExists)
  {
    statusChanged, needsProvisioning := false, false;
    var previous := t.status;
    if previous.Failed? {
      var _ := TransitionOrForce(t, TenantStatus.Pending);
    }
    ok := ApplyPaymentConfirmed(t, s, now);
    if !ok {
      return;
    }
    if previous.SuspendedBilling? {
      if runtimeExists {
        var _ := TransitionOrForce(t, TenantStatus.Active);
      } else {
        var _ := TransitionOrForce(t, TenantStatus.Pending);
      }
    } else if previous.PendingPayment? && t.status.PendingPayment? {
      var _ := TransitionOrForce(t, TenantStatus.Pending);
    } else if previous.Failed? && t.status.Failed? {
      var _ := TransitionOrForce(t, TenantStatus.Pending);
    }
    statusChanged := t.status != previous;
    needsProvisioning := t.status.Pending? && !runtimeExists;
  }
}
