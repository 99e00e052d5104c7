/** The tenant status table and the guarded write. */
module TenantState {
  import opened Common
  import opened Statuses

  function AllowedFrom(from: TenantStatus): set<TenantStatus> {
    match from
    case PendingPayment =>
      {TenantStatus.Pending, TenantStatus.Suspended, TenantStatus.SuspendedAdmin,
       TenantStatus.SuspendedBilling, TenantStatus.PendingDeletion, TenantStatus.Deleting,
       TenantStatus.Failed, TenantStatus.Deleted}
    case Pending =>
      {TenantStatus.PendingPayment, TenantStatus.Provisioning, TenantStatus.Suspended,
       TenantStatus.SuspendedAdmin, TenantStatus.SuspendedBilling, TenantStatus.PendingDeletion,
       TenantStatus.Deleting, TenantStatus.Failed, TenantStatus.Deleted}
    case Provisioning =>
      {TenantStatus.Active, TenantStatus.Failed, TenantStatus.Suspended,
       TenantStatus.SuspendedAdmin, TenantStatus.SuspendedBilling, TenantStatus.PendingDeletion}
    case Active =>
      {TenantStatus.Suspended, TenantStatus.SuspendedAdmin, TenantStatus.SuspendedBilling,
       TenantStatus.Upgrading, TenantStatus.Restoring, TenantStatus.PendingDeletion,
       TenantStatus.Deleting, TenantStatus.Failed}
    case Suspended | SuspendedAdmin | SuspendedBilling =>
      {TenantStatus.Active, TenantStatus.PendingDeletion, TenantStatus.Deleting, TenantStatus.Failed}
    case Upgrading | Restoring =>
      {TenantStatus.Active, TenantStatus.Failed, TenantStatus.PendingDeletion}
    case PendingDeletion => {TenantStatus.Deleting, TenantStatus.Deleted, TenantStatus.Failed}
    case Deleting => {TenantStatus.Deleted, TenantStatus.Failed}
    case Failed => {TenantStatus.Pending, TenantStatus.PendingDeletion, TenantStatus.Deleted}
    case Deleted | ActivationBlocked | Blank | Other(_) => {}
  }

  /** The keys of the table: the statuses a tenant row is meant to hold. */
  predicate Tabled(t: TenantStatus) {
    !t.ActivationBlocked? && !t.Blank? && !t.Other?
  }

  predicate CanTransition(from: TenantStatus, to: TenantStatus) {
    from == to || to in AllowedFrom(from)
  }

  predicate Held(t: TenantStatus) {
    t.Suspended? || t.SuspendedAdmin? || t.SuspendedBilling?
  }

  predicate NotYetServed(t: TenantStatus) {
    t.PendingPayment? || t.Pending?
  }

  predicate AtWork(t: TenantStatus) {
    t.Upgrading? || t.Restoring?
  }

  /** The table read the other way round: from where each status can be entered. */
  lemma EnteredFrom(from: TenantStatus, to: TenantStatus)
    requires Tabled(from) && from != to
    ensures CanTransition(from, to)
            <==> match to
                 case Pending => from.PendingPayment? || from.Failed?
                 case PendingPayment | Provisioning => from.Pending?
                 case Active => from.Provisioning? || Held(from) || AtWork(from)
                 case Suspended | SuspendedAdmin | SuspendedBilling =>
                   NotYetServed(from) || from.Provisioning? || from.Active?
                 case Upgrading | Restoring => from.Active?
                 case PendingDeletion => !from.Deleting? && !from.Deleted?
                 case Deleting => NotYetServed(from) || from.Active? || Held(from) || from.PendingDeletion?
                 case Deleted => NotYetServed(from) || from.Failed? || from.PendingDeletion? || from.Deleting?
                 case Failed => !from.Deleted?
                 case ActivationBlocked | Blank | Other(_) => false
  {
  }

  /** The status after a guarded write whose refusal the caller swallows. */
  function Guarded(from: TenantStatus, to: TenantStatus): TenantStatus {
    if CanTransition(from, to) then to else from
  }

  class Tenant {
    var status: TenantStatus
    var updatedAt: Time

    constructor (status: TenantStatus, updatedAt: Time)
      ensures this.status == status && this.updatedAt == updatedAt
    {
      this.status := status;
      this.updatedAt := updatedAt;
    }

    /** Writes the status if the table has the edge; `ok` is false where the code raises. */
    method TransitionStatus(newStatus: TenantStatus) returns (ok: bool)
      modifies this`status
      ensures ok == CanTransition(old(status), newStatus)
      ensures status == Guarded(old(status), newStatus)
    {
      if status == newStatus {
        return true;
      }
      if newStatus !in AllowedFrom(status) {
        return false;
      }
      status := newStatus;
      return true;
    }
  }
}
