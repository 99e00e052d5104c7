/** A tenant's whole life: every writer of its status and of its subscription's, in any order. */
module ControlLoop {
  import opened Common
  import opened Statuses
  import opened TenantState
  import opened Transitions
  import Dunning
  import Ledgers
  import PaymentWebhooks
  import Reconciliation
  import SubscriptionState
  import TrialCycle

  datatype Step =
    // billing
    | PaymentConfirmed | PaymentFailed | SubscriptionCancelled
    | Repaired(runtimeExists: bool)                                  // reconciliation of a settled invoice
    | TrialChecked(now: Time)
    | DunningChecked(updatedAt: Time, answers: Dunning.Answers, now: Time)
    | SubscriptionWritten(write: SubscriptionState.WriteRequest)     // everything else goes through the validator
    // people
    | CheckoutRenewed | RetryRequested | DeleteRequested | AdminSuspended | AdminUnsuspended
    // the worker
    | ProvisionStarted | ProvisionFinished | ProvisionFailed
    | DeleteStarted | DeleteFinished | DeleteFailed
    | RestoreStarted | RestoreFinished | RestoreFailed

  /** A worker's guarded write; a refusal fails the job, and the tenant with it where the table
      allows. */
  function WorkerMove(t: TenantStatus, target: TenantStatus): TenantStatus {
    if CanTransition(t, target) then target else Guarded(t, TenantStatus.Failed)
  }

  function AfterConfirmation(s: Standing): Standing {
    var c := Confirm(s);
    if c.None? then s else c.value.(tenant := PaymentWebhooks.Unsuspend(s.tenant, c.value.tenant))
  }

  function AfterTrialCheck(s: Standing, now: Time): Standing {
    var row := TrialCycle.Row(s.subscription.status, s.subscription.trialEndsAt, Some(TrialCycle.TenantRow(s.tenant, now)));
    var r := TrialCycle.AfterCycle(row, now);
    Standing(r.tenant.value.status, SubscriptionRow(r.status, r.trialEndsAt))
  }

  function WithTenant(s: Standing, t: TenantStatus): Standing {
    s.(tenant := t)
  }

  function Next(s: Standing, step: Step): Standing {
    var t := s.tenant;
    match step
    case PaymentConfirmed => AfterConfirmation(s)
    case PaymentFailed => if Fail(s).Some? then Fail(s).value else s
    case SubscriptionCancelled => if Cancel(s).Some? then Cancel(s).value else s
    case Repaired(runtimeExists) => if Repair(s, runtimeExists).Some? then Repair(s, runtimeExists).value else s
    case TrialChecked(now) => AfterTrialCheck(s, now)
    case DunningChecked(updatedAt, answers, now) =>
      WithTenant(s, Dunning.AfterCycle(Dunning.Account(t, s.subscription.status, updatedAt), answers, now).status)
    case SubscriptionWritten(write) =>
      s.(subscription := s.subscription.(status := SubscriptionState.Apply(s.subscription.status, write)))
    case CheckoutRenewed => if t.Pending? then WithTenant(s, Guarded(t, TenantStatus.PendingPayment)) else s
    case RetryRequested => if t.Failed? then WithTenant(s, Guarded(t, TenantStatus.Pending)) else s
    case DeleteRequested => if TerminalTenant(t) then s else WithTenant(s, Guarded(t, TenantStatus.PendingDeletion))
    case AdminSuspended => WithTenant(s, Guarded(t, TenantStatus.SuspendedAdmin))
    case AdminUnsuspended => WithTenant(s, Guarded(t, TenantStatus.Active))
    case ProvisionStarted => WithTenant(s, WorkerMove(t, TenantStatus.Provisioning))
    case ProvisionFinished => WithTenant(s, WorkerMove(t, TenantStatus.Active))
    case DeleteStarted => WithTenant(s, Guarded(t, TenantStatus.Deleting))
    case DeleteFinished => WithTenant(s, Guarded(t, TenantStatus.Deleted))
    case RestoreStarted => WithTenant(s, WorkerMove(t, TenantStatus.Restoring))
    case RestoreFinished => WithTenant(s, WorkerMove(t, TenantStatus.Active))
    case ProvisionFailed | DeleteFailed | RestoreFailed => WithTenant(s, Guarded(t, TenantStatus.Failed))
  }

  /** Every standing of a run, the first one included. */
  function Trace(s: Standing, steps: seq<Step>): (trace: seq<Standing>)
    ensures |trace| == |steps| + 1 && trace[0] == s
    decreases |steps|
  {
    if steps == [] then [s] else [s] + Trace(Next(s, steps[0]), steps[1..])
  }

  function Run(s: Standing, steps: seq<Step>): Standing {
    Trace(s, steps)[|steps|]
  }

  /** A new tenant waits for its checkout, with a pending subscription or a trial. */
  predicate Fresh(s: Standing) {
    (s.tenant.PendingPayment? || s.tenant.Pending?) && (s.subscription.status.Pending? || s.subscription.status.Trialing?)
  }

  predicate WellFormed(s: Standing) {
    Tabled(s.tenant) && StoredSubscriptionStatus(s.subscription.status)
  }

  /** No writer produces these two, although the table knows them. */
  predicate NeverWritten(t: TenantStatus) {
    t.Suspended? || t.Upgrading?
  }

  // ----- One step -----

  lemma StepStaysTabled(s: Standing, step: Step)
    requires WellFormed(s)
    ensures WellFormed(Next(s, step))
    ensures NeverWritten(Next(s, step).tenant) ==> Next(s, step).tenant == s.tenant
    ensures s.subscription.status == Next(s, step).subscription.status
            || Next(s, step).subscription.status in SubscriptionState.AllowedFrom(s.subscription.status)
  {
  }

  /** The one step that brings a deleted tenant back is a cancellation. */
  lemma DeletedIsLeftOnlyByCancellation(s: Standing, step: Step)
    requires WellFormed(s) && s.tenant.Deleted?
    ensures !Next(s, step).tenant.Deleted? <==> step.SubscriptionCancelled?
  {
  }

  predicate WritesSubscription(step: Step) {
    step.PaymentConfirmed? || step.PaymentFailed? || step.SubscriptionCancelled? || step.Repaired? || step.TrialChecked?
    || step.SubscriptionWritten?
  }

  /** Where the writes of people and of the worker lead, by the statuses they are made from; none of them
      touches the subscription. A worker's refused write fails the tenant. */
  lemma WritersMove(s: Standing, step: Step)
    requires WellFormed(s)
    ensures var t, t' := s.tenant, Next(s, step).tenant;
            var failed := if t.Deleted? then t else TenantStatus.Failed;
            var running := t.Provisioning? || Held(t) || AtWork(t) || t.Active?;
            && (step.CheckoutRenewed? ==> t' == if t.Pending? then TenantStatus.PendingPayment else t)
            && (step.RetryRequested? ==> t' == if t.Failed? then TenantStatus.Pending else t)
            && (step.DeleteRequested? ==> t' == if t.Deleting? || t.Deleted? then t else TenantStatus.PendingDeletion)
            && (step.AdminSuspended? ==>
                  t' == if NotYetServed(t) || t.Provisioning? || t.Active? then TenantStatus.SuspendedAdmin else t)
            && (step.AdminUnsuspended? ==> t' == if running then TenantStatus.Active else t)
            && (step.ProvisionStarted? ==>
                  t' == if t.Pending? || t.Provisioning? then TenantStatus.Provisioning else failed)
            && (step.ProvisionFinished? || step.RestoreFinished? ==> t' == if running then TenantStatus.Active else failed)
            && (step.RestoreStarted? ==> t' == if t.Active? || t.Restoring? then TenantStatus.Restoring else failed)
            && (step.DeleteStarted? ==>
                  t' == if NotYetServed(t) || t.Active? || Held(t) || t.PendingDeletion? then TenantStatus.Deleting else t)
            && (step.DeleteFinished? ==>
                  t' == if NotYetServed(t) || t.Failed? || t.PendingDeletion? || t.Deleting? then TenantStatus.Deleted else t)
            && (step.ProvisionFailed? || step.DeleteFailed? || step.RestoreFailed? ==> t' == failed)
    ensures !WritesSubscription(step) ==> Next(s, step).subscription == s.subscription
  {
    if step.DunningChecked? {
      hide Dunning.AfterCycle;
    }
  }

  /** Where the billing machinery leads. A confirmation, a failure or a repair of a cancelled subscription
      changes nothing, and neither does a failure of a paused one. */
  lemma BillingMoves(s: Standing, step: Step)
    requires WellFormed(s)
    ensures var t, t', sub, sub' := s.tenant, Next(s, step).tenant, s.subscription, Next(s, step).subscription;
            var paid := SubscriptionRow(SubscriptionStatus.Active, if sub.status.Trialing? then None else sub.trialEndsAt);
            && (step.PaymentConfirmed? || step.Repaired? ==> sub' == if sub.status.Cancelled? then sub else paid)
            && (step.PaymentConfirmed? ==>
                  t' == if sub.status.Cancelled? then t
                        else if t.SuspendedBilling? then TenantStatus.Active
                        else if t.PendingPayment? then TenantStatus.Pending else t)
            && (step.Repaired? ==>
                  t' == if sub.status.Cancelled? then t
                        else if t.SuspendedBilling? && step.runtimeExists then TenantStatus.Active
                        else if t.SuspendedBilling? || t.PendingPayment? || t.Failed? then TenantStatus.Pending else t)
            && (step.SubscriptionCancelled? ==>
                  t'.SuspendedBilling? && sub' == SubscriptionRow(SubscriptionStatus.Cancelled, sub.trialEndsAt))
            && (step.PaymentFailed? ==>
                  if sub.status.Cancelled? || sub.status.Paused? then t' == t && sub' == sub
                  else sub' == SubscriptionRow(SubscriptionStatus.PastDue, sub.trialEndsAt) && t' == Withheld(t))
            && (step.TrialChecked? ==>
                  if sub.status.Trialing? && sub.trialEndsAt.Some? && sub.trialEndsAt.value <= step.now
                  then sub' == SubscriptionRow(SubscriptionStatus.PastDue, sub.trialEndsAt) && t' == Withheld(t)
                  else t' == t && sub' == sub)
  {
    match step
    case PaymentConfirmed =>
      ConfirmationRaises(s, false);
      ConfirmedTenant(s);
    case Repaired(runtimeExists) =>
      ConfirmationRaises(s, runtimeExists);
      if Repair(s, runtimeExists).Some? { RepairIsIdempotent(s, runtimeExists); }
      hide Repair;
    case PaymentFailed =>
      FailureRaises(s);
    case _ =>
  }

  /** Service is withheld from a tenant that has it, and a newcomer waits for payment; every other status
      is kept. */
  function Withheld(t: TenantStatus): TenantStatus {
    if t.Pending? then TenantStatus.PendingPayment
    else if t.Provisioning? || t.Active? then TenantStatus.SuspendedBilling
    else t
  }

  /** What takes a tenant out of an administrator's hold. */
  predicate Releases(s: Standing, step: Step) {
    || step.AdminUnsuspended? || step.DeleteRequested? || step.DeleteStarted? || step.SubscriptionCancelled?
    || step.ProvisionStarted? || step.ProvisionFinished? || step.ProvisionFailed? || step.DeleteFailed?
    || step.RestoreStarted? || step.RestoreFinished? || step.RestoreFailed?
    || (step.DunningChecked?
        && var a := Dunning.Account(s.tenant, s.subscription.status, step.updatedAt);
           Dunning.Served(a, step.answers) && Dunning.EscalationDue(a, step.answers, step.now))
  }

  lemma HoldIsLeftExactlyBy(s: Standing, step: Step)
    requires WellFormed(s) && s.tenant.SuspendedAdmin?
    ensures !Next(s, step).tenant.SuspendedAdmin? <==> Releases(s, step)
  {
  }

  // ----- Runs -----

  lemma {:induction false} RunIsWellFormed(s: Standing, steps: seq<Step>)
    requires WellFormed(s)
    ensures forall i | 0 <= i < |Trace(s, steps)| ::
              && WellFormed(Trace(s, steps)[i])
              && (NeverWritten(Trace(s, steps)[i].tenant) ==> NeverWritten(s.tenant))
    decreases |steps|
  {
    if steps != [] {
      hide Next;
      StepStaysTabled(s, steps[0]);
      RunIsWellFormed(Next(s, steps[0]), steps[1..]);
    }
  }

  function SubscriptionTrace(s: Standing, steps: seq<Step>): (h: seq<SubscriptionStatus>)
    ensures |h| == |steps| + 1
  {
    seq(|steps| + 1, i requires 0 <= i <= |steps| => Trace(s, steps)[i].subscription.status)
  }

  /** The subscription's history under all writers together is a path of its table. */
  lemma {:induction false} SubscriptionFollowsItsTable(s: Standing, steps: seq<Step>)
    requires WellFormed(s)
    ensures SubscriptionState.PathInTable(SubscriptionTrace(s, steps))
    decreases |steps|
  {
    if steps == [] {
    } else {
      hide Next;
      var next := Next(s, steps[0]);
      StepStaysTabled(s, steps[0]);
      SubscriptionFollowsItsTable(next, steps[1..]);
      var h, rest := SubscriptionTrace(s, steps), SubscriptionTrace(next, steps[1..]);
      assert forall i | 0 < i < |h| :: h[i] == rest[i - 1];
      forall i | 0 <= i < |h| - 1
        ensures h[i] == h[i + 1] || h[i + 1] in SubscriptionState.AllowedFrom(h[i])
      {
        if i > 0 {
          assert h[i] == rest[i - 1] && h[i + 1] == rest[i - 1 + 1];
        }
      }
    }
  }

  lemma {:induction false} DeletedRun(s: Standing, steps: seq<Step>)
    requires WellFormed(s) && s.tenant.Deleted?
    requires forall k | 0 <= k < |steps| :: !steps[k].SubscriptionCancelled?
    ensures Run(s, steps).tenant.Deleted?
    decreases |steps|
  {
    if steps != [] {
      hide Next;
      StepStaysTabled(s, steps[0]);
      DeletedIsLeftOnlyByCancellation(s, steps[0]);
      DeletedRun(Next(s, steps[0]), steps[1..]);
    }
  }

  /** The payment and trial machinery: callbacks other than a cancellation, reconciliation, and
      the trial cycle. */
  predicate PaymentSide(step: Step) {
    step.PaymentConfirmed? || step.PaymentFailed? || step.Repaired? || step.TrialChecked?
  }

  /** Payments never lift an administrator's hold. */
  lemma {:induction false} PaymentsKeepTheHold(s: Standing, steps: seq<Step>)
    requires WellFormed(s) && s.tenant.SuspendedAdmin?
    requires forall k | 0 <= k < |steps| :: PaymentSide(steps[k])
    ensures Run(s, steps).tenant.SuspendedAdmin?
    decreases |steps|
  {
    if steps != [] {
      hide Next;
      StepStaysTabled(s, steps[0]);
      HoldIsLeftExactlyBy(s, steps[0]);
      PaymentsKeepTheHold(Next(s, steps[0]), steps[1..]);
    }
  }

  /** With the dunning cycle among them they can: an escalation turns the hold into a billing
      suspension, and the next repair reactivates the tenant. */
  lemma DunningErasesTheHold(trialEndsAt: Option<Time>)
    ensures var s := Standing(TenantStatus.SuspendedAdmin, SubscriptionRow(SubscriptionStatus.PastDue, trialEndsAt));
            var escalate := DunningChecked(0, Dunning.Answers(true, true, None, true), 48 * HOUR);
            Next(Next(s, escalate), Repaired(true)).tenant.Active?
  {
  }

  /** A cancellation brings a deleted tenant back within an administrator's reach. */
  lemma CancellationRevives(s: Standing)
    requires WellFormed(s) && s.tenant.Deleted?
    ensures Next(Next(s, SubscriptionCancelled), AdminUnsuspended).tenant.Active?
  {
  }

  // ----- The statuses a tenant can have -----

  ghost predicate Reachable(t: TenantStatus) {
    exists s, steps :: Fresh(s) && Run(s, steps).tenant == t
  }

  function PathTo(t: TenantStatus): seq<Step> {
    match t
    case Provisioning => [ProvisionStarted]
    case Active => [ProvisionStarted, ProvisionFinished]
    case SuspendedAdmin => [AdminSuspended]
    case SuspendedBilling => [SubscriptionCancelled]
    case Restoring => [ProvisionStarted, ProvisionFinished, RestoreStarted]
    case PendingDeletion => [DeleteRequested]
    case Deleting => [DeleteRequested, DeleteStarted]
    case Failed => [ProvisionStarted, ProvisionFailed]
    case Deleted => [DeleteRequested, DeleteStarted, DeleteFinished]
    case PendingPayment => [CheckoutRenewed]
    case _ => []
  }

  lemma RunByStep(s: Standing, steps: seq<Step>)
    ensures Run(s, steps) == if steps == [] then s else Run(Next(s, steps[0]), steps[1..])
  {
    hide Next;
  }

  lemma ThreeStepRun(s: Standing, steps: seq<Step>)
    requires |steps| <= 3
    ensures Run(s, steps)
            == if |steps| == 0 then s
               else if |steps| == 1 then Next(s, steps[0])
               else if |steps| == 2 then Next(Next(s, steps[0]), steps[1])
               else Next(Next(Next(s, steps[0]), steps[1]), steps[2])
  {
    hide Next, Run;
    RunByStep(s, steps);
    if |steps| > 0 {
      var one, rest := Next(s, steps[0]), steps[1..];
      RunByStep(one, rest);
      if |rest| > 0 {
        var two := Next(one, rest[0]);
        RunByStep(two, rest[1..]);
        if |rest| > 1 { RunByStep(Next(two, rest[1]), rest[1..][1..]); }
      }
    }
  }

  function Waiting(t: TenantStatus): Standing {
    Standing(t, SubscriptionRow(SubscriptionStatus.Pending, None))
  }

  lemma ProvisioningHops()
    ensures Next(Waiting(TenantStatus.Pending), ProvisionStarted) == Waiting(TenantStatus.Provisioning)
    ensures Next(Waiting(TenantStatus.Provisioning), ProvisionFinished) == Waiting(TenantStatus.Active)
    ensures Next(Waiting(TenantStatus.Provisioning), ProvisionFailed) == Waiting(TenantStatus.Failed)
    ensures Next(Waiting(TenantStatus.Active), RestoreStarted) == Waiting(TenantStatus.Restoring)
  {
  }

  lemma DeletionHops()
    ensures Next(Waiting(TenantStatus.Pending), DeleteRequested) == Waiting(TenantStatus.PendingDeletion)
    ensures Next(Waiting(TenantStatus.PendingDeletion), DeleteStarted) == Waiting(TenantStatus.Deleting)
    ensures Next(Waiting(TenantStatus.Deleting), DeleteFinished) == Waiting(TenantStatus.Deleted)
  {
  }

  lemma OtherHops()
    ensures Next(Waiting(TenantStatus.Pending), AdminSuspended).tenant.SuspendedAdmin?
    ensures Next(Waiting(TenantStatus.Pending), SubscriptionCancelled).tenant.SuspendedBilling?
    ensures Next(Waiting(TenantStatus.Pending), CheckoutRenewed).tenant.PendingPayment?
  {
  }

  lemma PathArrives(t: TenantStatus)
    requires Tabled(t) && !NeverWritten(t)
    ensures Run(Waiting(TenantStatus.Pending), PathTo(t)).tenant == t
  {
    ThreeStepRun(Waiting(TenantStatus.Pending), PathTo(t));
    ProvisioningHops();
    DeletionHops();
    OtherHops();
    hide Run, Next;
  }

  /** Over all runs of a new tenant the stored statuses are exactly the keys of the table but
      `suspended` and `upgrading`: `activation_blocked` and unknown texts are never stored. */
  lemma ReachableStatuses(t: TenantStatus)
    ensures Reachable(t) <==> Tabled(t) && !NeverWritten(t)
  {
    if Tabled(t) && !NeverWritten(t) {
      PathArrives(t);
      assert Fresh(Waiting(TenantStatus.Pending));
    }
    if Reachable(t) {
      var s, steps :| Fresh(s) && Run(s, steps).tenant == t;
      RunIsWellFormed(s, steps);
      assert Trace(s, steps)[|steps|].tenant == t;
    }
  }

  // ----- The ledger's operations are steps of this loop -----

  function StandingOf(l: Ledgers.Ledger): Standing {
    Standing(l.tenant, PaymentWebhooks.SubscriptionOf(l))
  }

  /** Each callback moves the tenant's standing by its step of the loop, or not at all. */
  lemma CallbacksAreSteps(l: Ledgers.Ledger, a: Option<nat>, w: Ledgers.World, now: Time)
    requires a.Some? ==> PaymentWebhooks.Backed(l, a.value)
    ensures var after := StandingOf(PaymentWebhooks.HandleConfirmed(l, a, w, now).ledger);
            after == StandingOf(l) || after == Next(StandingOf(l), PaymentConfirmed)
    ensures StandingOf(PaymentWebhooks.HandleFailed(l, a, now).ledger) == Next(StandingOf(l), PaymentFailed)
    ensures StandingOf(PaymentWebhooks.HandleCancelled(l).ledger) == Next(StandingOf(l), SubscriptionCancelled)
  {
  }

  /** A reconciliation pass moves the standing by some number of repairs. */
  lemma {:induction false} PassIsRepairs(start: Ledgers.Ledger, l: Ledgers.Ledger, order: seq<nat>, w: Ledgers.World,
                                         now: Time, summary: Reconciliation.Summary)
      returns (steps: seq<Step>)
    requires StandingOf(start) == StandingOf(l)
    ensures forall k | 0 <= k < |steps| :: steps[k] == Repaired(w.runtimeExists)
    ensures Run(StandingOf(l), steps) == StandingOf(Reconciliation.Pass(start, l, order, w, now, summary).ledger)
    decreases |order|
  {
    steps := [];
    if order != [] && order[0] < |l.invoices| {
      match Reconciliation.ReconcileInvoice(start, l, order[0], w, now)
      case Raised(r) =>
        steps := RepairOrNothing(start, l, order[0], w, now);
      case Done(l', report) =>
        var first := RepairOrNothing(start, l, order[0], w, now);
        var rest := PassIsRepairs(l', l', order[1..], w, now, Reconciliation.Tally(summary, report));
        Concatenate(StandingOf(l), first, rest);
        steps := first + rest;
    }
  }

  lemma RepairOrNothing(start: Ledgers.Ledger, l: Ledgers.Ledger, i: nat, w: Ledgers.World, now: Time)
      returns (steps: seq<Step>)
    requires StandingOf(start) == StandingOf(l) && i < |l.invoices|
    ensures forall k | 0 <= k < |steps| :: steps[k] == Repaired(w.runtimeExists)
    ensures Run(StandingOf(l), steps) == StandingOf(Reconciliation.ReconcileInvoice(start, l, i, w, now).ledger)
  {
    var after := StandingOf(Reconciliation.ReconcileInvoice(start, l, i, w, now).ledger);
    if after == StandingOf(l) {
      steps := [];
    } else {
      steps := [Repaired(w.runtimeExists)];
      assert steps[1..] == [];
      assert after == Next(StandingOf(l), Repaired(w.runtimeExists));
    }
  }

  lemma {:induction false} Concatenate(s: Standing, first: seq<Step>, rest: seq<Step>)
    ensures Run(s, first + rest) == Run(Run(s, first), rest)
    decreases |first|
  {
    hide Next;
    if first == [] {
      assert first + rest == rest;
    } else {
      assert (first + rest)[1..] == first[1..] + rest;
      Concatenate(Next(s, first[0]), first[1..], rest);
    }
  }
}
