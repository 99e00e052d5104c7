/** The dunning cycle: which unpaid tenants it looks at, when it reminds them, when it suspends
    them, and what any run of cycles and other writes can lead to. */
module Dunning {
  import opened Common
  import opened Statuses
  import opened TenantState
  import Lifecycle

  /** What the cycle reads and writes of a tenant. A tenant without a subscription row has a
      blank subscription status. */
  datatype Account = Account(status: TenantStatus, subscription: SubscriptionStatus, updatedAt: Time)

  /** What a cycle is told about a tenant: whether its runtime answers, when the list is filtered
      and again when the tenant's turn comes; the due date of its newest ERP invoice; and whether
      the reminder reached somebody. */
  datatype Answers = Answers(runtimeSeen: bool, runtimeExists: bool, invoiceDue: Option<Time>, delivered: bool)

  predicate Delinquent(s: SubscriptionStatus) {
    s.PastDue? || s.Cancelled? || s.Paused?
  }

  /** The database filter. */
  predicate Queried(a: Account) {
    a.status.PendingPayment? || a.status.SuspendedBilling? || Delinquent(a.subscription) || a.subscription.Pending?
  }

  predicate Candidate(a: Account) {
    if TerminalTenant(a.status) then false
    else if a.status.PendingPayment? || a.status.SuspendedBilling? then true
    else Delinquent(Lifecycle.SubscriptionStatusForTenant(a.subscription))
  }

  predicate RuntimeExpected(t: TenantStatus) {
    t.Active? || t.Suspended? || t.SuspendedAdmin? || t.SuspendedBilling? || t.Upgrading? || t.Restoring?
  }

  predicate Flagged(a: Account) {
    Queried(a) && Candidate(a)
  }

  predicate Served(a: Account, w: Answers) {
    Flagged(a) && (RuntimeExpected(a.status) ==> w.runtimeSeen)
  }

  function RetryAfter(a: Account): Time {
    if a.status.PendingPayment? then 6 * HOUR
    else if a.status.SuspendedBilling? || Delinquent(Lifecycle.SubscriptionStatusForTenant(a.subscription)) then 12 * HOUR
    else 24 * HOUR
  }

  function GraceAfter(a: Account): Time {
    if a.status.PendingPayment? then 48 * HOUR
    else if a.status.SuspendedBilling? then 24 * HOUR
    else if Delinquent(Lifecycle.SubscriptionStatusForTenant(a.subscription)) then 48 * HOUR
    else 72 * HOUR
  }

  /** The end of the grace period; a due date known to the ERP can only put it off. */
  function GraceEnds(a: Account, due: Option<Time>): Time {
    var own := a.updatedAt + GraceAfter(a);
    if due.Some? && due.value + 3 * DAY > own then due.value + 3 * DAY else own
  }

  predicate RetryDue(a: Account, now: Time) {
    a.updatedAt + RetryAfter(a) <= now
  }

  predicate EscalationDue(a: Account, w: Answers, now: Time) {
    && GraceEnds(a, w.invoiceDue) <= now
    && !a.status.SuspendedBilling? && !TerminalTenant(a.status)
    && !PaidSubscription(Lifecycle.SubscriptionStatusForTenant(a.subscription))
    && w.runtimeExists
  }

  /** What a cycle leaves of a tenant's row. */
  function AfterCycle(a: Account, w: Answers, now: Time): Account {
    if !Served(a, w) then a
    else if EscalationDue(a, w, now) then a.(status := TenantStatus.SuspendedBilling, updatedAt := now)
    else if RetryDue(a, now) then a.(updatedAt := now)
    else a
  }

  // ----- The cycle on the stored rows -----

  datatype Summary = Summary(
    flagged: nat, missingRuntime: nat, dueForRetry: nat, remindersSent: nat, dueForEscalation: nat, escalated: nat)

  /** The counters once one more tenant has had its turn. */
  function Counted(s: Summary, a: Account, w: Answers, now: Time, dryRun: bool): Summary {
    if !Served(a, w) then s.(missingRuntime := s.missingRuntime + One(Flagged(a)))
    else
      Summary(
        s.flagged + 1,
        s.missingRuntime,
        s.dueForRetry + One(RetryDue(a, now)),
        s.remindersSent + One(!dryRun && RetryDue(a, now) && w.delivered),
        s.dueForEscalation + One(EscalationDue(a, w, now)),
        s.escalated + One(!dryRun && EscalationDue(a, w, now)))
  }

  function Tally(accounts: seq<Account>, answers: seq<Answers>, now: Time, dryRun: bool): Summary
    requires |accounts| == |answers|
    decreases |accounts|
  {
    if accounts == [] then Summary(0, 0, 0, 0, 0, 0)
    else
      var last := |accounts| - 1;
      Counted(Tally(accounts[..last], answers[..last], now, dryRun), accounts[last], answers[last], now, dryRun)
  }

  function Read(t: Tenant, subscription: SubscriptionStatus): Account
    reads t
  {
    Account(t.status, subscription, t.updatedAt)
  }

  function Accounts(tenants: seq<Tenant>, subscriptions: seq<SubscriptionStatus>): (accounts: seq<Account>)
    requires |tenants| == |subscriptions|
    reads tenants
    ensures |accounts| == |tenants|
    ensures forall i | 0 <= i < |tenants| :: accounts[i] == Read(tenants[i], subscriptions[i])
    decreases |tenants|
  {
    if tenants == [] then []
    else [Read(tenants[0], subscriptions[0])] + Accounts(tenants[1..], subscriptions[1..])
  }

  /** One tenant's turn. Both windows are taken from the row as it is before the reminder. */
  method Serve(tenant: Tenant, subscription: SubscriptionStatus, w: Answers, now: Time, dryRun: bool, s: Summary)
    returns (summary: Summary)
    modifies tenant
    ensures var before := old(Read(tenant, subscription));
            && Read(tenant, subscription) == (if dryRun then before else AfterCycle(before, w, now))
            && summary == Counted(s, before, w, now, dryRun)
  {
    var a := Read(tenant, subscription);
    summary := s;
    if !Flagged(a) {
      return;
    }
    if !Served(a, w) {
      summary := s.(missingRuntime := s.missingRuntime + 1);
      return;
    }
    summary := summary.(flagged := s.flagged + 1);
    var nextRetryAt, graceEndsAt := tenant.updatedAt + RetryAfter(a), GraceEnds(a, w.invoiceDue);
    if nextRetryAt <= now {
      summary := summary.(dueForRetry := s.dueForRetry + 1);
      if !dryRun {
        if w.delivered {
          summary := summary.(remindersSent := s.remindersSent + 1);
        }
        tenant.updatedAt := now;
      }
    }
    if graceEndsAt <= now && !tenant.status.SuspendedBilling? && !TerminalTenant(tenant.status)
      && !PaidSubscription(Lifecycle.SubscriptionStatusForTenant(subscription)) && w.runtimeExists
    {
      summary := summary.(dueForEscalation := s.dueForEscalation + 1);
      if !dryRun {
        var moved := tenant.TransitionStatus(TenantStatus.SuspendedBilling);
        if !moved {
          tenant.status := TenantStatus.SuspendedBilling;
        }
        tenant.updatedAt := now;
        summary := summary.(escalated := s.escalated + 1);
      }
    }
  }

  /** One cycle over the tenants' rows. A row is filtered by its own columns, so the filter may
      be applied when the row's turn comes. */
  method RunCycle(tenants: seq<Tenant>, subscriptions: seq<SubscriptionStatus>, answers: seq<Answers>,
                  now: Time, dryRun: bool)
    returns (summary: Summary)
    requires |tenants| == |subscriptions| == |answers|
    requires forall i, j | 0 <= i < j < |tenants| :: tenants[i] != tenants[j]
    modifies tenants
    ensures forall i | 0 <= i < |tenants| ::
              var before := old(Read(tenants[i], subscriptions[i]));
              Read(tenants[i], subscriptions[i]) == if dryRun then before else AfterCycle(before, answers[i], now)
    ensures summary == Tally(old(Accounts(tenants, subscriptions)), answers, now, dryRun)
  {
    ghost var accounts := Accounts(tenants, subscriptions);
    hide AfterCycle, Counted, Read;
    summary := Summary(0, 0, 0, 0, 0, 0);
    for i := 0 to |tenants|
      invariant summary == Tally(accounts[..i], answers[..i], now, dryRun)
      invariant forall k | 0 <= k < |tenants| ::
                  Read(tenants[k], subscriptions[k])
                  == if dryRun || k >= i then accounts[k] else AfterCycle(accounts[k], answers[k], now)
    {
      assert accounts[..i + 1][..i] == accounts[..i] && answers[..i + 1][..i] == answers[..i];
      summary := Serve(tenants[i], subscriptions[i], answers[i], now, dryRun, summary);
    }
    assert accounts[..|tenants|] == accounts && answers[..|tenants|] == answers;
  }

  // ----- The decision, column by column -----

  /** The rows a cycle is about: unpaid or suspended for it, or with a delinquent subscription, and
      not on their way out. */
  predicate Watched(a: Account) {
    && !a.status.PendingDeletion? && !a.status.Deleting? && !a.status.Deleted?
    && (a.status.PendingPayment? || a.status.SuspendedBilling?
        || a.subscription.PastDue? || a.subscription.Cancelled? || a.subscription.Paused?)
  }

  /** A tenant that should be running but whose runtime does not answer is passed over. */
  predicate PassedOver(a: Account, w: Answers) {
    && !w.runtimeSeen
    && (a.status.Active? || a.status.Suspended? || a.status.SuspendedAdmin? || a.status.SuspendedBilling?
        || a.status.Upgrading? || a.status.Restoring?)
  }

  predicate RemindedNow(a: Account, w: Answers, now: Time) {
    && Watched(a) && !PassedOver(a, w)
    && now >= a.updatedAt + if a.status.PendingPayment? then 6 * HOUR else 12 * HOUR
  }

  /** Two days of silence, three days after the due date, on a tenant with a runtime to suspend. */
  predicate SuspendedNow(a: Account, w: Answers, now: Time) {
    && Watched(a) && !PassedOver(a, w) && w.runtimeExists
    && !a.status.SuspendedBilling? && !a.subscription.Active? && !a.subscription.Trialing?
    && now >= a.updatedAt + 48 * HOUR
    && (w.invoiceDue.Some? ==> now >= w.invoiceDue.value + 72 * HOUR)
  }

  /** The two windows of a watched row. */
  lemma Windows(a: Account)
    requires Watched(a) && (StoredSubscriptionStatus(a.subscription) || a.subscription.Blank?)
    ensures RetryAfter(a) == if a.status.PendingPayment? then 6 * HOUR else 12 * HOUR
    ensures GraceAfter(a) == if a.status.SuspendedBilling? then 24 * HOUR else 48 * HOUR
  {
  }

  /** What one cycle does to a row with one of the six statuses, or none, on its subscription: it
      suspends the tenant, or stamps the row as reminded, or leaves it alone. */
  lemma CycleDecides(a: Account, w: Answers, now: Time)
    requires StoredSubscriptionStatus(a.subscription) || a.subscription.Blank?
    ensures AfterCycle(a, w, now)
            == Account(if SuspendedNow(a, w, now) then TenantStatus.SuspendedBilling else a.status, a.subscription,
                       if RemindedNow(a, w, now) then now else a.updatedAt)
    ensures SuspendedNow(a, w, now) ==> RemindedNow(a, w, now)
  {
  }

  /** The counters of a cycle are numbers of rows: those suspended and those reminded are exactly the
      rows it changes, in status or at all; a dry run reports what would be due and sends nothing. */
  lemma {:induction false} TallyAccounts(accounts: seq<Account>, answers: seq<Answers>, now: Time, dryRun: bool)
    requires |accounts| == |answers|
    requires forall a | a in accounts :: StoredSubscriptionStatus(a.subscription) || a.subscription.Blank?
    ensures var s := Tally(accounts, answers, now, dryRun);
            && s.flagged == Number(accounts, answers, (a, w) => Watched(a) && !PassedOver(a, w))
            && s.missingRuntime == Number(accounts, answers, (a, w) => Watched(a) && PassedOver(a, w))
            && s.dueForRetry == Number(accounts, answers, (a, w) => AfterCycle(a, w, now) != a)
            && s.dueForEscalation == Number(accounts, answers, (a, w) => AfterCycle(a, w, now).status != a.status)
            && s.escalated == (if dryRun then 0 else s.dueForEscalation)
            && s.remindersSent == (if dryRun then 0
                                   else Number(accounts, answers, (a, w) => AfterCycle(a, w, now) != a && w.delivered))
    decreases |accounts|
  {
    if accounts != [] {
      var last := |accounts| - 1;
      TallyAccounts(accounts[..last], answers[..last], now, dryRun);
      CountedDecides(Tally(accounts[..last], answers[..last], now, dryRun), accounts[last], answers[last], now, dryRun);
      hide AfterCycle, Counted, Watched, PassedOver;
    }
  }

  lemma CountedDecides(s: Summary, a: Account, w: Answers, now: Time, dryRun: bool)
    requires StoredSubscriptionStatus(a.subscription) || a.subscription.Blank?
    ensures var s' := Counted(s, a, w, now, dryRun);
            var changed, moved := AfterCycle(a, w, now) != a, AfterCycle(a, w, now).status != a.status;
            && s'.flagged == s.flagged + One(Watched(a) && !PassedOver(a, w))
            && s'.missingRuntime == s.missingRuntime + One(Watched(a) && PassedOver(a, w))
            && s'.dueForRetry == s.dueForRetry + One(changed)
            && s'.dueForEscalation == s.dueForEscalation + One(moved)
            && s'.escalated == s.escalated + One(!dryRun && moved)
            && s'.remindersSent == s.remindersSent + One(!dryRun && changed && w.delivered)
  {
    CycleDecides(a, w, now);
  }

  function Number(accounts: seq<Account>, answers: seq<Answers>, p: (Account, Answers) -> bool): nat
    requires |accounts| == |answers|
    decreases |accounts|
  {
    if accounts == [] then 0
    else
      var last := |accounts| - 1;
      Number(accounts[..last], answers[..last], p) + One(p(accounts[last], answers[last]))
  }

  // ----- Runs of one tenant -----

  /** A cycle that is not a dry run, a write of the tenant's row, which stamps it, or a write of
      its subscription, which does not. */
  datatype Step =
    | Cycle(at: Time, answers: Answers)
    | TenantWrite(at: Time, status: TenantStatus)
    | SubscriptionWrite(at: Time, subscription: SubscriptionStatus)

  datatype Entry =
    | Reminded(at: Time)
    | Escalated(at: Time, invoiceDue: Option<Time>)
    | Written(at: Time)

  function Next(a: Account, step: Step): Account {
    match step
    case Cycle(at, w) => AfterCycle(a, w, at)
    case TenantWrite(at, status) => a.(status := status, updatedAt := at)
    case SubscriptionWrite(_, subscription) => a.(subscription := subscription)
  }

  /** The recorded changes of the row that a step makes. */
  function Entries(a: Account, step: Step): seq<Entry> {
    match step
    case Cycle(at, w) =>
      if !Served(a, w) then []
      else (if RetryDue(a, at) then [Reminded(at)] else [])
           + if EscalationDue(a, w, at) then [Escalated(at, w.invoiceDue)] else []
    case TenantWrite(at, _) => [Written(at)]
    case SubscriptionWrite(_, _) => []
  }

  function Log(a: Account, steps: seq<Step>): seq<Entry>
    decreases |steps|
  {
    if steps == [] then [] else Entries(a, steps[0]) + Log(Next(a, steps[0]), steps[1..])
  }

  ghost predicate Forward(from: Time, steps: seq<Step>)
    decreases |steps|
  {
    steps == [] || (from <= steps[0].at && Forward(steps[0].at, steps[1..]))
  }

  /** What holds of a log entry when the row was last changed at `since`. */
  ghost predicate Late(e: Entry, since: Time) {
    && e.at >= since
    && (e.Reminded? ==> e.at >= since + 6 * HOUR)
    && (e.Escalated? ==> e.at >= since + 48 * HOUR)
  }

  /** Reminders and escalations come late after every earlier change, and an escalation shares
      its cycle with a reminder. */
  ghost predicate Unhurried(log: seq<Entry>) {
    && (forall i, j | 0 <= i < j < |log| :: Late(log[j], log[i].at) || (log[j].Escalated? && i == j - 1))
    && (forall j | 0 <= j < |log| && log[j].Escalated? ::
          && j > 0 && log[j - 1] == Reminded(log[j].at)
          && (log[j].invoiceDue.Some? ==> log[j].at >= log[j].invoiceDue.value + 3 * DAY))
  }

  lemma EntriesOf(a: Account, step: Step)
    requires a.updatedAt <= step.at
    ensures var es := Entries(a, step);
            && Unhurried(es)
            && (forall e | e in es :: e.at == step.at && Late(e, a.updatedAt))
            && (es != [] ==> Next(a, step).updatedAt == step.at)
            && a.updatedAt <= Next(a, step).updatedAt <= step.at
            && (es != [] ==> !es[0].Escalated?)
  {
  }

  lemma {:induction false} LogIsUnhurried(a: Account, steps: seq<Step>, from: Time)
    requires a.updatedAt <= from && Forward(from, steps)
    ensures Unhurried(Log(a, steps))
    ensures forall e | e in Log(a, steps) :: Late(e, a.updatedAt)
    decreases |steps|
  {
    if steps != [] {
      var es, next := Entries(a, steps[0]), Next(a, steps[0]);
      hide Next, Entries;
      EntriesOf(a, steps[0]);
      LogIsUnhurried(next, steps[1..], steps[0].at);
      Append(es, Log(next, steps[1..]), steps[0].at, next.updatedAt);
      assert Log(a, steps) == es + Log(next, steps[1..]);
      forall e | e in Log(a, steps) ensures Late(e, a.updatedAt) {
        assert e in es || e in Log(next, steps[1..]);
      }
    }
  }

  lemma Append(es: seq<Entry>, rest: seq<Entry>, at: Time, since: Time)
    requires Unhurried(es) && Unhurried(rest)
    requires forall e | e in es :: e.at == at
    requires es != [] ==> since == at
    requires forall e | e in rest :: Late(e, since)
    ensures Unhurried(es + rest)
  {
    var log := es + rest;
    forall i, j | 0 <= i < j < |log|
      ensures Late(log[j], log[i].at) || (log[j].Escalated? && i == j - 1)
    {
      if i < |es| <= j {
        assert log[i] == es[i] && log[j] == rest[j - |es|];
        assert log[j] in rest && log[i] in es;
      } else if |es| <= i {
        assert log[i] == rest[i - |es|] && log[j] == rest[j - |es|];
      }
    }
    forall j | 0 <= j < |log| && log[j].Escalated?
      ensures j > 0 && log[j - 1] == Reminded(log[j].at)
      ensures log[j].invoiceDue.Some? ==> log[j].at >= log[j].invoiceDue.value + 3 * DAY
    {
      if j >= |es| {
        assert log[j] == rest[j - |es|];
        assert j > |es| && log[j - 1] == rest[j - |es| - 1];
      }
    }
  }

  /** Escalation is late: two days after every earlier change of the row, except for the reminder
      of the same cycle, and three days after the due date the ERP gave. */
  lemma EscalationIsLate(a: Account, steps: seq<Step>, j: nat)
    requires Forward(a.updatedAt, steps)
    requires j < |Log(a, steps)| && Log(a, steps)[j].Escalated?
    ensures var log := Log(a, steps);
            && j > 0 && log[j - 1] == Reminded(log[j].at)
            && (forall i | 0 <= i < j - 1 :: log[j].at >= log[i].at + 48 * HOUR)
            && log[j].at >= a.updatedAt + 48 * HOUR
            && (log[j].invoiceDue.Some? ==> log[j].at >= log[j].invoiceDue.value + 3 * DAY)
  {
    LogIsUnhurried(a, steps, a.updatedAt);
    var log := Log(a, steps);
    assert log[j] in log;
    forall i | 0 <= i < j - 1 ensures log[j].at >= log[i].at + 48 * HOUR {
      assert Late(log[j], log[i].at);
    }
  }

  function ReminderTimes(log: seq<Entry>): seq<Time>
    decreases |log|
  {
    if log == [] then []
    else (if log[0].Reminded? then [log[0].at] else []) + ReminderTimes(log[1..])
  }

  ghost predicate Spaced(times: seq<Time>) {
    forall i | 0 <= i < |times| - 1 :: times[i + 1] - times[i] >= 6 * HOUR
  }

  ghost predicate RemindersLate(log: seq<Entry>) {
    forall i, j | 0 <= i < j < |log| && log[j].Reminded? :: log[j].at >= log[i].at + 6 * HOUR
  }

  lemma {:induction false} ReminderIsLogged(log: seq<Entry>, t: Time)
    requires t in ReminderTimes(log)
    ensures Reminded(t) in log
    decreases |log|
  {
    if log[0] != Reminded(t) {
      ReminderIsLogged(log[1..], t);
    }
  }

  /** The reminder times are those of the log's reminders, one for each. */
  lemma {:induction false} ReminderTimesAre(log: seq<Entry>)
    ensures |ReminderTimes(log)| == Count(seq(|log|, k requires 0 <= k < |log| => log[k].Reminded?))
    ensures forall t :: t in ReminderTimes(log) <==> Reminded(t) in log
    decreases |log|
  {
    if log != [] {
      ReminderTimesAre(log[1..]);
      var marks := seq(|log|, k requires 0 <= k < |log| => log[k].Reminded?);
      assert marks[1..] == seq(|log[1..]|, k requires 0 <= k < |log[1..]| => log[1..][k].Reminded?);
      forall t ensures t in ReminderTimes(log) <==> Reminded(t) in log {
        assert Reminded(t) in log <==> log[0] == Reminded(t) || Reminded(t) in log[1..];
      }
    }
  }

  lemma SpacedInFront(t: Time, times: seq<Time>)
    requires Spaced(times) && (times != [] ==> times[0] >= t + 6 * HOUR)
    ensures Spaced([t] + times)
  {
    var all := [t] + times;
    forall i | 0 <= i < |all| - 1 ensures all[i + 1] - all[i] >= 6 * HOUR {
      assert all[i + 1] == times[i] && (i > 0 ==> all[i] == times[i - 1]);
    }
  }

  lemma {:induction false} RemindersAreSpaced(log: seq<Entry>)
    requires RemindersLate(log)
    ensures Spaced(ReminderTimes(log))
    decreases |log|
  {
    if log != [] {
      var rest := log[1..];
      var times := ReminderTimes(rest);
      RemindersAreSpaced(rest);
      if log[0].Reminded? {
        if times != [] {
          ReminderIsLogged(rest, times[0]);
          var k :| 0 <= k < |rest| && rest[k] == Reminded(times[0]);
          assert log[k + 1] == Reminded(times[0]);
        }
        hide Spaced;
        SpacedInFront(log[0].at, times);
      }
    }
  }

  lemma {:induction false} SpacedSpan(times: seq<Time>, i: nat, j: nat)
    requires Spaced(times) && i <= j < |times|
    ensures times[j] >= times[i] + (j - i) * (6 * HOUR)
    decreases j - i
  {
    if i < j {
      SpacedSpan(times, i, j - 1);
      assert times[j - 1 + 1] - times[j - 1] >= 6 * HOUR;
    }
  }

  lemma LogRemindsLate(a: Account, steps: seq<Step>)
    requires Forward(a.updatedAt, steps)
    ensures RemindersLate(Log(a, steps))
  {
    var log := Log(a, steps);
    LogIsUnhurried(a, steps, a.updatedAt);
    hide Log;
    forall i, j | 0 <= i < j < |log| && log[j].Reminded? ensures log[j].at >= log[i].at + 6 * HOUR {
      assert Late(log[j], log[i].at);
    }
  }

  /** From one reminder of a tenant to the n-th after it at least n times six hours pass: a span
      holds at most one reminder more than it holds whole six-hour stretches. */
  lemma ReminderBound(a: Account, steps: seq<Step>, i: nat, j: nat)
    requires Forward(a.updatedAt, steps)
    requires i <= j < |ReminderTimes(Log(a, steps))|
    ensures var times := ReminderTimes(Log(a, steps));
            times[j] >= times[i] + (j - i) * (6 * HOUR)
  {
    LogRemindsLate(a, steps);
    RemindersAreSpaced(Log(a, steps));
    var times := ReminderTimes(Log(a, steps));
    SpacedSpan(times, i, j);
  }

  // ----- Escalation needs silence -----

  /** Every cycle serves the tenant, and no two successive ones are further apart than `gap`. */
  ghost predicate Steady(a: Account, last: Time, steps: seq<Step>, gap: Time)
    decreases |steps|
  {
    steps == []
    || (&& steps[0].Cycle? && last <= steps[0].at <= last + gap
        && Served(a, steps[0].answers)
        && Steady(Next(a, steps[0]), steps[0].at, steps[1..], gap))
  }

  /** The row as a cycle at `last` may have left it: either just reminded or not yet due. */
  predicate Attended(a: Account, last: Time) {
    a.updatedAt <= last < a.updatedAt + RetryAfter(a)
  }

  /** A reminder restarts the grace period, so that cycles which keep coming never escalate. */
  lemma {:induction false} SteadyCyclesNeverEscalate(a: Account, last: Time, steps: seq<Step>, gap: Time)
    requires Attended(a, last) && Steady(a, last, steps, gap)
    requires gap <= GraceAfter(a) - RetryAfter(a)
    ensures forall e | e in Log(a, steps) :: !e.Escalated?
    decreases |steps|
  {
    if steps != [] {
      var at := steps[0].at;
      assert at < a.updatedAt + GraceAfter(a) <= GraceEnds(a, steps[0].answers.invoiceDue);
      assert !EscalationDue(a, steps[0].answers, at);
      var next := Next(a, steps[0]);
      assert next.status == a.status && next.subscription == a.subscription;
      SteadyCyclesNeverEscalate(next, at, steps[1..], gap);
    }
  }

  /** The bound is exact: with a longer gap allowed, a tenant that can be escalated at all, one that is
      watched, not suspended for billing and not paid for, is escalated by some steady run. */
  lemma SteadyBoundIsExact(a: Account, gap: Time)
    requires Watched(a) && (StoredSubscriptionStatus(a.subscription) || a.subscription.Blank?)
    requires !a.status.SuspendedBilling? && !a.subscription.Active? && !a.subscription.Trialing?
    ensures gap <= GraceAfter(a) - RetryAfter(a)
            <==> forall last, steps ::
                   Attended(a, last) && Steady(a, last, steps, gap) ==> forall e | e in Log(a, steps) :: !e.Escalated?
  {
    if gap <= GraceAfter(a) - RetryAfter(a) {
      forall last, steps | Attended(a, last) && Steady(a, last, steps, gap)
        ensures forall e | e in Log(a, steps) :: !e.Escalated?
      {
        SteadyCyclesNeverEscalate(a, last, steps, gap);
      }
    } else {
      var last := a.updatedAt + RetryAfter(a) - 1;
      var at := a.updatedAt + GraceAfter(a);
      var step := Cycle(at, Answers(true, true, None, true));
      var steps := [step];
      assert steps[1..] == [];
      assert Attended(a, last) && Steady(a, last, steps, gap);
      assert Escalated(at, None) in Entries(a, step);
      assert Entries(a, step) <= Log(a, steps);
      assert Escalated(at, None) in Log(a, steps);
      assert !(forall e | e in Log(a, steps) :: !e.Escalated?);
    }
  }

  /** Whatever the statuses, cycles no more than a day and a half apart never escalate a tenant
      that can be escalated; the default interval is half an hour. */
  lemma DefaultIntervalNeverEscalates(a: Account, last: Time, steps: seq<Step>, gap: Time)
    requires Flagged(a) && Attended(a, last) && Steady(a, last, steps, gap)
    requires gap <= 36 * HOUR
    ensures forall e | e in Log(a, steps) :: !e.Escalated?
  {
    if a.status.SuspendedBilling? {
      SuspendedStaysSuspended(a, last, steps, gap);
    } else {
      SteadyCyclesNeverEscalate(a, last, steps, gap);
    }
  }

  lemma {:induction false} SuspendedStaysSuspended(a: Account, last: Time, steps: seq<Step>, gap: Time)
    requires a.status.SuspendedBilling? && Steady(a, last, steps, gap)
    ensures forall e | e in Log(a, steps) :: !e.Escalated?
    decreases |steps|
  {
    if steps != [] {
      SuspendedStaysSuspended(Next(a, steps[0]), steps[0].at, steps[1..], gap);
    }
  }
}
