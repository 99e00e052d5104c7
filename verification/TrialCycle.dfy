/** The trial cycle: expired trials become past due and their tenants lose service, while the
    reporting funnel goes on saying what it said. */
module TrialCycle {
  import opened Common
  import opened Statuses
  import opened TenantState
  import opened TrialLifecycle
  import SubscriptionState

  /** A subscription row with its tenant's row, which may be missing. */
  datatype Row = Row(status: SubscriptionStatus, trialEndsAt: Option<Time>, tenant: Option<TenantRow>)

  datatype TenantRow = TenantRow(status: TenantStatus, updatedAt: Time)

  /** The database filter. */
  predicate Expiring(r: Row, now: Time) {
    r.status.Trialing? && r.trialEndsAt.Some? && r.trialEndsAt.value <= now
  }

  predicate Unpaid(t: TenantStatus) {
    t.Pending? || t.PendingPayment? || t.Failed?
  }

  /** Where the tenant is sent, if anywhere. */
  function Target(t: TenantStatus): Option<TenantStatus> {
    if Unpaid(t) then Some(TenantStatus.PendingPayment)
    else if t.SuspendedBilling? || TerminalTenant(t) then None
    else Some(TenantStatus.SuspendedBilling)
  }

  function Moved(t: TenantStatus): TenantStatus {
    var target := Target(t);
    if target.Some? then Guarded(t, target.value) else t
  }

  function AfterCycle(r: Row, now: Time): Row {
    if Expiring(r, now) && r.tenant.Some? then
      Row(SubscriptionStatus.PastDue, r.trialEndsAt, Some(TenantRow(Moved(r.tenant.value.status), now)))
    else r
  }

  datatype Summary = Summary(checked: nat, expired: nat, pastDue: nat, pendingPayment: nat, suspended: nat)

  function Counted(s: Summary, r: Row, now: Time, dryRun: bool): Summary {
    if !Expiring(r, now) then s
    else if r.tenant.None? then s.(checked := s.checked + 1)
    else
      var t := r.tenant.value.status;
      var moves := !dryRun && Target(t).Some? && CanTransition(t, Target(t).value);
      Summary(s.checked + 1, s.expired + 1, s.pastDue + 1,
              s.pendingPayment + One(moves && Unpaid(t)), s.suspended + One(moves && !Unpaid(t)))
  }

  function Tally(rows: seq<Row>, now: Time, dryRun: bool): Summary
    decreases |rows|
  {
    if rows == [] then Summary(0, 0, 0, 0, 0)
    else Counted(Tally(rows[..|rows| - 1], now, dryRun), rows[|rows| - 1], now, dryRun)
  }

  // ----- The cycle on the stored rows -----

  function Read(s: SubscriptionState.Subscription, t: Tenant?): Row
    reads s, t
  {
    Row(s.status, s.trialEndsAt, if t == null then None else Some(TenantRow(t.status, t.updatedAt)))
  }

  function Rows(subscriptions: seq<SubscriptionState.Subscription>, tenants: seq<Tenant?>): (rows: seq<Row>)
    requires |subscriptions| == |tenants|
    reads subscriptions, tenants
    ensures |rows| == |subscriptions|
    ensures forall i | 0 <= i < |rows| :: rows[i] == Read(subscriptions[i], tenants[i])
    decreases |subscriptions|
  {
    if subscriptions == [] then []
    else [Read(subscriptions[0], tenants[0])] + Rows(subscriptions[1..], tenants[1..])
  }

  method Expire(subscription: SubscriptionState.Subscription, tenant: Tenant?, now: Time, dryRun: bool, s: Summary)
    returns (summary: Summary)
    modifies subscription`status, tenant
    ensures var before := old(Read(subscription, tenant));
            && Read(subscription, tenant) == (if dryRun then before else AfterCycle(before, now))
            && summary == Counted(s, before, now, dryRun)
  {
    summary := s;
    if !Expiring(Read(subscription, tenant), now) {
      return;
    }
    summary := summary.(checked := s.checked + 1);
    if tenant == null {
      return;
    }
    summary := summary.(expired := s.expired + 1);
    var next := ResolveStatus(subscription.status, TrialExpired, subscription.trialEndsAt, now);
    if !next.PastDue? {
      return;
    }
    summary := summary.(pastDue := s.pastDue + 1);
    if dryRun {
      return;
    }
    var accepted := subscription.SetStatus(next);
    assert accepted;
    if Unpaid(tenant.status) {
      var moved := tenant.TransitionStatus(TenantStatus.PendingPayment);
      if moved {
        summary := summary.(pendingPayment := s.pendingPayment + 1);
      }
    } else if !tenant.status.SuspendedBilling? && !TerminalTenant(tenant.status) {
      var moved := tenant.TransitionStatus(TenantStatus.SuspendedBilling);
      if moved {
        summary := summary.(suspended := s.suspended + 1);
      }
    }
    tenant.updatedAt := now;
  }

  ghost predicate Separate(subscriptions: seq<SubscriptionState.Subscription>, tenants: seq<Tenant?>) {
    && |subscriptions| == |tenants|
    && (forall i, j | 0 <= i < j < |subscriptions| :: subscriptions[i] != subscriptions[j])
    && (forall i, j | 0 <= i < j < |tenants| && tenants[i] != null :: tenants[i] != tenants[j])
  }

  /** The turn of one row of the table; every other row is as it was. */
  method ExpireAt(subscriptions: seq<SubscriptionState.Subscription>, tenants: seq<Tenant?>, i: nat, now: Time, dryRun: bool,
                  s: Summary)
    returns (summary: Summary)
    requires Separate(subscriptions, tenants) && i < |subscriptions|
    modifies subscriptions, tenants
    ensures forall k | 0 <= k < |subscriptions| ::
              var before := old(Read(subscriptions[k], tenants[k]));
              Read(subscriptions[k], tenants[k]) == if dryRun || k != i then before else AfterCycle(before, now)
    ensures summary == Counted(s, old(Read(subscriptions[i], tenants[i])), now, dryRun)
  {
    hide AfterCycle, Counted;
    summary := Expire(subscriptions[i], tenants[i], now, dryRun, s);
    forall k | 0 <= k < |subscriptions| && k != i
      ensures Read(subscriptions[k], tenants[k]) == old(Read(subscriptions[k], tenants[k]))
    {
      assert subscriptions[k] != subscriptions[i] && (tenants[k] != null ==> tenants[k] != tenants[i]);
    }
  }

  /** One cycle. A tenant has at most one subscription, and a row is filtered by its own columns,
      so the filter may be applied when the row's turn comes. */
  method RunCycle(subscriptions: seq<SubscriptionState.Subscription>, tenants: seq<Tenant?>, now: Time, dryRun: bool)
    returns (summary: Summary)
    requires Separate(subscriptions, tenants)
    modifies subscriptions, tenants
    ensures forall i | 0 <= i < |subscriptions| ::
              var before := old(Read(subscriptions[i], tenants[i]));
              Read(subscriptions[i], tenants[i]) == if dryRun then before else AfterCycle(before, now)
    ensures summary == Tally(old(Rows(subscriptions, tenants)), now, dryRun)
  {
    assert |subscriptions| == |tenants|;
    ghost var rows := Rows(subscriptions, tenants);
    hide AfterCycle, Counted, Read, Tally, Separate;
    summary := Summary(0, 0, 0, 0, 0);
    TallyGrows(rows, now, dryRun);
    for i := 0 to |subscriptions|
      invariant summary == Tally(rows[..i], now, dryRun)
      invariant forall k | 0 <= k < |subscriptions| ::
                  Read(subscriptions[k], tenants[k]) == if dryRun || k >= i then rows[k] else AfterCycle(rows[k], now)
    {
      summary := ExpireAt(subscriptions, tenants, i, now, dryRun, summary);
    }
  }

  lemma TallyGrows(rows: seq<Row>, now: Time, dryRun: bool)
    ensures Tally(rows[..0], now, dryRun) == Summary(0, 0, 0, 0, 0)
    ensures Tally(rows[..|rows|], now, dryRun) == Tally(rows, now, dryRun)
    ensures forall i | 0 <= i < |rows| ::
              Tally(rows[..i + 1], now, dryRun) == Counted(Tally(rows[..i], now, dryRun), rows[i], now, dryRun)
  {
    assert rows[..|rows|] == rows;
    forall i | 0 <= i < |rows|
      ensures Tally(rows[..i + 1], now, dryRun) == Counted(Tally(rows[..i], now, dryRun), rows[i], now, dryRun)
    {
      assert rows[..i + 1][..i] == rows[..i];
    }
  }

  // ----- What a cycle achieves, and what it leaves alone -----

  /** After a cycle an expired trial is still trialing exactly if its tenant is missing; a second
      cycle at the same time changes nothing; no other column of any row moves. */
  lemma CycleSettles(r: Row, now: Time)
    ensures var r' := AfterCycle(r, now);
            && (r'.status.Trialing? && IsTrialExpired(r'.trialEndsAt, now)
                <==> r.status.Trialing? && IsTrialExpired(r.trialEndsAt, now) && r.tenant.None?)
            && AfterCycle(r', now) == r'
            && r'.trialEndsAt == r.trialEndsAt && r'.tenant.Some? == r.tenant.Some?
            && (r' != r <==> r.status.Trialing? && IsTrialExpired(r.trialEndsAt, now) && r.tenant.Some?)
  {
  }

  /** An expired trial costs service: its tenant, unless it is failed, held by an administrator or
      on its way out, ends up waiting for payment or suspended for billing. */
  lemma ExpiredLosesService(r: Row, now: Time)
    requires r.status.Trialing? && IsTrialExpired(r.trialEndsAt, now) && r.tenant.Some?
    requires Tabled(r.tenant.value.status)
    ensures var t, t' := r.tenant.value.status, AfterCycle(r, now).tenant.value.status;
            && t' == (if t.Pending? then TenantStatus.PendingPayment
                      else if t.Provisioning? || t.Active? then TenantStatus.SuspendedBilling
                      else t)
            && AfterCycle(r, now).status.PastDue? && AfterCycle(r, now).tenant.value.updatedAt == now
            && (t' == t && !t.PendingPayment? && !t.SuspendedBilling?
                <==> t.Failed? || t.Suspended? || t.SuspendedAdmin? || t.Upgrading? || t.Restoring? || TerminalTenant(t))
  {
  }

  /** Rows the report looks at. */
  predicate Reported(r: Row) {
    r.status.Trialing? || r.trialEndsAt.Some?
  }

  function FunnelCount(rows: seq<Row>, b: FunnelBucket, now: Time): nat
    decreases |rows|
  {
    if rows == [] then 0
    else FunnelCount(rows[1..], b, now) + One(Reported(rows[0]) && Bucket(rows[0].status, rows[0].trialEndsAt, now) == b)
  }

  /** Every funnel count is the same before and after the cycle, in a report of that instant and
      in any later one. */
  lemma {:induction false} FunnelIsPreserved(before: seq<Row>, after: seq<Row>, b: FunnelBucket, now: Time, report: Time)
    requires |after| == |before| && now <= report
    requires forall i | 0 <= i < |before| :: after[i] == AfterCycle(before[i], now)
    ensures FunnelCount(after, b, report) == FunnelCount(before, b, report)
    decreases |before|
  {
    if before != [] {
      assert after[0] == AfterCycle(before[0], now);
      FunnelIsPreserved(before[1..], after[1..], b, now, report);
    }
  }

  /** An expired trial's tenant has the given status. */
  predicate ExpiredWith(r: Row, now: Time, t: TenantStatus) {
    r.status.Trialing? && IsTrialExpired(r.trialEndsAt, now) && r.tenant.Some? && r.tenant.value.status == t
  }

  /** The counters are numbers of rows: of expired trials, of the rows a cycle changes, and of the
      tenants it sends to wait for payment and to suspension, which a dry run does not count. */
  lemma {:induction false} TallyAccounts(rows: seq<Row>, now: Time, dryRun: bool)
    ensures var s := Tally(rows, now, dryRun);
            && s.checked == Number(rows, (r: Row) => r.status.Trialing? && IsTrialExpired(r.trialEndsAt, now))
            && s.pastDue == s.expired == Number(rows, (r: Row) => AfterCycle(r, now) != r)
            && s.pendingPayment == (if dryRun then 0
                                    else Number(rows, (r: Row) => ExpiredWith(r, now, TenantStatus.Pending)
                                                           || ExpiredWith(r, now, TenantStatus.PendingPayment)))
            && s.suspended == (if dryRun then 0
                               else Number(rows, (r: Row) => ExpiredWith(r, now, TenantStatus.Provisioning)
                                                      || ExpiredWith(r, now, TenantStatus.Active)))
    decreases |rows|
  {
    if rows != [] {
      var last := |rows| - 1;
      TallyAccounts(rows[..last], now, dryRun);
      CountedAccounts(Tally(rows[..last], now, dryRun), rows[last], now, dryRun);
      hide Counted, AfterCycle, ExpiredWith, IsTrialExpired;
    }
  }

  lemma CountedAccounts(s: Summary, r: Row, now: Time, dryRun: bool)
    ensures var s' := Counted(s, r, now, dryRun);
            var due, changed := r.status.Trialing? && IsTrialExpired(r.trialEndsAt, now), AfterCycle(r, now) != r;
            var waits := ExpiredWith(r, now, TenantStatus.Pending) || ExpiredWith(r, now, TenantStatus.PendingPayment);
            var stops := ExpiredWith(r, now, TenantStatus.Provisioning) || ExpiredWith(r, now, TenantStatus.Active);
            && s'.checked == s.checked + One(due)
            && s'.expired == s.expired + One(changed)
            && s'.pastDue == s.pastDue + One(changed)
            && s'.pendingPayment == s.pendingPayment + One(!dryRun && waits)
            && s'.suspended == s.suspended + One(!dryRun && stops)
  {
  }

  /** What the funnel counts are numbers of: trials still running, paid subscriptions that began as a
      trial, trials that ran out or fell past due, and cancelled ones; pending and paused subscriptions
      are in no count, and no other reported row is left out. */
  lemma {:induction false} FunnelMeans(rows: seq<Row>, now: Time)
    requires forall r | r in rows :: StoredSubscriptionStatus(r.status)
    ensures var ranOut := (r: Row) => r.status.Trialing? && IsTrialExpired(r.trialEndsAt, now);
            && FunnelCount(rows, FunnelBucket.Trialing, now) == Number(rows, (r: Row) => r.status.Trialing? && !ranOut(r))
            && FunnelCount(rows, FunnelBucket.ConvertedPaid, now)
               == Number(rows, (r: Row) => r.status.Active? && r.trialEndsAt.Some?)
            && FunnelCount(rows, FunnelBucket.ExpiredPastDue, now)
               == Number(rows, (r: Row) => ranOut(r) || (r.status.PastDue? && r.trialEndsAt.Some?))
            && FunnelCount(rows, FunnelBucket.Cancelled, now)
               == Number(rows, (r: Row) => r.status.Cancelled? && r.trialEndsAt.Some?)
            && FunnelCount(rows, FunnelBucket.OutsideFunnel, now)
               == Number(rows, (r: Row) => (r.status.Pending? || r.status.Paused?) && r.trialEndsAt.Some?)
    decreases |rows|
  {
    if rows != [] {
      var last := |rows| - 1;
      FunnelMeans(rows[..last], now);
      assert rows[last] in rows;
      forall b: FunnelBucket { FunnelSplits(rows, b, now); }
    }
  }

  lemma {:induction false} FunnelSplits(rows: seq<Row>, b: FunnelBucket, now: Time)
    requires rows != []
    ensures var r := rows[|rows| - 1];
            FunnelCount(rows, b, now)
            == FunnelCount(rows[..|rows| - 1], b, now) + One(Reported(r) && Bucket(r.status, r.trialEndsAt, now) == b)
    decreases |rows|
  {
    if |rows| > 1 {
      FunnelSplits(rows[1..], b, now);
      assert rows[1..][..|rows| - 2] == rows[..|rows| - 1][1..];
    }
  }

  function Number(rows: seq<Row>, p: Row -> bool): nat
    decreases |rows|
  {
    if rows == [] then 0 else Number(rows[..|rows| - 1], p) + One(p(rows[|rows| - 1]))
  }
}
