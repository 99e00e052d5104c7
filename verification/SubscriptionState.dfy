/** The subscription status table, the validator behind every status write, and what any
    history of accepted writes looks like. */
module SubscriptionState {
  import opened Common
  import opened Statuses

  function AllowedFrom(from: SubscriptionStatus): set<SubscriptionStatus> {
    match from
    case Pending =>
      {SubscriptionStatus.Trialing, SubscriptionStatus.Active, SubscriptionStatus.PastDue,
       SubscriptionStatus.Cancelled}
    case Trialing => {SubscriptionStatus.Active, SubscriptionStatus.PastDue, SubscriptionStatus.Cancelled}
    case Active => {SubscriptionStatus.PastDue, SubscriptionStatus.Cancelled, SubscriptionStatus.Paused}
    case PastDue | Paused => {SubscriptionStatus.Active, SubscriptionStatus.Cancelled}
    case Cancelled | Blank | Other(_) => {}
  }

  /** True where the validator does not raise. A row that holds no status accepts any of the six. */
  predicate Accepts(current: SubscriptionStatus, requested: SubscriptionStatus) {
    var wanted := if requested.Blank? then SubscriptionStatus.Pending else requested;
    StoredSubscriptionStatus(wanted)
    && (current.Blank? || current == wanted || wanted in AllowedFrom(current))
  }

  function Write(current: SubscriptionStatus, requested: SubscriptionStatus): SubscriptionStatus {
    if !Accepts(current, requested) then current
    else if requested.Blank? then SubscriptionStatus.Pending else requested
  }

  function FromLegacy(legacy: LegacyBillingStatus): SubscriptionStatus {
    match legacy
    case Paid => SubscriptionStatus.Active
    case Failed => SubscriptionStatus.PastDue
    case Cancelled => SubscriptionStatus.Cancelled
    case Pending | Blank | Other(_) => SubscriptionStatus.Pending
  }

  function ToLegacy(s: SubscriptionStatus): LegacyBillingStatus {
    match s
    case Active | Trialing => LegacyBillingStatus.Paid
    case PastDue => LegacyBillingStatus.Failed
    case Cancelled => LegacyBillingStatus.Cancelled
    case Pending | Paused | Blank | Other(_) => LegacyBillingStatus.Pending
  }

  /** The legacy setter: a pending hint is written only over a blank or pending status. */
  function LegacyWrite(current: SubscriptionStatus, legacy: LegacyBillingStatus): SubscriptionStatus {
    var mapped := FromLegacy(legacy);
    if !mapped.Pending? || current.Blank? || current.Pending? then Write(current, mapped) else current
  }

  /** Which of the six statuses a row may take, by the status asked for: the one it has; cancelled and
      active from any that is not cancelled; past due unless paused; paused only from active; a trial
      only from pending. A blank one asks for pending; what is accepted is stored. */
  lemma AcceptedWrites(current: SubscriptionStatus, requested: SubscriptionStatus)
    requires StoredSubscriptionStatus(current)
    ensures Accepts(current, requested)
            <==> var wanted := if requested.Blank? then SubscriptionStatus.Pending else requested;
                 current == wanted
                 || (!current.Cancelled?
                     && (wanted.Cancelled? || wanted.Active? || (wanted.PastDue? && !current.Paused?)
                         || (wanted.Paused? && current.Active?) || (wanted.Trialing? && current.Pending?)))
    ensures Write(current, requested)
            == if !Accepts(current, requested) then current
               else if requested.Blank? then SubscriptionStatus.Pending else requested
  {
  }

  /** Writing a row's legacy view back changes nothing, except that it turns a trial into a paid
      subscription. */
  lemma LegacyViewWrittenBack(s: SubscriptionStatus)
    requires StoredSubscriptionStatus(s)
    ensures LegacyWrite(s, ToLegacy(s)) == if s.Trialing? then SubscriptionStatus.Active else s
    ensures FromLegacy(LegacyBillingStatus.Failed).PastDue? && ToLegacy(SubscriptionStatus.PastDue).Failed?
    ensures FromLegacy(LegacyBillingStatus.Cancelled).Cancelled? && ToLegacy(SubscriptionStatus.Cancelled).Cancelled?
  {
  }

  class Subscription {
    var status: SubscriptionStatus
    var trialEndsAt: Option<Time>

    constructor (status: SubscriptionStatus, trialEndsAt: Option<Time>)
      requires StoredSubscriptionStatus(status)
      ensures this.status == status && this.trialEndsAt == trialEndsAt
    {
      this.status := status;
      this.trialEndsAt := trialEndsAt;
    }

    /** The validating hook on the status column; `ok` is false where it raises. */
    method SetStatus(requested: SubscriptionStatus) returns (ok: bool)
      modifies this`status
      ensures ok == Accepts(old(status), requested)
      ensures status == Write(old(status), requested)
    {
      var wanted := if requested.Blank? then SubscriptionStatus.Pending else requested;
      if !StoredSubscriptionStatus(wanted) {
        return false;
      }
      if !status.Blank? && status != wanted && wanted !in AllowedFrom(status) {
        return false;
      }
      status := wanted;
      return true;
    }

    /** The compatibility setter of `billing_status` on a tenant that has a subscription. */
    method SetLegacyBillingStatus(legacy: LegacyBillingStatus) returns (ok: bool)
      modifies this`status
      ensures status == LegacyWrite(old(status), legacy)
      ensures var mapped := FromLegacy(legacy);
              var hintIgnored := mapped.Pending? && !old(status).Blank? && !old(status).Pending?;
              ok <==> hintIgnored || Accepts(old(status), mapped)
      ensures !ok ==> status == old(status)
    {
      var mapped := FromLegacy(legacy);
      ok := true;
      if !mapped.Pending? || status.Blank? || status.Pending? {
        ok := SetStatus(mapped);
      }
    }
  }

  // ----- Histories -----

  datatype WriteRequest = Direct(status: SubscriptionStatus) | Legacy(legacy: LegacyBillingStatus)

  function Apply(current: SubscriptionStatus, w: WriteRequest): SubscriptionStatus {
    match w
    case Direct(s) => Write(current, s)
    case Legacy(l) => LegacyWrite(current, l)
  }

  /** Every status the row holds while the writes are served, the first one included. */
  function History(start: SubscriptionStatus, writes: seq<WriteRequest>): (h: seq<SubscriptionStatus>)
    ensures |h| == |writes| + 1 && h[0] == start
    decreases |writes|
  {
    if writes == [] then [start] else [start] + History(Apply(start, writes[0]), writes[1..])
  }

  /** How far along its life a stored status is; no table edge goes back. */
  function Age(s: SubscriptionStatus): nat {
    match s
    case Pending => 0
    case Trialing => 1
    case Active | PastDue | Paused => 2
    case Cancelled | Blank | Other(_) => 3
  }

  ghost predicate PathInTable(h: seq<SubscriptionStatus>) {
    && (forall i | 0 <= i < |h| :: StoredSubscriptionStatus(h[i]))
    && (forall i | 0 <= i < |h| - 1 :: h[i] == h[i + 1] || h[i + 1] in AllowedFrom(h[i]))
  }

  lemma {:induction false} HistoryIsAPath(start: SubscriptionStatus, writes: seq<WriteRequest>)
    requires StoredSubscriptionStatus(start)
    ensures PathInTable(History(start, writes))
    decreases |writes|
  {
    if writes != [] {
      var next := Apply(start, writes[0]);
      HistoryIsAPath(next, writes[1..]);
      var rest := History(next, writes[1..]);
      var h := History(start, writes);
      forall i | 0 <= i < |h| - 1
        ensures h[i] == h[i + 1] || h[i + 1] in AllowedFrom(h[i])
      {
        if i > 0 {
          assert h[i] == rest[i - 1] && h[i + 1] == rest[i];
        }
      }
    }
  }

  lemma {:induction false} AgeNeverDrops(h: seq<SubscriptionStatus>, i: nat, j: nat)
    requires PathInTable(h) && i <= j < |h|
    ensures Age(h[i]) <= Age(h[j])
    ensures Age(h[i]) == Age(h[j]) != 2 ==> h[i] == h[j]
    decreases j - i
  {
    if i < j {
      AgeNeverDrops(h, i + 1, j);
    }
  }

  ghost predicate Enters(h: seq<SubscriptionStatus>, s: SubscriptionStatus, i: nat) {
    i < |h| && h[i] == s && (i == 0 || h[i - 1] != s)
  }

  /** Over any sequence of direct and legacy writes: pending is never re-entered, a trial is
      entered at most once, and a cancelled subscription stays cancelled. */
  lemma SubscriptionRuns(start: SubscriptionStatus, writes: seq<WriteRequest>)
    requires StoredSubscriptionStatus(start)
    ensures var h := History(start, writes);
            && PathInTable(h)
            && (forall i: nat | Enters(h, SubscriptionStatus.Pending, i) :: i == 0)
            && (forall i: nat, j: nat |
                  Enters(h, SubscriptionStatus.Trialing, i) && Enters(h, SubscriptionStatus.Trialing, j) :: i == j)
            && (forall i: nat, j: nat | i <= j < |h| && h[i].Cancelled? :: h[j].Cancelled?)
  {
    var h := History(start, writes);
    HistoryIsAPath(start, writes);
    forall i: nat | Enters(h, SubscriptionStatus.Pending, i) ensures i == 0 {
      if i > 0 { AgeNeverDrops(h, i - 1, i); }
    }
    forall i: nat, j: nat |
      Enters(h, SubscriptionStatus.Trialing, i) && Enters(h, SubscriptionStatus.Trialing, j)
      ensures i == j
    {
      if i < j { TrialNotReentered(h, i, j); }
      if j < i { TrialNotReentered(h, j, i); }
    }
    forall i: nat, j: nat | i <= j < |h| && h[i].Cancelled? ensures h[j].Cancelled? {
      AgeNeverDrops(h, i, j);
    }
  }

  lemma TrialNotReentered(h: seq<SubscriptionStatus>, i: nat, j: nat)
    requires PathInTable(h) && i < j < |h|
    requires h[i].Trialing? && h[j].Trialing?
    ensures h[j - 1].Trialing?
  {
    AgeNeverDrops(h, i, j - 1);
    AgeNeverDrops(h, j - 1, j);
  }
}
