/** Trial expiry, the subscription status an event leads to, and the reporting funnel. */
module TrialLifecycle {
  import opened Common
  import opened Statuses

  datatype TrialEvent = TrialStarted | TrialExpired | PaymentConfirmed | PaymentFailed | SubscriptionCancelled

  datatype FunnelBucket = Trialing | ConvertedPaid | ExpiredPastDue | Cancelled | OutsideFunnel

  function Normalized(s: SubscriptionStatus): SubscriptionStatus {
    if s.Blank? then SubscriptionStatus.Pending else s
  }

  predicate IsTrialExpired(trialEndsAt: Option<Time>, now: Time) {
    trialEndsAt.Some? && trialEndsAt.value <= now
  }

  function ResolveStatus(current: SubscriptionStatus, event: TrialEvent, trialEndsAt: Option<Time>, now: Time)
    : SubscriptionStatus
  {
    match event
    case TrialStarted => SubscriptionStatus.Trialing
    case PaymentConfirmed => SubscriptionStatus.Active
    case PaymentFailed => SubscriptionStatus.PastDue
    case SubscriptionCancelled => SubscriptionStatus.Cancelled
    case TrialExpired =>
      if current.Trialing? && IsTrialExpired(trialEndsAt, now) then SubscriptionStatus.PastDue
      else Normalized(current)
  }

  function Bucket(status: SubscriptionStatus, trialEndsAt: Option<Time>, now: Time): FunnelBucket {
    match Normalized(status)
    case Trialing =>
      if IsTrialExpired(trialEndsAt, now) then FunnelBucket.ExpiredPastDue else FunnelBucket.Trialing
    case Active => FunnelBucket.ConvertedPaid
    case PastDue => FunnelBucket.ExpiredPastDue
    case Cancelled => FunnelBucket.Cancelled
    case Pending | Paused | Blank | Other(_) => FunnelBucket.OutsideFunnel
  }
}
