/** The outbox in front of the payment callbacks. */
module BillingOutbox {
  import opened Common
  import opened Rows
  import opened Ledgers
  import opened Outbox
  import PaymentAttempts
  import PaymentWebhooks
  import Provisioning

  datatype Kind = PaymentConfirmed | PaymentFailed | SubscriptionCancelled | Ignored

  /** A callback with the references it names, and the world and time it is served in. */
  datatype Callback = Callback(kind: Kind, provider: string, references: seq<string>, world: World, at: Time)

  /** The attempt the callback is about; an attempt without an invoice does not count. */
  function AttemptFor(l: Ledger, c: Callback): (a: Option<RowId>)
    ensures a.Some? ==> PaymentWebhooks.Backed(l, a.value)
  {
    var a := PaymentAttempts.ResolveAttempt(l.attempts, c.provider, c.references, true);
    if a.Some? && l.attempts[a.value].invoice < |l.invoices| then a else None
  }

  function AsServed(r: PaymentWebhooks.Reply): Served<Ledger> {
    match r
    case Done(l) => Finished(l)
    case Raised(l) => Broke(l)
  }

  function Serve(l: Ledger, c: Callback): Served<Ledger> {
    match c.kind
    case PaymentConfirmed => AsServed(PaymentWebhooks.HandleConfirmed(l, AttemptFor(l, c), c.world, c.at))
    case PaymentFailed => AsServed(PaymentWebhooks.HandleFailed(l, AttemptFor(l, c), c.at))
    case SubscriptionCancelled => AsServed(PaymentWebhooks.HandleCancelled(l))
    case Ignored => Finished(l)
  }

  /** A handler that raises leaves a trace exactly when it is a confirmation that was committed, a
      job had to be handed over and the work queue was down, and then there was something to commit:
      a changed record or a new job. What it leaves is what it committed, with a job waiting. */
  lemma LeavesTraceExactlyWhen(l: Ledger, c: Callback)
    ensures var m := PaymentWebhooks.Confirmed(l, AttemptFor(l, c), c.world, c.at);
            Serve(l, c).Broke? && Serve(l, c).app != l
            <==> && c.kind.PaymentConfirmed? && !c.world.queueUp && m.Some? && Provisioning.NeedsHandOver(l.jobs)
                 && (m.value != l || Provisioning.FirstLive(l.jobs).None?)
    ensures Serve(l, c).Broke? && Serve(l, c).app != l ==>
              var m := PaymentWebhooks.Confirmed(l, AttemptFor(l, c), c.world, c.at);
              && Serve(l, c).app == m.value.(jobs := Serve(l, c).app.jobs)
              && Provisioning.NeedsHandOver(Serve(l, c).app.jobs) && Provisioning.FirstLive(Serve(l, c).app.jobs).Some?
  {
    if c.kind.PaymentConfirmed? {
      ServedConfirmation(l, c);
      ConfirmationKeepsJobs(l, AttemptFor(l, c), c.world, c.at);
      Provisioning.HandOverRaises(l.jobs, l.queue, c.world.queueUp);
      hide Serve, AttemptFor, Provisioning.NeedsHandOver, Provisioning.FirstLive, Provisioning.Enqueue, PaymentWebhooks.Confirmed;
    } else {
      OthersLeaveNoTrace(l, c);
    }
  }

  lemma ServedConfirmation(l: Ledger, c: Callback)
    requires c.kind.PaymentConfirmed?
    ensures var m := PaymentWebhooks.Confirmed(l, AttemptFor(l, c), c.world, c.at);
            && (m.None? ==> Serve(l, c) == Broke(l))
            && (m.Some? ==>
                  var h := Provisioning.Enqueue(m.value.jobs, m.value.queue, c.world.queueUp);
                  var left := m.value.(jobs := h.jobs, queue := h.queue);
                  Serve(l, c) == if h.Raised? then Broke(left) else Finished(left))
  {
    hide AttemptFor, Provisioning.Enqueue, PaymentWebhooks.Confirmed;
  }

  lemma OthersLeaveNoTrace(l: Ledger, c: Callback)
    requires !c.kind.PaymentConfirmed?
    ensures Serve(l, c).Broke? ==> Serve(l, c).app == l
  {
    hide AttemptFor;
  }

  lemma ConfirmationKeepsJobs(l: Ledger, a: Option<RowId>, w: World, now: Time)
    requires a.Some? ==> PaymentWebhooks.Backed(l, a.value)
    ensures var m := PaymentWebhooks.Confirmed(l, a, w, now);
            m.Some? ==> m.value.jobs == l.jobs && m.value.queue == l.queue
  {
  }

  /** While the work queue is up, any run of callbacks on a tenant, repeats and failed ones
      included, leaves the ledger of one plain pass over the first successful delivery of each
      deduplication key. */
  lemma CallbacksAreDeduplicated<Key(!new)>(s: State<Ledger, Key>, ds: seq<Delivery<Key, Callback>>)
    requires forall d | d in ds :: d.event.world.queueUp
    ensures var first := FirstSuccesses(s.app, DoneKeys(s), ds, Serve);
            && Run(s, ds, Serve).app == Replay(s.app, first, Serve)
            && (forall i, j | 0 <= i < j < |first| :: first[i].key != first[j].key)
            && (forall i | 0 <= i < |first| :: first[i].key !in DoneKeys(s))
  {
    forall d | d in ds ensures RollsBack(Serve, d.event) {
      forall l | Serve(l, d.event).Broke? ensures Serve(l, d.event).app == l {
        if Serve(l, d.event).app != l { LeavesTraceExactlyWhen(l, d.event); }
      }
    }
    DeduplicationIsReplay(s, ds, Serve);
  }
}
