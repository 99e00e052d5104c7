/** Create jobs of one tenant and their hand-over to the work queue. */
module Provisioning {
  import opened Common
  import opened Rows

  datatype JobKind = Create | Delete | Backup | Restore

  datatype JobStatus = Queued | Running | Succeeded | Failed

  /** `handed` says the row carries the identifier the work queue gave it. */
  datatype Job = Job(kind: JobKind, status: JobStatus, handed: bool)

  predicate LiveCreate(j: Job) {
    j.kind.Create? && !j.status.Failed?
  }

  /** The oldest live create job. */
  function FirstLive(jobs: seq<Job>): (k: Option<RowId>)
    ensures k.Some? ==> k.value < |jobs| && LiveCreate(jobs[k.value])
                        && forall i | 0 <= i < k.value :: !LiveCreate(jobs[i])
    ensures k.None? <==> forall i | 0 <= i < |jobs| :: !LiveCreate(jobs[i])
  {
    if |jobs| == 0 then None
    else
      var before := FirstLive(jobs[..|jobs| - 1]);
      if before.Some? then before
      else if LiveCreate(jobs[|jobs| - 1]) then Some(|jobs| - 1) else None
  }

  /** What the job table and the queue hold afterwards. `Raised` is a refused hand-over: the
      exception reaches the caller, and what was committed before it stays. */
  datatype Handover =
    | Returned(jobs: seq<Job>, queue: seq<RowId>, job: RowId, enqueued: bool)
    | Raised(jobs: seq<Job>, queue: seq<RowId>)

  function Hand(jobs: seq<Job>, queue: seq<RowId>, k: RowId, queueUp: bool): Handover
    requires k < |jobs|
  {
    if queueUp then Returned(jobs[k := jobs[k].(handed := true)], queue + [k], k, true)
    else Raised(jobs, queue)
  }

  function Enqueue(jobs: seq<Job>, queue: seq<RowId>, queueUp: bool): Handover {
    var live := FirstLive(jobs);
    if live.Some? then
      var k := live.value;
      if jobs[k].status.Queued? && !jobs[k].handed then Hand(jobs, queue, k, queueUp)
      else Returned(jobs, queue, k, false)
    else Hand(jobs + [Job(Create, Queued, false)], queue, |jobs|, queueUp)
  }

  /** The tenant has no live create job, or one that waits to be handed over. */
  predicate NeedsHandOver(jobs: seq<Job>) {
    var live := FirstLive(jobs);
    live.None? || (jobs[live.value].status.Queued? && !jobs[live.value].handed)
  }

  class JobBoard {
    var jobs: seq<Job>
    var queue: seq<RowId>

    constructor (jobs: seq<Job>, queue: seq<RowId>)
      ensures this.jobs == jobs && this.queue == queue
    {
      this.jobs := jobs;
      this.queue := queue;
    }

    method HandOver(k: RowId, queueUp: bool) returns (ok: bool)
      requires k < |jobs|
      modifies this
      ensures ok == queueUp
      ensures jobs == if ok then old(jobs)[k := old(jobs)[k].(handed := true)] else old(jobs)
      ensures queue == if ok then old(queue) + [k] else old(queue)
    {
      if !queueUp {
        return false;
      }
      queue := queue + [k];
      jobs := jobs[k := jobs[k].(handed := true)];
      return true;
    }

    method FindLive() returns (found: Option<RowId>)
      ensures found == FirstLive(jobs)
    {
      found := None;
      var i := 0;
      while i < |jobs|
        invariant 0 <= i <= |jobs|
        invariant found == FirstLive(jobs[..i])
      {
        assert jobs[..i + 1][..i] == jobs[..i];
        if found.None? && LiveCreate(jobs[i]) {
          found := Some(i);
        }
        i := i + 1;
      }
      assert jobs[..i] == jobs;
    }

    /** Hands over the tenant's create job, making one if none is live. */
    method EnqueueProvisioning(queueUp: bool) returns (ok: bool, enqueued: bool)
      modifies this
      ensures var h := Enqueue(old(jobs), old(queue), queueUp);
              && jobs == h.jobs && queue == h.queue
              && ok == h.Returned?
              && (ok ==> enqueued == h.enqueued)
    {
      var existing := FindLive();
      if existing.Some? {
        var k := existing.value;
        if jobs[k].status.Queued? && !jobs[k].handed {
          ok := HandOver(k, queueUp);
          return ok, ok;
        }
        return true, false;
      }
      jobs := jobs + [Job(Create, Queued, false)];
      ok := HandOver(|jobs| - 1, queueUp);
      return ok, ok;
    }
  }

  // ----- What one call promises -----

  lemma NewJobIsFirstLive(jobs: seq<Job>, j: Job)
    requires FirstLive(jobs).None? && LiveCreate(j)
    ensures FirstLive(jobs + [j]) == Some(|jobs|)
  {
    assert (jobs + [j])[..|jobs|] == jobs;
  }

  lemma HandedExactlyWhenTrue(jobs: seq<Job>, queue: seq<RowId>, queueUp: bool)
    ensures var h := Enqueue(jobs, queue, queueUp);
            && (h.Returned? && h.enqueued <==> h.queue != queue)
            && (h.queue == queue || (h.Returned? && h.queue == queue + [h.job]))
  {
    hide FirstLive;
  }

  lemma ReturnedJobIsLive(jobs: seq<Job>, queue: seq<RowId>, queueUp: bool)
    ensures var h := Enqueue(jobs, queue, queueUp);
            h.Returned? ==> h.job < |h.jobs| && LiveCreate(h.jobs[h.job])
                            && (h.jobs[h.job].handed || !h.jobs[h.job].status.Queued?)
  {
    hide FirstLive;
  }

  lemma RaisedLeavesAWaitingJob(jobs: seq<Job>, queue: seq<RowId>, queueUp: bool)
    ensures var h := Enqueue(jobs, queue, queueUp);
            h.Raised? ==> !queueUp && FirstLive(h.jobs).Some?
                          && h.jobs[FirstLive(h.jobs).value].status.Queued?
                          && !h.jobs[FirstLive(h.jobs).value].handed
  {
    if FirstLive(jobs).None? {
      NewJobIsFirstLive(jobs, Job(Create, Queued, false));
    }
    hide FirstLive;
  }

  lemma EnqueuePromise(jobs: seq<Job>, queue: seq<RowId>, queueUp: bool)
    ensures var h := Enqueue(jobs, queue, queueUp);
            // True exactly when one job went to the queue, and it is the job returned
            && (h.Returned? && h.enqueued <==> h.queue != queue)
            && (h.queue == queue || (h.Returned? && h.queue == queue + [h.job]))
            // the job returned is live, and someone has it
            && (h.Returned? ==> h.job < |h.jobs| && LiveCreate(h.jobs[h.job])
                                && (h.jobs[h.job].handed || !h.jobs[h.job].status.Queued?))
            // no committed job is lost: the oldest waiting one is the one handed over
            && (forall k | 0 <= k < |jobs| && FirstLive(jobs) == Some(k)
                           && jobs[k].status.Queued? && !jobs[k].handed && queueUp ::
                  h.Returned? && h.queue == queue + [k] && h.jobs == jobs[k := jobs[k].(handed := true)])
            // it raises exactly when a hand-over was needed and the queue is down, leaving a
            // waiting job for the next call
            && (h.Raised? ==> !queueUp && FirstLive(h.jobs).Some?
                              && h.jobs[FirstLive(h.jobs).value].status.Queued?
                              && !h.jobs[FirstLive(h.jobs).value].handed)
  {
    HandedExactlyWhenTrue(jobs, queue, queueUp);
    ReturnedJobIsLive(jobs, queue, queueUp);
    RaisedLeavesAWaitingJob(jobs, queue, queueUp);
    hide FirstLive;
  }

  /** Handing over raises exactly when a job needs it and the queue is down; then the queue is as
      before and a job waits, a new one if none was live. */
  lemma HandOverRaises(jobs: seq<Job>, queue: seq<RowId>, queueUp: bool)
    ensures var h := Enqueue(jobs, queue, queueUp);
            && (h.Raised? <==> NeedsHandOver(jobs) && !queueUp)
            && (h.Raised? ==> h.queue == queue && NeedsHandOver(h.jobs) && FirstLive(h.jobs).Some?
                              && (h.jobs == jobs <==> FirstLive(jobs).Some?))
  {
    RaisedLeavesAWaitingJob(jobs, queue, queueUp);
    hide FirstLive;
  }

  lemma FirstLiveIs(jobs: seq<Job>, k: RowId)
    requires k < |jobs| && LiveCreate(jobs[k]) && forall i | 0 <= i < k :: !LiveCreate(jobs[i])
    ensures FirstLive(jobs) == Some(k)
  {
    hide FirstLive;
  }

  /** A call that has returned leaves nothing for the next one to do. */
  lemma EnqueueRests(jobs: seq<Job>, queue: seq<RowId>, queueUp: bool)
    ensures var h := Enqueue(jobs, queue, queueUp);
            h.Returned? ==> forall again :: Enqueue(h.jobs, h.queue, again) == Returned(h.jobs, h.queue, h.job, false)
  {
    var h := Enqueue(jobs, queue, queueUp);
    hide FirstLive;
    if h.Returned? {
      FirstLiveIs(h.jobs, h.job);
    }
  }

  /** The whole of what one call does. If the tenant has create jobs that have not failed, the first of
      them is handed over if it waits, and otherwise left alone; if it has none, a new one is stored and
      handed over. With the queue down the job stays as a waiting one and the call raises. */
  lemma EnqueueLeaves(jobs: seq<Job>, queue: seq<RowId>, queueUp: bool, k: RowId)
    ensures (k < |jobs| && jobs[k].kind.Create? && !jobs[k].status.Failed?
             && forall i | 0 <= i < k :: jobs[i].kind.Create? ==> jobs[i].status.Failed?) ==>
              Enqueue(jobs, queue, queueUp)
              == if !jobs[k].status.Queued? || jobs[k].handed then Returned(jobs, queue, k, false)
                 else if queueUp then Returned(jobs[k := Job(Create, Queued, true)], queue + [k], k, true)
                 else Raised(jobs, queue)
    ensures (forall i | 0 <= i < |jobs| :: jobs[i].kind.Create? ==> jobs[i].status.Failed?) ==>
              Enqueue(jobs, queue, queueUp)
              == if queueUp then Returned(jobs + [Job(Create, Queued, true)], queue + [|jobs|], |jobs|, true)
                 else Raised(jobs + [Job(Create, Queued, false)], queue)
  {
    if k < |jobs| && LiveCreate(jobs[k]) && forall i | 0 <= i < k :: !LiveCreate(jobs[i]) {
      FirstLiveIs(jobs, k);
    }
    hide FirstLive;
    var one := jobs + [Job(Create, Queued, false)];
    assert one[|jobs| := Job(Create, Queued, true)] == jobs + [Job(Create, Queued, true)];
  }

  /** After an outage the next call finishes the job: together they do what one call does. */
  lemma OutageThenRetry(jobs: seq<Job>, queue: seq<RowId>)
    ensures var down := Enqueue(jobs, queue, false);
            var retried := Enqueue(down.jobs, down.queue, true);
            retried == Enqueue(jobs, queue, true)
            || (down.Returned? && retried.jobs == jobs && retried.queue == queue)
  {
    if FirstLive(jobs).None? {
      NewJobIsFirstLive(jobs, Job(Create, Queued, false));
    }
    hide FirstLive;
  }

  // ----- Runs -----

  datatype Step =
    | Call(queueUp: bool)
    | Start(job: RowId)
    | Succeed(job: RowId)
    | Fail(job: RowId)

  datatype Board = Board(jobs: seq<Job>, queue: seq<RowId>)

  /** The worker starts only what the queue gave it, and ends only what is running. */
  function Next(b: Board, s: Step): Board {
    match s
    case Call(up) => var h := Enqueue(b.jobs, b.queue, up); Board(h.jobs, h.queue)
    case Start(k) =>
      if k < |b.jobs| && k in b.queue then b.(jobs := b.jobs[k := b.jobs[k].(status := Running)]) else b
    case Succeed(k) =>
      if k < |b.jobs| && b.jobs[k].status.Running? then b.(jobs := b.jobs[k := b.jobs[k].(status := Succeeded)]) else b
    case Fail(k) =>
      if k < |b.jobs| && b.jobs[k].status.Running? then b.(jobs := b.jobs[k := b.jobs[k].(status := JobStatus.Failed)]) else b
  }

  /** A job keeps its kind and its place for good. Its status moves only to running, when the worker
      starts what the queue gave it, and from running to an end. */
  lemma StepMoves(b: Board, s: Step, k: RowId)
    requires k < |b.jobs|
    ensures var b' := Next(b, s);
            && |b'.jobs| >= |b.jobs| && b'.jobs[k].kind == b.jobs[k].kind
            && (b.jobs[k].handed ==> b'.jobs[k].handed)
            && (b'.jobs[k].handed && !b.jobs[k].handed ==> s == Call(true) && b'.queue == b.queue + [k])
            && b'.jobs[k].status == (if s == Start(k) && k in b.queue then Running
                                     else if s == Succeed(k) && b.jobs[k].status.Running? then Succeeded
                                     else if s == Fail(k) && b.jobs[k].status.Running? then JobStatus.Failed
                                     else b.jobs[k].status)
  {
    hide FirstLive;
  }

  /** The step starts a job that has already failed. */
  predicate Reruns(b: Board, s: Step) {
    s.Start? && s.job < |b.jobs| && b.jobs[s.job].status.Failed?
  }

  ghost predicate AtMostOneLive(jobs: seq<Job>) {
    forall i, j | 0 <= i < j < |jobs| :: !(LiveCreate(jobs[i]) && LiveCreate(jobs[j]))
  }

  ghost predicate HandedOnce(b: Board) {
    && (forall i, j | 0 <= i < j < |b.queue| :: b.queue[i] != b.queue[j])
    && (forall k | k in b.queue :: k < |b.jobs| && b.jobs[k].handed)
    && (forall k | 0 <= k < |b.jobs| && b.jobs[k].handed :: k in b.queue)
  }

  ghost predicate Sound(b: Board) {
    AtMostOneLive(b.jobs) && HandedOnce(b)
  }

  lemma HandKeepsSound(jobs: seq<Job>, queue: seq<RowId>, k: RowId, queueUp: bool)
    requires Sound(Board(jobs, queue)) && k < |jobs| && !jobs[k].handed
    ensures var h := Hand(jobs, queue, k, queueUp); Sound(Board(h.jobs, h.queue))
  {
    if queueUp {
      var h := Hand(jobs, queue, k, queueUp);
      assert forall i | 0 <= i < |jobs| :: LiveCreate(h.jobs[i]) <==> LiveCreate(jobs[i]);
      forall i | i in h.queue ensures i < |h.jobs| && h.jobs[i].handed {
        assert i == k || i in queue;
      }
      assert k !in queue;
    }
  }

  lemma CallKeepsSound(b: Board, queueUp: bool)
    requires Sound(b)
    ensures Sound(Next(b, Call(queueUp)))
  {
    var live := FirstLive(b.jobs);
    if live.None? {
      var grown := b.jobs + [Job(Create, Queued, false)];
      assert forall i | 0 <= i < |b.jobs| :: !LiveCreate(grown[i]);
      HandKeepsSound(grown, b.queue, |b.jobs|, queueUp);
    } else if !b.jobs[live.value].handed {
      HandKeepsSound(b.jobs, b.queue, live.value, queueUp);
    }
  }

  lemma {:induction false} StepKeepsSound(b: Board, s: Step)
    requires Sound(b) && !Reruns(b, s)
    ensures Sound(Next(b, s))
  {
    var b' := Next(b, s);
    match s {
      case Call(up) => CallKeepsSound(b, up);
      case Start(k) =>
        assert forall i | 0 <= i < |b.jobs| :: LiveCreate(b'.jobs[i]) ==> LiveCreate(b.jobs[i]);
      case Succeed(k) =>
        assert forall i | 0 <= i < |b.jobs| :: LiveCreate(b'.jobs[i]) ==> LiveCreate(b.jobs[i]);
      case Fail(k) =>
        assert forall i | 0 <= i < |b.jobs| :: LiveCreate(b'.jobs[i]) ==> LiveCreate(b.jobs[i]);
    }
  }

  function Run(b: Board, steps: seq<Step>): Board
    decreases |steps|
  {
    if steps == [] then b else Run(Next(b, steps[0]), steps[1..])
  }

  ghost predicate NeverReruns(b: Board, steps: seq<Step>)
    decreases |steps|
  {
    steps == [] || (!Reruns(b, steps[0]) && NeverReruns(Next(b, steps[0]), steps[1..]))
  }

  /** Over any interleaving of calls, outages and worker progress in which a failed job is not
      run again, the tenant has at most one live create job and no job is queued twice. */
  lemma {:induction false} OneLiveCreateJob(b: Board, steps: seq<Step>)
    requires Sound(b) && NeverReruns(b, steps)
    ensures Sound(Run(b, steps))
    decreases |steps|
  {
    if steps != [] {
      StepKeepsSound(b, steps[0]);
      OneLiveCreateJob(Next(b, steps[0]), steps[1..]);
    }
  }

  /** Running a failed create job again keeps the promise exactly when no other create job has
      become live meanwhile. */
  lemma RerunCondition(b: Board, k: RowId)
    requires Sound(b) && k in b.queue && Reruns(b, Start(k)) && b.jobs[k].kind.Create?
    ensures AtMostOneLive(Next(b, Start(k)).jobs) <==> FirstLive(b.jobs).None?
  {
    var after := Next(b, Start(k)).jobs;
    if FirstLive(b.jobs).Some? {
      var other := FirstLive(b.jobs).value;
      assert other != k && LiveCreate(after[other]) && LiveCreate(after[k]);
      if other < k { assert !AtMostOneLive(after); } else { assert !AtMostOneLive(after); }
    }
  }
}
