/** The scheduler lease: workers on a shared store compete for a key that expires, and the
    holder enqueues a cycle when the recorded time of the last one is an interval old. Every
    store command and every read of the clock is a step of its own. */
module SchedulerLease {
  import opened Common

  type Owner = nat

  /** A store key is gone once the clock reaches its expiry. */
  datatype Lock = Lock(owner: Owner, expires: real)
  datatype Marker = Marker(at: real, expires: real)

  /** Where a worker stands in one round of its loop. `start` is the time of the command that
      took or extended the lock. */
  datatype Phase =
    | Idle
    | Contending                                // SET NX was refused
    | Renewing(deadline: real)                  // GET returned the worker's own id
    | Holding(start: real)
    | ClockRead(start: real, now: real)
    | Due(start: real, now: real)               // the marker says a cycle is due
    | Enqueued(start: real, now: real)          // handed to the queue, marker not yet written

  datatype Config = Config(lockSeconds: real, interval: real, markerSeconds: real)

  datatype State = State(
    clock: real,
    lock: Option<Lock>,
    marker: Option<Marker>,
    phases: map<Owner, Phase>,
    fired: seq<real>,          // the times the enqueued cycles were found due
    recorded: seq<real>)       // those of them that were written to the marker

  datatype Step =
    | Tick(to: real)
    | SetNx(w: Owner) | GetOwner(w: Owner) | Expire(w: Owner)
    | ReadClock(w: Owner) | ReadMarker(w: Owner) | Enqueue(w: Owner) | WriteMarker(w: Owner)
    | Abort(w: Owner)          // an exception the loop swallows

  function PhaseOf(s: State, w: Owner): Phase {
    if w in s.phases then s.phases[w] else Idle
  }

  function Move(s: State, w: Owner, p: Phase): State {
    s.(phases := s.phases[w := p])
  }

  predicate Live(l: Option<Lock>, clock: real) {
    l.Some? && clock < l.value.expires
  }

  /** The marker's value, zero when the key is missing. */
  function LastEnqueued(s: State): real {
    if s.marker.Some? && s.clock < s.marker.value.expires then s.marker.value.at else 0.0
  }

  /** A step that its worker is not ready for does nothing. */
  function Next(c: Config, s: State, step: Step): State {
    match step
    case Tick(to) => if to >= s.clock then s.(clock := to) else s
    case SetNx(w) =>
      if !PhaseOf(s, w).Idle? then s
      else if Live(s.lock, s.clock) then Move(s, w, Contending)
      else Move(s, w, Holding(s.clock)).(lock := Some(Lock(w, s.clock + c.lockSeconds)))
    case GetOwner(w) =>
      if !PhaseOf(s, w).Contending? then s
      else if Live(s.lock, s.clock) && s.lock.value.owner == w then Move(s, w, Renewing(s.lock.value.expires))
      else Move(s, w, Idle)
    case Expire(w) =>
      if !PhaseOf(s, w).Renewing? then s
      // EXPIRE extends whatever lock is there, and the worker goes on in any case
      else if Live(s.lock, s.clock) then
        Move(s, w, Holding(s.clock)).(lock := Some(s.lock.value.(expires := s.clock + c.lockSeconds)))
      else Move(s, w, Holding(s.clock))
    case ReadClock(w) =>
      if !PhaseOf(s, w).Holding? then s else Move(s, w, ClockRead(PhaseOf(s, w).start, s.clock))
    case ReadMarker(w) =>
      if !PhaseOf(s, w).ClockRead? then s
      else
        var p := PhaseOf(s, w);
        if p.now - LastEnqueued(s) < c.interval then Move(s, w, Idle) else Move(s, w, Due(p.start, p.now))
    case Enqueue(w) =>
      if !PhaseOf(s, w).Due? then s
      else
        var p := PhaseOf(s, w);
        Move(s, w, Enqueued(p.start, p.now)).(fired := s.fired + [p.now])
    case WriteMarker(w) =>
      if !PhaseOf(s, w).Enqueued? then s
      else
        var now := PhaseOf(s, w).now;
        Move(s, w, Idle).(marker := Some(Marker(now, s.clock + c.markerSeconds)), recorded := s.recorded + [now])
    case Abort(w) => Move(s, w, Idle)
  }

  /** The worker believes it holds the lock. */
  predicate Inside(p: Phase) {
    p.Holding? || p.ClockRead? || p.Due? || p.Enqueued?
  }

  /** Each holder is done before its lock can lapse, and an EXPIRE lands before the lease seen
      by the GET has lapsed. */
  ghost predicate Timely(c: Config, s: State) {
    forall w ::
      && (Inside(PhaseOf(s, w)) ==> s.clock < PhaseOf(s, w).start + c.lockSeconds)
      && (PhaseOf(s, w).Renewing? ==> s.clock < PhaseOf(s, w).deadline)
  }

  function Run(c: Config, s: State, steps: seq<Step>): State
    decreases |steps|
  {
    if steps == [] then s else Run(c, Next(c, s, steps[0]), steps[1..])
  }

  ghost predicate TimelyRun(c: Config, s: State, steps: seq<Step>)
    decreases |steps|
  {
    Timely(c, s) && (steps == [] || TimelyRun(c, Next(c, s, steps[0]), steps[1..]))
  }

  function Start(clock: real): State {
    State(clock, None, None, map[], [], [])
  }

  // ----- Safety -----

  ghost predicate MutualExclusion(s: State) {
    forall v, w :: Inside(PhaseOf(s, v)) && Inside(PhaseOf(s, w)) ==> v == w
  }

  ghost predicate Spaced(fired: seq<real>, interval: real) {
    forall i, j | 0 <= i < j < |fired| :: fired[j] - fired[i] >= interval
  }

  /** The lock entry is the holder's own, and so is the one a renewing worker has seen. */
  ghost predicate LockMatches(c: Config, s: State) {
    forall w ::
      && (Inside(PhaseOf(s, w)) ==> s.lock == Some(Lock(w, PhaseOf(s, w).start + c.lockSeconds)))
      && (PhaseOf(s, w).Renewing? ==> s.lock == Some(Lock(w, PhaseOf(s, w).deadline)))
  }

  /** What a phase remembers. */
  ghost predicate PhaseSound(c: Config, s: State, p: Phase) {
    && (Inside(p) ==> p.start <= s.clock)
    && (p.ClockRead? || p.Due? || p.Enqueued? ==> p.start <= p.now <= s.clock)
    && (p.Due? || p.Enqueued? ==> s.recorded == [] || p.now - s.recorded[|s.recorded| - 1] >= c.interval)
  }

  ghost predicate PhasesSound(c: Config, s: State) {
    forall w :: PhaseSound(c, s, PhaseOf(s, w))
  }

  /** The marker holds the last recorded time and lives for at least its lifetime after it. */
  ghost predicate MarkerSound(c: Config, s: State) {
    && (forall i | 0 <= i < |s.recorded| :: s.recorded[i] <= s.clock)
    && (s.recorded != [] ==>
          s.marker.Some? && s.marker.value.at == s.recorded[|s.recorded| - 1]
          && s.marker.value.expires >= s.marker.value.at + c.markerSeconds)
  }

  ghost predicate Safe(c: Config, s: State) {
    LockMatches(c, s) && PhasesSound(c, s) && MarkerSound(c, s) && Spaced(s.recorded, c.interval)
  }

  /** The marker outlives an interval plus a whole lease. */
  predicate MarkerOutlivesLease(c: Config) {
    c.interval + c.lockSeconds <= c.markerSeconds
  }

  lemma LockStep(c: Config, s: State, step: Step)
    requires LockMatches(c, s) && Timely(c, s)
    ensures LockMatches(c, Next(c, s, step))
  {
    var s' := Next(c, s, step);
    forall w
      ensures Inside(PhaseOf(s', w)) ==> s'.lock == Some(Lock(w, PhaseOf(s', w).start + c.lockSeconds))
      ensures PhaseOf(s', w).Renewing? ==> s'.lock == Some(Lock(w, PhaseOf(s', w).deadline))
    {
      assert Inside(PhaseOf(s, w)) ==> s.clock < PhaseOf(s, w).start + c.lockSeconds;
    }
  }

  lemma HoldersAreUnique(c: Config, s: State)
    requires LockMatches(c, s)
    ensures MutualExclusion(s)
  {
  }

  /** The marker check: a cycle found due is an interval after the last recorded one. */
  lemma DueIsLate(c: Config, s: State, w: Owner)
    requires Safe(c, s) && Timely(c, s) && MarkerOutlivesLease(c)
    requires PhaseOf(s, w).ClockRead? && s.recorded != []
    requires PhaseOf(s, w).now - LastEnqueued(s) >= c.interval
    ensures PhaseOf(s, w).now - s.recorded[|s.recorded| - 1] >= c.interval
  {
    assert PhaseSound(c, s, PhaseOf(s, w));
    assert s.clock < PhaseOf(s, w).start + c.lockSeconds;
  }

  lemma SpacedExtension(times: seq<real>, t: real, interval: real)
    requires Spaced(times, interval) && interval > 0.0
    requires times == [] || t - times[|times| - 1] >= interval
    ensures Spaced(times + [t], interval)
  {
    var longer := times + [t];
    forall i, j | 0 <= i < j < |longer| ensures longer[j] - longer[i] >= interval {
      if j == |times| && i < |times| - 1 {
        assert times[|times| - 1] - times[i] >= interval;
      }
    }
  }

  lemma WriteMarkerStep(c: Config, s: State, w: Owner)
    requires Safe(c, s) && c.interval > 0.0 && PhaseOf(s, w).Enqueued?
    ensures var s' := Next(c, s, WriteMarker(w));
            PhasesSound(c, s') && MarkerSound(c, s') && Spaced(s'.recorded, c.interval)
  {
    var s' := Next(c, s, WriteMarker(w));
    HoldersAreUnique(c, s);
    assert PhaseSound(c, s, PhaseOf(s, w));
    SpacedExtension(s.recorded, PhaseOf(s, w).now, c.interval);
    forall v ensures PhaseSound(c, s', PhaseOf(s', v)) {
      assert v != w ==> PhaseOf(s', v) == PhaseOf(s, v) && !Inside(PhaseOf(s, v));
    }
  }

  lemma OtherStepsRecordNothing(c: Config, s: State, step: Step)
    requires !step.WriteMarker?
    ensures var s' := Next(c, s, step);
            s'.marker == s.marker && s'.recorded == s.recorded && s'.clock >= s.clock
  {
  }

  lemma SafeStep(c: Config, s: State, step: Step)
    requires Safe(c, s) && Timely(c, s) && MarkerOutlivesLease(c) && c.interval > 0.0
    ensures Safe(c, Next(c, s, step))
  {
    LockStep(c, s, step);
    if step.WriteMarker? {
      if PhaseOf(s, step.w).Enqueued? { WriteMarkerStep(c, s, step.w); }
    } else {
      OtherStepsRecordNothing(c, s, step);
      PhasesStep(c, s, step);
      hide Next;
    }
  }

  lemma PhasesStep(c: Config, s: State, step: Step)
    requires Safe(c, s) && Timely(c, s) && MarkerOutlivesLease(c) && !step.WriteMarker?
    ensures PhasesSound(c, Next(c, s, step))
  {
    var s' := Next(c, s, step);
    if step.ReadMarker? && PhaseOf(s, step.w).ClockRead? && s.recorded != []
      && PhaseOf(s, step.w).now - LastEnqueued(s) >= c.interval
    {
      DueIsLate(c, s, step.w);
    }
    forall w ensures PhaseSound(c, s', PhaseOf(s', w)) {
      assert PhaseSound(c, s, PhaseOf(s, w));
    }
  }

  lemma {:induction false} SafeRun(c: Config, s: State, steps: seq<Step>)
    requires MarkerOutlivesLease(c) && c.interval > 0.0
    requires Safe(c, s) && TimelyRun(c, s, steps)
    ensures Safe(c, Run(c, s, steps))
    decreases |steps|
  {
    if steps != [] {
      SafeStep(c, s, steps[0]);
      hide Next, Safe, Timely;
      SafeRun(c, Next(c, s, steps[0]), steps[1..]);
    }
  }

  lemma {:induction false} LockRun(c: Config, s: State, steps: seq<Step>)
    requires LockMatches(c, s) && TimelyRun(c, s, steps)
    ensures LockMatches(c, Run(c, s, steps))
    decreases |steps|
  {
    if steps != [] {
      LockStep(c, s, steps[0]);
      LockRun(c, Next(c, s, steps[0]), steps[1..]);
    }
  }

  /** Over every timely interleaving of any number of workers, at most one is inside. */
  lemma LeaseExcludes(c: Config, clock: real, steps: seq<Step>)
    requires TimelyRun(c, Start(clock), steps)
    ensures MutualExclusion(Run(c, Start(clock), steps))
  {
    LockRun(c, Start(clock), steps);
    HoldersAreUnique(c, Run(c, Start(clock), steps));
  }

  /** Over every such run, swallowed exceptions included, the recorded times are at least an
      interval apart, provided the marker outlives an interval plus a lease. */
  lemma CyclesAreSpaced(c: Config, clock: real, steps: seq<Step>)
    requires MarkerOutlivesLease(c) && c.interval > 0.0
    requires TimelyRun(c, Start(clock), steps)
    ensures Spaced(Run(c, Start(clock), steps).recorded, c.interval)
  {
    SafeRun(c, Start(clock), steps);
  }

  // ----- Enqueued and recorded -----

  /** The step loses a marker: an exception strikes between the hand-over and the marker's write. */
  predicate Loses(s: State, step: Step) {
    step.Abort? && PhaseOf(s, step.w).Enqueued?
  }

  ghost predicate LossFree(c: Config, s: State, steps: seq<Step>)
    decreases |steps|
  {
    steps == [] || (!Loses(s, steps[0]) && LossFree(c, Next(c, s, steps[0]), steps[1..]))
  }

  /** Every enqueued cycle is recorded, but for the one whose worker is about to write the marker. */
  ghost predicate Paired(s: State) {
    && (forall w :: PhaseOf(s, w).Enqueued? ==> s.fired == s.recorded + [PhaseOf(s, w).now])
    && ((forall w :: !PhaseOf(s, w).Enqueued?) ==> s.fired == s.recorded)
  }

  lemma PairedStep(c: Config, s: State, step: Step)
    requires LockMatches(c, s) && Paired(s) && !Loses(s, step)
    ensures Paired(Next(c, s, step))
  {
    HoldersAreUnique(c, s);
    var s' := Next(c, s, step);
    if s' != s && !step.Tick? {
      var w := step.w;
      assert forall v | v != w :: PhaseOf(s', v) == PhaseOf(s, v);
      if Inside(PhaseOf(s, w)) {
        assert forall v | v != w :: !Inside(PhaseOf(s, v));
      }
      if step.Enqueue? {
        assert PhaseOf(s', w).Enqueued? && forall v :: !PhaseOf(s, v).Enqueued?;
      } else if !step.WriteMarker? {
        assert forall v :: PhaseOf(s', v).Enqueued? <==> PhaseOf(s, v).Enqueued?;
      }
    } else {
      assert forall v :: PhaseOf(s', v) == PhaseOf(s, v);
    }
  }

  lemma {:induction false} PairedRun(c: Config, s: State, steps: seq<Step>)
    requires LockMatches(c, s) && Paired(s) && TimelyRun(c, s, steps) && LossFree(c, s, steps)
    ensures Paired(Run(c, s, steps))
    decreases |steps|
  {
    if steps != [] {
      LockStep(c, s, steps[0]);
      PairedStep(c, s, steps[0]);
      hide Next, Paired, Timely, LockMatches;
      PairedRun(c, Next(c, s, steps[0]), steps[1..]);
    }
  }

  /** Over every timely run that loses no marker the enqueued times are spaced as well. */
  lemma EnqueuedAreSpaced(c: Config, clock: real, steps: seq<Step>)
    requires MarkerOutlivesLease(c) && c.interval > 0.0
    requires TimelyRun(c, Start(clock), steps) && LossFree(c, Start(clock), steps)
    ensures Spaced(Run(c, Start(clock), steps).fired, c.interval)
  {
    SafeRun(c, Start(clock), steps);
    PairedRun(c, Start(clock), steps);
    PairedIsSpaced(c, Run(c, Start(clock), steps));
  }

  lemma PairedIsSpaced(c: Config, s: State)
    requires Safe(c, s) && Paired(s) && c.interval > 0.0
    ensures Spaced(s.fired, c.interval)
  {
    if w :| PhaseOf(s, w).Enqueued? {
      assert PhaseSound(c, s, PhaseOf(s, w));
      SpacedExtension(s.recorded, PhaseOf(s, w).now, c.interval);
    }
  }

  // ----- The provisos are exact -----

  /** A worker enqueues, takes the lock again a little later, reads the clock, and is then slow
      enough within its lease for the marker to lapse before it looks. */
  function SlowReader(again: real, lapse: real): seq<Step> {
    [SetNx(0), ReadClock(0), ReadMarker(0), Enqueue(0), WriteMarker(0),
     Tick(again), SetNx(0), GetOwner(0), Expire(0), ReadClock(0),
     Tick(lapse), ReadMarker(0), Enqueue(0), WriteMarker(0)]
  }

  /** A worker hands a cycle over, loses the store before it can write the marker, and finds the
      cycle due again at its next poll. */
  function Forgetful(poll: real): seq<Step> {
    [SetNx(0), ReadClock(0), ReadMarker(0), Enqueue(0), Abort(0), Tick(poll),
     SetNx(0), GetOwner(0), Expire(0), ReadClock(0), ReadMarker(0), Enqueue(0)]
  }

  /** A time to take the lock again that leaves the lease alive when the marker lapses. */
  function Again(c: Config): real {
    if c.lockSeconds > c.markerSeconds then c.interval
    else c.interval + (c.markerSeconds - c.lockSeconds + c.interval) / 2.0
  }

  function Lapse(c: Config): real {
    c.interval + c.markerSeconds
  }

  ghost predicate Sensible(c: Config) {
    c.lockSeconds > 0.0 && 0.0 < c.interval <= c.markerSeconds
  }

  lemma StepAt(c: Config, s: State, steps: seq<Step>, k: nat)
    requires k < |steps|
    ensures Run(c, s, steps[k..]) == Run(c, Next(c, s, steps[k]), steps[k + 1..])
    ensures TimelyRun(c, s, steps[k..]) <==> Timely(c, s) && TimelyRun(c, Next(c, s, steps[k]), steps[k + 1..])
  {
    assert steps[k..][1..] == steps[k + 1..];
  }

  ghost predicate Alone(s: State) {
    forall w | w != 0 :: PhaseOf(s, w).Idle?
  }

  predicate ByZero(step: Step) {
    step.Tick? || step.w == 0
  }

  /** A state with worker 0 alone is timely if worker 0 is. */
  lemma AloneIsTimely(c: Config, s: State)
    requires Alone(s)
    requires Inside(PhaseOf(s, 0)) ==> s.clock < PhaseOf(s, 0).start + c.lockSeconds
    requires PhaseOf(s, 0).Renewing? ==> s.clock < PhaseOf(s, 0).deadline
    ensures Timely(c, s)
  {
    forall w
      ensures Inside(PhaseOf(s, w)) ==> s.clock < PhaseOf(s, w).start + c.lockSeconds
      ensures PhaseOf(s, w).Renewing? ==> s.clock < PhaseOf(s, w).deadline
    {
      assert w == 0 || PhaseOf(s, w).Idle?;
    }
  }

  /** A run of worker 0 alone can be followed step by step. */
  lemma AloneStep(c: Config, s: State, steps: seq<Step>, k: nat) returns (next: State)
    requires k < |steps| && ByZero(steps[k]) && Alone(s)
    requires Inside(PhaseOf(s, 0)) ==> s.clock < PhaseOf(s, 0).start + c.lockSeconds
    requires PhaseOf(s, 0).Renewing? ==> s.clock < PhaseOf(s, 0).deadline
    ensures next == Next(c, s, steps[k]) && Alone(next)
    ensures Run(c, s, steps[k..]) == Run(c, next, steps[k + 1..])
    ensures TimelyRun(c, s, steps[k..]) <==> TimelyRun(c, next, steps[k + 1..])
  {
    next := Next(c, s, steps[k]);
    forall w | w != 0 ensures PhaseOf(next, w).Idle? {
      assert PhaseOf(s, w).Idle?;
    }
    AloneIsTimely(c, s);
    StepAt(c, s, steps, k);
  }

  /** Where worker 0 and the store stand. */
  ghost predicate Stands(s: State, clock: real, lock: Option<Lock>, marker: Option<Marker>, phase: Phase,
                         fired: seq<real>, recorded: seq<real>)
  {
    && s.clock == clock && s.lock == lock && s.marker == marker && s.fired == fired && s.recorded == recorded
    && PhaseOf(s, 0) == phase && Alone(s)
  }

  lemma FirstCheck(c: Config, steps: seq<Step>) returns (s: State)
    requires Sensible(c) && |steps| >= 3
    requires steps[0] == SetNx(0) && steps[1] == ReadClock(0) && steps[2] == ReadMarker(0)
    ensures Stands(s, c.interval, Some(Lock(0, c.interval + c.lockSeconds)), None, Due(c.interval, c.interval), [], [])
    ensures Run(c, Start(c.interval), steps) == Run(c, s, steps[3..])
    ensures TimelyRun(c, s, steps[3..]) ==> TimelyRun(c, Start(c.interval), steps)
  {
    assert steps[0..] == steps;
    hide Run, TimelyRun, Alone;
    assert Alone(Start(c.interval)) by { StartIsAlone(c.interval); }
    var s1 := AloneStep(c, Start(c.interval), steps, 0);
    var s2 := AloneStep(c, s1, steps, 1);
    s := AloneStep(c, s2, steps, 2);
  }

  lemma FirstRound(c: Config, steps: seq<Step>) returns (s: State)
    requires Sensible(c) && |steps| >= 5
    requires steps[0] == SetNx(0) && steps[1] == ReadClock(0) && steps[2] == ReadMarker(0)
    requires steps[3] == Enqueue(0) && (steps[4] == WriteMarker(0) || steps[4] == Abort(0))
    ensures var marker := Some(Marker(c.interval, c.interval + c.markerSeconds));
            Stands(s, c.interval, Some(Lock(0, c.interval + c.lockSeconds)),
                   if steps[4].Abort? then None else marker, Idle, [c.interval],
                   if steps[4].Abort? then [] else [c.interval])
    ensures Run(c, Start(c.interval), steps) == Run(c, s, steps[5..])
    ensures TimelyRun(c, s, steps[5..]) ==> TimelyRun(c, Start(c.interval), steps)
  {
    hide Run, TimelyRun, Alone;
    var s3 := FirstCheck(c, steps);
    var s4 := AloneStep(c, s3, steps, 3);
    s := AloneStep(c, s4, steps, 4);
  }

  lemma StartIsAlone(clock: real)
    ensures Alone(Start(clock))
  {
  }

  /** The lock is taken again, by renewal or, if it has lapsed, anew. */
  lemma SecondAcquire(c: Config, steps: seq<Step>, s: State) returns (r: State)
    requires Sensible(c) && !MarkerOutlivesLease(c) && |steps| == 14
    requires steps[5] == Tick(Again(c)) && steps[6] == SetNx(0) && steps[7] == GetOwner(0) && steps[8] == Expire(0)
    requires Stands(s, c.interval, Some(Lock(0, c.interval + c.lockSeconds)),
                    Some(Marker(c.interval, c.interval + c.markerSeconds)), Idle, [c.interval], [c.interval])
    ensures Stands(r, Again(c), Some(Lock(0, Again(c) + c.lockSeconds)),
                   Some(Marker(c.interval, c.interval + c.markerSeconds)), Holding(Again(c)), [c.interval], [c.interval])
    ensures Run(c, s, steps[5..]) == Run(c, r, steps[9..])
    ensures TimelyRun(c, r, steps[9..]) ==> TimelyRun(c, s, steps[5..])
  {
    hide Run, TimelyRun, Alone;
    var s6 := AloneStep(c, s, steps, 5);
    var s7 := AloneStep(c, s6, steps, 6);
    var s8 := AloneStep(c, s7, steps, 7);
    r := AloneStep(c, s8, steps, 8);
  }

  lemma SlowRead(c: Config, steps: seq<Step>, s: State)
    requires Sensible(c) && !MarkerOutlivesLease(c) && |steps| == 14
    requires steps[9] == ReadClock(0) && steps[10] == Tick(Lapse(c))
    requires steps[11] == ReadMarker(0) && steps[12] == Enqueue(0) && steps[13] == WriteMarker(0)
    requires Stands(s, Again(c), Some(Lock(0, Again(c) + c.lockSeconds)),
                    Some(Marker(c.interval, c.interval + c.markerSeconds)), Holding(Again(c)), [c.interval], [c.interval])
    ensures TimelyRun(c, s, steps[9..])
    ensures Run(c, s, steps[9..]).fired == Run(c, s, steps[9..]).recorded == [c.interval, Again(c)]
  {
    hide Timely, Alone;
    var s10 := AloneStep(c, s, steps, 9);
    var s11 := AloneStep(c, s10, steps, 10);
    assert PhaseOf(s11, 0) == ClockRead(Again(c), Again(c)) && s11.clock == Lapse(c);
    var s12 := AloneStep(c, s11, steps, 11);
    var s13 := AloneStep(c, s12, steps, 12);
    var s14 := AloneStep(c, s13, steps, 13);
    assert steps[14..] == [];
    AloneIsTimely(c, s14);
  }

  /** With a marker that lapses too soon, a timely worker enqueues and records twice within an
      interval. */
  lemma ShortMarkerMisfires(c: Config)
    requires Sensible(c) && !MarkerOutlivesLease(c)
    ensures var steps := SlowReader(Again(c), Lapse(c));
            && TimelyRun(c, Start(c.interval), steps)
            && !Spaced(Run(c, Start(c.interval), steps).recorded, c.interval)
            && !Spaced(Run(c, Start(c.interval), steps).fired, c.interval)
  {
    var steps := SlowReader(Again(c), Lapse(c));
    hide Run, TimelyRun;
    var s := FirstRound(c, steps);
    var r := SecondAcquire(c, steps, s);
    SlowRead(c, steps, r);
    var fired := Run(c, Start(c.interval), steps).fired;
    assert fired[1] - fired[0] < c.interval;
  }

  lemma SecondPoll(c: Config, steps: seq<Step>, s: State, poll: real) returns (r: State)
    requires Sensible(c) && c.interval <= poll && |steps| == 12
    requires steps[5] == Tick(poll) && steps[6] == SetNx(0) && steps[7] == GetOwner(0) && steps[8] == Expire(0)
    requires Stands(s, c.interval, Some(Lock(0, c.interval + c.lockSeconds)), None, Idle, [c.interval], [])
    ensures Stands(r, poll, Some(Lock(0, poll + c.lockSeconds)), None, Holding(poll), [c.interval], [])
    ensures Run(c, s, steps[5..]) == Run(c, r, steps[9..])
    ensures TimelyRun(c, r, steps[9..]) ==> TimelyRun(c, s, steps[5..])
  {
    hide Run, TimelyRun, Alone;
    var s6 := AloneStep(c, s, steps, 5);
    var s7 := AloneStep(c, s6, steps, 6);
    var s8 := AloneStep(c, s7, steps, 7);
    r := AloneStep(c, s8, steps, 8);
  }

  lemma SecondHandOver(c: Config, steps: seq<Step>, s: State, poll: real)
    requires Sensible(c) && c.interval <= poll && |steps| == 12
    requires steps[9] == ReadClock(0) && steps[10] == ReadMarker(0) && steps[11] == Enqueue(0)
    requires Stands(s, poll, Some(Lock(0, poll + c.lockSeconds)), None, Holding(poll), [c.interval], [])
    ensures TimelyRun(c, s, steps[9..])
    ensures Run(c, s, steps[9..]).fired == [c.interval, poll]
  {
    hide Timely, Alone;
    var s10 := AloneStep(c, s, steps, 9);
    var s11 := AloneStep(c, s10, steps, 10);
    var s12 := AloneStep(c, s11, steps, 11);
    assert steps[12..] == [];
    AloneIsTimely(c, s12);
  }

  /** With a lost marker, however long markers live, a timely worker enqueues again at its next poll,
      whenever within the interval that is. */
  lemma LostMarkerMisfires(c: Config, poll: real)
    requires Sensible(c) && c.interval <= poll < 2.0 * c.interval
    ensures TimelyRun(c, Start(c.interval), Forgetful(poll))
    ensures Run(c, Start(c.interval), Forgetful(poll)).fired == [c.interval, poll]
    ensures !Spaced(Run(c, Start(c.interval), Forgetful(poll)).fired, c.interval)
  {
    var steps := Forgetful(poll);
    hide Run, TimelyRun;
    var s := FirstRound(c, steps);
    var r := SecondPoll(c, steps, s, poll);
    SecondHandOver(c, steps, r, poll);
    var fired := Run(c, Start(c.interval), steps).fired;
    assert fired[1] - fired[0] < c.interval;
  }

  /** Over all timely runs, swallowed exceptions included, the recorded times are spaced exactly when
      the marker outlives an interval and a whole lease. */
  lemma ProvisoIsExact(c: Config)
    requires Sensible(c)
    ensures MarkerOutlivesLease(c)
            <==> forall clock, steps :: TimelyRun(c, Start(clock), steps) ==> Spaced(Run(c, Start(clock), steps).recorded, c.interval)
  {
    hide Run, TimelyRun, Spaced, SlowReader;
    if MarkerOutlivesLease(c) {
      forall clock, steps | TimelyRun(c, Start(clock), steps)
        ensures Spaced(Run(c, Start(clock), steps).recorded, c.interval)
      {
        CyclesAreSpaced(c, clock, steps);
      }
    } else {
      ShortMarkerMisfires(c);
    }
  }

  lemma {:induction false} NoAbortNoLoss(c: Config, s: State, steps: seq<Step>)
    requires forall k | 0 <= k < |steps| :: !steps[k].Abort?
    ensures LossFree(c, s, steps)
    decreases |steps|
  {
    if steps != [] {
      NoAbortNoLoss(c, Next(c, s, steps[0]), steps[1..]);
    }
  }

  /** The runs in which spacing is asked for: all timely ones, or only those that lose no marker. */
  ghost predicate Admitted(c: Config, clock: real, steps: seq<Step>, losses: bool) {
    TimelyRun(c, Start(clock), steps) && (losses || LossFree(c, Start(clock), steps))
  }

  /** Over all timely runs the enqueued times are spaced exactly when the marker outlives an interval
      and a lease and no exception strikes between the hand-over and the marker's write. */
  lemma LossesAreExact(c: Config, losses: bool)
    requires Sensible(c)
    ensures MarkerOutlivesLease(c) && !losses
            <==> forall clock, steps :: Admitted(c, clock, steps, losses) ==> Spaced(Run(c, Start(clock), steps).fired, c.interval)
  {
    hide Run, TimelyRun, Spaced, SlowReader, Forgetful;
    if losses {
      var poll := c.interval * 1.5;
      LostMarkerMisfires(c, poll);
      assert Admitted(c, c.interval, Forgetful(poll), losses);
    } else if MarkerOutlivesLease(c) {
      forall clock, steps | Admitted(c, clock, steps, losses)
        ensures Spaced(Run(c, Start(clock), steps).fired, c.interval)
      {
        EnqueuedAreSpaced(c, clock, steps);
      }
    } else {
      ShortMarkerMisfires(c);
      SlowReaderLosesNothing(c);
      assert Admitted(c, c.interval, SlowReader(Again(c), Lapse(c)), losses);
    }
  }

  lemma SlowReaderLosesNothing(c: Config)
    ensures LossFree(c, Start(c.interval), SlowReader(Again(c), Lapse(c)))
  {
    hide LossFree;
    NoAbortNoLoss(c, Start(c.interval), SlowReader(Again(c), Lapse(c)));
  }

  // ----- The service's own settings -----

  /** Lock seconds have a floor of 30, intervals one of a minute; the marker lives for eight
      intervals and at least an hour. */
  function Configured(intervalMinutes: nat, lockSeconds: nat): Config {
    var interval := Max(intervalMinutes, 1) * 60;
    Config(Max(lockSeconds, 30) as real, interval as real, Max(interval * 8, 3600) as real)
  }

  /** For the configured scheduler the proviso says that the lock is not longer than seven
      intervals, or than an hour less one interval; the defaults of 30 minutes and 90 seconds
      meet it. */
  lemma ConfiguredProviso(intervalMinutes: nat, lockSeconds: nat)
    ensures var c := Configured(intervalMinutes, lockSeconds);
            && c.lockSeconds == (if lockSeconds < 30 then 30 else lockSeconds) as real
            && c.interval == (if intervalMinutes == 0 then 60 else 60 * intervalMinutes) as real
            && c.markerSeconds == (if intervalMinutes <= 7 then 3600 else 480 * intervalMinutes) as real
    ensures var interval := Max(intervalMinutes, 1) * 60;
            && Sensible(Configured(intervalMinutes, lockSeconds))
            && (MarkerOutlivesLease(Configured(intervalMinutes, lockSeconds))
                <==> Max(lockSeconds, 30) <= 7 * interval || Max(lockSeconds, 30) + interval <= 3600)
    ensures MarkerOutlivesLease(Configured(30, 90))
  {
  }
}
