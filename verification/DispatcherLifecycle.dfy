/**
 Start, Stop, the wake-up channel and the worker goroutine of the dispatcher,
 as steps that any number of goroutines may interleave.
 */
module DispatcherLifecycle {

  /** `startOnce`: unused, held by the body of Start, or spent. */
  datatype Once = Free | InStart | Spent

  datatype StartAt = StartNotCalled | Entered | MarkedStarted | Subscribed | Spawned

  datatype StopAt = StopNotCalled | WantsOnce | HasOnce | Unsubscribed | ClosedStop | AwaitsWorker | Returned

  /** A worker goroutine: at its select, in the coalescing window, reloading, or gone. */
  datatype WorkerAt = Selecting | InWindow | Reloading | Exited

  /**
   `queued` says that events or a resync wait, `wake` that the one-slot channel
   is full, `unsignalled` counts Enqueue calls past their critical section.
   */
  datatype State = State(once: Once, start: StartAt, stop: StopAt, started: bool, stopClosed: bool,
                         workers: seq<WorkerAt>, queued: bool, wake: bool, unsignalled: nat)

  const INITIAL := State(Free, StartNotCalled, StopNotCalled, false, false, [], false, false, 0)

  datatype Step =
    | StartEnters | StartMarks | StartSubscribes | StartSpawns
    | StopEnters | StopTakesOnce | StopUnsubscribes | StopCloses | StopReads | StopSeesDone
    | Enqueue | Signal
    | WorkerWakes(w: nat) | WorkerStops(w: nat) | WorkerDrains(w: nat) | WorkerFinishes(w: nat)

  predicate At(s: State, w: nat, pc: WorkerAt) { w < |s.workers| && s.workers[w] == pc }

  predicate Enabled(s: State, step: Step) {
    match step
    case StartEnters => s.once == Free
    case StartMarks => s.start == Entered
    case StartSubscribes => s.start == MarkedStarted
    case StartSpawns => s.start == Subscribed
    case StopEnters => s.stop == StopNotCalled
    case StopTakesOnce => s.stop == WantsOnce && s.once != InStart
    case StopUnsubscribes => s.stop == HasOnce
    case StopCloses => s.stop == Unsubscribed
    case StopReads => s.stop == ClosedStop
    case StopSeesDone => s.stop == AwaitsWorker && At(s, 0, Exited)
    case Enqueue => true
    case Signal => s.unsignalled > 0
    case WorkerWakes(w) => At(s, w, Selecting) && s.wake
    case WorkerStops(w) => (At(s, w, Selecting) || At(s, w, InWindow)) && s.stopClosed
    case WorkerDrains(w) => At(s, w, InWindow)
    case WorkerFinishes(w) => At(s, w, Reloading)
  }

  function Next(s: State, step: Step): State
    requires Enabled(s, step)
  {
    match step
    case StartEnters => s.(once := InStart, start := Entered)
    case StartMarks => s.(start := MarkedStarted, started := true)
    case StartSubscribes => s.(start := Subscribed)
    case StartSpawns => s.(start := Spawned, once := Spent, workers := s.workers + [Selecting])
    case StopEnters => s.(stop := WantsOnce)
    case StopTakesOnce => s.(stop := HasOnce, once := Spent)
    case StopUnsubscribes => s.(stop := Unsubscribed)
    case StopCloses => s.(stop := ClosedStop, stopClosed := true)
    case StopReads => s.(stop := if s.started then AwaitsWorker else Returned)
    case StopSeesDone => s.(stop := Returned)
    case Enqueue => s.(queued := true, unsignalled := s.unsignalled + 1)
    case Signal => s.(wake := true, unsignalled := s.unsignalled - 1)
    case WorkerWakes(w) => s.(wake := false, workers := s.workers[w := InWindow])
    case WorkerStops(w) => s.(workers := s.workers[w := Exited])
    case WorkerDrains(w) => s.(queued := false, workers := s.workers[w := Reloading])
    case WorkerFinishes(w) => s.(workers := s.workers[w := Selecting])
  }

  /** Start's body runs at most once, holds the once while it runs, and is the only spawner. */
  ghost predicate Owned(s: State) {
    && (s.once == Free ==> s.start == StartNotCalled)
    && (s.once == InStart <==> s.start in {Entered, MarkedStarted, Subscribed})
    && |s.workers| == (if s.start == Spawned then 1 else 0)
    && (s.started <==> s.start in {MarkedStarted, Subscribed, Spawned})
    && (s.stop in {HasOnce, Unsubscribed, ClosedStop, AwaitsWorker, Returned} ==> s.once == Spent)
    && (s.stop == AwaitsWorker ==> s.start == Spawned)
    && (s.stop == Returned ==> forall w :: 0 <= w < |s.workers| ==> s.workers[w] == Exited)
    && (s.stopClosed <==> s.stop in {ClosedStop, AwaitsWorker, Returned})
    && (forall w :: 0 <= w < |s.workers| && s.workers[w] == Exited ==> s.stopClosed)
  }

  /** Waiting events keep the worker coming: a signal is stored, under way, or just taken. */
  ghost predicate WillBeDrained(s: State) {
    s.queued ==> s.wake || s.unsignalled > 0 || At(s, 0, InWindow) || At(s, 0, Exited)
  }

  ghost predicate Inv(s: State) { Owned(s) && WillBeDrained(s) }

  lemma StepKeepsInv(s: State, step: Step)
    requires Inv(s) && Enabled(s, step)
    ensures Inv(Next(s, step))
  {
    var t := Next(s, step);
    if step.WorkerWakes? || step.WorkerStops? || step.WorkerDrains? || step.WorkerFinishes? {
      assert step.w == 0 && |t.workers| == 1;
    }
  }

  ghost predicate ValidRun(s: State, steps: seq<Step>)
    decreases |steps|
  {
    steps == [] || (Enabled(s, steps[0]) && ValidRun(Next(s, steps[0]), steps[1..]))
  }

  ghost function Run(s: State, steps: seq<Step>): State
    requires ValidRun(s, steps)
    decreases |steps|
  {
    if steps == [] then s else Run(Next(s, steps[0]), steps[1..])
  }

  lemma {:induction false} RunsKeepInv(s: State, steps: seq<Step>)
    requires Inv(s) && ValidRun(s, steps)
    ensures Inv(Run(s, steps))
    decreases |steps|
  {
    if steps != [] {
      StepKeepsInv(s, steps[0]);
      RunsKeepInv(Next(s, steps[0]), steps[1..]);
    }
  }

  /** Reloads never overlap: in every run at most one worker exists, hence at most one is reloading. */
  lemma ReloadsNeverOverlap(steps: seq<Step>, v: nat, w: nat)
    requires ValidRun(INITIAL, steps)
    requires At(Run(INITIAL, steps), v, Reloading) && At(Run(INITIAL, steps), w, Reloading)
    ensures v == w
  {
    RunsKeepInv(INITIAL, steps);
  }

  /**
   No lost wake-up: in every run, when events wait and no Enqueue is about to
   signal, a running worker that is not already on its way to the queue can take
   the wake-up.
   */
  lemma NoLostWakeup(steps: seq<Step>)
    requires ValidRun(INITIAL, steps)
    ensures var s := Run(INITIAL, steps);
            s.queued && s.unsignalled == 0 && At(s, 0, Selecting) ==> Enabled(s, WorkerWakes(0))
  {
    RunsKeepInv(INITIAL, steps);
  }

  /** Once Stop has returned it stays returned and no worker runs again. */
  lemma {:induction false} NothingRunsAfterStop(s: State, steps: seq<Step>)
    requires Inv(s) && s.stop == Returned && ValidRun(s, steps)
    ensures Run(s, steps).stop == Returned && Inv(Run(s, steps))
    ensures forall i :: 0 <= i < |steps| ==> !steps[i].WorkerDrains? && !steps[i].StartSpawns?
    decreases |steps|
  {
    if steps != [] {
      StepKeepsInv(s, steps[0]);
      NothingRunsAfterStop(Next(s, steps[0]), steps[1..]);
    }
  }

  /** Whatever raced with it, after Stop returns no reload starts and none is running. */
  lemma StopIsFinal(before: seq<Step>, after: seq<Step>)
    requires ValidRun(INITIAL, before) && Run(INITIAL, before).stop == Returned
    requires ValidRun(Run(INITIAL, before), after)
    ensures forall i :: 0 <= i < |after| ==> !after[i].WorkerDrains?
    ensures forall w :: !At(Run(Run(INITIAL, before), after), w, Reloading)
  {
    RunsKeepInv(INITIAL, before);
    NothingRunsAfterStop(Run(INITIAL, before), after);
  }

  // ---------------------------------------------------------------------------
  // Nothing gets stuck
  // ---------------------------------------------------------------------------

  lemma {:induction false} RunConcat(s: State, a: seq<Step>, b: seq<Step>)
    requires ValidRun(s, a) && ValidRun(Run(s, a), b)
    ensures ValidRun(s, a + b) && Run(s, a + b) == Run(Run(s, a), b)
    decreases |a|
  {
    if a == [] {
      assert a + b == b;
    } else {
      RunConcat(Next(s, a[0]), a[1..], b);
      assert (a + b)[1..] == a[1..] + b;
    }
  }

  lemma First(s: State, step: Step, rest: seq<Step>)
    requires Enabled(s, step) && ValidRun(Next(s, step), rest)
    ensures ValidRun(s, [step] + rest) && Run(s, [step] + rest) == Run(Next(s, step), rest)
  {
    assert ([step] + rest)[1..] == rest;
  }

  /** A step of the worker, or the signal an Enqueue owes. */
  predicate ByWorker(step: Step) {
    step.Signal? || step.WorkerWakes? || step.WorkerDrains? || step.WorkerFinishes?
  }

  /** The worker exits only when Stop has closed its channel. */
  lemma ExitMeansStopped(steps: seq<Step>, w: nat)
    requires ValidRun(INITIAL, steps) && At(Run(INITIAL, steps), w, Exited)
    ensures Run(INITIAL, steps).stopClosed
  {
    RunsKeepInv(INITIAL, steps);
  }

  /** Start launches one worker, which waits at its select. */
  lemma StartLaunches(s: State)
    requires Inv(s) && s.once == Free
    ensures var steps := [StartEnters, StartMarks, StartSubscribes, StartSpawns];
            ValidRun(s, steps) && Run(s, steps).workers == [Selecting] && Run(s, steps).started
  {
    var s1 := Next(s, StartEnters);
    var s2 := Next(s1, StartMarks);
    var s3 := Next(s2, StartSubscribes);
    First(s3, StartSpawns, []);
    First(s2, StartSubscribes, [StartSpawns]);
    First(s1, StartMarks, [StartSubscribes] + [StartSpawns]);
    First(s, StartEnters, [StartMarks] + ([StartSubscribes] + [StartSpawns]));
    assert [StartEnters] + ([StartMarks] + ([StartSubscribes] + [StartSpawns]))
        == [StartEnters, StartMarks, StartSubscribes, StartSpawns];
  }

  /**
   Waiting events are reloaded: whenever events wait, the dispatcher has started
   and Stop has not closed its channel, steps of the worker and owed signals lead
   to a drain of the queue.
   */
  lemma WaitingEventsAreDrained(s: State) returns (steps: seq<Step>)
    requires Inv(s) && s.queued && s.start == Spawned && !s.stopClosed
    ensures ValidRun(s, steps + [WorkerDrains(0)]) && forall i :: 0 <= i < |steps| ==> ByWorker(steps[i])
    ensures !Run(s, steps + [WorkerDrains(0)]).queued && At(Run(s, steps + [WorkerDrains(0)]), 0, Reloading)
    decreases if At(s, 0, InWindow) then 0 else if At(s, 0, Selecting) && s.wake then 1
              else if At(s, 0, Selecting) then 2 else 3
  {
    if At(s, 0, InWindow) {
      steps := [];
      First(s, WorkerDrains(0), []);
      assert [] + [WorkerDrains(0)] == [WorkerDrains(0)] + [];
    } else {
      var step := if At(s, 0, Reloading) then WorkerFinishes(0) else if s.wake then WorkerWakes(0) else Signal;
      StepKeepsInv(s, step);
      var rest := WaitingEventsAreDrained(Next(s, step));
      First(s, step, rest + [WorkerDrains(0)]);
      steps := [step] + rest;
      assert [step] + (rest + [WorkerDrains(0)]) == steps + [WorkerDrains(0)];
    }
  }

  /** Every Enqueue on a started dispatcher is followed, by the worker's steps, by a drain. */
  lemma EnqueuedIsDrained(before: seq<Step>) returns (steps: seq<Step>)
    requires ValidRun(INITIAL, before)
    requires Run(INITIAL, before).start == Spawned && !Run(INITIAL, before).stopClosed
    ensures ValidRun(Next(Run(INITIAL, before), Enqueue), steps + [WorkerDrains(0)])
    ensures Next(Run(INITIAL, before), Enqueue).queued && forall i :: 0 <= i < |steps| ==> ByWorker(steps[i])
  {
    RunsKeepInv(INITIAL, before);
    var s := Next(Run(INITIAL, before), Enqueue);
    StepKeepsInv(Run(INITIAL, before), Enqueue);
    steps := WaitingEventsAreDrained(s);
  }

  /** Nothing is left over: without further events the worker comes to rest with an empty queue and wake slot. */
  lemma {:induction false} WorkerComesToRest(s: State) returns (steps: seq<Step>)
    requires Inv(s) && s.start == Spawned && !s.stopClosed
    ensures ValidRun(s, steps) && forall i :: 0 <= i < |steps| ==> ByWorker(steps[i])
    ensures var t := Run(s, steps); At(t, 0, Selecting) && !t.queued && !t.wake && t.unsignalled == 0
    decreases s.unsignalled, s.wake,
              if At(s, 0, InWindow) then 2 else if At(s, 0, Reloading) then 1 else 0
  {
    if s.unsignalled == 0 && !s.wake && At(s, 0, Selecting) {
      steps := [];
    } else {
      var step := if s.unsignalled > 0 then Signal
                  else if At(s, 0, Reloading) then WorkerFinishes(0)
                  else if At(s, 0, InWindow) then WorkerDrains(0)
                  else WorkerWakes(0);
      StepKeepsInv(s, step);
      var rest := WorkerComesToRest(Next(s, step));
      First(s, step, rest);
      steps := [step] + rest;
    }
  }

  /** A step of Stop, of the worker, or of a Start that is already under way. */
  predicate TowardsStop(step: Step) {
    || step in {StopTakesOnce, StopUnsubscribes, StopCloses, StopReads, StopSeesDone}
    || step in {StartMarks, StartSubscribes, StartSpawns}
    || step.WorkerStops? || step.WorkerFinishes?
  }

  function StepsToReturn(s: State): nat {
    (match s.stop
     case StopNotCalled => 7 case WantsOnce => 6 case HasOnce => 5 case Unsubscribed => 4
     case ClosedStop => 3 case AwaitsWorker => 2 case Returned => 0)
  }

  function StepsToSpawn(s: State): nat {
    match s.start
    case Entered => 3 case MarkedStarted => 2 case Subscribed => 1 case _ => 0
  }

  function StepsToExit(s: State): nat {
    if At(s, 0, Reloading) then 2 else if At(s, 0, Exited) then 0 else 1
  }

  function NextTowardsReturn(s: State): Step {
    match s.stop
    case WantsOnce =>
      if s.once != InStart then StopTakesOnce
      else if s.start == Entered then StartMarks
      else if s.start == MarkedStarted then StartSubscribes
      else StartSpawns
    case HasOnce => StopUnsubscribes
    case Unsubscribed => StopCloses
    case ClosedStop => StopReads
    case _ =>
      if At(s, 0, Exited) then StopSeesDone
      else if At(s, 0, Reloading) then WorkerFinishes(0)
      else WorkerStops(0)
  }

  /** Stop does not hang: once called it can always return, waiting only for the reload in progress. */
  lemma {:induction false} StopCanReturn(s: State) returns (steps: seq<Step>)
    requires Inv(s) && s.stop != StopNotCalled
    ensures ValidRun(s, steps) && Run(s, steps).stop == Returned
    ensures forall i :: 0 <= i < |steps| ==> TowardsStop(steps[i])
    decreases StepsToReturn(s), StepsToSpawn(s), StepsToExit(s)
  {
    if s.stop == Returned {
      steps := [];
    } else {
      var step := NextTowardsReturn(s);
      StepKeepsInv(s, step);
      var rest := StopCanReturn(Next(s, step));
      First(s, step, rest);
      steps := [step] + rest;
    }
  }
}
