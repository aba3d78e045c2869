/** One service record under a controller, whose start and stop calls come one after
    the other, and the worker threads those calls create.  Every read or write of the
    shared state, and every published event, is a step of its own. */
module ServiceLifecycle {

  datatype ServiceState = Registered | Starting | Running | Stopping | Stopped

  /** Where a worker thread stands: made but not launched; about to write RUNNING;
      about to publish SERVICE_STARTED; in the entrypoint; about to write STOPPED; about
      to publish SERVICE_STOPPED; finished. */
  datatype Worker = Created | Launched | Announcing | Executing | Ending | Reporting | Finished

  /** Where the controller stands inside `start` or `stop`. */
  datatype Controller =
    | Idle
    | StartAccepted | StartMarked | ThreadMade
    | StopAccepted | StopMarked | StopJoined | StopWritten

  /** `workers`: one per accepted start, oldest first; the last is `record.thread`.
      `started` and `stopped` count, per start, the events its worker published, and
      `stoppedByStop` those a stop call published. */
  datatype State = State(state: ServiceState, controller: Controller, workers: seq<Worker>,
                         started: seq<nat>, stopped: seq<nat>, stoppedByStop: seq<nat>)

  function Init(): State {
    State(Registered, Idle, [], [], [], [])
  }

  datatype Step =
    | AcceptStart | RejectStart | MarkStarting | MakeThread | LaunchThread
    | AcceptStop | RejectStop | MarkStopping | Join | MarkStopped | PublishStopped
    | Advance(g: nat)

  predicate Enabled(s: State, step: Step) {
    match step
    case AcceptStart => s.controller == Idle && s.state in {Registered, Stopped}
    case RejectStart => s.controller == Idle && s.state !in {Registered, Stopped}
    case MarkStarting => s.controller == StartAccepted
    case MakeThread => s.controller == StartMarked
    case LaunchThread => s.controller == ThreadMade && s.workers != []
    case AcceptStop => s.controller == Idle && s.state == Running
    case RejectStop => s.controller == Idle && s.state != Running
    case MarkStopping => s.controller == StopAccepted
    // join waits for the thread for as long as it takes
    case Join => s.controller == StopMarked && (s.workers == [] || s.workers[|s.workers| - 1] == Finished)
    case MarkStopped => s.controller == StopJoined
    case PublishStopped => s.controller == StopWritten && |s.stoppedByStop| == |s.workers| > 0
    case Advance(g) =>
      && g < |s.workers| == |s.started| == |s.stopped|
      && s.workers[g] != Created && s.workers[g] != Finished
  }

  function Apply(s: State, step: Step): State
    requires Enabled(s, step)
  {
    var last := |s.workers| - 1;
    match step
    case AcceptStart => s.(controller := StartAccepted)
    case RejectStart => s
    case MarkStarting => s.(state := Starting, controller := StartMarked)
    case MakeThread =>
      s.(workers := s.workers + [Created], controller := ThreadMade, started := s.started + [0],
      stopped := s.stopped + [0], stoppedByStop := s.stoppedByStop + [0])
    case LaunchThread => s.(workers := s.workers[last := Launched], controller := Idle)
    case AcceptStop => s.(controller := StopAccepted)
    case RejectStop => s
    case MarkStopping => s.(state := Stopping, controller := StopMarked)
    case Join => s.(controller := StopJoined)
    case MarkStopped => s.(state := Stopped, controller := StopWritten)
    case PublishStopped =>
      s.(stoppedByStop := s.stoppedByStop[last := s.stoppedByStop[last] + 1], controller := Idle)
    case Advance(g) => AdvanceWorker(s, g)
  }

  /** The next step of worker g, `_run` line by line. */
  function AdvanceWorker(s: State, g: nat): State
    requires Enabled(s, Advance(g))
  {
    match s.workers[g]
    case Launched => s.(workers := s.workers[g := Announcing], state := Running)
    case Announcing => s.(workers := s.workers[g := Executing], started := s.started[g := s.started[g] + 1])
    case Executing => s.(workers := s.workers[g := Ending])
    case Ending => s.(workers := s.workers[g := Reporting], state := Stopped)
    case Reporting => s.(workers := s.workers[g := Finished], stopped := s.stopped[g := s.stopped[g] + 1])
    case _ => s
  }

  ghost predicate Run(s: State, steps: seq<Step>, s': State)
    decreases |steps|
  {
    if steps == [] then s == s'
    else Enabled(s, steps[0]) && Run(Apply(s, steps[0]), steps[1..], s')
  }

  /** The worker will still write the record's state. */
  predicate WillWrite(w: Worker) {
    w != Reporting && w != Finished
  }

  /** What the last worker is doing, by the record's state and the controller. */
  predicate Consistent(state: ServiceState, controller: Controller, last: Worker) {
    match state
    case Registered => false
    case Starting =>
      || (controller == StartMarked && !WillWrite(last))
      || (controller == ThreadMade && last == Created)
      || (controller == Idle && last == Launched)
    case Running => controller in {Idle, StopAccepted} && last in {Announcing, Executing, Ending}
    case Stopping =>
      || (controller == StopMarked && last !in {Created, Launched})
      || (controller == StopJoined && last == Finished)
    case Stopped =>
      || (controller in {Idle, StartAccepted, StopAccepted, StopMarked} && !WillWrite(last))
      || (controller in {StopJoined, StopWritten} && last == Finished)
  }

  predicate Counted(w: Worker, started: nat, stopped: nat, byStop: nat) {
    && started == (if w in {Created, Launched, Announcing} then 0 else 1)
    && stopped == (if w == Finished then 1 else 0)
    && byStop <= 1
    && (byStop == 1 ==> w == Finished)
  }

  ghost predicate Inv(s: State) {
    var n := |s.workers|;
    && |s.started| == |s.stopped| == |s.stoppedByStop| == n
    && (n == 0 ==> || (s.state == Registered && s.controller in {Idle, StartAccepted})
                   || (s.state == Starting && s.controller == StartMarked))
    && (n > 0 ==> Consistent(s.state, s.controller, s.workers[n - 1]))
    && (forall g :: 0 <= g < n - 1 ==> !WillWrite(s.workers[g]))
    && (forall g :: 0 <= g < n ==> Counted(s.workers[g], s.started[g], s.stopped[g], s.stoppedByStop[g]))
    && (n > 0 && s.controller in {StopAccepted, StopMarked, StopJoined, StopWritten} ==> s.stoppedByStop[n - 1] == 0)
  }

  lemma WorkerKeepsInv(s: State, g: nat)
    requires Inv(s) && Enabled(s, Advance(g))
    ensures Inv(Apply(s, Advance(g)))
  {
  }

  lemma ControllerKeepsInv(s: State, step: Step)
    requires Inv(s) && Enabled(s, step) && !step.Advance?
    ensures Inv(Apply(s, step))
  {
  }

  lemma {:induction false} RunKeepsInv(s: State, steps: seq<Step>, s': State)
    requires Inv(s) && Run(s, steps, s')
    ensures Inv(s')
    decreases |steps|
  {
    if steps != [] {
      if steps[0].Advance? {
        WorkerKeepsInv(s, steps[0].g);
      } else {
        ControllerKeepsInv(s, steps[0]);
      }
      RunKeepsInv(Apply(s, steps[0]), steps[1..], s');
    }
  }

  /** Under every interleaving: at most one worker will still write the state, and while
      the record reads STOPPED or REGISTERED none will, so none runs the entrypoint. */
  lemma OneWriter(steps: seq<Step>, s: State)
    requires Run(Init(), steps, s)
    ensures forall g, h :: 0 <= g < h < |s.workers| ==> !(WillWrite(s.workers[g]) && WillWrite(s.workers[h]))
    ensures s.state in {Registered, Stopped} ==> forall g :: 0 <= g < |s.workers| ==> !WillWrite(s.workers[g])
    ensures s.state == Running ==> s.workers != [] && s.workers[|s.workers| - 1] in {Announcing, Executing, Ending}
  {
    RunKeepsInv(Init(), steps, s);
  }

  /** Each accepted start publishes SERVICE_STARTED at most once, and by the time its
      worker is finished exactly once, with one or two SERVICE_STOPPED. */
  lemma EventsPerStart(steps: seq<Step>, s: State, g: nat)
    requires Run(Init(), steps, s) && g < |s.workers|
    ensures |s.started| == |s.stopped| == |s.stoppedByStop| == |s.workers|
    ensures s.started[g] <= 1 && s.stopped[g] + s.stoppedByStop[g] <= 2
    ensures s.workers[g] == Finished ==> s.started[g] == 1 && 1 <= s.stopped[g] + s.stoppedByStop[g]
    ensures s.workers[g] == Executing ==> s.started[g] == 1 && s.stopped[g] + s.stoppedByStop[g] == 0
  {
    RunKeepsInv(Init(), steps, s);
    assert Counted(s.workers[g], s.started[g], s.stopped[g], s.stoppedByStop[g]);
  }

  /** The state a waiting stop call leaves behind, and that it is never stuck: the
      worker it waits for can take a step. */
  lemma StopCompletes(steps: seq<Step>, s: State)
    requires Run(Init(), steps, s)
    ensures s.controller == StopMarked ==> s.workers != [] && (Enabled(s, Join) || Enabled(s, Advance(|s.workers| - 1)))
    ensures s.controller == StopWritten ==>
              s.workers != [] && s.state == Stopped && s.workers[|s.workers| - 1] == Finished
  {
    RunKeepsInv(Init(), steps, s);
  }

  /** Two SERVICE_STOPPED for one start do occur: whenever a stop call is accepted. */
  lemma StopCallReportsTwice(steps: seq<Step>, s: State)
    requires Run(Init(), steps, s) && s.controller == StopWritten
    ensures Enabled(s, PublishStopped)
    ensures var s' := Apply(s, PublishStopped);
            && |s'.stopped| == |s'.stoppedByStop| == |s.workers| > 0
            && s'.stopped[|s.workers| - 1] + s'.stoppedByStop[|s.workers| - 1] == 2
  {
    RunKeepsInv(Init(), steps, s);
    var last := |s.workers| - 1;
    assert Counted(s.workers[last], s.started[last], s.stopped[last], s.stoppedByStop[last]);
  }

  // ---- whole calls ----

  /** Between calls exactly one of accepting and refusing a start is possible, likewise for
      a stop: a start needs a registered or stopped service, a stop a running one. */
  lemma CallDecisions(s: State)
    requires s.controller == Idle
    ensures Enabled(s, AcceptStart) <==> s.state == Registered || s.state == Stopped
    ensures Enabled(s, RejectStart) <==> s.state == Starting || s.state == Running || s.state == Stopping
    ensures Enabled(s, AcceptStop) <==> s.state == Running
    ensures Enabled(s, RejectStop) <==> s.state != Running
    ensures Enabled(s, RejectStart) ==> Apply(s, RejectStart) == s
    ensures Enabled(s, RejectStop) ==> Apply(s, RejectStop) == s
  {
  }

  /** A worker can take a step from its launch until it is finished. */
  lemma WorkerCanStep(steps: seq<Step>, s: State, g: nat)
    requires Run(Init(), steps, s) && g < |s.workers|
    ensures Enabled(s, Advance(g)) <==>
              s.workers[g] in {Launched, Announcing, Executing, Ending, Reporting}
  {
    RunKeepsInv(Init(), steps, s);
  }

  lemma RunFirst(s: State, step: Step, steps: seq<Step>, s': State)
    requires Enabled(s, step) && Run(Apply(s, step), steps, s')
    ensures Run(s, [step] + steps, s')
  {
    assert ([step] + steps)[1..] == steps;
  }

  /** A registered or stopped service can be started, again too: the call launches a new
      worker, which publishes SERVICE_STARTED and runs the entrypoint. */
  lemma StartRuns(steps: seq<Step>, s: State)
    requires Run(Init(), steps, s) && s.controller == Idle && s.state in {Registered, Stopped}
    ensures var g := |s.workers|;
            Run(s, [AcceptStart, MarkStarting, MakeThread, LaunchThread, Advance(g), Advance(g)],
                State(Running, Idle, s.workers + [Executing], s.started + [1], s.stopped + [0], s.stoppedByStop + [0]))
  {
    assert |s.started| == |s.stopped| == |s.workers| by {
      RunKeepsInv(Init(), steps, s);
    }
    Launches(s);
    var g := |s.workers|;
    var s4 := State(Starting, Idle, s.workers + [Launched], s.started + [0], s.stopped + [0], s.stoppedByStop + [0]);
    WorkerStarts(s4, g);
    assert s4.workers[g := Executing] == s.workers + [Executing] && s4.started[g := 1] == s.started + [1];
    RunConcat(s, [AcceptStart, MarkStarting, MakeThread, LaunchThread], s4, [Advance(g), Advance(g)],
              s4.(state := Running, workers := s4.workers[g := Executing], started := s4.started[g := 1]));
    assert [AcceptStart, MarkStarting, MakeThread, LaunchThread] + [Advance(g), Advance(g)]
        == [AcceptStart, MarkStarting, MakeThread, LaunchThread, Advance(g), Advance(g)];
  }

  /** A launched worker makes the service running and publishes SERVICE_STARTED. */
  lemma WorkerStarts(s: State, g: nat)
    requires g < |s.workers| == |s.started| == |s.stopped| && s.workers[g] == Launched
    ensures Run(s, [Advance(g), Advance(g)],
                s.(state := Running, workers := s.workers[g := Executing], started := s.started[g := s.started[g] + 1]))
  {
    var s1 := Apply(s, Advance(g));
    var s2 := Apply(s1, Advance(g));
    assert s2.workers == s.workers[g := Executing];
    RunFirst(s1, Advance(g), [], s2);
    RunFirst(s, Advance(g), [Advance(g)], s2);
    assert [Advance(g)] + [Advance(g)] == [Advance(g), Advance(g)];
  }

  lemma Launches(s: State)
    requires s.controller == Idle && s.state in {Registered, Stopped}
    ensures Run(s, [AcceptStart, MarkStarting, MakeThread, LaunchThread],
                State(Starting, Idle, s.workers + [Launched], s.started + [0], s.stopped + [0], s.stoppedByStop + [0]))
  {
    var s1 := Apply(s, AcceptStart);
    var s2 := Apply(s1, MarkStarting);
    var s3 := Apply(s2, MakeThread);
    var s4 := Apply(s3, LaunchThread);
    assert s4.workers == s.workers + [Launched];
    RunFirst(s3, LaunchThread, [], s4);
    RunFirst(s2, MakeThread, [LaunchThread], s4);
    RunFirst(s1, MarkStarting, [MakeThread] + [LaunchThread], s4);
    RunFirst(s, AcceptStart, [MarkStarting] + ([MakeThread] + [LaunchThread]), s4);
    assert [AcceptStart] + ([MarkStarting] + ([MakeThread] + [LaunchThread]))
        == [AcceptStart, MarkStarting, MakeThread, LaunchThread];
  }

  lemma {:induction false} RunConcat(s: State, a: seq<Step>, m: State, b: seq<Step>, s': State)
    requires Run(s, a, m) && Run(m, b, s')
    ensures Run(s, a + b, s')
    decreases |a|
  {
    if a == [] {
      assert a + b == b;
    } else {
      assert (a + b)[1..] == a[1..] + b;
      RunConcat(Apply(s, a[0]), a[1..], m, b, s');
    }
  }

  /** A worker in the entrypoint comes to its end: the service is stopped and
      SERVICE_STOPPED is published. */
  lemma WorkerEnds(s: State, g: nat)
    requires g < |s.workers| == |s.started| == |s.stopped| && s.workers[g] == Executing
    ensures Run(s, [Advance(g), Advance(g), Advance(g)],
                s.(state := Stopped, workers := s.workers[g := Finished], stopped := s.stopped[g := s.stopped[g] + 1]))
  {
    var s1 := Apply(s, Advance(g));
    var s2 := Apply(s1, Advance(g));
    var s3 := Apply(s2, Advance(g));
    assert s3.workers == s.workers[g := Finished];
    RunFirst(s2, Advance(g), [], s3);
    RunFirst(s1, Advance(g), [Advance(g)], s3);
    RunFirst(s, Advance(g), [Advance(g)] + [Advance(g)], s3);
    assert [Advance(g)] + ([Advance(g)] + [Advance(g)]) == [Advance(g), Advance(g), Advance(g)];
  }

  /** A running service can be stopped: when its worker has come to its end, the call
      returns with the service stopped and reports it once more. */
  lemma StopReturns(s: State, g: nat)
    requires s.controller == StopMarked && |s.workers| == |s.stoppedByStop| == g + 1 && s.workers[g] == Finished
    ensures Run(s, [Join, MarkStopped, PublishStopped],
                s.(state := Stopped, controller := Idle,
                stoppedByStop := s.stoppedByStop[g := s.stoppedByStop[g] + 1]))
  {
    var s1 := Apply(s, Join);
    var s2 := Apply(s1, MarkStopped);
    var s3 := Apply(s2, PublishStopped);
    RunFirst(s2, PublishStopped, [], s3);
    RunFirst(s1, MarkStopped, [PublishStopped], s3);
    RunFirst(s, Join, [MarkStopped] + [PublishStopped], s3);
    assert [Join] + ([MarkStopped] + [PublishStopped]) == [Join, MarkStopped, PublishStopped];
  }

  lemma StopMarks(s: State)
    requires s.controller == Idle && s.state == Running
    ensures Run(s, [AcceptStop, MarkStopping], s.(state := Stopping, controller := StopMarked))
  {
    var s1 := Apply(s, AcceptStop);
    RunFirst(s1, MarkStopping, [], Apply(s1, MarkStopping));
    RunFirst(s, AcceptStop, [MarkStopping], Apply(s1, MarkStopping));
    assert [AcceptStop] + [MarkStopping] == [AcceptStop, MarkStopping];
  }
}
