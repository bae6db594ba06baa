/** What a whole run of the copy engine guarantees, for every number of workers and every interleaving. */
module CopyTheorems {
  import opened Wrappers
  import opened CopyEngine
  import opened CopyProofs
  import opened CopyOrder

  lemma InitReachable(cfg: Config)
    ensures Reachable(cfg, Init(cfg))
  {
    assert IsRun(cfg, [Init(cfg)], []);
  }

  // One more step of a concrete run.
  lemma Go(cfg: Config, s: State, step: Step) returns (t: State)
    requires Reachable(cfg, s) && Enabled(cfg, s, step)
    ensures Reachable(cfg, t) && t == Apply(cfg, s, step)
  {
    var states, steps :| IsRun(cfg, states, steps) && s == states[|steps|];
    t := Apply(cfg, s, step);
    assert IsRun(cfg, states + [t], steps + [step]);
  }

  // ---------- the destination ----------

  // The workers have finished and no error is recorded: each chunk sent was handled exactly once and
  // the destination is what one thread applying the chunk list in order would have left.
  lemma CleanCopyIsSequential(cfg: Config, s: State)
    requires Reachable(cfg, s)
    requires !BeforeWait(s.main) && s.error.NoError?
    ensures s.differErr.None? && s.failed == []
    ensures multiset(s.completed) == multiset(s.sent)
    ensures OrderFree(cfg, s.sent) ==> s.dst == ApplyAll(cfg.source, cfg.initial, s.sent)
  {
    ReachedInv(cfg, s);
    ReachedOrder(cfg, s);
    assert WorkerInv(cfg, s, s.workers[0]);
    CompletedIsSequential(cfg, s);
  }

  // The destination is told to commit only what is the sequential result of a whole, undisturbed chunk list.
  lemma CommitMeansComplete(cfg: Config, s: State)
    requires Reachable(cfg, s)
    requires |s.calls| == 2 && s.calls[1].success
    ensures s.calls[1].DestinationDone? && s.calls[0] == SourceDone(true, None)
    ensures s.differErr.None? && s.failed == []
    ensures multiset(s.completed) == multiset(s.sent)
    ensures OrderFree(cfg, s.sent) ==> s.dst == ApplyAll(cfg.source, cfg.initial, s.sent)
  {
    ReachedInv(cfg, s);
    ReachedOrder(cfg, s);
    CompletedIsSequential(cfg, s);
  }

  // Whatever failed so far: with distinct offsets the completed dirty chunks are in place, and no offset but
  // those of completed and failed dirty chunks has changed.
  lemma DamageIsContained(cfg: Config, s: State)
    requires Reachable(cfg, s) && DistinctDirty(s.sent)
    ensures forall i :: 0 <= i < |s.completed| && s.completed[i].dirty ==> Holds(cfg, s.dst, s.completed[i])
    ensures forall off: nat :: !Touches(s.completed, off) && !Touches(s.failed, off) ==> SameAt(s.dst, cfg.initial, off)
  {
    ReachedInv(cfg, s);
  }

  // ---------- conservation, the abort poll and the error record ----------

  // Every chunk sent is queued, held, completed or failed, and is exactly one of them.
  lemma ChunksAreConserved(cfg: Config, s: State)
    requires Reachable(cfg, s)
    ensures multiset(s.sent) == multiset(s.queue) + Hands(s.workers) + multiset(s.completed) + multiset(s.failed)
  {
    ReachedInv(cfg, s);
  }

  // A worker only leaves while the channel is open after an error was recorded. So a producer facing a
  // full channel that nobody drains any more finds the abort poll true.
  lemma ProducerIsNotStranded(cfg: Config, s: State)
    requires Reachable(cfg, s) && !s.closed
    requires exists w :: 0 <= w < |s.workers| && (s.workers[w].stage.Leaving? || s.workers[w].stage.Exited?)
    ensures ShouldAbort(s)
  {
    ReachedInv(cfg, s);
    var w :| 0 <= w < |s.workers| && (s.workers[w].stage.Leaving? || s.workers[w].stage.Exited?);
    assert WorkerInv(cfg, s, s.workers[w]);
  }

  // The record is that of the first call to set in lock order, whoever made it.
  lemma FirstErrorWins(cfg: Config, s: State)
    requires Reachable(cfg, s)
    ensures s.error == if s.sets == [] then NoError else Recorded(s.sets[0].description, true)
  {
    ReachedInv(cfg, s);
  }

  lemma {:induction false} RecordIsFinal(cfg: Config, states: seq<State>, steps: seq<Step>, i: nat, j: nat)
    requires IsRun(cfg, states, steps) && i <= j <= |steps| && states[i].error.Recorded?
    ensures states[j].error == states[i].error
    decreases j
  {
    if i < j {
      RecordIsFinal(cfg, states, steps, i, j - 1);
      assert states[j] == Apply(cfg, states[j - 1], steps[j - 1]);
    }
  }

  // A whole copy ends with an empty record exactly when nothing went wrong anywhere.
  lemma CopyOutcome(cfg: Config, s: State)
    requires Reachable(cfg, s) && s.main == Finished(false)
    ensures |s.calls| == 2 && s.calls[0].SourceDone? && s.calls[1].DestinationDone?
    ensures s.error.NoError? <==>
              && s.differErr.None? && s.failed == []
              && s.calls[0].err.None? && s.calls[1].err.None?
              && (forall i :: 0 <= i < |s.sets| ==> s.sets[i].setter != ByWatchdog)
    ensures s.error.NoError? ==> s.calls == [SourceDone(true, None), DestinationDone(true, None)]
    ensures s.error.NoError? && OrderFree(cfg, s.sent) ==> s.dst == ApplyAll(cfg.source, cfg.initial, s.sent)
  {
    ReachedInv(cfg, s);
    if s.error.Recorded? {
      assert Justified(s, s.sets[0].setter);
    } else {
      CleanCopyIsSequential(cfg, s);
    }
  }

  // An endpoint that cannot be set up ends the copy before any worker starts and before any Done call.
  lemma FailedSetup(cfg: Config, s: State)
    requires Reachable(cfg, s) && s.main == Finished(true)
    ensures s.calls == [] && s.workers == [] && s.sent == [] && s.error.Recorded?
  {
    ReachedInv(cfg, s);
  }

  // ---------- termination once the producer is done ----------

  function StageWeight(stage: Stage): nat {
    match stage
    case Fetching(_) => 6
    case Filling(_) => 5
    case Skipping(_) => 5
    case Receiving => 3
    case Reporting(_) => 2
    case Leaving => 1
    case Exited => 0
  }

  ghost function Weight(ws: seq<Worker>): nat {
    if ws == [] then 0 else Weight(ws[..|ws| - 1]) + StageWeight(ws[|ws| - 1].stage)
  }

  lemma {:induction false} WeightUpdate(ws: seq<Worker>, i: nat, w: Worker)
    requires i < |ws|
    ensures Weight(ws[i := w]) + StageWeight(ws[i].stage) == Weight(ws) + StageWeight(w.stage)
  {
    var last := |ws| - 1;
    if i == last {
      assert ws[i := w][..last] == ws[..last];
    } else {
      WeightUpdate(ws[..last], i, w);
      assert ws[i := w][..last] == ws[..last][i := w];
    }
  }

  function MainRank(m: Main): nat {
    match m
    case ChannelClosed => 9
    case DifferReturned => 8
    case Waiting => 7
    case DecidingSource => 6
    case CallingSource(_) => 5
    case SourceReturned(_) => 4
    case DecidingDestination => 3
    case CallingDestination(_) => 2
    case DestinationReturned(_) => 1
    case _ => 0
  }

  // How many more steps the workers and the main thread can take.
  ghost function Budget(s: State): nat {
    4 * |s.queue| + Weight(s.workers) + MainRank(s.main)
  }

  lemma WorkerStepSpends(cfg: Config, s: State, step: Step)
    requires s.closed && Enabled(cfg, s, step) && IsWorkerStep(step)
    ensures Apply(cfg, s, step).closed && Budget(Apply(cfg, s, step)) < Budget(s)
  {
    WorkerStepFrame(cfg, s, step);
    WeightUpdate(s.workers, step.w, Apply(cfg, s, step).workers[step.w]);
  }

  lemma MainStepSpends(cfg: Config, s: State, step: Step)
    requires MainInv(cfg, s) && s.closed && Enabled(cfg, s, step) && !IsWorkerStep(step)
    ensures Apply(cfg, s, step).closed
    ensures Budget(Apply(cfg, s, step)) <= Budget(s) - (if step.Watchdog? then 0 else 1)
  {
    assert MainStep(cfg, s, step).workers == s.workers && MainStep(cfg, s, step).queue == s.queue;
  }

  ghost predicate Spends(states: seq<State>, steps: seq<Step>, k: nat)
    requires |states| == |steps| + 1 && k < |steps|
  {
    states[k].closed ==>
      && states[k + 1].closed
      && Budget(states[k + 1]) <= Budget(states[k]) - (if steps[k].Watchdog? then 0 else 1)
  }

  lemma RunStepSpends(cfg: Config, states: seq<State>, steps: seq<Step>, k: nat)
    requires IsRun(cfg, states, steps) && k < |steps|
    ensures Spends(states, steps, k)
  {
    RunKeepsInv(cfg, states, steps, k);
    if states[k].closed {
      if IsWorkerStep(steps[k]) {
        WorkerStepSpends(cfg, states[k], steps[k]);
      } else {
        MainStepSpends(cfg, states[k], steps[k]);
      }
    }
  }

  ghost function OwnSteps(steps: seq<Step>): nat {
    if steps == [] then 0
    else OwnSteps(steps[..|steps| - 1]) + (if steps[|steps| - 1].Watchdog? then 0 else 1)
  }

  lemma {:induction false} CountDown(states: seq<State>, steps: seq<Step>, i: nat, j: nat)
    requires |states| == |steps| + 1 && i <= j <= |steps| && states[i].closed
    requires forall k :: 0 <= k < |steps| ==> Spends(states, steps, k)
    ensures states[j].closed
    ensures OwnSteps(steps[i..j]) + Budget(states[j]) <= Budget(states[i])
    decreases j
  {
    if i < j {
      var k := j - 1;
      CountDown(states, steps, i, k);
      OwnStepsOneMore(steps, i, k);
      assert Spends(states, steps, k);
    }
  }

  // Once Differ has closed the channel, no schedule lets the workers and the main thread go on for ever.
  lemma CopyTerminates(cfg: Config, states: seq<State>, steps: seq<Step>, i: nat, j: nat)
    requires IsRun(cfg, states, steps) && i <= j <= |steps| && states[i].closed
    ensures states[j].closed
    ensures OwnSteps(steps[i..j]) + Budget(states[j]) <= Budget(states[i])
  {
    forall k | 0 <= k < |steps|
      ensures Spends(states, steps, k)
    {
      RunStepSpends(cfg, states, steps, k);
    }
    CountDown(states, steps, i, j);
  }

  lemma OwnStepsOneMore(steps: seq<Step>, i: nat, k: nat)
    requires i <= k < |steps|
    ensures OwnSteps(steps[i..k + 1]) == OwnSteps(steps[i..k]) + (if steps[k].Watchdog? then 0 else 1)
  {
    assert steps[i..k + 1][..k - i] == steps[i..k];
  }

  // The main thread's next step, with endpoints that do not fail and a producer that stops.
  function MainNext(cfg: Config, s: State): Step {
    match s.main
    case SettingUpSource => SetupSource(None)
    case SettingUpDestination => SetupDestination(None)
    case Spawning => if |s.workers| < Threads(cfg) then Spawn([]) else SpawningOver
    case Producing => CloseChannel
    case ChannelClosed => DifferReturns(None)
    case DifferReturned => RecordDiffer
    case DecidingSource => DecideSource
    case CallingSource(_) => SourceDoneReturns(None)
    case SourceReturned(_) => RecordSource
    case DecidingDestination => DecideDestination
    case CallingDestination(_) => DestinationDoneReturns(None)
    case DestinationReturned(_) => RecordDestination
    case _ => WaitOver
  }

  lemma MainNextEnabled(cfg: Config, s: State)
    requires |s.workers| <= Threads(cfg) && !s.main.Finished? && (s.main.Waiting? ==> s.waitCount == 0)
    ensures Enabled(cfg, s, MainNext(cfg, s)) && !MainNext(cfg, s).Watchdog?
  {
  }

  // And until the copy has returned there is always a thread other than the watchdog that can move: in
  // particular the wait for the workers is never a wait for ever.
  lemma CopyIsNeverStuck(cfg: Config, s: State)
    requires Reachable(cfg, s) && !s.main.Finished?
    ensures exists step: Step :: !step.Watchdog? && Enabled(cfg, s, step)
  {
    ReachedInv(cfg, s);
    if s.main.Waiting? && s.waitCount != 0 {
      var w := SomeoneLives(s.workers);
      LiveWorkerMoves(cfg, s, w);
    } else {
      MainNextEnabled(cfg, s);
    }
  }

  // A producer waiting for room in the channel is not left waiting: some worker can move, or they have all
  // gone and the abort poll is true.
  lemma BlockedProducerIsServed(cfg: Config, s: State)
    requires Reachable(cfg, s) && s.main.Producing? && |s.queue| == 4 * Threads(cfg)
    ensures ShouldAbort(s) || exists step: Step :: IsWorkerStep(step) && Enabled(cfg, s, step)
  {
    ReachedInv(cfg, s);
    if s.workers[0].stage.Exited? {
      ProducerIsNotStranded(cfg, s);
    } else {
      LiveWorkerMoves(cfg, s, 0);
    }
  }

  lemma {:induction false} SomeoneLives(ws: seq<Worker>) returns (w: nat)
    requires Live(ws) > 0
    ensures w < |ws| && !ws[w].stage.Exited?
  {
    w := |ws| - 1;
    if ws[w].stage.Exited? {
      w := SomeoneLives(ws[..|ws| - 1]);
    }
  }

  lemma LiveWorkerMoves(cfg: Config, s: State, w: nat)
    requires w < |s.workers| && !s.workers[w].stage.Exited? && (s.closed || s.queue != [])
    ensures exists step: Step :: IsWorkerStep(step) && Enabled(cfg, s, step)
  {
    match s.workers[w].stage
    case Receiving =>
      if s.queue == [] {
        assert Enabled(cfg, s, ChannelDrained(w));
      } else {
        assert Enabled(cfg, s, Receive(w));
      }
    case Fetching(_) => assert Enabled(cfg, s, Fetch(w, None, []));
    case Filling(_) => assert Enabled(cfg, s, Fill(w, None, []));
    case Skipping(_) => assert Enabled(cfg, s, Skip(w, None));
    case Reporting(_) => assert Enabled(cfg, s, Report(w));
    case Leaving => assert Enabled(cfg, s, Exit(w));
  }
}
