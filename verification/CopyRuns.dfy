/** What the answers given in a run of the copy engine decide. Everything here is said of the steps taken, and
    nothing of the history that the engine keeps of itself. */
module CopyRuns {
  import opened Wrappers
  import opened CopyEngine
  import opened CopyProofs
  import opened CopyTheorems

  // An endpoint that answers with an error, and the watchdog.
  predicate GoesWrong(step: Step) {
    match step
    case SetupSource(err) => err.Some?
    case SetupDestination(err) => err.Some?
    case DifferReturns(err) => err.Some?
    case Fetch(_, err, _) => err.Some?
    case Fill(_, err, _) => err.Some?
    case Skip(_, err) => err.Some?
    case SourceDoneReturns(err) => err.Some?
    case DestinationDoneReturns(err) => err.Some?
    case Watchdog => true
    case _ => false
  }

  // What is recorded of it.
  function Message(step: Step): string
    requires GoesWrong(step)
  {
    match step
    case SetupSource(err) => "Set up source endpoint: " + err.value
    case SetupDestination(err) => "Set up destination endpoint: " + err.value
    case DifferReturns(err) => "Differ: " + err.value
    case Fetch(_, err, _) => "FetchAt: " + err.value
    case Fill(_, err, _) => "FillAt: " + err.value
    case Skip(_, err) => "SkipAt: " + err.value
    case SourceDoneReturns(err) => "Source: " + err.value
    case DestinationDoneReturns(err) => "Destination: " + err.value
    case Watchdog => "Aborted due to a lack of progress"
  }

  ghost predicate AllWell(steps: seq<Step>) {
    forall i :: 0 <= i < |steps| ==> !GoesWrong(steps[i])
  }

  ghost predicate Said(steps: seq<Step>, message: string) {
    exists i :: 0 <= i < |steps| && GoesWrong(steps[i]) && Message(steps[i]) == message
  }

  // ---------- nothing that goes wrong is forgotten, and nothing is made up ----------

  // Where an error is, until it is recorded.
  ghost predicate Reporting(ws: seq<Worker>) {
    exists w :: 0 <= w < |ws| && ws[w].stage.Reporting?
  }

  ghost predicate Trouble(s: State) {
    || s.error.Recorded? || Reporting(s.workers)
    || (s.main.DifferReturned? && s.differErr.Some?)
    || (s.main.SourceReturned? && s.main.err.Some?)
    || (s.main.DestinationReturned? && s.main.err.Some?)
  }

  lemma WorkerTrouble(cfg: Config, s: State, step: Step)
    requires Enabled(cfg, s, step) && IsWorkerStep(step)
    ensures Trouble(WorkerStep(cfg, s, step)) <==> Trouble(s) || GoesWrong(step)
  {
    var t, w := WorkerStep(cfg, s, step), step.w;
    WorkerStepFrame(cfg, s, step);
    assert forall v :: 0 <= v < |s.workers| && v != w ==> t.workers[v] == s.workers[v];
    assert step.Report? || t.error == s.error;
    assert s.workers[w].stage.Reporting? <==> step.Report?;
    assert t.workers[w].stage.Reporting? <==> GoesWrong(step);
  }

  lemma MainTrouble(cfg: Config, s: State, step: Step)
    requires Enabled(cfg, s, step) && !IsWorkerStep(step)
    ensures Trouble(MainStep(cfg, s, step)) <==> Trouble(s) || GoesWrong(step)
  {
    var t := MainStep(cfg, s, step);
    if step.Spawn? {
      assert t.workers[..|s.workers|] == s.workers;
    } else {
      assert t.workers == s.workers;
    }
  }

  lemma {:induction false} TroubleIffWrong(cfg: Config, states: seq<State>, steps: seq<Step>, k: nat)
    requires IsRun(cfg, states, steps) && k <= |steps|
    ensures Trouble(states[k]) <==> !AllWell(steps[..k])
  {
    if k > 0 {
      TroubleIffWrong(cfg, states, steps, k - 1);
      assert steps[..k] == steps[..k - 1] + [steps[k - 1]];
      assert states[k - 1 + 1] == Apply(cfg, states[k - 1], steps[k - 1]);
      if IsWorkerStep(steps[k - 1]) {
        WorkerTrouble(cfg, states[k - 1], steps[k - 1]);
      } else {
        MainTrouble(cfg, states[k - 1], steps[k - 1]);
      }
    }
  }

  // Each error on its way has the message of a step taken.
  ghost predicate Told(s: State, steps: seq<Step>) {
    && (s.error.Recorded? ==> s.error.fatal && Said(steps, s.error.description))
    && (forall w :: 0 <= w < |s.workers| && s.workers[w].stage.Reporting? ==> Said(steps, s.workers[w].stage.message))
    && (s.main.DifferReturned? && s.differErr.Some? ==> Said(steps, "Differ: " + s.differErr.value))
    && (s.main.SourceReturned? && s.main.err.Some? ==> Said(steps, "Source: " + s.main.err.value))
    && (s.main.DestinationReturned? && s.main.err.Some? ==> Said(steps, "Destination: " + s.main.err.value))
  }

  lemma SaidOneMore(steps: seq<Step>, step: Step, message: string)
    ensures Said(steps, message) ==> Said(steps + [step], message)
    ensures GoesWrong(step) ==> Said(steps + [step], Message(step))
  {
    var all := steps + [step];
    if Said(steps, message) {
      var i :| 0 <= i < |steps| && GoesWrong(steps[i]) && Message(steps[i]) == message;
      assert GoesWrong(all[i]) && Message(all[i]) == message;
    }
    if GoesWrong(step) {
      assert GoesWrong(all[|steps|]) && Message(all[|steps|]) == Message(step);
    }
  }

  lemma ToldStays(s: State, steps: seq<Step>, step: Step)
    requires Told(s, steps)
    ensures Told(s, steps + [step])
  {
    forall message: string | Said(steps, message)
      ensures Said(steps + [step], message)
    {
      SaidOneMore(steps, step, message);
    }
  }

  lemma WorkerTells(cfg: Config, s: State, step: Step, steps: seq<Step>)
    requires Enabled(cfg, s, step) && IsWorkerStep(step) && Told(s, steps)
    requires GoesWrong(step) ==> Said(steps, Message(step))
    ensures Told(WorkerStep(cfg, s, step), steps)
  {
    var t, w := WorkerStep(cfg, s, step), step.w;
    WorkerStepFrame(cfg, s, step);
    assert forall v :: 0 <= v < |s.workers| && v != w ==> t.workers[v] == s.workers[v];
    assert t.workers[w].stage.Reporting? ==> GoesWrong(step) && t.workers[w].stage.message == Message(step);
    assert step.Report? || t.error == s.error;
  }

  // The record, or the error still to be recorded, is the message of this step, or was there before.
  ghost predicate Passes(s: State, t: State, step: Step) {
    && (t.error == s.error || (GoesWrong(step) && t.error == Recorded(Message(step), true))
        || (s.main.DifferReturned? && s.differErr.Some? && t.error == Recorded("Differ: " + s.differErr.value, true))
        || (s.main.SourceReturned? && s.main.err.Some? && t.error == Recorded("Source: " + s.main.err.value, true))
        || (s.main.DestinationReturned? && s.main.err.Some? &&
            t.error == Recorded("Destination: " + s.main.err.value, true)))
    && (t.main.DifferReturned? && t.differErr.Some? ==>
          (s.main == t.main && s.differErr == t.differErr) ||
          (GoesWrong(step) && Message(step) == "Differ: " + t.differErr.value))
    && (t.main.SourceReturned? && t.main.err.Some? ==>
          s.main == t.main || (GoesWrong(step) && Message(step) == "Source: " + t.main.err.value))
    && (t.main.DestinationReturned? && t.main.err.Some? ==>
          s.main == t.main || (GoesWrong(step) && Message(step) == "Destination: " + t.main.err.value))
  }

  lemma MainPasses(cfg: Config, s: State, step: Step)
    requires Enabled(cfg, s, step) && !IsWorkerStep(step)
    ensures Passes(s, MainStep(cfg, s, step), step)
  {
  }

  lemma MainLeavesReports(cfg: Config, s: State, step: Step)
    requires Enabled(cfg, s, step) && !IsWorkerStep(step)
    ensures var t := MainStep(cfg, s, step);
            forall w :: 0 <= w < |t.workers| && t.workers[w].stage.Reporting? ==>
              w < |s.workers| && t.workers[w] == s.workers[w]
  {
  }

  lemma PassedOnIsTold(s: State, t: State, step: Step, steps: seq<Step>)
    requires Told(s, steps) && Passes(s, t, step) && (GoesWrong(step) ==> Said(steps, Message(step)))
    requires forall w :: 0 <= w < |t.workers| && t.workers[w].stage.Reporting? ==>
               w < |s.workers| && t.workers[w] == s.workers[w]
    ensures Told(t, steps)
  {
  }

  lemma MainTells(cfg: Config, s: State, step: Step, steps: seq<Step>)
    requires Enabled(cfg, s, step) && !IsWorkerStep(step) && Told(s, steps)
    requires GoesWrong(step) ==> Said(steps, Message(step))
    ensures Told(MainStep(cfg, s, step), steps)
  {
    MainPasses(cfg, s, step);
    MainLeavesReports(cfg, s, step);
    PassedOnIsTold(s, MainStep(cfg, s, step), step, steps);
  }

  lemma {:induction false} RecordTells(cfg: Config, states: seq<State>, steps: seq<Step>, k: nat)
    requires IsRun(cfg, states, steps) && k <= |steps|
    ensures Told(states[k], steps[..k])
  {
    if k > 0 {
      RecordTells(cfg, states, steps, k - 1);
      var before, s, step := steps[..k - 1], states[k - 1], steps[k - 1];
      assert steps[..k] == before + [step];
      assert states[k - 1 + 1] == Apply(cfg, s, step);
      ToldStays(s, before, step);
      SaidOneMore(before, step, "");
      if IsWorkerStep(step) {
        WorkerTells(cfg, s, step, before + [step]);
      } else {
        MainTells(cfg, s, step, before + [step]);
      }
    }
  }

  // ---------- the chunks sent ----------

  // What Differ put on the channel.
  function SentBy(steps: seq<Step>): seq<ChunkInfo> {
    if steps == [] then []
    else
      var step := steps[|steps| - 1];
      SentBy(steps[..|steps| - 1]) + (if step.Send? then [step.chunk] else [])
  }

  lemma StepSends(cfg: Config, s: State, step: Step)
    requires Enabled(cfg, s, step)
    ensures Apply(cfg, s, step).sent == s.sent + (if step.Send? then [step.chunk] else [])
  {
    if IsWorkerStep(step) {
      WorkerStepFrame(cfg, s, step);
    }
  }

  lemma {:induction false} SentIsWhatWasSent(cfg: Config, states: seq<State>, steps: seq<Step>, k: nat)
    requires IsRun(cfg, states, steps) && k <= |steps|
    ensures states[k].sent == SentBy(steps[..k])
  {
    if k > 0 {
      SentIsWhatWasSent(cfg, states, steps, k - 1);
      assert steps[..k][..k - 1] == steps[..k - 1];
      assert states[k - 1 + 1] == Apply(cfg, states[k - 1], steps[k - 1]);
      StepSends(cfg, states[k - 1], steps[k - 1]);
    }
  }

  // ---------- how a copy ends ----------

  lemma QuietAtTheEnd(cfg: Config, s: State)
    requires MainInv(cfg, s) && s.main == Finished(false)
    ensures Trouble(s) <==> s.error.Recorded?
  {
  }

  lemma CleanRunIsSequential(cfg: Config, states: seq<State>, steps: seq<Step>)
    requires IsRun(cfg, states, steps)
    requires states[|steps|].main == Finished(false) && states[|steps|].error.NoError?
    ensures var s := states[|steps|];
            OrderFree(cfg, s.sent) ==> s.dst == ApplyAll(cfg.source, cfg.initial, s.sent)
  {
    assert Reachable(cfg, states[|steps|]);
    CleanCopyIsSequential(cfg, states[|steps|]);
  }

  // A copy whose endpoints were set up ends with an empty record exactly when nothing went wrong in the run: no
  // endpoint answered with an error, whoever had asked it and whenever, and the watchdog kept still. The
  // destination then has the sequential result of what Differ sent. Otherwise the record is fatal and has the
  // message of something that went wrong.
  lemma CopySucceedsIffAllWell(cfg: Config, states: seq<State>, steps: seq<Step>)
    requires IsRun(cfg, states, steps) && states[|steps|].main == Finished(false)
    ensures var s := states[|steps|];
            && (s.error.NoError? <==> AllWell(steps))
            && (s.error.Recorded? ==> s.error.fatal && Said(steps, s.error.description))
            && (AllWell(steps) && OrderFree(cfg, SentBy(steps)) ==>
                  s.dst == ApplyAll(cfg.source, cfg.initial, SentBy(steps)))
  {
    var s := states[|steps|];
    assert steps[..|steps|] == steps;
    TroubleIffWrong(cfg, states, steps, |steps|);
    RecordTells(cfg, states, steps, |steps|);
    SentIsWhatWasSent(cfg, states, steps, |steps|);
    RunKeepsInv(cfg, states, steps, |steps|);
    QuietAtTheEnd(cfg, s);
    if s.error.NoError? {
      CleanRunIsSequential(cfg, states, steps);
    }
  }

  // Each endpoint is told to commit exactly when nothing has gone wrong by the time its call is decided on.
  lemma ToldToCommitIffAllWell(cfg: Config, states: seq<State>, steps: seq<Step>, d: nat)
    requires IsRun(cfg, states, steps) && d < |steps|
    ensures steps[d].DecideSource? ==> states[d + 1].main == CallingSource(AllWell(steps[..d]))
    ensures steps[d].DecideDestination? ==> states[d + 1].main == CallingDestination(AllWell(steps[..d]))
  {
    RunKeepsInv(cfg, states, steps, d);
    TroubleIffWrong(cfg, states, steps, d);
    assert states[d + 1] == Apply(cfg, states[d], steps[d]);
  }

  ghost predicate SourceTold(s: State, success: bool) {
    if s.main.CallingSource? then s.main == CallingSource(success) && s.calls == []
    else
      && (s.main.SourceReturned? || s.main.DecidingDestination? || s.main.CallingDestination? ||
          s.main.DestinationReturned? || s.main == Finished(false))
      && s.calls != [] && s.calls[0].SourceDone? && s.calls[0].success == success
  }

  ghost predicate DestinationTold(s: State, success: bool) {
    if s.main.CallingDestination? then s.main == CallingDestination(success) && |s.calls| == 1
    else
      && (s.main.DestinationReturned? || s.main == Finished(false))
      && |s.calls| == 2 && s.calls[1].DestinationDone? && s.calls[1].success == success
  }

  lemma WorkerKeepsTold(cfg: Config, s: State, step: Step, success: bool)
    requires Enabled(cfg, s, step) && IsWorkerStep(step)
    ensures SourceTold(s, success) ==> SourceTold(WorkerStep(cfg, s, step), success)
    ensures DestinationTold(s, success) ==> DestinationTold(WorkerStep(cfg, s, step), success)
  {
    WorkerStepFrame(cfg, s, step);
  }

  lemma MainKeepsTold(cfg: Config, s: State, step: Step, success: bool)
    requires Enabled(cfg, s, step) && !IsWorkerStep(step)
    ensures SourceTold(s, success) ==> SourceTold(MainStep(cfg, s, step), success)
    ensures DestinationTold(s, success) ==> DestinationTold(MainStep(cfg, s, step), success)
  {
  }

  lemma {:induction false} StaysTold(cfg: Config, states: seq<State>, steps: seq<Step>, d: nat, n: nat, success: bool)
    requires IsRun(cfg, states, steps) && d <= n <= |steps|
    ensures SourceTold(states[d], success) ==> SourceTold(states[n], success)
    ensures DestinationTold(states[d], success) ==> DestinationTold(states[n], success)
    decreases n
  {
    if d < n {
      StaysTold(cfg, states, steps, d, n - 1, success);
      if IsWorkerStep(steps[n - 1]) {
        WorkerKeepsTold(cfg, states[n - 1], steps[n - 1], success);
      } else {
        MainKeepsTold(cfg, states[n - 1], steps[n - 1], success);
      }
    }
  }

  lemma TellsNow(cfg: Config, s: State, success: bool)
    requires MainInv(cfg, s)
    ensures s.main == CallingSource(success) ==> SourceTold(s, success)
    ensures s.main == CallingDestination(success) ==> DestinationTold(s, success)
  {
  }

  lemma TellsDecision(cfg: Config, states: seq<State>, steps: seq<Step>, d: nat, n: nat, success: bool)
    requires IsRun(cfg, states, steps) && d < n <= |steps|
    ensures states[d + 1].main == CallingSource(success) ==> SourceTold(states[n], success)
    ensures states[d + 1].main == CallingDestination(success) ==> DestinationTold(states[n], success)
  {
    RunKeepsInv(cfg, states, steps, d + 1);
    TellsNow(cfg, states[d + 1], success);
    StaysTold(cfg, states, steps, d + 1, n, success);
  }

  predicate DestinationDecided(m: Main) {
    m.CallingDestination? || m.DestinationReturned? || m == Finished(false)
  }

  predicate SourceDecided(m: Main) {
    m.CallingSource? || m.SourceReturned? || m.DecidingDestination? || DestinationDecided(m)
  }

  lemma StepDecides(cfg: Config, s: State, step: Step)
    requires Enabled(cfg, s, step)
    ensures SourceDecided(Apply(cfg, s, step).main) ==> SourceDecided(s.main) || step.DecideSource?
    ensures DestinationDecided(Apply(cfg, s, step).main) ==> DestinationDecided(s.main) || step.DecideDestination?
  {
    if IsWorkerStep(step) {
      WorkerStepFrame(cfg, s, step);
    }
  }

  lemma {:induction false} WhereSourceWasDecided(cfg: Config, states: seq<State>, steps: seq<Step>, n: nat)
    returns (d: nat)
    requires IsRun(cfg, states, steps) && n <= |steps| && SourceDecided(states[n].main)
    ensures d < n && steps[d].DecideSource?
  {
    assert n > 0;
    d := n - 1;
    StepDecides(cfg, states[n - 1], steps[n - 1]);
    if !steps[n - 1].DecideSource? {
      d := WhereSourceWasDecided(cfg, states, steps, n - 1);
    }
  }

  lemma {:induction false} WhereDestinationWasDecided(cfg: Config, states: seq<State>, steps: seq<Step>, n: nat)
    returns (d: nat)
    requires IsRun(cfg, states, steps) && n <= |steps| && DestinationDecided(states[n].main)
    ensures d < n && steps[d].DecideDestination?
  {
    assert n > 0;
    d := n - 1;
    StepDecides(cfg, states[n - 1], steps[n - 1]);
    if !steps[n - 1].DecideDestination? {
      d := WhereDestinationWasDecided(cfg, states, steps, n - 1);
    }
  }

  // The two calls of a finished copy: the source was told to commit exactly when nothing had gone wrong before
  // its call was decided on, and so was the destination, for which a failure of the source's own call counts.
  lemma DoneCallsFollowTheRun(cfg: Config, states: seq<State>, steps: seq<Step>) returns (d: nat, e: nat)
    requires IsRun(cfg, states, steps) && states[|steps|].main == Finished(false)
    ensures d < |steps| && steps[d].DecideSource? && e < |steps| && steps[e].DecideDestination?
    ensures var calls := states[|steps|].calls;
            && |calls| == 2
            && calls[0].SourceDone? && (calls[0].success <==> AllWell(steps[..d]))
            && calls[1].DestinationDone? && (calls[1].success <==> AllWell(steps[..e]))
  {
    d := WhereSourceWasDecided(cfg, states, steps, |steps|);
    e := WhereDestinationWasDecided(cfg, states, steps, |steps|);
    ToldToCommitIffAllWell(cfg, states, steps, d);
    ToldToCommitIffAllWell(cfg, states, steps, e);
    TellsDecision(cfg, states, steps, d, |steps|, AllWell(steps[..d]));
    TellsDecision(cfg, states, steps, e, |steps|, AllWell(steps[..e]));
  }

  // ---------- setting up ----------

  predicate SetupFails(step: Step) {
    (step.SetupSource? || step.SetupDestination?) && step.err.Some?
  }

  lemma WorkersNeedSpawning(cfg: Config, s: State, step: Step)
    requires Inv(cfg, s) && Enabled(cfg, s, step) && s.main == Finished(true)
    ensures step.Watchdog?
  {
  }

  lemma StepEndsEarly(cfg: Config, s: State, step: Step)
    requires Enabled(cfg, s, step)
    ensures Apply(cfg, s, step).main == Finished(true) <==> s.main == Finished(true) || SetupFails(step)
  {
    if IsWorkerStep(step) {
      WorkerStepFrame(cfg, s, step);
    }
  }

  lemma {:induction false} EndsEarly(cfg: Config, states: seq<State>, steps: seq<Step>, i: nat, k: nat)
    requires IsRun(cfg, states, steps) && i < k <= |steps| && SetupFails(steps[i])
    ensures states[k].main == Finished(true)
    decreases k
  {
    if i < k - 1 {
      EndsEarly(cfg, states, steps, i, k - 1);
    }
    assert states[k - 1 + 1] == Apply(cfg, states[k - 1], steps[k - 1]);
    StepEndsEarly(cfg, states[k - 1], steps[k - 1]);
  }

  lemma {:induction false} EndedEarlyAfterFailure(cfg: Config, states: seq<State>, steps: seq<Step>, k: nat)
    requires IsRun(cfg, states, steps) && k <= |steps| && states[k].main == Finished(true)
    ensures exists i :: 0 <= i < k && SetupFails(steps[i])
  {
    assert k > 0;
    assert states[k - 1 + 1] == Apply(cfg, states[k - 1], steps[k - 1]);
    StepEndsEarly(cfg, states[k - 1], steps[k - 1]);
    if !SetupFails(steps[k - 1]) {
      EndedEarlyAfterFailure(cfg, states, steps, k - 1);
    }
  }

  // The copy ends early exactly when an endpoint could not be set up; no thread but the watchdog moves after that.
  lemma EndsEarlyIffSetupFails(cfg: Config, states: seq<State>, steps: seq<Step>, k: nat)
    requires IsRun(cfg, states, steps) && k <= |steps|
    ensures states[k].main == Finished(true) <==> exists i :: 0 <= i < k && SetupFails(steps[i])
    ensures k < |steps| && states[k].main == Finished(true) ==> steps[k].Watchdog?
  {
    if i: nat :| i < k && SetupFails(steps[i]) {
      EndsEarly(cfg, states, steps, i, k);
    }
    if states[k].main == Finished(true) {
      EndedEarlyAfterFailure(cfg, states, steps, k);
    }
    if k < |steps| && states[k].main == Finished(true) {
      RunKeepsInv(cfg, states, steps, k);
      WorkersNeedSpawning(cfg, states[k], steps[k]);
    }
  }

  // As many workers are started as asked for, or one; and the channel holds four chunks for each.
  lemma PoolAndChannel(cfg: Config, states: seq<State>, steps: seq<Step>, k: nat)
    requires IsRun(cfg, states, steps) && k < |steps|
    ensures steps[k].SpawningOver? ==> |states[k].workers| == if cfg.numThreads == 0 then 1 else cfg.numThreads
    ensures steps[k].Send? ==> |states[k].workers| >= 1 && |states[k + 1].queue| <= 4 * |states[k].workers|
    ensures states[k].main.Producing? ==>
              (Enabled(cfg, states[k], Send(ChunkInfo(0, "", true))) <==> |states[k].queue| < 4 * |states[k].workers|)
  {
    RunKeepsInv(cfg, states, steps, k);
    assert states[k + 1] == Apply(cfg, states[k], steps[k]);
  }

  // Runs cover every answer: whatever is being waited for may come with success or with any error, Differ may send
  // any chunk while there is room and stop at any time, and the watchdog may strike at any time.
  lemma AnyAnswerIsPossible(cfg: Config, s: State, err: Option<string>, c: ChunkInfo)
    ensures Enabled(cfg, s, Watchdog)
    ensures s.main.SettingUpSource? ==> Enabled(cfg, s, SetupSource(err))
    ensures s.main.SettingUpDestination? ==> Enabled(cfg, s, SetupDestination(err))
    ensures s.main.Producing? ==> Enabled(cfg, s, CloseChannel)
    ensures s.main.Producing? && |s.queue| < 4 * Threads(cfg) ==> Enabled(cfg, s, Send(c))
    ensures s.main.ChannelClosed? ==> Enabled(cfg, s, DifferReturns(err))
    ensures s.main.CallingSource? ==> Enabled(cfg, s, SourceDoneReturns(err))
    ensures s.main.CallingDestination? ==> Enabled(cfg, s, DestinationDoneReturns(err))
  {
  }

  lemma AnyCallMayFail(cfg: Config, s: State, err: Option<string>, left: Bytes, w: nat)
    requires w < |s.workers|
    ensures s.workers[w].stage.Fetching? ==> Enabled(cfg, s, Fetch(w, err, left))
    ensures s.workers[w].stage.Filling? ==> Enabled(cfg, s, Fill(w, err, left))
    ensures s.workers[w].stage.Skipping? ==> Enabled(cfg, s, Skip(w, err))
  {
  }
}
