/** What the answers given in a run of the change watcher decide: which error is returned, what is called after a
    failure, which events are reported, and when the ticker ticks. Said of the steps taken. */
module WatcherRuns {
  import opened Wrappers
  import opened ChangeWatcher
  import opened WatcherProofs
  import opened WatcherNotices
  import opened WatcherTheorems

  // A callback is running and returns an error.
  predicate CallbackFails(s: State, step: Step) {
    s.main.InCallback? && step.Main? && step.err.Some?
  }

  // Watch is connecting or waiting for the next event, and ends with an error.
  predicate WatchFails(s: State, step: Step) {
    (s.watch.Connecting? || s.watch.Reading?) && step.Watch? && step.next.End? && step.next.err.Some?
  }

  // Watch meets an event.
  predicate EventArrives(s: State, step: Step) {
    (s.watch.Connecting? || s.watch.Reading?) && step.Watch? && step.next.Event?
  }

  // ---------- whose error is returned ----------

  // What a step of the main loop does to the fields the theorems speak of.
  ghost predicate MainDoes(s: State, t: State, err: Option<string>) {
    && t.watch == s.watch && t.endErr == s.endErr
    && t.callbackErr == (if s.main.InCallback? then err else s.callbackErr)
    && t.watchErr == (if s.main.Blaming? then Some(s.main.err) else s.watchErr)
    && (t.main.Returned? ==> t.main.result == t.watchErr)
    && t.stopThread == (s.stopThread || s.main.Stopping?)
    && t.log == (if s.main.Choosing? then s.log + Chosen(s.sawChange, s.sawTimeout) else s.log)
  }

  // What the loop calls when it has seen these flags.
  function Chosen(change: bool, timeout: bool): seq<Happening> {
    if change then [Notified] else if timeout then [Ticked] else []
  }

  lemma LoopDoes(cfg: Config, s: State, err: Option<string>)
    requires MainReady(s)
    requires s.main.LoopTop? || s.main.Locking? || s.main.Testing? || s.main.Woken? || s.main.Collecting? ||
             s.main.Unlocking?
    ensures MainDoes(s, MainMove(cfg, s, err), err)
  {
    match s.main
    case LoopTop =>
    case Locking =>
    case Testing =>
    case Woken =>
    case Collecting =>
    case Unlocking =>
  }

  lemma CallbackDoes(cfg: Config, s: State, err: Option<string>)
    requires MainReady(s)
    requires s.main.Choosing? || s.main.InCallback? || s.main.Stopping? || s.main.Blaming? || s.main.Rearming? ||
             s.main.Assigning?
    ensures MainDoes(s, MainMove(cfg, s, err), err)
  {
    match s.main
    case Choosing =>
    case InCallback =>
    case Stopping(_) =>
    case Blaming(_) =>
    case Rearming =>
    case Assigning(_) =>
  }

  lemma FinaleDoes(cfg: Config, s: State, err: Option<string>)
    requires MainReady(s) && (s.main.FinalLocking? || s.main.FinalTesting? || s.main.FinalWoken?)
    ensures MainDoes(s, MainMove(cfg, s, err), err)
  {
    match s.main
    case FinalLocking =>
    case FinalTesting =>
    case FinalWoken =>
  }

  lemma MainIsDone(cfg: Config, s: State, err: Option<string>)
    requires MainReady(s)
    ensures MainDoes(s, MainMove(cfg, s, err), err)
  {
    if s.main.FinalLocking? || s.main.FinalTesting? || s.main.FinalWoken? {
      FinaleDoes(cfg, s, err);
    } else if s.main.Choosing? || s.main.InCallback? || s.main.Stopping? || s.main.Blaming? || s.main.Rearming? ||
      s.main.Assigning? {
      CallbackDoes(cfg, s, err);
    } else {
      LoopDoes(cfg, s, err);
    }
  }

  // What a step of the goroutine does to them.
  ghost predicate WatchDoes(s: State, t: State, next: Outcome) {
    && t.stopThread == s.stopThread && t.callbackErr == s.callbackErr && t.timer == s.timer
    && t.detectedChange == (s.detectedChange || s.watch.CbRecording?)
    && t.watchErr == (if s.watch.Ended? && s.watch.err.Some? then s.watch.err else s.watchErr)
    && t.endErr == (if s.watch.Connecting? || s.watch.Reading? then (if next.Event? then None else next.err)
                    else s.endErr)
    && t.log == (if s.watch.CbRecording? then s.log + [Recorded] else s.log)
    && (t.main == s.main || (t.main == Awaken(s.main) && (s.watch.CbSignalling? || s.watch.FinSignalling?)))
  }

  // Where it goes.
  function WatchNext(w: WatchPC, stop: bool, next: Outcome): WatchPC {
    match w
    case Connecting => Meets(next)
    case CbLocking => CbSignalling
    case CbSignalling => CbTesting
    case CbTesting => if stop then CbUnlocking(false) else CbRecording
    case CbRecording => CbUnlocking(true)
    case CbUnlocking(keepGoing) => if keepGoing then Reading else Ended(None)
    case Reading => Meets(next)
    case Ended(_) => FinLocking
    case FinLocking => FinQuitting
    case FinQuitting => FinDone
    case FinDone => FinSignalling
    case FinSignalling => FinUnlocking
    case _ => Gone
  }

  lemma CallbackEnters(s: State, next: Outcome)
    requires WatchReady(s) && (s.watch.CbLocking? || s.watch.CbSignalling? || s.watch.CbTesting?)
    ensures WatchDoes(s, WatchMove(s, next), next)
    ensures WatchMove(s, next).watch == WatchNext(s.watch, s.stopThread, next)
  {
  }

  lemma CallbackLeaves(s: State, next: Outcome)
    requires WatchReady(s) && (s.watch.CbRecording? || s.watch.CbUnlocking?)
    ensures WatchDoes(s, WatchMove(s, next), next)
    ensures WatchMove(s, next).watch == WatchNext(s.watch, s.stopThread, next)
  {
  }

  lemma WatchReads(s: State, next: Outcome)
    requires WatchReady(s) && (s.watch.Connecting? || s.watch.Reading? || s.watch.Ended?)
    ensures WatchDoes(s, WatchMove(s, next), next)
    ensures WatchMove(s, next).watch == WatchNext(s.watch, s.stopThread, next)
  {
  }

  lemma GoroutineFinishes(s: State, next: Outcome)
    requires WatchReady(s)
    requires s.watch.FinLocking? || s.watch.FinQuitting? || s.watch.FinDone? || s.watch.FinSignalling? ||
             s.watch.FinUnlocking?
    ensures WatchDoes(s, WatchMove(s, next), next)
    ensures WatchMove(s, next).watch == WatchNext(s.watch, s.stopThread, next)
  {
  }

  lemma WatchIsDone(s: State, next: Outcome)
    requires WatchReady(s)
    ensures WatchDoes(s, WatchMove(s, next), next)
    ensures WatchMove(s, next).watch == WatchNext(s.watch, s.stopThread, next)
  {
    if s.watch.CbLocking? || s.watch.CbSignalling? || s.watch.CbTesting? {
      CallbackEnters(s, next);
    } else if s.watch.CbRecording? || s.watch.CbUnlocking? {
      CallbackLeaves(s, next);
    } else if s.watch.Connecting? || s.watch.Reading? || s.watch.Ended? {
      WatchReads(s, next);
    } else {
      GoroutineFinishes(s, next);
    }
  }

  lemma TimerErrors(s: State, id: nat)
    requires TimerReady(s, id)
    ensures var t := TimerMove(s, id);
            && t.callbackErr == s.callbackErr && t.endErr == s.endErr && t.watchErr == s.watchErr
            && (t.main.Returned? ==> t.main == s.main)
  {
  }

  // What a step writes to the error that will be returned.
  function ErrorWritten(s: State, step: Step): Option<string> {
    if step.Main? && s.main.Blaming? then Some(s.main.err)
    else if step.Watch? && s.watch.Ended? then s.watch.err
    else None
  }

  lemma StepErrors(cfg: Config, s: State, step: Step)
    requires Inv(cfg, s) && Enabled(s, step)
    ensures var t := Apply(cfg, s, step);
            && t.callbackErr == (if CallbackFails(s, step) then step.err else s.callbackErr)
            && t.endErr == (if WatchFails(s, step) then step.next.err else s.endErr)
            && t.watchErr == (if ErrorWritten(s, step).Some? then ErrorWritten(s, step) else s.watchErr)
            && (t.main.Returned? && !s.main.Returned? ==> t.main.result == t.watchErr)
            && (s.main.Returned? ==> t.main == s.main)
  {
    match step
    case Main(err) => MainIsDone(cfg, s, err);
    case Watch(next) => WatchIsDone(s, next);
    case Timer(id) => TimerErrors(s, id);
  }

  // What step k brings is what changes.
  ghost predicate ErrorsMove(states: seq<State>, steps: seq<Step>, k: nat)
    requires |states| == |steps| + 1 && k < |steps|
  {
    var s, t, step := states[k], states[k + 1], steps[k];
    && t.callbackErr == (if CallbackFails(s, step) then step.err else s.callbackErr)
    && t.endErr == (if WatchFails(s, step) then step.next.err else s.endErr)
    && t.watchErr == (if ErrorWritten(s, step).Some? then ErrorWritten(s, step) else s.watchErr)
  }

  ghost predicate ErrorsFollow(states: seq<State>, steps: seq<Step>) {
    && |states| == |steps| + 1
    && states[0].callbackErr.None? && states[0].endErr.None? && states[0].watchErr.None?
    && forall k :: 0 <= k < |steps| ==> ErrorsMove(states, steps, k)
  }

  lemma RunErrorsFollow(cfg: Config, states: seq<State>, steps: seq<Step>)
    requires IsRun(cfg, states, steps)
    ensures ErrorsFollow(states, steps)
  {
    forall k | 0 <= k < |steps|
      ensures ErrorsMove(states, steps, k)
    {
      RunKeepsInv(cfg, states, steps, k);
      StepErrors(cfg, states[k], steps[k]);
    }
  }

  // The value is the one written last, or there is none and nothing was written.
  ghost predicate LastOf(writes: seq<Option<string>>, value: Option<string>) {
    if value.None? then forall i :: 0 <= i < |writes| ==> writes[i].None?
    else exists i :: 0 <= i < |writes| && writes[i] == value && forall j :: i < j < |writes| ==> writes[j].None?
  }

  lemma LastOfOneMore(writes: seq<Option<string>>, value: Option<string>, w: Option<string>)
    requires LastOf(writes, value)
    ensures LastOf(writes + [w], if w.Some? then w else value)
  {
    var all := writes + [w];
    if w.Some? {
      assert all[|writes|] == w;
    } else if value.Some? {
      var i :| 0 <= i < |writes| && writes[i] == value && forall j :: i < j < |writes| ==> writes[j].None?;
      assert all[i] == value;
    }
  }

  // What the steps of a run bring: errors of callbacks, of Watch, and errors written.
  function CallbackErrors(states: seq<State>, steps: seq<Step>): (errs: seq<Option<string>>)
    requires |states| == |steps| + 1
    ensures |errs| == |steps|
    ensures forall k :: 0 <= k < |steps| ==>
              errs[k] == if CallbackFails(states[k], steps[k]) then steps[k].err else None
  {
    seq(|steps|, k requires 0 <= k < |steps| => if CallbackFails(states[k], steps[k]) then steps[k].err else None)
  }

  function EndErrors(states: seq<State>, steps: seq<Step>): (errs: seq<Option<string>>)
    requires |states| == |steps| + 1
    ensures |errs| == |steps|
    ensures forall k :: 0 <= k < |steps| ==>
              errs[k] == if WatchFails(states[k], steps[k]) then steps[k].next.err else None
  {
    seq(|steps|, k requires 0 <= k < |steps| => if WatchFails(states[k], steps[k]) then steps[k].next.err else None)
  }

  function ErrorsWritten(states: seq<State>, steps: seq<Step>): (errs: seq<Option<string>>)
    requires |states| == |steps| + 1
    ensures |errs| == |steps|
    ensures forall k :: 0 <= k < |steps| ==> errs[k] == ErrorWritten(states[k], steps[k])
  {
    seq(|steps|, k requires 0 <= k < |steps| => ErrorWritten(states[k], steps[k]))
  }

  lemma OneMoreError(writes: seq<Option<string>>, before: Option<string>, after: Option<string>, k: nat)
    requires k < |writes| && LastOf(writes[..k], before) && after == if writes[k].Some? then writes[k] else before
    ensures LastOf(writes[..k + 1], after)
  {
    assert writes[..k + 1] == writes[..k] + [writes[k]];
    LastOfOneMore(writes[..k], before, writes[k]);
  }

  lemma {:induction false} CallbackErrorIsOfAStep(states: seq<State>, steps: seq<Step>, k: nat)
    requires ErrorsFollow(states, steps) && k <= |steps|
    ensures LastOf(CallbackErrors(states, steps)[..k], states[k].callbackErr)
  {
    if k > 0 {
      CallbackErrorIsOfAStep(states, steps, k - 1);
      assert ErrorsMove(states, steps, k - 1);
      OneMoreError(CallbackErrors(states, steps), states[k - 1].callbackErr, states[k].callbackErr, k - 1);
    }
  }

  lemma {:induction false} EndErrorIsOfAStep(states: seq<State>, steps: seq<Step>, k: nat)
    requires ErrorsFollow(states, steps) && k <= |steps|
    ensures LastOf(EndErrors(states, steps)[..k], states[k].endErr)
  {
    if k > 0 {
      EndErrorIsOfAStep(states, steps, k - 1);
      assert ErrorsMove(states, steps, k - 1);
      OneMoreError(EndErrors(states, steps), states[k - 1].endErr, states[k].endErr, k - 1);
    }
  }

  lemma {:induction false} WatchErrIsOfAStep(states: seq<State>, steps: seq<Step>, k: nat)
    requires ErrorsFollow(states, steps) && k <= |steps|
    ensures LastOf(ErrorsWritten(states, steps)[..k], states[k].watchErr)
  {
    if k > 0 {
      WatchErrIsOfAStep(states, steps, k - 1);
      assert ErrorsMove(states, steps, k - 1);
      OneMoreError(ErrorsWritten(states, steps), states[k - 1].watchErr, states[k].watchErr, k - 1);
    }
  }

  // A callback or Watch returned that error in step i.
  ghost predicate FailsWith(states: seq<State>, steps: seq<Step>, i: nat, err: Option<string>)
    requires i < |steps| < |states|
  {
    || (CallbackFails(states[i], steps[i]) && steps[i].err == err)
    || (WatchFails(states[i], steps[i]) && steps[i].next.err == err)
  }

  lemma ErrorsAreOfSteps(states: seq<State>, steps: seq<Step>)
    requires ErrorsFollow(states, steps)
    ensures var s := states[|steps|];
            && (s.callbackErr.None? && s.endErr.None? <==>
                  forall i :: 0 <= i < |steps| ==>
                    !CallbackFails(states[i], steps[i]) && !WatchFails(states[i], steps[i]))
            && (forall err: Option<string> :: err.Some? && (err == s.callbackErr || err == s.endErr) ==>
                  exists i: nat :: i < |steps| && FailsWith(states, steps, i, err))
  {
    CallbackErrorIsOfAStep(states, steps, |steps|);
    EndErrorIsOfAStep(states, steps, |steps|);
    var w1, w2 := CallbackErrors(states, steps), EndErrors(states, steps);
    assert w1[..|steps|] == w1 && w2[..|steps|] == w2;
    assert forall i :: 0 <= i < |steps| ==> (w1[i].Some? <==> CallbackFails(states[i], steps[i]));
    assert forall i :: 0 <= i < |steps| ==> (w2[i].Some? <==> WatchFails(states[i], steps[i]));
    assert forall i: nat :: i < |steps| && w1[i].Some? ==> FailsWith(states, steps, i, w1[i]);
    assert forall i: nat :: i < |steps| && w2[i].Some? ==> FailsWith(states, steps, i, w2[i]);
  }

  // WatchForChange returns nil exactly when in the whole run no callback returned an error and Watch did not end
  // with one; otherwise it returns an error that one of them returned.
  lemma ResultIsOfTheRun(cfg: Config, states: seq<State>, steps: seq<Step>)
    requires IsRun(cfg, states, steps) && states[|steps|].main.Returned?
    ensures var result := states[|steps|].main.result;
            && (result.None? <==> forall i :: 0 <= i < |steps| ==>
                                    !CallbackFails(states[i], steps[i]) && !WatchFails(states[i], steps[i]))
            && (result.Some? ==> exists i: nat :: i < |steps| && FailsWith(states, steps, i, result))
  {
    RunErrorsFollow(cfg, states, steps);
    ErrorsAreOfSteps(states, steps);
    assert Reachable(cfg, states[|steps|]);
    WatcherResult(cfg, states[|steps|]);
  }

  ghost predicate ReturnsWatchErr(s: State) {
    s.main.Returned? ==> s.main.result == s.watchErr
  }

  lemma StepReturnsWatchErr(cfg: Config, s: State, step: Step)
    requires Inv(cfg, s) && Enabled(s, step) && ReturnsWatchErr(s)
    ensures ReturnsWatchErr(Apply(cfg, s, step))
  {
    StepErrors(cfg, s, step);
    assert s.main.Returned? ==> s.watch.Gone?;
  }

  lemma {:induction false} ResultIsWatchErr(cfg: Config, states: seq<State>, steps: seq<Step>, k: nat)
    requires IsRun(cfg, states, steps) && k <= |steps|
    ensures ReturnsWatchErr(states[k])
  {
    if k > 0 {
      ResultIsWatchErr(cfg, states, steps, k - 1);
      RunKeepsInv(cfg, states, steps, k - 1);
      StepReturnsWatchErr(cfg, states[k - 1], steps[k - 1]);
    }
  }

  // When both failed, the error returned is the one written last.
  lemma LastErrorWins(cfg: Config, states: seq<State>, steps: seq<Step>)
    requires IsRun(cfg, states, steps) && states[|steps|].main.Returned?
    ensures LastOf(ErrorsWritten(states, steps), states[|steps|].main.result)
  {
    ResultIsWatchErr(cfg, states, steps, |steps|);
    RunErrorsFollow(cfg, states, steps);
    WatchErrIsOfAStep(states, steps, |steps|);
    assert ErrorsWritten(states, steps)[..|steps|] == ErrorsWritten(states, steps);
  }

  // ---------- after a callback has failed ----------

  // Only events were added to the log.
  ghost predicate OnlyEvents(early: seq<Happening>, log: seq<Happening>) {
    early <= log && forall i :: |early| <= i < |log| ==> log[i].Recorded?
  }

  // The loop is on its way to return the error e, and after its first step has told the goroutine to stop.
  ghost predicate OnItsWayOut(s: State, e: string) {
    || s.main == Stopping(e)
    || (s.stopThread && (s.main == Blaming(e) || (s.main.LoopTop? && s.quitting) || InFinale(s.main)))
  }

  lemma MainGoesOut(cfg: Config, s: State, err: Option<string>, e: string)
    requires MainReady(s) && OnItsWayOut(s, e) && (InFinale(s.main) ==> s.quitting)
    ensures OnItsWayOut(MainMove(cfg, s, err), e) && MainMove(cfg, s, err).log == s.log
  {
    MainIsDone(cfg, s, err);
  }

  lemma StepGoesOut(cfg: Config, s: State, step: Step, e: string)
    requires Inv(cfg, s) && Enabled(s, step) && OnItsWayOut(s, e)
    ensures OnItsWayOut(Apply(cfg, s, step), e) && OnlyEvents(s.log, Apply(cfg, s, step).log)
  {
    match step
    case Main(err) => MainGoesOut(cfg, s, err, e);
    case Watch(next) => WatchIsDone(s, next);
    case Timer(id) =>
      var t := TimerMove(s, id);
      assert t.log == s.log && t.stopThread == s.stopThread && t.quitting == s.quitting;
      assert t.main == s.main || t.main == Awaken(s.main);
  }

  lemma FailureStops(cfg: Config, s: State, err: Option<string>)
    requires CallbackFails(s, Main(err))
    ensures OnItsWayOut(MainMove(cfg, s, err), err.value) && MainMove(cfg, s, err).log == s.log
  {
  }

  lemma EventsAdded(a: seq<Happening>, b: seq<Happening>, c: seq<Happening>)
    requires OnlyEvents(a, b) && OnlyEvents(b, c)
    ensures OnlyEvents(a, c)
  {
  }

  // After a callback returned an error no callback is called again; the loop tells the goroutine to stop, and
  // waits for it to end.
  lemma {:induction false} NothingIsCalledAfterFailure(cfg: Config, states: seq<State>, steps: seq<Step>,
                                                       k: nat, n: nat)
    requires IsRun(cfg, states, steps) && k < n <= |steps| && CallbackFails(states[k], steps[k])
    ensures OnItsWayOut(states[n], steps[k].err.value) && OnlyEvents(states[k].log, states[n].log)
    decreases n
  {
    assert states[n - 1 + 1] == Apply(cfg, states[n - 1], steps[n - 1]);
    if k == n - 1 {
      FailureStops(cfg, states[k], steps[k].err);
    } else {
      NothingIsCalledAfterFailure(cfg, states, steps, k, n - 1);
      RunKeepsInv(cfg, states, steps, n - 1);
      StepGoesOut(cfg, states[n - 1], steps[n - 1], steps[k].err.value);
      EventsAdded(states[k].log, states[n - 1].log, states[n].log);
    }
  }

  // ---------- stopping the goroutine ----------

  // The watch callback has been entered and has yet to look at stopThread, or the goroutine is ending.
  predicate Ending(w: WatchPC) {
    || w.CbLocking? || w.CbSignalling? || w.CbTesting? || w == CbUnlocking(false) || w == Ended(None)
    || w.FinLocking? || w.FinQuitting? || w.FinDone? || w.FinSignalling? || w.FinUnlocking? || w.Gone?
  }

  function WatchStepsLeft(w: WatchPC): nat {
    match w
    case CbLocking => 10
    case CbSignalling => 9
    case CbTesting => 8
    case CbUnlocking(_) => 7
    case Ended(_) => 6
    case FinLocking => 5
    case FinQuitting => 4
    case FinDone => 3
    case FinSignalling => 2
    case FinUnlocking => 1
    case _ => 0
  }

  lemma EndsNext(w: WatchPC, next: Outcome)
    requires Ending(w) && !w.Gone?
    ensures var w' := WatchNext(w, true, next); Ending(w') && WatchStepsLeft(w') < WatchStepsLeft(w)
  {
  }

  // The goroutine has been told to stop, has added no event to the log, and has this many steps left.
  ghost predicate EndsWithin(s: State, early: seq<Happening>, left: int) {
    && s.stopThread && Ending(s.watch) && WatchStepsLeft(s.watch) <= left
    && early <= s.log && forall i :: |early| <= i < |s.log| ==> !s.log[i].Recorded?
  }

  lemma StepEnds(cfg: Config, s: State, step: Step, early: seq<Happening>, left: int)
    requires Enabled(s, step) && EndsWithin(s, early, left)
    ensures EndsWithin(Apply(cfg, s, step), early, left - (if step.Watch? then 1 else 0))
  {
    match step
    case Main(err) => MainIsDone(cfg, s, err);
    case Watch(next) =>
      WatchIsDone(s, next);
      EndsNext(s.watch, next);
    case Timer(id) =>
      assert TimerMove(s, id).watch == s.watch && TimerMove(s, id).log == s.log;
  }

  function WatchSteps(steps: seq<Step>, k: nat, n: nat): nat
    requires k <= n <= |steps|
  {
    if k == n then 0 else WatchSteps(steps, k, n - 1) + (if steps[n - 1].Watch? then 1 else 0)
  }

  lemma {:induction false} EndsStepByStep(cfg: Config, states: seq<State>, steps: seq<Step>, k: nat, n: nat)
    requires IsRun(cfg, states, steps) && k <= n <= |steps|
    requires states[k].stopThread && Ending(states[k].watch)
    ensures EndsWithin(states[n], states[k].log, WatchStepsLeft(states[k].watch) - WatchSteps(steps, k, n))
    decreases n
  {
    if k < n {
      EndsStepByStep(cfg, states, steps, k, n - 1);
      StepEnds(cfg, states[n - 1], steps[n - 1], states[k].log,
               WatchStepsLeft(states[k].watch) - WatchSteps(steps, k, n - 1));
    }
  }

  // The first watch callback to look at stopThread after it was set records no event and ends the goroutine: it
  // takes ten steps at the most, and is gone when it has taken all it has left.
  lemma StoppedWatchEnds(cfg: Config, states: seq<State>, steps: seq<Step>, k: nat, n: nat)
    requires IsRun(cfg, states, steps) && k <= n <= |steps|
    requires states[k].stopThread && Ending(states[k].watch)
    ensures WatchSteps(steps, k, n) <= WatchStepsLeft(states[k].watch) <= 10
    ensures WatchSteps(steps, k, n) == WatchStepsLeft(states[k].watch) ==> states[n].watch.Gone?
    ensures states[k].log <= states[n].log
    ensures forall i :: |states[k].log| <= i < |states[n].log| ==> !states[n].log[i].Recorded?
  {
    EndsStepByStep(cfg, states, steps, k, n);
  }

  // Runs cover every answer: a callback may return any error or none, Watch may meet an event or end in any way
  // whenever it waits for one, and a timer that has been armed may expire at any time.
  lemma AnyAnswerIsPossible(s: State, err: Option<string>, next: Outcome, id: nat)
    ensures s.main.InCallback? ==> Enabled(s, Main(err))
    ensures s.watch.Connecting? || s.watch.Reading? ==> Enabled(s, Watch(next))
    ensures id < |s.timers| && s.timers[id].Armed? ==> Enabled(s, Timer(id))
  {
  }
}
