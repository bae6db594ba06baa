/** What every step of the change watcher keeps. */
module WatcherProofs {
  import opened Wrappers
  import opened ChangeWatcher

  // ---------- who holds the mutex ----------

  predicate MainInside(m: MainPC) {
    m.Testing? || m.Collecting? || m.Unlocking? || m.FinalTesting?
  }

  predicate WatchInside(w: WatchPC) {
    w.CbSignalling? || w.CbTesting? || w.CbRecording? || w.CbUnlocking? ||
    w.FinQuitting? || w.FinDone? || w.FinSignalling? || w.FinUnlocking?
  }

  predicate TimerInside(t: TimerPC) {
    t.TickSetting? || t.TickClearing? || t.TickSignalling? || t.TickUnlocking?
  }

  ghost predicate MutexInv(s: State) {
    && (MainInside(s.main) <==> s.lock.MainThread?)
    && (WatchInside(s.watch) <==> s.lock.WatchThread?)
    && (forall i :: 0 <= i < |s.timers| ==> (TimerInside(s.timers[i]) <==> s.lock == TimerThread(i)))
    && (s.lock.TimerThread? ==> s.lock.id < |s.timers|)
  }

  // ---------- the quit flags ----------

  predicate PastQuit(w: WatchPC) {
    w.FinDone? || w.FinSignalling? || w.FinUnlocking? || w.Gone?
  }

  predicate PastDone(w: WatchPC) {
    w.FinSignalling? || w.FinUnlocking? || w.Gone?
  }

  predicate InFinale(m: MainPC) {
    m.FinalLocking? || m.FinalTesting? || m.FinalParked? || m.FinalWoken? || m.Returned?
  }

  ghost predicate QuitInv(s: State) {
    && (s.mustQuit <==> PastQuit(s.watch))
    && (s.threadDone <==> PastDone(s.watch))
    && (s.quitting && s.callbackErr.None? ==> s.watch.Gone? && !s.detectedChange)
    && (InFinale(s.main) ==> s.quitting)
    && (s.stopThread ==> s.callbackErr.Some?)
    && (s.main.Returned? ==> s.watch.Gone?)
    && (s.main.Stopping? || s.main.Blaming? ==> s.callbackErr.Some?)
    && (s.callbackErr.Some? ==>
          s.main.Stopping? || s.main.Blaming? || (s.main.LoopTop? && s.quitting) || InFinale(s.main))
  }

  // ---------- wake-ups ----------

  ghost predicate WakeInv(s: State) {
    && (s.main.Parked? ==>
          && !s.detectedChange
          && (s.mustQuit ==> s.watch.FinDone? || s.watch.FinSignalling?)
          && (s.timedOut ==>
                s.lock.TimerThread? && s.lock.id < |s.timers| &&
                (s.timers[s.lock.id].TickClearing? || s.timers[s.lock.id].TickSignalling?)))
    && (s.watch.CbTesting? || s.watch.CbRecording? ==> !s.main.Parked?)
    && (forall i :: 0 <= i < |s.timers| && (s.timers[i].TickClearing? || s.timers[i].TickSignalling?) ==> s.timedOut)
    && (s.main.Woken? ==> Flagged(s) || s.watch.CbTesting? || s.watch.CbRecording?)
    && (s.main.Collecting? ==> Flagged(s))
    && (s.main.FinalParked? && s.threadDone ==> s.watch.FinSignalling?)
  }

  // ---------- changes, ticks and errors ----------

  ghost predicate ChangeInv(s: State) {
    && (Pending(s.log) ==>
          s.detectedChange || ((s.main.Unlocking? || s.main.Choosing?) && s.sawChange) || s.callbackErr.Some?)
    && (s.detectedChange || ((s.main.Unlocking? || s.main.Choosing?) && s.sawChange) || Notified in s.log ==>
          Recorded in s.log)
  }

  ghost predicate TickInv(cfg: Config, s: State) {
    && (s.timers != [] ==> cfg.period > 0)
    && (s.timedOut || s.sawTimeout || Ticked in s.log ==> cfg.period > 0)
  }

  ghost predicate ErrorInv(s: State) {
    && (s.watchErr.Some? ==> s.callbackErr.Some? || s.endErr.Some?)
    && (s.callbackErr.Some? && !s.main.Stopping? && !s.main.Blaming? ==> s.watchErr.Some?)
    && (s.endErr.Some? && !s.watch.Ended? ==> s.watchErr.Some?)
    && (s.watch.Ended? ==> s.watch.err == s.endErr)
    && (s.endErr.Some? ==> s.watch.Ended? || s.watch.FinLocking? || s.watch.FinQuitting? || PastQuit(s.watch))
    && (s.main.Returned? ==> (s.main.result.None? <==> s.callbackErr.None? && s.endErr.None?))
  }

  // Control: who may do what next. History: what has been done.
  ghost predicate ControlInv(s: State) {
    MutexInv(s) && QuitInv(s) && WakeInv(s)
  }

  ghost predicate HistoryInv(cfg: Config, s: State) {
    ChangeInv(s) && TickInv(cfg, s) && ErrorInv(s)
  }

  ghost predicate Inv(cfg: Config, s: State) {
    ControlInv(s) && HistoryInv(cfg, s)
  }

  lemma InvInit(cfg: Config)
    ensures Inv(cfg, Init())
  {
  }

  lemma PendingAfter(log: seq<Happening>, h: Happening)
    ensures Pending(log + [h]) <==> h.Recorded? || (h.Ticked? && Pending(log))
    ensures forall g :: g in log + [h] <==> g in log || g == h
  {
    assert (log + [h])[..|log|] == log;
  }

  // ---------- the main loop's steps ----------

  lemma MainLocksKeepControl(cfg: Config, s: State, err: Option<string>)
    requires ControlInv(s) && MainReady(s)
    requires s.main.Locking? || s.main.Woken? || s.main.FinalLocking? || s.main.FinalWoken?
    ensures ControlInv(MainMove(cfg, s, err))
  {
    match s.main
    case Locking =>
    case Woken =>
    case FinalLocking =>
    case FinalWoken =>
  }

  lemma MainLocksKeepHistory(cfg: Config, s: State, err: Option<string>)
    requires ControlInv(s) && HistoryInv(cfg, s) && MainReady(s)
    requires s.main.Locking? || s.main.Woken? || s.main.FinalLocking? || s.main.FinalWoken?
    ensures HistoryInv(cfg, MainMove(cfg, s, err))
  {
    match s.main
    case Locking =>
    case Woken =>
    case FinalLocking =>
    case FinalWoken =>
  }

  lemma MainCollectsKeepControl(cfg: Config, s: State, err: Option<string>)
    requires ControlInv(s) && MainReady(s)
    requires s.main.LoopTop? || s.main.Collecting? || s.main.Unlocking?
    ensures ControlInv(MainMove(cfg, s, err))
  {
    match s.main
    case LoopTop =>
    case Collecting =>
    case Unlocking =>
  }

  lemma MainCollectsKeepHistory(cfg: Config, s: State, err: Option<string>)
    requires ControlInv(s) && HistoryInv(cfg, s) && MainReady(s)
    requires s.main.LoopTop? || s.main.Collecting? || s.main.Unlocking?
    ensures HistoryInv(cfg, MainMove(cfg, s, err))
  {
    match s.main
    case LoopTop =>
    case Collecting =>
    case Unlocking =>
  }

  lemma MainWaitsKeepControl(cfg: Config, s: State, err: Option<string>)
    requires ControlInv(s) && MainReady(s)
    requires s.main.Testing?
    ensures ControlInv(MainMove(cfg, s, err))
  {
  }

  lemma MainWaitsKeepHistory(cfg: Config, s: State, err: Option<string>)
    requires ControlInv(s) && HistoryInv(cfg, s) && MainReady(s)
    requires s.main.Testing?
    ensures HistoryInv(cfg, MainMove(cfg, s, err))
  {
  }

  lemma MainReturnsKeepControl(cfg: Config, s: State, err: Option<string>)
    requires ControlInv(s) && MainReady(s)
    requires s.main.FinalTesting?
    ensures ControlInv(MainMove(cfg, s, err))
  {
  }

  lemma MainReturnsKeepHistory(cfg: Config, s: State, err: Option<string>)
    requires ControlInv(s) && HistoryInv(cfg, s) && MainReady(s)
    requires s.main.FinalTesting?
    ensures HistoryInv(cfg, MainMove(cfg, s, err))
  {
  }

  lemma MainChoosesKeepControl(cfg: Config, s: State, err: Option<string>)
    requires ControlInv(s) && MainReady(s)
    requires s.main.Choosing?
    ensures ControlInv(MainMove(cfg, s, err))
  {
  }

  lemma MainChoosesKeepHistory(cfg: Config, s: State, err: Option<string>)
    requires ControlInv(s) && HistoryInv(cfg, s) && MainReady(s)
    requires s.main.Choosing?
    ensures HistoryInv(cfg, MainMove(cfg, s, err))
  {
    PendingAfter(s.log, Notified);
    PendingAfter(s.log, Ticked);
  }

  lemma MainFailsKeepControl(cfg: Config, s: State, err: Option<string>)
    requires ControlInv(s) && MainReady(s)
    requires s.main.InCallback? || s.main.Stopping? || s.main.Blaming?
    ensures ControlInv(MainMove(cfg, s, err))
  {
    match s.main
    case InCallback =>
    case Stopping(_) =>
    case Blaming(_) =>
  }

  lemma MainFailsKeepHistory(cfg: Config, s: State, err: Option<string>)
    requires ControlInv(s) && HistoryInv(cfg, s) && MainReady(s)
    requires s.main.InCallback? || s.main.Stopping? || s.main.Blaming?
    ensures HistoryInv(cfg, MainMove(cfg, s, err))
  {
    match s.main
    case InCallback =>
    case Stopping(_) =>
    case Blaming(_) =>
  }

  lemma MainRearmsKeepControl(cfg: Config, s: State, err: Option<string>)
    requires ControlInv(s) && MainReady(s)
    requires s.main.Rearming? || s.main.Assigning?
    ensures ControlInv(MainMove(cfg, s, err))
  {
    match s.main
    case Rearming =>
    case Assigning(_) =>
  }

  lemma MainRearmsKeepHistory(cfg: Config, s: State, err: Option<string>)
    requires ControlInv(s) && HistoryInv(cfg, s) && MainReady(s)
    requires s.main.Rearming? || s.main.Assigning?
    ensures HistoryInv(cfg, MainMove(cfg, s, err))
  {
    match s.main
    case Rearming =>
    case Assigning(_) =>
  }

  // ---------- the watch goroutine's steps ----------

  lemma WatchReadsKeepControl(cfg: Config, s: State, next: Outcome)
    requires ControlInv(s) && WatchReady(s)
    requires s.watch.Connecting? || s.watch.Reading?
    ensures ControlInv(WatchMove(s, next))
  {
    match s.watch
    case Connecting =>
    case Reading =>
  }

  lemma WatchReadsKeepHistory(cfg: Config, s: State, next: Outcome)
    requires ControlInv(s) && HistoryInv(cfg, s) && WatchReady(s)
    requires s.watch.Connecting? || s.watch.Reading?
    ensures HistoryInv(cfg, WatchMove(s, next))
  {
    match s.watch
    case Connecting =>
    case Reading =>
  }

  lemma WatchCallsKeepControl(cfg: Config, s: State, next: Outcome)
    requires ControlInv(s) && WatchReady(s)
    requires s.watch.CbLocking? || s.watch.CbTesting? || s.watch.CbUnlocking? || s.watch.Ended?
    ensures ControlInv(WatchMove(s, next))
  {
    match s.watch
    case CbLocking =>
    case CbTesting =>
    case CbUnlocking(_) =>
    case Ended(_) =>
  }

  lemma WatchCallsKeepHistory(cfg: Config, s: State, next: Outcome)
    requires ControlInv(s) && HistoryInv(cfg, s) && WatchReady(s)
    requires s.watch.CbLocking? || s.watch.CbTesting? || s.watch.CbUnlocking? || s.watch.Ended?
    ensures HistoryInv(cfg, WatchMove(s, next))
  {
    match s.watch
    case CbLocking =>
    case CbTesting =>
    case CbUnlocking(_) =>
    case Ended(_) =>
  }

  lemma WatchRecordsKeepControl(cfg: Config, s: State, next: Outcome)
    requires ControlInv(s) && WatchReady(s)
    requires s.watch.CbRecording?
    ensures ControlInv(WatchMove(s, next))
  {
  }

  lemma WatchRecordsKeepHistory(cfg: Config, s: State, next: Outcome)
    requires ControlInv(s) && HistoryInv(cfg, s) && WatchReady(s)
    requires s.watch.CbRecording?
    ensures HistoryInv(cfg, WatchMove(s, next))
  {
    PendingAfter(s.log, Recorded);
  }

  lemma WatchCallSignalsKeepControl(cfg: Config, s: State, next: Outcome)
    requires ControlInv(s) && WatchReady(s)
    requires s.watch.CbSignalling?
    ensures ControlInv(WatchMove(s, next))
  {
  }

  lemma WatchCallSignalsKeepHistory(cfg: Config, s: State, next: Outcome)
    requires ControlInv(s) && HistoryInv(cfg, s) && WatchReady(s)
    requires s.watch.CbSignalling?
    ensures HistoryInv(cfg, WatchMove(s, next))
  {
  }

  // The last signal changes nothing but who waits, and where the goroutine is.
  lemma FinalSignalFrame(s: State, next: Outcome)
    requires s.watch.FinSignalling?
    ensures WatchMove(s, next) == s.(watch := FinUnlocking, main := Awaken(s.main))
  {
  }

  lemma FinalSignalKeepsLock(s: State)
    requires MutexInv(s) && QuitInv(s) && s.watch.FinSignalling?
    ensures MutexInv(s.(watch := FinUnlocking, main := Awaken(s.main)))
    ensures QuitInv(s.(watch := FinUnlocking, main := Awaken(s.main)))
  {
  }

  lemma FinalSignalKeepsWake(s: State)
    requires ControlInv(s) && s.watch.FinSignalling?
    ensures WakeInv(s.(watch := FinUnlocking, main := Awaken(s.main)))
  {
  }

  lemma WatchFinalSignalsKeepControl(cfg: Config, s: State, next: Outcome)
    requires ControlInv(s) && WatchReady(s)
    requires s.watch.FinSignalling?
    ensures ControlInv(WatchMove(s, next))
  {
    FinalSignalFrame(s, next);
    FinalSignalKeepsLock(s);
    FinalSignalKeepsWake(s);
  }

  lemma FinalSignalKeepsChanges(cfg: Config, s: State)
    requires ChangeInv(s) && TickInv(cfg, s) && s.watch.FinSignalling?
    ensures ChangeInv(s.(watch := FinUnlocking, main := Awaken(s.main)))
    ensures TickInv(cfg, s.(watch := FinUnlocking, main := Awaken(s.main)))
  {
  }

  lemma FinalSignalKeepsErrors(s: State)
    requires ErrorInv(s) && QuitInv(s) && s.watch.FinSignalling?
    ensures ErrorInv(s.(watch := FinUnlocking, main := Awaken(s.main)))
  {
  }

  lemma WatchFinalSignalsKeepHistory(cfg: Config, s: State, next: Outcome)
    requires ControlInv(s) && HistoryInv(cfg, s) && WatchReady(s)
    requires s.watch.FinSignalling?
    ensures HistoryInv(cfg, WatchMove(s, next))
  {
    FinalSignalFrame(s, next);
    FinalSignalKeepsChanges(cfg, s);
    FinalSignalKeepsErrors(s);
  }

  lemma WatchFinishesKeepControl(cfg: Config, s: State, next: Outcome)
    requires ControlInv(s) && WatchReady(s)
    requires s.watch.FinLocking? || s.watch.FinQuitting? || s.watch.FinDone? || s.watch.FinUnlocking?
    ensures ControlInv(WatchMove(s, next))
  {
    match s.watch
    case FinLocking =>
    case FinQuitting =>
    case FinDone =>
    case FinUnlocking =>
  }

  lemma WatchFinishesKeepHistory(cfg: Config, s: State, next: Outcome)
    requires ControlInv(s) && HistoryInv(cfg, s) && WatchReady(s)
    requires s.watch.FinLocking? || s.watch.FinQuitting? || s.watch.FinDone? || s.watch.FinUnlocking?
    ensures HistoryInv(cfg, WatchMove(s, next))
  {
    match s.watch
    case FinLocking =>
    case FinQuitting =>
    case FinDone =>
    case FinUnlocking =>
  }

  // ---------- the timers' steps ----------

  lemma TimersKeepControl(cfg: Config, s: State, id: nat)
    requires ControlInv(s) && TimerReady(s, id)
    requires s.timers[id].Armed? || s.timers[id].Fired? || s.timers[id].TickSetting? || s.timers[id].TickClearing? ||
             s.timers[id].TickSignalling? || s.timers[id].TickUnlocking?
    ensures ControlInv(TimerMove(s, id))
  {
    match s.timers[id]
    case Armed =>
    case Fired =>
    case TickSetting =>
    case TickClearing =>
    case TickSignalling =>
    case TickUnlocking =>
  }

  lemma TimersKeepHistory(cfg: Config, s: State, id: nat)
    requires ControlInv(s) && HistoryInv(cfg, s) && TimerReady(s, id)
    requires s.timers[id].Armed? || s.timers[id].Fired? || s.timers[id].TickSetting? || s.timers[id].TickClearing? ||
             s.timers[id].TickSignalling? || s.timers[id].TickUnlocking?
    ensures HistoryInv(cfg, TimerMove(s, id))
  {
    match s.timers[id]
    case Armed =>
    case Fired =>
    case TickSetting =>
    case TickClearing =>
    case TickSignalling =>
    case TickUnlocking =>
  }

  // ---------- every step ----------

  lemma MainKeepsInv(cfg: Config, s: State, err: Option<string>)
    requires Inv(cfg, s) && MainReady(s)
    ensures Inv(cfg, MainMove(cfg, s, err))
  {
    match s.main
    case Locking => MainLocksKeepControl(cfg, s, err); MainLocksKeepHistory(cfg, s, err);
    case Woken => MainLocksKeepControl(cfg, s, err); MainLocksKeepHistory(cfg, s, err);
    case FinalLocking => MainLocksKeepControl(cfg, s, err); MainLocksKeepHistory(cfg, s, err);
    case FinalWoken => MainLocksKeepControl(cfg, s, err); MainLocksKeepHistory(cfg, s, err);
    case LoopTop => MainCollectsKeepControl(cfg, s, err); MainCollectsKeepHistory(cfg, s, err);
    case Collecting => MainCollectsKeepControl(cfg, s, err); MainCollectsKeepHistory(cfg, s, err);
    case Unlocking => MainCollectsKeepControl(cfg, s, err); MainCollectsKeepHistory(cfg, s, err);
    case Testing => MainWaitsKeepControl(cfg, s, err); MainWaitsKeepHistory(cfg, s, err);
    case FinalTesting => MainReturnsKeepControl(cfg, s, err); MainReturnsKeepHistory(cfg, s, err);
    case Choosing => MainChoosesKeepControl(cfg, s, err); MainChoosesKeepHistory(cfg, s, err);
    case InCallback => MainFailsKeepControl(cfg, s, err); MainFailsKeepHistory(cfg, s, err);
    case Stopping(_) => MainFailsKeepControl(cfg, s, err); MainFailsKeepHistory(cfg, s, err);
    case Blaming(_) => MainFailsKeepControl(cfg, s, err); MainFailsKeepHistory(cfg, s, err);
    case Rearming => MainRearmsKeepControl(cfg, s, err); MainRearmsKeepHistory(cfg, s, err);
    case Assigning(_) => MainRearmsKeepControl(cfg, s, err); MainRearmsKeepHistory(cfg, s, err);
  }

  lemma WatchKeepsInv(cfg: Config, s: State, next: Outcome)
    requires Inv(cfg, s) && WatchReady(s)
    ensures Inv(cfg, WatchMove(s, next))
  {
    match s.watch
    case Connecting => WatchReadsKeepControl(cfg, s, next); WatchReadsKeepHistory(cfg, s, next);
    case Reading => WatchReadsKeepControl(cfg, s, next); WatchReadsKeepHistory(cfg, s, next);
    case CbSignalling => WatchCallSignalsKeepControl(cfg, s, next); WatchCallSignalsKeepHistory(cfg, s, next);
    case CbRecording => WatchRecordsKeepControl(cfg, s, next); WatchRecordsKeepHistory(cfg, s, next);
    case CbLocking => WatchCallsKeepControl(cfg, s, next); WatchCallsKeepHistory(cfg, s, next);
    case CbTesting => WatchCallsKeepControl(cfg, s, next); WatchCallsKeepHistory(cfg, s, next);
    case CbUnlocking(_) => WatchCallsKeepControl(cfg, s, next); WatchCallsKeepHistory(cfg, s, next);
    case Ended(_) => WatchCallsKeepControl(cfg, s, next); WatchCallsKeepHistory(cfg, s, next);
    case FinSignalling => WatchFinalSignalsKeepControl(cfg, s, next); WatchFinalSignalsKeepHistory(cfg, s, next);
    case FinLocking => WatchFinishesKeepControl(cfg, s, next); WatchFinishesKeepHistory(cfg, s, next);
    case FinQuitting => WatchFinishesKeepControl(cfg, s, next); WatchFinishesKeepHistory(cfg, s, next);
    case FinDone => WatchFinishesKeepControl(cfg, s, next); WatchFinishesKeepHistory(cfg, s, next);
    case FinUnlocking => WatchFinishesKeepControl(cfg, s, next); WatchFinishesKeepHistory(cfg, s, next);
  }

  lemma StepKeepsInv(cfg: Config, s: State, step: Step)
    requires Inv(cfg, s) && Enabled(s, step)
    ensures Inv(cfg, Apply(cfg, s, step))
  {
    match step
    case Main(err) => MainKeepsInv(cfg, s, err);
    case Watch(next) => WatchKeepsInv(cfg, s, next);
    case Timer(id) => TimersKeepControl(cfg, s, id); TimersKeepHistory(cfg, s, id);
  }

  lemma {:induction false} RunKeepsInv(cfg: Config, states: seq<State>, steps: seq<Step>, k: nat)
    requires IsRun(cfg, states, steps) && k <= |steps|
    ensures Inv(cfg, states[k])
    decreases k
  {
    if k == 0 {
      InvInit(cfg);
    } else {
      RunKeepsInv(cfg, states, steps, k - 1);
      StepKeepsInv(cfg, states[k - 1], steps[k - 1]);
    }
  }

  lemma ReachedInv(cfg: Config, s: State)
    requires Reachable(cfg, s)
    ensures Inv(cfg, s)
  {
    var states, steps :| IsRun(cfg, states, steps) && s == states[|steps|];
    RunKeepsInv(cfg, states, steps, |steps|);
  }
}
