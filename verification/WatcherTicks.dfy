/** Which events are reported in a run of the change watcher, what the loop calls, and when its timer ticks. */
module WatcherTicks {
  import opened Wrappers
  import opened ChangeWatcher
  import opened WatcherProofs
  import opened WatcherNotices
  import opened WatcherTheorems
  import opened WatcherRuns

  // ---------- every event is reported ----------

  predicate AboutToRecord(w: WatchPC) {
    w.CbLocking? || w.CbSignalling? || w.CbTesting? || w.CbRecording?
  }

  ghost predicate RecordedSince(early: nat, log: seq<Happening>) {
    exists j :: early <= j < |log| && log[j].Recorded?
  }

  // An event that arrived when the log was this long is being recorded or has been, or the goroutine was stopped.
  ghost predicate EventKept(s: State, early: nat) {
    early <= |s.log| && (AboutToRecord(s.watch) || RecordedSince(early, s.log) || s.stopThread)
  }

  lemma RecordedStays(early: nat, log: seq<Happening>, more: seq<Happening>)
    requires early <= |log|
    ensures RecordedSince(early, log) ==> RecordedSince(early, log + more)
    ensures more == [Recorded] ==> RecordedSince(early, log + more)
  {
    if RecordedSince(early, log) {
      var j :| early <= j < |log| && log[j].Recorded?;
      assert (log + more)[j].Recorded?;
    }
    if more == [Recorded] {
      assert (log + more)[|log|].Recorded?;
    }
  }

  lemma StepKeepsEvent(cfg: Config, s: State, step: Step, early: nat)
    requires Enabled(s, step) && EventKept(s, early)
    ensures EventKept(Apply(cfg, s, step), early)
  {
    match step
    case Main(err) =>
      MainIsDone(cfg, s, err);
      RecordedStays(early, s.log, Chosen(s.sawChange, s.sawTimeout));
    case Watch(next) =>
      WatchIsDone(s, next);
      RecordedStays(early, s.log, [Recorded]);
    case Timer(id) =>
      assert TimerMove(s, id).watch == s.watch && TimerMove(s, id).log == s.log;
      assert TimerMove(s, id).stopThread == s.stopThread;
  }

  lemma ArrivalIsKept(s: State, next: Outcome)
    requires EventArrives(s, Watch(next))
    ensures EventKept(WatchMove(s, next), |s.log|)
  {
    WatchIsDone(s, next);
  }

  // An event met by Watch is recorded by the time the goroutine waits for the next one, unless it was told to
  // stop.
  lemma {:induction false} EventIsKept(cfg: Config, states: seq<State>, steps: seq<Step>, k: nat, n: nat)
    requires IsRun(cfg, states, steps) && k < n <= |steps| && EventArrives(states[k], steps[k])
    ensures EventKept(states[n], |states[k].log|)
    decreases n
  {
    if n == k + 1 {
      ArrivalIsKept(states[k], steps[k].next);
    } else {
      EventIsKept(cfg, states, steps, k, n - 1);
      StepKeepsEvent(cfg, states[n - 1], steps[n - 1], |states[k].log|);
    }
  }

  ghost predicate NoCallbackFails(states: seq<State>, steps: seq<Step>)
    requires |states| == |steps| + 1
  {
    forall i :: 0 <= i < |steps| ==> !CallbackFails(states[i], steps[i])
  }

  lemma NoFailureNoStop(cfg: Config, states: seq<State>, steps: seq<Step>)
    requires IsRun(cfg, states, steps) && NoCallbackFails(states, steps)
    ensures states[|steps|].callbackErr.None? && !states[|steps|].stopThread
  {
    RunKeepsInv(cfg, states, steps, |steps|);
    RunErrorsFollow(cfg, states, steps);
    CallbackErrorIsOfAStep(states, steps, |steps|);
  }

  // In every run that returns and in which no callback returned an error, every event that Watch met is followed
  // by a call of ChangeDetected.
  lemma EveryEventIsReported(cfg: Config, states: seq<State>, steps: seq<Step>, k: nat)
    requires IsRun(cfg, states, steps) && NoCallbackFails(states, steps) && states[|steps|].main.Returned?
    requires k < |steps| && EventArrives(states[k], steps[k])
    ensures exists j :: |states[k].log| <= j < |states[|steps|].log| && states[|steps|].log[j].Notified?
  {
    var s := states[|steps|];
    EventIsKept(cfg, states, steps, k, |steps|);
    NoFailureNoStop(cfg, states, steps);
    assert Reachable(cfg, s);
    WatcherResult(cfg, s);
    NoLostChange(cfg, s);
    var i :| |states[k].log| <= i < |s.log| && s.log[i].Recorded?;
    var j :| i < j < |s.log| && s.log[j].Notified?;
  }

  // ---------- and nothing is reported that did not happen ----------

  // A timer that has been armed expires.
  predicate TimerExpires(s: State, step: Step) {
    step.Timer? && step.id < |s.timers| && s.timers[step.id].Armed?
  }

  ghost function Events(states: seq<State>, steps: seq<Step>, k: nat): nat
    requires k <= |steps| < |states|
  {
    if k == 0 then 0
    else Events(states, steps, k - 1) + (if EventArrives(states[k - 1], steps[k - 1]) then 1 else 0)
  }

  ghost function Expiries(states: seq<State>, steps: seq<Step>, k: nat): nat
    requires k <= |steps| < |states|
  {
    if k == 0 then 0
    else Expiries(states, steps, k - 1) + (if TimerExpires(states[k - 1], steps[k - 1]) then 1 else 0)
  }

  function Count(log: seq<Happening>, h: Happening): nat {
    if log == [] then 0 else Count(log[..|log| - 1], h) + (if log[|log| - 1] == h then 1 else 0)
  }

  lemma CountOneMore(log: seq<Happening>, h: Happening, g: Happening)
    ensures Count(log + [g], h) == Count(log, h) + (if g == h then 1 else 0)
  {
    assert (log + [g])[..|log|] == log;
  }

  function One(b: bool): nat {
    if b then 1 else 0
  }

  // The timers that have expired and have yet to say so.
  function Expiring(timers: seq<TimerPC>): nat {
    if timers == [] then 0
    else
      var last := timers[|timers| - 1];
      Expiring(timers[..|timers| - 1]) + One(last.Fired? || last.TickSetting?)
  }

  lemma {:induction false} ExpiringUpdate(timers: seq<TimerPC>, i: nat, t: TimerPC)
    requires i < |timers|
    ensures Expiring(timers[i := t]) + One(timers[i].Fired? || timers[i].TickSetting?) ==
            Expiring(timers) + One(t.Fired? || t.TickSetting?)
  {
    var last := |timers| - 1;
    if i == last {
      assert timers[i := t][..last] == timers[..last];
    } else {
      ExpiringUpdate(timers[..last], i, t);
      assert timers[i := t][..last] == timers[..last][i := t];
    }
  }

  predicate Collected(main: MainPC) {
    main.Unlocking? || main.Choosing?
  }

  // No more changes are reported, or waiting to be, than events were recorded; no more events recorded than met;
  // and no more ticks than timers that expired.
  ghost predicate Accounts(s: State, events: nat, expiries: nat) {
    && Count(s.log, Recorded) + One(AboutToRecord(s.watch)) <= events
    && Count(s.log, Notified) + One(s.detectedChange) + One(Collected(s.main) && s.sawChange) <= Count(s.log, Recorded)
    && Count(s.log, Ticked) + One(s.timedOut) + One(Collected(s.main) && s.sawTimeout) + Expiring(s.timers) <= expiries
  }

  // What a step of the main loop does to the flags.
  ghost predicate FlagsMove(s: State, t: State) {
    && t.detectedChange == (s.detectedChange && !s.main.Collecting?)
    && t.timedOut == (s.timedOut && !s.main.Collecting?)
    && (s.main.Collecting? ==> t.main.Unlocking? && t.sawChange == s.detectedChange && t.sawTimeout == s.timedOut)
    && (s.main.Unlocking? ==> t.main.Choosing? && t.sawChange == s.sawChange && t.sawTimeout == s.sawTimeout)
    && (Collected(t.main) ==> s.main.Collecting? || s.main.Unlocking?)
    && (s.main.Choosing? ==> t.main == if s.sawChange || s.sawTimeout then InCallback else Rearming)
  }

  lemma LoopFlags(cfg: Config, s: State, err: Option<string>)
    requires MainReady(s)
    requires s.main.LoopTop? || s.main.Locking? || s.main.Testing? || s.main.Woken? || s.main.Collecting? ||
             s.main.Unlocking?
    ensures FlagsMove(s, MainMove(cfg, s, err))
  {
  }

  lemma CallbackFlags(cfg: Config, s: State, err: Option<string>)
    requires MainReady(s)
    requires s.main.Choosing? || s.main.InCallback? || s.main.Stopping? || s.main.Blaming? || s.main.Rearming? ||
             s.main.Assigning?
    ensures FlagsMove(s, MainMove(cfg, s, err))
  {
  }

  lemma FinaleFlags(cfg: Config, s: State, err: Option<string>)
    requires MainReady(s) && (s.main.FinalLocking? || s.main.FinalTesting? || s.main.FinalWoken?)
    ensures FlagsMove(s, MainMove(cfg, s, err))
  {
  }

  lemma MainFlags(cfg: Config, s: State, err: Option<string>)
    requires MainReady(s)
    ensures FlagsMove(s, MainMove(cfg, s, err))
  {
    if s.main.FinalLocking? || s.main.FinalTesting? || s.main.FinalWoken? {
      FinaleFlags(cfg, s, err);
    } else if s.main.Choosing? || s.main.InCallback? || s.main.Stopping? || s.main.Blaming? || s.main.Rearming? ||
      s.main.Assigning? {
      CallbackFlags(cfg, s, err);
    } else {
      LoopFlags(cfg, s, err);
    }
  }

  // What a step of the main loop does to the timers.
  ghost predicate TimersMove(cfg: Config, s: State, t: State) {
    && t.timers == (if s.main.Collecting? then Cancel(s.timers, s.timer)
                    else if s.main.Rearming? && cfg.period > 0 then s.timers + [Armed]
                    else s.timers)
    && t.timer == (if s.main.Collecting? then None else if s.main.Assigning? then Some(s.main.id) else s.timer)
    && (t.main.Assigning? ==> s.main.Rearming? && cfg.period > 0 && t.main.id == |s.timers|)
  }

  lemma LoopTimers(cfg: Config, s: State, err: Option<string>)
    requires MainReady(s)
    requires s.main.LoopTop? || s.main.Locking? || s.main.Testing? || s.main.Woken? || s.main.Collecting? ||
             s.main.Unlocking?
    ensures TimersMove(cfg, s, MainMove(cfg, s, err))
  {
  }

  lemma CallbackTimers(cfg: Config, s: State, err: Option<string>)
    requires MainReady(s)
    requires s.main.Choosing? || s.main.InCallback? || s.main.Stopping? || s.main.Blaming? || s.main.Rearming? ||
             s.main.Assigning?
    ensures TimersMove(cfg, s, MainMove(cfg, s, err))
  {
  }

  lemma FinaleTimers(cfg: Config, s: State, err: Option<string>)
    requires MainReady(s) && (s.main.FinalLocking? || s.main.FinalTesting? || s.main.FinalWoken?)
    ensures TimersMove(cfg, s, MainMove(cfg, s, err))
  {
  }

  lemma MainTimers(cfg: Config, s: State, err: Option<string>)
    requires MainReady(s)
    ensures TimersMove(cfg, s, MainMove(cfg, s, err))
  {
    if s.main.FinalLocking? || s.main.FinalTesting? || s.main.FinalWoken? {
      FinaleTimers(cfg, s, err);
    } else if s.main.Choosing? || s.main.InCallback? || s.main.Stopping? || s.main.Blaming? || s.main.Rearming? ||
      s.main.Assigning? {
      CallbackTimers(cfg, s, err);
    } else {
      LoopTimers(cfg, s, err);
    }
  }

  lemma CountChoice(log: seq<Happening>, change: bool, timeout: bool)
    ensures Count(log + Chosen(change, timeout), Recorded) == Count(log, Recorded)
    ensures Count(log + Chosen(change, timeout), Notified) == Count(log, Notified) + One(change)
    ensures Count(log + Chosen(change, timeout), Ticked) == Count(log, Ticked) + One(!change && timeout)
  {
    assert log + [] == log;
    CountOneMore(log, Recorded, Notified);
    CountOneMore(log, Notified, Notified);
    CountOneMore(log, Ticked, Notified);
    CountOneMore(log, Recorded, Ticked);
    CountOneMore(log, Notified, Ticked);
    CountOneMore(log, Ticked, Ticked);
  }

  lemma CancelExpires(timers: seq<TimerPC>, timer: Option<nat>)
    ensures Expiring(Cancel(timers, timer)) == Expiring(timers) == Expiring(timers + [Armed])
  {
    if timer.Some? && timer.value < |timers| && timers[timer.value].Armed? {
      ExpiringUpdate(timers, timer.value, Cancelled);
    }
    assert (timers + [Armed])[..|timers|] == timers;
  }

  lemma MainAccounts(cfg: Config, s: State, err: Option<string>, events: nat, expiries: nat)
    requires MainReady(s) && Accounts(s, events, expiries)
    ensures Accounts(MainMove(cfg, s, err), events, expiries)
  {
    MainIsDone(cfg, s, err);
    MainFlags(cfg, s, err);
    MainTimers(cfg, s, err);
    CountChoice(s.log, s.sawChange, s.sawTimeout);
    CancelExpires(s.timers, s.timer);
  }

  lemma WatchAccounts(s: State, next: Outcome, events: nat, expiries: nat)
    requires WatchReady(s) && Accounts(s, events, expiries)
    ensures Accounts(WatchMove(s, next), events + One(EventArrives(s, Watch(next))), expiries)
  {
    WatchIsDone(s, next);
    WatchLog(s, next);
    FrameAccounts(s, WatchMove(s, next), next, events, expiries);
  }

  lemma FrameAccounts(s: State, t: State, next: Outcome, events: nat, expiries: nat)
    requires WatchDoes(s, t, next) && t.watch == WatchNext(s.watch, s.stopThread, next) && WatchFrame(s, t)
    requires Accounts(s, events, expiries)
    ensures Accounts(t, events + One(EventArrives(s, Watch(next))), expiries)
  {
    CountOneMore(s.log, Recorded, Recorded);
    CountOneMore(s.log, Notified, Recorded);
    CountOneMore(s.log, Ticked, Recorded);
    RecordsNext(s.watch, s.stopThread, next);
    assert Collected(t.main) <==> Collected(s.main);
  }

  lemma RecordsNext(w: WatchPC, stop: bool, next: Outcome)
    ensures AboutToRecord(WatchNext(w, stop, next)) <==>
              ((w.Connecting? || w.Reading?) && next.Event?) || w.CbLocking? || w.CbSignalling? ||
              (w.CbTesting? && !stop)
  {
  }

  lemma TimerAccounts(s: State, id: nat, events: nat, expiries: nat)
    requires TimerReady(s, id) && Accounts(s, events, expiries)
    ensures Accounts(TimerMove(s, id), events, expiries + One(TimerExpires(s, Timer(id))))
  {
    var t := TimerMove(s, id);
    ExpiringUpdate(s.timers, id, TimerNext(s.timers[id]));
    assert t.log == s.log && t.detectedChange == s.detectedChange && t.watch == s.watch;
    assert t.sawChange == s.sawChange && t.sawTimeout == s.sawTimeout;
    assert t.timedOut == (s.timedOut || s.timers[id].TickSetting?);
    assert Collected(t.main) <==> Collected(s.main);
  }

  lemma StepAccounts(cfg: Config, s: State, step: Step, events: nat, expiries: nat)
    requires Enabled(s, step) && Accounts(s, events, expiries)
    ensures Accounts(Apply(cfg, s, step), events + One(EventArrives(s, step)), expiries + One(TimerExpires(s, step)))
  {
    match step
    case Main(err) => MainAccounts(cfg, s, err, events, expiries);
    case Watch(next) => WatchAccounts(s, next, events, expiries);
    case Timer(id) => TimerAccounts(s, id, events, expiries);
  }

  lemma {:induction false} RunAccounts(cfg: Config, states: seq<State>, steps: seq<Step>, k: nat)
    requires IsRun(cfg, states, steps) && k <= |steps|
    ensures Accounts(states[k], Events(states, steps, k), Expiries(states, steps, k))
  {
    if k > 0 {
      RunAccounts(cfg, states, steps, k - 1);
      StepAccounts(cfg, states[k - 1], steps[k - 1], Events(states, steps, k - 1), Expiries(states, steps, k - 1));
    }
  }

  // ChangeDetected is called at most once for each event that Watch met, and NoChangeTick at most once for each
  // timer that expired.
  lemma NoCallsWithoutCause(cfg: Config, states: seq<State>, steps: seq<Step>, k: nat)
    requires IsRun(cfg, states, steps) && k <= |steps|
    ensures Count(states[k].log, Notified) <= Events(states, steps, k)
    ensures Count(states[k].log, Ticked) <= Expiries(states, steps, k)
  {
    RunAccounts(cfg, states, steps, k);
  }

  // ---------- what the loop calls ----------

  // Between collecting the flags and acting on them.
  ghost predicate HoldsFlags(s: State, change: bool, timeout: bool) {
    Collected(s.main) && s.sawChange == change && s.sawTimeout == timeout
  }

  lemma StepHoldsFlags(cfg: Config, s: State, step: Step, change: bool, timeout: bool)
    requires Enabled(s, step) && HoldsFlags(s, change, timeout) && !(step.Main? && s.main.Choosing?)
    ensures HoldsFlags(Apply(cfg, s, step), change, timeout)
  {
    match step
    case Main(err) => MainFlags(cfg, s, err);
    case Watch(next) =>
      WatchIsDone(s, next);
      WatchLog(s, next);
    case Timer(id) =>
      var t := TimerMove(s, id);
      assert t.sawChange == s.sawChange && t.sawTimeout == s.sawTimeout && t.main == s.main;
  }

  lemma {:induction false} FlagsAreHeld(cfg: Config, states: seq<State>, steps: seq<Step>, k: nat, n: nat)
    requires IsRun(cfg, states, steps) && k < n <= |steps| && states[k].main.Collecting? && steps[k].Main?
    requires forall j {:trigger steps[j]} :: k < j < n ==> !(steps[j].Main? && states[j].main.Choosing?)
    ensures HoldsFlags(states[n], states[k].detectedChange, states[k].timedOut)
    decreases n
  {
    if n == k + 1 {
      MainFlags(cfg, states[k], steps[k].err);
    } else {
      FlagsAreHeld(cfg, states, steps, k, n - 1);
      StepHoldsFlags(cfg, states[n - 1], steps[n - 1], states[k].detectedChange, states[k].timedOut);
    }
  }

  // The loop acts on the flags as it collected them: a change is reported, a time-out without a change is a tick,
  // and with neither nothing is called.
  lemma LoopActsOnFlags(cfg: Config, states: seq<State>, steps: seq<Step>, k: nat, n: nat)
    requires IsRun(cfg, states, steps) && k < n < |steps| && states[k].main.Collecting? && steps[k].Main?
    requires states[n].main.Choosing? && steps[n].Main?
    requires forall j {:trigger steps[j]} :: k < j < n ==> !(steps[j].Main? && states[j].main.Choosing?)
    ensures states[n + 1].log == states[n].log + (if states[k].detectedChange then [Notified]
                                                  else if states[k].timedOut then [Ticked] else [])
    ensures states[n + 1].main == if states[k].detectedChange || states[k].timedOut then InCallback else Rearming
  {
    FlagsAreHeld(cfg, states, steps, k, n);
    MainFlags(cfg, states[n], steps[n].err);
    MainIsDone(cfg, states[n], steps[n].err);
  }

  // ---------- a tick is always to come ----------

  predicate AwaitsTick(main: MainPC) {
    main.Assigning? || main.LoopTop? || main.Locking? || main.Testing? || main.Parked? || main.Woken? ||
    main.Collecting?
  }

  predicate Live(t: TimerPC) {
    t.Armed? || t.Fired? || t.TickSetting?
  }

  // With a ticking detector: once ChangeDetected has been called the loop does not wait without a timer, and the
  // newest one has yet to say that it expired, unless one has said so and the loop has yet to see it.
  ghost predicate TickToCome(cfg: Config, s: State) {
    && (cfg.period > 0 && Notified in s.log ==>
          s.timers != [] || s.quitting || s.main.InCallback? || s.main.Rearming? || s.main.Stopping? ||
          s.main.Blaming?)
    && (s.timers != [] && AwaitsTick(s.main) && !s.quitting ==> Live(s.timers[|s.timers| - 1]) || s.timedOut)
    && (s.main.Assigning? ==> |s.timers| == s.main.id + 1)
  }

  // What a step of the main loop does to quitting.
  lemma LoopQuits(cfg: Config, s: State, err: Option<string>)
    requires MainReady(s)
    requires s.main.LoopTop? || s.main.Locking? || s.main.Testing? || s.main.Woken? || s.main.Collecting? ||
             s.main.Unlocking?
    ensures var t := MainMove(cfg, s, err);
            && (t.quitting != s.quitting ==> s.main.Collecting?)
            && (AwaitsTick(t.main) ==> AwaitsTick(s.main) && !s.main.Collecting?)
            && !t.main.Rearming? && !t.main.InCallback?
  {
  }

  lemma CallbackQuits(cfg: Config, s: State, err: Option<string>)
    requires MainReady(s)
    requires s.main.Choosing? || s.main.InCallback? || s.main.Stopping? || s.main.Blaming? || s.main.Rearming? ||
             s.main.Assigning?
    ensures var t := MainMove(cfg, s, err);
            && t.quitting == (s.quitting || s.main.Blaming?)
            && (AwaitsTick(t.main) ==> s.main.Rearming? || s.main.Assigning? || s.main.Blaming?)
            && (s.main.InCallback? ==> t.main.Stopping? || t.main.Rearming?)
            && (s.main.Stopping? ==> t.main.Blaming?)
            && (s.main.Choosing? && (s.sawChange || s.sawTimeout) ==> t.main.InCallback?)
  {
  }

  lemma FinaleQuits(cfg: Config, s: State, err: Option<string>)
    requires MainReady(s) && (s.main.FinalLocking? || s.main.FinalTesting? || s.main.FinalWoken?)
    ensures MainMove(cfg, s, err).quitting == s.quitting && !AwaitsTick(MainMove(cfg, s, err).main)
  {
  }

  lemma MainKeepsTick(cfg: Config, s: State, err: Option<string>)
    requires TickToCome(cfg, s) && NoticeInv(s) && TickInv(cfg, s) && MainReady(s)
    ensures TickToCome(cfg, MainMove(cfg, s, err))
  {
    MainIsDone(cfg, s, err);
    MainFlags(cfg, s, err);
    MainTimers(cfg, s, err);
    if s.main.FinalLocking? || s.main.FinalTesting? || s.main.FinalWoken? {
      FinaleQuits(cfg, s, err);
    } else if s.main.Choosing? || s.main.InCallback? || s.main.Stopping? || s.main.Blaming? || s.main.Rearming? ||
      s.main.Assigning? {
      CallbackQuits(cfg, s, err);
    } else {
      LoopQuits(cfg, s, err);
    }
  }

  lemma WatchKeepsTick(cfg: Config, s: State, next: Outcome)
    requires TickToCome(cfg, s) && WatchReady(s)
    ensures TickToCome(cfg, WatchMove(s, next))
  {
    WatchIsDone(s, next);
    WatchLog(s, next);
  }

  lemma TimerKeepsTick(cfg: Config, s: State, id: nat)
    requires TickToCome(cfg, s) && TimerReady(s, id)
    ensures TickToCome(cfg, TimerMove(s, id))
  {
    var t := TimerMove(s, id);
    assert t.log == s.log && t.quitting == s.quitting && |t.timers| == |s.timers|;
    assert t.main == s.main || t.main == Awaken(s.main);
    assert t.timedOut == (s.timedOut || s.timers[id].TickSetting?);
  }

  lemma StepKeepsTick(cfg: Config, s: State, step: Step)
    requires TickToCome(cfg, s) && NoticeInv(s) && TickInv(cfg, s) && Enabled(s, step)
    ensures TickToCome(cfg, Apply(cfg, s, step))
  {
    match step
    case Main(err) => MainKeepsTick(cfg, s, err);
    case Watch(next) => WatchKeepsTick(cfg, s, next);
    case Timer(id) => TimerKeepsTick(cfg, s, id);
  }

  lemma {:induction false} RunKeepsTick(cfg: Config, states: seq<State>, steps: seq<Step>, k: nat)
    requires IsRun(cfg, states, steps) && k <= |steps|
    ensures TickToCome(cfg, states[k])
  {
    if k > 0 {
      RunKeepsTick(cfg, states, steps, k - 1);
      RunKeepsNotices(cfg, states, steps, k - 1);
      RunKeepsInv(cfg, states, steps, k - 1);
      StepKeepsTick(cfg, states[k - 1], steps[k - 1]);
    }
  }

  // With a ticking detector, whenever the loop is parked after ChangeDetected was called, nobody being in a critical
  // section, the newest timer has not said yet that it expired, and it can move: without a change a tick will come.
  lemma TickIsComing(cfg: Config, states: seq<State>, steps: seq<Step>, k: nat)
    requires IsRun(cfg, states, steps) && k <= |steps|
    requires cfg.period > 0 && Notified in states[k].log && states[k].main.Parked? && states[k].lock.Free?
    ensures states[k].timers != []
    ensures var newest := |states[k].timers| - 1;
            Live(states[k].timers[newest]) && TimerReady(states[k], newest)
  {
    RunKeepsTick(cfg, states, steps, k);
    RunKeepsNotices(cfg, states, steps, k);
    assert Reachable(cfg, states[k]) by {
      assert IsRun(cfg, states[..k + 1], steps[..k]);
    }
    NoLostWakeup(cfg, states[k]);
  }

  // ---------- a change stops the timer ----------

  // The timer armed last is the one the loop will stop, or the loop is over.
  ghost predicate WillStop(s: State, id: nat) {
    || (s.timer == Some(id) && |s.timers| == id + 1 && AwaitsTick(s.main) && !s.main.Assigning?)
    || InFinale(s.main)
  }

  lemma MainWillStop(cfg: Config, s: State, err: Option<string>, id: nat)
    requires WillStop(s, id) && MainReady(s) && !s.main.Collecting?
    ensures WillStop(MainMove(cfg, s, err), id)
  {
    MainTimers(cfg, s, err);
    if InFinale(s.main) {
      FinaleStays(cfg, s, err);
    } else {
      LoopGoesOn(cfg, s, err);
    }
  }

  lemma FinaleStays(cfg: Config, s: State, err: Option<string>)
    requires MainReady(s) && (s.main.FinalLocking? || s.main.FinalTesting? || s.main.FinalWoken?)
    ensures InFinale(MainMove(cfg, s, err).main)
  {
  }

  lemma LoopGoesOn(cfg: Config, s: State, err: Option<string>)
    requires MainReady(s) && (s.main.LoopTop? || s.main.Locking? || s.main.Testing? || s.main.Woken?)
    ensures var m := MainMove(cfg, s, err).main; m.FinalLocking? || (AwaitsTick(m) && !m.Assigning?)
  {
  }

  lemma StepWillStop(cfg: Config, s: State, step: Step, id: nat)
    requires Enabled(s, step) && WillStop(s, id) && !(step.Main? && s.main.Collecting?)
    requires !(step.Timer? && s.timers[step.id].TickClearing?)
    ensures WillStop(Apply(cfg, s, step), id)
  {
    match step
    case Main(err) => MainWillStop(cfg, s, err, id);
    case Watch(next) =>
      WatchIsDone(s, next);
      WatchLog(s, next);
    case Timer(i) =>
      var t := TimerMove(s, i);
      assert t.timer == s.timer && |t.timers| == |s.timers|;
      assert t.main == s.main || t.main == Awaken(s.main);
  }

  lemma {:induction false} StaysAssigned(cfg: Config, states: seq<State>, steps: seq<Step>, k: nat, n: nat)
    requires IsRun(cfg, states, steps) && k < n <= |steps| && states[k].main.Assigning? && steps[k].Main?
    requires forall j {:trigger steps[j]} :: k < j < n ==>
               !(steps[j].Main? && states[j].main.Collecting?) &&
               !(steps[j].Timer? && steps[j].id < |states[j].timers| && states[j].timers[steps[j].id].TickClearing?)
    ensures WillStop(states[n], states[k].main.id)
    decreases n
  {
    if n == k + 1 {
      RunKeepsTick(cfg, states, steps, k);
      MainTimers(cfg, states[k], steps[k].err);
    } else {
      StaysAssigned(cfg, states, steps, k, n - 1);
      StepWillStop(cfg, states[n - 1], steps[n - 1], states[k].main.id);
    }
  }

  lemma {:induction false} CancelledForGood(cfg: Config, states: seq<State>, steps: seq<Step>, k: nat, n: nat, id: nat)
    requires IsRun(cfg, states, steps) && k <= n <= |steps|
    requires id < |states[k].timers| && states[k].timers[id].Cancelled?
    ensures id < |states[n].timers| && states[n].timers[id].Cancelled?
    decreases n
  {
    if k < n {
      CancelledForGood(cfg, states, steps, k, n - 1, id);
      var s := states[n - 1];
      match steps[n - 1]
      case Main(err) => MainTimers(cfg, s, err);
      case Watch(next) => WatchLog(s, next);
      case Timer(i) =>
    }
  }

  // When the loop next collects the flags after arming a timer, that timer is the newest, and if it has not expired
  // it never will, unless an older timer cleared the field in between.
  lemma TimerIsStopped(cfg: Config, states: seq<State>, steps: seq<Step>, k: nat, n: nat, m: nat)
    requires IsRun(cfg, states, steps) && k < n < m <= |steps|
    requires states[k].main.Assigning? && steps[k].Main? && states[n].main.Collecting? && steps[n].Main?
    requires forall j {:trigger steps[j]} :: k < j < n ==>
               !(steps[j].Main? && states[j].main.Collecting?) &&
               !(steps[j].Timer? && steps[j].id < |states[j].timers| && states[j].timers[steps[j].id].TickClearing?)
    ensures var id := states[k].main.id;
            && id == |states[n].timers| - 1
            && (states[n].timers[id].Armed? ==> id < |states[m].timers| && states[m].timers[id].Cancelled?)
  {
    StaysAssigned(cfg, states, steps, k, n);
    MainTimers(cfg, states[n], steps[n].err);
    if states[n].timers[states[k].main.id].Armed? {
      CancelledForGood(cfg, states, steps, n + 1, m, states[k].main.id);
    }
  }

  // A tick clears the field, whichever timer it names by now. Until the loop arms another, no timer is stopped.
  lemma {:induction false} StaysCleared(cfg: Config, states: seq<State>, steps: seq<Step>, k: nat, n: nat)
    requires IsRun(cfg, states, steps) && k < n <= |steps|
    requires steps[k].Timer? && steps[k].id < |states[k].timers| && states[k].timers[steps[k].id].TickClearing?
    requires forall j {:trigger steps[j]} :: k < j < n ==> !(steps[j].Main? && states[j].main.Assigning?)
    ensures states[n].timer.None?
    decreases n
  {
    if k < n - 1 {
      StaysCleared(cfg, states, steps, k, n - 1);
      var s := states[n - 1];
      match steps[n - 1]
      case Main(err) => MainTimers(cfg, s, err);
      case Watch(next) => WatchIsDone(s, next);
      case Timer(id) => assert TimerMove(s, id).timer.None?;
    }
  }

  lemma TickSparesNewerTimer(cfg: Config, states: seq<State>, steps: seq<Step>, k: nat, n: nat)
    requires IsRun(cfg, states, steps) && k < n < |steps|
    requires steps[k].Timer? && steps[k].id < |states[k].timers| && states[k].timers[steps[k].id].TickClearing?
    requires forall j {:trigger steps[j]} :: k < j < n ==> !(steps[j].Main? && states[j].main.Assigning?)
    requires states[n].main.Collecting? && steps[n].Main?
    ensures states[n + 1].timers == states[n].timers
  {
    StaysCleared(cfg, states, steps, k, n);
    MainTimers(cfg, states[n], steps[n].err);
  }
}
