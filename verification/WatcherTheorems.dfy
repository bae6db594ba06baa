/** What the change watcher guarantees over every interleaving of its threads. */
module WatcherTheorems {
  import opened Wrappers
  import opened ChangeWatcher
  import opened WatcherNotices
  import opened WatcherProofs

  // ---------- the condition variable ----------

  // With the mutex free, a loop parked on the condition variable has nothing to do, a loop that has been
  // signalled has something to do, and the final wait is only for a goroutine that has not finished.
  // Reading the flags after the one `if` around Wait therefore always finds one of them set.
  lemma NoLostWakeup(cfg: Config, s: State)
    requires Reachable(cfg, s)
    ensures s.main.Parked? && s.lock.Free? ==> !Flagged(s)
    ensures s.main.Woken? && s.lock.Free? ==> Flagged(s)
    ensures s.main.Collecting? ==> Flagged(s)
    ensures s.main.FinalParked? && s.lock.Free? ==> !s.threadDone
    ensures s.watch.Gone? ==> !s.main.Parked? && !s.main.FinalParked?
  {
    ReachedInv(cfg, s);
  }

  predicate HolderReady(s: State) {
    match s.lock
    case Free => false
    case MainThread => MainReady(s)
    case WatchThread => WatchReady(s)
    case TimerThread(id) => TimerReady(s, id)
  }

  // A held mutex is held by a thread that can move; with the mutex free the main loop can move unless it
  // is waiting, with nothing to do, for a goroutine that is still there.
  lemma NoDeadlock(cfg: Config, s: State)
    requires Reachable(cfg, s) && !s.main.Returned?
    ensures !s.lock.Free? ==> HolderReady(s)
    ensures s.lock.Free? ==>
              MainReady(s) ||
              (!s.watch.Gone? && (if s.main.Parked? then !Flagged(s) else s.main.FinalParked? && !s.threadDone))
  {
    ReachedInv(cfg, s);
    if s.lock.TimerThread? {
      assert TimerInside(s.timers[s.lock.id]);
    }
  }

  // Two threads are never inside their critical sections together.
  lemma MutualExclusion(cfg: Config, s: State)
    requires Reachable(cfg, s)
    ensures !(MainInside(s.main) && WatchInside(s.watch))
    ensures forall i :: 0 <= i < |s.timers| && TimerInside(s.timers[i]) ==>
              !MainInside(s.main) && !WatchInside(s.watch)
    ensures forall i, j :: 0 <= i < j < |s.timers| ==> !(TimerInside(s.timers[i]) && TimerInside(s.timers[j]))
  {
    ReachedInv(cfg, s);
  }

  // ---------- changes ----------

  ghost predicate EveryChangeReported(log: seq<Happening>) {
    forall i :: 0 <= i < |log| && log[i].Recorded? ==> exists j :: i < j < |log| && log[j].Notified?
  }

  lemma {:induction false} NotPendingIsReported(log: seq<Happening>)
    ensures !Pending(log) <==> EveryChangeReported(log)
  {
    if log != [] {
      var last := |log| - 1;
      var rest := log[..last];
      NotPendingIsReported(rest);
      if log[last].Ticked? {
        if EveryChangeReported(log) {
          forall i | 0 <= i < last && rest[i].Recorded?
            ensures exists j :: i < j < last && rest[j].Notified?
          {
            assert log[i].Recorded?;
            var j :| i < j < |log| && log[j].Notified?;
            assert rest[j].Notified?;
          }
        }
        if EveryChangeReported(rest) {
          forall i | 0 <= i < |log| && log[i].Recorded?
            ensures exists j :: i < j < |log| && log[j].Notified?
          {
            assert rest[i].Recorded?;
            var j :| i < j < last && rest[j].Notified?;
            assert log[j].Notified?;
          }
        }
      }
    }
  }

  // In every run that ends without a callback error each recorded event is followed by a call of
  // ChangeDetected, however late it was recorded.
  lemma NoLostChange(cfg: Config, s: State)
    requires Reachable(cfg, s) && s.main.Returned? && s.callbackErr.None?
    ensures EveryChangeReported(s.log)
  {
    ReachedInv(cfg, s);
    NotPendingIsReported(s.log);
  }

  // Every event in the first log is followed by a call of ChangeDetected in the second.
  ghost predicate ReportedIn(early: seq<Happening>, log: seq<Happening>) {
    early <= log &&
    forall i :: 0 <= i < |early| && early[i].Recorded? ==> exists j :: i < j < |log| && log[j].Notified?
  }

  // The events in that log have been reported, or the loop is about to report them.
  ghost predicate Owed(early: seq<Happening>, s: State) {
    early <= s.log && (ReportedIn(early, s.log) || ((s.main.Unlocking? || s.main.Choosing?) && s.sawChange))
  }

  lemma ReportedStays(early: seq<Happening>, log: seq<Happening>, h: Happening)
    requires early <= log
    ensures ReportedIn(early, log) ==> ReportedIn(early, log + [h])
    ensures h.Notified? ==> ReportedIn(early, log + [h])
  {
    if ReportedIn(early, log) {
      forall i | 0 <= i < |early| && early[i].Recorded?
        ensures exists j :: i < j < |log + [h]| && (log + [h])[j].Notified?
      {
        var j :| i < j < |log| && log[j].Notified?;
        assert (log + [h])[j].Notified?;
      }
    }
    if h.Notified? {
      assert (log + [h])[|log|].Notified?;
    }
  }

  lemma CollectingOwes(cfg: Config, s: State, err: Option<string>)
    requires Inv(cfg, s) && s.main.Collecting?
    ensures Owed(s.log, MainMove(cfg, s, err))
  {
    NotPendingIsReported(s.log);
  }

  // A step of the main loop leaves the log alone, or it is the one that chooses the callback.
  lemma MainLog(cfg: Config, s: State, err: Option<string>)
    requires MainReady(s) && !s.main.Choosing?
    ensures MainMove(cfg, s, err).log == s.log
    ensures s.main.Unlocking? ==> MainMove(cfg, s, err).main.Choosing? && MainMove(cfg, s, err).sawChange == s.sawChange
  {
    if s.main.LoopTop? || s.main.Locking? || s.main.Testing? || s.main.Woken? || s.main.Collecting? ||
       s.main.Unlocking? {
      LoopLog(cfg, s, err);
    } else {
      OtherLog(cfg, s, err);
    }
  }

  lemma LoopLog(cfg: Config, s: State, err: Option<string>)
    requires MainReady(s)
    requires s.main.LoopTop? || s.main.Locking? || s.main.Testing? || s.main.Woken? || s.main.Collecting? ||
             s.main.Unlocking?
    ensures MainMove(cfg, s, err).log == s.log
    ensures s.main.Unlocking? ==> MainMove(cfg, s, err).main.Choosing? && MainMove(cfg, s, err).sawChange == s.sawChange
  {
    match s.main
    case LoopTop =>
    case Locking =>
    case Testing =>
    case Woken =>
    case Collecting =>
    case Unlocking =>
  }

  lemma OtherLog(cfg: Config, s: State, err: Option<string>)
    requires MainReady(s)
    requires s.main.InCallback? || s.main.Stopping? || s.main.Blaming? || s.main.Rearming? || s.main.Assigning? ||
             s.main.FinalLocking? || s.main.FinalTesting? || s.main.FinalWoken?
    ensures MainMove(cfg, s, err).log == s.log
  {
    match s.main
    case InCallback =>
    case Stopping(_) =>
    case Blaming(_) =>
    case Rearming =>
    case Assigning(_) =>
    case FinalLocking =>
    case FinalTesting =>
    case FinalWoken =>
  }

  lemma MainKeepsOwed(cfg: Config, early: seq<Happening>, s: State, err: Option<string>)
    requires Owed(early, s) && MainReady(s)
    ensures Owed(early, MainMove(cfg, s, err))
  {
    if s.main.Choosing? {
      ReportedStays(early, s.log, Notified);
      ReportedStays(early, s.log, Ticked);
    } else {
      MainLog(cfg, s, err);
    }
  }

  lemma FrameKeepsOwed(early: seq<Happening>, s: State, t: State)
    requires Owed(early, s) && WatchFrame(s, t)
    ensures Owed(early, t)
  {
    ReportedStays(early, s.log, Recorded);
  }

  lemma WatchLog(s: State, next: Outcome)
    requires WatchReady(s)
    ensures WatchFrame(s, WatchMove(s, next))
  {
    if InWatchCallback(s.watch) {
      CallbackFrame(s, next);
    } else if s.watch.Connecting? || s.watch.Reading? || s.watch.Ended? {
      ReadingFrame(s, next);
    } else {
      FinishFrame(s, next);
    }
  }

  lemma TimerKeepsOwed(early: seq<Happening>, s: State, id: nat)
    requires Owed(early, s) && TimerReady(s, id)
    ensures Owed(early, TimerMove(s, id))
  {
    var t := TimerMove(s, id);
    assert t.log == s.log && t.sawChange == s.sawChange && (t.main == s.main || t.main == Awaken(s.main));
  }

  lemma StepKeepsOwed(cfg: Config, early: seq<Happening>, s: State, step: Step)
    requires Owed(early, s) && Enabled(s, step)
    ensures Owed(early, Apply(cfg, s, step))
  {
    match step
    case Main(err) => MainKeepsOwed(cfg, early, s, err);
    case Watch(next) =>
      WatchLog(s, next);
      FrameKeepsOwed(early, s, WatchMove(s, next));
    case Timer(id) => TimerKeepsOwed(early, s, id);
  }

  lemma {:induction false} OwedFromThenOn(cfg: Config, states: seq<State>, steps: seq<Step>, k: nat, n: nat)
    requires IsRun(cfg, states, steps) && k < n <= |steps| && states[k].main.Collecting? && steps[k].Main?
    ensures Owed(states[k].log, states[n])
    decreases n
  {
    assert states[n - 1 + 1] == Apply(cfg, states[n - 1], steps[n - 1]);
    if n == k + 1 {
      RunKeepsInv(cfg, states, steps, k);
      CollectingOwes(cfg, states[k], steps[k].err);
    } else {
      OwedFromThenOn(cfg, states, steps, k, n - 1);
      StepKeepsOwed(cfg, states[k].log, states[n - 1], steps[n - 1]);
    }
  }

  // Whether a callback fails or not, every event recorded by the time the loop collects the flags, for the last
  // time or before, is followed by a call of ChangeDetected.
  lemma CollectedIsReported(cfg: Config, states: seq<State>, steps: seq<Step>, k: nat, n: nat)
    requires IsRun(cfg, states, steps) && k < n <= |steps| && states[k].main.Collecting? && steps[k].Main?
    requires states[n].main.Returned?
    ensures ReportedIn(states[k].log, states[n].log)
  {
    OwedFromThenOn(cfg, states, steps, k, n);
  }

  // In every run that ends, with a callback error or without, ChangeDetected was called exactly when some
  // event was recorded.
  lemma CalledIffRecorded(cfg: Config, s: State)
    requires Reachable(cfg, s) && s.main.Returned?
    ensures Notified in s.log <==> Recorded in s.log
  {
    ReachedInv(cfg, s);
    ReachedNotices(cfg, s);
    if Recorded in s.log && s.callbackErr.None? {
      NoLostChange(cfg, s);
      var i :| 0 <= i < |s.log| && s.log[i].Recorded?;
      var j :| i < j < |s.log| && s.log[j].Notified?;
    }
  }

  // NoChangeTick is never called, and no callback fails, before ChangeDetected has been called.
  lemma TicksFollowChanges(cfg: Config, s: State)
    requires Reachable(cfg, s) && (Ticked in s.log || s.callbackErr.Some?)
    ensures Notified in s.log
  {
    ReachedNotices(cfg, s);
  }

  // ---------- the result ----------

  // WatchForChange returns after the goroutine's last critical section. It returns nil exactly when no
  // callback failed and Watch itself ended without a real error, and otherwise the error of one of them.
  lemma WatcherResult(cfg: Config, s: State)
    requires Reachable(cfg, s) && s.main.Returned?
    ensures s.watch.Gone? && s.mustQuit && s.threadDone
    ensures s.main.result.None? <==> s.callbackErr.None? && s.endErr.None?
    ensures s.main.result == s.callbackErr || s.main.result == s.endErr
  {
    ReachedInv(cfg, s);
    ReachedNotices(cfg, s);
  }

  // NoChangeTick is only ever called on a detector that has one.
  lemma TicksNeedAPeriod(cfg: Config, s: State)
    requires Reachable(cfg, s)
    ensures Ticked in s.log || s.timers != [] ==> cfg.period > 0
  {
    ReachedInv(cfg, s);
  }

  // ---------- returning ----------

  // How many more of its own steps the main loop takes once the goroutine has finished.
  function StepsLeft(main: MainPC, quitting: bool): nat {
    match main
    case Returned(_) => 0
    case FinalTesting => 1
    case FinalLocking => 2
    case FinalWoken => 2
    case FinalParked => 3
    case LoopTop => 3 + Lap(quitting)
    case Blaming(_) => 4
    case Stopping(_) => 5
    case Assigning(_) => 4 + Lap(quitting)
    case Rearming => 5 + Lap(quitting)
    case InCallback => 6 + Lap(quitting)
    case Choosing => 7 + Lap(quitting)
    case Unlocking => 8 + Lap(quitting)
    case Collecting => 9
    case Testing => 10
    case Woken => 10
    case Locking => 11
    case Parked => 11
  }

  function Lap(quitting: bool): nat {
    if quitting then 0 else 9
  }

  ghost function Left(s: State): nat {
    StepsLeft(s.main, s.quitting)
  }

  lemma LoopCountsDown(cfg: Config, s: State, err: Option<string>)
    requires s.mustQuit && MainReady(s)
    requires s.main.LoopTop? || s.main.Locking? || s.main.Testing? || s.main.Woken? || s.main.Collecting? ||
             s.main.Unlocking?
    ensures Left(MainMove(cfg, s, err)) < Left(s) <= 17
  {
    match s.main
    case LoopTop =>
    case Locking =>
    case Testing =>
    case Woken =>
    case Collecting =>
    case Unlocking =>
  }

  lemma CallbackCountsDown(cfg: Config, s: State, err: Option<string>)
    requires MainReady(s)
    requires s.main.Choosing? || s.main.InCallback? || s.main.Stopping? || s.main.Blaming? || s.main.Rearming? ||
             s.main.Assigning?
    ensures Left(MainMove(cfg, s, err)) < Left(s) <= 17
  {
    match s.main
    case Choosing =>
    case InCallback =>
    case Stopping(_) =>
    case Blaming(_) =>
    case Rearming =>
    case Assigning(_) =>
  }

  lemma FinaleCountsDown(cfg: Config, s: State, err: Option<string>)
    requires s.threadDone && MainReady(s)
    requires s.main.FinalLocking? || s.main.FinalTesting? || s.main.FinalWoken?
    ensures Left(MainMove(cfg, s, err)) < Left(s) <= 17
  {
    match s.main
    case FinalLocking =>
    case FinalTesting =>
    case FinalWoken =>
  }

  lemma MainMoveCountsDown(cfg: Config, s: State, err: Option<string>)
    requires s.mustQuit && s.threadDone && MainReady(s)
    ensures Left(MainMove(cfg, s, err)) < Left(s) <= 17
  {
    if InFinale(s.main) {
      FinaleCountsDown(cfg, s, err);
    } else if s.main.Choosing? || s.main.InCallback? || s.main.Stopping? || s.main.Blaming? ||
      s.main.Rearming? || s.main.Assigning? {
      CallbackCountsDown(cfg, s, err);
    } else {
      LoopCountsDown(cfg, s, err);
    }
  }

  lemma TimersDoNotDelay(s: State, id: nat)
    requires TimerReady(s, id)
    ensures TimerMove(s, id).watch == s.watch && Left(TimerMove(s, id)) <= Left(s)
  {
  }

  lemma GoneRaisesBothFlags(cfg: Config, states: seq<State>, steps: seq<Step>, k: nat)
    requires IsRun(cfg, states, steps) && k <= |steps| && states[k].watch.Gone?
    ensures states[k].mustQuit && states[k].threadDone
  {
    RunKeepsInv(cfg, states, steps, k);
  }

  lemma GoneIsFinal(cfg: Config, states: seq<State>, steps: seq<Step>, k: nat)
    requires IsRun(cfg, states, steps) && k < |steps| && states[k].watch.Gone?
    ensures states[k + 1].watch.Gone?
    ensures Left(states[k + 1]) <= Left(states[k]) - (if steps[k].Main? then 1 else 0)
  {
    GoneRaisesBothFlags(cfg, states, steps, k);
    match steps[k]
    case Main(err) => MainMoveCountsDown(cfg, states[k], err);
    case Timer(id) => TimersDoNotDelay(states[k], id);
  }

  // The steps of the main loop among steps i to j.
  ghost function OwnSteps(steps: seq<Step>, i: nat, j: nat): nat
    requires i <= j <= |steps|
  {
    if i == j then 0 else OwnSteps(steps, i, j - 1) + (if steps[j - 1].Main? then 1 else 0)
  }

  // From a state without the goroutine, every step leads to one with no more steps left, and one less
  // after a step of the main loop.
  ghost predicate WindsDown(states: seq<State>, steps: seq<Step>, k: nat)
    requires k < |steps| < |states|
  {
    states[k].watch.Gone? ==>
      states[k + 1].watch.Gone? && Left(states[k + 1]) <= Left(states[k]) - (if steps[k].Main? then 1 else 0)
  }

  lemma {:induction false} WoundDown(states: seq<State>, steps: seq<Step>, i: nat, j: nat)
    requires i <= j <= |steps| < |states| && states[i].watch.Gone?
    requires forall k: nat :: i <= k < j ==> WindsDown(states, steps, k)
    ensures states[j].watch.Gone? && OwnSteps(steps, i, j) + Left(states[j]) <= Left(states[i])
    decreases j
  {
    if i < j {
      WoundDown(states, steps, i, j - 1);
      assert WindsDown(states, steps, j - 1);
    }
  }

  lemma LeftIsBounded(s: State)
    ensures Left(s) <= 17
  {
  }

  // Whatever the timers do, at most seventeen steps of the main loop separate the end of the goroutine
  // from the return of WatchForChange.
  lemma ReturnsSoonAfterGoroutine(cfg: Config, states: seq<State>, steps: seq<Step>, i: nat, j: nat)
    requires IsRun(cfg, states, steps) && i <= j <= |steps| && states[i].watch.Gone?
    ensures states[j].watch.Gone?
    ensures OwnSteps(steps, i, j) + Left(states[j]) <= Left(states[i]) <= 17
  {
    forall k: nat | i <= k < j
      ensures WindsDown(states, steps, k)
    {
      if states[k].watch.Gone? {
        GoneIsFinal(cfg, states, steps, k);
      }
    }
    WoundDown(states, steps, i, j);
    LeftIsBounded(states[i]);
  }

  // ---------- a run without any call of ChangeDetected ----------

  lemma InitReachable(cfg: Config)
    ensures Reachable(cfg, Init())
  {
    assert IsRun(cfg, [Init()], []);
  }

  // One more step of a concrete run.
  lemma Go(cfg: Config, s: State, step: Step) returns (t: State)
    requires Reachable(cfg, s) && Enabled(s, step)
    ensures Reachable(cfg, t) && t == Apply(cfg, s, step)
  {
    var states, steps :| IsRun(cfg, states, steps) && s == states[|steps|];
    t := Apply(cfg, s, step);
    assert IsRun(cfg, states + [t], steps + [step]);
  }

  function FailedWatch(): State {
    Init().(watch := Gone, mustQuit := true, threadDone := true,
            watchErr := Some("no session"), endErr := Some("no session"))
  }

  lemma WatchEndsAtOnce(cfg: Config)
    ensures Reachable(cfg, Init().(watch := FinLocking, watchErr := Some("no session"), endErr := Some("no session")))
  {
    InitReachable(cfg);
    var s := Go(cfg, Init(), Watch(End(Some("no session"))));
    s := Go(cfg, s, Watch(Event));
  }

  lemma WatchFinishes(cfg: Config)
    ensures Reachable(cfg, FailedWatch())
  {
    WatchEndsAtOnce(cfg);
    var s := Init().(watch := FinLocking, watchErr := Some("no session"), endErr := Some("no session"));
    s := Go(cfg, s, Watch(Event));
    s := Go(cfg, s, Watch(Event));
    s := Go(cfg, s, Watch(Event));
    s := Go(cfg, s, Watch(Event));
    s := Go(cfg, s, Watch(Event));
  }

  lemma LoopSeesTheEnd(cfg: Config)
    ensures Reachable(cfg, FailedWatch().(main := Choosing, quitting := true))
  {
    WatchFinishes(cfg);
    var s := Go(cfg, FailedWatch(), Main(None));
    s := Go(cfg, s, Main(None));
    s := Go(cfg, s, Main(None));
    s := Go(cfg, s, Main(None));
    s := Go(cfg, s, Main(None));
  }

  lemma LoopEnds(cfg: Config)
    ensures exists s ::
              && Reachable(cfg, s) && s.main.LoopTop? && s.quitting && s.threadDone && s.lock.Free?
              && s.callbackErr.None? && s.log == []
  {
    LoopSeesTheEnd(cfg);
    var s := Go(cfg, FailedWatch().(main := Choosing, quitting := true), Main(None));
    s := Go(cfg, s, Main(None));
    if cfg.period > 0 {
      s := Go(cfg, s, Main(None));
    }
  }

  // The comment on WatchForChange promises at least one call of ChangeDetected. A Watch that fails before
  // its first callback shows otherwise; CalledIffRecorded says exactly when there is one.
  lemma ChangeDetectedMayNeverBeCalled(cfg: Config)
    ensures exists s :: Reachable(cfg, s) && s.main.Returned? && s.callbackErr.None? && Notified !in s.log
  {
    LoopEnds(cfg);
    var s :| && Reachable(cfg, s) && s.main.LoopTop? && s.quitting && s.threadDone && s.lock.Free?
             && s.callbackErr.None? && s.log == [];
    s := Go(cfg, s, Main(None));
    s := Go(cfg, s, Main(None));
    s := Go(cfg, s, Main(None));
  }
}
