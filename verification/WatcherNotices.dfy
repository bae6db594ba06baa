/** What brings about calls of the callbacks, and whose error is returned. */
module WatcherNotices {
  import opened Wrappers
  import opened ChangeWatcher
  import opened WatcherProofs

  // The first call of a callback is one of ChangeDetected: a timer is armed only after that, or on the way
  // out of the loop.
  ghost predicate NoticeInv(s: State) {
    && (s.timers != [] || s.main.Rearming? ==> Notified in s.log || s.quitting)
    && (s.timedOut ==> s.timers != [])
    && (s.main.Locking? || s.main.Testing? || s.main.Parked? || s.main.Woken? || s.main.Collecting? ==> !s.quitting)
    && (s.main.Unlocking? || s.main.Choosing? ==>
          (s.sawTimeout ==> Notified in s.log) && (!s.sawChange && !s.sawTimeout ==> s.quitting))
    && (s.main.InCallback? || s.callbackErr.Some? || Ticked in s.log ==> Notified in s.log)
  }

  // The error kept is that of a callback or that of Watch.
  ghost predicate BlameInv(s: State) {
    && (s.watchErr.Some? ==> Blames(s, s.watchErr))
    && (s.main.Stopping? ==> s.callbackErr == Some(s.main.err))
    && (s.main.Blaming? ==> s.callbackErr == Some(s.main.err))
    && (s.main.Returned? && s.main.result.Some? ==> Blames(s, s.main.result))
  }

  ghost predicate Blames(s: State, err: Option<string>) {
    err == s.callbackErr || err == s.endErr
  }

  lemma NoticesInit()
    ensures NoticeInv(Init()) && BlameInv(Init())
  {
  }

  lemma WaitingKeepsNotices(cfg: Config, s: State, err: Option<string>)
    requires ControlInv(s) && NoticeInv(s) && MainReady(s)
    requires s.main.LoopTop? || s.main.Locking? || s.main.Testing? || s.main.Woken? || s.main.Collecting? ||
             s.main.Unlocking?
    ensures NoticeInv(MainMove(cfg, s, err))
  {
    match s.main
    case LoopTop =>
    case Locking =>
    case Testing =>
    case Woken =>
    case Collecting =>
    case Unlocking =>
  }

  lemma CallingKeepsNotices(cfg: Config, s: State, err: Option<string>)
    requires ControlInv(s) && NoticeInv(s) && MainReady(s)
    requires s.main.Choosing? || s.main.InCallback? || s.main.Stopping? || s.main.Blaming? || s.main.Rearming? ||
             s.main.Assigning?
    ensures NoticeInv(MainMove(cfg, s, err))
  {
    match s.main
    case Choosing =>
      PendingAfter(s.log, Notified);
      PendingAfter(s.log, Ticked);
    case InCallback =>
    case Stopping(_) =>
    case Blaming(_) =>
    case Rearming =>
    case Assigning(_) =>
  }

  lemma FinaleKeepsNotices(cfg: Config, s: State, err: Option<string>)
    requires NoticeInv(s) && MainReady(s)
    requires s.main.FinalLocking? || s.main.FinalTesting? || s.main.FinalWoken?
    ensures NoticeInv(MainMove(cfg, s, err))
  {
    match s.main
    case FinalLocking =>
    case FinalTesting =>
    case FinalWoken =>
  }

  // What the goroutine leaves alone.
  ghost predicate WatchFrame(s: State, t: State) {
    && (t.main == s.main || t.main == Awaken(s.main)) && t.timers == s.timers && t.quitting == s.quitting
    && t.timedOut == s.timedOut && t.sawChange == s.sawChange && t.sawTimeout == s.sawTimeout &&
      t.callbackErr == s.callbackErr
    && (t.log == s.log || t.log == s.log + [Recorded])
  }

  lemma CallbackFrame(s: State, next: Outcome)
    requires WatchReady(s)
    requires s.watch.CbLocking? || s.watch.CbSignalling? || s.watch.CbTesting? || s.watch.CbRecording? ||
             s.watch.CbUnlocking?
    ensures WatchFrame(s, WatchMove(s, next))
    ensures WatchMove(s, next).watchErr == s.watchErr && WatchMove(s, next).endErr == s.endErr
  {
    match s.watch
    case CbLocking =>
    case CbSignalling =>
    case CbTesting =>
    case CbRecording =>
    case CbUnlocking(_) =>
  }

  lemma FinishFrame(s: State, next: Outcome)
    requires WatchReady(s)
    requires s.watch.FinLocking? || s.watch.FinQuitting? || s.watch.FinDone? || s.watch.FinSignalling? ||
             s.watch.FinUnlocking?
    ensures WatchFrame(s, WatchMove(s, next))
    ensures WatchMove(s, next).watchErr == s.watchErr && WatchMove(s, next).endErr == s.endErr
  {
    match s.watch
    case FinLocking =>
    case FinQuitting =>
    case FinDone =>
    case FinSignalling =>
    case FinUnlocking =>
  }

  lemma ReadingFrame(s: State, next: Outcome)
    requires s.watch.Connecting? || s.watch.Reading? || s.watch.Ended?
    ensures WatchFrame(s, WatchMove(s, next))
    ensures s.watch.Ended? ==>
              && WatchMove(s, next).watchErr == (if s.watch.err.Some? then s.watch.err else s.watchErr)
              && WatchMove(s, next).endErr == s.endErr
    ensures !s.watch.Ended? ==> WatchMove(s, next).watchErr == s.watchErr
  {
    match s.watch
    case Connecting =>
    case Reading =>
    case Ended(_) =>
  }

  predicate InWatchCallback(w: WatchPC) {
    w.CbLocking? || w.CbSignalling? || w.CbTesting? || w.CbRecording? || w.CbUnlocking?
  }

  lemma FrameKeepsNotices(s: State, t: State)
    requires NoticeInv(s) && WatchFrame(s, t)
    ensures NoticeInv(t)
  {
    PendingAfter(s.log, Recorded);
  }

  lemma WatchKeepsNotices(s: State, next: Outcome)
    requires NoticeInv(s) && WatchReady(s)
    ensures NoticeInv(WatchMove(s, next))
  {
    if InWatchCallback(s.watch) {
      CallbackFrame(s, next);
    } else if s.watch.Connecting? || s.watch.Reading? || s.watch.Ended? {
      ReadingFrame(s, next);
    } else {
      FinishFrame(s, next);
    }
    FrameKeepsNotices(s, WatchMove(s, next));
  }

  lemma TimersKeepNotices(s: State, id: nat)
    requires NoticeInv(s) && TimerReady(s, id)
    ensures NoticeInv(TimerMove(s, id))
  {
  }

  lemma StepKeepsNotices(cfg: Config, s: State, step: Step)
    requires Inv(cfg, s) && NoticeInv(s) && Enabled(s, step)
    ensures NoticeInv(Apply(cfg, s, step))
  {
    match step
    case Main(err) =>
      if InFinale(s.main) {
        FinaleKeepsNotices(cfg, s, err);
      } else if s.main.Choosing? || s.main.InCallback? || s.main.Stopping? || s.main.Blaming? ||
        s.main.Rearming? || s.main.Assigning? {
        CallingKeepsNotices(cfg, s, err);
      } else {
        WaitingKeepsNotices(cfg, s, err);
      }
    case Watch(next) => WatchKeepsNotices(s, next);
    case Timer(id) => TimersKeepNotices(s, id);
  }

  lemma CallbackKeepsBlame(cfg: Config, s: State, err: Option<string>)
    requires QuitInv(s) && BlameInv(s) && s.main.InCallback?
    ensures BlameInv(MainMove(cfg, s, err))
  {
    var t := MainMove(cfg, s, err);
    assert s.callbackErr.None? && t.watchErr == s.watchErr && t.endErr == s.endErr && t.callbackErr == err;
  }

  lemma StoppingKeepsBlame(cfg: Config, s: State, err: Option<string>)
    requires BlameInv(s) && s.main.Stopping?
    ensures BlameInv(MainMove(cfg, s, err))
  {
    var t := MainMove(cfg, s, err);
    assert t.main == Blaming(s.main.err) && t.watchErr == s.watchErr && t.endErr == s.endErr &&
      t.callbackErr == s.callbackErr;
  }

  lemma BlamingKeepsBlame(cfg: Config, s: State, err: Option<string>)
    requires BlameInv(s) && s.main.Blaming?
    ensures BlameInv(MainMove(cfg, s, err))
  {
    var t := MainMove(cfg, s, err);
    assert t.main.LoopTop? && t.watchErr == Some(s.main.err) && t.endErr == s.endErr && t.callbackErr == s.callbackErr;
  }

  lemma ReturningKeepsBlame(cfg: Config, s: State, err: Option<string>)
    requires BlameInv(s) && s.main.FinalTesting?
    ensures BlameInv(MainMove(cfg, s, err))
  {
    var t := MainMove(cfg, s, err);
    assert t.watchErr == s.watchErr && t.endErr == s.endErr && t.callbackErr == s.callbackErr;
    assert t.main == Returned(s.watchErr) || t.main.FinalParked?;
  }

  // All other steps of the main loop leave the errors alone.
  lemma LoopFrame(cfg: Config, s: State, err: Option<string>)
    requires MainReady(s)
    requires s.main.LoopTop? || s.main.Locking? || s.main.Testing? || s.main.Woken? || s.main.Collecting? ||
             s.main.Unlocking?
    ensures var t := MainMove(cfg, s, err);
            && t.watchErr == s.watchErr && t.callbackErr == s.callbackErr && t.endErr == s.endErr
            && !t.main.Stopping? && !t.main.Blaming? && !t.main.Returned?
  {
    match s.main
    case LoopTop =>
    case Locking =>
    case Testing =>
    case Woken =>
    case Collecting =>
    case Unlocking =>
  }

  lemma OtherFrame(cfg: Config, s: State, err: Option<string>)
    requires MainReady(s)
    requires s.main.Choosing? || s.main.Rearming? || s.main.Assigning? || s.main.FinalLocking? || s.main.FinalWoken?
    ensures var t := MainMove(cfg, s, err);
            && t.watchErr == s.watchErr && t.callbackErr == s.callbackErr && t.endErr == s.endErr
            && !t.main.Stopping? && !t.main.Blaming? && !t.main.Returned?
  {
    match s.main
    case Choosing =>
    case Rearming =>
    case Assigning(_) =>
    case FinalLocking =>
    case FinalWoken =>
  }

  lemma MainKeepsBlame(cfg: Config, s: State, err: Option<string>)
    requires QuitInv(s) && BlameInv(s) && MainReady(s)
    ensures BlameInv(MainMove(cfg, s, err))
  {
    if s.main.InCallback? {
      CallbackKeepsBlame(cfg, s, err);
    } else if s.main.Stopping? {
      StoppingKeepsBlame(cfg, s, err);
    } else if s.main.Blaming? {
      BlamingKeepsBlame(cfg, s, err);
    } else if s.main.FinalTesting? {
      ReturningKeepsBlame(cfg, s, err);
    } else if s.main.Choosing? || s.main.Rearming? || s.main.Assigning? || s.main.FinalLocking? || s.main.FinalWoken? {
      OtherFrame(cfg, s, err);
    } else {
      LoopFrame(cfg, s, err);
    }
  }

  lemma FrameKeepsBlame(s: State, t: State)
    requires BlameInv(s) && WatchFrame(s, t) && t.watchErr == s.watchErr && t.endErr == s.endErr
    ensures BlameInv(t)
  {
  }

  lemma ReadingKeepsBlame(s: State, next: Outcome)
    requires ErrorInv(s) && BlameInv(s) && !s.main.Returned? && (s.watch.Connecting? || s.watch.Reading?)
    ensures BlameInv(WatchMove(s, next))
  {
    ReadingFrame(s, next);
    assert s.endErr.None?;
  }

  lemma EndingKeepsBlame(s: State, next: Outcome)
    requires ErrorInv(s) && BlameInv(s) && !s.main.Returned? && s.watch.Ended?
    ensures BlameInv(WatchMove(s, next))
  {
    ReadingFrame(s, next);
  }

  lemma WatchKeepsBlame(s: State, next: Outcome)
    requires ErrorInv(s) && BlameInv(s) && WatchReady(s) && (s.main.Returned? ==> s.watch.Gone?)
    ensures BlameInv(WatchMove(s, next))
  {
    if s.watch.Ended? {
      EndingKeepsBlame(s, next);
    } else if s.watch.Connecting? || s.watch.Reading? {
      ReadingKeepsBlame(s, next);
    } else {
      if InWatchCallback(s.watch) {
        CallbackFrame(s, next);
      } else {
        FinishFrame(s, next);
      }
      FrameKeepsBlame(s, WatchMove(s, next));
    }
  }

  lemma StepKeepsBlame(cfg: Config, s: State, step: Step)
    requires Inv(cfg, s) && BlameInv(s) && Enabled(s, step)
    ensures BlameInv(Apply(cfg, s, step))
  {
    match step
    case Main(err) => MainKeepsBlame(cfg, s, err);
    case Watch(next) => WatchKeepsBlame(s, next);
    case Timer(_) =>
  }

  lemma {:induction false} RunKeepsNotices(cfg: Config, states: seq<State>, steps: seq<Step>, k: nat)
    requires IsRun(cfg, states, steps) && k <= |steps|
    ensures NoticeInv(states[k]) && BlameInv(states[k])
    decreases k
  {
    if k > 0 {
      RunKeepsNotices(cfg, states, steps, k - 1);
      RunKeepsInv(cfg, states, steps, k - 1);
      StepKeepsNotices(cfg, states[k - 1], steps[k - 1]);
      StepKeepsBlame(cfg, states[k - 1], steps[k - 1]);
    } else {
      NoticesInit();
    }
  }

  lemma ReachedNotices(cfg: Config, s: State)
    requires Reachable(cfg, s)
    ensures NoticeInv(s) && BlameInv(s)
  {
    var states, steps :| IsRun(cfg, states, steps) && s == states[|steps|];
    RunKeepsNotices(cfg, states, steps, |steps|);
  }
}
