/** The change watcher: a main loop, a watch goroutine and timer callbacks that share one mutex, one
    condition variable and several flags.

    Every statement that touches shared state is one atomic step. The mutex has an owner. Only the main
    loop ever waits on the condition variable, so being on its wait queue is being `Parked` or
    `FinalParked`; a signal moves it off the queue, after which it competes for the mutex. The fields the
    code writes outside the lock (`stopThread`, `timer`, `watchErr`) are written here without holding it. */
module ChangeWatcher {
  import opened Wrappers

  // period is 0 for a plain ChangeDetector and positive for one with a ticker.
  datatype Config = Config(period: nat)

  datatype Owner = Free | MainThread | WatchThread | TimerThread(id: nat)

  datatype MainPC =
    | LoopTop
    | Locking
    | Testing
    | Parked
    | Woken
    | Collecting
    | Unlocking
    | Choosing
    | InCallback
    | Stopping(err: string)
    | Blaming(err: string)
    | Rearming
    | Assigning(id: nat)
    | FinalLocking
    | FinalTesting
    | FinalParked
    | FinalWoken
    | Returned(result: Option<string>)

  datatype WatchPC =
    | Connecting
    | CbLocking
    | CbSignalling
    | CbTesting
    | CbRecording
    | CbUnlocking(keepGoing: bool)
    | Reading
    | Ended(err: Option<string>)
    | FinLocking
    | FinQuitting
    | FinDone
    | FinSignalling
    | FinUnlocking
    | Gone

  datatype TimerPC = Armed | Cancelled | Fired | TickSetting | TickClearing | TickSignalling | TickUnlocking | Over

  // What happened, in order: an event recorded by the watch callback, a call of ChangeDetected, a call of
  // NoChangeTick.
  datatype Happening = Recorded | Notified | Ticked

  datatype State = State(
    main: MainPC, watch: WatchPC, timers: seq<TimerPC>,
    lock: Owner,
    // the locals of the loop
    sawChange: bool, sawTimeout: bool, quitting: bool,
    // the shared fields
    detectedChange: bool, timedOut: bool, mustQuit: bool, stopThread: bool, threadDone: bool,
    timer: Option<nat>, watchErr: Option<string>,
    // history
    log: seq<Happening>, callbackErr: Option<string>, endErr: Option<string>)

  function Init(): State {
    State(LoopTop, Connecting, [], Free, false, false, false, false, false, false, false, false,
          None, None, [], None, None)
  }

  // A period that is not positive is refused before the goroutine is started.
  function Start(period: Option<int>): (r: Result<Config, string>)
    ensures r.Failure? <==> period.Some? && period.value <= 0
    ensures r.Success? ==> (r.value.period > 0 <==> period.Some?)
  {
    if period.None? then Success(Config(0))
    else if period.value <= 0 then Failure("invalid period")
    else Success(Config(period.value))
  }

  // cond.Signal: take the waiter, if there is one, off the wait queue.
  function Awaken(main: MainPC): MainPC {
    if main.Parked? then Woken else if main.FinalParked? then FinalWoken else main
  }

  // ---------- the main loop ----------

  predicate MainReady(s: State) {
    match s.main
    case Parked => false
    case FinalParked => false
    case Returned(_) => false
    case Locking => s.lock.Free?
    case Woken => s.lock.Free?
    case FinalLocking => s.lock.Free?
    case FinalWoken => s.lock.Free?
    case _ => true
  }

  predicate Flagged(s: State) {
    s.mustQuit || s.detectedChange || s.timedOut
  }

  // timer.Stop: only a timer that has not fired yet can still be stopped.
  function Cancel(timers: seq<TimerPC>, timer: Option<nat>): seq<TimerPC> {
    if timer.Some? && timer.value < |timers| && timers[timer.value].Armed? then timers[timer.value := Cancelled]
    else timers
  }

  // err is what the callback returns, where one is running.
  function MainMove(cfg: Config, s: State, err: Option<string>): State
    requires MainReady(s)
  {
    match s.main
    case LoopTop => s.(main := if s.quitting then FinalLocking else Locking, sawChange := false, sawTimeout := false)
    case Locking => s.(main := Testing, lock := MainThread)
    case Testing =>
      // nothing to do yet: wait, which lets go of the mutex
      s.(main := if Flagged(s) then Collecting else Parked, lock := if Flagged(s) then s.lock else Free)
    case Woken => s.(main := Collecting, lock := MainThread)
    case Collecting =>
      s.(main := Unlocking, sawChange := s.detectedChange, sawTimeout := s.timedOut, quitting := s.mustQuit,
         detectedChange := false, timedOut := false, timers := Cancel(s.timers, s.timer), timer := None)
    case Unlocking => s.(main := Choosing, lock := Free)
    case Choosing =>
      // a change is reported even when quitting
      s.(main := if s.sawChange || s.sawTimeout then InCallback else Rearming,
         log := if s.sawChange then s.log + [Notified] else if s.sawTimeout then s.log + [Ticked] else s.log)
    case InCallback =>
      s.(main := if err.Some? then Stopping(err.value) else Rearming, callbackErr := err)
    case Stopping(e) => s.(main := Blaming(e), stopThread := true)
    case Blaming(e) => s.(main := LoopTop, watchErr := Some(e), quitting := true)
    case Rearming =>
      s.(main := if cfg.period > 0 then Assigning(|s.timers|) else LoopTop,
         timers := if cfg.period > 0 then s.timers + [Armed] else s.timers)
    case Assigning(id) => s.(main := LoopTop, timer := Some(id))
    case FinalLocking => s.(main := FinalTesting, lock := MainThread)
    case FinalTesting =>
      s.(main := if s.threadDone then Returned(s.watchErr) else FinalParked, lock := Free)
    case FinalWoken => s.(main := FinalTesting, lock := MainThread)
  }

  // ---------- the watch goroutine ----------

  // What Watch meets next: an event (or the first, nil, callback), or its end. Ended(None) is a nil error.
  datatype Outcome = Event | End(err: Option<string>)

  function Meets(next: Outcome): WatchPC {
    if next.Event? then CbLocking else Ended(next.err)
  }

  predicate WatchReady(s: State) {
    match s.watch
    case CbLocking => s.lock.Free?
    case FinLocking => s.lock.Free?
    case Gone => false
    case _ => true
  }

  function WatchMove(s: State, next: Outcome): State
    requires WatchReady(s)
  {
    match s.watch
    case Connecting => s.(watch := Meets(next), endErr := if next.Event? then None else next.err)
    case CbLocking => s.(watch := CbSignalling, lock := WatchThread)
    case CbSignalling => s.(watch := CbTesting, main := Awaken(s.main))
    case CbTesting => s.(watch := if s.stopThread then CbUnlocking(false) else CbRecording)
    case CbRecording => s.(watch := CbUnlocking(true), detectedChange := true, log := s.log + [Recorded])
    case CbUnlocking(keepGoing) =>
      // a terminated watch ends with terminatedErr, which is not kept
      s.(watch := if keepGoing then Reading else Ended(None), lock := Free)
    case Reading => s.(watch := Meets(next), endErr := if next.Event? then None else next.err)
    case Ended(err) => s.(watch := FinLocking, watchErr := if err.Some? then err else s.watchErr)
    case FinLocking => s.(watch := FinQuitting, lock := WatchThread)
    case FinQuitting => s.(watch := FinDone, mustQuit := true)
    case FinDone => s.(watch := FinSignalling, threadDone := true)
    case FinSignalling => s.(watch := FinUnlocking, main := Awaken(s.main))
    case FinUnlocking => s.(watch := Gone, lock := Free)
  }

  // ---------- the timer callbacks ----------

  predicate TimerReady(s: State, id: nat) {
    id < |s.timers| && !s.timers[id].Cancelled? && !s.timers[id].Over? && (s.timers[id].Fired? ==> s.lock.Free?)
  }

  function TimerNext(pc: TimerPC): TimerPC {
    match pc
    case Armed => Fired
    case Fired => TickSetting
    case TickSetting => TickClearing
    case TickClearing => TickSignalling
    case TickSignalling => TickUnlocking
    case TickUnlocking => Over
    case _ => pc
  }

  // Fire, lock, set timedOut, clear timer (whichever timer it is by now), signal, unlock.
  function TimerMove(s: State, id: nat): State
    requires TimerReady(s, id)
  {
    var pc := s.timers[id];
    s.(timers := s.timers[id := TimerNext(pc)],
       lock := if pc.Fired? then TimerThread(id) else if pc.TickUnlocking? then Free else s.lock,
       timedOut := s.timedOut || pc.TickSetting?,
       timer := if pc.TickClearing? then None else s.timer,
       main := if pc.TickSignalling? then Awaken(s.main) else s.main)
  }

  // ---------- runs ----------

  datatype Step = Main(err: Option<string>) | Watch(next: Outcome) | Timer(id: nat)

  predicate Enabled(s: State, step: Step) {
    match step
    case Main(_) => MainReady(s)
    case Watch(_) => WatchReady(s)
    case Timer(id) => TimerReady(s, id)
  }

  function Apply(cfg: Config, s: State, step: Step): State
    requires Enabled(s, step)
  {
    match step
    case Main(err) => MainMove(cfg, s, err)
    case Watch(next) => WatchMove(s, next)
    case Timer(id) => TimerMove(s, id)
  }

  ghost predicate IsRun(cfg: Config, states: seq<State>, steps: seq<Step>) {
    && |states| == |steps| + 1
    && states[0] == Init()
    && forall i {:trigger steps[i]} :: 0 <= i < |steps| ==>
         Enabled(states[i], steps[i]) && states[i + 1] == Apply(cfg, states[i], steps[i])
  }

  ghost predicate Reachable(cfg: Config, s: State) {
    exists states, steps :: IsRun(cfg, states, steps) && s == states[|steps|]
  }

  // Some event recorded has not been followed by a call of ChangeDetected.
  predicate Pending(log: seq<Happening>) {
    if log == [] then false
    else if log[|log| - 1].Recorded? then true
    else if log[|log| - 1].Notified? then false
    else Pending(log[..|log| - 1])
  }
}
