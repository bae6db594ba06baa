/** The parallel copy engine: a producer, a bounded channel, a pool of workers, a watchdog, and the
    two-step commit that follows them.

    Every atomic action of every thread is one `Step`; a run is any list of enabled steps, so the
    theorems speak of every interleaving, every number of workers and every failure pattern. */
module CopyEngine {
  import opened Wrappers

  type Byte = b: int | 0 <= b < 256

  type Bytes = seq<Byte>

  datatype ChunkInfo = ChunkInfo(offset: nat, hash: string, dirty: bool)

  // What a run is started with: the thread count asked for, what the source endpoint holds
  // (FetchAt is given an offset and a hash), and what the destination held beforehand.
  datatype Config = Config(numThreads: nat, source: (nat, string) -> Bytes, initial: map<nat, Bytes>)

  function Threads(cfg: Config): nat {
    if cfg.numThreads == 0 then 1 else cfg.numThreads
  }

  // ---------- the error record ----------

  datatype ErrorRecord = NoError | Recorded(description: string, fatal: bool)

  datatype Setter = BySetup | ByWorker | ByDiffer | BySource | ByDestination | ByWatchdog

  datatype SetCall = SetCall(setter: Setter, description: string)

  function SetFirst(r: ErrorRecord, description: string, fatal: bool): ErrorRecord {
    if r.NoError? then Recorded(description, fatal) else r
  }

  // ---------- threads ----------

  datatype Stage =
    | Receiving
    | Fetching(chunk: ChunkInfo)
    | Filling(chunk: ChunkInfo)
    | Skipping(chunk: ChunkInfo)
    | Reporting(message: string)
    | Leaving
    | Exited

  // Each worker owns its buffer.
  datatype Worker = Worker(stage: Stage, buf: Bytes)

  datatype Main =
    | SettingUpSource
    | SettingUpDestination
    | Spawning
    | Producing
    | ChannelClosed
    | DifferReturned
    | Waiting
    | DecidingSource
    | CallingSource(success: bool)
    | SourceReturned(err: Option<string>)
    | DecidingDestination
    | CallingDestination(success: bool)
    | DestinationReturned(err: Option<string>)
    | Finished(early: bool)

  datatype DoneCall =
    | SourceDone(success: bool, err: Option<string>)
    | DestinationDone(success: bool, err: Option<string>)

  datatype State = State(
    main: Main,
    differErr: Option<string>,
    queue: seq<ChunkInfo>,
    closed: bool,
    workers: seq<Worker>,
    waitCount: int,
    error: ErrorRecord,
    dst: map<nat, Bytes>,
    // history
    sent: seq<ChunkInfo>,
    completed: seq<ChunkInfo>,
    failed: seq<ChunkInfo>,
    sets: seq<SetCall>,
    calls: seq<DoneCall>)

  function Init(cfg: Config): State {
    State(SettingUpSource, None, [], false, [], 0, NoError, cfg.initial, [], [], [], [], [])
  }

  // The abort poll handed to Differ.
  predicate ShouldAbort(s: State) {
    s.error.Recorded?
  }

  // The record and its history after a call to set, made only when there is an error.
  function ErrorAfter(r: ErrorRecord, prefix: string, err: Option<string>): ErrorRecord {
    if err.Some? then SetFirst(r, prefix + err.value, true) else r
  }

  function SetsAfter(sets: seq<SetCall>, setter: Setter, prefix: string, err: Option<string>): seq<SetCall> {
    if err.Some? then sets + [SetCall(setter, prefix + err.value)] else sets
  }

  // ---------- steps ----------

  datatype Step =
    | SetupSource(err: Option<string>)
    | SetupDestination(err: Option<string>)
    | Spawn(scratch: Bytes)
    | SpawningOver
    | Send(chunk: ChunkInfo)
    | CloseChannel
    | DifferReturns(err: Option<string>)
    | RecordDiffer
    | WaitOver
    | DecideSource
    | SourceDoneReturns(err: Option<string>)
    | RecordSource
    | DecideDestination
    | DestinationDoneReturns(err: Option<string>)
    | RecordDestination
    | Receive(w: nat)
    | ChannelDrained(w: nat)
    | Fetch(w: nat, err: Option<string>, partial: Bytes)
    | Fill(w: nat, err: Option<string>, partial: Bytes)
    | Skip(w: nat, err: Option<string>)
    | Report(w: nat)
    | Exit(w: nat)
    | Watchdog

  predicate Enabled(cfg: Config, s: State, step: Step) {
    match step
    case SetupSource(_) => s.main.SettingUpSource?
    case SetupDestination(_) => s.main.SettingUpDestination?
    case Spawn(_) => s.main.Spawning? && |s.workers| < Threads(cfg)
    case SpawningOver => s.main.Spawning? && |s.workers| == Threads(cfg)
    case Send(_) => s.main.Producing? && |s.queue| < 4 * Threads(cfg)
    case CloseChannel => s.main.Producing?
    case DifferReturns(_) => s.main.ChannelClosed?
    case RecordDiffer => s.main.DifferReturned?
    case WaitOver => s.main.Waiting? && s.waitCount == 0
    case DecideSource => s.main.DecidingSource?
    case SourceDoneReturns(_) => s.main.CallingSource?
    case RecordSource => s.main.SourceReturned?
    case DecideDestination => s.main.DecidingDestination?
    case DestinationDoneReturns(_) => s.main.CallingDestination?
    case RecordDestination => s.main.DestinationReturned?
    case Receive(w) => w < |s.workers| && s.workers[w].stage.Receiving? && s.queue != []
    case ChannelDrained(w) => w < |s.workers| && s.workers[w].stage.Receiving? && s.queue == [] && s.closed
    case Fetch(w, _, _) => w < |s.workers| && s.workers[w].stage.Fetching?
    case Fill(w, _, _) => w < |s.workers| && s.workers[w].stage.Filling?
    case Skip(w, _) => w < |s.workers| && s.workers[w].stage.Skipping?
    case Report(w) => w < |s.workers| && s.workers[w].stage.Reporting?
    case Exit(w) => w < |s.workers| && s.workers[w].stage.Leaving?
    case Watchdog => true
  }

  predicate IsWorkerStep(step: Step) {
    step.Receive? || step.ChannelDrained? || step.Fetch? || step.Fill? || step.Skip? || step.Report? || step.Exit?
  }

  function AppendIf(cs: seq<ChunkInfo>, c: ChunkInfo, when: bool): seq<ChunkInfo> {
    if when then cs + [c] else cs
  }

  // Where a worker goes after a call on its chunk returned.
  function NextStage(call: string, err: Option<string>, onward: Stage): Stage {
    if err.Some? then Reporting(call + err.value) else onward
  }

  function WorkerStep(cfg: Config, s: State, step: Step): State
    requires Enabled(cfg, s, step) && IsWorkerStep(step)
  {
    var w := step.w;
    var me := s.workers[w];
    match step
    case Receive(_) =>
      var c := s.queue[0];
      s.(workers := s.workers[w := me.(stage := if c.dirty then Fetching(c) else Skipping(c))],
         queue := s.queue[1..])
    case ChannelDrained(_) => s.(workers := s.workers[w := me.(stage := Leaving)])
    case Fetch(_, err, partial) =>
      // a failed read may leave anything in the buffer
      var c := me.stage.chunk;
      s.(workers := s.workers[w := Worker(NextStage("FetchAt: ", err, Filling(c)),
                                          if err.Some? then partial else cfg.source(c.offset, c.hash))],
         failed := AppendIf(s.failed, c, err.Some?))
    case Fill(_, err, partial) =>
      // a failed write may leave anything at that offset
      var c := me.stage.chunk;
      s.(workers := s.workers[w := me.(stage := NextStage("FillAt: ", err, Receiving))],
         dst := s.dst[c.offset := if err.Some? then partial else me.buf],
         completed := AppendIf(s.completed, c, err.None?),
         failed := AppendIf(s.failed, c, err.Some?))
    case Skip(_, err) =>
      var c := me.stage.chunk;
      s.(workers := s.workers[w := me.(stage := NextStage("SkipAt: ", err, Receiving))],
         completed := AppendIf(s.completed, c, err.None?),
         failed := AppendIf(s.failed, c, err.Some?))
    case Report(_) =>
      s.(workers := s.workers[w := me.(stage := Leaving)],
         error := SetFirst(s.error, me.stage.message, true),
         sets := s.sets + [SetCall(ByWorker, me.stage.message)])
    case Exit(_) => s.(workers := s.workers[w := me.(stage := Exited)], waitCount := s.waitCount - 1)
  }

  function MainStep(cfg: Config, s: State, step: Step): State
    requires Enabled(cfg, s, step) && !IsWorkerStep(step)
  {
    match step
    case SetupSource(err) =>
      s.(main := if err.Some? then Finished(true) else SettingUpDestination,
         error := ErrorAfter(s.error, "Set up source endpoint: ", err),
         sets := SetsAfter(s.sets, BySetup, "Set up source endpoint: ", err))
    case SetupDestination(err) =>
      s.(main := if err.Some? then Finished(true) else Spawning,
         error := ErrorAfter(s.error, "Set up destination endpoint: ", err),
         sets := SetsAfter(s.sets, BySetup, "Set up destination endpoint: ", err))
    case Spawn(scratch) =>
      s.(workers := s.workers + [Worker(Receiving, scratch)], waitCount := s.waitCount + 1)
    case SpawningOver => s.(main := Producing)
    case Send(c) => s.(queue := s.queue + [c], sent := s.sent + [c])
    case CloseChannel => s.(main := ChannelClosed, closed := true)
    case DifferReturns(err) => s.(main := DifferReturned, differErr := err)
    case RecordDiffer =>
      s.(main := Waiting,
         error := ErrorAfter(s.error, "Differ: ", s.differErr),
         sets := SetsAfter(s.sets, ByDiffer, "Differ: ", s.differErr))
    case WaitOver => s.(main := DecidingSource)
    case DecideSource => s.(main := CallingSource(s.error.NoError? && s.differErr.None?))
    case SourceDoneReturns(err) =>
      s.(main := SourceReturned(err), calls := s.calls + [SourceDone(s.main.success, err)])
    case RecordSource =>
      s.(main := DecidingDestination,
         error := ErrorAfter(s.error, "Source: ", s.main.err),
         sets := SetsAfter(s.sets, BySource, "Source: ", s.main.err))
    case DecideDestination => s.(main := CallingDestination(s.error.NoError? && s.differErr.None?))
    case DestinationDoneReturns(err) =>
      s.(main := DestinationReturned(err), calls := s.calls + [DestinationDone(s.main.success, err)])
    case RecordDestination =>
      s.(main := Finished(false),
         error := ErrorAfter(s.error, "Destination: ", s.main.err),
         sets := SetsAfter(s.sets, ByDestination, "Destination: ", s.main.err))
    case Watchdog =>
      s.(error := SetFirst(s.error, "Aborted due to a lack of progress", true),
         sets := s.sets + [SetCall(ByWatchdog, "Aborted due to a lack of progress")])
  }

  function Apply(cfg: Config, s: State, step: Step): State
    requires Enabled(cfg, s, step)
  {
    if IsWorkerStep(step) then WorkerStep(cfg, s, step) else MainStep(cfg, s, step)
  }

  // ---------- runs ----------

  // A run lists the states passed through and the steps between them.
  ghost predicate IsRun(cfg: Config, states: seq<State>, steps: seq<Step>) {
    && |states| == |steps| + 1
    && states[0] == Init(cfg)
    && forall i {:trigger steps[i]} :: 0 <= i < |steps| ==>
         Enabled(cfg, states[i], steps[i]) && states[i + 1] == Apply(cfg, states[i], steps[i])
  }

  ghost predicate Reachable(cfg: Config, s: State) {
    exists states, steps :: IsRun(cfg, states, steps) && s == states[|steps|]
  }

  // ---------- the sequential meaning of a chunk list ----------

  function ApplyChunk(source: (nat, string) -> Bytes, dst: map<nat, Bytes>, c: ChunkInfo): map<nat, Bytes> {
    if c.dirty then dst[c.offset := source(c.offset, c.hash)] else dst
  }

  function ApplyAll(source: (nat, string) -> Bytes, dst: map<nat, Bytes>, cs: seq<ChunkInfo>): map<nat, Bytes> {
    if cs == [] then dst
    else ApplyChunk(source, ApplyAll(source, dst, cs[..|cs| - 1]), cs[|cs| - 1])
  }

  // No two dirty chunks share an offset. Clean chunks are free.
  ghost predicate DistinctDirty(cs: seq<ChunkInfo>) {
    forall i, j :: 0 <= i < j < |cs| && cs[i].dirty && cs[j].dirty ==> cs[i].offset != cs[j].offset
  }

  // Dirty chunks that do share an offset have the same source bytes.
  ghost predicate SameBytes(source: (nat, string) -> Bytes, cs: seq<ChunkInfo>) {
    forall i, j :: 0 <= i < j < |cs| && cs[i].dirty && cs[j].dirty && cs[i].offset == cs[j].offset ==>
                     source(cs[i].offset, cs[i].hash) == source(cs[j].offset, cs[j].hash)
  }

  // The order in which the chunks are handled cannot show.
  ghost predicate OrderFree(cfg: Config, cs: seq<ChunkInfo>) {
    Threads(cfg) == 1 || SameBytes(cfg.source, cs)
  }
}
