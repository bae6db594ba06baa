/** What every step of the copy engine keeps, and what follows for whole runs. */
module CopyProofs {
  import opened Wrappers
  import opened CopyEngine

  // ---------- chunks in the workers' hands ----------

  predicate Holding(w: Worker) {
    w.stage.Fetching? || w.stage.Filling? || w.stage.Skipping?
  }

  ghost function Held(w: Worker): multiset<ChunkInfo> {
    if Holding(w) then multiset{w.stage.chunk} else multiset{}
  }

  ghost function Hands(ws: seq<Worker>): multiset<ChunkInfo> {
    if ws == [] then multiset{} else Hands(ws[..|ws| - 1]) + Held(ws[|ws| - 1])
  }

  ghost function Live(ws: seq<Worker>): nat {
    if ws == [] then 0 else Live(ws[..|ws| - 1]) + (if ws[|ws| - 1].stage.Exited? then 0 else 1)
  }

  lemma SwapLast<T>(a: multiset<T>, b: multiset<T>, x: multiset<T>, y: multiset<T>, z: multiset<T>)
    requires a + x == b + y
    ensures (a + z) + x == (b + z) + y
  {
    assert (a + z) + x == (a + x) + z;
    assert (b + z) + y == (b + y) + z;
  }

  lemma Cancel<T>(a: multiset<T>, b: multiset<T>, x: multiset<T>)
    requires a + x == b + x
    ensures a == b
  {
    assert a == (a + x) - x;
    assert b == (b + x) - x;
  }

  lemma HandsOfOneMore(rest: seq<Worker>, w: Worker)
    ensures Hands(rest + [w]) == Hands(rest) + Held(w)
  {
    assert (rest + [w])[..|rest|] == rest;
  }

  lemma {:induction false} HandsUpdate(ws: seq<Worker>, i: nat, w: Worker)
    requires i < |ws|
    ensures Hands(ws[i := w]) + Held(ws[i]) == Hands(ws) + Held(w)
  {
    var rest, last := ws[..|ws| - 1], ws[|ws| - 1];
    assert ws == rest + [last];
    HandsOfOneMore(rest, last);
    if i == |rest| {
      assert ws[i := w] == rest + [w];
      HandsOfOneMore(rest, w);
    } else {
      assert ws[i := w] == rest[i := w] + [last];
      HandsOfOneMore(rest[i := w], last);
      HandsUpdate(rest, i, w);
      SwapLast(Hands(rest[i := w]), Hands(rest), Held(ws[i]), Held(w), Held(last));
    }
  }

  lemma {:induction false} HandsHas(ws: seq<Worker>, i: nat)
    requires i < |ws|
    ensures Held(ws[i]) <= Hands(ws)
  {
    if i < |ws| - 1 {
      HandsHas(ws[..|ws| - 1], i);
      assert ws[..|ws| - 1][i] == ws[i];
    }
  }

  lemma {:induction false} LiveUpdate(ws: seq<Worker>, i: nat, w: Worker)
    requires i < |ws|
    ensures Live(ws[i := w]) + (if ws[i].stage.Exited? then 0 else 1) == Live(ws) + (if w.stage.Exited? then 0 else 1)
  {
    var last := |ws| - 1;
    if i == last {
      assert ws[i := w][..last] == ws[..last];
    } else {
      LiveUpdate(ws[..last], i, w);
      assert ws[i := w][..last] == ws[..last][i := w];
    }
  }

  lemma {:induction false} NoneLive(ws: seq<Worker>)
    requires Live(ws) == 0
    ensures forall w :: 0 <= w < |ws| ==> ws[w].stage.Exited?
    ensures Hands(ws) == multiset{}
  {
    if ws != [] {
      NoneLive(ws[..|ws| - 1]);
      assert forall w :: 0 <= w < |ws| - 1 ==> ws[w] == ws[..|ws| - 1][w];
    }
  }

  // ---------- the invariant ----------

  ghost predicate ErrorInv(s: State) {
    && s.error == (if s.sets == [] then NoError else Recorded(s.sets[0].description, true))
    && (forall i :: 0 <= i < |s.sets| ==> Justified(s, s.sets[i].setter))
  }

  // Nobody records an error without cause.
  ghost predicate Justified(s: State, setter: Setter) {
    match setter
    case BySetup => s.main == Finished(true)
    case ByWorker => s.failed != []
    case ByDiffer => s.differErr.Some?
    case BySource => |s.calls| >= 1 && s.calls[0].err.Some?
    case ByDestination => |s.calls| >= 2 && s.calls[1].err.Some?
    case ByWatchdog => true
  }

  ghost predicate ConservationInv(s: State) {
    multiset(s.sent) == multiset(s.queue) + Hands(s.workers) + multiset(s.completed) + multiset(s.failed)
  }

  ghost predicate WorkerInv(cfg: Config, s: State, w: Worker) {
    match w.stage
    case Fetching(c) => c.dirty
    case Filling(c) => c.dirty && w.buf == cfg.source(c.offset, c.hash)
    case Skipping(c) => !c.dirty
    case Reporting(_) => s.failed != []
    case Leaving => s.error.Recorded? || (s.closed && s.queue == [])
    case Exited => s.error.Recorded? || (s.closed && s.queue == [])
    case _ => true
  }

  ghost predicate WorkersInv(cfg: Config, s: State) {
    && (forall w :: 0 <= w < |s.workers| ==> WorkerInv(cfg, s, s.workers[w]))
    && s.waitCount == Live(s.workers)
  }

  // A failed chunk has been recorded, or its worker is about to record it.
  ghost predicate FailureInv(s: State) {
    s.failed != [] ==> s.error.Recorded? || exists w :: 0 <= w < |s.workers| && s.workers[w].stage.Reporting?
  }

  predicate BeforeWait(m: Main) {
    m.SettingUpSource? || m.SettingUpDestination? || m.Spawning? || m.Producing? || m.ChannelClosed? ||
    m.DifferReturned? || m.Waiting?
  }

  ghost predicate AllGone(s: State) {
    forall w :: 0 <= w < |s.workers| ==> s.workers[w].stage.Exited?
  }

  // The workers have all gone and everything that went wrong so far is in the record.
  ghost predicate Settled(s: State) {
    && AllGone(s)
    && (s.differErr.Some? || s.failed != [] ==> s.error.Recorded?)
  }

  // Whoever was told "success" was told so with everything sent dealt with and nothing wrong;
  // whoever was told otherwise, with the record set.
  ghost predicate Told(s: State, success: bool) {
    if success then s.differErr.None? && s.failed == [] && s.queue == [] else s.error.Recorded?
  }

  ghost predicate SourceCalled(s: State) {
    |s.calls| >= 1 && s.calls[0].SourceDone? && Told(s, s.calls[0].success)
  }

  ghost predicate SourceRecorded(s: State) {
    SourceCalled(s) && (s.calls[0].err.Some? ==> s.error.Recorded?)
  }

  ghost predicate Commitable(s: State) {
    SourceRecorded(s) && s.calls[0].success && s.calls[0].err.None?
  }

  ghost predicate MainInv(cfg: Config, s: State) {
    && |s.workers| <= Threads(cfg)
    && (s.closed <==>
          !(s.main.SettingUpSource? || s.main.SettingUpDestination? || s.main.Spawning? || s.main.Producing? ||
            s.main == Finished(true)))
    && ((|| s.main.SettingUpSource? || s.main.SettingUpDestination? || s.main.Spawning? || s.main.Producing?
         || s.main.ChannelClosed?) ==>
          s.differErr.None?)
    && (BeforeWait(s.main) ==> s.calls == [])
    && (!(s.main.SettingUpSource? || s.main.SettingUpDestination? || s.main.Spawning? || s.main == Finished(true)) ==>
          |s.workers| == Threads(cfg))
    && (s.main.Waiting? && s.differErr.Some? ==> s.error.Recorded?)
    && (!BeforeWait(s.main) ==> Settled(s))
    && match s.main
       case SettingUpSource => s.workers == [] && s.sent == []
       case SettingUpDestination => s.workers == [] && s.sent == []
       case Spawning => s.sent == []
       case DecidingSource => s.calls == []
       case CallingSource(success) => s.calls == [] && Told(s, success)
       case SourceReturned(err) => |s.calls| == 1 && SourceCalled(s) && s.calls[0].err == err
       case DecidingDestination => |s.calls| == 1 && SourceRecorded(s)
       case CallingDestination(success) =>
         |s.calls| == 1 && SourceRecorded(s) && Told(s, success) && (success ==> Commitable(s))
       case DestinationReturned(err) =>
         |s.calls| == 2 && s.calls[1].DestinationDone? && s.calls[1].err == err &&
         SourceRecorded(s) && Told(s, s.calls[1].success) && (s.calls[1].success ==> Commitable(s))
       case Finished(early) =>
         if early then s.calls == [] && s.error.Recorded? && s.workers == [] && s.sent == []
         else
           && |s.calls| == 2 && s.calls[1].DestinationDone?
           && (s.calls[1].err.Some? ==> s.error.Recorded?)
           && SourceRecorded(s) && Told(s, s.calls[1].success) && (s.calls[1].success ==> Commitable(s))
       case _ => true
  }

  // ---------- the destination ----------

  ghost predicate SameAt(a: map<nat, Bytes>, b: map<nat, Bytes>, off: nat) {
    (off in a <==> off in b) && (off in a ==> a[off] == b[off])
  }

  ghost predicate Touches(cs: seq<ChunkInfo>, off: nat) {
    exists i :: 0 <= i < |cs| && cs[i].dirty && cs[i].offset == off
  }

  ghost predicate Holds(cfg: Config, dst: map<nat, Bytes>, c: ChunkInfo) {
    c.offset in dst && dst[c.offset] == cfg.source(c.offset, c.hash)
  }

  // With every offset written by at most one dirty chunk: completed dirty chunks are in place, and
  // offsets of no completed or failed dirty chunk are as they were at the start.
  ghost predicate DataInv(cfg: Config, s: State) {
    DistinctDirty(s.sent) ==>
      && (forall i :: 0 <= i < |s.completed| && s.completed[i].dirty ==> Holds(cfg, s.dst, s.completed[i]))
      && (forall off: nat :: !Touches(s.completed, off) && !Touches(s.failed, off) ==> SameAt(s.dst, cfg.initial, off))
  }

  ghost predicate Inv(cfg: Config, s: State) {
    ErrorInv(s) && ConservationInv(s) && WorkersInv(cfg, s) && FailureInv(s) && MainInv(cfg, s) && DataInv(cfg, s)
  }

  lemma InvInit(cfg: Config)
    ensures Inv(cfg, Init(cfg))
  {
  }

  // ---------- the workers' steps ----------

  // A worker step never touches what the main thread decides by.
  ghost predicate WorkerFrame(s: State, t: State, w: nat) {
    && w < |s.workers| == |t.workers|
    && t.workers == s.workers[w := t.workers[w]]
    && !s.workers[w].stage.Exited?
    && t.main == s.main && t.differErr == s.differErr && t.closed == s.closed && t.calls == s.calls
    && t.sent == s.sent
    && (s.error.Recorded? ==> t.error == s.error)
  }

  lemma WorkerStepFrame(cfg: Config, s: State, step: Step)
    requires Enabled(cfg, s, step) && IsWorkerStep(step)
    ensures WorkerFrame(s, WorkerStep(cfg, s, step), step.w)
  {
  }

  lemma FrameKeepsMain(cfg: Config, s: State, t: State, w: nat)
    requires MainInv(cfg, s) && WorkerFrame(s, t, w)
    ensures BeforeWait(s.main) && MainInv(cfg, t)
  {
    assert !AllGone(s);
  }

  lemma WorkerStepKeepsErrors(cfg: Config, s: State, step: Step)
    requires ErrorInv(s) && WorkersInv(cfg, s) && Enabled(cfg, s, step) && IsWorkerStep(step)
    ensures ErrorInv(WorkerStep(cfg, s, step))
  {
    var t := WorkerStep(cfg, s, step);
    forall i | 0 <= i < |t.sets|
      ensures Justified(t, t.sets[i].setter)
    {
      if i < |s.sets| {
        assert t.sets[i] == s.sets[i];
        assert Justified(s, s.sets[i].setter);
      } else {
        assert WorkerInv(cfg, s, s.workers[step.w]);
      }
    }
  }

  lemma WorkerStepKeepsWorkers(cfg: Config, s: State, step: Step)
    requires WorkersInv(cfg, s) && Enabled(cfg, s, step) && IsWorkerStep(step)
    ensures WorkersInv(cfg, WorkerStep(cfg, s, step))
  {
    var t := WorkerStep(cfg, s, step);
    var w := step.w;
    WorkerStepFrame(cfg, s, step);
    LiveUpdate(s.workers, w, t.workers[w]);
    assert WorkerInv(cfg, s, s.workers[w]);
    assert WorkerInv(cfg, t, t.workers[w]);
    forall v | 0 <= v < |t.workers| && v != w
      ensures WorkerInv(cfg, t, t.workers[v])
    {
      assert t.workers[v] == s.workers[v];
      assert WorkerInv(cfg, s, s.workers[v]);
    }
  }

  lemma MoveToHands<T>(all: multiset<T>, queue: multiset<T>, hands: multiset<T>, done: multiset<T>,
                       failed: multiset<T>, x: multiset<T>)
    requires all == (x + queue) + hands + done + failed
    ensures all == queue + (hands + x) + done + failed
  {
  }

  lemma MoveFromHands<T>(all: multiset<T>, queue: multiset<T>, hands: multiset<T>, done: multiset<T>,
                         failed: multiset<T>, x: multiset<T>)
    requires all == queue + (hands + x) + done + failed
    ensures all == queue + hands + (done + x) + failed
    ensures all == queue + hands + done + (failed + x)
  {
  }

  lemma ReceiveKeepsChunks(cfg: Config, s: State, w: nat)
    requires ConservationInv(s) && Enabled(cfg, s, Receive(w))
    ensures ConservationInv(WorkerStep(cfg, s, Receive(w)))
  {
    var t := WorkerStep(cfg, s, Receive(w));
    var x := multiset{s.queue[0]};
    assert s.queue == [s.queue[0]] + t.queue;
    assert multiset(s.queue) == x + multiset(t.queue);
    assert Hands(t.workers) == Hands(s.workers) + x by {
      HandsUpdate(s.workers, w, t.workers[w]);
    }
    MoveToHands(multiset(s.sent), multiset(t.queue), Hands(s.workers), multiset(s.completed), multiset(s.failed), x);
  }

  // The worker is done with its chunk.
  ghost predicate Releases(s: State, t: State, w: nat, c: ChunkInfo) {
    && WorkerFrame(s, t, w) && t.queue == s.queue
    && Holding(s.workers[w]) && s.workers[w].stage.chunk == c && !Holding(t.workers[w])
    && ((t.completed == s.completed + [c] && t.failed == s.failed) ||
        (t.completed == s.completed && t.failed == s.failed + [c]))
  }

  // The worker keeps its chunk or has none.
  ghost predicate Quiet(s: State, t: State, w: nat) {
    && WorkerFrame(s, t, w) && t.queue == s.queue && t.completed == s.completed && t.failed == s.failed
    && (if Holding(s.workers[w])
        then Holding(t.workers[w]) && t.workers[w].stage.chunk == s.workers[w].stage.chunk
        else !Holding(t.workers[w]))
  }

  lemma ReleaseKeepsChunks(s: State, t: State, w: nat, c: ChunkInfo)
    requires ConservationInv(s) && Releases(s, t, w, c)
    ensures ConservationInv(t)
  {
    assert Hands(s.workers) == Hands(t.workers) + multiset{c} by {
      HandsUpdate(s.workers, w, t.workers[w]);
    }
    MoveFromHands(multiset(s.sent), multiset(s.queue), Hands(t.workers), multiset(s.completed), multiset(s.failed),
                  multiset{c});
  }

  lemma QuietKeepsChunks(s: State, t: State, w: nat)
    requires ConservationInv(s) && Quiet(s, t, w)
    ensures ConservationInv(t)
  {
    HandsUpdate(s.workers, w, t.workers[w]);
    Cancel(Hands(t.workers), Hands(s.workers), Held(s.workers[w]));
  }

  lemma StepReleasesOrIsQuiet(cfg: Config, s: State, step: Step)
    requires Enabled(cfg, s, step) && IsWorkerStep(step) && !step.Receive?
    ensures if step.Fill? || step.Skip? || (step.Fetch? && step.err.Some?)
            then Holding(s.workers[step.w]) &&
                 Releases(s, WorkerStep(cfg, s, step), step.w, s.workers[step.w].stage.chunk)
            else Quiet(s, WorkerStep(cfg, s, step), step.w)
  {
    WorkerStepFrame(cfg, s, step);
  }

  lemma WorkerStepKeepsChunks(cfg: Config, s: State, step: Step)
    requires ConservationInv(s) && Enabled(cfg, s, step) && IsWorkerStep(step)
    ensures ConservationInv(WorkerStep(cfg, s, step))
  {
    var t := WorkerStep(cfg, s, step);
    if step.Receive? {
      ReceiveKeepsChunks(cfg, s, step.w);
    } else {
      StepReleasesOrIsQuiet(cfg, s, step);
      if step.Fill? || step.Skip? || (step.Fetch? && step.err.Some?) {
        ReleaseKeepsChunks(s, t, step.w, s.workers[step.w].stage.chunk);
      } else {
        QuietKeepsChunks(s, t, step.w);
      }
    }
  }

  lemma WorkerStepKeepsFailures(cfg: Config, s: State, step: Step)
    requires FailureInv(s) && Enabled(cfg, s, step) && IsWorkerStep(step)
    ensures FailureInv(WorkerStep(cfg, s, step))
  {
    var t := WorkerStep(cfg, s, step);
    var w := step.w;
    WorkerStepFrame(cfg, s, step);
    if t.failed != [] && t.error.NoError? && !t.workers[w].stage.Reporting? {
      var v :| 0 <= v < |s.workers| && s.workers[v].stage.Reporting?;
      assert t.workers[v].stage.Reporting?;
    }
  }

  // Two dirty chunks at one offset are one chunk, sent once.
  ghost predicate OnePerOffset(m: multiset<ChunkInfo>) {
    forall c, d :: c in m && d in m && c.dirty && d.dirty && c.offset == d.offset ==> c == d && m[c] == 1
  }

  lemma DistinctInitially(cs: seq<ChunkInfo>, k: nat)
    requires k <= |cs| && DistinctDirty(cs)
    ensures DistinctDirty(cs[..k])
  {
  }

  lemma {:induction false} DistinctIsOnePerOffset(cs: seq<ChunkInfo>)
    requires DistinctDirty(cs)
    ensures OnePerOffset(multiset(cs))
  {
    if cs != [] {
      var last := |cs| - 1;
      DistinctIsOnePerOffset(cs[..last]);
      assert cs == cs[..last] + [cs[last]];
      assert multiset(cs) == multiset(cs[..last]) + multiset{cs[last]};
      forall c | c in multiset(cs[..last]) && c.dirty && cs[last].dirty
        ensures c.offset != cs[last].offset
      {
        var i :| 0 <= i < last && cs[..last][i] == c;
      }
    }
  }

  // No completed or failed dirty chunk has the offset of a dirty chunk that a worker holds.
  lemma HeldOffsetIsFresh(s: State, w: nat)
    requires ConservationInv(s) && DistinctDirty(s.sent) && w < |s.workers|
    requires s.workers[w].stage.Fetching? || s.workers[w].stage.Filling?
    requires s.workers[w].stage.chunk.dirty
    ensures !Touches(s.completed, s.workers[w].stage.chunk.offset)
    ensures !Touches(s.failed, s.workers[w].stage.chunk.offset)
  {
    var c := s.workers[w].stage.chunk;
    HandsHas(s.workers, w);
    DistinctIsOnePerOffset(s.sent);
    assert c in Held(s.workers[w]);
    assert multiset(s.sent)[c] == 1;
    assert multiset(s.completed)[c] == 0 && multiset(s.failed)[c] == 0;
    forall d | (d in multiset(s.completed) || d in multiset(s.failed)) && d.dirty
      ensures d.offset != c.offset
    {
      assert d in multiset(s.sent) && c in multiset(s.sent);
    }
    assert forall i :: 0 <= i < |s.completed| ==> s.completed[i] in multiset(s.completed);
    assert forall i :: 0 <= i < |s.failed| ==> s.failed[i] in multiset(s.failed);
  }

  lemma WorkerStepKeepsData(cfg: Config, s: State, step: Step)
    requires ConservationInv(s) && WorkersInv(cfg, s) && DataInv(cfg, s)
    requires Enabled(cfg, s, step) && IsWorkerStep(step)
    ensures DataInv(cfg, WorkerStep(cfg, s, step))
  {
    var t := WorkerStep(cfg, s, step);
    WorkerStepFrame(cfg, s, step);
    if DistinctDirty(s.sent) && (t.completed != s.completed || t.failed != s.failed) {
      var c := s.workers[step.w].stage.chunk;
      assert WorkerInv(cfg, s, s.workers[step.w]);
      if c.dirty {
        HeldOffsetIsFresh(s, step.w);
      }
      if t.completed != s.completed {
        CompletionKeepsData(cfg, s, t, c);
      } else {
        FailureKeepsData(cfg, s, t, c);
      }
    }
  }

  lemma TouchesMore(cs: seq<ChunkInfo>, c: ChunkInfo, off: nat)
    ensures Touches(cs + [c], off) <==> Touches(cs, off) || (c.dirty && c.offset == off)
  {
    if Touches(cs, off) {
      var i :| 0 <= i < |cs| && cs[i].dirty && cs[i].offset == off;
      assert (cs + [c])[i] == cs[i];
    }
    if c.dirty && c.offset == off {
      assert (cs + [c])[|cs|] == c;
    }
  }

  lemma CompletionKeepsData(cfg: Config, s: State, t: State, c: ChunkInfo)
    requires DataInv(cfg, s) && DistinctDirty(s.sent) && t.sent == s.sent
    requires t.completed == s.completed + [c] && t.failed == s.failed
    requires t.dst == if c.dirty then s.dst[c.offset := cfg.source(c.offset, c.hash)] else s.dst
    requires c.dirty ==> !Touches(s.completed, c.offset)
    ensures DataInv(cfg, t)
  {
    forall i | 0 <= i < |t.completed| && t.completed[i].dirty
      ensures Holds(cfg, t.dst, t.completed[i])
    {
      if i < |s.completed| {
        assert t.completed[i] == s.completed[i];
        assert Holds(cfg, s.dst, s.completed[i]);
      }
    }
    forall off: nat | !Touches(t.completed, off) && !Touches(t.failed, off)
      ensures SameAt(t.dst, cfg.initial, off)
    {
      TouchesMore(s.completed, c, off);
      assert SameAt(s.dst, cfg.initial, off);
    }
  }

  lemma FailureKeepsData(cfg: Config, s: State, t: State, c: ChunkInfo)
    requires DataInv(cfg, s) && DistinctDirty(s.sent) && t.sent == s.sent
    requires t.completed == s.completed && t.failed == s.failed + [c]
    requires forall off: nat :: (c.dirty && off == c.offset) || SameAt(t.dst, s.dst, off)
    requires c.dirty ==> !Touches(s.completed, c.offset)
    ensures DataInv(cfg, t)
  {
    forall i | 0 <= i < |t.completed| && t.completed[i].dirty
      ensures Holds(cfg, t.dst, t.completed[i])
    {
      assert Holds(cfg, s.dst, s.completed[i]);
      assert SameAt(t.dst, s.dst, s.completed[i].offset);
    }
    forall off: nat | !Touches(t.completed, off) && !Touches(t.failed, off)
      ensures SameAt(t.dst, cfg.initial, off)
    {
      TouchesMore(s.failed, c, off);
      assert SameAt(s.dst, cfg.initial, off);
      assert SameAt(t.dst, s.dst, off);
    }
  }

  lemma WorkerStepKeepsInv(cfg: Config, s: State, step: Step)
    requires Inv(cfg, s) && Enabled(cfg, s, step) && IsWorkerStep(step)
    ensures Inv(cfg, WorkerStep(cfg, s, step))
  {
    WorkerStepFrame(cfg, s, step);
    FrameKeepsMain(cfg, s, WorkerStep(cfg, s, step), step.w);
    WorkerStepKeepsErrors(cfg, s, step);
    WorkerStepKeepsWorkers(cfg, s, step);
    WorkerStepKeepsChunks(cfg, s, step);
    WorkerStepKeepsFailures(cfg, s, step);
    WorkerStepKeepsData(cfg, s, step);
  }

  // ---------- the main thread's steps and the watchdog ----------

  lemma MainStepKeepsErrors(cfg: Config, s: State, step: Step)
    requires ErrorInv(s) && MainInv(cfg, s) && Enabled(cfg, s, step) && !IsWorkerStep(step)
    ensures ErrorInv(MainStep(cfg, s, step))
  {
    var t := MainStep(cfg, s, step);
    assert s.main != Finished(true) || step.Watchdog?;
    forall i | 0 <= i < |t.sets|
      ensures Justified(t, t.sets[i].setter)
    {
      if i < |s.sets| {
        assert t.sets[i] == s.sets[i];
        assert Justified(s, s.sets[i].setter);
      }
    }
  }

  lemma MainStepKeepsWorkers(cfg: Config, s: State, step: Step)
    requires WorkersInv(cfg, s) && MainInv(cfg, s) && Enabled(cfg, s, step) && !IsWorkerStep(step)
    ensures WorkersInv(cfg, MainStep(cfg, s, step))
  {
    var t := MainStep(cfg, s, step);
    forall w | 0 <= w < |t.workers|
      ensures WorkerInv(cfg, t, t.workers[w])
    {
      if w < |s.workers| {
        assert t.workers[w] == s.workers[w];
        assert WorkerInv(cfg, s, s.workers[w]);
      }
    }
    if step.Spawn? {
      assert t.workers[..|s.workers|] == s.workers;
    }
  }

  lemma SendKeepsChunks(cfg: Config, s: State, c: ChunkInfo)
    requires ConservationInv(s) && Enabled(cfg, s, Send(c))
    ensures ConservationInv(MainStep(cfg, s, Send(c)))
  {
  }

  lemma SpawnKeepsChunks(cfg: Config, s: State, scratch: Bytes)
    requires ConservationInv(s) && Enabled(cfg, s, Spawn(scratch))
    ensures ConservationInv(MainStep(cfg, s, Spawn(scratch)))
  {
    var ws := MainStep(cfg, s, Spawn(scratch)).workers;
    assert ws[..|ws| - 1] == s.workers && Held(ws[|ws| - 1]) == multiset{};
    assert Hands(ws) == Hands(s.workers);
  }

  lemma MainStepKeepsChunks(cfg: Config, s: State, step: Step)
    requires ConservationInv(s) && Enabled(cfg, s, step) && !IsWorkerStep(step)
    ensures ConservationInv(MainStep(cfg, s, step))
  {
    if step.Send? {
      SendKeepsChunks(cfg, s, step.chunk);
    } else if step.Spawn? {
      SpawnKeepsChunks(cfg, s, step.scratch);
    }
  }

  lemma MainStepKeepsFailures(cfg: Config, s: State, step: Step)
    requires FailureInv(s) && Enabled(cfg, s, step) && !IsWorkerStep(step)
    ensures FailureInv(MainStep(cfg, s, step))
  {
    var t := MainStep(cfg, s, step);
    if t.failed != [] && t.error.NoError? {
      var v :| 0 <= v < |s.workers| && s.workers[v].stage.Reporting?;
      assert t.workers[v].stage.Reporting?;
    }
  }

  predicate IsEarlyStep(step: Step) {
    step.SetupSource? || step.SetupDestination? || step.Spawn? || step.SpawningOver? || step.Send? ||
    step.CloseChannel? || step.DifferReturns? || step.RecordDiffer?
  }

  lemma EarlyStepKeepsMain(cfg: Config, s: State, step: Step)
    requires MainInv(cfg, s) && Enabled(cfg, s, step) && IsEarlyStep(step)
    ensures MainInv(cfg, MainStep(cfg, s, step))
  {
  }

  lemma WaitKeepsMain(cfg: Config, s: State)
    requires WorkersInv(cfg, s) && FailureInv(s) && MainInv(cfg, s) && Enabled(cfg, s, WaitOver)
    ensures MainInv(cfg, MainStep(cfg, s, WaitOver))
  {
    NoneLive(s.workers);
  }

  lemma CommitStepKeepsMain(cfg: Config, s: State, step: Step)
    requires WorkersInv(cfg, s) && MainInv(cfg, s)
    requires Enabled(cfg, s, step) && !IsWorkerStep(step) && !IsEarlyStep(step) && !step.WaitOver?
    ensures MainInv(cfg, MainStep(cfg, s, step))
  {
    if step.DecideSource? || step.DecideDestination? {
      assert WorkerInv(cfg, s, s.workers[0]);
    }
  }

  lemma MainStepKeepsMain(cfg: Config, s: State, step: Step)
    requires WorkersInv(cfg, s) && FailureInv(s) && MainInv(cfg, s)
    requires Enabled(cfg, s, step) && !IsWorkerStep(step)
    ensures MainInv(cfg, MainStep(cfg, s, step))
  {
    if IsEarlyStep(step) {
      EarlyStepKeepsMain(cfg, s, step);
    } else if step.WaitOver? {
      WaitKeepsMain(cfg, s);
    } else {
      CommitStepKeepsMain(cfg, s, step);
    }
  }

  lemma MainStepKeepsData(cfg: Config, s: State, step: Step)
    requires DataInv(cfg, s) && Enabled(cfg, s, step) && !IsWorkerStep(step)
    ensures DataInv(cfg, MainStep(cfg, s, step))
  {
    var t := MainStep(cfg, s, step);
    if DistinctDirty(t.sent) {
      DistinctInitially(t.sent, |s.sent|);
      assert t.sent[..|s.sent|] == s.sent;
    }
  }

  lemma StepKeepsInv(cfg: Config, s: State, step: Step)
    requires Inv(cfg, s) && Enabled(cfg, s, step)
    ensures Inv(cfg, Apply(cfg, s, step))
  {
    if IsWorkerStep(step) {
      WorkerStepKeepsInv(cfg, s, step);
    } else {
      MainStepKeepsErrors(cfg, s, step);
      MainStepKeepsWorkers(cfg, s, step);
      MainStepKeepsChunks(cfg, s, step);
      MainStepKeepsFailures(cfg, s, step);
      MainStepKeepsMain(cfg, s, step);
      MainStepKeepsData(cfg, s, step);
    }
  }

  lemma {:induction false} RunKeepsInv(cfg: Config, states: seq<State>, steps: seq<Step>, k: nat)
    requires IsRun(cfg, states, steps) && k <= |steps|
    ensures Inv(cfg, states[k])
    decreases k
  {
    if k == 0 {
      InvInit(cfg);
    } else {
      RunKeepsInv(cfg, states, steps, k - 1);
      StepKeepsInv(cfg, states[k - 1], steps[k - 1]);
    }
  }

  lemma ReachedInv(cfg: Config, s: State)
    requires Reachable(cfg, s)
    ensures Inv(cfg, s)
  {
    var states, steps :| IsRun(cfg, states, steps) && s == states[|steps|];
    RunKeepsInv(cfg, states, steps, |steps|);
  }
}
