/** When a clean copy is the sequential one: exactly when one worker is alone, or dirty chunks at one offset
    have the same source bytes. Otherwise a worker that is slow to write shows. */
module CopyOverlap {
  import opened Wrappers
  import opened CopyEngine
  import opened CopyProofs
  import opened CopyOrder
  import opened CopyTheorems

  // ---------- a schedule in which worker 0 holds one chunk back ----------

  // The first k chunks have been sent and dealt with, but for the one that worker 0 is about to write.
  ghost predicate Feeding(cfg: Config, s: State, cs: seq<ChunkInfo>, k: nat, held: Option<ChunkInfo>) {
    && s.main.Producing? && s.queue == [] && k <= |cs| && s.sent == cs[..k]
    && s.error.NoError? && s.differErr.None? && s.calls == [] && |s.workers| == Threads(cfg)
    && (forall w :: 1 <= w < |s.workers| ==> s.workers[w].stage.Receiving?)
    && s.workers[0].stage == (if held.Some? then Filling(held.value) else Receiving)
  }

  ghost predicate SpawnedSoFar(cfg: Config, s: State) {
    && s.main.Spawning? && s.queue == [] && s.sent == [] && s.error.NoError? && s.differErr.None? && s.calls == []
    && |s.workers| <= Threads(cfg) && forall w :: 0 <= w < |s.workers| ==> s.workers[w].stage.Receiving?
  }

  lemma {:induction false} SpawnAll(cfg: Config, s: State, cs: seq<ChunkInfo>) returns (t: State)
    requires Reachable(cfg, s) && SpawnedSoFar(cfg, s)
    ensures Reachable(cfg, t) && Feeding(cfg, t, cs, 0, None)
    decreases Threads(cfg) - |s.workers|
  {
    if |s.workers| < Threads(cfg) {
      t := Go(cfg, s, Spawn([]));
      t := SpawnAll(cfg, t, cs);
    } else {
      t := Go(cfg, s, SpawningOver);
    }
  }

  lemma SetUp(cfg: Config, cs: seq<ChunkInfo>) returns (t: State)
    ensures Reachable(cfg, t) && Feeding(cfg, t, cs, 0, None)
  {
    InitReachable(cfg);
    t := Go(cfg, Init(cfg), SetupSource(None));
    t := Go(cfg, t, SetupDestination(None));
    t := SpawnAll(cfg, t, cs);
  }

  // Worker w takes the next chunk off the channel as soon as it is sent.
  lemma Hand(cfg: Config, s: State, cs: seq<ChunkInfo>, k: nat, held: Option<ChunkInfo>, w: nat) returns (t: State)
    requires Reachable(cfg, s) && Feeding(cfg, s, cs, k, held) && k < |cs| && w < |s.workers|
    requires s.workers[w].stage.Receiving?
    ensures Reachable(cfg, t)
    ensures t.main == s.main && t.queue == [] && t.sent == cs[..k + 1] && t.error == s.error &&
            t.differErr == s.differErr
    ensures t.calls == s.calls
    ensures t.workers ==
            s.workers[w := Worker(if cs[k].dirty then Fetching(cs[k]) else Skipping(cs[k]), s.workers[w].buf)]
  {
    t := Go(cfg, s, Send(cs[k]));
    t := Go(cfg, t, Receive(w));
    assert cs[..k + 1] == cs[..k] + [cs[k]];
  }

  lemma FeedDirty(cfg: Config, s: State, cs: seq<ChunkInfo>, k: nat, held: Option<ChunkInfo>) returns (t: State)
    requires Reachable(cfg, s) && Feeding(cfg, s, cs, k, held) && k < |cs| && cs[k].dirty && Threads(cfg) > 1
    ensures Reachable(cfg, t) && Feeding(cfg, t, cs, k + 1, held)
  {
    t := Hand(cfg, s, cs, k, held, 1);
    t := Go(cfg, t, Fetch(1, None, []));
    t := Go(cfg, t, Fill(1, None, []));
  }

  lemma FeedOne(cfg: Config, s: State, cs: seq<ChunkInfo>, k: nat, held: Option<ChunkInfo>) returns (t: State)
    requires Reachable(cfg, s) && Feeding(cfg, s, cs, k, held) && k < |cs| && Threads(cfg) > 1
    ensures Reachable(cfg, t) && Feeding(cfg, t, cs, k + 1, held)
  {
    if cs[k].dirty {
      t := FeedDirty(cfg, s, cs, k, held);
    } else {
      t := Hand(cfg, s, cs, k, held, 1);
      t := Go(cfg, t, Skip(1, None));
    }
  }

  lemma {:induction false} FeedAll(cfg: Config, s: State, cs: seq<ChunkInfo>, k: nat, n: nat, held: Option<ChunkInfo>)
    returns (t: State)
    requires Reachable(cfg, s) && Feeding(cfg, s, cs, k, held) && k <= n <= |cs| && Threads(cfg) > 1
    ensures Reachable(cfg, t) && Feeding(cfg, t, cs, n, held)
    decreases n - k
  {
    t := s;
    if k < n {
      t := FeedOne(cfg, s, cs, k, held);
      t := FeedAll(cfg, t, cs, k + 1, n, held);
    }
  }

  lemma HoldBack(cfg: Config, s: State, cs: seq<ChunkInfo>, k: nat) returns (t: State)
    requires Reachable(cfg, s) && Feeding(cfg, s, cs, k, None) && k < |cs| && cs[k].dirty
    ensures Reachable(cfg, t) && Feeding(cfg, t, cs, k + 1, Some(cs[k]))
  {
    t := Hand(cfg, s, cs, k, None, 0);
    t := Go(cfg, t, Fetch(0, None, []));
  }

  lemma WriteLate(cfg: Config, s: State, cs: seq<ChunkInfo>, c: ChunkInfo) returns (t: State)
    requires Reachable(cfg, s) && Feeding(cfg, s, cs, |cs|, Some(c))
    ensures Reachable(cfg, t) && Feeding(cfg, t, cs, |cs|, None) && Holds(cfg, t.dst, c)
  {
    ReachedInv(cfg, s);
    assert WorkerInv(cfg, s, s.workers[0]);
    t := Go(cfg, s, Fill(0, None, []));
  }

  // A failed write may leave anything at its offset, and nothing repairs it.
  lemma FailedWriteMayLeaveAnything(cfg: Config, c: ChunkInfo, left: Bytes)
    requires c.dirty
    ensures exists s :: Reachable(cfg, s) && c in s.failed && c.offset in s.dst && s.dst[c.offset] == left
  {
    var s := SetUp(cfg, [c]);
    s := HoldBack(cfg, s, [c], 0);
    s := Go(cfg, s, Fill(0, Some("write error"), left));
  }

  // ---------- and the end of the copy ----------

  // The first n workers have gone.
  ghost predicate Draining(s: State, cs: seq<ChunkInfo>, dst: map<nat, Bytes>, n: nat) {
    && s.main.Waiting? && s.closed && s.queue == [] && s.sent == cs && s.dst == dst
    && s.error.NoError? && s.differErr.None? && s.calls == [] && n <= |s.workers|
    && forall w :: 0 <= w < |s.workers| ==> if w < n then s.workers[w].stage.Exited? else s.workers[w].stage.Receiving?
  }

  lemma Close(cfg: Config, s: State, cs: seq<ChunkInfo>) returns (t: State)
    requires Reachable(cfg, s) && Feeding(cfg, s, cs, |cs|, None)
    ensures Reachable(cfg, t) && Draining(t, cs, s.dst, 0)
  {
    t := Go(cfg, s, CloseChannel);
    t := Go(cfg, t, DifferReturns(None));
    t := Go(cfg, t, RecordDiffer);
    assert cs[..|cs|] == cs;
  }

  lemma {:induction false} DrainAll(cfg: Config, s: State, cs: seq<ChunkInfo>, dst: map<nat, Bytes>, n: nat)
    returns (t: State)
    requires Reachable(cfg, s) && Draining(s, cs, dst, n)
    ensures Reachable(cfg, t) && Draining(t, cs, dst, |t.workers|)
    decreases |s.workers| - n
  {
    t := s;
    if n < |s.workers| {
      t := Go(cfg, s, ChannelDrained(n));
      t := Go(cfg, t, Exit(n));
      t := DrainAll(cfg, t, cs, dst, n + 1);
    }
  }

  // Nothing is wrong, with the main thread there.
  ghost predicate Clean(s: State, main: Main, cs: seq<ChunkInfo>, dst: map<nat, Bytes>) {
    s.main == main && s.error.NoError? && s.differErr.None? && s.sent == cs && s.dst == dst
  }

  lemma TellSource(cfg: Config, s: State, cs: seq<ChunkInfo>, dst: map<nat, Bytes>) returns (t: State)
    requires Reachable(cfg, s) && Clean(s, DecidingSource, cs, dst)
    ensures Reachable(cfg, t) && Clean(t, DecidingDestination, cs, dst)
  {
    t := Go(cfg, s, DecideSource);
    t := Go(cfg, t, SourceDoneReturns(None));
    t := Go(cfg, t, RecordSource);
  }

  lemma TellDestination(cfg: Config, s: State, cs: seq<ChunkInfo>, dst: map<nat, Bytes>) returns (t: State)
    requires Reachable(cfg, s) && Clean(s, DecidingDestination, cs, dst)
    ensures Reachable(cfg, t) && Clean(t, Finished(false), cs, dst)
  {
    t := Go(cfg, s, DecideDestination);
    t := Go(cfg, t, DestinationDoneReturns(None));
    t := Go(cfg, t, RecordDestination);
  }

  lemma Finish(cfg: Config, s: State, cs: seq<ChunkInfo>) returns (t: State)
    requires Reachable(cfg, s) && Feeding(cfg, s, cs, |cs|, None)
    ensures Reachable(cfg, t) && Clean(t, Finished(false), cs, s.dst)
  {
    t := Close(cfg, s, cs);
    t := DrainAll(cfg, t, cs, s.dst, 0);
    ReachedInv(cfg, t);
    AllGoneHoldNothing(t.workers);
    t := Go(cfg, t, WaitOver);
    t := TellSource(cfg, t, cs, s.dst);
    t := TellDestination(cfg, t, cs, s.dst);
  }

  // With more than one worker, any dirty chunk may be the last to be written at its offset.
  lemma AnyChunkMayBeLast(cfg: Config, cs: seq<ChunkInfo>, i: nat) returns (t: State)
    requires Threads(cfg) > 1 && i < |cs| && cs[i].dirty
    ensures Reachable(cfg, t) && t.main == Finished(false) && t.error.NoError? && t.sent == cs
    ensures Holds(cfg, t.dst, cs[i])
  {
    t := SetUp(cfg, cs);
    t := FeedAll(cfg, t, cs, 0, i, None);
    t := HoldBack(cfg, t, cs, i);
    t := FeedAll(cfg, t, cs, i + 1, |cs|, Some(cs[i]));
    t := WriteLate(cfg, t, cs, cs[i]);
    t := Finish(cfg, t, cs);
  }

  // ---------- the exact condition ----------

  // The sequential result holds the bytes of the last dirty chunk of an offset.
  lemma {:induction false} LastWins(cfg: Config, cs: seq<ChunkInfo>, off: nat) returns (l: nat)
    requires Touches(cs, off)
    ensures l < |cs| && cs[l].dirty && cs[l].offset == off && Holds(cfg, ApplyAll(cfg.source, cfg.initial, cs), cs[l])
  {
    l := |cs| - 1;
    if !(cs[l].dirty && cs[l].offset == off) {
      var rest := cs[..l];
      assert cs == rest + [cs[l]];
      TouchesMore(rest, cs[l], off);
      l := LastWins(cfg, rest, off);
    }
  }

  lemma DifferentBytesShow(cfg: Config, cs: seq<ChunkInfo>) returns (t: State)
    requires !OrderFree(cfg, cs)
    ensures Reachable(cfg, t) && t.main == Finished(false) && t.error.NoError? && t.sent == cs
    ensures t.dst != ApplyAll(cfg.source, cfg.initial, cs)
  {
    var a, b :| 0 <= a < b < |cs| && cs[a].dirty && cs[b].dirty && cs[a].offset == cs[b].offset &&
                cfg.source(cs[a].offset, cs[a].hash) != cfg.source(cs[b].offset, cs[b].hash);
    var l := LastWins(cfg, cs, cs[a].offset);
    var bytes := cfg.source(cs[l].offset, cs[l].hash);
    var i := if cfg.source(cs[a].offset, cs[a].hash) != bytes then a else b;
    t := AnyChunkMayBeLast(cfg, cs, i);
  }

  // For every configuration and chunk list: every clean copy of the list is the sequential one if and only
  // if there is one worker, or dirty chunks at one offset have the same source bytes.
  lemma SequentialIffOrderFree(cfg: Config, cs: seq<ChunkInfo>)
    ensures (forall s :: Reachable(cfg, s) && s.main == Finished(false) && s.error.NoError? && s.sent == cs ==>
                           s.dst == ApplyAll(cfg.source, cfg.initial, cs))
            <==> OrderFree(cfg, cs)
  {
    if OrderFree(cfg, cs) {
      forall s | Reachable(cfg, s) && s.main == Finished(false) && s.error.NoError? && s.sent == cs
        ensures s.dst == ApplyAll(cfg.source, cfg.initial, cs)
      {
        CleanCopyIsSequential(cfg, s);
      }
    } else {
      var t := DifferentBytesShow(cfg, cs);
    }
  }

  // So two workers, and two dirty chunks at one offset with different bytes, may leave the older ones behind:
  // nothing fails, and both endpoints are told to commit.
  lemma OverlapIsNotSequential(cfg: Config, older: ChunkInfo, newer: ChunkInfo)
    requires Threads(cfg) > 1 && older.dirty && newer.dirty && older.offset == newer.offset
    requires cfg.source(older.offset, older.hash) != cfg.source(newer.offset, newer.hash)
    ensures exists s: State ::
              && Reachable(cfg, s) && s.sent == [older, newer] && s.main == Finished(false) && s.error.NoError?
              && s.calls == [SourceDone(true, None), DestinationDone(true, None)]
              && Holds(cfg, s.dst, older) && s.dst != ApplyAll(cfg.source, cfg.initial, s.sent)
  {
    var cs := [older, newer];
    var s := AnyChunkMayBeLast(cfg, cs, 0);
    CopyOutcome(cfg, s);
    assert cs[..1] == [older];
    assert Holds(cfg, ApplyAll(cfg.source, cfg.initial, cs), newer);
  }
}
