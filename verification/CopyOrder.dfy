/** When the order in which the workers handle the chunks cannot show in the destination: with one worker,
    or when dirty chunks at one offset have the same source bytes. */
module CopyOrder {
  import opened CopyEngine
  import opened CopyProofs

  // ---------- what every step keeps ----------

  // While nothing failed, completed dirty chunks are in place and no other offset has changed.
  ghost predicate InPlace(cfg: Config, s: State) {
    s.failed == [] && SameBytes(cfg.source, s.sent) ==>
      && (forall i :: 0 <= i < |s.completed| && s.completed[i].dirty ==> Holds(cfg, s.dst, s.completed[i]))
      && (forall off: nat :: !Touches(s.completed, off) ==> SameAt(s.dst, cfg.initial, off))
  }

  function InHand(ws: seq<Worker>): seq<ChunkInfo> {
    if |ws| == 1 && Holding(ws[0]) then [ws[0].stage.chunk] else []
  }

  // While nothing failed, one worker alone has handled the chunks in the order they were sent in.
  ghost predicate InOrder(cfg: Config, s: State) {
    Threads(cfg) == 1 && s.failed == [] ==>
      && s.sent == s.completed + InHand(s.workers) + s.queue
      && s.dst == ApplyAll(cfg.source, cfg.initial, s.completed)
  }

  lemma InPlaceInit(cfg: Config)
    ensures InPlace(cfg, Init(cfg)) && InOrder(cfg, Init(cfg))
  {
  }

  lemma HeldWasSent(s: State, w: nat)
    requires ConservationInv(s) && w < |s.workers| && Holding(s.workers[w])
    ensures s.workers[w].stage.chunk in s.sent
  {
    HandsHas(s.workers, w);
    assert s.workers[w].stage.chunk in Held(s.workers[w]);
    assert s.workers[w].stage.chunk in multiset(s.sent);
  }

  lemma CompletedWereSent(s: State, i: nat)
    requires ConservationInv(s) && i < |s.completed|
    ensures s.completed[i] in s.sent
  {
    assert s.completed[i] in multiset(s.completed);
    assert s.completed[i] in multiset(s.sent);
  }

  lemma SameBytesOfMembers(cfg: Config, cs: seq<ChunkInfo>, c: ChunkInfo, d: ChunkInfo)
    requires SameBytes(cfg.source, cs) && c in cs && d in cs && c.dirty && d.dirty && c.offset == d.offset
    ensures cfg.source(c.offset, c.hash) == cfg.source(d.offset, d.hash)
  {
    var i :| 0 <= i < |cs| && cs[i] == c;
    var j :| 0 <= j < |cs| && cs[j] == d;
  }

  lemma CompletionKeepsInPlace(cfg: Config, s: State, t: State, c: ChunkInfo)
    requires InPlace(cfg, s) && ConservationInv(s) && c in s.sent
    requires t.sent == s.sent && t.completed == s.completed + [c] && t.failed == s.failed
    requires t.dst == ApplyChunk(cfg.source, s.dst, c)
    ensures InPlace(cfg, t)
  {
    if t.failed == [] && SameBytes(cfg.source, t.sent) {
      forall i | 0 <= i < |t.completed| && t.completed[i].dirty
        ensures Holds(cfg, t.dst, t.completed[i])
      {
        if i < |s.completed| {
          assert Holds(cfg, s.dst, s.completed[i]);
          if c.dirty && s.completed[i].offset == c.offset {
            CompletedWereSent(s, i);
            SameBytesOfMembers(cfg, s.sent, c, s.completed[i]);
          }
        }
      }
      forall off: nat | !Touches(t.completed, off)
        ensures SameAt(t.dst, cfg.initial, off)
      {
        TouchesMore(s.completed, c, off);
        assert SameAt(s.dst, cfg.initial, off);
      }
    }
  }

  lemma {:induction false} AppliedOneMore(cfg: Config, cs: seq<ChunkInfo>, c: ChunkInfo)
    ensures ApplyAll(cfg.source, cfg.initial, cs + [c]) ==
            ApplyChunk(cfg.source, ApplyAll(cfg.source, cfg.initial, cs), c)
  {
    assert (cs + [c])[..|cs|] == cs;
  }

  // What a worker's step does to the history and the destination, as long as nothing has failed.
  lemma WorkerStepApplies(cfg: Config, s: State, step: Step)
    requires WorkersInv(cfg, s) && Enabled(cfg, s, step) && IsWorkerStep(step)
    ensures var t := WorkerStep(cfg, s, step);
            && t.sent == s.sent && (t.failed == [] ==> s.failed == [])
            && (t.failed == [] ==>
                  || (t.completed == s.completed && t.dst == s.dst)
                  || (Holding(s.workers[step.w]) && !Holding(t.workers[step.w]) && t.failed == s.failed &&
                      t.queue == s.queue &&
                      t.completed == s.completed + [s.workers[step.w].stage.chunk] &&
                      t.dst == ApplyChunk(cfg.source, s.dst, s.workers[step.w].stage.chunk)))
  {
    assert WorkerInv(cfg, s, s.workers[step.w]);
  }

  lemma WorkerStepKeepsInPlace(cfg: Config, s: State, step: Step)
    requires ConservationInv(s) && WorkersInv(cfg, s) && InPlace(cfg, s)
    requires Enabled(cfg, s, step) && IsWorkerStep(step)
    ensures InPlace(cfg, WorkerStep(cfg, s, step))
  {
    var t := WorkerStep(cfg, s, step);
    WorkerStepApplies(cfg, s, step);
    if t.failed == [] && t.completed != s.completed {
      HeldWasSent(s, step.w);
      CompletionKeepsInPlace(cfg, s, t, s.workers[step.w].stage.chunk);
    }
  }

  lemma WorkerStepMovesChunk(cfg: Config, s: State, step: Step)
    requires |s.workers| == 1 && Enabled(cfg, s, step) && IsWorkerStep(step)
    ensures var t := WorkerStep(cfg, s, step);
            |t.workers| == 1 &&
            (t.failed == [] && t.completed == s.completed ==>
              InHand(t.workers) + t.queue == InHand(s.workers) + s.queue)
  {
  }

  lemma QuietKeepsOrder(cfg: Config, s: State, t: State)
    requires InOrder(cfg, s) && (t.failed == [] ==> s.failed == [])
    requires t.sent == s.sent && t.completed == s.completed && t.dst == s.dst
    requires InHand(t.workers) + t.queue == InHand(s.workers) + s.queue
    ensures InOrder(cfg, t)
  {
    assert s.completed + InHand(s.workers) + s.queue == s.completed + (InHand(s.workers) + s.queue);
    assert t.completed + InHand(t.workers) + t.queue == t.completed + (InHand(t.workers) + t.queue);
  }

  lemma CompletionKeepsOrder(cfg: Config, s: State, t: State, c: ChunkInfo)
    requires InOrder(cfg, s) && t.failed == s.failed && t.sent == s.sent && t.queue == s.queue
    requires t.completed == s.completed + [c] && t.dst == ApplyChunk(cfg.source, s.dst, c)
    requires InHand(s.workers) == [c] && InHand(t.workers) == []
    ensures InOrder(cfg, t)
  {
    AppliedOneMore(cfg, s.completed, c);
    assert t.completed + [] + t.queue == s.completed + [c] + s.queue;
  }

  lemma WorkerStepKeepsOrder(cfg: Config, s: State, step: Step)
    requires WorkersInv(cfg, s) && InOrder(cfg, s) && |s.workers| <= Threads(cfg)
    requires Enabled(cfg, s, step) && IsWorkerStep(step)
    ensures InOrder(cfg, WorkerStep(cfg, s, step))
  {
    var t := WorkerStep(cfg, s, step);
    if Threads(cfg) == 1 && t.failed == [] {
      WorkerStepApplies(cfg, s, step);
      WorkerStepMovesChunk(cfg, s, step);
      if t.completed == s.completed {
        QuietKeepsOrder(cfg, s, t);
      } else {
        CompletionKeepsOrder(cfg, s, t, s.workers[0].stage.chunk);
      }
    }
  }

  lemma MainStepKeepsInPlace(cfg: Config, s: State, step: Step)
    requires InPlace(cfg, s) && Enabled(cfg, s, step) && !IsWorkerStep(step)
    ensures InPlace(cfg, MainStep(cfg, s, step))
  {
    var t := MainStep(cfg, s, step);
    assert t.sent[..|s.sent|] == s.sent;
    assert forall i :: 0 <= i < |s.sent| ==> t.sent[i] == s.sent[i];
  }

  lemma MainStepKeepsOrder(cfg: Config, s: State, step: Step)
    requires InOrder(cfg, s) && MainInv(cfg, s) && Enabled(cfg, s, step) && !IsWorkerStep(step)
    ensures InOrder(cfg, MainStep(cfg, s, step))
  {
  }

  lemma {:induction false} RunKeepsOrder(cfg: Config, states: seq<State>, steps: seq<Step>, k: nat)
    requires IsRun(cfg, states, steps) && k <= |steps|
    ensures InPlace(cfg, states[k]) && InOrder(cfg, states[k])
    decreases k
  {
    if k == 0 {
      InPlaceInit(cfg);
    } else {
      RunKeepsOrder(cfg, states, steps, k - 1);
      RunKeepsInv(cfg, states, steps, k - 1);
      StepKeepsOrder(cfg, states[k - 1], steps[k - 1]);
    }
  }

  lemma StepKeepsOrder(cfg: Config, s: State, step: Step)
    requires Inv(cfg, s) && InPlace(cfg, s) && InOrder(cfg, s) && Enabled(cfg, s, step)
    ensures InPlace(cfg, Apply(cfg, s, step)) && InOrder(cfg, Apply(cfg, s, step))
  {
    if IsWorkerStep(step) {
      WorkerStepKeepsInPlace(cfg, s, step);
      WorkerStepKeepsOrder(cfg, s, step);
    } else {
      MainStepKeepsInPlace(cfg, s, step);
      MainStepKeepsOrder(cfg, s, step);
    }
  }

  lemma ReachedOrder(cfg: Config, s: State)
    requires Reachable(cfg, s)
    ensures InPlace(cfg, s) && InOrder(cfg, s)
  {
    var states, steps :| IsRun(cfg, states, steps) && s == states[|steps|];
    RunKeepsOrder(cfg, states, steps, |steps|);
  }

  // ---------- the destination ----------

  lemma DistinctIsOrderFree(cfg: Config, cs: seq<ChunkInfo>)
    requires DistinctDirty(cs)
    ensures SameBytes(cfg.source, cs) && OrderFree(cfg, cs)
  {
  }

  // One thread applying the list leaves at each offset the bytes of the dirty chunks there, and leaves all
  // other offsets alone.
  lemma {:induction false} ApplyAllMeaning(cfg: Config, cs: seq<ChunkInfo>)
    requires SameBytes(cfg.source, cs)
    ensures forall i :: 0 <= i < |cs| && cs[i].dirty ==> Holds(cfg, ApplyAll(cfg.source, cfg.initial, cs), cs[i])
    ensures forall off: nat :: !Touches(cs, off) ==> SameAt(ApplyAll(cfg.source, cfg.initial, cs), cfg.initial, off)
  {
    if cs != [] {
      var last := |cs| - 1;
      var rest := cs[..last];
      ApplyAllMeaning(cfg, rest);
      assert cs == rest + [cs[last]];
      forall i | 0 <= i < |cs| && cs[i].dirty
        ensures Holds(cfg, ApplyAll(cfg.source, cfg.initial, cs), cs[i])
      {
        if i < last {
          assert rest[i] == cs[i];
          assert Holds(cfg, ApplyAll(cfg.source, cfg.initial, rest), rest[i]);
        }
      }
      forall off: nat | !Touches(cs, off)
        ensures SameAt(ApplyAll(cfg.source, cfg.initial, cs), cfg.initial, off)
      {
        TouchesMore(rest, cs[last], off);
      }
    }
  }

  lemma SameEverywhere(a: map<nat, Bytes>, b: map<nat, Bytes>)
    requires forall off: nat :: SameAt(a, b, off)
    ensures a == b
  {
    assert forall off :: off in a ==> SameAt(a, b, off);
    assert forall off :: off in b ==> SameAt(a, b, off);
  }

  lemma TouchesByContents(a: seq<ChunkInfo>, b: seq<ChunkInfo>, off: nat)
    requires multiset(a) == multiset(b) && Touches(a, off)
    ensures Touches(b, off)
  {
    var i :| 0 <= i < |a| && a[i].dirty && a[i].offset == off;
    assert a[i] in multiset(b);
  }

  lemma {:induction false} AllGoneHoldNothing(ws: seq<Worker>)
    requires forall w :: 0 <= w < |ws| ==> ws[w].stage.Exited?
    ensures Hands(ws) == multiset{} && Live(ws) == 0
  {
    if ws != [] {
      assert forall w :: 0 <= w < |ws| - 1 ==> ws[..|ws| - 1][w] == ws[w];
      AllGoneHoldNothing(ws[..|ws| - 1]);
    }
  }

  lemma AnyOrderIsSequential(cfg: Config, s: State)
    requires InPlace(cfg, s) && s.failed == [] && SameBytes(cfg.source, s.sent)
    requires multiset(s.completed) == multiset(s.sent)
    ensures s.dst == ApplyAll(cfg.source, cfg.initial, s.sent)
  {
    ApplyAllMeaning(cfg, s.sent);
    var all := ApplyAll(cfg.source, cfg.initial, s.sent);
    forall off: nat
      ensures SameAt(s.dst, all, off)
    {
      if Touches(s.sent, off) {
        TouchesByContents(s.sent, s.completed, off);
        var i :| 0 <= i < |s.completed| && s.completed[i].dirty && s.completed[i].offset == off;
        assert s.completed[i] in multiset(s.sent);
        var j :| 0 <= j < |s.sent| && s.sent[j] == s.completed[i];
        assert Holds(cfg, s.dst, s.completed[i]) && Holds(cfg, all, s.sent[j]);
      } else {
        if Touches(s.completed, off) {
          TouchesByContents(s.completed, s.sent, off);
        }
        assert SameAt(s.dst, cfg.initial, off) && SameAt(all, cfg.initial, off);
      }
    }
    SameEverywhere(s.dst, all);
  }

  // When everything sent was completed, the order the workers did it in does not show, whenever one worker
  // is alone or dirty chunks at one offset agree.
  lemma CompletedIsSequential(cfg: Config, s: State)
    requires Inv(cfg, s) && InPlace(cfg, s) && InOrder(cfg, s)
    requires AllGone(s) && s.failed == [] && s.queue == []
    ensures multiset(s.completed) == multiset(s.sent)
    ensures OrderFree(cfg, s.sent) ==> s.dst == ApplyAll(cfg.source, cfg.initial, s.sent)
  {
    AllGoneHoldNothing(s.workers);
    if Threads(cfg) == 1 {
      assert InHand(s.workers) == [];
      assert s.sent == s.completed + [] + [] == s.completed;
    } else if SameBytes(cfg.source, s.sent) {
      AnyOrderIsSequential(cfg, s);
    }
  }
}
