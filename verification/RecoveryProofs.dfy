/** What recovery keeps over every run of attempts, whatever fails and wherever it fails. */
module RecoveryProofs {
  import opened Wrappers
  import opened NuvoRecovery

  // ---------- runs ----------

  // Between attempts, and only while the service is ready, volumes come and go and so do cache entries.
  datatype Action =
    | Try(answers: Answers)
    | Work(inUse: seq<Volume>, luns: map<string, LUN>, storage: map<string, Storage>)

  predicate Allowed(s: Agent, act: Action) {
    act.Work? ==> s.service.Ready?
  }

  function Perform(s: Agent, act: Action): Agent {
    match act
    case Try(a) => Attempt(s, a).agent
    case Work(inUse, luns, storage) => s.(inUse := inUse, luns := luns, storage := storage)
  }

  // The Storage ids an attempt got from NoVolumesInUse for later, and those of volumes it released in a
  // call of NoVolumesInUse that then failed.
  function ReachesVolumes(s: Agent, a: Answers): bool {
    a.nodeKnown && (s.service != NotReady ==> a.updateStateOk) && s.initCount != 0
  }

  function Gained(s: Agent, a: Answers): set<string> {
    if ReachesVolumes(s, a) && Release(s.inUse, a.drain).ids.Some? then Release(s.inUse, a.drain).ids.value else {}
  }

  function Dropped(s: Agent, a: Answers): set<string> {
    if ReachesVolumes(s, a) && Release(s.inUse, a.drain).ids.None? then
      StorageOf(s.inUse[..|s.inUse| - |Release(s.inUse, a.drain).left|])
    else {}
  }

  // How many volumes that call released.
  function Freed(s: Agent, a: Answers): nat {
    var d := Release(s.inUse, a.drain);
    if ReachesVolumes(s, a) && d.ids.None? && |d.left| <= |s.inUse| then |s.inUse| - |d.left| else 0
  }

  // What an observer notes: the union of all lists returned since the last success, the ids dropped since
  // then, the volumes in use when the service was last ready, how many of them calls that failed have
  // released, and how the attempts went.
  datatype Notes = Notes(returned: set<string>, dropped: set<string>, mounted: seq<Volume>, freed: nat,
                         successes: nat, lastOk: bool)

  // All Storage used by the volumes in use when the service was last ready.
  function AtRestart(n: Notes): set<string> {
    StorageOf(n.mounted)
  }

  function Note(n: Notes, s: Agent, act: Action): Notes {
    match act
    case Try(a) =>
      var o := Attempt(s, a);
      if o.ok then Notes({}, {}, o.agent.inUse, 0, n.successes + 1, true)
      else n.(returned := n.returned + Gained(s, a), dropped := n.dropped + Dropped(s, a),
              freed := n.freed + Freed(s, a), lastOk := false)
    case Work(inUse, _, _) => n.(mounted := inUse, freed := 0)
  }

  datatype World = World(agent: Agent, notes: Notes)

  function Begin(inUse: seq<Volume>): World {
    World(Agent(Starting, None, 0, map[], map[], false, 0, inUse), Notes({}, {}, [], 0, 0, false))
  }

  function Go(w: World, act: Action): World {
    World(Perform(w.agent, act), Note(w.notes, w.agent, act))
  }

  ghost predicate IsRun(worlds: seq<World>, acts: seq<Action>) {
    && |worlds| == |acts| + 1
    && (exists inUse :: worlds[0] == Begin(inUse))
    && forall i {:trigger acts[i]} :: 0 <= i < |acts| ==>
         Allowed(worlds[i].agent, acts[i]) && worlds[i + 1] == Go(worlds[i], acts[i])
  }

  // ---------- what one attempt does ----------

  lemma FinishEffect(s: Agent, a: Answers, t: seq<Call>)
    ensures var o := Finish(s, a, t);
            && o.agent.inUse == s.inUse && o.agent.storage == s.storage
            && (if o.ok then o.agent.service.Ready? && o.agent.initCount == s.initCount + 1 && o.agent.recState.None?
                else o.agent.service == s.service && o.agent.initCount == s.initCount && o.agent.recState == s.recState)
  {
  }

  // An attempt leaves the service ready exactly when it succeeds, and a failed one keeps what was learnt.
  lemma AttemptEffect(s: Agent, a: Answers)
    ensures var o := Attempt(s, a);
            && (o.agent.service.Ready? <==> o.ok)
            && o.agent.initCount == s.initCount + (if o.ok then 1 else 0)
            && (if o.ok then o.agent.recState.None? else Collected(o.agent) == Collected(s) + Gained(s, a))
            && (s.initCount != 0 ==> StorageOf(s.inUse) == Gained(s, a) + Dropped(s, a) + StorageOf(o.agent.inUse))
            && (s.initCount != 0 && o.ok ==> o.agent.inUse == [] && ReachesVolumes(s, a))
  {
    var p := Prepare(s, a);
    PrepareEffect(s, a);
    if p.ok && a.nodeUuidOk && a.cacheOk {
      var t := p.trace + [UseNodeUUID(true), UseCacheDevices(true)];
      if s.initCount == 0 {
        if a.storageInUse.Some? && a.volumesInUse.Some? {
          FinishEffect(p.agent.(storage := WithStorages(map[], a.storageInUse.value),
                                luns := WithLUNs(map[], a.volumesInUse.value)),
                       a, t + [RecoverStorageInUse(true), RecoverVolumesInUse(true)]);
        }
      } else if ConfigureOk(a.configureOrder, a.configureFails) && a.locationsOk {
        FinishEffect(p.agent, a,
                     t + ConfigureCalls(a.configureOrder, a.configureFails)
                       + [RecoverStorageLocations(Collected(p.agent), true)]);
      }
    }
  }

  lemma StorageSplits(vs: seq<Volume>, k: nat)
    requires k <= |vs|
    ensures StorageOf(vs) == StorageOf(vs[..k]) + StorageOf(vs[k..])
  {
    forall v, id | v in vs && id in v.storage
      ensures id in StorageOf(vs[..k]) + StorageOf(vs[k..])
    {
      assert v in vs[..k] || v in vs[k..];
    }
  }

  // What is in use splits into what was returned, what was dropped and what is left.
  lemma ReleaseSplits(inUse: seq<Volume>, answer: DrainAnswer)
    ensures var d := Release(inUse, answer);
            && |d.left| <= |inUse|
            && (d.ids.Some? ==> d.left == [] && d.ids.value == StorageOf(inUse) && StorageOf(d.left) == {})
            && (d.ids.None? ==> StorageOf(inUse) == StorageOf(inUse[..|inUse| - |d.left|]) + StorageOf(d.left))
  {
    var d := Release(inUse, answer);
    var k := |inUse| - |d.left|;
    StorageSplits(inUse, k);
    assert d.ids.None? ==> d.left == inUse[k..];
    assert StorageOf([]) == {};
  }

  lemma PrepareKeeps(s: Agent, a: Answers)
    ensures var p := Prepare(s, a);
            && p.agent.service.NotReady? && p.agent.initCount == s.initCount && p.agent.pso == s.pso
            && p.agent.storage == s.storage
            && Collected(p.agent) == Collected(s) + Gained(s, a)
  {
  }

  lemma PrepareVolumes(s: Agent, a: Answers)
    requires s.initCount != 0
    ensures var p := Prepare(s, a);
            && StorageOf(s.inUse) == Gained(s, a) + Dropped(s, a) + StorageOf(p.agent.inUse)
            && (p.ok ==> p.agent.inUse == [] && ReachesVolumes(s, a))
  {
    ReleaseSplits(s.inUse, a.drain);
  }

  lemma PrepareEffect(s: Agent, a: Answers)
    ensures var p := Prepare(s, a);
            && p.agent.service.NotReady? && p.agent.initCount == s.initCount && p.agent.pso == s.pso
            && p.agent.storage == s.storage
            && Collected(p.agent) == Collected(s) + Gained(s, a)
            && (s.initCount != 0 ==> StorageOf(s.inUse) == Gained(s, a) + Dropped(s, a) + StorageOf(p.agent.inUse))
            && (s.initCount != 0 && p.ok ==> p.agent.inUse == [] && ReachesVolumes(s, a))
  {
    PrepareKeeps(s, a);
    if s.initCount != 0 {
      PrepareVolumes(s, a);
    }
  }

  // ---------- what every run keeps ----------

  ghost predicate RunInv(w: World) {
    && w.agent.initCount == w.notes.successes
    && (w.agent.service.Ready? <==> w.notes.lastOk)
    && (w.agent.service.Ready? ==>
          && w.agent.recState.None? && w.notes.returned == {} && w.notes.dropped == {} && w.notes.freed == 0
          && w.notes.successes > 0)
    && Collected(w.agent) == w.notes.returned
    && (w.notes.successes > 0 ==> VolumesInv(w))
  }

  // The volumes freed are the first ones. The others are still in use, until a call returns a list: that of
  // their Storage.
  ghost predicate VolumesInv(w: World) {
    && w.notes.freed <= |w.notes.mounted| && w.notes.dropped == StorageOf(w.notes.mounted[..w.notes.freed])
    && (InUseStill(w) || Listed(w))
  }

  ghost predicate InUseStill(w: World)
    requires w.notes.freed <= |w.notes.mounted|
  {
    w.agent.inUse == w.notes.mounted[w.notes.freed..] && w.notes.returned == {}
  }

  ghost predicate Listed(w: World)
    requires w.notes.freed <= |w.notes.mounted|
  {
    w.agent.inUse == [] && w.notes.returned == StorageOf(w.notes.mounted[w.notes.freed..])
  }

  // What one attempt does with the volumes.
  lemma AttemptVolumes(s: Agent, a: Answers)
    requires s.initCount != 0
    ensures var o := Attempt(s, a);
            && Freed(s, a) <= |s.inUse|
            && Dropped(s, a) == StorageOf(s.inUse[..Freed(s, a)])
            && (if ReachesVolumes(s, a) && Release(s.inUse, a.drain).ids.Some?
                then o.agent.inUse == [] && Gained(s, a) == StorageOf(s.inUse) && Freed(s, a) == 0
                else !o.ok && o.agent.inUse == s.inUse[Freed(s, a)..] && Gained(s, a) == {})
  {
    ReleaseSplits(s.inUse, a.drain);
    AttemptLeaves(s, a);
    assert s.inUse[..0] == [] && StorageOf([]) == {} && s.inUse[0..] == s.inUse;
  }

  // Nothing after the volume check touches the volumes.
  lemma AttemptLeaves(s: Agent, a: Answers)
    requires s.initCount != 0
    ensures Attempt(s, a).agent.inUse == Prepare(s, a).agent.inUse
    ensures Attempt(s, a).ok ==> Prepare(s, a).ok
    ensures Prepare(s, a).ok <==> ReachesVolumes(s, a) && Release(s.inUse, a.drain).ids.Some?
    ensures Prepare(s, a).agent.inUse == if ReachesVolumes(s, a) then Release(s.inUse, a.drain).left else s.inUse
  {
    var p := Prepare(s, a);
    if p.ok && a.nodeUuidOk && a.cacheOk {
      var t := p.trace + [UseNodeUUID(true), UseCacheDevices(true)];
      assert Attempt(s, a) == Restore(p.agent, a, t);
      if ConfigureOk(a.configureOrder, a.configureFails) && a.locationsOk {
        FinishEffect(p.agent, a, t + ConfigureCalls(a.configureOrder, a.configureFails)
                                   + [RecoverStorageLocations(Collected(p.agent), true)]);
      }
    }
  }

  lemma FailureWhileInUse(w: World, a: Answers)
    requires VolumesInv(w) && InUseStill(w) && w.agent.initCount != 0 && !Attempt(w.agent, a).ok
    ensures VolumesInv(Go(w, Try(a)))
  {
    var n, f := w.notes, Freed(w.agent, a);
    var rest := n.mounted[n.freed..];
    AttemptVolumes(w.agent, a);
    assert rest[f..] == n.mounted[n.freed + f..];
    assert n.mounted[..n.freed + f] == n.mounted[..n.freed] + rest[..f];
    StorageOfBoth(n.mounted[..n.freed], rest[..f]);
    assert {} + StorageOf(rest) == StorageOf(rest);
  }

  lemma FailureWhenListed(w: World, a: Answers)
    requires VolumesInv(w) && Listed(w) && w.agent.initCount != 0 && !Attempt(w.agent, a).ok
    ensures VolumesInv(Go(w, Try(a)))
  {
    AttemptVolumes(w.agent, a);
    assert StorageOf([]) == {};
    assert w.notes.returned + {} == w.notes.returned && w.notes.dropped + {} == w.notes.dropped;
  }

  lemma FailureKeepsVolumes(w: World, a: Answers)
    requires VolumesInv(w) && w.agent.initCount != 0 && !Attempt(w.agent, a).ok
    ensures VolumesInv(Go(w, Try(a)))
  {
    if InUseStill(w) {
      FailureWhileInUse(w, a);
    } else {
      FailureWhenListed(w, a);
    }
  }

  lemma StorageOfBoth(a: seq<Volume>, b: seq<Volume>)
    ensures StorageOf(a + b) == StorageOf(a) + StorageOf(b)
  {
    StorageSplits(a + b, |a|);
    assert (a + b)[..|a|] == a && (a + b)[|a|..] == b;
  }

  lemma TryKeepsInv(w: World, a: Answers)
    requires RunInv(w)
    ensures RunInv(Go(w, Try(a)))
  {
    AttemptEffect(w.agent, a);
    if Attempt(w.agent, a).ok {
      FreshNotes(Go(w, Try(a)));
    } else if w.notes.successes > 0 {
      FailureKeepsVolumes(w, a);
    }
  }

  lemma FreshNotes(w: World)
    requires w.notes.returned == {} && w.notes.dropped == {} && w.notes.freed == 0 && w.notes.mounted == w.agent.inUse
    ensures VolumesInv(w)
  {
    assert w.notes.mounted[0..] == w.notes.mounted && w.notes.mounted[..0] == [] && StorageOf([]) == {};
  }

  lemma {:induction false} RunKeepsInv(worlds: seq<World>, acts: seq<Action>, k: nat)
    requires IsRun(worlds, acts) && k <= |acts|
    ensures RunInv(worlds[k])
    decreases k
  {
    if k > 0 {
      RunKeepsInv(worlds, acts, k - 1);
      assert worlds[k] == Go(worlds[k - 1], acts[k - 1]);
      if acts[k - 1].Try? {
        TryKeepsInv(worlds[k - 1], acts[k - 1].answers);
      } else {
        FreshNotes(worlds[k]);
      }
    }
  }

  // The service is ready exactly when the last attempt succeeded, and the counter counts the successes.
  lemma ReadyIffLastAttemptSucceeded(worlds: seq<World>, acts: seq<Action>, k: nat)
    requires IsRun(worlds, acts) && k <= |acts|
    ensures worlds[k].agent.service.Ready? <==> worlds[k].notes.lastOk
    ensures worlds[k].agent.initCount == worlds[k].notes.successes
  {
    RunKeepsInv(worlds, acts, k);
  }

  // ---------- the locations handed back to nuvo ----------

  lemma {:induction false} ConfigureCallsShape(order: seq<string>, fails: set<string>)
    ensures forall c :: c in ConfigureCalls(order, fails) ==> c.ConfigureStorage?
    ensures ConfigureOk(order, fails) ==>
              |ConfigureCalls(order, fails)| == |order| &&
              forall i :: 0 <= i < |order| ==> ConfigureCalls(order, fails)[i] == ConfigureStorage(order[i], true)
  {
    if order != [] && order[0] !in fails {
      ConfigureCallsShape(order[1..], fails);
      assert forall id :: id in order[1..] ==> id in order;
    }
  }

  lemma FinishCalls(s: Agent, a: Answers, t: seq<Call>)
    ensures t <= Finish(s, a, t).trace
    ensures forall i :: |t| <= i < |Finish(s, a, t).trace| ==>
            Finish(s, a, t).trace[i].NewPSO? || Finish(s, a, t).trace[i].Announce?
  {
  }

  lemma RestoreCalls(s: Agent, a: Answers, t: seq<Call>)
    ensures t <= Restore(s, a, t).trace
    ensures forall i :: |t| <= i < |Restore(s, a, t).trace| ==>
              FollowsNode(Restore(s, a, t).trace[i]) &&
              (Restore(s, a, t).trace[i].RecoverStorageLocations? ==> Restore(s, a, t).trace[i].ids == Collected(s))
    ensures Restore(s, a, t).ok ==> RecoverStorageLocations(Collected(s), true) in Restore(s, a, t).trace
    ensures Restore(s, a, t).ok ==>
              forall id :: id in a.configureOrder ==> ConfigureStorage(id, true) in Restore(s, a, t).trace
  {
    var cs := ConfigureCalls(a.configureOrder, a.configureFails);
    ConfigureCallsShape(a.configureOrder, a.configureFails);
    var t' := t + cs;
    var t'' := t' + [RecoverStorageLocations(Collected(s), a.locationsOk)];
    assert forall i :: |t| <= i < |t'| ==> t'[i] == cs[i - |t|] && t'[i] in cs;
    assert forall i :: |t| <= i < |t'| ==> t''[i] == t'[i];
    if ConfigureOk(a.configureOrder, a.configureFails) {
      assert t''[|t'|] == RecoverStorageLocations(Collected(s), a.locationsOk);
      forall id | id in a.configureOrder
        ensures ConfigureStorage(id, true) in t''
      {
        var i :| 0 <= i < |a.configureOrder| && a.configureOrder[i] == id;
        assert t''[|t| + i] == ConfigureStorage(id, true);
      }
      if a.locationsOk {
        FinishCalls(s, a, t'');
      }
    }
  }

  lemma LoadCalls(s: Agent, a: Answers, t: seq<Call>)
    ensures t <= Load(s, a, t).trace
    ensures forall i :: |t| <= i < |Load(s, a, t).trace| ==>
              FollowsNode(Load(s, a, t).trace[i]) && !Load(s, a, t).trace[i].RecoverStorageLocations?
  {
    if a.storageInUse.Some? && a.volumesInUse.Some? {
      FinishCalls(s.(storage := WithStorages(map[], a.storageInUse.value),
                     luns := WithLUNs(map[], a.volumesInUse.value)),
                  a, t + [RecoverStorageInUse(true), RecoverVolumesInUse(true)]);
    }
  }

  // In a successful attempt after a nuvo restart RecoverStorageLocations receives exactly the union of all
  // lists NoVolumesInUse returned since the previous success, which is the Storage of the volumes that were in
  // use at the restart, but for the first ones: those freed by calls that failed. So every location is
  // restored exactly when all Storage of the volumes freed is also used by another volume. Every device in
  // the storage cache is configured too.
  lemma LocationsAreWhatWasReturned(worlds: seq<World>, acts: seq<Action>, k: nat)
    requires IsRun(worlds, acts) && k < |acts| && acts[k].Try? && worlds[k].notes.successes > 0
    requires Attempt(worlds[k].agent, acts[k].answers).ok
    ensures var w, a, o := worlds[k], acts[k].answers, Attempt(worlds[k].agent, acts[k].answers);
            var ids := w.notes.returned + Gained(w.agent, a);
            && RecoverStorageLocations(ids, true) in o.trace
            && (forall c :: c in o.trace && c.RecoverStorageLocations? ==> c.ids == ids)
            && w.notes.freed <= |w.notes.mounted|
            && ids == StorageOf(w.notes.mounted[w.notes.freed..])
            && (ids == AtRestart(w.notes) <==>
                  StorageOf(w.notes.mounted[..w.notes.freed]) <= StorageOf(w.notes.mounted[w.notes.freed..]))
            && (Sane(w.agent, a) ==> forall id :: id in w.agent.storage ==> ConfigureStorage(id, true) in o.trace)
  {
    var w, a := worlds[k], acts[k].answers;
    RunKeepsInv(worlds, acts, k);
    PrepareEffect(w.agent, a);
    AttemptVolumes(w.agent, a);
    var p := Prepare(w.agent, a);
    RestoreCalls(p.agent, a, p.trace + [UseNodeUUID(true), UseCacheDevices(true)]);
    assert StorageOf([]) == {};
    StorageSplits(w.notes.mounted, w.notes.freed);
  }

  // The reference to a Storage is dropped exactly when NoVolumesInUse releases some volumes that use
  // Storage and then fails on a later one.
  lemma DroppedExactly(s: Agent, a: Answers)
    ensures Dropped(s, a) == {} <==>
              !(ReachesVolumes(s, a) && a.drain.ReleaseFails? && a.drain.k < |s.inUse| &&
                exists j :: 0 <= j < a.drain.k && s.inUse[j].storage != {})
  {
    if ReachesVolumes(s, a) && a.drain.ReleaseFails? && a.drain.k < |s.inUse| {
      var k := a.drain.k;
      assert |s.inUse| - |s.inUse[k..]| == k;
      if j :| 0 <= j < k && s.inUse[j].storage != {} {
        var id :| id in s.inUse[j].storage;
        assert s.inUse[j] in s.inUse[..k];
        assert id in StorageOf(s.inUse[..k]);
      }
    }
    assert s.inUse[..0] == [];
  }

  lemma FailureAddsDropped(w: World, act: Action)
    requires RunInv(w) && Allowed(w.agent, act) && !Go(w, act).agent.service.Ready?
    ensures act.Try? && Go(w, act).notes.dropped == w.notes.dropped + Dropped(w.agent, act.answers)
  {
    if act.Try? {
      AttemptEffect(w.agent, act.answers);
    }
  }

  // From a state in which the service is ready to one before it is again, something was dropped exactly when
  // some attempt dropped something.
  lemma {:induction false} NothingDropped(worlds: seq<World>, acts: seq<Action>, i: nat, k: nat)
    requires IsRun(worlds, acts) && i <= k <= |acts| && worlds[i].agent.service.Ready?
    requires forall j :: i < j <= k ==> !worlds[j].agent.service.Ready?
    ensures worlds[k].notes.dropped == {} <==>
              forall j {:trigger acts[j]} :: i <= j < k && acts[j].Try? ==>
                                               Dropped(worlds[j].agent, acts[j].answers) == {}
    decreases k
  {
    if i < k {
      NothingDropped(worlds, acts, i, k - 1);
      RunKeepsInv(worlds, acts, k - 1);
      assert worlds[k] == Go(worlds[k - 1], acts[k - 1]) && Allowed(worlds[k - 1].agent, acts[k - 1]);
      FailureAddsDropped(worlds[k - 1], acts[k - 1]);
    } else {
      RunKeepsInv(worlds, acts, i);
    }
  }

  // ---------- a run in which a reference is lost ----------

  const V1 := Volume("v1", {"s1"})
  const V2 := Volume("v2", {"s2"})
  const GOOD := Answers(true, true, Some(1), ReleaseWorks, true, true, Some([]), Some([]), [], {}, true, true)
  const STUCK := GOOD.(drain := ReleaseFails(1))

  function Started(): World {
    World(Agent(Ready, None, 1, map[], map[], true, 0, []), Notes({}, {}, [], 0, 1, true))
  }

  function Mounted(): World {
    World(Started().agent.(inUse := [V1, V2]), Started().notes.(mounted := [V1, V2]))
  }

  function HalfReleased(): World {
    World(Mounted().agent.(service := NotReady, recState := Some({}), inUse := [V2]),
          Mounted().notes.(dropped := {"s1"}, freed := 1, lastOk := false))
  }

  lemma LossStarts()
    ensures Go(Begin([]), Try(GOOD)) == Started()
  {
    assert StorageOf([]) == {};
  }

  lemma LossMounts()
    ensures Go(Started(), Work([V1, V2], map[], map[])) == Mounted()
  {
  }

  lemma LossReleases()
    ensures Release([V1, V2], STUCK.drain) == Drained([V2], None)
  {
    assert [V1, V2][1..] == [V2];
  }

  lemma LossPrepares()
    ensures Prepare(Mounted().agent, STUCK).agent == HalfReleased().agent && !Prepare(Mounted().agent, STUCK).ok
  {
    LossReleases();
    assert Collected(Mounted().agent) + {} == {};
  }

  lemma LossFails()
    ensures Go(Mounted(), Try(STUCK)) == HalfReleased()
  {
    var s := Mounted().agent;
    LossReleases();
    LossPrepares();
    assert s.inUse[..1] == [V1];
    assert StorageOf([V1]) == {"s1"} by {
      assert V1 in [V1];
    }
    assert Dropped(s, STUCK) == {"s1"} && Gained(s, STUCK) == {} && Freed(s, STUCK) == 1;
  }

  function LossWorlds(): seq<World> {
    [Begin([]), Started(), Mounted(), HalfReleased(), Go(HalfReleased(), Try(GOOD))]
  }

  function LossActs(): seq<Action> {
    [Try(GOOD), Work([V1, V2], map[], map[]), Try(STUCK), Try(GOOD)]
  }

  lemma LossIsRun()
    ensures IsRun(LossWorlds(), LossActs())
  {
    LossStarts();
    LossMounts();
    LossFails();
    assert LossWorlds()[0] == Begin([]);
  }

  lemma LossSucceeds()
    ensures Attempt(HalfReleased().agent, GOOD).ok
    ensures Gained(HalfReleased().agent, GOOD) == {"s2"}
  {
    assert StorageOf([V2]) == {"s2"} by {
      assert V2 in [V2];
    }
  }

  // Two volumes, on different Storage. The first attempt releases the first and fails on the second; the
  // second attempt succeeds and restores the location of the second Storage only.
  lemma StorageReferenceLost()
    ensures exists worlds: seq<World>, acts: seq<Action> ::
              && IsRun(worlds, acts) && |acts| == 4 && acts[3].Try?
              && worlds[3].notes.successes > 0
              && Attempt(worlds[3].agent, acts[3].answers).ok
              && AtRestart(worlds[3].notes) == {"s1", "s2"}
              && worlds[3].notes.returned + Gained(worlds[3].agent, acts[3].answers) == {"s2"}
  {
    LossIsRun();
    LossSucceeds();
    assert StorageOf([V1, V2]) == {"s1", "s2"} by {
      assert V1 in [V1, V2] && V2 in [V1, V2];
    }
    assert LossWorlds()[3] == HalfReleased() && LossActs()[3] == Try(GOOD);
  }

  // ---------- the order of the calls of one attempt ----------

  predicate FollowsNode(c: Call) {
    c.UseCacheDevices? || c.RecoverStorageInUse? || c.RecoverVolumesInUse? || c.ConfigureStorage? ||
    c.RecoverStorageLocations? || c.NewPSO? || c.Announce?
  }

  lemma SetNodeCalls(s: Agent, a: Answers, t: seq<Call>)
    ensures t + [UseNodeUUID(a.nodeUuidOk)] <= SetNode(s, a, t).trace
    ensures forall i :: |t| < i < |SetNode(s, a, t).trace| ==> FollowsNode(SetNode(s, a, t).trace[i])
    ensures !a.nodeUuidOk ==> |SetNode(s, a, t).trace| == |t| + 1
  {
    var t' := t + [UseNodeUUID(true), UseCacheDevices(true)];
    if a.nodeUuidOk && a.cacheOk {
      if s.initCount == 0 {
        LoadCalls(s, a, t');
      } else {
        RestoreCalls(s, a, t');
      }
    }
  }

  // In the trace of any attempt a successful volume check comes before UseNodeUUID, no volume check comes
  // after it, and every device, cache, location and PSO call comes after UseNodeUUID succeeded.
  lemma CallsAreOrdered(s: Agent, a: Answers)
    ensures var t := Attempt(s, a).trace;
            && (forall i :: 0 <= i < |t| && t[i].UseNodeUUID? ==> i > 0 && t[i - 1] == VolumeCheck(true))
            && (forall i, j :: 0 <= i < j < |t| && t[i].UseNodeUUID? ==> FollowsNode(t[j]))
            && (forall j :: 0 <= j < |t| && FollowsNode(t[j]) ==> exists i :: 0 <= i < j && t[i] == UseNodeUUID(true))
  {
    var p := Prepare(s, a);
    if p.ok {
      SetNodeCalls(p.agent, a, p.trace);
      var t := Attempt(s, a).trace;
      assert t[|p.trace|] == (p.trace + [UseNodeUUID(a.nodeUuidOk)])[|p.trace|];
      assert forall i :: 0 <= i < |p.trace| ==> t[i] == (p.trace + [UseNodeUUID(a.nodeUuidOk)])[i] == p.trace[i];
    }
  }

  // ---------- the caches ----------

  ghost predicate FirstOfItsID(ss: seq<Storage>, i: nat, id: string) {
    i < |ss| && ss[i].storageID == id && forall j :: 0 <= j < i ==> ss[j].storageID != id
  }

  // The storage map loaded from a list has the listed ids, each with the first entry of that id.
  lemma {:induction false} FirstStorageWins(ss: seq<Storage>, id: string)
    ensures id in WithStorages(map[], ss) <==> exists i: nat :: FirstOfItsID(ss, i, id)
    ensures forall i: nat :: FirstOfItsID(ss, i, id) ==> WithStorages(map[], ss)[id] == ss[i]
  {
    if ss != [] {
      var rest, last := ss[..|ss| - 1], ss[|ss| - 1];
      FirstStorageWins(rest, id);
      FirstAppended(rest, last, id);
      assert ss == rest + [last];
    }
  }

  lemma FirstAppended(rest: seq<Storage>, s: Storage, id: string)
    ensures forall i: nat :: i < |rest| ==> (FirstOfItsID(rest + [s], i, id) <==> FirstOfItsID(rest, i, id))
    ensures FirstOfItsID(rest + [s], |rest|, id) <==> s.storageID == id && !exists i: nat :: FirstOfItsID(rest, i, id)
  {
    var all := rest + [s];
    assert forall i :: 0 <= i < |rest| ==> all[i] == rest[i];
    if exists j :: 0 <= j < |rest| && rest[j].storageID == id {
      SomeFirst(rest, id);
    }
  }

  lemma SomeFirst(ss: seq<Storage>, id: string)
    requires exists j :: 0 <= j < |ss| && ss[j].storageID == id
    ensures exists i: nat :: FirstOfItsID(ss, i, id)
  {
    var i := 0;
    while ss[i].storageID != id
      invariant 0 <= i < |ss| && forall j :: 0 <= j < i ==> ss[j].storageID != id
      decreases |ss| - i
    {
      assert exists j :: 0 <= j < |ss| && ss[j].storageID == id;
      i := i + 1;
    }
    assert FirstOfItsID(ss, i, id);
  }

  lemma FirstStartCaches(s: Agent, a: Answers, t: seq<Call>)
    requires NewPSO(false) !in t
    ensures var o, loaded := Load(s, a, t), a.storageInUse.Some? && a.volumesInUse.Some?;
            && (o.ok ==> loaded) && (NewPSO(false) in o.trace ==> loaded && !o.ok)
            && if o.ok || NewPSO(false) in o.trace
               then o.agent.storage == WithStorages(map[], a.storageInUse.value) &&
                 o.agent.luns == WithLUNs(map[], a.volumesInUse.value)
               else o.agent.storage == s.storage && o.agent.luns == s.luns
  {
  }

  lemma FirstAttemptCaches(s: Agent, a: Answers)
    requires s.initCount == 0
    ensures var o, loaded := Attempt(s, a), a.storageInUse.Some? && a.volumesInUse.Some?;
            && (o.ok ==> loaded) && (NewPSO(false) in o.trace ==> loaded && !o.ok)
            && if o.ok || NewPSO(false) in o.trace
               then o.agent.storage == WithStorages(map[], a.storageInUse.value) &&
                 o.agent.luns == WithLUNs(map[], a.volumesInUse.value)
               else o.agent.storage == s.storage && o.agent.luns == s.luns
  {
    var p := Prepare(s, a);
    if p.ok && a.nodeUuidOk && a.cacheOk {
      FirstStartCaches(p.agent, a, p.trace + [UseNodeUUID(true), UseCacheDevices(true)]);
    }
  }

  // A restart keeps the storage cache, and empties the LUN cache exactly when NoVolumesInUse returned a list.
  lemma RestartCaches(s: Agent, a: Answers)
    requires s.initCount != 0
    ensures var o := Attempt(s, a);
            && o.agent.storage == s.storage
            && o.agent.luns == (if ReachesVolumes(s, a) && Release(s.inUse, a.drain).ids.Some? then map[] else s.luns)
            && (o.ok ==> o.agent.luns == map[])
  {
    var p := Prepare(s, a);
    if p.ok && a.nodeUuidOk && a.cacheOk {
      assert Attempt(s, a) == Restore(p.agent, a, p.trace + [UseNodeUUID(true), UseCacheDevices(true)]);
    }
  }

  // What an attempt leaves in the caches. On a first start they are the loaded lists when it succeeds and
  // when it fails at the PSO, and unchanged otherwise.
  lemma CachesAfterAttempt(s: Agent, a: Answers)
    ensures var o, first := Attempt(s, a), s.initCount == 0;
            && (first && (o.ok || NewPSO(false) in o.trace) ==>
                  && a.storageInUse.Some? && a.volumesInUse.Some?
                  && o.agent.storage == WithStorages(map[], a.storageInUse.value)
                  && o.agent.luns == WithLUNs(map[], a.volumesInUse.value))
            && (first && !o.ok && NewPSO(false) !in o.trace ==> o.agent.storage == s.storage && o.agent.luns == s.luns)
            && (!first ==> o.agent.storage == s.storage)
            && (!first && ReachesVolumes(s, a) && Release(s.inUse, a.drain).ids.Some? ==> o.agent.luns == map[])
            && (!first && !(ReachesVolumes(s, a) && Release(s.inUse, a.drain).ids.Some?) ==>
                  !o.ok && o.agent.luns == s.luns)
  {
    if s.initCount == 0 {
      FirstAttemptCaches(s, a);
    } else {
      RestartCaches(s, a);
    }
  }

  function KeyOf(l: LUN): string {
    LunKey(l.volumeSeriesID, l.snapIdentifier)
  }

  function KeysOf(ls: seq<LUN>): (ks: seq<string>)
    ensures |ks| == |ls| && forall i :: 0 <= i < |ls| ==> ks[i] == KeyOf(ls[i])
  {
    seq(|ls|, i requires 0 <= i < |ls| => KeyOf(ls[i]))
  }

  ghost predicate FirstAt(ks: seq<string>, i: nat, key: string) {
    i < |ks| && ks[i] == key && key !in ks[..i]
  }

  lemma LunAdded(luns: map<string, LUN>, l: LUN, key: string)
    ensures key in WithLUN(luns, l) <==> key in luns || key == KeyOf(l)
    ensures key in WithLUN(luns, l) ==> WithLUN(luns, l)[key] == if key in luns then luns[key] else l
  {
  }

  lemma FirstAppearance(ks: seq<string>, k: string, key: string)
    ensures forall i: nat :: i < |ks| ==> (FirstAt(ks + [k], i, key) <==> FirstAt(ks, i, key))
    ensures FirstAt(ks + [k], |ks|, key) <==> k == key && key !in ks
  {
    assert forall i :: 0 <= i <= |ks| ==> (ks + [k])[..i] == ks[..i];
    assert ks[..|ks|] == ks;
  }

  // The LUN map loaded from a list has the listed keys, each with the first entry of that key.
  lemma {:induction false} FirstLunWins(ls: seq<LUN>, key: string)
    ensures key in WithLUNs(map[], ls) <==> key in KeysOf(ls)
    ensures forall i: nat :: FirstAt(KeysOf(ls), i, key) ==> WithLUNs(map[], ls)[key] == ls[i]
  {
    if ls != [] {
      var rest, last := ls[..|ls| - 1], ls[|ls| - 1];
      FirstLunWins(rest, key);
      LunAdded(WithLUNs(map[], rest), last, key);
      FirstAppearance(KeysOf(rest), KeyOf(last), key);
      assert KeysOf(ls) == KeysOf(rest) + [KeyOf(last)];
    }
  }

  // Two LUNs share a cache key only if they are the same, for volume identifiers without a colon.
  lemma LunKeysDiffer(v: string, x: string, w: string, y: string)
    requires ':' !in v && ':' !in w && LunKey(v, x) == LunKey(w, y)
    ensures v == w && x == y
  {
    var k := LunKey(v, x);
    assert k[|v|] == ':' && k[|w|] == ':';
    assert forall i :: 0 <= i < |v| ==> k[i] == v[i];
    assert forall i :: 0 <= i < |w| ==> k[i] == w[i];
    assert v == k[..|v|] && w == k[..|w|];
    assert x == k[|v| + 1..] && y == k[|w| + 1..];
  }
}
