/** Recovery of the nuvo service by agentd. InitializeNuvo is retried until it succeeds, may fail at any
    exit, and keeps what it has learnt in state that survives a failed attempt.

    External calls answer as an `Answers` value says. `Attempt` is one call of InitializeNuvo; the class
    AppCtx below performs it on its fields in place. */
module NuvoRecovery {
  import opened Wrappers

  datatype ServiceState = Starting | NotReady | Ready

  // A volume configured on this node and the Storage objects its parcels are on.
  datatype Volume = Volume(id: string, storage: set<string>)

  datatype Storage = Storage(storageID: string, deviceName: string, cspStorageType: string)

  datatype LUN = LUN(volumeSeriesID: string, snapIdentifier: string, deviceName: string)

  // How NoVolumesInUse goes: the list of volumes cannot be had, releasing the k-th volume fails (when
  // there are that many), or all goes well.
  datatype DrainAnswer = ListFails | ReleaseFails(k: nat) | ReleaseWorks

  datatype Answers = Answers(
    nodeKnown: bool,
    updateStateOk: bool,
    nuvoVolumes: Option<nat>,
    drain: DrainAnswer,
    nodeUuidOk: bool,
    cacheOk: bool,
    storageInUse: Option<seq<Storage>>,
    volumesInUse: Option<seq<LUN>>,
    configureOrder: seq<string>,
    configureFails: set<string>,
    locationsOk: bool,
    psoOk: bool)

  datatype Call =
    | UpdateState(ok: bool)
    | VolumeCheck(ok: bool)
    | UseNodeUUID(ok: bool)
    | UseCacheDevices(ok: bool)
    | RecoverStorageInUse(ok: bool)
    | RecoverVolumesInUse(ok: bool)
    | ConfigureStorage(id: string, ok: bool)
    | RecoverStorageLocations(ids: set<string>, ok: bool)
    | NewPSO(ok: bool)
    | Announce

  datatype Agent = Agent(
    service: ServiceState,
    recState: Option<set<string>>,
    initCount: nat,
    luns: map<string, LUN>,
    storage: map<string, Storage>,
    pso: bool,
    fatalErrors: nat,
    inUse: seq<Volume>)

  datatype Outcome = Outcome(agent: Agent, trace: seq<Call>, ok: bool)

  // ---------- the volumes of this node ----------

  function StorageOf(vs: seq<Volume>): set<string> {
    set v, id | v in vs && id in v.storage :: id
  }

  datatype Drained = Drained(left: seq<Volume>, ids: Option<set<string>>)

  // Volumes are released one by one and stay released when a later one fails, but the Storage ids are
  // only returned when all were released.
  function Release(inUse: seq<Volume>, answer: DrainAnswer): Drained {
    match answer
    case ListFails => Drained(inUse, None)
    case ReleaseFails(k) =>
      if k < |inUse| then Drained(inUse[k..], None) else Drained([], Some(StorageOf(inUse)))
    case ReleaseWorks => Drained([], Some(StorageOf(inUse)))
  }

  // On the first start the volumes are released only if nuvo does not know any.
  function Check(inUse: seq<Volume>, a: Answers): Drained {
    if a.nuvoVolumes.None? || a.nuvoVolumes.value == 0 then Release(inUse, a.drain)
    else Drained(inUse, Some({}))
  }

  // ---------- the caches ----------

  function LunKey(vsID: string, snapID: string): string {
    vsID + ":" + snapID
  }

  predicate ValidLUN(l: LUN) {
    l.volumeSeriesID != "" && l.snapIdentifier != ""
  }

  predicate ValidStorage(s: Storage) {
    s.storageID != "" && s.deviceName != "" && s.cspStorageType != ""
  }

  function WithLUN(luns: map<string, LUN>, l: LUN): map<string, LUN> {
    var k := LunKey(l.volumeSeriesID, l.snapIdentifier);
    if k in luns then luns else luns[k := l]
  }

  function WithLUNs(luns: map<string, LUN>, ls: seq<LUN>): map<string, LUN> {
    if ls == [] then luns else WithLUN(WithLUNs(luns, ls[..|ls| - 1]), ls[|ls| - 1])
  }

  function WithStorage(storage: map<string, Storage>, s: Storage): map<string, Storage> {
    if s.storageID in storage then storage else storage[s.storageID := s]
  }

  function WithStorages(storage: map<string, Storage>, ss: seq<Storage>): map<string, Storage> {
    if ss == [] then storage else WithStorage(WithStorages(storage, ss[..|ss| - 1]), ss[|ss| - 1])
  }

  // ---------- one attempt ----------

  function Collected(s: Agent): set<string> {
    if s.recState.Some? then s.recState.value else {}
  }

  // Before the node UUID is set: release the volumes, keeping the Storage ids they used.
  function Prepare(s: Agent, a: Answers): Outcome {
    var t := if s.service != NotReady then [UpdateState(a.updateStateOk)] else [];
    if !a.nodeKnown then Outcome(s.(service := NotReady), [], false)
    else if s.service != NotReady && !a.updateStateOk then Outcome(s.(service := NotReady), t, false)
    else
      var d := if s.initCount == 0 then Check(s.inUse, a) else Release(s.inUse, a.drain);
      var learnt := if s.initCount != 0 && d.ids.Some? then d.ids.value else {};
      Outcome(s.(service := NotReady, inUse := d.left, recState := Some(Collected(s) + learnt),
                 luns := if s.initCount != 0 && d.ids.Some? then map[] else s.luns),
              t + [VolumeCheck(d.ids.Some?)], d.ids.Some?)
  }

  function Attempt(s: Agent, a: Answers): Outcome {
    var p := Prepare(s, a);
    if p.ok then SetNode(p.agent, a, p.trace) else p
  }

  function SetNode(s: Agent, a: Answers, t: seq<Call>): Outcome {
    if !a.nodeUuidOk then Outcome(s, t + [UseNodeUUID(false)], false)
    else if !a.cacheOk then Outcome(s, t + [UseNodeUUID(true), UseCacheDevices(false)], false)
    else
      var t' := t + [UseNodeUUID(true), UseCacheDevices(true)];
      if s.initCount == 0 then Load(s, a, t') else Restore(s, a, t')
  }

  function Load(s: Agent, a: Answers, t: seq<Call>): Outcome {
    if a.storageInUse.None? then Outcome(s, t + [RecoverStorageInUse(false)], false)
    else if a.volumesInUse.None? then
      Outcome(s, t + [RecoverStorageInUse(true), RecoverVolumesInUse(false)], false)
    else
      Finish(s.(storage := WithStorages(map[], a.storageInUse.value), luns := WithLUNs(map[], a.volumesInUse.value)),
             a, t + [RecoverStorageInUse(true), RecoverVolumesInUse(true)])
  }

  function ConfigureCalls(order: seq<string>, fails: set<string>): seq<Call> {
    if order == [] then []
    else if order[0] in fails then [ConfigureStorage(order[0], false)]
    else [ConfigureStorage(order[0], true)] + ConfigureCalls(order[1..], fails)
  }

  predicate ConfigureOk(order: seq<string>, fails: set<string>) {
    forall id :: id in order ==> id !in fails
  }

  function Restore(s: Agent, a: Answers, t: seq<Call>): Outcome {
    var t' := t + ConfigureCalls(a.configureOrder, a.configureFails);
    if !ConfigureOk(a.configureOrder, a.configureFails) then Outcome(s, t', false)
    else
      var t'' := t' + [RecoverStorageLocations(Collected(s), a.locationsOk)];
      if !a.locationsOk then Outcome(s, t'', false) else Finish(s, a, t'')
  }

  function Finish(s: Agent, a: Answers, t: seq<Call>): Outcome {
    if !s.pso && !a.psoOk then Outcome(s.(fatalErrors := s.fatalErrors + 1), t + [NewPSO(false)], false)
    else
      Outcome(s.(pso := true, recState := None, initCount := s.initCount + 1, service := Ready),
              t + (if s.pso then [] else [NewPSO(true)]) + [Announce], true)
  }

  // The order in which Go walks the storage map is not fixed, but it walks each key once.
  ghost predicate OrderOf(order: seq<string>, storage: map<string, Storage>) {
    && (forall id :: id in order <==> id in storage)
    && (forall i, j :: 0 <= i < j < |order| ==> order[i] != order[j])
  }

  ghost predicate Sane(s: Agent, a: Answers) {
    && OrderOf(a.configureOrder, s.storage)
    && (a.storageInUse.Some? ==> forall x :: x in a.storageInUse.value ==> ValidStorage(x))
    && (a.volumesInUse.Some? ==> forall x :: x in a.volumesInUse.value ==> ValidLUN(x))
  }

  // ---------- the same, in place ----------

  // The volumes of this node as the volume component sees them.
  class Volumes {
    var inUse: seq<Volume>

    constructor (vs: seq<Volume>)
      ensures inUse == vs
    {
      inUse := vs;
    }

    method NoVolumesInUse(answer: DrainAnswer) returns (ids: Option<set<string>>)
      modifies this
      ensures Drained(inUse, ids) == Release(old(inUse), answer)
    {
      if answer.ListFails? {
        return None;
      }
      var listed := inUse;
      var storageIDs := {};
      var i := 0;
      while i < |listed|
        invariant i <= |listed|
        invariant inUse == listed[i..]
        invariant storageIDs == StorageOf(listed[..i])
        invariant answer.ReleaseFails? ==> i <= answer.k
      {
        if answer.ReleaseFails? && answer.k == i {
          return None;
        }
        assert listed[..i + 1] == listed[..i] + [listed[i]];
        inUse := inUse[1..];
        storageIDs := storageIDs + listed[i].storage;
        i := i + 1;
      }
      assert listed[..i] == listed;
      ids := Some(storageIDs);
    }

    method CheckNuvoVolumes(a: Answers) returns (ok: bool)
      modifies this
      ensures inUse == Check(old(inUse), a).left
      ensures ok <==> Check(old(inUse), a).ids.Some?
      ensures a.nuvoVolumes.Some? && a.nuvoVolumes.value > 0 ==> ok && inUse == old(inUse)
      ensures a.nuvoVolumes.None? || a.nuvoVolumes.value == 0 ==>
                if ok then inUse == [] else exists k: nat :: k <= |old(inUse)| && inUse == old(inUse)[k..]
    {
      assert old(inUse) == old(inUse)[0..];
      ok := true;
      if a.nuvoVolumes.None? || a.nuvoVolumes.value == 0 {
        var ids := NoVolumesInUse(a.drain);
        ok := ids.Some?;
      }
    }
  }

  class AppCtx {
    var service: ServiceState
    var recState: Option<set<string>>
    var nuvoInitCount: nat
    var lunMap: map<string, LUN>
    var storageMap: map<string, Storage>
    var pso: bool
    var fatalErrorCount: nat
    const volumes: Volumes

    constructor (volumes: Volumes)
      ensures this.volumes == volumes
      ensures Value() == Agent(Starting, None, 0, map[], map[], false, 0, volumes.inUse)
    {
      this.volumes := volumes;
      service, recState, nuvoInitCount := Starting, None, 0;
      lunMap, storageMap, pso, fatalErrorCount := map[], map[], false, 0;
    }

    ghost function Value(): Agent
      reads this, volumes
    {
      Agent(service, recState, nuvoInitCount, lunMap, storageMap, pso, fatalErrorCount, volumes.inUse)
    }

    method AddLUN(lun: LUN)
      requires ValidLUN(lun)
      modifies this`lunMap
      ensures lunMap == WithLUN(old(lunMap), lun)
    {
      var k := LunKey(lun.volumeSeriesID, lun.snapIdentifier);
      if k !in lunMap {
        lunMap := lunMap[k := lun];
      }
    }

    method AddStorage(storage: Storage)
      requires ValidStorage(storage)
      modifies this`storageMap
      ensures storageMap == WithStorage(old(storageMap), storage)
    {
      if storage.storageID !in storageMap {
        storageMap := storageMap[storage.storageID := storage];
      }
    }

    method LoadStorage(stgList: seq<Storage>)
      requires forall x :: x in stgList ==> ValidStorage(x)
      modifies this`storageMap
      ensures storageMap == WithStorages(map[], stgList)
    {
      storageMap := map[];
      for i := 0 to |stgList|
        invariant storageMap == WithStorages(map[], stgList[..i])
      {
        assert stgList[..i + 1][..i] == stgList[..i];
        AddStorage(stgList[i]);
      }
      assert stgList[..|stgList|] == stgList;
    }

    method LoadLUNs(lunList: seq<LUN>)
      requires forall x :: x in lunList ==> ValidLUN(x)
      modifies this`lunMap
      ensures lunMap == WithLUNs(map[], lunList)
    {
      lunMap := map[];
      for i := 0 to |lunList|
        invariant lunMap == WithLUNs(map[], lunList[..i])
      {
        assert lunList[..i + 1][..i] == lunList[..i];
        AddLUN(lunList[i]);
      }
      assert lunList[..|lunList|] == lunList;
    }

    method ConfigureAll(order: seq<string>, fails: set<string>) returns (ok: bool, ghost calls: seq<Call>)
      ensures ok <==> ConfigureOk(order, fails)
      ensures calls == ConfigureCalls(order, fails)
    {
      calls := [];
      var i := 0;
      while i < |order|
        invariant i <= |order|
        invariant forall j :: 0 <= j < i ==> order[j] !in fails
        invariant calls + ConfigureCalls(order[i..], fails) == ConfigureCalls(order, fails)
      {
        if order[i] in fails {
          calls := calls + [ConfigureStorage(order[i], false)];
          return false, calls;
        }
        calls := calls + [ConfigureStorage(order[i], true)];
        i := i + 1;
      }
      ok := true;
    }

    // Agentd is starting: load the caches.
    method LoadCaches(a: Answers, ghost t: seq<Call>) returns (ok: bool, ghost trace: seq<Call>)
      requires Sane(Value(), a)
      modifies this
      ensures Outcome(Value(), trace, ok) == Load(old(Value()), a, t)
    {
      trace := t + [RecoverStorageInUse(a.storageInUse.Some?)];
      if a.storageInUse.None? {
        return false, trace;
      }
      assert trace + [RecoverVolumesInUse(a.volumesInUse.Some?)]
          == t + [RecoverStorageInUse(true), RecoverVolumesInUse(a.volumesInUse.Some?)];
      trace := trace + [RecoverVolumesInUse(a.volumesInUse.Some?)];
      if a.volumesInUse.None? {
        return false, trace;
      }
      LoadStorage(a.storageInUse.value);
      LoadLUNs(a.volumesInUse.value);
      ok, trace := BecomeReady(a, trace);
    }

    // Nuvo restarted beneath agentd: tell it of the devices and of the locations referenced before.
    method RestoreNuvo(a: Answers, ghost t: seq<Call>) returns (ok: bool, ghost trace: seq<Call>)
      requires recState.Some?
      modifies this
      ensures Outcome(Value(), trace, ok) == Restore(old(Value()), a, t)
    {
      ghost var calls;
      ok, calls := ConfigureAll(a.configureOrder, a.configureFails);
      trace := t + calls;
      if !ok {
        return false, trace;
      }
      trace := trace + [RecoverStorageLocations(recState.value, a.locationsOk)];
      if !a.locationsOk {
        return false, trace;
      }
      ok, trace := BecomeReady(a, trace);
    }

    method BecomeReady(a: Answers, ghost t: seq<Call>) returns (ok: bool, ghost trace: seq<Call>)
      modifies this
      ensures Outcome(Value(), trace, ok) == Finish(old(Value()), a, t)
    {
      trace := t;
      if !pso {
        trace := trace + [NewPSO(a.psoOk)];
        if !a.psoOk {
          fatalErrorCount := fatalErrorCount + 1;
          return false, trace;
        }
        pso := true;
      } else {
        assert t + [] == t;
      }
      recState := None;
      nuvoInitCount := nuvoInitCount + 1;
      service := Ready;
      trace := trace + [Announce];
      ok := true;
    }

    // Everything from UseNodeUUID on.
    method ConfigureNuvo(a: Answers, ghost t: seq<Call>) returns (ok: bool, ghost trace: seq<Call>)
      requires Sane(Value(), a) && recState.Some?
      modifies this
      ensures Outcome(Value(), trace, ok) == SetNode(old(Value()), a, t)
    {
      trace := t + [UseNodeUUID(a.nodeUuidOk)];
      if !a.nodeUuidOk {
        return false, trace;
      }
      assert trace + [UseCacheDevices(a.cacheOk)] == t + [UseNodeUUID(true), UseCacheDevices(a.cacheOk)];
      trace := trace + [UseCacheDevices(a.cacheOk)];
      if !a.cacheOk {
        return false, trace;
      }
      if nuvoInitCount == 0 {
        ok, trace := LoadCaches(a, trace);
      } else {
        ok, trace := RestoreNuvo(a, trace);
      }
    }

    method ReleaseVolumes(a: Answers) returns (ok: bool, ghost trace: seq<Call>)
      modifies this, volumes
      ensures Outcome(Value(), trace, ok) == Prepare(old(Value()), a)
    {
      trace := [];
      var curState := service;
      service := NotReady;
      if !a.nodeKnown {
        return false, trace;
      }
      if curState != NotReady {
        trace := [UpdateState(a.updateStateOk)];
        if !a.updateStateOk {
          return false, trace;
        }
      }
      if recState.None? {
        recState := Some({});
      }
      assert recState.value == Collected(old(Value())) + {};
      if nuvoInitCount == 0 {
        ok := volumes.CheckNuvoVolumes(a);
      } else {
        var sl := volumes.NoVolumesInUse(a.drain);
        ok := sl.Some?;
        if ok {
          recState := Some(recState.value + sl.value);
          lunMap := map[];
        }
      }
      trace := trace + [VolumeCheck(ok)];
    }

    method InitializeNuvo(a: Answers) returns (ok: bool, ghost trace: seq<Call>)
      requires Sane(Value(), a)
      modifies this, volumes
      ensures Outcome(Value(), trace, ok) == Attempt(old(Value()), a)
    {
      ok, trace := ReleaseVolumes(a);
      if ok {
        ok, trace := ConfigureNuvo(a, trace);
      }
    }
  }
}
