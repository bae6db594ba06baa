/** What the answers given to one attempt decide: whether it succeeds, which volumes stay, and which call is the
    last. Said of the answers, and not of how an attempt is divided into phases. */
module RecoveryAnswers {
  import opened Wrappers
  import opened NuvoRecovery

  // ---------- volumes ----------

  // The attempt gets as far as looking at the volumes.
  predicate Looks(s: Agent, a: Answers) {
    a.nodeKnown && (s.service.NotReady? || a.updateStateOk)
  }

  // The volumes are listed, and every one of them can be released.
  predicate AllReleased(s: Agent, a: Answers) {
    match a.drain
    case ListFails => false
    case ReleaseFails(k) => k >= |s.inUse|
    case ReleaseWorks => true
  }

  // How many volumes are released before the listing or a release fails.
  function ReleasedBefore(s: Agent, a: Answers): nat {
    if a.drain.ReleaseFails? then a.drain.k else 0
  }

  // On agentd's first start the volumes are left alone, and the check succeeds, when nuvo lists a volume. When it
  // lists none or cannot list, they are released one by one: the check succeeds exactly when all were, and
  // otherwise those from the first failure on are still in use.
  lemma FirstStartVolumes(s: Agent, a: Answers)
    requires s.initCount == 0
    ensures var o := Attempt(s, a);
            if !Looks(s, a) then
              o.agent.inUse == s.inUse && !o.ok && forall ok :: VolumeCheck(ok) !in o.trace
            else if a.nuvoVolumes.Some? && a.nuvoVolumes.value > 0 then
              o.agent.inUse == s.inUse && VolumeCheck(true) in o.trace && VolumeCheck(false) !in o.trace
            else if AllReleased(s, a) then
              o.agent.inUse == [] && VolumeCheck(true) in o.trace && VolumeCheck(false) !in o.trace
            else
              && o.agent.inUse == s.inUse[ReleasedBefore(s, a)..] && !o.ok
              && VolumeCheck(false) in o.trace && VolumeCheck(true) !in o.trace
  {
    AfterTheCheck(s, a);
  }

  // When nuvo restarted beneath agentd the volumes are released whatever nuvo lists, and their Storage ids are
  // kept for as long as the service is not ready.
  lemma RestartVolumes(s: Agent, a: Answers)
    requires s.initCount != 0
    ensures var o := Attempt(s, a);
            if !Looks(s, a) then
              o.agent.inUse == s.inUse && !o.ok && forall ok :: VolumeCheck(ok) !in o.trace
            else if AllReleased(s, a) then
              && o.agent.inUse == [] && VolumeCheck(true) in o.trace && VolumeCheck(false) !in o.trace
              && (!o.ok ==> o.agent.recState.Some? &&
                            (forall id :: id in o.agent.recState.value <==>
                               (s.recState.Some? && id in s.recState.value) ||
                               exists v :: v in s.inUse && id in v.storage))
            else
              && o.agent.inUse == s.inUse[ReleasedBefore(s, a)..] && !o.ok
              && VolumeCheck(false) in o.trace && VolumeCheck(true) !in o.trace
  {
    AfterTheCheck(s, a);
  }

  // Nothing after the check touches the volumes, or checks again.
  lemma AfterTheCheck(s: Agent, a: Answers)
    ensures var p, o := Prepare(s, a), Attempt(s, a);
            && o.agent.inUse == p.agent.inUse && (o.ok ==> p.ok)
            && (forall ok :: VolumeCheck(ok) in o.trace <==> VolumeCheck(ok) in p.trace)
            && (!o.ok ==> o.agent.recState == p.agent.recState)
  {
    var p := Prepare(s, a);
    if p.ok {
      NodeLeavesVolumes(p.agent, a, p.trace);
    }
  }

  ghost predicate LeavesVolumes(s: Agent, t: seq<Call>, o: Outcome) {
    && o.agent.inUse == s.inUse && (!o.ok ==> o.agent.recState == s.recState)
    && forall ok :: VolumeCheck(ok) in o.trace <==> VolumeCheck(ok) in t
  }

  lemma FinishLeavesVolumes(s: Agent, a: Answers, t: seq<Call>)
    ensures LeavesVolumes(s, t, Finish(s, a, t))
  {
  }

  lemma LoadLeavesVolumes(s: Agent, a: Answers, t: seq<Call>)
    ensures LeavesVolumes(s, t, Load(s, a, t))
  {
    if a.storageInUse.Some? && a.volumesInUse.Some? {
      FinishLeavesVolumes(s.(storage := WithStorages(map[], a.storageInUse.value),
                             luns := WithLUNs(map[], a.volumesInUse.value)),
                          a, t + [RecoverStorageInUse(true), RecoverVolumesInUse(true)]);
    }
  }

  lemma {:induction false} OnlyConfigures(order: seq<string>, fails: set<string>)
    ensures forall c :: c in ConfigureCalls(order, fails) ==> c.ConfigureStorage?
    ensures forall i :: 0 <= i < |ConfigureCalls(order, fails)| - 1 ==> ConfigureCalls(order, fails)[i].ok
    ensures ConfigureOk(order, fails) ==> ConfigureCalls(order, fails) == AllConfigured(order)
    ensures !ConfigureOk(order, fails) ==>
              ConfigureCalls(order, fails) != [] && !ConfigureCalls(order, fails)[|ConfigureCalls(order, fails)| - 1].ok
  {
    if order != [] && order[0] !in fails {
      OnlyConfigures(order[1..], fails);
      assert ConfigureOk(order, fails) <==> ConfigureOk(order[1..], fails) by {
        assert forall id :: id in order <==> id == order[0] || id in order[1..];
      }
    }
  }

  lemma RestoreLeavesVolumes(s: Agent, a: Answers, t: seq<Call>)
    ensures LeavesVolumes(s, t, Restore(s, a, t))
  {
    OnlyConfigures(a.configureOrder, a.configureFails);
    var t' := t + ConfigureCalls(a.configureOrder, a.configureFails);
    if ConfigureOk(a.configureOrder, a.configureFails) && a.locationsOk {
      FinishLeavesVolumes(s, a, t' + [RecoverStorageLocations(Collected(s), true)]);
    }
  }

  lemma NodeLeavesVolumes(s: Agent, a: Answers, t: seq<Call>)
    ensures LeavesVolumes(s, t, SetNode(s, a, t))
  {
    if a.nodeUuidOk && a.cacheOk {
      var t' := t + [UseNodeUUID(true), UseCacheDevices(true)];
      if s.initCount == 0 {
        LoadLeavesVolumes(s, a, t');
      } else {
        RestoreLeavesVolumes(s, a, t');
      }
    }
  }

  // ---------- success ----------

  // The volumes are in order: nuvo has some on the first start, or all that were in use have been released.
  predicate VolumesOk(s: Agent, a: Answers) {
    (s.initCount == 0 && a.nuvoVolumes.Some? && a.nuvoVolumes.value > 0) || AllReleased(s, a)
  }

  // What is asked after the cache devices goes well: the two lists on the first start, the devices and locations
  // after a restart.
  ghost predicate RecoveryOk(s: Agent, a: Answers) {
    if s.initCount == 0 then a.storageInUse.Some? && a.volumesInUse.Some?
    else a.locationsOk && forall id :: id in a.configureOrder ==> id !in a.configureFails
  }

  // An attempt succeeds exactly when everything asked on its way is answered well.
  lemma SucceedsIffAllAnswersAreGood(s: Agent, a: Answers)
    ensures Attempt(s, a).ok <==>
              && a.nodeKnown && (s.service.NotReady? || a.updateStateOk)
              && VolumesOk(s, a) && a.nodeUuidOk && a.cacheOk && RecoveryOk(s, a)
              && (s.pso || a.psoOk)
  {
  }

  // ---------- the trace ----------

  // All calls but the last went well; the last is the one that failed, if any did. Announcing the service comes
  // last and only of a success.
  ghost predicate OnlyLastFails(t: seq<Call>, ok: bool) {
    && (forall i :: 0 <= i < |t| - 1 ==> !t[i].Announce? && t[i].ok)
    && t != [] && (if ok then t[|t| - 1].Announce? else !t[|t| - 1].Announce? && !t[|t| - 1].ok)
  }

  ghost predicate AllWorked(t: seq<Call>) {
    forall c :: c in t ==> !c.Announce? && c.ok
  }

  lemma FailsLast(t: seq<Call>, c: Call)
    requires AllWorked(t) && !c.Announce? && !c.ok
    ensures OnlyLastFails(t + [c], false)
  {
    assert forall i :: 0 <= i < |t| ==> (t + [c])[i] in t;
  }

  lemma FinishEndsTrace(s: Agent, a: Answers, t: seq<Call>)
    requires AllWorked(t)
    ensures OnlyLastFails(Finish(s, a, t).trace, Finish(s, a, t).ok)
  {
    var all := Finish(s, a, t).trace;
    assert forall i :: 0 <= i < |t| ==> all[i] == t[i] && t[i] in t;
  }

  lemma LoadEndsTrace(s: Agent, a: Answers, t: seq<Call>)
    requires AllWorked(t)
    ensures OnlyLastFails(Load(s, a, t).trace, Load(s, a, t).ok)
  {
    if a.storageInUse.None? {
      FailsLast(t, RecoverStorageInUse(false));
    } else if a.volumesInUse.None? {
      FailsLast(t + [RecoverStorageInUse(true)], RecoverVolumesInUse(false));
      assert t + [RecoverStorageInUse(true), RecoverVolumesInUse(false)]
          == t + [RecoverStorageInUse(true)] + [RecoverVolumesInUse(false)];
    } else {
      FinishEndsTrace(s.(storage := WithStorages(map[], a.storageInUse.value),
                         luns := WithLUNs(map[], a.volumesInUse.value)),
                      a, t + [RecoverStorageInUse(true), RecoverVolumesInUse(true)]);
    }
  }

  lemma ConfigureFailsLast(t: seq<Call>, order: seq<string>, fails: set<string>)
    requires AllWorked(t) && !ConfigureOk(order, fails)
    ensures OnlyLastFails(t + ConfigureCalls(order, fails), false)
  {
    OnlyConfigures(order, fails);
    var calls := ConfigureCalls(order, fails);
    var all := t + calls;
    forall i | 0 <= i < |all| - 1
      ensures !all[i].Announce? && all[i].ok
    {
      if i < |t| {
        assert all[i] in t;
      } else {
        assert all[i] == calls[i - |t|] && calls[i - |t|] in calls;
      }
    }
    assert all[|all| - 1] == calls[|calls| - 1] && calls[|calls| - 1] in calls;
  }

  lemma RestoreEndsTrace(s: Agent, a: Answers, t: seq<Call>)
    requires AllWorked(t)
    ensures OnlyLastFails(Restore(s, a, t).trace, Restore(s, a, t).ok)
  {
    if !ConfigureOk(a.configureOrder, a.configureFails) {
      ConfigureFailsLast(t, a.configureOrder, a.configureFails);
    } else {
      OnlyConfigures(a.configureOrder, a.configureFails);
      var t' := t + ConfigureCalls(a.configureOrder, a.configureFails);
      assert AllWorked(t');
      if a.locationsOk {
        FinishEndsTrace(s, a, t' + [RecoverStorageLocations(Collected(s), true)]);
      } else {
        FailsLast(t', RecoverStorageLocations(Collected(s), false));
      }
    }
  }

  lemma NodeEndsTrace(s: Agent, a: Answers, t: seq<Call>)
    requires AllWorked(t)
    ensures OnlyLastFails(SetNode(s, a, t).trace, SetNode(s, a, t).ok)
  {
    if !a.nodeUuidOk {
      FailsLast(t, UseNodeUUID(false));
    } else if !a.cacheOk {
      FailsLast(t + [UseNodeUUID(true)], UseCacheDevices(false));
      assert t + [UseNodeUUID(true), UseCacheDevices(false)] == t + [UseNodeUUID(true)] + [UseCacheDevices(false)];
    } else {
      var t' := t + [UseNodeUUID(true), UseCacheDevices(true)];
      if s.initCount == 0 {
        LoadEndsTrace(s, a, t');
      } else {
        RestoreEndsTrace(s, a, t');
      }
    }
  }

  // An attempt stops at the first call that fails. It makes none when the node is not known, and updates the
  // state first exactly when the service was not NOT_READY.
  lemma StopsAtFirstFailure(s: Agent, a: Answers)
    ensures var o := Attempt(s, a);
            if !a.nodeKnown then o.trace == [] && !o.ok
            else
              && OnlyLastFails(o.trace, o.ok)
              && (if s.service.NotReady? then o.trace[0].VolumeCheck? else o.trace[0] == UpdateState(a.updateStateOk))
  {
    var p := Prepare(s, a);
    if p.ok {
      NodeEndsTrace(p.agent, a, p.trace);
      TraceGrows(p.agent, a, p.trace);
    }
  }

  lemma TraceGrows(s: Agent, a: Answers, t: seq<Call>)
    requires t != []
    ensures SetNode(s, a, t).trace != [] && SetNode(s, a, t).trace[0] == t[0]
  {
  }

  function Optional(when: bool, c: Call): seq<Call> {
    if when then [c] else []
  }

  function AllConfigured(order: seq<string>): (calls: seq<Call>)
    ensures |calls| == |order| && forall i :: 0 <= i < |calls| ==> calls[i] == ConfigureStorage(order[i], true)
  {
    seq(|order|, i requires 0 <= i < |order| => ConfigureStorage(order[i], true))
  }

  // Which Storage is referenced: by the volumes in use now, and by those released in attempts that failed later.
  ghost predicate Referenced(s: Agent, id: string) {
    (s.recState.Some? && id in s.recState.value) || exists v :: v in s.inUse && id in v.storage
  }

  function CallsBefore(s: Agent): seq<Call> {
    Optional(!s.service.NotReady?, UpdateState(true)) + [VolumeCheck(true)]
  }

  function CallsAfter(s: Agent, a: Answers, ids: set<string>): seq<Call> {
    (if s.initCount == 0 then [RecoverStorageInUse(true), RecoverVolumesInUse(true)]
     else AllConfigured(a.configureOrder) + [RecoverStorageLocations(ids, true)]) +
    (Optional(!s.pso, NewPSO(true)) + [Announce])
  }

  lemma PrepareOfSuccess(s: Agent, a: Answers)
    requires Prepare(s, a).ok
    ensures var p := Prepare(s, a);
            && p.trace == CallsBefore(s) && p.agent.initCount == s.initCount && p.agent.pso == s.pso
            && (s.initCount != 0 ==> forall id :: id in Collected(p.agent) <==> Referenced(s, id))
  {
  }

  lemma FinishOfSuccess(s: Agent, a: Answers, t: seq<Call>)
    requires Finish(s, a, t).ok
    ensures Finish(s, a, t).trace == t + (Optional(!s.pso, NewPSO(true)) + [Announce])
  {
  }

  lemma LoadOfSuccess(s: Agent, a: Answers, t: seq<Call>)
    requires Load(s, a, t).ok
    ensures Load(s, a, t).trace ==
            t + ([RecoverStorageInUse(true), RecoverVolumesInUse(true)] + (Optional(!s.pso, NewPSO(true)) + [Announce]))
  {
    var t' := t + [RecoverStorageInUse(true), RecoverVolumesInUse(true)];
    FinishOfSuccess(s.(storage := WithStorages(map[], a.storageInUse.value),
                       luns := WithLUNs(map[], a.volumesInUse.value)), a, t');
  }

  lemma RestoreOfSuccess(s: Agent, a: Answers, t: seq<Call>)
    requires Restore(s, a, t).ok
    ensures Restore(s, a, t).trace ==
            t + (AllConfigured(a.configureOrder) + [RecoverStorageLocations(Collected(s), true)] +
                 (Optional(!s.pso, NewPSO(true)) + [Announce]))
  {
    OnlyConfigures(a.configureOrder, a.configureFails);
    assert ConfigureCalls(a.configureOrder, a.configureFails) == AllConfigured(a.configureOrder);
    FinishOfSuccess(s, a, t + AllConfigured(a.configureOrder) + [RecoverStorageLocations(Collected(s), true)]);
  }

  lemma NodeOfSuccess(s: Agent, a: Answers, t: seq<Call>)
    requires SetNode(s, a, t).ok
    ensures SetNode(s, a, t).trace ==
            t + [UseNodeUUID(true), UseCacheDevices(true)] + CallsAfter(s, a, Collected(s))
  {
    var t' := t + [UseNodeUUID(true), UseCacheDevices(true)];
    if s.initCount == 0 {
      LoadOfSuccess(s, a, t');
    } else {
      RestoreOfSuccess(s, a, t');
    }
  }

  // The calls of a successful attempt, in their order: the first start loads the lists, a restart configures the
  // devices and recovers the locations of exactly the Storage referenced.
  lemma WhatASuccessCalls(s: Agent, a: Answers) returns (ids: set<string>)
    requires Attempt(s, a).ok
    ensures Attempt(s, a).trace ==
            CallsBefore(s) + [UseNodeUUID(true), UseCacheDevices(true)] + CallsAfter(s, a, ids)
    ensures s.initCount != 0 ==> forall id :: id in ids <==> Referenced(s, id)
  {
    var p := Prepare(s, a);
    ids := Collected(p.agent);
    PrepareOfSuccess(s, a);
    NodeOfSuccess(p.agent, a, p.trace);
  }

  // ---------- the agent afterwards ----------

  ghost predicate FieldsAfter(s: Agent, t: seq<Call>, o: Outcome) {
    && o.agent.service == (if o.ok then Ready else s.service)
    && o.agent.initCount == s.initCount + (if o.ok then 1 else 0)
    && (o.ok ==> o.agent.recState.None?)
    && (o.agent.pso <==> s.pso || o.ok)
    && (NewPSO(false) !in t && NewPSO(true) !in t ==>
          && o.agent.fatalErrors == s.fatalErrors + (if NewPSO(false) in o.trace then 1 else 0)
          && (NewPSO(true) in o.trace <==> !s.pso && o.ok))
  }

  lemma FinishFields(s: Agent, a: Answers, t: seq<Call>)
    ensures FieldsAfter(s, t, Finish(s, a, t))
  {
  }

  lemma LoadFields(s: Agent, a: Answers, t: seq<Call>)
    ensures FieldsAfter(s, t, Load(s, a, t))
  {
    if a.storageInUse.Some? && a.volumesInUse.Some? {
      FinishFields(s.(storage := WithStorages(map[], a.storageInUse.value),
                      luns := WithLUNs(map[], a.volumesInUse.value)),
                   a, t + [RecoverStorageInUse(true), RecoverVolumesInUse(true)]);
    }
  }

  lemma RestoreFields(s: Agent, a: Answers, t: seq<Call>)
    ensures FieldsAfter(s, t, Restore(s, a, t))
  {
    OnlyConfigures(a.configureOrder, a.configureFails);
    var t' := t + ConfigureCalls(a.configureOrder, a.configureFails);
    if ConfigureOk(a.configureOrder, a.configureFails) && a.locationsOk {
      FinishFields(s, a, t' + [RecoverStorageLocations(Collected(s), true)]);
    }
  }

  lemma NodeFields(s: Agent, a: Answers, t: seq<Call>)
    ensures FieldsAfter(s, t, SetNode(s, a, t))
  {
    if a.nodeUuidOk && a.cacheOk {
      var t' := t + [UseNodeUUID(true), UseCacheDevices(true)];
      if s.initCount == 0 {
        LoadFields(s, a, t');
      } else {
        RestoreFields(s, a, t');
      }
    }
  }

  // An attempt leaves the service ready and counts exactly when it succeeds; the PSO is created in the first attempt
  // that gets that far, once, and a failure to create it is the only fatal error.
  lemma FieldsAfterAttempt(s: Agent, a: Answers)
    ensures var o := Attempt(s, a);
            && o.agent.service == (if o.ok then Ready else NotReady)
            && o.agent.initCount == s.initCount + (if o.ok then 1 else 0)
            && (o.ok ==> o.agent.recState.None?)
            && (o.agent.pso <==> s.pso || o.ok)
            && (NewPSO(true) in o.trace <==> !s.pso && o.ok)
            && o.agent.fatalErrors == s.fatalErrors + (if NewPSO(false) in o.trace then 1 else 0)
  {
    var p := Prepare(s, a);
    assert NewPSO(true) !in p.trace && NewPSO(false) !in p.trace && p.agent.service == NotReady;
    assert p.agent.pso == s.pso && p.agent.initCount == s.initCount && p.agent.fatalErrors == s.fatalErrors;
    if p.ok {
      NodeFields(p.agent, a, p.trace);
    }
  }
}
