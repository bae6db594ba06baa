/** Telling nuvo about the node's cache devices, and recording in the node what nuvo answered. */
module CacheDevices {
  import opened Wrappers
  import opened SortedKeys

  datatype DeviceState = CACHE | ERROR | RESTRICTED | UNUSED

  datatype Device = Device(name: string, state: DeviceState, usable: Option<int>)

  // What UseCacheDevice answers for a device: sizes are uint64 in nuvo's API.
  datatype Answer = Refused | Accepted(usable: nat, unit: nat)

  // How the update of the stored node goes.
  datatype UpdateAnswer = NotReady | WriteFails | Updated

  // int64(x) for a uint64 x.
  function ToInt64(x: nat): int {
    var low := x % 0x1_0000_0000_0000_0000;
    if low < 0x8000_0000_0000_0000 then low else low - 0x1_0000_0000_0000_0000
  }

  // swag.Int64Value: an absent number reads as zero.
  function ValueOf(x: Option<int>): int {
    if x.Some? then x.value else 0
  }

  predicate Offered(d: Device) {
    d.state == CACHE || d.state == UNUSED
  }

  // The device after nuvo took it with that usable size.
  function Reconciled(d: Device, usable: nat): Device {
    d.(usable := if ValueOf(d.usable) == ToInt64(usable) then d.usable else Some(ToInt64(usable)),
       state := if usable == 0 then UNUSED else CACHE)
  }

  ghost predicate Refuses(api: (string, string) -> Answer, storage: map<string, Device>, u: string) {
    u in storage && Offered(storage[u]) && api(u, storage[u].name).Refused?
  }

  // The device map when exactly the devices named in done have been reconciled.
  ghost predicate ReconciledUpTo(before: map<string, Device>, after: map<string, Device>,
                                 api: (string, string) -> Answer, done: set<string>) {
    && after.Keys == before.Keys
    && forall u :: u in before ==>
         after[u] == if u in done && Offered(before[u]) && api(u, before[u].name).Accepted?
                     then Reconciled(before[u], api(u, before[u].name).usable) else before[u]
  }

  // The device map after one device, and after a list of devices, has been offered.
  function OfferOne(storage: map<string, Device>, api: (string, string) -> Answer, u: string): map<string, Device> {
    if u in storage && Offered(storage[u]) && api(u, storage[u].name).Accepted?
    then storage[u := Reconciled(storage[u], api(u, storage[u].name).usable)]
    else storage
  }

  function OfferAll(storage: map<string, Device>, api: (string, string) -> Answer, keys: seq<string>,
                    n: nat): map<string, Device>
    requires n <= |keys|
  {
    if n == 0 then storage else OfferOne(OfferAll(storage, api, keys, n - 1), api, keys[n - 1])
  }

  // Offering distinct devices one after the other reconciles exactly those that nuvo takes.
  lemma {:induction false} OfferAllMeaning(storage: map<string, Device>, api: (string, string) -> Answer,
                                           keys: seq<string>, n: nat)
    requires Sorted(keys) && n <= |keys|
    ensures ReconciledUpTo(storage, OfferAll(storage, api, keys, n), api, set u | u in keys[..n])
  {
    if n > 0 {
      OfferAllMeaning(storage, api, keys, n - 1);
      assert keys[..n] == keys[..n - 1] + [keys[n - 1]];
      assert keys[n - 1] !in keys[..n - 1];
    }
  }

  lemma NextKeyUntouched(storage: map<string, Device>, api: (string, string) -> Answer, keys: seq<string>, n: nat)
    requires SortedKeysOf(keys, storage.Keys) && n < |keys|
    ensures var now := OfferAll(storage, api, keys, n);
            keys[n] in storage && keys[n] in now && now[keys[n]] == storage[keys[n]]
  {
    OfferAllMeaning(storage, api, keys, n);
    assert keys[n] in keys;
    assert forall i :: 0 <= i < n ==> keys[..n][i] != keys[n];
  }

  // The cache unit size last reported while offering the devices.
  ghost function UnitAfter(storage: map<string, Device>, api: (string, string) -> Answer, keys: seq<string>,
                           n: nat): int
    requires n <= |keys|
  {
    if n == 0 then 0
    else
      var k := keys[n - 1];
      if k in storage && Offered(storage[k]) && api(k, storage[k].name).Accepted?
      then ToInt64(api(k, storage[k].name).unit)
      else UnitAfter(storage, api, keys, n - 1)
  }

  // The size was not the one on record after some device on the way, offered or not.
  ghost predicate UnitDiffered(storage: map<string, Device>, api: (string, string) -> Answer, keys: seq<string>,
                               n: nat, unit: int)
    requires n <= |keys|
  {
    n > 0 && (UnitAfter(storage, api, keys, n) != unit || UnitDiffered(storage, api, keys, n - 1, unit))
  }

  // Whether offering these keys calls for an update of the stored node.
  ghost predicate Changes(storage: map<string, Device>, api: (string, string) -> Answer, keys: seq<string>, n: nat,
                          unit: int)
    requires n <= |keys|
  {
    OfferAll(storage, api, keys, n) != storage || UnitDiffered(storage, api, keys, n, unit)
  }

  // A difference made to one device is not undone by a later one.
  lemma DifferenceStays(storage: map<string, Device>, api: (string, string) -> Answer, keys: seq<string>, n: nat)
    requires SortedKeysOf(keys, storage.Keys) && n < |keys|
    ensures var now := OfferAll(storage, api, keys, n);
            OfferOne(now, api, keys[n]) != storage <==> now != storage || OfferOne(now, api, keys[n]) != now
  {
    var now := OfferAll(storage, api, keys, n);
    var next := OfferOne(now, api, keys[n]);
    NextKeyUntouched(storage, api, keys, n);
    OfferAllMeaning(storage, api, keys, n);
    if now != storage {
      var u :| u in storage && now[u] != storage[u];
      assert next[u] == now[u];
    }
  }

  lemma OneMoreKey(storage: map<string, Device>, api: (string, string) -> Answer, keys: seq<string>, n: nat, unit: int)
    requires SortedKeysOf(keys, storage.Keys) && n < |keys|
    ensures var k, now, next := keys[n], OfferAll(storage, api, keys, n), OfferAll(storage, api, keys, n + 1);
            && k in storage && k in now && now[k] == storage[k]
            && next == OfferOne(now, api, k)
            && (!Refuses(api, storage, k) ==>
                  UnitAfter(storage, api, keys, n + 1) ==
                  if Offered(now[k]) then ToInt64(api(k, now[k].name).unit) else UnitAfter(storage, api, keys, n))
            && (Changes(storage, api, keys, n + 1, unit) <==>
                  Changes(storage, api, keys, n, unit) || next != now || UnitAfter(storage, api, keys, n + 1) != unit)
  {
    NextKeyUntouched(storage, api, keys, n);
    DifferenceStays(storage, api, keys, n);
  }

  lemma ToInt64Zero(x: nat)
    requires x < 0x1_0000_0000_0000_0000
    ensures ToInt64(x) == 0 <==> x == 0
  {
  }

  // int64 of a uint64 is the number of that range that is the same modulo 2 to the power 64.
  lemma ToInt64Meaning(x: nat)
    ensures -0x8000_0000_0000_0000 <= ToInt64(x) < 0x8000_0000_0000_0000
    ensures (x - ToInt64(x)) % 0x1_0000_0000_0000_0000 == 0
  {
  }

  // The device shows the usable size reported, and is cache exactly when that is not zero, and unused otherwise.
  ghost predicate ShowsAnswer(d: Device, d': Device, usable: nat) {
    && ValueOf(d'.usable) == ToInt64(usable) && d'.name == d.name
    && (d'.state == CACHE <==> ValueOf(d'.usable) != 0)
    && (d'.state == UNUSED <==> ValueOf(d'.usable) == 0)
  }

  lemma ReconciledShows(d: Device, usable: nat)
    requires usable < 0x1_0000_0000_0000_0000
    ensures ShowsAnswer(d, Reconciled(d, usable), usable)
  {
    ToInt64Zero(usable);
  }

  // What offering all devices does to the one named u: a cache device or an unused one was accepted and shows the
  // answer, and one in error or restricted is as it was.
  ghost predicate SettledDevice(api: (string, string) -> Answer, u: string, d: Device, d': Device) {
    if d.state == CACHE || d.state == UNUSED then
      && api(u, d.name).Accepted?
      && (api(u, d.name).usable < 0x1_0000_0000_0000_0000 ==> ShowsAnswer(d, d', api(u, d.name).usable))
    else d' == d
  }

  // On success every device that was cache or unused was accepted and shows the usable size nuvo reported, and is
  // cache exactly when that size is not zero; a device in error or restricted is untouched.
  lemma SuccessReconciles(storage: map<string, Device>, api: (string, string) -> Answer, keys: seq<string>)
    requires SortedKeysOf(keys, storage.Keys)
    requires forall i :: 0 <= i < |keys| ==> !Refuses(api, storage, keys[i])
    ensures OfferAll(storage, api, keys, |keys|).Keys == storage.Keys
    ensures forall u :: u in storage ==> SettledDevice(api, u, storage[u], OfferAll(storage, api, keys, |keys|)[u])
  {
    OfferAllMeaning(storage, api, keys, |keys|);
    forall u | u in storage
      ensures SettledDevice(api, u, storage[u], OfferAll(storage, api, keys, |keys|)[u])
    {
      assert u in keys[..|keys|];
      var i :| 0 <= i < |keys| && keys[i] == u;
      assert !Refuses(api, storage, keys[i]);
      if Offered(storage[u]) && api(u, storage[u].name).usable < 0x1_0000_0000_0000_0000 {
        ReconciledShows(storage[u], api(u, storage[u].name).usable);
      }
    }
  }

  predicate ErrorOrRestricted(storage: map<string, Device>, u: string) {
    u in storage ==> storage[u].state == ERROR || storage[u].state == RESTRICTED
  }

  // Of the first n devices, the last that is cache or unused, and was accepted.
  ghost predicate LastAsked(storage: map<string, Device>, api: (string, string) -> Answer, keys: seq<string>,
                            last: nat, n: nat)
  {
    && last < n <= |keys| && keys[last] in storage && api(keys[last], storage[keys[last]].name).Accepted?
    && (storage[keys[last]].state == CACHE || storage[keys[last]].state == UNUSED)
    && forall i :: last < i < n ==> ErrorOrRestricted(storage, keys[i])
  }

  // The size sent with the update is the one reported last, ...
  lemma {:induction false} UnitIsLastReported(storage: map<string, Device>, api: (string, string) -> Answer,
                                              keys: seq<string>, last: nat, n: nat)
    requires LastAsked(storage, api, keys, last, n)
    ensures UnitAfter(storage, api, keys, n) == ToInt64(api(keys[last], storage[keys[last]].name).unit)
    decreases n
  {
    if last < n - 1 {
      assert ErrorOrRestricted(storage, keys[n - 1]);
      UnitIsLastReported(storage, api, keys, last, n - 1);
    }
  }

  // ... and zero when no device was asked about.
  lemma {:induction false} NoUnitReported(storage: map<string, Device>, api: (string, string) -> Answer,
                                          keys: seq<string>, n: nat)
    requires n <= |keys| && forall i :: 0 <= i < n ==> ErrorOrRestricted(storage, keys[i])
    ensures UnitAfter(storage, api, keys, n) == 0
  {
    if n > 0 {
      NoUnitReported(storage, api, keys, n - 1);
      assert ErrorOrRestricted(storage, keys[n - 1]);
    }
  }

  lemma {:induction false} DifferedAfter(storage: map<string, Device>, api: (string, string) -> Answer,
                                         keys: seq<string>, i: nat, n: nat, unit: int)
    requires 0 < i <= n <= |keys| && UnitAfter(storage, api, keys, i) != unit
    ensures UnitDiffered(storage, api, keys, n, unit)
    decreases n
  {
    if i < n {
      DifferedAfter(storage, api, keys, i, n - 1, unit);
    }
  }

  lemma {:induction false} WhereDiffered(storage: map<string, Device>, api: (string, string) -> Answer,
                                         keys: seq<string>, n: nat, unit: int) returns (i: nat)
    requires n <= |keys| && UnitDiffered(storage, api, keys, n, unit)
    ensures 0 < i <= n && UnitAfter(storage, api, keys, i) != unit
  {
    i := n;
    if UnitAfter(storage, api, keys, n) == unit {
      i := WhereDiffered(storage, api, keys, n - 1, unit);
    }
  }

  // The update is called for when a device changed or that size was not the one on record after some device.
  lemma UpdateIsCalledFor(storage: map<string, Device>, api: (string, string) -> Answer, keys: seq<string>, n: nat,
                          unit: int)
    requires SortedKeysOf(keys, storage.Keys) && n <= |keys|
    ensures OfferAll(storage, api, keys, n).Keys == storage.Keys
    ensures Changes(storage, api, keys, n, unit) <==>
              || (exists u :: u in storage && OfferAll(storage, api, keys, n)[u] != storage[u])
              || (exists i: nat :: 0 < i <= n && UnitAfter(storage, api, keys, i) != unit)
  {
    OfferAllMeaning(storage, api, keys, n);
    if OfferAll(storage, api, keys, n) != storage {
      var u :| u in storage && OfferAll(storage, api, keys, n)[u] != storage[u];
    }
    if UnitDiffered(storage, api, keys, n, unit) {
      var i := WhereDiffered(storage, api, keys, n, unit);
    }
    if i: nat :| 0 < i <= n && UnitAfter(storage, api, keys, i) != unit {
      DifferedAfter(storage, api, keys, i, n, unit);
    }
  }

  // The node object, shared with the heartbeat component, and the copy of it in the database.
  class Node {
    var localStorage: map<string, Device>
    var cacheUnit: Option<int>
    var storedStorage: map<string, Device>
    var storedUnit: Option<int>

    constructor (storage: map<string, Device>, unit: Option<int>)
      ensures localStorage == storedStorage == storage && cacheUnit == storedUnit == unit
    {
      localStorage, cacheUnit, storedStorage, storedUnit := storage, unit, storage, unit;
    }

    ghost predicate Synced()
      reads this
    {
      localStorage == storedStorage && cacheUnit == storedUnit
    }

    // UpdateNodeLocalStorage writes the node object first and the database second, and neither while the
    // component has no node object yet.
    method UpdateNodeLocalStorage(unit: int, answer: UpdateAnswer) returns (ok: bool)
      modifies this
      ensures ok <==> answer.Updated?
      ensures localStorage == old(localStorage) && cacheUnit == if answer.NotReady? then old(cacheUnit) else Some(unit)
      ensures if ok then Synced() else storedStorage == old(storedStorage) && storedUnit == old(storedUnit)
    {
      if answer.NotReady? {
        return false;
      }
      cacheUnit := Some(unit);
      ok := answer.Updated?;
      if ok {
        storedStorage, storedUnit := localStorage, cacheUnit;
      }
    }

    // One device nuvo took: note its usable size and whether it is used as cache.
    method ReconcileDevice(d: Device, usable: nat) returns (dev: Device, changed: bool)
      ensures dev == Reconciled(d, usable)
      ensures changed <==> dev != d
    {
      dev, changed := d, false;
      if ValueOf(dev.usable) != ToInt64(usable) {
        dev := dev.(usable := Some(ToInt64(usable)));
        changed := true;
      }
      if usable == 0 {
        if dev.state != UNUSED {
          dev := dev.(state := UNUSED);
          changed := true;
        }
      } else if dev.state != CACHE {
        dev := dev.(state := CACHE);
        changed := true;
      }
    }

    // The body of the loop for one key. When something has changed before, the device is written back
    // whether or not it differs.
    method OfferDevice(api: (string, string) -> Answer, uuid: string, before: bool, unitBefore: int)
      returns (ok: bool, changed: bool, unit: int)
      requires uuid in localStorage
      modifies this`localStorage
      ensures ok <==> !Refuses(api, old(localStorage), uuid)
      ensures localStorage == OfferOne(old(localStorage), api, uuid)
      ensures ok ==> unit == if Offered(old(localStorage)[uuid])
              then ToInt64(api(uuid, old(localStorage)[uuid].name).unit) else unitBefore
      ensures changed <==> before || localStorage != old(localStorage) || (ok && unit != ValueOf(cacheUnit))
    {
      ok, changed, unit := true, before, unitBefore;
      var dev := localStorage[uuid];
      if dev.state == CACHE || dev.state == UNUSED {
        var answer := api(uuid, dev.name);
        if answer.Refused? {
          return false, changed, unit;
        }
        var devChanged;
        dev, devChanged := ReconcileDevice(dev, answer.usable);
        changed := changed || devChanged;
        unit := ToInt64(answer.unit);
        if changed {
          localStorage := localStorage[uuid := dev];
        } else {
          assert localStorage == localStorage[uuid := dev];
        }
      }
      if unit != ValueOf(cacheUnit) {
        changed := true;
      }
    }

    // Offer the devices in key order. Stops at the first one refused, after `handled` keys.
    method OfferDevices(api: (string, string) -> Answer, keys: seq<string>)
      returns (ok: bool, changed: bool, handled: nat, unit: int)
      requires SortedKeysOf(keys, localStorage.Keys)
      modifies this`localStorage
      ensures handled <= |keys| && localStorage == OfferAll(old(localStorage), api, keys, handled)
      ensures ok <==> handled == |keys|
      ensures !ok ==> Refuses(api, old(localStorage), keys[handled])
      ensures forall i :: 0 <= i < handled ==> !Refuses(api, old(localStorage), keys[i])
      ensures changed <==> Changes(old(localStorage), api, keys, handled, ValueOf(cacheUnit))
      ensures ok ==> unit == UnitAfter(old(localStorage), api, keys, |keys|)
    {
      ok, changed, handled, unit := true, false, 0, 0;
      ghost var was := localStorage;
      while handled < |keys|
        invariant handled <= |keys|
        invariant localStorage == OfferAll(was, api, keys, handled)
        invariant forall i :: 0 <= i < handled ==> !Refuses(api, was, keys[i])
        invariant changed <==> Changes(was, api, keys, handled, ValueOf(cacheUnit))
        invariant unit == UnitAfter(was, api, keys, handled)
      {
        OneMoreKey(was, api, keys, handled, ValueOf(cacheUnit));
        ok, changed, unit := OfferDevice(api, keys[handled], changed, unit);
        if !ok {
          return;
        }
        handled := handled + 1;
      }
    }

    method NuvoUseCacheDevices(api: (string, string) -> Answer, update: UpdateAnswer)
      returns (ok: bool, changed: bool, keys: seq<string>, handled: nat)
      modifies this
      // the devices that were cache or unused are offered in key order, until one is refused
      ensures SortedKeysOf(keys, old(localStorage).Keys) && handled <= |keys|
      ensures localStorage == OfferAll(old(localStorage), api, keys, handled)
      ensures forall i :: 0 <= i < handled ==> !Refuses(api, old(localStorage), keys[i])
      ensures handled < |keys| ==> Refuses(api, old(localStorage), keys[handled])
      ensures ok <==> handled == |keys| && (changed ==> update.Updated?)
      // what that means for each of them
      ensures localStorage.Keys == old(localStorage).Keys
      ensures handled == |keys| ==> forall u :: u in old(localStorage) ==>
                SettledDevice(api, u, old(localStorage)[u], localStorage[u])
      ensures handled < |keys| ==>
                && keys[handled] in old(localStorage)
                && (var d := old(localStorage)[keys[handled]];
                    (d.state == CACHE || d.state == UNUSED) && api(keys[handled], d.name).Refused?)
      // what is written, and when
      ensures changed <==> Changes(old(localStorage), api, keys, handled, ValueOf(old(cacheUnit)))
      ensures cacheUnit ==
              if handled == |keys| && changed && !update.NotReady?
                then Some(UnitAfter(old(localStorage), api, keys, |keys|))
              else old(cacheUnit)
      ensures ok ==> (Synced() <==> changed || old(Synced()))
      ensures !ok ==> storedStorage == old(storedStorage) && storedUnit == old(storedUnit)
    {
      keys := SortedStringKeys(localStorage);
      var unit;
      ok, changed, handled, unit := OfferDevices(api, keys);
      OfferAllMeaning(old(localStorage), api, keys, handled);
      if ok {
        SuccessReconciles(old(localStorage), api, keys);
      }
      if ok && changed {
        ok := UpdateNodeLocalStorage(unit, update);
      }
    }
  }

  // ---------- a retry that leaves the stored copy behind ----------

  function Disk(usable: int): Device {
    Device("disk", CACHE, Some(usable))
  }

  function FirstTry(): (string, string) -> Answer {
    (uuid: string, name: string) => if uuid == "a" then Accepted(7, 1) else Refused
  }

  function SecondTry(): (string, string) -> Answer {
    (uuid: string, name: string) => Accepted(7, 1)
  }

  lemma TwoKeys(keys: seq<string>)
    requires SortedKeysOf(keys, {"a", "b"})
    ensures keys == ["a", "b"]
  {
    assert "b"[0] > "a"[0];
    assert LessOrEqual("a", "b") && "a" != "b";
    assert SortedKeysOf(["a", "b"], {"a", "b"});
    SortedUnique(keys, ["a", "b"], {"a", "b"});
  }

  lemma FirstTryEffect(storage: map<string, Device>)
    requires storage == map["a" := Disk(5), "b" := Disk(7)]
    ensures OfferAll(storage, FirstTry(), ["a", "b"], 1) == map["a" := Disk(7), "b" := Disk(7)]
    ensures !Refuses(FirstTry(), storage, "a") && Refuses(FirstTry(), storage, "b")
  {
    assert OfferAll(storage, FirstTry(), ["a", "b"], 0) == storage;
  }

  lemma SecondTryEffect(storage: map<string, Device>)
    requires storage == map["a" := Disk(7), "b" := Disk(7)]
    ensures OfferAll(storage, SecondTry(), ["a", "b"], 2) == storage
    ensures !UnitDiffered(storage, SecondTry(), ["a", "b"], 2, 1)
  {
    var api, keys := SecondTry(), ["a", "b"];
    assert OfferOne(storage, api, "a") == storage && OfferOne(storage, api, "b") == storage;
    assert OfferAll(storage, api, keys, 0) == storage && OfferAll(storage, api, keys, 1) == storage;
    assert UnitAfter(storage, api, keys, 1) == 1 && UnitAfter(storage, api, keys, 2) == 1;
    assert !UnitDiffered(storage, api, keys, 0, 1) && !UnitDiffered(storage, api, keys, 1, 1);
  }

  // The first attempt changes one device in the node object and is then refused the next; the second
  // succeeds, finds nothing to change, and the stored copy keeps the old size.
  method RetryLeavesStaleCopy() returns (ok: bool, node: Node)
    ensures ok && !node.Synced()
  {
    var storage := map["a" := Disk(5), "b" := Disk(7)];
    node := new Node(storage, Some(1));
    assert storage.Keys == {"a", "b"};
    FirstTryEffect(storage);
    var changed, keys, handled;
    ok, changed, keys, handled := node.NuvoUseCacheDevices(FirstTry(), Updated);
    TwoKeys(keys);
    assert handled == 1 by {
      assert keys[0] == "a" && keys[1] == "b";
    }
    ghost var mid := node.localStorage;
    assert mid["a"] == Disk(7) && node.storedStorage["a"] == Disk(5);
    assert mid.Keys == {"a", "b"};
    SecondTryEffect(mid);
    ok, changed, keys, handled := node.NuvoUseCacheDevices(SecondTry(), Updated);
    TwoKeys(keys);
  }
}
