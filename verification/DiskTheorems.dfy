/** What attaching and detaching disks promise, for one call and over every sequence of calls. */
module DiskTheorems {
  import opened Wrappers
  import opened DiskLuns

  // ---------- when the in-place removal is right ----------

  ghost predicate NamedPair(disks: seq<Disk>, name: string) {
    exists i :: 0 <= i < |disks| - 1 && Named(disks[i], name) && Named(disks[i + 1], name)
  }

  lemma AfterRemoved(disks: seq<Disk>, name: string)
    requires |disks| > 1 && Named(disks[0], name)
    ensures Swept(disks, name) == [disks[1]] + Swept(disks[2..], name)
    ensures Without(disks, name) == (if Named(disks[1], name) then [] else [disks[1]]) + Without(disks[2..], name)
  {
    assert disks[1..][0] == disks[1] && disks[1..][1..] == disks[2..];
  }

  lemma NeighbourStays(disks: seq<Disk>, name: string)
    requires |disks| > 1 && Named(disks[0], name) && Named(disks[1], name)
    ensures Swept(disks, name) != Without(disks, name)
  {
    AfterRemoved(disks, name);
    WithoutKeepsOthers(disks, name);
    assert disks[1] in Swept(disks, name);
  }

  // Skipping the disk behind a removed one is harmless exactly when no two neighbours carry the name.
  lemma {:induction false} SweptIsWithout(disks: seq<Disk>, name: string)
    ensures Swept(disks, name) == Without(disks, name) <==> !NamedPair(disks, name)
  {
    if |disks| > 1 && Named(disks[0], name) {
      if Named(disks[1], name) {
        NeighbourStays(disks, name);
        assert Named(disks[0], name) && Named(disks[0 + 1], name);
      } else {
        AfterRemoved(disks, name);
        SweptIsWithout(disks[2..], name);
        SameTail([disks[1]], Swept(disks[2..], name), Without(disks[2..], name));
        PairBehind(disks, name);
        PairBehind(disks[1..], name);
        assert disks[1..][1..] == disks[2..];
      }
    } else if disks != [] && !Named(disks[0], name) {
      SweptIsWithout(disks[1..], name);
      SameTail([disks[0]], Swept(disks[1..], name), Without(disks[1..], name));
      PairBehind(disks, name);
    }
  }

  lemma SameTail(front: seq<Disk>, x: seq<Disk>, y: seq<Disk>)
    ensures front + x == front + y <==> x == y
  {
    assert (front + x)[|front|..] == x && (front + y)[|front|..] == y;
  }

  lemma PairBehind(disks: seq<Disk>, name: string)
    requires disks != [] && (!Named(disks[0], name) || |disks| == 1 || !Named(disks[1], name))
    ensures NamedPair(disks, name) <==> NamedPair(disks[1..], name)
  {
    if NamedPair(disks[1..], name) {
      var i :| 0 <= i < |disks[1..]| - 1 && Named(disks[1..][i], name) && Named(disks[1..][i + 1], name);
      assert Named(disks[i + 1], name) && Named(disks[i + 1 + 1], name);
    }
    if NamedPair(disks, name) {
      var i :| 0 <= i < |disks| - 1 && Named(disks[i], name) && Named(disks[i + 1], name);
      assert i > 0;
      assert Named(disks[1..][i - 1], name) && Named(disks[1..][i - 1 + 1], name);
    }
  }

  lemma {:induction false} WithoutKeepsOthers(disks: seq<Disk>, name: string)
    ensures forall d :: d in Without(disks, name) <==> d in disks && !Named(d, name)
  {
    if disks != [] {
      WithoutKeepsOthers(disks[1..], name);
      assert disks == [disks[0]] + disks[1..];
    }
  }

  // The command removes all disks of that name, and no other, in every case but two: the last disk
  // repeats the name of an earlier one (it crashes), or two neighbours carry the name (one stays).
  lemma DetachIsRight(disks: seq<Disk>, name: string)
    ensures Detach(disks, name) == (if Attached(disks, name) then Detached(Without(disks, name)) else NotAttached)
            <==> !LastIsRepeated(disks, name) && !NamedPair(disks, name)
  {
    SweptIsWithout(disks, name);
  }

  // With distinct names it removes exactly the disk named, wherever it is.
  lemma DetachRemovesOne(disks: seq<Disk>, m: nat, name: string)
    requires NamesDistinct(disks) && m < |disks| && Named(disks[m], name)
    ensures Detach(disks, name) == Detached(disks[..m] + disks[m + 1..])
  {
    forall i | 0 <= i < |disks| && i != m
      ensures !Named(disks[i], name)
    {
      assert i < m ==> disks[i].name != disks[m].name;
    }
    DetachIsRight(disks, name);
    WithoutOne(disks, m, name);
  }

  lemma {:induction false} WithoutOne(disks: seq<Disk>, m: nat, name: string)
    requires m < |disks| && forall i :: 0 <= i < |disks| ==> (Named(disks[i], name) <==> i == m)
    ensures Without(disks, name) == disks[..m] + disks[m + 1..]
  {
    if m == 0 {
      WithoutNone(disks[1..], name);
    } else {
      var rest := disks[1..];
      WithoutOne(rest, m - 1, name);
      assert rest[..m - 1] == disks[1..m] && rest[m..] == disks[m + 1..];
      assert disks[..m] == [disks[0]] + disks[1..m];
    }
  }

  lemma {:induction false} WithoutNone(disks: seq<Disk>, name: string)
    requires !Attached(disks, name)
    ensures Without(disks, name) == disks
  {
    if disks != [] {
      var rest := disks[1..];
      assert forall m :: 0 <= m < |rest| ==> rest[m] == disks[m + 1];
      WithoutNone(rest, name);
    }
  }

  // ---------- LUNs over every sequence of calls ----------

  // One call of a command, and whether the cloud carries out the update it sends.
  datatype Request =
    | AttachRequest(name: string, sizeGB: int, managedDisk: string, carriedOut: bool)
    | DetachRequest(name: string, carriedOut: bool)

  ghost predicate AllLunsUsed(disks: seq<Disk>) {
    forall k :: 0 <= k < MAX_LUNS ==> HasLun(disks, k)
  }

  ghost predicate AttachStep(before: seq<Disk>, r: Request, after: seq<Disk>)
    requires r.AttachRequest?
  {
    if !LunsInRange(before) || AllLunsUsed(before) || !r.carriedOut then after == before
    else exists lun :: LeastFree(before, lun) &&
                       after == before + [Disk(Some(r.name), Some(lun), Some(r.sizeGB), Some(r.managedDisk))]
  }

  ghost predicate Step(before: seq<Disk>, r: Request, after: seq<Disk>) {
    match r
    case AttachRequest(_, _, _, _) => AttachStep(before, r, after)
    case DetachRequest(name, carriedOut) =>
      after == if Detach(before, name).Detached? && carriedOut then Detach(before, name).disks else before
  }

  ghost predicate IsRun(states: seq<seq<Disk>>, requests: seq<Request>) {
    && |states| == |requests| + 1
    && forall i :: 0 <= i < |requests| ==> Step(states[i], requests[i], states[i + 1])
  }

  ghost predicate LunsFit(disks: seq<Disk>) {
    LunsInRange(disks) && LunsDistinct(disks)
  }

  // A call of the attach command is such a step, as long as the disks it finds fit.
  method AttachIsAStep(vm: VirtualMachine, name: string, sizeGB: int, managedDisk: string)
    returns (r: Result<int, AttachError>)
    requires vm.Valid()
    modifies vm, vm.buffer
    ensures vm.Valid() && AttachStep(old(vm.Disks()), AttachRequest(name, sizeGB, managedDisk, true), vm.Disks())
    ensures LunsFit(old(vm.Disks())) ==> r != Failure(LunOutOfRange) && LunsFit(vm.Disks())
  {
    ghost var before := vm.Disks();
    r := vm.AttachDisk(name, sizeGB, managedDisk);
    if r.Failure? {
      assert vm.Disks() == before + [] == before;
      assert r.error == LunOutOfRange || r.error == NoMoreLuns;
      assert r == Failure(r.error);
    } else {
      assert !HasLun(before, r.value);
      if LunsFit(before) {
        AttachKeepsFit(before, AttachRequest(name, sizeGB, managedDisk, true), vm.Disks());
      }
    }
  }

  lemma AttachKeepsFit(before: seq<Disk>, r: Request, after: seq<Disk>)
    requires LunsFit(before) && r.AttachRequest? && AttachStep(before, r, after)
    ensures LunsFit(after)
  {
    if after != before {
      var lun :| LeastFree(before, lun) &&
                 after == before + [Disk(Some(r.name), Some(lun), Some(r.sizeGB), Some(r.managedDisk))];
      forall i, j | 0 <= i < j < |after| && after[i].lun.Some?
        ensures after[i].lun != after[j].lun
      {
        assert after[i] == before[i] && before[i] in before;
      }
    }
  }

  ghost predicate Within(t: seq<Disk>, disks: seq<Disk>) {
    forall d :: d in t ==> d in disks
  }

  lemma KeepInFront(d: Disk, rest: seq<Disk>, t: seq<Disk>)
    requires LunsFit([d] + rest) && LunsFit(t) && Within(t, rest)
    ensures LunsFit([d] + t) && Within([d] + t, [d] + rest)
  {
    var all := [d] + rest;
    forall j | 0 <= j < |t| && d.lun.Some?
      ensures t[j].lun != d.lun
    {
      assert t[j] in t;
      var m :| 0 <= m < |rest| && rest[m] == t[j];
      assert all[0] == d && all[m + 1] == t[j];
    }
    assert d in all;
  }

  lemma TailFits(disks: seq<Disk>)
    requires disks != [] && LunsFit(disks)
    ensures LunsFit(disks[1..]) && Within(disks[1..], disks) && [disks[0]] + disks[1..] == disks
  {
    var rest := disks[1..];
    assert forall m :: 0 <= m < |rest| ==> rest[m] == disks[m + 1] && rest[m] in disks;
  }

  lemma {:induction false} SweptKeepsFit(disks: seq<Disk>, name: string)
    requires LunsFit(disks)
    ensures LunsFit(Swept(disks, name)) && Within(Swept(disks, name), disks)
    decreases |disks|
  {
    if disks != [] {
      var rest := disks[1..];
      TailFits(disks);
      if !Named(disks[0], name) {
        SweptKeepsFit(rest, name);
        KeepInFront(disks[0], rest, Swept(rest, name));
      } else if rest != [] {
        TailFits(rest);
        SweptKeepsFit(rest[1..], name);
        KeepInFront(rest[0], rest[1..], Swept(rest[1..], name));
        assert rest[1..] == disks[2..];
      }
    }
  }

  // From distinct LUNs in range, every sequence of attaches and detaches leads to distinct LUNs in range,
  // whatever the names.
  lemma {:induction false} LunsAlwaysFit(states: seq<seq<Disk>>, requests: seq<Request>, i: nat)
    requires IsRun(states, requests) && LunsFit(states[0]) && i < |states|
    ensures LunsFit(states[i])
    ensures forall d :: d in states[i] && d.lun.Some? ==> 0 <= d.lun.value < 64
    ensures forall j, k :: 0 <= j < k < |states[i]| && states[i][j].lun.Some? ==>
                             states[i][j].lun != states[i][k].lun
  {
    if i > 0 {
      LunsAlwaysFit(states, requests, i - 1);
      var before, r, after := states[i - 1], requests[i - 1], states[i];
      assert Step(before, r, after);
      match r
      case AttachRequest(_, _, _, _) => AttachKeepsFit(before, r, after);
      case DetachRequest(name, _) => SweptKeepsFit(before, name);
    }
  }

  // The least free LUN exists unless all are used, and there is only one.
  lemma LeastFreeExists(disks: seq<Disk>)
    ensures AllLunsUsed(disks) <==> !exists lun :: LeastFree(disks, lun)
    ensures AllLunsUsed(disks) <==> forall k :: 0 <= k < 64 ==> HasLun(disks, k)
    ensures forall a, b :: LeastFree(disks, a) && LeastFree(disks, b) ==> a == b
  {
    var k := 0;
    while k < MAX_LUNS && HasLun(disks, k)
      invariant 0 <= k <= MAX_LUNS && forall j :: 0 <= j < k ==> HasLun(disks, j)
    {
      k := k + 1;
    }
    if k < MAX_LUNS {
      assert LeastFree(disks, k);
    }
  }

  // Detaching a disk that was just attached gives the disks back.
  lemma DetachUndoesAttach(before: seq<Disk>, r: Request, after: seq<Disk>)
    requires r.AttachRequest? && AttachStep(before, r, after) && after != before && !Attached(before, r.name)
    ensures Detach(after, r.name) == Detached(before)
  {
    var m := |before|;
    assert after[..m] == before && after == before + [after[m]];
    assert Named(after[m], r.name);
    forall i | 0 <= i < |after|
      ensures Named(after[i], r.name) <==> i == m
    {
      assert i < m ==> after[i] == before[i];
    }
    WithoutOne(after, m, r.name);
    DetachIsRight(after, r.name);
    assert after[..m] + after[m + 1..] == before;
  }

  // ---------- the two cases in which it goes wrong ----------

  function Twin(lun: int): Disk {
    Disk(Some("d"), Some(lun), Some(1), Some("id"))
  }

  lemma RepeatedNamesGoWrong(other: Disk)
    requires other.name == Some("e")
    ensures Detach([Twin(0), other, Twin(1)], "d") == Crashed
    ensures Detach([Twin(0), Twin(1), other], "d") == Detached([Twin(1), other])
  {
    var s, t := [Twin(0), other, Twin(1)], [Twin(0), Twin(1), other];
    assert Named(s[0], "d") && Named(s[2], "d");
    assert "e"[0] != "d"[0];
    assert Named(t[0], "d") && !Named(t[2], "d");
    assert t[2..] == [other] && Swept([other], "d") == [other];
  }
}
