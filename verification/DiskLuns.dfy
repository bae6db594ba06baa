/** Attaching data disks to a virtual machine, and detaching them: the choice of a LUN, and the removal
    of a disk from the list that is being ranged over. */
module DiskLuns {
  import opened Wrappers

  const MAX_LUNS: nat := 64

  datatype Disk = Disk(name: Option<string>, lun: Option<int>, sizeGB: Option<int>, managedDisk: Option<string>)

  // LunOutOfRange is the run-time panic on indexing the table of used LUNs.
  datatype AttachError = LunOutOfRange | NoMoreLuns

  // Crashed is the run-time panic on slicing beyond the end.
  datatype DetachOutcome = NotAttached | Detached(disks: seq<Disk>) | Crashed

  predicate HasLun(disks: seq<Disk>, lun: int) {
    exists d :: d in disks && d.lun == Some(lun)
  }

  predicate Named(d: Disk, name: string) {
    d.name == Some(name)
  }

  ghost predicate LunsInRange(disks: seq<Disk>) {
    forall d :: d in disks && d.lun.Some? ==> 0 <= d.lun.value < MAX_LUNS
  }

  ghost predicate LunsDistinct(disks: seq<Disk>) {
    forall i, j :: 0 <= i < j < |disks| && disks[i].lun.Some? ==> disks[i].lun != disks[j].lun
  }

  ghost predicate NamesDistinct(disks: seq<Disk>) {
    forall i, j :: 0 <= i < j < |disks| && disks[i].name.Some? ==> disks[i].name != disks[j].name
  }

  ghost predicate LeastFree(disks: seq<Disk>, lun: int) {
    0 <= lun < MAX_LUNS && !HasLun(disks, lun) && forall k :: 0 <= k < lun ==> HasLun(disks, k)
  }

  // ---------- what detaching computes ----------

  // A disk of that name is dropped, and the one after it is then not looked at.
  function Swept(disks: seq<Disk>, name: string): seq<Disk> {
    if disks == [] then []
    else if !Named(disks[0], name) then [disks[0]] + Swept(disks[1..], name)
    else if |disks| == 1 then []
    else [disks[1]] + Swept(disks[2..], name)
  }

  // All disks but those of that name, in order.
  function Without(disks: seq<Disk>, name: string): seq<Disk> {
    if disks == [] then []
    else (if Named(disks[0], name) then [] else [disks[0]]) + Without(disks[1..], name)
  }

  // The last disk carries the name, and so does an earlier one.
  ghost predicate LastIsRepeated(disks: seq<Disk>, name: string) {
    && disks != [] && Named(disks[|disks| - 1], name)
    && exists m :: 0 <= m < |disks| - 1 && Named(disks[m], name)
  }

  ghost predicate Attached(disks: seq<Disk>, name: string) {
    exists m :: 0 <= m < |disks| && Named(disks[m], name)
  }

  ghost function Detach(disks: seq<Disk>, name: string): DetachOutcome {
    if !Attached(disks, name) then NotAttached
    else if LastIsRepeated(disks, name) then Crashed
    else Detached(Swept(disks, name))
  }

  // ---------- a virtual machine's data disks ----------

  // A slice: the first `len` elements of an array.
  class VirtualMachine {
    var buffer: array<Disk>
    var len: nat

    ghost predicate Valid()
      reads this
    {
      len <= buffer.Length
    }

    ghost function Disks(): seq<Disk>
      requires Valid()
      reads this, buffer
    {
      buffer[..len]
    }

    constructor (disks: array<Disk>)
      ensures Valid() && buffer == disks && Disks() == disks[..]
    {
      buffer, len := disks, disks.Length;
    }

    // Which of the 64 LUNs the disks use.
    method UsedLuns() returns (used: Option<array<bool>>)
      requires Valid()
      ensures used.Some? <==> LunsInRange(Disks())
      ensures used.Some? ==> fresh(used.value) && used.value.Length == MAX_LUNS
      ensures used.Some? ==> forall k :: 0 <= k < MAX_LUNS ==> (used.value[k] <==> HasLun(Disks(), k))
    {
      var table := new bool[MAX_LUNS](_ => false);
      for i := 0 to len
        invariant LunsInRange(buffer[..i])
        invariant forall k :: 0 <= k < MAX_LUNS ==> (table[k] <==> HasLun(buffer[..i], k))
      {
        assert buffer[..i + 1] == buffer[..i] + [buffer[i]];
        var lun := buffer[i].lun;
        if lun.Some? {
          if !(0 <= lun.value < MAX_LUNS) {
            assert buffer[i] in Disks();
            return None;
          }
          table[lun.value] := true;
        }
        forall k | 0 <= k < MAX_LUNS
          ensures table[k] <==> HasLun(buffer[..i + 1], k)
        {
          OneMoreLun(buffer[..i], buffer[i], k);
        }
      }
      used := Some(table);
    }

    method NextLun() returns (r: Result<int, AttachError>)
      requires Valid()
      ensures r.Success? ==> LunsInRange(Disks()) && LeastFree(Disks(), r.value)
      ensures r == Failure(LunOutOfRange) <==> !LunsInRange(Disks())
      ensures r == Failure(NoMoreLuns) <==> LunsInRange(Disks()) && forall k :: 0 <= k < MAX_LUNS ==> HasLun(Disks(), k)
    {
      var used := UsedLuns();
      if used.None? {
        return Failure(LunOutOfRange);
      }
      for k := 0 to MAX_LUNS
        invariant forall j :: 0 <= j < k ==> HasLun(Disks(), j)
      {
        if !used.value[k] {
          return Success(k);
        }
      }
      r := Failure(NoMoreLuns);
    }

    // Takes the least free LUN. Appending writes behind the slice when there is room, and otherwise moves
    // the disks to a larger array.
    method AttachDisk(name: string, sizeGB: int, managedDisk: string) returns (r: Result<int, AttachError>)
      requires Valid()
      modifies this, buffer
      ensures Valid() && (buffer == old(buffer) || fresh(buffer))
      ensures r.Success? ==> LeastFree(old(Disks()), r.value)
      ensures r == Failure(LunOutOfRange) <==> !LunsInRange(old(Disks()))
      ensures r == Failure(NoMoreLuns) <==>
                LunsInRange(old(Disks())) && forall k :: 0 <= k < MAX_LUNS ==> HasLun(old(Disks()), k)
      ensures Disks() == old(Disks()) + if r.Success?
              then [Disk(Some(name), Some(r.value), Some(sizeGB), Some(managedDisk))] else []
    {
      r := NextLun();
      if r.Success? {
        var dd := Disk(Some(name), Some(r.value), Some(sizeGB), Some(managedDisk));
        if len == buffer.Length {
          var bigger := new Disk[2 * len + 1](_ => dd);
          forall i | 0 <= i < len {
            bigger[i] := buffer[i];
          }
          buffer := bigger;
        }
        buffer[len] := dd;
        len := len + 1;
      }
    }

    // append(disks[:i], disks[i + 1:]...) on the array, for a slice of `rest` disks.
    method MoveDown(i: nat, rest: nat)
      requires Valid() && i < rest <= len
      modifies buffer
      ensures Disks() == MovedDown(old(Disks()), i, rest)
    {
      forall j | i <= j < rest - 1 {
        buffer[j] := buffer[j + 1];
      }
    }

    method RemoveAt(i: nat, rest: nat, name: string, ghost s: seq<Disk>)
      requires Valid() && i < rest <= len && Sweeping(Disks(), s, name, i, rest) && Named(Disks()[i], name)
      modifies buffer
      ensures Sweeping(Disks(), s, name, i + 1, rest - 1)
    {
      DropOne(Disks(), s, name, i, rest);
      MoveDown(i, rest);
    }

    // A disk of the name: the rest of the slice, which has `left` disks, moves down over it.
    method LookAtNamed(i: nat, left: nat, name: string, ghost s: seq<Disk>) returns (crashed: bool)
      requires Valid() && i < len && Sweeping(Disks(), s, name, i, left) && Named(Disks()[i], name)
      modifies buffer
      ensures crashed ==> Detach(s, name) == Crashed
      ensures !crashed ==> 0 < left && Sweeping(Disks(), s, name, i + 1, left - 1)
    {
      if i + 1 > left {
        CrashMeans(Disks(), s, name, i, left);
        return true;
      }
      RemoveAt(i, left, name, s);
      crashed := false;
    }

    // The body of the loop.
    method LookAt(i: nat, left: nat, name: string, ghost s: seq<Disk>) returns (crashed: bool, rest: nat)
      requires Valid() && i < len && Sweeping(Disks(), s, name, i, left)
      modifies buffer
      ensures crashed ==> Detach(s, name) == Crashed
      ensures !crashed ==> Sweeping(Disks(), s, name, i + 1, rest)
    {
      var d := buffer[i];
      if d.name.Some? && d.name.value == name {
        crashed := LookAtNamed(i, left, name, s);
        rest := if crashed then left else left - 1;
      } else {
        KeepOne(Disks(), s, name, i, left);
        crashed, rest := false, left;
      }
    }

    // Ranges over the slice as it was, reading the array as it is, while the disks behind a removed one
    // are moved down.
    method Sweep(name: string) returns (crashed: bool, rest: nat)
      requires Valid()
      modifies buffer
      ensures if crashed then Detach(old(Disks()), name) == Crashed else SweptTo(Disks(), old(Disks()), name, rest)
    {
      ghost var s := Disks();
      crashed, rest := false, len;
      SweepingBegins(s, name);
      for i := 0 to len
        invariant Sweeping(Disks(), s, name, i, rest)
      {
        crashed, rest := LookAt(i, rest, name, s);
        if crashed {
          return;
        }
      }
      SweepingDone(Disks(), s, name, rest);
    }

    method DetachDisk(name: string) returns (outcome: DetachOutcome)
      requires Valid()
      modifies this`len, buffer
      ensures Valid() && buffer == old(buffer)
      ensures outcome == Detach(old(Disks()), name)
      ensures !outcome.Crashed? ==> Disks() == if outcome.Detached? then outcome.disks else old(Disks())
    {
      var crashed, rest := Sweep(name);
      if crashed {
        return Crashed;
      }
      var found := rest < len;
      if !found {
        return NotAttached;
      }
      assert Disks()[..rest] == buffer[..rest];
      len := rest;
      outcome := Detached(buffer[..rest]);
    }
  }

  lemma OneMoreLun(disks: seq<Disk>, d: Disk, k: int)
    ensures HasLun(disks + [d], k) <==> HasLun(disks, k) || d.lun == Some(k)
  {
    if d.lun == Some(k) {
      assert d in disks + [d];
    }
    if HasLun(disks, k) {
      var e :| e in disks && e.lun == Some(k);
      assert e in disks + [d];
    }
  }

  // ---------- the loop of DetachDisk ----------

  // Where the disk now at position j came from, with `rest` of n disks left in the slice.
  function Origin(n: nat, rest: nat, j: nat): nat
    requires rest <= n && j < n
  {
    if j + (n - rest) < n then j + (n - rest) else n - 1
  }

  // From position i on, every removal so far has brought the disks one position closer.
  ghost predicate Shifted(a: seq<Disk>, s: seq<Disk>, i: nat, rest: nat) {
    && |a| == |s| && rest <= |s| && i <= |s|
    && forall j :: i <= j < |s| ==> a[j] == s[Origin(|s|, rest, j)]
  }

  // The part behind position i is settled.
  ghost predicate Settled(a: seq<Disk>, s: seq<Disk>, name: string, i: nat, rest: nat)
    requires Shifted(a, s, i, rest)
  {
    if i <= rest then a[..i] + Swept(s[i + (|s| - rest)..], name) == Swept(s, name)
    else a[..rest] == Swept(s, name)
  }

  // A disk was removed exactly when one of the name stands in the original list before position i.
  ghost predicate Noted(a: seq<Disk>, s: seq<Disk>, name: string, i: nat, rest: nat) {
    && (rest < |s| <==> exists m :: 0 <= m < i <= |s| && Named(s[m], name))
    && (i == |s| ==> !LastIsRepeated(s, name))
    && (rest == |s| ==> a == s)
  }

  ghost predicate Sweeping(a: seq<Disk>, s: seq<Disk>, name: string, i: nat, rest: nat) {
    Shifted(a, s, i, rest) && Settled(a, s, name, i, rest) && Noted(a, s, name, i, rest)
  }

  lemma KeepOneSettled(a: seq<Disk>, s: seq<Disk>, name: string, i: nat, rest: nat)
    requires Shifted(a, s, i, rest) && Settled(a, s, name, i, rest) && i < |s| && !Named(a[i], name)
    ensures Shifted(a, s, i + 1, rest) && Settled(a, s, name, i + 1, rest)
  {
    if i < rest {
      var p := i + (|s| - rest);
      SweptAfter(s, p, name);
      assert a[i] == s[Origin(|s|, rest, i)] == s[p];
      assert a[..i + 1] == a[..i] + [a[i]];
      if i + 1 == rest {
        assert s[p + 1..] == [];
      }
    } else if i == rest {
      assert s[|s|..] == [];
    }
  }

  lemma KeepOne(a: seq<Disk>, s: seq<Disk>, name: string, i: nat, rest: nat)
    requires Sweeping(a, s, name, i, rest) && i < |s| && !Named(a[i], name)
    ensures Sweeping(a, s, name, i + 1, rest)
  {
    KeepOneSettled(a, s, name, i, rest);
    SeenNames(a, s, name, i, rest);
  }

  // Moving the rest of the slice down over position i.
  function MovedDown(a: seq<Disk>, i: nat, rest: nat): (a': seq<Disk>)
    requires i < rest <= |a|
    ensures |a'| == |a|
    ensures forall j :: 0 <= j < |a| ==> a'[j] == a[if i <= j < rest - 1 then j + 1 else j]
  {
    a[..i] + a[i + 1..rest] + a[rest - 1..]
  }

  lemma DropOneShifted(a: seq<Disk>, s: seq<Disk>, i: nat, rest: nat)
    requires Shifted(a, s, i, rest) && i < rest
    ensures Shifted(MovedDown(a, i, rest), s, i + 1, rest - 1)
  {
    var a' := MovedDown(a, i, rest);
    forall j | i + 1 <= j < |s|
      ensures a'[j] == s[Origin(|s|, rest - 1, j)]
    {
      var from := if j < rest - 1 then j + 1 else j;
      assert a'[j] == a[from] == s[Origin(|s|, rest, from)];
    }
  }

  // The front of the array after the removal.
  lemma MovedFront(a: seq<Disk>, s: seq<Disk>, i: nat, rest: nat)
    requires Shifted(a, s, i, rest) && i < rest
    ensures a[i] == s[i + (|s| - rest)] && MovedDown(a, i, rest)[..i] == a[..i]
    ensures i + 1 < rest ==> MovedDown(a, i, rest)[..i + 1] == a[..i] + [s[i + (|s| - rest) + 1]]
  {
    assert a[i] == s[Origin(|s|, rest, i)];
    if i + 1 < rest {
      assert MovedDown(a, i, rest)[i] == a[i + 1] == s[Origin(|s|, rest, i + 1)];
    }
  }

  lemma DropOneSettled(a: seq<Disk>, s: seq<Disk>, name: string, i: nat, rest: nat)
    requires Shifted(a, s, i, rest) && Settled(a, s, name, i, rest) && i < rest && Named(a[i], name)
    requires Shifted(MovedDown(a, i, rest), s, i + 1, rest - 1)
    ensures Settled(MovedDown(a, i, rest), s, name, i + 1, rest - 1)
  {
    var a', p := MovedDown(a, i, rest), i + (|s| - rest);
    SweptAfter(s, p, name);
    MovedFront(a, s, i, rest);
    if i + 1 < rest {
      Associate(a[..i], [s[p + 1]], Swept(s[p + 2..], name));
    } else {
      assert a[..i] + [] == a[..i];
    }
  }

  lemma Associate(x: seq<Disk>, y: seq<Disk>, z: seq<Disk>)
    ensures (x + y) + z == x + (y + z)
  {
  }

  lemma DropOne(a: seq<Disk>, s: seq<Disk>, name: string, i: nat, rest: nat)
    requires Sweeping(a, s, name, i, rest) && i < rest && Named(a[i], name)
    ensures Sweeping(MovedDown(a, i, rest), s, name, i + 1, rest - 1)
  {
    DropOneShifted(a, s, i, rest);
    DropOneSettled(a, s, name, i, rest);
    SeenNames(a, s, name, i, rest);
  }

  // A name met in the array is one met in the original list, up to this position.
  lemma SeenNames(a: seq<Disk>, s: seq<Disk>, name: string, i: nat, rest: nat)
    requires Shifted(a, s, i, rest) && Noted(a, s, name, i, rest) && i < |s| && (Named(a[i], name) ==> i < rest)
    ensures Named(a[i], name) || rest < |s| <==> exists m :: 0 <= m < i + 1 && Named(s[m], name)
    ensures i + 1 == |s| ==> !LastIsRepeated(s, name)
  {
    if Named(s[i], name) && rest == |s| {
      assert Named(a[i], name);
    }
    if rest < |s| {
      var m :| 0 <= m < i && Named(s[m], name);
      assert i + 1 == |s| ==> a[i] == s[Origin(|s|, rest, i)] == s[|s| - 1];
    }
  }

  lemma CrashMeans(a: seq<Disk>, s: seq<Disk>, name: string, i: nat, rest: nat)
    requires Sweeping(a, s, name, i, rest) && rest <= i < |s| && Named(a[i], name)
    ensures Detach(s, name) == Crashed
  {
    var m :| 0 <= m < i && Named(s[m], name);
    assert a[i] == s[Origin(|s|, rest, i)] == s[|s| - 1];
  }

  lemma SweepingBegins(s: seq<Disk>, name: string)
    ensures Sweeping(s, s, name, 0, |s|)
  {
    assert s[0..] == s && s[..0] + Swept(s, name) == Swept(s, name);
  }

  // What detaching comes to, with `rest` of the disks left at the front of the array.
  ghost predicate SweptTo(a: seq<Disk>, s: seq<Disk>, name: string, rest: nat) {
    && |a| == |s| && rest <= |s| && (rest == |s| ==> a == s)
    && Detach(s, name) == if rest == |s| then NotAttached else Detached(a[..rest])
  }

  lemma SweepingDone(a: seq<Disk>, s: seq<Disk>, name: string, rest: nat)
    requires Sweeping(a, s, name, |s|, rest)
    ensures SweptTo(a, s, name, rest)
  {
  }

  lemma SweptAfter(s: seq<Disk>, p: nat, name: string)
    requires p < |s|
    ensures Swept(s[p..], name) ==
            if !Named(s[p], name) then [s[p]] + Swept(s[p + 1..], name)
            else if p + 1 == |s| then [] else [s[p + 1]] + Swept(s[p + 2..], name)
  {
    assert s[p..][1..] == s[p + 1..];
    if p + 1 < |s| {
      assert s[p..][2..] == s[p + 2..];
    }
  }
}
