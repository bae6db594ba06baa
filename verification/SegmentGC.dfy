/** Choosing segments for garbage collection from a volume's manifest. */
module SegmentGC {
  import opened Wrappers

  // Fullness is a float64, taken as a real number here.
  datatype Segment = Segment(age: nat, log: bool, reserved: bool, fullness: real)

  datatype Parcel = Parcel(parcelIndex: nat, segments: seq<Segment>)

  datatype Device = Device(parcels: seq<Parcel>)

  // A segment and where it is: the index its parcel carries, and its position in the parcel.
  datatype Place = Place(parcelIndex: nat, position: nat, segment: Segment)

  // What is sent to nuvo. The position is cut to 32 bits.
  datatype Trigger = Trigger(parcelIndex: nat, segmentIndex: nat)

  function TriggerOf(p: Place): Trigger {
    Trigger(p.parcelIndex, p.position % 0x1_0000_0000)
  }

  predicate Collectable(s: Segment) {
    !s.reserved && !s.log && s.age != 0
  }

  // ---------- the collectable segments in the order of the manifest ----------

  function InParcel(p: Parcel, n: nat): seq<Place>
    requires n <= |p.segments|
  {
    if n == 0 then []
    else
      var s := p.segments[n - 1];
      InParcel(p, n - 1) + (if Collectable(s) then [Place(p.parcelIndex, n - 1, s)] else [])
  }

  function InDevice(d: Device, n: nat): seq<Place>
    requires n <= |d.parcels|
  {
    if n == 0 then [] else InDevice(d, n - 1) + InParcel(d.parcels[n - 1], |d.parcels[n - 1].segments|)
  }

  function InDevices(devices: seq<Device>, n: nat): seq<Place>
    requires n <= |devices|
  {
    if n == 0 then [] else InDevices(devices, n - 1) + InDevice(devices[n - 1], |devices[n - 1].parcels|)
  }

  function Candidates(devices: seq<Device>): seq<Place> {
    InDevices(devices, |devices|)
  }

  // The candidates that the loops have seen, before a parcel and before a segment.
  function SeenParcels(devices: seq<Device>, d: nat, p: nat): seq<Place>
    requires d < |devices| && p <= |devices[d].parcels|
  {
    InDevices(devices, d) + InDevice(devices[d], p)
  }

  function Seen(devices: seq<Device>, d: nat, p: nat, s: nat): seq<Place>
    requires d < |devices| && p < |devices[d].parcels| && s <= |devices[d].parcels[p].segments|
  {
    SeenParcels(devices, d, p) + InParcel(devices[d].parcels[p], s)
  }

  lemma DeviceSeen(devices: seq<Device>, d: nat)
    requires d < |devices|
    ensures SeenParcels(devices, d, 0) == InDevices(devices, d)
    ensures SeenParcels(devices, d, |devices[d].parcels|) == InDevices(devices, d + 1)
  {
  }

  lemma ParcelSeen(devices: seq<Device>, d: nat, p: nat)
    requires d < |devices| && p < |devices[d].parcels|
    ensures Seen(devices, d, p, 0) == SeenParcels(devices, d, p)
    ensures Seen(devices, d, p, |devices[d].parcels[p].segments|) == SeenParcels(devices, d, p + 1)
  {
  }

  ghost predicate IsPlace(devices: seq<Device>, d: nat, p: nat, s: nat, c: Place) {
    && d < |devices| && p < |devices[d].parcels| && s < |devices[d].parcels[p].segments|
    && c == Place(devices[d].parcels[p].parcelIndex, s, devices[d].parcels[p].segments[s])
    && Collectable(c.segment)
  }

  lemma {:induction false} InParcelMembers(p: Parcel, n: nat, c: Place)
    requires n <= |p.segments|
    ensures c in InParcel(p, n) <==>
            exists s: nat :: s < n && c == Place(p.parcelIndex, s, p.segments[s]) && Collectable(p.segments[s])
  {
    if n > 0 {
      InParcelMembers(p, n - 1, c);
      if c == Place(p.parcelIndex, n - 1, p.segments[n - 1]) && Collectable(p.segments[n - 1]) {
        assert c in InParcel(p, n);
      }
    }
  }

  lemma {:induction false} InDeviceMembers(d: Device, n: nat, c: Place)
    requires n <= |d.parcels|
    ensures c in InDevice(d, n) <==> exists p: nat :: p < n && c in InParcel(d.parcels[p], |d.parcels[p].segments|)
  {
    if n > 0 {
      InDeviceMembers(d, n - 1, c);
    }
  }

  lemma {:induction false} InDevicesMembers(devices: seq<Device>, n: nat, c: Place)
    requires n <= |devices|
    ensures c in InDevices(devices, n) <==> exists d: nat :: d < n && c in InDevice(devices[d], |devices[d].parcels|)
  {
    if n > 0 {
      InDevicesMembers(devices, n - 1, c);
    }
  }

  // The candidates are exactly the collectable segments of all parcels of all devices.
  lemma CandidatesAreTheCollectable(devices: seq<Device>, c: Place)
    ensures c in Candidates(devices) <==> exists d: nat, p: nat, s: nat :: IsPlace(devices, d, p, s, c)
  {
    InDevicesMembers(devices, |devices|, c);
    if c in Candidates(devices) {
      var d: nat :| d < |devices| && c in InDevice(devices[d], |devices[d].parcels|);
      InDeviceMembers(devices[d], |devices[d].parcels|, c);
      var p: nat :| p < |devices[d].parcels| && c in InParcel(devices[d].parcels[p], |devices[d].parcels[p].segments|);
      var parcel := devices[d].parcels[p];
      InParcelMembers(parcel, |parcel.segments|, c);
      var s: nat :| s < |parcel.segments| && c == Place(parcel.parcelIndex, s, parcel.segments[s]) &&
        Collectable(parcel.segments[s]);
      assert IsPlace(devices, d, p, s, c);
    }
    if d: nat, p: nat, s: nat :| IsPlace(devices, d, p, s, c) {
      var parcel := devices[d].parcels[p];
      InParcelMembers(parcel, |parcel.segments|, c);
      assert c in InParcel(parcel, |parcel.segments|);
      InDeviceMembers(devices[d], |devices[d].parcels|, c);
    }
  }

  lemma SeenOneMore(devices: seq<Device>, d: nat, p: nat, s: nat)
    requires d < |devices| && p < |devices[d].parcels| && s < |devices[d].parcels[p].segments|
    ensures var parcel := devices[d].parcels[p];
            if Collectable(parcel.segments[s])
            then Seen(devices, d, p, s + 1) ==
                 Seen(devices, d, p, s) + [Place(parcel.parcelIndex, s, parcel.segments[s])]
            else Seen(devices, d, p, s + 1) == Seen(devices, d, p, s)
  {
  }

  lemma {:induction false} InDevicePrefix(d: Device, m: nat, n: nat)
    requires m <= n <= |d.parcels|
    ensures InDevice(d, m) <= InDevice(d, n)
  {
    if m < n {
      InDevicePrefix(d, m, n - 1);
    }
  }

  lemma {:induction false} InDevicesPrefix(devices: seq<Device>, m: nat, n: nat)
    requires m <= n <= |devices|
    ensures InDevices(devices, m) <= InDevices(devices, n)
  {
    if m < n {
      InDevicesPrefix(devices, m, n - 1);
    }
  }

  lemma {:induction false} InParcelPrefix(p: Parcel, m: nat, n: nat)
    requires m <= n <= |p.segments|
    ensures InParcel(p, m) <= InParcel(p, n)
  {
    if m < n {
      InParcelPrefix(p, m, n - 1);
    }
  }

  // What the loops have seen is how the candidates begin.
  lemma SeenIsPrefix(devices: seq<Device>, d: nat, p: nat, s: nat)
    requires d < |devices| && p < |devices[d].parcels| && s <= |devices[d].parcels[p].segments|
    ensures Seen(devices, d, p, s) <= Candidates(devices)
  {
    var dev := devices[d];
    var parcel := dev.parcels[p];
    InParcelPrefix(parcel, s, |parcel.segments|);
    InDevicePrefix(dev, p + 1, |dev.parcels|);
    InDevicesPrefix(devices, d + 1, |devices|);
    var before := InDevices(devices, d);
    PrefixBehind(InDevice(dev, p), InParcel(parcel, s), InParcel(parcel, |parcel.segments|));
    assert InDevice(dev, p) + InParcel(parcel, s) <= InDevice(dev, p + 1) <= InDevice(dev, |dev.parcels|);
    PrefixBehind(before, InDevice(dev, p) + InParcel(parcel, s), InDevice(dev, |dev.parcels|));
    assert Seen(devices, d, p, s) == before + (InDevice(dev, p) + InParcel(parcel, s));
    assert before + InDevice(dev, |dev.parcels|) == InDevices(devices, d + 1);
  }

  lemma PrefixBehind(a: seq<Place>, b: seq<Place>, c: seq<Place>)
    requires b <= c
    ensures a + b <= a + c
  {
  }

  // ---------- the best segment ----------

  // The choice made while going through the candidates: a later one replaces the choice if it is better.
  function Chosen(cs: seq<Place>, better: (Segment, Segment) -> bool): Option<Place> {
    if cs == [] then None
    else
      var c, before := cs[|cs| - 1], Chosen(cs[..|cs| - 1], better);
      if before.None? || better(c.segment, before.value.segment) then Some(c) else before
  }

  lemma ChosenOneMore(cs: seq<Place>, c: Place, better: (Segment, Segment) -> bool)
    ensures var before := Chosen(cs, better);
            Chosen(cs + [c], better) == if before.None? || better(c.segment, before.value.segment)
              then Some(c) else before
  {
    assert (cs + [c])[..|cs|] == cs;
  }

  ghost predicate StrictWeakOrder(better: (Segment, Segment) -> bool) {
    && (forall a :: !better(a, a))
    && (forall a, b, c :: better(a, b) && better(b, c) ==> better(a, c))
    && (forall a, b, c :: !better(a, b) && !better(b, c) ==> !better(a, c))
  }

  ghost predicate Unbeaten(cs: seq<Place>, better: (Segment, Segment) -> bool, i: nat) {
    i < |cs| && forall k :: 0 <= k < |cs| ==> !better(cs[k].segment, cs[i].segment)
  }

  ghost predicate FirstUnbeaten(cs: seq<Place>, better: (Segment, Segment) -> bool, i: nat) {
    Unbeaten(cs, better, i) && forall j: nat :: j < i ==> !Unbeaten(cs, better, j)
  }

  // What beats b beats all that do not beat b.
  lemma BeatsAlso(better: (Segment, Segment) -> bool, a: Segment, b: Segment, c: Segment)
    requires StrictWeakOrder(better) && better(a, b) && !better(c, b)
    ensures better(a, c) && !better(c, a)
  {
  }

  lemma BetterIsChosen(cs: seq<Place>, c: Place, better: (Segment, Segment) -> bool, i: nat)
    requires StrictWeakOrder(better) && Unbeaten(cs, better, i) && better(c.segment, cs[i].segment)
    ensures FirstUnbeaten(cs + [c], better, |cs|)
  {
    var all := cs + [c];
    forall k | 0 <= k < |cs|
      ensures better(all[|cs|].segment, all[k].segment) && !better(all[k].segment, all[|cs|].segment)
    {
      BeatsAlso(better, c.segment, cs[i].segment, cs[k].segment);
    }
    assert !better(c.segment, c.segment);
    forall j: nat | j < |cs|
      ensures !Unbeaten(all, better, j)
    {
      assert better(all[|cs|].segment, all[j].segment);
    }
  }

  lemma OtherIsNotChosen(cs: seq<Place>, c: Place, better: (Segment, Segment) -> bool, i: nat)
    requires FirstUnbeaten(cs, better, i) && !better(c.segment, cs[i].segment)
    ensures FirstUnbeaten(cs + [c], better, i)
  {
    var all := cs + [c];
    assert forall k :: 0 <= k < |cs| ==> all[k] == cs[k];
    forall j: nat | j < i
      ensures !Unbeaten(all, better, j)
    {
      assert !Unbeaten(cs, better, j);
    }
  }

  // For a strict weak order the choice is the first candidate that no candidate beats.
  lemma {:induction false} ChosenIsFirstUnbeaten(cs: seq<Place>, better: (Segment, Segment) -> bool)
    requires StrictWeakOrder(better)
    ensures Chosen(cs, better).None? <==> cs == []
    ensures cs != [] ==> exists i: nat :: FirstUnbeaten(cs, better, i) && Chosen(cs, better) == Some(cs[i])
  {
    if |cs| == 1 {
      assert FirstUnbeaten(cs, better, 0);
    } else if |cs| > 1 {
      var front, c := cs[..|cs| - 1], cs[|cs| - 1];
      ChosenIsFirstUnbeaten(front, better);
      var i: nat :| FirstUnbeaten(front, better, i) && Chosen(front, better) == Some(front[i]);
      assert cs == front + [c];
      if better(c.segment, front[i].segment) {
        BetterIsChosen(front, c, better, i);
      } else {
        OtherIsNotChosen(front, c, better, i);
        assert cs[i] == front[i];
      }
    }
  }

  // None exactly when no segment is collectable; otherwise the first collectable segment that no
  // collectable segment beats.
  ghost predicate IsBest(devices: seq<Device>, better: (Segment, Segment) -> bool, best: Option<Trigger>) {
    var cs := Candidates(devices);
    if best.None? then !exists c, d: nat, p: nat, s: nat :: IsPlace(devices, d, p, s, c)
    else exists i: nat :: FirstUnbeaten(cs, better, i) && best == Some(TriggerOf(cs[i]))
  }

  lemma ChosenIsBest(devices: seq<Device>, better: (Segment, Segment) -> bool)
    requires StrictWeakOrder(better)
    ensures var choice := Chosen(Candidates(devices), better);
            IsBest(devices, better, if choice.Some? then Some(TriggerOf(choice.value)) else None)
  {
    var cs := Candidates(devices);
    ChosenIsFirstUnbeaten(cs, better);
    if c, d: nat, p: nat, s: nat :| IsPlace(devices, d, p, s, c) {
      CandidatesAreTheCollectable(devices, c);
    }
  }

  method ManifestBest(devices: seq<Device>, better: (Segment, Segment) -> bool) returns (best: Option<Trigger>)
    ensures StrictWeakOrder(better) ==> IsBest(devices, better, best)
    ensures best == if Chosen(Candidates(devices), better).Some?
            then Some(TriggerOf(Chosen(Candidates(devices), better).value)) else None
  {
    var choice: Option<Place> := None;
    for d := 0 to |devices|
      invariant choice == Chosen(InDevices(devices, d), better)
    {
      DeviceSeen(devices, d);
      for p := 0 to |devices[d].parcels|
        invariant choice == Chosen(SeenParcels(devices, d, p), better)
      {
        ParcelSeen(devices, d, p);
        var parcel := devices[d].parcels[p];
        for s := 0 to |parcel.segments|
          invariant choice == Chosen(Seen(devices, d, p, s), better)
        {
          SeenOneMore(devices, d, p, s);
          var segment := parcel.segments[s];
          if !Collectable(segment) {
            continue;
          }
          ChosenOneMore(Seen(devices, d, p, s), Place(parcel.parcelIndex, s, segment), better);
          if choice.None? || better(segment, choice.value.segment) {
            choice := Some(Place(parcel.parcelIndex, s, segment));
          }
        }
      }
    }
    best := if choice.Some? then Some(TriggerOf(choice.value)) else None;
    if StrictWeakOrder(better) {
      ChosenIsBest(devices, better);
    }
  }

  // ---------- the policies ----------

  predicate Older(a: Segment, b: Segment) {
    a.age < b.age
  }

  predicate Younger(a: Segment, b: Segment) {
    a.age > b.age
  }

  predicate Fuller(a: Segment, b: Segment) {
    a.fullness > b.fullness
  }

  predicate Emptier(a: Segment, b: Segment) {
    a.fullness < b.fullness
  }

  lemma PoliciesAreOrders()
    ensures StrictWeakOrder(Older) && StrictWeakOrder(Younger) && StrictWeakOrder(Fuller) && StrictWeakOrder(Emptier)
  {
  }

  // ---------- what the policies choose ----------

  // A segment that is neither reserved nor of the log, and has an age.
  ghost predicate InUseAt(devices: seq<Device>, d: nat, p: nat, s: nat) {
    && d < |devices| && p < |devices[d].parcels| && s < |devices[d].parcels[p].segments|
    && !SegmentAt(devices, d, p, s).reserved && !SegmentAt(devices, d, p, s).log
    && SegmentAt(devices, d, p, s).age > 0
  }

  function SegmentAt(devices: seq<Device>, d: nat, p: nat, s: nat): Segment
    requires d < |devices| && p < |devices[d].parcels| && s < |devices[d].parcels[p].segments|
  {
    devices[d].parcels[p].segments[s]
  }

  // The trigger is for the segment at d, p, s: its parcel's index, and its position cut to 32 bits.
  ghost predicate IsFor(devices: seq<Device>, d: nat, p: nat, s: nat, best: Option<Trigger>) {
    && InUseAt(devices, d, p, s) && best.Some?
    && best.value.parcelIndex == devices[d].parcels[p].parcelIndex && best.value.segmentIndex == s % 0x1_0000_0000
  }

  lemma BestIsUnbeaten(devices: seq<Device>, better: (Segment, Segment) -> bool, best: Option<Trigger>)
    returns (d: nat, p: nat, s: nat)
    requires IsBest(devices, better, best) && best.Some?
    ensures IsFor(devices, d, p, s, best)
    ensures forall d': nat, p': nat, s': nat :: InUseAt(devices, d', p', s') ==>
              !better(SegmentAt(devices, d', p', s'), SegmentAt(devices, d, p, s))
  {
    var cs := Candidates(devices);
    var i: nat :| FirstUnbeaten(cs, better, i) && best == Some(TriggerOf(cs[i]));
    CandidatesAreTheCollectable(devices, cs[i]);
    d, p, s :| IsPlace(devices, d, p, s, cs[i]);
    forall d': nat, p': nat, s': nat | InUseAt(devices, d', p', s')
      ensures !better(SegmentAt(devices, d', p', s'), SegmentAt(devices, d, p, s))
    {
      var c := Place(devices[d'].parcels[p'].parcelIndex, s', SegmentAt(devices, d', p', s'));
      assert IsPlace(devices, d', p', s', c);
      CandidatesAreTheCollectable(devices, c);
      var k :| 0 <= k < |cs| && cs[k] == c;
      assert !better(cs[k].segment, cs[i].segment);
    }
  }

  lemma NoneIfUnused(devices: seq<Device>, better: (Segment, Segment) -> bool, best: Option<Trigger>)
    requires IsBest(devices, better, best)
    ensures best.None? <==> forall d: nat, p: nat, s: nat :: !InUseAt(devices, d, p, s)
  {
    if best.Some? {
      var d, p, s := BestIsUnbeaten(devices, better, best);
    } else if d: nat, p: nat, s: nat :| InUseAt(devices, d, p, s) {
      var c := Place(devices[d].parcels[p].parcelIndex, s, SegmentAt(devices, d, p, s));
      assert IsPlace(devices, d, p, s, c);
    }
  }

  // By age the segment chosen has the least age of all that are in use, or the greatest.
  lemma BestByAge(devices: seq<Device>, oldest: Option<Trigger>, youngest: Option<Trigger>)
    requires IsBest(devices, Older, oldest) && IsBest(devices, Younger, youngest)
    ensures oldest.Some? ==> exists d: nat, p: nat, s: nat ::
              && IsFor(devices, d, p, s, oldest)
              && (forall d': nat, p': nat, s': nat :: InUseAt(devices, d', p', s') ==>
                    SegmentAt(devices, d, p, s).age <= SegmentAt(devices, d', p', s').age)
    ensures youngest.Some? ==> exists d: nat, p: nat, s: nat ::
              && IsFor(devices, d, p, s, youngest)
              && (forall d': nat, p': nat, s': nat :: InUseAt(devices, d', p', s') ==>
                    SegmentAt(devices, d, p, s).age >= SegmentAt(devices, d', p', s').age)
  {
    if oldest.Some? {
      var d, p, s := BestIsUnbeaten(devices, Older, oldest);
    }
    if youngest.Some? {
      var d, p, s := BestIsUnbeaten(devices, Younger, youngest);
    }
  }

  // By fullness it is the fullest of them, or the emptiest.
  lemma BestByFullness(devices: seq<Device>, fullest: Option<Trigger>, emptiest: Option<Trigger>)
    requires IsBest(devices, Fuller, fullest) && IsBest(devices, Emptier, emptiest)
    ensures fullest.Some? ==> exists d: nat, p: nat, s: nat ::
              && IsFor(devices, d, p, s, fullest)
              && (forall d': nat, p': nat, s': nat :: InUseAt(devices, d', p', s') ==>
                    SegmentAt(devices, d, p, s).fullness >= SegmentAt(devices, d', p', s').fullness)
    ensures emptiest.Some? ==> exists d: nat, p: nat, s: nat ::
              && IsFor(devices, d, p, s, emptiest)
              && (forall d': nat, p': nat, s': nat :: InUseAt(devices, d', p', s') ==>
                    SegmentAt(devices, d, p, s).fullness <= SegmentAt(devices, d', p', s').fullness)
  {
    if fullest.Some? {
      var d, p, s := BestIsUnbeaten(devices, Fuller, fullest);
    }
    if emptiest.Some? {
      var d, p, s := BestIsUnbeaten(devices, Emptier, emptiest);
    }
  }

  // ---------- all segments ----------

  function Triggers(cs: seq<Place>): (ts: seq<Trigger>)
    ensures |ts| == |cs| && forall i :: 0 <= i < |cs| ==> ts[i] == TriggerOf(cs[i])
  {
    seq(|cs|, i requires 0 <= i < |cs| => TriggerOf(cs[i]))
  }

  // Exactly these candidates have been triggered, in this order, and all triggers worked.
  ghost predicate AllWorked(triggered: seq<Trigger>, cs: seq<Place>, works: nat -> bool) {
    triggered == Triggers(cs) && forall k: nat :: k < |triggered| ==> works(k)
  }

  lemma WorkedOneMore(triggered: seq<Trigger>, cs: seq<Place>, c: Place, works: nat -> bool)
    requires AllWorked(triggered, cs, works)
    ensures triggered + [TriggerOf(c)] == Triggers(cs + [c])
    ensures works(|triggered|) ==> AllWorked(triggered + [TriggerOf(c)], cs + [c], works)
  {
  }

  lemma TriggersBegin(cs: seq<Place>, all: seq<Place>)
    requires cs <= all
    ensures Triggers(cs) <= Triggers(all)
  {
  }

  // All candidates up to some position have been triggered, the last of them in vain.
  ghost predicate LastFailed(triggered: seq<Trigger>, cs: seq<Place>, works: nat -> bool) {
    && triggered <= Triggers(cs) && triggered != []
    && !works(|triggered| - 1) && forall k: nat :: k < |triggered| - 1 ==> works(k)
  }

  lemma FailedOneMore(triggered: seq<Trigger>, cs: seq<Place>, c: Place, all: seq<Place>, works: nat -> bool)
    requires AllWorked(triggered, cs, works) && cs + [c] <= all && !works(|triggered|)
    ensures LastFailed(triggered + [TriggerOf(c)], all, works)
  {
    WorkedOneMore(triggered, cs, c, works);
    TriggersBegin(cs + [c], all);
  }

  // The loop over the segments of a parcel, after `before` was triggered.
  method GcParcel(devices: seq<Device>, d: nat, p: nat, works: nat -> bool, before: seq<Trigger>)
    returns (triggered: seq<Trigger>, ok: bool)
    requires d < |devices| && p < |devices[d].parcels| && AllWorked(before, SeenParcels(devices, d, p), works)
    ensures if ok then AllWorked(triggered, SeenParcels(devices, d, p + 1), works)
            else LastFailed(triggered, Candidates(devices), works)
  {
    ParcelSeen(devices, d, p);
    triggered, ok := before, true;
    var parcel := devices[d].parcels[p];
    for s := 0 to |parcel.segments|
      invariant AllWorked(triggered, Seen(devices, d, p, s), works)
    {
      SeenOneMore(devices, d, p, s);
      if !Collectable(parcel.segments[s]) {
        continue;
      }
      ghost var cs, c := Seen(devices, d, p, s), Place(parcel.parcelIndex, s, parcel.segments[s]);
      WorkedOneMore(triggered, cs, c, works);
      if !works(|triggered|) {
        SeenIsPrefix(devices, d, p, s + 1);
        FailedOneMore(triggered, cs, c, Candidates(devices), works);
        return triggered + [Trigger(parcel.parcelIndex, s % 0x1_0000_0000)], false;
      }
      triggered := triggered + [Trigger(parcel.parcelIndex, s % 0x1_0000_0000)];
    }
  }

  // works says how the n-th trigger goes. All collectable segments are triggered in order, up to and
  // including the first failure.
  method GcAll(devices: seq<Device>, works: nat -> bool) returns (triggered: seq<Trigger>, ok: bool)
    ensures if ok then AllWorked(triggered, Candidates(devices), works)
            else LastFailed(triggered, Candidates(devices), works)
  {
    triggered, ok := [], true;
    for d := 0 to |devices|
      invariant AllWorked(triggered, InDevices(devices, d), works)
    {
      DeviceSeen(devices, d);
      for p := 0 to |devices[d].parcels|
        invariant AllWorked(triggered, SeenParcels(devices, d, p), works)
      {
        triggered, ok := GcParcel(devices, d, p, works, triggered);
        if !ok {
          return;
        }
      }
    }
    ok := true;
  }
}
