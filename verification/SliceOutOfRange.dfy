/** Exactly when the recycling loop, as it is written, reads out of range. */
module SliceOutOfRange {
  import opened Seqs
  import opened SliceModel
  import opened SliceFinalize
  import opened SliceLaws
  import opened SliceRuns
  import opened SliceTheorems
  import opened SliceConvergence
  import opened SliceProgress

  // ---- What step 1 drops and leaves room in, told from the listing alone ----

  ghost function HeldKeys(ss: seq<SliceVal>): set<Key> {
    if ss == [] then {} else HeldKeys(ss[..|ss| - 1]) + KeysOf(ss[|ss| - 1].endpoints)
  }

  /** How many desired keys this slice holds that none seen before it does. */
  ghost function Gains(s: SliceVal, seen: set<Key>, c: Setting): nat {
    |KeysOf(s.endpoints) * (c.wanted.Keys - seen)|
  }

  /** It holds none, and is not just an empty slice with the right ports and labels. */
  ghost predicate Dropped(s: SliceVal, seen: set<Key>, c: Setting) {
    Gains(s, seen, c) == 0 && (s.endpoints != [] || s.ports != c.svc.ports || EnsureLabels(s.labels, c.svc) != s.labels)
  }

  ghost function RoomFor(s: SliceVal, seen: set<Key>, c: Setting): nat {
    if Dropped(s, seen, c) then 0 else Minus(c.max, Gains(s, seen, c))
  }

  ghost function RoomLeft(ss: seq<SliceVal>, c: Setting): nat {
    if ss == [] then 0 else RoomLeft(ss[..|ss| - 1], c) + RoomFor(ss[|ss| - 1], HeldKeys(ss[..|ss| - 1]), c)
  }

  /** A dropped slice of this type that the Service owns. */
  ghost predicate DropsOwned(ss: seq<SliceVal>, c: Setting) {
    exists i :: DropsAt(ss, i, c)
  }

  ghost predicate DropsAt(ss: seq<SliceVal>, i: int, c: Setting) {
    0 <= i < |ss| && Dropped(ss[i], HeldKeys(ss[..i]), c) && Mine(ss[i], c)
  }

  predicate Mine(s: SliceVal, c: Setting) {
    s.addressType == c.addressType && OwnedBy(s, c.svc)
  }

  lemma {:induction false} HeldStored(ss: seq<SliceVal>, k: Key)
    ensures k in HeldKeys(ss) <==> Stored(ss, k) > 0
  {
    if ss != [] {
      HeldStored(ss[..|ss| - 1], k);
      KeysCount(ss[|ss| - 1].endpoints);
    }
  }

  lemma CoverGains(eps: seq<Endpoint>, w: Wanted)
    ensures |CoverOf(eps, w).covered| == |KeysOf(eps) * w.Keys|
  {
    var covered := CoverOf(eps, w).covered;
    KeysCount(eps);
    KeysCount(covered);
    forall k ensures KeyCount(covered, k) <= 1 && (KeyCount(covered, k) > 0 <==> k in KeysOf(eps) * w.Keys) {
      CoverLaw(eps, w, k);
    }
    assert KeysOf(covered) == KeysOf(eps) * w.Keys;
  }

  lemma ClassifyLeft(ss: seq<SliceVal>, c: Setting)
    ensures Classify(ss, c.svc, c.wanted).wanted.Keys == c.wanted.Keys - HeldKeys(ss)
  {
    var r := Classify(ss, c.svc, c.wanted);
    forall k ensures k in r.wanted <==> k in c.wanted.Keys - HeldKeys(ss) {
      ClassifyLaw(ss, c.svc, c.wanted, k, "");
      HeldStored(ss, k);
    }
  }

  lemma SettleDrops(s: SliceVal, seen: set<Key>, c: Setting, rest: Wanted)
    requires rest.Keys == c.wanted.Keys - seen
    ensures var x := Settle(s, c.svc, rest);
            && (x.fate == Drop <==> Dropped(s, seen, c))
            && (x.fate != Drop ==> |x.slice.endpoints| == Gains(s, seen, c))
            && (Mine(x.slice, c) <==> Mine(s, c))
  {
    CoverGains(s.endpoints, rest);
  }

  ghost predicate DeletesOwned(ds: seq<SliceVal>, c: Setting) {
    exists i :: 0 <= i < |ds| && Mine(ds[i], c)
  }

  lemma PlaceRooms(r: Sorted, x: Settled, c: Setting)
    ensures SpareRoom(Place(r, x), c.max) == SpareRoom(r, c.max) + if x.fate == Drop then 0 else Room(x.slice, c.max)
    ensures DeletesOwned(Place(r, x).deletes, c) <==> DeletesOwned(r.deletes, c) || (x.fate == Drop && Mine(x.slice, c))
  {
    match x.fate
    case Keep => TotalRoomPush(r.untouched, x.slice, c.max);
    case Change => TotalRoomPush(r.updates, x.slice, c.max);
    case Drop =>
      var ds := r.deletes + [x.slice];
      assert Mine(x.slice, c) ==> Mine(ds[|r.deletes|], c);
      assert forall i :: 0 <= i < |r.deletes| ==> ds[i] == r.deletes[i];
  }

  lemma DropsBefore(ss: seq<SliceVal>, i: int, c: Setting)
    requires ss != [] && i < |ss| - 1
    ensures DropsAt(ss, i, c) <==> DropsAt(ss[..|ss| - 1], i, c)
  {
    if i >= 0 {
      assert ss[..|ss| - 1][i] == ss[i] && ss[..|ss| - 1][..i] == ss[..i];
    }
  }

  lemma DropsForward(ss: seq<SliceVal>, i: int, c: Setting)
    requires DropsAt(ss, i, c)
    ensures DropsAt(ss, |ss| - 1, c) || DropsOwned(ss[..|ss| - 1], c)
  {
    if i < |ss| - 1 {
      DropsBefore(ss, i, c);
    }
  }

  lemma DropsBackward(ss: seq<SliceVal>, i: int, c: Setting)
    requires ss != [] && DropsAt(ss[..|ss| - 1], i, c)
    ensures DropsOwned(ss, c)
  {
    assert i < |ss| - 1;
    DropsBefore(ss, i, c);
  }

  lemma DropsNext(ss: seq<SliceVal>, c: Setting)
    requires ss != []
    ensures DropsOwned(ss, c) <==> DropsOwned(ss[..|ss| - 1], c) || DropsAt(ss, |ss| - 1, c)
  {
    if i :| DropsAt(ss, i, c) {
      DropsForward(ss, i, c);
    }
    var front := ss[..|ss| - 1];
    if i :| DropsAt(front, i, c) {
      DropsBackward(ss, i, c);
    }
  }

  /** Step 1 drops and keeps just that. */
  lemma {:induction false} ClassifyRooms(ss: seq<SliceVal>, c: Setting)
    ensures var r := Classify(ss, c.svc, c.wanted);
            SpareRoom(r, c.max) == RoomLeft(ss, c) && (DeletesOwned(r.deletes, c) <==> DropsOwned(ss, c))
  {
    if ss != [] {
      var n := |ss| - 1;
      ClassifyRooms(ss[..n], c);
      ClassifyLeft(ss[..n], c);
      var r := Classify(ss[..n], c.svc, c.wanted);
      SettleDrops(ss[n], HeldKeys(ss[..n]), c, r.wanted);
      PlaceRooms(r, Settle(ss[n], c.svc, r.wanted), c);
      DropsNext(ss, c);
    }
  }

  lemma PlanCreates(r: Sorted, order: seq<Endpoint>, c: Setting)
    requires FromSet(order, c.wanted) && AllRight(r.updates, c.svc, c.wanted) && AllRight(r.untouched, c.svc, c.wanted)
    ensures var p := PlanOf(r, c.svc, c.addressType, order, c.max);
            && p.deletes == r.deletes && (p.creates != [] <==> |order| > SpareRoom(r, c.max))
            && (Recyclable(p, c.svc) <==> p.creates != [] && DeletesOwned(r.deletes, c))
  {
    FillKeptShape(r.updates, r.untouched, order, c.max, c.svc, c.wanted);
    var p := PlanOf(r, c.svc, c.addressType, order, c.max);
    if p.creates != [] {
      assert p.creates[0].addressType == c.addressType;
      assert forall i :: 0 <= i < |p.deletes| ==>
               (Reusable(p.deletes[i], p.creates[0], c.svc) <==> Mine(p.deletes[i], c));
    }
  }

  /** The loop as written reads out of range exactly when some owned slice of this type holds no desired key that an
      earlier one does not, and more desired keys are held nowhere than the other slices have room for. No call is made
      then, so the same listing hits it again. */
  lemma WhenItReadsOutOfRange(run: Run, c: Setting)
    requires IsOrderOf(run.order, SortedBy(run, c).wanted)
    ensures Recyclable(PlanBy(run, c), c.svc) <==>
              DropsOwned(run.listing, c) && |c.wanted.Keys - HeldKeys(run.listing)| > RoomLeft(run.listing, c)
  {
    var r := SortedBy(run, c);
    ClassifyShape(run.listing, c.svc, c.wanted);
    OrderShape(run.order, r.wanted);
    ClassifyLeft(run.listing, c);
    assert |r.wanted| == |r.wanted.Keys|;
    ClassifyRooms(run.listing, c);
    PlanCreates(r, run.order, c);
  }

  // ---- After a completed run, under whatever is desired next ----

  ghost function Sum(m: map<string, nat>): nat
    decreases |m|
  {
    if m == map[] then 0
    else
      var name :| name in m;
      assert (m - {name}).Keys == m.Keys - {name};
      m[name] + Sum(m - {name})
  }

  lemma {:induction false} SumAny(m: map<string, nat>, name: string)
    requires name in m
    ensures Sum(m) == m[name] + Sum(m - {name})
    decreases |m|
  {
    var first :| first in m && Sum(m) == m[first] + Sum(m - {first});
    if first != name {
      assert (m - {first}).Keys == m.Keys - {first} && (m - {name}).Keys == m.Keys - {name};
      SumAny(m - {first}, name);
      SumAny(m - {name}, first);
      assert m - {first} - {name} == m - {name} - {first};
    }
  }

  ghost function Rooms(store: Store, c: Setting): map<string, nat> {
    map name | name in store :: RoomFor(store[name], {}, c)
  }

  /** Room the stored slices have beside the keys they hold of those now desired, none counted for dropped ones. */
  ghost function RoomIn(store: Store, c: Setting): nat {
    Sum(Rooms(store, c))
  }

  lemma RoomTaken(store: Store, name: string, c: Setting)
    requires name in store
    ensures RoomIn(store, c) == RoomFor(store[name], {}, c) + RoomIn(store - {name}, c)
  {
    SumAny(Rooms(store, c), name);
    assert Rooms(store - {name}, c) == Rooms(store, c) - {name};
  }

  ghost function RoomAlone(ss: seq<SliceVal>, c: Setting): nat {
    if ss == [] then 0 else RoomAlone(ss[..|ss| - 1], c) + RoomFor(ss[|ss| - 1], {}, c)
  }

  lemma ListingRest(ss: seq<SliceVal>, store: Store)
    requires IsListing(ss, store) && ss != []
    ensures var n := |ss| - 1;
            ss[n].name in store && store[ss[n].name] == ss[n] && IsListing(ss[..n], store - {ss[n].name})
  {
    var n := |ss| - 1;
    var rest := store - {ss[n].name};
    forall name | name in rest ensures exists i :: 0 <= i < n && ss[..n][i].name == name {
      var i :| 0 <= i < |ss| && ss[i].name == name;
      assert ss[..n][i].name == name;
    }
  }

  lemma {:induction false} RoomListed(ss: seq<SliceVal>, store: Store, c: Setting)
    requires IsListing(ss, store)
    ensures RoomIn(store, c) == RoomAlone(ss, c)
  {
    if ss == [] {
      assert store == map[];
    } else {
      var n := |ss| - 1;
      ListingRest(ss, store);
      RoomListed(ss[..n], store - {ss[n].name}, c);
      RoomTaken(store, ss[n].name, c);
    }
  }

  /** When no key is stored twice, no slice's keys depend on those before it. */
  lemma NoneSeen(ss: seq<SliceVal>, i: nat, c: Setting)
    requires i < |ss| && forall k :: Stored(ss, k) <= 1
    ensures Gains(ss[i], HeldKeys(ss[..i]), c) == Gains(ss[i], {}, c)
  {
    var seen := HeldKeys(ss[..i]);
    forall k | k in KeysOf(ss[i].endpoints) ensures k !in seen {
      KeysCount(ss[i].endpoints);
      HeldStored(ss[..i], k);
      TakeNext(ss, i);
      StoredPrefix(ss, i + 1, k);
    }
    assert KeysOf(ss[i].endpoints) * (c.wanted.Keys - seen) == KeysOf(ss[i].endpoints) * (c.wanted.Keys - {});
  }

  lemma {:induction false} StoredPrefix(ss: seq<SliceVal>, i: nat, k: Key)
    requires i <= |ss|
    ensures Stored(ss[..i], k) <= Stored(ss, k)
  {
    if i < |ss| {
      var n := |ss| - 1;
      StoredPrefix(ss[..n], i, k);
      assert ss[..n][..i] == ss[..i];
    } else {
      TakeAll(ss);
    }
  }

  lemma {:induction false} RoomUnique(ss: seq<SliceVal>, c: Setting)
    requires forall k :: Stored(ss, k) <= 1
    ensures RoomLeft(ss, c) == RoomAlone(ss, c)
  {
    if ss != [] {
      var n := |ss| - 1;
      forall k ensures Stored(ss[..n], k) <= 1 {
        StoredPrefix(ss, n, k);
        assert Stored(ss, k) <= 1;
      }
      RoomUnique(ss[..n], c);
      NoneSeen(ss, n, c);
    }
  }

  lemma DropsUnique(ss: seq<SliceVal>, store: Store, c: Setting)
    requires IsListing(ss, store) && forall k :: Stored(ss, k) <= 1
    ensures DropsOwned(ss, c) <==> exists name :: name in store && Dropped(store[name], {}, c) && Mine(store[name], c)
  {
    forall i | 0 <= i < |ss| ensures Dropped(ss[i], HeldKeys(ss[..i]), c) <==> Dropped(ss[i], {}, c) {
      NoneSeen(ss, i, c);
    }
    if i :| DropsAt(ss, i, c) {
      assert ss[i].name in store && store[ss[i].name] == ss[i];
    }
    if name :| name in store && Dropped(store[name], {}, c) && Mine(store[name], c) {
      var i :| 0 <= i < |ss| && ss[i].name == name;
      assert DropsAt(ss, i, c);
    }
  }

  lemma HeldNowhere(ss: seq<SliceVal>, store: Store, c: Setting)
    requires IsListing(ss, store)
    ensures c.wanted.Keys - HeldKeys(ss) == Unplaced(store, c.wanted)
  {
    forall k ensures k in HeldKeys(ss) <==> Has(store, k) {
      HeldStored(ss, k);
      HasStored(ss, store, k);
    }
  }

  /** Steady state: on the store a completed run has left, and whatever Service, desired set or capacity come next, the
      next run reads out of range exactly when some owned slice of this type holds no key now desired, and more
      desired keys are unplaced than the other slices have room for. The order of listing does not matter. */
  lemma AfterACompletedRun(run: Run, c: Setting, store: Store, next: Run, d: Setting)
    requires Possible(run, c, store) && !c.svc.deleting
    requires IsListing(next.listing, After(run, c, store)) && IsOrderOf(next.order, SortedBy(next, d).wanted)
    ensures var after := After(run, c, store);
            Recyclable(PlanBy(next, d), d.svc) <==>
              && (exists name :: name in after && Dropped(after[name], {}, d) && Mine(after[name], d))
              && |Unplaced(after, d.wanted)| > RoomIn(after, d)
  {
    var after := After(run, c, store);
    CalmAfter(run, c, store);
    Relisted(FinalBy(run, c), next.listing, after, c);
    WhenItReadsOutOfRange(next, d);
    RoomUnique(next.listing, d);
    RoomListed(next.listing, after, d);
    DropsUnique(next.listing, after, d);
    HeldNowhere(next.listing, after, d);
  }

  /** As long as neither the Service nor the desired set nor the capacity changes, only the first run can. */
  lemma SameSettingIsSafe(run: Run, c: Setting, store: Store, next: Run)
    requires Possible(run, c, store) && !c.svc.deleting
    requires IsListing(next.listing, After(run, c, store))
    ensures !Recyclable(PlanBy(next, c), c.svc)
  {
    CalmAfter(run, c, store);
    Relisted(FinalBy(run, c), next.listing, After(run, c, store), c);
    ClassifyCalm(next.listing, c.svc, c.wanted);
  }

  // ---- It happens: the only endpoint is replaced ----

  lemma OneListed(s: SliceVal)
    ensures IsListing([s], map[s.name := s])
  {
    assert [s][0].name == s.name;
  }

  lemma OneOrdered(e: Endpoint)
    ensures IsOrderOf([e], map[e.key := e])
  {
    assert [e][1..] == [];
    assert map[e.key := e] - {e.key} == map[];
  }

  lemma OneApplied(store: Store, call: Call)
    ensures ApplyAll(store, [call]) == Apply(store, call)
  {
    assert [call][..0] == [];
  }

  /** With nothing kept, one endpoint to place yields one new slice, whatever is deleted. */
  lemma OnePlanned(deletes: seq<SliceVal>, rest: Wanted, svc: Service, t: AddressType, e: Endpoint, max: nat)
    requires max >= 1
    ensures PlanOf(Sorted([], deletes, [], rest), svc, t, [e], max)
         == Plan([NewSlice(svc, t).(endpoints := [e])], [], deletes, [], [])
  {
    assert [e][1..] == [] && [] + [e][..1] == [e];
  }

  lemma PlacingOne(svc: Service, t: AddressType, e: Endpoint, max: nat, given: Names)
    requires !svc.deleting && max >= 1
    ensures var c, run := Setting(svc, t, map[e.key := e], max), Run([], [e], given, false);
            var s := NewSlice(svc, t).(name := given(0), endpoints := [e]);
            && Possible(run, c, map[]) && After(run, c, map[]) == map[given(0) := s] && PlanBy(run, c).leftover == []
  {
    var c, run := Setting(svc, t, map[e.key := e], max), Run([], [e], given, false);
    var s := NewSlice(svc, t).(endpoints := [e]);
    OneOrdered(e);
    assert SortedBy(run, c) == Sorted([], [], [], c.wanted);
    OnePlanned([], c.wanted, svc, t, e, max);
    assert PlanBy(run, c) == Plan([s], [], [], [], []);
    assert CallsBy(run, c) == CreateCalls([s], given) + UpdateCalls([]) + DeleteCalls([]) == [Create(s, given(0))];
    OneApplied(map[], Create(s, given(0)));
  }

  /** A slice whose only endpoint is not desired any more is dropped. */
  lemma OneDropped(s: SliceVal, a: Endpoint, b: Endpoint, svc: Service)
    requires s.endpoints == [a] && a.key != b.key
    ensures Classify([s], svc, map[b.key := b]) == Sorted([], [s.(ports := svc.ports)], [], map[b.key := b])
  {
    var w: Wanted := map[b.key := b];
    assert [a][..0] == [] && [s][..0] == [];
    assert CoverOf([a], w) == Cover([], w, false);
    assert Settle(s, svc, w) == Settled(Drop, s.(ports := svc.ports), w);
  }

  /** Any Service, any capacity, two endpoints with different keys: from nothing stored, one run places the first one.
      Then the second one is desired instead, and the run after that reads out of range. */
  lemma ReplacingTheOnlyEndpoint(svc: Service, t: AddressType, a: Endpoint, b: Endpoint, max: nat, given: Names)
    returns (run: Run, c: Setting, next: Run, d: Setting)
    requires !svc.deleting && max >= 1 && a.key != b.key
    ensures c == Setting(svc, t, map[a.key := a], max) && d == Setting(svc, t, map[b.key := b], max)
    ensures Possible(run, c, map[]) && !run.corrected && PlanBy(run, c).leftover == []
    ensures IsListing(next.listing, After(run, c, map[])) && IsOrderOf(next.order, SortedBy(next, d).wanted)
    ensures Recyclable(PlanBy(next, d), svc)
  {
    c, d := Setting(svc, t, map[a.key := a], max), Setting(svc, t, map[b.key := b], max);
    var s := NewSlice(svc, t).(name := given(0), endpoints := [a]);
    run, next := Run([], [a], given, false), Run([s], [b], given, false);
    PlacingOne(svc, t, a, max, given);
    OneListed(s);
    OneDropped(s, a, b, svc);
    OneOrdered(b);
    OnePlanned([s.(ports := svc.ports)], d.wanted, svc, t, b, max);
    var p := PlanBy(next, d);
    assert s.owners[0] == OwnerRef(svc.uid, "Service", "v1");
    assert Reusable(p.deletes[0], p.creates[0], svc);
  }
}
