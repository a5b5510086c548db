/** What one packing run guarantees: nothing desired is ever missing in between, and afterwards
    every desired endpoint sits in exactly one slice. */
module SliceTheorems {
  import opened Seqs
  import opened SliceModel
  import opened SliceFinalize
  import opened SliceLaws
  import opened SliceRuns

  /** Slot `i` of the stored slice `name` holds the key. */
  ghost predicate Occurs(store: Store, name: string, i: int, k: Key) {
    name in store && 0 <= i < |store[name].endpoints| && store[name].endpoints[i].key == k
  }

  ghost predicate Has(store: Store, k: Key) {
    exists name, i :: Occurs(store, name, i, k)
  }

  lemma HasAt(store: Store, name: string, k: Key)
    requires name in store && KeyCount(store[name].endpoints, k) > 0
    ensures Has(store, k)
  {
    var i := KeyCountWitness(store[name].endpoints, k);
    assert Occurs(store, name, i, k);
  }

  lemma HasStored(listing: seq<SliceVal>, store: Store, k: Key)
    requires IsListing(listing, store)
    ensures Has(store, k) <==> Stored(listing, k) > 0
  {
    if Stored(listing, k) > 0 {
      var j := StoredWitness(listing, k);
      HasAt(store, listing[j].name, k);
    }
    if name, i :| Occurs(store, name, i, k) {
      var j :| 0 <= j < |listing| && listing[j].name == name;
      KeyCountAt(store[name].endpoints, i);
      StoredAt(listing, j, k);
    }
  }

  // ---- Make before break ----

  lemma GrownKeeps(s: SliceVal, s': SliceVal, max: nat, k: Key)
    requires Grown(s, s', max)
    ensures KeyCount(s'.endpoints, k) >= KeyCount(s.endpoints, k)
  {
    var n := |s.endpoints|;
    Join(s'.endpoints, n);
    assert s'.endpoints[..n] == s.endpoints;
    KeyCountConcat(s'.endpoints[..n], s'.endpoints[n..], k);
  }

  ghost predicate Holds(ss: seq<SliceVal>, i: nat, name: string, k: Key) {
    i < |ss| && ss[i].name == name && KeyCount(ss[i].endpoints, k) > 0
  }

  ghost predicate HeldBy(updates: seq<SliceVal>, untouched: seq<SliceVal>, name: string, k: Key) {
    exists i: nat :: Holds(updates, i, name, k) || Holds(untouched, i, name, k)
  }

  lemma PlacedHolds(r: Sorted, x: Settled, k: Key)
    requires KeptOf(x, k) > 0
    ensures HeldBy(Place(r, x).updates, Place(r, x).untouched, x.slice.name, k)
  {
    if x.fate == Change {
      assert Holds(r.updates + [x.slice], |r.updates|, x.slice.name, k);
    } else {
      assert Holds(r.untouched + [x.slice], |r.untouched|, x.slice.name, k);
    }
  }

  lemma PlaceHolds(r: Sorted, x: Settled, name: string, k: Key)
    requires HeldBy(r.updates, r.untouched, name, k)
    ensures HeldBy(Place(r, x).updates, Place(r, x).untouched, name, k)
  {
    var p := Place(r, x);
    var i: nat :| Holds(r.updates, i, name, k) || Holds(r.untouched, i, name, k);
    assert Holds(p.updates, i, name, k) || Holds(p.untouched, i, name, k);
  }

  /** A key step 1 keeps stays on a slice that already held it. */
  lemma {:induction false} KeptSource(ss: seq<SliceVal>, svc: Service, w: Wanted, k: Key) returns (j: nat)
    requires KeptCount(Classify(ss, svc, w), k) > 0
    ensures j < |ss| && KeyCount(ss[j].endpoints, k) > 0
    ensures var r := Classify(ss, svc, w); HeldBy(r.updates, r.untouched, ss[j].name, k)
  {
    var n := |ss| - 1;
    var r := Classify(ss[..n], svc, w);
    var x := Settle(ss[n], svc, r.wanted);
    SettleLaw(ss[n], svc, r.wanted, k);
    SettleShape(ss[n], svc, r.wanted);
    PlaceLaw(r, x, k, "");
    if KeptOf(x, k) > 0 {
      j := n;
      PlacedHolds(r, x, k);
    } else {
      j := KeptSource(ss[..n], svc, w, k);
      PlaceHolds(r, x, ss[j].name, k);
    }
  }

  /** Steps 2 and 3 leave it there. */
  lemma FillHolds(u: seq<SliceVal>, t: seq<SliceVal>, order: seq<Endpoint>, max: nat, svc: Service, w: Wanted,
                  name: string, k: Key)
    requires FromSet(order, w) && HeldBy(u, t, name, k)
    ensures var f := FillKept(u, t, order, max); HeldBy(f.updates, f.untouched, name, k)
  {
    var i: nat :| Holds(u, i, name, k) || Holds(t, i, name, k);
    var f := FillKept(u, t, order, max);
    FillKeptAt(u, t, order, max, svc, w);
    if Holds(u, i, name, k) {
      GrownKeeps(u[i], f.updates[i], max, k);
      assert Holds(f.updates, i, name, k);
    } else if f.untouched == t {
      assert Holds(f.untouched, i, name, k);
    } else {
      GrownKeeps(t[i], f.updates[|u| + i], max, k);
      assert Holds(f.updates, |u| + i, name, k);
    }
  }

  lemma RecyclingHolds(plan: Plan, svc: Service, corrected: bool, name: string, k: Key)
    requires HeldBy(plan.updates, plan.untouched, name, k)
    ensures HeldBy(FinalLists(plan, svc, corrected).updates, plan.untouched, name, k)
  {
    var i: nat :| Holds(plan.updates, i, name, k) || Holds(plan.untouched, i, name, k);
    assert Holds(FinalLists(plan, svc, corrected).updates, i, name, k) || Holds(plan.untouched, i, name, k);
  }

  /** A held key is visible at every prefix of the calls. */
  lemma HeldSeen(w: Worklists, t: seq<SliceVal>, store: Store, svc: Service, given: Names, n: nat, name: string, k: Key)
    requires Sound(w, t, store, given) && n <= |Calls(w, svc, given)|
    requires name in store && KeyCount(store[name].endpoints, k) > 0 && HeldBy(w.updates, t, name, k)
    ensures Has(ApplyAll(store, Calls(w, svc, given)[..n]), k)
  {
    var i: nat :| Holds(w.updates, i, name, k) || Holds(t, i, name, k);
    if Holds(w.updates, i, name, k) {
      UpdateSeen(w, t, store, svc, given, n, i);
    } else {
      UntouchedSeen(w, t, store, svc, given, n, i);
    }
    HasAt(ApplyAll(store, Calls(w, svc, given)[..n]), name, k);
  }

  /** At every prefix of the API calls, so also in a run cut short, each desired key stored before is still stored. */
  lemma MakeBeforeBreak(run: Run, c: Setting, store: Store, n: nat, k: Key)
    requires Possible(run, c, store) && n <= |CallsBy(run, c)|
    requires k in c.wanted && Has(store, k)
    ensures Has(ApplyAll(store, CallsBy(run, c)[..n]), k)
  {
    var r, p := SortedBy(run, c), PlanBy(run, c);
    HasStored(run.listing, store, k);
    ClassifyLaw(run.listing, c.svc, c.wanted, k, "");
    var j := KeptSource(run.listing, c.svc, c.wanted, k);
    OrderShape(run.order, r.wanted);
    FillHolds(r.updates, r.untouched, run.order, c.max, c.svc, r.wanted, run.listing[j].name, k);
    RecyclingHolds(p, c.svc, run.corrected, run.listing[j].name, k);
    SoundRun(run, c, store);
    HeldSeen(ListsBy(run, c), p.untouched, store, c.svc, run.given, n, run.listing[j].name, k);
  }

  // ---- Exactly once ----

  lemma {:induction false} CreatedLaw(c: Setting, rest: seq<Endpoint>, k: Key)
    ensures var (s, leftover) := FillOne(NewSlice(c.svc, c.addressType), rest, c.max);
            Stored([s], k) + KeyCount(leftover, k) == KeyCount(rest, k)
  {
    FillOneLaw(NewSlice(c.svc, c.addressType), rest, c.max, k);
    var s := FillOne(NewSlice(c.svc, c.addressType), rest, c.max).0;
    assert [s][..0] == [];
  }

  /** The plan places every desired endpoint once or leaves it over. */
  lemma PlanLaw(run: Run, c: Setting, k: Key)
    requires IsOrderOf(run.order, SortedBy(run, c).wanted)
    ensures var p := PlanBy(run, c);
            Stored(p.updates, k) + Stored(p.untouched, k) + Stored(p.creates, k) + KeyCount(p.leftover, k)
              == In(c.wanted, k)
  {
    var r := SortedBy(run, c);
    ClassifyLaw(run.listing, c.svc, c.wanted, k, "");
    OrderLaw(run.order, r.wanted, k);
    FillKeptLaw(r.updates, r.untouched, run.order, c.max, k);
    CreatedLaw(c, FillKept(r.updates, r.untouched, run.order, c.max).rest, k);
  }

  /** A new slice: the Service's own, of this address type, with no other labels than the Service gives it; it holds
      something and fits. */
  ghost predicate GoodNew(s: SliceVal, c: Setting) {
    && s.owners == [OwnerRef(c.svc.uid, "Service", "v1")] && s.addressType == c.addressType
    && s.labels == EnsureLabels(map[], c.svc) && |s.endpoints| <= c.max && (c.max > 0 ==> s.endpoints != [])
  }

  ghost predicate GoodCreation(creates: seq<SliceVal>, c: Setting) {
    creates != [] ==> |creates| == 1 && GoodNew(creates[0], c)
  }

  /** Room the kept slices have after step 1. */
  ghost function SpareRoom(r: Sorted, max: nat): nat {
    TotalRoom(r.updates, max) + TotalRoom(r.untouched, max)
  }

  ghost function Covered(r: Sorted): nat {
    Total(r.updates) + Total(r.untouched)
  }

  lemma CreationShape(c: Setting, rest: seq<Endpoint>)
    requires rest != [] && FromSet(rest, c.wanted)
    ensures var (s, leftover) := FillOne(NewSlice(c.svc, c.addressType), rest, c.max);
            && Right(s, c.svc, c.wanted) && GoodCreation([s], c) && FromSet(leftover, c.wanted)
            && |leftover| == Minus(|rest|, c.max) && (leftover != [] ==> Room(s, c.max) == 0)
  {
    EnsureLabelsIdempotent(map[], c.svc);
    FillOneShape(NewSlice(c.svc, c.addressType), rest, c.max, c.svc, c.wanted);
  }

  ghost predicate GoodPlan(p: Plan, c: Setting) {
    && AllRight(p.updates, c.svc, c.wanted) && AllRight(p.untouched, c.svc, c.wanted)
    && AllRight(p.creates, c.svc, c.wanted) && FromSet(p.leftover, c.wanted)
    && (p.leftover != [] ==> NoRoom(p.updates, c.max) && p.untouched == [] && NoRoom(p.creates, c.max))
    && GoodCreation(p.creates, c)
  }

  lemma PlanOfShape(r: Sorted, order: seq<Endpoint>, c: Setting)
    requires FromSet(order, c.wanted)
    requires AllRight(r.updates, c.svc, c.wanted) && AllRight(r.untouched, c.svc, c.wanted)
    ensures var p := PlanOf(r, c.svc, c.addressType, order, c.max);
            GoodPlan(p, c) && |p.leftover| == Minus(|order|, SpareRoom(r, c.max) + c.max)
  {
    FillKeptShape(r.updates, r.untouched, order, c.max, c.svc, c.wanted);
    var f := FillKept(r.updates, r.untouched, order, c.max);
    if f.rest != [] {
      CreationShape(c, f.rest);
    }
  }

  /** What the plan leaves over is exactly what neither coverage, nor spare room, nor one new slice can take. */
  lemma PlanShape(run: Run, c: Setting)
    requires IsOrderOf(run.order, SortedBy(run, c).wanted)
    ensures GoodPlan(PlanBy(run, c), c)
    ensures var r := SortedBy(run, c);
            |PlanBy(run, c).leftover| == Minus(|c.wanted|, Covered(r) + SpareRoom(r, c.max) + c.max)
  {
    var r := SortedBy(run, c);
    ClassifyShape(run.listing, c.svc, c.wanted);
    OrderShape(run.order, r.wanted);
    assert FromSet(run.order, c.wanted);
    PlanOfShape(r, run.order, c);
  }
}
