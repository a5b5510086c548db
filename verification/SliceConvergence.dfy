/** What is stored after one packing run, and after a chain of them: every desired endpoint exactly once,
    and everything placed after finitely many runs. */
module SliceConvergence {
  import opened SliceModel
  import opened SliceFinalize
  import opened SliceLaws
  import opened SliceRuns
  import opened SliceTheorems

  // ---- The slices a run leaves behind ----

  ghost function FinalBy(run: Run, c: Setting): seq<SliceVal> {
    Final(ListsBy(run, c), PlanBy(run, c).untouched, run.given)
  }

  lemma AfterIsFinal(run: Run, c: Setting, store: Store)
    requires Possible(run, c, store) && !c.svc.deleting
    ensures IsListing(FinalBy(run, c), After(run, c, store))
  {
    SoundRun(run, c, store);
    FinalIsListing(ListsBy(run, c), PlanBy(run, c).untouched, store, c.svc, run.given);
  }

  lemma StoredRenamed(s: SliceVal, name: string, k: Key)
    ensures Stored([s.(name := name)], k) == Stored([s], k)
  {
    assert [s][..0] == [] && [s.(name := name)][..0] == [];
  }

  lemma ListsStored(p: Plan, svc: Service, corrected: bool, given: Names, k: Key)
    requires |p.creates| <= 1
    ensures Stored(Final(FinalLists(p, svc, corrected), p.untouched, given), k)
         == Stored(p.updates, k) + Stored(p.untouched, k) + Stored(p.creates, k)
  {
    var w := FinalLists(p, svc, corrected);
    var born := if w.creates == [] then [] else [w.creates[0].(name := given(0))];
    StoredConcat(w.updates, p.untouched, k);
    StoredConcat(w.updates + p.untouched, born, k);
    if p.creates != [] {
      assert p.creates == [p.creates[0]];
      StoredRenamed(p.creates[0], given(0), k);
      var i := FirstReusable(p.deletes, p.creates[0], svc);
      if corrected && i < |p.deletes| {
        StoredRenamed(p.creates[0], p.deletes[i].name, k);
        StoredConcat(p.updates, [p.creates[0].(name := p.deletes[i].name)], k);
      }
    }
  }

  /** Every desired key is stored once or left over, never both. */
  lemma FinalLaw(run: Run, c: Setting, k: Key)
    requires IsOrderOf(run.order, SortedBy(run, c).wanted)
    ensures Stored(FinalBy(run, c), k) + KeyCount(PlanBy(run, c).leftover, k) == In(c.wanted, k)
  {
    PlanLaw(run, c, k);
    ListsStored(PlanBy(run, c), c.svc, run.corrected, run.given, k);
  }

  lemma ListsShape(p: Plan, c: Setting, corrected: bool, given: Names)
    requires GoodPlan(p, c)
    ensures var f := Final(FinalLists(p, c.svc, corrected), p.untouched, given);
            AllRight(f, c.svc, c.wanted) && (p.leftover != [] ==> NoRoom(f, c.max))
  {
    var w := FinalLists(p, c.svc, corrected);
    assert forall i :: 0 <= i < |w.updates| && i >= |p.updates| ==>
             exists n :: w.updates[i] == p.creates[0].(name := n);
  }

  lemma FinalShape(run: Run, c: Setting)
    requires IsOrderOf(run.order, SortedBy(run, c).wanted)
    ensures AllRight(FinalBy(run, c), c.svc, c.wanted)
    ensures PlanBy(run, c).leftover != [] ==> NoRoom(FinalBy(run, c), c.max)
  {
    PlanShape(run, c);
    ListsShape(PlanBy(run, c), c, run.corrected, run.given);
  }

  // ---- Exactly once ----

  lemma CountedOnce(ss: seq<SliceVal>, k: Key, a: nat, i: nat, b: nat, j: nat)
    requires Stored(ss, k) <= 1 && a < |ss| && b < |ss|
    requires i < |ss[a].endpoints| && ss[a].endpoints[i].key == k
    requires j < |ss[b].endpoints| && ss[b].endpoints[j].key == k
    ensures a == b && i == j
  {
    KeyCountAt(ss[a].endpoints, i);
    KeyCountAt(ss[b].endpoints, j);
    StoredAt(ss, a, k);
    StoredAt(ss, b, k);
  }

  lemma StoredOnce(listing: seq<SliceVal>, store: Store, k: Key, m: string, i: int, n: string, j: int)
    requires IsListing(listing, store) && Stored(listing, k) <= 1
    requires Occurs(store, m, i, k) && Occurs(store, n, j, k)
    ensures m == n && i == j
  {
    var a :| 0 <= a < |listing| && listing[a].name == m;
    var b :| 0 <= b < |listing| && listing[b].name == n;
    CountedOnce(listing, k, a, i, b, j);
  }

  /** The key is stored iff desired and not left over, in one slot of one slice only, and as desired there. */
  ghost predicate PlacedOnce(after: Store, c: Setting, leftover: seq<Endpoint>, k: Key) {
    && (Has(after, k) <==> k in c.wanted && forall e :: e in leftover ==> e.key != k)
    && (forall m, i, n, j :: Occurs(after, m, i, k) && Occurs(after, n, j, k) ==> m == n && i == j)
    && (forall m, i :: Occurs(after, m, i, k) ==> Agrees(after[m].endpoints[i], c.wanted))
  }

  /** After a completed run each stored key is desired and in exactly one place, as desired there; a desired
      key is stored unless it was left over. What the slices held before, duplicates included, does not matter. */
  lemma ExactlyOnce(run: Run, c: Setting, store: Store, k: Key)
    requires Possible(run, c, store) && !c.svc.deleting
    ensures PlacedOnce(After(run, c, store), c, PlanBy(run, c).leftover, k)
  {
    var f, after := FinalBy(run, c), After(run, c, store);
    AfterIsFinal(run, c, store);
    FinalLaw(run, c, k);
    FinalShape(run, c);
    HasStored(f, after, k);
    LeftoverKey(PlanBy(run, c).leftover, k);
    forall m, i, n, j | Occurs(after, m, i, k) && Occurs(after, n, j, k) ensures m == n && i == j {
      StoredOnce(f, after, k, m, i, n, j);
    }
    forall m, i | Occurs(after, m, i, k) ensures Agrees(after[m].endpoints[i], c.wanted) {
      var a :| 0 <= a < |f| && f[a].name == m;
      assert Right(f[a], c.svc, c.wanted);
    }
  }

  lemma LeftoverKey(eps: seq<Endpoint>, k: Key)
    ensures KeyCount(eps, k) > 0 <==> exists e :: e in eps && e.key == k
  {
    if KeyCount(eps, k) > 0 {
      var i := KeyCountWitness(eps, k);
      assert eps[i] in eps;
    }
    if e :| e in eps && e.key == k {
      var i :| 0 <= i < |eps| && eps[i] == e;
      KeyCountAt(eps, i);
    }
  }

  // ---- Capacity, ports and labels ----

  function Max(a: int, b: int): int { if a < b then b else a }

  /** The slice has the owners and the address type it was stored with, its labels with those the controller and the
      Service demand put in, and it outgrew not both the capacity and what was stored. */
  ghost predicate KeptFrom(s: SliceVal, was: SliceVal, svc: Service, max: nat) {
    && s.owners == was.owners && s.addressType == was.addressType && s.labels == EnsureLabels(was.labels, svc)
    && |s.endpoints| <= Max(|was.endpoints|, max)
  }

  ghost predicate AllKept(ss: seq<SliceVal>, store: Store, svc: Service, max: nat) {
    forall i :: 0 <= i < |ss| ==> ss[i].name in store && KeptFrom(ss[i], store[ss[i].name], svc, max)
  }

  ghost predicate SortedKept(r: Sorted, store: Store, svc: Service, max: nat) {
    AllKept(r.updates, store, svc, max) && AllKept(r.untouched, store, svc, max) && NamesIn(r.deletes, store)
  }

  lemma PlaceKept(r: Sorted, x: Settled, store: Store, svc: Service, max: nat)
    requires SortedKept(r, store, svc, max) && x.slice.name in store
    requires x.fate != Drop ==> KeptFrom(x.slice, store[x.slice.name], svc, max)
    ensures SortedKept(Place(r, x), store, svc, max)
  {
  }

  lemma {:induction false} ClassifyKept(ss: seq<SliceVal>, svc: Service, w: Wanted, store: Store, max: nat)
    requires forall i :: 0 <= i < |ss| ==> ss[i].name in store && store[ss[i].name] == ss[i]
    ensures SortedKept(Classify(ss, svc, w), store, svc, max)
  {
    if ss != [] {
      var n := |ss| - 1;
      ClassifyKept(ss[..n], svc, w, store, max);
      var r := Classify(ss[..n], svc, w);
      SettleShape(ss[n], svc, r.wanted);
      PlaceKept(r, Settle(ss[n], svc, r.wanted), store, svc, max);
    }
  }

  lemma GrownKept(before: seq<SliceVal>, after: seq<SliceVal>, store: Store, svc: Service, max: nat)
    requires AllKept(before, store, svc, max) && AllGrown(before, after, max)
    ensures AllKept(after, store, svc, max)
  {
    forall i | 0 <= i < |after|
      ensures after[i].name in store && KeptFrom(after[i], store[after[i].name], svc, max)
    {
      assert Grown(before[i], after[i], max);
    }
  }

  lemma FillKeptKept(u: seq<SliceVal>, t: seq<SliceVal>, order: seq<Endpoint>, max: nat, svc: Service, w: Wanted,
                     store: Store)
    requires FromSet(order, w) && AllKept(u, store, svc, max) && AllKept(t, store, svc, max)
    ensures var f := FillKept(u, t, order, max);
            AllKept(f.updates, store, svc, max) && AllKept(f.untouched, store, svc, max)
  {
    FillAllShape(u, order, max, svc, w);
    var (filled, rest) := FillAll(u, order, max);
    GrownKept(u, filled, store, svc, max);
    if rest != [] {
      FillAllShape(t, rest, max, svc, w);
      GrownKept(t, FillAll(t, rest, max).0, store, svc, max);
    }
  }

  /** An update of what was stored or, with the intended recycling, a new slice under the name of a deleted one. */
  ghost predicate GoodUpdate(s: SliceVal, c: Setting, corrected: bool, store: Store) {
    s.name in store && (KeptFrom(s, store[s.name], c.svc, c.max) || (corrected && GoodNew(s, c)))
  }

  ghost predicate GoodUpdates(ss: seq<SliceVal>, c: Setting, corrected: bool, store: Store) {
    forall i :: 0 <= i < |ss| ==> GoodUpdate(ss[i], c, corrected, store)
  }

  lemma ListsKept(p: Plan, c: Setting, corrected: bool, store: Store)
    requires GoodPlan(p, c) && AllKept(p.updates, store, c.svc, c.max) && NamesIn(p.deletes, store)
    ensures GoodUpdates(FinalLists(p, c.svc, corrected).updates, c, corrected, store)
    ensures GoodCreation(FinalLists(p, c.svc, corrected).creates, c)
  {
  }

  lemma PlanOfKept(r: Sorted, order: seq<Endpoint>, c: Setting, store: Store)
    requires FromSet(order, r.wanted) && SortedKept(r, store, c.svc, c.max)
    ensures var p := PlanOf(r, c.svc, c.addressType, order, c.max);
            && AllKept(p.updates, store, c.svc, c.max) && AllKept(p.untouched, store, c.svc, c.max)
            && NamesIn(p.deletes, store)
  {
    FillKeptKept(r.updates, r.untouched, order, c.max, c.svc, r.wanted, store);
  }

  lemma PlanKept(run: Run, c: Setting, store: Store)
    requires Possible(run, c, store)
    ensures GoodUpdates(ListsBy(run, c).updates, c, run.corrected, store)
    ensures AllKept(PlanBy(run, c).untouched, store, c.svc, c.max) && GoodCreation(ListsBy(run, c).creates, c)
  {
    var r := SortedBy(run, c);
    PlanShape(run, c);
    ClassifyKept(run.listing, c.svc, c.wanted, store, c.max);
    OrderShape(run.order, r.wanted);
    PlanOfKept(r, run.order, c, store);
    ListsKept(PlanBy(run, c), c, run.corrected, store);
  }

  lemma FinalKept(w: Worklists, t: seq<SliceVal>, given: Names, store: Store, c: Setting, corrected: bool, s: SliceVal)
    requires GoodUpdates(w.updates, c, corrected, store) && AllKept(t, store, c.svc, c.max)
    requires GoodCreation(w.creates, c) && s in Final(w, t, given) && given(0) !in store
    ensures if s.name in store then GoodUpdate(s, c, corrected, store) else GoodNew(s, c)
  {
    if s in w.updates + t {
      assert s in w.updates || s in t;
    }
  }

  /** The slice has exactly the desired ports. If it was stored before it is that slice kept, labels and all, or, with
      the intended recycling, a new one in its place; under any other name it is new. */
  ghost predicate InShape(s: SliceVal, c: Setting, corrected: bool, store: Store) {
    && s.ports == c.svc.ports && EnsureLabels(s.labels, c.svc) == s.labels
    && if s.name in store then GoodUpdate(s, c, corrected, store) else GoodNew(s, c)
  }

  lemma CapacityPortsLabels(run: Run, c: Setting, store: Store, name: string)
    requires Possible(run, c, store) && !c.svc.deleting && name in After(run, c, store)
    ensures After(run, c, store)[name].name == name && InShape(After(run, c, store)[name], c, run.corrected, store)
  {
    AfterIsFinal(run, c, store);
    FinalShape(run, c);
    var f := FinalBy(run, c);
    var a :| 0 <= a < |f| && f[a].name == name;
    assert Right(f[a], c.svc, c.wanted);
    PlanKept(run, c, store);
    FinalKept(ListsBy(run, c), PlanBy(run, c).untouched, run.given, store, c, run.corrected, f[a]);
  }
}
