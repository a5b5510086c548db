/** `reconcile` around the packing runs: which slices it condemns, and when a Service with a selector settles. */
module SliceSelector {
  import opened Seqs
  import opened SliceModel
  import opened SliceFinalize
  import opened SliceObjects
  import opened SliceLaws
  import opened SliceRuns

  predicate Managed(s: SliceVal) {
    MANAGED_BY_LABEL in s.labels && s.labels[MANAGED_BY_LABEL] == CONTROLLER_NAME
  }

  /** `released`: the Service has a selector or is gone, so none of its slices is kept. */
  predicate Condemns(s: SliceVal, released: bool, supported: set<AddressType>) {
    if released then Managed(s) else s.addressType !in supported
  }

  predicate KeepsFor(s: SliceVal, released: bool, supported: set<AddressType>, t: AddressType) {
    !released && s.addressType == t && t in supported
  }

  function Condemned(ss: seq<SliceVal>, released: bool, supported: set<AddressType>): seq<SliceVal> {
    if ss == [] then []
    else
      var n := |ss| - 1;
      Condemned(ss[..n], released, supported) + if Condemns(ss[n], released, supported) then [ss[n]] else []
  }

  function KeptFor(ss: seq<SliceVal>, released: bool, supported: set<AddressType>, t: AddressType): seq<SliceVal> {
    if ss == [] then []
    else
      var n := |ss| - 1;
      KeptFor(ss[..n], released, supported, t) + if KeepsFor(ss[n], released, supported, t) then [ss[n]] else []
  }

  ghost predicate Among(os: seq<EndpointSlice>, vs: seq<SliceVal>, all: seq<EndpointSlice>)
    reads all
  {
    |os| == |vs| && forall i :: 0 <= i < |os| ==> os[i] in all && os[i].Val() == vs[i]
  }

  lemma AmongPush(os: seq<EndpointSlice>, vs: seq<SliceVal>, all: seq<EndpointSlice>, o: EndpointSlice)
    requires Among(os, vs, all) && o in all
    ensures Among(os + [o], vs + [o.Val()], all)
  {
  }

  function Bucket(byType: map<AddressType, seq<EndpointSlice>>, t: AddressType): seq<EndpointSlice> {
    if t in byType then byType[t] else []
  }

  lemma FiltersNext(ss: seq<SliceVal>, i: nat, released: bool, supported: set<AddressType>, t: AddressType)
    requires i < |ss|
    ensures Condemned(ss[..i + 1], released, supported)
         == Condemned(ss[..i], released, supported) + if Condemns(ss[i], released, supported) then [ss[i]] else []
    ensures KeptFor(ss[..i + 1], released, supported, t)
         == KeptFor(ss[..i], released, supported, t) + if KeepsFor(ss[i], released, supported, t) then [ss[i]] else []
  {
    TakeNext(ss, i);
  }

  /** The loop that sorts the existing slices into those to delete and those to reconcile, by address type. */
  method SortSlices(existing: seq<EndpointSlice>, hasSelector: bool, serviceDeleted: bool, supported: set<AddressType>,
                    ghost before: seq<SliceVal>)
    returns (toDelete: seq<EndpointSlice>, byType: map<AddressType, seq<EndpointSlice>>)
    requires Shows(existing, before)
    ensures Among(toDelete, Condemned(before, hasSelector || serviceDeleted, supported), existing)
    ensures forall t :: Among(Bucket(byType, t), KeptFor(before, hasSelector || serviceDeleted, supported, t), existing)
  {
    toDelete, byType := [], map[];
    ghost var released := hasSelector || serviceDeleted;
    for i := 0 to |existing|
      invariant Among(toDelete, Condemned(before[..i], released, supported), existing)
      invariant forall t :: Among(Bucket(byType, t), KeptFor(before[..i], released, supported, t), existing)
    {
      var eps := existing[i];
      ghost var was := byType;
      assert eps in existing && eps.Val() == before[i];
      AmongPush(toDelete, Condemned(before[..i], released, supported), existing, eps);
      FiltersNext(before, i, released, supported, eps.addressType);
      if hasSelector || serviceDeleted {
        if MANAGED_BY_LABEL in eps.labels && eps.labels[MANAGED_BY_LABEL] == CONTROLLER_NAME {
          toDelete := toDelete + [eps];
        }
      } else if eps.addressType !in supported {
        toDelete := toDelete + [eps];
      } else {
        byType := byType[eps.addressType := Bucket(byType, eps.addressType) + [eps]];
      }
      forall t ensures Among(Bucket(byType, t), KeptFor(before[..i + 1], released, supported, t), existing) {
        FiltersNext(before, i, released, supported, t);
        AmongPush(Bucket(was, t), KeptFor(before[..i], released, supported, t), existing, eps);
        Empty(KeptFor(before[..i], released, supported, t));
      }
      Empty(Condemned(before[..i], released, supported));
    }
    TakeAll(before);
  }

  lemma {:induction false} CondemnedElements(ss: seq<SliceVal>, released: bool, supported: set<AddressType>,
                                             s: SliceVal)
    ensures s in Condemned(ss, released, supported) <==> s in ss && Condemns(s, released, supported)
  {
    if ss != [] {
      CondemnedElements(ss[..|ss| - 1], released, supported, s);
      JoinLast(ss);
    }
  }

  lemma {:induction false} KeptElements(ss: seq<SliceVal>, released: bool, supported: set<AddressType>, t: AddressType,
                                        s: SliceVal)
    ensures s in KeptFor(ss, released, supported, t) <==> s in ss && KeepsFor(s, released, supported, t)
  {
    if ss != [] {
      KeptElements(ss[..|ss| - 1], released, supported, t, s);
      JoinLast(ss);
    }
  }

  /** Once the Service is gone or has a selector, the slices that carry this controller's label are deleted and all
      others left alone. Otherwise each is handed to the run of its address type, or deleted if there is no such run. */
  lemma WhereSlicesGo(ss: seq<SliceVal>, hasSelector: bool, gone: bool, supported: set<AddressType>, t: AddressType,
                      s: SliceVal)
    requires s in ss
    ensures s in Condemned(ss, hasSelector || gone, supported) <==>
              if hasSelector || gone then
                "endpointslice.kubernetes.io/managed-by" in s.labels
                && s.labels["endpointslice.kubernetes.io/managed-by"] == "kubevirt-eps-controller"
              else s.addressType !in supported
    ensures s in KeptFor(ss, hasSelector || gone, supported, t) <==>
              !hasSelector && !gone && t in supported && s.addressType == t
  {
    CondemnedElements(ss, hasSelector || gone, supported, s);
    KeptElements(ss, hasSelector || gone, supported, t, s);
  }

  // ---- A Service with a selector ----

  /** One `reconcile`: the packing run of each address type, in the order they come up, and the slices found stored. */
  datatype Pass = Pass(parts: seq<Part>, stored: seq<SliceVal>)

  datatype Part = Part(addressType: AddressType, run: Run)

  /** No slice is kept, so every packing run starts from nothing; the API server generates unused names. */
  ghost predicate SelectorPass(pass: Pass, c: Setting, store: Store) {
    && IsListing(pass.stored, store)
    && (forall j, k :: 0 <= j < k < |pass.parts| ==> pass.parts[j].addressType != pass.parts[k].addressType)
    && (forall k :: 0 <= k < |pass.parts| ==>
          && pass.parts[k].run.listing == KeptFor(pass.stored, true, TypesOf(pass.parts), pass.parts[k].addressType)
          && IsOrderOf(pass.parts[k].run.order, c.wanted) && pass.parts[k].run.given(0) !in store)
    && (forall j, k :: 0 <= j < k < |pass.parts| ==> pass.parts[j].run.given(0) != pass.parts[k].run.given(0))
  }

  function TypesOf(parts: seq<Part>): set<AddressType> {
    set k | 0 <= k < |parts| :: parts[k].addressType
  }

  function PackingCalls(parts: seq<Part>, c: Setting): seq<Call> {
    if parts == [] then []
    else
      var n := |parts| - 1;
      PackingCalls(parts[..n], c) + CallsBy(parts[n].run, c.(addressType := parts[n].addressType))
  }

  /** The packing runs, then the deletions of every managed slice that was there. */
  function SelectorCalls(pass: Pass, c: Setting): seq<Call> {
    PackingCalls(pass.parts, c) + DeleteCalls(Condemned(pass.stored, true, TypesOf(pass.parts)))
  }

  lemma {:induction false} NothingKept(ss: seq<SliceVal>, supported: set<AddressType>, t: AddressType)
    ensures KeptFor(ss, true, supported, t) == []
  {
    if ss != [] {
      NothingKept(ss[..|ss| - 1], supported, t);
    }
  }

  /** The one slice a packing run from nothing creates. */
  function NewFrom(run: Run, c: Setting): SliceVal {
    FillOne(NewSlice(c.svc, c.addressType), run.order, c.max).0
  }

  lemma FromNothing(run: Run, c: Setting)
    requires run.listing == [] && IsOrderOf(run.order, c.wanted) && c.wanted != map[] && !c.svc.deleting
    ensures var s := NewFrom(run, c);
            && CallsBy(run, c) == [Create(s, run.given(0))] && Managed(s) && s.addressType == c.addressType
            && |s.endpoints| == Min(|c.wanted|, c.max)
  {
    OrderShape(run.order, c.wanted);
    var s := NewFrom(run, c);
    var p := PlanBy(run, c);
    assert p.creates == [s] && p.updates == [] && p.deletes == [];
    assert CallsBy(run, c) == CreateCalls([s], run.given) + UpdateCalls([]) + DeleteCalls([]);
    EnsureLabelsMeaning(map[], c.svc, MANAGED_BY_LABEL);
  }

  lemma {:induction false} CondemnedNamed(ss: seq<SliceVal>, released: bool, supported: set<AddressType>, name: string)
    ensures Named(Condemned(ss, released, supported), name) <= Named(ss, name)
  {
    if ss != [] {
      var n := |ss| - 1;
      CondemnedNamed(ss[..n], released, supported, name);
      Push(Condemned(ss[..n], released, supported), ss[n], Key([], "", "", ""), name);
      Empty(Condemned(ss[..n], released, supported));
    }
  }

  lemma CondemnedNames(stored: seq<SliceVal>, store: Store, supported: set<AddressType>)
    requires IsListing(stored, store)
    ensures var ds := Condemned(stored, true, supported);
            && DistinctNames(ds)
            && forall name :: HasName(ds, name) <==> name in store && Managed(store[name])
  {
    var ds := Condemned(stored, true, supported);
    forall name ensures Named(ds, name) <= 1 {
      CondemnedNamed(stored, true, supported, name);
      DistinctCount(stored, name);
    }
    CountsMakeDistinct(ds);
    forall name ensures HasName(ds, name) <==> name in store && Managed(store[name]) {
      if i :| 0 <= i < |ds| && ds[i].name == name {
        CondemnedElements(stored, true, supported, ds[i]);
        var j :| 0 <= j < |stored| && stored[j] == ds[i];
      }
      if name in store && Managed(store[name]) {
        var j :| 0 <= j < |stored| && stored[j].name == name;
        CondemnedElements(stored, true, supported, stored[j]);
        var i :| 0 <= i < |ds| && ds[i] == stored[j];
      }
    }
  }

  /** The one call of a packing run from nothing. */
  function PartCall(part: Part, c: Setting): Call {
    Create(NewFrom(part.run, c.(addressType := part.addressType)), part.run.given(0))
  }

  function PartCalls(parts: seq<Part>, c: Setting): seq<Call> {
    seq(|parts|, k requires 0 <= k < |parts| => PartCall(parts[k], c))
  }

  /** The packing runs send one creation each. */
  lemma {:induction false} PackingCreates(parts: seq<Part>, c: Setting)
    requires c.wanted != map[] && !c.svc.deleting
    requires forall k :: 0 <= k < |parts| ==> parts[k].run.listing == [] && IsOrderOf(parts[k].run.order, c.wanted)
    ensures PackingCalls(parts, c) == PartCalls(parts, c)
  {
    if parts != [] {
      var n := |parts| - 1;
      PackingCreates(parts[..n], c);
      FromNothing(parts[n].run, c.(addressType := parts[n].addressType));
      PartCallsLast(parts, c);
    }
  }

  lemma PartCallsLast(parts: seq<Part>, c: Setting)
    requires parts != []
    ensures PartCalls(parts, c) == PartCalls(parts[..|parts| - 1], c) + [PartCall(parts[|parts| - 1], c)]
  {
  }

  lemma ThenDeletes(calls: seq<Call>, ds: seq<SliceVal>, i: nat)
    ensures |calls + DeleteCalls(ds)| == |calls| + |ds|
    ensures i < |calls| ==> (calls + DeleteCalls(ds))[i] == calls[i]
    ensures |calls| <= i < |calls| + |ds| ==> (calls + DeleteCalls(ds))[i] == Delete(ds[i - |calls|].name)
  {
  }

  function Doomed(pass: Pass): seq<SliceVal> {
    Condemned(pass.stored, true, TypesOf(pass.parts))
  }

  /** What the calls of a pass are, one by one. */
  ghost predicate IsPass(pass: Pass, c: Setting, calls: seq<Call>) {
    && |calls| == |pass.parts| + |Doomed(pass)|
    && (forall k :: 0 <= k < |pass.parts| ==> calls[k] == PartCall(pass.parts[k], c))
    && (forall k :: |pass.parts| <= k < |calls| ==> calls[k] == Delete(Doomed(pass)[k - |pass.parts|].name))
  }

  lemma ArePass(pass: Pass, c: Setting)
    ensures IsPass(pass, c, PartCalls(pass.parts, c) + DeleteCalls(Doomed(pass)))
  {
    var packing := PartCalls(pass.parts, c);
    ThenDeletes(packing, Doomed(pass), 0);
    forall k | 0 <= k < |packing| + |Doomed(pass)|
      ensures (packing + DeleteCalls(Doomed(pass)))[k]
           == if k < |packing| then packing[k] else Delete(Doomed(pass)[k - |packing|].name)
    {
      ThenDeletes(packing, Doomed(pass), k);
    }
  }

  lemma SelectorCallsArePass(pass: Pass, c: Setting, store: Store)
    requires SelectorPass(pass, c, store) && c.wanted != map[] && !c.svc.deleting
    ensures IsPass(pass, c, SelectorCalls(pass, c))
  {
    forall k | 0 <= k < |pass.parts|
      ensures pass.parts[k].run.listing == [] && IsOrderOf(pass.parts[k].run.order, c.wanted)
    {
      NothingKept(pass.stored, TypesOf(pass.parts), pass.parts[k].addressType);
    }
    PackingCreates(pass.parts, c);
    ArePass(pass, c);
  }

  /** Creations get unused names, deletions have names that are stored. */
  lemma TargetAt(pass: Pass, c: Setting, store: Store, calls: seq<Call>, i: nat)
    requires SelectorPass(pass, c, store) && IsPass(pass, c, calls) && i < |calls|
    ensures var target, m := Target(calls[i]), |pass.parts|;
            if i < m then target == pass.parts[i].run.given(0) && target !in store
            else target == Doomed(pass)[i - m].name && target in store && Managed(store[target])
  {
    if i >= |pass.parts| {
      CondemnedNames(pass.stored, store, TypesOf(pass.parts));
      assert HasName(Doomed(pass), Doomed(pass)[i - |pass.parts|].name);
    }
  }

  lemma SelectorTargets(pass: Pass, c: Setting, store: Store, calls: seq<Call>)
    requires SelectorPass(pass, c, store) && IsPass(pass, c, calls)
    ensures DistinctTargets(calls)
  {
    CondemnedNames(pass.stored, store, TypesOf(pass.parts));
    forall i, j | 0 <= i < j < |calls| ensures Target(calls[i]) != Target(calls[j]) {
      TargetAt(pass, c, store, calls, i);
      TargetAt(pass, c, store, calls, j);
    }
  }

  predicate CreatedBy(pass: Pass, name: string) {
    exists k :: 0 <= k < |pass.parts| && pass.parts[k].run.given(0) == name
  }

  /** The k-th slice created is new, managed, of its address type, and holds what fits into one slice. */
  ghost predicate NewStored(pass: Pass, c: Setting, store: Store, after: Store, k: int)
    requires 0 <= k < |pass.parts|
  {
    var name := pass.parts[k].run.given(0);
    && name !in store && name in after && Managed(after[name])
    && after[name].addressType == pass.parts[k].addressType && |after[name].endpoints| == Min(|c.wanted|, c.max)
  }

  /** Of each address type just that one managed slice; beside it only what the controller does not manage. */
  ghost predicate OneFull(pass: Pass, c: Setting, store: Store, after: Store) {
    && (forall k :: 0 <= k < |pass.parts| ==> NewStored(pass, c, store, after, k))
    && (forall name :: !CreatedBy(pass, name) ==>
          (name in after <==> name in store && !Managed(store[name])) && (name in after ==> after[name] == store[name]))
  }

  lemma NewSeen(pass: Pass, c: Setting, store: Store, calls: seq<Call>, k: nat)
    requires SelectorPass(pass, c, store) && IsPass(pass, c, calls) && k < |pass.parts|
    requires c.wanted != map[] && !c.svc.deleting
    ensures NewStored(pass, c, store, ApplyAll(store, calls), k)
  {
    SelectorTargets(pass, c, store, calls);
    Targeted(store, calls, |calls|, k);
    TakeAll(calls);
    NothingKept(pass.stored, TypesOf(pass.parts), pass.parts[k].addressType);
    FromNothing(pass.parts[k].run, c.(addressType := pass.parts[k].addressType));
  }

  /** A deletion among calls with targets of their own removes its slice. */
  lemma DeletedGone(store: Store, calls: seq<Call>, j: nat, name: string)
    requires DistinctTargets(calls) && j < |calls| && calls[j] == Delete(name)
    ensures name !in ApplyAll(store, calls) && Delete(name) in calls
  {
    Targeted(store, calls, |calls|, j);
    TakeAll(calls);
  }

  lemma OldGone(pass: Pass, c: Setting, store: Store, calls: seq<Call>, name: string)
    requires SelectorPass(pass, c, store) && IsPass(pass, c, calls) && name in store && Managed(store[name])
    ensures name !in ApplyAll(store, calls) && Delete(name) in calls
  {
    CondemnedNames(pass.stored, store, TypesOf(pass.parts));
    assert HasName(Doomed(pass), name);
    var i :| 0 <= i < |Doomed(pass)| && Doomed(pass)[i].name == name;
    SelectorTargets(pass, c, store, calls);
    DeletedGone(store, calls, |pass.parts| + i, name);
  }

  lemma OthersSeen(pass: Pass, c: Setting, store: Store, calls: seq<Call>, name: string)
    requires SelectorPass(pass, c, store) && IsPass(pass, c, calls)
    requires !(name in store && Managed(store[name])) && !CreatedBy(pass, name)
    ensures Same(ApplyAll(store, calls), store, name)
  {
    forall i | 0 <= i < |calls| ensures Target(calls[i]) != name {
      TargetAt(pass, c, store, calls, i);
    }
    Untargeted(store, calls, |calls|, name);
    TakeAll(calls);
  }

  lemma PassLeavesOneFull(pass: Pass, c: Setting, store: Store, calls: seq<Call>)
    requires SelectorPass(pass, c, store) && IsPass(pass, c, calls) && c.wanted != map[] && !c.svc.deleting
    ensures OneFull(pass, c, store, ApplyAll(store, calls))
  {
    var after := ApplyAll(store, calls);
    forall k | 0 <= k < |pass.parts| ensures NewStored(pass, c, store, after, k) {
      NewSeen(pass, c, store, calls, k);
    }
    forall name | !CreatedBy(pass, name)
      ensures name in after <==> name in store && !Managed(store[name])
      ensures name in after ==> after[name] == store[name]
    {
      if name in store && Managed(store[name]) {
        OldGone(pass, c, store, calls, name);
      } else {
        OthersSeen(pass, c, store, calls, name);
      }
    }
  }

  /** As long as something is desired of a Service with a selector, each pass creates a slice per address type again and
      deletes those of the pass before, and what does not fit into one slice is never placed. */
  lemma SelectorNeverSettles(stores: seq<Store>, passes: seq<Pass>, c: Setting, i: nat, k: nat)
    requires Passes(stores, passes, c) && c.wanted != map[] && !c.svc.deleting
    requires i < |passes| && k < |passes[i].parts|
    ensures OneFull(passes[i], c, stores[i], stores[i + 1])
    ensures k < |SelectorCalls(passes[i], c)| && SelectorCalls(passes[i], c)[k].Create?
    ensures i + 1 < |passes| ==> Delete(passes[i].parts[k].run.given(0)) in SelectorCalls(passes[i + 1], c)
  {
    SelectorCallsArePass(passes[i], c, stores[i]);
    PassLeavesOneFull(passes[i], c, stores[i], SelectorCalls(passes[i], c));
    assert NewStored(passes[i], c, stores[i], stores[i + 1], k);
    if i + 1 < |passes| {
      SelectorCallsArePass(passes[i + 1], c, stores[i + 1]);
      OldGone(passes[i + 1], c, stores[i + 1], SelectorCalls(passes[i + 1], c), passes[i].parts[k].run.given(0));
    }
  }

  // ---- When it settles ----

  /** A chain of completed passes. */
  ghost predicate Passes(stores: seq<Store>, passes: seq<Pass>, c: Setting) {
    && |stores| == |passes| + 1
    && forall j :: 0 <= j < |passes| ==>
         SelectorPass(passes[j], c, stores[j]) && stores[j + 1] == ApplyAll(stores[j], SelectorCalls(passes[j], c))
  }

  lemma NothingToCreate(run: Run, c: Setting)
    requires run.listing == [] && IsOrderOf(run.order, c.wanted) && (c.wanted == map[] || c.svc.deleting)
    ensures CallsBy(run, c) == []
  {
    var p := PlanBy(run, c);
    assert p.updates == [] && p.deletes == [] && (run.order == [] ==> p.creates == []);
    assert CreateCalls([], run.given) == [] && UpdateCalls([]) == [] && DeleteCalls([]) == [];
  }

  lemma {:induction false} NothingPacked(parts: seq<Part>, c: Setting)
    requires c.wanted == map[] || c.svc.deleting
    requires forall k :: 0 <= k < |parts| ==> parts[k].run.listing == [] && IsOrderOf(parts[k].run.order, c.wanted)
    ensures PackingCalls(parts, c) == []
  {
    if parts != [] {
      var n := |parts| - 1;
      NothingPacked(parts[..n], c);
      NothingToCreate(parts[n].run, c.(addressType := parts[n].addressType));
    }
  }

  lemma OnlyDeletes(pass: Pass, c: Setting, store: Store)
    requires SelectorPass(pass, c, store) && (c.wanted == map[] || c.svc.deleting)
    ensures SelectorCalls(pass, c) == DeleteCalls(Doomed(pass))
  {
    forall k | 0 <= k < |pass.parts|
      ensures pass.parts[k].run.listing == [] && IsOrderOf(pass.parts[k].run.order, c.wanted)
    {
      NothingKept(pass.stored, TypesOf(pass.parts), pass.parts[k].addressType);
    }
    NothingPacked(pass.parts, c);
    Empty(DeleteCalls(Doomed(pass)));
  }

  /** Deleting every managed slice leaves none. */
  lemma NoneManaged(pass: Pass, store: Store, name: string)
    requires IsListing(pass.stored, store) && name in ApplyAll(store, DeleteCalls(Doomed(pass)))
    ensures !Managed(ApplyAll(store, DeleteCalls(Doomed(pass)))[name])
  {
    var ds, calls := Doomed(pass), DeleteCalls(Doomed(pass));
    CondemnedNames(pass.stored, store, TypesOf(pass.parts));
    TakeAll(calls);
    if HasName(ds, name) {
      var i :| 0 <= i < |ds| && ds[i].name == name;
      DeletedGone(store, calls, i, name);
    } else {
      Untargeted(store, calls, |calls|, name);
    }
  }

  /** On a chain of passes with an address type to serve, a pass after the first makes no call exactly when nothing is
      desired or the Service is being deleted. */
  lemma WhenItSettles(stores: seq<Store>, passes: seq<Pass>, c: Setting, i: nat)
    requires Passes(stores, passes, c) && i + 1 < |passes| && passes[i + 1].parts != []
    ensures SelectorCalls(passes[i + 1], c) == [] <==> c.wanted == map[] || c.svc.deleting
  {
    var pass, next := passes[i], passes[i + 1];
    if c.wanted == map[] || c.svc.deleting {
      OnlyDeletes(pass, c, stores[i]);
      OnlyDeletes(next, c, stores[i + 1]);
      CondemnedNames(next.stored, stores[i + 1], TypesOf(next.parts));
      if Doomed(next) != [] {
        var name := Doomed(next)[0].name;
        assert HasName(Doomed(next), name);
        NoneManaged(pass, stores[i], name);
      }
    } else {
      SelectorNeverSettles(stores, passes, c, i + 1, 0);
    }
  }

  /** Endpoints are looked for only under policy Local, or without a selector. */
  function DesiredOf(local: bool, hasSelector: bool, found: seq<Endpoint>): Wanted {
    if local || !hasSelector then WantedOf(found) else map[]
  }

  /** So a Service with a selector settles exactly when its policy is not Local, no endpoint is found, or it is
      going. */
  lemma OnlyPolicyLocalStirs(stores: seq<Store>, passes: seq<Pass>, c: Setting, i: nat, local: bool,
                             found: seq<Endpoint>)
    requires Passes(stores, passes, c) && i + 1 < |passes| && passes[i + 1].parts != []
    requires c.wanted == DesiredOf(local, true, found)
    ensures SelectorCalls(passes[i + 1], c) == [] <==> !local || found == [] || c.svc.deleting
  {
    WhenItSettles(stores, passes, c, i);
    if found != [] {
      assert found[|found| - 1].key in WantedOf(found);
    }
  }
}
