/** A whole `reconcile` of a Service without a selector: the runs of its address types one after the other, then the
    deletion of slices of other types. */
module SlicePasses {
  import opened Seqs
  import opened SliceModel
  import opened SliceFinalize
  import opened SliceLaws
  import opened SliceRuns
  import opened SliceTheorems
  import opened SliceSelector

  function At(c: Setting, part: Part): Setting {
    c.(addressType := part.addressType)
  }

  /** What one packing run sends; none if, as written, it reads out of range. */
  ghost function PartCallsBy(part: Part, c: Setting): seq<Call> {
    if !part.run.corrected && Recyclable(PlanBy(part.run, At(c, part)), c.svc) then []
    else CallsBy(part.run, At(c, part))
  }

  ghost function Blocks(parts: seq<Part>, c: Setting): seq<seq<Call>> {
    seq(|parts|, k requires 0 <= k < |parts| => PartCallsBy(parts[k], c))
  }

  function Flatten(blocks: seq<seq<Call>>): seq<Call> {
    if blocks == [] then [] else Flatten(blocks[..|blocks| - 1]) + blocks[|blocks| - 1]
  }

  ghost function ServiceCalls(pass: Pass, c: Setting): seq<Call> {
    Flatten(Blocks(pass.parts, c)) + DeleteCalls(Condemned(pass.stored, false, TypesOf(pass.parts)))
  }

  /** Each address type is reconciled once, with its own slices; the API server generates unused names. */
  ghost predicate ServicePass(pass: Pass, c: Setting, store: Store) {
    && IsListing(pass.stored, store)
    && (forall j, k :: 0 <= j < k < |pass.parts| ==> pass.parts[j].addressType != pass.parts[k].addressType)
    && (forall k :: 0 <= k < |pass.parts| ==>
          && pass.parts[k].run.listing == KeptFor(pass.stored, false, TypesOf(pass.parts), pass.parts[k].addressType)
          && IsOrderOf(pass.parts[k].run.order, SortedBy(pass.parts[k].run, At(c, pass.parts[k])).wanted)
          && pass.parts[k].run.given(0) !in store)
    && (forall j, k :: 0 <= j < k < |pass.parts| ==> pass.parts[j].run.given(0) != pass.parts[k].run.given(0))
  }

  // ---- Stored slices restricted to some names ----

  function Only(store: Store, names: set<string>): Store {
    map name | name in store && name in names :: store[name]
  }

  lemma OnlyApply(store: Store, call: Call, names: set<string>)
    ensures Only(Apply(store, call), names)
         == if Target(call) in names then Apply(Only(store, names), call) else Only(store, names)
  {
  }

  predicate Inside(calls: seq<Call>, names: set<string>) {
    forall i :: 0 <= i < |calls| ==> Target(calls[i]) in names
  }

  predicate Outside(calls: seq<Call>, names: set<string>) {
    forall i :: 0 <= i < |calls| ==> Target(calls[i]) !in names
  }

  /** How far into the middle part a prefix of length n reaches. */
  function Reach(before: nat, middle: nat, n: nat): (m: nat)
    ensures m <= middle
  {
    if n <= before then 0 else if n - before <= middle then n - before else middle
  }

  lemma MiddleAt(a: seq<Call>, mid: seq<Call>, b: seq<Call>, names: set<string>, n: nat)
    requires Outside(a, names) && Inside(mid, names) && Outside(b, names) && n < |a + mid + b|
    ensures Target((a + mid + b)[n]) in names <==> |a| <= n < |a| + |mid|
    ensures |a| <= n < |a| + |mid| ==> (a + mid + b)[n] == mid[n - |a|]
  {
    if n < |a| {
      assert (a + mid + b)[n] == a[n];
    } else if n < |a| + |mid| {
      assert (a + mid + b)[n] == mid[n - |a|];
    } else {
      assert (a + mid + b)[n] == b[n - |a| - |mid|];
    }
  }

  /** Only the middle calls touch these names, so a prefix of all calls shows a prefix of the middle ones. */
  lemma {:induction false} OnlyMiddle(store: Store, a: seq<Call>, mid: seq<Call>, b: seq<Call>, names: set<string>,
                                      n: nat)
    requires Outside(a, names) && Inside(mid, names) && Outside(b, names) && n <= |a + mid + b|
    ensures Only(ApplyAll(store, (a + mid + b)[..n]), names)
         == ApplyAll(Only(store, names), mid[..Reach(|a|, |mid|, n)])
  {
    if n > 0 {
      var calls, m := a + mid + b, n - 1;
      OnlyMiddle(store, a, mid, b, names, m);
      MiddleAt(a, mid, b, names, m);
      ApplyNext(store, calls, m);
      OnlyApply(ApplyAll(store, calls[..m]), calls[m], names);
      if |a| <= m < |a| + |mid| {
        ApplyNext(Only(store, names), mid, m - |a|);
      }
    }
  }

  // ---- Which names a part is about ----

  /** The stored slices of its type, and the name of the slice it may create. */
  ghost function Own(pass: Pass, store: Store, k: nat): set<string>
    requires k < |pass.parts|
  {
    (set name | name in store && store[name].addressType == pass.parts[k].addressType) + {pass.parts[k].run.given(0)}
  }

  lemma {:induction false} KeptNamed(ss: seq<SliceVal>, supported: set<AddressType>, t: AddressType, name: string)
    ensures Named(KeptFor(ss, false, supported, t), name) <= Named(ss, name)
  {
    if ss != [] {
      var n := |ss| - 1;
      KeptNamed(ss[..n], supported, t, name);
      Push(KeptFor(ss[..n], false, supported, t), ss[n], Key([], "", "", ""), name);
      Empty(KeptFor(ss[..n], false, supported, t));
    }
  }

  lemma KeptDistinct(stored: seq<SliceVal>, supported: set<AddressType>, t: AddressType)
    requires DistinctNames(stored)
    ensures DistinctNames(KeptFor(stored, false, supported, t))
  {
    forall name ensures Named(KeptFor(stored, false, supported, t), name) <= 1 {
      KeptNamed(stored, supported, t, name);
      DistinctCount(stored, name);
    }
    CountsMakeDistinct(KeptFor(stored, false, supported, t));
  }

  lemma KeptListing(stored: seq<SliceVal>, store: Store, supported: set<AddressType>, t: AddressType, sub: Store)
    requires IsListing(stored, store) && t in supported
    requires forall name :: name in sub <==> name in store && store[name].addressType == t
    requires forall name :: name in sub ==> sub[name] == store[name]
    ensures IsListing(KeptFor(stored, false, supported, t), sub) && AllOf(KeptFor(stored, false, supported, t), t)
  {
    var ss := KeptFor(stored, false, supported, t);
    KeptDistinct(stored, supported, t);
    forall i | 0 <= i < |ss| ensures ss[i].name in sub && sub[ss[i].name] == ss[i] && ss[i].addressType == t {
      KeptElements(stored, false, supported, t, ss[i]);
      var j :| 0 <= j < |stored| && stored[j] == ss[i];
    }
    forall name | name in sub ensures exists i :: 0 <= i < |ss| && ss[i].name == name {
      var j :| 0 <= j < |stored| && stored[j].name == name;
      KeptElements(stored, false, supported, t, stored[j]);
      var i :| 0 <= i < |ss| && ss[i] == stored[j];
    }
  }

  /** The slices given to a packing run are a listing of what is stored of its type. */
  lemma OwnListing(pass: Pass, c: Setting, store: Store, k: nat)
    requires ServicePass(pass, c, store) && k < |pass.parts|
    ensures IsListing(pass.parts[k].run.listing, Only(store, Own(pass, store, k)))
    ensures AllOf(pass.parts[k].run.listing, pass.parts[k].addressType)
  {
    assert pass.parts[k].addressType in TypesOf(pass.parts);
    KeptListing(pass.stored, store, TypesOf(pass.parts), pass.parts[k].addressType, Only(store, Own(pass, store, k)));
  }

  lemma PartIsPossible(pass: Pass, c: Setting, store: Store, k: nat)
    requires ServicePass(pass, c, store) && k < |pass.parts|
    ensures PartCallsBy(pass.parts[k], c) == []
            || (Possible(pass.parts[k].run, At(c, pass.parts[k]), Only(store, Own(pass, store, k)))
                && PartCallsBy(pass.parts[k], c) == CallsBy(pass.parts[k].run, At(c, pass.parts[k])))
  {
    OwnListing(pass, c, store, k);
  }

  lemma SoundTargets(w: Worklists, t: seq<SliceVal>, store: Store, svc: Service, given: Names, i: nat)
    requires Sound(w, t, store, given) && i < |Calls(w, svc, given)|
    ensures Target(Calls(w, svc, given)[i]) in store || Target(Calls(w, svc, given)[i]) == given(0)
  {
    CallAt(w, svc, given, i);
  }

  lemma PartInside(pass: Pass, c: Setting, store: Store, k: nat)
    requires ServicePass(pass, c, store) && k < |pass.parts|
    ensures Inside(PartCallsBy(pass.parts[k], c), Own(pass, store, k))
  {
    var part, calls := pass.parts[k], PartCallsBy(pass.parts[k], c);
    PartIsPossible(pass, c, store, k);
    if calls != [] {
      var sub := Only(store, Own(pass, store, k));
      SoundRun(part.run, At(c, part), sub);
      forall i | 0 <= i < |calls| ensures Target(calls[i]) in Own(pass, store, k) {
        SoundTargets(ListsBy(part.run, At(c, part)), PlanBy(part.run, At(c, part)).untouched, sub, c.svc,
                     part.run.given, i);
      }
    }
  }

  lemma InsideIsOutside(calls: seq<Call>, a: set<string>, b: set<string>)
    requires Inside(calls, a) && a !! b
    ensures Outside(calls, b)
  {
  }

  lemma OwnApart(pass: Pass, c: Setting, store: Store, j: nat, k: nat)
    requires ServicePass(pass, c, store) && j < |pass.parts| && k < |pass.parts| && j != k
    ensures Own(pass, store, j) !! Own(pass, store, k)
  {
  }

  lemma PartOutside(pass: Pass, c: Setting, store: Store, m: nat, k: nat)
    requires ServicePass(pass, c, store) && m < |pass.parts| && k < |pass.parts| && m != k
    ensures Outside(PartCallsBy(pass.parts[m], c), Own(pass, store, k))
  {
    PartInside(pass, c, store, m);
    OwnApart(pass, c, store, m, k);
    InsideIsOutside(PartCallsBy(pass.parts[m], c), Own(pass, store, m), Own(pass, store, k));
  }

  lemma OutsideJoin(a: seq<Call>, b: seq<Call>, names: set<string>)
    requires Outside(a, names) && Outside(b, names)
    ensures Outside(a + b, names)
  {
  }

  lemma {:induction false} FlattenOutside(blocks: seq<seq<Call>>, names: set<string>)
    requires forall k :: 0 <= k < |blocks| ==> Outside(blocks[k], names)
    ensures Outside(Flatten(blocks), names)
  {
    if blocks != [] {
      var n := |blocks| - 1;
      FlattenOutside(blocks[..n], names);
      OutsideJoin(Flatten(blocks[..n]), blocks[n], names);
    }
  }

  lemma {:induction false} FlattenConcat(a: seq<seq<Call>>, b: seq<seq<Call>>)
    ensures Flatten(a + b) == Flatten(a) + Flatten(b)
  {
    if b == [] {
      Empty(a);
      Empty(Flatten(a));
    } else {
      var n := |b| - 1;
      FlattenConcat(a, b[..n]);
      JoinLast(b);
      Assoc(a, b[..n], [b[n]]);
      InitOfPush(a + b[..n], b[n]);
      Assoc(Flatten(a), Flatten(b[..n]), b[n]);
    }
  }

  lemma FlattenSplit(blocks: seq<seq<Call>>, k: nat)
    requires k < |blocks|
    ensures Flatten(blocks) == Flatten(blocks[..k]) + blocks[k] + Flatten(blocks[k + 1..])
  {
    TakeNext(blocks, k);
    Join(blocks, k + 1);
    FlattenConcat(blocks[..k + 1], blocks[k + 1..]);
  }

  /** All parts but one leave its names alone. */
  lemma PartsSplit(pass: Pass, c: Setting, store: Store, k: nat) returns (a: seq<Call>, b: seq<Call>)
    requires ServicePass(pass, c, store) && k < |pass.parts|
    ensures Flatten(Blocks(pass.parts, c)) == a + PartCallsBy(pass.parts[k], c) + b
    ensures Outside(a, Own(pass, store, k)) && Outside(b, Own(pass, store, k))
  {
    var blocks := Blocks(pass.parts, c);
    FlattenSplit(blocks, k);
    a, b := Flatten(blocks[..k]), Flatten(blocks[k + 1..]);
    forall j | 0 <= j < |blocks| && j != k ensures Outside(blocks[j], Own(pass, store, k)) {
      PartOutside(pass, c, store, j, k);
    }
    FlattenOutside(blocks[..k], Own(pass, store, k));
    FlattenOutside(blocks[k + 1..], Own(pass, store, k));
  }

  /** The slices condemned are of no type that is reconciled. */
  lemma CondemnedOutside(pass: Pass, c: Setting, store: Store, k: nat)
    requires ServicePass(pass, c, store) && k < |pass.parts|
    ensures Outside(DeleteCalls(Condemned(pass.stored, false, TypesOf(pass.parts))), Own(pass, store, k))
  {
    var ds := Condemned(pass.stored, false, TypesOf(pass.parts));
    forall i | 0 <= i < |ds| ensures ds[i].name !in Own(pass, store, k) {
      CondemnedElements(pass.stored, false, TypesOf(pass.parts), ds[i]);
      var j :| 0 <= j < |pass.stored| && pass.stored[j] == ds[i];
      assert pass.parts[k].addressType in TypesOf(pass.parts);
    }
  }

  /** Seen through the names of one type, a prefix of the whole pass is a prefix of that type's run. */
  lemma PassThroughOneType(pass: Pass, c: Setting, store: Store, k: nat, n: nat) returns (m: nat)
    requires ServicePass(pass, c, store) && k < |pass.parts| && n <= |ServiceCalls(pass, c)|
    ensures m <= |PartCallsBy(pass.parts[k], c)|
    ensures Only(ApplyAll(store, ServiceCalls(pass, c)[..n]), Own(pass, store, k))
         == ApplyAll(Only(store, Own(pass, store, k)), PartCallsBy(pass.parts[k], c)[..m])
  {
    var mid, names := PartCallsBy(pass.parts[k], c), Own(pass, store, k);
    var deletions := DeleteCalls(Condemned(pass.stored, false, TypesOf(pass.parts)));
    var a, b := PartsSplit(pass, c, store, k);
    PartInside(pass, c, store, k);
    CondemnedOutside(pass, c, store, k);
    OutsideJoin(b, deletions, names);
    Assoc(a + mid, b, deletions);
    OnlyMiddle(store, a, mid, b + deletions, names, n);
    m := Reach(|a|, |mid|, n);
  }

  // ---- Slices keep their address type ----

  ghost predicate AllOf(ss: seq<SliceVal>, t: AddressType) {
    forall i :: 0 <= i < |ss| ==> ss[i].addressType == t
  }

  ghost predicate SortedOf(r: Sorted, t: AddressType) {
    AllOf(r.updates, t) && AllOf(r.untouched, t)
  }

  lemma PlaceOf(r: Sorted, x: Settled, t: AddressType)
    requires SortedOf(r, t) && x.slice.addressType == t
    ensures SortedOf(Place(r, x), t)
  {
  }

  lemma {:induction false} ClassifyOf(ss: seq<SliceVal>, svc: Service, w: Wanted, t: AddressType)
    requires AllOf(ss, t)
    ensures SortedOf(Classify(ss, svc, w), t)
  {
    if ss != [] {
      var n := |ss| - 1;
      ClassifyOf(ss[..n], svc, w, t);
      var r := Classify(ss[..n], svc, w);
      SettleShape(ss[n], svc, r.wanted);
      PlaceOf(r, Settle(ss[n], svc, r.wanted), t);
    }
  }

  lemma GrownOf(before: seq<SliceVal>, after: seq<SliceVal>, max: nat, t: AddressType)
    requires AllGrown(before, after, max) && AllOf(before, t)
    ensures AllOf(after, t)
  {
    forall i | 0 <= i < |after| ensures after[i].addressType == t {
      assert Grown(before[i], after[i], max);
    }
  }

  lemma FillKeptOf(u: seq<SliceVal>, o: seq<SliceVal>, order: seq<Endpoint>, c: Setting, w: Wanted, t: AddressType)
    requires FromSet(order, w) && AllOf(u, t) && AllOf(o, t)
    ensures AllOf(FillKept(u, o, order, c.max).updates, t)
  {
    FillAllShape(u, order, c.max, c.svc, w);
    var (filled, rest) := FillAll(u, order, c.max);
    GrownOf(u, filled, c.max, t);
    if rest != [] {
      FillAllShape(o, rest, c.max, c.svc, w);
      GrownOf(o, FillAll(o, rest, c.max).0, c.max, t);
    }
  }

  lemma ListsOf(run: Run, c: Setting)
    requires IsOrderOf(run.order, SortedBy(run, c).wanted) && AllOf(run.listing, c.addressType)
    ensures AllOf(ListsBy(run, c).updates, c.addressType) && AllOf(ListsBy(run, c).creates, c.addressType)
  {
    var r := SortedBy(run, c);
    ClassifyOf(run.listing, c.svc, c.wanted, c.addressType);
    OrderShape(run.order, r.wanted);
    FillKeptOf(r.updates, r.untouched, run.order, c, r.wanted, c.addressType);
    PlanShape(run, c);
    RecycledOf(PlanBy(run, c), c, run.corrected);
  }

  lemma RecycledOf(p: Plan, c: Setting, corrected: bool)
    requires AllOf(p.updates, c.addressType) && GoodCreation(p.creates, c)
    ensures AllOf(FinalLists(p, c.svc, corrected).updates, c.addressType)
    ensures AllOf(FinalLists(p, c.svc, corrected).creates, c.addressType)
  {
  }

  ghost predicate StoreOf(store: Store, t: AddressType) {
    forall name :: name in store ==> store[name].addressType == t
  }

  ghost predicate WritesOf(call: Call, t: AddressType) {
    call.Delete? || call.slice.addressType == t
  }

  lemma {:induction false} AppliedOf(store: Store, calls: seq<Call>, n: nat, t: AddressType)
    requires StoreOf(store, t) && n <= |calls| && forall i :: 0 <= i < |calls| ==> WritesOf(calls[i], t)
    ensures StoreOf(ApplyAll(store, calls[..n]), t)
  {
    if n > 0 {
      AppliedOf(store, calls, n - 1, t);
      ApplyNext(store, calls, n - 1);
    }
  }

  lemma CallsOfType(w: Worklists, svc: Service, given: Names, t: AddressType, i: nat)
    requires AllOf(w.updates, t) && AllOf(w.creates, t) && i < |Calls(w, svc, given)|
    ensures WritesOf(Calls(w, svc, given)[i], t)
  {
    CallAt(w, svc, given, i);
  }

  lemma PartKeepsType(pass: Pass, c: Setting, store: Store, k: nat, m: nat)
    requires ServicePass(pass, c, store) && k < |pass.parts| && m <= |PartCallsBy(pass.parts[k], c)|
    ensures StoreOf(ApplyAll(Only(store, Own(pass, store, k)), PartCallsBy(pass.parts[k], c)[..m]),
                    pass.parts[k].addressType)
  {
    var part, calls := pass.parts[k], PartCallsBy(pass.parts[k], c);
    var sub := Only(store, Own(pass, store, k));
    OwnListing(pass, c, store, k);
    PartIsPossible(pass, c, store, k);
    ListsOf(part.run, At(c, part));
    forall i | 0 <= i < |calls| ensures WritesOf(calls[i], part.addressType) {
      CallsOfType(ListsBy(part.run, At(c, part)), c.svc, part.run.given, part.addressType, i);
    }
    AppliedOf(sub, calls, m, part.addressType);
  }

  // ---- Make before break over the whole pass ----

  /** Some stored slice of this type holds the key. */
  ghost predicate HasOf(store: Store, t: AddressType, k: Key) {
    exists name, i :: Occurs(store, name, i, k) && store[name].addressType == t
  }

  lemma HasOnly(pass: Pass, c: Setting, store: Store, k: nat, key: Key)
    requires ServicePass(pass, c, store) && k < |pass.parts| && HasOf(store, pass.parts[k].addressType, key)
    ensures Has(Only(store, Own(pass, store, k)), key)
  {
    var name, i :| Occurs(store, name, i, key) && store[name].addressType == pass.parts[k].addressType;
    assert Occurs(Only(store, Own(pass, store, k)), name, i, key);
  }

  lemma HasInWhole(store: Store, names: set<string>, t: AddressType, key: Key)
    requires StoreOf(Only(store, names), t) && Has(Only(store, names), key)
    ensures HasOf(store, t, key)
  {
    var name, i :| Occurs(Only(store, names), name, i, key);
    assert Occurs(store, name, i, key) && store[name].addressType == Only(store, names)[name].addressType;
  }

  /** At every prefix of all the calls of one `reconcile`, so also if it is cut short by an error in any run or reads
      out of range, each desired key that a slice of a served type held before is held by a slice of that type. */
  lemma WholePassMakesBeforeBreak(pass: Pass, c: Setting, store: Store, n: nat, k: nat, key: Key)
    requires ServicePass(pass, c, store) && n <= |ServiceCalls(pass, c)| && k < |pass.parts|
    requires key in c.wanted && HasOf(store, pass.parts[k].addressType, key)
    ensures HasOf(ApplyAll(store, ServiceCalls(pass, c)[..n]), pass.parts[k].addressType, key)
  {
    var part, names := pass.parts[k], Own(pass, store, k);
    var sub, calls := Only(store, names), PartCallsBy(part, c);
    var m := PassThroughOneType(pass, c, store, k, n);
    HasOnly(pass, c, store, k, key);
    PartIsPossible(pass, c, store, k);
    if calls != [] {
      MakeBeforeBreak(part.run, At(c, part), sub, m, key);
    } else {
      assert calls[..m] == [];
    }
    PartKeepsType(pass, c, store, k, m);
    HasInWhole(ApplyAll(store, ServiceCalls(pass, c)[..n]), names, part.addressType, key);
  }

  /** A slice of a type the Service does not support any more is gone after the whole pass. */
  lemma UnsupportedGone(pass: Pass, c: Setting, store: Store, name: string)
    requires ServicePass(pass, c, store) && name in store && store[name].addressType !in TypesOf(pass.parts)
    ensures name !in ApplyAll(store, ServiceCalls(pass, c))
  {
    var ds := Condemned(pass.stored, false, TypesOf(pass.parts));
    var j :| 0 <= j < |pass.stored| && pass.stored[j].name == name;
    CondemnedElements(pass.stored, false, TypesOf(pass.parts), pass.stored[j]);
    var i :| 0 <= i < |ds| && ds[i] == pass.stored[j];
    DeletedLast(ApplyAll(store, Flatten(Blocks(pass.parts, c))), ds, |ds|, i);
    AppliedInTurn(store, Flatten(Blocks(pass.parts, c)), DeleteCalls(ds));
    TakeAll(ds);
  }

  lemma {:induction false} AppliedInTurn(store: Store, a: seq<Call>, b: seq<Call>)
    ensures ApplyAll(store, a + b) == ApplyAll(ApplyAll(store, a), b)
  {
    if b == [] {
      Empty(a);
    } else {
      var n := |b| - 1;
      AppliedInTurn(store, a, b[..n]);
      JoinLast(b);
      Assoc(a, b[..n], [b[n]]);
      InitOfPush(a + b[..n], b[n]);
    }
  }

  lemma {:induction false} DeletedLast(store: Store, ds: seq<SliceVal>, n: nat, i: nat)
    requires i < n <= |ds|
    ensures ds[i].name !in ApplyAll(store, DeleteCalls(ds[..n]))
  {
    var calls := DeleteCalls(ds[..n]);
    assert calls[..n - 1] == DeleteCalls(ds[..n - 1]) && calls[n - 1] == Delete(ds[n - 1].name);
    if i < n - 1 {
      DeletedLast(store, ds, n - 1, i);
    }
  }
}
