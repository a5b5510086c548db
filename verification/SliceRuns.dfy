/** One complete packing run against the stored slices. */
module SliceRuns {
  import opened Seqs
  import opened SliceModel
  import opened SliceFinalize
  import opened SliceLaws

  datatype Setting = Setting(svc: Service, addressType: AddressType, wanted: Wanted, max: nat)

  /** What the environment chooses: listing and popping order, generated names. `corrected`: with the intended
      recycling. */
  datatype Run = Run(listing: seq<SliceVal>, order: seq<Endpoint>, given: Names, corrected: bool)

  function SortedBy(run: Run, c: Setting): Sorted {
    Classify(run.listing, c.svc, c.wanted)
  }

  function PlanBy(run: Run, c: Setting): Plan {
    PlanOf(SortedBy(run, c), c.svc, c.addressType, run.order, c.max)
  }

  /** The run can happen on this store. As written, a run with a recyclable pair reads out of range instead. */
  ghost predicate Possible(run: Run, c: Setting, store: Store) {
    && IsListing(run.listing, store)
    && IsOrderOf(run.order, SortedBy(run, c).wanted)
    && run.given(0) !in store
    && (run.corrected || !Recyclable(PlanBy(run, c), c.svc))
  }

  function ListsBy(run: Run, c: Setting): Worklists {
    FinalLists(PlanBy(run, c), c.svc, run.corrected)
  }

  function Calls(w: Worklists, svc: Service, given: Names): seq<Call> {
    CallsOf(w.creates, w.updates, w.deletes, svc, given)
  }

  function CallsBy(run: Run, c: Setting): seq<Call> {
    Calls(ListsBy(run, c), c.svc, run.given)
  }

  function After(run: Run, c: Setting, store: Store): Store {
    ApplyAll(store, CallsBy(run, c))
  }

  // ---- Names ----

  lemma PlanNames(run: Run, c: Setting, name: string)
    requires IsOrderOf(run.order, SortedBy(run, c).wanted)
    ensures var p := PlanBy(run, c);
            Named(p.updates, name) + Named(p.deletes, name) + Named(p.untouched, name) == Named(run.listing, name)
  {
    var r := SortedBy(run, c);
    OrderShape(run.order, r.wanted);
    ClassifyLaw(run.listing, c.svc, c.wanted, Key([], "", "", ""), name);
    FillAllShape(r.updates, run.order, c.max, c.svc, r.wanted);
    var (filled, rest) := FillAll(r.updates, run.order, c.max);
    GrownNames(r.updates, filled, c.max, name);
    if rest != [] {
      FillAllShape(r.untouched, rest, c.max, c.svc, r.wanted);
      var touched := FillAll(r.untouched, rest, c.max).0;
      GrownNames(r.untouched, touched, c.max, name);
      NamedConcat(filled, touched, name);
    }
  }

  lemma NamedWithout(deletes: seq<SliceVal>, i: nat, name: string)
    requires i < |deletes|
    ensures Named(Without(deletes, i), name) + (if deletes[i].name == name then 1 else 0) == Named(deletes, name)
  {
    NamedConcat(deletes[..i], deletes[i + 1..], name);
    Join(deletes, i);
    assert deletes[i..] == [deletes[i]] + deletes[i + 1..];
    NamedConcat(deletes[..i], deletes[i..], name);
    NamedConcat([deletes[i]], deletes[i + 1..], name);
    assert [deletes[i]][..0] == [];
  }

  lemma ListNames(run: Run, c: Setting, name: string)
    requires IsOrderOf(run.order, SortedBy(run, c).wanted)
    ensures var w := ListsBy(run, c);
            Named(w.updates, name) + Named(w.deletes, name) + Named(PlanBy(run, c).untouched, name)
              == Named(run.listing, name)
  {
    PlanNames(run, c, name);
    var p := PlanBy(run, c);
    if run.corrected && p.creates != [] {
      var i := FirstReusable(p.deletes, p.creates[0], c.svc);
      if i < |p.deletes| {
        NamedWithout(p.deletes, i, name);
        Push(p.updates, p.creates[0].(name := p.deletes[i].name), Key([], "", "", ""), name);
      }
    }
  }

  // ---- Worklists against the store ----

  ghost predicate NamesApart(a: seq<SliceVal>, b: seq<SliceVal>) {
    forall i, j :: 0 <= i < |a| && 0 <= j < |b| ==> a[i].name != b[j].name
  }

  ghost predicate NamesIn(a: seq<SliceVal>, store: Store) {
    forall i :: 0 <= i < |a| ==> a[i].name in store
  }

  ghost predicate HasName(a: seq<SliceVal>, name: string) {
    exists i :: 0 <= i < |a| && a[i].name == name
  }

  /** Every stored slice is on exactly one of the lists; `t`, the untouched ones, as it is stored. */
  ghost predicate Sound(w: Worklists, t: seq<SliceVal>, store: Store, given: Names) {
    && DistinctNames(w.updates) && DistinctNames(w.deletes) && DistinctNames(t)
    && NamesApart(w.updates, w.deletes) && NamesApart(w.updates, t) && NamesApart(w.deletes, t)
    && NamesIn(w.updates, store) && NamesIn(w.deletes, store)
    && (forall i :: 0 <= i < |t| ==> t[i].name in store && store[t[i].name] == t[i])
    && (forall name :: name in store ==> HasName(w.updates, name) || HasName(w.deletes, name) || HasName(t, name))
    && |w.creates| <= 1 && given(0) !in store
  }

  lemma CountsMakeDistinct(a: seq<SliceVal>)
    requires forall name :: Named(a, name) <= 1
    ensures DistinctNames(a)
  {
    forall i, j | 0 <= i < j < |a| ensures a[i].name != a[j].name {
      NamedAt(a, i);
    }
  }

  lemma CountsMakeApart(a: seq<SliceVal>, b: seq<SliceVal>)
    requires forall name :: Named(a, name) + Named(b, name) <= 1
    ensures NamesApart(a, b)
  {
    forall i, j | 0 <= i < |a| && 0 <= j < |b| ensures a[i].name != b[j].name {
      NamedAt(a, i);
      NamedAt(b, j);
    }
  }

  lemma NamedNames(a: seq<SliceVal>, name: string)
    ensures Named(a, name) > 0 <==> HasName(a, name)
  {
    if Named(a, name) > 0 {
      var i := NamedWitness(a, name);
    }
    if i :| 0 <= i < |a| && a[i].name == name {
      NamedAt(a, i);
    }
  }

  /** Counting names against a listing gives soundness. */
  lemma CountsMakeSound(w: Worklists, t: seq<SliceVal>, store: Store, given: Names, listing: seq<SliceVal>)
    requires IsListing(listing, store) && |w.creates| <= 1 && given(0) !in store
    requires forall name :: Named(w.updates, name) + Named(w.deletes, name) + Named(t, name) == Named(listing, name)
    requires forall i :: 0 <= i < |t| ==> t[i].name in store && store[t[i].name] == t[i]
    ensures Sound(w, t, store, given)
  {
    forall name ensures Named(listing, name) <= 1 && (Named(listing, name) > 0 <==> name in store) {
      DistinctCount(listing, name);
      NamedNames(listing, name);
    }
    forall name ensures Named(w.updates, name) + Named(w.deletes, name) + Named(t, name) <= 1 {
    }
    CountsMakeDistinct(w.updates);
    CountsMakeDistinct(w.deletes);
    CountsMakeDistinct(t);
    CountsMakeApart(w.updates, w.deletes);
    CountsMakeApart(w.updates, t);
    CountsMakeApart(w.deletes, t);
    forall i | 0 <= i < |w.updates| ensures w.updates[i].name in store {
      NamedAt(w.updates, i);
    }
    forall i | 0 <= i < |w.deletes| ensures w.deletes[i].name in store {
      NamedAt(w.deletes, i);
    }
    forall name | name in store ensures HasName(w.updates, name) || HasName(w.deletes, name) || HasName(t, name) {
      NamedNames(w.updates, name);
      NamedNames(w.deletes, name);
      NamedNames(t, name);
    }
  }

  lemma {:induction false} UntouchedListed(ss: seq<SliceVal>, svc: Service, w: Wanted, i: nat) returns (j: nat)
    requires i < |Classify(ss, svc, w).untouched|
    ensures j < |ss| && ss[j] == Classify(ss, svc, w).untouched[i]
  {
    var n := |ss| - 1;
    var r := Classify(ss[..n], svc, w);
    if i < |r.untouched| {
      j := UntouchedListed(ss[..n], svc, w, i);
    } else {
      j := n;
    }
  }

  lemma OneCreation(run: Run, c: Setting)
    ensures |ListsBy(run, c).creates| <= 1
  {
  }

  lemma SoundRun(run: Run, c: Setting, store: Store)
    requires Possible(run, c, store)
    ensures Sound(ListsBy(run, c), PlanBy(run, c).untouched, store, run.given)
  {
    var w, t := ListsBy(run, c), PlanBy(run, c).untouched;
    OneCreation(run, c);
    forall name ensures Named(w.updates, name) + Named(w.deletes, name) + Named(t, name) == Named(run.listing, name) {
      ListNames(run, c, name);
    }
    assert t == [] || t == SortedBy(run, c).untouched;
    forall i | 0 <= i < |t| ensures t[i].name in store && store[t[i].name] == t[i] {
      var j := UntouchedListed(run.listing, c.svc, c.wanted, i);
    }
    CountsMakeSound(w, t, store, run.given, run.listing);
  }

  // ---- Reading the store after some of the calls ----

  function Target(call: Call): string {
    match call
    case Create(_, given) => given
    case Update(s) => s.name
    case Delete(name) => name
  }

  ghost predicate DistinctTargets(calls: seq<Call>) {
    forall i, j :: 0 <= i < j < |calls| ==> Target(calls[i]) != Target(calls[j])
  }

  ghost predicate Same(a: Store, b: Store, name: string) {
    (name in a <==> name in b) && (name in a ==> a[name] == b[name])
  }

  lemma ApplyNext(store: Store, calls: seq<Call>, n: nat)
    requires n < |calls|
    ensures ApplyAll(store, calls[..n + 1]) == Apply(ApplyAll(store, calls[..n]), calls[n])
  {
    TakeNext(calls, n);
  }

  lemma {:induction false} Untargeted(store: Store, calls: seq<Call>, n: nat, name: string)
    requires n <= |calls| && forall i :: 0 <= i < n ==> Target(calls[i]) != name
    ensures Same(ApplyAll(store, calls[..n]), store, name)
  {
    if n > 0 {
      Untargeted(store, calls, n - 1, name);
      ApplyNext(store, calls, n - 1);
    }
  }

  /** Since every call has its own target, its effect stays visible. */
  lemma {:induction false} Targeted(store: Store, calls: seq<Call>, n: nat, i: nat)
    requires DistinctTargets(calls) && i < n <= |calls|
    ensures Same(ApplyAll(store, calls[..n]), Apply(store, calls[i]), Target(calls[i]))
  {
    ApplyNext(store, calls, n - 1);
    if i < n - 1 {
      Targeted(store, calls, n - 1, i);
      assert Target(calls[i]) != Target(calls[n - 1]);
    }
  }

  // Where the updates start among the calls.
  function Creations(w: Worklists, svc: Service): nat {
    if svc.deleting then 0 else |w.creates|
  }

  lemma CallAt(w: Worklists, svc: Service, given: Names, i: nat)
    ensures var m, u, calls := Creations(w, svc), |w.updates|, Calls(w, svc, given);
            && |calls| == m + u + |w.deletes|
            && (i < m ==> calls[i] == Create(w.creates[i], given(i)))
            && (m <= i < m + u ==> calls[i] == Update(w.updates[i - m]))
            && (m + u <= i < m + u + |w.deletes| ==> calls[i] == Delete(w.deletes[i - m - u].name))
  {
  }

  lemma SoundCalls(w: Worklists, t: seq<SliceVal>, store: Store, svc: Service, given: Names)
    requires Sound(w, t, store, given)
    ensures DistinctTargets(Calls(w, svc, given))
  {
    var calls := Calls(w, svc, given);
    CallAt(w, svc, given, 0);
    forall i, j | 0 <= i < j < |calls| ensures Target(calls[i]) != Target(calls[j]) {
      CallAt(w, svc, given, i);
      CallAt(w, svc, given, j);
    }
  }

  /** The i-th update shows from its call on, and until then the old content does. */
  lemma UpdateSeen(w: Worklists, t: seq<SliceVal>, store: Store, svc: Service, given: Names, n: nat, i: nat)
    requires Sound(w, t, store, given) && i < |w.updates| && n <= |Calls(w, svc, given)|
    ensures var s := w.updates[i];
            Same(ApplyAll(store, Calls(w, svc, given)[..n]),
                 if Creations(w, svc) + i < n then store[s.name := s] else store, s.name)
  {
    var m, calls, s := Creations(w, svc), Calls(w, svc, given), w.updates[i];
    SoundCalls(w, t, store, svc, given);
    CallAt(w, svc, given, m + i);
    if m + i < n {
      Targeted(store, calls, n, m + i);
    } else {
      forall k | 0 <= k < n ensures Target(calls[k]) != s.name {
        assert Target(calls[k]) != Target(calls[m + i]);
      }
      Untargeted(store, calls, n, s.name);
    }
  }

  lemma DeleteSeen(w: Worklists, t: seq<SliceVal>, store: Store, svc: Service, given: Names, i: nat)
    requires Sound(w, t, store, given) && i < |w.deletes|
    ensures w.deletes[i].name !in ApplyAll(store, Calls(w, svc, given))
  {
    var m, calls := Creations(w, svc), Calls(w, svc, given);
    SoundCalls(w, t, store, svc, given);
    CallAt(w, svc, given, m + |w.updates| + i);
    Targeted(store, calls, |calls|, m + |w.updates| + i);
    TakeAll(calls);
  }

  lemma UntouchedSeen(w: Worklists, t: seq<SliceVal>, store: Store, svc: Service, given: Names, n: nat, i: nat)
    requires Sound(w, t, store, given) && i < |t| && n <= |Calls(w, svc, given)|
    ensures Same(ApplyAll(store, Calls(w, svc, given)[..n]), store, t[i].name)
  {
    var calls := Calls(w, svc, given);
    forall k | 0 <= k < n ensures Target(calls[k]) != t[i].name {
      CallAt(w, svc, given, k);
    }
    Untargeted(store, calls, n, t[i].name);
  }

  lemma CreateSeen(w: Worklists, t: seq<SliceVal>, store: Store, svc: Service, given: Names)
    requires Sound(w, t, store, given) && w.creates != [] && !svc.deleting
    ensures var after := ApplyAll(store, Calls(w, svc, given));
            given(0) in after && after[given(0)] == w.creates[0].(name := given(0))
  {
    var calls := Calls(w, svc, given);
    SoundCalls(w, t, store, svc, given);
    CallAt(w, svc, given, 0);
    Targeted(store, calls, |calls|, 0);
    TakeAll(calls);
  }

  lemma NothingElseSeen(w: Worklists, t: seq<SliceVal>, store: Store, svc: Service, given: Names, name: string)
    requires Sound(w, t, store, given) && name in ApplyAll(store, Calls(w, svc, given)) && !svc.deleting
    ensures name in store || (w.creates != [] && name == given(0))
  {
    var calls := Calls(w, svc, given);
    if name !in store && !(w.creates != [] && name == given(0)) {
      forall k | 0 <= k < |calls| ensures Target(calls[k]) != name {
        CallAt(w, svc, given, k);
      }
      Untargeted(store, calls, |calls|, name);
      TakeAll(calls);
    }
  }

  /** The slices stored once all calls are through. */
  ghost function Final(w: Worklists, t: seq<SliceVal>, given: Names): seq<SliceVal> {
    w.updates + t + (if w.creates == [] then [] else [w.creates[0].(name := given(0))])
  }

  lemma FinalStored(w: Worklists, t: seq<SliceVal>, store: Store, svc: Service, given: Names, i: nat)
    requires Sound(w, t, store, given) && !svc.deleting && i < |Final(w, t, given)|
    ensures var s, after := Final(w, t, given)[i], ApplyAll(store, Calls(w, svc, given));
            s.name in after && after[s.name] == s
  {
    var calls := Calls(w, svc, given);
    TakeAll(calls);
    CallAt(w, svc, given, 0);
    if i < |w.updates| {
      UpdateSeen(w, t, store, svc, given, |calls|, i);
    } else if i < |w.updates| + |t| {
      UntouchedSeen(w, t, store, svc, given, |calls|, i - |w.updates|);
    } else {
      CreateSeen(w, t, store, svc, given);
    }
  }

  lemma StoredFinal(w: Worklists, t: seq<SliceVal>, store: Store, svc: Service, given: Names, name: string)
    requires Sound(w, t, store, given) && !svc.deleting && name in ApplyAll(store, Calls(w, svc, given))
    ensures HasName(Final(w, t, given), name)
  {
    NothingElseSeen(w, t, store, svc, given, name);
    var f := Final(w, t, given);
    if name !in store {
      assert f[|w.updates| + |t|].name == name;
    } else if HasName(w.updates, name) {
      var i :| 0 <= i < |w.updates| && w.updates[i].name == name;
      assert f[i].name == name;
    } else if HasName(t, name) {
      var i :| 0 <= i < |t| && t[i].name == name;
      assert f[|w.updates| + i].name == name;
    } else {
      var i :| 0 <= i < |w.deletes| && w.deletes[i].name == name;
      DeleteSeen(w, t, store, svc, given, i);
    }
  }

  /** The final slices are exactly what is stored. */
  lemma FinalIsListing(w: Worklists, t: seq<SliceVal>, store: Store, svc: Service, given: Names)
    requires Sound(w, t, store, given) && !svc.deleting
    ensures IsListing(Final(w, t, given), ApplyAll(store, Calls(w, svc, given)))
  {
    var f, after := Final(w, t, given), ApplyAll(store, Calls(w, svc, given));
    assert DistinctNames(f);
    forall i | 0 <= i < |f| ensures f[i].name in after && after[f[i].name] == f[i] {
      FinalStored(w, t, store, svc, given, i);
    }
    forall name | name in after ensures exists i :: 0 <= i < |f| && f[i].name == name {
      StoredFinal(w, t, store, svc, given, name);
    }
  }
}
