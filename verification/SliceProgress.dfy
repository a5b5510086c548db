/** Chains of packing runs: how much each run places, and when there is nothing left to do. */
module SliceProgress {
  import opened Seqs
  import opened SliceModel
  import opened SliceLaws
  import opened SliceRuns
  import opened SliceTheorems
  import opened SliceConvergence

  /** The desired keys no slice holds. */
  ghost function Unplaced(store: Store, wanted: Wanted): set<Key> {
    set k | k in wanted && !Has(store, k)
  }

  ghost function KeysOf(eps: seq<Endpoint>): set<Key> {
    if eps == [] then {} else KeysOf(eps[..|eps| - 1]) + {eps[|eps| - 1].key}
  }

  lemma {:induction false} KeysCount(eps: seq<Endpoint>)
    ensures forall k :: k in KeysOf(eps) <==> KeyCount(eps, k) > 0
    ensures (forall k :: KeyCount(eps, k) <= 1) ==> |KeysOf(eps)| == |eps|
  {
    if eps != [] {
      var n := |eps| - 1;
      KeysCount(eps[..n]);
      if forall k :: KeyCount(eps, k) <= 1 {
        forall k ensures KeyCount(eps[..n], k) <= 1 {
          assert KeyCount(eps, k) <= 1;
        }
        assert KeyCount(eps, eps[n].key) <= 1;
        assert eps[n].key !in KeysOf(eps[..n]);
      }
    }
  }

  /** Step 1 strikes off exactly the keys some slice holds. */
  lemma OrderIsUnplaced(run: Run, c: Setting, store: Store)
    requires IsListing(run.listing, store) && IsOrderOf(run.order, SortedBy(run, c).wanted)
    ensures |run.order| == |Unplaced(store, c.wanted)|
  {
    var r := SortedBy(run, c);
    ClassifyShape(run.listing, c.svc, c.wanted);
    OrderShape(run.order, r.wanted);
    forall k ensures k in r.wanted <==> k in Unplaced(store, c.wanted) {
      ClassifyLaw(run.listing, c.svc, c.wanted, k, "");
      HasStored(run.listing, store, k);
    }
    assert r.wanted.Keys == Unplaced(store, c.wanted);
  }

  lemma LeftoverKeys(left: seq<Endpoint>, f: seq<SliceVal>, after: Store, wanted: Wanted)
    requires IsListing(f, after) && forall k :: Stored(f, k) + KeyCount(left, k) == In(wanted, k)
    ensures |left| == |Unplaced(after, wanted)|
  {
    KeysCount(left);
    forall k ensures KeyCount(left, k) <= 1 && (KeyCount(left, k) > 0 <==> k in Unplaced(after, wanted)) {
      assert Stored(f, k) + KeyCount(left, k) == In(wanted, k);
      HasStored(f, after, k);
    }
    assert KeysOf(left) == Unplaced(after, wanted);
  }

  lemma LeftoverIsUnplaced(run: Run, c: Setting, store: Store)
    requires Possible(run, c, store) && !c.svc.deleting
    ensures |PlanBy(run, c).leftover| == |Unplaced(After(run, c, store), c.wanted)|
  {
    AfterIsFinal(run, c, store);
    forall k ensures Stored(FinalBy(run, c), k) + KeyCount(PlanBy(run, c).leftover, k) == In(c.wanted, k) {
      FinalLaw(run, c, k);
    }
    LeftoverKeys(PlanBy(run, c).leftover, FinalBy(run, c), After(run, c, store), c.wanted);
  }

  /** Any run places exactly what the spare room of its kept slices and one new slice can take. */
  lemma OneRun(run: Run, c: Setting, store: Store)
    requires Possible(run, c, store) && !c.svc.deleting
    ensures |Unplaced(After(run, c, store), c.wanted)|
         == Minus(|Unplaced(store, c.wanted)|, SpareRoom(SortedBy(run, c), c.max) + c.max)
  {
    var r := SortedBy(run, c);
    OrderIsUnplaced(run, c, store);
    LeftoverIsUnplaced(run, c, store);
    ClassifyShape(run.listing, c.svc, c.wanted);
    OrderShape(run.order, r.wanted);
    PlanOfShape(r, run.order, c);
  }

  // ---- From the second run on ----

  /** A store some completed run left behind. */
  ghost predicate Calm(store: Store, listing: seq<SliceVal>, c: Setting) {
    && IsListing(listing, store) && AllRight(listing, c.svc, c.wanted)
    && (forall k :: Stored(listing, k) <= 1)
    && (Unplaced(store, c.wanted) != {} ==> NoRoom(listing, c.max))
  }

  lemma CalmAfter(run: Run, c: Setting, store: Store)
    requires Possible(run, c, store) && !c.svc.deleting
    ensures Calm(After(run, c, store), FinalBy(run, c), c)
  {
    AfterIsFinal(run, c, store);
    FinalShape(run, c);
    LeftoverIsUnplaced(run, c, store);
    forall k ensures Stored(FinalBy(run, c), k) <= 1 {
      FinalLaw(run, c, k);
    }
  }

  lemma {:induction false} CoverCalm(eps: seq<Endpoint>, wanted: Wanted, rest: Wanted)
    requires AllAgree(eps, wanted)
    requires forall k :: KeyCount(eps, k) <= 1
    requires forall k :: KeyCount(eps, k) > 0 && k in wanted ==> k in rest && rest[k] == wanted[k]
    ensures var v := CoverOf(eps, rest); |v.covered| == |eps| && !v.stale
  {
    if eps != [] {
      var n := |eps| - 1;
      forall k ensures KeyCount(eps[..n], k) <= 1 && (KeyCount(eps[..n], k) > 0 ==> KeyCount(eps, k) > 0) {
        assert KeyCount(eps, k) <= 1;
      }
      assert forall i :: 0 <= i < n ==> Agrees(eps[..n][i], wanted);
      CoverCalm(eps[..n], wanted, rest);
      assert KeyCount(eps, eps[n].key) <= 1;
      CoverLaw(eps[..n], rest, eps[n].key);
      CoverSubset(eps[..n], rest);
      assert Agrees(eps[n], wanted);
    }
  }

  lemma SettleCalm(s: SliceVal, svc: Service, wanted: Wanted, rest: Wanted)
    requires Right(s, svc, wanted)
    requires forall k :: KeyCount(s.endpoints, k) <= 1
    requires forall k :: KeyCount(s.endpoints, k) > 0 && k in wanted ==> k in rest && rest[k] == wanted[k]
    ensures Settle(s, svc, rest).fate == Keep && Settle(s, svc, rest).slice == s
  {
    CoverCalm(s.endpoints, wanted, rest);
  }

  lemma {:induction false} ClassifyCalm(ss: seq<SliceVal>, svc: Service, wanted: Wanted)
    requires AllRight(ss, svc, wanted) && forall k :: Stored(ss, k) <= 1
    ensures var r := Classify(ss, svc, wanted); r == Sorted([], [], ss, r.wanted)
  {
    if ss != [] {
      var n := |ss| - 1;
      forall k ensures Stored(ss[..n], k) <= 1 && KeyCount(ss[n].endpoints, k) <= 1 {
        assert Stored(ss, k) <= 1;
      }
      ClassifyCalm(ss[..n], svc, wanted);
      var r := Classify(ss[..n], svc, wanted);
      ClassifyShape(ss[..n], svc, wanted);
      forall k | KeyCount(ss[n].endpoints, k) > 0 && k in wanted ensures k in r.wanted && r.wanted[k] == wanted[k] {
        assert Stored(ss, k) <= 1;
        ClassifyLaw(ss[..n], svc, wanted, k, "");
      }
      SettleCalm(ss[n], svc, wanted, r.wanted);
      JoinLast(ss);
    }
  }

  /** Two listings of one store count alike. */
  lemma Relisted(a: seq<SliceVal>, b: seq<SliceVal>, store: Store, c: Setting)
    requires Calm(store, a, c) && IsListing(b, store)
    ensures Calm(store, b, c)
  {
    forall i | 0 <= i < |b| ensures Right(b[i], c.svc, c.wanted) && (NoRoom(a, c.max) ==> Room(b[i], c.max) == 0) {
      var j :| 0 <= j < |a| && a[j].name == b[i].name;
    }
    forall k ensures Stored(b, k) <= 1 {
      if Stored(b, k) > 1 {
        RelistedOnce(a, b, store, k);
      }
    }
  }

  lemma {:induction false} ManyStored(ss: seq<SliceVal>, k: Key) returns (a: nat, i: nat, b: nat, j: nat)
    requires Stored(ss, k) > 1
    ensures a < |ss| && b < |ss| && i < |ss[a].endpoints| && j < |ss[b].endpoints|
    ensures ss[a].endpoints[i].key == k && ss[b].endpoints[j].key == k && (a != b || i != j)
  {
    var n := |ss| - 1;
    if KeyCount(ss[n].endpoints, k) > 1 {
      a, b := n, n;
      i, j := ManyCounted(ss[n].endpoints, k);
    } else if KeyCount(ss[n].endpoints, k) == 1 {
      b := n;
      j := KeyCountWitness(ss[n].endpoints, k);
      a := StoredWitness(ss[..n], k);
      i := KeyCountWitness(ss[a].endpoints, k);
    } else {
      a, i, b, j := ManyStored(ss[..n], k);
    }
  }

  lemma {:induction false} ManyCounted(eps: seq<Endpoint>, k: Key) returns (i: nat, j: nat)
    requires KeyCount(eps, k) > 1
    ensures i < j < |eps| && eps[i].key == k && eps[j].key == k
  {
    var n := |eps| - 1;
    if eps[n].key == k {
      j := n;
      i := KeyCountWitness(eps[..n], k);
    } else {
      i, j := ManyCounted(eps[..n], k);
    }
  }

  lemma RelistedOnce(a: seq<SliceVal>, b: seq<SliceVal>, store: Store, k: Key)
    requires IsListing(a, store) && IsListing(b, store) && Stored(b, k) > 1
    ensures Stored(a, k) > 1
  {
    var x, i, y, j := ManyStored(b, k);
    var m, n := b[x].name, b[y].name;
    assert m != n || i != j;
    assert Occurs(store, m, i, k) && Occurs(store, n, j, k);
    if Stored(a, k) <= 1 {
      StoredOnce(a, store, k, m, i, n, j);
    }
  }

  lemma {:induction false} NoRoomTotal(ss: seq<SliceVal>, max: nat)
    requires NoRoom(ss, max)
    ensures TotalRoom(ss, max) == 0
  {
    if ss != [] {
      NoRoomTotal(ss[..|ss| - 1], max);
    }
  }

  /** A later run keeps every slice, deletes none, so recycles none, and places up to one new slice full. */
  lemma LaterRun(run: Run, c: Setting, store: Store, listing: seq<SliceVal>)
    requires Possible(run, c, store) && !c.svc.deleting && Calm(store, listing, c)
    ensures SortedBy(run, c).untouched == run.listing && PlanBy(run, c).deletes == []
    ensures |Unplaced(After(run, c, store), c.wanted)| == Minus(|Unplaced(store, c.wanted)|, c.max)
    ensures Unplaced(store, c.wanted) == {} ==> CallsBy(run, c) == [] && After(run, c, store) == store
  {
    Relisted(listing, run.listing, store, c);
    ClassifyCalm(run.listing, c.svc, c.wanted);
    OrderIsUnplaced(run, c, store);
    OneRun(run, c, store);
    if Unplaced(store, c.wanted) != {} {
      NoRoomTotal(run.listing, c.max);
    }
  }

  // ---- Chains ----

  ghost predicate Chain(runs: seq<Run>, stores: seq<Store>, c: Setting) {
    && |stores| == |runs| + 1
    && forall i :: 0 <= i < |runs| ==> Possible(runs[i], c, stores[i]) && stores[i + 1] == After(runs[i], c, stores[i])
  }

  lemma {:induction false} Placed(runs: seq<Run>, stores: seq<Store>, c: Setting, i: nat)
    requires Chain(runs, stores, c) && !c.svc.deleting && 1 <= i <= |runs|
    ensures |Unplaced(stores[i], c.wanted)| == Minus(|Unplaced(stores[1], c.wanted)|, (i - 1) * c.max)
  {
    if i > 1 {
      Placed(runs, stores, c, i - 1);
      CalmAfter(runs[i - 2], c, stores[i - 2]);
      LaterRun(runs[i - 1], c, stores[i - 1], FinalBy(runs[i - 2], c));
      assert (i - 2) * c.max + c.max == (i - 1) * c.max;
    }
  }

  /** With a fixed desired set the first run leaves what its room cannot take; if that is u, then after
      ceil(u / max) further runs everything is placed and no run issues a call any more. */
  lemma Convergence(runs: seq<Run>, stores: seq<Store>, c: Setting, i: nat)
    requires Chain(runs, stores, c) && !c.svc.deleting && 1 <= i < |runs|
    ensures |Unplaced(stores[1], c.wanted)|
         == Minus(|Unplaced(stores[0], c.wanted)|, SpareRoom(SortedBy(runs[0], c), c.max) + c.max)
    ensures |Unplaced(stores[i], c.wanted)| == Minus(|Unplaced(stores[1], c.wanted)|, (i - 1) * c.max)
    ensures (i - 1) * c.max >= |Unplaced(stores[1], c.wanted)| ==>
              CallsBy(runs[i], c) == [] && stores[i + 1] == stores[i]
  {
    OneRun(runs[0], c, stores[0]);
    Placed(runs, stores, c, i);
    CalmAfter(runs[i - 1], c, stores[i - 1]);
    LaterRun(runs[i], c, stores[i], FinalBy(runs[i - 1], c));
  }
}
