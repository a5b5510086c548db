/** Conservation laws of one packing plan: what each step keeps, place by place. */
module SliceLaws {
  import opened Seqs
  import opened SliceModel

  // ---- Counting keys and names ----

  ghost function KeyCount(eps: seq<Endpoint>, k: Key): nat {
    if eps == [] then 0
    else KeyCount(eps[..|eps| - 1], k) + (if eps[|eps| - 1].key == k then 1 else 0)
  }

  ghost function Stored(ss: seq<SliceVal>, k: Key): nat {
    if ss == [] then 0 else Stored(ss[..|ss| - 1], k) + KeyCount(ss[|ss| - 1].endpoints, k)
  }

  ghost function Total(ss: seq<SliceVal>): nat {
    if ss == [] then 0 else Total(ss[..|ss| - 1]) + |ss[|ss| - 1].endpoints|
  }

  ghost function Named(ss: seq<SliceVal>, name: string): nat {
    if ss == [] then 0 else Named(ss[..|ss| - 1], name) + (if ss[|ss| - 1].name == name then 1 else 0)
  }

  ghost function In(w: Wanted, k: Key): nat {
    if k in w then 1 else 0
  }

  lemma KeyCountPush(a: seq<Endpoint>, e: Endpoint, k: Key)
    ensures KeyCount(a + [e], k) == KeyCount(a, k) + if e.key == k then 1 else 0
  {
    InitOfPush(a, e);
  }

  lemma {:induction false} KeyCountConcat(a: seq<Endpoint>, b: seq<Endpoint>, k: Key)
    ensures KeyCount(a + b, k) == KeyCount(a, k) + KeyCount(b, k)
  {
    if b == [] {
      Empty(a);
    } else {
      var n := |b| - 1;
      KeyCountConcat(a, b[..n], k);
      JoinLast(b);
      Assoc(a, b[..n], [b[n]]);
      InitOfPush(a + b[..n], b[n]);
    }
  }

  lemma {:induction false} StoredConcat(a: seq<SliceVal>, b: seq<SliceVal>, k: Key)
    ensures Stored(a + b, k) == Stored(a, k) + Stored(b, k)
  {
    if b == [] {
      Empty(a);
    } else {
      var n := |b| - 1;
      StoredConcat(a, b[..n], k);
      JoinLast(b);
      Assoc(a, b[..n], [b[n]]);
      InitOfPush(a + b[..n], b[n]);
    }
  }

  lemma {:induction false} NamedConcat(a: seq<SliceVal>, b: seq<SliceVal>, name: string)
    ensures Named(a + b, name) == Named(a, name) + Named(b, name)
  {
    if b == [] {
      Empty(a);
    } else {
      var n := |b| - 1;
      NamedConcat(a, b[..n], name);
      JoinLast(b);
      Assoc(a, b[..n], [b[n]]);
      InitOfPush(a + b[..n], b[n]);
    }
  }

  lemma {:induction false} KeyCountAt(eps: seq<Endpoint>, i: nat)
    requires i < |eps|
    ensures KeyCount(eps, eps[i].key) >= 1
    ensures forall j :: i < j < |eps| && eps[j].key == eps[i].key ==> KeyCount(eps, eps[i].key) >= 2
  {
    var n := |eps| - 1;
    if i < n {
      KeyCountAt(eps[..n], i);
      forall j | i < j < |eps| && eps[j].key == eps[i].key ensures KeyCount(eps, eps[i].key) >= 2 {
        if j < n {
          assert eps[..n][j].key == eps[..n][i].key;
        }
      }
    }
  }

  lemma {:induction false} KeyCountWitness(eps: seq<Endpoint>, k: Key) returns (i: nat)
    requires KeyCount(eps, k) > 0
    ensures i < |eps| && eps[i].key == k
  {
    var n := |eps| - 1;
    if eps[n].key == k {
      i := n;
    } else {
      i := KeyCountWitness(eps[..n], k);
    }
  }

  lemma {:induction false} StoredAt(ss: seq<SliceVal>, i: nat, k: Key)
    requires i < |ss|
    ensures Stored(ss, k) >= KeyCount(ss[i].endpoints, k)
    ensures forall j :: 0 <= j < i ==> Stored(ss, k) >= KeyCount(ss[j].endpoints, k) + KeyCount(ss[i].endpoints, k)
  {
    var n := |ss| - 1;
    if i < n {
      StoredAt(ss[..n], i, k);
      forall j | 0 <= j < i ensures Stored(ss, k) >= KeyCount(ss[j].endpoints, k) + KeyCount(ss[i].endpoints, k) {
        assert ss[..n][j] == ss[j];
      }
    } else {
      forall j | 0 <= j < i ensures Stored(ss[..n], k) >= KeyCount(ss[j].endpoints, k) {
        StoredAt(ss[..n], j, k);
      }
    }
  }

  lemma {:induction false} StoredWitness(ss: seq<SliceVal>, k: Key) returns (i: nat)
    requires Stored(ss, k) > 0
    ensures i < |ss| && KeyCount(ss[i].endpoints, k) > 0
  {
    var n := |ss| - 1;
    if KeyCount(ss[n].endpoints, k) > 0 {
      i := n;
    } else {
      i := StoredWitness(ss[..n], k);
    }
  }

  lemma {:induction false} NamedAt(ss: seq<SliceVal>, i: nat)
    requires i < |ss|
    ensures Named(ss, ss[i].name) >= 1
    ensures forall j :: i < j < |ss| && ss[j].name == ss[i].name ==> Named(ss, ss[i].name) >= 2
  {
    var n := |ss| - 1;
    if i < n {
      NamedAt(ss[..n], i);
      forall j | i < j < |ss| && ss[j].name == ss[i].name ensures Named(ss, ss[i].name) >= 2 {
        if j < n {
          assert ss[..n][j].name == ss[..n][i].name;
        }
      }
    }
  }

  lemma {:induction false} NamedWitness(ss: seq<SliceVal>, name: string) returns (i: nat)
    requires Named(ss, name) > 0
    ensures i < |ss| && ss[i].name == name
  {
    var n := |ss| - 1;
    if ss[n].name == name {
      i := n;
    } else {
      i := NamedWitness(ss[..n], name);
    }
  }

  lemma {:induction false} DistinctCount(ss: seq<SliceVal>, name: string)
    requires DistinctNames(ss)
    ensures Named(ss, name) <= 1
  {
    if ss != [] {
      var n := |ss| - 1;
      DistinctCount(ss[..n], name);
      if Named(ss[..n], name) > 0 {
        var i := NamedWitness(ss[..n], name);
        assert ss[i].name != ss[n].name;
      }
    }
  }

  // ---- What it means for a kept slice to be right ----

  ghost predicate Agrees(e: Endpoint, wanted: Wanted) {
    e.key in wanted && wanted[e.key].attrs == e.attrs
  }

  ghost predicate AllAgree(eps: seq<Endpoint>, wanted: Wanted) {
    forall i :: 0 <= i < |eps| ==> Agrees(eps[i], wanted)
  }

  /** Exactly the desired ports, settled labels, and only endpoints as they are desired. */
  ghost predicate Right(s: SliceVal, svc: Service, wanted: Wanted) {
    s.ports == svc.ports && EnsureLabels(s.labels, svc) == s.labels && AllAgree(s.endpoints, wanted)
  }

  ghost predicate AllRight(ss: seq<SliceVal>, svc: Service, wanted: Wanted) {
    forall i :: 0 <= i < |ss| ==> Right(ss[i], svc, wanted)
  }

  ghost predicate PartOf(part: Wanted, whole: Wanted) {
    forall k :: k in part ==> k in whole && part[k] == whole[k]
  }

  ghost predicate FromSet(order: seq<Endpoint>, w: Wanted) {
    forall i :: 0 <= i < |order| ==> order[i].key in w && w[order[i].key] == order[i]
  }

  // ---- Step 1 ----

  lemma {:induction false} CoverLaw(eps: seq<Endpoint>, w: Wanted, k: Key)
    ensures var c := CoverOf(eps, w);
            && KeyCount(c.covered, k) + In(c.wanted, k) == In(w, k)
            && (KeyCount(c.covered, k) > 0 <==> KeyCount(eps, k) > 0 && k in w)
  {
    if eps != [] {
      var n := |eps| - 1;
      CoverLaw(eps[..n], w, k);
      var c, e := CoverOf(eps[..n], w), eps[n];
      if e.key in c.wanted {
        KeyCountPush(c.covered, c.wanted[e.key], k);
      }
    }
  }

  lemma WithoutKey(w: Wanted, k: Key)
    requires k in w
    ensures |w - {k}| == |w| - 1 && PartOf(w - {k}, w)
  {
    assert (w - {k}).Keys == w.Keys - {k};
  }

  lemma FromSetPush(order: seq<Endpoint>, e: Endpoint, w: Wanted)
    requires FromSet(order, w) && e.key in w && w[e.key] == e
    ensures FromSet(order + [e], w)
  {
  }

  lemma {:induction false} CoverSubset(eps: seq<Endpoint>, w: Wanted)
    ensures var c := CoverOf(eps, w);
            PartOf(c.wanted, w) && FromSet(c.covered, w) && |c.covered| <= |eps| && |c.covered| + |c.wanted| == |w|
  {
    if eps != [] {
      var n := |eps| - 1;
      CoverSubset(eps[..n], w);
      var c, e := CoverOf(eps[..n], w), eps[n];
      if e.key in c.wanted {
        WithoutKey(c.wanted, e.key);
        FromSetPush(c.covered, c.wanted[e.key], w);
      }
    }
  }

  /** If nothing was dropped and nothing is stale, the slice already holds the covered endpoints. */
  lemma {:induction false} CoverComplete(eps: seq<Endpoint>, w: Wanted, k: Key)
    requires |CoverOf(eps, w).covered| == |eps| && !CoverOf(eps, w).stale
    ensures KeyCount(eps, k) == KeyCount(CoverOf(eps, w).covered, k)
  {
    if eps != [] {
      var n := |eps| - 1;
      var c, e := CoverOf(eps[..n], w), eps[n];
      CoverSubset(eps[..n], w);
      assert |c.covered| <= n && e.key in c.wanted;
      var p := c.wanted[e.key];
      assert CoverOf(eps, w).covered == c.covered + [p] && p.key == e.key;
      CoverComplete(eps[..n], w, k);
      KeyCountPush(c.covered, p, k);
    }
  }

  lemma {:induction false} CoverFresh(eps: seq<Endpoint>, w: Wanted)
    requires |CoverOf(eps, w).covered| == |eps| && !CoverOf(eps, w).stale
    ensures AllAgree(eps, w)
  {
    if eps != [] {
      var n := |eps| - 1;
      CoverSubset(eps[..n], w);
      CoverFresh(eps[..n], w);
      assert Agrees(eps[n], w);
      assert forall i :: 0 <= i < n ==> Agrees(eps[..n][i], w);
    }
  }

  lemma WidenAgree(eps: seq<Endpoint>, part: Wanted, whole: Wanted)
    requires AllAgree(eps, part) && PartOf(part, whole)
    ensures AllAgree(eps, whole)
  {
  }

  lemma SettleShape(s: SliceVal, svc: Service, w: Wanted)
    ensures var x := Settle(s, svc, w);
            && PartOf(x.wanted, w)
            && x.slice.name == s.name && x.slice.addressType == s.addressType && x.slice.owners == s.owners
            && (x.fate == Drop ==> |x.wanted| == |w|) && (x.fate == Change ==> FromSet(x.slice.endpoints, w))
            && (x.fate != Drop ==>
                  && Right(x.slice, svc, w) && x.slice.labels == EnsureLabels(s.labels, svc)
                  && |x.slice.endpoints| <= |s.endpoints| && |x.slice.endpoints| + |x.wanted| == |w|)
  {
    CoverSubset(s.endpoints, w);
    if Settle(s, svc, w).fate == Keep {
      CoverFresh(s.endpoints, w);
    } else {
      EnsureLabelsIdempotent(s.labels, svc);
    }
  }

  ghost function KeptOf(x: Settled, k: Key): nat {
    if x.fate == Drop then 0 else KeyCount(x.slice.endpoints, k)
  }

  lemma SettleLaw(s: SliceVal, svc: Service, w: Wanted, k: Key)
    ensures var x := Settle(s, svc, w);
            && KeptOf(x, k) + In(x.wanted, k) == In(w, k)
            && (KeptOf(x, k) > 0 <==> KeyCount(s.endpoints, k) > 0 && k in w)
  {
    CoverLaw(s.endpoints, w, k);
    if Settle(s, svc, w).fate == Keep {
      CoverComplete(s.endpoints, w, k);
    }
  }

  ghost function KeptCount(r: Sorted, k: Key): nat {
    Stored(r.updates, k) + Stored(r.untouched, k)
  }

  ghost function NameCount(r: Sorted, name: string): nat {
    Named(r.updates, name) + Named(r.deletes, name) + Named(r.untouched, name)
  }

  lemma Push(ss: seq<SliceVal>, s: SliceVal, k: Key, name: string)
    ensures Stored(ss + [s], k) == Stored(ss, k) + KeyCount(s.endpoints, k)
    ensures Named(ss + [s], name) == Named(ss, name) + if s.name == name then 1 else 0
  {
    InitOfPush(ss, s);
  }

  lemma PlaceLaw(r: Sorted, x: Settled, k: Key, name: string)
    ensures KeptCount(Place(r, x), k) == KeptCount(r, k) + KeptOf(x, k)
    ensures NameCount(Place(r, x), name) == NameCount(r, name) + if x.slice.name == name then 1 else 0
  {
    match x.fate
    case Keep => Push(r.untouched, x.slice, k, name);
    case Drop => Push(r.deletes, x.slice, k, name);
    case Change => Push(r.updates, x.slice, k, name);
  }

  /** Step 1 keeps each covered endpoint exactly once and loses no slice. */
  lemma {:induction false} ClassifyLaw(ss: seq<SliceVal>, svc: Service, w: Wanted, k: Key, name: string)
    ensures var r := Classify(ss, svc, w);
            && KeptCount(r, k) + In(r.wanted, k) == In(w, k)
            && (KeptCount(r, k) > 0 <==> Stored(ss, k) > 0 && k in w)
            && NameCount(r, name) == Named(ss, name)
  {
    if ss != [] {
      var n := |ss| - 1;
      ClassifyLaw(ss[..n], svc, w, k, name);
      var r := Classify(ss[..n], svc, w);
      SettleLaw(ss[n], svc, r.wanted, k);
      SettleShape(ss[n], svc, r.wanted);
      PlaceLaw(r, Settle(ss[n], svc, r.wanted), k, name);
    }
  }

  lemma AllRightPush(ss: seq<SliceVal>, s: SliceVal, svc: Service, w: Wanted)
    requires AllRight(ss, svc, w) && Right(s, svc, w)
    ensures AllRight(ss + [s], svc, w) && Total(ss + [s]) == Total(ss) + |s.endpoints|
  {
    InitOfPush(ss, s);
  }

  lemma {:induction false} ClassifyShape(ss: seq<SliceVal>, svc: Service, w: Wanted)
    ensures var r := Classify(ss, svc, w);
            && PartOf(r.wanted, w)
            && AllRight(r.updates, svc, w) && AllRight(r.untouched, svc, w)
            && Total(r.updates) + Total(r.untouched) + |r.wanted| == |w|
  {
    if ss != [] {
      var n := |ss| - 1;
      ClassifyShape(ss[..n], svc, w);
      var r := Classify(ss[..n], svc, w);
      var x := Settle(ss[n], svc, r.wanted);
      SettleShape(ss[n], svc, r.wanted);
      if x.fate != Drop {
        WidenAgree(x.slice.endpoints, r.wanted, w);
        AllRightPush(if x.fate == Keep then r.untouched else r.updates, x.slice, svc, w);
      }
    }
  }

  // ---- Steps 2 to 4 ----

  lemma {:induction false} OrderLaw(order: seq<Endpoint>, w: Wanted, k: Key)
    requires IsOrderOf(order, w)
    ensures KeyCount(order, k) == In(w, k)
    decreases |order|
  {
    if order != [] {
      var e := order[0];
      OrderLaw(order[1..], w - {e.key}, k);
      assert order == [e] + order[1..];
      KeyCountConcat([e], order[1..], k);
      assert [e][..0] == [];
    }
  }

  lemma {:induction false} OrderShape(order: seq<Endpoint>, w: Wanted)
    requires IsOrderOf(order, w)
    ensures FromSet(order, w) && |order| == |w|
    decreases |order|
  {
    if order != [] {
      var e := order[0];
      OrderShape(order[1..], w - {e.key});
      assert (w - {e.key}).Keys == w.Keys - {e.key};
      assert |w.Keys - {e.key}| == |w.Keys| - 1;
      forall i | 0 <= i < |order| ensures order[i].key in w && w[order[i].key] == order[i] {
        if i > 0 {
          assert order[i] == order[1..][i - 1];
        }
      }
    }
  }

  lemma FillOneLaw(s: SliceVal, order: seq<Endpoint>, max: nat, k: Key)
    ensures var (s', rest) := FillOne(s, order, max);
            KeyCount(s'.endpoints, k) + KeyCount(rest, k) == KeyCount(s.endpoints, k) + KeyCount(order, k)
  {
    var n := Min(Room(s, max), |order|);
    Join(order, n);
    KeyCountConcat(order[..n], order[n..], k);
    KeyCountConcat(s.endpoints, order[..n], k);
  }

  /** `after` is `before` with endpoints appended, within capacity. */
  ghost predicate Grown(before: SliceVal, after: SliceVal, max: nat) {
    && after == before.(endpoints := after.endpoints) && before.endpoints <= after.endpoints
    && (|after.endpoints| <= |before.endpoints| || |after.endpoints| <= max)
  }

  ghost predicate AllGrown(before: seq<SliceVal>, after: seq<SliceVal>, max: nat) {
    |after| == |before| && forall i :: 0 <= i < |before| ==> Grown(before[i], after[i], max)
  }

  lemma FillOneShape(s: SliceVal, order: seq<Endpoint>, max: nat, svc: Service, w: Wanted)
    requires FromSet(order, w)
    ensures var (s', rest) := FillOne(s, order, max);
            && FromSet(rest, w) && Grown(s, s', max)
            && |rest| == (if |order| > Room(s, max) then |order| - Room(s, max) else 0)
            && (rest != [] ==> Room(s', max) == 0)
            && (Right(s, svc, w) ==> Right(s', svc, w))
  {
    if Right(s, svc, w) {
      var n := Min(Room(s, max), |order|);
      assert AllAgree(order[..n], w);
    }
  }

  ghost predicate NoRoom(ss: seq<SliceVal>, max: nat) {
    forall i :: 0 <= i < |ss| ==> Room(ss[i], max) == 0
  }

  lemma {:induction false} FillAllLaw(ss: seq<SliceVal>, order: seq<Endpoint>, max: nat, k: Key)
    ensures var (filled, rest) := FillAll(ss, order, max);
            Stored(filled, k) + KeyCount(rest, k) == Stored(ss, k) + KeyCount(order, k)
  {
    if ss != [] {
      var n := |ss| - 1;
      FillAllLaw(ss[..n], order, max, k);
      var (filled, rest) := FillAll(ss[..n], order, max);
      FillOneLaw(ss[n], rest, max, k);
      InitOfPush(filled, FillOne(ss[n], rest, max).0);
    }
  }

  ghost predicate FillShape(ss: seq<SliceVal>, order: seq<Endpoint>, max: nat, svc: Service, w: Wanted,
                            filled: seq<SliceVal>, rest: seq<Endpoint>)
  {
    && FromSet(rest, w) && AllGrown(ss, filled, max)
    && |rest| == (if |order| > TotalRoom(ss, max) then |order| - TotalRoom(ss, max) else 0)
    && (rest != [] ==> NoRoom(filled, max))
    && (AllRight(ss, svc, w) ==> AllRight(filled, svc, w))
  }

  lemma GrownPush(ss: seq<SliceVal>, filled: seq<SliceVal>, s: SliceVal, s': SliceVal, max: nat)
    requires AllGrown(ss, filled, max) && Grown(s, s', max)
    ensures AllGrown(ss + [s], filled + [s'], max)
  {
  }

  lemma NoRoomPush(filled: seq<SliceVal>, s': SliceVal, max: nat)
    requires NoRoom(filled, max) && Room(s', max) == 0
    ensures NoRoom(filled + [s'], max)
  {
  }

  lemma TotalRoomPush(ss: seq<SliceVal>, s: SliceVal, max: nat)
    ensures TotalRoom(ss + [s], max) == TotalRoom(ss, max) + Room(s, max)
  {
    InitOfPush(ss, s);
  }

  lemma AllRightSplit(ss: seq<SliceVal>, s: SliceVal, svc: Service, w: Wanted)
    ensures AllRight(ss + [s], svc, w) <==> AllRight(ss, svc, w) && Right(s, svc, w)
  {
    if AllRight(ss + [s], svc, w) {
      assert forall i :: 0 <= i < |ss| ==> ss[i] == (ss + [s])[i];
      assert (ss + [s])[|ss|] == s;
    }
  }

  lemma FillShapeNext(ss: seq<SliceVal>, order: seq<Endpoint>, max: nat, svc: Service, w: Wanted,
                      filled: seq<SliceVal>, rest: seq<Endpoint>, s: SliceVal)
    requires FillShape(ss, order, max, svc, w, filled, rest)
    ensures var (s', rest') := FillOne(s, rest, max);
            FillShape(ss + [s], order, max, svc, w, filled + [s'], rest')
  {
    FillOneShape(s, rest, max, svc, w);
    var s' := FillOne(s, rest, max).0;
    GrownPush(ss, filled, s, s', max);
    TotalRoomPush(ss, s, max);
    AllRightSplit(ss, s, svc, w);
    AllRightSplit(filled, s', svc, w);
    if Room(s', max) == 0 && NoRoom(filled, max) {
      NoRoomPush(filled, s', max);
    }
  }

  lemma {:induction false} FillAllShape(ss: seq<SliceVal>, order: seq<Endpoint>, max: nat, svc: Service, w: Wanted)
    requires FromSet(order, w)
    ensures FillShape(ss, order, max, svc, w, FillAll(ss, order, max).0, FillAll(ss, order, max).1)
  {
    if ss != [] {
      var n := |ss| - 1;
      FillAllShape(ss[..n], order, max, svc, w);
      var (filled, rest) := FillAll(ss[..n], order, max);
      FillShapeNext(ss[..n], order, max, svc, w, filled, rest, ss[n]);
      JoinLast(ss);
    }
  }

  lemma {:induction false} GrownNames(before: seq<SliceVal>, after: seq<SliceVal>, max: nat, name: string)
    requires AllGrown(before, after, max)
    ensures Named(after, name) == Named(before, name)
  {
    if before != [] {
      var n := |before| - 1;
      GrownNames(before[..n], after[..n], max, name);
    }
  }

  // ---- Steps 2 and 3 together ----

  function Minus(a: int, b: int): nat {
    if a > b then a - b else 0
  }

  lemma FillKeptLaw(u: seq<SliceVal>, t: seq<SliceVal>, order: seq<Endpoint>, max: nat, k: Key)
    ensures var f := FillKept(u, t, order, max);
            Stored(f.updates, k) + Stored(f.untouched, k) + KeyCount(f.rest, k)
               == Stored(u, k) + Stored(t, k) + KeyCount(order, k)
  {
    FillAllLaw(u, order, max, k);
    var (filled, rest) := FillAll(u, order, max);
    if rest != [] {
      FillAllLaw(t, rest, max, k);
      StoredConcat(filled, FillAll(t, rest, max).0, k);
    }
  }

  lemma AllRightConcat(a: seq<SliceVal>, b: seq<SliceVal>, svc: Service, w: Wanted, max: nat)
    ensures AllRight(a, svc, w) && AllRight(b, svc, w) ==> AllRight(a + b, svc, w)
    ensures NoRoom(a, max) && NoRoom(b, max) ==> NoRoom(a + b, max)
  {
  }

  lemma FillKeptShape(u: seq<SliceVal>, t: seq<SliceVal>, order: seq<Endpoint>, max: nat, svc: Service, w: Wanted)
    requires FromSet(order, w) && AllRight(u, svc, w) && AllRight(t, svc, w)
    ensures var f := FillKept(u, t, order, max);
            && AllRight(f.updates, svc, w) && AllRight(f.untouched, svc, w) && FromSet(f.rest, w)
            && |f.rest| == Minus(|order|, TotalRoom(u, max) + TotalRoom(t, max))
            && (f.rest != [] ==> NoRoom(f.updates, max) && f.untouched == [])
  {
    FillAllShape(u, order, max, svc, w);
    var (filled, rest) := FillAll(u, order, max);
    if rest != [] {
      FillAllShape(t, rest, max, svc, w);
      var touched := FillAll(t, rest, max).0;
      AllRightConcat(filled, touched, svc, w, max);
    }
  }

  lemma GrownAt(u: seq<SliceVal>, t: seq<SliceVal>, filled: seq<SliceVal>, touched: seq<SliceVal>, max: nat)
    requires AllGrown(u, filled, max) && AllGrown(t, touched, max)
    ensures forall i :: 0 <= i < |u| ==> Grown(u[i], (filled + touched)[i], max)
    ensures forall i :: 0 <= i < |t| ==> Grown(t[i], (filled + touched)[|u| + i], max)
  {
    assert forall i :: 0 <= i < |t| ==> (filled + touched)[|u| + i] == touched[i];
  }

  /** Where each kept slice ends up: grown in place. */
  lemma FillKeptAt(u: seq<SliceVal>, t: seq<SliceVal>, order: seq<Endpoint>, max: nat, svc: Service, w: Wanted)
    requires FromSet(order, w)
    ensures var f := FillKept(u, t, order, max);
            && (forall i :: 0 <= i < |u| ==> i < |f.updates| && Grown(u[i], f.updates[i], max))
            && (if f.untouched == t then |f.updates| == |u| || |t| == 0
                else f.untouched == [] && |f.updates| == |u| + |t|
                     && forall i :: 0 <= i < |t| ==> Grown(t[i], f.updates[|u| + i], max))
  {
    FillAllShape(u, order, max, svc, w);
    var (filled, rest) := FillAll(u, order, max);
    if rest != [] {
      FillAllShape(t, rest, max, svc, w);
      GrownAt(u, t, filled, FillAll(t, rest, max).0, max);
    }
  }
}
