/** The packing run on mutable slice objects, as the controller executes it. */
module SliceObjects {
  import opened Text
  import opened Seqs
  import opened SliceModel

  class EndpointSlice {
    var name: string
    const addressType: AddressType
    const owners: seq<OwnerRef>
    var ports: seq<Port>
    var labels: Labels
    var endpoints: seq<Endpoint>

    constructor (addressType: AddressType, owners: seq<OwnerRef>, ports: seq<Port>, labels: Labels)
      ensures Val() == SliceVal("", addressType, owners, ports, labels, [])
    {
      name := "";
      this.addressType := addressType;
      this.owners := owners;
      this.ports := ports;
      this.labels := labels;
      endpoints := [];
    }

    function Val(): SliceVal
      reads this
    {
      SliceVal(name, addressType, owners, ports, labels, endpoints)
    }
  }

  /** The objects currently hold these values. */
  ghost predicate Shows(os: seq<EndpointSlice>, vs: seq<SliceVal>)
    reads os
  {
    |os| == |vs| && forall i :: 0 <= i < |os| ==> os[i].Val() == vs[i]
  }

  ghost predicate Distinct(os: seq<EndpointSlice>) {
    forall i, j :: 0 <= i < j < |os| ==> os[i] != os[j]
  }

  lemma MergePush(a: Wanted, b: Wanted, e: Endpoint)
    ensures a + b[e.key := e] == (a + b)[e.key := e]
  {
  }

  class EndpointSet {
    var items: Wanted

    constructor ()
      ensures items == map[]
    {
      items := map[];
    }

    method Insert(eps: seq<Endpoint>)
      modifies this
      ensures items == old(items) + WantedOf(eps)
    {
      for i := 0 to |eps|
        invariant items == old(items) + WantedOf(eps[..i])
      {
        TakeNext(eps, i);
        MergePush(old(items), WantedOf(eps[..i]), eps[i]);
        items := items[eps[i].key := eps[i]];
      }
      TakeAll(eps);
    }

    method PopAny() returns (e: Option<Endpoint>)
      modifies this
      ensures old(items) == map[] ==> e == None && items == old(items)
      ensures old(items) != map[] ==> e.Some? && e.value.key in old(items) && old(items)[e.value.key] == e.value
                                      && items == old(items) - {e.value.key} && |items| == |old(items)| - 1
    {
      if items == map[] {
        return None;
      }
      var k :| k in items;
      e := Some(items[k]);
      items := items - {k};
      assert items.Keys == old(items).Keys - {k};
      assert |items.Keys| == |old(items).Keys| - 1;
    }
  }

  /** `popped` left the set one by one. */
  ghost predicate Popped(before: Wanted, popped: seq<Endpoint>, after: Wanted) {
    if popped == [] then before == after
    else
      var n := |popped| - 1;
      var e := popped[n];
      e.key !in after && Popped(before, popped[..n], after[e.key := e])
  }

  lemma PoppedPush(a: Wanted, p: seq<Endpoint>, b: Wanted, e: Endpoint)
    requires Popped(a, p, b) && e.key in b && b[e.key] == e
    ensures Popped(a, p + [e], b - {e.key})
  {
    InitOfPush(p, e);
    assert (b - {e.key})[e.key := e] == b;
  }

  lemma {:induction false} PoppedThen(a: Wanted, p: seq<Endpoint>, b: Wanted, q: seq<Endpoint>, c: Wanted)
    requires Popped(a, p, b) && Popped(b, q, c)
    ensures Popped(a, p + q, c)
    decreases |q|
  {
    if q == [] {
      assert p + q == p;
    } else {
      var n := |q| - 1;
      PoppedThen(a, p, b, q[..n], c[q[n].key := q[n]]);
      assert (p + q)[..|p + q| - 1] == p + q[..n];
    }
  }

  lemma {:induction false} PoppedOrder(a: Wanted, p: seq<Endpoint>, b: Wanted, rest: seq<Endpoint>)
    requires Popped(a, p, b) && IsOrderOf(rest, b)
    ensures IsOrderOf(p + rest, a)
    decreases |p|
  {
    if p == [] {
      Empty(rest);
    } else {
      var n := |p| - 1;
      OrderExtends(rest, b, p[n]);
      PoppedOrder(a, p[..n], b[p[n].key := p[n]], [p[n]] + rest);
      JoinLast(p);
      Assoc(p[..n], [p[n]], rest);
    }
  }

  lemma OrderExtends(rest: seq<Endpoint>, m: Wanted, e: Endpoint)
    requires IsOrderOf(rest, m) && e.key !in m
    ensures IsOrderOf([e] + rest, m[e.key := e])
  {
    assert m[e.key := e] - {e.key} == m;
    assert ([e] + rest)[1..] == rest;
  }

  lemma SomeOrder(m: Wanted) returns (order: seq<Endpoint>)
    ensures IsOrderOf(order, m)
    decreases m.Keys
  {
    if m == map[] {
      order := [];
    } else {
      var k :| k in m;
      var m': Wanted := m - {k};
      var rest := SomeOrder(m');
      OrderExtends(rest, m', m[k]);
      assert m'[k := m[k]] == m;
      order := [m[k]] + rest;
    }
  }

  /** `ensureEndpointSliceLabels` builds its map entry by entry. */
  method EnsureEndpointSliceLabels(labels: Labels, svc: Service) returns (r: Labels, changed: bool)
    ensures r == EnsureLabels(labels, svc)
    ensures changed <==> r != labels
  {
    r := CopyInto(map[], labels);
    assert r == labels;
    r := CopyInto(r, svc.labels);
    r := r[SERVICE_NAME_LABEL := svc.name];
    r := r[MANAGED_BY_LABEL := CONTROLLER_NAME];
    if svc.clusterIP == "" || svc.clusterIP == "None" {
      r := r[HEADLESS_LABEL := ""];
    } else {
      r := r - {HEADLESS_LABEL};
    }
    changed := r != labels;
  }

  method CopyInto(target: Labels, source: Labels) returns (r: Labels)
    ensures r == target + source
  {
    r := target;
    var todo := source.Keys;
    while todo != {}
      invariant todo <= source.Keys
      invariant r == target + (map k | k in source.Keys - todo :: source[k])
      decreases todo
    {
      var k :| k in todo;
      r := r[k := source[k]];
      todo := todo - {k};
    }
  }

  /** Step 1 for one slice. */
  method CoverSlice(s: EndpointSlice, pool: EndpointSet) returns (covered: seq<Endpoint>, stale: bool)
    modifies pool
    ensures Cover(covered, pool.items, stale) == CoverOf(s.endpoints, old(pool.items))
  {
    covered, stale := [], false;
    for i := 0 to |s.endpoints|
      invariant Cover(covered, pool.items, stale) == CoverOf(s.endpoints[..i], old(pool.items))
    {
      var e := s.endpoints[i];
      assert s.endpoints[..i + 1][..i] == s.endpoints[..i];
      if e.key in pool.items {
        var present := pool.items[e.key];
        covered := covered + [present];
        if present.attrs != e.attrs {
          stale := true;
        }
        pool.items := pool.items - {e.key};
      }
    }
    assert s.endpoints[..|s.endpoints|] == s.endpoints;
  }

  /** Step 1 for one slice: strike off what it covers and settle what becomes of it. */
  method ClassifySlice(svc: Service, s: EndpointSlice, pool: EndpointSet) returns (fate: Fate)
    modifies s, pool
    ensures Settled(fate, s.Val(), pool.items) == Settle(old(s.Val()), svc, old(pool.items))
  {
    var changed := false;
    if s.ports != svc.ports {
      s.ports := svc.ports;
      changed := true;
    }
    var covered, stale := CoverSlice(s, pool);
    var labels, labelsChanged := EnsureEndpointSliceLabels(s.labels, svc);
    if changed || stale || labelsChanged || |s.endpoints| != |covered| {
      if covered == [] {
        fate := Drop;
      } else {
        s.endpoints := covered;
        s.labels := labels;
        fate := Change;
      }
    } else {
      fate := Keep;
    }
  }

  ghost predicate ShowsSorted(updates: seq<EndpointSlice>, deletes: seq<EndpointSlice>, untouched: seq<EndpointSlice>,
                              r: Sorted)
    reads updates, deletes, untouched
  {
    Shows(updates, r.updates) && Shows(deletes, r.deletes) && Shows(untouched, r.untouched)
  }

  method Append(fate: Fate, s: EndpointSlice, updates: seq<EndpointSlice>, deletes: seq<EndpointSlice>,
                untouched: seq<EndpointSlice>, ghost r: Sorted, ghost x: Settled)
    returns (updates': seq<EndpointSlice>, deletes': seq<EndpointSlice>, untouched': seq<EndpointSlice>)
    requires ShowsSorted(updates, deletes, untouched, r) && fate == x.fate && s.Val() == x.slice
    ensures ShowsSorted(updates', deletes', untouched', Place(r, x))
    ensures multiset(updates') + multiset(deletes') + multiset(untouched')
         == multiset(updates) + multiset(deletes) + multiset(untouched) + multiset{s}
  {
    updates', deletes', untouched' := updates, deletes, untouched;
    match fate {
      case Keep => untouched' := untouched + [s];
      case Drop => deletes' := deletes + [s];
      case Change => updates' := updates + [s];
    }
  }

  /** Settle one slice and append it to the worklist its fate names. */
  method PlaceSlice(svc: Service, s: EndpointSlice, pool: EndpointSet, updates: seq<EndpointSlice>,
                    deletes: seq<EndpointSlice>, untouched: seq<EndpointSlice>, ghost r: Sorted)
    returns (updates': seq<EndpointSlice>, deletes': seq<EndpointSlice>, untouched': seq<EndpointSlice>,
             ghost r': Sorted)
    requires ShowsSorted(updates, deletes, untouched, r) && pool.items == r.wanted
    requires s !in updates && s !in deletes && s !in untouched
    modifies s, pool
    ensures r' == Place(r, Settle(old(s.Val()), svc, r.wanted)) && pool.items == r'.wanted
    ensures ShowsSorted(updates', deletes', untouched', r')
    ensures multiset(updates') + multiset(deletes') + multiset(untouched')
         == multiset(updates) + multiset(deletes) + multiset(untouched) + multiset{s}
  {
    var fate := ClassifySlice(svc, s, pool);
    ghost var x := Settled(fate, s.Val(), pool.items);
    updates', deletes', untouched' := Append(fate, s, updates, deletes, untouched, r, x);
    r' := Place(r, x);
  }

  lemma ClassifyNext(before: seq<SliceVal>, i: nat, svc: Service, wanted: Wanted)
    requires i < |before|
    ensures var r := Classify(before[..i], svc, wanted);
            Classify(before[..i + 1], svc, wanted) == Place(r, Settle(before[i], svc, r.wanted))
  {
    TakeNext(before, i);
  }

  /** Step 1: sort the existing slices into the three worklists. */
  method ClassifySlices(svc: Service, existing: seq<EndpointSlice>, pool: EndpointSet, ghost before: seq<SliceVal>)
    returns (updates: seq<EndpointSlice>, deletes: seq<EndpointSlice>, untouched: seq<EndpointSlice>, ghost r: Sorted)
    requires Distinct(existing) && Shows(existing, before)
    modifies existing, pool
    ensures r == Classify(before, svc, old(pool.items)) && pool.items == r.wanted
    ensures ShowsSorted(updates, deletes, untouched, r)
    ensures multiset(updates) + multiset(deletes) + multiset(untouched) == multiset(existing)
  {
    updates, deletes, untouched := [], [], [];
    r := Sorted([], [], [], pool.items);
    for i := 0 to |existing|
      invariant r == Classify(before[..i], svc, old(pool.items)) && pool.items == r.wanted
      invariant ShowsSorted(updates, deletes, untouched, r)
      invariant multiset(updates) + multiset(deletes) + multiset(untouched) == multiset(existing[..i])
      invariant forall j :: i <= j < |existing| ==> existing[j].Val() == before[j]
    {
      var s := existing[i];
      NotIn(existing, i, updates, deletes, untouched);
      ClassifyNext(before, i, svc, old(pool.items));
      updates, deletes, untouched, r := PlaceSlice(svc, s, pool, updates, deletes, untouched, r);
    }
    TakeAll(before);
    TakeAll(existing);
  }

  lemma NotIn(existing: seq<EndpointSlice>, i: nat, a: seq<EndpointSlice>, b: seq<EndpointSlice>, c: seq<EndpointSlice>)
    requires i < |existing| && Distinct(existing)
    requires multiset(a) + multiset(b) + multiset(c) == multiset(existing[..i])
    ensures existing[i] !in a && existing[i] !in b && existing[i] !in c
    ensures multiset(existing[..i + 1]) == multiset(existing[..i]) + multiset{existing[i]}
  {
    var s := existing[i];
    assert s !in multiset(existing[..i]);
    assert multiset(a)[s] + multiset(b)[s] + multiset(c)[s] == 0;
    TakeNext(existing, i);
  }

  ghost predicate Apart(a: seq<EndpointSlice>, b: seq<EndpointSlice>) {
    forall i, j :: 0 <= i < |a| && 0 <= j < |b| ==> a[i] != b[j]
  }

  ghost predicate Within(a: seq<EndpointSlice>, b: seq<EndpointSlice>) {
    forall i :: 0 <= i < |a| ==> a[i] in b
  }

  lemma DistinctParts(a: seq<EndpointSlice>, b: seq<EndpointSlice>, c: seq<EndpointSlice>, whole: seq<EndpointSlice>)
    requires Distinct(whole) && multiset(a) + multiset(b) + multiset(c) == multiset(whole)
    ensures Distinct(a) && Distinct(b) && Distinct(c)
    ensures Apart(a, b) && Apart(a, c) && Apart(b, c)
    ensures Within(a, whole) && Within(b, whole) && Within(c, whole)
  {
    DistinctCounts(whole);
    forall o ensures multiset(a)[o] + multiset(b)[o] + multiset(c)[o] <= 1 {
      assert multiset(whole)[o] <= 1;
    }
    CountsDistinct(a);
    CountsDistinct(b);
    CountsDistinct(c);
    forall o | o in a || o in b || o in c ensures o in whole {
      assert o in multiset(whole);
    }
    forall i, j | 0 <= i < |a| && 0 <= j < |b| ensures a[i] != b[j] {
      assert a[i] in multiset(a) && b[j] in multiset(b);
    }
    forall i, j | 0 <= i < |a| && 0 <= j < |c| ensures a[i] != c[j] {
      assert a[i] in multiset(a) && c[j] in multiset(c);
    }
    forall i, j | 0 <= i < |b| && 0 <= j < |c| ensures b[i] != c[j] {
      assert b[i] in multiset(b) && c[j] in multiset(c);
    }
  }

  lemma {:induction false} DistinctCounts(os: seq<EndpointSlice>)
    requires Distinct(os)
    ensures forall o :: multiset(os)[o] <= 1
  {
    if os != [] {
      var n := |os| - 1;
      DistinctCounts(os[..n]);
      assert os == os[..n] + [os[n]];
      assert os[n] !in os[..n];
    }
  }

  lemma CountsDistinct(os: seq<EndpointSlice>)
    requires forall o :: multiset(os)[o] <= 1
    ensures Distinct(os)
  {
    forall i, j | 0 <= i < j < |os| ensures os[i] != os[j] {
      assert os == os[..j] + [os[j]] + os[j + 1..];
      assert multiset(os)[os[j]] >= multiset(os[..j])[os[j]] + 1;
      assert os[j] !in multiset(os[..j]);
      assert os[..j][i] in os[..j];
    }
  }

  /** Steps 2 to 4 for one slice: top it up from the set. */
  method FillSlice(s: EndpointSlice, pool: EndpointSet, max: nat) returns (ghost popped: seq<Endpoint>)
    modifies s`endpoints, pool
    ensures Popped(old(pool.items), popped, pool.items)
    ensures FillsOne(old(s.Val()), popped, s.Val(), |pool.items|, max)
  {
    popped := [];
    while |s.endpoints| < max
      invariant s.endpoints == old(s.endpoints) + popped
      invariant |popped| <= Room(old(s.Val()), max)
      invariant Popped(old(pool.items), popped, pool.items)
      decreases max - |s.endpoints|
    {
      ghost var items := pool.items;
      var e := pool.PopAny();
      if e == None {
        break;
      }
      PoppedPush(old(pool.items), popped, items, e.value);
      Assoc(old(s.endpoints), popped, [e.value]);
      s.endpoints := s.endpoints + [e.value];
      popped := popped + [e.value];
    }
  }

  /** Popping `popped` with `left` endpoints remaining is what filling `before` up to `max` takes. */
  ghost predicate FillsOne(before: SliceVal, popped: seq<Endpoint>, after: SliceVal, left: nat, max: nat) {
    && after == before.(endpoints := before.endpoints + popped)
    && |popped| == Min(Room(before, max), |popped| + left)
  }

  ghost predicate Fills(before: seq<SliceVal>, popped: seq<Endpoint>, after: seq<SliceVal>, left: nat, max: nat) {
    if before == [] || after == [] then before == after == [] && popped == []
    else
      var n := |before| - 1;
      var m := |after| - 1;
      var k := |popped| - (|after[m].endpoints| - |before[n].endpoints|);
      && 0 <= k <= |popped|
      && Fills(before[..n], popped[..k], after[..m], left + |popped| - k, max)
      && FillsOne(before[n], popped[k..], after[m], left, max)
  }

  lemma {:induction false} FillsMeansFillAll(before: seq<SliceVal>, popped: seq<Endpoint>, after: seq<SliceVal>,
                                             rest: seq<Endpoint>, max: nat)
    requires Fills(before, popped, after, |rest|, max)
    ensures FillAll(before, popped + rest, max) == (after, rest)
  {
    if before == [] {
      Empty(rest);
    } else {
      var b0, s := before[..|before| - 1], before[|before| - 1];
      var a0, s' := after[..|after| - 1], after[|after| - 1];
      var k := |popped| - (|s'.endpoints| - |s.endpoints|);
      var p0, q := popped[..k], popped[k..];
      FillsMeansFillAll(b0, p0, a0, q + rest, max);
      FillsOneMeansFillOne(s, q, s', rest, max);
      FillAllNext(b0, p0 + (q + rest), a0, q + rest, s, s', rest, max);
      Join(popped, k);
      Assoc(p0, q, rest);
      JoinLast(before);
      JoinLast(after);
    }
  }

  lemma FillAllNext(ss: seq<SliceVal>, order: seq<Endpoint>, filled: seq<SliceVal>, mid: seq<Endpoint>,
                    s: SliceVal, s': SliceVal, rest: seq<Endpoint>, max: nat)
    requires FillAll(ss, order, max) == (filled, mid) && FillOne(s, mid, max) == (s', rest)
    ensures FillAll(ss + [s], order, max) == (filled + [s'], rest)
  {
    InitOfPush(ss, s);
  }

  lemma FillsOneMeansFillOne(before: SliceVal, popped: seq<Endpoint>, after: SliceVal, rest: seq<Endpoint>, max: nat)
    requires FillsOne(before, popped, after, |rest|, max)
    ensures FillOne(before, popped + rest, max) == (after, rest)
  {
    Split(popped, rest);
  }

  lemma FillsNext(before: seq<SliceVal>, p: seq<Endpoint>, after: seq<SliceVal>, left: nat, max: nat,
                  s: SliceVal, q: seq<Endpoint>, s': SliceVal, left': nat)
    requires Fills(before, p, after, left, max) && FillsOne(s, q, s', left', max) && left == |q| + left'
    ensures Fills(before + [s], p + q, after + [s'], left', max)
  {
    InitOfPush(before, s);
    InitOfPush(after, s');
    Split(p, q);
  }

  ghost predicate Progress(start: Wanted, before: seq<SliceVal>, popped: seq<Endpoint>, after: seq<SliceVal>,
                           items: Wanted, max: nat) {
    Popped(start, popped, items) && Fills(before, popped, after, |items|, max)
  }

  lemma {:induction false} PoppedSize(a: Wanted, p: seq<Endpoint>, b: Wanted)
    requires Popped(a, p, b)
    ensures |a| == |p| + |b|
    decreases |p|
  {
    if p != [] {
      var n := |p| - 1;
      var b': Wanted := b[p[n].key := p[n]];
      assert b'.Keys == b.Keys + {p[n].key};
      assert |b'.Keys| == |b.Keys| + 1;
      PoppedSize(a, p[..n], b');
    }
  }

  lemma ProgressNext(start: Wanted, before: seq<SliceVal>, i: nat, p: seq<Endpoint>, after: seq<SliceVal>,
                     items: Wanted,
                     max: nat, q: seq<Endpoint>, s': SliceVal, items': Wanted)
    requires i < |before| && Progress(start, before[..i], p, after, items, max)
    requires Popped(items, q, items') && FillsOne(before[i], q, s', |items'|, max)
    ensures Progress(start, before[..i + 1], p + q, after + [s'], items', max)
  {
    PoppedThen(start, p, items, q, items');
    PoppedSize(items, q, items');
    FillsNext(before[..i], p, after, |items|, max, before[i], q, s', |items'|);
    TakeNext(before, i);
  }

  method FillSlices(ss: seq<EndpointSlice>, pool: EndpointSet, max: nat, ghost before: seq<SliceVal>)
    returns (ghost popped: seq<Endpoint>, ghost after: seq<SliceVal>)
    requires Distinct(ss) && Shows(ss, before)
    modifies ss, pool
    ensures Shows(ss, after) && Progress(old(pool.items), before, popped, after, pool.items, max)
  {
    popped, after := [], [];
    for i := 0 to |ss|
      invariant Progress(old(pool.items), before[..i], popped, after, pool.items, max)
      invariant |after| == i && forall j :: 0 <= j < i ==> ss[j].Val() == after[j]
      invariant forall j :: i <= j < |ss| ==> ss[j].Val() == before[j]
    {
      ghost var items := pool.items;
      ghost var more := FillSlice(ss[i], pool, max);
      ProgressNext(old(pool.items), before, i, popped, after, items, max, more, ss[i].Val(), pool.items);
      popped, after := popped + more, after + [ss[i].Val()];
    }
    TakeAll(before);
  }

  ghost predicate FillsKept(u: seq<SliceVal>, t: seq<SliceVal>, popped: seq<Endpoint>,
                            u': seq<SliceVal>, t': seq<SliceVal>, left: nat, max: nat)
  {
    forall rest :: |rest| == left ==> FillKept(u, t, popped + rest, max) == Kept(u', t', rest)
  }

  lemma FillsFirst(u: seq<SliceVal>, t: seq<SliceVal>, p: seq<Endpoint>, u': seq<SliceVal>, max: nat)
    requires Fills(u, p, u', 0, max)
    ensures FillsKept(u, t, p, u', t, 0, max)
  {
    FillsMeansFillAll(u, p, u', [], max);
  }

  lemma FillKeptBoth(u: seq<SliceVal>, order: seq<Endpoint>, u': seq<SliceVal>, mid: seq<Endpoint>,
                     t: seq<SliceVal>, t': seq<SliceVal>, rest: seq<Endpoint>, max: nat)
    requires FillAll(u, order, max) == (u', mid) && mid != [] && FillAll(t, mid, max) == (t', rest)
    ensures FillKept(u, t, order, max) == Kept(u' + t', [], rest)
  {
  }

  lemma FillsBothFor(u: seq<SliceVal>, p: seq<Endpoint>, u': seq<SliceVal>, t: seq<SliceVal>, q: seq<Endpoint>,
                     t': seq<SliceVal>, rest: seq<Endpoint>, max: nat)
    requires Fills(u, p, u', |q| + |rest|, max) && Fills(t, q, t', |rest|, max) && |q| + |rest| > 0
    ensures FillKept(u, t, p + q + rest, max) == Kept(u' + t', [], rest)
  {
    Assoc(p, q, rest);
    FillsMeansFillAll(u, p, u', q + rest, max);
    FillsMeansFillAll(t, q, t', rest, max);
    FillKeptBoth(u, p + (q + rest), u', q + rest, t, t', rest, max);
  }

  lemma FillsBothWith(u: seq<SliceVal>, p: seq<Endpoint>, u': seq<SliceVal>, left: nat, t: seq<SliceVal>,
                      q: seq<Endpoint>, t': seq<SliceVal>, left': nat, rest: seq<Endpoint>, max: nat)
    requires Fills(u, p, u', left, max) && Fills(t, q, t', left', max) && left == |q| + left' && left > 0
    requires |rest| == left'
    ensures FillKept(u, t, p + q + rest, max) == Kept(u' + t', [], rest)
  {
    FillsBothFor(u, p, u', t, q, t', rest, max);
  }

  lemma FillsBoth(u: seq<SliceVal>, p: seq<Endpoint>, u': seq<SliceVal>, left: nat,
                  t: seq<SliceVal>, q: seq<Endpoint>, t': seq<SliceVal>, left': nat, max: nat)
    requires Fills(u, p, u', left, max) && Fills(t, q, t', left', max) && left == |q| + left' && left > 0
    ensures FillsKept(u, t, p + q, u' + t', [], left', max)
  {
    forall rest: seq<Endpoint> | |rest| == left'
      ensures FillKept(u, t, p + q + rest, max) == Kept(u' + t', [], rest)
    {
      FillsBothWith(u, p, u', left, t, q, t', left', rest, max);
    }
  }

  lemma ShowsConcat(a: seq<EndpointSlice>, va: seq<SliceVal>, b: seq<EndpointSlice>, vb: seq<SliceVal>)
    requires Shows(a, va) && Shows(b, vb)
    ensures Shows(a + b, va + vb)
  {
  }

  /** Steps 2 and 3. */
  method FillExisting(updates: seq<EndpointSlice>, untouched: seq<EndpointSlice>, pool: EndpointSet, max: nat,
                      ghost u: seq<SliceVal>, ghost t: seq<SliceVal>)
    returns (filled: seq<EndpointSlice>, ghost popped: seq<Endpoint>, ghost u': seq<SliceVal>, ghost t': seq<SliceVal>)
    requires Distinct(updates) && Distinct(untouched) && Apart(updates, untouched)
    requires Shows(updates, u) && Shows(untouched, t)
    modifies updates, untouched, pool
    ensures Popped(old(pool.items), popped, pool.items)
    ensures Shows(filled, u') && FillsKept(u, t, popped, u', t', |pool.items|, max)
    ensures filled == updates || filled == updates + untouched
  {
    filled, popped, u', t' := updates, [], u, t;
    if |pool.items| > 0 {
      popped, u' := FillSlices(updates, pool, max, u);
    } else {
      NothingToFill(u, max);
    }
    if |pool.items| == 0 {
      FillsFirst(u, t, popped, u', max);
    } else {
      ghost var middle, p := pool.items, popped;
      assert Shows(untouched, t);
      ghost var q, touched := FillSlices(untouched, pool, max, t);
      PoppedThen(old(pool.items), popped, middle, q, pool.items);
      PoppedSize(middle, q, pool.items);
      FillsBoth(u, p, u', |middle|, t, q, touched, |pool.items|, max);
      ShowsConcat(updates, u', untouched, touched);
      filled := updates + untouched;
      popped, u', t' := p + q, u' + touched, [];
    }
  }

  /** Step 4. */
  method CreateSlice(svc: Service, addressType: AddressType, pool: EndpointSet, max: nat)
    returns (creates: seq<EndpointSlice>, ghost popped: seq<Endpoint>, ghost created: SliceVal)
    modifies pool
    ensures fresh(creates) && |creates| == if old(|pool.items|) > 0 then 1 else 0
    ensures creates != [] ==> creates[0].Val() == created
    ensures Popped(old(pool.items), popped, pool.items)
    ensures if creates != [] then FillsOne(NewSlice(svc, addressType), popped, created, |pool.items|, max)
            else popped == []
  {
    creates, popped, created := [], [], NewSlice(svc, addressType);
    if |pool.items| > 0 {
      var slice := new EndpointSlice(addressType, [OwnerRef(svc.uid, "Service", "v1")], svc.ports, map[]);
      var labels, _ := EnsureEndpointSliceLabels(slice.labels, svc);
      slice.labels := labels;
      popped := FillSlice(slice, pool, max);
      creates, created := [slice], slice.Val();
    }
  }

  lemma PlanFrom(sorted: Sorted, svc: Service, addressType: AddressType, max: nat,
                 p: seq<Endpoint>, u: seq<SliceVal>, t: seq<SliceVal>, w: Wanted,
                 q: seq<Endpoint>, created: SliceVal, w': Wanted, rest: seq<Endpoint>)
    requires Popped(sorted.wanted, p, w) && Popped(w, q, w') && IsOrderOf(rest, w')
    requires FillsKept(sorted.updates, sorted.untouched, p, u, t, |w|, max)
    requires if |w| > 0 then FillsOne(NewSlice(svc, addressType), q, created, |w'|, max) else q == []
    ensures IsOrderOf(p + (q + rest), sorted.wanted)
    ensures PlanOf(sorted, svc, addressType, p + (q + rest), max)
         == Plan(if |w| > 0 then [created] else [], u, sorted.deletes, t, rest)
  {
    PoppedOrder(w, q, w', rest);
    PoppedOrder(sorted.wanted, p, w, q + rest);
    PoppedSize(w, q, w');
    OrderSize(rest, w');
    assert FillKept(sorted.updates, sorted.untouched, p + (q + rest), max) == Kept(u, t, q + rest);
    if |w| > 0 {
      FillsOneMeansFillOne(NewSlice(svc, addressType), q, created, rest, max);
    }
  }

  /** Steps 2 to 4. */
  method PlaceRest(svc: Service, addressType: AddressType, pool: EndpointSet, max: nat, updates: seq<EndpointSlice>,
                   deletes: seq<EndpointSlice>, untouched: seq<EndpointSlice>, ghost sorted: Sorted)
    returns (creates: seq<EndpointSlice>, updates': seq<EndpointSlice>, ghost order: seq<Endpoint>, ghost plan: Plan)
    requires ShowsSorted(updates, deletes, untouched, sorted) && pool.items == sorted.wanted
    requires Distinct(updates) && Distinct(untouched)
    requires Apart(updates, untouched) && Apart(updates, deletes) && Apart(deletes, untouched)
    modifies updates, untouched, pool
    ensures IsOrderOf(order, sorted.wanted) && plan == PlanOf(sorted, svc, addressType, order, max)
    ensures Shows(creates, plan.creates) && Shows(updates', plan.updates) && Shows(deletes, plan.deletes)
    ensures |creates| <= 1 && fresh(creates) && (updates' == updates || updates' == updates + untouched)
  {
    ghost var p, u, t;
    updates', p, u, t := FillExisting(updates, untouched, pool, max, sorted.updates, sorted.untouched);
    creates, order, plan := PlanCreate(svc, addressType, pool, max, sorted, p, u, t);
  }

  method PlanCreate(svc: Service, addressType: AddressType, pool: EndpointSet, max: nat, ghost sorted: Sorted,
                    ghost p: seq<Endpoint>, ghost u: seq<SliceVal>, ghost t: seq<SliceVal>)
    returns (creates: seq<EndpointSlice>, ghost order: seq<Endpoint>, ghost plan: Plan)
    requires Popped(sorted.wanted, p, pool.items)
    requires FillsKept(sorted.updates, sorted.untouched, p, u, t, |pool.items|, max)
    modifies pool
    ensures IsOrderOf(order, sorted.wanted) && plan == PlanOf(sorted, svc, addressType, order, max)
    ensures Shows(creates, plan.creates) && plan.updates == u && plan.deletes == sorted.deletes
    ensures |creates| <= 1 && fresh(creates)
  {
    ghost var q, created;
    ghost var w := pool.items;
    creates, q, created := CreateSlice(svc, addressType, pool, max);
    ghost var rest := SomeOrder(pool.items);
    PlanFrom(sorted, svc, addressType, max, p, u, t, w, q, created, pool.items, rest);
    order := p + (q + rest);
    plan := Plan(if |w| > 0 then [created] else [], u, sorted.deletes, t, rest);
  }

  /** `reconcileByAddressType` up to its call of `finalize`. */
  method PackSlices(svc: Service, desired: seq<Endpoint>, existing: seq<EndpointSlice>, addressType: AddressType,
                    max: nat,
                    ghost before: seq<SliceVal>)
    returns (creates: seq<EndpointSlice>, updates: seq<EndpointSlice>, deletes: seq<EndpointSlice>,
             ghost order: seq<Endpoint>, ghost plan: Plan)
    requires Distinct(existing) && Shows(existing, before)
    modifies existing
    ensures var sorted := Classify(before, svc, WantedOf(desired));
            IsOrderOf(order, sorted.wanted) && plan == PlanOf(sorted, svc, addressType, order, max)
    ensures Shows(creates, plan.creates) && Shows(updates, plan.updates) && Shows(deletes, plan.deletes)
    ensures |creates| <= 1 && fresh(creates)
    ensures Within(updates, existing) && Within(deletes, existing)
  {
    var pool := new EndpointSet();
    pool.Insert(desired);
    assert map[] + WantedOf(desired) == WantedOf(desired);
    ghost var sorted;
    var untouched;
    updates, deletes, untouched, sorted := ClassifySlices(svc, existing, pool, before);
    DistinctParts(updates, deletes, untouched, existing);
    creates, updates, order, plan := PlaceRest(svc, addressType, pool, max, updates, deletes, untouched, sorted);
  }

  lemma {:induction false} NothingToFill(ss: seq<SliceVal>, max: nat)
    ensures Fills(ss, [], ss, 0, max)
  {
    if ss != [] {
      var n := |ss| - 1;
      NothingToFill(ss[..n], max);
      assert ss[n].endpoints + [] == ss[n].endpoints;
    }
  }
}
