/** `finalize`: recycling deletions into updates, then the API calls in their fixed order. */
module SliceFinalize {
  import opened Seqs
  import opened SliceModel

  datatype Call = Create(slice: SliceVal, given: string) | Update(slice: SliceVal) | Delete(name: string)

  function Apply(store: Store, call: Call): Store {
    match call
    case Create(s, given) => store[given := s.(name := given)]
    case Update(s) => store[s.name := s]
    case Delete(name) => store - {name}
  }

  function ApplyAll(store: Store, calls: seq<Call>): Store {
    if calls == [] then store else Apply(ApplyAll(store, calls[..|calls| - 1]), calls[|calls| - 1])
  }

  // The name the API server generates for the i-th slice to create.
  type Names = nat -> string

  function CreateCalls(creates: seq<SliceVal>, given: Names): seq<Call> {
    seq(|creates|, i requires 0 <= i < |creates| => Create(creates[i], given(i)))
  }

  function UpdateCalls(updates: seq<SliceVal>): seq<Call> {
    seq(|updates|, i requires 0 <= i < |updates| => Update(updates[i]))
  }

  function DeleteCalls(deletes: seq<SliceVal>): seq<Call> {
    seq(|deletes|, i requires 0 <= i < |deletes| => Delete(deletes[i].name))
  }

  function CallsOf(creates: seq<SliceVal>, updates: seq<SliceVal>, deletes: seq<SliceVal>, svc: Service,
                   given: Names): seq<Call>
  {
    (if svc.deleting then [] else CreateCalls(creates, given)) + UpdateCalls(updates) + DeleteCalls(deletes)
  }

  // ---- Recycling over arbitrary worklists. `fits(d, c)`: same address type and `d` owned by the service ----

  datatype Recycled<T> = Recycled(creates: seq<T>, updates: seq<T>, deletes: seq<T>, renamed: seq<(T, T)>)

  datatype WrittenOutcome<T> = OutOfRange | Done(lists: Recycled<T>)

  function Without<T>(s: seq<T>, i: nat): seq<T>
    requires i < |s|
  {
    s[..i] + s[i + 1..]
  }

  /** The loop as the comment above it intends: the renamed slice moves to the updates. */
  function Intended<T>(l: Recycled<T>, i: nat, fits: (T, T) -> bool): Recycled<T>
    requires i <= |l.deletes|
    decreases |l.deletes| - i
  {
    if i == |l.deletes| || l.creates == [] then l
    else if fits(l.deletes[i], l.creates[0]) then
      Intended(Recycled(l.creates[1..], l.updates + [l.creates[0]], Without(l.deletes, i),
                        l.renamed + [(l.creates[0], l.deletes[i])]), i, fits)
    else Intended(l, i + 1, fits)
  }

  /** The loop as written: the list is resliced before its first element is read. */
  function Written<T>(l: Recycled<T>, i: nat, fits: (T, T) -> bool): WrittenOutcome<T>
    requires i <= |l.deletes|
    decreases |l.deletes| - i
  {
    if i == |l.deletes| || l.creates == [] then Done(l)
    else if fits(l.deletes[i], l.creates[0]) then
      if |l.creates| == 1 then OutOfRange
      else Written(Recycled(l.creates[1..], l.updates + [l.creates[1]], Without(l.deletes, i),
                            l.renamed + [(l.creates[0], l.deletes[i])]), i, fits)
    else Written(l, i + 1, fits)
  }

  function Eligible<T>(deletes: seq<T>, ok: T -> bool): seq<T> {
    if deletes == [] then []
    else (if ok(deletes[0]) then [deletes[0]] else []) + Eligible(deletes[1..], ok)
  }

  function DropEligible<T>(deletes: seq<T>, ok: T -> bool, n: nat): seq<T> {
    if deletes == [] || n == 0 then deletes
    else if ok(deletes[0]) then DropEligible(deletes[1..], ok, n - 1)
    else [deletes[0]] + DropEligible(deletes[1..], ok, n)
  }

  function Pairs<T>(creates: seq<T>, eligible: seq<T>, n: nat): seq<(T, T)>
    requires n <= |creates| && n <= |eligible|
  {
    seq(n, i requires 0 <= i < n => (creates[i], eligible[i]))
  }

  /** The slices to create share their address type, so eligibility does not depend on which one is next. */
  ghost predicate Uniform<T>(l: Recycled<T>, fits: (T, T) -> bool, ok: T -> bool) {
    forall d, c :: d in l.deletes && c in l.creates ==> fits(d, c) == ok(d)
  }

  lemma UniformRest<T>(l: Recycled<T>, l': Recycled<T>, i: nat, fits: (T, T) -> bool, ok: T -> bool)
    requires Uniform(l, fits, ok) && i < |l.deletes| && l.creates != []
    requires l'.creates == l.creates[1..] && l'.deletes == Without(l.deletes, i)
    ensures Uniform(l', fits, ok)
    ensures l'.deletes[i..] == l.deletes[i..][1..] && l'.deletes[..i] == l.deletes[..i]
  {
    assert forall d :: d in l'.deletes ==> d in l.deletes;
    assert forall c :: c in l'.creates ==> c in l.creates;
  }

  function RecycledCount<T>(l: Recycled<T>, i: nat, ok: T -> bool): nat
    requires i <= |l.deletes|
  {
    Min(|l.creates|, |Eligible(l.deletes[i..], ok)|)
  }

  /** What recycling n deletions from position i on leaves. */
  ghost function RecycledTo<T>(l: Recycled<T>, i: nat, ok: T -> bool, n: nat): Recycled<T>
    requires i <= |l.deletes| && n <= |l.creates| && n <= |Eligible(l.deletes[i..], ok)|
  {
    Recycled(l.creates[n..], l.updates + l.creates[..n], l.deletes[..i] + DropEligible(l.deletes[i..], ok, n),
             l.renamed + Pairs(l.creates, Eligible(l.deletes[i..], ok), n))
  }

  lemma RecycledNone<T>(l: Recycled<T>, i: nat, ok: T -> bool)
    requires i <= |l.deletes|
    ensures RecycledTo(l, i, ok, 0) == l
  {
    Join(l.deletes, i);
    Empty(l.updates);
    Empty(l.renamed);
    assert l.creates[..0] == [] && Pairs(l.creates, Eligible(l.deletes[i..], ok), 0) == [];
  }

  /** As many as there are creations and eligible deletions for. */
  ghost function RecycledAll<T>(l: Recycled<T>, i: nat, ok: T -> bool): Recycled<T>
    requires i <= |l.deletes|
  {
    RecycledTo(l, i, ok, RecycledCount(l, i, ok))
  }

  lemma TakeOne<T>(l: Recycled<T>, l': Recycled<T>, i: nat, fits: (T, T) -> bool, ok: T -> bool)
    requires i < |l.deletes| && l.creates != [] && fits(l.deletes[i], l.creates[0]) && Uniform(l, fits, ok)
    requires l' == Recycled(l.creates[1..], l.updates + [l.creates[0]], Without(l.deletes, i),
                            l.renamed + [(l.creates[0], l.deletes[i])])
    ensures Intended(l, i, fits) == Intended(l', i, fits)
    ensures ok(l.deletes[i]) && Uniform(l', fits, ok)
    ensures l'.deletes[i..] == l.deletes[i..][1..] && l'.deletes[..i] == l.deletes[..i]
  {
    UniformRest(l, l', i, fits, ok);
    assert l.deletes[i] in l.deletes && l.creates[0] in l.creates;
  }

  lemma EligibleTaken<T>(l: Recycled<T>, l': Recycled<T>, i: nat, ok: T -> bool)
    requires i < |l.deletes| && l.creates != [] && ok(l.deletes[i]) && l'.creates == l.creates[1..]
    requires i <= |l'.deletes| && l'.deletes[i..] == l.deletes[i..][1..]
    ensures Eligible(l.deletes[i..], ok) == [l.deletes[i]] + Eligible(l'.deletes[i..], ok)
    ensures RecycledCount(l, i, ok) == RecycledCount(l', i, ok) + 1
  {
    assert l.deletes[i..][0] == l.deletes[i];
  }

  lemma RecycledOne<T>(l: Recycled<T>, l': Recycled<T>, i: nat, ok: T -> bool)
    requires i < |l.deletes| && l.creates != [] && ok(l.deletes[i])
    requires l' == Recycled(l.creates[1..], l.updates + [l.creates[0]], Without(l.deletes, i),
                            l.renamed + [(l.creates[0], l.deletes[i])])
    requires l'.deletes[i..] == l.deletes[i..][1..] && l'.deletes[..i] == l.deletes[..i]
    ensures RecycledAll(l', i, ok) == RecycledAll(l, i, ok)
  {
    EligibleTaken(l, l', i, ok);
    var c, d, n := l.creates[0], l.deletes[i], RecycledCount(l', i, ok);
    var more := Eligible(l'.deletes[i..], ok);
    assert [c] + l'.creates[..n] == l.creates[..n + 1] && l'.creates[n..] == l.creates[n + 1..];
    Assoc(l.updates, [c], l'.creates[..n]);
    PairsCons(l.creates, [d] + more, n + 1);
    assert ([d] + more)[1..] == more;
    Assoc(l.renamed, [(c, d)], Pairs(l'.creates, more, n));
    assert l.deletes[i..][0] == d;
  }

  lemma RecycledSkip<T>(l: Recycled<T>, i: nat, ok: T -> bool)
    requires i < |l.deletes| && !ok(l.deletes[i])
    ensures RecycledAll(l, i + 1, ok) == RecycledAll(l, i, ok)
  {
    var rest := l.deletes[i..];
    assert l.deletes[i + 1..] == rest[1..] && rest[0] == l.deletes[i];
    assert Eligible(rest, ok) == Eligible(rest[1..], ok);
    var n := RecycledCount(l, i, ok);
    TakeNext(l.deletes, i);
    Assoc(l.deletes[..i], [l.deletes[i]], DropEligible(rest[1..], ok, n));
    if n == 0 {
      Join(l.deletes, i);
      Join(l.deletes, i + 1);
    }
  }

  /** The intended order recycles as many deletions as it can, in order: each becomes one update that
      carries a new slice under the deleted name, and every other entry stays where it was. */
  lemma {:induction false} IntendedRecycles<T>(l: Recycled<T>, i: nat, fits: (T, T) -> bool, ok: T -> bool)
    requires i <= |l.deletes| && Uniform(l, fits, ok)
    ensures Intended(l, i, fits) == RecycledAll(l, i, ok)
    decreases |l.deletes| - i
  {
    if i == |l.deletes| || l.creates == [] {
      RecycledNone(l, i, ok);
    } else if fits(l.deletes[i], l.creates[0]) {
      var l' := Recycled(l.creates[1..], l.updates + [l.creates[0]], Without(l.deletes, i),
                         l.renamed + [(l.creates[0], l.deletes[i])]);
      TakeOne(l, l', i, fits, ok);
      IntendedRecycles(l', i, fits, ok);
      RecycledOne(l, l', i, ok);
    } else {
      assert l.deletes[i] in l.deletes && l.creates[0] in l.creates;
      IntendedRecycles(l, i + 1, fits, ok);
      RecycledSkip(l, i, ok);
    }
  }

  lemma PairsCons<T>(creates: seq<T>, eligible: seq<T>, n: nat)
    requires 0 < n <= |creates| && n <= |eligible|
    ensures Pairs(creates, eligible, n) == [(creates[0], eligible[0])] + Pairs(creates[1..], eligible[1..], n - 1)
  {
  }

  /** Nothing recyclable is left behind: creations or eligible deletions run out. */
  lemma {:induction false} IntendedLeavesNoPair<T>(deletes: seq<T>, ok: T -> bool, n: nat)
    requires n <= |Eligible(deletes, ok)|
    ensures Eligible(DropEligible(deletes, ok, n), ok) == Eligible(deletes, ok)[n..]
  {
    if deletes != [] && n > 0 {
      if ok(deletes[0]) {
        IntendedLeavesNoPair(deletes[1..], ok, n - 1);
        assert Eligible(deletes, ok)[1..] == Eligible(deletes[1..], ok);
      } else {
        assert Eligible(deletes, ok) == Eligible(deletes[1..], ok);
        IntendedLeavesNoPair(deletes[1..], ok, n);
        EligibleSkips(deletes[0], DropEligible(deletes[1..], ok, n), ok);
      }
    }
  }

  lemma EligibleSkips<T>(d: T, rest: seq<T>, ok: T -> bool)
    requires !ok(d)
    ensures Eligible([d] + rest, ok) == Eligible(rest, ok)
  {
    assert ([d] + rest)[1..] == rest;
  }

  /** The written order reads out of range exactly when eligible deletions suffice for every creation. */
  lemma {:induction false} WrittenOutOfRange<T>(l: Recycled<T>, i: nat, fits: (T, T) -> bool, ok: T -> bool)
    requires i <= |l.deletes| && Uniform(l, fits, ok)
    ensures Written(l, i, fits).OutOfRange? <==> 0 < |l.creates| <= |Eligible(l.deletes[i..], ok)|
    ensures |l.creates| <= 1 && Written(l, i, fits).Done? ==> Written(l, i, fits).lists == l
    decreases |l.deletes| - i
  {
    if i < |l.deletes| && l.creates != [] {
      var rest := l.deletes[i..];
      assert l.deletes[i + 1..] == rest[1..];
      if fits(l.deletes[i], l.creates[0]) {
        if |l.creates| > 1 {
          var l' := Recycled(l.creates[1..], l.updates + [l.creates[1]], Without(l.deletes, i),
                             l.renamed + [(l.creates[0], l.deletes[i])]);
          UniformRest(l, l', i, fits, ok);
          WrittenOutOfRange(l', i, fits, ok);
        }
      } else {
        WrittenOutOfRange(l, i + 1, fits, ok);
      }
    }
  }

  lemma {:induction false} EligibleExists<T>(deletes: seq<T>, ok: T -> bool)
    ensures Eligible(deletes, ok) != [] <==> exists i :: 0 <= i < |deletes| && ok(deletes[i])
  {
    if deletes != [] {
      EligibleExists(deletes[1..], ok);
      if i :| 0 <= i < |deletes| && ok(deletes[i]) {
        if i > 0 {
          assert ok(deletes[1..][i - 1]);
        }
      }
      if i :| 0 <= i < |deletes[1..]| && ok(deletes[1..][i]) {
        assert ok(deletes[i + 1]);
      }
    }
  }

  // ---- Recycling on a plan, which creates at most one slice ----

  predicate Reusable(d: SliceVal, c: SliceVal, svc: Service) {
    d.addressType == c.addressType && OwnedBy(d, svc)
  }

  /** Some slice about to be deleted could be recycled for the one about to be created. */
  ghost predicate Recyclable(plan: Plan, svc: Service) {
    && plan.creates != []
    && exists i :: 0 <= i < |plan.deletes| && Reusable(plan.deletes[i], plan.creates[0], svc)
  }

  function FirstReusable(deletes: seq<SliceVal>, c: SliceVal, svc: Service): (i: nat)
    ensures i <= |deletes|
    ensures i < |deletes| ==> Reusable(deletes[i], c, svc)
    ensures i == |deletes| <==> forall j :: 0 <= j < |deletes| ==> !Reusable(deletes[j], c, svc)
  {
    if deletes == [] || Reusable(deletes[0], c, svc) then 0
    else
      var i := FirstReusable(deletes[1..], c, svc);
      assert forall j :: 1 <= j < |deletes| ==> deletes[j] == deletes[1..][j - 1];
      i + 1
  }

  datatype Worklists = Worklists(creates: seq<SliceVal>, updates: seq<SliceVal>, deletes: seq<SliceVal>)

  /** The worklists the API calls come from: as planned, or with the recycling that was intended. */
  function FinalLists(plan: Plan, svc: Service, corrected: bool): Worklists {
    if !corrected || plan.creates == [] then Worklists(plan.creates, plan.updates, plan.deletes)
    else
      var i := FirstReusable(plan.deletes, plan.creates[0], svc);
      if i == |plan.deletes| then Worklists(plan.creates, plan.updates, plan.deletes)
      else Worklists(plan.creates[1..], plan.updates + [plan.creates[0].(name := plan.deletes[i].name)],
                     Without(plan.deletes, i))
  }

  lemma IntendedTakes<T>(c: T, updates: seq<T>, deletes: seq<T>, i: nat, fits: (T, T) -> bool)
    requires i < |deletes| && fits(deletes[i], c)
    ensures Intended(Recycled([c], updates, deletes, []), i, fits)
         == Recycled([], updates + [c], Without(deletes, i), [(c, deletes[i])])
  {
    var next := Recycled([c][1..], updates + [c], Without(deletes, i), [] + [(c, deletes[i])]);
    assert next.creates == [] && next.renamed == [(c, deletes[i])];
    assert Intended(next, i, fits) == next;
  }

  lemma FirstReusableNext(deletes: seq<SliceVal>, c: SliceVal, i: nat, svc: Service)
    requires i < |deletes|
    ensures FirstReusable(deletes[i..], c, svc)
         == if Reusable(deletes[i], c, svc) then 0 else FirstReusable(deletes[i + 1..], c, svc) + 1
  {
    assert deletes[i..][0] == deletes[i] && deletes[i..][1..] == deletes[i + 1..];
  }

  lemma {:induction false} IntendedFrom(c: SliceVal, updates: seq<SliceVal>, deletes: seq<SliceVal>, i: nat,
                                        svc: Service,
                                        fits: (SliceVal, SliceVal) -> bool)
    requires i <= |deletes| && forall d, e :: fits(d, e) == Reusable(d, e, svc)
    ensures var n := i + FirstReusable(deletes[i..], c, svc);
            Intended(Recycled([c], updates, deletes, []), i, fits) == (
              if n == |deletes| then Recycled([c], updates, deletes, [])
              else Recycled([], updates + [c], Without(deletes, n), [(c, deletes[n])]))
    decreases |deletes| - i
  {
    if i < |deletes| {
      FirstReusableNext(deletes, c, i, svc);
      assert fits(deletes[i], c) == Reusable(deletes[i], c, svc);
      if fits(deletes[i], c) {
        IntendedTakes(c, updates, deletes, i, fits);
      } else {
        IntendedFrom(c, updates, deletes, i + 1, svc, fits);
      }
    }
  }

  /** The corrected worklists are the intended loop's, with the renaming carried out. */
  lemma CorrectedIsIntended(plan: Plan, svc: Service, fits: (SliceVal, SliceVal) -> bool)
    requires |plan.creates| <= 1 && forall d, e :: fits(d, e) == Reusable(d, e, svc)
    ensures var l := Intended(Recycled(plan.creates, plan.updates, plan.deletes, []), 0, fits);
            var w := FinalLists(plan, svc, true);
            && w.creates == l.creates && w.deletes == l.deletes && |l.renamed| <= 1
            && w.updates == plan.updates
               + (if l.renamed == [] then [] else [l.renamed[0].0.(name := l.renamed[0].1.name)])
  {
    Empty(plan.updates);
    if plan.creates != [] {
      assert plan.creates == [plan.creates[0]];
      assert plan.deletes[0..] == plan.deletes;
      IntendedFrom(plan.creates[0], plan.updates, plan.deletes, 0, svc, fits);
    }
  }
}
