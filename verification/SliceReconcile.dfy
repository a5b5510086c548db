/** `finalize` on slice objects and the whole of `reconcileByAddressType`, against an API server that may fail. */
module SliceReconcile {
  import opened Seqs
  import opened SliceModel
  import opened SliceFinalize
  import opened SliceObjects
  import opened SliceRuns
  import opened SliceTheorems
  import opened SliceConvergence

  // NoEffect: the request never arrives. NoAnswer: it takes effect but the answer is lost.
  datatype Fault = Fine | NoEffect | NoAnswer | Terminating

  datatype Answer = Accepted | NamespaceTerminating | Failed

  datatype Result = Success | Swallowed | Error | OutOfRangeRead

  predicate Applicable(store: Store, call: Call) {
    match call
    case Create(_, given) => given !in store
    case Update(s) => s.name in store
    case Delete(name) => name in store
  }

  class ApiServer {
    var slices: Store

    method Perform(call: Call, fault: Fault) returns (r: Answer)
      modifies this
      ensures slices == if Applicable(old(slices), call) && (fault == Fine || fault == NoAnswer)
                        then Apply(old(slices), call) else old(slices)
      ensures r == Accepted <==> fault == Fine && Applicable(old(slices), call)
      ensures r == NamespaceTerminating <==> fault == Terminating && Applicable(old(slices), call)
    {
      if !Applicable(slices, call) || fault == NoEffect {
        return Failed;
      }
      if fault == Terminating {
        return NamespaceTerminating;
      }
      slices := Apply(slices, call);
      r := if fault == Fine then Accepted else Failed;
    }
  }

  type Script = nat -> Fault

  function Fits(svc: Service): (EndpointSlice, EndpointSlice) -> bool {
    (d: EndpointSlice, c: EndpointSlice) => d.addressType == c.addressType && OwnedByRefs(d.owners, svc)
  }

  function OwnedByRefs(owners: seq<OwnerRef>, svc: Service): bool {
    exists i :: 0 <= i < |owners| && owners[i] == OwnerRef(svc.uid, "Service", "v1")
  }

  method IsOwnedBy(s: EndpointSlice, svc: Service) returns (r: bool)
    ensures r == OwnedByRefs(s.owners, svc)
  {
    for i := 0 to |s.owners|
      invariant forall j :: 0 <= j < i ==> s.owners[j] != OwnerRef(svc.uid, "Service", "v1")
    {
      var o := s.owners[i];
      if o.uid == svc.uid && o.kind == "Service" && o.apiVersion == "v1" {
        return true;
      }
    }
    return false;
  }

  /** The recycling loop as written. */
  method RecycleWritten(svc: Service, creates: seq<EndpointSlice>, updates: seq<EndpointSlice>,
                        deletes: seq<EndpointSlice>)
    returns (outOfRange: bool, creates': seq<EndpointSlice>, updates': seq<EndpointSlice>, deletes': seq<EndpointSlice>)
    modifies (set c | c in creates)`name
    ensures match Written(Recycled(creates, updates, deletes, []), 0, Fits(svc))
            case OutOfRange => outOfRange
            case Done(l) => !outOfRange && creates' == l.creates && updates' == l.updates && deletes' == l.deletes
    ensures |creates| <= 1 && !outOfRange ==> forall c :: c in creates ==> unchanged(c)
  {
    creates', updates', deletes', outOfRange := creates, updates, deletes, false;
    ghost var renamed: seq<(EndpointSlice, EndpointSlice)> := [];
    var i := 0;
    while i < |deletes'|
      invariant 0 <= i <= |deletes'|
      invariant forall k :: 0 <= k < |creates'| ==> creates'[k] in creates
      invariant |creates| <= 1 ==> creates' == creates && forall c :: c in creates ==> unchanged(c)
      invariant Written(Recycled(creates, updates, deletes, []), 0, Fits(svc))
             == Written(Recycled(creates', updates', deletes', renamed), i, Fits(svc))
      decreases |deletes'| - i
    {
      if |creates'| == 0 {
        break;
      }
      var d, c := deletes'[i], creates'[0];
      assert c in creates;
      var owned := IsOwnedBy(d, svc);
      if d.addressType == c.addressType && owned {
        if |creates'| == 1 {
          outOfRange := true;
          return;
        }
        c.name := d.name;
        creates' := creates'[1..];
        updates' := updates' + [creates'[0]];
        deletes' := Without(deletes', i);
        renamed := renamed + [(c, d)];
      } else {
        i := i + 1;
      }
    }
  }

  /** The recycling loop as intended: each renamed slice takes the place of one deletion. */
  method RecycleIntended(svc: Service, creates: seq<EndpointSlice>, updates: seq<EndpointSlice>,
                         deletes: seq<EndpointSlice>)
    returns (creates': seq<EndpointSlice>, updates': seq<EndpointSlice>, deletes': seq<EndpointSlice>,
             ghost renamed: seq<(EndpointSlice, EndpointSlice)>)
    requires Distinct(creates) && Apart(creates, deletes)
    modifies (set c | c in creates)`name
    ensures Intended(Recycled(creates, updates, deletes, []), 0, Fits(svc))
         == Recycled(creates', updates', deletes', renamed)
    ensures |renamed| <= |creates|
    ensures forall k :: 0 <= k < |renamed| ==> renamed[k].0 == creates[k] && creates[k].name == renamed[k].1.name
    ensures forall k :: |renamed| <= k < |creates| ==> unchanged(creates[k])
    ensures forall k :: 0 <= k < |deletes| ==> unchanged(deletes[k])
  {
    creates', updates', deletes', renamed := creates, updates, deletes, [];
    var i, n := 0, 0;
    while i < |deletes'|
      invariant 0 <= i <= |deletes'| && n == |renamed| <= |creates| && creates' == creates[n..]
      invariant forall k :: 0 <= k < |deletes'| ==> deletes'[k] in deletes
      invariant forall k :: 0 <= k < |deletes| ==> unchanged(deletes[k])
      invariant forall k :: 0 <= k < |renamed| ==> renamed[k].0 == creates[k] && renamed[k].1 in deletes
      invariant forall k :: 0 <= k < |renamed| ==> creates[k].name == renamed[k].1.name
      invariant forall k :: n <= k < |creates| ==> unchanged(creates[k])
      invariant Intended(Recycled(creates, updates, deletes, []), 0, Fits(svc))
             == Intended(Recycled(creates', updates', deletes', renamed), i, Fits(svc))
      decreases |deletes'| - i
    {
      if |creates'| == 0 {
        break;
      }
      var d, c := deletes'[i], creates'[0];
      assert c == creates[n];
      var owned := IsOwnedBy(d, svc);
      if d.addressType == c.addressType && owned {
        c.name := d.name;
        updates' := updates' + [c];
        creates' := creates'[1..];
        deletes' := Without(deletes', i);
        renamed := renamed + [(c, d)];
        n := n + 1;
      } else {
        i := i + 1;
      }
    }
  }

  // ---- The API calls ----

  /** `done` calls took effect, in order, starting from `before`. */
  ghost predicate Ran(before: Store, calls: seq<Call>, done: nat, after: Store) {
    done <= |calls| && after == ApplyAll(before, calls[..done])
  }

  /** When call k comes, there is no such slice yet if it creates one, and there is one if it does not. */
  ghost predicate InTurn(before: Store, calls: seq<Call>, k: nat)
    requires k < |calls|
  {
    Applicable(ApplyAll(before, calls[..k]), calls[k])
  }

  ghost predicate Heard(before: Store, calls: seq<Call>, faults: Script, k: nat)
    requires k < |calls|
  {
    faults(k) == Fine && InTurn(before, calls, k)
  }

  ghost predicate AllHeard(before: Store, calls: seq<Call>, faults: Script, n: nat)
    requires n <= |calls|
  {
    forall k :: 0 <= k < n ==> Heard(before, calls, faults, k)
  }

  /** All calls before the k-th are accepted, that one is not: only a creation turned away by a namespace that goes
      away is no error, and only a request whose answer is lost has taken effect. */
  ghost predicate StopsAt(before: Store, calls: seq<Call>, faults: Script, k: nat, r: Result, done: nat)
  {
    && k < |calls| && AllHeard(before, calls, faults, k) && !Heard(before, calls, faults, k)
    && r == (if calls[k].Create? && faults(k) == Terminating && InTurn(before, calls, k) then Swallowed else Error)
    && done == if faults(k) == NoAnswer && InTurn(before, calls, k) then k + 1 else k
  }

  /** What comes back and how many calls took effect. */
  ghost predicate Reports(before: Store, calls: seq<Call>, faults: Script, r: Result, done: nat) {
    if AllHeard(before, calls, faults, |calls|) then r == Success && done == |calls|
    else exists k :: StopsAt(before, calls, faults, k, r, done)
  }

  /** Issue the calls one after the other until one fails. */
  method PerformAll(api: ApiServer, calls: seq<Call>, faults: Script, ghost before: Store)
    returns (r: Result, ghost done: nat)
    requires api.slices == before
    modifies api
    ensures Ran(before, calls, done, api.slices)
    ensures Reports(before, calls, faults, r, done) && r != OutOfRangeRead
  {
    done := 0;
    for k := 0 to |calls|
      invariant done == k && api.slices == ApplyAll(before, calls[..k])
      invariant AllHeard(before, calls, faults, k)
    {
      ApplyNext(before, calls, k);
      ghost var inTurn := InTurn(before, calls, k);
      var answer := api.Perform(calls[k], faults(k));
      if answer != Accepted {
        done := if faults(k) == NoAnswer && inTurn then k + 1 else k;
        r := if calls[k].Create? && answer == NamespaceTerminating then Swallowed else Error;
        assert StopsAt(before, calls, faults, k, r, done);
        return;
      }
      done := k + 1;
    }
    r := Success;
  }

  /** The calls `finalize` issues in its three loops: creations unless the service is going away, updates, deletions. */
  method CollectCalls(svc: Service, creates: seq<EndpointSlice>, updates: seq<EndpointSlice>,
                      deletes: seq<EndpointSlice>,
                      given: Names, ghost c: seq<SliceVal>, ghost u: seq<SliceVal>, ghost d: seq<SliceVal>)
    returns (calls: seq<Call>)
    requires Shows(creates, c) && Shows(updates, u) && Shows(deletes, d)
    ensures calls == CallsOf(c, u, d, svc, given)
  {
    var forCreates: seq<Call> := [];
    if !svc.deleting {
      for i := 0 to |creates|
        invariant |forCreates| == i && forall k :: 0 <= k < i ==> forCreates[k] == Create(c[k], given(k))
      {
        forCreates := forCreates + [Create(creates[i].Val(), given(i))];
      }
      assert forCreates == CreateCalls(c, given);
    }
    var forUpdates: seq<Call> := [];
    for i := 0 to |updates|
      invariant |forUpdates| == i && forall k :: 0 <= k < i ==> forUpdates[k] == Update(u[k])
    {
      forUpdates := forUpdates + [Update(updates[i].Val())];
    }
    assert forUpdates == UpdateCalls(u);
    var forDeletes: seq<Call> := [];
    for i := 0 to |deletes|
      invariant |forDeletes| == i && forall k :: 0 <= k < i ==> forDeletes[k] == Delete(d[k].name)
    {
      forDeletes := forDeletes + [Delete(deletes[i].name)];
    }
    assert forDeletes == DeleteCalls(d);
    calls := forCreates + forUpdates + forDeletes;
  }

  // ---- The whole run ----

  lemma WrittenOnPlan(svc: Service, creates: seq<EndpointSlice>, updates: seq<EndpointSlice>,
                      deletes: seq<EndpointSlice>, plan: Plan)
    requires Shows(creates, plan.creates) && Shows(deletes, plan.deletes) && |creates| <= 1
    ensures var w := Written(Recycled(creates, updates, deletes, []), 0, Fits(svc));
            && (w.OutOfRange? <==> Recyclable(plan, svc))
            && (w.Done? ==> w.lists == Recycled(creates, updates, deletes, []))
  {
    var l: Recycled<EndpointSlice> := Recycled(creates, updates, deletes, []);
    if creates != [] {
      var ok := (d: EndpointSlice) => d.addressType == creates[0].addressType && OwnedByRefs(d.owners, svc);
      assert l.deletes[0..] == deletes;
      WrittenOutOfRange(l, 0, Fits(svc), ok);
      EligibleExists(deletes, ok);
      assert forall i :: 0 <= i < |deletes| ==> (ok(deletes[i]) <==> Reusable(plan.deletes[i], plan.creates[0], svc));
    }
  }

  /** On a sound plan every call comes in its turn. */
  lemma SoundInTurn(w: Worklists, t: seq<SliceVal>, store: Store, svc: Service, given: Names, k: nat)
    requires Sound(w, t, store, given) && k < |Calls(w, svc, given)|
    ensures InTurn(store, Calls(w, svc, given), k)
  {
    var calls := Calls(w, svc, given);
    SoundCalls(w, t, store, svc, given);
    CallAt(w, svc, given, k);
    Untargeted(store, calls, k, Target(calls[k]));
  }

  ghost predicate AllFine(faults: Script, n: nat) {
    forall k: nat :: k < n ==> faults(k) == Fine
  }

  /** What a run leaves for whoever reads the stored slices, complete or not. Only the out-of-range read and a fault
      keep it from completing. */
  ghost predicate Guaranteed(run: Run, c: Setting, was: Store, faults: Script, r: Result, now: Store) {
    && (forall k :: k in c.wanted && Has(was, k) ==> Has(now, k))
    && (r == OutOfRangeRead ==> now == was)
    && (r == Success <==> r != OutOfRangeRead && AllFine(faults, |CallsBy(run, c)|))
    && (r == Success ==> now == After(run, c, was))
    && (r == Success && !c.svc.deleting ==>
          && (forall k :: PlacedOnce(now, c, PlanBy(run, c).leftover, k))
          && forall name :: name in now ==> now[name].name == name && InShape(now[name], c, run.corrected, was))
  }

  /** How a run with this plan ends. The out-of-range read happens before any call. */
  ghost predicate EndsWith(plan: Plan, svc: Service, given: Names, faults: Script, was: Store, r: Result, done: nat,
                           now: Store) {
    var calls := CallsOf(plan.creates, plan.updates, plan.deletes, svc, given);
    && (r == OutOfRangeRead <==> Recyclable(plan, svc)) && Ran(was, calls, done, now)
    && if r == OutOfRangeRead then done == 0 else Reports(was, calls, faults, r, done)
  }

  lemma WhenRunsComplete(run: Run, c: Setting, was: Store, faults: Script, r: Result, done: nat)
    requires Possible(run, c, was) && Reports(was, CallsBy(run, c), faults, r, done) && r != OutOfRangeRead
    ensures r == Success <==> AllFine(faults, |CallsBy(run, c)|)
    ensures r == Success ==> done == |CallsBy(run, c)|
  {
    var calls := CallsBy(run, c);
    SoundRun(run, c, was);
    forall k: nat | k < |calls| ensures Heard(was, calls, faults, k) <==> faults(k) == Fine {
      SoundInTurn(ListsBy(run, c), PlanBy(run, c).untouched, was, c.svc, run.given, k);
    }
  }

  lemma RunGuarantees(run: Run, c: Setting, was: Store, faults: Script, r: Result, done: nat, now: Store)
    requires IsListing(run.listing, was) && IsOrderOf(run.order, SortedBy(run, c).wanted)
    requires run.given(0) !in was && !run.corrected
    requires EndsWith(PlanBy(run, c), c.svc, run.given, faults, was, r, done, now)
    ensures Guaranteed(run, c, was, faults, r, now)
  {
    if r == OutOfRangeRead {
      assert CallsBy(run, c)[..0] == [];
    } else {
      WhenRunsComplete(run, c, was, faults, r, done);
      forall k | k in c.wanted && Has(was, k) ensures Has(now, k) {
        MakeBeforeBreak(run, c, was, done, k);
      }
      TakeAll(CallsBy(run, c));
      if r == Success && !c.svc.deleting {
        forall k ensures PlacedOnce(now, c, PlanBy(run, c).leftover, k) {
          ExactlyOnce(run, c, was, k);
        }
        forall name | name in now ensures now[name].name == name && InShape(now[name], c, run.corrected, was) {
          CapacityPortsLabels(run, c, was, name);
        }
      }
    }
  }

  /** `reconcileByAddressType`. Whatever the API server does, the calls that took effect are a prefix of those
      the plan prescribes. */
  method ReconcileByAddressType(svc: Service, desired: seq<Endpoint>, existing: seq<EndpointSlice>,
                                addressType: AddressType,
                                max: nat, api: ApiServer, given: Names, faults: Script, ghost before: seq<SliceVal>)
    returns (r: Result, ghost order: seq<Endpoint>, ghost done: nat)
    requires Distinct(existing) && Shows(existing, before)
    modifies existing, api
    ensures IsOrderOf(order, Classify(before, svc, WantedOf(desired)).wanted)
    ensures var plan := PlanOf(Classify(before, svc, WantedOf(desired)), svc, addressType, order, max);
            EndsWith(plan, svc, given, faults, old(api.slices), r, done, api.slices)
    ensures IsListing(before, old(api.slices)) && given(0) !in old(api.slices) ==>
              Guaranteed(Run(before, order, given, false), Setting(svc, addressType, WantedOf(desired), max),
                         old(api.slices), faults, r, api.slices)
  {
    ghost var store := api.slices;
    var creates, updates, deletes;
    ghost var plan;
    creates, updates, deletes, order, plan := PackSlices(svc, desired, existing, addressType, max, before);
    WrittenOnPlan(svc, creates, updates, deletes, plan);
    var c, u, d, outOfRange;
    outOfRange, c, u, d := RecycleWritten(svc, creates, updates, deletes);
    ghost var calls := CallsOf(plan.creates, plan.updates, plan.deletes, svc, given);
    if outOfRange {
      r, done := OutOfRangeRead, 0;
      assert calls[..0] == [];
    } else {
      var todo := CollectCalls(svc, c, u, d, given, plan.creates, plan.updates, plan.deletes);
      r, done := PerformAll(api, todo, faults, store);
    }
    assert EndsWith(plan, svc, given, faults, store, r, done, api.slices);
    if IsListing(before, store) && given(0) !in store {
      RunGuarantees(Run(before, order, given, false), Setting(svc, addressType, WantedOf(desired), max), store, faults,
                    r, done, api.slices);
    }
  }
}
