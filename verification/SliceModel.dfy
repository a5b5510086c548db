/** EndpointSlices as values, and what one packing run does to them. */
module SliceModel {
  import opened Text

  // The fields `hashEndpoint` hashes; the hash itself is taken to be injective on them.
  datatype Key = Key(addresses: seq<string>, hostname: string, refNamespace: string, refName: string)

  // The fields `EndpointsEqualBeyondHash` compares.
  datatype Attrs = Attrs(nodeName: Option<string>, zone: Option<string>, ready: Option<bool>,
                         serving: Option<bool>, terminating: Option<bool>, targetRef: string)

  // `hints` stands for the fields nothing compares.
  datatype Endpoint = Endpoint(key: Key, attrs: Attrs, hints: string)

  datatype AddressType = IPv4 | IPv6 | FQDN

  datatype Port = Port(number: int, protocol: string, name: string)

  datatype OwnerRef = OwnerRef(uid: string, kind: string, apiVersion: string)

  type Labels = map<string, string>

  datatype SliceVal = SliceVal(name: string, addressType: AddressType, owners: seq<OwnerRef>,
                               ports: seq<Port>, labels: Labels, endpoints: seq<Endpoint>)

  datatype Service = Service(uid: string, name: string, labels: Labels, clusterIP: string,
                             ports: seq<Port>, deleting: bool)

  /** `EndpointSet`: one endpoint per key. */
  type Wanted = m: map<Key, Endpoint> | forall k :: k in m ==> m[k].key == k

  const SERVICE_NAME_LABEL := "kubernetes.io/service-name"
  const MANAGED_BY_LABEL := "endpointslice.kubernetes.io/managed-by"
  const HEADLESS_LABEL := "service.kubernetes.io/headless"
  const CONTROLLER_NAME := "kubevirt-eps-controller"

  /** `EndpointSet.Insert`: of two endpoints with one key the later wins. */
  function WantedOf(eps: seq<Endpoint>): (m: Wanted) {
    if eps == [] then map[] else WantedOf(eps[..|eps| - 1])[eps[|eps| - 1].key := eps[|eps| - 1]]
  }

  function EnsureLabels(labels: Labels, svc: Service): Labels {
    var l := (labels + svc.labels)[SERVICE_NAME_LABEL := svc.name][MANAGED_BY_LABEL := CONTROLLER_NAME];
    if svc.clusterIP == "" || svc.clusterIP == "None" then l[HEADLESS_LABEL := ""] else l - {HEADLESS_LABEL}
  }

  /** Enforcing the labels twice is enforcing them once, so an unchanged service changes no labels. */
  lemma EnsureLabelsIdempotent(labels: Labels, svc: Service)
    ensures EnsureLabels(EnsureLabels(labels, svc), svc) == EnsureLabels(labels, svc)
  {
    var l := EnsureLabels(labels, svc);
    assert HEADLESS_LABEL != SERVICE_NAME_LABEL && HEADLESS_LABEL != MANAGED_BY_LABEL
           && SERVICE_NAME_LABEL != MANAGED_BY_LABEL by {
      assert |HEADLESS_LABEL| == 30 && |SERVICE_NAME_LABEL| == 26 && |MANAGED_BY_LABEL| == 38;
    }
    assert EnsureLabels(l, svc).Keys == l.Keys;
  }

  /** The controller's own labels, then the Service's, then whatever the slice carried before. */
  lemma EnsureLabelsMeaning(labels: Labels, svc: Service, k: string)
    ensures var l := EnsureLabels(labels, svc);
            && SERVICE_NAME_LABEL in l && l["kubernetes.io/service-name"] == svc.name
            && MANAGED_BY_LABEL in l && l["endpointslice.kubernetes.io/managed-by"] == "kubevirt-eps-controller"
            && (HEADLESS_LABEL in l <==> svc.clusterIP == "" || svc.clusterIP == "None")
            && (HEADLESS_LABEL in l ==> l["service.kubernetes.io/headless"] == "")
            && (k !in {SERVICE_NAME_LABEL, MANAGED_BY_LABEL, HEADLESS_LABEL} ==>
                  (k in l <==> k in labels || k in svc.labels)
                  && (k in l ==> l[k] == if k in svc.labels then svc.labels[k] else labels[k]))
  {
    assert |HEADLESS_LABEL| == 30 && |SERVICE_NAME_LABEL| == 26 && |MANAGED_BY_LABEL| == 38;
  }

  // ---- Step 1: what of a slice is still wanted ----

  datatype Cover = Cover(covered: seq<Endpoint>, wanted: Wanted, stale: bool)

  /** The endpoints of a slice still wanted, in their wanted form; each is struck off the set. */
  function CoverOf(eps: seq<Endpoint>, wanted: Wanted): Cover {
    if eps == [] then Cover([], wanted, false)
    else
      var c := CoverOf(eps[..|eps| - 1], wanted);
      var e := eps[|eps| - 1];
      if e.key in c.wanted then
        Cover(c.covered + [c.wanted[e.key]], c.wanted - {e.key}, c.stale || c.wanted[e.key].attrs != e.attrs)
      else c
  }

  datatype Fate = Keep | Change | Drop

  datatype Settled = Settled(fate: Fate, slice: SliceVal, wanted: Wanted)

  /** What step 1 makes of one slice: its worklist, its new content and the set that is left. */
  function Settle(s: SliceVal, svc: Service, wanted: Wanted): Settled {
    var c := CoverOf(s.endpoints, wanted);
    var labels := EnsureLabels(s.labels, svc);
    if s.ports != svc.ports || c.stale || labels != s.labels || |s.endpoints| != |c.covered| then
      if c.covered == [] then Settled(Drop, s.(ports := svc.ports), c.wanted)
      else Settled(Change, s.(ports := svc.ports, endpoints := c.covered, labels := labels), c.wanted)
    else Settled(Keep, s, c.wanted)
  }

  datatype Sorted = Sorted(updates: seq<SliceVal>, deletes: seq<SliceVal>, untouched: seq<SliceVal>, wanted: Wanted)

  function Classify(ss: seq<SliceVal>, svc: Service, wanted: Wanted): Sorted {
    if ss == [] then Sorted([], [], [], wanted)
    else
      var r := Classify(ss[..|ss| - 1], svc, wanted);
      Place(r, Settle(ss[|ss| - 1], svc, r.wanted))
  }

  function Place(r: Sorted, x: Settled): Sorted {
    match x.fate
    case Keep => Sorted(r.updates, r.deletes, r.untouched + [x.slice], x.wanted)
    case Drop => Sorted(r.updates, r.deletes + [x.slice], r.untouched, x.wanted)
    case Change => Sorted(r.updates + [x.slice], r.deletes, r.untouched, x.wanted)
  }

  // ---- Steps 2 to 4: placing what is left, in the order the set happens to yield it ----

  function Min(a: int, b: int): int { if a < b then a else b }

  function Room(s: SliceVal, max: nat): nat {
    if |s.endpoints| < max then max - |s.endpoints| else 0
  }

  function TotalRoom(ss: seq<SliceVal>, max: nat): nat {
    if ss == [] then 0 else TotalRoom(ss[..|ss| - 1], max) + Room(ss[|ss| - 1], max)
  }

  function FillOne(s: SliceVal, order: seq<Endpoint>, max: nat): (r: (SliceVal, seq<Endpoint>)) {
    var n := Min(Room(s, max), |order|);
    (s.(endpoints := s.endpoints + order[..n]), order[n..])
  }

  function FillAll(ss: seq<SliceVal>, order: seq<Endpoint>, max: nat): (r: (seq<SliceVal>, seq<Endpoint>)) {
    if ss == [] then ([], order)
    else
      var (filled, rest) := FillAll(ss[..|ss| - 1], order, max);
      var (s, rest') := FillOne(ss[|ss| - 1], rest, max);
      (filled + [s], rest')
  }

  function NewSlice(svc: Service, addressType: AddressType): SliceVal {
    SliceVal("", addressType, [OwnerRef(svc.uid, "Service", "v1")], svc.ports, EnsureLabels(map[], svc), [])
  }

  datatype Plan = Plan(creates: seq<SliceVal>, updates: seq<SliceVal>, deletes: seq<SliceVal>,
                       untouched: seq<SliceVal>, leftover: seq<Endpoint>)

  datatype Kept = Kept(updates: seq<SliceVal>, untouched: seq<SliceVal>, rest: seq<Endpoint>)

  /** Steps 2 and 3. Step 3 sends every untouched slice as an update, filled or not. */
  function FillKept(updates: seq<SliceVal>, untouched: seq<SliceVal>, order: seq<Endpoint>, max: nat): Kept {
    var (filled, rest) := FillAll(updates, order, max);
    if rest == [] then Kept(filled, untouched, [])
    else
      var (touched, rest') := FillAll(untouched, rest, max);
      Kept(filled + touched, [], rest')
  }

  /** The worklists handed to `finalize`. `order` lists what step 1 leaves unplaced. */
  function PlanOf(sorted: Sorted, svc: Service, addressType: AddressType, order: seq<Endpoint>, max: nat): Plan {
    var kept := FillKept(sorted.updates, sorted.untouched, order, max);
    if kept.rest == [] then Plan([], kept.updates, sorted.deletes, kept.untouched, [])
    else
      var (created, leftover) := FillOne(NewSlice(svc, addressType), kept.rest, max);
      Plan([created], kept.updates, sorted.deletes, kept.untouched, leftover)
  }

  /** Some order in which popping from the set can yield all of it. */
  ghost predicate IsOrderOf(order: seq<Endpoint>, wanted: Wanted) {
    if order == [] then wanted == map[]
    else
      var e := order[0];
      e.key in wanted && wanted[e.key] == e && IsOrderOf(order[1..], wanted - {e.key})
  }

  lemma {:induction false} OrderSize(order: seq<Endpoint>, wanted: Wanted)
    requires IsOrderOf(order, wanted)
    ensures |order| == |wanted|
    decreases |order|
  {
    if order != [] {
      var e := order[0];
      OrderSize(order[1..], wanted - {e.key});
      assert (wanted - {e.key}).Keys == wanted.Keys - {e.key};
      assert |wanted.Keys - {e.key}| == |wanted.Keys| - 1;
    }
  }

  function OwnedBy(s: SliceVal, svc: Service): bool {
    exists i :: 0 <= i < |s.owners| && s.owners[i] == OwnerRef(svc.uid, "Service", "v1")
  }

  ghost predicate DistinctNames(ss: seq<SliceVal>) {
    forall i, j :: 0 <= i < j < |ss| ==> ss[i].name != ss[j].name
  }

  /** The stored slices of the service and address type, and a listing of them. */
  type Store = map<string, SliceVal>

  ghost predicate IsListing(ss: seq<SliceVal>, store: Store) {
    && DistinctNames(ss)
    && (forall i :: 0 <= i < |ss| ==> ss[i].name in store && store[ss[i].name] == ss[i])
    && (forall n :: n in store ==> exists i :: 0 <= i < |ss| && ss[i].name == n)
  }
}
