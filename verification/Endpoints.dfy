/** The endpoints of one backend: which addresses are taken, deduplicated and put in a fixed order. */
module Endpoints {
  import opened Text
  import opened Seqs

  datatype BackendRef = BackendRef(ip: string, port: int)

  datatype AddressKind = InternalIP | ExternalIP | OtherAddress(name: string)

  datatype NodeAddress = NodeAddress(kind: AddressKind, address: string)

  datatype Node = Node(addresses: seq<NodeAddress>)

  // `vmiIps` is what the VMI lookup of the fallback would select.
  datatype Source = Source(nodes: seq<Node>, clusterName: string, vmiIps: seq<string>)

  type Usable = string -> bool

  // ---- Order ----

  predicate Before(a: BackendRef, b: BackendRef) {
    if a.ip != b.ip then Less(a.ip, b.ip) else a.port < b.port
  }

  lemma BeforeIsTotal(a: BackendRef, b: BackendRef)
    ensures Before(a, b) || a == b || Before(b, a)
    ensures !(Before(a, b) && Before(b, a)) && !Before(a, a)
  {
    LessIsTotal(a.ip, b.ip);
    LessIsStrict(a.ip, b.ip);
  }

  lemma BeforeIsTransitive(a: BackendRef, b: BackendRef, c: BackendRef)
    requires Before(a, b) && Before(b, c)
    ensures Before(a, c)
  {
    if a.ip != b.ip && b.ip != c.ip {
      LessIsTransitive(a.ip, b.ip, c.ip);
      LessIsStrict(a.ip, b.ip);
    }
  }

  ghost predicate StrictlySorted(s: seq<BackendRef>) {
    forall i, j :: 0 <= i < j < |s| ==> Before(s[i], s[j])
  }

  ghost predicate SameElements<T(!new)>(a: seq<T>, b: seq<T>) {
    forall e :: e in a <==> e in b
  }

  /** A strictly sorted list is determined by its elements. */
  lemma {:induction false} SortedIsUnique(a: seq<BackendRef>, b: seq<BackendRef>)
    requires StrictlySorted(a) && StrictlySorted(b) && SameElements(a, b)
    ensures a == b
  {
    assert a != [] ==> a[0] in b;
    assert b != [] ==> b[0] in a;
    if a != [] && b != [] {
      BeforeIsTotal(a[0], b[0]);
      SortedTail(a);
      SortedTail(b);
      SortedIsUnique(a[1..], b[1..]);
      assert a == [a[0]] + a[1..] && b == [b[0]] + b[1..];
    }
  }

  lemma SortedTail(a: seq<BackendRef>)
    requires StrictlySorted(a) && a != []
    ensures StrictlySorted(a[1..]) && forall e :: e in a[1..] <==> e in a && e != a[0]
  {
    forall e | e in a && e != a[0] ensures e in a[1..] {
      var i :| 0 <= i < |a| && a[i] == e;
      assert a[1..][i - 1] == e;
    }
    forall e | e in a[1..] ensures e != a[0] {
      var i :| 0 <= i < |a[1..]| && a[1..][i] == e;
      BeforeIsTotal(a[0], a[i + 1]);
    }
  }

  /** The canonical list of some endpoints: strictly sorted, the same endpoints. */
  function Normalize(eps: seq<BackendRef>): seq<BackendRef> {
    if eps == [] then [] else Insert(Normalize(eps[..|eps| - 1]), eps[|eps| - 1])
  }

  function Insert(s: seq<BackendRef>, e: BackendRef): seq<BackendRef> {
    if s == [] || Before(e, s[0]) then [e] + s
    else if e == s[0] then s
    else [s[0]] + Insert(s[1..], e)
  }

  lemma {:induction false} InsertKeepsSorted(s: seq<BackendRef>, e: BackendRef)
    requires StrictlySorted(s)
    ensures StrictlySorted(Insert(s, e)) && forall x :: x in Insert(s, e) <==> x in s || x == e
  {
    if s == [] {
    } else if Before(e, s[0]) {
      forall i | 0 < i < |s| ensures Before(e, s[i]) {
        BeforeIsTransitive(e, s[0], s[i]);
      }
    } else if e != s[0] {
      SortedTail(s);
      InsertKeepsSorted(s[1..], e);
      BeforeIsTotal(e, s[0]);
      var rest := Insert(s[1..], e);
      forall i | 0 <= i < |rest| ensures Before(s[0], rest[i]) {
        if rest[i] != e {
          assert rest[i] in rest;
          var j :| 0 <= j < |s[1..]| && s[1..][j] == rest[i];
          assert s[j + 1] == rest[i];
        }
      }
    }
  }

  lemma {:induction false} NormalizeIsSorted(eps: seq<BackendRef>)
    ensures StrictlySorted(Normalize(eps)) && SameElements(Normalize(eps), eps)
  {
    if eps != [] {
      NormalizeIsSorted(eps[..|eps| - 1]);
      InsertKeepsSorted(Normalize(eps[..|eps| - 1]), eps[|eps| - 1]);
      JoinLast(eps);
    }
  }

  /** Only the set of endpoints matters. */
  lemma NormalizeForgetsOrder(a: seq<BackendRef>, b: seq<BackendRef>)
    ensures SameElements(a, b) <==> Normalize(a) == Normalize(b)
  {
    NormalizeIsSorted(a);
    NormalizeIsSorted(b);
    if SameElements(a, b) {
      SortedIsUnique(Normalize(a), Normalize(b));
    }
  }

  /** `sort.Slice`, over endpoints no two of which are equal. */
  method Sort(s: seq<BackendRef>) returns (r: seq<BackendRef>)
    ensures StrictlySorted(r) && SameElements(r, s)
  {
    r := [];
    for i := 0 to |s|
      invariant StrictlySorted(r) && SameElements(r, s[..i])
    {
      InsertKeepsSorted(r, s[i]);
      TakeNext(s, i);
      r := Insert(r, s[i]);
    }
    TakeAll(s);
  }

  // The keys of the endpoints met so far, as `seen` holds them.
  ghost predicate SeenKeys(seen: set<string>, eps: seq<BackendRef>) {
    && (forall e :: e in eps ==> HostPort(e.ip, e.port) in seen)
    && (forall key :: key in seen ==> exists e :: e in eps && key == HostPort(e.ip, e.port))
  }

  lemma SeenMeansMet(seen: set<string>, eps: seq<BackendRef>, e: BackendRef)
    requires SeenKeys(seen, eps)
    ensures HostPort(e.ip, e.port) in seen <==> e in eps
  {
    if HostPort(e.ip, e.port) in seen {
      var x :| x in eps && HostPort(e.ip, e.port) == HostPort(x.ip, x.port);
      HostPortInjective(e.ip, e.port, x.ip, x.port);
    }
  }

  lemma SeenPush(seen: set<string>, eps: seq<BackendRef>, e: BackendRef)
    requires SeenKeys(seen, eps)
    ensures SeenKeys(seen + {HostPort(e.ip, e.port)}, eps + [e])
  {
    forall key | key in seen + {HostPort(e.ip, e.port)}
      ensures exists x :: x in eps + [e] && key == HostPort(x.ip, x.port)
    {
      if key in seen {
        var x :| x in eps && key == HostPort(x.ip, x.port);
        assert x in eps + [e];
      } else {
        assert e in eps + [e];
      }
    }
  }

  lemma SamePush(a: seq<BackendRef>, b: seq<BackendRef>, e: BackendRef)
    requires SameElements(a, b)
    ensures SameElements(a + [e], b + [e])
    ensures e in a ==> SameElements(a, b + [e])
  {
  }

  /** Deduplicating by the printed key loses no endpoint, although addresses may contain colons. */
  method NormalizeEndpoints(endpoints: seq<BackendRef>) returns (r: seq<BackendRef>)
    ensures r == Normalize(endpoints)
    ensures forall i, j :: 0 <= i < j < |r| ==> r[i] != r[j]
  {
    var seen: set<string> := {};
    var unique: seq<BackendRef> := [];
    for i := 0 to |endpoints|
      invariant SeenKeys(seen, unique) && SameElements(unique, endpoints[..i])
    {
      var e := endpoints[i];
      var key := HostPort(e.ip, e.port);
      SeenMeansMet(seen, unique, e);
      SamePush(unique, endpoints[..i], e);
      TakeNext(endpoints, i);
      if key in seen {
        continue;
      }
      SeenPush(seen, unique, e);
      seen := seen + {key};
      unique := unique + [e];
    }
    TakeAll(endpoints);
    r := Sort(unique);
    NormalizeIsSorted(endpoints);
    SortedIsUnique(r, Normalize(endpoints));
    forall i, j | 0 <= i < j < |r| ensures r[i] != r[j] {
      BeforeIsTotal(r[i], r[j]);
    }
  }

  // ---- Which addresses ----

  function Chosen(addrs: seq<NodeAddress>, kind: AddressKind, usable: Usable): seq<string> {
    if addrs == [] then []
    else
      var a := addrs[|addrs| - 1];
      Chosen(addrs[..|addrs| - 1], kind, usable) + (if a.kind == kind && usable(a.address) then [a.address] else [])
  }

  function ChosenOf(nodes: seq<Node>, kind: AddressKind, usable: Usable): seq<string> {
    if nodes == [] then []
    else ChosenOf(nodes[..|nodes| - 1], kind, usable) + Chosen(nodes[|nodes| - 1].addresses, kind, usable)
  }

  /** Internal addresses, without any external ones, without any the fallback. */
  function Addresses(src: Source, usable: Usable): seq<string> {
    var internals := ChosenOf(src.nodes, InternalIP, usable);
    var externals := ChosenOf(src.nodes, ExternalIP, usable);
    if internals != [] then internals
    else if externals != [] then externals
    else if src.clusterName != "" then src.vmiIps
    else []
  }

  function Refs(ips: seq<string>, port: int): seq<BackendRef> {
    seq(|ips|, i requires 0 <= i < |ips| => BackendRef(ips[i], port))
  }

  function EndpointsOf(src: Source, nodePort: int, usable: Usable): seq<BackendRef> {
    Normalize(Refs(Addresses(src, usable), nodePort))
  }

  method FromNodes(nodes: seq<Node>, kind: AddressKind, nodePort: int, usable: Usable)
    returns (endpoints: seq<BackendRef>)
    ensures endpoints == Refs(ChosenOf(nodes, kind, usable), nodePort)
  {
    endpoints := [];
    for i := 0 to |nodes|
      invariant endpoints == Refs(ChosenOf(nodes[..i], kind, usable), nodePort)
    {
      var addrs := nodes[i].addresses;
      ghost var before := ChosenOf(nodes[..i], kind, usable);
      for j := 0 to |addrs|
        invariant endpoints == Refs(before + Chosen(addrs[..j], kind, usable), nodePort)
      {
        TakeNext(addrs, j);
        ghost var chosen := before + Chosen(addrs[..j], kind, usable);
        var a := addrs[j];
        if a.kind == kind && usable(a.address) {
          endpoints := endpoints + [BackendRef(a.address, nodePort)];
          Assoc(before, Chosen(addrs[..j], kind, usable), [a.address]);
          assert endpoints == Refs(chosen + [a.address], nodePort);
        } else {
          Empty(Chosen(addrs[..j], kind, usable));
        }
      }
      TakeAll(addrs);
      TakeNext(nodes, i);
    }
    TakeAll(nodes);
  }

  method BuildEndpoints(src: Source, nodePort: int, usable: Usable) returns (r: seq<BackendRef>)
    ensures r == EndpointsOf(src, nodePort, usable)
  {
    var endpoints: seq<BackendRef> := [];
    if |src.nodes| > 0 {
      endpoints := FromNodes(src.nodes, InternalIP, nodePort, usable);
      if |endpoints| == 0 {
        endpoints := FromNodes(src.nodes, ExternalIP, nodePort, usable);
      }
    }
    if |endpoints| == 0 && src.clusterName != "" {
      endpoints := [];
      for i := 0 to |src.vmiIps|
        invariant endpoints == Refs(src.vmiIps[..i], nodePort)
      {
        endpoints := endpoints + [BackendRef(src.vmiIps[i], nodePort)];
      }
      TakeAll(src.vmiIps);
    }
    r := NormalizeEndpoints(endpoints);
  }

  // ---- Order independence ----

  /** The (type, address) pairs over all nodes. */
  ghost function Pairs(nodes: seq<Node>): set<NodeAddress> {
    set n, a | n in nodes && a in n.addresses :: a
  }

  lemma {:induction false} ChosenElements(addrs: seq<NodeAddress>, kind: AddressKind, usable: Usable, x: string)
    ensures x in Chosen(addrs, kind, usable) <==> NodeAddress(kind, x) in addrs && usable(x)
  {
    if addrs != [] {
      ChosenElements(addrs[..|addrs| - 1], kind, usable, x);
      JoinLast(addrs);
    }
  }

  lemma {:induction false} ChosenPairs(nodes: seq<Node>, kind: AddressKind, usable: Usable, x: string)
    ensures x in ChosenOf(nodes, kind, usable) <==> NodeAddress(kind, x) in Pairs(nodes) && usable(x)
  {
    if nodes != [] {
      var n := |nodes| - 1;
      ChosenPairs(nodes[..n], kind, usable, x);
      ChosenElements(nodes[n].addresses, kind, usable, x);
      JoinLast(nodes);
      assert Pairs(nodes) == Pairs(nodes[..n]) + set a | a in nodes[n].addresses;
    }
  }

  lemma SameChosen(m: seq<Node>, n: seq<Node>, kind: AddressKind, usable: Usable)
    requires Pairs(m) == Pairs(n)
    ensures SameElements(ChosenOf(m, kind, usable), ChosenOf(n, kind, usable))
    ensures ChosenOf(m, kind, usable) == [] <==> ChosenOf(n, kind, usable) == []
  {
    var a, b := ChosenOf(m, kind, usable), ChosenOf(n, kind, usable);
    forall x ensures x in a <==> x in b {
      ChosenPairs(m, kind, usable, x);
      ChosenPairs(n, kind, usable, x);
    }
    if a != [] {
      assert a[0] in b;
    }
    if b != [] {
      assert b[0] in a;
    }
  }

  lemma SameRefs(a: seq<string>, b: seq<string>, port: int)
    requires SameElements(a, b)
    ensures SameElements(Refs(a, port), Refs(b, port))
  {
    forall e ensures e in Refs(a, port) <==> e in Refs(b, port) {
      RefsElements(a, port, e);
      RefsElements(b, port, e);
    }
  }

  lemma RefsElements(ips: seq<string>, port: int, e: BackendRef)
    ensures e in Refs(ips, port) <==> e.ip in ips && e.port == port
  {
    if e.ip in ips && e.port == port {
      var i :| 0 <= i < |ips| && ips[i] == e.ip;
      assert Refs(ips, port)[i] == e;
    }
  }

  /** Permuting or duplicating nodes, their addresses or the fallback addresses changes nothing. */
  lemma OrderIndependence(a: Source, b: Source, nodePort: int, usable: Usable)
    requires Pairs(a.nodes) == Pairs(b.nodes)
    requires a.clusterName == b.clusterName && SameElements(a.vmiIps, b.vmiIps)
    ensures EndpointsOf(a, nodePort, usable) == EndpointsOf(b, nodePort, usable)
  {
    SameChosen(a.nodes, b.nodes, InternalIP, usable);
    SameChosen(a.nodes, b.nodes, ExternalIP, usable);
    SameRefs(Addresses(a, usable), Addresses(b, usable), nodePort);
    NormalizeForgetsOrder(Refs(Addresses(a, usable), nodePort), Refs(Addresses(b, usable), nodePort));
  }

  lemma EndpointsElements(src: Source, nodePort: int, usable: Usable, e: BackendRef)
    ensures e in EndpointsOf(src, nodePort, usable) <==> e.ip in Addresses(src, usable) && e.port == nodePort
    ensures StrictlySorted(EndpointsOf(src, nodePort, usable))
  {
    NormalizeIsSorted(Refs(Addresses(src, usable), nodePort));
    RefsElements(Addresses(src, usable), nodePort, e);
  }

  /** Unusable node addresses never become endpoints; internal ones win over external ones, both over the fallback. */
  lemma WhatIsChosen(src: Source, nodePort: int, usable: Usable, ip: string)
    ensures BackendRef(ip, nodePort) in EndpointsOf(src, nodePort, usable) <==>
              if exists x :: NodeAddress(InternalIP, x) in Pairs(src.nodes) && usable(x) then
                NodeAddress(InternalIP, ip) in Pairs(src.nodes) && usable(ip)
              else if exists x :: NodeAddress(ExternalIP, x) in Pairs(src.nodes) && usable(x) then
                NodeAddress(ExternalIP, ip) in Pairs(src.nodes) && usable(ip)
              else src.clusterName != "" && ip in src.vmiIps
  {
    EndpointsElements(src, nodePort, usable, BackendRef(ip, nodePort));
    SomeChosen(src.nodes, InternalIP, usable);
    SomeChosen(src.nodes, ExternalIP, usable);
    ChosenPairs(src.nodes, InternalIP, usable, ip);
    ChosenPairs(src.nodes, ExternalIP, usable, ip);
  }

  lemma SomeChosen(nodes: seq<Node>, kind: AddressKind, usable: Usable)
    ensures ChosenOf(nodes, kind, usable) != [] <==> exists x :: NodeAddress(kind, x) in Pairs(nodes) && usable(x)
  {
    var c := ChosenOf(nodes, kind, usable);
    if c != [] {
      ChosenPairs(nodes, kind, usable, c[0]);
    }
    if x :| NodeAddress(kind, x) in Pairs(nodes) && usable(x) {
      ChosenPairs(nodes, kind, usable, x);
    }
  }
}
