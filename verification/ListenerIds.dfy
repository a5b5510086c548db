/** Grafting server-assigned ids onto desired listeners, and what a server that reconciles by id makes of them. */
module ListenerIds {
  import opened Text
  import opened Seqs
  import opened Endpoints
  import opened Listeners

  // ---- Keys ----

  function NameOf(p: Protocol): string {
    match p
    case UnspecifiedProtocol => "PROTOCOL_UNSPECIFIED"
    case TCP => "PROTOCOL_TCP"
    case UDP => "PROTOCOL_UDP"
    case HTTP => "PROTOCOL_HTTP"
  }

  /** The `"%d/%s"` key of a listener. */
  function KeyOf(port: int, protocol: Protocol): string {
    Itoa(port) + "/" + NameOf(protocol)
  }

  function ListenerKey(l: Listener): string {
    KeyOf(l.port, l.protocol)
  }

  function FirstSlash(s: string): nat {
    if s == [] || s[0] == '/' then 0 else FirstSlash(s[1..]) + 1
  }

  lemma {:induction false} FirstSlashAt(digits: string, name: string)
    requires '/' !in digits
    ensures FirstSlash(digits + "/" + name) == |digits|
  {
    var s := digits + "/" + name;
    if digits != [] {
      assert s[1..] == digits[1..] + "/" + name;
      FirstSlashAt(digits[1..], name);
    }
  }

  lemma KeysAreExact(a: Listener, b: Listener)
    ensures ListenerKey(a) == ListenerKey(b) <==> a.port == b.port && a.protocol == b.protocol
  {
    if ListenerKey(a) == ListenerKey(b) {
      var k := ListenerKey(a);
      FirstSlashAt(Itoa(a.port), NameOf(a.protocol));
      FirstSlashAt(Itoa(b.port), NameOf(b.protocol));
      assert Itoa(a.port) == k[..|Itoa(a.port)|] && Itoa(b.port) == k[..|Itoa(b.port)|];
      assert NameOf(a.protocol) == k[|Itoa(a.port)| + 1..] && NameOf(b.protocol) == k[|Itoa(b.port)| + 1..];
      ItoaInjective(a.port, b.port);
      NamesAreExact(a.protocol, b.protocol);
    }
  }

  lemma NamesAreExact(p: Protocol, q: Protocol)
    requires NameOf(p) == NameOf(q)
    ensures p == q
  {
    assert NameOf(p)[9] == NameOf(q)[9];
  }

  /** Two ports of a Service share a listener key exactly when they share the number and neither or both are UDP. */
  lemma WhenKeysCollide(inp: Inputs, a: ServicePort, b: ServicePort, usable: Usable)
    ensures ListenerKey(ListenerOf(inp, a, usable)) == ListenerKey(ListenerOf(inp, b, usable))
            <==> a.port == b.port && (a.protocol == PortUDP <==> b.protocol == PortUDP)
  {
    KeysAreExact(ListenerOf(inp, a, usable), ListenerOf(inp, b, usable));
  }

  // ---- Merging ----

  /** Of several current listeners with one key the last counts. */
  function Latest(current: seq<Listener>, key: string): Option<Listener> {
    if current == [] then None
    else
      var c := current[|current| - 1];
      if ListenerKey(c) == key then Some(c) else Latest(current[..|current| - 1], key)
  }

  function GraftRule(want: Rule, have: Rule): Rule {
    var r := want.(id := have.id);
    if |want.backends| != 1 || |have.backends| != 1 then r
    else r.(backends := [want.backends[0].(id := have.backends[0].id)])
  }

  function Graft(want: Listener, have: Option<Listener>): Listener {
    if have.None? then want
    else
      var l := want.(id := have.value.id);
      if |want.rules| != 1 || |have.value.rules| != 1 then l
      else l.(rules := [GraftRule(want.rules[0], have.value.rules[0])])
  }

  function Merge(desired: seq<Listener>, current: seq<Listener>): seq<Listener> {
    seq(|desired|, i requires 0 <= i < |desired| => Graft(desired[i], Latest(current, ListenerKey(desired[i]))))
  }

  // ---- The messages as objects; `heap` holds every object a message consists of ----

  class BackendMsg {
    var id: string
    const name: string
    const weight: int
    const endpoints: seq<BackendRef>

    constructor (id: string, name: string, weight: int, endpoints: seq<BackendRef>)
      ensures this.id == id && this.name == name && this.weight == weight && this.endpoints == endpoints
    {
      this.id, this.name, this.weight, this.endpoints := id, name, weight, endpoints;
    }

    ghost predicate Shows(v: Backend, heap: set<object>)
      reads heap
    {
      this in heap && v == Backend(id, name, weight, endpoints)
    }
  }

  class RuleMsg {
    var id: string
    const matches: seq<RouteMatch>
    const backends: seq<BackendMsg>
    const algorithm: Algorithm
    const monitor: Option<HealthMonitor>

    constructor (id: string, matches: seq<RouteMatch>, backends: seq<BackendMsg>, algorithm: Algorithm,
                 monitor: Option<HealthMonitor>)
      ensures this.id == id && this.matches == matches && this.backends == backends
      ensures this.algorithm == algorithm && this.monitor == monitor
    {
      this.id, this.matches, this.backends, this.algorithm, this.monitor := id, matches, backends, algorithm, monitor;
    }

    ghost predicate Shows(v: Rule, heap: set<object>)
      reads heap
    {
      && this in heap && v == Rule(id, matches, v.backends, algorithm, monitor)
      && |backends| == |v.backends| && forall i :: 0 <= i < |backends| ==> backends[i].Shows(v.backends[i], heap)
    }
  }

  class ListenerMsg {
    var id: string
    const port: int
    const protocol: Protocol
    const tls: bool
    const rules: seq<RuleMsg>

    constructor (id: string, port: int, protocol: Protocol, tls: bool, rules: seq<RuleMsg>)
      ensures this.id == id && this.port == port && this.protocol == protocol && this.tls == tls && this.rules == rules
    {
      this.id, this.port, this.protocol, this.tls, this.rules := id, port, protocol, tls, rules;
    }

    ghost predicate Shows(v: Listener, heap: set<object>)
      reads heap
    {
      && this in heap && v == Listener(id, port, protocol, tls, v.rules)
      && |rules| == |v.rules| && forall i :: 0 <= i < |rules| ==> rules[i].Shows(v.rules[i], heap)
    }
  }

  method CloneRule(r: RuleMsg, ghost v: Rule, ghost heap: set<object>) returns (c: RuleMsg, ghost made: set<object>)
    requires r.Shows(v, heap)
    ensures fresh(made) && c.Shows(v, made)
  {
    var backends: seq<BackendMsg> := [];
    made := {};
    for i := 0 to |r.backends|
      invariant |backends| == i && fresh(made)
      invariant forall k :: 0 <= k < i ==> backends[k].Shows(v.backends[k], made)
    {
      var b := r.backends[i];
      assert b.Shows(v.backends[i], heap);
      var clone := new BackendMsg(b.id, b.name, b.weight, b.endpoints);
      backends := backends + [clone];
      made := made + {clone};
    }
    c := new RuleMsg(r.id, r.matches, backends, r.algorithm, r.monitor);
    made := made + {c};
  }

  method CloneListener(l: ListenerMsg, ghost v: Listener, ghost heap: set<object>)
    returns (c: ListenerMsg, ghost made: set<object>)
    requires l.Shows(v, heap)
    ensures fresh(made) && c.Shows(v, made)
  {
    var rules: seq<RuleMsg> := [];
    made := {};
    for i := 0 to |l.rules|
      invariant |rules| == i && fresh(made)
      invariant forall k :: 0 <= k < i ==> rules[k].Shows(v.rules[k], made)
    {
      assert l.rules[i].Shows(v.rules[i], heap);
      var clone;
      ghost var more;
      clone, more := CloneRule(l.rules[i], v.rules[i], heap);
      rules := rules + [clone];
      made := made + more;
    }
    c := new ListenerMsg(l.id, l.port, l.protocol, l.tls, rules);
    made := made + {c};
  }

  /** One desired listener, cloned, with the ids of its current counterpart. */
  method GraftOntoClone(want: ListenerMsg, have: ListenerMsg?, ghost w: Listener, ghost h: Option<Listener>,
                        ghost heap: set<object>)
    returns (clone: ListenerMsg, ghost made: set<object>)
    requires want.Shows(w, heap) && (have == null <==> h == None) && (have != null ==> have.Shows(h.value, heap))
    ensures fresh(made) && clone.Shows(Graft(w, h), made)
  {
    clone, made := CloneListener(want, w, heap);
    if have == null {
      return;
    }
    clone.id := have.id;
    if |clone.rules| != 1 || |have.rules| != 1 {
      return;
    }
    var wantRule, haveRule := clone.rules[0], have.rules[0];
    assert wantRule.Shows(w.rules[0], made) && haveRule.Shows(h.value.rules[0], heap);
    wantRule.id := haveRule.id;
    if |wantRule.backends| != 1 || |haveRule.backends| != 1 {
      return;
    }
    assert wantRule.backends[0].Shows(w.rules[0].backends[0], made);
    assert haveRule.backends[0].Shows(h.value.rules[0].backends[0], heap);
    wantRule.backends[0].id := haveRule.backends[0].id;
  }

  /** The listeners behind possibly nil pointers. */
  ghost function Present(current: seq<Option<Listener>>): seq<Listener> {
    if current == [] then []
    else
      var n := |current| - 1;
      Present(current[..n]) + if current[n].Some? then [current[n].value] else []
  }

  ghost predicate Shown(ms: seq<ListenerMsg>, vs: seq<Listener>, heap: set<object>)
    reads heap
  {
    |ms| == |vs| && forall i :: 0 <= i < |ms| ==> ms[i].Shows(vs[i], heap)
  }

  ghost predicate ShownOrNil(ms: seq<ListenerMsg?>, vs: seq<Option<Listener>>, heap: set<object>)
    reads heap
  {
    && |ms| == |vs| && (forall i :: 0 <= i < |ms| ==> (ms[i] == null <==> vs[i] == None))
    && (forall i :: 0 <= i < |ms| && ms[i] != null ==> ms[i].Shows(vs[i].value, heap))
  }

  lemma LatestNext(current: seq<Option<Listener>>, i: nat, key: string)
    requires i < |current|
    ensures Latest(Present(current[..i + 1]), key)
         == if current[i].Some? && ListenerKey(current[i].value) == key then current[i]
            else Latest(Present(current[..i]), key)
  {
    TakeNext(current, i);
    if current[i].Some? {
      InitOfPush(Present(current[..i]), current[i].value);
    } else {
      Empty(Present(current[..i]));
    }
  }

  // The index the method builds maps each key to the last listener with it.
  ghost predicate Indexes(existing: map<string, ListenerMsg>, current: seq<Option<Listener>>, heap: set<object>)
    reads heap
  {
    && (forall key :: key in existing <==> Latest(Present(current), key).Some?)
    && (forall key :: key in existing ==> existing[key].Shows(Latest(Present(current), key).value, heap))
  }

  lemma IndexesNext(existing: map<string, ListenerMsg>, c: seq<Option<Listener>>, i: nat, l: ListenerMsg?,
                    heap: set<object>)
    requires i < |c| && Indexes(existing, c[..i], heap)
    requires (l == null <==> c[i] == None) && (l != null ==> l.Shows(c[i].value, heap))
    ensures Indexes(if l == null then existing else existing[ListenerKey(c[i].value) := l], c[..i + 1], heap)
  {
    forall key ensures Latest(Present(c[..i + 1]), key)
         == if c[i].Some? && ListenerKey(c[i].value) == key then c[i] else Latest(Present(c[..i]), key) {
      LatestNext(c, i, key);
    }
  }

  method IndexByKey(current: seq<ListenerMsg?>, ghost c: seq<Option<Listener>>, ghost heap: set<object>)
    returns (existing: map<string, ListenerMsg>)
    requires ShownOrNil(current, c, heap)
    ensures Indexes(existing, c, heap)
  {
    existing := map[];
    for i := 0 to |current|
      invariant Indexes(existing, c[..i], heap)
    {
      var l := current[i];
      IndexesNext(existing, c, i, l, heap);
      if l != null {
        existing := existing[KeyOf(l.port, l.protocol) := l];
      }
    }
    TakeAll(c);
  }

  lemma RuleShowsMore(r: RuleMsg, v: Rule, heap: set<object>, more: set<object>)
    requires r.Shows(v, heap)
    ensures r.Shows(v, heap + more)
  {
    forall i | 0 <= i < |r.backends| ensures r.backends[i].Shows(v.backends[i], heap + more) {
      assert r.backends[i].Shows(v.backends[i], heap);
    }
  }

  lemma ShowsMore(l: ListenerMsg, v: Listener, heap: set<object>, more: set<object>)
    requires l.Shows(v, heap)
    ensures l.Shows(v, heap + more)
  {
    forall i | 0 <= i < |l.rules| ensures l.rules[i].Shows(v.rules[i], heap + more) {
      RuleShowsMore(l.rules[i], v.rules[i], heap, more);
    }
  }

  lemma ShownPush(ms: seq<ListenerMsg>, vs: seq<Listener>, made: set<object>, m: ListenerMsg, v: Listener,
                  more: set<object>)
    requires Shown(ms, vs, made) && m.Shows(v, more)
    ensures Shown(ms + [m], vs + [v], made + more)
  {
    forall i | 0 <= i < |ms| ensures ms[i].Shows(vs[i], made + more) {
      ShowsMore(ms[i], vs[i], made, more);
    }
    ShowsMore(m, v, more, made);
    assert more + made == made + more;
  }

  /** `mergeListenerIDs`. Nothing passed in is modified: the ids go onto clones. */
  method MergeListenerIDs(desired: seq<ListenerMsg>, current: seq<ListenerMsg?>,
                          ghost d: seq<Listener>, ghost c: seq<Option<Listener>>, ghost heap: set<object>)
    returns (merged: seq<ListenerMsg>, ghost made: set<object>)
    requires Shown(desired, d, heap) && ShownOrNil(current, c, heap)
    ensures fresh(made) && Shown(merged, Merge(d, Present(c)), made)
  {
    made := {};
    if |desired| == 0 {
      return desired, made;
    }
    var existing := IndexByKey(current, c, heap);
    merged := [];
    ghost var all := Merge(d, Present(c));
    for i := 0 to |desired|
      invariant fresh(made) && Shown(merged, all[..i], made)
    {
      var want := desired[i];
      assert want.Shows(d[i], heap);
      var key := KeyOf(want.port, want.protocol);
      var have: ListenerMsg? := if key in existing then existing[key] else null;
      var clone;
      ghost var more;
      clone, more := GraftOntoClone(want, have, d[i], Latest(Present(c), key), heap);
      ShownPush(merged, all[..i], made, clone, all[i], more);
      TakeNext(all, i);
      merged := merged + [clone];
      made := made + more;
    }
    TakeAll(all);
  }
}
