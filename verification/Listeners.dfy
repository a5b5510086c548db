/** Listeners as the controller renders them from a Service, and the constraints the API puts on them. */
module Listeners {
  import opened Text
  import opened Seqs
  import opened Endpoints

  datatype Protocol = UnspecifiedProtocol | TCP | UDP | HTTP

  datatype HttpMethod = NoMethod | GET | POST | PUT | DELETE | PATCH | HEAD | OPTIONS

  datatype PathType = UnspecifiedPath | Exact | Prefix | Regex

  datatype PathMatch = PathMatch(kind: PathType, value: string)

  // `others` counts the header and query conditions, which this controller never sets.
  datatype RouteMatch = RouteMatch(path: Option<PathMatch>, verb: HttpMethod, others: nat)

  datatype HealthMonitor = HealthMonitor(interval: int, timeout: int, unhealthy: int, healthy: int,
                                         path: string, verb: HttpMethod, codes: seq<int>)

  datatype Algorithm = UnspecifiedAlgorithm | RoundRobin | LeastRequest | RandomChoice | ConsistentHash

  // An empty id means the message carries none.
  datatype Backend = Backend(id: string, name: string, weight: int, endpoints: seq<BackendRef>)

  datatype Rule = Rule(id: string, matches: seq<RouteMatch>, backends: seq<Backend>, algorithm: Algorithm,
                       monitor: Option<HealthMonitor>)

  datatype Listener = Listener(id: string, port: int, protocol: Protocol, tls: bool, rules: seq<Rule>)

  datatype PortProtocol = PortTCP | PortUDP | PortSCTP

  datatype ServicePort = ServicePort(port: int, nodePort: int, protocol: PortProtocol)

  // The route annotations, None when the Service does not carry them.
  datatype Routed = Routed(ports: seq<ServicePort>, httpPath: Option<string>, httpMethod: Option<string>)

  /** What building listeners reads. */
  datatype Inputs = Inputs(svc: Routed, src: Source)

  // ---- buildListeners ----

  /** As written: the annotation turns every port that is not UDP into HTTP, SCTP ports included. */
  function ListenerProtocol(svc: Routed, port: ServicePort): Protocol {
    if port.protocol == PortUDP then UDP
    else if svc.httpPath.Some? then HTTP
    else TCP
  }

  // `strings.ToUpper` on the characters whose upper case is an ASCII letter.
  function Upper(c: char): char {
    if 'a' <= c <= 'z' then (c as int - 32) as char
    else if c == '\U{131}' then 'I'
    else if c == '\U{17F}' then 'S'
    else c
  }

  function ToUpper(s: string): string {
    seq(|s|, i requires 0 <= i < |s| => Upper(s[i]))
  }

  function ParseHTTPMethod(verb: string): HttpMethod {
    var m := ToUpper(verb);
    if m == "POST" then POST
    else if m == "PUT" then PUT
    else if m == "DELETE" then DELETE
    else if m == "PATCH" then PATCH
    else if m == "HEAD" then HEAD
    else if m == "OPTIONS" then OPTIONS
    else GET
  }

  function VerbName(v: HttpMethod): string {
    match v
    case NoMethod => ""
    case GET => "GET"
    case POST => "POST"
    case PUT => "PUT"
    case DELETE => "DELETE"
    case PATCH => "PATCH"
    case HEAD => "HEAD"
    case OPTIONS => "OPTIONS"
  }

  /** The text is this name in capitals, up to case; a dotless i and a long s count as I and S. */
  predicate Spells(text: string, name: string) {
    && |text| == |name|
    && forall i :: 0 <= i < |text| ==>
         || text[i] == name[i] || text[i] as int == name[i] as int + 32
         || (name[i] == 'I' && text[i] == '\U{131}') || (name[i] == 'S' && text[i] == '\U{17F}')
  }

  lemma UpperSpells(text: string, name: string)
    requires forall i :: 0 <= i < |name| ==> 'A' <= name[i] <= 'Z'
    ensures ToUpper(text) == name <==> Spells(text, name)
  {
    if ToUpper(text) == name {
      forall i | 0 <= i < |text| ensures name[i] == Upper(text[i]) {
        assert ToUpper(text)[i] == name[i];
      }
    }
  }

  /** Case does not matter, and what names no method is GET. */
  lemma ParseMeaning(verb: string, v: HttpMethod)
    requires v != NoMethod
    ensures ParseHTTPMethod(verb) == v <==>
              Spells(verb, VerbName(v)) || (v == GET && forall w :: w != NoMethod ==> !Spells(verb, VerbName(w)))
  {
    forall w | w != NoMethod ensures ToUpper(verb) == VerbName(w) <==> Spells(verb, VerbName(w)) {
      UpperSpells(verb, VerbName(w));
    }
    var m := ToUpper(verb);
    assert forall w :: w in {GET, POST, PUT, DELETE, PATCH, HEAD, OPTIONS} && w != ParseHTTPMethod(verb) ==>
             m != VerbName(w);
    assert m == VerbName(ParseHTTPMethod(verb)) || ParseHTTPMethod(verb) == GET;
  }

  function Given(annotation: Option<string>): string {
    if annotation.Some? then annotation.value else ""
  }

  function MatchesOf(svc: Routed): seq<RouteMatch> {
    var path, verb := Given(svc.httpPath), Given(svc.httpMethod);
    if path == "" && verb == "" then []
    else [RouteMatch(if path == "" then None else Some(PathMatch(Prefix, path)),
                     if verb == "" then NoMethod else ParseHTTPMethod(verb), 0)]
  }

  function MonitorOf(svc: Routed, protocol: Protocol): HealthMonitor {
    var path, verb := Given(svc.httpPath), Given(svc.httpMethod);
    if protocol != HTTP then HealthMonitor(10, 5, 3, 2, "", NoMethod, [])
    else HealthMonitor(10, 5, 3, 2, if path == "" then "/" else path,
                       if verb == "" then GET else ParseHTTPMethod(verb), [200])
  }

  function ListenerOf(inp: Inputs, port: ServicePort, usable: Usable): Listener {
    var protocol := ListenerProtocol(inp.svc, port);
    Listener("", port.port, protocol, false,
             [Rule("", if protocol == HTTP then MatchesOf(inp.svc) else [],
                   [Backend("", "default", 1, EndpointsOf(inp.src, port.nodePort, usable))], RoundRobin,
                   Some(MonitorOf(inp.svc, protocol)))])
  }

  function ListenersOf(inp: Inputs, usable: Usable): seq<Listener> {
    seq(|inp.svc.ports|, i requires 0 <= i < |inp.svc.ports| => ListenerOf(inp, inp.svc.ports[i], usable))
  }

  method BuildListeners(inp: Inputs, usable: Usable) returns (listeners: seq<Listener>)
    ensures listeners == ListenersOf(inp, usable)
  {
    listeners := [];
    var svc := inp.svc;
    for i := 0 to |svc.ports|
      invariant listeners == ListenersOf(inp, usable)[..i]
    {
      var port := svc.ports[i];
      var protocol := ListenerProtocol(svc, port);
      var endpoints := BuildEndpoints(inp.src, port.nodePort, usable);
      var backend := Backend("", "default", 1, endpoints);
      var rule := Rule("", [], [backend], RoundRobin, None);
      if protocol == HTTP {
        var path, verb := "/", GET;
        var m, matched := RouteMatch(None, NoMethod, 0), false;
        if svc.httpPath.Some? && svc.httpPath.value != "" {
          path := svc.httpPath.value;
          m := m.(path := Some(PathMatch(Prefix, path)));
          matched := true;
        }
        if svc.httpMethod.Some? && svc.httpMethod.value != "" {
          verb := ParseHTTPMethod(svc.httpMethod.value);
          m := m.(verb := verb);
          matched := true;
        }
        if matched {
          rule := rule.(matches := [m]);
        }
        rule := rule.(monitor := Some(HealthMonitor(10, 5, 3, 2, path, verb, [200])));
      } else {
        rule := rule.(monitor := Some(HealthMonitor(10, 5, 3, 2, "", NoMethod, [])));
      }
      listeners := listeners + [Listener("", port.port, protocol, false, [rule])];
      TakeNext(ListenersOf(inp, usable), i);
    }
    TakeAll(ListenersOf(inp, usable));
  }

  ghost predicate Forwards(l: Listener, e: BackendRef) {
    exists r, b :: 0 <= r < |l.rules| && 0 <= b < |l.rules[r].backends| && e in l.rules[r].backends[b].endpoints
  }

  /** The annotation is there and not empty. */
  predicate Says(annotation: Option<string>) {
    annotation.Some? && annotation.value != ""
  }

  /** One rule, round robin over one backend of weight 1. It matches on what the annotations say, and only on an HTTP
      listener; without anything said it matches all. */
  predicate RoutedAsAnnotated(l: Listener, svc: Routed) {
    && l.id == "" && !l.tls && |l.rules| == 1
    && var r := l.rules[0];
       && r.id == "" && r.algorithm == RoundRobin && |r.backends| == 1
       && r.backends[0].id == "" && r.backends[0].name == "default" && r.backends[0].weight == 1
       && |r.matches| == (if l.protocol == HTTP && (Says(svc.httpPath) || Says(svc.httpMethod)) then 1 else 0)
       && (r.matches != [] ==>
             var m := r.matches[0];
             && m.others == 0
             && (if Says(svc.httpPath) then m.path == Some(PathMatch(Prefix, svc.httpPath.value)) else m.path == None)
             && m.verb == if Says(svc.httpMethod) then ParseHTTPMethod(svc.httpMethod.value) else NoMethod)
  }

  /** A health check every 10 seconds; on an HTTP listener a request like those the rule matches, "GET /" by default. */
  predicate CheckedAsAnnotated(l: Listener, svc: Routed) {
    && |l.rules| == 1 && l.rules[0].monitor.Some?
    && var m := l.rules[0].monitor.value;
       && m.interval == 10 && m.timeout == 5 && m.unhealthy == 3 && m.healthy == 2
       && if l.protocol != HTTP then m.path == "" && m.verb == NoMethod && m.codes == []
          else
            && m.codes == [200] && m.path == (if Says(svc.httpPath) then svc.httpPath.value else "/")
            && m.verb == if Says(svc.httpMethod) then ParseHTTPMethod(svc.httpMethod.value) else GET
  }

  /** Port i becomes one listener: UDP for a UDP port, otherwise HTTP exactly when the path annotation is there, else
      TCP. Traffic to it goes to the node port of the chosen addresses, and to nothing else. */
  lemma WhereTrafficGoes(inp: Inputs, usable: Usable, i: nat, e: BackendRef)
    requires i < |inp.svc.ports|
    ensures var l, p := ListenersOf(inp, usable)[i], inp.svc.ports[i];
            && |ListenersOf(inp, usable)| == |inp.svc.ports| && l.port == p.port
            && (l.protocol == UDP <==> p.protocol == PortUDP)
            && (l.protocol == HTTP <==> p.protocol != PortUDP && inp.svc.httpPath.Some?)
            && (l.protocol == TCP <==> p.protocol != PortUDP && inp.svc.httpPath.None?)
            && RoutedAsAnnotated(l, inp.svc) && CheckedAsAnnotated(l, inp.svc)
            && (Forwards(l, e) <==> e.port == p.nodePort && e.ip in Addresses(inp.src, usable))
  {
    EndpointsElements(inp.src, inp.svc.ports[i].nodePort, usable, e);
    var l := ListenersOf(inp, usable)[i];
    if e in EndpointsOf(inp.src, inp.svc.ports[i].nodePort, usable) {
      assert e in l.rules[0].backends[0].endpoints;
    }
  }

  /** The fingerprint does not depend on the order in which nodes and addresses are listed. */
  lemma FingerprintIsStable<Hash>(svc: Routed, a: Source, b: Source, usable: Usable, hash: seq<Listener> -> Hash)
    requires Pairs(a.nodes) == Pairs(b.nodes)
    requires a.clusterName == b.clusterName && SameElements(a.vmiIps, b.vmiIps)
    ensures ListenersOf(Inputs(svc, a), usable) == ListenersOf(Inputs(svc, b), usable)
    ensures hash(ListenersOf(Inputs(svc, a), usable)) == hash(ListenersOf(Inputs(svc, b), usable))
  {
    var x, y := ListenersOf(Inputs(svc, a), usable), ListenersOf(Inputs(svc, b), usable);
    forall i | 0 <= i < |svc.ports| ensures x[i] == y[i] {
      OrderIndependence(a, b, svc.ports[i].nodePort, usable);
    }
    assert x == y;
  }

  // ---- validateListeners ----

  datatype Verdict = Valid | NoPorts | NoEndpoints(port: int)

  predicate AllServed(l: Listener) {
    forall r, b :: 0 <= r < |l.rules| && 0 <= b < |l.rules[r].backends| ==> l.rules[r].backends[b].endpoints != []
  }

  predicate Validated(listeners: seq<Listener>) {
    listeners != [] && forall i :: 0 <= i < |listeners| ==> AllServed(listeners[i])
  }

  method ValidateListeners(listeners: seq<Listener>) returns (v: Verdict)
    ensures v == Valid <==> Validated(listeners)
    ensures v == NoPorts <==> listeners == []
    ensures v.NoEndpoints? ==>
              exists i :: 0 <= i < |listeners| && listeners[i].port == v.port && !AllServed(listeners[i])
                          && forall j :: 0 <= j < i ==> AllServed(listeners[j])
  {
    if |listeners| == 0 {
      return NoPorts;
    }
    for i := 0 to |listeners|
      invariant forall k :: 0 <= k < i ==> AllServed(listeners[k])
    {
      var l := listeners[i];
      for r := 0 to |l.rules|
        invariant forall k, b :: 0 <= k < r && 0 <= b < |l.rules[k].backends| ==> l.rules[k].backends[b].endpoints != []
      {
        var rule := l.rules[r];
        for b := 0 to |rule.backends|
          invariant forall k :: 0 <= k < b ==> rule.backends[k].endpoints != []
        {
          if |rule.backends[b].endpoints| == 0 {
            assert !AllServed(l);
            return NoEndpoints(l.port);
          }
        }
      }
    }
    v := Valid;
  }

  // ---- The constraints of the API ----

  predicate InPortRange(p: int) { 1 <= p <= 65535 }

  predicate StartsWithSlash(s: string) { s != "" && s[0] == '/' }

  predicate RefAllowed(e: BackendRef, isIp: string -> bool) {
    isIp(e.ip) && InPortRange(e.port)
  }

  predicate BackendAllowed(b: Backend, isIp: string -> bool) {
    && |b.name| <= 255 && 0 <= b.weight <= 1_000_000 && 1 <= |b.endpoints| <= 256
    && (forall i :: 0 <= i < |b.endpoints| ==> RefAllowed(b.endpoints[i], isIp))
    && (forall i, j :: 0 <= i < j < |b.endpoints| ==> b.endpoints[i] != b.endpoints[j])
  }

  predicate MatchAllowed(m: RouteMatch) {
    && (m.path.Some? || m.others > 0 || m.verb != NoMethod)
    && (m.path.Some? ==>
          1 <= |m.path.value.value| <= 1024 && (m.path.value.kind == Regex || StartsWithSlash(m.path.value.value)))
  }

  predicate MonitorAllowed(m: HealthMonitor) {
    1 <= m.interval <= 3600 && 1 <= m.timeout <= 300 && m.unhealthy > 0 && m.healthy > 0 && m.timeout < m.interval
  }

  predicate HttpMonitorAllowed(m: HealthMonitor) {
    && StartsWithSlash(m.path) && m.verb != NoMethod && m.codes != []
    && forall i :: 0 <= i < |m.codes| ==> 100 <= m.codes[i] <= 599
  }

  predicate RuleAllowed(r: Rule, isIp: string -> bool) {
    && |r.matches| <= 64 && (forall i :: 0 <= i < |r.matches| ==> MatchAllowed(r.matches[i]))
    && 1 <= |r.backends| <= 16 && (forall i :: 0 <= i < |r.backends| ==> BackendAllowed(r.backends[i], isIp))
    && (exists i :: 0 <= i < |r.backends| && r.backends[i].weight > 0)
    && (r.monitor.Some? ==> MonitorAllowed(r.monitor.value))
  }

  predicate ListenerAllowed(l: Listener, isIp: string -> bool) {
    && InPortRange(l.port) && !l.tls
    && 1 <= |l.rules| <= 16 && (forall i :: 0 <= i < |l.rules| ==> RuleAllowed(l.rules[i], isIp))
    && (l.protocol != HTTP ==> |l.rules| == 1 && forall i :: 0 <= i < |l.rules| ==> l.rules[i].matches == [])
    && (l.protocol == HTTP ==>
          forall i :: 0 <= i < |l.rules| && l.rules[i].monitor.Some? ==> HttpMonitorAllowed(l.rules[i].monitor.value))
  }

  predicate PathFits(path: string) {
    path != "" ==> StartsWithSlash(path) && |path| <= 1024
  }

  /** What a caller must check about one port: its numbers, that it has not too many endpoints and, if it
      becomes HTTP, the route path. */
  predicate PortFits(inp: Inputs, port: ServicePort, usable: Usable) {
    && InPortRange(port.port) && InPortRange(port.nodePort)
    && |EndpointsOf(inp.src, port.nodePort, usable)| <= 256
    && (port.protocol != PortUDP && inp.svc.httpPath.Some? ==> PathFits(inp.svc.httpPath.value))
  }

  lemma EndpointsAllowed(src: Source, port: int, usable: Usable, isIp: string -> bool)
    requires (forall ip :: usable(ip) ==> isIp(ip)) && (forall ip :: ip in src.vmiIps ==> isIp(ip))
    ensures var eps := EndpointsOf(src, port, usable);
            && (forall i :: 0 <= i < |eps| ==> isIp(eps[i].ip) && eps[i].port == port)
            && (forall i, j :: 0 <= i < j < |eps| ==> eps[i] != eps[j])
  {
    var eps := EndpointsOf(src, port, usable);
    forall i | 0 <= i < |eps| ensures isIp(eps[i].ip) && eps[i].port == port {
      EndpointsElements(src, port, usable, eps[i]);
      ChosenPairs(src.nodes, InternalIP, usable, eps[i].ip);
      ChosenPairs(src.nodes, ExternalIP, usable, eps[i].ip);
    }
    forall i, j | 0 <= i < j < |eps| ensures eps[i] != eps[j] {
      EndpointsElements(src, port, usable, eps[i]);
      BeforeIsTotal(eps[i], eps[j]);
    }
  }

  lemma BackendIsAllowed(src: Source, port: int, usable: Usable, isIp: string -> bool)
    requires (forall ip :: usable(ip) ==> isIp(ip)) && (forall ip :: ip in src.vmiIps ==> isIp(ip))
    ensures var eps := EndpointsOf(src, port, usable);
            BackendAllowed(Backend("", "default", 1, eps), isIp) <==> InPortRange(port) && 1 <= |eps| <= 256
  {
    var eps := EndpointsOf(src, port, usable);
    EndpointsAllowed(src, port, usable, isIp);
    if eps != [] && BackendAllowed(Backend("", "default", 1, eps), isIp) {
      assert RefAllowed(eps[0], isIp);
    }
  }

  lemma RuleIsAllowed(r: Rule, isIp: string -> bool)
    requires |r.backends| == 1 && r.backends[0].weight == 1 && r.monitor.Some? && MonitorAllowed(r.monitor.value)
    requires |r.matches| <= 1
    ensures RuleAllowed(r, isIp) <==>
              BackendAllowed(r.backends[0], isIp) && (r.matches != [] ==> MatchAllowed(r.matches[0]))
  {
    assert r.backends[0].weight > 0;
  }

  lemma RouteIsAllowed(svc: Routed)
    ensures var m := MatchesOf(svc);
            && |m| <= 1 && ((m != [] ==> MatchAllowed(m[0])) <==> PathFits(Given(svc.httpPath)))
    ensures PathFits(Given(svc.httpPath)) ==> HttpMonitorAllowed(MonitorOf(svc, HTTP))
  {
  }

  lemma ListenerIsAllowed(inp: Inputs, port: ServicePort, usable: Usable, isIp: string -> bool)
    requires (forall ip :: usable(ip) ==> isIp(ip)) && (forall ip :: ip in inp.src.vmiIps ==> isIp(ip))
    ensures var l := ListenerOf(inp, port, usable);
            ListenerAllowed(l, isIp) <==> AllServed(l) && PortFits(inp, port, usable)
  {
    var l := ListenerOf(inp, port, usable);
    BackendIsAllowed(inp.src, port.nodePort, usable, isIp);
    RouteIsAllowed(inp.svc);
    RuleIsAllowed(l.rules[0], isIp);
    assert AllServed(l) <==> l.rules[0].backends[0].endpoints != [];
  }

  /** Built listeners satisfy the API exactly when they pass `validateListeners` and every port fits. */
  lemma BuiltIsAllowed(inp: Inputs, usable: Usable, isIp: string -> bool)
    requires (forall ip :: usable(ip) ==> isIp(ip)) && (forall ip :: ip in inp.src.vmiIps ==> isIp(ip))
    ensures var ls := ListenersOf(inp, usable);
            (ls != [] && forall i :: 0 <= i < |ls| ==> ListenerAllowed(ls[i], isIp)) <==>
              Validated(ls) && forall i :: 0 <= i < |inp.svc.ports| ==> PortFits(inp, inp.svc.ports[i], usable)
  {
    var ls := ListenersOf(inp, usable);
    forall i | 0 <= i < |ls|
      ensures ListenerAllowed(ls[i], isIp) <==> AllServed(ls[i]) && PortFits(inp, inp.svc.ports[i], usable)
    {
      ListenerIsAllowed(inp, inp.svc.ports[i], usable, isIp);
    }
  }

  /** A route path over 1024 characters passes `validateListeners` and is rejected by the API. */
  lemma LongPathIsRejected(path: string, usable: Usable, isIp: string -> bool, ip: string) returns (inp: Inputs)
    requires |path| > 1024 && usable(ip) && forall x :: usable(x) ==> isIp(x)
    ensures inp.svc == Routed([ServicePort(80, 30080, PortTCP)], Some(path), None)
    ensures Validated(ListenersOf(inp, usable))
    ensures !ListenerAllowed(ListenersOf(inp, usable)[0], isIp)
  {
    var node := Node([NodeAddress(InternalIP, ip)]);
    inp := Inputs(Routed([ServicePort(80, 30080, PortTCP)], Some(path), None), Source([node], "", []));
    assert NodeAddress(InternalIP, ip) in Pairs([node]) by {
      assert node in [node] && NodeAddress(InternalIP, ip) in node.addresses;
    }
    WhatIsChosen(inp.src, 30080, usable, ip);
    ListenerIsAllowed(inp, inp.svc.ports[0], usable, isIp);
    assert EndpointsOf(inp.src, 30080, usable) != [];
  }
}
