/** One sync of a load balancer as a step over the durable annotations, the retry counters and the remote server. */
module Lifecycle {
  import opened Text
  import opened Listeners
  import opened ListenerIds
  import opened Deletion

  // ---- State ----

  datatype AnnKey = IdKey | CountKey | HashKey | InternalIpKey | IpTypeKey | NetworkKey | SubnetKey
                  | OtherKey(name: string)

  type Annotations = map<AnnKey, string>

  datatype LbRecord = LbRecord(live: bool, listeners: seq<Listener>)

  /** `byKey` remembers which load balancer each idempotency key created; deleted ones stay on record. */
  datatype Server = Server(byKey: map<string, string>, lbs: map<string, LbRecord>)

  datatype State = State(anns: Annotations, retries: map<string, nat>, server: Server)

  predicate Live(server: Server, id: string) {
    id in server.lbs && server.lbs[id].live
  }

  // ---- What the controller is given ----

  datatype Config = Config(onlyServiceController: bool, ipType: string, fipNetworkId: string)

  // `derive` is the name-based UUID of a space and a name, `hash` the listener fingerprint.
  datatype Ctx = Ctx(cfg: Config, uid: string, lbName: string, deleting: bool,
                     derive: (string, string) -> string, hash: seq<Listener> -> string)

  // ---- What the environment decides during one sync ----

  // RequestLost: an error without effect, lost or rejected. ResponseLost: an error although it took effect.
  datatype RpcFault = Fine | RequestLost | ResponseLost

  datatype WriteFault = Landed | Refused | LandedUnheard

  datatype LbState = UnspecifiedState | Pending | Provisioning | Ready | FailedState | Deleting | Deleted | Updating

  datatype FipState = UnspecifiedFip | NoFip | FipProvisioning | FipActive | FipRemoving

  /** What a Get shows of a load balancer besides its listeners. */
  datatype View = View(state: LbState, ip: string, fip: string, fipState: FipState)

  datatype GetReply = GetError | GotNothing | Got(view: View)

  // `assign` gives ids to the listeners of a new load balancer, `reconcile` applies an update to the current ones.
  datatype Oracle = Oracle(get: GetReply, polls: seq<GetReply>,
                           create: RpcFault, newId: string, assign: seq<Listener> -> seq<Listener>,
                           update: RpcFault, reconcile: (seq<Listener>, seq<Listener>) -> seq<Listener>,
                           delete: DeleteReply, pages: Chain,
                           idWrite: WriteFault, countWrite: WriteFault, hashWrite: WriteFault, ipWrite: WriteFault)

  datatype Failure = ImplementedElsewhere | NoBackends | NoFipNetwork | RpcError | AnnotationWrite | NotReady | NoId
                   | GaveUp

  datatype IpMode = VIP | Proxy

  datatype Outcome = Published(address: string, mode: IpMode) | NoStatus | Failed(reason: Failure)

  /** `creates` lists the idempotency keys sent. */
  datatype Step = Step(st: State, out: Outcome, creates: seq<string>)

  // ---- Reading annotations and configuration ----

  function Ann(anns: Annotations, k: AnnKey): string {
    if k in anns then anns[k] else ""
  }

  function Count(anns: Annotations): int {
    var n := Atoi(Ann(anns, CountKey));
    if n.Some? then n.value else 0
  }

  function KeyFor(c: Ctx, attempt: int): string {
    if attempt <= 0 then c.uid else c.derive(c.uid, Itoa(attempt))
  }

  // `strings.ToLower` on the characters whose lower case is an ASCII letter.
  function Lower(x: char): char {
    if 'A' <= x <= 'Z' then (x as int + 32) as char
    else if x == '\U{130}' then 'i'
    else if x == '\U{212A}' then 'k'
    else x
  }

  function ToLower(s: string): string {
    seq(|s|, i requires 0 <= i < |s| => Lower(s[i]))
  }

  function IpType(c: Ctx, anns: Annotations): string {
    ToLower(if Ann(anns, IpTypeKey) != "" then Ann(anns, IpTypeKey) else c.cfg.ipType)
  }

  predicate FipEnabled(c: Ctx, anns: Annotations) {
    IpType(c, anns) == "" || IpType(c, anns) == "external" || IpType(c, anns) == "both"
  }

  predicate ShouldSkip(c: Ctx, anns: Annotations) {
    c.cfg.onlyServiceController && (Ann(anns, NetworkKey) == "" || Ann(anns, SubnetKey) == "")
  }

  predicate ConfigChanged(c: Ctx, anns: Annotations, want: seq<Listener>) {
    Ann(anns, HashKey) != c.hash(want)
  }

  function Retries(retries: map<string, nat>, uid: string): nat {
    if uid in retries then retries[uid] else 0
  }

  function Cleared(st: State, uid: string): State {
    st.(retries := st.retries - {uid})
  }

  function Incremented(st: State, uid: string): State {
    st.(retries := st.retries[uid := Retries(st.retries, uid) + 1])
  }

  const MAX_RETRIES := 10
  const MAX_CREATES := 3

  // ---- The server's side ----

  /** A known key replays its load balancer, whatever listeners are sent; a new key creates one. */
  function Creation(server: Server, key: string, sent: seq<Listener>, o: Oracle): Server {
    if key in server.byKey then server
    else Server(server.byKey[key := o.newId], server.lbs[o.newId := LbRecord(true, o.assign(sent))])
  }

  function CreatedId(server: Server, key: string, o: Oracle): string {
    if key in server.byKey then server.byKey[key] else o.newId
  }

  function Removal(server: Server, id: string, reply: DeleteReply): Server {
    if TookEffect(reply) && id in server.lbs then
      server.(lbs := server.lbs[id := server.lbs[id].(live := false)])
    else server
  }

  function Held(server: Server, id: string): seq<Listener> {
    if id in server.lbs then server.lbs[id].listeners else []
  }

  function Updated(server: Server, id: string, sent: seq<Listener>, o: Oracle): Server {
    if o.update != RequestLost && Live(server, id) then
      server.(lbs := server.lbs[id := LbRecord(true, o.reconcile(Held(server, id), sent))])
    else server
  }

  // The listeners a Get shows.
  function Seen(server: Server, id: string, o: Oracle): seq<Listener> {
    if o.get.Got? then Held(server, id) else []
  }

  /** The update both entry points send: the desired listeners under the ids just read. */
  function UpdateSent(st: State, id: string, want: seq<Listener>, o: Oracle): State {
    st.(server := Updated(st.server, id, Merge(want, Seen(st.server, id, o)), o))
  }

  function Wrote(st: State, k: AnnKey, v: string, f: WriteFault): State {
    if f == Refused then st else st.(anns := st.anns[k := v])
  }

  // ---- Readiness ----

  predicate IsReady(view: View) {
    view.state == Ready && view.ip != ""
  }

  predicate Serves(view: View, fip: bool) {
    IsReady(view) && (!fip || view.fipState == FipActive)
  }

  predicate Decisive(r: GetReply, fip: bool) {
    r.Got? && (r.view.state == FailedState || Serves(r.view, fip))
  }

  /** The first observation that settles the matter decides; without one the poll times out or is cancelled. */
  function Poll(polls: seq<GetReply>, fip: bool): Option<View> {
    if polls == [] then None
    else if Decisive(polls[0], fip) then (if polls[0].view.state == FailedState then None else Some(polls[0].view))
    else Poll(polls[1..], fip)
  }

  function StatusOf(c: Ctx, snap: Annotations, view: View): Outcome {
    var ip := if FipEnabled(c, snap) && view.fip != "" then view.fip else view.ip;
    if ip == "" then NoStatus
    else Published(ip, if c.cfg.onlyServiceController && IpType(c, snap) == "internal" then Proxy else VIP)
  }

  function StoredIp(c: Ctx, snap: Annotations, st: State, view: View, o: Oracle): State {
    if IpType(c, snap) == "both" && view.ip != "" then Wrote(st, InternalIpKey, view.ip, o.ipWrite) else st
  }

  /** Poll, then publish; `failed` and `ready` are the states to end in. */
  function Await(c: Ctx, snap: Annotations, failed: State, ready: State, o: Oracle, creates: seq<string>): Step {
    var v := Poll(o.polls, FipEnabled(c, snap));
    if v.None? then Step(failed, Failed(NotReady), creates)
    else Step(StoredIp(c, snap, ready, v.value, o), StatusOf(c, snap, v.value), creates)
  }

  // ---- EnsureLoadBalancer; `snap` are the annotations of the Service object passed in ----

  /** What the durable side and the counters become when a creation was heard and named. */
  function Written(c: Ctx, want: seq<Listener>, st: State, o: Oracle, key: string, count: int): State {
    var made := st.(server := Creation(st.server, key, want, o));
    var named := Wrote(made, IdKey, CreatedId(st.server, key, o), o.idWrite);
    var counted := Wrote(named, CountKey, Itoa(count), o.countWrite);
    Cleared(Wrote(counted, HashKey, c.hash(want), o.hashWrite), c.uid)
  }

  function CreateStep(c: Ctx, snap: Annotations, want: seq<Listener>, st: State, o: Oracle, key: string,
                      count: int): Step {
    if FipEnabled(c, snap) && c.cfg.fipNetworkId == "" then Step(st, Failed(NoFipNetwork), [])
    else if o.create == RequestLost then Step(st, Failed(RpcError), [key])
    else
      var made := st.(server := Creation(st.server, key, want, o));
      if o.create == ResponseLost then Step(made, Failed(RpcError), [key])
      else
        var named := Wrote(made, IdKey, CreatedId(st.server, key, o), o.idWrite);
        if o.idWrite != Landed then Step(named, Failed(AnnotationWrite), [key])
        else
          var done := Written(c, want, st, o, key, count);
          Await(c, snap, done, done, o, [key])
  }

  function ReadyStep(c: Ctx, snap: Annotations, want: seq<Listener>, st: State, o: Oracle, view: View): Step {
    var id := Ann(snap, IdKey);
    if ConfigChanged(c, snap, want) then
      var sent := UpdateSent(st, id, want, o);
      if o.update != Fine || !Live(st.server, id) then Step(sent, Failed(RpcError), [])
      else
        var done := Wrote(sent, HashKey, c.hash(want), o.hashWrite);
        Await(c, snap, done, done, o, [])
    else if FipEnabled(c, snap) && view.fipState != FipActive then Await(c, snap, st, st, o, [])
    else Step(Cleared(st, c.uid), StatusOf(c, snap, view), [])
  }

  function RecreateStep(c: Ctx, snap: Annotations, want: seq<Listener>, st: State, o: Oracle): Step {
    var count := Count(snap);
    if count >= MAX_CREATES then Step(st, Failed(GaveUp), [])
    else if FipEnabled(c, snap) && c.cfg.fipNetworkId == "" then Step(st, Failed(NoFipNetwork), [])
    else
      var gone := st.(server := Removal(st.server, Ann(snap, IdKey), o.delete));
      CreateStep(c, snap, want, gone, o, KeyFor(c, count + 1), count + 1)
  }

  function NotReadyStep(c: Ctx, snap: Annotations, want: seq<Listener>, st: State, o: Oracle): Step {
    var id := Ann(snap, IdKey);
    if Retries(st.retries, c.uid) >= MAX_RETRIES then RecreateStep(c, snap, want, st, o)
    else if ConfigChanged(c, snap, want) then
      var sent := UpdateSent(st, id, want, o);
      if o.update != Fine || !Live(st.server, id) then Step(Incremented(sent, c.uid), Failed(RpcError), [])
      else
        var done := Wrote(sent, HashKey, c.hash(want), o.hashWrite);
        Await(c, snap, Incremented(done, c.uid), Cleared(done, c.uid), o, [])
    else Step(Incremented(st, c.uid), Failed(NotReady), [])
  }

  function EnsureStep(c: Ctx, snap: Annotations, want: seq<Listener>, st: State, o: Oracle): Step {
    if ShouldSkip(c, snap) then Step(st, Failed(ImplementedElsewhere), [])
    else if c.deleting then Step(DeleteStep(c, snap, st, o).st, NoStatus, [])
    else if !Validated(want) then Step(st, Failed(NoBackends), [])
    else if Ann(snap, IdKey) == "" then CreateStep(c, snap, want, st, o, KeyFor(c, Count(snap)), 1)
    else if o.get == GetError then Step(st, Failed(RpcError), [])
    else if o.get.Got? && IsReady(o.get.view) then ReadyStep(c, snap, want, st, o, o.get.view)
    else NotReadyStep(c, snap, want, st, o)
  }

  // ---- UpdateLoadBalancer and EnsureLoadBalancerDeleted ----

  function UpdateStep(c: Ctx, snap: Annotations, want: seq<Listener>, st: State, o: Oracle): Step {
    var id := Ann(snap, IdKey);
    if ShouldSkip(c, snap) && id == "" then Step(st, NoStatus, [])
    else if id == "" then Step(st, Failed(NoId), [])
    else if !Validated(want) then Step(st, Failed(NoBackends), [])
    else if !ConfigChanged(c, snap, want) then Step(st, NoStatus, [])
    else if o.get == GetError then Step(st, Failed(RpcError), [])
    else
      var sent := UpdateSent(st, id, want, o);
      if o.update != Fine || !Live(st.server, id) then Step(sent, Failed(RpcError), [])
      else Step(Wrote(sent, HashKey, c.hash(want), o.hashWrite), NoStatus, [])
  }

  function DeleteStep(c: Ctx, snap: Annotations, st: State, o: Oracle): Step {
    if ShouldSkip(c, snap) && Ann(snap, IdKey) == "" then Step(st, NoStatus, [])
    else
      var cleared := Cleared(st, c.uid);
      var found := if Ann(snap, IdKey) != "" then Some(Ann(snap, IdKey)) else FindByName(o.pages, c.lbName);
      if found.None? then Step(cleared, Failed(RpcError), [])
      else if found.value == "" then Step(cleared, NoStatus, [])
      else
        var gone := cleared.(server := Removal(cleared.server, found.value, o.delete));
        Step(gone, if DeleteSucceeds(o.delete) then NoStatus else Failed(RpcError), [])
  }

  // ---- What the server may answer ----

  /** The server gives each new load balancer an id of its own. */
  ghost predicate FreshId(server: Server, o: Oracle) {
    o.newId != "" && o.newId !in server.lbs
  }
}
